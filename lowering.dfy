/**
 * ErrorHandlingVisitor of compiler/passes/errorHandling.cpp: the mutating
 * walk that replaces try, catch, throw and calls of throwing functions by
 * error temporaries, nil tests, labels and gotos.  The class keeps the two
 * TryInfo stacks of the source; each hook and the walk are proved against
 * the functions of LowerSpec, and the walk leaves both stacks as it found
 * them.  A subtree the source edits in place is returned rebuilt.
 */
module Lowering {
  import opened Ast
  import opened LowerSpec

  /** The record pushed by enterTryStmt. */
  datatype TryInfo = TryInfo(errorVar: Var, handlerLabel: Label, tryStmt: Stmt, tryBody: seq<Stmt>)

  /** The innermost try of a stack, as the functions of LowerSpec see it. */
  function TopOf(ts: seq<TryInfo>): (r: Option<TryCtx>)
    ensures r.None? <==> ts == []
    ensures ts != [] ==> r.value.errorVar == ts[|ts| - 1].errorVar && r.value.handlerLabel == ts[|ts| - 1].handlerLabel
  {
    if ts == [] then None else Some(TryCtx(ts[|ts| - 1].errorVar, ts[|ts| - 1].handlerLabel))
  }

  /**
   * A link of the handlers chain that lowerCatches has closed: its
   * statements, then a branch on `test` whose then part is a catch body and
   * whose else part is the next link.
   */
  datatype Link = Link(before: seq<Stmt>, test: Var, thenB: seq<Stmt>)

  /** The chain whose closed links are `links` and whose open (current) link holds `last`. */
  function Plug(links: seq<Link>, last: seq<Stmt>): seq<Stmt>
    decreases |links|
  {
    if links == [] then last
    else links[0].before + [Cond(links[0].test, links[0].thenB, Plug(links[1..], last))]
  }

  /** Closing the open link with a branch and starting an empty one keeps the chain. */
  lemma {:induction false} PlugClose(links: seq<Link>, before: seq<Stmt>, test: Var, thenB: seq<Stmt>, rest: seq<Stmt>)
    ensures Plug(links, before + [Cond(test, thenB, rest)]) == Plug(links + [Link(before, test, thenB)], rest)
    decreases |links|
  {
    if links != [] {
      assert (links + [Link(before, test, thenB)])[1..] == links[1..] + [Link(before, test, thenB)];
      PlugClose(links[1..], before, test, thenB, rest);
    }
  }

  /**
   * The loop invariant of lowerCatches: the closed links, the open link and
   * the chain of the clauses not yet visited make up the whole chain, and
   * the reports made so far and those still to come make up all of them.
   */
  ghost predicate Builds(links: seq<Link>, curr: seq<Stmt>, fatals: seq<Msg>, rest: Chain, whole: Chain, fatals0: seq<Msg>)
  {
    && Plug(links, curr + rest.stmts) == whole.stmts
    && rest.next == whole.next
    && fatals + rest.fatals == fatals0 + whole.fatals
  }

  function Misplaced(seen: bool): seq<Msg> {
    if seen then [CatchAllNotLast] else []
  }

  /** A bare `catch` goes into the open link. */
  lemma {:induction false} StepCatchAll(env: LEnv, top: Option<TryCtx>, e: Var, bang: bool, cs: seq<Catch>, seen: bool, n: nat,
                     links: seq<Link>, curr: seq<Stmt>, fatals: seq<Msg>, whole: Chain, fatals0: seq<Msg>)
    requires cs != [] && cs[0].binding.None?
    requires Builds(links, curr, fatals, Handlers(env, top, e, bang, cs, seen, n), whole, fatals0)
    ensures Builds(links, curr + [Block(cs[0].body + [DeleteError(e)])], fatals + Misplaced(seen),
                   Handlers(env, top, e, bang, cs[1..], true, n), whole, fatals0)
  {
    var rest := Handlers(env, top, e, bang, cs[1..], true, n);
    assert curr + ([Block(cs[0].body + [DeleteError(e)])] + rest.stmts)
        == curr + [Block(cs[0].body + [DeleteError(e)])] + rest.stmts;
    assert fatals + (Misplaced(seen) + rest.fatals) == fatals + Misplaced(seen) + rest.fatals;
  }

  /** A `catch e: Error` goes into the open link, under its own nil test. */
  lemma {:induction false} StepNamedCatchAll(env: LEnv, top: Option<TryCtx>, e: Var, bang: bool, cs: seq<Catch>, seen: bool, n: nat,
                          links: seq<Link>, curr: seq<Stmt>, fatals: seq<Msg>, whole: Chain, fatals0: seq<Msg>)
    requires cs != [] && cs[0].binding.Some? && cs[0].binding.value.ty == ErrorTop
    requires Builds(links, curr, fatals, Handlers(env, top, e, bang, cs, seen, n), whole, fatals0)
    ensures var v := UserVar(cs[0].binding.value.name);
            Builds(links, curr + [Def(VarSym(v))] + [Move(v, Of(e))]
                            + ErrorCond(ExistsTemp(n), v, cs[0].body + [DeleteError(e)], []),
                   fatals + Misplaced(seen), Handlers(env, top, e, bang, cs[1..], true, n + 1), whole, fatals0)
  {
    var v := UserVar(cs[0].binding.value.name);
    var rest := Handlers(env, top, e, bang, cs[1..], true, n + 1);
    var piece := ErrorCond(ExistsTemp(n), v, cs[0].body + [DeleteError(e)], []);
    assert curr + ([Def(VarSym(v)), Move(v, Of(e))] + piece + rest.stmts)
        == curr + [Def(VarSym(v))] + [Move(v, Of(e))] + piece + rest.stmts;
    assert fatals + (Misplaced(seen) + rest.fatals) == fatals + Misplaced(seen) + rest.fatals;
  }

  /** A `catch e: T` for a subclass closes the open link with its test; the next clause starts a new one. */
  lemma {:induction false} StepTyped(env: LEnv, top: Option<TryCtx>, e: Var, bang: bool, cs: seq<Catch>, seen: bool, n: nat,
                  links: seq<Link>, curr: seq<Stmt>, fatals: seq<Msg>, whole: Chain, fatals0: seq<Msg>)
    requires cs != [] && cs[0].binding.Some? && cs[0].binding.value.ty != ErrorTop
    requires Builds(links, curr, fatals, Handlers(env, top, e, bang, cs, seen, n), whole, fatals0)
    ensures var v := UserVar(cs[0].binding.value.name);
            var before := curr + [Def(VarSym(v))] + [Move(v, DynamicCastTo(cs[0].binding.value.ty, e))]
                          + [Def(VarSym(ExistsTemp(n))), Move(ExistsTemp(n), NotNil(v))];
            Builds(links + [Link(before, ExistsTemp(n), cs[0].body + [DeleteError(e)])], [],
                   fatals + Misplaced(seen), Handlers(env, top, e, bang, cs[1..], seen, n + 1), whole, fatals0)
  {
    var v := UserVar(cs[0].binding.value.name);
    var body := cs[0].body + [DeleteError(e)];
    var before := curr + [Def(VarSym(v))] + [Move(v, DynamicCastTo(cs[0].binding.value.ty, e))]
                  + [Def(VarSym(ExistsTemp(n))), Move(ExistsTemp(n), NotNil(v))];
    var rest := Handlers(env, top, e, bang, cs[1..], seen, n + 1);
    assert curr + Handlers(env, top, e, bang, cs, seen, n).stmts == before + [Cond(ExistsTemp(n), body, rest.stmts)];
    PlugClose(links, before, ExistsTemp(n), body, rest.stmts);
    assert [] + rest.stmts == rest.stmts;
    assert fatals + (Misplaced(seen) + rest.fatals) == fatals + Misplaced(seen) + rest.fatals;
  }

  /** With every clause visited, the open link ends with the fallback, if there is one. */
  lemma {:induction false} StepDone(env: LEnv, top: Option<TryCtx>, e: Var, bang: bool, seen: bool, n: nat,
                 links: seq<Link>, curr: seq<Stmt>, fatals: seq<Msg>, whole: Chain, fatals0: seq<Msg>)
    requires Builds(links, curr, fatals, Handlers(env, top, e, bang, [], seen, n), whole, fatals0)
    ensures var fb := Fallback(env, top, e, bang);
            && n == whole.next
            && (seen ==> Plug(links, curr) == whole.stmts && fatals == fatals0 + whole.fatals)
            && (!seen ==> Plug(links, curr + fb.0) == whole.stmts && fatals + fb.1 == fatals0 + whole.fatals)
  {
    assert curr + [] == curr;
  }

  class ErrorHandlingVisitor {
    var tryStack: seq<TryInfo>
    var catchesStack: seq<TryInfo>
    const outError: Option<Var>
    const epilogue: Option<Label>
    /** fStrictErrorHandling, a global of the compiler. */
    const strict: bool
    /** The functions whose throwsError() holds, read through resolvedFunction(). */
    const throwing: set<FnId>
    /** Counter standing for the identity of the symbols newTemp and new LabelSymbol create. */
    var next: nat
    /** The INT_FATAL reports. */
    var fatals: seq<Msg>

    /** The driver passes both an out formal and an epilogue, or neither. */
    predicate OutConsistent() {
      outError.Some? == epilogue.Some?
    }

    function Env(): LEnv
    {
      LEnv(if outError.Some? && epilogue.Some? then Some(OutParam(outError.value, epilogue.value)) else None,
           strict, throwing)
    }

    function State(): LState reads this {
      LState(next, fatals)
    }

    constructor(outFormal: Option<Var>, epilogueLabel: Option<Label>, strictMode: bool, throwingFns: set<FnId>)
      requires outFormal.Some? == epilogueLabel.Some?
      ensures OutConsistent() && outError == outFormal && epilogue == epilogueLabel
      ensures strict == strictMode && throwing == throwingFns
      ensures tryStack == [] && catchesStack == [] && State() == LState(0, [])
    {
      outError := outFormal;
      epilogue := epilogueLabel;
      strict := strictMode;
      throwing := throwingFns;
      tryStack := [];
      catchesStack := [];
      next := 0;
      fatals := [];
    }

    method EnterTryStmt(node: Stmt)
      requires node.Try?
      modifies this
      ensures tryStack == old(tryStack) + [TryInfo(ErrorTemp(old(next)), Handler(old(next)), node, node.body)]
      ensures catchesStack == old(catchesStack)
      ensures State() == old(State()).(next := old(next) + 1)
    {
      var n := next;
      next := next + 1;
      var errorVar := ErrorTemp(n);
      var handlerLabel := Handler(n);
      var info := TryInfo(errorVar, handlerLabel, node, node.body);
      tryStack := tryStack + [info];
    }

    /**
     * exitTryStmt, given the try body as lowered so far: pop the try, frame
     * its body with the error temporary and the handler label; with no
     * catches lower the (empty) catch list at once, otherwise defer that to
     * the last exitCatchStmt.  Returns the replacement body when it is done.
     */
    method ExitTryStmt(node: Stmt, loweredBody: seq<Stmt>) returns (replacement: Option<seq<Stmt>>)
      requires node.Try? && tryStack != [] && tryStack[|tryStack| - 1].tryStmt == node
      requires OutConsistent()
      modifies this
      ensures var info := old(tryStack[|tryStack| - 1]);
              var framed := [Def(VarSym(info.errorVar))] + loweredBody + [Def(LabelSym(info.handlerLabel))];
              && tryStack == old(tryStack[..|tryStack| - 1])
              && (node.catches == [] ==>
                    var r := LowerSpec.LowerCatches(Env(), TopOf(tryStack), TryCtx(info.errorVar, info.handlerLabel),
                                                    node.bang, [], old(State()));
                    catchesStack == old(catchesStack) && replacement == Some(framed + r.0) && State() == r.1)
              && (node.catches != [] ==>
                    catchesStack == old(catchesStack) + [info.(tryBody := framed)]
                    && replacement.None? && State() == old(State()))
    {
      var info := tryStack[|tryStack| - 1];
      tryStack := tryStack[..|tryStack| - 1];
      var tryBody := [Def(VarSym(info.errorVar))] + loweredBody + [Def(LabelSym(info.handlerLabel))];
      info := info.(tryBody := tryBody);
      if node.catches == [] {
        var body := LowerCatches(info, []);
        replacement := Some(body);
      } else {
        catchesStack := catchesStack + [info];
        replacement := None;
      }
    }

    /** exitCatchStmt: only the last clause of a list lowers the catch structure. */
    method ExitCatchStmt(isLast: bool, loweredCatches: seq<Catch>) returns (replacement: Option<seq<Stmt>>)
      requires isLast ==> catchesStack != [] && catchesStack[|catchesStack| - 1].tryStmt.Try?
      requires OutConsistent()
      modifies this
      ensures tryStack == old(tryStack)
      ensures !isLast ==> catchesStack == old(catchesStack) && State() == old(State()) && replacement.None?
      ensures isLast ==>
        var info := old(catchesStack[|catchesStack| - 1]);
        var r := LowerSpec.LowerCatches(Env(), TopOf(tryStack), TryCtx(info.errorVar, info.handlerLabel),
                                        info.tryStmt.bang, loweredCatches, old(State()));
        catchesStack == old(catchesStack[..|catchesStack| - 1])
        && replacement == Some(info.tryBody + r.0) && State() == r.1
    {
      replacement := None;
      if isLast {
        var info := catchesStack[|catchesStack| - 1];
        catchesStack := catchesStack[..|catchesStack| - 1];
        var body := LowerCatches(info, loweredCatches);
        replacement := Some(body);
      }
    }

    /**
     * lowerCatches: build the handlers chain over the clauses in source
     * order, install the fallback when no clause catches everything, and
     * append the chain under `if error != nil` to the try body.
     */
    method LowerCatches(info: TryInfo, catches: seq<Catch>) returns (body: seq<Stmt>)
      requires info.tryStmt.Try? && OutConsistent()
      modifies this`next, this`fatals
      ensures var r := LowerSpec.LowerCatches(Env(), TopOf(tryStack), TryCtx(info.errorVar, info.handlerLabel),
                                              info.tryStmt.bang, catches, old(State()));
              body == info.tryBody + r.0 && State() == r.1
    {
      var errorVar := info.errorVar;
      var bang := info.tryStmt.bang;
      ghost var top := TopOf(tryStack);
      ghost var env := Env();
      ghost var whole := Handlers(env, top, errorVar, bang, catches, false, next);
      ghost var fatals0 := fatals;

      var links: seq<Link> := [];
      var currHandler: seq<Stmt> := [];
      var hasCatchAll := false;
      var i := 0;
      while i < |catches|
        invariant 0 <= i <= |catches|
        invariant Builds(links, currHandler, fatals, Handlers(env, top, errorVar, bang, catches[i..], hasCatchAll, next),
                         whole, fatals0)
      {
        assert catches[i..][1..] == catches[i + 1..];
        ghost var links0, curr0, seen0, n0, fatalsBefore := links, currHandler, hasCatchAll, next, fatals;
        if hasCatchAll {
          fatals := fatals + [CatchAllNotLast];
        }
        assert fatals == fatalsBefore + Misplaced(seen0);
        var c := catches[i];
        var catchBody := c.body + [DeleteError(errorVar)];
        if c.binding.None? {
          // catchall
          hasCatchAll := true;
          currHandler := currHandler + [Block(catchBody)];
          StepCatchAll(env, top, errorVar, bang, catches[i..], seen0, n0, links0, curr0, fatalsBefore, whole, fatals0);
        } else {
          var errSym := UserVar(c.binding.value.name);
          var errType := c.binding.value.ty;
          currHandler := currHandler + [Def(VarSym(errSym))];
          if errType == ErrorTop {
            // named catchall
            hasCatchAll := true;
            currHandler := currHandler + [Move(errSym, Of(errorVar))];
            var existsVar := ExistsTemp(next);
            next := next + 1;
            currHandler := currHandler + ErrorCond(existsVar, errSym, catchBody, []);
            StepNamedCatchAll(env, top, errorVar, bang, catches[i..], seen0, n0, links0, curr0, fatalsBefore, whole, fatals0);
          } else {
            // specified catch: the else branch of its test is the next link
            currHandler := currHandler + [Move(errSym, DynamicCastTo(errType, errorVar))];
            var existsVar := ExistsTemp(next);
            next := next + 1;
            var before := currHandler + [Def(VarSym(existsVar)), Move(existsVar, NotNil(errSym))];
            links := links + [Link(before, existsVar, catchBody)];
            currHandler := [];
            StepTyped(env, top, errorVar, bang, catches[i..], seen0, n0, links0, curr0, fatalsBefore, whole, fatals0);
          }
        }
        i := i + 1;
      }

      assert catches[i..] == [];
      StepDone(env, top, errorVar, bang, hasCatchAll, next, links, currHandler, fatals, whole, fatals0);
      if !hasCatchAll {
        currHandler := AddFallback(currHandler, errorVar, bang);
      }
      var handlers := Plug(links, currHandler);
      assert handlers == whole.stmts && fatals == fatals0 + whole.fatals;
      var existsVar := ExistsTemp(next);
      next := next + 1;
      body := info.tryBody + ErrorCond(existsVar, errorVar, handlers, []);
    }

    /**
     * The end of lowerCatches's handlers chain when no clause catches
     * everything: halt for try!, pass the error to the enclosing try, or
     * return it through the out formal; an internal error otherwise.
     */
    method AddFallback(curr: seq<Stmt>, errorVar: Var, bang: bool) returns (h: seq<Stmt>)
      requires OutConsistent()
      modifies this`fatals
      ensures var fb := Fallback(Env(), TopOf(tryStack), errorVar, bang);
              h == curr + fb.0 && fatals == old(fatals) + fb.1
    {
      h := curr;
      if bang {
        h := h + [Halt];
      } else if tryStack != [] {
        var outerTry := tryStack[|tryStack| - 1];
        h := h + [Move(outerTry.errorVar, Of(errorVar)), Goto(GotoErrorHandling, outerTry.handlerLabel)];
      } else if outError.Some? {
        h := h + SetOutGotoEpilogue(OutParam(outError.value, epilogue.value), errorVar);
      } else {
        fatals := fatals + [TryWithoutCatchAll];
      }
    }

    /** enterCallExpr: a call of a throwing function, or PRIM_THROW. */
    method EnterCallExpr(node: Stmt) returns (r: seq<Stmt>)
      requires node.Call? || node.Throw?
      requires OutConsistent()
      modifies this`next, this`fatals
      ensures (r, State()) == if node.Call? then LowerCall(Env(), TopOf(tryStack), old(State()), node.callee, node.args)
                              else LowerThrow(Env(), TopOf(tryStack), old(State()), node.thrown)
    {
      var insideTry := tryStack != [];
      if node.Call? {
        r := [node];
        if node.callee.Resolved? && node.callee.fn in throwing {
          var errorVar: Var;
          var errorPolicy: seq<Stmt>;
          var before: seq<Stmt> := [];
          if insideTry {
            var info := tryStack[|tryStack| - 1];
            errorVar := info.errorVar;
            errorPolicy := [Goto(GotoErrorHandling, info.handlerLabel)];
          } else if strict {
            fatals := fatals + [ThrowingCallWithoutTry];
            return;
          } else {
            // without try, need an error variable
            errorVar := ErrorTemp(next);
            next := next + 1;
            before := [Def(VarSym(errorVar))];
            if outError.Some? {
              errorPolicy := SetOutGotoEpilogue(OutParam(outError.value, epilogue.value), errorVar);
            } else {
              errorPolicy := [Halt];
            }
          }
          var call := Call(node.callee, node.args + [errorVar]); // adding error argument to call
          var existsVar := ExistsTemp(next);
          next := next + 1;
          r := before + [call] + ErrorCond(existsVar, errorVar, errorPolicy, []);
          assert insideTry ==> r == [call] + ErrorCond(existsVar, errorVar, errorPolicy, []);
          assert !insideTry ==> before + [call] == [Def(VarSym(errorVar)), call];
          assert (r, State()) == LowerCall(Env(), TopOf(tryStack), old(State()), node.callee, node.args);
        } else {
          assert (r, State()) == LowerCall(Env(), TopOf(tryStack), old(State()), node.callee, node.args);
        }
      } else {
        var thrownError := node.thrown;
        var throwBlock: seq<Stmt> := [];
        if insideTry {
          var info := tryStack[|tryStack| - 1];
          throwBlock := [Move(info.errorVar, CastTo(ErrorTop, thrownError)),
                         Goto(GotoErrorHandling, info.handlerLabel)];
        } else if outError.Some? {
          throwBlock := SetOutGotoEpilogue(OutParam(outError.value, epilogue.value), thrownError);
        } else {
          fatals := fatals + [ThrowInNonThrowingFn];
        }
        r := [Block(throwBlock)];
        assert (r, State()) == LowerThrow(Env(), TopOf(tryStack), old(State()), node.thrown);
      }
    }

    /** The walk over one statement; returns what replaces it in its list. */
    method Accept(s: Stmt) returns (r: seq<Stmt>)
      requires OutConsistent()
      modifies this
      ensures tryStack == old(tryStack) && catchesStack == old(catchesStack)
      ensures (r, State()) == LowerStmt(Env(), TopOf(tryStack), old(State()), s)
      decreases s
    {
      match s
      case Block(b) =>
        var b' := AcceptAll(b);
        r := [Block(b')];
      case Cond(t, th, el) =>
        var th' := AcceptAll(th);
        var el' := AcceptAll(el);
        r := [Cond(t, th', el')];
      case Try(b, cs, bang) =>
        EnterTryStmt(s);
        var b' := AcceptAll(b);
        var replaced := ExitTryStmt(s, b');
        if cs == [] {
          r := [Block(replaced.value)];
        } else {
          var body := AcceptCatches(cs);
          r := [Block(body)];
        }
      case Call(_, _) =>
        r := EnterCallExpr(s);
      case Throw(_) =>
        r := EnterCallExpr(s);
      case _ =>
        r := [s];
    }

    method AcceptAll(ss: seq<Stmt>) returns (r: seq<Stmt>)
      requires OutConsistent()
      modifies this
      ensures tryStack == old(tryStack) && catchesStack == old(catchesStack)
      ensures (r, State()) == LowerStmts(Env(), TopOf(tryStack), old(State()), ss)
      decreases ss
    {
      if ss == [] {
        r := [];
      } else {
        var a := Accept(ss[0]);
        var rest := AcceptAll(ss[1..]);
        r := a + rest;
      }
    }

    /**
     * The walk over a try's catch clauses, after its exitTryStmt: each body
     * is lowered with the enclosing try innermost, and the exitCatchStmt of
     * the last clause pops the deferred record and lowers the catches.
     */
    method AcceptCatches(cs: seq<Catch>) returns (body: seq<Stmt>)
      requires cs != [] && catchesStack != [] && catchesStack[|catchesStack| - 1].tryStmt.Try?
      requires OutConsistent()
      modifies this
      ensures tryStack == old(tryStack) && catchesStack == old(catchesStack[..|catchesStack| - 1])
      ensures var info := old(catchesStack[|catchesStack| - 1]);
              var lowered := LowerCatchBodies(Env(), TopOf(tryStack), old(State()), cs);
              var r := LowerSpec.LowerCatches(Env(), TopOf(tryStack), TryCtx(info.errorVar, info.handlerLabel),
                                              info.tryStmt.bang, lowered.0, lowered.1);
              body == info.tryBody + r.0 && State() == r.1
      decreases cs
    {
      ghost var top := TopOf(tryStack);
      ghost var all := LowerCatchBodies(Env(), top, State(), cs);
      ghost var info := catchesStack[|catchesStack| - 1];
      ghost var stack0 := catchesStack;
      var lowered: seq<Catch> := [];
      var done: Option<seq<Stmt>> := None;
      var i := 0;
      while i < |cs|
        invariant 0 <= i <= |cs|
        invariant tryStack == old(tryStack)
        invariant i < |cs| ==> catchesStack == stack0 && lowered == all.0[..i]
                               && LowerCatchBodies(Env(), top, State(), cs[i..]) == (all.0[i..], all.1)
        invariant i == |cs| ==>
          var r := LowerSpec.LowerCatches(Env(), top, TryCtx(info.errorVar, info.handlerLabel),
                                          info.tryStmt.bang, all.0, all.1);
          catchesStack == stack0[..|stack0| - 1] && done == Some(info.tryBody + r.0) && State() == r.1
      {
        assert cs[i..][1..] == cs[i + 1..];
        assert cs[i] in cs;
        ghost var st0 := State();
        var b' := AcceptAll(cs[i].body);
        ghost var rest := LowerCatchBodies(Env(), top, State(), cs[i + 1..]);
        assert LowerCatchBodies(Env(), top, st0, cs[i..]) == ([Catch(cs[i].binding, b')] + rest.0, rest.1);
        assert all.0[i..] == [Catch(cs[i].binding, b')] + rest.0;
        assert all.0[i] == Catch(cs[i].binding, b') && all.0[i + 1..] == rest.0;
        lowered := lowered + [Catch(cs[i].binding, b')];
        assert all.0[..i + 1] == all.0[..i] + [all.0[i]];
        if i == |cs| - 1 {
          assert cs[i + 1..] == [] && rest == ([], State());
          assert lowered == all.0 && State() == all.1;
        }
        done := ExitCatchStmt(i == |cs| - 1, lowered);
        i := i + 1;
      }
      body := done.value;
    }
  }
}
