/**
 * Properties of the lowering as a whole: nothing of try and throw is left,
 * the only handlers a rewritten statement jumps to are the innermost try's
 * and the ones it creates itself, the internal errors lowerCatches reports
 * are exactly the misplaced catch-alls and the missing fallback, and a body
 * that checkErrorHandling accepts is lowered without any internal error.
 */
module LowerProps {
  import opened Ast
  import opened LowerSpec
  import opened CanThrow

  // ------------------------------------------------ no try and no throw left

  predicate Clean(s: Stmt)
    decreases s
  {
    match s
    case Try(_, _, _) => false
    case Throw(_) => false
    case Block(b) => AllClean(b)
    case Cond(_, t, e) => AllClean(t) && AllClean(e)
    case _ => true
  }

  predicate AllClean(ss: seq<Stmt>)
    decreases ss
  {
    forall i :: 0 <= i < |ss| ==> Clean(ss[i])
  }

  predicate CatchesClean(cs: seq<Catch>) {
    forall i :: 0 <= i < |cs| ==> AllClean(cs[i].body)
  }

  lemma {:induction false} AllCleanAppend(a: seq<Stmt>, b: seq<Stmt>)
    ensures AllClean(a + b) <==> AllClean(a) && AllClean(b)
  {
    if AllClean(a) && AllClean(b) {
      forall i | 0 <= i < |a + b| ensures Clean((a + b)[i]) {
        if i < |a| { assert (a + b)[i] == a[i]; } else { assert (a + b)[i] == b[i - |a|]; }
      }
    }
    if AllClean(a + b) {
      forall i | 0 <= i < |a| ensures Clean(a[i]) { assert (a + b)[i] == a[i]; }
      forall i | 0 <= i < |b| ensures Clean(b[i]) { assert (a + b)[|a| + i] == b[i]; }
    }
  }

  lemma {:induction false} ErrorCondClean(existsVar: Var, errorVar: Var, thenB: seq<Stmt>, elseB: seq<Stmt>)
    requires AllClean(thenB) && AllClean(elseB)
    ensures AllClean(ErrorCond(existsVar, errorVar, thenB, elseB))
  {
    var ec := ErrorCond(existsVar, errorVar, thenB, elseB);
    assert Clean(ec[2]);
  }

  /** The handlers chain over clean catch bodies is clean: the pass adds no try and no throw. */
  lemma {:induction false} HandlersClean(env: LEnv, top: Option<TryCtx>, ev: Var, bang: bool,
                                         cs: seq<Catch>, seen: bool, n: nat)
    requires CatchesClean(cs)
    ensures AllClean(Handlers(env, top, ev, bang, cs, seen, n).stmts)
    decreases |cs|
  {
    if cs != [] {
      assert CatchesClean(cs[1..]) by {
        forall i | 0 <= i < |cs[1..]| ensures AllClean(cs[1..][i].body) { assert cs[1..][i] == cs[i + 1]; }
      }
      var body := cs[0].body + [DeleteError(ev)];
      AllCleanAppend(cs[0].body, [DeleteError(ev)]);
      match cs[0].binding
      case None =>
        var rest := Handlers(env, top, ev, bang, cs[1..], true, n);
        HandlersClean(env, top, ev, bang, cs[1..], true, n);
        AllCleanAppend([Block(body)], rest.stmts);
      case Some(b) =>
        var v := UserVar(b.name);
        if b.ty == ErrorTop {
          var rest := Handlers(env, top, ev, bang, cs[1..], true, n + 1);
          HandlersClean(env, top, ev, bang, cs[1..], true, n + 1);
          AllCleanAppend([Def(VarSym(v)), Move(v, Of(ev))] + ErrorCond(ExistsTemp(n), v, body, []), rest.stmts);
          AllCleanAppend([Def(VarSym(v)), Move(v, Of(ev))], ErrorCond(ExistsTemp(n), v, body, []));
        } else {
          var rest := Handlers(env, top, ev, bang, cs[1..], seen, n + 1);
          HandlersClean(env, top, ev, bang, cs[1..], seen, n + 1);
          AllCleanAppend([Def(VarSym(v)), Move(v, DynamicCastTo(b.ty, ev))], ErrorCond(ExistsTemp(n), v, body, rest.stmts));
        }
    }
  }

  /** After lowering, no try statement and no throw is left anywhere, catch bodies included. */
  lemma {:induction false} LowerStmtsClean(env: LEnv, top: Option<TryCtx>, st: LState, ss: seq<Stmt>)
    ensures AllClean(LowerStmts(env, top, st, ss).0)
    decreases ss, 2
  {
    if ss != [] {
      var (a, st1) := LowerStmt(env, top, st, ss[0]);
      LowerStmtClean(env, top, st, ss[0]);
      LowerStmtsClean(env, top, st1, ss[1..]);
      AllCleanAppend(a, LowerStmts(env, top, st1, ss[1..]).0);
    }
  }

  lemma {:induction false} LowerStmtClean(env: LEnv, top: Option<TryCtx>, st: LState, s: Stmt)
    ensures AllClean(LowerStmt(env, top, st, s).0)
    decreases s, 1
  {
    match s
    case Block(b) => LowerStmtsClean(env, top, st, b);
    case Cond(t, th, el) =>
      LowerStmtsClean(env, top, st, th);
      LowerStmtsClean(env, top, LowerStmts(env, top, st, th).1, el);
    case Try(b, cs, bang) => TryClean(env, top, st, b, cs, bang);
    case Call(callee, args) => CallClean(env, top, st, callee, args);
    case Throw(v) =>
      var r := LowerThrow(env, top, st, v);
      assert AllClean(r.0[0].body);
      assert Clean(r.0[0]);
    case _ =>
  }

  /** LowerStmtClean for a try statement. */
  lemma {:induction false} TryClean(env: LEnv, top: Option<TryCtx>, st: LState, b: seq<Stmt>, cs: seq<Catch>, bang: bool)
    ensures AllClean(LowerStmt(env, top, st, Try(b, cs, bang)).0)
    decreases Try(b, cs, bang), 0
  {
    var ctx := TryCtx(ErrorTemp(st.next), Handler(st.next));
    var (b', st1) := LowerStmts(env, Some(ctx), st.(next := st.next + 1), b);
    var (cs', st2) := LowerCatchBodies(env, top, st1, cs);
    var (tail, st3) := LowerCatches(env, top, ctx, bang, cs', st2);
    LowerStmtsClean(env, Some(ctx), st.(next := st.next + 1), b);
    LowerCatchBodiesClean(env, top, st1, cs);
    HandlersClean(env, top, ctx.errorVar, bang, cs', false, st2.next);
    assert AllClean(tail) by {
      var h := Handlers(env, top, ctx.errorVar, bang, cs', false, st2.next);
      assert tail == ErrorCond(ExistsTemp(h.next), ctx.errorVar, h.stmts, []);
    }
    AllCleanAppend([Def(VarSym(ctx.errorVar))] + b' + [Def(LabelSym(ctx.handlerLabel))], tail);
    AllCleanAppend([Def(VarSym(ctx.errorVar))] + b', [Def(LabelSym(ctx.handlerLabel))]);
    AllCleanAppend([Def(VarSym(ctx.errorVar))], b');
  }

  /** LowerStmtClean for a call statement. */
  lemma {:induction false} CallClean(env: LEnv, top: Option<TryCtx>, st: LState, callee: Callee, args: seq<Var>)
    ensures AllClean(LowerCall(env, top, st, callee, args).0)
  {
    var r := LowerCall(env, top, st, callee, args);
    if callee.Resolved? && callee.fn in env.throwing && (top.Some? || !env.strict) {
      var e := if top.Some? then top.value.errorVar else ErrorTemp(st.next);
      var policy := if top.Some? then [Goto(GotoErrorHandling, top.value.handlerLabel)]
                    else if env.outError.Some? then SetOutGotoEpilogue(env.outError.value, e) else [Halt];
      var ex := if top.Some? then ExistsTemp(st.next) else ExistsTemp(st.next + 1);
      var head := if top.Some? then [Call(callee, args + [e])] else [Def(VarSym(e)), Call(callee, args + [e])];
      assert r.0 == head + ErrorCond(ex, e, policy, []);
      assert AllClean(policy);
      ErrorCondClean(ex, e, policy, []);
      AllCleanAppend(head, ErrorCond(ex, e, policy, []));
    }
  }

  lemma {:induction false} LowerCatchBodiesClean(env: LEnv, top: Option<TryCtx>, st: LState, cs: seq<Catch>)
    ensures CatchesClean(LowerCatchBodies(env, top, st, cs).0)
    decreases cs, 2
  {
    if cs != [] {
      var (b', st1) := LowerStmts(env, top, st, cs[0].body);
      LowerStmtsClean(env, top, st, cs[0].body);
      LowerCatchBodiesClean(env, top, st1, cs[1..]);
      var r := LowerCatchBodies(env, top, st, cs);
      assert forall i :: 1 <= i < |r.0| ==> r.0[i] == LowerCatchBodies(env, top, st1, cs[1..]).0[i - 1];
    }
  }

  // ------------------------------------------------------------ goto targets

  function StmtTargets(s: Stmt): set<Label>
    decreases s
  {
    match s
    case Goto(_, l) => {l}
    case Block(b) => Targets(b)
    case Cond(_, t, e) => Targets(t) + Targets(e)
    case Try(b, cs, _) => Targets(b) + CatchTargets(cs)
    case _ => {}
  }

  /** The labels the gotos of a statement list jump to, nested statements included. */
  function Targets(ss: seq<Stmt>): set<Label>
    decreases ss
  {
    if ss == [] then {} else StmtTargets(ss[0]) + Targets(ss[1..])
  }

  function CatchTargets(cs: seq<Catch>): set<Label>
    decreases cs
  {
    if cs == [] then {} else Targets(cs[0].body) + CatchTargets(cs[1..])
  }

  lemma {:induction false} TargetsAppend(a: seq<Stmt>, b: seq<Stmt>)
    ensures Targets(a + b) == Targets(a) + Targets(b)
    decreases a
  {
    if a == [] {
      assert a + b == b;
    } else {
      assert (a + b)[0] == a[0] && (a + b)[1..] == a[1..] + b;
      TargetsAppend(a[1..], b);
    }
  }

  lemma {:induction false} TargetsOfOne(x: Stmt)
    ensures Targets([x]) == StmtTargets(x)
  {
    assert [x][1..] == [];
    assert Targets([x]) == StmtTargets(x) + Targets([]);
  }

  lemma {:induction false} TargetsOfTwo(x: Stmt, y: Stmt)
    ensures Targets([x, y]) == StmtTargets(x) + StmtTargets(y)
  {
    assert [x, y][1..] == [y];
    assert Targets([x, y]) == StmtTargets(x) + Targets([y]);
    TargetsOfOne(y);
  }

  /** errorCond adds no goto of its own. */
  lemma {:induction false} ErrorCondTargets(existsVar: Var, errorVar: Var, thenB: seq<Stmt>, elseB: seq<Stmt>)
    ensures Targets(ErrorCond(existsVar, errorVar, thenB, elseB)) == Targets(thenB) + Targets(elseB)
  {
    var ec := ErrorCond(existsVar, errorVar, thenB, elseB);
    assert ec[1..] == [ec[1], ec[2]];
    assert Targets(ec) == StmtTargets(ec[0]) + Targets(ec[1..]);
    TargetsOfTwo(ec[1], ec[2]);
  }

  /** The handler labels created while the counter went from lo to hi. */
  function FreshHandlers(lo: nat, hi: nat): set<Label> {
    set k | lo <= k < hi :: Handler(k)
  }

  /**
   * The labels a lowered statement may jump to besides those of the
   * original: the innermost try's handler, the epilogue of a throwing
   * function, and handlers created during this lowering.
   */
  function Allowed(env: LEnv, top: Option<TryCtx>, lo: nat, hi: nat): set<Label> {
    (if top.Some? then {top.value.handlerLabel} else {})
    + (if env.outError.Some? then {env.outError.value.epilogue} else {})
    + FreshHandlers(lo, hi)
  }

  lemma {:induction false} AllowedMono(env: LEnv, top: Option<TryCtx>, lo: nat, lo': nat, hi': nat, hi: nat)
    requires lo <= lo' && hi' <= hi
    ensures Allowed(env, top, lo', hi') <= Allowed(env, top, lo, hi)
  {
    assert FreshHandlers(lo', hi') <= FreshHandlers(lo, hi) by {
      forall l | l in FreshHandlers(lo', hi') ensures l in FreshHandlers(lo, hi) {
        var k :| lo' <= k < hi' && l == Handler(k);
      }
    }
  }

  lemma {:induction false} HandlersTargets(env: LEnv, top: Option<TryCtx>, ev: Var, bang: bool,
                                           cs: seq<Catch>, seen: bool, n: nat)
    ensures Targets(Handlers(env, top, ev, bang, cs, seen, n).stmts)
            <= CatchTargets(cs) + Allowed(env, top, n, n)
    decreases |cs|, 1
  {
    if cs == [] {
      var fb := Fallback(env, top, ev, bang);
      if !bang && (top.Some? || env.outError.Some?) {
        TargetsOfTwo(fb.0[0], fb.0[1]);
        assert fb.0 == [fb.0[0], fb.0[1]];
      } else if bang {
        assert fb.0[1..] == [];
      }
    } else if cs[0].binding.None? {
      HandlersTargetsCatchAll(env, top, ev, bang, cs, seen, n);
    } else {
      HandlersTargetsBound(env, top, ev, bang, cs, seen, n);
    }
  }

  /** The body of a handler, with the error deleted at its end, jumps where the clause's body does. */
  lemma {:induction false} HandlerBodyTargets(c: Catch, ev: Var)
    ensures Targets(c.body + [DeleteError(ev)]) == Targets(c.body)
  {
    TargetsAppend(c.body, [DeleteError(ev)]);
    assert [DeleteError(ev)][1..] == [];
  }

  /** HandlersTargets for a first clause that binds nothing. */
  lemma {:induction false} HandlersTargetsCatchAll(env: LEnv, top: Option<TryCtx>, ev: Var, bang: bool,
                                                   cs: seq<Catch>, seen: bool, n: nat)
    requires cs != [] && cs[0].binding.None?
    ensures Targets(Handlers(env, top, ev, bang, cs, seen, n).stmts)
            <= CatchTargets(cs) + Allowed(env, top, n, n)
    decreases |cs|, 0
  {
    var body := cs[0].body + [DeleteError(ev)];
    HandlerBodyTargets(cs[0], ev);
    var rest := Handlers(env, top, ev, bang, cs[1..], true, n);
    HandlersTargets(env, top, ev, bang, cs[1..], true, n);
    assert Handlers(env, top, ev, bang, cs, seen, n).stmts == [Block(body)] + rest.stmts;
    TargetsAppend([Block(body)], rest.stmts);
    assert [Block(body)][1..] == [];
  }

  /** How a clause that binds the error to a variable begins: the variable and its value. */
  lemma {:induction false} BindingTargets(v: Var, rhs: Rhs)
    ensures Targets([Def(VarSym(v)), Move(v, rhs)]) == {}
  {
    TargetsOfTwo(Def(VarSym(v)), Move(v, rhs));
  }

  /** HandlersTargets for a first clause that binds the error to a variable. */
  lemma {:induction false} HandlersTargetsBound(env: LEnv, top: Option<TryCtx>, ev: Var, bang: bool,
                                                cs: seq<Catch>, seen: bool, n: nat)
    requires cs != [] && cs[0].binding.Some?
    ensures Targets(Handlers(env, top, ev, bang, cs, seen, n).stmts)
            <= CatchTargets(cs) + Allowed(env, top, n, n)
    decreases |cs|, 0
  {
    var body := cs[0].body + [DeleteError(ev)];
    HandlerBodyTargets(cs[0], ev);
    var b := cs[0].binding.value;
    var v := UserVar(b.name);
    var ex := ExistsTemp(n);
    if b.ty == ErrorTop {
      var head := [Def(VarSym(v)), Move(v, Of(ev))];
      BindingTargets(v, Of(ev));
      var rest := Handlers(env, top, ev, bang, cs[1..], true, n + 1);
      HandlersTargets(env, top, ev, bang, cs[1..], true, n + 1);
      assert Handlers(env, top, ev, bang, cs, seen, n).stmts == head + ErrorCond(ex, v, body, []) + rest.stmts;
      TargetsAppend(head + ErrorCond(ex, v, body, []), rest.stmts);
      TargetsAppend(head, ErrorCond(ex, v, body, []));
      ErrorCondTargets(ex, v, body, []);
    } else {
      var head := [Def(VarSym(v)), Move(v, DynamicCastTo(b.ty, ev))];
      BindingTargets(v, DynamicCastTo(b.ty, ev));
      var rest := Handlers(env, top, ev, bang, cs[1..], seen, n + 1);
      HandlersTargets(env, top, ev, bang, cs[1..], seen, n + 1);
      assert Handlers(env, top, ev, bang, cs, seen, n).stmts == head + ErrorCond(ex, v, body, rest.stmts);
      TargetsAppend(head, ErrorCond(ex, v, body, rest.stmts));
      ErrorCondTargets(ex, v, body, rest.stmts);
    }
  }

  /**
   * Every goto of a lowered statement list jumps where the original did, or
   * to the innermost try's handler, the function's epilogue, or a handler
   * the lowering created: never to the handler of a try further out.
   */
  lemma {:induction false} LowerStmtsTargets(env: LEnv, top: Option<TryCtx>, st: LState, ss: seq<Stmt>)
    ensures var r := LowerStmts(env, top, st, ss);
            Targets(r.0) <= Targets(ss) + Allowed(env, top, st.next, r.1.next)
    decreases ss, 1
  {
    if ss != [] {
      var (a, st1) := LowerStmt(env, top, st, ss[0]);
      var (rest, st2) := LowerStmts(env, top, st1, ss[1..]);
      LowerStmtTargets(env, top, st, ss[0]);
      LowerStmtsTargets(env, top, st1, ss[1..]);
      TargetsAppend(a, rest);
      AllowedMono(env, top, st.next, st.next, st1.next, st2.next);
      AllowedMono(env, top, st.next, st1.next, st2.next, st2.next);
    }
  }

  lemma {:induction false} LowerStmtTargets(env: LEnv, top: Option<TryCtx>, st: LState, s: Stmt)
    ensures var r := LowerStmt(env, top, st, s);
            Targets(r.0) <= StmtTargets(s) + Allowed(env, top, st.next, r.1.next)
    decreases s, 1
  {
    var r := LowerStmt(env, top, st, s);
    match s
    case Block(b) =>
      LowerStmtsTargets(env, top, st, b);
      TargetsOfOne(r.0[0]);
    case Cond(t, th, el) =>
      var (th', st1) := LowerStmts(env, top, st, th);
      LowerStmtsTargets(env, top, st, th);
      LowerStmtsTargets(env, top, st1, el);
      AllowedMono(env, top, st.next, st.next, st1.next, r.1.next);
      AllowedMono(env, top, st.next, st1.next, r.1.next, r.1.next);
      TargetsOfOne(r.0[0]);
    case Try(b, cs, bang) => TryTargets(env, top, st, b, cs, bang);
    case Call(callee, args) => CallTargets(env, top, st, callee, args);
    case Throw(v) => ThrowTargets(env, top, st, v);
    case _ => TargetsOfOne(s);
  }

  lemma {:induction false} TryTargets(env: LEnv, top: Option<TryCtx>, st: LState, b: seq<Stmt>, cs: seq<Catch>, bang: bool)
    ensures var r := LowerStmt(env, top, st, Try(b, cs, bang));
            Targets(r.0) <= Targets(b) + CatchTargets(cs) + Allowed(env, top, st.next, r.1.next)
    decreases Try(b, cs, bang), 0
  {
    var r := LowerStmt(env, top, st, Try(b, cs, bang));
    var ctx := TryCtx(ErrorTemp(st.next), Handler(st.next));
    var (b', st1) := LowerStmts(env, Some(ctx), st.(next := st.next + 1), b);
    var (cs', st2) := LowerCatchBodies(env, top, st1, cs);
    var (tail, st3) := LowerCatches(env, top, ctx, bang, cs', st2);
    var allowed := Allowed(env, top, st.next, st3.next);
    var h := Handlers(env, top, ctx.errorVar, bang, cs', false, st2.next);
    assert Targets(b') <= Targets(b) + allowed by {
      LowerStmtsTargets(env, Some(ctx), st.(next := st.next + 1), b);
      AllowedMono(env, Some(ctx), st.next, st.next + 1, st1.next, st3.next);
      assert Handler(st.next) in FreshHandlers(st.next, st3.next);
    }
    assert CatchTargets(cs') <= CatchTargets(cs) + allowed by {
      LowerCatchBodiesTargets(env, top, st1, cs);
      AllowedMono(env, top, st.next, st1.next, st2.next, st3.next);
    }
    assert Targets(tail) <= CatchTargets(cs') + allowed by {
      HandlersTargets(env, top, ctx.errorVar, bang, cs', false, st2.next);
      ErrorCondTargets(ExistsTemp(h.next), ctx.errorVar, h.stmts, []);
      AllowedMono(env, top, st.next, st2.next, st2.next, st3.next);
    }
    assert r.0 == [Block([Def(VarSym(ctx.errorVar))] + b' + [Def(LabelSym(ctx.handlerLabel))] + tail)];
    FramedTargets(ctx.errorVar, b', ctx.handlerLabel, tail);
  }

  /** The frame lowering puts around a try body (its error temporary and handler label) adds no goto. */
  lemma {:induction false} FramedTargets(ev: Var, b: seq<Stmt>, l: Label, tail: seq<Stmt>)
    ensures Targets([Block([Def(VarSym(ev))] + b + [Def(LabelSym(l))] + tail)]) == Targets(b) + Targets(tail)
  {
    var framed := [Def(VarSym(ev))] + b + [Def(LabelSym(l))];
    TargetsAppend(framed, tail);
    TargetsAppend([Def(VarSym(ev))] + b, [Def(LabelSym(l))]);
    TargetsAppend([Def(VarSym(ev))], b);
    TargetsOfOne(Def(VarSym(ev)));
    TargetsOfOne(Def(LabelSym(l)));
    TargetsOfOne(Block(framed + tail));
  }

  lemma {:induction false} CallTargets(env: LEnv, top: Option<TryCtx>, st: LState, callee: Callee, args: seq<Var>)
    ensures var r := LowerCall(env, top, st, callee, args);
            Targets(r.0) <= Allowed(env, top, st.next, r.1.next)
  {
    var r := LowerCall(env, top, st, callee, args);
    if callee.Resolved? && callee.fn in env.throwing && (top.Some? || !env.strict) {
      var e := if top.Some? then top.value.errorVar else ErrorTemp(st.next);
      var policy := if top.Some? then [Goto(GotoErrorHandling, top.value.handlerLabel)]
                    else if env.outError.Some? then SetOutGotoEpilogue(env.outError.value, e) else [Halt];
      var ex := if top.Some? then ExistsTemp(st.next) else ExistsTemp(st.next + 1);
      var head := if top.Some? then [Call(callee, args + [e])] else [Def(VarSym(e)), Call(callee, args + [e])];
      assert r.0 == head + ErrorCond(ex, e, policy, []);
      TargetsAppend(head, ErrorCond(ex, e, policy, []));
      ErrorCondTargets(ex, e, policy, []);
      if top.Some? { TargetsOfOne(head[0]); TargetsOfOne(policy[0]); }
      else {
        TargetsOfTwo(head[0], head[1]);
        assert head == [head[0], head[1]];
        if env.outError.Some? {
          TargetsOfTwo(policy[0], policy[1]);
          assert policy == [policy[0], policy[1]];
        } else {
          TargetsOfOne(Halt);
        }
      }
      assert Targets([]) == {};
    } else {
      TargetsOfOne(r.0[0]);
    }
  }

  lemma {:induction false} ThrowTargets(env: LEnv, top: Option<TryCtx>, st: LState, v: Var)
    ensures var r := LowerThrow(env, top, st, v);
            Targets(r.0) <= Allowed(env, top, st.next, r.1.next)
  {
    var r := LowerThrow(env, top, st, v);
    TargetsOfOne(r.0[0]);
    var b := r.0[0].body;
    if top.Some? || env.outError.Some? {
      TargetsOfTwo(b[0], b[1]);
      assert b == [b[0], b[1]];
    }
  }

  lemma {:induction false} LowerCatchBodiesTargets(env: LEnv, top: Option<TryCtx>, st: LState, cs: seq<Catch>)
    ensures var r := LowerCatchBodies(env, top, st, cs);
            CatchTargets(r.0) <= CatchTargets(cs) + Allowed(env, top, st.next, r.1.next)
    decreases cs, 1
  {
    if cs != [] {
      var (b', st1) := LowerStmts(env, top, st, cs[0].body);
      var (rest, st2) := LowerCatchBodies(env, top, st1, cs[1..]);
      LowerStmtsTargets(env, top, st, cs[0].body);
      LowerCatchBodiesTargets(env, top, st1, cs[1..]);
      AllowedMono(env, top, st.next, st.next, st1.next, st2.next);
      AllowedMono(env, top, st.next, st1.next, st2.next, st2.next);
      var r := LowerCatchBodies(env, top, st, cs);
      assert r.0[1..] == rest;
    }
  }

  // ------------------------------------------------- internal errors reported

  /**
   * lowerCatches reports one internal error for each clause after the first
   * catch-all, whatever the diagnostics mode of the checking pass, and one
   * more when no clause catches everything and no fallback applies.
   */
  lemma {:induction false} HandlersFatals(env: LEnv, top: Option<TryCtx>, ev: Var, bang: bool,
                                          cs: seq<Catch>, seen: bool, n: nat)
    ensures Handlers(env, top, ev, bang, cs, seen, n).fatals
            == MisplacedReports(true, cs, seen) + (if ScanCatchAll(cs, seen) then [] else Fallback(env, top, ev, bang).1)
    decreases |cs|
  {
    if cs != [] {
      var seen' := seen || IsCatchAll(cs[0]);
      var n' := if cs[0].binding.Some? then n + 1 else n;
      HandlersFatals(env, top, ev, bang, cs[1..], seen', n');
      assert Handlers(env, top, ev, bang, cs, seen, n).fatals
          == (if seen then [CatchAllNotLast] else []) + Handlers(env, top, ev, bang, cs[1..], seen', n').fatals;
    }
  }

  /** The reports of a whole lowerCatches, in the terms of catchesNotExhaustive. */
  lemma {:induction false} LowerCatchesFatals(env: LEnv, top: Option<TryCtx>, ctx: TryCtx, bang: bool, cs: seq<Catch>, st: LState)
    ensures LowerCatches(env, top, ctx, bang, cs, st).1.fatals
            == st.fatals + seq(ClausesAfterCatchAll(cs), _ => CatchAllNotLast)
               + (if NotExhaustive(cs) && !bang && top.None? && env.outError.None? then [TryWithoutCatchAll] else [])
  {
    HandlersFatals(env, top, ctx.errorVar, bang, cs, false, st.next);
    MisplacedReportCount(true, cs);
  }

  /** Catch lists with the same clauses in the same order scan alike, whatever their bodies. */
  lemma {:induction false} SameBindings(cs: seq<Catch>, cs': seq<Catch>, seen: bool)
    requires |cs| == |cs'| && forall i :: 0 <= i < |cs| ==> cs[i].binding == cs'[i].binding
    ensures ScanCatchAll(cs, seen) == ScanCatchAll(cs', seen)
    ensures MisplacedReports(true, cs, seen) == MisplacedReports(true, cs', seen)
    decreases |cs|
  {
    if cs != [] {
      assert IsCatchAll(cs[0]) == IsCatchAll(cs'[0]);
      assert forall i :: 0 <= i < |cs[1..]| ==> cs[1..][i].binding == cs'[1..][i].binding by {
        forall i | 0 <= i < |cs[1..]| ensures cs[1..][i].binding == cs'[1..][i].binding {
          assert cs[1..][i] == cs[i + 1] && cs'[1..][i] == cs'[i + 1];
        }
      }
      SameBindings(cs[1..], cs'[1..], seen || IsCatchAll(cs[0]));
    }
  }

  // ------------------------------------------- checked bodies lower cleanly

  /** How the lowering and the checking pass that ran before it see the same function. */
  predicate Agree(cfg: CtConfig, cst: CtState, env: LEnv, top: Option<TryCtx>) {
    && cfg.errors && cfg.strict == env.strict && cfg.throwing == env.throwing
    && cfg.fnCanThrow == env.outError.Some?
    && cst.tryDepth >= 0 && (cst.tryDepth > 0 <==> top.Some?)
  }

  /**
   * A statement list that checkErrorHandling walks without a report lowers
   * without an internal error: each INT_FATAL of the lowering is guarded by
   * a USR_FATAL_CONT of the check in the same position.
   */
  lemma {:induction false} NoFatalStmts(cfg: CtConfig, cst: CtState, env: LEnv, top: Option<TryCtx>,
                                        st: LState, ss: seq<Stmt>)
    requires Agree(cfg, cst, env, top)
    requires CtStmts(cfg, cst, ss).diags == cst.diags
    ensures LowerStmts(env, top, st, ss).1.fatals == st.fatals
    decreases ss, 2
  {
    if ss != [] {
      var mid := CtStmt(cfg, cst, ss[0]);
      StmtKeepsDepth(cfg, cst, ss[0]);
      StmtsKeepDepth(cfg, mid, ss[1..]);
      assert mid.diags == cst.diags;
      var (a, st1) := LowerStmt(env, top, st, ss[0]);
      NoFatalStmt(cfg, cst, env, top, st, ss[0]);
      NoFatalStmts(cfg, mid, env, top, st1, ss[1..]);
    }
  }

  lemma {:induction false} NoFatalStmt(cfg: CtConfig, cst: CtState, env: LEnv, top: Option<TryCtx>,
                                       st: LState, s: Stmt)
    requires Agree(cfg, cst, env, top)
    requires CtStmt(cfg, cst, s).diags == cst.diags
    ensures LowerStmt(env, top, st, s).1.fatals == st.fatals
    decreases s, 1
  {
    match s
    case Block(b) => NoFatalStmts(cfg, cst, env, top, st, b);
    case Cond(_, th, el) =>
      var mid := CtStmts(cfg, cst, th);
      StmtsKeepDepth(cfg, cst, th);
      StmtsKeepDepth(cfg, mid, el);
      assert mid.diags == cst.diags;
      NoFatalStmts(cfg, cst, env, top, st, th);
      NoFatalStmts(cfg, mid, env, top, LowerStmts(env, top, st, th).1, el);
    case Try(b, cs, bang) => NoFatalTry(cfg, cst, env, top, st, b, cs, bang);
    case Call(callee, _) =>
    case Throw(_) =>
    case _ =>
  }

  /** NoFatalStmt for a try statement. */
  lemma {:induction false} NoFatalTry(cfg: CtConfig, cst: CtState, env: LEnv, top: Option<TryCtx>,
                                      st: LState, b: seq<Stmt>, cs: seq<Catch>, bang: bool)
    requires Agree(cfg, cst, env, top)
    requires CtStmt(cfg, cst, Try(b, cs, bang)).diags == cst.diags
    ensures LowerStmt(env, top, st, Try(b, cs, bang)).1.fatals == st.fatals
    decreases Try(b, cs, bang), 0
  {
    var s1 := CtStmts(cfg, EnterTry(cst), b);
    var s2 := ExitTry(cfg, s1, cs, bang);
    StmtsKeepDepth(cfg, EnterTry(cst), b);
    CatchesKeepDepth(cfg, s2, cs);
    assert s1.diags == cst.diags;
    assert s2.diags == s1.diags;
    var ctx := TryCtx(ErrorTemp(st.next), Handler(st.next));
    var (b', st1) := LowerStmts(env, Some(ctx), st.(next := st.next + 1), b);
    var (cs', st2) := LowerCatchBodies(env, top, st1, cs);
    NoFatalStmts(cfg, EnterTry(cst), env, Some(ctx), st.(next := st.next + 1), b);
    NoFatalCatches(cfg, s2, env, top, st1, cs);
    // the check saw no misplaced catch-all and no missing catch-all here
    assert MisplacedReports(true, cs, false) == [] by {
      assert s2.diags == s1.diags + MisplacedReports(true, cs, false)
        + (if !bang && s2.tryDepth == 0 && NotExhaustive(cs) && !cfg.fnCanThrow then [TryWithoutCatchAll] else []);
    }
    assert !(NotExhaustive(cs) && !bang && top.None? && env.outError.None?) by {
      assert TryWithoutCatchAll !in s2.diags[|s1.diags|..];
    }
    SameBindings(cs, cs', false);
    HandlersFatals(env, top, ctx.errorVar, bang, cs', false, st2.next);
  }

  lemma {:induction false} NoFatalCatches(cfg: CtConfig, cst: CtState, env: LEnv, top: Option<TryCtx>,
                                          st: LState, cs: seq<Catch>)
    requires Agree(cfg, cst, env, top)
    requires CtCatches(cfg, cst, cs).diags == cst.diags
    ensures LowerCatchBodies(env, top, st, cs).1.fatals == st.fatals
    decreases cs, 2
  {
    if cs != [] {
      var mid := CtStmts(cfg, cst, cs[0].body);
      StmtsKeepDepth(cfg, cst, cs[0].body);
      CatchesKeepDepth(cfg, mid, cs[1..]);
      assert mid.diags == cst.diags;
      NoFatalStmts(cfg, cst, env, top, st, cs[0].body);
      NoFatalCatches(cfg, mid, env, top, LowerStmts(env, top, st, cs[0].body).1, cs[1..]);
    }
  }

  /**
   * A function body accepted by checkErrorHandling is lowered, from the
   * function's top level, without any internal error.
   */
  lemma {:induction false} CheckedBodyLowersCleanly(fnThrows: bool, out: Option<OutParam>, strict: bool, throwing: set<FnId>,
                                 body: seq<Stmt>, st: LState)
    requires out.Some? == fnThrows
    requires CheckSpec(fnThrows, strict, throwing, body) == []
    ensures LowerStmts(LEnv(out, strict, throwing), None, st, body).1.fatals == st.fatals
  {
    NoFatalStmts(CtConfig(true, fnThrows, strict, throwing), Initial, LEnv(out, strict, throwing), None, st, body);
  }
}
