/**
 * What ErrorHandlingVisitor of compiler/passes/errorHandling.cpp produces,
 * as functions.  Where the visitor keeps two stacks of TryInfo records,
 * these functions are handed the innermost enclosing try (its error
 * temporary and handler label) directly: that is all the visitor ever reads
 * of its stacks.  Fresh symbols are numbered by a counter threaded through
 * the walk, and INT_FATAL reports are collected in a log.
 */
module LowerSpec {
  import opened Ast
  import CanThrow

  /** outError and epilogue of the visitor: both set for a throwing function, both NULL otherwise. */
  datatype OutParam = OutParam(formal: Var, epilogue: Label)

  /** What the visitor reads besides its stacks: its out-parameter, fStrictErrorHandling, and throwsError(). */
  datatype LEnv = LEnv(outError: Option<OutParam>, strict: bool, throwing: set<FnId>)

  /** The two parts of a TryInfo that calls, throws and nested tries use. */
  datatype TryCtx = TryCtx(errorVar: Var, handlerLabel: Label)

  /** The fresh-symbol counter and the INT_FATAL log. */
  datatype LState = LState(next: nat, fatals: seq<Msg>)

  /** setOutGotoEpilogue: assign the error to the out formal (PRIM_ASSIGN) and jump to the epilogue. */
  function SetOutGotoEpilogue(out: OutParam, error: Var): seq<Stmt>
  {
    [Assign(out.formal, CastTo(ErrorTop, error)), Goto(GotoReturn, out.epilogue)]
  }

  /** errorCond: define a fresh boolean, set it to `errorVar != nil`, branch on it. */
  function ErrorCond(existsVar: Var, errorVar: Var, thenB: seq<Stmt>, elseB: seq<Stmt>): seq<Stmt>
  {
    [Def(VarSym(existsVar)), Move(existsVar, NotNil(errorVar)), Cond(existsVar, thenB, elseB)]
  }

  /**
   * The tail lowerCatches installs when no clause catches everything, in
   * priority order: try! halts; an enclosing try gets the error and control;
   * a throwing function passes it out; anything else is an internal error.
   */
  function Fallback(env: LEnv, top: Option<TryCtx>, errorVar: Var, bang: bool): (r: (seq<Stmt>, seq<Msg>))
    ensures bang ==> r == ([Halt], [])
    ensures !bang && top.Some? ==> r == ([Move(top.value.errorVar, Of(errorVar)), Goto(GotoErrorHandling, top.value.handlerLabel)], [])
    ensures !bang && top.None? && env.outError.Some? ==> r == (SetOutGotoEpilogue(env.outError.value, errorVar), [])
    ensures !bang && top.None? && env.outError.None? ==> r == ([], [TryWithoutCatchAll])
  {
    if bang then ([Halt], [])
    else if top.Some? then
      ([Move(top.value.errorVar, Of(errorVar)), Goto(GotoErrorHandling, top.value.handlerLabel)], [])
    else if env.outError.Some? then (SetOutGotoEpilogue(env.outError.value, errorVar), [])
    else ([], [TryWithoutCatchAll])
  }

  /** A handlers chain, the counter after building it, and the INT_FATAL reports made while building it. */
  datatype Chain = Chain(stmts: seq<Stmt>, next: nat, fatals: seq<Msg>)

  /**
   * The chain the loop of lowerCatches builds from the clauses cs on, given
   * whether a catch-all has already been seen.  Every catch body gets one
   * delete of the error at its tail; a typed subclass clause casts and opens
   * the next link in its else branch; the other clauses end the chain.
   */
  function Handlers(env: LEnv, top: Option<TryCtx>, errorVar: Var, bang: bool,
                    cs: seq<Catch>, seen: bool, n: nat): (r: Chain)
    ensures n <= r.next
    decreases |cs|
  {
    if cs == [] then
      if seen then Chain([], n, [])
      else
        var fb := Fallback(env, top, errorVar, bang);
        Chain(fb.0, n, fb.1)
    else
      var misplaced := if seen then [CatchAllNotLast] else [];
      var body := cs[0].body + [DeleteError(errorVar)];
      match cs[0].binding
      case None =>
        var rest := Handlers(env, top, errorVar, bang, cs[1..], true, n);
        Chain([Block(body)] + rest.stmts, rest.next, misplaced + rest.fatals)
      case Some(b) =>
        var v := UserVar(b.name);
        if b.ty == ErrorTop then
          var rest := Handlers(env, top, errorVar, bang, cs[1..], true, n + 1);
          Chain([Def(VarSym(v)), Move(v, Of(errorVar))] + ErrorCond(ExistsTemp(n), v, body, []) + rest.stmts,
                rest.next, misplaced + rest.fatals)
        else
          var rest := Handlers(env, top, errorVar, bang, cs[1..], seen, n + 1);
          Chain([Def(VarSym(v)), Move(v, DynamicCastTo(b.ty, errorVar))] + ErrorCond(ExistsTemp(n), v, body, rest.stmts),
                rest.next, misplaced + rest.fatals)
  }

  /** lowerCatches: the handlers chain under one `if error != nil`, appended at the tail of the try body. */
  function LowerCatches(env: LEnv, top: Option<TryCtx>, ctx: TryCtx, bang: bool, cs: seq<Catch>, st: LState)
    : (r: (seq<Stmt>, LState))
    ensures st.next < r.1.next && st.fatals <= r.1.fatals
  {
    var h := Handlers(env, top, ctx.errorVar, bang, cs, false, st.next);
    (ErrorCond(ExistsTemp(h.next), ctx.errorVar, h.stmts, []), LState(h.next + 1, st.fatals + h.fatals))
  }

  /**
   * What a throwing call outside any try does with an error it returns: a
   * throwing function passes it out and jumps to the epilogue, any other
   * halts.
   */
  function CallPolicy(env: LEnv, e: Var): seq<Stmt>
  {
    if env.outError.Some? then SetOutGotoEpilogue(env.outError.value, e) else [Halt]
  }

  /** enterCallExpr on a call statement. */
  function LowerCall(env: LEnv, top: Option<TryCtx>, st: LState, callee: Callee, args: seq<Var>)
    : (r: (seq<Stmt>, LState))
    ensures !(callee.Resolved? && callee.fn in env.throwing) ==> r == ([Call(callee, args)], st)
    ensures callee.Resolved? && callee.fn in env.throwing && top.Some? ==>
      |r.0| > 0 && r.0[0] == Call(callee, args + [top.value.errorVar]) && r.1.fatals == st.fatals
    ensures callee.Resolved? && callee.fn in env.throwing && top.None? && !env.strict ==>
      var e := ErrorTemp(st.next);
      r.0 == [Def(VarSym(e)), Call(callee, args + [e])] + ErrorCond(ExistsTemp(st.next + 1), e, CallPolicy(env, e), [])
      && r.1 == LState(st.next + 2, st.fatals)
    ensures callee.Resolved? && callee.fn in env.throwing && top.None? && env.strict ==>
      r.1.fatals == st.fatals + [ThrowingCallWithoutTry]
    ensures st.next <= r.1.next && st.fatals <= r.1.fatals
  {
    if callee.Resolved? && callee.fn in env.throwing then
      if top.Some? then
        var info := top.value;
        ([Call(callee, args + [info.errorVar])]
           + ErrorCond(ExistsTemp(st.next), info.errorVar, [Goto(GotoErrorHandling, info.handlerLabel)], []),
         st.(next := st.next + 1))
      else if env.strict then
        ([Call(callee, args)], st.(fatals := st.fatals + [ThrowingCallWithoutTry]))
      else
        var e := ErrorTemp(st.next);
        ([Def(VarSym(e)), Call(callee, args + [e])] + ErrorCond(ExistsTemp(st.next + 1), e, CallPolicy(env, e), []),
         st.(next := st.next + 2))
    else ([Call(callee, args)], st)
  }

  /** enterCallExpr on PRIM_THROW: the throw becomes a block. */
  function LowerThrow(env: LEnv, top: Option<TryCtx>, st: LState, thrown: Var): (r: (seq<Stmt>, LState))
    ensures r.1.next == st.next
    ensures top.Some? ==> r == ([Block([Move(top.value.errorVar, CastTo(ErrorTop, thrown)),
                                        Goto(GotoErrorHandling, top.value.handlerLabel)])], st)
    ensures top.None? && env.outError.Some? ==> r == ([Block(SetOutGotoEpilogue(env.outError.value, thrown))], st)
    ensures top.None? && env.outError.None? ==> r.1.fatals == st.fatals + [ThrowInNonThrowingFn]
  {
    if top.Some? then
      ([Block([Move(top.value.errorVar, CastTo(ErrorTop, thrown)), Goto(GotoErrorHandling, top.value.handlerLabel)])], st)
    else if env.outError.Some? then
      ([Block(SetOutGotoEpilogue(env.outError.value, thrown))], st)
    else
      ([Block([])], st.(fatals := st.fatals + [ThrowInNonThrowingFn]))
  }

  /**
   * The lowering of one statement.  A try is replaced by its body framed by
   * the error temporary and the handler label; the body sees the try as the
   * innermost context, the catch bodies see the enclosing one.
   */
  function LowerStmt(env: LEnv, top: Option<TryCtx>, st: LState, s: Stmt): (r: (seq<Stmt>, LState))
    ensures st.next <= r.1.next && st.fatals <= r.1.fatals
    decreases s
  {
    match s
    case Block(b) =>
      var (b', st1) := LowerStmts(env, top, st, b);
      ([Block(b')], st1)
    case Cond(t, th, el) =>
      var (th', st1) := LowerStmts(env, top, st, th);
      var (el', st2) := LowerStmts(env, top, st1, el);
      ([Cond(t, th', el')], st2)
    case Try(b, cs, bang) =>
      var ctx := TryCtx(ErrorTemp(st.next), Handler(st.next));
      var (b', st1) := LowerStmts(env, Some(ctx), st.(next := st.next + 1), b);
      var (cs', st2) := LowerCatchBodies(env, top, st1, cs);
      var (tail, st3) := LowerCatches(env, top, ctx, bang, cs', st2);
      ([Block([Def(VarSym(ctx.errorVar))] + b' + [Def(LabelSym(ctx.handlerLabel))] + tail)], st3)
    case Call(callee, args) => LowerCall(env, top, st, callee, args)
    case Throw(v) => LowerThrow(env, top, st, v)
    case _ => ([s], st)
  }

  function LowerStmts(env: LEnv, top: Option<TryCtx>, st: LState, ss: seq<Stmt>): (r: (seq<Stmt>, LState))
    ensures st.next <= r.1.next && st.fatals <= r.1.fatals
    decreases ss
  {
    if ss == [] then ([], st)
    else
      var (a, st1) := LowerStmt(env, top, st, ss[0]);
      var (rest, st2) := LowerStmts(env, top, st1, ss[1..]);
      (a + rest, st2)
  }

  /** The catch clauses with their bodies lowered in place, in order. */
  function LowerCatchBodies(env: LEnv, top: Option<TryCtx>, st: LState, cs: seq<Catch>): (r: (seq<Catch>, LState))
    ensures |r.0| == |cs| && forall i :: 0 <= i < |cs| ==> r.0[i].binding == cs[i].binding
    ensures st.next <= r.1.next && st.fatals <= r.1.fatals
    decreases cs
  {
    if cs == [] then ([], st)
    else
      var (b', st1) := LowerStmts(env, top, st, cs[0].body);
      var (rest, st2) := LowerCatchBodies(env, top, st1, cs[1..]);
      ([Catch(cs[0].binding, b')] + rest, st2)
  }
}
