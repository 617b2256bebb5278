/**
 * What the code ErrorHandlingVisitor emits does when it runs: a small
 * interpreter for the glue the pass produces (definitions, moves, casts,
 * nil tests, gotos, halts), which stops where control enters a block or the
 * then branch of a test, and the lemmas that say where a pending error goes.
 */
module Dispatch {
  import opened Ast
  import opened LowerSpec

  /** Run-time values the glue reads: nil, an error object with the error classes it is an instance of, a boolean. */
  datatype Value = NilV | ErrV(classes: set<string>) | BoolV(b: bool)

  type Store = map<Var, Value>

  /** A variable that was never written holds nil. */
  function Get(m: Store, v: Var): Value {
    if v in m then m[v] else NilV
  }

  /** PRIM_CAST to dtError keeps the object; PRIM_DYNAMIC_CAST gives nil unless the object is of that type. */
  function Eval(m: Store, rhs: Rhs): Value {
    match rhs
    case Of(x) => Get(m, x)
    case CastTo(_, x) => Get(m, x)
    case DynamicCastTo(ty, x) =>
      var val := Get(m, x);
      if val.ErrV? && (ty.ErrorTop? || ty.cls in val.classes) then val else NilV
    case NotNil(x) => BoolV(!Get(m, x).NilV?)
  }

  /**
   * How a piece of emitted code ends: it runs off its end, enters a block
   * (a catch body, a handlers chain, an error policy), jumps, halts, or
   * reaches a statement that is not glue.
   */
  datatype Outcome =
    | Normal(store: Store)
    | Entered(body: seq<Stmt>, store: Store)
    | Jumped(kind: GotoKind, target: Label, store: Store)
    | Halted
    | Stuck(at: Stmt)

  function Run(m: Store, ss: seq<Stmt>): Outcome
    decreases ss
  {
    if ss == [] then Normal(m)
    else
      match Step(m, ss[0])
      case Normal(m') => Run(m', ss[1..])
      case o => o
  }

  function Step(m: Store, s: Stmt): Outcome
    decreases s
  {
    match s
    case Def(_) => Normal(m)
    case Move(d, rhs) => Normal(m[d := Eval(m, rhs)])
    case Assign(d, rhs) => Normal(m[d := Eval(m, rhs)])
    case Cond(t, thenB, elseB) => if Get(m, t) == BoolV(true) then Entered(thenB, m) else Run(m, elseB)
    case Block(b) => Entered(b, m)
    case Goto(k, l) => Jumped(k, l, m)
    case Halt => Halted
    case _ => Stuck(s)
  }

  /** Running two pieces one after the other. */
  lemma {:induction false} RunAppend(m: Store, a: seq<Stmt>, b: seq<Stmt>)
    ensures Run(m, a + b) == match Run(m, a) case Normal(m') => Run(m', b) case o => o
    decreases a
  {
    if a == [] {
      assert a + b == b;
    } else {
      assert (a + b)[0] == a[0] && (a + b)[1..] == a[1..] + b;
      match Step(m, a[0])
      case Normal(m') => RunAppend(m', a[1..], b);
      case _ =>
    }
  }

  /** errorCond: enter the then part exactly when the tested variable holds an error. */
  lemma {:induction false} ErrorCondRoute(m: Store, existsVar: Var, errorVar: Var, thenB: seq<Stmt>, elseB: seq<Stmt>)
    requires existsVar != errorVar
    ensures var o := Run(m, ErrorCond(existsVar, errorVar, thenB, elseB));
            var m' := m[existsVar := BoolV(!Get(m, errorVar).NilV?)];
            && (!Get(m, errorVar).NilV? ==> o == Entered(thenB, m'))
            && (Get(m, errorVar).NilV? ==> o == Run(m', elseB))
  {
    var m' := m[existsVar := BoolV(!Get(m, errorVar).NilV?)];
    assert Get(m', existsVar) == BoolV(!Get(m, errorVar).NilV?);
    var ec := ErrorCond(existsVar, errorVar, thenB, elseB);
    assert ec[1..][1..] == [Cond(existsVar, thenB, elseB)];
    assert Run(m, ec) == Run(m, ec[1..]) == Run(m', ec[1..][1..]);
    assert Run(m', [Cond(existsVar, thenB, elseB)]) == match Step(m', Cond(existsVar, thenB, elseB))
                                                    case Normal(m'') => Run(m'', [])
                                                    case o => o;
  }

  /** Whether a catch clause takes an error object: an untyped or dtError clause takes every one. */
  predicate Matches(c: Catch, val: Value) {
    c.binding.None? || c.binding.value.ty == ErrorTop || (val.ErrV? && c.binding.value.ty.cls in val.classes)
  }

  /** The first clause, in source order, that takes the error. */
  function FirstMatch(cs: seq<Catch>, val: Value): (r: Option<nat>)
    ensures r.Some? ==> r.value < |cs| && Matches(cs[r.value], val) && forall j :: 0 <= j < r.value ==> !Matches(cs[j], val)
    ensures r.None? ==> forall j :: 0 <= j < |cs| ==> !Matches(cs[j], val)
    decreases |cs|
  {
    if cs == [] then None
    else if Matches(cs[0], val) then Some(0)
    else
      var r := FirstMatch(cs[1..], val);
      assert forall j :: 1 <= j < |cs| ==> cs[j] == cs[1..][j - 1];
      if r.Some? then Some(r.value + 1) else None
  }

  /** The fallback alone, as the chain of an empty clause list. */
  lemma {:induction false} FallbackRoute(env: LEnv, top: Option<TryCtx>, ev: Var, bang: bool, n: nat, m: Store)
    ensures var o := Run(m, Handlers(env, top, ev, bang, [], false, n).stmts);
            var val := Get(m, ev);
            && (bang ==> o == Halted)
            && (!bang && top.Some? ==> o == Jumped(GotoErrorHandling, top.value.handlerLabel, m[top.value.errorVar := val]))
            && (!bang && top.None? && env.outError.Some? ==>
                  o == Jumped(GotoReturn, env.outError.value.epilogue, m[env.outError.value.formal := val]))
            && (!bang && top.None? && env.outError.None? ==> o == Normal(m))
  {
    var val := Get(m, ev);
    var fb := Fallback(env, top, ev, bang);
    if !bang && (top.Some? || env.outError.Some?) {
      var m1 := if top.Some? then m[top.value.errorVar := val] else m[env.outError.value.formal := val];
      assert Step(m, fb.0[0]) == Normal(m1);
      assert Run(m, fb.0) == Run(m1, fb.0[1..]);
      assert fb.0[1..][1..] == [];
      assert Run(m1, fb.0[1..]) == Step(m1, fb.0[1..][0]);
    }
  }

  /** The first two statements of a typed clause's link: define the variable and bind it. */
  lemma {:induction false} BindRoute(m: Store, v: Var, rhs: Rhs, rest: seq<Stmt>)
    ensures Run(m, [Def(VarSym(v)), Move(v, rhs)] + rest) == Run(m[v := Eval(m, rhs)], rest)
  {
    var two := [Def(VarSym(v)), Move(v, rhs)];
    assert Step(m, two[0]) == Normal(m);
    assert Run(m, two) == Run(m, two[1..]);
    assert two[1..][1..] == [];
    assert Step(m, two[1..][0]) == Normal(m[v := Eval(m, rhs)]);
    RunAppend(m, two, rest);
  }

  /** A chain whose first clause is a bare catch enters that clause's body. */
  lemma {:induction false} CatchAllRoute(env: LEnv, top: Option<TryCtx>, ev: Var, bang: bool, cs: seq<Catch>, n: nat, m: Store)
    requires cs != [] && cs[0].binding.None?
    ensures Run(m, Handlers(env, top, ev, bang, cs, false, n).stmts) == Entered(cs[0].body + [DeleteError(ev)], m)
  {
    var rest := Handlers(env, top, ev, bang, cs[1..], true, n);
    RunAppend(m, [Block(cs[0].body + [DeleteError(ev)])], rest.stmts);
  }

  /** A chain whose first clause binds dtError enters that clause's body with the error bound. */
  lemma {:induction false} NamedCatchAllRoute(env: LEnv, top: Option<TryCtx>, ev: Var, bang: bool, cs: seq<Catch>, n: nat, m: Store)
    requires cs != [] && cs[0].binding.Some? && cs[0].binding.value.ty == ErrorTop
    requires ev.ErrorTemp? && Get(m, ev).ErrV?
    ensures var o := Run(m, Handlers(env, top, ev, bang, cs, false, n).stmts);
            o.Entered? && o.body == cs[0].body + [DeleteError(ev)]
            && Get(o.store, UserVar(cs[0].binding.value.name)) == Get(m, ev)
  {
    var v := UserVar(cs[0].binding.value.name);
    var body := cs[0].body + [DeleteError(ev)];
    var ex := ExistsTemp(n);
    var rest := Handlers(env, top, ev, bang, cs[1..], true, n + 1);
    var m1 := m[v := Get(m, ev)];
    assert Handlers(env, top, ev, bang, cs, false, n).stmts
        == [Def(VarSym(v)), Move(v, Of(ev))] + (ErrorCond(ex, v, body, []) + rest.stmts);
    BindRoute(m, v, Of(ev), ErrorCond(ex, v, body, []) + rest.stmts);
    RunAppend(m1, ErrorCond(ex, v, body, []), rest.stmts);
    ErrorCondRoute(m1, ex, v, body, []);
  }

  /**
   * A chain whose first clause names a subclass enters that clause's body
   * when the error is of the subclass, and otherwise goes on with the chain
   * of the other clauses, the error still in place.
   */
  lemma {:induction false} TypedRoute(env: LEnv, top: Option<TryCtx>, ev: Var, bang: bool, cs: seq<Catch>, n: nat, m: Store)
    requires cs != [] && cs[0].binding.Some? && cs[0].binding.value.ty != ErrorTop
    requires ev.ErrorTemp? && Get(m, ev).ErrV?
    ensures var o := Run(m, Handlers(env, top, ev, bang, cs, false, n).stmts);
            var v := UserVar(cs[0].binding.value.name);
            var m2 := m[v := NilV][ExistsTemp(n) := BoolV(false)];
            && (Matches(cs[0], Get(m, ev)) ==>
                  o.Entered? && o.body == cs[0].body + [DeleteError(ev)] && Get(o.store, v) == Get(m, ev))
            && (!Matches(cs[0], Get(m, ev)) ==>
                  Get(m2, ev) == Get(m, ev) && o == Run(m2, Handlers(env, top, ev, bang, cs[1..], false, n + 1).stmts))
  {
    var b := cs[0].binding.value;
    var v := UserVar(b.name);
    var body := cs[0].body + [DeleteError(ev)];
    var ex := ExistsTemp(n);
    var rest := Handlers(env, top, ev, bang, cs[1..], false, n + 1);
    var m1 := m[v := Eval(m, DynamicCastTo(b.ty, ev))];
    BindRoute(m, v, DynamicCastTo(b.ty, ev), ErrorCond(ex, v, body, rest.stmts));
    ErrorCondRoute(m1, ex, v, body, rest.stmts);
  }

  /**
   * The handlers chain, run with an error object in the try's error
   * temporary, enters the body of the first clause that takes the error,
   * with one delete of the error at its tail and the clause's variable
   * bound to the error; when no clause takes it, it runs the fallback:
   * halt for try!, else hand the error to the innermost enclosing try and
   * jump to its handler, else pass it out through the error formal and jump
   * to the epilogue, else nothing at all.
   */
  lemma {:induction false} HandlersRoute(env: LEnv, top: Option<TryCtx>, ev: Var, bang: bool,
                                         cs: seq<Catch>, n: nat, m: Store)
    requires ev.ErrorTemp? && Get(m, ev).ErrV?
    ensures var o := Run(m, Handlers(env, top, ev, bang, cs, false, n).stmts);
            var val := Get(m, ev);
            var i := FirstMatch(cs, val);
            && (i.Some? ==>
                  && o.Entered? && o.body == cs[i.value].body + [DeleteError(ev)]
                  && (cs[i.value].binding.Some? ==> Get(o.store, UserVar(cs[i.value].binding.value.name)) == val))
            && (i.None? && bang ==> o == Halted)
            && (i.None? && !bang && top.Some? ==>
                  o.Jumped? && o.kind == GotoErrorHandling && o.target == top.value.handlerLabel
                  && Get(o.store, top.value.errorVar) == val)
            && (i.None? && !bang && top.None? && env.outError.Some? ==>
                  o.Jumped? && o.kind == GotoReturn && o.target == env.outError.value.epilogue
                  && Get(o.store, env.outError.value.formal) == val)
            && (i.None? && !bang && top.None? && env.outError.None? ==> o.Normal?)
    decreases |cs|
  {
    var val := Get(m, ev);
    if cs == [] {
      FallbackRoute(env, top, ev, bang, n, m);
    } else if cs[0].binding.None? {
      CatchAllRoute(env, top, ev, bang, cs, n, m);
    } else if cs[0].binding.value.ty == ErrorTop {
      NamedCatchAllRoute(env, top, ev, bang, cs, n, m);
    } else {
      TypedRoute(env, top, ev, bang, cs, n, m);
      if !Matches(cs[0], val) {
        var m2 := m[UserVar(cs[0].binding.value.name) := NilV][ExistsTemp(n) := BoolV(false)];
        HandlersRoute(env, top, ev, bang, cs[1..], n + 1, m2);
        var i' := FirstMatch(cs[1..], val);
        if i'.Some? {
          assert FirstMatch(cs, val) == Some(i'.value + 1);
          assert cs[1..][i'.value] == cs[i'.value + 1];
        }
      }
    }
  }

  /**
   * lowerCatches' output at the tail of the try body: with nil in the error
   * temporary it falls through; with an error it enters the handlers chain
   * with the error still in place.
   */
  lemma {:induction false} LowerCatchesRoute(env: LEnv, top: Option<TryCtx>, ctx: TryCtx, bang: bool, cs: seq<Catch>, st: LState, m: Store)
    requires ctx.errorVar.ErrorTemp?
    ensures var r := LowerCatches(env, top, ctx, bang, cs, st);
            var o := Run(m, r.0);
            && (Get(m, ctx.errorVar).NilV? ==> o.Normal?)
            && (!Get(m, ctx.errorVar).NilV? ==>
                  o.Entered? && o.body == Handlers(env, top, ctx.errorVar, bang, cs, false, st.next).stmts
                  && Get(o.store, ctx.errorVar) == Get(m, ctx.errorVar))
  {
    var h := Handlers(env, top, ctx.errorVar, bang, cs, false, st.next);
    ErrorCondRoute(m, ExistsTemp(h.next), ctx.errorVar, h.stmts, []);
  }

  /**
   * After a throwing call inside a try, an error left in the innermost
   * try's error temporary sends control to that try's handler label; no
   * error lets control fall through.
   */
  lemma {:induction false} CallRoute(env: LEnv, top: Option<TryCtx>, st: LState, callee: Callee, args: seq<Var>, m: Store)
    requires callee.Resolved? && callee.fn in env.throwing && top.Some? && top.value.errorVar.ErrorTemp?
    ensures var r := LowerCall(env, top, st, callee, args);
            var o := Run(m, r.0[1..]);
            && (Get(m, top.value.errorVar).NilV? ==> o.Normal?)
            && (!Get(m, top.value.errorVar).NilV? ==>
                  o.Entered? && Run(o.store, o.body) == Jumped(GotoErrorHandling, top.value.handlerLabel, o.store))
  {
    var r := LowerCall(env, top, st, callee, args);
    var policy := [Goto(GotoErrorHandling, top.value.handlerLabel)];
    assert r.0[1..] == ErrorCond(ExistsTemp(st.next), top.value.errorVar, policy, []);
    ErrorCondRoute(m, ExistsTemp(st.next), top.value.errorVar, policy, []);
  }

  /**
   * After a throwing call outside any try (not in strict mode), the error it
   * left in its fresh error temporary is passed out through the error formal
   * with a jump to the epilogue when the function throws, and halts the
   * program when it does not; no error lets control fall through.
   */
  lemma {:induction false} OutsideCallRoute(env: LEnv, st: LState, callee: Callee, args: seq<Var>, m: Store)
    requires callee.Resolved? && callee.fn in env.throwing && !env.strict
    ensures var r := LowerCall(env, None, st, callee, args);
            var e := ErrorTemp(st.next);
            var o := Run(m, r.0[2..]);
            && r.0[..2] == [Def(VarSym(e)), Call(callee, args + [e])]
            && (Get(m, e).NilV? ==> o.Normal?)
            && (!Get(m, e).NilV? ==>
                  && o.Entered?
                  && (env.outError.Some? ==>
                        Run(o.store, o.body) == Jumped(GotoReturn, env.outError.value.epilogue,
                                                       o.store[env.outError.value.formal := Get(m, e)]))
                  && (env.outError.None? ==> Run(o.store, o.body) == Halted))
  {
    var e := ErrorTemp(st.next);
    var ex := ExistsTemp(st.next + 1);
    var policy := CallPolicy(env, e);
    var r := LowerCall(env, None, st, callee, args);
    assert r.0[2..] == ErrorCond(ex, e, policy, []);
    ErrorCondRoute(m, ex, e, policy, []);
    if !Get(m, e).NilV? {
      var m1 := m[ex := BoolV(true)];
      assert Get(m1, e) == Get(m, e);
      if env.outError.Some? {
        var out := env.outError.value;
        var m2 := m1[out.formal := Get(m, e)];
        assert Step(m1, policy[0]) == Normal(m2);
        assert Run(m1, policy) == Run(m2, policy[1..]);
        assert policy[1..][1..] == [];
        assert Run(m2, policy[1..]) == Step(m2, policy[1..][0]);
      } else {
        assert Run(m1, policy) == Step(m1, Halt);
      }
    }
  }

  /**
   * A throw inside a try stores the thrown error in the innermost try's
   * error temporary and jumps to its handler; outside any try in a throwing
   * function it stores it in the error formal and jumps to the epilogue.
   */
  lemma {:induction false} ThrowRoute(env: LEnv, top: Option<TryCtx>, st: LState, thrown: Var, m: Store)
    requires top.Some? || env.outError.Some?
    ensures var r := LowerThrow(env, top, st, thrown);
            var o := Run(m, r.0);
            && o.Entered?
            && var inner := Run(o.store, o.body);
            && (top.Some? ==>
                  inner.Jumped? && inner.kind == GotoErrorHandling && inner.target == top.value.handlerLabel
                  && Get(inner.store, top.value.errorVar) == Get(m, thrown))
            && (top.None? ==>
                  inner.Jumped? && inner.kind == GotoReturn && inner.target == env.outError.value.epilogue
                  && Get(inner.store, env.outError.value.formal) == Get(m, thrown))
  {
    var r := LowerThrow(env, top, st, thrown);
    var b := r.0[0].body;
    assert Run(m, r.0) == Entered(b, m);
    var dst := if top.Some? then top.value.errorVar else env.outError.value.formal;
    var m1 := m[dst := Get(m, thrown)];
    assert Step(m, b[0]) == Normal(m1);
    assert Run(m, b) == Run(m1, b[1..]);
    assert b[1..][1..] == [];
    assert Run(m1, b[1..]) == Step(m1, b[1..][0]);
  }
}
