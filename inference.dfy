/**
 * Inferring `throws` for compiler-generated functions.  canBlockThrow
 * (compiler/passes/errorHandling.cpp) answers with the canThrow flag of the
 * CanThrowVisitor, which exitTryStmt overwrites: an error that escaped
 * before a try is forgotten once a try with a catch-all follows it.  This
 * module shows the consequence on one body, and defines and proves the
 * answer canBlockThrow is evidently meant to give.
 */
module Inference {
  import opened Ast
  import opened CanThrow
  import opened LowerSpec
  import opened LowerProps

  /**
   * Whether an error can leave a statement: a throw, a throwing call, or a
   * try that neither is try! nor catches everything; what a try body throws
   * stays in the try, what its catch bodies throw does not.
   */
  predicate Escapes(throwing: set<FnId>, s: Stmt)
    decreases s
  {
    match s
    case Block(b) => EscapesAll(throwing, b)
    case Cond(_, t, e) => EscapesAll(throwing, t) || EscapesAll(throwing, e)
    case Try(_, cs, bang) => (!bang && NotExhaustive(cs)) || EscapesCatches(throwing, cs)
    case Call(callee, _) => callee.Resolved? && callee.fn in throwing
    case Throw(_) => true
    case _ => false
  }

  predicate EscapesAll(throwing: set<FnId>, ss: seq<Stmt>)
    decreases ss
  {
    ss != [] && (Escapes(throwing, ss[0]) || EscapesAll(throwing, ss[1..]))
  }

  predicate EscapesCatches(throwing: set<FnId>, cs: seq<Catch>)
    decreases cs
  {
    cs != [] && (EscapesAll(throwing, cs[0].body) || EscapesCatches(throwing, cs[1..]))
  }

  /** No catch list anywhere has a clause after its first catch-all. */
  predicate WellPlaced(s: Stmt)
    decreases s
  {
    match s
    case Block(b) => AllWellPlaced(b)
    case Cond(_, t, e) => AllWellPlaced(t) && AllWellPlaced(e)
    case Try(b, cs, _) => ClausesAfterCatchAll(cs) == 0 && AllWellPlaced(b) && CatchesWellPlaced(cs)
    case _ => true
  }

  predicate AllWellPlaced(ss: seq<Stmt>)
    decreases ss
  {
    ss == [] || (WellPlaced(ss[0]) && AllWellPlaced(ss[1..]))
  }

  predicate CatchesWellPlaced(cs: seq<Catch>)
    decreases cs
  {
    cs == [] || (AllWellPlaced(cs[0].body) && CatchesWellPlaced(cs[1..]))
  }

  // ------------------------------------------------- the body that shows it

  /** `if c { throw e; }` followed by `try { } catch { }`. */
  function EscapeThenTry(): seq<Stmt> {
    [Cond(UserVar("c"), [Throw(UserVar("e"))], []), Try([], [Catch(None, [])], false)]
  }

  /**
   * canBlockThrow, as written, answers false for a body whose throw is
   * outside every try; such a function then gets no error formal, and the
   * lowering of its throw is an internal error.
   */
  lemma {:induction false} CanBlockThrowMissesEscape()
    ensures !CanBlockThrowSpec(false, {}, EscapeThenTry())
    ensures EscapesAll({}, EscapeThenTry())
    ensures ThrowInNonThrowingFn in LowerStmts(LEnv(None, false, {}), None, LState(0, []), EscapeThenTry()).1.fatals
  {
    var body := EscapeThenTry();
    var cfg := CtConfig(false, false, false, {});
    assert body[1..][1..] == [];
    var afterCond := CtStmt(cfg, Initial, body[0]);
    assert afterCond.canThrow by {
      assert [Throw(UserVar("e"))][1..] == [];
    }
    assert !NotExhaustive([Catch(None, [])]);
    assert !CtStmt(cfg, afterCond, body[1]).canThrow;
    assert Escapes({}, body[0]) by {
      assert EscapesAll({}, [Throw(UserVar("e"))]);
    }
    var env := LEnv(None, false, {});
    var (a, st1) := LowerStmt(env, None, LState(0, []), body[0]);
    assert ThrowInNonThrowingFn in st1.fatals by {
      assert LowerStmts(env, None, LState(0, []), [Throw(UserVar("e"))]).1.fatals == [ThrowInNonThrowingFn] by {
        assert [Throw(UserVar("e"))][1..] == [];
      }
    }
  }

  // ------------------------------------------------------ the corrected answer

  /**
   * What canBlockThrow, as written, answers true for does escape: the
   * corrected answer only adds cases.
   */
  lemma {:induction false} SeenEscapesStmts(cfg: CtConfig, st: CtState, ss: seq<Stmt>)
    requires st.tryDepth == 0
    ensures CtStmts(cfg, st, ss).canThrow ==> st.canThrow || EscapesAll(cfg.throwing, ss)
    decreases ss
  {
    if ss != [] {
      SeenEscapesStmt(cfg, st, ss[0]);
      StmtKeepsDepth(cfg, st, ss[0]);
      SeenEscapesStmts(cfg, CtStmt(cfg, st, ss[0]), ss[1..]);
    }
  }

  lemma {:induction false} SeenEscapesStmt(cfg: CtConfig, st: CtState, s: Stmt)
    requires st.tryDepth == 0
    ensures CtStmt(cfg, st, s).canThrow ==> st.canThrow || Escapes(cfg.throwing, s)
    decreases s
  {
    match s
    case Block(b) => SeenEscapesStmts(cfg, st, b);
    case Cond(_, t, e) =>
      SeenEscapesStmts(cfg, st, t);
      StmtsKeepDepth(cfg, st, t);
      SeenEscapesStmts(cfg, CtStmts(cfg, st, t), e);
    case Try(b, cs, bang) =>
      var s1 := CtStmts(cfg, EnterTry(st), b);
      StmtsKeepDepth(cfg, EnterTry(st), b);
      var s2 := ExitTry(cfg, s1, cs, bang);
      SeenEscapesCatches(cfg, s2, cs);
    case Call(_, _) =>
    case Throw(_) =>
    case _ =>
  }

  lemma {:induction false} SeenEscapesCatches(cfg: CtConfig, st: CtState, cs: seq<Catch>)
    requires st.tryDepth == 0
    ensures CtCatches(cfg, st, cs).canThrow ==> st.canThrow || EscapesCatches(cfg.throwing, cs)
    decreases cs
  {
    if cs != [] {
      SeenEscapesStmts(cfg, st, cs[0].body);
      StmtsKeepDepth(cfg, st, cs[0].body);
      SeenEscapesCatches(cfg, CtStmts(cfg, st, cs[0].body), cs[1..]);
    }
  }

  lemma {:induction false} CanBlockThrowBelowEscapes(strict: bool, throwing: set<FnId>, body: seq<Stmt>)
    ensures CanBlockThrowSpec(strict, throwing, body) ==> EscapesAll(throwing, body)
  {
    SeenEscapesStmts(CtConfig(false, false, strict, throwing), Initial, body);
  }

  /** A throwing function outside strict mode: nothing outside a try is reported. */
  predicate LenientThrows(cfg: CtConfig) {
    cfg.fnCanThrow && !cfg.strict
  }

  /**
   * The walk of checkErrorHandling reports nothing on a body with no
   * misplaced catch-all from which, where it runs outside every try,
   * nothing escapes (or where escaping is allowed).
   */
  lemma {:induction false} QuietStmts(cfg: CtConfig, st: CtState, ss: seq<Stmt>)
    requires st.tryDepth >= 0 && AllWellPlaced(ss)
    requires st.tryDepth == 0 ==> LenientThrows(cfg) || !EscapesAll(cfg.throwing, ss)
    ensures CtStmts(cfg, st, ss).diags == st.diags
    decreases ss
  {
    if ss != [] {
      QuietStmt(cfg, st, ss[0]);
      StmtKeepsDepth(cfg, st, ss[0]);
      QuietStmts(cfg, CtStmt(cfg, st, ss[0]), ss[1..]);
    }
  }

  lemma {:induction false} QuietStmt(cfg: CtConfig, st: CtState, s: Stmt)
    requires st.tryDepth >= 0 && WellPlaced(s)
    requires st.tryDepth == 0 ==> LenientThrows(cfg) || !Escapes(cfg.throwing, s)
    ensures CtStmt(cfg, st, s).diags == st.diags
    decreases s
  {
    match s
    case Block(b) => QuietStmts(cfg, st, b);
    case Cond(_, t, e) =>
      QuietStmts(cfg, st, t);
      StmtsKeepDepth(cfg, st, t);
      QuietStmts(cfg, CtStmts(cfg, st, t), e);
    case Try(b, cs, bang) =>
      var s1 := CtStmts(cfg, EnterTry(st), b);
      QuietStmts(cfg, EnterTry(st), b);
      StmtsKeepDepth(cfg, EnterTry(st), b);
      MisplacedReportCount(cfg.errors, cs);
      var s2 := ExitTry(cfg, s1, cs, bang);
      assert s2.diags == st.diags;
      QuietCatches(cfg, s2, cs);
    case Call(_, _) =>
    case Throw(_) =>
    case _ =>
  }

  lemma {:induction false} QuietCatches(cfg: CtConfig, st: CtState, cs: seq<Catch>)
    requires st.tryDepth >= 0 && CatchesWellPlaced(cs)
    requires st.tryDepth == 0 ==> LenientThrows(cfg) || !EscapesCatches(cfg.throwing, cs)
    ensures CtCatches(cfg, st, cs).diags == st.diags
    decreases cs
  {
    if cs != [] {
      QuietStmts(cfg, st, cs[0].body);
      StmtsKeepDepth(cfg, st, cs[0].body);
      QuietCatches(cfg, CtStmts(cfg, st, cs[0].body), cs[1..]);
    }
  }

  /**
   * The corrected inference is sound: a body from which nothing escapes,
   * with no misplaced catch-all, passes checkErrorHandling as a
   * non-throwing function and is lowered without any internal error, with
   * no error formal.
   */
  lemma {:induction false} EscapesIsSound(strict: bool, throwing: set<FnId>, body: seq<Stmt>, st: LState)
    requires !EscapesAll(throwing, body) && AllWellPlaced(body)
    ensures CheckSpec(false, strict, throwing, body) == []
    ensures LowerStmts(LEnv(None, strict, throwing), None, st, body).1.fatals == st.fatals
  {
    QuietStmts(CtConfig(true, false, strict, throwing), Initial, body);
    CheckedBodyLowersCleanly(false, None, strict, throwing, body, st);
  }
  /** A throwing function outside strict mode with no misplaced catch-all passes checkErrorHandling. */
  lemma {:induction false} ThrowingFnIsQuiet(throwing: set<FnId>, body: seq<Stmt>)
    requires AllWellPlaced(body)
    ensures CheckSpec(true, false, throwing, body) == []
  {
    QuietStmts(CtConfig(true, true, false, throwing), Initial, body);
  }

  // ------------------------------------------------ the set of throwing functions

  /** More throwing functions can only make more errors escape. */
  lemma {:induction false} EscapesAllMono(t1: set<FnId>, t2: set<FnId>, ss: seq<Stmt>)
    requires t1 <= t2
    ensures EscapesAll(t1, ss) ==> EscapesAll(t2, ss)
    decreases ss
  {
    if ss != [] {
      EscapesMono(t1, t2, ss[0]);
      EscapesAllMono(t1, t2, ss[1..]);
    }
  }

  lemma {:induction false} EscapesMono(t1: set<FnId>, t2: set<FnId>, s: Stmt)
    requires t1 <= t2
    ensures Escapes(t1, s) ==> Escapes(t2, s)
    decreases s
  {
    match s
    case Block(b) => EscapesAllMono(t1, t2, b);
    case Cond(_, t, e) => EscapesAllMono(t1, t2, t); EscapesAllMono(t1, t2, e);
    case Try(_, cs, _) => EscapesCatchesMono(t1, t2, cs);
    case _ =>
  }

  lemma {:induction false} EscapesCatchesMono(t1: set<FnId>, t2: set<FnId>, cs: seq<Catch>)
    requires t1 <= t2
    ensures EscapesCatches(t1, cs) ==> EscapesCatches(t2, cs)
    decreases cs
  {
    if cs != [] {
      EscapesAllMono(t1, t2, cs[0].body);
      EscapesCatchesMono(t1, t2, cs[1..]);
    }
  }

  /**
   * Outside strict mode the reports of checkErrorHandling do not depend on
   * which functions throw: only a strict walk reports a throwing call.
   */
  lemma {:induction false} LenientStmts(cfg: CtConfig, t2: set<FnId>, st1: CtState, st2: CtState, ss: seq<Stmt>)
    requires !cfg.strict && st1.tryDepth == st2.tryDepth && st1.diags == st2.diags
    ensures CtStmts(cfg, st1, ss).tryDepth == CtStmts(cfg.(throwing := t2), st2, ss).tryDepth
    ensures CtStmts(cfg, st1, ss).diags == CtStmts(cfg.(throwing := t2), st2, ss).diags
    decreases ss
  {
    if ss != [] {
      LenientStmt(cfg, t2, st1, st2, ss[0]);
      LenientStmts(cfg, t2, CtStmt(cfg, st1, ss[0]), CtStmt(cfg.(throwing := t2), st2, ss[0]), ss[1..]);
    }
  }

  lemma {:induction false} LenientStmt(cfg: CtConfig, t2: set<FnId>, st1: CtState, st2: CtState, s: Stmt)
    requires !cfg.strict && st1.tryDepth == st2.tryDepth && st1.diags == st2.diags
    ensures CtStmt(cfg, st1, s).tryDepth == CtStmt(cfg.(throwing := t2), st2, s).tryDepth
    ensures CtStmt(cfg, st1, s).diags == CtStmt(cfg.(throwing := t2), st2, s).diags
    decreases s
  {
    var cfg2 := cfg.(throwing := t2);
    match s
    case Block(b) => LenientStmts(cfg, t2, st1, st2, b);
    case Cond(_, t, e) =>
      LenientStmts(cfg, t2, st1, st2, t);
      LenientStmts(cfg, t2, CtStmts(cfg, st1, t), CtStmts(cfg2, st2, t), e);
    case Try(b, cs, bang) =>
      LenientStmts(cfg, t2, EnterTry(st1), EnterTry(st2), b);
      var x1 := ExitTry(cfg, CtStmts(cfg, EnterTry(st1), b), cs, bang);
      var x2 := ExitTry(cfg2, CtStmts(cfg2, EnterTry(st2), b), cs, bang);
      LenientCatches(cfg, t2, x1, x2, cs);
    case Call(_, _) =>
    case Throw(_) =>
    case _ =>
  }

  lemma {:induction false} LenientCatches(cfg: CtConfig, t2: set<FnId>, st1: CtState, st2: CtState, cs: seq<Catch>)
    requires !cfg.strict && st1.tryDepth == st2.tryDepth && st1.diags == st2.diags
    ensures CtCatches(cfg, st1, cs).tryDepth == CtCatches(cfg.(throwing := t2), st2, cs).tryDepth
    ensures CtCatches(cfg, st1, cs).diags == CtCatches(cfg.(throwing := t2), st2, cs).diags
    decreases cs
  {
    if cs != [] {
      LenientStmts(cfg, t2, st1, st2, cs[0].body);
      LenientCatches(cfg, t2, CtStmts(cfg, st1, cs[0].body), CtStmts(cfg.(throwing := t2), st2, cs[0].body), cs[1..]);
    }
  }

  lemma {:induction false} CheckIgnoresThrowingWhenLenient(fnThrows: bool, t1: set<FnId>, t2: set<FnId>, body: seq<Stmt>)
    ensures CheckSpec(fnThrows, false, t1, body) == CheckSpec(fnThrows, false, t2, body)
  {
    LenientStmts(CtConfig(true, fnThrows, false, t1), t2, Initial, Initial, body);
  }
}
