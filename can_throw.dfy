/**
 * The read-only analysis CanThrowVisitor of compiler/passes/errorHandling.cpp:
 * whether an error can leave a block, and the structural diagnostics about
 * try/catch/throw.  Each visitor hook is specified by a function on the
 * visitor's state; the traversal (body, then exitTryStmt, then the catch
 * bodies) is specified by CtStmts, and the class proves its hooks and its
 * traversal against them.
 */
module CanThrow {
  import opened Ast

  /** The parts of the visitor that never change during a walk, and the globals it reads. */
  datatype CtConfig = CtConfig(
    errors: bool,            // makeCompileErrors
    fnCanThrow: bool,        // the walked function is declared throws
    strict: bool,            // fStrictErrorHandling
    throwing: set<FnId>)     // the functions whose throwsError() holds

  /** The parts of the visitor that its hooks update; diags is the USR_FATAL_CONT log. */
  datatype CtState = CtState(tryDepth: int, canThrow: bool, diags: seq<Msg>)

  /**
   * Number of clauses that follow the first catch-all: none when no clause
   * before the last one is a catch-all, otherwise the clauses after the
   * first catch-all.
   */
  function ClausesAfterCatchAll(cs: seq<Catch>): (n: nat)
    ensures n == 0 <==> forall i :: 0 <= i < |cs| - 1 ==> !IsCatchAll(cs[i])
    ensures n > 0 ==> n < |cs| && IsCatchAll(cs[|cs| - 1 - n]) && forall j :: 0 <= j < |cs| - 1 - n ==> !IsCatchAll(cs[j])
  {
    if cs == [] then 0
    else if IsCatchAll(cs[0]) then |cs| - 1
    else
      assert forall j :: 0 <= j < |cs| - 1 ==> cs[1..][j] == cs[j + 1];
      ClausesAfterCatchAll(cs[1..])
  }

  /**
   * The reports the loop of catchesNotExhaustive makes over the clauses cs,
   * given whether a catch-all was already seen before them: one report for
   * every clause that is reached once a catch-all has been seen.
   */
  function MisplacedReports(errors: bool, cs: seq<Catch>, seen: bool): seq<Msg>
  {
    if cs == [] then []
    else (if errors && seen then [CatchAllNotLast] else [])
         + MisplacedReports(errors, cs[1..], seen || IsCatchAll(cs[0]))
  }

  /** The flag the loop of catchesNotExhaustive ends with, given its value before cs. */
  function ScanCatchAll(cs: seq<Catch>, seen: bool): bool
  {
    if cs == [] then seen else ScanCatchAll(cs[1..], seen || IsCatchAll(cs[0]))
  }

  /** The value catchesNotExhaustive returns. */
  function NotExhaustive(cs: seq<Catch>): bool
  {
    !ScanCatchAll(cs, false)
  }

  lemma {:induction false} ScanCatchAllIff(cs: seq<Catch>, seen: bool)
    ensures ScanCatchAll(cs, seen) <==> seen || exists i :: 0 <= i < |cs| && IsCatchAll(cs[i])
  {
    if cs != [] {
      ScanCatchAllIff(cs[1..], seen || IsCatchAll(cs[0]));
      if exists i :: 0 <= i < |cs[1..]| && IsCatchAll(cs[1..][i]) {
        var i :| 0 <= i < |cs[1..]| && IsCatchAll(cs[1..][i]);
        assert IsCatchAll(cs[i + 1]);
      }
      if exists i :: 0 <= i < |cs| && IsCatchAll(cs[i]) {
        var i :| 0 <= i < |cs| && IsCatchAll(cs[i]);
        if i > 0 { assert IsCatchAll(cs[1..][i - 1]); }
      }
    }
  }

  /** catchesNotExhaustive holds exactly when no clause is untyped and no binding has type dtError. */
  lemma {:induction false} NotExhaustiveIff(cs: seq<Catch>)
    ensures NotExhaustive(cs) <==>
      forall i :: 0 <= i < |cs| ==> cs[i].binding.Some? && cs[i].binding.value.ty != ErrorTop
  {
    ScanCatchAllIff(cs, false);
  }

  /**
   * With diagnostics on, the loop reports once for every clause after the
   * first catch-all; with diagnostics off it never reports.
   */
  lemma {:induction false} MisplacedReportCount(errors: bool, cs: seq<Catch>)
    ensures errors ==> MisplacedReports(errors, cs, false) == seq(ClausesAfterCatchAll(cs), _ => CatchAllNotLast)
    ensures !errors ==> MisplacedReports(errors, cs, false) == []
  {
    if cs != [] {
      if IsCatchAll(cs[0]) {
        MisplacedAfterSeen(errors, cs[1..]);
      } else {
        MisplacedReportCount(errors, cs[1..]);
      }
    }
  }

  lemma {:induction false} MisplacedAfterSeen(errors: bool, cs: seq<Catch>)
    ensures MisplacedReports(errors, cs, true) == if errors then seq(|cs|, _ => CatchAllNotLast) else []
  {
    if cs != [] {
      MisplacedAfterSeen(errors, cs[1..]);
      if errors {
        assert seq(|cs|, _ => CatchAllNotLast) == [CatchAllNotLast] + seq(|cs| - 1, _ => CatchAllNotLast);
      }
    }
  }

  lemma {:induction false} MisplacedOnlyCatchAll(errors: bool, cs: seq<Catch>, seen: bool)
    ensures forall m :: m in MisplacedReports(errors, cs, seen) ==> m == CatchAllNotLast
  {
    if cs != [] {
      MisplacedOnlyCatchAll(errors, cs[1..], seen || IsCatchAll(cs[0]));
    }
  }

  /** enterTryStmt. */
  function EnterTry(st: CtState): (r: CtState)
    ensures r.tryDepth == st.tryDepth + 1 && r.canThrow == st.canThrow && r.diags == st.diags
  {
    st.(tryDepth := st.tryDepth + 1)
  }

  /** exitTryStmt: decrement the depth, scan the catches, then overwrite canThrow. */
  function ExitTry(cfg: CtConfig, st: CtState, cs: seq<Catch>, bang: bool): (r: CtState)
    ensures r.tryDepth == st.tryDepth - 1
    ensures bang ==> !r.canThrow
    ensures !bang ==> (r.canThrow <==> forall i :: 0 <= i < |cs| ==> !IsCatchAll(cs[i]))
    ensures st.diags <= r.diags
    ensures TryWithoutCatchAll in r.diags[|st.diags|..] <==>
      cfg.errors && r.tryDepth == 0 && !bang && !cfg.fnCanThrow && forall i :: 0 <= i < |cs| ==> !IsCatchAll(cs[i])
  {
    ScanCatchAllIff(cs, false);
    MisplacedOnlyCatchAll(cfg.errors, cs, false);
    var depth := st.tryDepth - 1;
    var nonExhaustive := NotExhaustive(cs);
    var reports := MisplacedReports(cfg.errors, cs, false)
      + if !bang && cfg.errors && depth == 0 && nonExhaustive && !cfg.fnCanThrow then [TryWithoutCatchAll] else [];
    var r := CtState(depth, if bang then false else nonExhaustive, st.diags + reports);
    assert r.diags[|st.diags|..] == reports;
    r
  }

  /** enterCallExpr on a call statement. */
  function EnterCall(cfg: CtConfig, st: CtState, callee: Callee): (r: CtState)
    ensures r.tryDepth == st.tryDepth
    ensures !(callee.Resolved? && callee.fn in cfg.throwing) ==> r == st
    ensures callee.Resolved? && callee.fn in cfg.throwing && st.tryDepth > 0 ==> r == st
    ensures callee.Resolved? && callee.fn in cfg.throwing && st.tryDepth <= 0 ==>
      r.canThrow && r.diags == st.diags + (if cfg.errors && cfg.strict then [ThrowingCallWithoutTry] else [])
  {
    if callee.Resolved? && callee.fn in cfg.throwing then
      if st.tryDepth > 0 then st
      else CtState(st.tryDepth, true, st.diags + if cfg.errors && cfg.strict then [ThrowingCallWithoutTry] else [])
    else st
  }

  /** enterCallExpr on PRIM_THROW. */
  function EnterThrow(cfg: CtConfig, st: CtState): (r: CtState)
    ensures r.tryDepth == st.tryDepth && r.canThrow
    ensures r.diags == st.diags + if st.tryDepth <= 0 && !cfg.fnCanThrow && cfg.errors then [ThrowInNonThrowingFn] else []
  {
    CtState(st.tryDepth, true,
            st.diags + if st.tryDepth > 0 || cfg.fnCanThrow || !cfg.errors then [] else [ThrowInNonThrowingFn])
  }

  /** The walk over one statement: a try's catch bodies are visited after exitTryStmt. */
  function CtStmt(cfg: CtConfig, st: CtState, s: Stmt): CtState
    decreases s
  {
    match s
    case Block(b) => CtStmts(cfg, st, b)
    case Cond(_, t, e) => CtStmts(cfg, CtStmts(cfg, st, t), e)
    case Try(b, cs, bang) => CtCatches(cfg, ExitTry(cfg, CtStmts(cfg, EnterTry(st), b), cs, bang), cs)
    case Call(callee, _) => EnterCall(cfg, st, callee)
    case Throw(_) => EnterThrow(cfg, st)
    case _ => st
  }

  function CtStmts(cfg: CtConfig, st: CtState, ss: seq<Stmt>): CtState
    decreases ss
  {
    if ss == [] then st else CtStmts(cfg, CtStmt(cfg, st, ss[0]), ss[1..])
  }

  function CtCatches(cfg: CtConfig, st: CtState, cs: seq<Catch>): CtState
    decreases cs
  {
    if cs == [] then st else CtCatches(cfg, CtStmts(cfg, st, cs[0].body), cs[1..])
  }

  /** The state canBlockThrow / checkErrorHandling start from. */
  const Initial := CtState(0, false, [])

  /** canBlockThrow: the walk in inference mode (not throwing, no diagnostics). */
  function CanBlockThrowSpec(strict: bool, throwing: set<FnId>, body: seq<Stmt>): bool
  {
    CtStmts(CtConfig(false, false, strict, throwing), Initial, body).canThrow
  }

  /** checkErrorHandling: the reports of the walk in diagnostic mode. */
  function CheckSpec(fnThrows: bool, strict: bool, throwing: set<FnId>, body: seq<Stmt>): seq<Msg>
  {
    CtStmts(CtConfig(true, fnThrows, strict, throwing), Initial, body).diags
  }

  // ---------------------------------------------------------------- lemmas

  /** A walk over a statement list leaves tryDepth where it found it; reports are only appended. */
  lemma {:induction false} StmtsKeepDepth(cfg: CtConfig, st: CtState, ss: seq<Stmt>)
    ensures CtStmts(cfg, st, ss).tryDepth == st.tryDepth
    ensures st.diags <= CtStmts(cfg, st, ss).diags
    decreases ss
  {
    if ss != [] {
      StmtKeepsDepth(cfg, st, ss[0]);
      StmtsKeepDepth(cfg, CtStmt(cfg, st, ss[0]), ss[1..]);
    }
  }

  lemma {:induction false} StmtKeepsDepth(cfg: CtConfig, st: CtState, s: Stmt)
    ensures CtStmt(cfg, st, s).tryDepth == st.tryDepth
    ensures st.diags <= CtStmt(cfg, st, s).diags
    decreases s
  {
    match s
    case Block(b) => StmtsKeepDepth(cfg, st, b);
    case Cond(_, t, e) =>
      StmtsKeepDepth(cfg, st, t);
      StmtsKeepDepth(cfg, CtStmts(cfg, st, t), e);
    case Try(b, cs, bang) =>
      var inBody := CtStmts(cfg, EnterTry(st), b);
      StmtsKeepDepth(cfg, EnterTry(st), b);
      var exited := ExitTry(cfg, inBody, cs, bang);
      CatchesKeepDepth(cfg, exited, cs);
    case Call(callee, _) =>
    case Throw(_) =>
    case _ =>
  }

  lemma {:induction false} CatchesKeepDepth(cfg: CtConfig, st: CtState, cs: seq<Catch>)
    ensures CtCatches(cfg, st, cs).tryDepth == st.tryDepth
    ensures st.diags <= CtCatches(cfg, st, cs).diags
    decreases cs
  {
    if cs != [] {
      StmtsKeepDepth(cfg, st, cs[0].body);
      CatchesKeepDepth(cfg, CtStmts(cfg, st, cs[0].body), cs[1..]);
    }
  }

  /** A try leaves tryDepth as it was before the try (enter and exit balance). */
  lemma {:induction false} TryRestoresDepth(cfg: CtConfig, st: CtState, b: seq<Stmt>, cs: seq<Catch>, bang: bool)
    ensures CtStmt(cfg, st, Try(b, cs, bang)).tryDepth == st.tryDepth
  {
    StmtKeepsDepth(cfg, st, Try(b, cs, bang));
  }

  /** In inference mode (makeCompileErrors = false) no walk ever reports anything. */
  lemma {:induction false} SilentStmts(cfg: CtConfig, st: CtState, ss: seq<Stmt>)
    requires !cfg.errors
    ensures CtStmts(cfg, st, ss).diags == st.diags
    decreases ss
  {
    if ss != [] {
      SilentStmt(cfg, st, ss[0]);
      SilentStmts(cfg, CtStmt(cfg, st, ss[0]), ss[1..]);
    }
  }

  lemma {:induction false} SilentStmt(cfg: CtConfig, st: CtState, s: Stmt)
    requires !cfg.errors
    ensures CtStmt(cfg, st, s).diags == st.diags
    decreases s
  {
    match s
    case Block(b) => SilentStmts(cfg, st, b);
    case Cond(_, t, e) =>
      SilentStmts(cfg, st, t);
      SilentStmts(cfg, CtStmts(cfg, st, t), e);
    case Try(b, cs, bang) =>
      SilentStmts(cfg, EnterTry(st), b);
      MisplacedReportCount(cfg.errors, cs);
      SilentCatches(cfg, ExitTry(cfg, CtStmts(cfg, EnterTry(st), b), cs, bang), cs);
    case Call(callee, _) =>
    case Throw(_) =>
    case _ =>
  }

  lemma {:induction false} SilentCatches(cfg: CtConfig, st: CtState, cs: seq<Catch>)
    requires !cfg.errors
    ensures CtCatches(cfg, st, cs).diags == st.diags
    decreases cs
  {
    if cs != [] {
      SilentStmts(cfg, st, cs[0].body);
      SilentCatches(cfg, CtStmts(cfg, st, cs[0].body), cs[1..]);
    }
  }

  /** canBlockThrow's walk produces no diagnostic whatever the body. */
  lemma {:induction false} CanBlockThrowIsSilent(strict: bool, throwing: set<FnId>, body: seq<Stmt>)
    ensures CtStmts(CtConfig(false, false, strict, throwing), Initial, body).diags == []
  {
    SilentStmts(CtConfig(false, false, strict, throwing), Initial, body);
  }

  // ---------------------------------------------------------------- the visitor

  class CanThrowVisitor {
    var tryDepth: int
    var canThrow: bool
    const errors: bool
    const fnCanThrow: bool
    /** fStrictErrorHandling, a global of the compiler. */
    const strict: bool
    /** The functions whose throwsError() holds, read through resolvedFunction(). */
    const throwing: set<FnId>
    /** The reports made with USR_FATAL_CONT. */
    var diags: seq<Msg>

    function Config(): CtConfig {
      CtConfig(errors, fnCanThrow, strict, throwing)
    }

    function State(): CtState reads this {
      CtState(tryDepth, canThrow, diags)
    }

    constructor(inThrowingFn: bool, makeCompileErrors: bool, strictMode: bool, throwingFns: set<FnId>)
      ensures State() == Initial
      ensures Config() == CtConfig(makeCompileErrors, inThrowingFn, strictMode, throwingFns)
    {
      tryDepth := 0;
      canThrow := false;
      errors := makeCompileErrors;
      fnCanThrow := inThrowingFn;
      strict := strictMode;
      throwing := throwingFns;
      diags := [];
    }

    function Throws(): bool reads this {
      canThrow
    }

    method EnterTryStmt()
      modifies this
      ensures State() == EnterTry(old(State()))
    {
      tryDepth := tryDepth + 1;
    }

    method ExitTryStmt(node: Stmt)
      requires node.Try?
      modifies this
      ensures State() == ExitTry(Config(), old(State()), node.catches, node.bang)
    {
      tryDepth := tryDepth - 1;
      var nonExhaustive := CatchesNotExhaustive(node.catches);
      if node.bang {
        canThrow := false;
      } else {
        canThrow := nonExhaustive;
        if errors && tryDepth == 0 && nonExhaustive && !fnCanThrow {
          diags := diags + [TryWithoutCatchAll];
        }
      }
    }

    /** The loop over the catch list; reports every clause reached after a catch-all. */
    method CatchesNotExhaustive(cs: seq<Catch>) returns (r: bool)
      modifies this`diags
      ensures r <==> forall i :: 0 <= i < |cs| ==> !IsCatchAll(cs[i])
      ensures r == NotExhaustive(cs)
      ensures diags == old(diags) + MisplacedReports(errors, cs, false)
    {
      var hasCatchAll := false;
      var i := 0;
      while i < |cs|
        invariant 0 <= i <= |cs|
        invariant ScanCatchAll(cs[i..], hasCatchAll) == ScanCatchAll(cs, false)
        invariant diags + MisplacedReports(errors, cs[i..], hasCatchAll)
               == old(diags) + MisplacedReports(errors, cs, false)
      {
        if errors && hasCatchAll {
          diags := diags + [CatchAllNotLast];
        }
        var c := cs[i];
        if c.binding.None? {
          hasCatchAll := true;
        } else {
          if c.binding.value.ty == ErrorTop {
            hasCatchAll := true;
          }
        }
        assert cs[i..][1..] == cs[i + 1..];
        i := i + 1;
      }
      ScanCatchAllIff(cs, false);
      r := !hasCatchAll;
    }

    method EnterCallExpr(node: Stmt)
      requires node.Call? || node.Throw?
      modifies this
      ensures State() == if node.Call? then EnterCall(Config(), old(State()), node.callee)
                         else EnterThrow(Config(), old(State()))
    {
      var insideTry := tryDepth > 0;
      if node.Call? {
        if node.callee.Resolved? && node.callee.fn in throwing {
          if insideTry {
            // handled by the enclosing try's exhaustiveness
          } else {
            if errors && strict {
              diags := diags + [ThrowingCallWithoutTry];
            }
            canThrow := true;
          }
        }
      } else {
        canThrow := true;
        if insideTry {
          // checked when the try is exited
        } else if fnCanThrow {
          // the function may throw
        } else if errors {
          diags := diags + [ThrowInNonThrowingFn];
        }
      }
    }

    /** The traversal of one statement, with the hook order of AstVisitorTraverse. */
    method Accept(s: Stmt)
      modifies this
      ensures State() == CtStmt(Config(), old(State()), s)
      decreases s
    {
      match s
      case Block(b) => AcceptAll(b);
      case Cond(_, t, e) =>
        AcceptAll(t);
        AcceptAll(e);
      case Try(b, cs, bang) =>
        EnterTryStmt();
        AcceptAll(b);
        ExitTryStmt(s);
        AcceptCatches(cs);
      case Call(_, _) => EnterCallExpr(s);
      case Throw(_) => EnterCallExpr(s);
      case _ =>
    }

    method AcceptAll(ss: seq<Stmt>)
      modifies this
      ensures State() == CtStmts(Config(), old(State()), ss)
      decreases ss
    {
      if ss != [] {
        Accept(ss[0]);
        AcceptAll(ss[1..]);
      }
    }

    method AcceptCatches(cs: seq<Catch>)
      modifies this
      ensures State() == CtCatches(Config(), old(State()), cs)
      decreases cs
    {
      if cs != [] {
        AcceptAll(cs[0].body);
        AcceptCatches(cs[1..]);
      }
    }
  }

  /** canBlockThrow: a silent visitor of a non-throwing function walks the block. */
  method CanBlockThrow(body: seq<Stmt>, strict: bool, throwing: set<FnId>) returns (r: bool)
    ensures r == CtStmts(CtConfig(false, false, strict, throwing), Initial, body).canThrow
  {
    var visit := new CanThrowVisitor(false, false, strict, throwing);
    visit.AcceptAll(body);
    r := visit.Throws();
  }

  /** checkErrorHandling: a reporting visitor walks the body; returns what it reported. */
  method CheckErrorHandling(fnThrows: bool, body: seq<Stmt>, strict: bool, throwing: set<FnId>)
    returns (reports: seq<Msg>)
    ensures reports == CtStmts(CtConfig(true, fnThrows, strict, throwing), Initial, body).diags
  {
    var visit := new CanThrowVisitor(fnThrows, true, strict, throwing);
    visit.AcceptAll(body);
    reports := visit.diags;
  }
}
