/**
 * lowerErrorHandling of compiler/passes/errorHandling.cpp: a first pass over
 * every function infers `throws` for compiler-generated (FLAG_ON) functions
 * and checks the others; the pass stops if any check reported; a second
 * pass gives every throwing function an error out formal and an epilogue
 * label, then lowers its body with an ErrorHandlingVisitor.  The first
 * loop's inference is a parameter: canBlockThrow as the code calls it, or
 * the corrected inference of module Inference.
 */
module Driver {
  import opened Ast
  import opened CanThrow
  import opened LowerSpec
  import opened Lowering
  import opened Inference
  import LowerProps

  /** The parts of a function symbol this pass reads or updates. */
  datatype FnSymbol = FnSymbol(
    id: FnId,
    flagOn: bool,              // FLAG_ON: the function is compiler-generated
    throws: bool,              // throwsError(); throwsErrorInit() sets it
    formals: seq<Var>,
    epilogue: Option<Label>,   // the label getOrCreateEpilogueLabel returns, once it exists
    body: seq<Stmt>)

  /** The identities of the functions whose throwsError() holds. */
  function ThrowingIds(fns: seq<FnSymbol>): (r: set<FnId>)
    ensures forall i :: 0 <= i < |fns| && fns[i].throws ==> fns[i].id in r
    ensures forall f :: f in r ==> exists i :: 0 <= i < |fns| && fns[i].throws && fns[i].id == f
  {
    set i | 0 <= i < |fns| && fns[i].throws :: fns[i].id
  }

  /** Which inference marks a FLAG_ON function throwing. */
  datatype Marking =
    | AsWritten   // canBlockThrow(fn->body), as lowerErrorHandling calls it
    | Corrected   // Inference.EscapesAll: an error can leave the body

  /** Whether the chosen inference marks a FLAG_ON function with this body throwing. */
  predicate MarksThrowing(mk: Marking, strict: bool, throwing: set<FnId>, body: seq<Stmt>)
  {
    match mk
    case AsWritten => CanBlockThrowSpec(strict, throwing, body)
    case Corrected => EscapesAll(throwing, body)
  }

  /**
   * The first loop's work on function i, given the functions as they are
   * when it gets there: infer throws for a FLAG_ON function, check any other.
   */
  function InferOrCheck(mk: Marking, strict: bool, fns: seq<FnSymbol>, i: nat): (r: (seq<FnSymbol>, seq<Msg>))
    requires i < |fns|
    ensures |r.0| == |fns| && r.0[i] == fns[i].(throws := r.0[i].throws) && (fns[i].throws ==> r.0[i].throws)
    ensures !fns[i].flagOn ==> r.0 == fns
    ensures forall j :: 0 <= j < |fns| && j != i ==> r.0[j] == fns[j]
  {
    var f := fns[i];
    if f.flagOn then
      (if MarksThrowing(mk, strict, ThrowingIds(fns), f.body) then fns[i := f.(throws := true)] else fns, [])
    else (fns, CheckSpec(f.throws, strict, ThrowingIds(fns), f.body))
  }

  /** The functions and the reports after the first loop has handled the first k functions. */
  function FirstPass(mk: Marking, strict: bool, fns: seq<FnSymbol>, k: nat): (r: (seq<FnSymbol>, seq<Msg>))
    requires k <= |fns|
    ensures |r.0| == |fns|
    decreases k
  {
    if k == 0 then (fns, [])
    else
      var p := FirstPass(mk, strict, fns, k - 1);
      var q := InferOrCheck(mk, strict, p.0, k - 1);
      (q.0, p.1 + q.1)
  }

  /** The label getOrCreateEpilogueLabel returns. */
  function EpilogueOf(f: FnSymbol): Label {
    if f.epilogue.Some? then f.epilogue.value else Epilogue
  }

  /** The second loop's work on one function: its new state and the INT_FATAL reports of its lowering. */
  function LowerFn(strict: bool, throwing: set<FnId>, f: FnSymbol): (r: (FnSymbol, seq<Msg>))
    ensures r.0.id == f.id && r.0.flagOn == f.flagOn && r.0.throws == f.throws
    ensures f.throws ==> r.0.formals == f.formals + [ErrorOut] && r.0.epilogue == Some(EpilogueOf(f))
    ensures !f.throws ==> r.0.formals == f.formals && r.0.epilogue == f.epilogue
  {
    var out := if f.throws then Some(OutParam(ErrorOut, EpilogueOf(f))) else None;
    var (b, st) := LowerStmts(LEnv(out, strict, throwing), None, LState(0, []), f.body);
    (f.(formals := if f.throws then f.formals + [ErrorOut] else f.formals,
        epilogue := if f.throws then Some(EpilogueOf(f)) else f.epilogue,
        body := b),
     st.fatals)
  }

  /** Every function's LowerFn result, in table order. */
  function LoweredEach(strict: bool, throwing: set<FnId>, fns: seq<FnSymbol>): (r: seq<(FnSymbol, seq<Msg>)>)
    ensures |r| == |fns|
  {
    seq(|fns|, i requires 0 <= i < |fns| => LowerFn(strict, throwing, fns[i]))
  }

  lemma {:induction false} LoweredEachAt(strict: bool, throwing: set<FnId>, fns: seq<FnSymbol>, i: nat)
    requires i < |fns|
    ensures LoweredEach(strict, throwing, fns)[i] == LowerFn(strict, throwing, fns[i])
  {
  }

  /**
   * The table and the reports once the first k functions have been replaced
   * by their entries of rs and the reports of those entries appended in order.
   */
  function Installed(fns: seq<FnSymbol>, rs: seq<(FnSymbol, seq<Msg>)>, k: nat): (r: (seq<FnSymbol>, seq<Msg>))
    requires k <= |fns| == |rs|
    ensures |r.0| == |fns|
    decreases k
  {
    if k == 0 then (fns, [])
    else
      var p := Installed(fns, rs, k - 1);
      (p.0[k - 1 := rs[k - 1].0], p.1 + rs[k - 1].1)
  }

  /** The table and the INT_FATAL reports after the second loop. */
  function SecondPass(strict: bool, throwing: set<FnId>, fns: seq<FnSymbol>): (seq<FnSymbol>, seq<Msg>) {
    Installed(fns, LoweredEach(strict, throwing, fns), |fns|)
  }

  /** One iteration of the second loop: lower one function with a fresh visitor. */
  method LowerFunction(fn: FnSymbol, strict: bool, throwing: set<FnId>) returns (lowered: FnSymbol, reports: seq<Msg>)
    ensures (lowered, reports) == LowerFn(strict, throwing, fn)
  {
    lowered := fn;
    var outError: Option<Var> := None;
    var epilogue: Option<Label> := None;
    if fn.throws {
      lowered := lowered.(formals := lowered.formals + [ErrorOut]);
      if lowered.epilogue.None? {
        lowered := lowered.(epilogue := Some(Epilogue));
      }
      outError := Some(ErrorOut);
      epilogue := lowered.epilogue;
    }
    var visitor := new ErrorHandlingVisitor(outError, epilogue, strict, throwing);
    ghost var env := LEnv(if fn.throws then Some(OutParam(ErrorOut, EpilogueOf(fn))) else None, strict, throwing);
    assert visitor.Env() == env;
    var body := visitor.AcceptAll(fn.body);
    ghost var r := LowerStmts(env, None, LState(0, []), fn.body);
    assert body == r.0 && visitor.fatals == r.1.fatals;
    lowered := lowered.(body := body);
    reports := visitor.fatals;
  }

  /** The compiler's table of functions (gFnSymbols), the strict-mode flag, and the first loop's inference. */
  class Program {
    var fnSymbols: seq<FnSymbol>
    /** fStrictErrorHandling. */
    const strict: bool
    const marking: Marking

    constructor(fns: seq<FnSymbol>, strictMode: bool, mk: Marking)
      ensures fnSymbols == fns && strict == strictMode && marking == mk
    {
      fnSymbols := fns;
      strict := strictMode;
      marking := mk;
    }

    /** The first loop of lowerErrorHandling. */
    method InferOrCheckAll() returns (diags: seq<Msg>)
      modifies this
      ensures (fnSymbols, diags) == FirstPass(marking, strict, old(fnSymbols), |old(fnSymbols)|)
    {
      ghost var fns0 := fnSymbols;
      diags := [];
      var i := 0;
      while i < |fnSymbols|
        invariant |fnSymbols| == |fns0| && 0 <= i <= |fns0|
        invariant (fnSymbols, diags) == FirstPass(marking, strict, fns0, i)
      {
        ghost var q := InferOrCheck(marking, strict, fnSymbols, i);
        ghost var d0 := diags;
        var fn := fnSymbols[i];
        var throwing := ThrowingIds(fnSymbols);
        if fn.flagOn {
          var marks: bool;
          if marking == AsWritten {
            marks := CanBlockThrow(fn.body, strict, throwing);
          } else {
            marks := EscapesAll(throwing, fn.body);
          }
          if marks {
            fnSymbols := fnSymbols[i := fn.(throws := true)];
          }
        } else {
          var reports := CheckErrorHandling(fn.throws, fn.body, strict, throwing);
          diags := diags + reports;
        }
        assert (fnSymbols, diags) == (q.0, d0 + q.1) by {
          if fn.flagOn { assert d0 + [] == d0; }
        }
        i := i + 1;
      }
    }

    /** The second loop of lowerErrorHandling, with the set of throwing functions it reads. */
    method LowerAll(throwing: set<FnId>) returns (fatals: seq<Msg>)
      modifies this
      ensures (fnSymbols, fatals) == SecondPass(strict, throwing, old(fnSymbols))
    {
      ghost var fns0 := fnSymbols;
      ghost var rs := LoweredEach(strict, throwing, fns0);
      fatals := [];
      var i := 0;
      while i < |fnSymbols|
        invariant |fnSymbols| == |fns0| && 0 <= i <= |fns0|
        invariant (fnSymbols, fatals) == Installed(fns0, rs, i)
      {
        InstalledAt(fns0, rs, i, i);
        LoweredEachAt(strict, throwing, fns0, i);
        var lowered, reports := LowerFunction(fnSymbols[i], strict, throwing);
        fnSymbols := fnSymbols[i := lowered];
        fatals := fatals + reports;
        i := i + 1;
      }
    }

    /**
     * lowerErrorHandling.  Returns the reports of the first loop (USR_STOP
     * quits when there is one) and the INT_FATAL reports of the lowering.
     */
    method LowerErrorHandling() returns (diags: seq<Msg>, fatals: seq<Msg>)
      modifies this
      ensures var p := FirstPass(marking, strict, old(fnSymbols), |old(fnSymbols)|);
        diags == p.1 &&
        (diags != [] ==> fnSymbols == p.0 && fatals == []) &&
        (diags == [] ==> (fnSymbols, fatals) == SecondPass(strict, ThrowingIds(p.0), p.0))
    {
      diags := InferOrCheckAll();
      if diags != [] {
        fatals := [];
        return;
      }
      var throwing := ThrowingIds(fnSymbols);
      fatals := LowerAll(throwing);
    }
  }

  // ---------------------------------------------------------------- lemmas

  /**
   * The first loop changes nothing but throws: it never clears it, never
   * sets it on a function that is not FLAG_ON, and leaves the functions it
   * has not reached yet alone.
   */
  lemma {:induction false} FirstPassOnlyInfers(mk: Marking, strict: bool, vs: seq<FnSymbol>, k: nat, i: nat)
    requires k <= |vs| && i < |vs|
    ensures var r := FirstPass(mk, strict, vs, k).0;
      r[i] == vs[i].(throws := r[i].throws) && (vs[i].throws ==> r[i].throws) &&
      (!vs[i].flagOn ==> r[i].throws == vs[i].throws) && (k <= i ==> r[i] == vs[i])
    decreases k
  {
    if k > 0 {
      FirstPassOnlyInfers(mk, strict, vs, k - 1, i);
    }
  }

  /**
   * A FLAG_ON function ends up throwing exactly when it was declared so or
   * the inference marks its body (canBlockThrow as written, an escaping
   * error when corrected), judged with the functions known to throw when
   * the loop reaches it.
   */
  lemma {:induction false} FirstPassInfers(mk: Marking, strict: bool, vs: seq<FnSymbol>, k: nat, i: nat)
    requires i < k <= |vs| && vs[i].flagOn
    ensures FirstPass(mk, strict, vs, k).0[i].throws <==>
      vs[i].throws || MarksThrowing(mk, strict, ThrowingIds(FirstPass(mk, strict, vs, i).0), vs[i].body)
    decreases k
  {
    if k == i + 1 {
      FirstPassOnlyInfers(mk, strict, vs, i, i);
    } else {
      FirstPassInfers(mk, strict, vs, k - 1, i);
    }
  }

  /** The check of function i, made when the first loop reaches it, reports nothing (or it is FLAG_ON and is not checked). */
  predicate CheckSilent(mk: Marking, strict: bool, vs: seq<FnSymbol>, i: nat)
    requires i < |vs|
  {
    !vs[i].flagOn ==> CheckSpec(vs[i].throws, strict, ThrowingIds(FirstPass(mk, strict, vs, i).0), vs[i].body) == []
  }

  /** The first loop reports nothing exactly when every check of a non-FLAG_ON function is silent. */
  lemma {:induction false} FirstPassSilentIff(mk: Marking, strict: bool, vs: seq<FnSymbol>, k: nat)
    requires k <= |vs|
    ensures FirstPass(mk, strict, vs, k).1 == [] <==> forall i :: 0 <= i < k ==> CheckSilent(mk, strict, vs, i)
    decreases k
  {
    if k > 0 {
      FirstPassSilentIff(mk, strict, vs, k - 1);
      var p := FirstPass(mk, strict, vs, k - 1);
      var q := InferOrCheck(mk, strict, p.0, k - 1);
      assert FirstPass(mk, strict, vs, k).1 == p.1 + q.1;
      StepSilentIff(mk, strict, vs, k - 1);
    }
  }

  /** The first loop's step on function i reports nothing exactly when CheckSilent holds of it. */
  lemma {:induction false} StepSilentIff(mk: Marking, strict: bool, vs: seq<FnSymbol>, i: nat)
    requires i < |vs|
    ensures InferOrCheck(mk, strict, FirstPass(mk, strict, vs, i).0, i).1 == [] <==> CheckSilent(mk, strict, vs, i)
  {
    FirstPassOnlyInfers(mk, strict, vs, i, i);
  }

  /** The set of throwing functions only grows during the first loop. */
  lemma {:induction false} FirstPassThrowingGrows(mk: Marking, strict: bool, vs: seq<FnSymbol>, i: nat, k: nat)
    requires i <= k <= |vs|
    ensures ThrowingIds(FirstPass(mk, strict, vs, i).0) <= ThrowingIds(FirstPass(mk, strict, vs, k).0)
    decreases k
  {
    if i < k {
      FirstPassThrowingGrows(mk, strict, vs, i, k - 1);
      var p := FirstPass(mk, strict, vs, k - 1).0;
      StepThrowingGrows(mk, strict, p, k - 1);
      assert FirstPass(mk, strict, vs, k).0 == InferOrCheck(mk, strict, p, k - 1).0;
    }
  }

  /** One step of the first loop only adds to the set of throwing functions. */
  lemma {:induction false} StepThrowingGrows(mk: Marking, strict: bool, p: seq<FnSymbol>, i: nat)
    requires i < |p|
    ensures ThrowingIds(p) <= ThrowingIds(InferOrCheck(mk, strict, p, i).0)
  {
    var r := InferOrCheck(mk, strict, p, i).0;
    forall f | f in ThrowingIds(p)
      ensures f in ThrowingIds(r)
    {
      var j :| 0 <= j < |p| && p[j].throws && p[j].id == f;
      assert r[j].throws && r[j].id == f;
    }
  }

  /** Once k functions are installed, those hold their entries of rs and the rest are untouched. */
  lemma {:induction false} InstalledAt(fns: seq<FnSymbol>, rs: seq<(FnSymbol, seq<Msg>)>, k: nat, i: nat)
    requires k <= |fns| == |rs| && i < |fns|
    ensures Installed(fns, rs, k).0[i] == if i < k then rs[i].0 else fns[i]
    decreases k
  {
    if k > 0 {
      InstalledAt(fns, rs, k - 1, i);
    }
  }

  /** Installing entries that carry no reports reports nothing. */
  lemma {:induction false} InstalledSilent(fns: seq<FnSymbol>, rs: seq<(FnSymbol, seq<Msg>)>, k: nat)
    requires k <= |fns| == |rs|
    requires forall i :: 0 <= i < k ==> rs[i].1 == []
    ensures Installed(fns, rs, k).1 == []
    decreases k
  {
    if k > 0 {
      InstalledSilent(fns, rs, k - 1);
    }
  }

  /**
   * After the second loop every function has been lowered: a throwing one
   * has gained the error out formal and an epilogue label, any other keeps
   * its formals and epilogue, and none changes identity or throws.
   */
  lemma {:induction false} SecondPassLowersEach(strict: bool, throwing: set<FnId>, fns: seq<FnSymbol>, i: nat)
    requires i < |fns|
    ensures var f := SecondPass(strict, throwing, fns).0[i];
      f == LowerFn(strict, throwing, fns[i]).0 &&
      f.id == fns[i].id && f.throws == fns[i].throws &&
      (f.throws ==> f.formals == fns[i].formals + [ErrorOut] && f.epilogue.Some?) &&
      (!f.throws ==> f.formals == fns[i].formals && f.epilogue == fns[i].epilogue)
  {
    var rs := LoweredEach(strict, throwing, fns);
    InstalledAt(fns, rs, |fns|, i);
  }

  /** One function of CheckedProgramLowersCleanly, with the corrected inference. */
  lemma {:induction false} FnLowersCleanly(vs: seq<FnSymbol>, i: nat)
    requires i < |vs|
    requires vs[i].flagOn ==> AllWellPlaced(vs[i].body)
    requires CheckSilent(Corrected, false, vs, i)
    ensures var vs1 := FirstPass(Corrected, false, vs, |vs|).0;
      LoweredEach(false, ThrowingIds(vs1), vs1)[i].1 == []
  {
    var vs1 := FirstPass(Corrected, false, vs, |vs|).0;
    var t := ThrowingIds(vs1);
    FirstPassOnlyInfers(Corrected, false, vs, |vs|, i);
    var v := vs1[i];
    assert v.body == vs[i].body;
    var out := if v.throws then Some(OutParam(ErrorOut, EpilogueOf(v))) else None;
    var ti := ThrowingIds(FirstPass(Corrected, false, vs, i).0);
    if !vs[i].flagOn {
      CheckIgnoresThrowingWhenLenient(v.throws, ti, t, v.body);
    } else if v.throws {
      ThrowingFnIsQuiet(t, v.body);
    } else {
      FirstPassInfers(Corrected, false, vs, |vs|, i);
      EscapesAllMono({}, ti, v.body);
      EscapesIsSound(false, {}, v.body, LState(0, []));
      CheckIgnoresThrowingWhenLenient(false, {}, t, v.body);
    }
    LowerProps.CheckedBodyLowersCleanly(v.throws, out, false, t, v.body, LState(0, []));
    assert LoweredEach(false, t, vs1)[i] == LowerFn(false, t, v);
  }

  /**
   * With the corrected inference and outside strict mode, once the first
   * loop reports nothing and no compiler-generated function has a
   * misplaced catch-all, the lowering
   * makes no INT_FATAL report: every throw and every try without a
   * catch-all outside a try belongs to a function that gets an error formal.
   */
  lemma {:induction false} CheckedProgramLowersCleanly(vs: seq<FnSymbol>)
    requires forall i :: 0 <= i < |vs| && vs[i].flagOn ==> AllWellPlaced(vs[i].body)
    requires FirstPass(Corrected, false, vs, |vs|).1 == []
    ensures var vs1 := FirstPass(Corrected, false, vs, |vs|).0;
      SecondPass(false, ThrowingIds(vs1), vs1).1 == []
  {
    var vs1 := FirstPass(Corrected, false, vs, |vs|).0;
    var rs := LoweredEach(false, ThrowingIds(vs1), vs1);
    FirstPassSilentIff(Corrected, false, vs, |vs|);
    forall i | 0 <= i < |vs|
      ensures rs[i].1 == []
    {
      assert CheckSilent(Corrected, false, vs, i);
      FnLowersCleanly(vs, i);
    }
    InstalledSilent(vs1, rs, |vs1|);
  }

  /**
   * The driver as written on one FLAG_ON function whose body throws before
   * a try with a catch-all: the first loop reports nothing and leaves the
   * function non-throwing, and the second loop then makes the internal
   * error for its throw.  The corrected inference marks it throwing.
   */
  lemma {:induction false} AsWrittenMissesThrowingFn()
    ensures var vs := [FnSymbol(0, true, false, [], None, EscapeThenTry())];
            var p := FirstPass(AsWritten, false, vs, 1);
            && p == (vs, [])
            && ThrowInNonThrowingFn in SecondPass(false, ThrowingIds(p.0), p.0).1
            && FirstPass(Corrected, false, vs, 1).0[0].throws
  {
    var vs := [FnSymbol(0, true, false, [], None, EscapeThenTry())];
    CanBlockThrowMissesEscape();
    assert ThrowingIds(vs) == {};
    var rs := LoweredEach(false, {}, vs);
    LoweredEachAt(false, {}, vs, 0);
    assert SecondPass(false, {}, vs).1 == [] + rs[0].1;
  }

  /** No two entries of the table are the same function. */
  predicate DistinctIds(fns: seq<FnSymbol>) {
    forall i, j :: 0 <= i < j < |fns| ==> fns[i].id != fns[j].id
  }

  /** In a table of distinct functions, a function is in the throwing set exactly when it throws. */
  lemma {:induction false} ThrowingIdsExact(fns: seq<FnSymbol>, i: nat)
    requires DistinctIds(fns) && i < |fns|
    ensures fns[i].id in ThrowingIds(fns) <==> fns[i].throws
  {
    if fns[i].id in ThrowingIds(fns) {
      var j :| 0 <= j < |fns| && fns[j].throws && fns[j].id == fns[i].id;
      assert j == i;
    }
  }
}
