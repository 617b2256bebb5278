# Error-handling lowering of the Chapel compiler, modelled in Dafny

This project models the pass that lowers Chapel's error handling
(`compiler/passes/errorHandling.cpp`), plus two small helpers of the parser
(`compiler/parser/parser.cpp`).

The pass has three parts:

- **CanThrowVisitor.** A read-only walk over a function body. It computes
  whether an error can leave the body (`canBlockThrow`). In its reporting
  mode (`checkErrorHandling`) it records the user errors about misplaced
  catch-alls, tries without a catch-all, throwing calls outside a try in
  strict mode, and throws in non-throwing functions.
- **ErrorHandlingVisitor.** The mutating walk. It replaces every `try`,
  `catch`, `throw` and call of a throwing function with:
  - error temporaries;
  - `!= nil` tests;
  - handler labels and gotos;
  - the function's `error_out` formal and its epilogue.

  It keeps two stacks of `TryInfo` records.
- **lowerErrorHandling.** The driver. Its first loop over all functions
  infers `throws` for FLAG_ON functions and checks every other function. It
  stops if anything was reported. Its second loop adds the error formal and
  epilogue to throwing functions and runs an ErrorHandlingVisitor on each.

The AST is cut down to what the pass looks at (`Ast`). Blocks, conditionals,
tries with catch lists, calls, throws and definitions are kept; every other
statement is opaque.

Modules:

- **`CanThrow`** gives each hook of CanThrowVisitor as a function on the
  visitor's state. The whole traversal is the function `CtStmts`. A class
  with the visitor's fields is proved against them.
- **`LowerSpec`** does the same for ErrorHandlingVisitor, as functions.
  **`Lowering`** is the class with `tryStack`, `catchesStack`, the
  fresh-symbol counter and the INT_FATAL log. Each of its methods is proved
  against `LowerSpec`.
- **`Dispatch`** runs the emitted glue code in a small interpreter. It shows
  where a pending error goes.
- **`LowerProps`** proves properties of the lowered code:
  - no `try` or `throw` is left;
  - gotos target only the innermost try, the epilogue or fresh handlers;
  - when INT_FATAL reports happen;
  - a checked body lowers cleanly.
- **`Inference`** holds the finding below and the corrected inference.
- **`Driver`** is the two loops over the function table.
- **`Parser`** models `filenameToModulename` and `containsOnlyModules`.

Where the model departs from the code, "## Left out" says so. Two points
concern the finding below:

- The driver's first loop takes its inference as a parameter
  (`Driver.Marking`). `AsWritten` calls `canBlockThrow`, as the code does.
  `Corrected` uses `Inference.EscapesAll`. The clean-lowering theorems are
  stated for `Corrected`. `Driver.AsWrittenMissesThrowingFn` shows that
  they fail for `AsWritten`.
- The as-written `canBlockThrow` is kept (`CanThrow.CanBlockThrow`) and its
  defect is proved (see "## Findings").

## Model

| member | source | states |
|---|---|---|
| CanThrow.ClausesAfterCatchAll | compiler/passes/errorHandling.cpp:480-484 | the number of clauses reached after the first catch-all: zero exactly when no clause before the last one is a catch-all; otherwise the clause that many places before the end is a catch-all and none before it is |
| CanThrow.ScanCatchAllIff | compiler/passes/errorHandling.cpp:480-503 | the loop's catch-all flag ends true exactly when it started true or some clause is a bare catch or binds dtError |
| CanThrow.NotExhaustiveIff | compiler/passes/errorHandling.cpp:478-506 | catchesNotExhaustive is true exactly when no clause is a bare catch and no clause binds a variable of type dtError |
| CanThrow.MisplacedReportCount | compiler/passes/errorHandling.cpp:482-484 | with diagnostics on, the loop makes one "catchall placed before the end" report for each clause after the first catch-all; with diagnostics off it makes none |
| CanThrow.MisplacedAfterSeen | compiler/passes/errorHandling.cpp:482-484 | once a catch-all has been seen, every remaining clause is reported (when diagnostics are on) |
| CanThrow.MisplacedOnlyCatchAll | compiler/passes/errorHandling.cpp:482-484 | the loop over the catches makes no report other than the misplaced catch-all one |
| CanThrow.EnterTry | compiler/passes/errorHandling.cpp:455-459 | enterTryStmt raises tryDepth by one and changes nothing else |
| CanThrow.ExitTry | compiler/passes/errorHandling.cpp:461-476 | exitTryStmt lowers tryDepth by one; try! clears canThrow, otherwise canThrow is overwritten with "no catch-all"; reports are only appended; "try without a catchall" is reported exactly when diagnostics are on, it is not try!, the depth is back to 0, there is no catch-all and the function does not throw |
| CanThrow.EnterCall | compiler/passes/errorHandling.cpp:508-522 | a call of a non-throwing function, or a throwing call inside a try, changes nothing; a throwing call outside a try sets canThrow and is reported exactly when diagnostics and strict mode are both on |
| CanThrow.EnterThrow | compiler/passes/errorHandling.cpp:523-533 | a throw always sets canThrow; it is reported exactly when it is outside a try, the function does not throw and diagnostics are on |
| CanThrow.StmtsKeepDepth | compiler/passes/errorHandling.cpp:455-476 | a walk over a statement list leaves tryDepth as it found it and only appends reports |
| CanThrow.StmtKeepsDepth | compiler/passes/errorHandling.cpp:455-476 | a walk over one statement leaves tryDepth as it found it and only appends reports |
| CanThrow.CatchesKeepDepth | compiler/passes/errorHandling.cpp:455-476 | a walk over catch bodies leaves tryDepth as it found it and only appends reports |
| CanThrow.TryRestoresDepth | compiler/passes/errorHandling.cpp:455-476 | enterTryStmt and exitTryStmt balance: a whole try leaves tryDepth unchanged |
| CanThrow.SilentStmts | compiler/passes/errorHandling.cpp:472-473 | with makeCompileErrors false, no walk over a statement list reports anything |
| CanThrow.SilentStmt | compiler/passes/errorHandling.cpp:516-517 | with makeCompileErrors false, no walk over a statement reports anything |
| CanThrow.SilentCatches | compiler/passes/errorHandling.cpp:530-531 | with makeCompileErrors false, no walk over catch bodies reports anything |
| CanThrow.CanBlockThrowIsSilent | compiler/passes/errorHandling.cpp:546-553 | the visitor canBlockThrow uses never reports a diagnostic, whatever the body |
| CanThrow.CanThrowVisitor.constructor | compiler/passes/errorHandling.cpp:448-453 | a new visitor has depth 0, canThrow false, no reports, and the given errors and fnCanThrow flags |
| CanThrow.CanThrowVisitor.EnterTryStmt | compiler/passes/errorHandling.cpp:455-459 | the new state is EnterTry of the old one |
| CanThrow.CanThrowVisitor.ExitTryStmt | compiler/passes/errorHandling.cpp:461-476 | the new state is ExitTry of the old one, for the try's catch list and try! flag |
| CanThrow.CanThrowVisitor.CatchesNotExhaustive | compiler/passes/errorHandling.cpp:478-506 | returns true exactly when no clause is a catch-all, and appends exactly the misplaced catch-all reports |
| CanThrow.CanThrowVisitor.EnterCallExpr | compiler/passes/errorHandling.cpp:508-535 | the new state is EnterCall or EnterThrow of the old one |
| CanThrow.CanThrowVisitor.Accept | compiler/passes/errorHandling.cpp:428-446 | the walk over one statement (try body, then exitTryStmt, then the catch bodies) ends in the state CtStmt gives |
| CanThrow.CanThrowVisitor.AcceptAll | compiler/passes/errorHandling.cpp:428-446 | the walk over a statement list ends in the state CtStmts gives |
| CanThrow.CanThrowVisitor.AcceptCatches | compiler/passes/errorHandling.cpp:428-446 | the walk over catch bodies ends in the state CtCatches gives |
| CanThrow.CanBlockThrow | compiler/passes/errorHandling.cpp:546-553 | returns the canThrow flag of a silent, non-throwing visitor after it walks the block |
| CanThrow.CheckErrorHandling | compiler/passes/errorHandling.cpp:555-560 | returns the reports of a reporting visitor, with fnCanThrow set to the function's throwsError(), after it walks the body |
| LowerSpec.Fallback | compiler/passes/errorHandling.cpp:275-289 | without a catch-all, the fallbacks in priority order: try! halts; otherwise an enclosing try gets the error and a goto to its handler; otherwise a throwing function assigns it to the error formal and jumps to the epilogue; otherwise the INT_FATAL "try without a catchall" |
| LowerSpec.LowerCatches | compiler/passes/errorHandling.cpp:220-292 | lowerCatches consumes at least one fresh symbol and only appends INT_FATAL reports |
| LowerSpec.LowerCall | compiler/passes/errorHandling.cpp:294-328 | a call of a non-throwing function is kept as it is; inside a try, a throwing call gets the innermost try's error variable as one extra trailing argument and a nil test that jumps to that try's handler; outside a try in strict mode it gives an INT_FATAL; otherwise it is preceded by the definition of a fresh error variable, gets that variable as one extra trailing argument, and is followed by a nil test whose then part is the policy: pass the error out and jump to the epilogue in a throwing function, halt in any other |
| LowerSpec.LowerThrow | compiler/passes/errorHandling.cpp:329-350 | a throw becomes a block: inside a try it moves into the innermost try's error variable and jumps to its handler; otherwise, in a throwing function, it assigns the error formal and jumps to the epilogue; otherwise it is the INT_FATAL "cannot throw in a non-throwing function" |
| LowerSpec.LowerStmts | compiler/passes/errorHandling.cpp:176-353 | lowering a statement list never decreases the fresh-symbol counter and only appends INT_FATAL reports |
| LowerSpec.LowerCatchBodies | compiler/passes/errorHandling.cpp:230-241 | lowering the catch bodies keeps the clauses, their order and their bindings |
| Lowering.TopOf | compiler/passes/errorHandling.cpp:308-309 | the innermost try is absent exactly when the stack is empty, and is otherwise the top record's error variable and handler label |
| Lowering.PlugClose | compiler/passes/errorHandling.cpp:265-270 | moving currHandler to a fresh nextHandler in the else branch of a typed clause's test keeps the chain that is being built |
| Lowering.StepCatchAll | compiler/passes/errorHandling.cpp:243-246 | a bare catch appends its body, with the error deleted at its tail, to the open handler, and keeps the loop invariant |
| Lowering.StepNamedCatchAll | compiler/passes/errorHandling.cpp:254-258 | a clause binding dtError appends the definition, the move of the error and a nil test around the body, and keeps the loop invariant |
| Lowering.StepTyped | compiler/passes/errorHandling.cpp:260-271 | a clause binding a subclass appends its dynamic cast and test, then opens the next handler in the else branch, and keeps the loop invariant |
| Lowering.StepDone | compiler/passes/errorHandling.cpp:273-289 | after the last clause, the built chain plus the fallback (when no catch-all was seen) is the specified chain |
| Lowering.ErrorHandlingVisitor.constructor | compiler/passes/errorHandling.cpp:170-174 | a new visitor keeps the given out formal and epilogue, and starts with empty stacks, counter 0 and no reports |
| Lowering.ErrorHandlingVisitor.EnterTryStmt | compiler/passes/errorHandling.cpp:176-185 | pushes one TryInfo with a fresh error variable and handler label on tryStack, and leaves catchesStack alone |
| Lowering.ErrorHandlingVisitor.ExitTryStmt | compiler/passes/errorHandling.cpp:187-209 | pops tryStack and frames the body with the error variable's definition and the handler label; with no catches it lowers them at once, otherwise it pushes the record on catchesStack |
| Lowering.ErrorHandlingVisitor.ExitCatchStmt | compiler/passes/errorHandling.cpp:211-218 | only the last clause pops catchesStack and appends lowerCatches' output to the framed body; the others change nothing |
| Lowering.ErrorHandlingVisitor.LowerCatches | compiler/passes/errorHandling.cpp:220-292 | the loop over the clauses builds exactly LowerSpec.LowerCatches: the handlers chain under one nil test, appended to the try body, with its INT_FATAL reports |
| Lowering.ErrorHandlingVisitor.AddFallback | compiler/passes/errorHandling.cpp:275-289 | appends exactly Fallback's statements to the open handler and records its report |
| Lowering.ErrorHandlingVisitor.EnterCallExpr | compiler/passes/errorHandling.cpp:294-353 | the output and the new counter and log are LowerCall or LowerThrow for the innermost try on tryStack |
| Lowering.ErrorHandlingVisitor.Accept | compiler/passes/errorHandling.cpp:137-168 | the walk over one statement gives LowerStmt's output and state, and leaves both stacks as it found them |
| Lowering.ErrorHandlingVisitor.AcceptAll | compiler/passes/errorHandling.cpp:137-168 | the walk over a statement list gives LowerStmts' output and state, and leaves both stacks as it found them |
| Lowering.ErrorHandlingVisitor.AcceptCatches | compiler/passes/errorHandling.cpp:211-218 | lowers each catch body with the enclosing try innermost; the last clause pops the deferred record and appends the lowered catches |
| Dispatch.ErrorCondRoute | compiler/passes/errorHandling.cpp:368-380 | the code errorCond emits enters the then part exactly when the tested variable holds an error, and the else part otherwise |
| Dispatch.FirstMatch | compiler/passes/errorHandling.cpp:230-273 | the first clause, in source order, that takes the error, or none when no clause takes it |
| Dispatch.FallbackRoute | compiler/passes/errorHandling.cpp:275-289 | the fallback halts for try!, otherwise moves the error to the enclosing try and jumps to its handler, otherwise passes it out and jumps to the epilogue |
| Dispatch.BindRoute | compiler/passes/errorHandling.cpp:252-257 | a clause's definition and move bind its variable to the error (or to its cast) |
| Dispatch.CatchAllRoute | compiler/passes/errorHandling.cpp:243-246 | a chain whose first clause is a bare catch enters that clause's body |
| Dispatch.NamedCatchAllRoute | compiler/passes/errorHandling.cpp:254-258 | a chain whose first clause binds dtError enters that clause's body with the error bound |
| Dispatch.TypedRoute | compiler/passes/errorHandling.cpp:260-271 | a typed clause enters its body when the error is of its type, and otherwise goes on with the chain of the remaining clauses |
| Dispatch.HandlersRoute | compiler/passes/errorHandling.cpp:220-292 | with an error pending, the handlers chain enters the body of the first clause that takes the error, with the variable bound and the error deleted at its tail; with no such clause it runs the fallback |
| Dispatch.LowerCatchesRoute | compiler/passes/errorHandling.cpp:291 | lowerCatches' output falls through when there is no error and enters the handlers chain when there is one |
| Dispatch.CallRoute | compiler/passes/errorHandling.cpp:307-327 | after a throwing call inside a try, an error sends control to the innermost try's handler, and no error lets control fall through |
| Dispatch.OutsideCallRoute | compiler/passes/errorHandling.cpp:314-327 | after a throwing call outside any try (not strict), an error in its fresh error variable is assigned to the error formal with a jump to the epilogue when the function throws, and halts the program when it does not; no error lets control fall through |
| Dispatch.ThrowRoute | compiler/passes/errorHandling.cpp:338-347 | a throw inside a try stores the error in the innermost try's variable and jumps to its handler; otherwise, in a throwing function, it stores it in the error formal and jumps to the epilogue |
| LowerProps.ErrorCondClean | compiler/passes/errorHandling.cpp:368-380 | errorCond introduces no try and no throw |
| LowerProps.HandlersClean | compiler/passes/errorHandling.cpp:226-289 | the handlers chain holds no try and no throw once the catch bodies hold none |
| LowerProps.LowerStmtsClean | compiler/passes/errorHandling.cpp:176-353 | after lowering, no try statement and no throw is left anywhere in a statement list |
| LowerProps.LowerStmtClean | compiler/passes/errorHandling.cpp:176-353 | after lowering, no try statement and no throw is left anywhere in a statement |
| LowerProps.TryClean | compiler/passes/errorHandling.cpp:187-209 | a lowered try holds no try and no throw |
| LowerProps.CallClean | compiler/passes/errorHandling.cpp:294-328 | a lowered call holds no try and no throw |
| LowerProps.LowerCatchBodiesClean | compiler/passes/errorHandling.cpp:211-218 | the lowered catch bodies hold no try and no throw |
| LowerProps.ErrorCondTargets | compiler/passes/errorHandling.cpp:368-380 | errorCond adds no goto of its own |
| LowerProps.HandlersTargets | compiler/passes/errorHandling.cpp:230-289 | the handlers chain jumps only where the catch bodies do, or to the enclosing try's handler or the epilogue |
| LowerProps.LowerStmtsTargets | compiler/passes/errorHandling.cpp:176-353 | every goto of a lowered statement list jumps where the original did, to the innermost try's handler, to the epilogue, or to a handler the lowering created; never to an outer try's handler |
| LowerProps.LowerStmtTargets | compiler/passes/errorHandling.cpp:176-353 | the same for one statement |
| LowerProps.TryTargets | compiler/passes/errorHandling.cpp:187-209 | a lowered try jumps only where its body and catches did, or to the allowed labels |
| LowerProps.CallTargets | compiler/passes/errorHandling.cpp:307-324 | a lowered call jumps only to the innermost try's handler or to the epilogue |
| LowerProps.ThrowTargets | compiler/passes/errorHandling.cpp:338-347 | a lowered throw jumps only to the innermost try's handler or to the epilogue |
| LowerProps.LowerCatchBodiesTargets | compiler/passes/errorHandling.cpp:211-218 | lowered catch bodies jump only where the originals did, or to the allowed labels |
| LowerProps.HandlersFatals | compiler/passes/errorHandling.cpp:230-289 | building the chain gives one INT_FATAL for each clause after a catch-all, then, when no clause catches everything, the fallback's report ("try without a catchall" when no other fallback applies) |
| LowerProps.LowerCatchesFatals | compiler/passes/errorHandling.cpp:220-292 | lowerCatches reports one INT_FATAL per clause after the first catch-all, and "try without a catchall" exactly when the catches are not exhaustive, it is not try!, there is no enclosing try and the function does not throw |
| LowerProps.SameBindings | compiler/passes/errorHandling.cpp:240-241 | lowering the catch bodies leaves the catch-all scan and the misplaced reports unchanged |
| LowerProps.NoFatalStmts | compiler/passes/errorHandling.cpp:461-535 | a statement list the check walks without a report lowers without an INT_FATAL: each INT_FATAL of the lowering has a USR_FATAL_CONT of the check at the same place |
| LowerProps.NoFatalStmt | compiler/passes/errorHandling.cpp:461-535 | the same for one statement |
| LowerProps.NoFatalTry | compiler/passes/errorHandling.cpp:461-484 | the same for a try: no misplaced catch-all, and no missing catch-all outside a try of a non-throwing function |
| LowerProps.NoFatalCatches | compiler/passes/errorHandling.cpp:461-535 | the same for catch bodies |
| LowerProps.CheckedBodyLowersCleanly | compiler/passes/errorHandling.cpp:555-560 | a function body that checkErrorHandling passes lowers from the top level without any INT_FATAL |
| Inference.CanBlockThrowMissesEscape | compiler/passes/errorHandling.cpp:466-471 | for `if c { throw e; }` followed by `try { } catch { }`, canBlockThrow answers false although the throw escapes, and the lowering then reports "cannot throw in a non-throwing function" |
| Inference.SeenEscapesStmts | compiler/passes/errorHandling.cpp:461-535 | outside any try, whatever sets the visitor's canThrow does escape |
| Inference.CanBlockThrowBelowEscapes | compiler/passes/errorHandling.cpp:546-553 | whenever canBlockThrow answers true, an error does escape the block |
| Inference.QuietStmts | compiler/passes/errorHandling.cpp:472-531 | the check reports nothing on a body with no misplaced catch-all from which nothing escapes outside every try (or where escaping is allowed) |
| Inference.EscapesIsSound | compiler/passes/errorHandling.cpp:540-544 | a body from which nothing escapes, with no misplaced catch-all, passes the check as a non-throwing function and lowers without an error formal and without any INT_FATAL |
| Inference.ThrowingFnIsQuiet | compiler/passes/errorHandling.cpp:555-560 | outside strict mode, a throwing function with no misplaced catch-all passes the check |
| Inference.EscapesAllMono | compiler/passes/errorHandling.cpp:511-512 | more throwing functions can only make more errors escape |
| Inference.CheckIgnoresThrowingWhenLenient | compiler/passes/errorHandling.cpp:511-521 | outside strict mode, the reports of checkErrorHandling do not depend on which functions throw |
| Driver.ThrowingIds | compiler/passes/errorHandling.cpp:411 | every function whose throwsError() holds is in the set, and every member of the set is the identity of such a function |
| Driver.ThrowingIdsExact | compiler/passes/errorHandling.cpp:411 | in a table of distinct functions, a function's identity is in the set exactly when it throws |
| Driver.InferOrCheck | compiler/passes/errorHandling.cpp:393-402 | one step of the first loop changes only the current function, and only its throws flag, which it never clears; a function that is not FLAG_ON is left unchanged; the inference is a parameter (canBlockThrow as the code calls it, or the corrected one) |
| Driver.LowerFn | compiler/passes/errorHandling.cpp:407-423 | one step of the second loop keeps the identity and the throws flag; a throwing function gains exactly one trailing error formal and an epilogue; any other keeps its formals and epilogue |
| Driver.LowerFunction | compiler/passes/errorHandling.cpp:407-423 | adds the error formal and the epilogue label to a throwing function and lowers the body with a fresh visitor, giving LowerFn's result |
| Driver.Program.constructor | compiler/passes/errorHandling.cpp:389-393 | the function table, the strict-mode flag and the first loop's inference are the given ones |
| Driver.Program.InferOrCheckAll | compiler/passes/errorHandling.cpp:393-402 | the first loop, calling canBlockThrow (or the corrected inference) on FLAG_ON functions and checkErrorHandling on the others, leaves the table and the reports that FirstPass gives |
| Driver.Program.LowerAll | compiler/passes/errorHandling.cpp:407-423 | the second loop leaves the table and the INT_FATAL reports that SecondPass gives |
| Driver.Program.LowerErrorHandling | compiler/passes/errorHandling.cpp:389-424 | returns the first loop's reports; when there are any it stops after the first loop (USR_STOP); otherwise it runs the second loop with the functions that throw after the first loop |
| Driver.FirstPassOnlyInfers | compiler/passes/errorHandling.cpp:393-402 | the first loop only changes throws: it never clears it, never sets it on a function that is not FLAG_ON, and leaves the functions it has not reached alone |
| Driver.FirstPassInfers | compiler/passes/errorHandling.cpp:395-397 | a FLAG_ON function ends up throwing exactly when it was declared so or the inference marks its body: canBlockThrow of the body as written, an escaping error when corrected; judged with the functions known to throw when the loop reaches it |
| Driver.FirstPassSilentIff | compiler/passes/errorHandling.cpp:393-405 | the first loop reports nothing exactly when every check of a function that is not FLAG_ON is silent |
| Driver.StepSilentIff | compiler/passes/errorHandling.cpp:398-401 | one step of the first loop reports nothing exactly when it is FLAG_ON or its check is silent |
| Driver.FirstPassThrowingGrows | compiler/passes/errorHandling.cpp:393-402 | the set of throwing functions only grows during the first loop |
| Driver.StepThrowingGrows | compiler/passes/errorHandling.cpp:395-397 | one step of the first loop only adds to the set of throwing functions |
| Driver.InstalledAt | compiler/passes/errorHandling.cpp:407-423 | once the loop has handled k functions, those hold their new values and the rest are untouched |
| Driver.SecondPassLowersEach | compiler/passes/errorHandling.cpp:407-423 | after the second loop every function is lowered: a throwing one has gained the error formal and an epilogue, any other keeps its formals and epilogue, and none changes identity or throws |
| Driver.FnLowersCleanly | compiler/passes/errorHandling.cpp:393-423 | with the corrected inference and outside strict mode, a function that passed the first loop lowers without any INT_FATAL |
| Driver.CheckedProgramLowersCleanly | compiler/passes/errorHandling.cpp:389-424 | with the corrected inference and outside strict mode, once the first loop reports nothing and no FLAG_ON function has a misplaced catch-all, the second loop makes no INT_FATAL report |
| Driver.AsWrittenMissesThrowingFn | compiler/passes/errorHandling.cpp:389-424 | the driver as written, on one FLAG_ON function whose body throws before a try with a catch-all, reports nothing in its first loop, leaves the function non-throwing, and its second loop makes the "cannot throw in a non-throwing function" INT_FATAL; the corrected inference marks the function throwing |
| Parser.LastSlash | compiler/parser/parser.cpp:19 | strrchr: the index of the last '/', or -1 when there is none; no '/' follows it |
| Parser.FirstDot | compiler/parser/parser.cpp:23 | strchr: the index of the first '.', or the end when there is none; no '.' comes before it |
| Parser.FindLastSlash | compiler/parser/parser.cpp:19 | the loop over the NUL-terminated buffer finds LastSlash |
| Parser.FindDot | compiler/parser/parser.cpp:23 | the loop from the given start finds the first '.' after it, or the terminating NUL |
| Parser.FilenameToModulename | compiler/parser/parser.cpp:17-29 | copies the name into a NUL-terminated array, steps past the last '/', ends the string at the first '.', and returns ModuleName of the file name |
| Parser.ModuleNameIsPlain | compiler/parser/parser.cpp:17-29 | a module name holds neither '/' nor '.' |
| Parser.ModuleNameIsSlice | compiler/parser/parser.cpp:17-29 | the module name is the part of the name after its last '/' (all of it when there is none), up to the first '.' of that part (its end when there is none) |
| Parser.PlainNameUnchanged | compiler/parser/parser.cpp:17-29 | a name with neither '/' nor '.' is its own module name |
| Parser.ContainsOnlyModules | compiler/parser/parser.cpp:42-54 | true exactly when every statement (or the first statement of a block) defines a module: true for an empty list, false as soon as one statement fails |

## Left out

- ParseFile and clearModulesDefPoints of `compiler/parser/parser.cpp` are not part of this model. Neither are the generated parser `compiler/parser/yy.c` and `compiler/datatype.cpp`.
- The AST substrate is reduced to the statements the pass looks at: blocks, conditionals, tries, catches, calls, throws and definitions. Everything else is an opaque statement.
- Parent links, `remove`/`replace`/`insertAtHead`, and the aliasing they bring are not modelled. Each visitor method returns the rebuilt subtree.
- `SET_LINENO`, source locations and the text of diagnostics are not modelled. A report is a tag (`Msg`).
- newTemp and LabelSymbol are modelled as a counter. Fresh symbols are `ErrorTemp(n)`, `Handler(n)` and `ExistsTemp(n)`, not named symbols.
- Why setOutGotoEpilogue uses PRIM_ASSIGN instead of PRIM_MOVE (a C back-end workaround) is not modelled. Only the emitted statement is.
- `haltExpr`'s message string is not modelled. The halt is one `Halt` statement.
- USR_STOP is modelled as "stop after the first loop when it reported anything". INT_FATAL is modelled as a message appended to a log; the walk goes on, where the compiler would abort.
- fStrictErrorHandling, fMinimalModules and the `INT_ASSERT(dtError->inTree())` are not modelled as globals. The strict flag is a parameter; the other two are left out.
- FnSymbol objects are modelled as values in the program's function table (`Driver.Program.fnSymbols`). Aliasing between symbols is not modelled.
- getOrCreateEpilogueLabel is modelled as "keep the existing label or create `Epilogue`". Its own body is outside this model.
- Driver.FnLowersCleanly: stated for the corrected inference only. With canBlockThrow as written it fails (`Driver.AsWrittenMissesThrowingFn`).
- Driver.CheckedProgramLowersCleanly: stated for the corrected inference only, for the same reason.
- LowerSpec.LowerCall: a call appears only as a whole statement with variable arguments. A call used as the right-hand side of a move or as an argument of another call is not modelled. So the placement of the error temporary's definition before the enclosing statement (getStmtExpr), and the order of nested throwing calls, are not modelled.
- Driver.ThrowingIds: the table does not require distinct identities. If two entries share one, a call to either is lowered as a call of a throwing function when one of them throws. `Driver.ThrowingIdsExact` states the exact correspondence for a table of distinct functions.
- Driver.CheckedProgramLowersCleanly: stated outside strict mode only. In strict mode, the check depends on the order of the function table, because the throwing set grows during the first loop.

## Findings

| source | as written | input that shows it | evidently intended | confidence | as-written member | corrected member |
|---|---|---|---|---|---|---|
| compiler/passes/errorHandling.cpp:466-471 | exitTryStmt overwrites canThrow with the try's own verdict, so an error that escaped before the try is forgotten | a FLAG_ON function whose body is `if c { throw e; }` followed by `try { } catch { }`: canBlockThrow answers false, so the function gets no error formal, and lowering its throw hits the INT_FATAL "cannot throw in a non-throwing function" | canBlockThrow answers true whenever an error can leave the block, as its comment at lines 540-544 says | medium, not executed | Inference.CanBlockThrowMissesEscape | Inference.EscapesIsSound |
