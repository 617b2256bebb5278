/**
 * The closed fragment of the compiler's AST that the error-handling pass
 * reads and writes.  Statements are values; an in-place edit of the tree is
 * modelled as rebuilding the edited subtree.
 */
module Ast {

  datatype Option<+T> = None | Some(value: T)

  /** Identity of a resolved function symbol (an entry of gFnSymbols). */
  type FnId = nat

  /** The type a catch clause binds: the root error type dtError, or one of its subclasses. */
  datatype ErrType = ErrorTop | SubError(cls: string)

  /** The variable a typed catch clause introduces, with its declared type. */
  datatype Binding = Binding(name: string, ty: ErrType)

  /**
   * Variables: names written by the user, the error temporaries the pass
   * creates (one per try, or per throwing call outside a try), the boolean
   * temporaries made by each nil test, and the function's error_out formal.
   */
  datatype Var = UserVar(name: string) | ErrorTemp(id: nat) | ExistsTemp(id: nat) | ErrorOut

  /** A try's handler label, or the function's epilogue label. */
  datatype Label = Handler(id: nat) | Epilogue

  /** What a DefExpr defines. */
  datatype Symbol = VarSym(v: Var) | LabelSym(l: Label) | ModuleSym(name: string)

  /** GOTO_ERROR_HANDLING jumps to a handler, GOTO_RETURN to the epilogue. */
  datatype GotoKind = GotoErrorHandling | GotoReturn

  /** Right-hand sides of PRIM_MOVE / PRIM_ASSIGN. */
  datatype Rhs =
    | Of(src: Var)                          // the value of a variable
    | CastTo(ty: ErrType, src: Var)          // PRIM_CAST
    | DynamicCastTo(ty: ErrType, src: Var)   // PRIM_DYNAMIC_CAST: nil unless the object is of that type
    | NotNil(src: Var)                       // PRIM_NOTEQUAL against gNil

  /** A call target: a resolved function, or a call with no resolved function. */
  datatype Callee = Resolved(fn: FnId) | Unresolved

  datatype Stmt =
    | Block(body: seq<Stmt>)                              // BlockStmt
    | Try(body: seq<Stmt>, catches: seq<Catch>, bang: bool) // TryStmt; bang is try!
    | Call(callee: Callee, args: seq<Var>)                // a call statement
    | Throw(thrown: Var)                                  // PRIM_THROW
    | Cond(test: Var, thenB: seq<Stmt>, elseB: seq<Stmt>) // CondStmt
    | Goto(kind: GotoKind, target: Label)                 // GotoStmt
    | Def(sym: Symbol)                                    // DefExpr
    | Move(dst: Var, rhs: Rhs)                            // PRIM_MOVE
    | Assign(dst: Var, rhs: Rhs)                          // PRIM_ASSIGN
    | Halt                                                // PRIM_RT_ERROR "uncaught error"
    | DeleteError(err: Var)                               // call of gChplDeleteError

  /** CatchStmt: an optional binding (absent for a bare `catch`) and a body. */
  datatype Catch = Catch(binding: Option<Binding>, body: seq<Stmt>)

  /** Tags of the diagnostics (USR_FATAL_CONT) and internal errors (INT_FATAL) of the pass. */
  datatype Msg =
    | TryWithoutCatchAll      // "try without a catchall in a non-throwing function"
    | CatchAllNotLast         // "catchall placed before the end of a catch list"
    | ThrowingCallWithoutTry  // "throwing call without try or try! (strict mode)"
    | ThrowInNonThrowingFn    // "cannot throw in a non-throwing function"

  /** An untyped clause, or one whose binding has the root error type, catches everything. */
  predicate IsCatchAll(c: Catch) {
    c.binding.None? || c.binding.value.ty == ErrorTop
  }
}
