/** Control-flow part of the high-level intermediate representation. */
module Hir {
  import opened Wrappers
  import opened Values

  /** Names of generated loops and of generated try blocks, which are numbered separately. */
  datatype Label = LoopLabel(index: nat) | TryLabel(index: nat)

  /** Where an exception raised at some point goes. */
  datatype ExceptionTarget = ToFunction | ToTry(tag: Label) | Unreachable

  datatype Expression =
    | Read(name: Name)
    | Constant(value: Value)
    | Store(name: Name, right: Expression)
    | Logical(conjunction: bool, left: Expression, right: Expression)
    | Invoke(callee: nat, arguments: seq<Expression>, throws: bool)
    | Propagate(expression: Expression, target: ExceptionTarget)
    | SuccessUnit
    | SuccessOf(payload: Expression)

  datatype ExceptionValue = New(value: Expression) | Existing(name: Name)

  datatype Catch = Catch(filter: Option<(nat, Name)>, body: seq<Statement>)

  datatype ForInitializer = NoInitializer | Let(name: Name, initializer: Expression) | Effect(expression: Expression)

  datatype Statement =
    | Block(statements: seq<Statement>)
    | LetStatement(name: Name, initializer: Expression)
    | ReturnUnit
    | ReturnValue(value: Expression)
    | Throw(error: ExceptionValue, target: ExceptionTarget)
    | Try(
        tag: Label,
        errorName: Name,
        guarded: seq<Statement>,
        bodyFallsThrough: bool,
        catches: seq<Catch>,
        diverges: bool,
        unmatchedTarget: ExceptionTarget)
    | If(condition: Expression, thenBranch: seq<Statement>, elseBranch: Option<Statement>)
    | While(tag: Label, condition: Expression, body: seq<Statement>)
    | ClassicFor(
        tag: Label,
        setup: ForInitializer,
        test: Option<Expression>,
        update: Option<Expression>,
        body: seq<Statement>)
    | RangeFor(tag: Label, bindings: seq<Name>, iterable: Expression, body: seq<Statement>)
    | Break(tag: Label)
    | Continue(tag: Label)
    | Evaluate(expression: Expression)
}
