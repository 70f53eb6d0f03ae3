/**
 Statements of the Stainless syntax tree, generic in the expression type so that
 the ownership pass and the lowering each bring the expression facts they read.
 Resolved facts (types, throws sets, last uses) are stored on the node they belong to.
 */
module Ast {
  import opened Wrappers

  datatype Span = Span(start: nat, end: nat)

  /** What the passes ask of a resolved type. */
  datatype TypeRef =
    | Owned(copyable: bool)
    | Guard
    | Reference(mutable: bool, toGuard: bool)

  /** The default constructor a local without an initializer runs. */
  datatype ImplicitCall = ImplicitCall(callee: nat, throws: bool)

  datatype LocalDeclaration<E> = LocalDeclaration(
    name: string,
    ty: TypeRef,
    initializer: Option<E>,
    adapted: bool,
    implicitCall: ImplicitCall,
    span: Span,
    lastUse: Option<Span>)

  datatype Block<E> = Block(statements: seq<Statement<E>>)

  datatype CatchBinding = CatchBinding(name: string, exceptionType: nat, ty: TypeRef, span: Span, lastUse: Option<Span>)

  datatype CatchClause<E> = CatchClause(binding: Option<CatchBinding>, body: Block<E>)

  datatype RangeBinding = RangeBinding(name: string, ty: TypeRef, span: Span, lastUse: Option<Span>)

  datatype ForInitializer<E> =
    | InitializerLocal(local: LocalDeclaration<E>)
    | InitializerExpression(expression: E)

  datatype ForClause<E> =
    | Classic(initializer: Option<ForInitializer<E>>, condition: Option<E>, update: Option<E>)
    | Range(bindings: seq<RangeBinding>, iterable: E, json: bool)

  datatype Statement<E> = Statement(kind: StatementKind<E>, span: Span)

  datatype StatementKind<E> =
    | BlockStatement(block: Block<E>)
    | Local(local: LocalDeclaration<E>)
    | Return(value: Option<E>)
    | Throw(error: Option<E>)
    | Try(guarded: Block<E>, catches: seq<CatchClause<E>>)
    | If(condition: E, thenBranch: Statement<E>, elseBranch: Option<Statement<E>>)
    | While(condition: E, body: Statement<E>)
    | For(clause: ForClause<E>, body: Statement<E>)
    | Break
    | Continue
    | Expression(expression: E)
    | Empty
}
