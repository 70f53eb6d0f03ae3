/** The two syntactic end-of-block analyses that lowering and emission rely on. */
module Divergence {
  import opened Wrappers
  import opened Ast

  function Last<T>(s: seq<T>): T
    requires |s| > 0
  {
    s[|s| - 1]
  }

  predicate BlockMayFallThrough<E>(b: Block<E>) {
    |b.statements| == 0 || MayFallThrough(Last(b.statements))
  }

  predicate MayFallThrough<E>(s: Statement<E>) {
    match s.kind
    case Return(_) => false
    case Throw(_) => false
    case Break => false
    case Continue => false
    case BlockStatement(b) => BlockMayFallThrough(b)
    case If(_, thenBranch, elseBranch) =>
      MayFallThrough(thenBranch) || (elseBranch.Some? ==> MayFallThrough(elseBranch.value))
    case Try(guarded, catches) => BlockMayFallThrough(guarded) || AnyMayFallThrough(catches)
    case _ => true
  }

  predicate AnyMayFallThrough<E>(catches: seq<CatchClause<E>>) {
    |catches| > 0 && (ClauseMayFallThrough(catches[0]) || AnyMayFallThrough(catches[1..]))
  }

  predicate ClauseMayFallThrough<E>(clause: CatchClause<E>) {
    BlockMayFallThrough(clause.body)
  }

  predicate BlockDefinitelyReturns<E>(b: Block<E>) {
    |b.statements| > 0 && DefinitelyReturns(Last(b.statements))
  }

  predicate DefinitelyReturns<E>(s: Statement<E>) {
    match s.kind
    case Return(_) => true
    case Throw(_) => true
    case BlockStatement(b) => BlockDefinitelyReturns(b)
    case If(_, thenBranch, elseBranch) =>
      DefinitelyReturns(thenBranch) && elseBranch.Some? && DefinitelyReturns(elseBranch.value)
    case Try(guarded, catches) => BlockDefinitelyReturns(guarded) && AllDefinitelyReturn(catches)
    case _ => false
  }

  predicate AllDefinitelyReturn<E>(catches: seq<CatchClause<E>>) {
    |catches| == 0 || (ClauseDefinitelyReturns(catches[0]) && AllDefinitelyReturn(catches[1..]))
  }

  predicate ClauseDefinitelyReturns<E>(clause: CatchClause<E>) {
    BlockDefinitelyReturns(clause.body)
  }
}
