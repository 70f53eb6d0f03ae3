/**
 Where the pass is stricter than the loans: a handler may start from a state recorded while a call still
 held loans, and these are never given back.
 */
module InheritedLoans {
  import opened Wrappers
  import opened Ast
  import opened FlowStates
  import opened Ownership
  import opened OwnershipLoans
  import opened LoanPoints
  import opened Uses
  import opened UsesAllowed

  const HERE := Span(0, 0)
  const PLAIN := Surroundings(0, false, None)
  const X: Expression := At(Name("x"))
  const RISKY: Expression := At(Call(None, [], true, NoBorrow))

  function At(kind: ExpressionKind): Expression {
    Expression.Expression(kind, HERE)
  }

  function Evaluated(kind: ExpressionKind): OwnStatement {
    Statement(StatementKind.Expression(At(kind)), HERE)
  }

  /** Lends `x` mutably to a call, another argument of which is a call that may raise. */
  const LENDS: OwnStatement :=
    Evaluated(Call(None, [Argument(X, ByMutable), Argument(RISKY, ByValue)], false, NoBorrow))
  const READS: OwnStatement := Evaluated(Operand(X))
  const HANDLER: OwnCatch := CatchClause(None, Block([READS]))
  const TRY: OwnStatement := Statement(Try(Block([LENDS]), [HANDLER]), HERE)
  const BODY: OwnBlock := Block([TRY])
  const PARAMETER := Parameter("x", Owned(false), HERE, None)

  /** The state with only `x`, in the outer one of `depth` scopes. */
  function OnlyX(lent: bool, depth: nat): FlowState {
    var b := Binding("x", Owned(false), Available, 0, lent, None, false, HERE, None, 0);
    if depth <= 1 then FlowState([b], [map["x" := 0]], [[0]])
    else FlowState([b], [map["x" := 0], map[]], [[0], []])
  }

  lemma OnlyXFacts(lent: bool)
    ensures PushScope(OnlyX(lent, 1)) == OnlyX(lent, 2) && PopScope(OnlyX(lent, 2)) == OnlyX(lent, 1)
    ensures Lookup(OnlyX(lent, 2), "x") == Some(0)
    ensures ReleaseExpired(OnlyX(lent, 2), 0, 0) == OnlyX(lent, 2)
  {
    var s := OnlyX(lent, 2);
    assert s.scopes[..1] == [map["x" := 0]] && s.scopeBindings[..1] == [[0]];
    assert LookupIn([map["x" := 0 as nat]], "x") == Some(0);
    var ids: seq<nat> := [];
    assert [[0 as nat], ids][1..] == [ids] && [ids][1..] == [] && Flatten([ids]) == ids + [];
    assert Flatten([[0 as nat], ids]) == [0];
    assert [0 as nat][1..] == [];
  }

  lemma StartIs()
    ensures DeclareParameters([PARAMETER], PushScope(EMPTY_STATE)) == OnlyX(false, 1)
  {
    var s := PushScope(EMPTY_STATE);
    var none: seq<Parameter> := [];
    var empty: map<string, nat> := map[];
    var ids: seq<nat> := [];
    assert [PARAMETER][1..] == none;
    assert s == FlowState([], [empty], [ids]);
    assert s.scopes[0 := empty["x" := 0]] == [map["x" := 0]];
    assert ids + [0] == [0] && s.scopeBindings[0 := ids + [0]] == [[0]];
    assert s.bindings + OnlyX(false, 1).bindings == OnlyX(false, 1).bindings;
  }

  lemma LentArgument()
    ensures CheckArgument(Argument(X, ByMutable), OnlyX(false, 2))
         == CheckedAll(OnlyX(true, 2), [Some(0)], [Loan(0, true)], [], [])
  {
    var s := OnlyX(false, 2);
    OnlyXFacts(false);
    assert Check(X, BorrowMutable, s) == Checked(s, Some(0), [], []);
    assert s.bindings[0 := s.bindings[0].(mutablyBorrowed := true)] == OnlyX(true, 2).bindings;
    assert Borrow(s, 0, true) == OnlyX(true, 2);
    assert AcquireTemporary(s, Some(0), true, HERE) == (OnlyX(true, 2), Some(Loan(0, true)), []);
  }

  lemma RiskyArgument(s: FlowState)
    ensures CheckArgument(Argument(RISKY, ByValue), s) == CheckedAll(s, [None], [], [s], [])
  {
    assert Check(RISKY, Read, s) == Checked(s, None, [s], []);
  }

  function ArgumentsChecked(): CheckedAll {
    CheckedAll(OnlyX(true, 2), [Some(0), None], [Loan(0, true)], [OnlyX(true, 2)], [])
  }

  lemma ArgumentsLent()
    ensures CheckArguments(LENDS.kind.expression.kind.arguments, OnlyX(false, 2)) == ArgumentsChecked()
  {
    var first, second := Argument(X, ByMutable), Argument(RISKY, ByValue);
    var none: seq<Argument> := [];
    assert [first, second][1..] == [second] && [second][1..] == none;
    LentArgument();
    RiskyArgument(OnlyX(true, 2));
    assert CheckArguments(none, OnlyX(true, 2)) == CheckedAll(OnlyX(true, 2), [], [], [], []);
    assert CheckArguments([second], OnlyX(true, 2)) == CheckedAll(OnlyX(true, 2), [None], [], [OnlyX(true, 2)], []);
  }

  lemma LoanReturned()
    ensures ReleaseAll(OnlyX(true, 2), [Loan(0, true)]) == OnlyX(false, 2)
  {
    var s := OnlyX(true, 2);
    var none: seq<Loan> := [];
    assert [Loan(0, true)][..0] == none;
    assert s.bindings[0 := s.bindings[0].(mutablyBorrowed := false)] == OnlyX(false, 2).bindings;
    assert Release(s, Loan(0, true)) == OnlyX(false, 2);
  }

  lemma LendsNotes()
    ensures Analyze(LENDS, PLAIN, OnlyX(false, 2))
         == Outcome(OnlyX(false, 2), true, [], [], [OnlyX(true, 2)], [])
  {
    ArgumentsLent();
    LoanReturned();
    CallStatement(LENDS.kind.expression, OnlyX(false, 2), ArgumentsChecked(), OnlyX(false, 2));
  }

  lemma CallStatement(e: Expression, s: FlowState, a: CheckedAll, end: FlowState)
    requires e.kind.Call? && e.kind.receiver.None? && e.kind.result.NoBorrow? && !e.kind.throws
    requires CheckArguments(e.kind.arguments, s) == a && a.reports == [] && ReleaseAll(a.state, a.loans) == end
    ensures Analyze(Statement(StatementKind.Expression(e), HERE), PLAIN, s)
         == Outcome(end, true, [], [], a.throws, [])
  {
    CallIs(e, s, a, end);
  }

  /** A call without a receiver, the arguments of which are checked as `a`. */
  lemma CallIs(e: Expression, s: FlowState, a: CheckedAll, end: FlowState)
    requires e.kind.Call? && e.kind.receiver.None? && e.kind.result.NoBorrow?
    requires CheckArguments(e.kind.arguments, s) == a && a.reports == [] && ReleaseAll(a.state, a.loans) == end
    ensures CheckCall(e, s) == Checked(end, None, a.throws, [])
  {
    var none: seq<Loan> := [];
    assert CheckReceiver(e.kind.receiver, s) == CheckedAll(s, [], none, [], []);
    assert ReleaseAll(end, none) == end;
  }

  lemma GuardedNotes()
    ensures AnalyzeBlock(Block([LENDS]), PLAIN, OnlyX(false, 1)).throws == [OnlyX(true, 2)]
  {
    var none: seq<OwnStatement> := [];
    OnlyXFacts(false);
    LendsNotes();
    assert [LENDS][1..] == none;
    var first := AnalyzeFirst(LENDS, PLAIN, OnlyX(false, 2));
    assert first == Analyze(LENDS, PLAIN, OnlyX(false, 2));
    assert After(first, Nothing(first.state)).throws == first.throws;
    assert AnalyzeList([LENDS], PLAIN, OnlyX(false, 2)).throws == first.throws;
  }

  lemma HandlerStarts()
    ensures CatchBaseline(OnlyX(false, 1), [OnlyX(true, 2)]) == OnlyX(true, 1)
  {
    OnlyXFacts(true);
    var states := TruncateAll([OnlyX(true, 2)], 1);
    assert states == [OnlyX(true, 1)];
  }

  /** `x` is read in the handler. */
  const READ_X := Use(Point(OnlyX(true, 2), multiset{}), 0, Reads, HERE)

  lemma HandlerReads()
    ensures READ_X in HandlersEvents([HANDLER], PLAIN, Point(OnlyX(true, 1), multiset{}))
  {
    OnlyXFacts(true);
    var inside := Point(OnlyX(true, 2), multiset{});
    assert StatementEvents(READS, PLAIN, inside) == [READ_X];
    assert READ_X in ListEvents([READS], PLAIN, inside);
    assert READ_X in HandlerEvents(HANDLER, PLAIN, Point(OnlyX(true, 1), multiset{}));
  }

  /**
   With `try`, a use may be reported although it is allowed: no reference and no call has a loan on `x` any
   more when the handler reads it.
   */
  lemma HandlersMayInheritLoans()
    ensures READ_X in FunctionEvents([PARAMETER], BODY, PLAIN)
    ensures InRange(READ_X) && Allowed(READ_X) && Complaint(READ_X, None) == [Report("OWN003", HERE)]
  {
    var start := Point(OnlyX(false, 1), multiset{});
    StartIs();
    GuardedNotes();
    HandlerStarts();
    HandlerReads();
    assert READ_X in TryEvents(TRY, PLAIN, start);
    assert READ_X in ListEvents([TRY], PLAIN, start);
  }
}
