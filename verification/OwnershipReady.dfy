/** States the analyzer may work on: names resolve, and every loan is accounted for. */
module OwnershipReady {
  import opened Wrappers
  import opened Ast
  import opened FlowStates
  import opened Ownership
  import opened OwnershipFrames
  import opened OwnershipScopes
  import opened OwnershipLoans
  import opened LoansKept

  /** `borrow`: the binding a returned reference has to borrow from. */
  ghost predicate Ready(s: FlowState, borrow: Option<nat>) {
    Valid(s) && Kept(s, multiset{}, false) && Exists(s, borrow)
  }

  /** Whatever borrows is younger than what it borrows from. */
  ghost predicate Older(s: FlowState) {
    forall i :: 0 <= i < |s.bindings| && s.bindings[i].referenceLoan.Some? ==>
      s.bindings[i].referenceLoan.value.owner < i
  }

  lemma ReadyIsOlder(s: FlowState, borrow: Option<nat>)
    requires Ready(s, borrow)
    ensures Older(s) && LoansRespected(s)
  {
    KeptRespectsLoans(s, multiset{});
  }

  lemma LoosenKept(s: FlowState, held: multiset<Loan>)
    requires Kept(s, held, false)
    ensures Kept(s, multiset{}, false)
  {
    assert multiset{} + held == held;
    KeptOver(s, multiset{}, held, false);
  }

  lemma BalancedIsReady(s: FlowState, held: multiset<Loan>, borrow: Option<nat>)
    requires Valid(s) && Balanced(s, held) && Exists(s, borrow)
    ensures Ready(s, borrow)
  {
    BalancedIsKept(s, held, false);
    LoosenKept(s, held);
  }

  /** The loans a ready state accounts for. */
  lemma HeldIn(s: FlowState, borrow: Option<nat>) returns (held: multiset<Loan>)
    requires Ready(s, borrow)
    ensures Balanced(s, held)
  {
    var leaked :| Balanced(s, multiset{} + leaked);
    held := multiset{} + leaked;
  }

  lemma CheckReady(e: Expression, usage: Usage, s: FlowState, borrow: Option<nat>)
    requires Ready(s, borrow)
    ensures var c := Check(e, usage, s);
            Ready(c.state, borrow) && Exists(c.state, c.origin) && |c.state.scopes| == |s.scopes|
  {
    var held := HeldIn(s, borrow);
    ExpressionKept(e, usage, s, held);
    CheckedSame(e, usage, s);
    OriginExists(e, usage, s);
    BalancedIsReady(Check(e, usage, s).state, held, borrow);
  }

  lemma OptionalReady(e: Option<Expression>, s: FlowState, borrow: Option<nat>)
    requires Ready(s, borrow)
    ensures Ready(CheckOptional(e, s).state, borrow) && |CheckOptional(e, s).state.scopes| == |s.scopes|
  {
    if e.Some? {
      CheckReady(e.value, Read, s, borrow);
    }
  }

  lemma PushReady(s: FlowState, borrow: Option<nat>)
    requires Ready(s, borrow)
    ensures Ready(PushScope(s), borrow) && |PushScope(s).scopes| == |s.scopes| + 1
  {
    var held := HeldIn(s, borrow);
    PushScopeWithin(s);
    PushBalanced(s, held);
    BalancedIsReady(PushScope(s), held, borrow);
  }

  lemma FirstReady(statement: OwnStatement, x: Surroundings, s: FlowState)
    requires Ready(s, x.returnBorrow) && |s.scopes| > 0
    ensures var o := AnalyzeFirst(statement, x, s);
            Ready(o.state, x.returnBorrow) && |o.state.scopes| == |s.scopes|
  {
    var held := HeldIn(s, x.returnBorrow);
    FirstFramed(statement, x, s);
    FirstKept(statement, x, s, held, false);
    LoosenKept(AnalyzeFirst(statement, x, s).state, held);
  }

  lemma InitializerReady(initializer: Option<ForInitializer<Expression>>, x: Surroundings, s: FlowState)
    requires Ready(s, x.returnBorrow) && |s.scopes| > 0
    ensures var i := AnalyzeInitializer(initializer, x, s);
            && Ready(i.state, x.returnBorrow) && |i.state.scopes| == |s.scopes|
            && i.breaks == [] && i.continues == [] && i.reachable
  {
    var held := HeldIn(s, x.returnBorrow);
    InitializerFramed(initializer, x, s);
    InitializerKept(initializer, x, s, held, false);
    LoosenKept(AnalyzeInitializer(initializer, x, s).state, held);
  }

  lemma RangeStartReady(clause: ForClause<Expression>, s: FlowState, borrow: Option<nat>)
    requires Ready(s, borrow) && clause.Range?
    ensures var c := RangeStart(clause.bindings, clause.iterable, clause.json, s).0;
            Ready(c.state, borrow) && |c.state.scopes| == |s.scopes|
  {
    var held := HeldIn(s, borrow);
    var (c, loan) := RangeStart(clause.bindings, clause.iterable, clause.json, s);
    RangeStartKept(clause.bindings, clause.iterable, clause.json, s, held);
    RangeStartFramed(clause.bindings, clause.iterable, clause.json, s);
    BalancedIsReady(c.state, held + if loan.Some? then multiset{loan.value} else multiset{}, borrow);
  }

  lemma InsideReady(bindings: seq<RangeBinding>, x: Surroundings, s: FlowState)
    requires Ready(s, x.returnBorrow)
    ensures var t := DeclareRange(bindings, x, PushScope(s));
            Ready(t, x.returnBorrow) && |t.scopes| > 0
  {
    var held := HeldIn(s, x.returnBorrow);
    InsideBalanced(bindings, x, s, held);
    PushScopeWithin(s);
    DeclareRangeNear(bindings, x, PushScope(s));
    BalancedIsReady(DeclareRange(bindings, x, PushScope(s)), held, x.returnBorrow);
  }

  lemma IterateReady(
    bindings: seq<RangeBinding>, body: OwnStatement, update: Option<Expression>, condition: Option<Expression>,
    x: Surroundings, s: FlowState)
    requires Ready(s, x.returnBorrow)
    ensures var i := Iterate(bindings, body, update, condition, x, s);
            i.next.Some? ==> Ready(i.next.value, x.returnBorrow) && |i.next.value.scopes| == |s.scopes|
  {
    var held := HeldIn(s, x.returnBorrow);
    IterateFramed(bindings, body, update, condition, x, s);
    IterateKept(bindings, body, update, condition, x, s, held, false);
    var i := Iterate(bindings, body, update, condition, x, s);
    if i.next.Some? {
      LoosenKept(i.next.value, held);
    }
  }

  /** Where the handlers of a `try` start. */
  lemma BaselineReady(b: OwnBlock, x: Surroundings, s: FlowState)
    requires Ready(s, x.returnBorrow)
    ensures var throws := AnalyzeBlock(b, x, s).throws;
            && Ready(CatchBaseline(s, throws), x.returnBorrow)
            && CatchBaseline(s, throws) == MergeMany(s, TruncateAll(throws, |s.scopes|))
  {
    var held := HeldIn(s, x.returnBorrow);
    var throws := AnalyzeBlock(b, x, s).throws;
    BlockFramed(b, x, s);
    BlockKept(b, x, s, held, false);
    BaselineFramed(s, throws);
    BaselineKept(s, throws, held);
    LoosenKept(CatchBaseline(s, throws), held);
  }

  lemma HandlerReady(binding: Option<CatchBinding>, x: Surroundings, s: FlowState)
    requires Ready(s, x.returnBorrow)
    ensures var t := DeclareCatch(binding, x, PushScope(s));
            Ready(t, x.returnBorrow) && |t.scopes| > 0
  {
    PushReady(s, x.returnBorrow);
    if binding.Some? {
      var held := HeldIn(PushScope(s), x.returnBorrow);
      var b := binding.value;
      PlainDeclareBalanced(PushScope(s), b.name, b.ty, b.span, b.lastUse, x.loopDepth, held);
      DeclareNear(PushScope(s), b.name, b.ty, None, b.span, b.lastUse, x.loopDepth);
      BalancedIsReady(DeclareCatch(binding, x, PushScope(s)), held, x.returnBorrow);
    }
  }

  lemma {:induction false} ParametersExist(parameters: seq<Parameter>, s: FlowState)
    requires Valid(s) && |s.scopes| > 0
    ensures |DeclareParameters(parameters, s).bindings| == |s.bindings| + |parameters|
    decreases |parameters|
  {
    if |parameters| > 0 {
      var p := parameters[0];
      DeclareNear(s, p.name, p.ty, None, p.span, p.lastUse, 0);
      ParametersExist(parameters[1..], Declare(s, p.name, p.ty, None, p.span, p.lastUse, 0));
    }
  }

  lemma ParametersReady(parameters: seq<Parameter>, borrow: Option<nat>)
    requires borrow.Some? ==> borrow.value < |parameters|
    ensures var s := DeclareParameters(parameters, PushScope(EMPTY_STATE));
            Ready(s, borrow) && |s.scopes| == 1
  {
    var start := PushScope(EMPTY_STATE);
    ParametersBalanced(parameters, start);
    ParametersExist(parameters, start);
    BalancedIsReady(DeclareParameters(parameters, start), multiset{}, borrow);
  }
}
