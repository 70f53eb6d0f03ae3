/** What checking leaves alone: expressions only change availability, statements keep outer scopes. */
module OwnershipFrames {
  import opened Wrappers
  import opened Ast
  import opened FlowStates
  import opened Ownership

  // ----- expressions -----

  /** `t` is `s` up to the availability of bindings. */
  ghost predicate OnlyAvailability(s: FlowState, t: FlowState) {
    && t.scopes == s.scopes && t.scopeBindings == s.scopeBindings && |t.bindings| == |s.bindings|
    && (forall i :: 0 <= i < |s.bindings| ==>
          t.bindings[i] == s.bindings[i].(availability := t.bindings[i].availability))
  }

  function BorrowAll(s: FlowState, loans: seq<Loan>): FlowState
    decreases |loans|
  {
    if |loans| == 0 then s
    else
      var last := loans[|loans| - 1];
      Borrow(BorrowAll(s, loans[..|loans| - 1]), last.owner, last.mutable)
  }

  predicate Free(s: FlowState, loan: Loan) {
    loan.owner < |s.bindings| ==> !Conflicts(s.bindings[loan.owner], LoanUsage(loan.mutable))
  }

  /** Each loan was free when it was taken. */
  predicate Clean(s: FlowState, loans: seq<Loan>)
    decreases |loans|
  {
    |loans| > 0 ==>
      Clean(s, loans[..|loans| - 1]) && Free(BorrowAll(s, loans[..|loans| - 1]), loans[|loans| - 1])
  }

  /** `t` is `s` up to availability and the temporary `loans` that are held. */
  ghost predicate Holds(s: FlowState, loans: seq<Loan>, t: FlowState) {
    Clean(s, loans) && OnlyAvailability(BorrowAll(s, loans), t)
  }

  ghost predicate Holding(s: FlowState, t: FlowState) {
    exists loans :: Holds(s, loans, t)
  }

  ghost predicate AllHolding(s: FlowState, states: seq<FlowState>) {
    forall i :: 0 <= i < |states| ==> Holding(s, states[i])
  }

  lemma OnlyAvailabilityTransitive(a: FlowState, b: FlowState, c: FlowState)
    requires OnlyAvailability(a, b) && OnlyAvailability(b, c)
    ensures OnlyAvailability(a, c)
  {
  }

  lemma {:induction false} BorrowAllAppend(s: FlowState, a: seq<Loan>, b: seq<Loan>)
    ensures BorrowAll(s, a + b) == BorrowAll(BorrowAll(s, a), b)
    ensures Clean(s, a) && Clean(BorrowAll(s, a), b) ==> Clean(s, a + b)
    decreases |b|
  {
    if |b| == 0 {
      assert a + b == a;
    } else {
      assert (a + b)[..|a + b| - 1] == a + b[..|b| - 1];
      BorrowAllAppend(s, a, b[..|b| - 1]);
    }
  }

  lemma {:induction false} BorrowAllOnly(s: FlowState, t: FlowState, loans: seq<Loan>)
    requires OnlyAvailability(s, t)
    ensures OnlyAvailability(BorrowAll(s, loans), BorrowAll(t, loans))
    ensures Clean(s, loans) <==> Clean(t, loans)
    decreases |loans|
  {
    if |loans| > 0 {
      BorrowAllOnly(s, t, loans[..|loans| - 1]);
    }
  }

  lemma HoldsTransitive(a: FlowState, first: seq<Loan>, b: FlowState, second: seq<Loan>, c: FlowState)
    requires Holds(a, first, b) && Holds(b, second, c)
    ensures Holds(a, first + second, c)
  {
    BorrowAllOnly(BorrowAll(a, first), b, second);
    BorrowAllAppend(a, first, second);
  }

  lemma HoldingAfter(a: FlowState, first: seq<Loan>, b: FlowState, states: seq<FlowState>)
    requires Holds(a, first, b) && AllHolding(b, states)
    ensures AllHolding(a, states)
  {
    forall i | 0 <= i < |states|
      ensures Holding(a, states[i])
    {
      var second :| Holds(b, second, states[i]);
      HoldsTransitive(a, first, b, second, states[i]);
    }
  }

  lemma OnlyIsHolding(s: FlowState, t: FlowState)
    requires OnlyAvailability(s, t)
    ensures Holds(s, [], t) && Holding(s, t)
  {
    var none: seq<Loan> := [];
    assert Holds(s, none, t);
  }

  lemma OnlyHoldingAfter(s: FlowState, t: FlowState, states: seq<FlowState>)
    requires OnlyAvailability(s, t) && AllHolding(t, states)
    ensures AllHolding(s, states)
  {
    OnlyIsHolding(s, t);
    HoldingAfter(s, [], t, states);
  }

  /** Giving back what was taken, last first, restores the state. */
  lemma {:induction false} ReleaseRestores(s: FlowState, loans: seq<Loan>)
    requires Clean(s, loans)
    ensures ReleaseAll(BorrowAll(s, loans), loans) == s
    decreases |loans|
  {
    if |loans| > 0 {
      var last, rest := loans[|loans| - 1], loans[..|loans| - 1];
      var held := BorrowAll(s, rest);
      assert Release(Borrow(held, last.owner, last.mutable), last).bindings == held.bindings;
      ReleaseRestores(s, rest);
    }
  }

  lemma {:induction false} ReleaseAllOnly(s: FlowState, t: FlowState, loans: seq<Loan>)
    requires OnlyAvailability(s, t)
    ensures OnlyAvailability(ReleaseAll(s, loans), ReleaseAll(t, loans))
    decreases |loans|
  {
    if |loans| > 0 {
      ReleaseAllOnly(Release(s, loans[|loans| - 1]), Release(t, loans[|loans| - 1]), loans[..|loans| - 1]);
    }
  }

  lemma ReleasedOnly(s: FlowState, loans: seq<Loan>, t: FlowState)
    requires Holds(s, loans, t)
    ensures OnlyAvailability(s, ReleaseAll(t, loans))
  {
    ReleaseAllOnly(BorrowAll(s, loans), t, loans);
    ReleaseRestores(s, loans);
  }

  lemma {:induction false} MergeIdsOnly(b: FlowState, l: FlowState, r: FlowState, ids: seq<nat>)
    ensures OnlyAvailability(b, MergeIds(b, l, r, ids))
    decreases |ids|
  {
    if |ids| > 0 {
      MergeIdsOnly(b, l, r, ids[..|ids| - 1]);
    }
  }

  lemma MergeManyOnly(b: FlowState, states: seq<FlowState>)
    requires forall i :: 0 <= i < |states| ==> OnlyAvailability(b, states[i])
    ensures OnlyAvailability(b, MergeMany(b, states))
  {
    if |states| > 1 {
      MergeIdsOnly(b, MergeMany(b, states[..|states| - 1]), states[|states| - 1], Flatten(b.scopeBindings));
    }
  }

  lemma AcquireHolds(s: FlowState, origin: Option<nat>, mutable: bool, at: Span)
    ensures var (t, loan, _) := AcquireTemporary(s, origin, mutable, at);
            Holds(s, if loan.Some? then [loan.value] else [], t)
  {
    var (t, loan, _) := AcquireTemporary(s, origin, mutable, at);
    if loan.Some? {
      assert [loan.value][..0] == [];
      assert BorrowAll(s, [loan.value]) == Borrow(BorrowAll(s, []), origin.value, mutable);
      assert Clean(s, [loan.value]);
    }
  }

  /** The conclusion about one checked expression. */
  ghost predicate ExpressionFramed(s: FlowState, c: Checked) {
    OnlyAvailability(s, c.state) && AllHolding(s, c.throws)
  }

  lemma CaptureFramed(s: FlowState, c: Checked, raises: bool)
    requires ExpressionFramed(s, c)
    ensures ExpressionFramed(s, Capture(c, raises))
  {
    OnlyIsHolding(s, c.state);
  }

  lemma ThenFramed(s: FlowState, first: Checked, second: Checked)
    requires ExpressionFramed(s, first) && ExpressionFramed(first.state, second)
    ensures ExpressionFramed(s, Then(first, second))
  {
    OnlyHoldingAfter(s, first.state, second.throws);
  }

  /** An expression leaves every loan as it found it and only changes availability. */
  lemma {:induction false} ExpressionKeepsLoans(e: Expression, usage: Usage, s: FlowState)
    ensures ExpressionFramed(s, Check(e, usage, s))
    decreases e, 1
  {
    match e.kind
    case Parenthesized(inner) => ExpressionKeepsLoans(inner, usage, s);
    case Operand(operand) => ExpressionKeepsLoans(operand, Read, s);
    case Increment(place) => ExpressionKeepsLoans(place, Mutate, s);
    case Field(whole) => ExpressionKeepsLoans(whole, usage, s);
    case Strict(_, _) => PairKeepsLoans(e, usage, s);
    case Compound(_, _) => PairKeepsLoans(e, usage, s);
    case Index(_, _) => PairKeepsLoans(e, usage, s);
    case Logical(_, _) => LogicalKeepsLoans(e, usage, s);
    case Assign(_, _, _, _) => AssignKeepsLoans(e, usage, s);
    case Switch(_, _) => SwitchKeepsLoans(e, usage, s);
    case Consume(_, _) => ConsumeKeepsLoans(e, usage, s);
    case Call(_, _, _, _) => CallsKeepLoans(e, usage, s);
    case Aggregate(_) => CallsKeepLoans(e, usage, s);
    case Construct(_, _) => CallsKeepLoans(e, usage, s);
    case _ => LeafKeepsLoans(e, usage, s);
  }

  lemma LeafKeepsLoans(e: Expression, usage: Usage, s: FlowState)
    requires e.kind.Name? || e.kind.Literal? || e.kind.Move?
    ensures ExpressionFramed(s, Check(e, usage, s))
  {
  }

  lemma {:induction false} PairKeepsLoans(e: Expression, usage: Usage, s: FlowState)
    requires e.kind.Strict? || e.kind.Compound? || e.kind.Index?
    ensures ExpressionFramed(s, Check(e, usage, s))
    decreases e, 0
  {
    var (first, u1, second, u2) :=
      match e.kind
      case Strict(left, right) => (left, Read, right, Read)
      case Compound(target, right) => (right, Read, target, Mutate)
      case Index(collection, index) => (collection, usage, index, Read);
    ExpressionKeepsLoans(first, u1, s);
    var a := Check(first, u1, s);
    ExpressionKeepsLoans(second, u2, a.state);
    ThenFramed(s, a, Check(second, u2, a.state));
  }

  lemma {:induction false} LogicalKeepsLoans(e: Expression, usage: Usage, s: FlowState)
    requires e.kind.Logical?
    ensures ExpressionFramed(s, Check(e, usage, s))
    decreases e, 0
  {
    ExpressionKeepsLoans(e.kind.left, Read, s);
    var l := Check(e.kind.left, Read, s);
    ExpressionKeepsLoans(e.kind.right, Read, l.state);
    var r := Check(e.kind.right, Read, l.state);
    ThenFramed(s, l, r);
    MergeIdsOnly(l.state, l.state, r.state, Flatten(l.state.scopeBindings));
  }

  lemma {:induction false} CallsKeepLoans(e: Expression, usage: Usage, s: FlowState)
    requires e.kind.Call? || e.kind.Aggregate? || e.kind.Construct?
    ensures ExpressionFramed(s, Check(e, usage, s))
    decreases e, 0, 1
  {
    match e.kind
    case Call(_, _, throws, _) =>
      CallKeepsLoans(e, s);
      CaptureFramed(s, CheckCall(e, s), throws);
    case Aggregate(initializers) => ElementsKeepLoans(initializers, true, s);
    case Construct(elements, throws) =>
      ElementsKeepLoans(elements, false, s);
      CaptureFramed(s, CheckElements(elements, false, s), throws);
  }

  lemma {:induction false} AssignKeepsLoans(e: Expression, usage: Usage, s: FlowState)
    requires e.kind.Assign?
    ensures ExpressionFramed(s, Check(e, usage, s))
    decreases e, 0
  {
    var r := Check(e.kind.right, Read, s);
    ExpressionKeepsLoans(e.kind.right, Read, s);
    CaptureFramed(s, r, e.kind.adapted);
    var captured := Capture(Capture(r, e.kind.adapted), e.kind.jsonPlace);
    CaptureFramed(s, Capture(r, e.kind.adapted), e.kind.jsonPlace);
    WriteKeepsLoans(e.kind.target, r.state);
    ThenFramed(s, captured, Write(e.kind.target, r.state));
  }

  lemma {:induction false} SwitchKeepsLoans(e: Expression, usage: Usage, s: FlowState)
    requires e.kind.Switch?
    ensures ExpressionFramed(s, Check(e, usage, s))
    decreases e, 0
  {
    ExpressionKeepsLoans(e.kind.scrutinee, Read, s);
    var c := Check(e.kind.scrutinee, Read, s);
    ArmsKeepLoans(e.kind.arms, usage, c.state);
    var (states, throws, _) := CheckArms(e.kind.arms, usage, c.state);
    MergeManyOnly(c.state, states);
    OnlyHoldingAfter(s, c.state, throws);
  }

  lemma {:induction false} ConsumeKeepsLoans(e: Expression, usage: Usage, s: FlowState)
    requires e.kind.Consume?
    ensures ExpressionFramed(s, Check(e, usage, s))
    decreases e, 0
  {
    var consumed := e.kind.consumed;
    ExpressionKeepsLoans(consumed, Read, s);
    var id := NamedBinding(consumed, s);
    CaptureFramed(s,
      if id.Some? then Checked(MarkMoved(s, id.value, e.span), None, [], CheckUsage(s, id.value, Mutate, e.span))
      else Check(consumed, Read, s).(origin := None),
      e.kind.throws);
  }

  lemma {:induction false} WriteKeepsLoans(target: Expression, s: FlowState)
    ensures ExpressionFramed(s, Write(target, s))
    decreases target, 2
  {
    match target.kind
    case Parenthesized(inner) => WriteKeepsLoans(inner, s);
    case Name(name) => ExpressionKeepsLoans(target, Mutate, s);
    case _ => ExpressionKeepsLoans(target, Mutate, s);
  }

  lemma {:induction false} ArmsKeepLoans(arms: seq<Expression>, usage: Usage, s: FlowState)
    ensures var (states, throws, _) := CheckArms(arms, usage, s);
            (forall i :: 0 <= i < |states| ==> OnlyAvailability(s, states[i])) && AllHolding(s, throws)
    decreases arms, 0
  {
    if |arms| > 0 {
      ExpressionKeepsLoans(arms[0], usage, s);
      ArmsKeepLoans(arms[1..], usage, s);
    }
  }

  lemma {:induction false} ElementsKeepLoans(elements: seq<Element>, recorded: bool, s: FlowState)
    ensures ExpressionFramed(s, CheckElements(elements, recorded, s))
    decreases elements, 0
  {
    if |elements| > 0 {
      ElementKeepsLoans(elements[0], recorded, s);
      var first := CheckElement(elements[0], recorded, s);
      ElementsKeepLoans(elements[1..], recorded, first.state);
      ThenFramed(s, first, CheckElements(elements[1..], recorded, first.state));
    }
  }

  lemma {:induction false} ElementKeepsLoans(element: Element, recorded: bool, s: FlowState)
    ensures ExpressionFramed(s, CheckElement(element, recorded, s))
    decreases element, 0
  {
    ExpressionKeepsLoans(element.value, Read, s);
    CaptureFramed(s, Check(element.value, Read, s), recorded && element.adapted);
  }

  /** The conclusion about operands whose loans are still held. */
  ghost predicate OperandsFramed(s: FlowState, c: CheckedAll) {
    Holds(s, c.loans, c.state) && AllHolding(s, c.throws)
  }

  lemma {:induction false} PassedKeepsLoans(value: Expression, passing: Passing, s: FlowState)
    ensures OperandsFramed(s, CheckPassed(value, passing, s))
    decreases value, 2
  {
    var c := Check(value, PassingUsage(passing), s);
    ExpressionKeepsLoans(value, PassingUsage(passing), s);
    OnlyIsHolding(s, c.state);
    if !passing.ByValue? {
      AcquireHolds(c.state, c.origin, passing.ByMutable?, value.span);
      var (t, loan, _) := AcquireTemporary(c.state, c.origin, passing.ByMutable?, value.span);
      var loans := if loan.Some? then [loan.value] else [];
      HoldsTransitive(s, [], c.state, loans, t);
      assert [] + loans == loans;
    }
  }

  lemma {:induction false} ArgumentsKeepLoans(arguments: seq<Argument>, s: FlowState)
    ensures OperandsFramed(s, CheckArguments(arguments, s))
    decreases arguments, 0
  {
    if |arguments| == 0 {
      OnlyIsHolding(s, s);
    } else {
      ArgumentKeepsLoans(arguments[0], s);
      var first := CheckArgument(arguments[0], s);
      ArgumentsKeepLoans(arguments[1..], first.state);
      var rest := CheckArguments(arguments[1..], first.state);
      HoldsTransitive(s, first.loans, first.state, rest.loans, rest.state);
      HoldingAfter(s, first.loans, first.state, rest.throws);
    }
  }

  lemma {:induction false} ArgumentKeepsLoans(argument: Argument, s: FlowState)
    ensures OperandsFramed(s, CheckArgument(argument, s))
    decreases argument, 0
  {
    PassedKeepsLoans(argument.value, argument.passing, s);
  }

  lemma {:induction false} ReceiverKeepsLoans(receiver: Option<Receiver>, s: FlowState)
    ensures OperandsFramed(s, CheckReceiver(receiver, s))
    decreases receiver, 0
  {
    if receiver.None? {
      OnlyIsHolding(s, s);
    } else {
      PassedKeepsLoans(receiver.value.value, receiver.value.passing, s);
    }
  }

  lemma {:induction false} CallKeepsLoans(e: Expression, s: FlowState)
    requires e.kind.Call?
    ensures ExpressionFramed(s, CheckCall(e, s))
    decreases e, 0, 0
  {
    ReceiverKeepsLoans(e.kind.receiver, s);
    var r := CheckReceiver(e.kind.receiver, s);
    ArgumentsKeepLoans(e.kind.arguments, r.state);
    var a := CheckArguments(e.kind.arguments, r.state);
    HoldingAfter(s, r.loans, r.state, a.throws);
    ReleasedOnly(r.state, a.loans, a.state);
    var released := ReleaseAll(a.state, a.loans);
    OnlyAvailabilityTransitive(BorrowAll(s, r.loans), r.state, released);
    ReleasedOnly(s, r.loans, released);
  }
}
