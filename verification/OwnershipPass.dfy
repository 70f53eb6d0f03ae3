/**
 The ownership pass itself: one analyzer whose state, diagnostics and stacks of contexts change as it
 walks a function. It computes what `Ownership` specifies.
 */
module OwnershipPass {
  import opened Wrappers
  import opened Ast
  import opened FlowStates
  import opened Ownership
  import opened OwnershipSteps
  import opened OwnershipReady
  import opened OwnershipScopes
  import opened OwnershipLoans
  import opened LoansKept

  // ----- joins -----

  method MergeStates(baseline: FlowState, left: FlowState, right: FlowState) returns (merged: FlowState)
    ensures merged == Merge(baseline, left, right)
  {
    merged := baseline;
    var ids := Flatten(baseline.scopeBindings);
    for i := 0 to |ids|
      invariant merged == MergeIds(baseline, left, right, ids[..i])
    {
      merged := SetAvailability(
        merged, ids[i], MergeAvailability(AvailabilityOf(left, ids[i]), AvailabilityOf(right, ids[i])));
      assert ids[..i + 1][..i] == ids[..i];
    }
    assert ids[..|ids|] == ids;
  }

  method MergeManyStates(baseline: FlowState, states: seq<FlowState>) returns (merged: FlowState)
    ensures merged == MergeMany(baseline, states)
  {
    if |states| == 0 {
      return baseline;
    }
    merged := states[0];
    for i := 1 to |states|
      invariant merged == MergeMany(baseline, states[..i])
    {
      merged := MergeStates(baseline, merged, states[i]);
      assert states[..i + 1][..i] == states[..i];
    }
    assert states[..|states|] == states;
  }

  /** Ends because every reference is younger than what it borrows from. */
  method RootOriginOf(state: FlowState, start: nat) returns (id: nat)
    requires start < |state.bindings| && Older(state)
    ensures id == RootOrigin(state, start)
  {
    id := start;
    while state.bindings[id].referenceLoan.Some? && !IsGuard(state.bindings[id].ty)
      invariant id < |state.bindings| && RootOrigin(state, id) == RootOrigin(state, start)
      decreases id
    {
      id := state.bindings[id].referenceLoan.value.owner;
    }
  }

  class Analyzer {
    var state: FlowState
    var diagnostics: seq<Report>
    var emitted: set<Report>
    var loopDepth: nat
    var loops: seq<LoopContext>
    var exceptions: seq<ExceptionContext>
    var returnsReference: bool
    var returnBorrow: Option<nat>

    constructor ()
      ensures Consistent()
      ensures Fields() == Pass(EMPTY_STATE, [], 0, [], [], false, None)
    {
      state := EMPTY_STATE;
      diagnostics := [];
      emitted := {};
      loopDepth := 0;
      loops := [];
      exceptions := [];
      returnsReference := false;
      returnBorrow := None;
    }

    ghost predicate Consistent()
      reads this`emitted, this`diagnostics
    {
      emitted == set r | r in diagnostics
    }

    ghost function Fields(): Pass
      reads this
    {
      Pass(state, diagnostics, loopDepth, loops, exceptions, returnsReference, returnBorrow)
    }

    // ----- reports -----

    method Push(code: string, span: Span)
      requires Consistent()
      modifies this
      ensures Consistent()
      ensures Fields() == Stepped(old(Fields()), Outcome(old(state), true, [], [], [], [Report(code, span)]))
    {
      SteppedReport(Fields(), state, Report(code, span), true);
      if Report(code, span) !in emitted {
        emitted := emitted + {Report(code, span)};
        diagnostics := diagnostics + [Report(code, span)];
      }
    }

    method CheckBorrowConflict(id: nat, usage: Usage, span: Span) returns (free: bool)
      requires Consistent()
      modifies this
      ensures Consistent() && (free <==> CheckBorrow(old(state), id, usage, span) == [])
      ensures Fields()
              == Stepped(old(Fields()), Outcome(old(state), true, [], [], [], CheckBorrow(old(state), id, usage, span)))
    {
      SteppedQuietly(Fields(), state, true);
      free := true;
      if id < |state.bindings| && Conflicts(state.bindings[id], usage) {
        Push("OWN003", span);
        free := false;
      }
    }

    method Use(id: nat, usage: Usage, span: Span)
      requires Consistent()
      modifies this
      ensures Consistent()
      ensures Fields()
              == Stepped(old(Fields()), Outcome(old(state), true, [], [], [], CheckUsage(old(state), id, usage, span)))
    {
      SteppedQuietly(Fields(), state, true);
      if id < |state.bindings| {
        match state.bindings[id].availability
        case Moved(_) => Push("OWN001", span);
        case MaybeMoved(_) => Push("OWN002", span);
        case Available =>
          var free := CheckBorrowConflict(id, usage, span);
      }
    }

    method MoveOut(id: nat, span: Span)
      requires Consistent()
      modifies this
      ensures Consistent()
      ensures Fields() == Stepped(
                old(Fields()),
                Outcome(MarkMoved(old(state), id, span), true, [], [], [], CheckUsage(old(state), id, Mutate, span)))
    {
      Use(id, Mutate, span);
      if id < |state.bindings| && state.bindings[id].availability.Available?
        && !state.bindings[id].mutablyBorrowed && state.bindings[id].sharedBorrows == 0
      {
        state := state.(bindings := state.bindings[id := state.bindings[id].(availability := Moved(span))]);
      }
    }

    // ----- loans -----

    method EndLoan(id: nat)
      modifies this`state
      ensures state == EndReferenceLoan(old(state), id)
    {
      if id >= |state.bindings| || !state.bindings[id].loanActive {
        return;
      }
      if state.bindings[id].referenceLoan.Some? {
        state := Release(state, state.bindings[id].referenceLoan.value);
      }
      state := state.(bindings := state.bindings[id := state.bindings[id].(loanActive := false)]);
    }

    method ReleaseExpiredLoans(position: nat)
      modifies this`state
      ensures state == ReleaseExpired(old(state), position, loopDepth)
    {
      var ids := Flatten(state.scopeBindings);
      assert ids[0..] == ids;
      for i := 0 to |ids|
        invariant ReleaseExpiredIn(state, ids[i..], position, loopDepth)
               == ReleaseExpiredIn(old(state), ids, position, loopDepth)
      {
        assert ids[i..][1..] == ids[i + 1..];
        if ids[i] < |state.bindings| && Expired(state.bindings[ids[i]], position, loopDepth) {
          EndLoan(ids[i]);
        }
      }
    }

    method TakeLoan(owner: nat, mutable: bool, span: Span) returns (loan: Option<Loan>)
      requires Consistent()
      modifies this
      ensures Consistent() && loan == Acquire(old(state), owner, mutable, span).1
      ensures Fields() == Stepped(
                old(Fields()),
                Outcome(
                  Acquire(old(state), owner, mutable, span).0, true, [], [], [],
                  Acquire(old(state), owner, mutable, span).2))
    {
      var free := CheckBorrowConflict(owner, LoanUsage(mutable), span);
      if !free {
        return None;
      }
      if owner < |state.bindings| {
        var b := state.bindings[owner];
        state := state.(bindings := state.bindings[owner :=
          if mutable then b.(mutablyBorrowed := true) else b.(sharedBorrows := b.sharedBorrows + 1)]);
      }
      return Some(Loan(owner, mutable));
    }

    method AcquirePersistentLoan(origin: Option<nat>, mutable: bool, span: Span) returns (loan: Option<Loan>)
      requires Consistent() && Older(state) && Exists(state, origin)
      modifies this
      ensures Consistent() && loan == AcquirePersistent(old(state), origin, mutable, span).1
      ensures Fields() == Stepped(
                old(Fields()),
                Outcome(
                  AcquirePersistent(old(state), origin, mutable, span).0, true, [], [], [],
                  AcquirePersistent(old(state), origin, mutable, span).2))
    {
      if origin.None? {
        Push("OWN004", span);
        return None;
      }
      var owner := RootOriginOf(state, origin.value);
      if origin.value < |state.bindings| && LoanEndsWithin(state.bindings[origin.value], span) {
        EndLoan(origin.value);
      }
      loan := TakeLoan(owner, mutable, span);
    }

    method ReleaseLoans(loans: seq<Loan>)
      modifies this`state
      ensures state == ReleaseAll(old(state), loans)
    {
      var i := |loans|;
      assert loans[..i] == loans;
      while i > 0
        invariant i <= |loans|
        invariant ReleaseAll(state, loans[..i]) == ReleaseAll(old(state), loans)
      {
        i := i - 1;
        assert loans[..i + 1][..i] == loans[..i];
        state := Release(state, loans[i]);
      }
    }

    // ----- contexts -----

    /** The states of a state's scopes, popped down to a depth. */
    method CaptureException(raises: bool)
      requires Consistent()
      modifies this`exceptions
      ensures Consistent()
      ensures Fields()
              == Stepped(old(Fields()), Outcome(old(state), true, [], [], if raises then [old(state)] else [], []))
    {
      SteppedQuietly(Fields(), state, true);
      ExitNothing(loops);
      if raises {
        for i := 0 to |exceptions|
          invariant |exceptions| == |old(exceptions)|
          invariant forall j :: 0 <= j < i ==> exceptions[j] == Record(old(exceptions), [state])[j]
          invariant forall j :: i <= j < |exceptions| ==> exceptions[j] == old(exceptions)[j]
          invariant Consistent()
        {
          var context := exceptions[i];
          var left := PopTo(state, context.scopeDepth);
          assert TruncateAll([state], context.scopeDepth) == [left];
          exceptions := exceptions[i := context.(states := context.states + [left])];
        }
        assert exceptions == Record(old(exceptions), [state]);
      }
    }

    method PopTo(s: FlowState, depth: nat) returns (left: FlowState)
      ensures left == Truncate(s, depth)
    {
      left := s;
      while |left.scopes| > depth && |left.scopeBindings| > 0
        invariant Truncate(left, depth) == Truncate(s, depth)
        decreases |left.scopes|
      {
        left := PopScope(left);
      }
    }

    method CaptureLoopExit(isContinue: bool)
      requires Consistent()
      modifies this`loops
      ensures Consistent()
      ensures Fields() == Stepped(
                old(Fields()),
                if isContinue then Outcome(old(state), false, [], [old(state)], [], [])
                else Outcome(old(state), false, [old(state)], [], [], []))
    {
      RecordNothing(exceptions);
      if |loops| == 0 {
        return;
      }
      var context := loops[|loops| - 1];
      var left := PopTo(state, context.scopeDepth);
      assert TruncateAll([state], context.scopeDepth) == [left];
      assert context.breakStates + [] == context.breakStates && context.continueStates + [] == context.continueStates;
      if isContinue {
        loops := loops[|loops| - 1 := context.(continueStates := context.continueStates + [left])];
      } else {
        loops := loops[|loops| - 1 := context.(breakStates := context.breakStates + [left])];
      }
    }

    // ----- expressions -----

    method CheckExpression(e: Expression, usage: Usage) returns (origin: Option<nat>)
      requires Consistent()
      modifies this
      ensures Consistent() && origin == Check(e, usage, old(state)).origin
      ensures Fields() == Stepped(old(Fields()), Straight(Check(e, usage, old(state))))
      decreases e, 1
    {
      match e.kind
      case Strict(_, _) => origin := CheckStrict(e, usage);
      case Compound(_, _) => origin := CheckCompound(e, usage);
      case Index(_, _) => origin := CheckIndex(e, usage);
      case Logical(_, _) => origin := CheckLogical(e, usage);
      case Assign(_, _, _, _) => origin := CheckAssign(e, usage);
      case Switch(_, _) => origin := CheckSwitch(e, usage);
      case Call(_, _, _, _) => origin := CheckWholeCall(e, usage);
      case Move(_) => origin := CheckMove(e, usage);
      case Consume(_, _) => origin := CheckConsume(e, usage);
      case Construct(_, _) => origin := CheckConstruction(e, usage);
      case _ => origin := CheckSimple(e, usage);
    }

    /** Names, literals, and what adds nothing to its single part. */
    method CheckSimple(e: Expression, usage: Usage) returns (origin: Option<nat>)
      requires Consistent()
      requires e.kind.Name? || e.kind.Literal? || e.kind.Parenthesized? || e.kind.Operand? || e.kind.Increment?
            || e.kind.Field? || e.kind.Aggregate?
      modifies this
      ensures Consistent() && origin == Check(e, usage, old(state)).origin
      ensures Fields() == Stepped(old(Fields()), Straight(Check(e, usage, old(state))))
      decreases e, 0
    {
      match e.kind
      case Name(name) => origin := CheckName(e, usage);
      case Literal =>
        SteppedStraight(Fields(), state, None);
        origin := None;
      case Parenthesized(inner) => origin := CheckExpression(inner, usage);
      case Operand(operand) =>
        origin := CheckExpression(operand, Read);
        origin := None;
      case Increment(place) =>
        origin := CheckExpression(place, Mutate);
        origin := None;
      case Field(whole) => origin := CheckExpression(whole, usage);
      case Aggregate(initializers) =>
        NoOrigin(initializers, true, state);
        CheckEachElement(initializers, true);
        origin := None;
    }

    method CheckName(e: Expression, usage: Usage) returns (origin: Option<nat>)
      requires Consistent() && e.kind.Name?
      modifies this
      ensures Consistent() && origin == Check(e, usage, old(state)).origin
      ensures Fields() == Stepped(old(Fields()), Straight(Check(e, usage, old(state))))
    {
      SteppedStraight(Fields(), state, None);
      origin := Lookup(state, e.kind.name);
      if origin.Some? {
        Use(origin.value, usage, e.span);
      }
    }

    method CheckStrict(e: Expression, usage: Usage) returns (origin: Option<nat>)
      requires Consistent() && e.kind.Strict?
      modifies this
      ensures Consistent() && origin == Check(e, usage, old(state)).origin
      ensures Fields() == Stepped(old(Fields()), Straight(Check(e, usage, old(state))))
      decreases e, 0
    {
      ghost var p := Fields();
      origin := CheckExpression(e.kind.left, Read);
      ghost var c := Check(e.kind.left, Read, p.state);
      var _ := CheckExpression(e.kind.right, Read);
      Continued(p, c, Check(e.kind.right, Read, c.state));
      origin := None;
    }

    method CheckCompound(e: Expression, usage: Usage) returns (origin: Option<nat>)
      requires Consistent() && e.kind.Compound?
      modifies this
      ensures Consistent() && origin == Check(e, usage, old(state)).origin
      ensures Fields() == Stepped(old(Fields()), Straight(Check(e, usage, old(state))))
      decreases e, 0
    {
      ghost var p := Fields();
      origin := CheckExpression(e.kind.right, Read);
      ghost var c := Check(e.kind.right, Read, p.state);
      var _ := CheckExpression(e.kind.target, Mutate);
      Continued(p, c, Check(e.kind.target, Mutate, c.state));
      origin := None;
    }

    method CheckIndex(e: Expression, usage: Usage) returns (origin: Option<nat>)
      requires Consistent() && e.kind.Index?
      modifies this
      ensures Consistent() && origin == Check(e, usage, old(state)).origin
      ensures Fields() == Stepped(old(Fields()), Straight(Check(e, usage, old(state))))
      decreases e, 0
    {
      ghost var p := Fields();
      origin := CheckExpression(e.kind.collection, usage);
      ghost var c := Check(e.kind.collection, usage, p.state);
      var _ := CheckExpression(e.kind.index, Read);
      Continued(p, c, Check(e.kind.index, Read, c.state));
    }

    method CheckLogical(e: Expression, usage: Usage) returns (origin: Option<nat>)
      requires Consistent() && e.kind.Logical?
      modifies this
      ensures Consistent() && origin == Check(e, usage, old(state)).origin
      ensures Fields() == Stepped(old(Fields()), Straight(Check(e, usage, old(state))))
      decreases e, 0
    {
      ghost var p := Fields();
      origin := CheckExpression(e.kind.left, Read);
      ghost var l := Check(e.kind.left, Read, p.state);
      var baseline := state;
      origin := CheckExpression(e.kind.right, Read);
      Continued(p, l, Check(e.kind.right, Read, l.state));
      state := MergeStates(baseline, baseline, state);
      origin := None;
    }

    method CheckAssign(e: Expression, usage: Usage) returns (origin: Option<nat>)
      requires Consistent() && e.kind.Assign?
      modifies this
      ensures Consistent() && origin == Check(e, usage, old(state)).origin
      ensures Fields() == Stepped(old(Fields()), Straight(Check(e, usage, old(state))))
      decreases e, 0
    {
      ghost var p := Fields();
      origin := CheckExpression(e.kind.right, Read);
      ghost var r := Check(e.kind.right, Read, p.state);
      CaptureException(e.kind.adapted);
      Captured(p, r, e.kind.adapted);
      CaptureException(e.kind.jsonPlace);
      Captured(p, Capture(r, e.kind.adapted), e.kind.jsonPlace);
      WriteTo(e.kind.target);
      AssignSteps(p, e, usage);
      origin := None;
    }

    method WriteTo(target: Expression)
      requires Consistent()
      modifies this
      ensures Consistent()
      ensures Fields() == Stepped(old(Fields()), Straight(Write(target, old(state))))
      decreases target, 2
    {
      SteppedStraight(Fields(), state, None);
      match target.kind
      case Parenthesized(inner) => WriteTo(inner);
      case Name(name) =>
        var id := Lookup(state, name);
        if id.None? {
          var _ := CheckExpression(target, Mutate);
        } else if id.value < |state.bindings| && IsReference(state.bindings[id.value].ty) {
          Use(id.value, Mutate, target.span);
        } else {
          var free := CheckBorrowConflict(id.value, Mutate, target.span);
          if free {
            state := SetAvailability(state, id.value, Available);
          }
        }
      case _ =>
        var _ := CheckExpression(target, Mutate);
    }

    method CheckMove(e: Expression, usage: Usage) returns (origin: Option<nat>)
      requires Consistent() && e.kind.Move?
      modifies this
      ensures Consistent() && origin == Check(e, usage, old(state)).origin
      ensures Fields() == Stepped(old(Fields()), Straight(Check(e, usage, old(state))))
    {
      SteppedStraight(Fields(), state, None);
      origin := None;
      var id := NamedBinding(e.kind.argument, state);
      if id.Some? {
        if id.value < |state.bindings| && IsCopyable(state.bindings[id.value].ty) {
          Use(id.value, Read, e.kind.argument.span);
        } else {
          MoveOut(id.value, e.span);
        }
      }
    }

    method CheckConsume(e: Expression, usage: Usage) returns (origin: Option<nat>)
      requires Consistent() && e.kind.Consume?
      modifies this
      ensures Consistent() && origin == Check(e, usage, old(state)).origin
      ensures Fields() == Stepped(old(Fields()), Straight(Check(e, usage, old(state))))
      decreases e, 0
    {
      ghost var p := Fields();
      var id := NamedBinding(e.kind.consumed, state);
      if id.Some? {
        MoveOut(id.value, e.span);
      } else {
        var _ := CheckExpression(e.kind.consumed, Read);
      }
      CaptureException(e.kind.throws);
      ConsumeSteps(p, e, usage);
      origin := None;
    }

    method CheckSwitch(e: Expression, usage: Usage) returns (origin: Option<nat>)
      requires Consistent() && e.kind.Switch?
      modifies this
      ensures Consistent() && origin == Check(e, usage, old(state)).origin
      ensures Fields() == Stepped(old(Fields()), Straight(Check(e, usage, old(state))))
      decreases e, 0
    {
      ghost var p := Fields();
      origin := CheckExpression(e.kind.scrutinee, Read);
      ghost var c := Check(e.kind.scrutinee, Read, p.state);
      var baseline := state;
      var states := CheckEachArm(e.kind.arms, usage);
      SwitchSteps(p, e, usage, state);
      state := MergeManyStates(baseline, states);
      origin := None;
    }

    /** Every arm is checked from the state there is at the start. */
    method CheckEachArm(arms: seq<Expression>, usage: Usage) returns (states: seq<FlowState>)
      requires Consistent()
      modifies this
      ensures Consistent() && states == CheckArms(arms, usage, old(state)).0
      ensures Fields() == Stepped(
                old(Fields()),
                Outcome(
                  state, true, [], [], CheckArms(arms, usage, old(state)).1, CheckArms(arms, usage, old(state)).2))
      decreases arms, 0
    {
      ghost var p := Fields();
      var baseline := state;
      states := [];
      ghost var done: Collected := ([], [], []);
      SteppedQuietly(p, state, true);
      assert arms[0..] == arms;
      JoinNothing(CheckArms(arms, usage, baseline));
      var i := 0;
      while i < |arms|
        invariant 0 <= i <= |arms| && Consistent() && states == done.0
        invariant JoinCollected(done, CheckArms(arms[i..], usage, baseline)) == CheckArms(arms, usage, baseline)
        invariant Fields() == Stepped(p, SoFar(state, done))
      {
        assert arms[i..][1..] == arms[i + 1..];
        state := baseline;
        ghost var c := Check(arms[i], usage, baseline);
        var _ := CheckExpression(arms[i], usage);
        NextCollected(p, baseline, done, c, CheckArms(arms[i + 1..], usage, baseline));
        states := states + [state];
        done := JoinCollected(done, ([c.state], c.throws, c.reports));
        i := i + 1;
      }
      JoinNothing(done);
    }

    method CheckConstruction(e: Expression, usage: Usage) returns (origin: Option<nat>)
      requires Consistent() && e.kind.Construct?
      modifies this
      ensures Consistent() && origin == Check(e, usage, old(state)).origin
      ensures Fields() == Stepped(old(Fields()), Straight(Check(e, usage, old(state))))
      decreases e, 0
    {
      ghost var p := Fields();
      CheckEachElement(e.kind.elements, false);
      CaptureException(e.kind.throws);
      ConstructSteps(p, e, usage);
      origin := None;
    }

    method CheckEachElement(elements: seq<Element>, recorded: bool)
      requires Consistent()
      modifies this
      ensures Consistent()
      ensures Fields() == Stepped(old(Fields()), Straight(CheckElements(elements, recorded, old(state))))
      decreases elements, 0
    {
      ghost var p := Fields();
      ghost var done := Checked(state, None, [], []);
      SteppedStraight(p, state, None);
      assert elements[0..] == elements;
      var i := 0;
      while i < |elements|
        invariant 0 <= i <= |elements| && Consistent()
        invariant Straight(Then(done, CheckElements(elements[i..], recorded, state)))
               == Straight(CheckElements(elements, recorded, p.state))
        invariant Fields() == Stepped(p, Straight(done))
      {
        assert elements[i..][1..] == elements[i + 1..];
        ghost var before := state;
        CheckOneElement(elements[i], recorded);
        ghost var c := CheckElement(elements[i], recorded, before);
        Continued(p, done, c);
        ThenAssociates(done, c, CheckElements(elements[i + 1..], recorded, c.state));
        done := Then(done, c);
        i := i + 1;
      }
      assert done.throws + [] == done.throws && done.reports + [] == done.reports;
    }

    method CheckOneElement(element: Element, recorded: bool)
      requires Consistent()
      modifies this
      ensures Consistent()
      ensures Fields() == Stepped(old(Fields()), Straight(CheckElement(element, recorded, old(state))))
      decreases element, 0
    {
      ghost var p := Fields();
      var _ := CheckExpression(element.value, Read);
      CaptureException(recorded && element.adapted);
      Captured(p, Check(element.value, Read, p.state), recorded && element.adapted);
    }

    method CheckWholeCall(e: Expression, usage: Usage) returns (origin: Option<nat>)
      requires Consistent() && e.kind.Call?
      modifies this
      ensures Consistent() && origin == Check(e, usage, old(state)).origin
      ensures Fields() == Stepped(old(Fields()), Straight(Check(e, usage, old(state))))
      decreases e, 0, 1
    {
      ghost var p := Fields();
      origin := CheckOperands(e);
      CaptureException(e.kind.throws);
      Captured(p, CheckCall(e, p.state), e.kind.throws);
    }

    /** The loans on receiver and arguments end before the call is over. */
    method CheckOperands(e: Expression) returns (origin: Option<nat>)
      requires Consistent() && e.kind.Call?
      modifies this
      ensures Consistent() && origin == CheckCall(e, old(state)).origin
      ensures Fields() == Stepped(old(Fields()), Straight(CheckCall(e, old(state))))
      decreases e, 0, 0
    {
      ghost var p := Fields();
      var receiverOrigins, receiverLoans := PassReceiver(e.kind.receiver);
      var origins, loans := PassArguments(e.kind.arguments);
      ReleaseLoans(loans);
      ReleaseLoans(receiverLoans);
      CallSteps(p, e);
      origin := CallOrigin(e.kind.result, receiverOrigins, origins);
    }

    method PassOperand(value: Expression, passing: Passing) returns (origins: seq<Option<nat>>, loans: seq<Loan>)
      requires Consistent()
      modifies this
      ensures Consistent()
      ensures var c := CheckPassed(value, passing, old(state));
              origins == c.origins && loans == c.loans && Fields() == Stepped(old(Fields()), Passed(c))
      decreases value, 2
    {
      ghost var p := Fields();
      var origin := CheckExpression(value, PassingUsage(passing));
      ghost var c := Check(value, PassingUsage(passing), p.state);
      origins, loans := [origin], [];
      if !passing.ByValue? && origin.Some? {
        ghost var (s, l, reports) := Acquire(c.state, origin.value, passing.ByMutable?, value.span);
        var loan := TakeLoan(origin.value, passing.ByMutable?, value.span);
        SteppedAfter(p, Straight(c), Outcome(s, true, [], [], [], reports));
        assert c.throws + [] == c.throws;
        if loan.Some? {
          loans := [loan.value];
        }
      } else {
        assert c.reports + [] == c.reports;
      }
    }

    method PassReceiver(receiver: Option<Receiver>) returns (origins: seq<Option<nat>>, loans: seq<Loan>)
      requires Consistent()
      modifies this
      ensures Consistent()
      ensures var c := CheckReceiver(receiver, old(state));
              origins == c.origins && loans == c.loans && Fields() == Stepped(old(Fields()), Passed(c))
      decreases receiver, 0
    {
      SteppedQuietly(Fields(), state, true);
      origins, loans := [], [];
      if receiver.Some? {
        origins, loans := PassOperand(receiver.value.value, receiver.value.passing);
      }
    }

    method PassArgument(argument: Argument) returns (origins: seq<Option<nat>>, loans: seq<Loan>)
      requires Consistent()
      modifies this
      ensures Consistent()
      ensures var c := CheckArgument(argument, old(state));
              origins == c.origins && loans == c.loans && Fields() == Stepped(old(Fields()), Passed(c))
      decreases argument, 0
    {
      origins, loans := PassOperand(argument.value, argument.passing);
    }

    method PassArguments(arguments: seq<Argument>) returns (origins: seq<Option<nat>>, loans: seq<Loan>)
      requires Consistent()
      modifies this
      ensures Consistent()
      ensures var c := CheckArguments(arguments, old(state));
              origins == c.origins && loans == c.loans && Fields() == Stepped(old(Fields()), Passed(c))
      decreases arguments, 0
    {
      ghost var p := Fields();
      ghost var done := CheckedAll(state, [], [], [], []);
      origins, loans := [], [];
      SteppedQuietly(p, state, true);
      assert arguments[0..] == arguments;
      var i := 0;
      while i < |arguments|
        invariant 0 <= i <= |arguments| && Consistent()
        invariant Together(done, CheckArguments(arguments[i..], state)) == CheckArguments(arguments, p.state)
        invariant Fields() == Stepped(p, Passed(done)) && origins == done.origins && loans == done.loans
      {
        assert arguments[i..][1..] == arguments[i + 1..];
        ghost var before := state;
        var os, ls := PassArgument(arguments[i]);
        ghost var c := CheckArgument(arguments[i], before);
        NextArgument(p, done, c, CheckArguments(arguments[i + 1..], c.state));
        origins, loans := origins + os, loans + ls;
        done := Together(done, c);
        i := i + 1;
      }
      TogetherNothing(done);
    }

    // ----- statements -----

    method CheckOptionally(e: Option<Expression>)
      requires Consistent()
      modifies this
      ensures Consistent()
      ensures Fields() == Stepped(old(Fields()), Straight(CheckOptional(e, old(state))))
    {
      SteppedStraight(Fields(), state, None);
      if e.Some? {
        var _ := CheckExpression(e.value, Read);
      }
    }

    method Block(b: OwnBlock, createScope: bool) returns (reachable: bool)
      requires Consistent() && Ready(state, returnBorrow) && (createScope || |state.scopes| > 0)
      modifies this
      ensures Consistent()
      ensures var o :=
                if createScope then AnalyzeBlock(b, Around(old(Fields())), old(state))
                else AnalyzeBody(b, Around(old(Fields())), old(state));
              Fields() == Stepped(old(Fields()), o) && reachable == o.reachable
      decreases b, 0
    {
      PushReady(state, returnBorrow);
      if createScope {
        state := PushScope(state);
      }
      reachable := Statements(b.statements);
      if createScope {
        state := PopScope(state);
      }
    }

    method Statements(ss: seq<OwnStatement>) returns (reachable: bool)
      requires Consistent() && Ready(state, returnBorrow) && |state.scopes| > 0
      modifies this
      ensures Consistent()
      ensures var o := AnalyzeList(ss, Around(old(Fields())), old(state));
              Fields() == Stepped(old(Fields()), o) && reachable == o.reachable
      decreases ss, 0
    {
      ghost var p, x := Fields(), Around(Fields());
      ghost var done := Nothing(state);
      SteppedQuietly(p, state, true);
      AfterNothing(state, AnalyzeList(ss, x, state));
      assert ss[0..] == ss;
      reachable := true;
      var i := 0;
      while i < |ss| && reachable
        invariant 0 <= i <= |ss| && Consistent() && reachable == done.reachable
        invariant Fields() == Stepped(p, done) && Ready(state, returnBorrow) && |state.scopes| > 0
        invariant (if reachable then After(done, AnalyzeList(ss[i..], x, state)) else done)
                  == AnalyzeList(ss, x, p.state)
      {
        assert ss[i..][1..] == ss[i + 1..];
        ghost var first := AnalyzeFirst(ss[i], x, state);
        reachable := NextStatement(ss[i]);
        SteppedAfter(p, done, first);
        AfterAssociates(done, first, AnalyzeList(ss[i + 1..], x, state));
        done := After(done, first);
        i := i + 1;
      }
      if reachable {
        assert ss[i..] == [];
        EndOfList(done);
      }
    }

    method NextStatement(s: OwnStatement) returns (reachable: bool)
      requires Consistent() && Ready(state, returnBorrow) && |state.scopes| > 0
      modifies this
      ensures Consistent() && Ready(state, returnBorrow) && |state.scopes| > 0
      ensures var o := AnalyzeFirst(s, Around(old(Fields())), old(state));
              Fields() == Stepped(old(Fields()), o) && reachable == o.reachable && state == o.state
      decreases s, 2
    {
      FirstReady(s, Around(Fields()), state);
      reachable := Statement(s);
      ReleaseExpiredLoans(s.span.end);
    }

    method AnalyzeBranchFrom(s: OwnStatement, start: FlowState) returns (end: FlowState, reachable: bool)
      requires Consistent() && Ready(start, returnBorrow)
      modifies this
      ensures Consistent()
      ensures var o := AnalyzeBranch(s, Around(old(Fields())), start);
              end == o.state && reachable == o.reachable && Fields() == Stepped(old(Fields()), o.(state := old(state)))
      decreases s, 3
    {
      var saved := state;
      PushReady(start, returnBorrow);
      state := PushScope(start);
      reachable := NextStatement(s);
      end := PopScope(state);
      state := saved;
    }

    method AnalyzeHandlerFrom(clause: OwnCatch, start: FlowState) returns (end: FlowState, reachable: bool)
      requires Consistent() && Ready(start, returnBorrow)
      modifies this
      ensures Consistent()
      ensures var o := AnalyzeHandler(clause, Around(old(Fields())), start);
              end == o.state && reachable == o.reachable && Fields() == Stepped(old(Fields()), o.(state := old(state)))
      decreases clause, 0
    {
      var saved := state;
      HandlerReady(clause.binding, Around(Fields()), start);
      state := PushScope(start);
      if clause.binding.Some? {
        var b := clause.binding.value;
        state := Declare(state, b.name, b.ty, None, b.span, b.lastUse, loopDepth);
      }
      reachable := Block(clause.body, false);
      end := PopScope(state);
      state := saved;
    }

    method LocalDeclared(local: LocalDeclaration<Expression>)
      requires Consistent() && Ready(state, returnBorrow)
      modifies this
      ensures Consistent()
      ensures Fields() == Stepped(old(Fields()), AnalyzeLocal(local, Around(old(Fields())), old(state)))
    {
      if BorrowsInitializer(local.ty) && local.initializer.Some? {
        BorrowerDeclared(local);
        return;
      }
      ghost var p := Fields();
      SteppedStraight(p, state, None);
      if BorrowsInitializer(local.ty) {
      } else if local.initializer.Some? {
        var _ := CheckExpression(local.initializer.value, Read);
        CaptureException(local.adapted);
        Captured(p, Check(local.initializer.value, Read, p.state), local.adapted);
      } else {
        CaptureException(local.implicitCall.throws);
        Captured(p, Checked(p.state, None, [], []), local.implicitCall.throws);
      }
      state := Declare(state, local.name, local.ty, None, local.span, local.lastUse, loopDepth);
    }

    /** A reference or a guard, which borrows from its initializer. */
    method BorrowerDeclared(local: LocalDeclaration<Expression>)
      requires Consistent() && Ready(state, returnBorrow) && BorrowsInitializer(local.ty) && local.initializer.Some?
      modifies this
      ensures Consistent()
      ensures Fields() == Stepped(old(Fields()), AnalyzeLocal(local, Around(old(Fields())), old(state)))
    {
      var mutable := local.ty.Reference? && local.ty.mutable;
      var loan := BorrowFrom(local.initializer.value, LoanUsage(mutable), mutable);
      state := Declare(state, local.name, local.ty, loan, local.span, local.lastUse, loopDepth);
    }

    /** An expression, and a lasting loan on what it refers to. */
    method BorrowFrom(e: Expression, usage: Usage, mutable: bool) returns (loan: Option<Loan>)
      requires Consistent() && Ready(state, returnBorrow)
      modifies this
      ensures Consistent()
      ensures var c := Check(e, usage, old(state));
              var (s, taken, reports) := AcquirePersistent(c.state, c.origin, mutable, e.span);
              loan == taken
              && Fields() == Stepped(old(Fields()), Straight(c.(state := s, reports := c.reports + reports)))
    {
      ghost var p := Fields();
      CheckReady(e, usage, state, returnBorrow);
      var origin := CheckExpression(e, usage);
      ReadyIsOlder(state, returnBorrow);
      ghost var c := Check(e, usage, p.state);
      ghost var (s, _, reports) := AcquirePersistent(c.state, c.origin, mutable, e.span);
      loan := AcquirePersistentLoan(origin, mutable, e.span);
      SteppedAfter(p, Straight(c), Outcome(s, true, [], [], [], reports));
      assert c.throws + [] == c.throws;
    }

    method Returned(value: Option<Expression>)
      requires Consistent() && Ready(state, returnBorrow)
      modifies this
      ensures Consistent()
      ensures Fields() == Stepped(old(Fields()), AnalyzeReturn(value, Around(old(Fields())), old(state)))
    {
      SteppedQuietly(Fields(), state, false);
      if value.Some? {
        var id := NamedBinding(value.value, state);
        if !returnsReference && id.Some? && id.value < |state.bindings|
          && !IsReference(state.bindings[id.value].ty) && !IsCopyable(state.bindings[id.value].ty)
        {
          MoveOut(id.value, value.value.span);
        } else {
          ReturnedValue(value.value);
        }
      }
    }

    method ReturnedValue(value: Expression)
      requires Consistent() && Ready(state, returnBorrow) && !ReturnMoves(value, Around(Fields()), state)
      modifies this
      ensures Consistent()
      ensures Fields() == Stepped(old(Fields()), AnalyzeReturn(Some(value), Around(old(Fields())), old(state)))
    {
      ghost var p := Fields();
      CheckReady(value, Read, state, returnBorrow);
      var origin := CheckExpression(value, Read);
      ghost var c := Check(value, Read, p.state);
      ReadyIsOlder(state, returnBorrow);
      if returnsReference {
        ghost var reports := ValidateReferenceReturn(Around(p), c.origin, c.state, value.span);
        SteppedAfter(p, Straight(c), Outcome(c.state, false, [], [], [], reports));
        assert c.throws + [] == c.throws;
        CheckReturned(origin, value.span);
      } else {
        assert c.reports + [] == c.reports;
      }
    }

    method CheckReturned(origin: Option<nat>, span: Span)
      requires Consistent() && Older(state) && Exists(state, origin) && Exists(state, returnBorrow)
      modifies this
      ensures Consistent()
      ensures Fields() == Stepped(
                old(Fields()),
                Outcome(
                  old(state), false, [], [], [],
                  ValidateReferenceReturn(Around(old(Fields())), origin, old(state), span)))
    {
      SteppedQuietly(Fields(), state, false);
      if returnBorrow.None? || origin.None? {
        Push("OWN005", span);
        return;
      }
      var found := RootOriginOf(state, origin.value);
      var expected := RootOriginOf(state, returnBorrow.value);
      if found != expected {
        Push("OWN005", span);
      }
    }

    method Statement(s: OwnStatement) returns (reachable: bool)
      requires Consistent() && Ready(state, returnBorrow) && |state.scopes| > 0
      modifies this
      ensures Consistent()
      ensures var o := Analyze(s, Around(old(Fields())), old(state));
              Fields() == Stepped(old(Fields()), o) && reachable == o.reachable
      decreases s, 1
    {
      reachable := true;
      match s.kind
      case BlockStatement(b) => reachable := Block(b, true);
      case Try(_, _) => reachable := TryStatement(s);
      case If(_, _, _) => reachable := IfStatement(s);
      case While(_, _) => WhileStatement(s);
      case For(_, _) => ForStatement(s);
      case _ => reachable := PlainStatement(s);
    }

    method JumpStatement(s: OwnStatement)
      requires Consistent() && (s.kind.Break? || s.kind.Continue? || s.kind.Empty?)
      modifies this
      ensures Consistent()
      ensures Fields() == Stepped(old(Fields()), Analyze(s, Around(old(Fields())), old(state)))
    {
      if s.kind.Empty? {
        SteppedQuietly(Fields(), state, true);
      } else {
        CaptureLoopExit(s.kind.Continue?);
      }
    }

    /** Statements without statements inside. */
    method PlainStatement(s: OwnStatement) returns (reachable: bool)
      requires Consistent() && Ready(state, returnBorrow)
      requires s.kind.Local? || s.kind.Return? || s.kind.Throw? || s.kind.Break? || s.kind.Continue?
            || s.kind.Expression? || s.kind.Empty?
      modifies this
      ensures Consistent()
      ensures var o := Analyze(s, Around(old(Fields())), old(state));
              Fields() == Stepped(old(Fields()), o) && reachable == o.reachable
    {
      reachable := s.kind.Local? || s.kind.Expression? || s.kind.Empty?;
      if s.kind.Local? {
        LocalDeclared(s.kind.local);
      } else if s.kind.Return? {
        Returned(s.kind.value);
      } else if s.kind.Throw? {
        Thrown(s.kind.error);
      } else if s.kind.Expression? {
        var _ := CheckExpression(s.kind.expression, Read);
      } else {
        JumpStatement(s);
      }
    }

    method Thrown(error: Option<Expression>)
      requires Consistent()
      modifies this
      ensures Consistent()
      ensures Fields() == Stepped(old(Fields()), AnalyzeThrow(error, old(state)))
    {
      ghost var p := Fields();
      CheckOptionally(error);
      CaptureException(true);
      Captured(p, CheckOptional(error, p.state), true);
    }

    method IfStatement(s: OwnStatement) returns (reachable: bool)
      requires Consistent() && Ready(state, returnBorrow) && s.kind.If?
      modifies this
      ensures Consistent()
      ensures var o := AnalyzeIf(s, Around(old(Fields())), old(state));
              Fields() == Stepped(old(Fields()), o) && reachable == o.reachable
      decreases s, 0, 1
    {
      ghost var p := Fields();
      CheckReady(s.kind.condition, Read, state, returnBorrow);
      ghost var c := Check(s.kind.condition, Read, state);
      var _ := CheckExpression(s.kind.condition, Read);
      SteppedAfter(p, Straight(c), AnalyzeBranches(s, Around(p), c.state));
      reachable := TakeBranches(s);
    }

    method TakeBranches(s: OwnStatement) returns (reachable: bool)
      requires Consistent() && Ready(state, returnBorrow) && s.kind.If?
      modifies this
      ensures Consistent()
      ensures var o := AnalyzeBranches(s, Around(old(Fields())), old(state));
              Fields() == Stepped(old(Fields()), o) && reachable == o.reachable
      decreases s, 0, 0
    {
      var no := s.kind.elseBranch;
      ghost var p, x := Fields(), Around(Fields());
      var baseline := state;
      var thenState, thenReachable := AnalyzeBranchFrom(s.kind.thenBranch, baseline);
      ghost var t := AnalyzeBranch(s.kind.thenBranch, x, baseline);
      ghost var e := if no.Some? then AnalyzeBranch(no.value, x, baseline) else Nothing(baseline);
      var elseState, elseReachable := TakeElse(no);
      SteppedAfter(p, t.(state := baseline), e.(state := baseline));
      if thenReachable && elseReachable {
        state := MergeStates(baseline, thenState, elseState);
      } else if thenReachable {
        state := thenState;
      } else if elseReachable {
        state := elseState;
      }
      reachable := thenReachable || elseReachable;
    }

    method TakeElse(no: Option<OwnStatement>) returns (end: FlowState, reachable: bool)
      requires Consistent() && Ready(state, returnBorrow)
      modifies this
      ensures Consistent()
      ensures var o :=
                if no.Some? then AnalyzeBranch(no.value, Around(old(Fields())), old(state)) else Nothing(old(state));
              end == o.state && reachable == o.reachable && Fields() == Stepped(old(Fields()), o.(state := old(state)))
      decreases no, 0
    {
      SteppedQuietly(Fields(), state, true);
      end, reachable := state, true;
      if no.Some? {
        end, reachable := AnalyzeBranchFrom(no.value, state);
      }
    }

    method TryStatement(s: OwnStatement) returns (reachable: bool)
      requires Consistent() && Ready(state, returnBorrow) && s.kind.Try?
      modifies this
      ensures Consistent()
      ensures var o := AnalyzeTry(s, Around(old(Fields())), old(state));
              Fields() == Stepped(old(Fields()), o) && reachable == o.reachable
      decreases s, 0, 1
    {
      ghost var p, x := Fields(), Around(Fields());
      var baseline := state;
      ghost var g := AnalyzeBlock(s.kind.guarded, x, baseline);
      BaselineReady(s.kind.guarded, x, baseline);
      var guardedState, guardedReachable, raised := Guarded(s.kind.guarded);
      var start := MergeManyStates(baseline, raised);
      var ends := Handlers(s.kind.catches, start);
      SteppedAfter(p, g.(state := baseline), AnalyzeCatches(s.kind.catches, x, start).1.(state := baseline));
      var continuing := (if guardedReachable then [guardedState] else []) + ends;
      reachable := |continuing| > 0;
      if reachable {
        state := MergeManyStates(baseline, continuing);
      }
    }

    /** The block of a `try`, in an exception context of its own. */
    method Guarded(b: OwnBlock) returns (end: FlowState, reachable: bool, raised: seq<FlowState>)
      requires Consistent() && Ready(state, returnBorrow)
      modifies this
      ensures Consistent()
      ensures var o := AnalyzeBlock(b, Around(old(Fields())), old(state));
              && end == o.state && reachable == o.reachable
              && raised == TruncateAll(o.throws, |old(state).scopes|)
              && Fields() == Stepped(old(Fields()), o.(state := old(state)))
      decreases b, 1
    {
      ghost var p := Fields();
      var saved := state;
      var inner := ExceptionContext(|state.scopes|, []);
      exceptions := exceptions + [inner];
      reachable := Block(b, true);
      ghost var o := AnalyzeBlock(b, Around(p), p.state);
      RecordInner(p.exceptions, inner, o.throws);
      raised := exceptions[|exceptions| - 1].states;
      exceptions := exceptions[..|exceptions| - 1];
      end := state;
      state := saved;
    }

    method Handlers(catches: seq<OwnCatch>, start: FlowState) returns (ends: seq<FlowState>)
      requires Consistent() && Ready(start, returnBorrow)
      modifies this
      ensures Consistent()
      ensures var (states, o) := AnalyzeCatches(catches, Around(old(Fields())), start);
              ends == states && Fields() == Stepped(old(Fields()), o.(state := old(state)))
      decreases catches, 0
    {
      ghost var p, x := Fields(), Around(Fields());
      ends := [];
      ghost var done := Nothing(state);
      SteppedQuietly(p, state, true);
      assert catches[0..] == catches;
      CatchesStart(catches, x, start, state);
      var i := 0;
      while i < |catches|
        invariant 0 <= i <= |catches| && Consistent()
        invariant Fields() == Stepped(p, done) && done.state == p.state && Around(Fields()) == x
        invariant CatchesSplit(ends, done, AnalyzeCatches(catches[i..], x, start), AnalyzeCatches(catches, x, start))
      {
        ghost var rest := catches[i..];
        assert rest[1..] == catches[i + 1..];
        var end, reachable := AnalyzeHandlerFrom(catches[i], start);
        ghost var o := AnalyzeHandler(catches[i], x, start);
        SteppedAfter(p, done, o.(state := p.state));
        CatchesNext(ends, done, o, AnalyzeCatches(rest[1..], x, start), AnalyzeCatches(catches, x, start), p.state);
        if reachable {
          ends := ends + [end];
        }
        done := After(done, o.(state := p.state)).(reachable := true);
        i := i + 1;
      }
      assert catches[i..] == [];
      CatchesEnd(ends, done, AnalyzeCatches(catches, x, start));
    }

    // ----- loops -----

    method EnterLoop()
      modifies this
      ensures Consistent() == old(Consistent()) && Fields() == Opened(old(Fields()))
    {
      state := PushScope(state);
      loopDepth := loopDepth + 1;
      loops := loops + [LoopContext(|state.scopes|, [], [])];
    }

    method LeaveLoop(position: nat)
      requires |loops| > 0 && loopDepth > 0
      modifies this
      ensures Consistent() == old(Consistent()) && Fields() == Closed(old(Fields()), position)
    {
      loops := loops[..|loops| - 1];
      loopDepth := loopDepth - 1;
      state := PopScope(state);
      ReleaseExpiredLoans(position);
    }

    method WhileStatement(s: OwnStatement)
      requires Consistent() && Ready(state, returnBorrow) && s.kind.While?
      modifies this
      ensures Consistent()
      ensures var o := AnalyzeWhile(s, Around(old(Fields())), old(state));
              Fields() == Stepped(old(Fields()), o) && o.reachable
      decreases s, 0, 1
    {
      ghost var outer := Fields();
      PushReady(state, returnBorrow);
      EnterLoop();
      ghost var o := AnalyzeWhileBody(s.kind.condition, s.kind.body, Around(Fields()), state);
      WhileBody(s.kind.condition, s.kind.body);
      ClosedLoop(outer, o, Fields(), s.kind.body.span.end);
      LeaveLoop(s.kind.body.span.end);
    }

    method WhileBody(condition: Expression, body: OwnStatement)
      requires Consistent() && Ready(state, returnBorrow) && |state.scopes| > 0
      requires |loops| > 0 && loops[|loops| - 1] == LoopContext(|state.scopes|, [], [])
      modifies this
      ensures Consistent()
      ensures var o := AnalyzeWhileBody(condition, body, Around(old(Fields())), old(state));
              LoopStepped(old(Fields()), o, Fields()) && o.reachable && o.breaks == [] && o.continues == []
      decreases body, 7
    {
      ghost var p := Fields();
      WhileShape(condition, body, Around(p), state);
      CheckReady(condition, Read, state, returnBorrow);
      ghost var c := Check(condition, Read, state);
      var _ := CheckExpression(condition, Read);
      ExitNothing(p.loops);
      Loop([], body, None, Some(condition));
      LoopSteppedAfter(p, Straight(c), AnalyzeLoop([], body, None, Some(condition), Around(p), c.state), Fields());
    }

    method ForStatement(s: OwnStatement)
      requires Consistent() && Ready(state, returnBorrow) && s.kind.For?
      modifies this
      ensures Consistent()
      ensures var o := AnalyzeForStatement(s, Around(old(Fields())), old(state));
              Fields() == Stepped(old(Fields()), o) && o.reachable
      decreases s, 0, 1
    {
      ghost var outer := Fields();
      PushReady(state, returnBorrow);
      EnterLoop();
      ghost var o := AnalyzeFor(s.kind.clause, s.kind.body, Around(Fields()), state);
      ForLoop(s.kind.clause, s.kind.body);
      ClosedLoop(outer, o, Fields(), s.kind.body.span.end);
      LeaveLoop(s.kind.body.span.end);
    }

    method ForLoop(clause: ForClause<Expression>, body: OwnStatement)
      requires Consistent() && Ready(state, returnBorrow) && |state.scopes| > 0
      requires |loops| > 0 && loops[|loops| - 1] == LoopContext(|state.scopes|, [], [])
      modifies this
      ensures Consistent()
      ensures var o := AnalyzeFor(clause, body, Around(old(Fields())), old(state));
              LoopStepped(old(Fields()), o, Fields()) && o.reachable && o.breaks == [] && o.continues == []
      decreases body, 8
    {
      if clause.Classic? {
        ClassicShape(clause, body, Around(Fields()), state);
        ClassicFor(clause, body);
      } else {
        RangeShape(clause, body, Around(Fields()), state);
        RangeFor(clause, body);
      }
    }

    method ClassicFor(clause: ForClause<Expression>, body: OwnStatement)
      requires Consistent() && Ready(state, returnBorrow) && |state.scopes| > 0 && clause.Classic?
      requires |loops| > 0 && loops[|loops| - 1] == LoopContext(|state.scopes|, [], [])
      modifies this
      ensures Consistent()
      ensures LoopStepped(old(Fields()), AnalyzeClassic(clause, body, Around(old(Fields())), old(state)), Fields())
      decreases body, 7
    {
      ghost var p, x := Fields(), Around(Fields());
      var c := StartClassic(clause);
      Loop([], body, clause.update, clause.condition);
      ghost var i := AnalyzeInitializer(clause.initializer, x, p.state);
      LoopSteppedAfter(
        p, After(i, Straight(c)), AnalyzeLoop([], body, clause.update, clause.condition, x, c.state), Fields());
    }

    /** Initializer and first condition of a loop. */
    method StartClassic(clause: ForClause<Expression>) returns (ghost c: Checked)
      requires Consistent() && Ready(state, returnBorrow) && |state.scopes| > 0 && clause.Classic?
      modifies this
      ensures Consistent() && Ready(state, returnBorrow) && |state.scopes| == |old(state).scopes|
      ensures loops == old(loops) && state == c.state
      ensures var i := AnalyzeInitializer(clause.initializer, Around(old(Fields())), old(state));
              && c == CheckOptional(clause.condition, i.state) && i.breaks == [] && i.continues == []
              && Fields() == Stepped(old(Fields()), After(i, Straight(c)))
    {
      ghost var p := Fields();
      ghost var i := AnalyzeInitializer(clause.initializer, Around(p), state);
      InitializerReady(clause.initializer, Around(p), state);
      Initialize(clause.initializer);
      OptionalReady(clause.condition, state, returnBorrow);
      c := CheckOptional(clause.condition, state);
      CheckOptionally(clause.condition);
      SteppedAfter(p, i, Straight(c));
      ExitNothing(p.loops);
    }

    method Initialize(initializer: Option<ForInitializer<Expression>>)
      requires Consistent() && Ready(state, returnBorrow)
      modifies this
      ensures Consistent()
      ensures Fields() == Stepped(old(Fields()), AnalyzeInitializer(initializer, Around(old(Fields())), old(state)))
    {
      SteppedQuietly(Fields(), state, true);
      if initializer.Some? {
        match initializer.value
        case InitializerLocal(local) => LocalDeclared(local);
        case InitializerExpression(e) =>
          var _ := CheckExpression(e, Read);
      }
    }

    method RangeFor(clause: ForClause<Expression>, body: OwnStatement)
      requires Consistent() && Ready(state, returnBorrow) && |state.scopes| > 0 && clause.Range?
      requires |loops| > 0 && loops[|loops| - 1] == LoopContext(|state.scopes|, [], [])
      modifies this
      ensures Consistent()
      ensures LoopStepped(old(Fields()), AnalyzeRange(clause, body, Around(old(Fields())), old(state)), Fields())
      decreases body, 7
    {
      ghost var p, x := Fields(), Around(Fields());
      ghost var c := RangeStart(clause.bindings, clause.iterable, clause.json, state).0;
      RangeStartReady(clause, state, returnBorrow);
      var loan := StartRange(clause);
      ExitNothing(p.loops);
      Loop(clause.bindings, body, None, None);
      LoopSteppedAfter(p, Straight(c), AnalyzeLoop(clause.bindings, body, None, None, x, c.state), Fields());
      if loan.Some? {
        state := Release(state, loan.value);
      }
    }

    method StartRange(clause: ForClause<Expression>) returns (loan: Option<Loan>)
      requires Consistent() && Ready(state, returnBorrow) && clause.Range?
      modifies this
      ensures Consistent()
      ensures var (c, held) := RangeStart(clause.bindings, clause.iterable, clause.json, old(state));
              loan == held && Fields() == Stepped(old(Fields()), Straight(c))
    {
      ghost var p := Fields();
      var moved, mutable := clause.iterable.kind.Move?, AnyMutableReference(clause.bindings);
      var usage := if moved || clause.json then Read else LoanUsage(mutable);
      if !clause.json && (AnyReference(clause.bindings) || !moved) {
        loan := BorrowFrom(clause.iterable, usage, mutable);
      } else {
        var _ := CheckExpression(clause.iterable, usage);
        loan := None;
        ghost var c := Check(clause.iterable, usage, p.state);
        assert c.reports + [] == c.reports;
      }
    }

    /** The two analysed iterations, and the ways out of the loop. */
    method Loop(
      bindings: seq<RangeBinding>, body: OwnStatement, update: Option<Expression>, condition: Option<Expression>)
      requires Consistent() && Ready(state, returnBorrow) && |state.scopes| > 0
      requires |loops| > 0 && loops[|loops| - 1] == LoopContext(|state.scopes|, [], [])
      modifies this
      ensures Consistent()
      ensures LoopStepped(
                old(Fields()),
                AnalyzeLoop(bindings, body, update, condition, Around(old(Fields())), old(state)),
                Fields())
      decreases body, 6
    {
      ghost var p, x := Fields(), Around(Fields());
      var baseline := state;
      ghost var first := Iterate(bindings, body, update, condition, x, state);
      ghost var second := SecondIteration(bindings, body, update, condition, x, first);
      var firstState, repeatedState := Iterations(bindings, body, update, condition);
      ghost var q := Fields();
      var exits := ExitStates(baseline, firstState, repeatedState, loops[|loops| - 1].breakStates);
      ExitStatesAreExits(baseline, first, second, loops[|loops| - 1].breakStates);
      state := MergeManyStates(baseline, exits);
      ExitsDecide(p, q, first, second, state);
    }

    method Iterations(
      bindings: seq<RangeBinding>, body: OwnStatement, update: Option<Expression>, condition: Option<Expression>)
      returns (firstState: Option<FlowState>, repeatedState: Option<FlowState>)
      requires Consistent() && Ready(state, returnBorrow) && |state.scopes| > 0
      requires |loops| > 0 && loops[|loops| - 1] == LoopContext(|state.scopes|, [], [])
      modifies this
      ensures Consistent()
      ensures var x := Around(old(Fields()));
              var first := Iterate(bindings, body, update, condition, x, old(state));
              var second := SecondIteration(bindings, body, update, condition, x, first);
              && firstState == first.next && repeatedState == second.next
              && TwiceStepped(old(Fields()), first, second, Fields())
      decreases body, 5
    {
      ghost var p, x := Fields(), Around(Fields());
      IterateReady(bindings, body, update, condition, x, state);
      ghost var first := Iterate(bindings, body, update, condition, x, state);
      firstState := RunIteration(bindings, body, update, condition);
      ghost var q := Fields();
      repeatedState := Repeat(firstState, bindings, body, update, condition);
      ContextExits(p, first, q, SecondIteration(bindings, body, update, condition, x, first), Fields());
    }

    /** The second analysed iteration, if the first one reaches its end. */
    method Repeat(
      firstState: Option<FlowState>, bindings: seq<RangeBinding>, body: OwnStatement, update: Option<Expression>,
      condition: Option<Expression>)
      returns (repeatedState: Option<FlowState>)
      requires Consistent() && |loops| > 0
      requires firstState.Some? ==>
                 Ready(firstState.value, returnBorrow) && |firstState.value.scopes| > 0
                 && loops[|loops| - 1].scopeDepth == |firstState.value.scopes|
      modifies this
      ensures Consistent()
      ensures var i := SecondIteration(
                bindings, body, update, condition, Around(old(Fields())), Iteration(firstState, [], [], []));
              repeatedState == i.next && IterationStepped(old(Fields()), i, Fields())
      decreases body, 4
    {
      NoIteration(Fields());
      if firstState.None? {
        return None;
      }
      state := firstState.value;
      repeatedState := RunIteration(bindings, body, update, condition);
    }

    method RunIteration(
      bindings: seq<RangeBinding>, body: OwnStatement, update: Option<Expression>, condition: Option<Expression>)
      returns (next: Option<FlowState>)
      requires Consistent() && Ready(state, returnBorrow) && |state.scopes| > 0
      requires |loops| > 0 && loops[|loops| - 1].scopeDepth == |state.scopes|
      modifies this
      ensures Consistent()
      ensures var i := Iterate(bindings, body, update, condition, Around(old(Fields())), old(state));
              next == i.next && IterationStepped(old(Fields()), i, Fields())
      decreases body, 3
    {
      ghost var p, x, depth := Fields(), Around(Fields()), |state.scopes|;
      ghost var o := Analyze(body, x, DeclareRange(bindings, x, PushScope(state)));
      var continuing := RunBody(bindings, body);
      if |continuing| == 0 {
        return None;
      }
      ghost var q := Fields();
      var ends := RunTails(continuing, update, condition);
      TailsNoted(p, o, q, update, condition, depth);
      var joined := MergeManyStates(continuing[0], ends);
      next := Some(joined);
    }

    /** One pass through the body, and the states that reach its end. */
    method RunBody(bindings: seq<RangeBinding>, body: OwnStatement) returns (continuing: seq<FlowState>)
      requires Consistent() && Ready(state, returnBorrow) && |state.scopes| > 0
      requires |loops| > 0 && loops[|loops| - 1].scopeDepth == |state.scopes|
      modifies this
      ensures Consistent()
      ensures var x, depth := Around(old(Fields())), |old(state).scopes|;
              var o := Analyze(body, x, DeclareRange(bindings, x, PushScope(old(state))));
              && continuing == TailStates(o, depth)
              && IterationStepped(
                   old(Fields()), Iteration(None, TruncateAll(o.breaks, depth), o.throws, o.reports), Fields())
      decreases body, 2
    {
      ghost var p := Fields();
      var last := |loops| - 1;
      var continueStart := |loops[last].continueStates|;
      EnterBody(bindings);
      ghost var o := Analyze(body, Around(p), state);
      var reachable := Statement(body);
      state := PopScope(state);
      ContinuesTaken(p, o, Fields());
      var context := loops[last];
      continuing := (if reachable then [state] else []) + context.continueStates[continueStart..];
      loops := loops[last := context.(continueStates := context.continueStates[..continueStart])];
    }

    method EnterBody(bindings: seq<RangeBinding>)
      requires Ready(state, returnBorrow)
      modifies this`state
      ensures state == DeclareRange(bindings, Around(old(Fields())), PushScope(old(state)))
      ensures Ready(state, returnBorrow) && |state.scopes| > 0
    {
      InsideReady(bindings, Around(Fields()), state);
      state := PushScope(state);
      DeclareBindings(bindings);
    }

    method DeclareBindings(bindings: seq<RangeBinding>)
      modifies this`state
      ensures state == DeclareRange(bindings, Around(old(Fields())), old(state))
    {
      assert bindings[0..] == bindings;
      for i := 0 to |bindings|
        invariant Around(Fields()) == Around(old(Fields()))
        invariant DeclareRange(bindings[i..], Around(Fields()), state)
               == DeclareRange(bindings, Around(old(Fields())), old(state))
      {
        assert bindings[i..][1..] == bindings[i + 1..];
        var b := bindings[i];
        state := Declare(state, b.name, b.ty, None, b.span, b.lastUse, loopDepth);
      }
    }

    /** Update and condition, from each state that reaches them. */
    method RunTails(states: seq<FlowState>, update: Option<Expression>, condition: Option<Expression>)
      returns (ends: seq<FlowState>)
      requires Consistent()
      modifies this
      ensures Consistent()
      ensures var (all, throws, reports) := CheckTails(update, condition, states);
              ends == all && Fields() == Stepped(old(Fields()), Outcome(old(state), true, [], [], throws, reports))
    {
      ghost var p := Fields();
      ends := [];
      ghost var done: Collected := ([], [], []);
      SteppedQuietly(p, state, true);
      assert states[0..] == states;
      JoinNothing(CheckTails(update, condition, states));
      var i := 0;
      while i < |states|
        invariant 0 <= i <= |states| && Consistent() && ends == done.0
        invariant JoinCollected(done, CheckTails(update, condition, states[i..]))
                  == CheckTails(update, condition, states)
        invariant Fields() == Stepped(p, SoFar(p.state, done))
      {
        assert states[i..][1..] == states[i + 1..];
        ghost var c := CheckTail(update, condition, states[i]);
        var end := RunTail(states[i], update, condition);
        NextCollected(p, p.state, done, c, CheckTails(update, condition, states[i + 1..]));
        ends := ends + [end];
        done := JoinCollected(done, ([c.state], c.throws, c.reports));
        i := i + 1;
      }
      JoinNothing(done);
    }

    method RunTail(start: FlowState, update: Option<Expression>, condition: Option<Expression>) returns (end: FlowState)
      requires Consistent()
      modifies this
      ensures Consistent() && end == CheckTail(update, condition, start).state
      ensures Fields() == Stepped(
                old(Fields()), Straight(CheckTail(update, condition, start)).(state := old(state)))
    {
      var saved := state;
      state := start;
      ghost var p := Fields();
      CheckOptionally(update);
      CheckOptionally(condition);
      ghost var u := CheckOptional(update, start);
      Continued(p, u, CheckOptional(condition, u.state));
      end := state;
      state := saved;
    }

    // ----- functions -----

    method Function(receiver: Option<Parameter>, parameters: seq<Parameter>, body: OwnBlock, byReference: bool)
      requires Consistent() && loops == [] && loopDepth == 0
      modifies this
      ensures Consistent() && loops == [] && loopDepth == 0 && exceptions == []
      ensures var x := Surroundings(0, byReference, ReturnBorrow(receiver, parameters, byReference));
              var o := AnalyzeFunction(AllParameters(receiver, parameters), body, x);
              state == o.state && diagnostics == Emit(old(diagnostics), o.reports)
    {
      var all := AllParameters(receiver, parameters);
      Declared(all);
      returnBorrow := ReturnBorrow(receiver, parameters, byReference);
      returnsReference := byReference;
      ParametersReady(all, returnBorrow);
      exceptions := [];
      var _ := Block(body, false);
      state := PopScope(state);
      returnBorrow := None;
      returnsReference := false;
    }

    method Declared(parameters: seq<Parameter>)
      requires loopDepth == 0
      modifies this`state
      ensures state == DeclareParameters(parameters, PushScope(EMPTY_STATE))
    {
      state := PushScope(EMPTY_STATE);
      assert parameters[0..] == parameters;
      for i := 0 to |parameters|
        invariant DeclareParameters(parameters[i..], state) == DeclareParameters(parameters, PushScope(EMPTY_STATE))
      {
        assert parameters[i..][1..] == parameters[i + 1..];
        var p := parameters[i];
        state := Declare(state, p.name, p.ty, None, p.span, p.lastUse, loopDepth);
      }
    }
  }
}
