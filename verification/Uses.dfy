/**
 What a function does with its bindings, in the order in which it is analysed: every use, move, loan and
 returned reference, in the state it happens in. The reports of the pass are the complaints about these
 events, one by one; and what draws a complaint is said in terms of the bindings and loans of that state.
 */
module Uses {
  import opened Wrappers
  import opened Ast
  import opened FlowStates
  import opened Ownership
  import opened LoanPoints

  /** `Borrows` names what is to be lent; `Lends` takes the loan. `Refills` assigns a whole variable. */
  datatype Manner = Reads | Writes | Refills | Moves | Borrows(mutable: bool) | Lends(mutable: bool)

  /** `Baseless`: a lasting loan on something that is no binding. */
  datatype Event =
    | Use(at: Point, id: nat, manner: Manner, span: Span)
    | Baseless(at: Point, span: Span)
    | Returned(at: Point, origin: Option<nat>, span: Span)

  predicate NeedsValue(manner: Manner) {
    !manner.Refills? && !manner.Lends?
  }

  predicate Exclusive(manner: Manner) {
    match manner
    case Reads => false
    case Borrows(mutable) => mutable
    case Lends(mutable) => mutable
    case _ => true
  }

  /** The complaint about a use of a binding. */
  function UseComplaint(b: Binding, manner: Manner, span: Span): seq<Report> {
    if NeedsValue(manner) && b.availability.Moved? then [Report("OWN001", span)]
    else if NeedsValue(manner) && b.availability.MaybeMoved? then [Report("OWN002", span)]
    else if b.mutablyBorrowed || (Exclusive(manner) && b.sharedBorrows > 0) then [Report("OWN003", span)]
    else []
  }

  /** `borrow`: the binding a returned reference has to come from. */
  function Complaint(event: Event, borrow: Option<nat>): seq<Report> {
    match event
    case Use(at, id, manner, span) =>
      if id < |at.state.bindings| then UseComplaint(at.state.bindings[id], manner, span) else []
    case Baseless(_, span) => [Report("OWN004", span)]
    case Returned(at, origin, span) =>
      if borrow.Some? && origin.Some? && RootOrigin(at.state, origin.value) == RootOrigin(at.state, borrow.value)
      then []
      else [Report("OWN005", span)]
  }

  function Complaints(events: seq<Event>, borrow: Option<nat>): seq<Report> {
    if |events| == 0 then [] else Complaint(events[0], borrow) + Complaints(events[1..], borrow)
  }

  // ----- the events of an expression -----

  function UseOf(id: Option<nat>, manner: Manner, at: Point, span: Span): seq<Event> {
    if id.Some? then [Use(at, id.value, manner, span)] else []
  }

  function MannerOf(usage: Usage): Manner {
    match usage
    case Read => Reads
    case Mutate => Writes
    case BorrowShared => Borrows(false)
    case BorrowMutable => Borrows(true)
  }

  function ExpressionEvents(e: Expression, usage: Usage, from: Point): seq<Event>
    decreases e, 1
  {
    match e.kind
    case Name(name) => UseOf(Lookup(from.state, name), MannerOf(usage), from, e.span)
    case Literal => []
    case Parenthesized(inner) => ExpressionEvents(inner, usage, from)
    case Operand(operand) => ExpressionEvents(operand, Read, from)
    case Increment(place) => ExpressionEvents(place, Mutate, from)
    case Field(whole) => ExpressionEvents(whole, usage, from)
    case Strict(left, right) => PairEvents(e, left, Read, right, Read, from)
    case Logical(left, right) => PairEvents(e, left, Read, right, Read, from)
    case Compound(target, right) => PairEvents(e, right, Read, target, Mutate, from)
    case Index(collection, index) => PairEvents(e, collection, usage, index, Read, from)
    case Assign(_, _, _, _) => AssignEvents(e, from)
    case Switch(_, _) => SwitchEvents(e, usage, from)
    case Call(_, _, _, _) => CallEvents(e, from)
    case Move(argument) => MoveEvents(argument, from, e.span)
    case Consume(_, _) => ConsumeEvents(e, from)
    case Aggregate(initializers) => ElementsEvents(initializers, true, from)
    case Construct(elements, _) => ElementsEvents(elements, false, from)
  }

  function PairEvents(
    e: Expression, first: Expression, firstUsage: Usage, second: Expression, secondUsage: Usage, from: Point)
    : seq<Event>
    requires first < e && second < e
    decreases e, 0
  {
    ExpressionEvents(first, firstUsage, from)
    + ExpressionEvents(second, secondUsage, Later(from, Check(first, firstUsage, from.state).state))
  }

  function AssignEvents(e: Expression, from: Point): seq<Event>
    requires e.kind.Assign?
    decreases e, 0
  {
    ExpressionEvents(e.kind.right, Read, from)
    + WriteEvents(e.kind.target, Later(from, Check(e.kind.right, Read, from.state).state))
  }

  /** A whole variable is refilled, a reference is written through. */
  function WriteEvents(target: Expression, from: Point): seq<Event>
    decreases target, 2
  {
    match target.kind
    case Parenthesized(inner) => WriteEvents(inner, from)
    case Name(name) =>
      var id := Lookup(from.state, name);
      var reference := id.Some? && id.value < |from.state.bindings| && from.state.bindings[id.value].ty.Reference?;
      UseOf(id, if reference then Writes else Refills, from, target.span)
    case _ => ExpressionEvents(target, Mutate, from)
  }

  function SwitchEvents(e: Expression, usage: Usage, from: Point): seq<Event>
    requires e.kind.Switch?
    decreases e, 0
  {
    ExpressionEvents(e.kind.scrutinee, Read, from)
    + ArmsEvents(e.kind.arms, usage, Later(from, Check(e.kind.scrutinee, Read, from.state).state))
  }

  function ArmsEvents(arms: seq<Expression>, usage: Usage, from: Point): seq<Event>
    decreases arms, 0
  {
    if |arms| == 0 then [] else ExpressionEvents(arms[0], usage, from) + ArmsEvents(arms[1..], usage, from)
  }

  /** Moving something copyable reads it. */
  function MoveEvents(argument: Expression, from: Point, span: Span): seq<Event> {
    var id := NamedBinding(argument, from.state);
    var copied :=
      id.Some? && id.value < |from.state.bindings| && from.state.bindings[id.value].ty.Owned?
      && from.state.bindings[id.value].ty.copyable;
    if copied then UseOf(id, Reads, from, argument.span) else UseOf(id, Moves, from, span)
  }

  function ConsumeEvents(e: Expression, from: Point): seq<Event>
    requires e.kind.Consume?
    decreases e, 0
  {
    var id := NamedBinding(e.kind.consumed, from.state);
    if id.Some? then UseOf(id, Moves, from, e.span) else ExpressionEvents(e.kind.consumed, Read, from)
  }

  function ElementsEvents(elements: seq<Element>, recorded: bool, from: Point): seq<Event>
    decreases elements, 0
  {
    if |elements| == 0 then []
    else
      ElementEvents(elements[0], from)
      + ElementsEvents(elements[1..], recorded, Later(from, CheckElement(elements[0], recorded, from.state).state))
  }

  function ElementEvents(element: Element, from: Point): seq<Event>
    decreases element, 0
  {
    ExpressionEvents(element.value, Read, from)
  }

  /** An operand, and the loan on it during the call. */
  function PassedEvents(value: Expression, passing: Passing, from: Point): seq<Event>
    decreases value, 2
  {
    match passing
    case ByValue => ExpressionEvents(value, Read, from)
    case ByShared =>
      var c := Check(value, BorrowShared, from.state);
      ExpressionEvents(value, BorrowShared, from) + UseOf(c.origin, Lends(false), Later(from, c.state), value.span)
    case ByMutable =>
      var c := Check(value, BorrowMutable, from.state);
      ExpressionEvents(value, BorrowMutable, from) + UseOf(c.origin, Lends(true), Later(from, c.state), value.span)
  }

  function ReceiverEvents(receiver: Option<Receiver>, from: Point): seq<Event>
    decreases receiver, 0
  {
    if receiver.None? then [] else PassedEvents(receiver.value.value, receiver.value.passing, from)
  }

  function ArgumentsEvents(arguments: seq<Argument>, from: Point): seq<Event>
    decreases arguments, 0
  {
    if |arguments| == 0 then []
    else
      ArgumentEvents(arguments[0], from)
      + ArgumentsEvents(arguments[1..], Loaned(from, CheckArgument(arguments[0], from.state)))
  }

  function ArgumentEvents(argument: Argument, from: Point): seq<Event>
    decreases argument, 0
  {
    PassedEvents(argument.value, argument.passing, from)
  }

  function CallEvents(e: Expression, from: Point): seq<Event>
    requires e.kind.Call?
    decreases e, 0
  {
    ReceiverEvents(e.kind.receiver, from)
    + ArgumentsEvents(e.kind.arguments, Loaned(from, CheckReceiver(e.kind.receiver, from.state)))
  }

  // ----- the events of a statement -----

  function OptionalEvents(e: Option<Expression>, from: Point): seq<Event> {
    if e.None? then [] else ExpressionEvents(e.value, Read, from)
  }

  predicate LastUsedWithin(lastUse: Option<Span>, span: Span) {
    lastUse.Some? && span.start <= lastUse.value.start && lastUse.value.end <= span.end
  }

  /** A lasting loan is one on what the named binding borrows from in the end, whose own loan may end. */
  function LoanEvents(origin: Option<nat>, mutable: bool, from: Point, span: Span): seq<Event> {
    if origin.None? then [Baseless(from, span)]
    else
      var ended :=
        if origin.value < |from.state.bindings| && LastUsedWithin(from.state.bindings[origin.value].lastUse, span)
        then EndReferenceLoan(from.state, origin.value)
        else from.state;
      [Use(Later(from, ended), RootOrigin(from.state, origin.value), Lends(mutable), span)]
  }

  /** References and guards borrow what they are initialized with. */
  function LocalEvents(local: LocalDeclaration<Expression>, from: Point): seq<Event> {
    if local.initializer.None? then []
    else
      var e := local.initializer.value;
      if local.ty.Owned? then ExpressionEvents(e, Read, from)
      else
        var mutable := local.ty.Reference? && local.ty.mutable;
        var usage := if mutable then BorrowMutable else BorrowShared;
        var c := Check(e, usage, from.state);
        ExpressionEvents(e, usage, from) + LoanEvents(c.origin, mutable, Later(from, c.state), e.span)
  }

  function ReturnEvents(value: Option<Expression>, x: Surroundings, from: Point): seq<Event> {
    if value.None? then []
    else if ReturnMoves(value.value, x, from.state) then
      UseOf(NamedBinding(value.value, from.state), Moves, from, value.value.span)
    else
      var c := Check(value.value, Read, from.state);
      ExpressionEvents(value.value, Read, from)
      + if x.returnsReference then [Returned(Later(from, c.state), c.origin, value.value.span)] else []
  }

  /** Nothing happens behind a statement that does not end. */
  function ListEvents(ss: seq<OwnStatement>, x: Surroundings, from: Point): seq<Event>
    decreases ss, 0
  {
    if |ss| == 0 then []
    else
      var first := AnalyzeFirst(ss[0], x, from.state);
      StatementEvents(ss[0], x, from)
      + if first.reachable then ListEvents(ss[1..], x, Later(from, first.state)) else []
  }

  function BlockEvents(b: OwnBlock, x: Surroundings, from: Point): seq<Event>
    decreases b, 0
  {
    ListEvents(b.statements, x, Later(from, PushScope(from.state)))
  }

  function BranchEvents(statement: OwnStatement, x: Surroundings, from: Point): seq<Event>
    decreases statement, 4
  {
    StatementEvents(statement, x, Later(from, PushScope(from.state)))
  }

  function StatementEvents(statement: OwnStatement, x: Surroundings, from: Point): seq<Event>
    decreases statement, 2
  {
    match statement.kind
    case BlockStatement(b) => BlockEvents(b, x, from)
    case Local(local) => LocalEvents(local, from)
    case Return(value) => ReturnEvents(value, x, from)
    case Throw(error) => OptionalEvents(error, from)
    case Try(_, _) => TryEvents(statement, x, from)
    case If(_, _, _) => IfEvents(statement, x, from)
    case While(_, _) => WhileEvents(statement, x, from)
    case For(_, _) => ForEvents(statement, x, from)
    case Expression(e) => ExpressionEvents(e, Read, from)
    case _ => []
  }

  function IfEvents(statement: OwnStatement, x: Surroundings, from: Point): seq<Event>
    requires statement.kind.If?
    decreases statement, 1
  {
    var branching := Later(from, Check(statement.kind.condition, Read, from.state).state);
    ExpressionEvents(statement.kind.condition, Read, from)
    + (BranchEvents(statement.kind.thenBranch, x, branching)
       + if statement.kind.elseBranch.Some? then BranchEvents(statement.kind.elseBranch.value, x, branching) else [])
  }

  function TryEvents(statement: OwnStatement, x: Surroundings, from: Point): seq<Event>
    requires statement.kind.Try?
    decreases statement, 1
  {
    var g := AnalyzeBlock(statement.kind.guarded, x, from.state);
    BlockEvents(statement.kind.guarded, x, from)
    + HandlersEvents(statement.kind.catches, x, Later(from, CatchBaseline(from.state, g.throws)))
  }

  function HandlersEvents(catches: seq<OwnCatch>, x: Surroundings, from: Point): seq<Event>
    decreases catches, 0
  {
    if |catches| == 0 then [] else HandlerEvents(catches[0], x, from) + HandlersEvents(catches[1..], x, from)
  }

  function HandlerEvents(clause: OwnCatch, x: Surroundings, from: Point): seq<Event>
    decreases clause, 0
  {
    BodyEvents(clause.body, x, Later(from, DeclareCatch(clause.binding, x, PushScope(from.state))))
  }

  function BodyEvents(b: OwnBlock, x: Surroundings, from: Point): seq<Event>
    decreases b, 0
  {
    ListEvents(b.statements, x, from)
  }

  // ----- the events of a loop -----

  function WhileEvents(statement: OwnStatement, x: Surroundings, from: Point): seq<Event>
    requires statement.kind.While?
    decreases statement, 1
  {
    var condition, body := statement.kind.condition, statement.kind.body;
    var inside := Later(from, PushScope(from.state));
    ExpressionEvents(condition, Read, inside)
    + LoopEvents(
        [], body, None, Some(condition), InLoop(x), Later(inside, Check(condition, Read, inside.state).state))
  }

  function ForEvents(statement: OwnStatement, x: Surroundings, from: Point): seq<Event>
    requires statement.kind.For?
    decreases statement, 1
  {
    var clause, body := statement.kind.clause, statement.kind.body;
    var inside := Later(from, PushScope(from.state));
    if clause.Classic? then ClassicEvents(clause, body, InLoop(x), inside)
    else RangeEvents(clause, body, InLoop(x), inside)
  }

  function InitializerEvents(initializer: Option<ForInitializer<Expression>>, from: Point): seq<Event> {
    if initializer.None? then []
    else match initializer.value
      case InitializerLocal(local) => LocalEvents(local, from)
      case InitializerExpression(e) => ExpressionEvents(e, Read, from)
  }

  function ClassicEvents(clause: ForClause<Expression>, body: OwnStatement, x: Surroundings, from: Point): seq<Event>
    requires clause.Classic?
    decreases body, 6
  {
    var ready := Later(from, AnalyzeInitializer(clause.initializer, x, from.state).state);
    var c := CheckOptional(clause.condition, ready.state);
    InitializerEvents(clause.initializer, from)
    + (OptionalEvents(clause.condition, ready)
       + LoopEvents([], body, clause.update, clause.condition, x, Later(ready, c.state)))
  }

  /** A range that is neither JSON nor moved into the loop is borrowed, as are the elements of one. */
  function RangeEvents(clause: ForClause<Expression>, body: OwnStatement, x: Surroundings, from: Point): seq<Event>
    requires clause.Range?
    decreases body, 6
  {
    var (c, loan) := RangeStart(clause.bindings, clause.iterable, clause.json, from.state);
    IterableEvents(clause.bindings, clause.iterable, clause.json, from)
    + LoopEvents(clause.bindings, body, None, None, x, Point(c.state, from.held + Taken(loan)))
  }

  function IterableEvents(bindings: seq<RangeBinding>, iterable: Expression, json: bool, from: Point): seq<Event> {
    var byReference := exists i :: 0 <= i < |bindings| && bindings[i].ty.Reference?;
    var mutable := exists i :: 0 <= i < |bindings| && bindings[i].ty.Reference? && bindings[i].ty.mutable;
    var usage :=
      if iterable.kind.Move? || json then Read else if mutable then BorrowMutable else BorrowShared;
    var c := Check(iterable, usage, from.state);
    ExpressionEvents(iterable, usage, from)
    + if json || (iterable.kind.Move? && !byReference) then []
      else LoanEvents(c.origin, mutable, Later(from, c.state), iterable.span)
  }

  /** Two iterations, the second one only if the first can reach it. */
  function LoopEvents(
    bindings: seq<RangeBinding>, body: OwnStatement, update: Option<Expression>, condition: Option<Expression>,
    x: Surroundings, from: Point): seq<Event>
    decreases body, 5
  {
    var next := Iterate(bindings, body, update, condition, x, from.state).next;
    IterationEvents(bindings, body, update, condition, x, from)
    + if next.Some? then IterationEvents(bindings, body, update, condition, x, Later(from, next.value)) else []
  }

  function IterationEvents(
    bindings: seq<RangeBinding>, body: OwnStatement, update: Option<Expression>, condition: Option<Expression>,
    x: Surroundings, from: Point): seq<Event>
    decreases body, 3
  {
    var inside := Later(from, DeclareRange(bindings, x, PushScope(from.state)));
    StatementEvents(body, x, inside)
    + TailsEvents(update, condition, TailStates(Analyze(body, x, inside.state), |from.state.scopes|), from)
  }

  function TailsEvents(
    update: Option<Expression>, condition: Option<Expression>, states: seq<FlowState>, from: Point): seq<Event>
  {
    if |states| == 0 then []
    else
      TailEvents(update, condition, Later(from, states[0])) + TailsEvents(update, condition, states[1..], from)
  }

  function TailEvents(update: Option<Expression>, condition: Option<Expression>, from: Point): seq<Event> {
    OptionalEvents(update, from)
    + OptionalEvents(condition, Later(from, CheckOptional(update, from.state).state))
  }

  function FunctionEvents(parameters: seq<Parameter>, body: OwnBlock, x: Surroundings): seq<Event> {
    BodyEvents(body, x, Point(DeclareParameters(parameters, PushScope(EMPTY_STATE)), multiset{}))
  }

  // ----- the reports are the complaints -----

  lemma {:induction false} ComplaintsAppend(a: seq<Event>, b: seq<Event>, borrow: Option<nat>)
    ensures Complaints(a + b, borrow) == Complaints(a, borrow) + Complaints(b, borrow)
    decreases |a|
  {
    if |a| == 0 {
      assert a + b == b;
    } else {
      ComplaintsAppend(a[1..], b, borrow);
      assert (a + b)[1..] == a[1..] + b;
      JoinedThree(Complaint(a[0], borrow), Complaints(a[1..], borrow), Complaints(b, borrow));
    }
  }

  lemma JoinedThree<T>(a: seq<T>, b: seq<T>, c: seq<T>)
    ensures a + b + c == a + (b + c)
  {
  }

  lemma NothingMore<T>(a: seq<T>)
    ensures a + [] == a
  {
  }

  lemma OneComplaint(event: Event, borrow: Option<nat>)
    ensures Complaints([event], borrow) == Complaint(event, borrow)
  {
    var none: seq<Event> := [];
    assert [event][1..] == none;
  }

  lemma UseReported(s: FlowState, id: nat, usage: Usage, span: Span, at: Point, borrow: Option<nat>)
    requires at.state == s
    ensures Complaints(UseOf(Some(id), MannerOf(usage), at, span), borrow) == CheckUsage(s, id, usage, span)
  {
    OneComplaint(Use(at, id, MannerOf(usage), span), borrow);
  }

  lemma MoveReported(s: FlowState, id: nat, span: Span, at: Point, borrow: Option<nat>)
    requires at.state == s
    ensures Complaints(UseOf(Some(id), Moves, at, span), borrow) == CheckUsage(s, id, Mutate, span)
  {
    OneComplaint(Use(at, id, Moves, span), borrow);
  }

  lemma LentReported(s: FlowState, id: nat, mutable: bool, span: Span, at: Point, borrow: Option<nat>)
    requires at.state == s
    ensures Complaints([Use(at, id, Lends(mutable), span)], borrow)
         == CheckBorrow(s, id, if mutable then BorrowMutable else BorrowShared, span)
  {
    OneComplaint(Use(at, id, Lends(mutable), span), borrow);
  }

  lemma {:induction false} ExpressionReported(e: Expression, usage: Usage, from: Point, borrow: Option<nat>)
    ensures Check(e, usage, from.state).reports == Complaints(ExpressionEvents(e, usage, from), borrow)
    decreases e, 1
  {
    if e.kind.Name? {
      if Lookup(from.state, e.kind.name).Some? {
        UseReported(from.state, Lookup(from.state, e.kind.name).value, usage, e.span, from, borrow);
      }
    } else if e.kind.Parenthesized? {
      ExpressionReported(e.kind.inner, usage, from, borrow);
    } else if e.kind.Operand? {
      ExpressionReported(e.kind.operand, Read, from, borrow);
    } else if e.kind.Increment? {
      ExpressionReported(e.kind.place, Mutate, from, borrow);
    } else if e.kind.Field? {
      ExpressionReported(e.kind.whole, usage, from, borrow);
    } else if e.kind.Strict? {
      PairReported(e, e.kind.left, Read, e.kind.right, Read, from, borrow);
    } else if e.kind.Compound? {
      PairReported(e, e.kind.right, Read, e.kind.target, Mutate, from, borrow);
    } else if e.kind.Index? {
      PairReported(e, e.kind.collection, usage, e.kind.index, Read, from, borrow);
    } else if e.kind.Logical? {
      PairReported(e, e.kind.left, Read, e.kind.right, Read, from, borrow);
    } else if e.kind.Assign? {
      AssignReported(e, from, borrow);
    } else if e.kind.Switch? {
      SwitchReported(e, usage, from, borrow);
    } else if e.kind.Call? {
      CallReported(e, from, borrow);
    } else if e.kind.Move? {
      MovedReported(e, from, borrow);
    } else if e.kind.Consume? {
      ConsumedReported(e, from, borrow);
    } else if e.kind.Aggregate? {
      ElementsReported(e.kind.initializers, true, from, borrow);
    } else if e.kind.Construct? {
      ElementsReported(e.kind.elements, false, from, borrow);
    }
  }

  lemma {:induction false} PairReported(
    e: Expression, first: Expression, firstUsage: Usage, second: Expression, secondUsage: Usage, from: Point,
    borrow: Option<nat>)
    requires first < e && second < e
    ensures CheckPair(e, first, firstUsage, second, secondUsage, from.state).reports
         == Complaints(PairEvents(e, first, firstUsage, second, secondUsage, from), borrow)
    decreases e, 0, 0
  {
    var between := Later(from, Check(first, firstUsage, from.state).state);
    ExpressionReported(first, firstUsage, from, borrow);
    ExpressionReported(second, secondUsage, between, borrow);
    ComplaintsAppend(
      ExpressionEvents(first, firstUsage, from), ExpressionEvents(second, secondUsage, between), borrow);
  }

  lemma {:induction false} AssignReported(e: Expression, from: Point, borrow: Option<nat>)
    requires e.kind.Assign?
    ensures CheckAssignment(e, from.state).reports == Complaints(AssignEvents(e, from), borrow)
    decreases e, 0
  {
    var between := Later(from, Check(e.kind.right, Read, from.state).state);
    ExpressionReported(e.kind.right, Read, from, borrow);
    WriteReported(e.kind.target, between, borrow);
    ComplaintsAppend(ExpressionEvents(e.kind.right, Read, from), WriteEvents(e.kind.target, between), borrow);
  }

  lemma {:induction false} WriteReported(target: Expression, from: Point, borrow: Option<nat>)
    ensures Write(target, from.state).reports == Complaints(WriteEvents(target, from), borrow)
    decreases target, 2
  {
    if target.kind.Parenthesized? {
      WriteReported(target.kind.inner, from, borrow);
    } else if target.kind.Name? {
      var id := Lookup(from.state, target.kind.name);
      if id.Some? {
        UseReported(from.state, id.value, Mutate, target.span, from, borrow);
        OneComplaint(Use(from, id.value, Refills, target.span), borrow);
      }
    } else {
      ExpressionReported(target, Mutate, from, borrow);
    }
  }

  lemma {:induction false} SwitchReported(e: Expression, usage: Usage, from: Point, borrow: Option<nat>)
    requires e.kind.Switch?
    ensures CheckChoice(e, usage, from.state).reports == Complaints(SwitchEvents(e, usage, from), borrow)
    decreases e, 0
  {
    var between := Later(from, Check(e.kind.scrutinee, Read, from.state).state);
    ExpressionReported(e.kind.scrutinee, Read, from, borrow);
    ArmsReported(e.kind.arms, usage, between, borrow);
    ComplaintsAppend(
      ExpressionEvents(e.kind.scrutinee, Read, from), ArmsEvents(e.kind.arms, usage, between), borrow);
  }

  lemma {:induction false} ArmsReported(arms: seq<Expression>, usage: Usage, from: Point, borrow: Option<nat>)
    ensures CheckArms(arms, usage, from.state).2 == Complaints(ArmsEvents(arms, usage, from), borrow)
    decreases arms, 0
  {
    if |arms| > 0 {
      ExpressionReported(arms[0], usage, from, borrow);
      ArmsReported(arms[1..], usage, from, borrow);
      ComplaintsAppend(ExpressionEvents(arms[0], usage, from), ArmsEvents(arms[1..], usage, from), borrow);
    }
  }

  lemma MovedReported(e: Expression, from: Point, borrow: Option<nat>)
    requires e.kind.Move?
    ensures CheckMoved(e, e.kind.argument, from.state).reports
         == Complaints(MoveEvents(e.kind.argument, from, e.span), borrow)
  {
    var id := NamedBinding(e.kind.argument, from.state);
    if id.Some? {
      UseReported(from.state, id.value, Read, e.kind.argument.span, from, borrow);
      MoveReported(from.state, id.value, e.span, from, borrow);
    }
  }

  lemma {:induction false} ConsumedReported(e: Expression, from: Point, borrow: Option<nat>)
    requires e.kind.Consume?
    ensures CheckConsumed(e, from.state).reports == Complaints(ConsumeEvents(e, from), borrow)
    decreases e, 0
  {
    var id := NamedBinding(e.kind.consumed, from.state);
    if id.Some? {
      MoveReported(from.state, id.value, e.span, from, borrow);
    } else {
      ExpressionReported(e.kind.consumed, Read, from, borrow);
    }
  }

  lemma {:induction false} ElementsReported(
    elements: seq<Element>, recorded: bool, from: Point, borrow: Option<nat>)
    ensures CheckElements(elements, recorded, from.state).reports
         == Complaints(ElementsEvents(elements, recorded, from), borrow)
    decreases elements, 0
  {
    if |elements| > 0 {
      var between := Later(from, CheckElement(elements[0], recorded, from.state).state);
      ElementReported(elements[0], recorded, from, borrow);
      ElementsReported(elements[1..], recorded, between, borrow);
      ComplaintsAppend(
        ElementEvents(elements[0], from), ElementsEvents(elements[1..], recorded, between), borrow);
    }
  }

  lemma {:induction false} ElementReported(element: Element, recorded: bool, from: Point, borrow: Option<nat>)
    ensures CheckElement(element, recorded, from.state).reports == Complaints(ElementEvents(element, from), borrow)
    decreases element, 0
  {
    ExpressionReported(element.value, Read, from, borrow);
  }

  lemma {:induction false} PassedReported(value: Expression, passing: Passing, from: Point, borrow: Option<nat>)
    ensures CheckPassed(value, passing, from.state).reports == Complaints(PassedEvents(value, passing, from), borrow)
    decreases value, 2
  {
    var usage := if passing.ByValue? then Read else if passing.ByShared? then BorrowShared else BorrowMutable;
    ExpressionReported(value, usage, from, borrow);
    var c := Check(value, usage, from.state);
    if !passing.ByValue? {
      var lent := UseOf(c.origin, Lends(passing.ByMutable?), Later(from, c.state), value.span);
      ComplaintsAppend(ExpressionEvents(value, usage, from), lent, borrow);
      if c.origin.Some? {
        LentReported(c.state, c.origin.value, passing.ByMutable?, value.span, Later(from, c.state), borrow);
      }
    }
  }

  lemma {:induction false} ArgumentsReported(arguments: seq<Argument>, from: Point, borrow: Option<nat>)
    ensures CheckArguments(arguments, from.state).reports == Complaints(ArgumentsEvents(arguments, from), borrow)
    decreases arguments, 0
  {
    if |arguments| > 0 {
      var between := Loaned(from, CheckArgument(arguments[0], from.state));
      ArgumentReported(arguments[0], from, borrow);
      ArgumentsReported(arguments[1..], between, borrow);
      ComplaintsAppend(ArgumentEvents(arguments[0], from), ArgumentsEvents(arguments[1..], between), borrow);
    }
  }

  lemma {:induction false} ArgumentReported(argument: Argument, from: Point, borrow: Option<nat>)
    ensures CheckArgument(argument, from.state).reports == Complaints(ArgumentEvents(argument, from), borrow)
    decreases argument, 0
  {
    PassedReported(argument.value, argument.passing, from, borrow);
  }

  lemma {:induction false} ReceiverReported(receiver: Option<Receiver>, from: Point, borrow: Option<nat>)
    ensures CheckReceiver(receiver, from.state).reports == Complaints(ReceiverEvents(receiver, from), borrow)
    decreases receiver, 0
  {
    if receiver.Some? {
      PassedReported(receiver.value.value, receiver.value.passing, from, borrow);
    }
  }

  lemma {:induction false} CallReported(e: Expression, from: Point, borrow: Option<nat>)
    requires e.kind.Call?
    ensures CheckCall(e, from.state).reports == Complaints(CallEvents(e, from), borrow)
    decreases e, 0
  {
    var between := Loaned(from, CheckReceiver(e.kind.receiver, from.state));
    ReceiverReported(e.kind.receiver, from, borrow);
    ArgumentsReported(e.kind.arguments, between, borrow);
    ComplaintsAppend(ReceiverEvents(e.kind.receiver, from), ArgumentsEvents(e.kind.arguments, between), borrow);
  }

  lemma OptionalReported(e: Option<Expression>, from: Point, borrow: Option<nat>)
    ensures CheckOptional(e, from.state).reports == Complaints(OptionalEvents(e, from), borrow)
  {
    if e.Some? {
      ExpressionReported(e.value, Read, from, borrow);
    }
  }

  lemma LoanReported(origin: Option<nat>, mutable: bool, from: Point, span: Span, borrow: Option<nat>)
    ensures AcquirePersistent(from.state, origin, mutable, span).2
         == Complaints(LoanEvents(origin, mutable, from, span), borrow)
  {
    OneComplaint(LoanEvents(origin, mutable, from, span)[0], borrow);
  }

  lemma LocalReported(local: LocalDeclaration<Expression>, x: Surroundings, from: Point, borrow: Option<nat>)
    ensures AnalyzeLocal(local, x, from.state).reports == Complaints(LocalEvents(local, from), borrow)
  {
    if local.initializer.Some? {
      var e := local.initializer.value;
      if local.ty.Owned? {
        ExpressionReported(e, Read, from, borrow);
      } else {
        var mutable := local.ty.Reference? && local.ty.mutable;
        var usage := if mutable then BorrowMutable else BorrowShared;
        var c := Check(e, usage, from.state);
        ExpressionReported(e, usage, from, borrow);
        LoanReported(c.origin, mutable, Later(from, c.state), e.span, borrow);
        ComplaintsAppend(
          ExpressionEvents(e, usage, from), LoanEvents(c.origin, mutable, Later(from, c.state), e.span), borrow);
      }
    }
  }

  lemma ReturnReported(value: Option<Expression>, x: Surroundings, from: Point)
    ensures AnalyzeReturn(value, x, from.state).reports == Complaints(ReturnEvents(value, x, from), x.returnBorrow)
  {
    if value.Some? {
      var e := value.value;
      if ReturnMoves(e, x, from.state) {
        MoveReported(from.state, NamedBinding(e, from.state).value, e.span, from, x.returnBorrow);
      } else {
        var c := Check(e, Read, from.state);
        ExpressionReported(e, Read, from, x.returnBorrow);
        NothingMore(c.reports);
        NothingMore(ExpressionEvents(e, Read, from));
        if x.returnsReference {
          var returned := Returned(Later(from, c.state), c.origin, e.span);
          OneComplaint(returned, x.returnBorrow);
          ComplaintsAppend(ExpressionEvents(e, Read, from), [returned], x.returnBorrow);
        }
      }
    }
  }

  // ----- statements -----

  lemma {:induction false} ListReported(ss: seq<OwnStatement>, x: Surroundings, from: Point)
    ensures AnalyzeList(ss, x, from.state).reports == Complaints(ListEvents(ss, x, from), x.returnBorrow)
    decreases ss, 0
  {
    if |ss| > 0 {
      var first := AnalyzeFirst(ss[0], x, from.state);
      var between := Later(from, first.state);
      StatementReported(ss[0], x, from);
      NothingMore(StatementEvents(ss[0], x, from));
      if first.reachable {
        ListReported(ss[1..], x, between);
        ComplaintsAppend(StatementEvents(ss[0], x, from), ListEvents(ss[1..], x, between), x.returnBorrow);
      }
    }
  }

  lemma {:induction false} BlockReported(b: OwnBlock, x: Surroundings, from: Point)
    ensures AnalyzeBlock(b, x, from.state).reports == Complaints(BlockEvents(b, x, from), x.returnBorrow)
    decreases b, 0
  {
    ListReported(b.statements, x, Later(from, PushScope(from.state)));
  }

  lemma {:induction false} BranchReported(statement: OwnStatement, x: Surroundings, from: Point)
    ensures AnalyzeBranch(statement, x, from.state).reports
         == Complaints(BranchEvents(statement, x, from), x.returnBorrow)
    decreases statement, 4
  {
    StatementReported(statement, x, Later(from, PushScope(from.state)));
  }

  lemma {:induction false} StatementReported(statement: OwnStatement, x: Surroundings, from: Point)
    ensures Analyze(statement, x, from.state).reports
         == Complaints(StatementEvents(statement, x, from), x.returnBorrow)
    decreases statement, 2
  {
    if statement.kind.BlockStatement? {
      BlockReported(statement.kind.block, x, from);
    } else if statement.kind.Local? {
      LocalReported(statement.kind.local, x, from, x.returnBorrow);
    } else if statement.kind.Return? {
      ReturnReported(statement.kind.value, x, from);
    } else if statement.kind.Throw? {
      OptionalReported(statement.kind.error, from, x.returnBorrow);
    } else if statement.kind.Try? {
      TryReported(statement, x, from);
    } else if statement.kind.If? {
      IfReported(statement, x, from);
    } else if statement.kind.While? {
      WhileReported(statement, x, from);
    } else if statement.kind.For? {
      ForReported(statement, x, from);
    } else if statement.kind.Expression? {
      ExpressionReported(statement.kind.expression, Read, from, x.returnBorrow);
    }
  }

  lemma {:induction false} IfReported(statement: OwnStatement, x: Surroundings, from: Point)
    requires statement.kind.If?
    ensures AnalyzeIf(statement, x, from.state).reports == Complaints(IfEvents(statement, x, from), x.returnBorrow)
    decreases statement, 1
  {
    var branching := Later(from, Check(statement.kind.condition, Read, from.state).state);
    var yes, no := statement.kind.thenBranch, statement.kind.elseBranch;
    var elseEvents := if no.Some? then BranchEvents(no.value, x, branching) else [];
    ExpressionReported(statement.kind.condition, Read, from, x.returnBorrow);
    BranchReported(yes, x, branching);
    if no.Some? {
      BranchReported(no.value, x, branching);
    }
    ComplaintsAppend(BranchEvents(yes, x, branching), elseEvents, x.returnBorrow);
    ComplaintsAppend(
      ExpressionEvents(statement.kind.condition, Read, from), BranchEvents(yes, x, branching) + elseEvents,
      x.returnBorrow);
  }

  lemma {:induction false} TryReported(statement: OwnStatement, x: Surroundings, from: Point)
    requires statement.kind.Try?
    ensures AnalyzeTry(statement, x, from.state).reports == Complaints(TryEvents(statement, x, from), x.returnBorrow)
    decreases statement, 1
  {
    var g := AnalyzeBlock(statement.kind.guarded, x, from.state);
    var handling := Later(from, CatchBaseline(from.state, g.throws));
    BlockReported(statement.kind.guarded, x, from);
    HandlersReported(statement.kind.catches, x, handling);
    ComplaintsAppend(
      BlockEvents(statement.kind.guarded, x, from), HandlersEvents(statement.kind.catches, x, handling),
      x.returnBorrow);
  }

  lemma {:induction false} HandlersReported(catches: seq<OwnCatch>, x: Surroundings, from: Point)
    ensures AnalyzeCatches(catches, x, from.state).1.reports
         == Complaints(HandlersEvents(catches, x, from), x.returnBorrow)
    decreases catches, 0
  {
    if |catches| > 0 {
      HandlerReported(catches[0], x, from);
      HandlersReported(catches[1..], x, from);
      ComplaintsAppend(HandlerEvents(catches[0], x, from), HandlersEvents(catches[1..], x, from), x.returnBorrow);
    }
  }

  lemma {:induction false} HandlerReported(clause: OwnCatch, x: Surroundings, from: Point)
    ensures AnalyzeHandler(clause, x, from.state).reports == Complaints(HandlerEvents(clause, x, from), x.returnBorrow)
    decreases clause, 0
  {
    BodyReported(clause.body, x, Later(from, DeclareCatch(clause.binding, x, PushScope(from.state))));
  }

  lemma {:induction false} BodyReported(b: OwnBlock, x: Surroundings, from: Point)
    ensures AnalyzeBody(b, x, from.state).reports == Complaints(BodyEvents(b, x, from), x.returnBorrow)
    decreases b, 0
  {
    ListReported(b.statements, x, from);
  }

  // ----- loops -----

  lemma {:induction false} WhileReported(statement: OwnStatement, x: Surroundings, from: Point)
    requires statement.kind.While?
    ensures AnalyzeWhile(statement, x, from.state).reports
         == Complaints(WhileEvents(statement, x, from), x.returnBorrow)
    decreases statement, 1
  {
    var condition, body := statement.kind.condition, statement.kind.body;
    var inside := Later(from, PushScope(from.state));
    var looping := Later(inside, Check(condition, Read, inside.state).state);
    ExpressionReported(condition, Read, inside, x.returnBorrow);
    LoopReported([], body, None, Some(condition), InLoop(x), looping);
    ComplaintsAppend(
      ExpressionEvents(condition, Read, inside), LoopEvents([], body, None, Some(condition), InLoop(x), looping),
      x.returnBorrow);
  }

  lemma {:induction false} ForReported(statement: OwnStatement, x: Surroundings, from: Point)
    requires statement.kind.For?
    ensures AnalyzeForStatement(statement, x, from.state).reports
         == Complaints(ForEvents(statement, x, from), x.returnBorrow)
    decreases statement, 1
  {
    var inside := Later(from, PushScope(from.state));
    if statement.kind.clause.Classic? {
      ClassicReported(statement.kind.clause, statement.kind.body, InLoop(x), inside);
    } else {
      RangeReported(statement.kind.clause, statement.kind.body, InLoop(x), inside);
    }
  }

  lemma InitializerReported(
    initializer: Option<ForInitializer<Expression>>, x: Surroundings, from: Point, borrow: Option<nat>)
    ensures AnalyzeInitializer(initializer, x, from.state).reports
         == Complaints(InitializerEvents(initializer, from), borrow)
  {
    if initializer.Some? {
      match initializer.value
      case InitializerLocal(local) => LocalReported(local, x, from, borrow);
      case InitializerExpression(e) => ExpressionReported(e, Read, from, borrow);
    }
  }

  lemma {:induction false} ClassicReported(
    clause: ForClause<Expression>, body: OwnStatement, x: Surroundings, from: Point)
    requires clause.Classic?
    ensures AnalyzeClassic(clause, body, x, from.state).reports
         == Complaints(ClassicEvents(clause, body, x, from), x.returnBorrow)
    decreases body, 6
  {
    var i := AnalyzeInitializer(clause.initializer, x, from.state);
    var ready := Later(from, i.state);
    var c := CheckOptional(clause.condition, ready.state);
    var looping := Later(ready, c.state);
    var loop := LoopEvents([], body, clause.update, clause.condition, x, looping);
    InitializerReported(clause.initializer, x, from, x.returnBorrow);
    OptionalReported(clause.condition, ready, x.returnBorrow);
    LoopReported([], body, clause.update, clause.condition, x, looping);
    ComplaintsAppend(OptionalEvents(clause.condition, ready), loop, x.returnBorrow);
    ComplaintsAppend(
      InitializerEvents(clause.initializer, from), OptionalEvents(clause.condition, ready) + loop, x.returnBorrow);
    JoinedThree(i.reports, c.reports, AnalyzeLoop([], body, clause.update, clause.condition, x, c.state).reports);
  }

  lemma RangeStartReports(bindings: seq<RangeBinding>, iterable: Expression, json: bool, s: FlowState)
    ensures var c := Check(iterable, RangeUsage(bindings, iterable, json), s);
            RangeStart(bindings, iterable, json, s).0.reports
            == c.reports
               + if !json && (AnyReference(bindings) || !iterable.kind.Move?)
                 then AcquirePersistent(c.state, c.origin, AnyMutableReference(bindings), iterable.span).2
                 else []
  {
  }

  lemma IterableReported(
    bindings: seq<RangeBinding>, iterable: Expression, json: bool, from: Point, borrow: Option<nat>)
    ensures RangeStart(bindings, iterable, json, from.state).0.reports
         == Complaints(IterableEvents(bindings, iterable, json, from), borrow)
  {
    var mutable, usage := AnyMutableReference(bindings), RangeUsage(bindings, iterable, json);
    var c := Check(iterable, usage, from.state);
    var reading := ExpressionEvents(iterable, usage, from);
    var lending := LoanEvents(c.origin, mutable, Later(from, c.state), iterable.span);
    RangeStartReports(bindings, iterable, json, from.state);
    ExpressionReported(iterable, usage, from, borrow);
    LoanReported(c.origin, mutable, Later(from, c.state), iterable.span, borrow);
    ComplaintsAppend(reading, lending, borrow);
    NothingMore(reading);
    NothingMore(c.reports);
    IterableEventsAre(bindings, iterable, json, from);
  }

  lemma IterableEventsAre(bindings: seq<RangeBinding>, iterable: Expression, json: bool, from: Point)
    ensures var mutable, usage := AnyMutableReference(bindings), RangeUsage(bindings, iterable, json);
            var c := Check(iterable, usage, from.state);
            IterableEvents(bindings, iterable, json, from)
            == ExpressionEvents(iterable, usage, from)
               + if !json && (AnyReference(bindings) || !iterable.kind.Move?)
                 then LoanEvents(c.origin, mutable, Later(from, c.state), iterable.span)
                 else []
  {
  }

  lemma {:induction false} RangeReported(
    clause: ForClause<Expression>, body: OwnStatement, x: Surroundings, from: Point)
    requires clause.Range?
    ensures AnalyzeRange(clause, body, x, from.state).reports
         == Complaints(RangeEvents(clause, body, x, from), x.returnBorrow)
    decreases body, 6
  {
    var (c, loan) := RangeStart(clause.bindings, clause.iterable, clause.json, from.state);
    var looping := Point(c.state, from.held + Taken(loan));
    IterableReported(clause.bindings, clause.iterable, clause.json, from, x.returnBorrow);
    LoopReported(clause.bindings, body, None, None, x, looping);
    ComplaintsAppend(
      IterableEvents(clause.bindings, clause.iterable, clause.json, from),
      LoopEvents(clause.bindings, body, None, None, x, looping), x.returnBorrow);
  }

  lemma {:induction false} LoopReported(
    bindings: seq<RangeBinding>, body: OwnStatement, update: Option<Expression>, condition: Option<Expression>,
    x: Surroundings, from: Point)
    ensures AnalyzeLoop(bindings, body, update, condition, x, from.state).reports
         == Complaints(LoopEvents(bindings, body, update, condition, x, from), x.returnBorrow)
    decreases body, 5
  {
    var next := Iterate(bindings, body, update, condition, x, from.state).next;
    IterationReported(bindings, body, update, condition, x, from);
    NothingMore(IterationEvents(bindings, body, update, condition, x, from));
    NothingMore(Iterate(bindings, body, update, condition, x, from.state).reports);
    if next.Some? {
      IterationReported(bindings, body, update, condition, x, Later(from, next.value));
      ComplaintsAppend(
        IterationEvents(bindings, body, update, condition, x, from),
        IterationEvents(bindings, body, update, condition, x, Later(from, next.value)), x.returnBorrow);
    }
  }

  lemma {:induction false} IterationReported(
    bindings: seq<RangeBinding>, body: OwnStatement, update: Option<Expression>, condition: Option<Expression>,
    x: Surroundings, from: Point)
    ensures Iterate(bindings, body, update, condition, x, from.state).reports
         == Complaints(IterationEvents(bindings, body, update, condition, x, from), x.returnBorrow)
    decreases body, 3
  {
    var inside := Later(from, DeclareRange(bindings, x, PushScope(from.state)));
    var o := Analyze(body, x, inside.state);
    var states := TailStates(o, |from.state.scopes|);
    StatementReported(body, x, inside);
    TailsReported(update, condition, states, from, x.returnBorrow);
    ComplaintsAppend(
      StatementEvents(body, x, inside), TailsEvents(update, condition, states, from), x.returnBorrow);
  }

  lemma {:induction false} TailsReported(
    update: Option<Expression>, condition: Option<Expression>, states: seq<FlowState>, from: Point,
    borrow: Option<nat>)
    ensures CheckTails(update, condition, states).2 == Complaints(TailsEvents(update, condition, states, from), borrow)
    decreases |states|
  {
    if |states| > 0 {
      TailReported(update, condition, Later(from, states[0]), borrow);
      TailsReported(update, condition, states[1..], from, borrow);
      ComplaintsAppend(
        TailEvents(update, condition, Later(from, states[0])), TailsEvents(update, condition, states[1..], from),
        borrow);
    }
  }

  lemma TailReported(update: Option<Expression>, condition: Option<Expression>, from: Point, borrow: Option<nat>)
    ensures CheckTail(update, condition, from.state).reports == Complaints(TailEvents(update, condition, from), borrow)
  {
    var updated := Later(from, CheckOptional(update, from.state).state);
    OptionalReported(update, from, borrow);
    OptionalReported(condition, updated, borrow);
    ComplaintsAppend(OptionalEvents(update, from), OptionalEvents(condition, updated), borrow);
  }

  /** The reports on a function are the complaints about what it does, in that order. */
  lemma FunctionReported(parameters: seq<Parameter>, body: OwnBlock, x: Surroundings)
    ensures AnalyzeFunction(parameters, body, x).reports
         == Complaints(FunctionEvents(parameters, body, x), x.returnBorrow)
  {
    BodyReported(body, x, Point(DeclareParameters(parameters, PushScope(EMPTY_STATE)), multiset{}));
  }
}
