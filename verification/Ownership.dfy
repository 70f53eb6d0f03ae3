/**
 What the ownership pass computes, statement by statement. Loop exits and thrown states are results
 here; the pass itself (`OwnershipPass`) collects them in stacks of contexts.
 */
module Ownership {
  import opened Wrappers
  import opened Ast
  import opened FlowStates

  // ----- expressions, with the resolved facts the pass reads -----

  datatype Expression = Expression(kind: ExpressionKind, span: Span)

  datatype ExpressionKind =
    | Name(name: string)
    | Literal
    | Parenthesized(inner: Expression)
    | Operand(operand: Expression)
    | Increment(place: Expression)
    | Strict(left: Expression, right: Expression)
    | Logical(left: Expression, right: Expression)
    | Assign(target: Expression, right: Expression, adapted: bool, jsonPlace: bool)
    | Compound(target: Expression, right: Expression)
    | Switch(scrutinee: Expression, arms: seq<Expression>)
    | Call(receiver: Option<Receiver>, arguments: seq<Argument>, throws: bool, result: BorrowResult)
    | Move(argument: Expression)
    | Consume(consumed: Expression, throws: bool)
    | Aggregate(initializers: seq<Element>)
    | Construct(elements: seq<Element>, throws: bool)
    | Field(whole: Expression)
    | Index(collection: Expression, index: Expression)

  datatype Passing = ByValue | ByShared | ByMutable

  datatype Receiver = Receiver(value: Expression, passing: Passing)

  datatype Argument = Argument(value: Expression, passing: Passing)

  /** `adapted`: a native result that is turned into a value or an exception where it stands. */
  datatype Element = Element(value: Expression, adapted: bool)

  /** Which input the reference a call returns borrows from. */
  datatype BorrowResult = NoBorrow | FromReceiver | FromArgument(position: nat)

  type OwnStatement = Statement<Expression>
  type OwnBlock = Block<Expression>
  type OwnCatch = CatchClause<Expression>

  function NamedBinding(e: Expression, s: FlowState): Option<nat> {
    match e.kind
    case Name(name) => Lookup(s, name)
    case Parenthesized(inner) => NamedBinding(inner, s)
    case _ => None
  }

  /** Result of checking an expression; `throws` are the states at the points that may raise. */
  datatype Checked = Checked(state: FlowState, origin: Option<nat>, throws: seq<FlowState>, reports: seq<Report>)

  /** As `Checked`, for several expressions, with the loans still held. */
  datatype CheckedAll = CheckedAll(
    state: FlowState, origins: seq<Option<nat>>, loans: seq<Loan>, throws: seq<FlowState>, reports: seq<Report>)

  function PassingUsage(passing: Passing): Usage {
    match passing
    case ByValue => Read
    case ByShared => BorrowShared
    case ByMutable => BorrowMutable
  }

  /** Records the current state as one from which an exception may leave. */
  function Capture(c: Checked, raises: bool): Checked {
    if raises then c.(throws := c.throws + [c.state]) else c
  }

  function Then(first: Checked, second: Checked): Checked {
    second.(throws := first.throws + second.throws, reports := first.reports + second.reports)
  }

  function Check(e: Expression, usage: Usage, s: FlowState): Checked
    decreases e, 1
  {
    match e.kind
    case Name(name) =>
      var id := Lookup(s, name);
      if id.None? then Checked(s, None, [], []) else Checked(s, id, [], CheckUsage(s, id.value, usage, e.span))
    case Literal => Checked(s, None, [], [])
    case Parenthesized(inner) => Check(inner, usage, s)
    case Operand(operand) => Check(operand, Read, s).(origin := None)
    case Increment(place) => Check(place, Mutate, s).(origin := None)
    case Strict(left, right) => CheckPair(e, left, Read, right, Read, s).(origin := None)
    case Compound(target, right) => CheckPair(e, right, Read, target, Mutate, s).(origin := None)
    case Index(collection, index) =>
      CheckPair(e, collection, usage, index, Read, s).(origin := Check(collection, usage, s).origin)
    case Logical(_, _) => CheckShortCircuit(e, s)
    case Assign(_, _, _, _) => CheckAssignment(e, s)
    case Switch(_, _) => CheckChoice(e, usage, s)
    case Call(_, _, throws, _) => Capture(CheckCall(e, s), throws)
    case Move(argument) => CheckMoved(e, argument, s)
    case Consume(_, throws) => Capture(CheckConsumed(e, s), throws)
    case Aggregate(initializers) => CheckElements(initializers, true, s)
    case Construct(elements, throws) => Capture(CheckElements(elements, false, s), throws)
    case Field(whole) => Check(whole, usage, s)
  }

  /** Two parts of `e`, one after the other. */
  function CheckPair(
    e: Expression, first: Expression, firstUsage: Usage, second: Expression, secondUsage: Usage, s: FlowState): Checked
    requires first < e && second < e
    decreases e, 0
  {
    var c := Check(first, firstUsage, s);
    Then(c, Check(second, secondUsage, c.state))
  }

  /** The right operand of `&&` or `||` may not be evaluated. */
  function CheckShortCircuit(e: Expression, s: FlowState): Checked
    requires e.kind.Logical?
    decreases e, 0
  {
    var l := Check(e.kind.left, Read, s);
    var r := Check(e.kind.right, Read, l.state);
    Then(l, r).(state := Merge(l.state, l.state, r.state), origin := None)
  }

  function CheckAssignment(e: Expression, s: FlowState): Checked
    requires e.kind.Assign?
    decreases e, 0
  {
    var r := Capture(Capture(Check(e.kind.right, Read, s), e.kind.adapted), e.kind.jsonPlace);
    Then(r, Write(e.kind.target, r.state)).(origin := None)
  }

  function CheckChoice(e: Expression, usage: Usage, s: FlowState): Checked
    requires e.kind.Switch?
    decreases e, 0
  {
    var c := Check(e.kind.scrutinee, Read, s);
    var (states, throws, reports) := CheckArms(e.kind.arms, usage, c.state);
    Checked(MergeMany(c.state, states), None, c.throws + throws, c.reports + reports)
  }

  function CheckMoved(e: Expression, argument: Expression, s: FlowState): Checked {
    var id := NamedBinding(argument, s);
    if id.None? then Checked(s, None, [], [])
    else if id.value < |s.bindings| && IsCopyable(s.bindings[id.value].ty) then
      Checked(s, None, [], CheckUsage(s, id.value, Read, argument.span))
    else Checked(MarkMoved(s, id.value, e.span), None, [], CheckUsage(s, id.value, Mutate, e.span))
  }

  /** The argument of a consuming operation. */
  function CheckConsumed(e: Expression, s: FlowState): Checked
    requires e.kind.Consume?
    decreases e, 0
  {
    var id := NamedBinding(e.kind.consumed, s);
    if id.Some? then Checked(MarkMoved(s, id.value, e.span), None, [], CheckUsage(s, id.value, Mutate, e.span))
    else Check(e.kind.consumed, Read, s).(origin := None)
  }

  /** Assignment to a whole binding makes it available again. */
  function Write(target: Expression, s: FlowState): Checked
    decreases target, 2
  {
    match target.kind
    case Parenthesized(inner) => Write(inner, s)
    case Name(name) =>
      var id := Lookup(s, name);
      if id.None? then Check(target, Mutate, s)
      else if id.value < |s.bindings| && IsReference(s.bindings[id.value].ty) then
        Checked(s, None, [], CheckUsage(s, id.value, Mutate, target.span))
      else
        var conflict := CheckBorrow(s, id.value, Mutate, target.span);
        Checked(if conflict == [] then SetAvailability(s, id.value, Available) else s, None, [], conflict)
    case _ => Check(target, Mutate, s)
  }

  /** Every arm starts from the state after the scrutinee. */
  function CheckArms(arms: seq<Expression>, usage: Usage, s: FlowState)
    : (r: (seq<FlowState>, seq<FlowState>, seq<Report>))
    ensures |r.0| == |arms|
    decreases arms, 0
  {
    if |arms| == 0 then ([], [], [])
    else
      var first := Check(arms[0], usage, s);
      var (states, throws, reports) := CheckArms(arms[1..], usage, s);
      ([first.state] + states, first.throws + throws, first.reports + reports)
  }

  /** `recorded`: whether a conversion that may raise is noted where it happens. */
  function CheckElements(elements: seq<Element>, recorded: bool, s: FlowState): Checked
    decreases elements, 0
  {
    if |elements| == 0 then Checked(s, None, [], [])
    else
      var first := CheckElement(elements[0], recorded, s);
      Then(first, CheckElements(elements[1..], recorded, first.state))
  }

  function CheckElement(element: Element, recorded: bool, s: FlowState): Checked
    decreases element, 0
  {
    Capture(Check(element.value, Read, s), recorded && element.adapted).(origin := None)
  }

  /** What the reference a call returns borrows from. */
  function CallOrigin(result: BorrowResult, receiver: seq<Option<nat>>, arguments: seq<Option<nat>>): Option<nat> {
    match result
    case NoBorrow => None
    case FromReceiver => if |receiver| > 0 then receiver[0] else None
    case FromArgument(i) => if i < |arguments| then arguments[i] else None
  }

  /** The receiver is borrowed while the arguments are evaluated. */
  function CheckCall(e: Expression, s: FlowState): Checked
    requires e.kind.Call?
    decreases e, 0
  {
    var r := CheckReceiver(e.kind.receiver, s);
    var a := CheckArguments(e.kind.arguments, r.state);
    var released := ReleaseAll(ReleaseAll(a.state, a.loans), r.loans);
    var origin := CallOrigin(e.kind.result, r.origins, a.origins);
    Checked(released, origin, r.throws + a.throws, r.reports + a.reports)
  }

  function CheckReceiver(receiver: Option<Receiver>, s: FlowState): CheckedAll
    decreases receiver, 0
  {
    if receiver.None? then CheckedAll(s, [], [], [], [])
    else CheckPassed(receiver.value.value, receiver.value.passing, s)
  }

  /** One operand and, unless it is passed by value, the loan it holds during the call. */
  function CheckPassed(value: Expression, passing: Passing, s: FlowState): CheckedAll
    decreases value, 2
  {
    var c := Check(value, PassingUsage(passing), s);
    if passing.ByValue? then CheckedAll(c.state, [c.origin], [], c.throws, c.reports)
    else
      var (state, loan, reports) := AcquireTemporary(c.state, c.origin, passing.ByMutable?, value.span);
      CheckedAll(state, [c.origin], if loan.Some? then [loan.value] else [], c.throws, c.reports + reports)
  }

  function CheckArguments(arguments: seq<Argument>, s: FlowState): CheckedAll
    decreases arguments, 0
  {
    if |arguments| == 0 then CheckedAll(s, [], [], [], [])
    else
      var first := CheckArgument(arguments[0], s);
      var rest := CheckArguments(arguments[1..], first.state);
      CheckedAll(
        rest.state,
        first.origins + rest.origins,
        first.loans + rest.loans,
        first.throws + rest.throws,
        first.reports + rest.reports)
  }

  function CheckArgument(argument: Argument, s: FlowState): CheckedAll
    decreases argument, 0
  {
    CheckPassed(argument.value, argument.passing, s)
  }

  // ----- statements -----

  /** What encloses a statement: how many loops, and what the function returns. */
  datatype Surroundings = Surroundings(loopDepth: nat, returnsReference: bool, returnBorrow: Option<nat>)

  /** `breaks`, `continues` and `throws` are the states at the points where control leaves. */
  datatype Outcome = Outcome(
    state: FlowState,
    reachable: bool,
    breaks: seq<FlowState>,
    continues: seq<FlowState>,
    throws: seq<FlowState>,
    reports: seq<Report>)

  function Straight(c: Checked): Outcome {
    Outcome(c.state, true, [], [], c.throws, c.reports)
  }

  /** `second` runs from where `first` ended; only its state and reachability remain. */
  function After(first: Outcome, second: Outcome): Outcome {
    Outcome(
      second.state,
      second.reachable,
      first.breaks + second.breaks,
      first.continues + second.continues,
      first.throws + second.throws,
      first.reports + second.reports)
  }

  function InLoop(x: Surroundings): Surroundings {
    x.(loopDepth := x.loopDepth + 1)
  }

  function Nothing(s: FlowState): Outcome {
    Outcome(s, true, [], [], [], [])
  }

  function AnalyzeList(ss: seq<OwnStatement>, x: Surroundings, s: FlowState): Outcome
    decreases ss, 0
  {
    if |ss| == 0 then Nothing(s)
    else
      var first := AnalyzeFirst(ss[0], x, s);
      if first.reachable then After(first, AnalyzeList(ss[1..], x, first.state)) else first
  }

  /** A statement, and the loans that end with it. */
  function AnalyzeFirst(statement: OwnStatement, x: Surroundings, s: FlowState): Outcome
    decreases statement, 3
  {
    var o := Analyze(statement, x, s);
    o.(state := ReleaseExpired(o.state, statement.span.end, x.loopDepth))
  }

  function AnalyzeBlock(b: OwnBlock, x: Surroundings, s: FlowState): Outcome
    decreases b, 0
  {
    var o := AnalyzeList(b.statements, x, PushScope(s));
    o.(state := PopScope(o.state))
  }

  function AnalyzeBranch(statement: OwnStatement, x: Surroundings, s: FlowState): Outcome
    decreases statement, 4
  {
    var o := AnalyzeFirst(statement, x, PushScope(s));
    o.(state := PopScope(o.state))
  }

  predicate BorrowsInitializer(ty: TypeRef) {
    IsReference(ty) || IsGuard(ty)
  }

  function AnalyzeLocal(local: LocalDeclaration<Expression>, x: Surroundings, s: FlowState): Outcome {
    if BorrowsInitializer(local.ty) then
      if local.initializer.None? then Straight(Checked(DeclareLocal(local, None, x, s), None, [], []))
      else
        var mutable := local.ty.Reference? && local.ty.mutable;
        var c := Check(local.initializer.value, LoanUsage(mutable), s);
        var (state, loan, reports) := AcquirePersistent(c.state, c.origin, mutable, local.initializer.value.span);
        Straight(Checked(DeclareLocal(local, loan, x, state), None, c.throws, c.reports + reports))
    else
      var c :=
        if local.initializer.Some? then Capture(Check(local.initializer.value, Read, s), local.adapted)
        else Capture(Checked(s, None, [], []), local.implicitCall.throws);
      Straight(c.(state := DeclareLocal(local, None, x, c.state)))
  }

  function DeclareLocal(local: LocalDeclaration<Expression>, loan: Option<Loan>, x: Surroundings, s: FlowState)
    : FlowState
  {
    Declare(s, local.name, local.ty, loan, local.span, local.lastUse, x.loopDepth)
  }

  /** Returning a whole non-copyable binding moves it out. */
  predicate ReturnMoves(value: Expression, x: Surroundings, s: FlowState) {
    var id := NamedBinding(value, s);
    && !x.returnsReference && id.Some? && id.value < |s.bindings|
    && !IsReference(s.bindings[id.value].ty) && !IsCopyable(s.bindings[id.value].ty)
  }

  function ValidateReferenceReturn(x: Surroundings, origin: Option<nat>, s: FlowState, at: Span): seq<Report> {
    if x.returnBorrow.None? || origin.None? || RootOrigin(s, origin.value) != RootOrigin(s, x.returnBorrow.value)
    then [Report("OWN005", at)]
    else []
  }

  function AnalyzeReturn(value: Option<Expression>, x: Surroundings, s: FlowState): Outcome {
    if value.None? then Outcome(s, false, [], [], [], [])
    else if ReturnMoves(value.value, x, s) then
      var id := NamedBinding(value.value, s).value;
      Outcome(
        MarkMoved(s, id, value.value.span), false, [], [], [], CheckUsage(s, id, Mutate, value.value.span))
    else
      var c := Check(value.value, Read, s);
      var reports := if x.returnsReference then ValidateReferenceReturn(x, c.origin, c.state, value.value.span) else [];
      Straight(c).(reachable := false, reports := c.reports + reports)
  }

  function AnalyzeThrow(error: Option<Expression>, s: FlowState): Outcome {
    var c := if error.None? then Checked(s, None, [], []) else Check(error.value, Read, s);
    Straight(Capture(c, true)).(reachable := false)
  }

  function Analyze(statement: OwnStatement, x: Surroundings, s: FlowState): Outcome
    decreases statement, 2
  {
    match statement.kind
    case BlockStatement(b) => AnalyzeBlock(b, x, s)
    case Local(local) => AnalyzeLocal(local, x, s)
    case Return(value) => AnalyzeReturn(value, x, s)
    case Throw(error) => AnalyzeThrow(error, s)
    case Try(_, _) => AnalyzeTry(statement, x, s)
    case If(_, _, _) => AnalyzeIf(statement, x, s)
    case While(_, _) => AnalyzeWhile(statement, x, s)
    case For(_, _) => AnalyzeForStatement(statement, x, s)
    case Break => Outcome(s, false, [s], [], [], [])
    case Continue => Outcome(s, false, [], [s], [], [])
    case Expression(e) => Straight(Check(e, Read, s))
    case Empty => Nothing(s)
  }

  function AnalyzeTry(statement: OwnStatement, x: Surroundings, s: FlowState): Outcome
    requires statement.kind.Try?
    decreases statement, 1
  {
    var g := AnalyzeBlock(statement.kind.guarded, x, s);
    var (ends, h) := AnalyzeCatches(statement.kind.catches, x, CatchBaseline(s, g.throws));
    TryEnd(s, g, ends, h)
  }

  /** A `try` ends where its block or one of its handlers ends. */
  function TryEnd(s: FlowState, g: Outcome, ends: seq<FlowState>, h: Outcome): Outcome {
    var states := (if g.reachable then [g.state] else []) + ends;
    After(g, h).(state := if |states| == 0 then s else MergeMany(s, states), reachable := |states| > 0)
  }

  function AnalyzeIf(statement: OwnStatement, x: Surroundings, s: FlowState): Outcome
    requires statement.kind.If?
    decreases statement, 1
  {
    var c := Check(statement.kind.condition, Read, s);
    After(Straight(c), AnalyzeBranches(statement, x, c.state))
  }

  /** An `if` after its condition. */
  function AnalyzeBranches(statement: OwnStatement, x: Surroundings, s: FlowState): Outcome
    requires statement.kind.If?
    decreases statement, 0
  {
    JoinBranches(
      s, AnalyzeBranch(statement.kind.thenBranch, x, s),
      if statement.kind.elseBranch.Some? then AnalyzeBranch(statement.kind.elseBranch.value, x, s) else Nothing(s))
  }

  function JoinBranches(s: FlowState, t: Outcome, e: Outcome): Outcome {
    After(t, e).(
      state :=
        if t.reachable && e.reachable then Merge(s, t.state, e.state)
        else if t.reachable then t.state
        else if e.reachable then e.state
        else s,
      reachable := t.reachable || e.reachable)
  }

  /** The scope of a loop goes, and then the loans that end with the loop. */
  function CloseLoop(o: Outcome, position: nat, loopDepth: nat): Outcome {
    o.(state := ReleaseExpired(PopScope(o.state), position, loopDepth))
  }

  function AnalyzeWhile(statement: OwnStatement, x: Surroundings, s: FlowState): Outcome
    requires statement.kind.While?
    decreases statement, 1
  {
    CloseLoop(
      AnalyzeWhileBody(statement.kind.condition, statement.kind.body, InLoop(x), PushScope(s)),
      statement.kind.body.span.end, x.loopDepth)
  }

  function AnalyzeForStatement(statement: OwnStatement, x: Surroundings, s: FlowState): Outcome
    requires statement.kind.For?
    decreases statement, 1
  {
    CloseLoop(
      AnalyzeFor(statement.kind.clause, statement.kind.body, InLoop(x), PushScope(s)),
      statement.kind.body.span.end, x.loopDepth)
  }

  /** A handler may start from any state in which its guarded block may have raised. */
  function CatchBaseline(s: FlowState, throws: seq<FlowState>): FlowState {
    if |throws| == 0 then s else MergeMany(s, TruncateAll(throws, |s.scopes|))
  }

  /** The end states of the handlers that reach their end, and everything else they did. */
  function AnalyzeCatches(catches: seq<OwnCatch>, x: Surroundings, s: FlowState): (seq<FlowState>, Outcome)
    decreases catches, 0
  {
    if |catches| == 0 then ([], Nothing(s))
    else
      var first := AnalyzeHandler(catches[0], x, s);
      var (states, rest) := AnalyzeCatches(catches[1..], x, s);
      ((if first.reachable then [first.state] else []) + states, After(first, rest))
  }

  function DeclareCatch(binding: Option<CatchBinding>, x: Surroundings, s: FlowState): FlowState {
    if binding.None? then s
    else Declare(s, binding.value.name, binding.value.ty, None, binding.value.span, binding.value.lastUse, x.loopDepth)
  }

  function AnalyzeHandler(clause: OwnCatch, x: Surroundings, s: FlowState): Outcome
    decreases clause, 0
  {
    var o := AnalyzeBody(clause.body, x, DeclareCatch(clause.binding, x, PushScope(s)));
    o.(state := PopScope(o.state))
  }

  function AnalyzeBody(b: OwnBlock, x: Surroundings, s: FlowState): Outcome
    decreases b, 0
  {
    AnalyzeList(b.statements, x, s)
  }

  function DeclareRange(bindings: seq<RangeBinding>, x: Surroundings, s: FlowState): FlowState {
    if |bindings| == 0 then s
    else
      var b := bindings[0];
      DeclareRange(bindings[1..], x, Declare(s, b.name, b.ty, None, b.span, b.lastUse, x.loopDepth))
  }

  /** One analysed iteration: the state at the next condition test, if one can be reached. */
  datatype Iteration = Iteration(
    next: Option<FlowState>, breaks: seq<FlowState>, throws: seq<FlowState>, reports: seq<Report>)

  function CheckOptional(e: Option<Expression>, s: FlowState): Checked {
    if e.None? then Checked(s, None, [], []) else Check(e.value, Read, s)
  }

  function CheckTail(update: Option<Expression>, condition: Option<Expression>, s: FlowState): Checked {
    var u := CheckOptional(update, s);
    Then(u, CheckOptional(condition, u.state))
  }

  function CheckTails(update: Option<Expression>, condition: Option<Expression>, states: seq<FlowState>)
    : (r: (seq<FlowState>, seq<FlowState>, seq<Report>))
    ensures |r.0| == |states|
  {
    if |states| == 0 then ([], [], [])
    else
      var first := CheckTail(update, condition, states[0]);
      var (ends, throws, reports) := CheckTails(update, condition, states[1..]);
      ([first.state] + ends, first.throws + throws, first.reports + reports)
  }

  /** The end of an iteration whose body is analysed as `o`, in a loop with `depth` scopes around it. */
  function IterationEnd(o: Outcome, update: Option<Expression>, condition: Option<Expression>, depth: nat): Iteration {
    var states := TailStates(o, depth);
    var breaks := TruncateAll(o.breaks, depth);
    if |states| == 0 then Iteration(None, breaks, o.throws, o.reports)
    else
      var (ends, throws, reports) := CheckTails(update, condition, states);
      Iteration(Some(MergeMany(states[0], ends)), breaks, o.throws + throws, o.reports + reports)
  }

  /** The states that reach the tail of a loop. */
  function TailStates(o: Outcome, depth: nat): seq<FlowState> {
    (if o.reachable then [PopScope(o.state)] else []) + TruncateAll(o.continues, depth)
  }

  function Iterate(
    bindings: seq<RangeBinding>, body: OwnStatement, update: Option<Expression>, condition: Option<Expression>,
    x: Surroundings, s: FlowState)
    : Iteration
    decreases body, 3
  {
    IterationEnd(Analyze(body, x, DeclareRange(bindings, x, PushScope(s))), update, condition, |s.scopes|)
  }

  function Present(s: Option<FlowState>): seq<FlowState> {
    if s.Some? then [s.value] else []
  }

  function SecondIteration(
    bindings: seq<RangeBinding>, body: OwnStatement, update: Option<Expression>, condition: Option<Expression>,
    x: Surroundings, first: Iteration): Iteration
    decreases body, 4
  {
    if first.next.Some? then Iterate(bindings, body, update, condition, x, first.next.value)
    else Iteration(None, [], [], [])
  }

  /** The ways out of a loop after two analysed iterations. */
  function LoopExits(s: FlowState, first: Iteration, second: Iteration): seq<FlowState> {
    [s] + Present(first.next) + Present(second.next) + first.breaks + second.breaks
  }

  /** What two iterations note, with the state there is after them. */
  function BothIterations(first: Iteration, second: Iteration, end: FlowState): Outcome {
    Outcome(end, true, [], [], first.throws + second.throws, first.reports + second.reports)
  }

  /** A loop body is analysed twice; the loop may be left before, between and after, or by `break`. */
  function AnalyzeLoop(
    bindings: seq<RangeBinding>, body: OwnStatement, update: Option<Expression>, condition: Option<Expression>,
    x: Surroundings, s: FlowState)
    : Outcome
    decreases body, 5
  {
    var first := Iterate(bindings, body, update, condition, x, s);
    var second := SecondIteration(bindings, body, update, condition, x, first);
    BothIterations(first, second, MergeMany(s, LoopExits(s, first, second)))
  }

  function AnalyzeWhileBody(condition: Expression, body: OwnStatement, x: Surroundings, s: FlowState): Outcome
    decreases body, 6
  {
    var c := Check(condition, Read, s);
    After(Straight(c), AnalyzeLoop([], body, None, Some(condition), x, c.state))
  }

  predicate AnyReference(bindings: seq<RangeBinding>) {
    exists i :: 0 <= i < |bindings| && IsReference(bindings[i].ty)
  }

  predicate AnyMutableReference(bindings: seq<RangeBinding>) {
    exists i :: 0 <= i < |bindings| && bindings[i].ty.Reference? && bindings[i].ty.mutable
  }

  function AnalyzeFor(clause: ForClause<Expression>, body: OwnStatement, x: Surroundings, s: FlowState): Outcome
    decreases body, 7
  {
    if clause.Classic? then AnalyzeClassic(clause, body, x, s) else AnalyzeRange(clause, body, x, s)
  }

  function AnalyzeClassic(clause: ForClause<Expression>, body: OwnStatement, x: Surroundings, s: FlowState): Outcome
    requires clause.Classic?
    decreases body, 6
  {
    var i := AnalyzeInitializer(clause.initializer, x, s);
    var c := CheckOptional(clause.condition, i.state);
    After(After(i, Straight(c)), AnalyzeLoop([], body, clause.update, clause.condition, x, c.state))
  }

  /** The loan on the range, if there is one, lasts until the loop ends. */
  function AnalyzeRange(clause: ForClause<Expression>, body: OwnStatement, x: Surroundings, s: FlowState): Outcome
    requires clause.Range?
    decreases body, 6
  {
    var (c, loan) := RangeStart(clause.bindings, clause.iterable, clause.json, s);
    ReleaseLoop(After(Straight(c), AnalyzeLoop(clause.bindings, body, None, None, x, c.state)), loan)
  }

  function RangeUsage(bindings: seq<RangeBinding>, iterable: Expression, json: bool): Usage {
    if iterable.kind.Move? || json then Read else LoanUsage(AnyMutableReference(bindings))
  }

  /** The checked range of a range loop, with the loan on it. */
  function RangeStart(bindings: seq<RangeBinding>, iterable: Expression, json: bool, s: FlowState)
    : (Checked, Option<Loan>)
  {
    var mutable := AnyMutableReference(bindings);
    var borrowed := !json && (AnyReference(bindings) || !iterable.kind.Move?);
    var c := Check(iterable, RangeUsage(bindings, iterable, json), s);
    var (state, loan, reports) :=
      if borrowed then AcquirePersistent(c.state, c.origin, mutable, iterable.span) else (c.state, None, []);
    (c.(state := state, reports := c.reports + reports), loan)
  }

  function ReleaseLoop(o: Outcome, loan: Option<Loan>): Outcome {
    if loan.Some? then o.(state := Release(o.state, loan.value)) else o
  }

  function AnalyzeInitializer(initializer: Option<ForInitializer<Expression>>, x: Surroundings, s: FlowState): Outcome {
    if initializer.None? then Nothing(s)
    else match initializer.value
      case InitializerLocal(local) => AnalyzeLocal(local, x, s)
      case InitializerExpression(e) => Straight(Check(e, Read, s))
  }

  /** A parameter of an analysed function. */
  datatype Parameter = Parameter(name: string, ty: TypeRef, span: Span, lastUse: Option<Span>)

  function DeclareParameters(parameters: seq<Parameter>, s: FlowState): FlowState {
    if |parameters| == 0 then s
    else
      var p := parameters[0];
      DeclareParameters(parameters[1..], Declare(s, p.name, p.ty, None, p.span, p.lastUse, 0))
  }

  /** Which parameters are references. */
  function References(parameters: seq<Parameter>): (ids: seq<nat>)
    ensures forall i :: 0 <= i < |ids| ==> ids[i] < |parameters| && IsReference(parameters[ids[i]].ty)
  {
    if |parameters| == 0 then []
    else
      var last: nat := |parameters| - 1;
      References(parameters[..last]) + if IsReference(parameters[last].ty) then [last] else []
  }

  /** A receiver is declared before the parameters. */
  function AllParameters(receiver: Option<Parameter>, parameters: seq<Parameter>): seq<Parameter> {
    if receiver.Some? then [receiver.value] + parameters else parameters
  }

  /** The binding a returned reference has to borrow from: the receiver, or the only reference parameter. */
  function ReturnBorrow(receiver: Option<Parameter>, parameters: seq<Parameter>, returnsReference: bool)
    : (id: Option<nat>)
    ensures id.Some? ==> id.value < |AllParameters(receiver, parameters)|
  {
    if !returnsReference then None
    else if receiver.Some? then Some(0)
    else if |References(parameters)| == 1 then Some(References(parameters)[0])
    else None
  }

  function AnalyzeFunction(parameters: seq<Parameter>, body: OwnBlock, x: Surroundings): Outcome {
    var o := AnalyzeBody(body, x, DeclareParameters(parameters, PushScope(EMPTY_STATE)));
    o.(state := PopScope(o.state))
  }
}
