/**
 The uses an accepted function makes of its bindings respect the loans there are, and the references it
 returns come from its declared input. What is reported does not happen, and loans end when they are due.
 */
module UsesAllowed {
  import opened Wrappers
  import opened Ast
  import opened FlowStates
  import opened Ownership
  import opened OwnershipScopes
  import opened OwnershipLoans
  import opened LoansKept
  import opened LoanPoints
  import opened Uses

  // ----- events happen at points of the analysis, to bindings there are -----

  ghost predicate InRange(event: Event) {
    match event
    case Use(at, id, _, _) => id < |at.state.bindings|
    case Baseless(_, _) => true
    case Returned(at, origin, _) => Exists(at.state, origin)
  }

  /** What happens inside an expression or a declaration. */
  ghost predicate Inner(event: Event) {
    !event.Returned? && InRange(event)
  }

  ghost predicate Placed(event: Event, x: Surroundings) {
    InRange(event) && (event.Returned? ==> x.returnsReference)
  }

  lemma {:induction false} NamedExists(e: Expression, s: FlowState)
    requires Valid(s)
    ensures Exists(s, NamedBinding(e, s))
  {
    if e.kind.Name? {
      FoundExists(s, e.kind.name);
    } else if e.kind.Parenthesized? {
      NamedExists(e.kind.inner, s);
    }
  }

  lemma FoundExists(s: FlowState, name: string)
    requires Valid(s)
    ensures Exists(s, Lookup(s, name))
  {
    LookupExists(s, name, |s.scopes|);
    assert s.scopes[..|s.scopes|] == s.scopes;
  }

  lemma {:induction false} ExpressionLocated(e: Expression, usage: Usage, from: Point, event: Event)
    requires Start(from, false) && event in ExpressionEvents(e, usage, from)
    ensures ExpressionPoint(e, usage, from, event.at) && Inner(event)
    decreases e, 1
  {
    if e.kind.Name? {
      FoundExists(from.state, e.kind.name);
    } else if e.kind.Parenthesized? {
      ExpressionLocated(e.kind.inner, usage, from, event);
    } else if e.kind.Operand? {
      ExpressionLocated(e.kind.operand, Read, from, event);
    } else if e.kind.Increment? {
      ExpressionLocated(e.kind.place, Mutate, from, event);
    } else if e.kind.Field? {
      ExpressionLocated(e.kind.whole, usage, from, event);
    } else if e.kind.Strict? {
      PairLocated(e, e.kind.left, Read, e.kind.right, Read, from, event);
    } else if e.kind.Logical? {
      PairLocated(e, e.kind.left, Read, e.kind.right, Read, from, event);
    } else if e.kind.Compound? {
      PairLocated(e, e.kind.right, Read, e.kind.target, Mutate, from, event);
    } else if e.kind.Index? {
      PairLocated(e, e.kind.collection, usage, e.kind.index, Read, from, event);
    } else {
      OtherLocated(e, usage, from, event);
    }
  }

  lemma {:induction false} OtherLocated(e: Expression, usage: Usage, from: Point, event: Event)
    requires Start(from, false) && event in ExpressionEvents(e, usage, from)
    requires e.kind.Assign? || e.kind.Switch? || e.kind.Call? || e.kind.Move? || e.kind.Consume?
          || e.kind.Aggregate? || e.kind.Construct?
    ensures ExpressionPoint(e, usage, from, event.at) && Inner(event)
    decreases e, 0, 1
  {
    if e.kind.Assign? {
      AssignLocated(e, usage, from, event);
    } else if e.kind.Switch? {
      SwitchLocated(e, usage, from, event);
    } else if e.kind.Call? {
      CallLocated(e, from, event);
    } else if e.kind.Move? {
      NamedExists(e.kind.argument, from.state);
    } else if e.kind.Consume? {
      ConsumeLocated(e, usage, from, event);
    } else if e.kind.Aggregate? {
      ElementsLocated(e.kind.initializers, true, from, event);
    } else {
      ElementsLocated(e.kind.elements, false, from, event);
    }
  }

  lemma {:induction false} PairLocated(
    e: Expression, first: Expression, firstUsage: Usage, second: Expression, secondUsage: Usage, from: Point,
    event: Event)
    requires first < e && second < e && Start(from, false)
    requires event in PairEvents(e, first, firstUsage, second, secondUsage, from)
    ensures || ExpressionPoint(first, firstUsage, from, event.at)
            || ExpressionPoint(second, secondUsage, Later(from, Check(first, firstUsage, from.state).state), event.at)
    ensures Inner(event)
    decreases e, 0, 0
  {
    if event in ExpressionEvents(first, firstUsage, from) {
      ExpressionLocated(first, firstUsage, from, event);
    } else {
      CheckSound(first, firstUsage, from, false);
      ExpressionLocated(second, secondUsage, Later(from, Check(first, firstUsage, from.state).state), event);
    }
  }

  lemma {:induction false} AssignLocated(e: Expression, usage: Usage, from: Point, event: Event)
    requires e.kind.Assign? && Start(from, false) && event in AssignEvents(e, from)
    ensures ExpressionPoint(e, usage, from, event.at) && Inner(event)
    decreases e, 0, 0
  {
    if event in ExpressionEvents(e.kind.right, Read, from) {
      ExpressionLocated(e.kind.right, Read, from, event);
    } else {
      CheckSound(e.kind.right, Read, from, false);
      WriteLocated(e.kind.target, Later(from, Check(e.kind.right, Read, from.state).state), event);
    }
  }

  lemma {:induction false} WriteLocated(target: Expression, from: Point, event: Event)
    requires Start(from, false) && event in WriteEvents(target, from)
    ensures WritePoint(target, from, event.at) && Inner(event)
    decreases target, 2
  {
    if target.kind.Parenthesized? {
      WriteLocated(target.kind.inner, from, event);
    } else if target.kind.Name? {
      FoundExists(from.state, target.kind.name);
    } else {
      ExpressionLocated(target, Mutate, from, event);
    }
  }

  lemma {:induction false} SwitchLocated(e: Expression, usage: Usage, from: Point, event: Event)
    requires e.kind.Switch? && Start(from, false) && event in SwitchEvents(e, usage, from)
    ensures ExpressionPoint(e, usage, from, event.at) && Inner(event)
    decreases e, 0, 0
  {
    if event in ExpressionEvents(e.kind.scrutinee, Read, from) {
      ExpressionLocated(e.kind.scrutinee, Read, from, event);
    } else {
      CheckSound(e.kind.scrutinee, Read, from, false);
      ArmsLocated(e.kind.arms, usage, Later(from, Check(e.kind.scrutinee, Read, from.state).state), event);
    }
  }

  lemma {:induction false} ArmsLocated(arms: seq<Expression>, usage: Usage, from: Point, event: Event)
    requires Start(from, false) && event in ArmsEvents(arms, usage, from)
    ensures ArmsPoint(arms, usage, from, event.at) && Inner(event)
    decreases arms, 0
  {
    if event in ExpressionEvents(arms[0], usage, from) {
      ExpressionLocated(arms[0], usage, from, event);
    } else {
      ArmsLocated(arms[1..], usage, from, event);
      var i :| 0 <= i < |arms[1..]| && ExpressionPoint(arms[1..][i], usage, from, event.at);
      assert ExpressionPoint(arms[i + 1], usage, from, event.at);
    }
  }

  lemma {:induction false} ConsumeLocated(e: Expression, usage: Usage, from: Point, event: Event)
    requires e.kind.Consume? && Start(from, false) && event in ConsumeEvents(e, from)
    ensures ExpressionPoint(e, usage, from, event.at) && Inner(event)
    decreases e, 0, 0
  {
    NamedExists(e.kind.consumed, from.state);
    if NamedBinding(e.kind.consumed, from.state).None? {
      ExpressionLocated(e.kind.consumed, Read, from, event);
    }
  }

  lemma {:induction false} ElementsLocated(elements: seq<Element>, recorded: bool, from: Point, event: Event)
    requires Start(from, false) && event in ElementsEvents(elements, recorded, from)
    ensures ElementsPoint(elements, recorded, from, event.at) && Inner(event)
    decreases elements, 0
  {
    if event in ElementEvents(elements[0], from) {
      ElementLocated(elements[0], from, event);
    } else {
      CheckSound(elements[0].value, Read, from, false);
      ElementsLocated(
        elements[1..], recorded, Later(from, CheckElement(elements[0], recorded, from.state).state), event);
    }
  }

  lemma {:induction false} ElementLocated(element: Element, from: Point, event: Event)
    requires Start(from, false) && event in ElementEvents(element, from)
    ensures ElementPoint(element, from, event.at) && Inner(event)
    decreases element, 0
  {
    ExpressionLocated(element.value, Read, from, event);
  }

  lemma {:induction false} PassedLocated(value: Expression, passing: Passing, from: Point, event: Event)
    requires Start(from, false) && event in PassedEvents(value, passing, from)
    ensures PassedPoint(value, passing, from, event.at) && Inner(event)
    decreases value, 2
  {
    var usage := PassingUsage(passing);
    if event in ExpressionEvents(value, usage, from) {
      ExpressionLocated(value, usage, from, event);
    } else {
      OriginExists(value, usage, from.state);
      CheckedSame(value, usage, from.state);
    }
  }

  lemma {:induction false} ReceiverLocated(receiver: Option<Receiver>, from: Point, event: Event)
    requires Start(from, false) && event in ReceiverEvents(receiver, from)
    ensures ReceiverPoint(receiver, from, event.at) && Inner(event)
    decreases receiver, 0
  {
    PassedLocated(receiver.value.value, receiver.value.passing, from, event);
  }

  lemma {:induction false} ArgumentLocated(argument: Argument, from: Point, event: Event)
    requires Start(from, false) && event in ArgumentEvents(argument, from)
    ensures ArgumentPoint(argument, from, event.at) && Inner(event)
    decreases argument, 0
  {
    PassedLocated(argument.value, argument.passing, from, event);
  }

  lemma {:induction false} ArgumentsLocated(arguments: seq<Argument>, from: Point, event: Event)
    requires Start(from, false) && event in ArgumentsEvents(arguments, from)
    ensures ArgumentsPoint(arguments, from, event.at) && Inner(event)
    decreases arguments, 0
  {
    if event in ArgumentEvents(arguments[0], from) {
      ArgumentLocated(arguments[0], from, event);
    } else {
      PassedStart(arguments[0].value, arguments[0].passing, from, false);
      ArgumentsLocated(arguments[1..], Loaned(from, CheckArgument(arguments[0], from.state)), event);
    }
  }

  lemma {:induction false} CallLocated(e: Expression, from: Point, event: Event)
    requires e.kind.Call? && Start(from, false) && event in CallEvents(e, from)
    ensures CallPoint(e, from, event.at) && Inner(event)
    decreases e, 0, 0
  {
    if event in ReceiverEvents(e.kind.receiver, from) {
      ReceiverLocated(e.kind.receiver, from, event);
    } else {
      ReceiverStart(e.kind.receiver, from, false);
      ArgumentsLocated(e.kind.arguments, Loaned(from, CheckReceiver(e.kind.receiver, from.state)), event);
    }
  }

  // ----- statements -----

  lemma OptionalLocated(e: Option<Expression>, from: Point, event: Event)
    requires Start(from, false) && event in OptionalEvents(e, from)
    ensures OptionalPoint(e, from, event.at) && Inner(event)
  {
    ExpressionLocated(e.value, Read, from, event);
  }

  /** The point of a lasting loan, where what it is taken on has been evaluated. */
  lemma LoanLocated(e: Expression, usage: Usage, mutable: bool, from: Point, event: Event)
    requires Start(from, false)
    requires var c := Check(e, usage, from.state);
             event in LoanEvents(c.origin, mutable, Later(from, c.state), e.span)
    ensures var c := Check(e, usage, from.state);
            || ExpressionPoint(e, usage, from, event.at)
            || BorrowPoint(c.origin, mutable, e.span, Later(from, c.state), event.at)
    ensures Inner(event)
  {
    var c := Check(e, usage, from.state);
    OriginExists(e, usage, from.state);
    CheckedSame(e, usage, from.state);
    if c.origin.Some? {
      RootExists(c.state, c.origin.value);
      EndedLength(c.state, c.origin.value);
    }
  }

  lemma EndedLength(s: FlowState, id: nat)
    ensures |EndReferenceLoan(s, id).bindings| == |s.bindings|
  {
  }

  lemma LocalLocated(local: LocalDeclaration<Expression>, from: Point, event: Event)
    requires Start(from, false) && event in LocalEvents(local, from)
    ensures LocalPoint(local, from, event.at) && Inner(event)
  {
    var e := local.initializer.value;
    var mutable := local.ty.Reference? && local.ty.mutable;
    var usage := if local.ty.Owned? then Read else LoanUsage(mutable);
    if event in ExpressionEvents(e, usage, from) {
      ExpressionLocated(e, usage, from, event);
    } else {
      LoanLocated(e, usage, mutable, from, event);
    }
  }

  /** A moved result is taken where the statement starts. */
  lemma ReturnLocated(statement: OwnStatement, x: Surroundings, from: Point, event: Event)
    requires statement.kind.Return? && Start(from, false) && event in ReturnEvents(statement.kind.value, x, from)
    ensures StatementPoint(statement, x, from, event.at) && Placed(event, x)
  {
    var e := statement.kind.value.value;
    NamedExists(e, from.state);
    OriginExists(e, Read, from.state);
    CheckedSame(e, Read, from.state);
    if !ReturnMoves(e, x, from.state) && event in ExpressionEvents(e, Read, from) {
      ExpressionLocated(e, Read, from, event);
    }
  }

  lemma {:induction false} ListLocated(ss: seq<OwnStatement>, x: Surroundings, from: Point, event: Event)
    requires Inside(from, false) && event in ListEvents(ss, x, from)
    ensures ListPoint(ss, x, from, event.at) && Placed(event, x)
    decreases ss, 0
  {
    if event in StatementEvents(ss[0], x, from) {
      StatementLocated(ss[0], x, from, event);
    } else {
      FirstStart(ss[0], x, from, false);
      ListLocated(ss[1..], x, Later(from, AnalyzeFirst(ss[0], x, from.state).state), event);
    }
  }

  lemma {:induction false} BlockLocated(b: OwnBlock, x: Surroundings, from: Point, event: Event)
    requires Start(from, false) && event in BlockEvents(b, x, from)
    ensures BlockPoint(b, x, from, event.at) && Placed(event, x)
    decreases b, 0
  {
    PushStart(from, false);
    ListLocated(b.statements, x, Later(from, PushScope(from.state)), event);
  }

  lemma {:induction false} BranchLocated(statement: OwnStatement, x: Surroundings, from: Point, event: Event)
    requires Start(from, false) && event in BranchEvents(statement, x, from)
    ensures BranchPoint(statement, x, from, event.at) && Placed(event, x)
    decreases statement, 4
  {
    PushStart(from, false);
    StatementLocated(statement, x, Later(from, PushScope(from.state)), event);
  }

  lemma {:induction false} StatementLocated(statement: OwnStatement, x: Surroundings, from: Point, event: Event)
    requires Inside(from, false) && event in StatementEvents(statement, x, from)
    ensures StatementPoint(statement, x, from, event.at) && Placed(event, x)
    decreases statement, 2
  {
    if statement.kind.BlockStatement? {
      BlockLocated(statement.kind.block, x, from, event);
    } else if statement.kind.Local? {
      LocalLocated(statement.kind.local, from, event);
    } else if statement.kind.Return? {
      ReturnLocated(statement, x, from, event);
    } else if statement.kind.Throw? {
      OptionalLocated(statement.kind.error, from, event);
    } else if statement.kind.Try? {
      TryLocated(statement, x, from, event);
    } else if statement.kind.If? {
      IfLocated(statement, x, from, event);
    } else if statement.kind.While? {
      WhileLocated(statement, x, from, event);
    } else if statement.kind.For? {
      ForLocated(statement, x, from, event);
    } else if statement.kind.Expression? {
      ExpressionLocated(statement.kind.expression, Read, from, event);
    }
  }

  lemma {:induction false} IfLocated(statement: OwnStatement, x: Surroundings, from: Point, event: Event)
    requires statement.kind.If? && Start(from, false) && event in IfEvents(statement, x, from)
    ensures IfPoint(statement, x, from, event.at) && Placed(event, x)
    decreases statement, 1
  {
    var branching := Later(from, Check(statement.kind.condition, Read, from.state).state);
    CheckSound(statement.kind.condition, Read, from, false);
    if event in ExpressionEvents(statement.kind.condition, Read, from) {
      ExpressionLocated(statement.kind.condition, Read, from, event);
    } else if event in BranchEvents(statement.kind.thenBranch, x, branching) {
      BranchLocated(statement.kind.thenBranch, x, branching, event);
    } else {
      BranchLocated(statement.kind.elseBranch.value, x, branching, event);
    }
  }

  lemma {:induction false} TryLocated(statement: OwnStatement, x: Surroundings, from: Point, event: Event)
    requires statement.kind.Try? && Start(from, false) && event in TryEvents(statement, x, from)
    ensures TryPoint(statement, x, from, event.at) && Placed(event, x)
    decreases statement, 1
  {
    var guarded := statement.kind.guarded;
    if event in BlockEvents(guarded, x, from) {
      BlockLocated(guarded, x, from, event);
    } else {
      BaselineStart(guarded, x, from);
      HandlersLocated(
        statement.kind.catches, x, Later(from, CatchBaseline(from.state, AnalyzeBlock(guarded, x, from.state).throws)),
        event);
    }
  }

  lemma {:induction false} HandlersLocated(catches: seq<OwnCatch>, x: Surroundings, from: Point, event: Event)
    requires Start(from, false) && event in HandlersEvents(catches, x, from)
    ensures HandlersPoint(catches, x, from, event.at) && Placed(event, x)
    decreases catches, 0
  {
    if event in HandlerEvents(catches[0], x, from) {
      HandlerLocated(catches[0], x, from, event);
    } else {
      HandlersLocated(catches[1..], x, from, event);
      var i :| 0 <= i < |catches[1..]| && HandlerPoint(catches[1..][i], x, from, event.at);
      assert HandlerPoint(catches[i + 1], x, from, event.at);
    }
  }

  lemma {:induction false} HandlerLocated(clause: OwnCatch, x: Surroundings, from: Point, event: Event)
    requires Start(from, false) && event in HandlerEvents(clause, x, from)
    ensures HandlerPoint(clause, x, from, event.at) && Placed(event, x)
    decreases clause, 0
  {
    PushStart(from, false);
    if clause.binding.Some? {
      DeclaredStart(clause.binding.value, x, Later(from, PushScope(from.state)));
    }
    BodyLocated(clause.body, x, Later(from, DeclareCatch(clause.binding, x, PushScope(from.state))), event);
  }

  lemma {:induction false} BodyLocated(b: OwnBlock, x: Surroundings, from: Point, event: Event)
    requires Inside(from, false) && event in BodyEvents(b, x, from)
    ensures BodyPoint(b, x, from, event.at) && Placed(event, x)
    decreases b, 0
  {
    ListLocated(b.statements, x, from, event);
  }

  // ----- loops -----

  lemma {:induction false} WhileLocated(statement: OwnStatement, x: Surroundings, from: Point, event: Event)
    requires statement.kind.While? && Start(from, false) && event in WhileEvents(statement, x, from)
    ensures WhilePoint(statement, x, from, event.at) && Placed(event, x)
    decreases statement, 1
  {
    var condition, body := statement.kind.condition, statement.kind.body;
    var inside := Later(from, PushScope(from.state));
    PushStart(from, false);
    if event in ExpressionEvents(condition, Read, inside) {
      ExpressionLocated(condition, Read, inside, event);
    } else {
      CheckSound(condition, Read, inside, false);
      LoopLocated(
        [], body, None, Some(condition), InLoop(x), Later(inside, Check(condition, Read, inside.state).state), event);
    }
  }

  lemma {:induction false} ForLocated(statement: OwnStatement, x: Surroundings, from: Point, event: Event)
    requires statement.kind.For? && Start(from, false) && event in ForEvents(statement, x, from)
    ensures ForPoint(statement, x, from, event.at) && Placed(event, x)
    decreases statement, 1
  {
    var inside := Later(from, PushScope(from.state));
    PushStart(from, false);
    if statement.kind.clause.Classic? {
      ClassicLocated(statement.kind.clause, statement.kind.body, InLoop(x), inside, event);
    } else {
      RangeLocated(statement.kind.clause, statement.kind.body, InLoop(x), inside, event);
    }
  }

  lemma InitializerLocated(initializer: Option<ForInitializer<Expression>>, from: Point, event: Event)
    requires Start(from, false) && event in InitializerEvents(initializer, from)
    ensures InitializerPoint(initializer, from, event.at) && Inner(event)
  {
    match initializer.value
    case InitializerLocal(local) => LocalLocated(local, from, event);
    case InitializerExpression(e) => ExpressionLocated(e, Read, from, event);
  }

  lemma {:induction false} ClassicLocated(
    clause: ForClause<Expression>, body: OwnStatement, x: Surroundings, from: Point, event: Event)
    requires clause.Classic? && Inside(from, false) && event in ClassicEvents(clause, body, x, from)
    ensures ClassicPoint(clause, body, x, from, event.at) && Placed(event, x)
    decreases body, 6
  {
    var ready := Later(from, AnalyzeInitializer(clause.initializer, x, from.state).state);
    InitializerStart(clause.initializer, x, from, false);
    if event in InitializerEvents(clause.initializer, from) {
      InitializerLocated(clause.initializer, from, event);
    } else if event in OptionalEvents(clause.condition, ready) {
      OptionalLocated(clause.condition, ready, event);
    } else {
      OptionalSound(clause.condition, ready, false);
      LoopLocated(
        [], body, clause.update, clause.condition, x, Later(ready, CheckOptional(clause.condition, ready.state).state),
        event);
    }
  }

  lemma IterableLocated(clause: ForClause<Expression>, from: Point, event: Event)
    requires clause.Range? && Start(from, false)
    requires event in IterableEvents(clause.bindings, clause.iterable, clause.json, from)
    ensures var usage := RangeUsage(clause.bindings, clause.iterable, clause.json);
            var c := Check(clause.iterable, usage, from.state);
            var mutable := AnyMutableReference(clause.bindings);
            || ExpressionPoint(clause.iterable, usage, from, event.at)
            || (&& !clause.json && (AnyReference(clause.bindings) || !clause.iterable.kind.Move?)
                && BorrowPoint(c.origin, mutable, clause.iterable.span, Later(from, c.state), event.at))
    ensures Inner(event)
  {
    var usage := RangeUsage(clause.bindings, clause.iterable, clause.json);
    IterableEventsAre(clause.bindings, clause.iterable, clause.json, from);
    if event in ExpressionEvents(clause.iterable, usage, from) {
      ExpressionLocated(clause.iterable, usage, from, event);
    } else {
      LoanLocated(clause.iterable, usage, AnyMutableReference(clause.bindings), from, event);
    }
  }

  lemma {:induction false} RangeLocated(
    clause: ForClause<Expression>, body: OwnStatement, x: Surroundings, from: Point, event: Event)
    requires clause.Range? && Start(from, false) && event in RangeEvents(clause, body, x, from)
    ensures RangePoint(clause, body, x, from, event.at) && Placed(event, x)
    decreases body, 6
  {
    var (c, loan) := RangeStart(clause.bindings, clause.iterable, clause.json, from.state);
    if event in IterableEvents(clause.bindings, clause.iterable, clause.json, from) {
      IterableLocated(clause, from, event);
    } else {
      RangeStartSound(clause, from, false);
      LoopLocated(clause.bindings, body, None, None, x, Point(c.state, from.held + Taken(loan)), event);
    }
  }

  lemma {:induction false} LoopLocated(
    bindings: seq<RangeBinding>, body: OwnStatement, update: Option<Expression>, condition: Option<Expression>,
    x: Surroundings, from: Point, event: Event)
    requires Start(from, false) && event in LoopEvents(bindings, body, update, condition, x, from)
    ensures LoopPoint(bindings, body, update, condition, x, from, event.at) && Placed(event, x)
    decreases body, 5
  {
    if event in IterationEvents(bindings, body, update, condition, x, from) {
      IterationLocated(bindings, body, update, condition, x, from, event);
    } else {
      var next := Iterate(bindings, body, update, condition, x, from.state).next;
      IterateStart(bindings, body, update, condition, x, from, false);
      IterationLocated(bindings, body, update, condition, x, Later(from, next.value), event);
    }
  }

  lemma {:induction false} IterationLocated(
    bindings: seq<RangeBinding>, body: OwnStatement, update: Option<Expression>, condition: Option<Expression>,
    x: Surroundings, from: Point, event: Event)
    requires Start(from, false) && event in IterationEvents(bindings, body, update, condition, x, from)
    ensures IteratePoint(bindings, body, update, condition, x, from, event.at) && Placed(event, x)
    decreases body, 3
  {
    var inside := Later(from, DeclareRange(bindings, x, PushScope(from.state)));
    InsideStart(bindings, x, from, false);
    if event in StatementEvents(body, x, inside) {
      StatementLocated(body, x, inside, event);
    } else {
      TailsStart(body, x, inside, |from.state.scopes|, false);
      TailsValid(bindings, body, x, from.state);
      TailsLocated(
        update, condition, TailStates(Analyze(body, x, inside.state), |from.state.scopes|), from, event);
    }
  }

  lemma {:induction false} TailsLocated(
    update: Option<Expression>, condition: Option<Expression>, states: seq<FlowState>, from: Point, event: Event)
    requires AllKept(states, from.held, false) && AllSame(from.state, states)
    requires event in TailsEvents(update, condition, states, from)
    ensures TailsPoint(update, condition, states, from, event.at) && Inner(event)
    decreases |states|
  {
    if event in TailEvents(update, condition, Later(from, states[0])) {
      TailLocated(update, condition, Later(from, states[0]), event);
    } else {
      TailsLocated(update, condition, states[1..], from, event);
      var i :| 0 <= i < |states[1..]| && TailPoint(update, condition, Later(from, states[1..][i]), event.at);
      assert TailPoint(update, condition, Later(from, states[i + 1]), event.at);
    }
  }

  lemma TailLocated(update: Option<Expression>, condition: Option<Expression>, from: Point, event: Event)
    requires Start(from, false) && event in TailEvents(update, condition, from)
    ensures TailPoint(update, condition, from, event.at) && Inner(event)
  {
    if event in OptionalEvents(update, from) {
      OptionalLocated(update, from, event);
    } else {
      OptionalSound(update, from, false);
      OptionalLocated(condition, Later(from, CheckOptional(update, from.state).state), event);
    }
  }

  /** What a function does happens in states its analysis passes through. */
  lemma FunctionLocated(parameters: seq<Parameter>, body: OwnBlock, x: Surroundings, event: Event)
    requires event in FunctionEvents(parameters, body, x)
    ensures FunctionPoint(parameters, body, x, event.at) && Placed(event, x)
  {
    var start := Point(DeclareParameters(parameters, PushScope(EMPTY_STATE)), multiset{});
    ParametersBalanced(parameters, PushScope(EMPTY_STATE));
    BalancedIsKept(start.state, multiset{}, false);
    BodyLocated(body, x, start, event);
  }

  // ----- uses and loans -----

  /** There is a loan on the binding, of a reference or of a call or a loop under way. */
  ghost predicate Lent(p: Point, owner: nat, mutable: bool) {
    || Loan(owner, mutable) in p.held
    || exists i :: 0 <= i < |p.state.bindings| && Active(p.state.bindings[i], Loan(owner, mutable))
  }

  /** The binding can be used so: it has a value where one is needed, and no loan stands against it. */
  ghost predicate Allowed(event: Event)
    requires event.Use? && InRange(event)
  {
    && (NeedsValue(event.manner) ==> event.at.state.bindings[event.id].availability.Available?)
    && !Lent(event.at, event.id, true)
    && (Exclusive(event.manner) ==> !Lent(event.at, event.id, false))
  }

  lemma LoansShow(s: FlowState, held: multiset<Loan>, owner: nat, mutable: bool)
    requires Balanced(s, held) && owner < |s.bindings|
    ensures var shows := if mutable then s.bindings[owner].mutablyBorrowed else s.bindings[owner].sharedBorrows > 0;
            shows <==> Lent(Point(s, held), owner, mutable)
  {
    var loan := Loan(owner, mutable);
    assert Accounted(s.bindings, held, owner);
    if i :| 0 <= i < |s.bindings| && Active(s.bindings[i], loan) {
      SomeBorrower(s.bindings, i, loan);
    } else {
      NoBorrowers(s.bindings, loan);
    }
  }

  /** No complaint about a use means that no loan stands against it. */
  lemma QuietUseIsAllowed(event: Event, borrow: Option<nat>)
    requires event.Use? && InRange(event) && Sound(event.at, false)
    requires Complaint(event, borrow) == []
    ensures Allowed(event)
  {
    var s, held := event.at.state, event.at.held;
    var leaked :| Balanced(s, held + leaked);
    LoansShow(s, held + leaked, event.id, true);
    LoansShow(s, held + leaked, event.id, false);
    assert forall loan :: loan in held ==> loan in held + leaked;
    assert forall mutable :: Lent(event.at, event.id, mutable) ==> Lent(Point(s, held + leaked), event.id, mutable);
  }

  lemma ExactUses(event: Event, borrow: Option<nat>)
    requires event.Use? && InRange(event) && Balanced(event.at.state, event.at.held)
    ensures Complaint(event, borrow) == [] <==> Allowed(event)
  {
    LoansShow(event.at.state, event.at.held, event.id, true);
    LoansShow(event.at.state, event.at.held, event.id, false);
  }

  lemma {:induction false} QuietEvents(events: seq<Event>, borrow: Option<nat>)
    ensures Complaints(events, borrow) == [] <==> forall event :: event in events ==> Complaint(event, borrow) == []
    decreases |events|
  {
    if |events| > 0 {
      QuietEvents(events[1..], borrow);
      assert events == [events[0]] + events[1..];
    }
  }

  /**
   In an accepted function nothing is moved, written or lent mutably while there is a loan on it, nothing is
   read or lent while there is a mutable loan on it, and nothing is used without its value.
   */
  lemma AcceptedUsesAreAllowed(parameters: seq<Parameter>, body: OwnBlock, x: Surroundings, event: Event)
    requires AnalyzeFunction(parameters, body, x).reports == []
    requires event in FunctionEvents(parameters, body, x) && event.Use?
    ensures InRange(event) && Allowed(event)
  {
    FunctionReported(parameters, body, x);
    QuietEvents(FunctionEvents(parameters, body, x), x.returnBorrow);
    FunctionLocated(parameters, body, x, event);
    FunctionSound(parameters, body, x, event.at, false);
    QuietUseIsAllowed(event, x.returnBorrow);
  }

  /** Without `try`, that is all the pass complains about when a binding is used. */
  lemma AllowedUsesAreAccepted(parameters: seq<Parameter>, body: OwnBlock, x: Surroundings, event: Event)
    requires event in FunctionEvents(parameters, body, x) && event.Use? && TryFreeBlock(body)
    ensures InRange(event) && (Complaint(event, x.returnBorrow) == [] <==> Allowed(event))
  {
    FunctionLocated(parameters, body, x, event);
    LoansHoldThroughout(parameters, body, x, event.at);
    ExactUses(event, x.returnBorrow);
  }

  // ----- returned references -----

  /** What a reference borrows from; a guard stands for what it guards. */
  ghost predicate BorrowsFrom(s: FlowState, id: nat, owner: nat) {
    && id < |s.bindings| && !IsGuard(s.bindings[id].ty)
    && s.bindings[id].referenceLoan.Some? && s.bindings[id].referenceLoan.value.owner == owner
  }

  /** From the binding over what it borrows from to one that borrows from nothing. */
  ghost predicate LoanChain(s: FlowState, chain: seq<nat>, id: nat, root: nat) {
    && |chain| > 0 && chain[0] == id && chain[|chain| - 1] == root
    && (forall i :: 0 <= i < |chain| - 1 ==> BorrowsFrom(s, chain[i], chain[i + 1]))
    && (forall owner :: !BorrowsFrom(s, root, owner))
  }

  ghost predicate EndsAt(s: FlowState, id: nat, root: nat) {
    exists chain :: LoanChain(s, chain, id, root)
  }

  ghost predicate OwnersOlder(s: FlowState) {
    forall i :: 0 <= i < |s.bindings| ==> Chained(s.bindings[i], i)
  }

  lemma {:induction false} RootIsReached(s: FlowState, id: nat) returns (chain: seq<nat>)
    requires OwnersOlder(s)
    ensures LoanChain(s, chain, id, RootOrigin(s, id))
    decreases id
  {
    if id < |s.bindings| && s.bindings[id].referenceLoan.Some? && !IsGuard(s.bindings[id].ty) {
      assert Chained(s.bindings[id], id);
      var owner := s.bindings[id].referenceLoan.value.owner;
      var rest := RootIsReached(s, owner);
      chain := [id] + rest;
      forall i | 0 <= i < |chain| - 1
        ensures BorrowsFrom(s, chain[i], chain[i + 1])
      {
        if i > 0 {
          assert BorrowsFrom(s, rest[i - 1], rest[i]);
        }
      }
    } else {
      chain := [id];
    }
  }

  lemma {:induction false} ChainReachesRoot(s: FlowState, chain: seq<nat>, id: nat, root: nat)
    requires OwnersOlder(s) && LoanChain(s, chain, id, root)
    ensures root == RootOrigin(s, id)
    decreases |chain|
  {
    if |chain| > 1 {
      assert BorrowsFrom(s, chain[0], chain[1]) && Chained(s.bindings[id], id);
      forall i | 0 <= i < |chain[1..]| - 1
        ensures BorrowsFrom(s, chain[1..][i], chain[1..][i + 1])
      {
        assert BorrowsFrom(s, chain[i + 1], chain[i + 2]);
      }
      ChainReachesRoot(s, chain[1..], chain[1], root);
    } else if id < |s.bindings| && s.bindings[id].referenceLoan.Some? {
      assert !BorrowsFrom(s, id, s.bindings[id].referenceLoan.value.owner);
    }
  }

  /** The end of the chain of loans is found. */
  lemma RootIsTheEnd(s: FlowState, id: nat, root: nat)
    requires OwnersOlder(s)
    ensures EndsAt(s, id, root) <==> root == RootOrigin(s, id)
  {
    var chain := RootIsReached(s, id);
    if EndsAt(s, id, root) {
      var other :| LoanChain(s, other, id, root);
      ChainReachesRoot(s, other, id, root);
    }
  }

  /** The binding a function may return references to: its receiver, or its only reference parameter. */
  ghost predicate IsInput(receiver: Option<Parameter>, parameters: seq<Parameter>, id: nat) {
    if receiver.Some? then id == 0
    else
      && id < |parameters| && parameters[id].ty.Reference?
      && forall i :: 0 <= i < |parameters| && parameters[i].ty.Reference? ==> i == id
  }

  lemma {:induction false} ReferencesAre(parameters: seq<Parameter>, id: nat)
    ensures id in References(parameters) <==> id < |parameters| && parameters[id].ty.Reference?
    decreases |parameters|
  {
    if |parameters| > 0 {
      var last: nat := |parameters| - 1;
      ReferencesAre(parameters[..last], id);
      assert References(parameters)
        == References(parameters[..last]) + if parameters[last].ty.Reference? then [last] else [];
    }
  }

  ghost predicate Ordered(ids: seq<nat>) {
    forall i, j :: 0 <= i < j < |ids| ==> ids[i] < ids[j]
  }

  lemma {:induction false} ReferencesOrdered(parameters: seq<Parameter>)
    ensures Ordered(References(parameters))
    decreases |parameters|
  {
    if |parameters| > 0 {
      ReferencesOrdered(parameters[..|parameters| - 1]);
    }
  }

  lemma InputIsReturnBorrow(receiver: Option<Parameter>, parameters: seq<Parameter>, id: nat)
    ensures ReturnBorrow(receiver, parameters, true) == Some(id) <==> IsInput(receiver, parameters, id)
  {
    if receiver.None? {
      var all := References(parameters);
      ReferencesAre(parameters, id);
      if |all| == 1 {
        forall i: nat | i < |parameters| && parameters[i].ty.Reference?
          ensures i == all[0]
        {
          ReferencesAre(parameters, i);
        }
      } else if |all| > 1 {
        ReferencesOrdered(parameters);
        ReferencesAre(parameters, all[0]);
        ReferencesAre(parameters, all[1]);
      }
    }
  }

  /** The returned expression has an origin, and its loans lead to where those of the input lead. */
  ghost predicate ComesFromInput(event: Event, receiver: Option<Parameter>, parameters: seq<Parameter>)
    requires event.Returned?
  {
    && event.origin.Some?
    && exists input, root ::
         && IsInput(receiver, parameters, input)
         && EndsAt(event.at.state, event.origin.value, root) && EndsAt(event.at.state, input, root)
  }

  lemma ReturnsExactly(event: Event, receiver: Option<Parameter>, parameters: seq<Parameter>)
    requires event.Returned? && OwnersOlder(event.at.state)
    ensures Complaint(event, ReturnBorrow(receiver, parameters, true)) == []
            <==> ComesFromInput(event, receiver, parameters)
  {
    var s, borrow := event.at.state, ReturnBorrow(receiver, parameters, true);
    if event.origin.Some? {
      var root := RootOrigin(s, event.origin.value);
      if borrow.Some? {
        InputIsReturnBorrow(receiver, parameters, borrow.value);
        RootIsTheEnd(s, event.origin.value, root);
        RootIsTheEnd(s, borrow.value, root);
      }
      if ComesFromInput(event, receiver, parameters) {
        var input, end :|
          && IsInput(receiver, parameters, input)
          && EndsAt(s, event.origin.value, end) && EndsAt(s, input, end);
        InputIsReturnBorrow(receiver, parameters, input);
        RootIsTheEnd(s, event.origin.value, end);
        RootIsTheEnd(s, input, end);
      }
    }
  }

  lemma OwnersOlderThroughout(parameters: seq<Parameter>, body: OwnBlock, x: Surroundings, p: Point)
    requires FunctionPoint(parameters, body, x, p)
    ensures OwnersOlder(p.state)
  {
    FunctionSound(parameters, body, x, p, false);
    var leaked :| Balanced(p.state, p.held + leaked);
  }

  /** The surroundings of the body of a function. */
  function BodyOf(receiver: Option<Parameter>, parameters: seq<Parameter>, byReference: bool): Surroundings {
    Surroundings(0, byReference, ReturnBorrow(receiver, parameters, byReference))
  }

  /** A returned reference is reported exactly if it does not come from the input. */
  lemma ReturnsAreReported(
    receiver: Option<Parameter>, parameters: seq<Parameter>, body: OwnBlock, event: Event)
    requires var x := BodyOf(receiver, parameters, true);
             event in FunctionEvents(AllParameters(receiver, parameters), body, x) && event.Returned?
    ensures Complaint(event, ReturnBorrow(receiver, parameters, true))
            == if ComesFromInput(event, receiver, parameters) then [] else [Report("OWN005", event.span)]
  {
    var x := BodyOf(receiver, parameters, true);
    FunctionLocated(AllParameters(receiver, parameters), body, x, event);
    OwnersOlderThroughout(AllParameters(receiver, parameters), body, x, event.at);
    ReturnsExactly(event, receiver, parameters);
  }

  // ----- all together -----

  /** What the pass has nothing to say about, in terms of the bindings and what they borrow from. */
  ghost predicate Fine(event: Event, receiver: Option<Parameter>, parameters: seq<Parameter>)
    requires InRange(event)
  {
    match event
    case Use(at, id, manner, _) =>
      var b := at.state.bindings[id];
      && (NeedsValue(manner) ==> b.availability.Available?)
      && !b.mutablyBorrowed && (Exclusive(manner) ==> b.sharedBorrows == 0)
    case Baseless(_, _) => false
    case Returned(_, _, _) => ComesFromInput(event, receiver, parameters)
  }

  lemma FineExactly(
    receiver: Option<Parameter>, parameters: seq<Parameter>, body: OwnBlock, byReference: bool, event: Event)
    requires var x := BodyOf(receiver, parameters, byReference);
             event in FunctionEvents(AllParameters(receiver, parameters), body, x)
    ensures InRange(event)
    ensures Complaint(event, ReturnBorrow(receiver, parameters, byReference)) == []
            <==> Fine(event, receiver, parameters)
  {
    FunctionLocated(AllParameters(receiver, parameters), body, BodyOf(receiver, parameters, byReference), event);
    if event.Returned? {
      ReturnsAreReported(receiver, parameters, body, event);
    }
  }

  /**
   A function is accepted exactly if every use finds its binding with a value and no conflicting loan, every
   lasting loan is one on a binding, and every returned reference comes from the input.
   */
  lemma AcceptedExactly(receiver: Option<Parameter>, parameters: seq<Parameter>, body: OwnBlock, byReference: bool)
    ensures var x := BodyOf(receiver, parameters, byReference);
            var events := FunctionEvents(AllParameters(receiver, parameters), body, x);
            AnalyzeFunction(AllParameters(receiver, parameters), body, x).reports == []
            <==> forall event :: event in events ==> InRange(event) && Fine(event, receiver, parameters)
  {
    var x := BodyOf(receiver, parameters, byReference);
    var all := AllParameters(receiver, parameters);
    var events := FunctionEvents(all, body, x);
    FunctionReported(all, body, x);
    QuietEvents(events, x.returnBorrow);
    forall event | event in events
      ensures InRange(event) && (Complaint(event, x.returnBorrow) == [] <==> Fine(event, receiver, parameters))
    {
      FineExactly(receiver, parameters, body, byReference, event);
    }
  }

  // ----- when loans end -----

  /** The loan is not needed behind the position: by its last use, or by its declaration if it has none. */
  predicate Due(b: Binding, position: nat, loopDepth: nat) {
    && (loopDepth > 0 ==> b.loopDepth >= loopDepth)
    && match b.lastUse
       case Some(use) => use.end <= position
       case None => b.declarationSpan.end <= position
  }

  ghost predicate SameLifetimes(s: FlowState, t: FlowState) {
    && |t.bindings| == |s.bindings|
    && forall i :: 0 <= i < |s.bindings| ==>
         && t.bindings[i].lastUse == s.bindings[i].lastUse
         && t.bindings[i].declarationSpan == s.bindings[i].declarationSpan
         && t.bindings[i].loopDepth == s.bindings[i].loopDepth
  }

  lemma EndsOne(s: FlowState, id: nat)
    ensures var t := EndReferenceLoan(s, id);
            && SameLifetimes(s, t)
            && forall i :: 0 <= i < |s.bindings| ==>
                 (t.bindings[i].loanActive <==> s.bindings[i].loanActive && i != id)
  {
  }

  lemma {:induction false} EndsDueOnes(s: FlowState, ids: seq<nat>, position: nat, loopDepth: nat)
    ensures var t := ReleaseExpiredIn(s, ids, position, loopDepth);
            && SameLifetimes(s, t)
            && forall i :: 0 <= i < |s.bindings| ==>
                 (t.bindings[i].loanActive
                  <==> s.bindings[i].loanActive && !(i in ids && Due(s.bindings[i], position, loopDepth)))
    decreases |ids|
  {
    if |ids| > 0 {
      var s1 :=
        if ids[0] < |s.bindings| && Expired(s.bindings[ids[0]], position, loopDepth) then EndReferenceLoan(s, ids[0])
        else s;
      EndsOne(s, ids[0]);
      EndsDueOnes(s1, ids[1..], position, loopDepth);
      assert ids == [ids[0]] + ids[1..];
    }
  }

  /** Exactly the loans that are due end. */
  lemma DueLoansEnd(s: FlowState, position: nat, loopDepth: nat, held: multiset<Loan>)
    requires Balanced(s, held)
    ensures var t := ReleaseExpired(s, position, loopDepth);
            && SameLifetimes(s, t)
            && forall i :: 0 <= i < |s.bindings| ==>
                 (t.bindings[i].loanActive <==> s.bindings[i].loanActive && !Due(s.bindings[i], position, loopDepth))
  {
    EndsDueOnes(s, Flatten(s.scopeBindings), position, loopDepth);
  }

  /** Of the loans a statement leaves behind, those that are due at its end are over. */
  lemma LoansEndWithStatements(statement: OwnStatement, x: Surroundings, from: Point)
    requires Inside(from, false)
    ensures var s := Analyze(statement, x, from.state).state;
            var t := AnalyzeFirst(statement, x, from.state).state;
            |t.bindings| == |s.bindings| && forall i :: 0 <= i < |s.bindings| ==>
              (t.bindings[i].loanActive
               <==> s.bindings[i].loanActive && !Due(s.bindings[i], statement.span.end, x.loopDepth))
  {
    StatementStart(statement, x, from, false);
    var s := Analyze(statement, x, from.state).state;
    var leaked :| Balanced(s, from.held + leaked);
    DueLoansEnd(s, statement.span.end, x.loopDepth, from.held + leaked);
  }

  /** No loan that is due at the end of a loop outlasts it, not even one declared around it. */
  lemma LoansEndWithLoops(statement: OwnStatement, x: Surroundings, from: Point, i: nat)
    requires Start(from, false) && (statement.kind.While? || statement.kind.For?)
    requires var t := Analyze(statement, x, from.state).state;
             i < |t.bindings| && t.bindings[i].loanActive
    ensures var t := Analyze(statement, x, from.state).state;
            !Due(t.bindings[i], statement.kind.body.span.end, x.loopDepth)
  {
    var inside := Later(from, PushScope(from.state));
    var body := statement.kind.body;
    PushStart(from, false);
    if statement.kind.While? {
      WhileBodyEnds(statement.kind.condition, body, InLoop(x), inside, false);
      ClosedLoop(AnalyzeWhileBody(statement.kind.condition, body, InLoop(x), inside.state), from, body, x, i);
    } else {
      ForEnds(statement.kind.clause, body, InLoop(x), inside, false);
      ClosedLoop(AnalyzeFor(statement.kind.clause, body, InLoop(x), inside.state), from, body, x, i);
    }
  }

  lemma ClosedLoop(o: Outcome, from: Point, body: OwnStatement, x: Surroundings, i: nat)
    requires Sound(Later(from, o.state), false)
    requires var t := CloseLoop(o, body.span.end, x.loopDepth).state;
             i < |t.bindings| && t.bindings[i].loanActive
    ensures !Due(CloseLoop(o, body.span.end, x.loopDepth).state.bindings[i], body.span.end, x.loopDepth)
  {
    var s := PopScope(o.state);
    PopKept(o.state, from.held, false);
    var leaked :| Balanced(s, from.held + leaked);
    DueLoansEnd(s, body.span.end, x.loopDepth, from.held + leaked);
  }

  /**
   A reference declared in a loop of depth `depth` keeps its loan up to its last use, and while a deeper
   loop is analysed.
   */
  lemma LoansLastToTheirLastUse(
    s: FlowState, name: string, ty: TypeRef, loan: Loan, at: Span, lastUse: Option<Span>, depth: nat, position: nat,
    loopDepth: nat, held: multiset<Loan>)
    requires |s.scopes| > 0 && |s.scopeBindings| > 0
    requires Balanced(Declare(s, name, ty, Some(loan), at, lastUse, depth), held)
    ensures var t := ReleaseExpired(Declare(s, name, ty, Some(loan), at, lastUse, depth), position, loopDepth);
            var end := if lastUse.Some? then lastUse.value.end else at.end;
            && |t.bindings| == |s.bindings| + 1
            && (t.bindings[|s.bindings|].loanActive <==> position < end || loopDepth > depth)
  {
    DueLoansEnd(Declare(s, name, ty, Some(loan), at, lastUse, depth), position, loopDepth, held);
  }

  // ----- what is reported does not happen -----

  /** A move takes place exactly if there is no complaint about it. */
  lemma ReportedMovesDoNotHappen(s: FlowState, id: nat, at: Span)
    requires id < |s.bindings|
    ensures MarkMoved(s, id, at)
         == if UseComplaint(s.bindings[id], Moves, at) != [] then s
            else s.(bindings := s.bindings[id := s.bindings[id].(availability := Moved(at))])
  {
  }

  /** So does the assignment of a whole variable. */
  lemma ReportedRefillsDoNotHappen(name: string, at: Span, s: FlowState)
    requires Lookup(s, name).Some? && Lookup(s, name).value < |s.bindings|
    requires !s.bindings[Lookup(s, name).value].ty.Reference?
    ensures var id := Lookup(s, name).value;
            Write(Expression.Expression(Name(name), at), s).state
            == if UseComplaint(s.bindings[id], Refills, at) != [] then s
               else s.(bindings := s.bindings[id := s.bindings[id].(availability := Available)])
  {
  }

  /** And a loan is taken exactly if there is no complaint about it. */
  lemma ReportedLoansAreNotTaken(s: FlowState, id: nat, mutable: bool, at: Span)
    requires id < |s.bindings|
    ensures var (t, loan, _) := AcquireTemporary(s, Some(id), mutable, at);
            if UseComplaint(s.bindings[id], Lends(mutable), at) != [] then t == s && loan.None?
            else
              var b := s.bindings[id];
              && loan == Some(Loan(id, mutable))
              && t == s.(bindings := s.bindings[id :=
                   if mutable then b.(mutablyBorrowed := true) else b.(sharedBorrows := b.sharedBorrows + 1)])
  {
  }

  // ----- parameters -----

  lemma {:induction false} ParameterIs(parameters: seq<Parameter>, s: FlowState, i: nat)
    requires |s.scopes| > 0 && |s.scopeBindings| > 0 && i < |s.bindings| + |parameters|
    ensures var t := DeclareParameters(parameters, s);
            && |t.bindings| == |s.bindings| + |parameters|
            && (if i < |s.bindings| then t.bindings[i] == s.bindings[i]
                else
                  var p := parameters[i - |s.bindings|];
                  && t.bindings[i].name == p.name && t.bindings[i].ty == p.ty && t.bindings[i].referenceLoan.None?
                  && t.bindings[i].lastUse == p.lastUse && t.bindings[i].availability.Available?)
    decreases |parameters|
  {
    if |parameters| > 0 {
      var p := parameters[0];
      ParameterIs(parameters[1..], Declare(s, p.name, p.ty, None, p.span, p.lastUse, 0), i);
    }
  }

  /** The first bindings of a function are its receiver and its parameters, in that order. */
  lemma InputsComeFirst(receiver: Option<Parameter>, parameters: seq<Parameter>, i: nat)
    requires i < |parameters| + if receiver.Some? then 1 else 0
    ensures var t := DeclareParameters(AllParameters(receiver, parameters), PushScope(EMPTY_STATE));
            var p := if receiver.None? then parameters[i] else if i == 0 then receiver.value else parameters[i - 1];
            i < |t.bindings| && t.bindings[i].name == p.name && t.bindings[i].ty == p.ty
  {
    ParameterIs(AllParameters(receiver, parameters), PushScope(EMPTY_STATE), i);
  }
}
