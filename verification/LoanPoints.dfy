/**
 Every state the ownership pass works on while it analyses a function, with the loans that calls,
 declarations and loops under way hold there; and the account of loans in each of them.
 */
module LoanPoints {
  import opened Wrappers
  import opened Ast
  import opened FlowStates
  import opened Ownership
  import opened OwnershipFrames
  import opened OwnershipScopes
  import opened OwnershipLoans
  import opened LoansKept

  /** `held`: loans that are taken and belong to no binding yet, or never will. */
  datatype Point = Point(state: FlowState, held: multiset<Loan>)

  function Later(from: Point, s: FlowState): Point {
    from.(state := s)
  }

  function Taken(loan: Option<Loan>): multiset<Loan> {
    if loan.Some? then multiset{loan.value} else multiset{}
  }

  // ----- the points of an expression -----

  ghost predicate ExpressionPoint(e: Expression, usage: Usage, from: Point, p: Point)
    decreases e, 1
  {
    p == from || p == Later(from, Check(e, usage, from.state).state) || PartPoint(e, usage, from, p)
  }

  ghost predicate PartPoint(e: Expression, usage: Usage, from: Point, p: Point)
    decreases e, 0, 1
  {
    match e.kind
    case Parenthesized(inner) => ExpressionPoint(inner, usage, from, p)
    case Operand(operand) => ExpressionPoint(operand, Read, from, p)
    case Increment(place) => ExpressionPoint(place, Mutate, from, p)
    case Field(whole) => ExpressionPoint(whole, usage, from, p)
    case Strict(left, right) =>
      || ExpressionPoint(left, Read, from, p)
      || ExpressionPoint(right, Read, Later(from, Check(left, Read, from.state).state), p)
    case Logical(left, right) =>
      || ExpressionPoint(left, Read, from, p)
      || ExpressionPoint(right, Read, Later(from, Check(left, Read, from.state).state), p)
    case Compound(target, right) =>
      || ExpressionPoint(right, Read, from, p)
      || ExpressionPoint(target, Mutate, Later(from, Check(right, Read, from.state).state), p)
    case Index(collection, index) =>
      || ExpressionPoint(collection, usage, from, p)
      || ExpressionPoint(index, Read, Later(from, Check(collection, usage, from.state).state), p)
    case Assign(target, right, _, _) =>
      || ExpressionPoint(right, Read, from, p)
      || WritePoint(target, Later(from, Check(right, Read, from.state).state), p)
    case Switch(scrutinee, arms) =>
      || ExpressionPoint(scrutinee, Read, from, p)
      || ArmsPoint(arms, usage, Later(from, Check(scrutinee, Read, from.state).state), p)
    case Call(_, _, _, _) => CallPoint(e, from, p)
    case Consume(consumed, _) => NamedBinding(consumed, from.state).None? && ExpressionPoint(consumed, Read, from, p)
    case Aggregate(initializers) => ElementsPoint(initializers, true, from, p)
    case Construct(elements, _) => ElementsPoint(elements, false, from, p)
    case _ => false
  }

  ghost predicate WritePoint(target: Expression, from: Point, p: Point)
    decreases target, 2
  {
    match target.kind
    case Parenthesized(inner) => WritePoint(inner, from, p)
    case Name(name) => p == from || p == Later(from, Write(target, from.state).state)
    case _ => ExpressionPoint(target, Mutate, from, p)
  }

  ghost predicate ArmsPoint(arms: seq<Expression>, usage: Usage, from: Point, p: Point)
    decreases arms, 0
  {
    exists i :: 0 <= i < |arms| && ExpressionPoint(arms[i], usage, from, p)
  }

  ghost predicate ElementsPoint(elements: seq<Element>, recorded: bool, from: Point, p: Point)
    decreases elements, 0
  {
    && |elements| > 0
    && (|| ElementPoint(elements[0], from, p)
        || ElementsPoint(
          elements[1..], recorded, Later(from, CheckElement(elements[0], recorded, from.state).state), p))
  }

  ghost predicate ElementPoint(element: Element, from: Point, p: Point)
    decreases element, 0
  {
    ExpressionPoint(element.value, Read, from, p)
  }

  /** Where operands are done and their loans are held. */
  function Loaned(from: Point, c: CheckedAll): Point {
    Point(c.state, from.held + multiset(c.loans))
  }

  ghost predicate PassedPoint(value: Expression, passing: Passing, from: Point, p: Point)
    decreases value, 2
  {
    || ExpressionPoint(value, PassingUsage(passing), from, p)
    || p == Loaned(from, CheckPassed(value, passing, from.state))
  }

  ghost predicate ReceiverPoint(receiver: Option<Receiver>, from: Point, p: Point)
    decreases receiver, 0
  {
    receiver.Some? && PassedPoint(receiver.value.value, receiver.value.passing, from, p)
  }

  ghost predicate ArgumentPoint(argument: Argument, from: Point, p: Point)
    decreases argument, 0
  {
    PassedPoint(argument.value, argument.passing, from, p)
  }

  ghost predicate ArgumentsPoint(arguments: seq<Argument>, from: Point, p: Point)
    decreases arguments, 0
  {
    && |arguments| > 0
    && (|| ArgumentPoint(arguments[0], from, p)
        || ArgumentsPoint(arguments[1..], Loaned(from, CheckArgument(arguments[0], from.state)), p))
  }

  /** Between giving back one loan and the next. */
  ghost predicate ReleasePoint(loans: seq<Loan>, from: Point, p: Point)
    decreases |loans|
  {
    || p == from
    || (&& |loans| > 0
        && ReleasePoint(
             loans[..|loans| - 1],
             Point(Release(from.state, loans[|loans| - 1]), from.held - multiset{loans[|loans| - 1]}), p))
  }

  ghost predicate CallPoint(e: Expression, from: Point, p: Point)
    requires e.kind.Call?
    decreases e, 0, 0
  {
    var r := CheckReceiver(e.kind.receiver, from.state);
    var a := CheckArguments(e.kind.arguments, r.state);
    || ReceiverPoint(e.kind.receiver, from, p)
    || ArgumentsPoint(e.kind.arguments, Loaned(from, r), p)
    || ReleasePoint(a.loans, Loaned(Loaned(from, r), a), p)
    || ReleasePoint(r.loans, Point(ReleaseAll(a.state, a.loans), from.held + multiset(r.loans)), p)
  }

  // ----- the account in the points of an expression -----

  /** The account at a point: exact, or up to loans a handler may have inherited. */
  ghost predicate Sound(p: Point, exact: bool) {
    Kept(p.state, p.held, exact)
  }

  ghost predicate Start(from: Point, exact: bool) {
    Valid(from.state) && Sound(from, exact)
  }

  lemma CheckSound(e: Expression, usage: Usage, from: Point, exact: bool)
    requires Start(from, exact)
    ensures Start(Later(from, Check(e, usage, from.state).state), exact)
  {
    var leaked :| (exact ==> leaked == multiset{}) && Balanced(from.state, from.held + leaked);
    ExpressionKept(e, usage, from.state, from.held + leaked);
    CheckedSame(e, usage, from.state);
  }

  lemma OptionalSound(e: Option<Expression>, from: Point, exact: bool)
    requires Start(from, exact)
    ensures Start(Later(from, CheckOptional(e, from.state).state), exact)
  {
    if e.Some? {
      CheckSound(e.value, Read, from, exact);
    }
  }

  lemma {:induction false} ExpressionSound(e: Expression, usage: Usage, from: Point, p: Point, exact: bool)
    requires Start(from, exact) && ExpressionPoint(e, usage, from, p)
    ensures Sound(p, exact)
    decreases e, 1
  {
    CheckSound(e, usage, from, exact);
    if PartPoint(e, usage, from, p) {
      PartSound(e, usage, from, p, exact);
    }
  }

  lemma {:induction false} PartSound(e: Expression, usage: Usage, from: Point, p: Point, exact: bool)
    requires Start(from, exact) && PartPoint(e, usage, from, p)
    ensures Sound(p, exact)
    decreases e, 0, 1
  {
    match e.kind
    case Parenthesized(inner) => ExpressionSound(inner, usage, from, p, exact);
    case Operand(operand) => ExpressionSound(operand, Read, from, p, exact);
    case Increment(place) => ExpressionSound(place, Mutate, from, p, exact);
    case Field(whole) => ExpressionSound(whole, usage, from, p, exact);
    case Strict(left, right) => PairSound(e, left, Read, right, Read, from, p, exact);
    case Logical(left, right) => PairSound(e, left, Read, right, Read, from, p, exact);
    case Compound(target, right) => PairSound(e, right, Read, target, Mutate, from, p, exact);
    case Index(collection, index) => PairSound(e, collection, usage, index, Read, from, p, exact);
    case Assign(_, _, _, _) => AssignSound(e, usage, from, p, exact);
    case Switch(_, _) => SwitchSound(e, usage, from, p, exact);
    case Call(_, _, _, _) => CallSound(e, from, p, exact);
    case Consume(consumed, _) => ExpressionSound(consumed, Read, from, p, exact);
    case Aggregate(initializers) => ElementsSound(initializers, true, from, p, exact);
    case Construct(elements, _) => ElementsSound(elements, false, from, p, exact);
    case _ =>
  }

  lemma {:induction false} PairSound(
    e: Expression, first: Expression, firstUsage: Usage, second: Expression, secondUsage: Usage, from: Point, p: Point,
    exact: bool)
    requires first < e && second < e && Start(from, exact)
    requires || ExpressionPoint(first, firstUsage, from, p)
             || ExpressionPoint(second, secondUsage, Later(from, Check(first, firstUsage, from.state).state), p)
    ensures Sound(p, exact)
    decreases e, 0, 0
  {
    if ExpressionPoint(first, firstUsage, from, p) {
      ExpressionSound(first, firstUsage, from, p, exact);
    } else {
      CheckSound(first, firstUsage, from, exact);
      ExpressionSound(second, secondUsage, Later(from, Check(first, firstUsage, from.state).state), p, exact);
    }
  }

  lemma {:induction false} AssignSound(e: Expression, usage: Usage, from: Point, p: Point, exact: bool)
    requires Start(from, exact) && e.kind.Assign? && PartPoint(e, usage, from, p)
    ensures Sound(p, exact)
    decreases e, 0, 0
  {
    if ExpressionPoint(e.kind.right, Read, from, p) {
      ExpressionSound(e.kind.right, Read, from, p, exact);
    } else {
      CheckSound(e.kind.right, Read, from, exact);
      WriteSound(e.kind.target, Later(from, Check(e.kind.right, Read, from.state).state), p, exact);
    }
  }

  lemma {:induction false} WriteSound(target: Expression, from: Point, p: Point, exact: bool)
    requires Start(from, exact) && WritePoint(target, from, p)
    ensures Sound(p, exact)
    decreases target, 2
  {
    match target.kind
    case Parenthesized(inner) => WriteSound(inner, from, p, exact);
    case Name(_) =>
      WriteKeepsLoans(target, from.state);
      var leaked :| (exact ==> leaked == multiset{}) && Balanced(from.state, from.held + leaked);
      AvailabilityBalanced(from.state, Write(target, from.state).state, from.held + leaked);
    case _ => ExpressionSound(target, Mutate, from, p, exact);
  }

  lemma {:induction false} SwitchSound(e: Expression, usage: Usage, from: Point, p: Point, exact: bool)
    requires Start(from, exact) && e.kind.Switch? && PartPoint(e, usage, from, p)
    ensures Sound(p, exact)
    decreases e, 0, 0
  {
    if ExpressionPoint(e.kind.scrutinee, Read, from, p) {
      ExpressionSound(e.kind.scrutinee, Read, from, p, exact);
    } else {
      CheckSound(e.kind.scrutinee, Read, from, exact);
      ArmsSound(e.kind.arms, usage, Later(from, Check(e.kind.scrutinee, Read, from.state).state), p, exact);
    }
  }

  lemma {:induction false} ArmsSound(arms: seq<Expression>, usage: Usage, from: Point, p: Point, exact: bool)
    requires Start(from, exact) && ArmsPoint(arms, usage, from, p)
    ensures Sound(p, exact)
    decreases arms, 0
  {
    var i :| 0 <= i < |arms| && ExpressionPoint(arms[i], usage, from, p);
    ExpressionSound(arms[i], usage, from, p, exact);
  }

  lemma {:induction false} ElementsSound(
    elements: seq<Element>, recorded: bool, from: Point, p: Point, exact: bool)
    requires Start(from, exact) && ElementsPoint(elements, recorded, from, p)
    ensures Sound(p, exact)
    decreases elements, 0
  {
    if ElementPoint(elements[0], from, p) {
      ElementSound(elements[0], from, p, exact);
    } else {
      CheckSound(elements[0].value, Read, from, exact);
      ElementsSound(
        elements[1..], recorded, Later(from, CheckElement(elements[0], recorded, from.state).state), p, exact);
    }
  }

  lemma {:induction false} ElementSound(element: Element, from: Point, p: Point, exact: bool)
    requires Start(from, exact) && ElementPoint(element, from, p)
    ensures Sound(p, exact)
    decreases element, 0
  {
    ExpressionSound(element.value, Read, from, p, exact);
  }

  // ----- loans held during a call -----

  lemma TemporaryBalanced(s: FlowState, origin: Option<nat>, mutable: bool, at: Span, held: multiset<Loan>)
    requires Balanced(s, held) && Exists(s, origin)
    ensures var (t, loan, _) := AcquireTemporary(s, origin, mutable, at);
            Balanced(t, held + Taken(loan))
  {
    assert held + multiset{} == held;
    if origin.Some? && CheckBorrow(s, origin.value, LoanUsage(mutable), at) == [] {
      BorrowBalanced(s, Loan(origin.value, mutable), held);
    }
  }

  lemma PassedBalanced(value: Expression, passing: Passing, s: FlowState, held: multiset<Loan>)
    requires Valid(s) && Balanced(s, held)
    ensures var c := CheckPassed(value, passing, s);
            Valid(c.state) && Balanced(c.state, held + multiset(c.loans))
  {
    var usage := PassingUsage(passing);
    var c := Check(value, usage, s);
    PassedOrigin(value, passing, s);
    ExpressionKept(value, usage, s, held);
    OriginExists(value, usage, s);
    CheckedSame(value, usage, s);
    assert held + multiset{} == held;
    if !passing.ByValue? {
      TemporaryBalanced(c.state, c.origin, passing.ByMutable?, value.span, held);
    }
  }

  lemma ReceiverBalanced(receiver: Option<Receiver>, s: FlowState, held: multiset<Loan>)
    requires Valid(s) && Balanced(s, held)
    ensures var c := CheckReceiver(receiver, s);
            Valid(c.state) && Balanced(c.state, held + multiset(c.loans))
  {
    if receiver.Some? {
      PassedBalanced(receiver.value.value, receiver.value.passing, s, held);
    } else {
      assert held + multiset{} == held;
    }
  }

  lemma {:induction false} ArgumentsBalanced(arguments: seq<Argument>, s: FlowState, held: multiset<Loan>)
    requires Valid(s) && Balanced(s, held)
    ensures var c := CheckArguments(arguments, s);
            Valid(c.state) && Balanced(c.state, held + multiset(c.loans))
    decreases |arguments|
  {
    if |arguments| == 0 {
      assert held + multiset{} == held;
    } else {
      var first := CheckArgument(arguments[0], s);
      PassedBalanced(arguments[0].value, arguments[0].passing, s, held);
      ArgumentsBalanced(arguments[1..], first.state, held + multiset(first.loans));
      LoansAdd(held, first.loans, CheckArguments(arguments[1..], first.state).loans);
    }
  }

  lemma LoansAdd(held: multiset<Loan>, a: seq<Loan>, b: seq<Loan>)
    ensures held + multiset(a) + multiset(b) == held + multiset(a + b)
  {
  }

  /** Loans in use and loans a handler may have inherited, in either order. */
  lemma Reordered(held: multiset<Loan>, loans: multiset<Loan>, leaked: multiset<Loan>)
    ensures held + leaked + loans == held + loans + leaked
  {
  }

  lemma ReceiverStart(receiver: Option<Receiver>, from: Point, exact: bool)
    requires Start(from, exact)
    ensures Start(Loaned(from, CheckReceiver(receiver, from.state)), exact)
  {
    var leaked :| (exact ==> leaked == multiset{}) && Balanced(from.state, from.held + leaked);
    ReceiverBalanced(receiver, from.state, from.held + leaked);
    Reordered(from.held, multiset(CheckReceiver(receiver, from.state).loans), leaked);
  }

  lemma ArgumentsStart(arguments: seq<Argument>, from: Point, exact: bool)
    requires Start(from, exact)
    ensures Start(Loaned(from, CheckArguments(arguments, from.state)), exact)
  {
    var leaked :| (exact ==> leaked == multiset{}) && Balanced(from.state, from.held + leaked);
    ArgumentsBalanced(arguments, from.state, from.held + leaked);
    Reordered(from.held, multiset(CheckArguments(arguments, from.state).loans), leaked);
  }

  lemma PassedStart(value: Expression, passing: Passing, from: Point, exact: bool)
    requires Start(from, exact)
    ensures Start(Loaned(from, CheckPassed(value, passing, from.state)), exact)
  {
    ReceiverStart(Some(Receiver(value, passing)), from, exact);
  }

  lemma {:induction false} PassedSound(value: Expression, passing: Passing, from: Point, p: Point, exact: bool)
    requires Start(from, exact) && PassedPoint(value, passing, from, p)
    ensures Sound(p, exact)
    decreases value, 2
  {
    if ExpressionPoint(value, PassingUsage(passing), from, p) {
      ExpressionSound(value, PassingUsage(passing), from, p, exact);
    } else {
      PassedStart(value, passing, from, exact);
    }
  }

  lemma {:induction false} ReceiverSound(receiver: Option<Receiver>, from: Point, p: Point, exact: bool)
    requires Start(from, exact) && ReceiverPoint(receiver, from, p)
    ensures Sound(p, exact)
    decreases receiver, 0
  {
    PassedSound(receiver.value.value, receiver.value.passing, from, p, exact);
  }

  lemma {:induction false} ArgumentSound(argument: Argument, from: Point, p: Point, exact: bool)
    requires Start(from, exact) && ArgumentPoint(argument, from, p)
    ensures Sound(p, exact)
    decreases argument, 0
  {
    PassedSound(argument.value, argument.passing, from, p, exact);
  }

  lemma {:induction false} ArgumentsSound(arguments: seq<Argument>, from: Point, p: Point, exact: bool)
    requires Start(from, exact) && ArgumentsPoint(arguments, from, p)
    ensures Sound(p, exact)
    decreases arguments, 0
  {
    if ArgumentPoint(arguments[0], from, p) {
      ArgumentSound(arguments[0], from, p, exact);
    } else {
      PassedStart(arguments[0].value, arguments[0].passing, from, exact);
      ArgumentsSound(arguments[1..], Loaned(from, CheckArgument(arguments[0], from.state)), p, exact);
    }
  }

  /** The point after the last loan has been given back. */
  lemma ReleasedOne(from: Point, loan: Loan, exact: bool)
    requires Sound(from, exact) && loan in from.held
    ensures Sound(Point(Release(from.state, loan), from.held - multiset{loan}), exact)
  {
    var leaked :| (exact ==> leaked == multiset{}) && Balanced(from.state, from.held + leaked);
    var rest := from.held - multiset{loan};
    assert rest + leaked + multiset{loan} == from.held + leaked;
    ReleaseBalanced(from.state, loan, rest + leaked);
  }

  lemma LastLoan(loans: seq<Loan>, held: multiset<Loan>)
    requires |loans| > 0
    ensures var last := loans[|loans| - 1];
            && multiset(loans) == multiset(loans[..|loans| - 1]) + multiset{last}
            && (held + multiset(loans)) - multiset{last} == held + multiset(loans[..|loans| - 1])
  {
    assert loans == loans[..|loans| - 1] + [loans[|loans| - 1]];
  }

  lemma {:induction false} ReleasesSound(
    loans: seq<Loan>, from: Point, held: multiset<Loan>, p: Point, exact: bool)
    requires Sound(from, exact) && from.held == held + multiset(loans)
    ensures ReleasePoint(loans, from, p) ==> Sound(p, exact)
    ensures Sound(Point(ReleaseAll(from.state, loans), held), exact)
    decreases |loans|
  {
    if |loans| == 0 {
      assert from.held == held;
    } else {
      var last := loans[|loans| - 1];
      LastLoan(loans, held);
      assert last in loans;
      ReleasedOne(from, last, exact);
      ReleasesSound(
        loans[..|loans| - 1], Point(Release(from.state, last), from.held - multiset{last}), held, p, exact);
    }
  }

  lemma {:induction false} CallSound(e: Expression, from: Point, p: Point, exact: bool)
    requires Start(from, exact) && e.kind.Call? && CallPoint(e, from, p)
    ensures Sound(p, exact)
    decreases e, 0, 0
  {
    var r := CheckReceiver(e.kind.receiver, from.state);
    var a := CheckArguments(e.kind.arguments, r.state);
    var mid := Loaned(from, r);
    ReceiverStart(e.kind.receiver, from, exact);
    ArgumentsStart(e.kind.arguments, mid, exact);
    ReleasesSound(a.loans, Loaned(mid, a), mid.held, p, exact);
    ReleasesSound(r.loans, Point(ReleaseAll(a.state, a.loans), mid.held), from.held, p, exact);
    if ReceiverPoint(e.kind.receiver, from, p) {
      ReceiverSound(e.kind.receiver, from, p, exact);
    } else if ArgumentsPoint(e.kind.arguments, mid, p) {
      ArgumentsSound(e.kind.arguments, mid, p, exact);
    }
  }

  // ----- the points of a statement -----

  ghost predicate OptionalPoint(e: Option<Expression>, from: Point, p: Point) {
    e.Some? && ExpressionPoint(e.value, Read, from, p)
  }

  /** While loans that have expired are ended one after the other. */
  ghost predicate ExpirePoint(position: nat, loopDepth: nat, from: Point, p: Point) {
    var ids := Flatten(from.state.scopeBindings);
    exists k :: 0 <= k <= |ids| && p == Later(from, ReleaseExpiredIn(from.state, ids[..k], position, loopDepth))
  }

  /** While the loans of a scope are ended, newest binding first, and after the scope is gone. */
  ghost predicate PopPoint(from: Point, p: Point) {
    || p == Later(from, PopScope(from.state))
    || (&& |from.state.scopeBindings| > 0
        && var ids := from.state.scopeBindings[|from.state.scopeBindings| - 1];
           exists k :: 0 <= k <= |ids| && p == Later(from, EndLoans(from.state, ids[k..])))
  }

  /** While a lasting loan is taken. */
  ghost predicate BorrowPoint(origin: Option<nat>, mutable: bool, at: Span, from: Point, p: Point) {
    var (s, loan, _) := AcquirePersistent(from.state, origin, mutable, at);
    || p == Point(s, from.held + Taken(loan))
    || (origin.Some? && p == Later(from, EndReferenceLoan(from.state, origin.value)))
  }

  ghost predicate LocalPoint(local: LocalDeclaration<Expression>, from: Point, p: Point) {
    && local.initializer.Some?
    && var e := local.initializer.value;
       if BorrowsInitializer(local.ty) then
         var mutable := local.ty.Reference? && local.ty.mutable;
         var c := Check(e, LoanUsage(mutable), from.state);
         || ExpressionPoint(e, LoanUsage(mutable), from, p)
         || BorrowPoint(c.origin, mutable, e.span, Later(from, c.state), p)
       else
         ExpressionPoint(e, Read, from, p)
  }

  ghost predicate ReturnPoint(value: Option<Expression>, x: Surroundings, from: Point, p: Point) {
    value.Some? && !ReturnMoves(value.value, x, from.state) && ExpressionPoint(value.value, Read, from, p)
  }

  ghost predicate ListPoint(ss: seq<OwnStatement>, x: Surroundings, from: Point, p: Point)
    decreases ss, 0
  {
    || p == from
    || (&& |ss| > 0
        && var first := AnalyzeFirst(ss[0], x, from.state);
           || FirstPoint(ss[0], x, from, p)
           || (first.reachable && ListPoint(ss[1..], x, Later(from, first.state), p)))
  }

  ghost predicate FirstPoint(statement: OwnStatement, x: Surroundings, from: Point, p: Point)
    decreases statement, 3
  {
    || StatementPoint(statement, x, from, p)
    || ExpirePoint(statement.span.end, x.loopDepth, Later(from, Analyze(statement, x, from.state).state), p)
  }

  ghost predicate BlockPoint(b: OwnBlock, x: Surroundings, from: Point, p: Point)
    decreases b, 0
  {
    var inside := Later(from, PushScope(from.state));
    || ListPoint(b.statements, x, inside, p)
    || PopPoint(Later(inside, AnalyzeList(b.statements, x, inside.state).state), p)
  }

  ghost predicate BranchPoint(statement: OwnStatement, x: Surroundings, from: Point, p: Point)
    decreases statement, 4
  {
    var inside := Later(from, PushScope(from.state));
    || FirstPoint(statement, x, inside, p)
    || PopPoint(Later(inside, AnalyzeFirst(statement, x, inside.state).state), p)
  }

  ghost predicate StatementPoint(statement: OwnStatement, x: Surroundings, from: Point, p: Point)
    decreases statement, 2
  {
    || p == from
    || p == Later(from, Analyze(statement, x, from.state).state)
    || InnerPoint(statement, x, from, p)
  }

  ghost predicate InnerPoint(statement: OwnStatement, x: Surroundings, from: Point, p: Point)
    decreases statement, 1, 1
  {
    match statement.kind
    case BlockStatement(b) => BlockPoint(b, x, from, p)
    case Local(local) => LocalPoint(local, from, p)
    case Return(value) => ReturnPoint(value, x, from, p)
    case Throw(error) => OptionalPoint(error, from, p)
    case Try(_, _) => TryPoint(statement, x, from, p)
    case If(_, _, _) => IfPoint(statement, x, from, p)
    case While(_, _) => WhilePoint(statement, x, from, p)
    case For(_, _) => ForPoint(statement, x, from, p)
    case Expression(e) => ExpressionPoint(e, Read, from, p)
    case _ => false
  }

  ghost predicate IfPoint(statement: OwnStatement, x: Surroundings, from: Point, p: Point)
    requires statement.kind.If?
    decreases statement, 1, 0
  {
    var branching := Later(from, Check(statement.kind.condition, Read, from.state).state);
    || ExpressionPoint(statement.kind.condition, Read, from, p)
    || BranchPoint(statement.kind.thenBranch, x, branching, p)
    || (statement.kind.elseBranch.Some? && BranchPoint(statement.kind.elseBranch.value, x, branching, p))
  }

  ghost predicate TryPoint(statement: OwnStatement, x: Surroundings, from: Point, p: Point)
    requires statement.kind.Try?
    decreases statement, 1, 0
  {
    var g := AnalyzeBlock(statement.kind.guarded, x, from.state);
    || BlockPoint(statement.kind.guarded, x, from, p)
    || HandlersPoint(statement.kind.catches, x, Later(from, CatchBaseline(from.state, g.throws)), p)
  }

  ghost predicate HandlersPoint(catches: seq<OwnCatch>, x: Surroundings, from: Point, p: Point)
    decreases catches, 0
  {
    exists i :: 0 <= i < |catches| && HandlerPoint(catches[i], x, from, p)
  }

  ghost predicate HandlerPoint(clause: OwnCatch, x: Surroundings, from: Point, p: Point)
    decreases clause, 0
  {
    var inside := Later(from, DeclareCatch(clause.binding, x, PushScope(from.state)));
    || p == from || p == Later(from, PushScope(from.state))
    || BodyPoint(clause.body, x, inside, p)
    || PopPoint(Later(inside, AnalyzeBody(clause.body, x, inside.state).state), p)
  }

  ghost predicate BodyPoint(b: OwnBlock, x: Surroundings, from: Point, p: Point)
    decreases b, 0
  {
    ListPoint(b.statements, x, from, p)
  }

  // ----- the points of a loop -----

  /** Between the end of a loop's iterations and the statement after it. */
  ghost predicate ClosePoint(position: nat, loopDepth: nat, from: Point, p: Point) {
    PopPoint(from, p) || ExpirePoint(position, loopDepth, Later(from, PopScope(from.state)), p)
  }

  ghost predicate WhilePoint(statement: OwnStatement, x: Surroundings, from: Point, p: Point)
    requires statement.kind.While?
    decreases statement, 1, 0
  {
    var condition, body := statement.kind.condition, statement.kind.body;
    var inside := Later(from, PushScope(from.state));
    var c := Check(condition, Read, inside.state);
    || ExpressionPoint(condition, Read, inside, p)
    || LoopPoint([], body, None, Some(condition), InLoop(x), Later(inside, c.state), p)
    || ClosePoint(
         body.span.end, x.loopDepth, Later(inside, AnalyzeWhileBody(condition, body, InLoop(x), inside.state).state), p)
  }

  ghost predicate ForPoint(statement: OwnStatement, x: Surroundings, from: Point, p: Point)
    requires statement.kind.For?
    decreases statement, 1, 0
  {
    var clause, body := statement.kind.clause, statement.kind.body;
    var inside := Later(from, PushScope(from.state));
    || (if clause.Classic? then ClassicPoint(clause, body, InLoop(x), inside, p)
        else RangePoint(clause, body, InLoop(x), inside, p))
    || ClosePoint(body.span.end, x.loopDepth, Later(inside, AnalyzeFor(clause, body, InLoop(x), inside.state).state), p)
  }

  ghost predicate InitializerPoint(initializer: Option<ForInitializer<Expression>>, from: Point, p: Point) {
    && initializer.Some?
    && match initializer.value
       case InitializerLocal(local) => LocalPoint(local, from, p)
       case InitializerExpression(e) => ExpressionPoint(e, Read, from, p)
  }

  ghost predicate ClassicPoint(
    clause: ForClause<Expression>, body: OwnStatement, x: Surroundings, from: Point, p: Point)
    requires clause.Classic?
    decreases body, 6
  {
    var ready := Later(from, AnalyzeInitializer(clause.initializer, x, from.state).state);
    var c := CheckOptional(clause.condition, ready.state);
    || p == from || p == ready
    || InitializerPoint(clause.initializer, from, p)
    || OptionalPoint(clause.condition, ready, p)
    || LoopPoint([], body, clause.update, clause.condition, x, Later(ready, c.state), p)
  }

  /** The loan on the range is held by the loop itself. */
  ghost predicate RangePoint(
    clause: ForClause<Expression>, body: OwnStatement, x: Surroundings, from: Point, p: Point)
    requires clause.Range?
    decreases body, 6
  {
    var usage := RangeUsage(clause.bindings, clause.iterable, clause.json);
    var c := Check(clause.iterable, usage, from.state);
    var (ready, loan) := RangeStart(clause.bindings, clause.iterable, clause.json, from.state);
    || ExpressionPoint(clause.iterable, usage, from, p)
    || (&& !clause.json && (AnyReference(clause.bindings) || !clause.iterable.kind.Move?)
        && BorrowPoint(c.origin, AnyMutableReference(clause.bindings), clause.iterable.span, Later(from, c.state), p))
    || LoopPoint(clause.bindings, body, None, None, x, Point(ready.state, from.held + Taken(loan)), p)
  }

  /** Both analysed iterations. */
  ghost predicate LoopPoint(
    bindings: seq<RangeBinding>, body: OwnStatement, update: Option<Expression>, condition: Option<Expression>,
    x: Surroundings, from: Point, p: Point)
    decreases body, 5
  {
    var next := Iterate(bindings, body, update, condition, x, from.state).next;
    || p == Later(from, AnalyzeLoop(bindings, body, update, condition, x, from.state).state)
    || IteratePoint(bindings, body, update, condition, x, from, p)
    || (next.Some? && IteratePoint(bindings, body, update, condition, x, Later(from, next.value), p))
  }

  ghost predicate IteratePoint(
    bindings: seq<RangeBinding>, body: OwnStatement, update: Option<Expression>, condition: Option<Expression>,
    x: Surroundings, from: Point, p: Point)
    decreases body, 3
  {
    var inside := Later(from, DeclareRange(bindings, x, PushScope(from.state)));
    var o := Analyze(body, x, inside.state);
    || p == from
    || (exists k :: 0 <= k <= |bindings| && p == Later(from, DeclareRange(bindings[..k], x, PushScope(from.state))))
    || StatementPoint(body, x, inside, p)
    || PopPoint(Later(inside, o.state), p)
    || TailsPoint(update, condition, TailStates(o, |from.state.scopes|), from, p)
  }

  /** Update and condition run from every state that reaches them. */
  ghost predicate TailsPoint(
    update: Option<Expression>, condition: Option<Expression>, states: seq<FlowState>, from: Point, p: Point)
  {
    exists i :: 0 <= i < |states| && TailPoint(update, condition, Later(from, states[i]), p)
  }

  ghost predicate TailPoint(update: Option<Expression>, condition: Option<Expression>, from: Point, p: Point) {
    || p == from
    || OptionalPoint(update, from, p)
    || OptionalPoint(condition, Later(from, CheckOptional(update, from.state).state), p)
    || p == Later(from, CheckTail(update, condition, from.state).state)
  }

  /** The points of a whole function. */
  ghost predicate FunctionPoint(parameters: seq<Parameter>, body: OwnBlock, x: Surroundings, p: Point) {
    var outer := PushScope(EMPTY_STATE);
    var start := Point(DeclareParameters(parameters, outer), multiset{});
    || (exists k :: 0 <= k <= |parameters| && p == Point(DeclareParameters(parameters[..k], outer), multiset{}))
    || BodyPoint(body, x, start, p)
    || PopPoint(Later(start, AnalyzeBody(body, x, start.state).state), p)
  }

  // ----- the account in the points of a statement -----

  lemma OptionalPointSound(e: Option<Expression>, from: Point, p: Point, exact: bool)
    requires Start(from, exact) && OptionalPoint(e, from, p)
    ensures Sound(p, exact)
  {
    ExpressionSound(e.value, Read, from, p, exact);
  }

  lemma ExpireSound(position: nat, loopDepth: nat, from: Point, p: Point, exact: bool)
    requires Sound(from, exact) && ExpirePoint(position, loopDepth, from, p)
    ensures Sound(p, exact)
  {
    var ids := Flatten(from.state.scopeBindings);
    var leaked :| (exact ==> leaked == multiset{}) && Balanced(from.state, from.held + leaked);
    var k :| 0 <= k <= |ids| && p == Later(from, ReleaseExpiredIn(from.state, ids[..k], position, loopDepth));
    ReleaseExpiredInBalanced(from.state, ids[..k], position, loopDepth, from.held + leaked);
  }

  lemma PopSound(from: Point, p: Point, exact: bool)
    requires Sound(from, exact) && PopPoint(from, p)
    ensures Sound(p, exact)
  {
    var leaked :| (exact ==> leaked == multiset{}) && Balanced(from.state, from.held + leaked);
    if p == Later(from, PopScope(from.state)) {
      PopBalanced(from.state, from.held + leaked);
    } else {
      var ids := from.state.scopeBindings[|from.state.scopeBindings| - 1];
      var k :| 0 <= k <= |ids| && p == Later(from, EndLoans(from.state, ids[k..]));
      EndLoansBalanced(from.state, ids[k..], from.held + leaked);
    }
  }

  lemma BorrowSound(origin: Option<nat>, mutable: bool, at: Span, from: Point, p: Point, exact: bool)
    requires Sound(from, exact) && Exists(from.state, origin) && BorrowPoint(origin, mutable, at, from, p)
    ensures Sound(p, exact)
  {
    var leaked :| (exact ==> leaked == multiset{}) && Balanced(from.state, from.held + leaked);
    var (s, loan, _) := AcquirePersistent(from.state, origin, mutable, at);
    if p == Point(s, from.held + Taken(loan)) {
      PersistentBalanced(from.state, origin, mutable, at, from.held + leaked);
      Reordered(from.held, Taken(loan), leaked);
    } else {
      EndLoanBalanced(from.state, origin.value, from.held + leaked);
    }
  }

  lemma BorrowedSound(e: Expression, usage: Usage, mutable: bool, from: Point, p: Point, exact: bool)
    requires Start(from, exact)
    requires var c := Check(e, usage, from.state);
             BorrowPoint(c.origin, mutable, e.span, Later(from, c.state), p)
    ensures Sound(p, exact)
  {
    var c := Check(e, usage, from.state);
    CheckSound(e, usage, from, exact);
    OriginExists(e, usage, from.state);
    CheckedSame(e, usage, from.state);
    BorrowSound(c.origin, mutable, e.span, Later(from, c.state), p, exact);
  }

  lemma LocalSound(local: LocalDeclaration<Expression>, from: Point, p: Point, exact: bool)
    requires Start(from, exact) && LocalPoint(local, from, p)
    ensures Sound(p, exact)
  {
    var e := local.initializer.value;
    var mutable := local.ty.Reference? && local.ty.mutable;
    if !BorrowsInitializer(local.ty) {
      ExpressionSound(e, Read, from, p, exact);
    } else if ExpressionPoint(e, LoanUsage(mutable), from, p) {
      ExpressionSound(e, LoanUsage(mutable), from, p, exact);
    } else {
      BorrowedSound(e, LoanUsage(mutable), mutable, from, p, exact);
    }
  }

  lemma ReturnSound(value: Option<Expression>, x: Surroundings, from: Point, p: Point, exact: bool)
    requires Start(from, exact) && ReturnPoint(value, x, from, p)
    ensures Sound(p, exact)
  {
    ExpressionSound(value.value, Read, from, p, exact);
  }

  /** A start inside a scope. */
  ghost predicate Inside(from: Point, exact: bool) {
    Start(from, exact) && |from.state.scopes| > 0
  }

  lemma PushStart(from: Point, exact: bool)
    requires Start(from, exact)
    ensures Inside(Later(from, PushScope(from.state)), exact)
  {
    var leaked :| (exact ==> leaked == multiset{}) && Balanced(from.state, from.held + leaked);
    PushBalanced(from.state, from.held + leaked);
    PushScopeWithin(from.state);
  }

  lemma StatementStart(statement: OwnStatement, x: Surroundings, from: Point, exact: bool)
    requires Inside(from, exact) && (exact ==> TryFree(statement))
    ensures Sound(Later(from, Analyze(statement, x, from.state).state), exact)
  {
    var leaked :| (exact ==> leaked == multiset{}) && Balanced(from.state, from.held + leaked);
    StatementKept(statement, x, from.state, from.held + leaked, exact);
    KeptOver(Analyze(statement, x, from.state).state, from.held, leaked, exact);
  }

  lemma FirstStart(statement: OwnStatement, x: Surroundings, from: Point, exact: bool)
    requires Inside(from, exact) && (exact ==> TryFree(statement))
    ensures Inside(Later(from, AnalyzeFirst(statement, x, from.state).state), exact)
  {
    StatementStart(statement, x, from, exact);
    FirstFramed(statement, x, from.state);
    ReleaseExpiredKept(
      Analyze(statement, x, from.state).state, statement.span.end, x.loopDepth, from.held, exact);
  }

  lemma ListEnds(ss: seq<OwnStatement>, x: Surroundings, from: Point, exact: bool)
    requires Inside(from, exact) && (exact ==> forall i :: 0 <= i < |ss| ==> TryFree(ss[i]))
    ensures Sound(Later(from, AnalyzeList(ss, x, from.state).state), exact)
  {
    var leaked :| (exact ==> leaked == multiset{}) && Balanced(from.state, from.held + leaked);
    ListKept(ss, x, from.state, from.held + leaked, exact);
    KeptOver(AnalyzeList(ss, x, from.state).state, from.held, leaked, exact);
  }

  lemma {:induction false} ListSound(ss: seq<OwnStatement>, x: Surroundings, from: Point, p: Point, exact: bool)
    requires Inside(from, exact) && ListPoint(ss, x, from, p)
    requires exact ==> forall i :: 0 <= i < |ss| ==> TryFree(ss[i])
    ensures Sound(p, exact)
    decreases ss, 0
  {
    if p != from {
      if FirstPoint(ss[0], x, from, p) {
        FirstSound(ss[0], x, from, p, exact);
      } else {
        FirstStart(ss[0], x, from, exact);
        ListSound(ss[1..], x, Later(from, AnalyzeFirst(ss[0], x, from.state).state), p, exact);
      }
    }
  }

  lemma {:induction false} FirstSound(statement: OwnStatement, x: Surroundings, from: Point, p: Point, exact: bool)
    requires Inside(from, exact) && FirstPoint(statement, x, from, p) && (exact ==> TryFree(statement))
    ensures Sound(p, exact)
    decreases statement, 3
  {
    if StatementPoint(statement, x, from, p) {
      StatementSound(statement, x, from, p, exact);
    } else {
      StatementStart(statement, x, from, exact);
      ExpireSound(
        statement.span.end, x.loopDepth, Later(from, Analyze(statement, x, from.state).state), p, exact);
    }
  }

  lemma {:induction false} BlockSound(b: OwnBlock, x: Surroundings, from: Point, p: Point, exact: bool)
    requires Start(from, exact) && BlockPoint(b, x, from, p) && (exact ==> TryFreeBlock(b))
    ensures Sound(p, exact)
    decreases b, 0
  {
    var inside := Later(from, PushScope(from.state));
    PushStart(from, exact);
    if ListPoint(b.statements, x, inside, p) {
      ListSound(b.statements, x, inside, p, exact);
    } else {
      ListEnds(b.statements, x, inside, exact);
      PopSound(Later(inside, AnalyzeList(b.statements, x, inside.state).state), p, exact);
    }
  }

  lemma {:induction false} BranchSound(statement: OwnStatement, x: Surroundings, from: Point, p: Point, exact: bool)
    requires Start(from, exact) && BranchPoint(statement, x, from, p) && (exact ==> TryFree(statement))
    ensures Sound(p, exact)
    decreases statement, 4
  {
    var inside := Later(from, PushScope(from.state));
    PushStart(from, exact);
    if FirstPoint(statement, x, inside, p) {
      FirstSound(statement, x, inside, p, exact);
    } else {
      FirstStart(statement, x, inside, exact);
      PopSound(Later(inside, AnalyzeFirst(statement, x, inside.state).state), p, exact);
    }
  }

  /** The account holds in every state a statement is analysed through, exactly if there is no `try` in it. */
  lemma {:induction false} StatementSound(
    statement: OwnStatement, x: Surroundings, from: Point, p: Point, exact: bool)
    requires Inside(from, exact) && StatementPoint(statement, x, from, p) && (exact ==> TryFree(statement))
    ensures Sound(p, exact)
    decreases statement, 2
  {
    StatementStart(statement, x, from, exact);
    if InnerPoint(statement, x, from, p) {
      InnerSound(statement, x, from, p, exact);
    }
  }

  lemma {:induction false} InnerSound(
    statement: OwnStatement, x: Surroundings, from: Point, p: Point, exact: bool)
    requires Inside(from, exact) && InnerPoint(statement, x, from, p) && (exact ==> TryFree(statement))
    ensures Sound(p, exact)
    decreases statement, 1, 1
  {
    match statement.kind
    case BlockStatement(b) => BlockSound(b, x, from, p, exact);
    case Local(local) => LocalSound(local, from, p, exact);
    case Return(value) => ReturnSound(value, x, from, p, exact);
    case Throw(error) => OptionalPointSound(error, from, p, exact);
    case Try(_, _) => TrySound(statement, x, from, p);
    case If(_, _, _) => IfSound(statement, x, from, p, exact);
    case While(_, _) => WhileSound(statement, x, from, p, exact);
    case For(_, _) => ForSound(statement, x, from, p, exact);
    case Expression(e) => ExpressionSound(e, Read, from, p, exact);
    case _ =>
  }

  lemma {:induction false} IfSound(statement: OwnStatement, x: Surroundings, from: Point, p: Point, exact: bool)
    requires statement.kind.If? && Start(from, exact) && IfPoint(statement, x, from, p)
    requires exact ==> TryFree(statement)
    ensures Sound(p, exact)
    decreases statement, 1, 0
  {
    var branching := Later(from, Check(statement.kind.condition, Read, from.state).state);
    CheckSound(statement.kind.condition, Read, from, exact);
    if ExpressionPoint(statement.kind.condition, Read, from, p) {
      ExpressionSound(statement.kind.condition, Read, from, p, exact);
    } else if BranchPoint(statement.kind.thenBranch, x, branching, p) {
      BranchSound(statement.kind.thenBranch, x, branching, p, exact);
    } else {
      BranchSound(statement.kind.elseBranch.value, x, branching, p, exact);
    }
  }

  lemma BaselineStart(b: OwnBlock, x: Surroundings, from: Point)
    requires Start(from, false)
    ensures Start(Later(from, CatchBaseline(from.state, AnalyzeBlock(b, x, from.state).throws)), false)
  {
    var throws := AnalyzeBlock(b, x, from.state).throws;
    var leaked :| Balanced(from.state, from.held + leaked);
    BlockFramed(b, x, from.state);
    BlockKept(b, x, from.state, from.held + leaked, false);
    BaselineKept(from.state, throws, from.held + leaked);
    KeptOver(CatchBaseline(from.state, throws), from.held, leaked, false);
  }

  lemma {:induction false} TrySound(statement: OwnStatement, x: Surroundings, from: Point, p: Point)
    requires statement.kind.Try? && Start(from, false) && TryPoint(statement, x, from, p)
    ensures Sound(p, false)
    decreases statement, 1, 0
  {
    var guarded := statement.kind.guarded;
    if BlockPoint(guarded, x, from, p) {
      BlockSound(guarded, x, from, p, false);
    } else {
      BaselineStart(guarded, x, from);
      HandlersSound(
        statement.kind.catches, x, Later(from, CatchBaseline(from.state, AnalyzeBlock(guarded, x, from.state).throws)),
        p);
    }
  }

  lemma {:induction false} HandlersSound(catches: seq<OwnCatch>, x: Surroundings, from: Point, p: Point)
    requires Start(from, false) && HandlersPoint(catches, x, from, p)
    ensures Sound(p, false)
    decreases catches, 0
  {
    var i :| 0 <= i < |catches| && HandlerPoint(catches[i], x, from, p);
    HandlerSound(catches[i], x, from, p);
  }

  lemma DeclaredStart(b: CatchBinding, x: Surroundings, from: Point)
    requires Inside(from, false)
    ensures Inside(Later(from, DeclareCatch(Some(b), x, from.state)), false)
  {
    var leaked :| Balanced(from.state, from.held + leaked);
    PlainDeclareBalanced(from.state, b.name, b.ty, b.span, b.lastUse, x.loopDepth, from.held + leaked);
    DeclareNear(from.state, b.name, b.ty, None, b.span, b.lastUse, x.loopDepth);
  }

  lemma {:induction false} HandlerSound(clause: OwnCatch, x: Surroundings, from: Point, p: Point)
    requires Start(from, false) && HandlerPoint(clause, x, from, p)
    ensures Sound(p, false)
    decreases clause, 0
  {
    var outer := Later(from, PushScope(from.state));
    var inside := Later(from, DeclareCatch(clause.binding, x, PushScope(from.state)));
    PushStart(from, false);
    if clause.binding.Some? {
      DeclaredStart(clause.binding.value, x, outer);
    }
    if BodyPoint(clause.body, x, inside, p) {
      BodySound(clause.body, x, inside, p, false);
    } else if p != from && p != outer {
      ListEnds(clause.body.statements, x, inside, false);
      PopSound(Later(inside, AnalyzeBody(clause.body, x, inside.state).state), p, false);
    }
  }

  lemma {:induction false} BodySound(b: OwnBlock, x: Surroundings, from: Point, p: Point, exact: bool)
    requires Inside(from, exact) && BodyPoint(b, x, from, p) && (exact ==> TryFreeBlock(b))
    ensures Sound(p, exact)
    decreases b, 0
  {
    ListSound(b.statements, x, from, p, exact);
  }

  // ----- the account in the points of a loop -----

  lemma CloseSound(position: nat, loopDepth: nat, from: Point, p: Point, exact: bool)
    requires Sound(from, exact) && ClosePoint(position, loopDepth, from, p)
    ensures Sound(p, exact)
  {
    if PopPoint(from, p) {
      PopSound(from, p, exact);
    } else {
      PopKept(from.state, from.held, exact);
      ExpireSound(position, loopDepth, Later(from, PopScope(from.state)), p, exact);
    }
  }

  lemma WhileBodyEnds(condition: Expression, body: OwnStatement, x: Surroundings, from: Point, exact: bool)
    requires Start(from, exact) && (exact ==> TryFree(body))
    ensures Sound(Later(from, AnalyzeWhileBody(condition, body, x, from.state).state), exact)
  {
    var leaked :| (exact ==> leaked == multiset{}) && Balanced(from.state, from.held + leaked);
    WhileBodyKept(condition, body, x, from.state, from.held + leaked, exact);
    KeptOver(AnalyzeWhileBody(condition, body, x, from.state).state, from.held, leaked, exact);
  }

  lemma {:induction false} WhileSound(statement: OwnStatement, x: Surroundings, from: Point, p: Point, exact: bool)
    requires statement.kind.While? && Start(from, exact) && WhilePoint(statement, x, from, p)
    requires exact ==> TryFree(statement)
    ensures Sound(p, exact)
    decreases statement, 1, 0
  {
    var condition, body := statement.kind.condition, statement.kind.body;
    var inside := Later(from, PushScope(from.state));
    var c := Check(condition, Read, inside.state);
    PushStart(from, exact);
    CheckSound(condition, Read, inside, exact);
    if ExpressionPoint(condition, Read, inside, p) {
      ExpressionSound(condition, Read, inside, p, exact);
    } else if LoopPoint([], body, None, Some(condition), InLoop(x), Later(inside, c.state), p) {
      LoopSound([], body, None, Some(condition), InLoop(x), Later(inside, c.state), p, exact);
    } else {
      WhileBodyEnds(condition, body, InLoop(x), inside, exact);
      CloseSound(
        body.span.end, x.loopDepth, Later(inside, AnalyzeWhileBody(condition, body, InLoop(x), inside.state).state), p,
        exact);
    }
  }

  lemma ForEnds(clause: ForClause<Expression>, body: OwnStatement, x: Surroundings, from: Point, exact: bool)
    requires Inside(from, exact) && (exact ==> TryFree(body))
    ensures Sound(Later(from, AnalyzeFor(clause, body, x, from.state).state), exact)
  {
    var leaked :| (exact ==> leaked == multiset{}) && Balanced(from.state, from.held + leaked);
    if clause.Classic? {
      ClassicKept(clause, body, x, from.state, from.held + leaked, exact);
    } else {
      RangeKept(clause, body, x, from.state, from.held + leaked, exact);
    }
    KeptOver(AnalyzeFor(clause, body, x, from.state).state, from.held, leaked, exact);
  }

  lemma {:induction false} ForSound(statement: OwnStatement, x: Surroundings, from: Point, p: Point, exact: bool)
    requires statement.kind.For? && Start(from, exact) && ForPoint(statement, x, from, p)
    requires exact ==> TryFree(statement)
    ensures Sound(p, exact)
    decreases statement, 1, 0
  {
    var clause, body := statement.kind.clause, statement.kind.body;
    var inside := Later(from, PushScope(from.state));
    PushStart(from, exact);
    if clause.Classic? && ClassicPoint(clause, body, InLoop(x), inside, p) {
      ClassicSound(clause, body, InLoop(x), inside, p, exact);
    } else if clause.Range? && RangePoint(clause, body, InLoop(x), inside, p) {
      RangeSound(clause, body, InLoop(x), inside, p, exact);
    } else {
      ForEnds(clause, body, InLoop(x), inside, exact);
      CloseSound(
        body.span.end, x.loopDepth, Later(inside, AnalyzeFor(clause, body, InLoop(x), inside.state).state), p, exact);
    }
  }

  lemma InitializerSound(
    initializer: Option<ForInitializer<Expression>>, from: Point, p: Point, exact: bool)
    requires Start(from, exact) && InitializerPoint(initializer, from, p)
    ensures Sound(p, exact)
  {
    match initializer.value
    case InitializerLocal(local) => LocalSound(local, from, p, exact);
    case InitializerExpression(e) => ExpressionSound(e, Read, from, p, exact);
  }

  lemma InitializerStart(
    initializer: Option<ForInitializer<Expression>>, x: Surroundings, from: Point, exact: bool)
    requires Inside(from, exact)
    ensures Start(Later(from, AnalyzeInitializer(initializer, x, from.state).state), exact)
  {
    var leaked :| (exact ==> leaked == multiset{}) && Balanced(from.state, from.held + leaked);
    InitializerKept(initializer, x, from.state, from.held + leaked, exact);
    InitializerFramed(initializer, x, from.state);
    KeptOver(AnalyzeInitializer(initializer, x, from.state).state, from.held, leaked, exact);
  }

  lemma {:induction false} ClassicSound(
    clause: ForClause<Expression>, body: OwnStatement, x: Surroundings, from: Point, p: Point, exact: bool)
    requires clause.Classic? && Inside(from, exact) && ClassicPoint(clause, body, x, from, p)
    requires exact ==> TryFree(body)
    ensures Sound(p, exact)
    decreases body, 6
  {
    var ready := Later(from, AnalyzeInitializer(clause.initializer, x, from.state).state);
    var c := CheckOptional(clause.condition, ready.state);
    InitializerStart(clause.initializer, x, from, exact);
    if InitializerPoint(clause.initializer, from, p) {
      InitializerSound(clause.initializer, from, p, exact);
    } else if OptionalPoint(clause.condition, ready, p) {
      OptionalPointSound(clause.condition, ready, p, exact);
    } else if p != from && p != ready {
      OptionalSound(clause.condition, ready, exact);
      LoopSound([], body, clause.update, clause.condition, x, Later(ready, c.state), p, exact);
    }
  }

  lemma RangeStartSound(clause: ForClause<Expression>, from: Point, exact: bool)
    requires clause.Range? && Start(from, exact)
    ensures var (c, loan) := RangeStart(clause.bindings, clause.iterable, clause.json, from.state);
            Start(Point(c.state, from.held + Taken(loan)), exact)
  {
    var leaked :| (exact ==> leaked == multiset{}) && Balanced(from.state, from.held + leaked);
    var (c, loan) := RangeStart(clause.bindings, clause.iterable, clause.json, from.state);
    RangeStartKept(clause.bindings, clause.iterable, clause.json, from.state, from.held + leaked);
    RangeStartFramed(clause.bindings, clause.iterable, clause.json, from.state);
    Reordered(from.held, Taken(loan), leaked);
  }

  lemma {:induction false} RangeSound(
    clause: ForClause<Expression>, body: OwnStatement, x: Surroundings, from: Point, p: Point, exact: bool)
    requires clause.Range? && Start(from, exact) && RangePoint(clause, body, x, from, p) && (exact ==> TryFree(body))
    ensures Sound(p, exact)
    decreases body, 6
  {
    var usage := RangeUsage(clause.bindings, clause.iterable, clause.json);
    var (c, loan) := RangeStart(clause.bindings, clause.iterable, clause.json, from.state);
    var ready := Point(c.state, from.held + Taken(loan));
    if ExpressionPoint(clause.iterable, usage, from, p) {
      ExpressionSound(clause.iterable, usage, from, p, exact);
    } else if LoopPoint(clause.bindings, body, None, None, x, ready, p) {
      RangeStartSound(clause, from, exact);
      LoopSound(clause.bindings, body, None, None, x, ready, p, exact);
    } else {
      BorrowedSound(clause.iterable, usage, AnyMutableReference(clause.bindings), from, p, exact);
    }
  }

  lemma IterateStart(
    bindings: seq<RangeBinding>, body: OwnStatement, update: Option<Expression>, condition: Option<Expression>,
    x: Surroundings, from: Point, exact: bool)
    requires Start(from, exact) && (exact ==> TryFree(body))
    ensures var next := Iterate(bindings, body, update, condition, x, from.state).next;
            next.Some? ==> Start(Later(from, next.value), exact)
  {
    var leaked :| (exact ==> leaked == multiset{}) && Balanced(from.state, from.held + leaked);
    var i := Iterate(bindings, body, update, condition, x, from.state);
    IterateKept(bindings, body, update, condition, x, from.state, from.held + leaked, exact);
    IterateFramed(bindings, body, update, condition, x, from.state);
    if i.next.Some? {
      KeptOver(i.next.value, from.held, leaked, exact);
    }
  }

  lemma LoopEnds(
    bindings: seq<RangeBinding>, body: OwnStatement, update: Option<Expression>, condition: Option<Expression>,
    x: Surroundings, from: Point, exact: bool)
    requires Start(from, exact) && (exact ==> TryFree(body))
    ensures Sound(Later(from, AnalyzeLoop(bindings, body, update, condition, x, from.state).state), exact)
  {
    var leaked :| (exact ==> leaked == multiset{}) && Balanced(from.state, from.held + leaked);
    LoopKept(bindings, body, update, condition, x, from.state, from.held + leaked, exact);
    KeptOver(AnalyzeLoop(bindings, body, update, condition, x, from.state).state, from.held, leaked, exact);
  }

  lemma {:induction false} LoopSound(
    bindings: seq<RangeBinding>, body: OwnStatement, update: Option<Expression>, condition: Option<Expression>,
    x: Surroundings, from: Point, p: Point, exact: bool)
    requires Start(from, exact) && LoopPoint(bindings, body, update, condition, x, from, p) && (exact ==> TryFree(body))
    ensures Sound(p, exact)
    decreases body, 5
  {
    LoopEnds(bindings, body, update, condition, x, from, exact);
    if IteratePoint(bindings, body, update, condition, x, from, p) {
      IterateSound(bindings, body, update, condition, x, from, p, exact);
    } else if p != Later(from, AnalyzeLoop(bindings, body, update, condition, x, from.state).state) {
      var next := Iterate(bindings, body, update, condition, x, from.state).next;
      IterateStart(bindings, body, update, condition, x, from, exact);
      IterateSound(bindings, body, update, condition, x, Later(from, next.value), p, exact);
    }
  }

  lemma InsideStart(bindings: seq<RangeBinding>, x: Surroundings, from: Point, exact: bool)
    requires Start(from, exact)
    ensures Inside(Later(from, DeclareRange(bindings, x, PushScope(from.state))), exact)
  {
    var leaked :| (exact ==> leaked == multiset{}) && Balanced(from.state, from.held + leaked);
    InsideBalanced(bindings, x, from.state, from.held + leaked);
  }

  lemma TailsStart(body: OwnStatement, x: Surroundings, inside: Point, depth: nat, exact: bool)
    requires Inside(inside, exact) && (exact ==> TryFree(body))
    ensures AllKept(TailStates(Analyze(body, x, inside.state), depth), inside.held, exact)
  {
    var leaked :| (exact ==> leaked == multiset{}) && Balanced(inside.state, inside.held + leaked);
    StatementKept(body, x, inside.state, inside.held + leaked, exact);
    TailStatesKept(Analyze(body, x, inside.state), depth, inside.held + leaked, exact);
    AllKeptOver(TailStates(Analyze(body, x, inside.state), depth), inside.held, leaked, exact);
  }

  lemma TailsValid(bindings: seq<RangeBinding>, body: OwnStatement, x: Surroundings, s: FlowState)
    requires Valid(s)
    ensures AllSame(s, TailStates(Analyze(body, x, DeclareRange(bindings, x, PushScope(s))), |s.scopes|))
  {
    BodyLeaves(bindings, body, x, s);
    TailStatesSame(s, Analyze(body, x, DeclareRange(bindings, x, PushScope(s))));
  }

  lemma {:induction false} IterateSound(
    bindings: seq<RangeBinding>, body: OwnStatement, update: Option<Expression>, condition: Option<Expression>,
    x: Surroundings, from: Point, p: Point, exact: bool)
    requires Start(from, exact) && IteratePoint(bindings, body, update, condition, x, from, p)
    requires exact ==> TryFree(body)
    ensures Sound(p, exact)
    decreases body, 3
  {
    var inside := Later(from, DeclareRange(bindings, x, PushScope(from.state)));
    var o := Analyze(body, x, inside.state);
    InsideStart(bindings, x, from, exact);
    if StatementPoint(body, x, inside, p) {
      StatementSound(body, x, inside, p, exact);
    } else if PopPoint(Later(inside, o.state), p) {
      StatementStart(body, x, inside, exact);
      PopSound(Later(inside, o.state), p, exact);
    } else if TailsPoint(update, condition, TailStates(o, |from.state.scopes|), from, p) {
      TailsStart(body, x, inside, |from.state.scopes|, exact);
      TailsValid(bindings, body, x, from.state);
      TailsSound(update, condition, TailStates(o, |from.state.scopes|), from, p, exact);
    } else if p != from {
      var k :| 0 <= k <= |bindings| && p == Later(from, DeclareRange(bindings[..k], x, PushScope(from.state)));
      InsideStart(bindings[..k], x, from, exact);
    }
  }

  lemma TailsSound(
    update: Option<Expression>, condition: Option<Expression>, states: seq<FlowState>, from: Point, p: Point,
    exact: bool)
    requires AllKept(states, from.held, exact) && AllSame(from.state, states)
    requires TailsPoint(update, condition, states, from, p)
    ensures Sound(p, exact)
  {
    var i :| 0 <= i < |states| && TailPoint(update, condition, Later(from, states[i]), p);
    TailSound(update, condition, Later(from, states[i]), p, exact);
  }

  lemma TailSound(update: Option<Expression>, condition: Option<Expression>, from: Point, p: Point, exact: bool)
    requires Start(from, exact) && TailPoint(update, condition, from, p)
    ensures Sound(p, exact)
  {
    var updated := Later(from, CheckOptional(update, from.state).state);
    OptionalSound(update, from, exact);
    OptionalSound(condition, updated, exact);
    if OptionalPoint(update, from, p) {
      OptionalPointSound(update, from, p, exact);
    } else if OptionalPoint(condition, updated, p) {
      OptionalPointSound(condition, updated, p, exact);
    }
  }

  // ----- functions -----

  lemma FunctionSound(parameters: seq<Parameter>, body: OwnBlock, x: Surroundings, p: Point, exact: bool)
    requires FunctionPoint(parameters, body, x, p) && (exact ==> TryFreeBlock(body))
    ensures Sound(p, exact)
  {
    var outer := PushScope(EMPTY_STATE);
    var start := Point(DeclareParameters(parameters, outer), multiset{});
    ParametersBalanced(parameters, outer);
    BalancedIsKept(start.state, multiset{}, exact);
    if BodyPoint(body, x, start, p) {
      BodySound(body, x, start, p, exact);
    } else if PopPoint(Later(start, AnalyzeBody(body, x, start.state).state), p) {
      ListEnds(body.statements, x, start, exact);
      PopSound(Later(start, AnalyzeBody(body, x, start.state).state), p, exact);
    } else {
      var k :| 0 <= k <= |parameters| && p == Point(DeclareParameters(parameters[..k], outer), multiset{});
      ParametersBalanced(parameters[..k], outer);
      BalancedIsKept(p.state, multiset{}, exact);
    }
  }

  /**
   In every state the pass is in while it analyses a function, mutable loans exclude all others and shared
   ones are counted; without `try` the counts and flags are exactly those of the loans there are.
   */
  lemma LoansHoldThroughout(parameters: seq<Parameter>, body: OwnBlock, x: Surroundings, p: Point)
    requires FunctionPoint(parameters, body, x, p)
    ensures LoansRespected(p.state)
    ensures TryFreeBlock(body) ==> Balanced(p.state, p.held)
  {
    FunctionSound(parameters, body, x, p, false);
    KeptRespectsLoans(p.state, p.held);
    if TryFreeBlock(body) {
      FunctionSound(parameters, body, x, p, true);
      var leaked :| leaked == multiset{} && Balanced(p.state, p.held + leaked);
      assert p.held + leaked == p.held;
    }
  }

  /** In every such state a chain of references ends, at a binding that borrows from nothing or at a guard. */
  lemma ChainsEndThroughout(parameters: seq<Parameter>, body: OwnBlock, x: Surroundings, p: Point, id: nat)
    requires FunctionPoint(parameters, body, x, p) && id < |p.state.bindings|
    ensures var root := RootOrigin(p.state, id);
            root <= id && (p.state.bindings[root].referenceLoan.None? || IsGuard(p.state.bindings[root].ty))
  {
    FunctionSound(parameters, body, x, p, false);
    var leaked :| Balanced(p.state, p.held + leaked);
    RootOriginEnds(p.state, p.held + leaked, id);
  }
}
