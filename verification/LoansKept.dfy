/** Every statement keeps the account of loans that `OwnershipLoans` describes. */
module LoansKept {
  import opened Wrappers
  import opened Ast
  import opened FlowStates
  import opened Ownership
  import opened OwnershipFrames
  import opened OwnershipScopes
  import opened OwnershipLoans

  // ----- where references come from -----

  ghost predicate Exists(s: FlowState, origin: Option<nat>) {
    origin.Some? ==> origin.value < |s.bindings|
  }

  lemma {:induction false} LookupExists(s: FlowState, name: string, depth: nat)
    requires Valid(s) && depth <= |s.scopes|
    ensures Exists(s, LookupIn(s.scopes[..depth], name))
    decreases depth
  {
    if depth > 0 {
      assert s.scopes[..depth][..depth - 1] == s.scopes[..depth - 1];
      LookupExists(s, name, depth - 1);
    }
  }

  /** The binding an expression refers to exists. */
  lemma {:induction false} OriginExists(e: Expression, usage: Usage, s: FlowState)
    requires Valid(s)
    ensures Exists(s, Check(e, usage, s).origin)
    decreases e, 1
  {
    match e.kind
    case Name(name) =>
      LookupExists(s, name, |s.scopes|);
      assert s.scopes[..|s.scopes|] == s.scopes;
    case Parenthesized(inner) => OriginExists(inner, usage, s);
    case Field(whole) => OriginExists(whole, usage, s);
    case Index(collection, _) => OriginExists(collection, usage, s);
    case Call(_, _, _, _) => CallOriginExists(e, s);
    case Aggregate(initializers) => ElementsHaveNoOrigin(initializers, true, s);
    case Construct(elements, _) => ElementsHaveNoOrigin(elements, false, s);
    case _ =>
  }

  lemma ElementsHaveNoOrigin(elements: seq<Element>, recorded: bool, s: FlowState)
    ensures CheckElements(elements, recorded, s).origin.None?
  {
  }

  lemma {:induction false} PassedOrigin(value: Expression, passing: Passing, s: FlowState)
    requires Valid(s)
    ensures var c := CheckPassed(value, passing, s);
            |c.origins| == 1 && Exists(s, c.origins[0]) && Valid(c.state) && |c.state.bindings| == |s.bindings|
    decreases value, 2
  {
    var usage := PassingUsage(passing);
    OriginExists(value, usage, s);
    CheckedSame(value, usage, s);
    var c := Check(value, usage, s);
    if !passing.ByValue? {
      var t := AcquireTemporary(c.state, c.origin, passing.ByMutable?, value.span).0;
      assert OnlyLoans(c.state, t);
      SameAfterOnly(c.state, t);
    }
  }

  lemma {:induction false} ArgumentOrigin(argument: Argument, s: FlowState)
    requires Valid(s)
    ensures var c := CheckArgument(argument, s);
            |c.origins| == 1 && Exists(s, c.origins[0]) && Valid(c.state) && |c.state.bindings| == |s.bindings|
    decreases argument, 0
  {
    PassedOrigin(argument.value, argument.passing, s);
  }

  lemma {:induction false} ArgumentsOrigins(arguments: seq<Argument>, s: FlowState)
    requires Valid(s)
    ensures forall i :: 0 <= i < |CheckArguments(arguments, s).origins| ==>
              Exists(s, CheckArguments(arguments, s).origins[i])
    decreases arguments, 0
  {
    if |arguments| > 0 {
      ArgumentOrigin(arguments[0], s);
      ArgumentsOrigins(arguments[1..], CheckArgument(arguments[0], s).state);
    }
  }

  lemma {:induction false} ReceiverOrigin(receiver: Option<Receiver>, s: FlowState)
    requires Valid(s)
    ensures var c := CheckReceiver(receiver, s);
            && (forall i :: 0 <= i < |c.origins| ==> Exists(s, c.origins[i]))
            && Valid(c.state) && |c.state.bindings| == |s.bindings|
    decreases receiver, 0
  {
    if receiver.Some? {
      PassedOrigin(receiver.value.value, receiver.value.passing, s);
    }
  }

  lemma {:induction false} CallOriginExists(e: Expression, s: FlowState)
    requires Valid(s) && e.kind.Call?
    ensures Exists(s, CheckCall(e, s).origin)
    decreases e, 0
  {
    ReceiverOrigin(e.kind.receiver, s);
    ArgumentsOrigins(e.kind.arguments, CheckReceiver(e.kind.receiver, s).state);
  }

  // ----- statements -----

  predicate TryFree(s: OwnStatement)
    decreases s, 1
  {
    match s.kind
    case BlockStatement(b) => TryFreeBlock(b)
    case Try(_, _) => false
    case If(_, yes, no) => TryFree(yes) && (no.Some? ==> TryFree(no.value))
    case While(_, body) => TryFree(body)
    case For(_, body) => TryFree(body)
    case _ => true
  }

  predicate TryFreeBlock(b: OwnBlock)
    decreases b, 0
  {
    forall i :: 0 <= i < |b.statements| ==> TryFree(b.statements[i])
  }

  ghost predicate ExitsKept(o: Outcome, held: multiset<Loan>, exact: bool) {
    AllKept(o.breaks, held, exact) && AllKept(o.continues, held, exact) && AllKept(o.throws, held, false)
  }

  ghost predicate OutcomeKept(o: Outcome, held: multiset<Loan>, exact: bool) {
    Kept(o.state, held, exact) && ExitsKept(o, held, exact)
  }

  lemma ExpressionKept(e: Expression, usage: Usage, s: FlowState, held: multiset<Loan>)
    requires Balanced(s, held)
    ensures Balanced(Check(e, usage, s).state, held) && AllKept(Check(e, usage, s).throws, held, false)
  {
    ExpressionKeepsLoans(e, usage, s);
    AvailabilityBalanced(s, Check(e, usage, s).state, held);
    AllHoldingKept(s, Check(e, usage, s).throws, held);
  }

  lemma OptionalKept(e: Option<Expression>, s: FlowState, held: multiset<Loan>)
    requires Balanced(s, held)
    ensures Balanced(CheckOptional(e, s).state, held) && AllKept(CheckOptional(e, s).throws, held, false)
  {
    if e.Some? {
      ExpressionKept(e.value, Read, s, held);
    }
  }

  lemma StraightKept(c: Checked, held: multiset<Loan>, exact: bool)
    requires Balanced(c.state, held) && AllKept(c.throws, held, false)
    ensures OutcomeKept(Straight(c), held, exact)
  {
    BalancedIsKept(c.state, held, exact);
  }

  lemma CaptureKept(c: Checked, raises: bool, held: multiset<Loan>)
    requires Balanced(c.state, held) && AllKept(c.throws, held, false)
    ensures Balanced(Capture(c, raises).state, held) && AllKept(Capture(c, raises).throws, held, false)
  {
    BalancedIsKept(c.state, held, false);
  }

  /** What keeps a larger account loosely keeps the smaller one loosely. */
  lemma OutcomeOver(o: Outcome, held: multiset<Loan>, leaked: multiset<Loan>, exact: bool)
    requires OutcomeKept(o, held + leaked, exact) && (exact ==> leaked == multiset{})
    ensures OutcomeKept(o, held, exact)
  {
    KeptOver(o.state, held, leaked, exact);
    AllKeptOver(o.breaks, held, leaked, exact);
    AllKeptOver(o.continues, held, leaked, exact);
    AllKeptOver(o.throws, held, leaked, false);
  }

  lemma AfterKept(first: Outcome, second: Outcome, held: multiset<Loan>, exact: bool)
    requires ExitsKept(first, held, exact) && OutcomeKept(second, held, exact)
    ensures OutcomeKept(After(first, second), held, exact)
  {
  }

  lemma {:induction false} ListKept(
    ss: seq<OwnStatement>, x: Surroundings, s: FlowState, held: multiset<Loan>, exact: bool)
    requires Valid(s) && |s.scopes| > 0 && Balanced(s, held)
    requires exact ==> forall i :: 0 <= i < |ss| ==> TryFree(ss[i])
    ensures OutcomeKept(AnalyzeList(ss, x, s), held, exact)
    decreases ss, 0
  {
    BalancedIsKept(s, held, exact);
    if |ss| > 0 {
      FirstKept(ss[0], x, s, held, exact);
      FirstFramed(ss[0], x, s);
      var first := AnalyzeFirst(ss[0], x, s);
      if first.reachable {
        var leaked :| (exact ==> leaked == multiset{}) && Balanced(first.state, held + leaked);
        ListKept(ss[1..], x, first.state, held + leaked, exact);
        OutcomeOver(AnalyzeList(ss[1..], x, first.state), held, leaked, exact);
        AfterKept(first, AnalyzeList(ss[1..], x, first.state), held, exact);
      }
    }
  }

  lemma {:induction false} FirstKept(
    statement: OwnStatement, x: Surroundings, s: FlowState, held: multiset<Loan>, exact: bool)
    requires Valid(s) && |s.scopes| > 0 && Balanced(s, held) && (exact ==> TryFree(statement))
    ensures OutcomeKept(AnalyzeFirst(statement, x, s), held, exact)
    decreases statement, 3
  {
    StatementKept(statement, x, s, held, exact);
    ReleaseExpiredKept(Analyze(statement, x, s).state, statement.span.end, x.loopDepth, held, exact);
  }

  lemma PopKept(s: FlowState, held: multiset<Loan>, exact: bool)
    requires Kept(s, held, exact)
    ensures Kept(PopScope(s), held, exact)
  {
    var leaked :| (exact ==> leaked == multiset{}) && Balanced(s, held + leaked);
    PopBalanced(s, held + leaked);
  }

  lemma ReleaseExpiredKept(s: FlowState, position: nat, loopDepth: nat, held: multiset<Loan>, exact: bool)
    requires Kept(s, held, exact)
    ensures Kept(ReleaseExpired(s, position, loopDepth), held, exact)
  {
    var leaked :| (exact ==> leaked == multiset{}) && Balanced(s, held + leaked);
    ReleaseExpiredBalanced(s, position, loopDepth, held + leaked);
  }

  lemma {:induction false} BlockKept(b: OwnBlock, x: Surroundings, s: FlowState, held: multiset<Loan>, exact: bool)
    requires Valid(s) && Balanced(s, held) && (exact ==> TryFreeBlock(b))
    ensures OutcomeKept(AnalyzeBlock(b, x, s), held, exact)
    decreases b, 0
  {
    PushScopeWithin(s);
    PushBalanced(s, held);
    ListKept(b.statements, x, PushScope(s), held, exact);
    PopKept(AnalyzeList(b.statements, x, PushScope(s)).state, held, exact);
  }

  lemma {:induction false} BranchKept(
    statement: OwnStatement, x: Surroundings, s: FlowState, held: multiset<Loan>, exact: bool)
    requires Valid(s) && Balanced(s, held) && (exact ==> TryFree(statement))
    ensures OutcomeKept(AnalyzeBranch(statement, x, s), held, exact)
    decreases statement, 4
  {
    PushScopeWithin(s);
    PushBalanced(s, held);
    FirstKept(statement, x, PushScope(s), held, exact);
    PopKept(AnalyzeFirst(statement, x, PushScope(s)).state, held, exact);
  }

  lemma LocalKept(local: LocalDeclaration<Expression>, x: Surroundings, s: FlowState, held: multiset<Loan>, exact: bool)
    requires Valid(s) && |s.scopes| > 0 && Balanced(s, held)
    ensures OutcomeKept(AnalyzeLocal(local, x, s), held, exact)
  {
    if BorrowsInitializer(local.ty) && local.initializer.Some? {
      var mutable := local.ty.Reference? && local.ty.mutable;
      var e := local.initializer.value;
      var c := Check(e, LoanUsage(mutable), s);
      ExpressionKept(e, LoanUsage(mutable), s, held);
      CheckedSame(e, LoanUsage(mutable), s);
      OriginExists(e, LoanUsage(mutable), s);
      PersistentBalanced(c.state, c.origin, mutable, e.span, held);
      var (t, loan, _) := AcquirePersistent(c.state, c.origin, mutable, e.span);
      AcquirePersistentOnlyLoans(c.state, c.origin, mutable, e.span);
      DeclareBalanced(t, local.name, local.ty, loan, local.span, local.lastUse, x.loopDepth, held);
      BalancedIsKept(DeclareLocal(local, loan, x, t), held, exact);
    } else {
      var c := Checked(s, None, [], []);
      if local.initializer.Some? {
        ExpressionKept(local.initializer.value, Read, s, held);
        CheckedSame(local.initializer.value, Read, s);
        c := Check(local.initializer.value, Read, s);
      }
      CaptureKept(c, true, held);
      PlainDeclareBalanced(c.state, local.name, local.ty, local.span, local.lastUse, x.loopDepth, held);
      BalancedIsKept(DeclareLocal(local, None, x, c.state), held, exact);
    }
  }

  lemma ReturnKept(value: Option<Expression>, x: Surroundings, s: FlowState, held: multiset<Loan>, exact: bool)
    requires Balanced(s, held)
    ensures OutcomeKept(AnalyzeReturn(value, x, s), held, exact)
  {
    BalancedIsKept(s, held, exact);
    if value.Some? {
      if ReturnMoves(value.value, x, s) {
        var moved := MarkMoved(s, NamedBinding(value.value, s).value, value.value.span);
        AvailabilityBalanced(s, moved, held);
        BalancedIsKept(moved, held, exact);
      } else {
        ExpressionKept(value.value, Read, s, held);
        StraightKept(Check(value.value, Read, s), held, exact);
      }
    }
  }

  lemma ThrowKept(error: Option<Expression>, s: FlowState, held: multiset<Loan>, exact: bool)
    requires Balanced(s, held)
    ensures OutcomeKept(AnalyzeThrow(error, s), held, exact)
  {
    OptionalKept(error, s, held);
    CaptureKept(CheckOptional(error, s), true, held);
    StraightKept(Capture(CheckOptional(error, s), true), held, exact);
  }

  lemma ExpressionStatementKept(e: Expression, s: FlowState, held: multiset<Loan>, exact: bool)
    requires Balanced(s, held)
    ensures OutcomeKept(Straight(Check(e, Read, s)), held, exact)
  {
    ExpressionKept(e, Read, s, held);
    StraightKept(Check(e, Read, s), held, exact);
  }

  /** Statements that change nothing. */
  lemma JumpKept(s: FlowState, held: multiset<Loan>, exact: bool)
    requires Balanced(s, held)
    ensures OutcomeKept(Nothing(s), held, exact) && AllKept([s], held, exact)
  {
    BalancedIsKept(s, held, exact);
  }

  /** Every statement keeps the account, exactly if there is no `try` in it. */
  lemma {:induction false} StatementKept(
    statement: OwnStatement, x: Surroundings, s: FlowState, held: multiset<Loan>, exact: bool)
    requires Valid(s) && |s.scopes| > 0 && Balanced(s, held) && (exact ==> TryFree(statement))
    ensures OutcomeKept(Analyze(statement, x, s), held, exact)
    decreases statement, 2
  {
    match statement.kind
    case BlockStatement(b) => BlockKept(b, x, s, held, exact);
    case Local(local) => LocalKept(local, x, s, held, exact);
    case Return(value) => ReturnKept(value, x, s, held, exact);
    case Throw(error) => ThrowKept(error, s, held, exact);
    case Try(_, _) => TryKept(statement, x, s, held);
    case If(_, _, _) => IfKept(statement, x, s, held, exact);
    case While(_, _) => WhileKept(statement, x, s, held, exact);
    case For(_, _) => ForKept(statement, x, s, held, exact);
    case Expression(e) => ExpressionStatementKept(e, s, held, exact);
    case _ => JumpKept(s, held, exact);
  }

  lemma {:induction false} IfKept(
    statement: OwnStatement, x: Surroundings, s: FlowState, held: multiset<Loan>, exact: bool)
    requires Valid(s) && Balanced(s, held) && statement.kind.If? && (exact ==> TryFree(statement))
    ensures OutcomeKept(AnalyzeIf(statement, x, s), held, exact)
    decreases statement, 1
  {
    var c := Check(statement.kind.condition, Read, s);
    ExpressionKept(statement.kind.condition, Read, s, held);
    CheckedSame(statement.kind.condition, Read, s);
    BranchesKept(statement, x, c.state, held, exact);
    StraightKept(c, held, exact);
    AfterKept(Straight(c), AnalyzeBranches(statement, x, c.state), held, exact);
  }

  lemma {:induction false} BranchesKept(
    statement: OwnStatement, x: Surroundings, s: FlowState, held: multiset<Loan>, exact: bool)
    requires Valid(s) && Balanced(s, held) && statement.kind.If? && (exact ==> TryFree(statement))
    ensures OutcomeKept(AnalyzeBranches(statement, x, s), held, exact)
    decreases statement, 0
  {
    var yes, no := statement.kind.thenBranch, statement.kind.elseBranch;
    BalancedIsKept(s, held, exact);
    BranchKept(yes, x, s, held, exact);
    if no.Some? {
      BranchKept(no.value, x, s, held, exact);
    }
    JoinedKept(
      s, AnalyzeBranch(yes, x, s), if no.Some? then AnalyzeBranch(no.value, x, s) else Nothing(s), held, exact);
  }

  lemma JoinedKept(s: FlowState, t: Outcome, e: Outcome, held: multiset<Loan>, exact: bool)
    requires Balanced(s, held) && OutcomeKept(t, held, exact) && OutcomeKept(e, held, exact)
    ensures OutcomeKept(JoinBranches(s, t, e), held, exact)
  {
    MergeIdsOnly(s, t.state, e.state, Flatten(s.scopeBindings));
    AvailabilityBalanced(s, Merge(s, t.state, e.state), held);
    BalancedIsKept(Merge(s, t.state, e.state), held, exact);
    BalancedIsKept(s, held, exact);
  }

  lemma BaselineKept(s: FlowState, throws: seq<FlowState>, held: multiset<Loan>)
    requires Valid(s) && Balanced(s, held) && AllKept(throws, held, false) && AllWithin(s, throws)
    ensures Kept(CatchBaseline(s, throws), held, false) && Valid(CatchBaseline(s, throws))
  {
    BalancedIsKept(s, held, false);
    TruncateAllKept(throws, |s.scopes|, held, false);
    MergeManyKept(s, TruncateAll(throws, |s.scopes|), held, false);
    SameRefl(s);
    TruncateAllSame(s, throws);
    MergeManySame(s, s, TruncateAll(throws, |s.scopes|));
  }

  lemma TryEndKept(s: FlowState, g: Outcome, ends: seq<FlowState>, h: Outcome, held: multiset<Loan>)
    requires Balanced(s, held) && OutcomeKept(g, held, false) && AllKept(ends, held, false) && ExitsKept(h, held, false)
    ensures OutcomeKept(TryEnd(s, g, ends, h), held, false)
  {
    BalancedIsKept(s, held, false);
    MergeManyKept(s, (if g.reachable then [g.state] else []) + ends, held, false);
  }

  lemma {:induction false} HandlersKept(
    catches: seq<OwnCatch>, x: Surroundings, start: FlowState, held: multiset<Loan>)
    requires Valid(start) && Kept(start, held, false)
    ensures var (ends, h) := AnalyzeCatches(catches, x, start);
            AllKept(ends, held, false) && ExitsKept(h, held, false)
    decreases catches, 1
  {
    var leaked :| Balanced(start, held + leaked);
    CatchesKept(catches, x, start, held + leaked);
    var (ends, h) := AnalyzeCatches(catches, x, start);
    AllKeptOver(ends, held, leaked, false);
    AllKeptOver(h.breaks, held, leaked, false);
    AllKeptOver(h.continues, held, leaked, false);
    AllKeptOver(h.throws, held, leaked, false);
  }

  lemma {:induction false} TryKept(statement: OwnStatement, x: Surroundings, s: FlowState, held: multiset<Loan>)
    requires Valid(s) && Balanced(s, held) && statement.kind.Try?
    ensures OutcomeKept(AnalyzeTry(statement, x, s), held, false)
    decreases statement, 1
  {
    var guarded, catches := statement.kind.guarded, statement.kind.catches;
    BlockKept(guarded, x, s, held, false);
    BlockFramed(guarded, x, s);
    var g := AnalyzeBlock(guarded, x, s);
    BaselineKept(s, g.throws, held);
    HandlersKept(catches, x, CatchBaseline(s, g.throws), held);
    var (ends, h) := AnalyzeCatches(catches, x, CatchBaseline(s, g.throws));
    TryEndKept(s, g, ends, h, held);
  }

  lemma {:induction false} CatchesKept(catches: seq<OwnCatch>, x: Surroundings, s: FlowState, held: multiset<Loan>)
    requires Valid(s) && Balanced(s, held)
    ensures var (ends, o) := AnalyzeCatches(catches, x, s);
            AllKept(ends, held, false) && ExitsKept(o, held, false)
    decreases catches, 0
  {
    if |catches| > 0 {
      HandlerKept(catches[0], x, s, held);
      CatchesKept(catches[1..], x, s, held);
    }
  }

  lemma {:induction false} HandlerKept(clause: OwnCatch, x: Surroundings, s: FlowState, held: multiset<Loan>)
    requires Valid(s) && Balanced(s, held)
    ensures OutcomeKept(AnalyzeHandler(clause, x, s), held, false)
    decreases clause, 0
  {
    PushScopeWithin(s);
    PushBalanced(s, held);
    var t := PushScope(s);
    if clause.binding.Some? {
      var b := clause.binding.value;
      PlainDeclareBalanced(t, b.name, b.ty, b.span, b.lastUse, x.loopDepth, held);
      DeclareNear(t, b.name, b.ty, None, b.span, b.lastUse, x.loopDepth);
    }
    var inside := DeclareCatch(clause.binding, x, t);
    BodyKept(clause.body, x, inside, held, false);
    PopKept(AnalyzeBody(clause.body, x, inside).state, held, false);
  }

  lemma {:induction false} BodyKept(b: OwnBlock, x: Surroundings, s: FlowState, held: multiset<Loan>, exact: bool)
    requires Valid(s) && |s.scopes| > 0 && Balanced(s, held) && (exact ==> TryFreeBlock(b))
    ensures OutcomeKept(AnalyzeBody(b, x, s), held, exact)
    decreases b, 0
  {
    ListKept(b.statements, x, s, held, exact);
  }

  // ----- loops -----

  lemma {:induction false} DeclareRangeBalanced(
    bindings: seq<RangeBinding>, x: Surroundings, s: FlowState, held: multiset<Loan>)
    requires Valid(s) && |s.scopes| > 0 && Balanced(s, held)
    ensures Balanced(DeclareRange(bindings, x, s), held)
    decreases |bindings|
  {
    if |bindings| > 0 {
      var b := bindings[0];
      PlainDeclareBalanced(s, b.name, b.ty, b.span, b.lastUse, x.loopDepth, held);
      DeclareNear(s, b.name, b.ty, None, b.span, b.lastUse, x.loopDepth);
      DeclareRangeBalanced(bindings[1..], x, Declare(s, b.name, b.ty, None, b.span, b.lastUse, x.loopDepth), held);
    }
  }

  lemma TailKept(
    update: Option<Expression>, condition: Option<Expression>, s: FlowState, held: multiset<Loan>, exact: bool)
    requires Kept(s, held, exact)
    ensures Kept(CheckTail(update, condition, s).state, held, exact)
    ensures AllKept(CheckTail(update, condition, s).throws, held, false)
  {
    var leaked :| (exact ==> leaked == multiset{}) && Balanced(s, held + leaked);
    OptionalKept(update, s, held + leaked);
    var u := CheckOptional(update, s);
    OptionalKept(condition, u.state, held + leaked);
    AllKeptOver(u.throws, held, leaked, false);
    AllKeptOver(CheckOptional(condition, u.state).throws, held, leaked, false);
  }

  lemma {:induction false} TailsKept(
    update: Option<Expression>, condition: Option<Expression>, states: seq<FlowState>, held: multiset<Loan>,
    exact: bool)
    requires AllKept(states, held, exact)
    ensures AllKept(CheckTails(update, condition, states).0, held, exact)
    ensures AllKept(CheckTails(update, condition, states).1, held, false)
    decreases |states|
  {
    if |states| > 0 {
      TailKept(update, condition, states[0], held, exact);
      TailsKept(update, condition, states[1..], held, exact);
    }
  }

  ghost predicate IterationKept(i: Iteration, held: multiset<Loan>, exact: bool) {
    && (i.next.Some? ==> Kept(i.next.value, held, exact))
    && AllKept(i.breaks, held, exact) && AllKept(i.throws, held, false)
  }

  /** Joining the ends of an iteration keeps what its first state keeps. */
  lemma JoinedEndsKept(
    update: Option<Expression>, condition: Option<Expression>, states: seq<FlowState>, held: multiset<Loan>,
    exact: bool)
    requires |states| > 0 && AllKept(states, held, exact)
    ensures Kept(MergeMany(states[0], CheckTails(update, condition, states).0), held, exact)
  {
    TailsKept(update, condition, states, held, exact);
    var leaked :| (exact ==> leaked == multiset{}) && Balanced(states[0], held + leaked);
    var ends := CheckTails(update, condition, states).0;
    if |ends| > 1 {
      MergeIdsOnly(
        states[0], MergeMany(states[0], ends[..|ends| - 1]), ends[|ends| - 1], Flatten(states[0].scopeBindings));
      AvailabilityBalanced(states[0], MergeMany(states[0], ends), held + leaked);
    }
  }

  /** The states that reach the tail of a loop, from how its body ends. */
  lemma TailStatesKept(o: Outcome, depth: nat, held: multiset<Loan>, exact: bool)
    requires OutcomeKept(o, held, exact)
    ensures AllKept(TailStates(o, depth), held, exact)
    ensures AllKept(TruncateAll(o.breaks, depth), held, exact)
  {
    PopKept(o.state, held, exact);
    TruncateAllKept(o.continues, depth, held, exact);
    TruncateAllKept(o.breaks, depth, held, exact);
  }

  lemma IterationEndKept(
    o: Outcome, update: Option<Expression>, condition: Option<Expression>, depth: nat, held: multiset<Loan>,
    exact: bool)
    requires OutcomeKept(o, held, exact)
    ensures IterationKept(IterationEnd(o, update, condition, depth), held, exact)
  {
    TailStatesKept(o, depth, held, exact);
    var states := TailStates(o, depth);
    if |states| > 0 {
      TailsKept(update, condition, states, held, exact);
      JoinedEndsKept(update, condition, states, held, exact);
    }
  }

  /** The state in which the body of a loop starts. */
  lemma InsideBalanced(bindings: seq<RangeBinding>, x: Surroundings, s: FlowState, held: multiset<Loan>)
    requires Valid(s) && Balanced(s, held)
    ensures var t := DeclareRange(bindings, x, PushScope(s));
            Valid(t) && |t.scopes| > 0 && Balanced(t, held)
  {
    PushScopeWithin(s);
    PushBalanced(s, held);
    DeclareRangeNear(bindings, x, PushScope(s));
    DeclareRangeBalanced(bindings, x, PushScope(s), held);
  }

  lemma {:induction false} IterateKept(
    bindings: seq<RangeBinding>, body: OwnStatement, update: Option<Expression>, condition: Option<Expression>,
    x: Surroundings, s: FlowState, held: multiset<Loan>, exact: bool)
    requires Valid(s) && Balanced(s, held) && (exact ==> TryFree(body))
    ensures IterationKept(Iterate(bindings, body, update, condition, x, s), held, exact)
    decreases body, 3
  {
    InsideBalanced(bindings, x, s, held);
    var inside := DeclareRange(bindings, x, PushScope(s));
    StatementKept(body, x, inside, held, exact);
    IterationEndKept(Analyze(body, x, inside), update, condition, |s.scopes|, held, exact);
  }

  lemma IterationOver(i: Iteration, held: multiset<Loan>, leaked: multiset<Loan>, exact: bool)
    requires IterationKept(i, held + leaked, exact) && (exact ==> leaked == multiset{})
    ensures IterationKept(i, held, exact)
  {
    if i.next.Some? {
      KeptOver(i.next.value, held, leaked, exact);
    }
    AllKeptOver(i.breaks, held, leaked, exact);
    AllKeptOver(i.throws, held, leaked, false);
  }

  lemma {:induction false} SecondKept(
    bindings: seq<RangeBinding>, body: OwnStatement, update: Option<Expression>, condition: Option<Expression>,
    x: Surroundings, next: FlowState, held: multiset<Loan>, exact: bool)
    requires Valid(next) && Kept(next, held, exact) && (exact ==> TryFree(body))
    ensures IterationKept(Iterate(bindings, body, update, condition, x, next), held, exact)
    decreases body, 4
  {
    var leaked :| (exact ==> leaked == multiset{}) && Balanced(next, held + leaked);
    IterateKept(bindings, body, update, condition, x, next, held + leaked, exact);
    IterationOver(Iterate(bindings, body, update, condition, x, next), held, leaked, exact);
  }

  lemma LoopExitsKept(s: FlowState, first: Iteration, second: Iteration, held: multiset<Loan>, exact: bool)
    requires Balanced(s, held) && IterationKept(first, held, exact) && IterationKept(second, held, exact)
    ensures OutcomeKept(BothIterations(first, second, MergeMany(s, LoopExits(s, first, second))), held, exact)
  {
    BalancedIsKept(s, held, exact);
    MergeManyKept(s, LoopExits(s, first, second), held, exact);
  }

  lemma {:induction false} LoopKept(
    bindings: seq<RangeBinding>, body: OwnStatement, update: Option<Expression>, condition: Option<Expression>,
    x: Surroundings, s: FlowState, held: multiset<Loan>, exact: bool)
    requires Valid(s) && Balanced(s, held) && (exact ==> TryFree(body))
    ensures OutcomeKept(AnalyzeLoop(bindings, body, update, condition, x, s), held, exact)
    decreases body, 5
  {
    IterateKept(bindings, body, update, condition, x, s, held, exact);
    IterateFramed(bindings, body, update, condition, x, s);
    var first := Iterate(bindings, body, update, condition, x, s);
    if first.next.Some? {
      SecondKept(bindings, body, update, condition, x, first.next.value, held, exact);
    }
    LoopExitsKept(s, first, SecondIteration(bindings, body, update, condition, x, first), held, exact);
  }

  lemma CloseLoopKept(o: Outcome, position: nat, loopDepth: nat, held: multiset<Loan>, exact: bool)
    requires OutcomeKept(o, held, exact)
    ensures OutcomeKept(CloseLoop(o, position, loopDepth), held, exact)
  {
    PopKept(o.state, held, exact);
    ReleaseExpiredKept(PopScope(o.state), position, loopDepth, held, exact);
  }

  lemma {:induction false} WhileKept(
    statement: OwnStatement, x: Surroundings, s: FlowState, held: multiset<Loan>, exact: bool)
    requires Valid(s) && Balanced(s, held) && statement.kind.While? && (exact ==> TryFree(statement))
    ensures OutcomeKept(AnalyzeWhile(statement, x, s), held, exact)
    decreases statement, 1
  {
    var condition, body := statement.kind.condition, statement.kind.body;
    PushScopeWithin(s);
    PushBalanced(s, held);
    WhileBodyKept(condition, body, InLoop(x), PushScope(s), held, exact);
    CloseLoopKept(
      AnalyzeWhileBody(condition, body, InLoop(x), PushScope(s)), body.span.end, x.loopDepth, held, exact);
  }

  lemma {:induction false} WhileBodyKept(
    condition: Expression, body: OwnStatement, x: Surroundings, s: FlowState, held: multiset<Loan>, exact: bool)
    requires Valid(s) && Balanced(s, held) && (exact ==> TryFree(body))
    ensures OutcomeKept(AnalyzeWhileBody(condition, body, x, s), held, exact)
    decreases body, 6
  {
    ExpressionKept(condition, Read, s, held);
    CheckedSame(condition, Read, s);
    var c := Check(condition, Read, s);
    LoopKept([], body, None, Some(condition), x, c.state, held, exact);
    StraightKept(c, held, exact);
    AfterKept(Straight(c), AnalyzeLoop([], body, None, Some(condition), x, c.state), held, exact);
  }

  lemma {:induction false} ForKept(
    statement: OwnStatement, x: Surroundings, s: FlowState, held: multiset<Loan>, exact: bool)
    requires Valid(s) && Balanced(s, held) && statement.kind.For? && (exact ==> TryFree(statement))
    ensures OutcomeKept(AnalyzeForStatement(statement, x, s), held, exact)
    decreases statement, 1
  {
    var clause, body := statement.kind.clause, statement.kind.body;
    PushScopeWithin(s);
    PushBalanced(s, held);
    if clause.Classic? {
      ClassicKept(clause, body, InLoop(x), PushScope(s), held, exact);
    } else {
      RangeKept(clause, body, InLoop(x), PushScope(s), held, exact);
    }
    CloseLoopKept(AnalyzeFor(clause, body, InLoop(x), PushScope(s)), body.span.end, x.loopDepth, held, exact);
  }

  lemma InitializerKept(
    initializer: Option<ForInitializer<Expression>>, x: Surroundings, s: FlowState, held: multiset<Loan>, exact: bool)
    requires Valid(s) && |s.scopes| > 0 && Balanced(s, held)
    ensures OutcomeKept(AnalyzeInitializer(initializer, x, s), held, exact)
  {
    BalancedIsKept(s, held, exact);
    if initializer.Some? {
      match initializer.value
      case InitializerLocal(local) => LocalKept(local, x, s, held, exact);
      case InitializerExpression(e) =>
        ExpressionKept(e, Read, s, held);
        StraightKept(Check(e, Read, s), held, exact);
    }
  }

  lemma {:induction false} ClassicKept(
    clause: ForClause<Expression>, body: OwnStatement, x: Surroundings, s: FlowState, held: multiset<Loan>, exact: bool)
    requires Valid(s) && |s.scopes| > 0 && Balanced(s, held) && clause.Classic? && (exact ==> TryFree(body))
    ensures OutcomeKept(AnalyzeClassic(clause, body, x, s), held, exact)
    decreases body, 6, 1
  {
    InitializerKept(clause.initializer, x, s, held, exact);
    InitializerFramed(clause.initializer, x, s);
    var i := AnalyzeInitializer(clause.initializer, x, s);
    var leaked :| (exact ==> leaked == multiset{}) && Balanced(i.state, held + leaked);
    var c := CheckOptional(clause.condition, i.state);
    var l := AnalyzeLoop([], body, clause.update, clause.condition, x, c.state);
    ConditionAndLoopKept(clause, body, x, i.state, held + leaked, exact);
    OutcomeOver(After(Straight(c), l), held, leaked, exact);
    AfterKept(i, After(Straight(c), l), held, exact);
    AfterAssociates(i, Straight(c), l);
  }

  lemma {:induction false} ConditionAndLoopKept(
    clause: ForClause<Expression>, body: OwnStatement, x: Surroundings, s: FlowState, held: multiset<Loan>, exact: bool)
    requires Valid(s) && Balanced(s, held) && clause.Classic? && (exact ==> TryFree(body))
    ensures var c := CheckOptional(clause.condition, s);
            OutcomeKept(
              After(Straight(c), AnalyzeLoop([], body, clause.update, clause.condition, x, c.state)), held, exact)
    decreases body, 6, 0
  {
    OptionalKept(clause.condition, s, held);
    StraightFramed(clause.condition, s);
    var c := CheckOptional(clause.condition, s);
    LoopKept([], body, clause.update, clause.condition, x, c.state, held, exact);
    StraightKept(c, held, exact);
    AfterKept(Straight(c), AnalyzeLoop([], body, clause.update, clause.condition, x, c.state), held, exact);
  }

  lemma RangeStartKept(
    bindings: seq<RangeBinding>, iterable: Expression, json: bool, s: FlowState, held: multiset<Loan>)
    requires Valid(s) && Balanced(s, held)
    ensures var (c, loan) := RangeStart(bindings, iterable, json, s);
            && Balanced(c.state, held + if loan.Some? then multiset{loan.value} else multiset{})
            && AllKept(c.throws, held, false)
  {
    var usage := RangeUsage(bindings, iterable, json);
    ExpressionKept(iterable, usage, s, held);
    CheckedSame(iterable, usage, s);
    OriginExists(iterable, usage, s);
    var c := Check(iterable, usage, s);
    if !json && (AnyReference(bindings) || !iterable.kind.Move?) {
      PersistentBalanced(c.state, c.origin, AnyMutableReference(bindings), iterable.span, held);
    } else {
      assert held + multiset{} == held;
    }
  }

  lemma LoopLoanReturned(c: Checked, o: Outcome, loan: Option<Loan>, held: multiset<Loan>, exact: bool)
    requires AllKept(c.throws, held, false)
    requires o.breaks == [] && o.continues == []
    requires OutcomeKept(o, held + if loan.Some? then multiset{loan.value} else multiset{}, exact)
    ensures OutcomeKept(ReleaseLoop(After(Straight(c), o), loan), held, exact)
  {
    if loan.Some? {
      var taken := multiset{loan.value};
      var leaked :| (exact ==> leaked == multiset{}) && Balanced(o.state, held + taken + leaked);
      assert held + taken + leaked == held + leaked + taken;
      ReleaseBalanced(o.state, loan.value, held + leaked);
      AllKeptOver(o.throws, held, taken, false);
    } else {
      assert held + multiset{} == held;
    }
  }

  lemma {:induction false} RangeKept(
    clause: ForClause<Expression>, body: OwnStatement, x: Surroundings, s: FlowState, held: multiset<Loan>, exact: bool)
    requires Valid(s) && |s.scopes| > 0 && Balanced(s, held) && clause.Range? && (exact ==> TryFree(body))
    ensures OutcomeKept(AnalyzeRange(clause, body, x, s), held, exact)
    decreases body, 6
  {
    var (c, loan) := RangeStart(clause.bindings, clause.iterable, clause.json, s);
    RangeStartKept(clause.bindings, clause.iterable, clause.json, s, held);
    RangeStartFramed(clause.bindings, clause.iterable, clause.json, s);
    var with := held + if loan.Some? then multiset{loan.value} else multiset{};
    LoopKept(clause.bindings, body, None, None, x, c.state, with, exact);
    LoopLoanReturned(c, AnalyzeLoop(clause.bindings, body, None, None, x, c.state), loan, held, exact);
  }

  // ----- functions -----

  lemma {:induction false} ParametersBalanced(parameters: seq<Parameter>, s: FlowState)
    requires Valid(s) && |s.scopes| > 0 && Balanced(s, multiset{})
    ensures var t := DeclareParameters(parameters, s);
            Valid(t) && |t.scopes| == |s.scopes| && Balanced(t, multiset{})
    decreases |parameters|
  {
    if |parameters| > 0 {
      var p := parameters[0];
      PlainDeclareBalanced(s, p.name, p.ty, p.span, p.lastUse, 0, multiset{});
      DeclareNear(s, p.name, p.ty, None, p.span, p.lastUse, 0);
      ParametersBalanced(parameters[1..], Declare(s, p.name, p.ty, None, p.span, p.lastUse, 0));
    }
  }

  lemma FunctionKept(parameters: seq<Parameter>, body: OwnBlock, x: Surroundings, exact: bool)
    requires exact ==> TryFreeBlock(body)
    ensures OutcomeKept(AnalyzeFunction(parameters, body, x), multiset{}, exact)
    ensures |AnalyzeFunction(parameters, body, x).state.scopes| == 0
  {
    var start := PushScope(EMPTY_STATE);
    ParametersBalanced(parameters, start);
    var s := DeclareParameters(parameters, start);
    BodyKept(body, x, s, multiset{}, exact);
    BodyFramed(body, x, s);
    PopKept(AnalyzeBody(body, x, s).state, multiset{}, exact);
  }

  /** The loans of every state a function ends in or is left from are respected. */
  lemma FunctionsRespectLoans(parameters: seq<Parameter>, body: OwnBlock, x: Surroundings)
    ensures var o := AnalyzeFunction(parameters, body, x);
            && LoansRespected(o.state)
            && forall i :: 0 <= i < |o.throws| ==> LoansRespected(o.throws[i])
  {
    FunctionKept(parameters, body, x, false);
    var o := AnalyzeFunction(parameters, body, x);
    KeptRespectsLoans(o.state, multiset{});
    forall i | 0 <= i < |o.throws|
      ensures LoansRespected(o.throws[i])
    {
      KeptRespectsLoans(o.throws[i], multiset{});
    }
  }

  lemma KeptRespectsLoans(s: FlowState, held: multiset<Loan>)
    requires Kept(s, held, false)
    ensures LoansRespected(s)
  {
    var leaked :| Balanced(s, held + leaked);
    BalancedRespectsLoans(s, held + leaked);
  }

  /** At the end of a function without `try` no binding is borrowed any more. */
  lemma LoansReturnToZero(parameters: seq<Parameter>, body: OwnBlock, x: Surroundings)
    requires TryFreeBlock(body)
    ensures var bindings := AnalyzeFunction(parameters, body, x).state.bindings;
            forall id :: 0 <= id < |bindings| ==>
              bindings[id].sharedBorrows == 0 && !bindings[id].mutablyBorrowed && !bindings[id].loanActive
  {
    FunctionKept(parameters, body, x, true);
    var s := AnalyzeFunction(parameters, body, x).state;
    var leaked :| leaked == multiset{} && Balanced(s, multiset{} + leaked);
    assert Flatten(s.scopeBindings) == [];
    forall id | 0 <= id < |s.bindings|
      ensures s.bindings[id].sharedBorrows == 0 && !s.bindings[id].mutablyBorrowed && !s.bindings[id].loanActive
    {
      assert Accounted(s.bindings, multiset{} + leaked, id);
      NoBorrowers(s.bindings, Loan(id, false));
      NoBorrowers(s.bindings, Loan(id, true));
    }
  }
}
