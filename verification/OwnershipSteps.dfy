/** How the fields of the ownership pass change with each analysed part, and that parts add up. */
module OwnershipSteps {
  import opened Wrappers
  import opened Ast
  import opened FlowStates
  import opened Ownership
  import opened OwnershipScopes

  /** Where the loops around a statement are left: the states, with the inner scopes gone. */
  datatype LoopContext = LoopContext(scopeDepth: nat, breakStates: seq<FlowState>, continueStates: seq<FlowState>)

  datatype ExceptionContext = ExceptionContext(scopeDepth: nat, states: seq<FlowState>)

  /** The fields of an analyzer, as a value. */
  datatype Pass = Pass(
    state: FlowState,
    diagnostics: seq<Report>,
    loopDepth: nat,
    loops: seq<LoopContext>,
    exceptions: seq<ExceptionContext>,
    returnsReference: bool,
    returnBorrow: Option<nat>)

  // ----- effects on the fields -----

  /** A report that was made before is not made again. */
  function Emit(diagnostics: seq<Report>, reports: seq<Report>): seq<Report>
    decreases |reports|
  {
    if |reports| == 0 then diagnostics
    else Emit(if reports[0] in diagnostics then diagnostics else diagnostics + [reports[0]], reports[1..])
  }

  ghost predicate Unique(reports: seq<Report>) {
    forall i, j :: 0 <= i < j < |reports| ==> reports[i] != reports[j]
  }

  /** Every report is there once; what was there before stays in front. */
  lemma {:induction false} EmittedOnce(diagnostics: seq<Report>, reports: seq<Report>)
    requires Unique(diagnostics)
    ensures var all := Emit(diagnostics, reports);
            && Unique(all) && diagnostics <= all
            && forall r :: r in all <==> r in diagnostics || r in reports
    decreases |reports|
  {
    if |reports| > 0 {
      var next := if reports[0] in diagnostics then diagnostics else diagnostics + [reports[0]];
      EmittedOnce(next, reports[1..]);
      assert reports == [reports[0]] + reports[1..];
    }
  }

  /** Every enclosing `try` notes the states, without the scopes inside it. */
  function Record(contexts: seq<ExceptionContext>, states: seq<FlowState>): (r: seq<ExceptionContext>)
    ensures |r| == |contexts|
  {
    seq(|contexts|, i requires 0 <= i < |contexts| =>
      contexts[i].(states := contexts[i].states + TruncateAll(states, contexts[i].scopeDepth)))
  }

  /** Only the innermost loop notes how it is left or continued. */
  function Exit(loops: seq<LoopContext>, breaks: seq<FlowState>, continues: seq<FlowState>): seq<LoopContext> {
    if |loops| == 0 then loops
    else
      var context := loops[|loops| - 1];
      loops[|loops| - 1 := context.(
        breakStates := context.breakStates + TruncateAll(breaks, context.scopeDepth),
        continueStates := context.continueStates + TruncateAll(continues, context.scopeDepth))]
  }

  /** The fields after a part whose analysis is `o`. */
  function Stepped(p: Pass, o: Outcome): Pass {
    p.(
      state := o.state,
      diagnostics := Emit(p.diagnostics, o.reports),
      exceptions := Record(p.exceptions, o.throws),
      loops := Exit(p.loops, o.breaks, o.continues))
  }

  function Around(p: Pass): Surroundings {
    Surroundings(p.loopDepth, p.returnsReference, p.returnBorrow)
  }

  lemma {:induction false} EmitAppend(diagnostics: seq<Report>, a: seq<Report>, b: seq<Report>)
    ensures Emit(diagnostics, a + b) == Emit(Emit(diagnostics, a), b)
    decreases |a|
  {
    if |a| == 0 {
      assert a + b == b;
    } else {
      assert (a + b)[1..] == a[1..] + b;
      EmitAppend(if a[0] in diagnostics then diagnostics else diagnostics + [a[0]], a[1..], b);
    }
  }

  lemma TruncateAllAppend(a: seq<FlowState>, b: seq<FlowState>, depth: nat)
    ensures TruncateAll(a + b, depth) == TruncateAll(a, depth) + TruncateAll(b, depth)
  {
  }

  lemma StatesAppend(states: seq<FlowState>, a: seq<FlowState>, b: seq<FlowState>, depth: nat)
    ensures states + TruncateAll(a + b, depth) == states + TruncateAll(a, depth) + TruncateAll(b, depth)
  {
    TruncateAllAppend(a, b, depth);
  }

  lemma RecordAppend(contexts: seq<ExceptionContext>, a: seq<FlowState>, b: seq<FlowState>)
    ensures Record(contexts, a + b) == Record(Record(contexts, a), b)
  {
    forall i | 0 <= i < |contexts|
      ensures Record(contexts, a + b)[i] == Record(Record(contexts, a), b)[i]
    {
      StatesAppend(contexts[i].states, a, b, contexts[i].scopeDepth);
    }
  }

  lemma ExitAppend(
    loops: seq<LoopContext>, a: seq<FlowState>, b: seq<FlowState>, c: seq<FlowState>, d: seq<FlowState>)
    ensures Exit(loops, a + c, b + d) == Exit(Exit(loops, a, b), c, d)
  {
    if |loops| > 0 {
      var context := loops[|loops| - 1];
      StatesAppend(context.breakStates, a, c, context.scopeDepth);
      StatesAppend(context.continueStates, b, d, context.scopeDepth);
    }
  }

  lemma RecordNothing(contexts: seq<ExceptionContext>)
    ensures Record(contexts, []) == contexts
  {
    forall i | 0 <= i < |contexts|
      ensures Record(contexts, [])[i] == contexts[i]
    {
      assert contexts[i].states + [] == contexts[i].states;
    }
  }

  lemma ExitNothing(loops: seq<LoopContext>)
    ensures Exit(loops, [], []) == loops
  {
    if |loops| > 0 {
      var context := loops[|loops| - 1];
      assert context.breakStates + [] == context.breakStates && context.continueStates + [] == context.continueStates;
    }
  }

  lemma SteppedAfter(p: Pass, first: Outcome, second: Outcome)
    ensures Stepped(Stepped(p, first), second) == Stepped(p, After(first, second))
  {
    EmitAppend(p.diagnostics, first.reports, second.reports);
    RecordAppend(p.exceptions, first.throws, second.throws);
    ExitAppend(p.loops, first.breaks, first.continues, second.breaks, second.continues);
  }

  /** A part that changes the state alone. */
  lemma SteppedQuietly(p: Pass, s: FlowState, reachable: bool)
    ensures Stepped(p, Outcome(s, reachable, [], [], [], [])) == p.(state := s)
  {
    RecordNothing(p.exceptions);
    ExitNothing(p.loops);
  }

  lemma SteppedStraight(p: Pass, s: FlowState, origin: Option<nat>)
    ensures Stepped(p, Straight(Checked(s, origin, [], []))) == p.(state := s)
  {
    SteppedQuietly(p, s, true);
  }

  /** A part that makes one report. */
  lemma SteppedReport(p: Pass, s: FlowState, report: Report, reachable: bool)
    ensures Stepped(p, Outcome(s, reachable, [], [], [], [report]))
         == p.(state := s, diagnostics := if report in p.diagnostics then p.diagnostics else p.diagnostics + [report])
  {
    RecordNothing(p.exceptions);
    ExitNothing(p.loops);
    var after := if report in p.diagnostics then p.diagnostics else p.diagnostics + [report];
    assert [report][1..] == [] && Emit(after, []) == after;
    assert Emit(p.diagnostics, [report]) == Emit(after, [report][1..]);
  }

  /** Noting the state after a part that may raise is part of it. */
  lemma Captured(p: Pass, c: Checked, raises: bool)
    ensures Stepped(
              Stepped(p, Straight(c)), Outcome(c.state, true, [], [], if raises then [c.state] else [], []))
         == Stepped(p, Straight(Capture(c, raises)))
  {
    SteppedAfter(p, Straight(c), Outcome(c.state, true, [], [], if raises then [c.state] else [], []));
    assert c.reports + [] == c.reports && c.throws + [] == c.throws;
  }

  lemma AssignSteps(p: Pass, e: Expression, usage: Usage)
    requires e.kind.Assign?
    ensures var r := Capture(Capture(Check(e.kind.right, Read, p.state), e.kind.adapted), e.kind.jsonPlace);
            && Stepped(Stepped(p, Straight(r)), Straight(Write(e.kind.target, r.state)))
            == Stepped(p, Straight(Check(e, usage, p.state)))
            && Check(e, usage, p.state).origin.None?
  {
    var r := Capture(Capture(Check(e.kind.right, Read, p.state), e.kind.adapted), e.kind.jsonPlace);
    Continued(p, r, Write(e.kind.target, r.state));
  }

  lemma ConstructSteps(p: Pass, e: Expression, usage: Usage)
    requires e.kind.Construct?
    ensures var c := CheckElements(e.kind.elements, false, p.state);
            && Stepped(
                 Stepped(p, Straight(c)), Outcome(c.state, true, [], [], if e.kind.throws then [c.state] else [], []))
            == Stepped(p, Straight(Check(e, usage, p.state)))
            && Check(e, usage, p.state).origin.None?
  {
    NoOrigin(e.kind.elements, false, p.state);
    Captured(p, CheckElements(e.kind.elements, false, p.state), e.kind.throws);
  }

  lemma ConsumeSteps(p: Pass, e: Expression, usage: Usage)
    requires e.kind.Consume?
    ensures var c := CheckConsumed(e, p.state);
            Stepped(
              Stepped(p, Straight(c)), Outcome(c.state, true, [], [], if e.kind.throws then [c.state] else [], []))
            == Stepped(p, Straight(Check(e, usage, p.state)))
    ensures Check(e, usage, p.state).origin.None?
  {
    Captured(p, CheckConsumed(e, p.state), e.kind.throws);
  }

  lemma Continued(p: Pass, first: Checked, second: Checked)
    ensures Stepped(Stepped(p, Straight(first)), Straight(second)) == Stepped(p, Straight(Then(first, second)))
  {
    SteppedAfter(p, Straight(first), Straight(second));
  }

  lemma NoOrigin(elements: seq<Element>, recorded: bool, s: FlowState)
    ensures CheckElements(elements, recorded, s).origin.None?
  {
  }

  function Together(first: CheckedAll, rest: CheckedAll): CheckedAll {
    CheckedAll(
      rest.state, first.origins + rest.origins, first.loans + rest.loans, first.throws + rest.throws,
      first.reports + rest.reports)
  }

  /** The fields after operands whose loans are still held. */
  function Passed(c: CheckedAll): Outcome {
    Outcome(c.state, true, [], [], c.throws, c.reports)
  }

  type Collected = (seq<FlowState>, seq<FlowState>, seq<Report>)

  function JoinCollected(a: Collected, b: Collected): Collected {
    (a.0 + b.0, a.1 + b.1, a.2 + b.2)
  }

  function SoFar(s: FlowState, done: Collected): Outcome {
    Outcome(s, true, [], [], done.1, done.2)
  }

  lemma NextCollected(p: Pass, s: FlowState, done: Collected, c: Checked, rest: Collected)
    ensures Stepped(Stepped(p, SoFar(s, done)), Straight(c))
         == Stepped(p, SoFar(c.state, JoinCollected(done, ([c.state], c.throws, c.reports))))
    ensures JoinCollected(JoinCollected(done, ([c.state], c.throws, c.reports)), rest)
         == JoinCollected(done, ([c.state] + rest.0, c.throws + rest.1, c.reports + rest.2))
  {
    SteppedAfter(p, SoFar(s, done), Straight(c));
    assert done.0 + [c.state] + rest.0 == done.0 + ([c.state] + rest.0);
    assert done.1 + c.throws + rest.1 == done.1 + (c.throws + rest.1);
    assert done.2 + c.reports + rest.2 == done.2 + (c.reports + rest.2);
  }

  lemma SwitchSteps(p: Pass, e: Expression, usage: Usage, s: FlowState)
    requires e.kind.Switch?
    ensures var c := Check(e.kind.scrutinee, Read, p.state);
            var arms := CheckArms(e.kind.arms, usage, c.state);
            && Stepped(Stepped(p, Straight(c)), SoFar(s, arms)).(state := MergeMany(c.state, arms.0))
            == Stepped(p, Straight(Check(e, usage, p.state)))
            && Check(e, usage, p.state).origin.None?
  {
    var c := Check(e.kind.scrutinee, Read, p.state);
    SteppedAfter(p, Straight(c), SoFar(s, CheckArms(e.kind.arms, usage, c.state)));
  }

  lemma JoinNothing(done: Collected)
    ensures JoinCollected(done, ([], [], [])) == done && JoinCollected(([], [], []), done) == done
  {
    assert [] + done.0 == done.0 && [] + done.1 == done.1 && [] + done.2 == done.2;
    assert done.0 + [] == done.0 && done.1 + [] == done.1 && done.2 + [] == done.2;
  }

  /** A call: its operands, and then their loans given back. */
  lemma CallSteps(p: Pass, e: Expression)
    requires e.kind.Call?
    ensures var r := CheckReceiver(e.kind.receiver, p.state);
            var a := CheckArguments(e.kind.arguments, r.state);
            Stepped(Stepped(p, Passed(r)), Passed(a)).(state := ReleaseAll(ReleaseAll(a.state, a.loans), r.loans))
            == Stepped(p, Straight(CheckCall(e, p.state)))
  {
    var r := CheckReceiver(e.kind.receiver, p.state);
    SteppedAfter(p, Passed(r), Passed(CheckArguments(e.kind.arguments, r.state)));
  }

  lemma TogetherAssociates(a: CheckedAll, b: CheckedAll, c: CheckedAll)
    ensures Together(Together(a, b), c) == Together(a, Together(b, c))
  {
    assert a.origins + b.origins + c.origins == a.origins + (b.origins + c.origins);
    assert a.loans + b.loans + c.loans == a.loans + (b.loans + c.loans);
    assert a.throws + b.throws + c.throws == a.throws + (b.throws + c.throws);
    assert a.reports + b.reports + c.reports == a.reports + (b.reports + c.reports);
  }

  lemma NextArgument(p: Pass, done: CheckedAll, c: CheckedAll, rest: CheckedAll)
    ensures Stepped(Stepped(p, Passed(done)), Passed(c)) == Stepped(p, Passed(Together(done, c)))
    ensures Together(Together(done, c), rest) == Together(done, Together(c, rest))
  {
    SteppedAfter(p, Passed(done), Passed(c));
    TogetherAssociates(done, c, rest);
  }

  lemma TogetherNothing(c: CheckedAll)
    ensures Together(c, CheckedAll(c.state, [], [], [], [])) == c
  {
    assert c.origins + [] == c.origins && c.loans + [] == c.loans;
    assert c.throws + [] == c.throws && c.reports + [] == c.reports;
  }

  lemma ThenAssociates(a: Checked, b: Checked, c: Checked)
    ensures Then(Then(a, b), c) == Then(a, Then(b, c))
  {
  }

  // ----- loops -----

  /** As `Stepped`, except for the context of the innermost loop, which is about to go. */
  predicate LoopStepped(p: Pass, o: Outcome, q: Pass) {
    && |p.loops| > 0 && |q.loops| == |p.loops|
    && q.loops[..|p.loops| - 1] == p.loops[..|p.loops| - 1]
    && q.(loops := []) == Stepped(p, o).(loops := [])
  }

  /** An analysed iteration: its reports and exceptions are noted, and how the loop is left by `break`. */
  predicate IterationStepped(p: Pass, i: Iteration, q: Pass) {
    && |p.loops| > 0 && |q.loops| == |p.loops|
    && q.loops[..|p.loops| - 1] == p.loops[..|p.loops| - 1]
    && q.loops[|p.loops| - 1]
       == p.loops[|p.loops| - 1].(breakStates := p.loops[|p.loops| - 1].breakStates + i.breaks)
    && q.diagnostics == Emit(p.diagnostics, i.reports)
    && q.exceptions == Record(p.exceptions, i.throws)
    && Around(q) == Around(p)
  }

  lemma LoopSteppedAfter(p: Pass, first: Outcome, second: Outcome, q: Pass)
    requires first.breaks == [] && first.continues == [] && LoopStepped(Stepped(p, first), second, q) && |p.loops| > 0
    ensures LoopStepped(p, After(first, second), q)
  {
    SteppedAfter(p, first, second);
    ExitNothing(p.loops);
  }

  lemma AfterNothing(s: FlowState, o: Outcome)
    ensures After(Nothing(s), o) == o
  {
    assert [] + o.breaks == o.breaks && [] + o.continues == o.continues && [] + o.throws == o.throws;
    assert [] + o.reports == o.reports;
  }

  /** Two analysed iterations of one loop, from its fresh context. */
  lemma TwoIterations(p: Pass, first: Iteration, q: Pass, second: Iteration, r: Pass)
    requires IterationStepped(p, first, q) && IterationStepped(q, second, r)
    ensures LoopStepped(
              p, Outcome(r.state, true, [], [], first.throws + second.throws, first.reports + second.reports), r)
    ensures r.loops[|r.loops| - 1].breakStates == p.loops[|p.loops| - 1].breakStates + (first.breaks + second.breaks)
  {
    EmitAppend(p.diagnostics, first.reports, second.reports);
    RecordAppend(p.exceptions, first.throws, second.throws);
  }

  /** After its body a loop takes the states that continue out of its context. */
  lemma ContinuesTaken(p: Pass, o: Outcome, q: Pass)
    requires |p.loops| > 0 && q.(state := p.state) == Stepped(p, o).(state := p.state)
    ensures var last := |p.loops| - 1;
            var start, context, depth := |p.loops[last].continueStates|, q.loops[last], p.loops[last].scopeDepth;
            && start <= |context.continueStates|
            && context.continueStates[start..] == TruncateAll(o.continues, depth)
            && IterationStepped(
                 p, Iteration(None, TruncateAll(o.breaks, depth), o.throws, o.reports),
                 q.(loops := q.loops[last := context.(continueStates := context.continueStates[..start])]))
  {
  }

  /** The tail of an iteration, after its body. */
  lemma TailsNoted(
    p: Pass, o: Outcome, q: Pass, update: Option<Expression>, condition: Option<Expression>, depth: nat)
    requires |p.loops| > 0 && |TailStates(o, depth)| > 0
    requires IterationStepped(p, Iteration(None, TruncateAll(o.breaks, depth), o.throws, o.reports), q)
    ensures var (_, throws, reports) := CheckTails(update, condition, TailStates(o, depth));
            IterationStepped(
              p, IterationEnd(o, update, condition, depth),
              Stepped(q, Outcome(q.state, true, [], [], throws, reports)))
  {
    var (_, throws, reports) := CheckTails(update, condition, TailStates(o, depth));
    EmitAppend(p.diagnostics, o.reports, reports);
    RecordAppend(p.exceptions, o.throws, throws);
    ExitNothing(q.loops);
  }

  function ExitStates(
    s: FlowState, firstState: Option<FlowState>, repeatedState: Option<FlowState>, breaks: seq<FlowState>)
    : seq<FlowState>
  {
    [s] + Present(firstState) + Present(repeatedState) + breaks
  }

  lemma ExitStatesAreExits(s: FlowState, first: Iteration, second: Iteration, breaks: seq<FlowState>)
    requires breaks == first.breaks + second.breaks
    ensures ExitStates(s, first.next, second.next, breaks) == LoopExits(s, first, second)
  {
    var before := [s] + Present(first.next) + Present(second.next);
    assert before + (first.breaks + second.breaks) == before + first.breaks + second.breaks;
  }

  lemma ExitsDecide(p: Pass, q: Pass, first: Iteration, second: Iteration, end: FlowState)
    requires LoopStepped(p, BothIterations(first, second, q.state), q)
    ensures LoopStepped(p, BothIterations(first, second, end), q.(state := end))
  {
  }

  /** After two iterations the context of the loop has the breaks of both. */
  predicate TwiceStepped(p: Pass, first: Iteration, second: Iteration, q: Pass) {
    && LoopStepped(p, BothIterations(first, second, q.state), q)
    && q.loops[|q.loops| - 1].breakStates == first.breaks + second.breaks
  }

  /** The ways out of a loop, read off its context after two iterations. */
  lemma ContextExits(p: Pass, first: Iteration, q: Pass, second: Iteration, r: Pass)
    requires IterationStepped(p, first, q) && IterationStepped(q, second, r)
    requires p.loops[|p.loops| - 1].breakStates == []
    ensures TwiceStepped(p, first, second, r)
  {
    TwoIterations(p, first, q, second, r);
    assert [] + (first.breaks + second.breaks) == first.breaks + second.breaks;
  }

  function Opened(p: Pass): Pass {
    p.(
      state := PushScope(p.state),
      loopDepth := p.loopDepth + 1,
      loops := p.loops + [LoopContext(|p.state.scopes| + 1, [], [])])
  }

  function Closed(p: Pass, position: nat): Pass
    requires |p.loops| > 0 && p.loopDepth > 0
  {
    p.(
      state := ReleaseExpired(PopScope(p.state), position, p.loopDepth - 1),
      loopDepth := p.loopDepth - 1,
      loops := p.loops[..|p.loops| - 1])
  }

  /** Opening a loop, running it and closing it. */
  lemma ClosedLoop(outer: Pass, o: Outcome, q: Pass, position: nat)
    requires LoopStepped(Opened(outer), o, q) && o.breaks == [] && o.continues == []
    ensures q.loopDepth > 0
    ensures Closed(q, position) == Stepped(outer, CloseLoop(o, position, outer.loopDepth))
  {
    ExitNothing(outer.loops);
    assert Opened(outer).loops[..|outer.loops|] == outer.loops;
  }

  /** A loop catches the jumps inside it, and control may always go on behind it. */
  lemma WhileShape(condition: Expression, body: OwnStatement, x: Surroundings, s: FlowState)
    ensures var o := AnalyzeWhileBody(condition, body, x, s);
            o.reachable && o.breaks == [] && o.continues == []
  {
  }

  lemma ClassicShape(clause: ForClause<Expression>, body: OwnStatement, x: Surroundings, s: FlowState)
    requires clause.Classic?
    ensures var o := AnalyzeClassic(clause, body, x, s);
            o.reachable && o.breaks == [] && o.continues == []
  {
  }

  lemma RangeShape(clause: ForClause<Expression>, body: OwnStatement, x: Surroundings, s: FlowState)
    requires clause.Range?
    ensures var o := AnalyzeRange(clause, body, x, s);
            o.reachable && o.breaks == [] && o.continues == []
  {
  }

  lemma CatchesEnd(ends: seq<FlowState>, done: Outcome, all: (seq<FlowState>, Outcome))
    requires exists s :: CatchesSplit(ends, done, ([], Nothing(s)), all)
    ensures ends == all.0 && done.breaks == all.1.breaks && done.continues == all.1.continues
    ensures done.throws == all.1.throws && done.reports == all.1.reports
  {
    assert ends + [] == ends && done.breaks + [] == done.breaks && done.continues + [] == done.continues;
    assert done.throws + [] == done.throws && done.reports + [] == done.reports;
  }

  /** What a `try` block's own context holds, and what it adds to the enclosing ones. */
  lemma RecordInner(contexts: seq<ExceptionContext>, inner: ExceptionContext, states: seq<FlowState>)
    ensures var all := Record(contexts + [inner], states);
            && all[|contexts|] == inner.(states := inner.states + TruncateAll(states, inner.scopeDepth))
            && all[..|contexts|] == Record(contexts, states)
  {
  }

  lemma EndOfList(o: Outcome)
    requires o.reachable
    ensures After(o, Nothing(o.state)) == o
  {
    assert o.breaks + [] == o.breaks && o.continues + [] == o.continues && o.throws + [] == o.throws;
    assert o.reports + [] == o.reports;
  }

  lemma NoIteration(p: Pass)
    requires |p.loops| > 0
    ensures IterationStepped(p, Iteration(None, [], [], []), p)
  {
    RecordNothing(p.exceptions);
    var context := p.loops[|p.loops| - 1];
    assert context.breakStates + [] == context.breakStates;
  }

  /** `done` and `rest` make up the analysis of all handlers. */
  predicate CatchesSplit(
    ends: seq<FlowState>, done: Outcome, rest: (seq<FlowState>, Outcome), all: (seq<FlowState>, Outcome))
  {
    && ends + rest.0 == all.0 && done.breaks + rest.1.breaks == all.1.breaks
    && done.continues + rest.1.continues == all.1.continues && done.throws + rest.1.throws == all.1.throws
    && done.reports + rest.1.reports == all.1.reports
  }

  lemma CatchesStart(catches: seq<OwnCatch>, x: Surroundings, start: FlowState, s: FlowState)
    ensures CatchesSplit(
              [], Nothing(s), AnalyzeCatches(catches, x, start), AnalyzeCatches(catches, x, start))
  {
  }

  lemma CatchesNext(
    ends: seq<FlowState>, done: Outcome, o: Outcome, rest: (seq<FlowState>, Outcome), all: (seq<FlowState>, Outcome),
    s: FlowState)
    requires CatchesSplit(
               ends, done, ((if o.reachable then [o.state] else []) + rest.0, After(o, rest.1)), all)
    ensures CatchesSplit(
              if o.reachable then ends + [o.state] else ends,
              After(done, o.(state := s)).(reachable := true), rest, all)
  {
    assert done.breaks + (o.breaks + rest.1.breaks) == done.breaks + o.breaks + rest.1.breaks;
    assert done.continues + (o.continues + rest.1.continues) == done.continues + o.continues + rest.1.continues;
    assert done.throws + (o.throws + rest.1.throws) == done.throws + o.throws + rest.1.throws;
    assert done.reports + (o.reports + rest.1.reports) == done.reports + o.reports + rest.1.reports;
    assert ends + ([o.state] + rest.0) == ends + [o.state] + rest.0;
    assert [] + rest.0 == rest.0;
  }
}
