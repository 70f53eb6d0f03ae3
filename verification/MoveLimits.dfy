/**
 Where the ownership pass misses a use of a moved variable. Each lemma takes a family of functions,
 all of which the pass accepts or judges as shown, and says which of them have a run that uses the
 variable `x` after it was moved out. The functions have one parameter, `values`.
 */
module MoveLimits {
  import opened Wrappers
  import opened Ast
  import opened Ownership
  import opened MoveViews
  import opened MoveRuns
  import opened MoveSoundness
  import opened MoveTheorem
  import F = FlowStates

  const HERE := Span(0, 0)
  const OWNER := Owned(false)
  const PLAIN := Surroundings(0, false, None)
  const X: Expression := At(Name("x"))

  function At(kind: ExpressionKind): Expression {
    Expression.Expression(kind, HERE)
  }

  function Evaluated(kind: ExpressionKind): OwnStatement {
    Statement(StatementKind.Expression(At(kind)), HERE)
  }

  const DECLARE_X: OwnStatement :=
    Statement(Local(LocalDeclaration("x", OWNER, None, false, ImplicitCall(0, false), HERE, None)), HERE)
  const MOVE_X: OwnStatement := Evaluated(Move(X))
  const REFILL_X: OwnStatement := Evaluated(Assign(X, At(Literal), false, false))
  const USE_X: OwnStatement := Evaluated(Strict(X, At(Literal)))

  /** What `values` is: a vector, or JSON, which is shared when it is copied. */
  datatype Given = Vector | Json

  function Values(given: Given): Parameter {
    Parameter("values", Owned(given.Json?), HERE, None)
  }

  ghost predicate Faults(given: Given, body: OwnBlock) {
    exists tape: Tape :: RunFunction([Values(given)], body, false, tape).exit.Fault?
  }

  ghost predicate Accepted(given: Given, body: OwnBlock) {
    AnalyzeFunction([Values(given)], body, PLAIN).reports == []
  }

  // ----- states and stores with `values` and `x` -----

  datatype Facts = Facts(given: Given, values: F.Availability, x: F.Availability)

  function Start(given: Given): Facts {
    Facts(given, F.Available, F.Available)
  }

  function Without(given: Given): Facts {
    Start(given).(x := F.Moved(HERE))
  }

  function ValuesBinding(k: Facts): F.Binding {
    F.Binding("values", Values(k.given).ty, k.values, 0, false, None, false, HERE, None, 0)
  }

  function XBinding(k: Facts): F.Binding {
    F.Binding("x", OWNER, k.x, 0, false, None, false, HERE, None, 0)
  }

  /** Both are declared in the outermost of `depth` scopes. */
  function Known(k: Facts, depth: nat): F.FlowState
    requires 0 < depth
  {
    if depth == 1 then F.FlowState([ValuesBinding(k), XBinding(k)], [map["values" := 0, "x" := 1]], [[0, 1]])
    else F.PushScope(Known(k, depth - 1))
  }

  lemma {:induction false} KnownFacts(k: Facts, depth: nat)
    requires 0 < depth
    ensures var s := Known(k, depth);
            && s.bindings == [ValuesBinding(k), XBinding(k)]
            && F.Lookup(s, "x") == Some(1) && F.Lookup(s, "values") == Some(0)
            && |s.scopes| == |s.scopeBindings| == depth
            && F.Flatten(s.scopeBindings) == [0, 1]
    decreases depth
  {
    if depth > 1 {
      KnownFacts(k, depth - 1);
      var t := Known(k, depth - 1);
      FlattenPush(t.scopeBindings);
      assert F.PushScope(t).scopes[..depth - 1] == t.scopes;
    } else {
      assert F.Flatten([[0 as nat, 1]]) == [0, 1];
    }
  }

  lemma {:induction false} FlattenPush(ids: seq<seq<nat>>)
    ensures F.Flatten(ids + [[]]) == F.Flatten(ids)
  {
    if |ids| > 0 {
      FlattenPush(ids[1..]);
      assert (ids + [[]])[1..] == ids[1..] + [[]];
    }
  }

  /** No loans, none that end. */
  lemma KnownStays(k: Facts, depth: nat)
    requires 0 < depth
    ensures F.ReleaseExpired(Known(k, depth), 0, 0) == Known(k, depth)
  {
    var s := Known(k, depth);
    KnownFacts(k, depth);
    assert [0 as nat, 1][1..] == [1] && [1 as nat][1..] == [];
    assert F.ReleaseExpiredIn(s, [1], 0, 0) == s;
  }

  lemma {:induction false} KnownSet(k: Facts, depth: nat, a: F.Availability)
    requires 0 < depth
    ensures F.SetAvailability(Known(k, depth), 1, a) == Known(k.(x := a), depth)
    ensures F.SetAvailability(Known(k, depth), 0, a) == Known(k.(values := a), depth)
    decreases depth
  {
    KnownFacts(k, depth);
    if depth > 1 {
      KnownSet(k, depth - 1, a);
      KnownFacts(k, depth - 1);
    } else {
      assert Known(k, 1).bindings[1 := XBinding(k.(x := a))] == Known(k.(x := a), 1).bindings;
      assert Known(k, 1).bindings[0 := ValuesBinding(k.(values := a))] == Known(k.(values := a), 1).bindings;
    }
  }

  lemma OneParameter(p: Parameter, s: F.FlowState)
    ensures DeclareParameters([p], s) == F.Declare(s, p.name, p.ty, None, p.span, p.lastUse, 0)
  {
    var none: seq<Parameter> := [];
    assert [p][1..] == none;
  }

  lemma DeclaresX(given: Given)
    ensures Analyze(DECLARE_X, PLAIN, DeclareParameters([Values(given)], F.PushScope(F.EMPTY_STATE)))
            == Nothing(Known(Start(given), 1))
  {
    var s := F.PushScope(F.EMPTY_STATE);
    assert s == F.FlowState([], [map[]], [[]]);
    var none: seq<nat> := [];
    var empty: map<string, nat> := map[];
    var b := ValuesBinding(Start(given));
    assert s.scopes[0 := empty["values" := 0]] == [map["values" := 0]];
    assert none + [0] == [0] && s.scopeBindings[0 := none + [0]] == [[0]];
    assert s.bindings + [b] == [b];
    var p := DeclareParameters([Values(given)], s);
    OneParameter(Values(given), s);
    assert p == F.FlowState([b], [map["values" := 0]], [[0]]);
    assert p.scopes[0 := p.scopes[0]["x" := 1]] == [map["values" := 0, "x" := 1]];
    assert [0 as nat] + [1] == [0, 1] && p.scopeBindings[0 := [0, 1]] == [[0, 1]];
    assert p.bindings + [XBinding(Start(given))] == [b, XBinding(Start(given))];
    assert F.Declare(p, "x", OWNER, None, HERE, None, 0) == Known(Start(given), 1);
  }

  function StoreOf(k: Facts, depth: nat): Store
    requires 0 < depth
  {
    if depth == 1 then
      [map["values" := Cell(k.values.Moved?, Values(k.given).ty), "x" := Cell(k.x.Moved?, OWNER)]]
    else Enter(StoreOf(k, depth - 1))
  }

  lemma {:induction false} StoreFacts(k: Facts, depth: nat)
    requires 0 < depth
    ensures var c := StoreOf(k, depth);
            && |c| == depth
            && LevelOf(c, "x") == Some(0) && LevelOf(c, "values") == Some(0)
            && c[0] == StoreOf(k, 1)[0]
            && (depth > 1 ==> Cut(c, depth - 1) == StoreOf(k, depth - 1))
    decreases depth
  {
    if depth > 1 {
      StoreFacts(k, depth - 1);
      assert StoreOf(k, depth)[..depth - 1] == StoreOf(k, depth - 1);
    }
  }

  lemma {:induction false} StoreSet(k: Facts, depth: nat, a: F.Availability)
    requires 0 < depth
    ensures StoreOf(k, depth)[0 := StoreOf(k.(x := a), 1)[0]] == StoreOf(k.(x := a), depth)
    decreases depth
  {
    StoreFacts(k, depth);
    if depth > 1 {
      StoreSet(k, depth - 1, a);
      StoreFacts(k, depth - 1);
    }
  }

  lemma MovesInStore(k: Facts, depth: nat, a: F.Availability)
    requires 0 < depth
    ensures SetMoved(StoreOf(k, depth), "x", a.Moved?) == StoreOf(k.(x := a), depth)
  {
    StoreFacts(k, depth);
    StoreSet(k, depth, a);
    var scope := StoreOf(k, 1)[0];
    assert scope["x" := scope["x"].(moved := a.Moved?)] == StoreOf(k.(x := a), 1)[0];
  }

  lemma OneArgument(p: Parameter, c: Store)
    ensures BringParameters([p], c) == Bring(c, p.name, p.ty)
  {
    var none: seq<Parameter> := [];
    assert [p][1..] == none;
  }

  lemma RunDeclares(given: Given, tape: Tape)
    ensures Exec(DECLARE_X, false, BringParameters([Values(given)], Enter([])), tape)
            == Run(StoreOf(Start(given), 1), Done, tape)
  {
    var c: Store := Enter([]);
    var empty: map<string, Cell> := map[];
    var cell := Cell(false, Values(given).ty);
    assert c == [map[]] && c[0 := empty["values" := cell]] == [map["values" := cell]];
    var p := BringParameters([Values(given)], c);
    OneArgument(Values(given), c);
    assert p == [map["values" := cell]];
    assert p[0 := p[0]["x" := Cell(false, OWNER)]] == StoreOf(Start(given), 1);
  }

  // ----- steps -----

  /** The list of statements, one step. */
  lemma ListStep(statement: OwnStatement, rest: seq<OwnStatement>, s: F.FlowState)
    ensures var first := AnalyzeFirst(statement, PLAIN, s);
            AnalyzeList([statement] + rest, PLAIN, s)
            == if first.reachable then After(first, AnalyzeList(rest, PLAIN, first.state)) else first
  {
    assert ([statement] + rest)[1..] == rest;
  }

  /** Runs of a list of statements, one step. */
  lemma RunStep(statement: OwnStatement, rest: seq<OwnStatement>, c: Store, tape: Tape)
    ensures var r := Exec(statement, false, c, tape);
            ExecList([statement] + rest, false, c, tape)
            == if r.exit.Done? then ExecList(rest, false, r.store, r.tape) else r
  {
    assert ([statement] + rest)[1..] == rest;
  }

  /** Reports of a function that starts by declaring `x`. */
  lemma AfterDeclaring(given: Given, rest: seq<OwnStatement>)
    ensures AnalyzeFunction([Values(given)], Block([DECLARE_X] + rest), PLAIN).reports
            == AnalyzeList(rest, PLAIN, Known(Start(given), 1)).reports
  {
    DeclaresX(given);
    KnownStays(Start(given), 1);
    ListStep(DECLARE_X, rest, DeclareParameters([Values(given)], F.PushScope(F.EMPTY_STATE)));
  }

  lemma MoveTakes(s: F.FlowState, id: nat)
    requires F.Lookup(s, "x") == Some(id) && id < |s.bindings|
    requires s.bindings[id] == XBinding(Start(Vector))
    ensures Analyze(MOVE_X, PLAIN, s) == Nothing(F.SetAvailability(s, id, F.Moved(HERE)))
  {
    assert NamedBinding(X, s) == Some(id);
  }

  lemma MovesX(given: Given, depth: nat)
    requires 0 < depth
    ensures Analyze(MOVE_X, PLAIN, Known(Start(given), depth)) == Nothing(Known(Without(given), depth))
  {
    KnownFacts(Start(given), depth);
    KnownSet(Start(given), depth, F.Moved(HERE));
    MoveTakes(Known(Start(given), depth), 1);
  }

  /** A statement of which nothing is noted, at the head of a list. */
  lemma QuietStep(statement: OwnStatement, rest: seq<OwnStatement>, s: F.FlowState, t: F.FlowState)
    requires Analyze(statement, PLAIN, s) == Nothing(t) && F.ReleaseExpired(t, 0, 0) == t && statement.span == HERE
    ensures AnalyzeList([statement] + rest, PLAIN, s) == AnalyzeList(rest, PLAIN, t)
  {
    ListStep(statement, rest, s);
  }

  lemma AfterMoving(given: Given, rest: seq<OwnStatement>, depth: nat)
    requires 0 < depth
    ensures AnalyzeList([MOVE_X] + rest, PLAIN, Known(Start(given), depth))
            == AnalyzeList(rest, PLAIN, Known(Without(given), depth))
  {
    MovesX(given, depth);
    KnownStays(Without(given), depth);
    QuietStep(MOVE_X, rest, Known(Start(given), depth), Known(Without(given), depth));
  }

  lemma RunMoves(given: Given, depth: nat, tape: Tape)
    requires 0 < depth
    ensures Exec(MOVE_X, false, StoreOf(Start(given), depth), tape) == Run(StoreOf(Without(given), depth), Done, tape)
  {
    StoreFacts(Start(given), depth);
    MovesInStore(Start(given), depth, F.Moved(HERE));
    assert NameOf(X) == Some("x");
  }

  // ----- moving out of a part of a variable -----

  /** Names, fields and elements of them: what `move` takes. */
  predicate IsPlace(e: Expression) {
    match e.kind
    case Name(_) => true
    case Parenthesized(inner) => IsPlace(inner)
    case Field(whole) => IsPlace(whole)
    case Index(collection, _) => IsPlace(collection)
    case _ => false
  }

  function RootName(e: Expression): string
    requires IsPlace(e)
  {
    match e.kind
    case Name(name) => name
    case Parenthesized(inner) => RootName(inner)
    case Field(whole) => RootName(whole)
    case Index(collection, _) => RootName(collection)
  }

  lemma {:induction false} PlaceReadsItsRoot(e: Expression, c: Store, tape: Tape)
    requires IsPlace(e) && Use(RootName(e), c, tape).exit.Fault?
    ensures Eval(e, c, tape).exit.Fault?
  {
    match e.kind
    case Name(_) =>
    case Parenthesized(inner) => PlaceReadsItsRoot(inner, c, tape);
    case Field(whole) => PlaceReadsItsRoot(whole, c, tape);
    case Index(collection, _) => PlaceReadsItsRoot(collection, c, tape);
  }

  lemma {:induction false} NameIsRoot(e: Expression)
    requires IsPlace(e)
    ensures NameOf(e).Some? ==> NameOf(e).value == RootName(e)
  {
    if e.kind.Parenthesized? {
      NameIsRoot(e.kind.inner);
    }
  }

  lemma {:induction false} Names(e: Expression, s: F.FlowState)
    ensures NamedBinding(e, s) == if NameOf(e).Some? then F.Lookup(s, NameOf(e).value) else None
  {
    if e.kind.Parenthesized? {
      Names(e.kind.inner, s);
    }
  }

  /** Declares `x`, moves it out, and moves `place` out. */
  function MovesTwice(place: Expression): OwnBlock {
    Block([DECLARE_X, MOVE_X, Evaluated(Move(place))])
  }

  lemma MovesPlace(given: Given, place: Expression)
    requires IsPlace(place) && RootName(place) == "x"
    ensures Analyze(Evaluated(Move(place)), PLAIN, Known(Without(given), 1)).reports
            == if NameOf(place).None? then [] else [F.Report("OWN001", HERE)]
  {
    KnownFacts(Without(given), 1);
    NameIsRoot(place);
    Names(place, Known(Without(given), 1));
  }

  lemma RunsIntoMoved(given: Given, place: Expression)
    requires IsPlace(place) && RootName(place) == "x"
    ensures Exec(Evaluated(Move(place)), false, StoreOf(Without(given), 1), []).exit.Fault?
  {
    StoreFacts(Without(given), 1);
    NameIsRoot(place);
    PlaceReadsItsRoot(place, StoreOf(Without(given), 1), []);
    assert EvalMove(At(Move(place)), StoreOf(Without(given), 1), []).exit.Fault?;
  }

  lemma PlaceFaults(given: Given, place: Expression)
    requires IsPlace(place) && RootName(place) == "x"
    ensures Faults(given, MovesTwice(place))
  {
    var last := Evaluated(Move(place));
    assert MovesTwice(place).statements == [DECLARE_X] + ([MOVE_X] + ([last] + []));
    RunStep(DECLARE_X, [MOVE_X] + ([last] + []), BringParameters([Values(given)], Enter([])), []);
    RunDeclares(given, []);
    RunStep(MOVE_X, [last] + [], StoreOf(Start(given), 1), []);
    RunMoves(given, 1, []);
    RunStep(last, [], StoreOf(Without(given), 1), []);
    RunsIntoMoved(given, place);
    assert RunFunction([Values(given)], MovesTwice(place), false, []).exit.Fault?;
  }

  /** `move` of a part of a moved variable is accepted; only the variable itself is looked at. */
  lemma PlaceMovesAreUnchecked(given: Given, place: Expression)
    requires IsPlace(place) && RootName(place) == "x"
    ensures Faults(given, MovesTwice(place))
    ensures Accepted(given, MovesTwice(place)) <==> NameOf(place).None?
  {
    var last := Evaluated(Move(place));
    assert MovesTwice(place).statements == [DECLARE_X] + ([MOVE_X] + ([last] + []));
    AfterDeclaring(given, [MOVE_X] + ([last] + []));
    AfterMoving(given, [last] + [], 1);
    ListStep(last, [], Known(Without(given), 1));
    MovesPlace(given, place);
    PlaceFaults(given, place);
  }

  // ----- raising where the pass does not look -----

  const CATCH_ALL: OwnCatch := CatchClause(None, Block([USE_X]))

  /** Declares `x` and runs `guarded` in a `try` whose handler uses it. */
  function Handled(guarded: seq<OwnStatement>): OwnBlock {
    Block([DECLARE_X, Statement(Try(Block(guarded), [CATCH_ALL]), HERE)])
  }

  /** In the `try`, moves `x` out, runs `risky` and gives `x` a new value. */
  function RefillsAfter(risky: OwnStatement): OwnBlock {
    Handled([MOVE_X, risky, REFILL_X])
  }

  /** `values` is as `after` says behind the statement, `x` is as before, and no exception is recorded. */
  ghost predicate Unnoticed(given: Given, risky: OwnStatement, after: F.Availability) {
    Analyze(risky, PLAIN, Known(Without(given), 2)) == Nothing(Known(Without(given).(values := after), 2))
  }

  lemma RefillsX(k: Facts, depth: nat)
    requires 0 < depth
    ensures Analyze(REFILL_X, PLAIN, Known(k, depth)) == Nothing(Known(k.(x := F.Available), depth))
  {
    KnownFacts(k, depth);
    KnownSet(k, depth, F.Available);
    RefillWrites(Known(k, depth), 1);
  }

  lemma RefillWrites(s: F.FlowState, id: nat)
    requires F.Lookup(s, "x") == Some(id) && id < |s.bindings|
    requires s.bindings[id].ty == OWNER && s.bindings[id].sharedBorrows == 0 && !s.bindings[id].mutablyBorrowed
    ensures Analyze(REFILL_X, PLAIN, s) == Nothing(F.SetAvailability(s, id, F.Available))
  {
    assert Write(X, s) == Checked(F.SetAvailability(s, id, F.Available), None, [], []);
  }

  lemma RiskyThenRefill(given: Given, risky: OwnStatement, after: F.Availability)
    requires Unnoticed(given, risky, after) && risky.span == HERE
    ensures AnalyzeList([risky] + ([REFILL_X] + []), PLAIN, Known(Without(given), 2))
            == Nothing(Known(Start(given).(values := after), 2))
  {
    var k := Without(given).(values := after);
    KnownStays(k, 2);
    QuietStep(risky, [REFILL_X] + [], Known(Without(given), 2), Known(k, 2));
    RefillsX(k, 2);
    KnownStays(k.(x := F.Available), 2);
    QuietStep(REFILL_X, [], Known(k, 2), Known(k.(x := F.Available), 2));
  }

  lemma GuardedAccepted(given: Given, risky: OwnStatement, after: F.Availability)
    requires Unnoticed(given, risky, after) && risky.span == HERE
    ensures var o := AnalyzeBlock(Block([MOVE_X, risky, REFILL_X]), PLAIN, Known(Start(given), 1));
            o.reports == [] && o.throws == []
  {
    assert [MOVE_X, risky, REFILL_X] == [MOVE_X] + ([risky] + ([REFILL_X] + []));
    AfterMoving(given, [risky] + ([REFILL_X] + []), 2);
    RiskyThenRefill(given, risky, after);
  }

  lemma UseReads(s: F.FlowState, id: nat)
    requires F.Lookup(s, "x") == Some(id) && id < |s.bindings|
    requires s.bindings[id] == XBinding(Start(Vector))
    ensures Analyze(USE_X, PLAIN, s) == Nothing(s)
  {
    assert Check(X, F.Read, s) == Checked(s, Some(id), [], []);
  }

  lemma UsesX(given: Given, depth: nat)
    requires 0 < depth
    ensures Analyze(USE_X, PLAIN, Known(Start(given), depth)) == Nothing(Known(Start(given), depth))
  {
    KnownFacts(Start(given), depth);
    UseReads(Known(Start(given), depth), 1);
  }

  lemma HandlerAccepted(given: Given)
    ensures AnalyzeCatches([CATCH_ALL], PLAIN, Known(Start(given), 1)).1.reports == []
  {
    assert [USE_X] == [USE_X] + [];
    ListStep(USE_X, [], Known(Start(given), 2));
    UsesX(given, 2);
    assert AnalyzeHandler(CATCH_ALL, PLAIN, Known(Start(given), 1)).reports == [];
  }

  /** A `try` whose block notes no point that may raise: the handler starts from where the block started. */
  lemma TryAccepted(given: Given, guarded: OwnBlock)
    requires var o := AnalyzeBlock(guarded, PLAIN, Known(Start(given), 1));
             o.reports == [] && o.throws == []
    ensures Analyze(Statement(Try(guarded, [CATCH_ALL]), HERE), PLAIN, Known(Start(given), 1)).reports == []
  {
    var s := Known(Start(given), 1);
    var g := AnalyzeBlock(guarded, PLAIN, s);
    assert CatchBaseline(s, g.throws) == s;
    HandlerAccepted(given);
    var (ends, h) := AnalyzeCatches([CATCH_ALL], PLAIN, s);
    assert TryEnd(s, g, ends, h).reports == [];
  }

  lemma UnnoticedIsAccepted(given: Given, risky: OwnStatement, after: F.Availability)
    requires Unnoticed(given, risky, after) && risky.span == HERE
    ensures Accepted(given, RefillsAfter(risky))
  {
    GuardedAccepted(given, risky, after);
    var statement := Statement(Try(Block([MOVE_X, risky, REFILL_X]), [CATCH_ALL]), HERE);
    assert RefillsAfter(risky).statements == [DECLARE_X] + ([statement] + []);
    AfterDeclaring(given, [statement] + []);
    ListStep(statement, [], Known(Start(given), 1));
    TryAccepted(given, Block([MOVE_X, risky, REFILL_X]));
  }

  lemma HandlerFaults(given: Given)
    ensures ExecCatches([CATCH_ALL], false, StoreOf(Without(given), 1), [true]).exit.Fault?
  {
    assert [USE_X] == [USE_X] + [];
    RunStep(USE_X, [], StoreOf(Without(given), 2), []);
    StoreFacts(Without(given), 2);
    assert [true][1..] == [];
    assert ExecHandler(CATCH_ALL, false, StoreOf(Without(given), 1), []).exit.Fault?;
  }

  lemma TryFaults(given: Given, guarded: seq<OwnStatement>, tape: Tape)
    requires ExecBlock(Block(guarded), false, StoreOf(Start(given), 1), tape)
          == Run(StoreOf(Without(given), 1), Raised, [true])
    ensures Exec(Statement(Try(Block(guarded), [CATCH_ALL]), HERE), false, StoreOf(Start(given), 1), tape).exit.Fault?
  {
    HandlerFaults(given);
  }

  /** The error is raised while `x` is moved out, and the handler uses `x`. */
  lemma RaisingFaults(given: Given, risky: OwnStatement, tape: Tape)
    requires Exec(risky, false, StoreOf(Without(given), 2), tape) == Run(StoreOf(Without(given), 2), Raised, [true])
    ensures Faults(given, RefillsAfter(risky))
  {
    var guarded := [MOVE_X, risky, REFILL_X];
    assert guarded == [MOVE_X] + ([risky] + ([REFILL_X] + []));
    RunStep(MOVE_X, [risky] + ([REFILL_X] + []), StoreOf(Start(given), 2), tape);
    RunMoves(given, 2, tape);
    RunStep(risky, [REFILL_X] + [], StoreOf(Without(given), 2), tape);
    StoreFacts(Without(given), 2);
    assert ExecBlock(Block(guarded), false, StoreOf(Start(given), 1), tape)
        == Run(StoreOf(Without(given), 1), Raised, [true]);
    EscapeFaults(given, guarded, tape);
  }

  lemma EscapeFaults(given: Given, guarded: seq<OwnStatement>, tape: Tape)
    requires ExecBlock(Block(guarded), false, StoreOf(Start(given), 1), tape)
          == Run(StoreOf(Without(given), 1), Raised, [true])
    ensures Faults(given, Handled(guarded))
  {
    var statement := Statement(Try(Block(guarded), [CATCH_ALL]), HERE);
    assert Handled(guarded).statements == [DECLARE_X] + ([statement] + []);
    RunStep(DECLARE_X, [statement] + [], BringParameters([Values(given)], Enter([])), tape);
    RunDeclares(given, tape);
    RunStep(statement, [], StoreOf(Start(given), 1), tape);
    TryFaults(given, guarded, tape);
    assert RunFunction([Values(given)], Handled(guarded), false, tape).exit.Fault?;
  }

  // ----- tracked functions of these families -----

  lemma TrackedX(guarded: bool)
    ensures Tracked(X, guarded) && Tracked(At(Literal), guarded) && NameOf(X) == Some("x")
  {
  }

  lemma TrackedRefill()
    ensures TrackedStatement(MOVE_X, true) && TrackedStatement(REFILL_X, true)
    ensures Resolved(MOVE_X) && Resolved(REFILL_X)
  {
    TrackedX(true);
    assert Tracked(At(Move(X)), true);
    assert Tracked(At(Assign(X, At(Literal), false, false)), true);
  }

  lemma TrackedRefills(risky: OwnStatement)
    requires TrackedStatement(risky, true) && Resolved(risky)
    ensures TrackedBlock(Block([MOVE_X, risky, REFILL_X]), true) && ResolvedBlock(Block([MOVE_X, risky, REFILL_X]))
  {
    TrackedRefill();
  }

  lemma TrackedHandler()
    ensures MoveSoundness.TrackedHandler(CATCH_ALL, false) && ResolvedHandler(CATCH_ALL)
  {
    TrackedX(false);
    assert Tracked(At(Strict(X, At(Literal))), false);
    assert TrackedStatement(USE_X, false) && Resolved(USE_X);
  }

  lemma TrackedTry(guarded: OwnBlock)
    requires TrackedBlock(guarded, true) && ResolvedBlock(guarded)
    ensures var s := Statement(Try(guarded, [CATCH_ALL]), HERE);
            TrackedStatement(s, false) && Resolved(s)
  {
    TrackedHandler();
  }

  lemma TrackedHandled(guarded: seq<OwnStatement>)
    requires TrackedBlock(Block(guarded), true) && ResolvedBlock(Block(guarded))
    ensures TrackedBlock(Handled(guarded), false) && ResolvedBlock(Handled(guarded))
  {
    TrackedTry(Block(guarded));
    assert TrackedStatement(DECLARE_X, false) && Resolved(DECLARE_X);
  }

  lemma NeverFaults(given: Given, body: OwnBlock)
    requires Accepted(given, body) && TrackedBlock(body, false) && ResolvedBlock(body)
    ensures !Faults(given, body)
  {
    forall tape: Tape
      ensures !RunFunction([Values(given)], body, false, tape).exit.Fault?
    {
      AcceptedFunctionsNeverFault([Values(given)], body, PLAIN, tape);
    }
  }

  /** Accepted code of these families that is tracked does not fault. */
  lemma TrackedIsSafe(given: Given, risky: OwnStatement)
    requires Accepted(given, RefillsAfter(risky)) && TrackedStatement(risky, true) && Resolved(risky)
    ensures !Faults(given, RefillsAfter(risky))
  {
    TrackedRefills(risky);
    TrackedHandled([MOVE_X, risky, REFILL_X]);
    NeverFaults(given, RefillsAfter(risky));
  }

  // ----- conversions in constructions -----

  /** A call without arguments, of a native function, say. */
  const CALL: Expression := At(Call(None, [], false, NoBorrow))

  /** Builds a value from `elements`; the constructor itself raises nothing. */
  function Builds(elements: seq<Element>): OwnStatement {
    Evaluated(Construct(elements, false))
  }

  ghost predicate Calls(elements: seq<Element>) {
    forall i :: 0 <= i < |elements| ==> elements[i].value == CALL
  }

  ghost predicate SomeAdapted(elements: seq<Element>) {
    exists i :: 0 <= i < |elements| && elements[i].adapted
  }

  lemma CallChecked(s: F.FlowState)
    ensures Check(CALL, F.Read, s) == Checked(s, None, [], [])
  {
  }

  lemma {:induction false} CallElements(elements: seq<Element>, s: F.FlowState)
    requires Calls(elements)
    ensures CheckElements(elements, false, s) == Checked(s, None, [], [])
    decreases |elements|
  {
    if |elements| > 0 {
      assert elements[0].value == CALL;
      CallChecked(s);
      assert CheckElement(elements[0], false, s) == Checked(s, None, [], []);
      CallElements(elements[1..], s);
    }
  }

  /** Choices that let the first conversion that may raise do so. */
  lemma {:induction false} FirstConversionRaises(elements: seq<Element>, c: Store)
    requires Calls(elements) && SomeAdapted(elements)
    ensures EvalElements(elements, c, [true, true]) == Run(c, Raised, [true])
    decreases |elements|
  {
    assert elements[0].value == CALL;
    assert Eval(CALL, c, [true, true]) == Run(c, Done, [true, true]);
    if elements[0].adapted {
      assert [true, true][1..] == [true];
      assert EvalElement(elements[0], c, [true, true]) == Run(c, Raised, [true]);
    } else {
      FirstConversionRaises(elements[1..], c);
    }
  }

  lemma BuildsAccepted(given: Given, elements: seq<Element>)
    requires Calls(elements)
    ensures Accepted(given, RefillsAfter(Builds(elements)))
  {
    CallElements(elements, Known(Without(given), 2));
    UnnoticedIsAccepted(given, Builds(elements), F.Available);
  }

  lemma BuildsFaults(given: Given, elements: seq<Element>)
    requires Calls(elements) && SomeAdapted(elements)
    ensures Faults(given, RefillsAfter(Builds(elements)))
  {
    FirstConversionRaises(elements, StoreOf(Without(given), 2));
    RaisingFaults(given, Builds(elements), [true, true]);
  }

  lemma BuildsTracked(elements: seq<Element>)
    requires Calls(elements) && !SomeAdapted(elements)
    ensures TrackedStatement(Builds(elements), true) && Resolved(Builds(elements))
  {
    assert Tracked(CALL, true);
    assert Tracked(At(Construct(elements, false)), true);
  }

  /**
   A conversion of a native result inside a construction may raise, but its state is not recorded: the
   handler is analysed as if it had not. The pass accepts every one of these functions, and exactly
   those with such a conversion use the moved variable in some run.
   */
  lemma ConversionsInConstructionsAreUnrecorded(given: Given, elements: seq<Element>)
    requires Calls(elements)
    ensures Accepted(given, RefillsAfter(Builds(elements)))
    ensures Faults(given, RefillsAfter(Builds(elements))) <==> SomeAdapted(elements)
  {
    BuildsAccepted(given, elements);
    if SomeAdapted(elements) {
      BuildsFaults(given, elements);
    } else {
      BuildsTracked(elements);
      TrackedIsSafe(given, Builds(elements));
    }
  }

  // ----- range loops over JSON -----

  const VALUES: Expression := At(Move(At(Name("values"))))
  const ELEMENT := RangeBinding("v", Owned(true), HERE, None)
  const NOTHING: OwnStatement := Statement(BlockStatement(Block([])), HERE)

  /** Goes over `values`, moved into the loop, with one variable and an empty block. */
  function GoesOver(given: Given): OwnStatement {
    Statement(For(Range([ELEMENT], VALUES, given.Json?), NOTHING), HERE)
  }

  ghost predicate Scoped(s: F.FlowState) {
    |s.scopes| == |s.scopeBindings|
  }

  lemma ScopeLeavesNothing(s: F.FlowState)
    requires Scoped(s)
    ensures F.PopScope(F.PushScope(s)) == s
  {
    assert F.PushScope(s).scopes[..|s.scopes|] == s.scopes;
    assert F.PushScope(s).scopeBindings[..|s.scopeBindings|] == s.scopeBindings;
  }

  /** The variable of an iteration that is over is in no scope any more. */
  function Forgotten(s: F.FlowState): F.FlowState {
    s.(bindings := s.bindings + [F.Binding("v", Owned(true), F.Available, 0, false, None, false, HERE, None, 1)])
  }

  lemma OneVariable(b: RangeBinding, x: Surroundings, s: F.FlowState)
    ensures DeclareRange([b], x, s) == F.Declare(s, b.name, b.ty, None, b.span, b.lastUse, x.loopDepth)
  {
    var none: seq<RangeBinding> := [];
    assert [b][1..] == none;
  }

  lemma ElementDeclared(s: F.FlowState)
    requires Scoped(s)
    ensures var t := DeclareRange([ELEMENT], InLoop(PLAIN), F.PushScope(s));
            Scoped(t) && F.PopScope(t) == Forgotten(s)
  {
    var t := DeclareRange([ELEMENT], InLoop(PLAIN), F.PushScope(s));
    OneVariable(ELEMENT, InLoop(PLAIN), F.PushScope(s));
    assert t.scopes[..|s.scopes|] == s.scopes && t.scopeBindings[..|s.scopes|] == s.scopeBindings;
    var ids := t.scopeBindings[|s.scopes|];
    assert ids == [|s.bindings|] && ids[..0] == [];
    assert F.EndLoans(t, ids) == t;
  }

  lemma NothingAnalyzed(x: Surroundings, s: F.FlowState)
    requires Scoped(s)
    ensures Analyze(NOTHING, x, s) == Nothing(s)
  {
    ScopeLeavesNothing(s);
  }

  lemma IdleTails(s: F.FlowState)
    ensures CheckTails(None, None, [s]) == ([s], [], [])
  {
    assert CheckTail(None, None, s) == Checked(s, None, [], []);
    var none: seq<F.FlowState> := [];
    assert [s][1..] == none && CheckTails(None, None, none) == ([], [], []);
    assert [s] + none == [s];
  }

  lemma IdleIteration(s: F.FlowState)
    requires Scoped(s)
    ensures Iterate([ELEMENT], NOTHING, None, None, InLoop(PLAIN), s) == Iteration(Some(Forgotten(s)), [], [], [])
  {
    var t := DeclareRange([ELEMENT], InLoop(PLAIN), F.PushScope(s));
    ElementDeclared(s);
    NothingAnalyzed(InLoop(PLAIN), t);
    var none: seq<F.FlowState> := [];
    assert F.TruncateAll(none, |s.scopes|) == none && [Forgotten(s)] + none == [Forgotten(s)];
    assert TailStates(Nothing(t), |s.scopes|) == [Forgotten(s)];
    IdleTails(Forgotten(s));
  }

  /** Joining states in which the bindings of the first are as in the first. */
  lemma {:induction false} MergesItself(s: F.FlowState, left: F.FlowState, right: F.FlowState, ids: seq<nat>)
    requires |s.bindings| <= |left.bindings| && left.bindings[..|s.bindings|] == s.bindings
    requires |s.bindings| <= |right.bindings| && right.bindings[..|s.bindings|] == s.bindings
    ensures F.MergeIds(s, left, right, ids) == s
    decreases |ids|
  {
    if |ids| > 0 {
      var id := ids[|ids| - 1];
      MergesItself(s, left, right, ids[..|ids| - 1]);
      if id < |s.bindings| {
        assert left.bindings[..|s.bindings|][id] == s.bindings[id] == right.bindings[..|s.bindings|][id];
        assert s.bindings[id := s.bindings[id]] == s.bindings;
      }
    }
  }

  lemma IdleExits(s: F.FlowState)
    ensures F.MergeMany(s, [s, Forgotten(s), Forgotten(Forgotten(s))]) == s
  {
    var a, b := Forgotten(s), Forgotten(Forgotten(s));
    var ids := F.Flatten(s.scopeBindings);
    assert [s, a, b][..2] == [s, a] && [s, a][..1] == [s];
    MergesItself(s, s, a, ids);
    MergesItself(s, s, b, ids);
    assert F.MergeMany(s, [s, a]) == s;
  }

  lemma LeavesAsBefore(s: F.FlowState, first: Iteration, second: Iteration)
    requires first == Iteration(Some(Forgotten(s)), [], [], [])
    requires second == Iteration(Some(Forgotten(Forgotten(s))), [], [], [])
    ensures BothIterations(first, second, F.MergeMany(s, LoopExits(s, first, second))) == Nothing(s)
  {
    IdleExits(s);
    assert LoopExits(s, first, second) == [s, Forgotten(s), Forgotten(Forgotten(s))];
  }

  lemma IdleLoop(s: F.FlowState)
    requires Scoped(s)
    ensures AnalyzeLoop([ELEMENT], NOTHING, None, None, InLoop(PLAIN), s) == Nothing(s)
  {
    IdleIteration(s);
    IdleIteration(Forgotten(s));
    var first := Iteration(Some(Forgotten(s)), [], [], []);
    var second := Iteration(Some(Forgotten(Forgotten(s))), [], [], []);
    LeavesAsBefore(s, first, second);
  }

  function LeftOf(given: Given): F.Availability {
    if given.Json? then F.Available else F.Moved(HERE)
  }

  lemma ValuesChecked(given: Given)
    ensures Check(VALUES, F.Read, Known(Without(given), 3))
            == Checked(Known(Without(given).(values := LeftOf(given)), 3), None, [], [])
  {
    var s := Known(Without(given), 3);
    KnownFacts(Without(given), 3);
    KnownSet(Without(given), 3, F.Moved(HERE));
    assert NamedBinding(At(Name("values")), s) == Some(0);
  }

  lemma RangeStartsQuietly(iterable: Expression, json: bool, s: F.FlowState, t: F.FlowState)
    requires iterable.kind.Move? && Check(iterable, F.Read, s) == Checked(t, None, [], [])
    ensures RangeStart([ELEMENT], iterable, json, s) == (Checked(t, None, [], []), None)
  {
    assert !AnyReference([ELEMENT]);
    var none: seq<F.Report> := [];
    assert none + none == none;
  }

  lemma RangeIsQuiet(iterable: Expression, json: bool, s: F.FlowState, t: F.FlowState)
    requires iterable.kind.Move? && Check(iterable, F.Read, s) == Checked(t, None, [], [])
    requires AnalyzeLoop([ELEMENT], NOTHING, None, None, InLoop(PLAIN), t) == Nothing(t)
    ensures AnalyzeFor(Range([ELEMENT], iterable, json), NOTHING, InLoop(PLAIN), s) == Nothing(t)
  {
    RangeStartsQuietly(iterable, json, s, t);
    assert AnalyzeRange(Range([ELEMENT], iterable, json), NOTHING, InLoop(PLAIN), s) == Nothing(t);
  }

  lemma RangeUnnoticed(given: Given)
    ensures AnalyzeFor(Range([ELEMENT], VALUES, given.Json?), NOTHING, InLoop(PLAIN), Known(Without(given), 3))
            == Nothing(Known(Without(given).(values := LeftOf(given)), 3))
  {
    var k := Without(given).(values := LeftOf(given));
    ValuesChecked(given);
    KnownFacts(k, 3);
    IdleLoop(Known(k, 3));
    RangeIsQuiet(VALUES, given.Json?, Known(Without(given), 3), Known(k, 3));
  }

  lemma ClosesQuietly(s: F.FlowState)
    requires Scoped(s) && F.ReleaseExpired(s, 0, 0) == s
    ensures CloseLoop(Nothing(F.PushScope(s)), 0, 0) == Nothing(s)
  {
    ScopeLeavesNothing(s);
  }

  lemma LoopIsQuiet(clause: ForClause<Expression>, body: OwnStatement, s: F.FlowState, t: F.FlowState)
    requires Scoped(t) && F.ReleaseExpired(t, 0, 0) == t && body.span == HERE
    requires AnalyzeFor(clause, body, InLoop(PLAIN), F.PushScope(s)) == Nothing(F.PushScope(t))
    ensures Analyze(Statement(For(clause, body), HERE), PLAIN, s) == Nothing(t)
  {
    ClosesQuietly(t);
  }

  lemma LoopUnnoticed(given: Given)
    ensures Unnoticed(given, GoesOver(given), LeftOf(given))
  {
    var k := Without(given).(values := LeftOf(given));
    RangeUnnoticed(given);
    KnownFacts(k, 2);
    KnownStays(k, 2);
    LoopIsQuiet(Range([ELEMENT], VALUES, given.Json?), NOTHING, Known(Without(given), 2), Known(k, 2));
  }

  lemma LoopRaises()
    ensures Exec(GoesOver(Json), false, StoreOf(Without(Json), 2), [true, true])
            == Run(StoreOf(Without(Json), 2), Raised, [true])
  {
    var c := StoreOf(Without(Json), 3);
    StoreFacts(Without(Json), 3);
    assert NameOf(At(Name("values"))) == Some("values");
    assert Eval(VALUES, c, [true, true]) == Run(c, Done, [true, true]);
    assert [true, true][1..] == [true];
  }

  lemma LoopTracked()
    ensures TrackedStatement(GoesOver(Vector), true) && Resolved(GoesOver(Vector))
  {
    assert NameOf(At(Name("values"))) == Some("values");
    assert Tracked(VALUES, true);
    assert TrackedStatement(NOTHING, true) && Resolved(NOTHING);
  }

  /**
   Likewise for the snapshot a range loop takes of a JSON array, which raises if there is none. Both
   functions are accepted; the one with the snapshot uses the moved variable in some run.
   */
  lemma JsonLoopsAreUnrecorded(given: Given)
    ensures Accepted(given, RefillsAfter(GoesOver(given)))
    ensures Faults(given, RefillsAfter(GoesOver(given))) <==> given.Json?
  {
    LoopUnnoticed(given);
    UnnoticedIsAccepted(given, GoesOver(given), LeftOf(given));
    if given.Json? {
      LoopRaises();
      RaisingFaults(Json, GoesOver(Json), [true, true]);
    } else {
      LoopTracked();
      TrackedIsSafe(Vector, GoesOver(Vector));
    }
  }
}
