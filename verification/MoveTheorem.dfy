/** The results on moves, for the ownership pass itself. */
module MoveTheorem {
  import opened Wrappers
  import opened Ast
  import opened Ownership
  import opened OwnershipScopes
  import opened MoveViews
  import opened MoveViewsAgree
  import opened MoveRuns
  import opened MoveShapes
  import opened MoveSoundness
  import opened OwnershipSteps
  import opened OwnershipPass
  import F = FlowStates

  lemma {:induction false} ParametersCovered(parameters: seq<Parameter>, c: Store, v: View)
    requires Covered(c, v)
    ensures Covered(BringParameters(parameters, c), MDeclareParameters(parameters, v))
    ensures |BringParameters(parameters, c)| == |c|
    decreases |parameters|
  {
    if |parameters| > 0 {
      BringCovered(c, v, parameters[0].name, parameters[0].ty);
      ParametersCovered(
        parameters[1..], Bring(c, parameters[0].name, parameters[0].ty),
        Introduce(v, parameters[0].name, parameters[0].ty));
    }
  }

  /**
   A function the pass accepts uses no moved variable in any run: whatever its conditions turn out to
   be, however often its loops repeat, whichever calls raise and whichever handlers catch.
   */
  lemma AcceptedFunctionsNeverFault(parameters: seq<Parameter>, body: OwnBlock, x: Surroundings, tape: Tape)
    requires AnalyzeFunction(parameters, body, x).reports == []
    requires TrackedBlock(body, false) && ResolvedBlock(body)
    ensures !RunFunction(parameters, body, x.returnsReference, tape).exit.Fault?
  {
    FunctionAgrees(parameters, body, x);
    var empty: View := [];
    EnterCovered([], empty);
    ParametersCovered(parameters, Enter([]), Enter(empty));
    BodySound(
      body, x.returnsReference, false, BringParameters(parameters, Enter([])),
      MDeclareParameters(parameters, Enter(empty)), tape);
  }

  /** The second analysed iteration of a loop, if accepted, ends with the availability of the first. */
  lemma SecondIterationRepeats(
    bindings: seq<RangeBinding>, body: OwnStatement, update: Option<Expression>, condition: Option<Expression>,
    x: Surroundings, s: FlowState)
    requires Valid(s) && |s.scopes| > 0
    requires var first := Iterate(bindings, body, update, condition, x, s);
             && first.reports == [] && first.next.Some?
             && Iterate(bindings, body, update, condition, x, first.next.value).reports == []
    ensures var next := Iterate(bindings, body, update, condition, x, s).next.value;
            var again := Iterate(bindings, body, update, condition, x, next).next;
            && again.Some? && again.value.scopes == next.scopes
            && ViewOf(again.value) == ViewOf(next)
  {
    IterationViewed(bindings, body, update, condition, x, s);
    var next := Iterate(bindings, body, update, condition, x, s).next.value;
    IterationViewed(bindings, body, update, condition, x, next);
    TwoPassesSuffice(bindings, body, update, condition, x.returnsReference, ViewOf(s));
  }

  /** An accepted iteration, and what the availability analysis makes of it. */
  lemma IterationViewed(
    bindings: seq<RangeBinding>, body: OwnStatement, update: Option<Expression>, condition: Option<Expression>,
    x: Surroundings, s: FlowState)
    requires Valid(s) && Iterate(bindings, body, update, condition, x, s).reports == []
    ensures var next := Iterate(bindings, body, update, condition, x, s).next;
            var view := MIterate(bindings, body, update, condition, x.returnsReference, ViewOf(s)).next;
            && (next.Some? <==> view.Some?)
            && (next.Some? ==> ViewOf(next.value) == view.value && Valid(next.value) && next.value.scopes == s.scopes)
  {
    IterateAgrees(bindings, body, update, condition, x, s);
    IterateFramed(bindings, body, update, condition, x, s);
    var next := Iterate(bindings, body, update, condition, x, s).next;
    if next.Some? {
      assert next.value.scopes[..|s.scopes|] == next.value.scopes && s.scopes[..|s.scopes|] == s.scopes;
    }
  }

  lemma {:induction false} EmitsSomething(diagnostics: seq<F.Report>, reports: seq<F.Report>)
    ensures |Emit(diagnostics, reports)| >= |diagnostics|
    ensures Emit([], reports) == [] <==> reports == []
    decreases |reports|
  {
    if |reports| > 0 {
      EmitsSomething(if reports[0] in diagnostics then diagnostics else diagnostics + [reports[0]], reports[1..]);
      EmitsSomething([reports[0]], reports[1..]);
      var none: seq<F.Report> := [];
      assert none + [reports[0]] == [reports[0]];
    }
  }

  /** The pass, run on a function from a fresh analyzer. */
  method Validate(receiver: Option<Parameter>, parameters: seq<Parameter>, body: OwnBlock, returnsReference: bool)
    returns (accepted: bool)
    ensures var x := Surroundings(0, returnsReference, ReturnBorrow(receiver, parameters, returnsReference));
            accepted <==> AnalyzeFunction(AllParameters(receiver, parameters), body, x).reports == []
    ensures accepted && TrackedBlock(body, false) && ResolvedBlock(body) ==>
              forall tape ::
                !RunFunction(AllParameters(receiver, parameters), body, returnsReference, tape).exit.Fault?
  {
    var analyzer := new Analyzer();
    analyzer.Function(receiver, parameters, body, returnsReference);
    accepted := |analyzer.diagnostics| == 0;
    var all := AllParameters(receiver, parameters);
    var x := Surroundings(0, returnsReference, ReturnBorrow(receiver, parameters, returnsReference));
    EmitsSomething([], AnalyzeFunction(all, body, x).reports);
    if accepted && TrackedBlock(body, false) && ResolvedBlock(body) {
      forall tape
        ensures !RunFunction(all, body, returnsReference, tape).exit.Fault?
      {
        AcceptedFunctionsNeverFault(all, body, x, tape);
      }
    }
  }
}
