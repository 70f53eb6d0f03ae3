/** A pass without reports computes exactly the availability analysis of `MoveViews`. */
module MoveViewsAgree {
  import opened Wrappers
  import opened Ast
  import opened Ownership
  import opened OwnershipFrames
  import opened OwnershipScopes
  import opened MoveViews
  import F = FlowStates

  type FlowState = F.FlowState

  function StatusOf(a: F.Availability): Status {
    match a
    case Available => Held
    case Moved(_) => Gone
    case MaybeMoved(_) => MaybeGone
  }

  function MarkOfId(s: FlowState, id: nat): Mark {
    if id < |s.bindings| then Mark(StatusOf(s.bindings[id].availability), s.bindings[id].ty)
    else Mark(Held, Owned(true))
  }

  function ScopeView(s: FlowState, scope: map<string, nat>): map<string, Mark> {
    map n | n in scope :: MarkOfId(s, scope[n])
  }

  function ViewOf(s: FlowState): (v: View)
    ensures |v| == |s.scopes|
    ensures forall i :: 0 <= i < |v| ==> v[i] == ScopeView(s, s.scopes[i])
  {
    seq(|s.scopes|, i requires 0 <= i < |s.scopes| => ScopeView(s, s.scopes[i]))
  }

  function Views(states: seq<FlowState>): (vs: seq<View>)
    ensures |vs| == |states| && forall i :: 0 <= i < |vs| ==> vs[i] == ViewOf(states[i])
  {
    seq(|states|, i requires 0 <= i < |states| => ViewOf(states[i]))
  }

  lemma ViewsAppend(a: seq<FlowState>, b: seq<FlowState>)
    ensures Views(a + b) == Views(a) + Views(b)
  {
  }

  // ----- operations -----

  lemma LoansInvisible(s: FlowState, t: FlowState)
    requires OnlyLoans(s, t)
    ensures ViewOf(t) == ViewOf(s)
  {
    forall i | 0 <= i < |s.scopes|
      ensures ScopeView(t, t.scopes[i]) == ScopeView(s, s.scopes[i])
    {
    }
  }

  lemma {:induction false} LookupAgreesIn(s: FlowState, depth: nat, name: string)
    requires depth <= |s.scopes|
    ensures var id := F.LookupIn(s.scopes[..depth], name);
            var level := LevelOf(ViewOf(s)[..depth], name);
            && (id.Some? <==> level.Some?)
            && (id.Some? ==> name in s.scopes[level.value] && s.scopes[level.value][name] == id.value)
    decreases depth
  {
    if depth > 0 {
      assert s.scopes[..depth][..depth - 1] == s.scopes[..depth - 1];
      assert ViewOf(s)[..depth][..depth - 1] == ViewOf(s)[..depth - 1];
      LookupAgreesIn(s, depth - 1, name);
    }
  }

  /** Looking a name up finds the binding whose mark the view has for that name. */
  lemma LookupAgrees(s: FlowState, name: string)
    requires Valid(s)
    ensures var id := F.Lookup(s, name);
            && (id.Some? <==> MarkOf(ViewOf(s), name).Some?)
            && (id.Some? ==> id.value < |s.bindings| && MarkOf(ViewOf(s), name).value == MarkOfId(s, id.value))
  {
    LookupAgreesIn(s, |s.scopes|, name);
    assert s.scopes[..|s.scopes|] == s.scopes && ViewOf(s)[..|s.scopes|] == ViewOf(s);
  }

  lemma ScopeViewAfterSet(s: FlowState, id: nat, a: F.Availability, scope: map<string, nat>)
    requires forall n :: n in scope ==> scope[n] != id
    ensures ScopeView(F.SetAvailability(s, id, a), scope) == ScopeView(s, scope)
  {
  }

  lemma ScopeViewAtSet(s: FlowState, id: nat, a: F.Availability, scope: map<string, nat>, name: string)
    requires id < |s.bindings| && name in scope && scope[name] == id
    requires forall n :: n in scope && n != name ==> scope[n] != id
    ensures ScopeView(F.SetAvailability(s, id, a), scope)
         == ScopeView(s, scope)[name := MarkOfId(s, id).(status := StatusOf(a))]
  {
  }

  lemma OthersDiffer(s: FlowState, level: nat, name: string, i: nat)
    requires Valid(s) && level < |s.scopes| && name in s.scopes[level] && i < |s.scopes|
    ensures forall n :: n in s.scopes[i] && (i != level || n != name) ==> s.scopes[i][n] != s.scopes[level][name]
  {
  }

  lemma ScopesAfterSet(s: FlowState, level: nat, name: string, a: F.Availability, v: View)
    requires Valid(s) && level < |s.scopes| && name in s.scopes[level] && v == ViewOf(s)
    ensures var id := s.scopes[level][name];
            ViewOf(F.SetAvailability(s, id, a))
            == v[level := v[level][name := MarkOfId(s, id).(status := StatusOf(a))]]
  {
    var id := s.scopes[level][name];
    assert id < |s.bindings|;
    OthersDiffer(s, level, name, level);
    ScopeViewAtSet(s, id, a, s.scopes[level], name);
    var t := F.SetAvailability(s, id, a);
    var changed := v[level := v[level][name := MarkOfId(s, id).(status := StatusOf(a))]];
    forall i | 0 <= i < |s.scopes|
      ensures ViewOf(t)[i] == changed[i]
    {
      if i != level {
        OthersDiffer(s, level, name, i);
        ScopeViewAfterSet(s, id, a, s.scopes[i]);
      }
    }
    assert |ViewOf(t)| == |changed|;
    assert ViewOf(t) == changed;
  }

  lemma SetAgrees(s: FlowState, name: string, a: F.Availability)
    requires Valid(s) && F.Lookup(s, name).Some?
    ensures ViewOf(F.SetAvailability(s, F.Lookup(s, name).value, a)) == SetStatus(ViewOf(s), name, StatusOf(a))
  {
    LookupAgreesIn(s, |s.scopes|, name);
    assert s.scopes[..|s.scopes|] == s.scopes && ViewOf(s)[..|s.scopes|] == ViewOf(s);
    ScopesAfterSet(s, LevelOf(ViewOf(s), name).value, name, a, ViewOf(s));
  }

  lemma PushAgrees(s: FlowState)
    ensures ViewOf(F.PushScope(s)) == Enter(ViewOf(s))
  {
    var t := F.PushScope(s);
    forall i | 0 <= i < |s.scopes|
      ensures ViewOf(t)[i] == ViewOf(s)[i]
    {
      assert t.scopes[i] == s.scopes[i];
      assert ScopeView(t, t.scopes[i]) == ScopeView(s, s.scopes[i]);
    }
    assert ScopeView(t, map[]) == map[];
  }

  lemma PopAgrees(s: FlowState)
    requires |s.scopes| == |s.scopeBindings|
    ensures ViewOf(F.PopScope(s)) == Leave(ViewOf(s))
  {
    if |s.scopes| > 0 {
      var top := s.scopeBindings[|s.scopeBindings| - 1];
      EndLoansOnlyLoans(s, top);
      var ended := F.EndLoans(s, top);
      LoansInvisible(s, ended);
      var t := F.PopScope(s);
      forall i | 0 <= i < |t.scopes|
        ensures ViewOf(t)[i] == ViewOf(s)[i]
      {
        assert t.scopes[i] == ended.scopes[i];
        assert ScopeView(t, t.scopes[i]) == ScopeView(ended, ended.scopes[i]) == ViewOf(ended)[i];
      }
    }
  }

  lemma {:induction false} TruncateAgrees(s: FlowState, depth: nat)
    requires |s.scopes| == |s.scopeBindings| && depth <= |s.scopes|
    ensures ViewOf(F.Truncate(s, depth)) == Cut(ViewOf(s), depth)
    decreases |s.scopes|
  {
    if |s.scopes| > depth {
      PopAgrees(s);
      EndLoansOnlyLoans(s, s.scopeBindings[|s.scopeBindings| - 1]);
      TruncateAgrees(F.PopScope(s), depth);
      assert Leave(ViewOf(s))[..depth] == ViewOf(s)[..depth];
    } else {
      assert ViewOf(s)[..depth] == ViewOf(s);
    }
  }

  lemma TruncateAllAgrees(s: FlowState, states: seq<FlowState>)
    requires AllWithin(s, states)
    ensures Views(F.TruncateAll(states, |s.scopes|)) == CutAll(Views(states), |s.scopes|)
  {
    forall i | 0 <= i < |states|
      ensures Views(F.TruncateAll(states, |s.scopes|))[i] == CutAll(Views(states), |s.scopes|)[i]
    {
      assert Within(s, states[i]);
      TruncateAgrees(states[i], |s.scopes|);
    }
  }

  lemma ScopeViewGrown(s: FlowState, t: FlowState, scope: map<string, nat>)
    requires |s.bindings| <= |t.bindings| && t.bindings[..|s.bindings|] == s.bindings
    requires forall n :: n in scope ==> scope[n] < |s.bindings|
    ensures ScopeView(t, scope) == ScopeView(s, scope)
  {
    forall n | n in scope
      ensures MarkOfId(t, scope[n]) == MarkOfId(s, scope[n])
    {
      assert t.bindings[scope[n]] == t.bindings[..|s.bindings|][scope[n]];
    }
  }

  /** The scope a name is declared in, after that. */
  lemma DeclaredScope(s: FlowState, t: FlowState, scope: map<string, nat>, name: string, ty: TypeRef)
    requires |t.bindings| == |s.bindings| + 1 && t.bindings[..|s.bindings|] == s.bindings
    requires MarkOfId(t, |s.bindings|) == Mark(Held, ty)
    requires forall n :: n in scope ==> scope[n] < |s.bindings|
    ensures ScopeView(t, scope[name := |s.bindings|]) == ScopeView(s, scope)[name := Mark(Held, ty)]
  {
    ScopeViewGrown(s, t, scope);
    assert ScopeView(t, scope[name := |s.bindings|]) == ScopeView(t, scope)[name := Mark(Held, ty)];
  }

  lemma DeclareAgrees(
    s: FlowState, name: string, ty: TypeRef, loan: Option<F.Loan>, at: Span, lastUse: Option<Span>, depth: nat)
    requires Valid(s) && |s.scopes| > 0
    ensures ViewOf(F.Declare(s, name, ty, loan, at, lastUse, depth)) == Introduce(ViewOf(s), name, ty)
  {
    var t := F.Declare(s, name, ty, loan, at, lastUse, depth);
    var top := |s.scopes| - 1;
    assert t.bindings[..|s.bindings|] == s.bindings;
    DeclaredScope(s, t, s.scopes[top], name, ty);
    forall i | 0 <= i < top
      ensures ScopeView(t, t.scopes[i]) == ScopeView(s, s.scopes[i])
    {
      ScopeViewGrown(s, t, s.scopes[i]);
    }
    var v, w := ViewOf(t), Introduce(ViewOf(s), name, ty);
    assert |v| == |w| && v[top] == w[top];
    assert forall i :: 0 <= i < top ==> v[i] == w[i];
  }

  // ----- joins -----

  lemma JoinAgrees(l: F.Availability, r: F.Availability)
    ensures StatusOf(F.MergeAvailability(l, r)) == Join(StatusOf(l), StatusOf(r))
  {
  }

  lemma {:induction false} MergeIdsAt(b: FlowState, l: FlowState, r: FlowState, ids: seq<nat>, id: nat)
    requires id < |b.bindings|
    ensures var merged := F.MergeIds(b, l, r, ids);
            && |merged.bindings| == |b.bindings|
            && merged.bindings[id].availability
               == if id in ids then F.MergeAvailability(F.AvailabilityOf(l, id), F.AvailabilityOf(r, id))
                  else b.bindings[id].availability
    decreases |ids|
  {
    MergeIdsOnly(b, l, r, ids);
    if |ids| > 0 {
      var rest := ids[..|ids| - 1];
      MergeIdsAt(b, l, r, rest, id);
      MergeIdsOnly(b, l, r, rest);
      assert ids == rest + [ids[|ids| - 1]];
    }
  }

  lemma {:induction false} FlattenHas(ids: seq<seq<nat>>, i: nat, id: nat)
    requires i < |ids| && id in ids[i]
    ensures id in F.Flatten(ids)
    decreases |ids|
  {
    if i > 0 {
      FlattenHas(ids[1..], i - 1, id);
    }
  }

  /** Two states with the same open scopes. */
  ghost predicate Aligned(a: FlowState, b: FlowState) {
    Valid(b) && b.scopes == a.scopes && b.scopeBindings == a.scopeBindings
  }

  ghost predicate AllAligned(a: FlowState, states: seq<FlowState>) {
    forall i :: 0 <= i < |states| ==> Aligned(a, states[i])
  }

  lemma SameIsAligned(s: FlowState, a: FlowState, b: FlowState)
    requires Same(s, a) && Same(s, b)
    ensures Aligned(a, b)
  {
    assert a.scopes[..|s.scopes|] == a.scopes && b.scopes[..|s.scopes|] == b.scopes;
    assert a.scopeBindings[..|s.scopes|] == a.scopeBindings && b.scopeBindings[..|s.scopes|] == b.scopeBindings;
  }

  lemma AllSameIsAligned(s: FlowState, a: FlowState, states: seq<FlowState>)
    requires Same(s, a) && AllSame(s, states)
    ensures AllAligned(a, states)
  {
    forall i | 0 <= i < |states|
      ensures Aligned(a, states[i])
    {
      SameIsAligned(s, a, states[i]);
    }
  }

  lemma MergedMark(b: FlowState, l: FlowState, r: FlowState, id: nat)
    requires id in F.Flatten(b.scopeBindings) && id < |b.bindings| && id < |l.bindings| && id < |r.bindings|
    ensures MarkOfId(F.Merge(b, l, r), id)
            == Mark(Join(MarkOfId(l, id).status, MarkOfId(r, id).status), MarkOfId(b, id).ty)
  {
    var ids := F.Flatten(b.scopeBindings);
    MergeIdsAt(b, l, r, ids, id);
    MergeIdsOnly(b, l, r, ids);
    JoinAgrees(F.AvailabilityOf(l, id), F.AvailabilityOf(r, id));
  }

  lemma ScopeIds(s: FlowState, i: nat, name: string)
    requires Valid(s) && i < |s.scopes| && name in s.scopes[i]
    ensures s.scopes[i][name] < |s.bindings| && s.scopes[i][name] in F.Flatten(s.scopeBindings)
  {
    FlattenHas(s.scopeBindings, i, s.scopes[i][name]);
  }

  lemma MergedScope(b: FlowState, l: FlowState, r: FlowState, i: nat)
    requires i < |b.scopes| && l.scopes == b.scopes && r.scopes == b.scopes
    requires forall n :: n in b.scopes[i] ==>
      && b.scopes[i][n] in F.Flatten(b.scopeBindings)
      && b.scopes[i][n] < |b.bindings| && b.scopes[i][n] < |l.bindings| && b.scopes[i][n] < |r.bindings|
    ensures ScopeView(F.Merge(b, l, r), b.scopes[i])
            == JoinScopes(ScopeView(b, b.scopes[i]), i, ViewOf(l), ViewOf(r))
  {
    forall n | n in b.scopes[i]
      ensures MarkOfId(F.Merge(b, l, r), b.scopes[i][n])
              == JoinScopes(ScopeView(b, b.scopes[i]), i, ViewOf(l), ViewOf(r))[n]
    {
      MergedMark(b, l, r, b.scopes[i][n]);
      assert ViewOf(l)[i] == ScopeView(l, b.scopes[i]) && ViewOf(r)[i] == ScopeView(r, b.scopes[i]);
    }
  }

  lemma MergeAgrees(b: FlowState, l: FlowState, r: FlowState)
    requires Valid(b) && Aligned(b, l) && Aligned(b, r)
    ensures ViewOf(F.Merge(b, l, r)) == JoinViews(ViewOf(b), ViewOf(l), ViewOf(r))
  {
    var merged := F.Merge(b, l, r);
    MergeIdsOnly(b, l, r, F.Flatten(b.scopeBindings));
    forall i | 0 <= i < |b.scopes|
      ensures ViewOf(merged)[i] == JoinViews(ViewOf(b), ViewOf(l), ViewOf(r))[i]
    {
      forall n | n in b.scopes[i]
        ensures b.scopes[i][n] in F.Flatten(b.scopeBindings) && b.scopes[i][n] < |b.bindings|
        ensures b.scopes[i][n] < |l.bindings| && b.scopes[i][n] < |r.bindings|
      {
        ScopeIds(b, i, n);
        ScopeIds(l, i, n);
        ScopeIds(r, i, n);
      }
      MergedScope(b, l, r, i);
    }
  }

  lemma {:induction false} MergeManyAgrees(b: FlowState, states: seq<FlowState>)
    requires Valid(b) && AllAligned(b, states)
    ensures ViewOf(F.MergeMany(b, states)) == JoinMany(ViewOf(b), Views(states))
    ensures Aligned(b, F.MergeMany(b, states))
    decreases |states|
  {
    if |states| > 1 {
      var rest := states[..|states| - 1];
      MergeManyAgrees(b, rest);
      MergeAgrees(b, F.MergeMany(b, rest), states[|states| - 1]);
      MergeIdsOnly(b, F.MergeMany(b, rest), states[|states| - 1], F.Flatten(b.scopeBindings));
      SameAfterOnly(b, F.MergeMany(b, states));
      assert Views(states)[..|states| - 1] == Views(rest);
    }
  }

  // ----- expressions -----

  ghost predicate Agrees(c: Checked, m: MoveChecked) {
    m.silent && ViewOf(c.state) == m.view && Views(c.throws) == m.throws
  }

  lemma {:induction false} NamedAgrees(e: Expression, s: FlowState)
    ensures NamedBinding(e, s) == if NameOf(e).Some? then F.Lookup(s, NameOf(e).value) else None
    decreases e
  {
    if e.kind.Parenthesized? {
      NamedAgrees(e.kind.inner, s);
    }
  }

  lemma CaptureAgrees(c: Checked, m: MoveChecked, raises: bool)
    requires Agrees(c, m)
    ensures Agrees(Capture(c, raises), MoveCapture(m, raises))
  {
    ViewsAppend(c.throws, [c.state]);
    assert Views([c.state]) == [ViewOf(c.state)];
  }

  lemma ThenAgrees(first: Checked, m1: MoveChecked, second: Checked, m2: MoveChecked)
    requires Agrees(first, m1) && Agrees(second, m2)
    ensures Agrees(Then(first, second), MoveThen(m1, m2))
  {
    ViewsAppend(first.throws, second.throws);
  }

  /** Using a binding silently means that its name is held. */
  lemma UsageAgrees(s: FlowState, name: string, usage: F.Usage, at: Span)
    requires Valid(s) && F.Lookup(s, name).Some? && F.CheckUsage(s, F.Lookup(s, name).value, usage, at) == []
    ensures Usable(ViewOf(s), name)
  {
    LookupAgrees(s, name);
  }

  /** Moving a binding out silently moves its name. */
  lemma MovedAgrees(s: FlowState, name: string, at: Span)
    requires Valid(s) && F.Lookup(s, name).Some?
    requires F.CheckUsage(s, F.Lookup(s, name).value, F.Mutate, at) == []
    ensures var id := F.Lookup(s, name).value;
            Agrees(Checked(F.MarkMoved(s, id, at), None, [], []), MoveName(ViewOf(s), name))
  {
    UsageAgrees(s, name, F.Mutate, at);
    LookupAgrees(s, name);
    SetAgrees(s, name, F.Moved(at));
  }

  lemma {:induction false} CheckAgrees(e: Expression, usage: F.Usage, s: FlowState)
    requires Valid(s) && Check(e, usage, s).reports == []
    ensures Agrees(Check(e, usage, s), MCheck(e, ViewOf(s)))
    decreases e, 1
  {
    match e.kind
    case Parenthesized(inner) => CheckAgrees(inner, usage, s);
    case Operand(operand) => CheckAgrees(operand, F.Read, s);
    case Increment(place) => CheckAgrees(place, F.Mutate, s);
    case Field(whole) => CheckAgrees(whole, usage, s);
    case Strict(_, _) => PairAgrees(e, usage, s);
    case Compound(_, _) => PairAgrees(e, usage, s);
    case Index(_, _) => PairAgrees(e, usage, s);
    case Logical(_, _) => LogicalAgrees(e, usage, s);
    case Assign(_, _, _, _) => AssignAgrees(e, usage, s);
    case Switch(_, _) => SwitchAgrees(e, usage, s);
    case Consume(_, _) => ConsumeAgrees(e, usage, s);
    case Call(_, _, _, _) => CallsAgree(e, usage, s);
    case Aggregate(_) => CallsAgree(e, usage, s);
    case Construct(_, _) => CallsAgree(e, usage, s);
    case _ => LeafAgrees(e, usage, s);
  }

  lemma LeafAgrees(e: Expression, usage: F.Usage, s: FlowState)
    requires Valid(s) && Check(e, usage, s).reports == []
    requires e.kind.Name? || e.kind.Literal? || e.kind.Move?
    ensures Agrees(Check(e, usage, s), MCheck(e, ViewOf(s)))
  {
    match e.kind
    case Literal =>
    case Name(name) =>
      LookupAgrees(s, name);
      if F.Lookup(s, name).Some? {
        UsageAgrees(s, name, usage, e.span);
      }
    case Move(argument) =>
      NamedAgrees(argument, s);
      if NameOf(argument).Some? {
        var name := NameOf(argument).value;
        LookupAgrees(s, name);
        var id := F.Lookup(s, name);
        if id.Some? {
          if F.IsCopyable(s.bindings[id.value].ty) {
            UsageAgrees(s, name, F.Read, argument.span);
          } else {
            MovedAgrees(s, name, e.span);
          }
        }
      }
  }

  lemma {:induction false} PairAgrees(e: Expression, usage: F.Usage, s: FlowState)
    requires Valid(s) && Check(e, usage, s).reports == []
    requires e.kind.Strict? || e.kind.Compound? || e.kind.Index?
    ensures Agrees(Check(e, usage, s), MCheck(e, ViewOf(s)))
    decreases e, 0
  {
    var (first, u1, second, u2) :=
      match e.kind
      case Strict(left, right) => (left, F.Read, right, F.Read)
      case Compound(target, right) => (right, F.Read, target, F.Mutate)
      case Index(collection, index) => (collection, usage, index, F.Read);
    CheckAgrees(first, u1, s);
    CheckedSame(first, u1, s);
    var a := Check(first, u1, s);
    CheckAgrees(second, u2, a.state);
    ThenAgrees(a, MCheck(first, ViewOf(s)), Check(second, u2, a.state), MCheck(second, ViewOf(a.state)));
  }

  lemma {:induction false} LogicalAgrees(e: Expression, usage: F.Usage, s: FlowState)
    requires Valid(s) && Check(e, usage, s).reports == [] && e.kind.Logical?
    ensures Agrees(Check(e, usage, s), MCheck(e, ViewOf(s)))
    decreases e, 0
  {
    var left, right := e.kind.left, e.kind.right;
    CheckAgrees(left, F.Read, s);
    CheckedSame(left, F.Read, s);
    var l := Check(left, F.Read, s);
    CheckAgrees(right, F.Read, l.state);
    CheckedSame(right, F.Read, l.state);
    var r := Check(right, F.Read, l.state);
    SameRefl(l.state);
    SameIsAligned(l.state, l.state, r.state);
    MergeAgrees(l.state, l.state, r.state);
    ThenAgrees(l, MCheck(left, ViewOf(s)), r, MCheck(right, ViewOf(l.state)));
  }

  lemma {:induction false} AssignAgrees(e: Expression, usage: F.Usage, s: FlowState)
    requires Valid(s) && Check(e, usage, s).reports == [] && e.kind.Assign?
    ensures Agrees(Check(e, usage, s), MCheck(e, ViewOf(s)))
    decreases e, 0
  {
    var right := e.kind.right;
    CheckAgrees(right, F.Read, s);
    CheckedSame(right, F.Read, s);
    var r, m := Check(right, F.Read, s), MCheck(right, ViewOf(s));
    CaptureAgrees(r, m, e.kind.adapted);
    CaptureAgrees(Capture(r, e.kind.adapted), MoveCapture(m, e.kind.adapted), e.kind.jsonPlace);
    WriteAgrees(e.kind.target, r.state);
    ThenAgrees(
      Capture(Capture(r, e.kind.adapted), e.kind.jsonPlace),
      MoveCapture(MoveCapture(m, e.kind.adapted), e.kind.jsonPlace),
      Write(e.kind.target, r.state),
      MWrite(e.kind.target, ViewOf(r.state)));
  }

  lemma {:induction false} WriteAgrees(target: Expression, s: FlowState)
    requires Valid(s) && Write(target, s).reports == []
    ensures Agrees(Write(target, s), MWrite(target, ViewOf(s)))
    decreases target, 2
  {
    match target.kind
    case Parenthesized(inner) => WriteAgrees(inner, s);
    case Name(name) =>
      LookupAgrees(s, name);
      if F.Lookup(s, name).None? {
        CheckAgrees(target, F.Mutate, s);
      } else if F.IsReference(s.bindings[F.Lookup(s, name).value].ty) {
        UsageAgrees(s, name, F.Mutate, target.span);
      } else {
        SetAgrees(s, name, F.Available);
      }
    case _ => CheckAgrees(target, F.Mutate, s);
  }

  lemma {:induction false} SwitchAgrees(e: Expression, usage: F.Usage, s: FlowState)
    requires Valid(s) && Check(e, usage, s).reports == [] && e.kind.Switch?
    ensures Agrees(Check(e, usage, s), MCheck(e, ViewOf(s)))
    decreases e, 0
  {
    var scrutinee, arms := e.kind.scrutinee, e.kind.arms;
    CheckAgrees(scrutinee, F.Read, s);
    CheckedSame(scrutinee, F.Read, s);
    var c := Check(scrutinee, F.Read, s);
    ArmsAgree(arms, usage, c.state);
    var (states, throws, _) := CheckArms(arms, usage, c.state);
    ArmsKeepLoans(arms, usage, c.state);
    forall i | 0 <= i < |states|
      ensures Same(c.state, states[i])
    {
      SameAfterOnly(c.state, states[i]);
    }
    SameRefl(c.state);
    AllSameIsAligned(c.state, c.state, states);
    MergeManyAgrees(c.state, states);
    ViewsAppend(c.throws, throws);
  }

  lemma {:induction false} ArmsAgree(arms: seq<Expression>, usage: F.Usage, s: FlowState)
    requires Valid(s) && CheckArms(arms, usage, s).2 == []
    ensures var (states, throws, _) := CheckArms(arms, usage, s);
            var (views, m) := MArms(arms, ViewOf(s));
            m.silent && Views(states) == views && Views(throws) == m.throws
    decreases arms, 0
  {
    if |arms| > 0 {
      CheckAgrees(arms[0], usage, s);
      ArmsAgree(arms[1..], usage, s);
      var first := Check(arms[0], usage, s);
      var (states, throws, _) := CheckArms(arms[1..], usage, s);
      ViewsAppend([first.state], states);
      assert Views([first.state]) == [ViewOf(first.state)];
      ViewsAppend(first.throws, throws);
    }
  }

  lemma {:induction false} ConsumeAgrees(e: Expression, usage: F.Usage, s: FlowState)
    requires Valid(s) && Check(e, usage, s).reports == [] && e.kind.Consume?
    ensures Agrees(Check(e, usage, s), MCheck(e, ViewOf(s)))
    decreases e, 0
  {
    var consumed := e.kind.consumed;
    NamedAgrees(consumed, s);
    if NameOf(consumed).Some? {
      LookupAgrees(s, NameOf(consumed).value);
    }
    var id := NamedBinding(consumed, s);
    var c, m;
    if id.Some? {
      var name := NameOf(consumed).value;
      MovedAgrees(s, name, e.span);
      c := Checked(F.MarkMoved(s, id.value, e.span), None, [], F.CheckUsage(s, id.value, F.Mutate, e.span));
      m := MoveName(ViewOf(s), name);
    } else {
      CheckAgrees(consumed, F.Read, s);
      c := Check(consumed, F.Read, s).(origin := None);
      m := MCheck(consumed, ViewOf(s));
    }
    CaptureAgrees(c, m, e.kind.throws);
  }

  lemma {:induction false} CallsAgree(e: Expression, usage: F.Usage, s: FlowState)
    requires Valid(s) && Check(e, usage, s).reports == []
    requires e.kind.Call? || e.kind.Aggregate? || e.kind.Construct?
    ensures Agrees(Check(e, usage, s), MCheck(e, ViewOf(s)))
    decreases e, 0, 1
  {
    match e.kind
    case Call(receiver, arguments, throws, _) =>
      CallAgrees(e, s);
      CaptureAgrees(
        CheckCall(e, s),
        MoveThen(MReceiver(receiver, ViewOf(s)), MArguments(arguments, MReceiver(receiver, ViewOf(s)).view)),
        throws);
    case Aggregate(initializers) => ElementsAgree(initializers, true, s);
    case Construct(elements, throws) =>
      ElementsAgree(elements, false, s);
      CaptureAgrees(CheckElements(elements, false, s), MElements(elements, false, ViewOf(s)), throws);
  }

  lemma {:induction false} ElementsAgree(elements: seq<Element>, recorded: bool, s: FlowState)
    requires Valid(s) && CheckElements(elements, recorded, s).reports == []
    ensures Agrees(CheckElements(elements, recorded, s), MElements(elements, recorded, ViewOf(s)))
    decreases elements, 0
  {
    if |elements| > 0 {
      ElementAgrees(elements[0], recorded, s);
      var first := CheckElement(elements[0], recorded, s);
      ElementKeepsLoans(elements[0], recorded, s);
      SameAfterOnly(s, first.state);
      ElementsAgree(elements[1..], recorded, first.state);
      ThenAgrees(
        first, MElement(elements[0], recorded, ViewOf(s)),
        CheckElements(elements[1..], recorded, first.state), MElements(elements[1..], recorded, ViewOf(first.state)));
    }
  }

  lemma {:induction false} ElementAgrees(element: Element, recorded: bool, s: FlowState)
    requires Valid(s) && CheckElement(element, recorded, s).reports == []
    ensures Agrees(CheckElement(element, recorded, s), MElement(element, recorded, ViewOf(s)))
    decreases element, 0
  {
    CheckAgrees(element.value, F.Read, s);
    CaptureAgrees(Check(element.value, F.Read, s), MCheck(element.value, ViewOf(s)), recorded && element.adapted);
  }

  ghost predicate AllAgrees(c: CheckedAll, m: MoveChecked) {
    m.silent && ViewOf(c.state) == m.view && Views(c.throws) == m.throws
  }

  lemma {:induction false} PassedAgrees(value: Expression, passing: Passing, s: FlowState)
    requires Valid(s) && CheckPassed(value, passing, s).reports == []
    ensures AllAgrees(CheckPassed(value, passing, s), MCheck(value, ViewOf(s)))
    ensures Valid(CheckPassed(value, passing, s).state)
    decreases value, 2
  {
    var usage := PassingUsage(passing);
    CheckAgrees(value, usage, s);
    CheckedSame(value, usage, s);
    var c := Check(value, usage, s);
    if !passing.ByValue? {
      var t := F.AcquireTemporary(c.state, c.origin, passing.ByMutable?, value.span).0;
      assert OnlyLoans(c.state, t);
      LoansInvisible(c.state, t);
      SameAfterOnly(c.state, t);
    }
  }

  lemma {:induction false} ArgumentsAgree(arguments: seq<Argument>, s: FlowState)
    requires Valid(s) && CheckArguments(arguments, s).reports == []
    ensures AllAgrees(CheckArguments(arguments, s), MArguments(arguments, ViewOf(s)))
    decreases arguments, 0
  {
    if |arguments| > 0 {
      ArgumentAgrees(arguments[0], s);
      var first := CheckArgument(arguments[0], s);
      ArgumentsAgree(arguments[1..], first.state);
      ViewsAppend(first.throws, CheckArguments(arguments[1..], first.state).throws);
    }
  }

  lemma {:induction false} ArgumentAgrees(argument: Argument, s: FlowState)
    requires Valid(s) && CheckArgument(argument, s).reports == []
    ensures AllAgrees(CheckArgument(argument, s), MArgument(argument, ViewOf(s)))
    ensures Valid(CheckArgument(argument, s).state)
    decreases argument, 0
  {
    PassedAgrees(argument.value, argument.passing, s);
  }

  lemma {:induction false} ReceiverAgrees(receiver: Option<Receiver>, s: FlowState)
    requires Valid(s) && CheckReceiver(receiver, s).reports == []
    ensures AllAgrees(CheckReceiver(receiver, s), MReceiver(receiver, ViewOf(s)))
    ensures Valid(CheckReceiver(receiver, s).state)
    decreases receiver, 0
  {
    if receiver.Some? {
      PassedAgrees(receiver.value.value, receiver.value.passing, s);
    }
  }

  lemma {:induction false} ReleaseAllOnlyLoans(s: FlowState, loans: seq<F.Loan>)
    ensures OnlyLoans(s, F.ReleaseAll(s, loans))
    decreases |loans|
  {
    if |loans| > 0 {
      ReleaseAllOnlyLoans(F.Release(s, loans[|loans| - 1]), loans[..|loans| - 1]);
    }
  }

  lemma {:induction false} CallAgrees(e: Expression, s: FlowState)
    requires Valid(s) && e.kind.Call? && CheckCall(e, s).reports == []
    ensures var r := MReceiver(e.kind.receiver, ViewOf(s));
            Agrees(CheckCall(e, s), MoveThen(r, MArguments(e.kind.arguments, r.view)))
    decreases e, 0, 0
  {
    ReceiverAgrees(e.kind.receiver, s);
    var r := CheckReceiver(e.kind.receiver, s);
    ArgumentsAgree(e.kind.arguments, r.state);
    var a := CheckArguments(e.kind.arguments, r.state);
    ReleaseAllOnlyLoans(a.state, a.loans);
    ReleaseAllOnlyLoans(F.ReleaseAll(a.state, a.loans), r.loans);
    LoansInvisible(a.state, F.ReleaseAll(F.ReleaseAll(a.state, a.loans), r.loans));
    ViewsAppend(r.throws, a.throws);
  }

  // ----- statements -----

  ghost predicate OutcomeAgrees(o: Outcome, m: MoveOutcome) {
    && m.silent && ViewOf(o.state) == m.view && o.reachable == m.reachable
    && Views(o.breaks) == m.breaks && Views(o.continues) == m.continues && Views(o.throws) == m.throws
  }

  lemma AfterAgrees(o1: Outcome, m1: MoveOutcome, o2: Outcome, m2: MoveOutcome)
    requires OutcomeAgrees(o1, m1) && OutcomeAgrees(o2, m2)
    ensures OutcomeAgrees(After(o1, o2), MAfter(m1, m2))
  {
    ViewsAppend(o1.breaks, o2.breaks);
    ViewsAppend(o1.continues, o2.continues);
    ViewsAppend(o1.throws, o2.throws);
  }

  lemma StraightAgrees(c: Checked, m: MoveChecked)
    requires Agrees(c, m)
    ensures OutcomeAgrees(Straight(c), MStraight(m))
  {
  }

  lemma OptionalAgrees(e: Option<Expression>, s: FlowState)
    requires Valid(s) && CheckOptional(e, s).reports == []
    ensures Agrees(CheckOptional(e, s), MOptional(e, ViewOf(s))) && Same(s, CheckOptional(e, s).state)
  {
    if e.Some? {
      CheckAgrees(e.value, F.Read, s);
      CheckedSame(e.value, F.Read, s);
    } else {
      SameRefl(s);
    }
  }

  lemma {:induction false} ListAgrees(ss: seq<OwnStatement>, x: Surroundings, s: FlowState)
    requires Valid(s) && |s.scopes| > 0 && AnalyzeList(ss, x, s).reports == []
    ensures OutcomeAgrees(AnalyzeList(ss, x, s), MList(ss, x.returnsReference, ViewOf(s)))
    decreases ss, 0
  {
    if |ss| > 0 {
      FirstAgrees(ss[0], x, s);
      FirstFramed(ss[0], x, s);
      var first := AnalyzeFirst(ss[0], x, s);
      if first.reachable {
        ListAgrees(ss[1..], x, first.state);
        AfterAgrees(
          first, MAnalyze(ss[0], x.returnsReference, ViewOf(s)),
          AnalyzeList(ss[1..], x, first.state), MList(ss[1..], x.returnsReference, ViewOf(first.state)));
      }
    }
  }

  lemma ExpireAgrees(o: Outcome, m: MoveOutcome, position: nat, loopDepth: nat)
    requires OutcomeAgrees(o, m)
    ensures OutcomeAgrees(o.(state := F.ReleaseExpired(o.state, position, loopDepth)), m)
  {
    ReleaseExpiredInOnlyLoans(o.state, F.Flatten(o.state.scopeBindings), position, loopDepth);
    LoansInvisible(o.state, F.ReleaseExpired(o.state, position, loopDepth));
  }

  lemma {:induction false} FirstAgrees(statement: OwnStatement, x: Surroundings, s: FlowState)
    requires Valid(s) && |s.scopes| > 0 && AnalyzeFirst(statement, x, s).reports == []
    ensures OutcomeAgrees(AnalyzeFirst(statement, x, s), MAnalyze(statement, x.returnsReference, ViewOf(s)))
    decreases statement, 3
  {
    StatementAgrees(statement, x, s);
    ExpireAgrees(
      Analyze(statement, x, s), MAnalyze(statement, x.returnsReference, ViewOf(s)), statement.span.end, x.loopDepth);
  }

  lemma {:induction false} BlockAgrees(b: OwnBlock, x: Surroundings, s: FlowState)
    requires Valid(s) && AnalyzeBlock(b, x, s).reports == []
    ensures OutcomeAgrees(AnalyzeBlock(b, x, s), MBlock(b, x.returnsReference, ViewOf(s)))
    decreases b, 0
  {
    PushAgrees(s);
    PushScopeWithin(s);
    ListAgrees(b.statements, x, F.PushScope(s));
    ListFramed(b.statements, x, F.PushScope(s));
    PopAgrees(AnalyzeList(b.statements, x, F.PushScope(s)).state);
  }

  lemma {:induction false} BranchAgrees(statement: OwnStatement, x: Surroundings, s: FlowState)
    requires Valid(s) && AnalyzeBranch(statement, x, s).reports == []
    ensures OutcomeAgrees(AnalyzeBranch(statement, x, s), MBranch(statement, x.returnsReference, ViewOf(s)))
    decreases statement, 4
  {
    PushAgrees(s);
    PushScopeWithin(s);
    FirstAgrees(statement, x, F.PushScope(s));
    FirstFramed(statement, x, F.PushScope(s));
    PopAgrees(AnalyzeFirst(statement, x, F.PushScope(s)).state);
  }

  lemma LocalAgrees(local: LocalDeclaration<Expression>, x: Surroundings, s: FlowState)
    requires Valid(s) && |s.scopes| > 0 && AnalyzeLocal(local, x, s).reports == []
    ensures OutcomeAgrees(AnalyzeLocal(local, x, s), MLocal(local, ViewOf(s)))
  {
    if BorrowsInitializer(local.ty) && local.initializer.Some? {
      var mutable := local.ty.Reference? && local.ty.mutable;
      var e := local.initializer.value;
      var c := Check(e, F.LoanUsage(mutable), s);
      CheckAgrees(e, F.LoanUsage(mutable), s);
      CheckedSame(e, F.LoanUsage(mutable), s);
      var (t, loan, _) := F.AcquirePersistent(c.state, c.origin, mutable, e.span);
      AcquirePersistentOnlyLoans(c.state, c.origin, mutable, e.span);
      LoansInvisible(c.state, t);
      SameAfterOnly(c.state, t);
      DeclareAgrees(t, local.name, local.ty, loan, local.span, local.lastUse, x.loopDepth);
    } else {
      var c, m := Checked(s, None, [], []), MoveChecked(ViewOf(s), [], true);
      SameRefl(s);
      if BorrowsInitializer(local.ty) {
      } else if local.initializer.Some? {
        CheckAgrees(local.initializer.value, F.Read, s);
        CheckedSame(local.initializer.value, F.Read, s);
        CaptureAgrees(
          Check(local.initializer.value, F.Read, s), MCheck(local.initializer.value, ViewOf(s)), local.adapted);
        c := Capture(Check(local.initializer.value, F.Read, s), local.adapted);
        m := MoveCapture(MCheck(local.initializer.value, ViewOf(s)), local.adapted);
      } else {
        CaptureAgrees(c, m, local.implicitCall.throws);
        c, m := Capture(c, local.implicitCall.throws), MoveCapture(m, local.implicitCall.throws);
      }
      DeclareAgrees(c.state, local.name, local.ty, None, local.span, local.lastUse, x.loopDepth);
    }
  }

  lemma ReturnAgrees(value: Option<Expression>, x: Surroundings, s: FlowState)
    requires Valid(s) && AnalyzeReturn(value, x, s).reports == []
    ensures OutcomeAgrees(AnalyzeReturn(value, x, s), MReturn(value, x.returnsReference, ViewOf(s)))
  {
    if value.Some? {
      NamedAgrees(value.value, s);
      if NameOf(value.value).Some? {
        LookupAgrees(s, NameOf(value.value).value);
      }
      if ReturnMoves(value.value, x, s) {
        MovedAgrees(s, NameOf(value.value).value, value.value.span);
      } else {
        CheckAgrees(value.value, F.Read, s);
      }
    }
  }

  lemma ThrowAgrees(error: Option<Expression>, s: FlowState)
    requires Valid(s) && AnalyzeThrow(error, s).reports == []
    ensures OutcomeAgrees(AnalyzeThrow(error, s), MThrow(error, ViewOf(s)))
  {
    OptionalAgrees(error, s);
    CaptureAgrees(CheckOptional(error, s), MOptional(error, ViewOf(s)), true);
  }

  lemma ExpressionAgrees(e: Expression, s: FlowState)
    requires Valid(s) && Check(e, F.Read, s).reports == []
    ensures OutcomeAgrees(Straight(Check(e, F.Read, s)), MStraight(MCheck(e, ViewOf(s))))
  {
    CheckAgrees(e, F.Read, s);
    StraightAgrees(Check(e, F.Read, s), MCheck(e, ViewOf(s)));
  }

  lemma JumpAgrees(s: FlowState)
    ensures OutcomeAgrees(Nothing(s), MNothing(ViewOf(s))) && Views([s]) == [ViewOf(s)]
  {
  }

  lemma PlainAgrees(statement: OwnStatement, x: Surroundings, s: FlowState)
    requires Valid(s) && |s.scopes| > 0 && Analyze(statement, x, s).reports == []
    requires statement.kind.Local? || statement.kind.Return? || statement.kind.Throw? || statement.kind.Break?
          || statement.kind.Continue? || statement.kind.Expression? || statement.kind.Empty?
    ensures OutcomeAgrees(Analyze(statement, x, s), MAnalyze(statement, x.returnsReference, ViewOf(s)))
  {
    if statement.kind.Local? {
      LocalAgrees(statement.kind.local, x, s);
    } else if statement.kind.Return? {
      ReturnAgrees(statement.kind.value, x, s);
    } else if statement.kind.Throw? {
      ThrowAgrees(statement.kind.error, s);
    } else if statement.kind.Expression? {
      ExpressionAgrees(statement.kind.expression, s);
    } else {
      JumpAgrees(s);
    }
  }

  lemma {:induction false} StatementAgrees(statement: OwnStatement, x: Surroundings, s: FlowState)
    requires Valid(s) && |s.scopes| > 0 && Analyze(statement, x, s).reports == []
    ensures OutcomeAgrees(Analyze(statement, x, s), MAnalyze(statement, x.returnsReference, ViewOf(s)))
    decreases statement, 2
  {
    match statement.kind
    case BlockStatement(b) => BlockAgrees(b, x, s);
    case Try(_, _) => TryAgrees(statement, x, s);
    case If(_, _, _) => IfAgrees(statement, x, s);
    case While(_, _) => WhileAgrees(statement, x, s);
    case For(_, _) => ForAgrees(statement, x, s);
    case _ => PlainAgrees(statement, x, s);
  }

  lemma {:induction false} IfAgrees(statement: OwnStatement, x: Surroundings, s: FlowState)
    requires statement.kind.If? && Valid(s) && AnalyzeIf(statement, x, s).reports == []
    ensures OutcomeAgrees(AnalyzeIf(statement, x, s), MIf(statement, x.returnsReference, ViewOf(s)))
    decreases statement, 1
  {
    var c := Check(statement.kind.condition, F.Read, s);
    ExpressionAgrees(statement.kind.condition, s);
    CheckedSame(statement.kind.condition, F.Read, s);
    BranchesAgree(statement, x, c.state);
    AfterAgrees(
      Straight(c), MStraight(MCheck(statement.kind.condition, ViewOf(s))),
      AnalyzeBranches(statement, x, c.state), MBranches(statement, x.returnsReference, ViewOf(c.state)));
  }

  lemma {:induction false} BranchesAgree(statement: OwnStatement, x: Surroundings, s: FlowState)
    requires statement.kind.If? && Valid(s) && AnalyzeBranches(statement, x, s).reports == []
    ensures OutcomeAgrees(AnalyzeBranches(statement, x, s), MBranches(statement, x.returnsReference, ViewOf(s)))
    decreases statement, 0
  {
    var yes, no := statement.kind.thenBranch, statement.kind.elseBranch;
    BranchAgrees(yes, x, s);
    BranchFramed(yes, x, s);
    var e, m := Nothing(s), MNothing(ViewOf(s));
    SameRefl(s);
    JumpAgrees(s);
    if no.Some? {
      BranchAgrees(no.value, x, s);
      BranchFramed(no.value, x, s);
      e, m := AnalyzeBranch(no.value, x, s), MBranch(no.value, x.returnsReference, ViewOf(s));
    }
    JoinedAgrees(s, AnalyzeBranch(yes, x, s), MBranch(yes, x.returnsReference, ViewOf(s)), e, m);
  }

  lemma JoinedAgrees(s: FlowState, t: Outcome, m: MoveOutcome, e: Outcome, n: MoveOutcome)
    requires OutcomeAgrees(t, m) && OutcomeAgrees(e, n) && Same(s, t.state) && Same(s, e.state) && Valid(s)
    ensures OutcomeAgrees(JoinBranches(s, t, e), MJoinBranches(ViewOf(s), m, n))
  {
    SameRefl(s);
    SameIsAligned(s, s, t.state);
    SameIsAligned(s, s, e.state);
    MergeAgrees(s, t.state, e.state);
    AfterAgrees(t, m, e, n);
  }

  /** A `try` ends where its block or one of its handlers ends. */
  lemma TryEndsAgree(s: FlowState, g: Outcome, m: MoveOutcome, ends: seq<FlowState>, views: seq<View>)
    requires Valid(s) && OutcomeAgrees(g, m) && Views(ends) == views
    requires Same(s, g.state) && AllSame(s, ends)
    ensures var states := (if g.reachable then [g.state] else []) + ends;
            var seen := (if m.reachable then [m.view] else []) + views;
            ViewOf(if |states| == 0 then s else F.MergeMany(s, states))
            == (if |seen| == 0 then ViewOf(s) else JoinMany(ViewOf(s), seen))
  {
    SameRefl(s);
    var states := (if g.reachable then [g.state] else []) + ends;
    ViewsAppend(if g.reachable then [g.state] else [], ends);
    assert Views([g.state]) == [ViewOf(g.state)];
    AllSameIsAligned(s, s, states);
    MergeManyAgrees(s, states);
  }

  ghost predicate ListsAgree(o: Outcome, m: MoveOutcome) {
    && m.silent && Views(o.breaks) == m.breaks && Views(o.continues) == m.continues && Views(o.throws) == m.throws
  }

  lemma ListsAfterAgree(g: Outcome, m: MoveOutcome, h: Outcome, n: MoveOutcome)
    requires ListsAgree(g, m) && ListsAgree(h, n)
    ensures ListsAgree(After(g, h), MAfter(m, n))
  {
    ViewsAppend(g.breaks, h.breaks);
    ViewsAppend(g.continues, h.continues);
    ViewsAppend(g.throws, h.throws);
  }

  lemma {:induction false} TryAgrees(statement: OwnStatement, x: Surroundings, s: FlowState)
    requires statement.kind.Try? && Valid(s) && AnalyzeTry(statement, x, s).reports == []
    ensures OutcomeAgrees(AnalyzeTry(statement, x, s), MTry(statement, x.returnsReference, ViewOf(s)))
    decreases statement, 1
  {
    var guarded, catches, refs := statement.kind.guarded, statement.kind.catches, x.returnsReference;
    var g := AnalyzeBlock(guarded, x, s);
    var (ends, h) := AnalyzeCatches(catches, x, CatchBaseline(s, g.throws));
    assert g.reports == [] && h.reports == [];
    BlockAgrees(guarded, x, s);
    BlockFramed(guarded, x, s);
    BaselineAgrees(s, g.throws);
    HandlersAgree(catches, x, s, CatchBaseline(s, g.throws));
    TryEndAgrees(s, g, MBlock(guarded, refs, ViewOf(s)), ends, h,
      MCatches(catches, refs, ViewOf(CatchBaseline(s, g.throws))).0,
      MCatches(catches, refs, ViewOf(CatchBaseline(s, g.throws))).1);
  }

  lemma {:induction false} HandlersAgree(catches: seq<OwnCatch>, x: Surroundings, s: FlowState, start: FlowState)
    requires Same(s, start) && AnalyzeCatches(catches, x, start).1.reports == []
    ensures var (ends, o) := AnalyzeCatches(catches, x, start);
            var (views, m) := MCatches(catches, x.returnsReference, ViewOf(start));
            Views(ends) == views && ListsAgree(o, m) && AllSame(s, ends)
    decreases catches, 1
  {
    CatchesAgree(catches, x, start);
    CatchesFramed(catches, x, start);
    var (ends, h) := AnalyzeCatches(catches, x, start);
    HandlersFramed(s, start, ends, h.(breaks := [], continues := [], throws := []));
  }

  lemma TryEndAgrees(
    s: FlowState, g: Outcome, m: MoveOutcome, ends: seq<FlowState>, h: Outcome, views: seq<View>, n: MoveOutcome)
    requires Valid(s) && OutcomeAgrees(g, m) && Views(ends) == views && ListsAgree(h, n)
    requires Same(s, g.state) && AllSame(s, ends)
    ensures OutcomeAgrees(TryEnd(s, g, ends, h), MTryEnd(ViewOf(s), m, views, n))
  {
    TryEndsAgree(s, g, m, ends, views);
    ListsAfterAgree(g, m, h, n);
  }

  lemma BaselineAgrees(s: FlowState, throws: seq<FlowState>)
    requires Valid(s) && AllWithin(s, throws)
    ensures ViewOf(CatchBaseline(s, throws)) == MCatchBaseline(ViewOf(s), Views(throws))
    ensures Same(s, CatchBaseline(s, throws))
  {
    SameRefl(s);
    TruncateAllSame(s, throws);
    MergeManySame(s, s, F.TruncateAll(throws, |s.scopes|));
    TruncateAllAgrees(s, throws);
    AllSameIsAligned(s, s, F.TruncateAll(throws, |s.scopes|));
    MergeManyAgrees(s, F.TruncateAll(throws, |s.scopes|));
  }

  lemma {:induction false} CatchesAgree(catches: seq<OwnCatch>, x: Surroundings, s: FlowState)
    requires Valid(s) && AnalyzeCatches(catches, x, s).1.reports == []
    ensures var (ends, o) := AnalyzeCatches(catches, x, s);
            var (views, m) := MCatches(catches, x.returnsReference, ViewOf(s));
            Views(ends) == views && ListsAgree(o, m)
    decreases catches, 0
  {
    if |catches| > 0 {
      HandlerAgrees(catches[0], x, s);
      CatchesAgree(catches[1..], x, s);
      var first := AnalyzeHandler(catches[0], x, s);
      var (ends, rest) := AnalyzeCatches(catches[1..], x, s);
      ViewsAppend(if first.reachable then [first.state] else [], ends);
      assert Views([first.state]) == [ViewOf(first.state)];
      ViewsAppend(first.breaks, rest.breaks);
      ViewsAppend(first.continues, rest.continues);
      ViewsAppend(first.throws, rest.throws);
    }
  }

  lemma {:induction false} HandlerAgrees(clause: OwnCatch, x: Surroundings, s: FlowState)
    requires Valid(s) && AnalyzeHandler(clause, x, s).reports == []
    ensures OutcomeAgrees(AnalyzeHandler(clause, x, s), MHandler(clause, x.returnsReference, ViewOf(s)))
    decreases clause, 0
  {
    PushAgrees(s);
    PushScopeWithin(s);
    var t := F.PushScope(s);
    var inside := DeclareCatch(clause.binding, x, t);
    if clause.binding.Some? {
      var b := clause.binding.value;
      DeclareAgrees(t, b.name, b.ty, None, b.span, b.lastUse, x.loopDepth);
      DeclareNear(t, b.name, b.ty, None, b.span, b.lastUse, x.loopDepth);
    }
    BodyAgrees(clause.body, x, inside);
    BodyFramed(clause.body, x, inside);
    PopAgrees(AnalyzeBody(clause.body, x, inside).state);
  }

  lemma {:induction false} BodyAgrees(b: OwnBlock, x: Surroundings, s: FlowState)
    requires Valid(s) && |s.scopes| > 0 && AnalyzeBody(b, x, s).reports == []
    ensures OutcomeAgrees(AnalyzeBody(b, x, s), MBody(b, x.returnsReference, ViewOf(s)))
    decreases b, 0
  {
    ListAgrees(b.statements, x, s);
  }

  // ----- loops -----

  lemma {:induction false} DeclareRangeAgrees(bindings: seq<RangeBinding>, x: Surroundings, s: FlowState)
    requires Valid(s) && |s.scopes| > 0
    ensures ViewOf(DeclareRange(bindings, x, s)) == MDeclareRange(bindings, ViewOf(s))
    decreases |bindings|
  {
    if |bindings| > 0 {
      var b := bindings[0];
      DeclareAgrees(s, b.name, b.ty, None, b.span, b.lastUse, x.loopDepth);
      DeclareNear(s, b.name, b.ty, None, b.span, b.lastUse, x.loopDepth);
      DeclareRangeAgrees(bindings[1..], x, Declared(b, x, s));
    }
  }

  function Declared(b: RangeBinding, x: Surroundings, s: FlowState): FlowState {
    F.Declare(s, b.name, b.ty, None, b.span, b.lastUse, x.loopDepth)
  }

  lemma TailAgrees(update: Option<Expression>, condition: Option<Expression>, s: FlowState)
    requires Valid(s) && CheckTail(update, condition, s).reports == []
    ensures Agrees(CheckTail(update, condition, s), MTail(update, condition, ViewOf(s)))
  {
    OptionalAgrees(update, s);
    var u := CheckOptional(update, s);
    OptionalAgrees(condition, u.state);
    ThenAgrees(
      u, MOptional(update, ViewOf(s)), CheckOptional(condition, u.state), MOptional(condition, ViewOf(u.state)));
  }

  ghost predicate TailsAre(r: (seq<FlowState>, seq<FlowState>, seq<F.Report>), m: (seq<View>, seq<View>, bool)) {
    m.2 && Views(r.0) == m.0 && Views(r.1) == m.1
  }

  lemma TailsStep(
    first: Checked, m: MoveChecked, r: (seq<FlowState>, seq<FlowState>, seq<F.Report>),
    rest: (seq<View>, seq<View>, bool))
    requires Agrees(first, m) && TailsAre(r, rest)
    ensures Views([first.state] + r.0) == [m.view] + rest.0 && Views(first.throws + r.1) == m.throws + rest.1
  {
    ViewsAppend([first.state], r.0);
    assert Views([first.state]) == [ViewOf(first.state)];
    ViewsAppend(first.throws, r.1);
  }

  lemma {:induction false} TailsAgree(update: Option<Expression>, condition: Option<Expression>, states: seq<FlowState>)
    requires (forall i :: 0 <= i < |states| ==> Valid(states[i])) && CheckTails(update, condition, states).2 == []
    ensures TailsAre(CheckTails(update, condition, states), MTails(update, condition, Views(states)))
    decreases |states|
  {
    if |states| > 0 {
      TailAgrees(update, condition, states[0]);
      TailsAgree(update, condition, states[1..]);
      assert Views(states)[1..] == Views(states[1..]);
      TailsStep(
        CheckTail(update, condition, states[0]), MTail(update, condition, ViewOf(states[0])),
        CheckTails(update, condition, states[1..]), MTails(update, condition, Views(states[1..])));
    }
  }

  ghost predicate IterationAgrees(i: Iteration, m: MoveIteration) {
    && m.silent
    && m.next == (if i.next.Some? then Some(ViewOf(i.next.value)) else None)
    && Views(i.breaks) == m.breaks && Views(i.throws) == m.throws
  }

  lemma {:induction false} IterateAgrees(
    bindings: seq<RangeBinding>, body: OwnStatement, update: Option<Expression>, condition: Option<Expression>,
    x: Surroundings, s: FlowState)
    requires Valid(s) && Iterate(bindings, body, update, condition, x, s).reports == []
    ensures IterationAgrees(
              Iterate(bindings, body, update, condition, x, s),
              MIterate(bindings, body, update, condition, x.returnsReference, ViewOf(s)))
    decreases body, 3
  {
    PushAgrees(s);
    PushScopeWithin(s);
    var t := F.PushScope(s);
    DeclareRangeAgrees(bindings, x, t);
    DeclareRangeNear(bindings, x, t);
    var inside := DeclareRange(bindings, x, t);
    StatementAgrees(body, x, inside);
    StatementFramed(body, x, inside);
    BodyLeaves(bindings, body, x, s);
    IterationEndAgrees(
      update, condition, s, Analyze(body, x, inside), MAnalyze(body, x.returnsReference, ViewOf(inside)));
  }

  lemma TailViewsAgree(s: FlowState, o: Outcome, m: MoveOutcome)
    requires OutcomeAgrees(o, m) && Valid(o.state) && ScopeFramed(s, o.(state := F.PopScope(o.state)))
    ensures Views(TailStates(o, |s.scopes|)) == MTailViews(m, |s.scopes|)
    ensures Views(F.TruncateAll(o.breaks, |s.scopes|)) == CutAll(m.breaks, |s.scopes|)
  {
    PopAgrees(o.state);
    TruncateAllAgrees(s, o.continues);
    TruncateAllAgrees(s, o.breaks);
    assert Views([F.PopScope(o.state)]) == [ViewOf(F.PopScope(o.state))];
    ViewsAppend(if o.reachable then [F.PopScope(o.state)] else [], F.TruncateAll(o.continues, |s.scopes|));
  }

  lemma IterationEndAgrees(
    update: Option<Expression>, condition: Option<Expression>, s: FlowState, o: Outcome, m: MoveOutcome)
    requires OutcomeAgrees(o, m) && Valid(s) && Valid(o.state) && ScopeFramed(s, o.(state := F.PopScope(o.state)))
    requires IterationEnd(o, update, condition, |s.scopes|).reports == []
    ensures IterationAgrees(
              IterationEnd(o, update, condition, |s.scopes|), MIterationEnd(m, update, condition, |s.scopes|))
  {
    TailViewsAgree(s, o, m);
    TailStatesSame(s, o);
    JoinedTails(update, condition, s, TailStates(o, |s.scopes|), o.throws);
  }

  /** The end of an iteration, from the states that reach the loop's tail. */
  lemma JoinedTails(
    update: Option<Expression>, condition: Option<Expression>, s: FlowState, states: seq<FlowState>,
    thrown: seq<FlowState>)
    requires Valid(s) && AllSame(s, states) && (|states| > 0 ==> CheckTails(update, condition, states).2 == [])
    ensures |states| > 0 ==>
              var (ends, throws, _) := CheckTails(update, condition, states);
              var (views, raised, silent) := MTails(update, condition, Views(states));
              && silent && ViewOf(F.MergeMany(states[0], ends)) == JoinMany(ViewOf(states[0]), views)
              && Views(thrown + throws) == Views(thrown) + raised
  {
    if |states| > 0 {
      TailsAgree(update, condition, states);
      TailsFramed(update, condition, s, states);
      var (ends, throws, _) := CheckTails(update, condition, states);
      AllSameIsAligned(s, states[0], ends);
      MergeManyAgrees(states[0], ends);
      ViewsAppend(thrown, throws);
    }
  }

  lemma PresentAgrees(i: Iteration, m: MoveIteration)
    requires IterationAgrees(i, m)
    ensures Views(Present(i.next)) == MPresent(m.next)
  {
  }

  lemma ExitViews(s: FlowState, first: Iteration, second: Iteration, m1: MoveIteration, m2: MoveIteration)
    requires IterationAgrees(first, m1) && IterationAgrees(second, m2)
    ensures Views(LoopExits(s, first, second)) == MExits(ViewOf(s), m1, m2)
  {
    PresentAgrees(first, m1);
    PresentAgrees(second, m2);
    ViewsAppend([s], Present(first.next));
    ViewsAppend([s] + Present(first.next), Present(second.next));
    ViewsAppend([s] + Present(first.next) + Present(second.next), first.breaks);
    ViewsAppend([s] + Present(first.next) + Present(second.next) + first.breaks, second.breaks);
    assert Views([s]) == [ViewOf(s)];
  }

  lemma ExitsAgree(s: FlowState, first: Iteration, second: Iteration, m1: MoveIteration, m2: MoveIteration)
    requires Valid(s) && IterationAgrees(first, m1) && IterationAgrees(second, m2)
    requires AllSame(s, LoopExits(s, first, second))
    ensures OutcomeAgrees(
              BothIterations(first, second, F.MergeMany(s, LoopExits(s, first, second))),
              MBoth(m1, m2, JoinMany(ViewOf(s), MExits(ViewOf(s), m1, m2))))
  {
    SameRefl(s);
    AllSameIsAligned(s, s, LoopExits(s, first, second));
    MergeManyAgrees(s, LoopExits(s, first, second));
    ExitViews(s, first, second, m1, m2);
    ViewsAppend(first.throws, second.throws);
  }

  lemma {:induction false} SecondAgrees(
    bindings: seq<RangeBinding>, body: OwnStatement, update: Option<Expression>, condition: Option<Expression>,
    x: Surroundings, first: Iteration, m: MoveIteration)
    requires IterationAgrees(first, m) && (first.next.Some? ==> Valid(first.next.value))
    requires SecondIteration(bindings, body, update, condition, x, first).reports == []
    ensures IterationAgrees(
              SecondIteration(bindings, body, update, condition, x, first),
              MSecond(bindings, body, update, condition, x.returnsReference, m))
    decreases body, 4
  {
    if first.next.Some? {
      IterateAgrees(bindings, body, update, condition, x, first.next.value);
    }
  }

  lemma SecondSame(
    bindings: seq<RangeBinding>, body: OwnStatement, update: Option<Expression>, condition: Option<Expression>,
    x: Surroundings, s: FlowState)
    requires Valid(s)
    ensures var first := Iterate(bindings, body, update, condition, x, s);
            && (first.next.Some? ==> Valid(first.next.value))
            && AllSame(s, LoopExits(s, first, SecondIteration(bindings, body, update, condition, x, first)))
  {
    IterateFramed(bindings, body, update, condition, x, s);
    var first := Iterate(bindings, body, update, condition, x, s);
    if first.next.Some? {
      IterateFramed(bindings, body, update, condition, x, first.next.value);
    }
    ExitsSame(s, first, SecondIteration(bindings, body, update, condition, x, first));
  }

  lemma {:induction false} LoopAgrees(
    bindings: seq<RangeBinding>, body: OwnStatement, update: Option<Expression>, condition: Option<Expression>,
    x: Surroundings, s: FlowState)
    requires Valid(s) && AnalyzeLoop(bindings, body, update, condition, x, s).reports == []
    ensures OutcomeAgrees(
              AnalyzeLoop(bindings, body, update, condition, x, s),
              MLoop(bindings, body, update, condition, x.returnsReference, ViewOf(s)))
    decreases body, 5
  {
    var first := Iterate(bindings, body, update, condition, x, s);
    var second := SecondIteration(bindings, body, update, condition, x, first);
    var m := MIterate(bindings, body, update, condition, x.returnsReference, ViewOf(s));
    assert first.reports == [] && second.reports == [];
    IterateAgrees(bindings, body, update, condition, x, s);
    SecondSame(bindings, body, update, condition, x, s);
    SecondAgrees(bindings, body, update, condition, x, first, m);
    ExitsAgree(s, first, second, m, MSecond(bindings, body, update, condition, x.returnsReference, m));
  }

  lemma {:induction false} WhileAgrees(statement: OwnStatement, x: Surroundings, s: FlowState)
    requires statement.kind.While? && Valid(s) && AnalyzeWhile(statement, x, s).reports == []
    ensures OutcomeAgrees(AnalyzeWhile(statement, x, s), MWhileStatement(statement, x.returnsReference, ViewOf(s)))
    decreases statement, 1
  {
    var condition, body := statement.kind.condition, statement.kind.body;
    PushAgrees(s);
    PushScopeWithin(s);
    WhileBodyAgrees(condition, body, InLoop(x), F.PushScope(s));
    WhileBodyFramed(condition, body, InLoop(x), F.PushScope(s));
    LoopLeft(AnalyzeWhileBody(condition, body, InLoop(x), F.PushScope(s)).state, body.span.end, x.loopDepth);
  }

  lemma {:induction false} WhileBodyAgrees(condition: Expression, body: OwnStatement, x: Surroundings, s: FlowState)
    requires Valid(s) && AnalyzeWhileBody(condition, body, x, s).reports == []
    ensures OutcomeAgrees(
              AnalyzeWhileBody(condition, body, x, s), MWhile(condition, body, x.returnsReference, ViewOf(s)))
    decreases body, 6
  {
    var c := Check(condition, F.Read, s);
    ExpressionAgrees(condition, s);
    CheckedSame(condition, F.Read, s);
    LoopAgrees([], body, None, Some(condition), x, c.state);
    AfterAgrees(
      Straight(c), MStraight(MCheck(condition, ViewOf(s))),
      AnalyzeLoop([], body, None, Some(condition), x, c.state),
      MLoop([], body, None, Some(condition), x.returnsReference, ViewOf(c.state)));
  }

  lemma LoopLeft(s: FlowState, position: nat, loopDepth: nat)
    requires Valid(s)
    ensures ViewOf(F.ReleaseExpired(F.PopScope(s), position, loopDepth)) == Leave(ViewOf(s))
  {
    PopAgrees(s);
    var t := F.PopScope(s);
    ReleaseExpiredInOnlyLoans(t, F.Flatten(t.scopeBindings), position, loopDepth);
    LoansInvisible(t, F.ReleaseExpired(t, position, loopDepth));
  }

  lemma {:induction false} ForAgrees(statement: OwnStatement, x: Surroundings, s: FlowState)
    requires statement.kind.For? && Valid(s) && AnalyzeForStatement(statement, x, s).reports == []
    ensures OutcomeAgrees(AnalyzeForStatement(statement, x, s), MForStatement(statement, x.returnsReference, ViewOf(s)))
    decreases statement, 1
  {
    var clause, body := statement.kind.clause, statement.kind.body;
    PushAgrees(s);
    PushScopeWithin(s);
    if clause.Classic? {
      ClassicAgrees(clause, body, InLoop(x), F.PushScope(s));
    } else {
      RangeAgrees(clause, body, InLoop(x), F.PushScope(s));
    }
    ForFramedInside(clause, body, InLoop(x), F.PushScope(s));
    LoopLeft(AnalyzeFor(clause, body, InLoop(x), F.PushScope(s)).state, body.span.end, x.loopDepth);
  }

  lemma ForFramedInside(clause: ForClause<Expression>, body: OwnStatement, x: Surroundings, s: FlowState)
    requires Valid(s) && |s.scopes| > 0
    ensures Valid(AnalyzeFor(clause, body, x, s).state)
  {
    if clause.Classic? {
      ClassicFramed(clause, body, x, s);
    } else {
      RangeFramed(clause, body, x, s);
    }
  }

  lemma InitializerAgrees(initializer: Option<ForInitializer<Expression>>, x: Surroundings, s: FlowState)
    requires Valid(s) && |s.scopes| > 0 && AnalyzeInitializer(initializer, x, s).reports == []
    ensures OutcomeAgrees(AnalyzeInitializer(initializer, x, s), MInitializer(initializer, ViewOf(s)))
  {
    JumpAgrees(s);
    if initializer.Some? {
      match initializer.value
      case InitializerLocal(local) => LocalAgrees(local, x, s);
      case InitializerExpression(e) => ExpressionAgrees(e, s);
    }
  }

  lemma {:induction false} ClassicAgrees(
    clause: ForClause<Expression>, body: OwnStatement, x: Surroundings, s: FlowState)
    requires Valid(s) && |s.scopes| > 0 && clause.Classic? && AnalyzeClassic(clause, body, x, s).reports == []
    ensures OutcomeAgrees(AnalyzeClassic(clause, body, x, s), MClassic(clause, body, x.returnsReference, ViewOf(s)))
    decreases body, 6
  {
    var i := AnalyzeInitializer(clause.initializer, x, s);
    var c := CheckOptional(clause.condition, i.state);
    assert i.reports == [] && c.reports == [];
    InitializerAgrees(clause.initializer, x, s);
    InitializerFramed(clause.initializer, x, s);
    OptionalAgrees(clause.condition, i.state);
    StraightAgrees(c, MOptional(clause.condition, ViewOf(i.state)));
    AfterAgrees(
      i, MInitializer(clause.initializer, ViewOf(s)), Straight(c),
      MStraight(MOptional(clause.condition, ViewOf(i.state))));
    LoopAgrees([], body, clause.update, clause.condition, x, c.state);
    AfterAgrees(
      After(i, Straight(c)),
      MAfter(MInitializer(clause.initializer, ViewOf(s)), MStraight(MOptional(clause.condition, ViewOf(i.state)))),
      AnalyzeLoop([], body, clause.update, clause.condition, x, c.state),
      MLoop([], body, clause.update, clause.condition, x.returnsReference, ViewOf(c.state)));
  }

  lemma RangeStartAgrees(bindings: seq<RangeBinding>, iterable: Expression, json: bool, s: FlowState)
    requires Valid(s) && RangeStart(bindings, iterable, json, s).0.reports == []
    ensures Agrees(RangeStart(bindings, iterable, json, s).0, MCheck(iterable, ViewOf(s)))
    ensures Valid(RangeStart(bindings, iterable, json, s).0.state)
  {
    var usage := RangeUsage(bindings, iterable, json);
    var c := Check(iterable, usage, s);
    CheckAgrees(iterable, usage, s);
    CheckedSame(iterable, usage, s);
    AcquirePersistentOnlyLoans(c.state, c.origin, AnyMutableReference(bindings), iterable.span);
    var t := RangeStart(bindings, iterable, json, s).0.state;
    assert OnlyLoans(c.state, t);
    LoansInvisible(c.state, t);
    SameAfterOnly(c.state, t);
  }

  lemma {:induction false} RangeAgrees(clause: ForClause<Expression>, body: OwnStatement, x: Surroundings, s: FlowState)
    requires Valid(s) && |s.scopes| > 0 && clause.Range? && AnalyzeRange(clause, body, x, s).reports == []
    ensures OutcomeAgrees(AnalyzeRange(clause, body, x, s), MRange(clause, body, x.returnsReference, ViewOf(s)))
    decreases body, 6
  {
    var (c, loan) := RangeStart(clause.bindings, clause.iterable, clause.json, s);
    var l := AnalyzeLoop(clause.bindings, body, None, None, x, c.state);
    assert c.reports == [] && l.reports == [];
    RangeStartAgrees(clause.bindings, clause.iterable, clause.json, s);
    LoopAgrees(clause.bindings, body, None, None, x, c.state);
    var m := MLoop(clause.bindings, body, None, None, x.returnsReference, ViewOf(c.state));
    StraightAgrees(c, MCheck(clause.iterable, ViewOf(s)));
    AfterAgrees(Straight(c), MStraight(MCheck(clause.iterable, ViewOf(s))), l, m);
    ReleaseLoopAgrees(After(Straight(c), l), loan, MAfter(MStraight(MCheck(clause.iterable, ViewOf(s))), m));
  }

  lemma ReleaseLoopAgrees(o: Outcome, loan: Option<F.Loan>, m: MoveOutcome)
    requires OutcomeAgrees(o, m)
    ensures OutcomeAgrees(ReleaseLoop(o, loan), m)
  {
    if loan.Some? {
      LoansInvisible(o.state, F.Release(o.state, loan.value));
    }
  }

  /** The availability part of a whole silent analysis. */
  lemma {:induction false} ParametersAgree(parameters: seq<Parameter>, s: FlowState)
    requires Valid(s) && |s.scopes| > 0
    ensures ViewOf(DeclareParameters(parameters, s)) == MDeclareParameters(parameters, ViewOf(s))
    ensures Valid(DeclareParameters(parameters, s)) && |DeclareParameters(parameters, s).scopes| == |s.scopes|
    decreases |parameters|
  {
    if |parameters| > 0 {
      var p := parameters[0];
      DeclareAgrees(s, p.name, p.ty, None, p.span, p.lastUse, 0);
      DeclareNear(s, p.name, p.ty, None, p.span, p.lastUse, 0);
      ParametersAgree(parameters[1..], F.Declare(s, p.name, p.ty, None, p.span, p.lastUse, 0));
    }
  }

  function MDeclareParameters(parameters: seq<Parameter>, v: View): View
    decreases |parameters|
  {
    if |parameters| == 0 then v
    else MDeclareParameters(parameters[1..], Introduce(v, parameters[0].name, parameters[0].ty))
  }

  /** A function analysed without reports is silent in the availability analysis too. */
  lemma FunctionAgrees(parameters: seq<Parameter>, body: OwnBlock, x: Surroundings)
    requires AnalyzeFunction(parameters, body, x).reports == []
    ensures MBody(body, x.returnsReference, MDeclareParameters(parameters, Enter([]))).silent
  {
    var start := F.PushScope(F.EMPTY_STATE);
    PushAgrees(F.EMPTY_STATE);
    ParametersAgree(parameters, start);
    BodyAgrees(body, x, DeclareParameters(parameters, start));
    assert ViewOf(F.EMPTY_STATE) == [];
  }
}
