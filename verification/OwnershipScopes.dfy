/** Scopes stay balanced: whatever a statement does, the scopes around it keep their names. */
module OwnershipScopes {
  import opened Wrappers
  import opened Ast
  import opened FlowStates
  import opened Ownership
  import opened OwnershipFrames

  /** Every name denotes an existing binding of its own, listed in the scope that has the name. */
  ghost predicate Valid(s: FlowState) {
    && |s.scopes| == |s.scopeBindings|
    && (forall i, n :: 0 <= i < |s.scopes| && n in s.scopes[i] ==>
          s.scopes[i][n] < |s.bindings| && s.scopes[i][n] in s.scopeBindings[i])
    && (forall i, n, j, m ::
          0 <= i < |s.scopes| && n in s.scopes[i] && 0 <= j < |s.scopes| && m in s.scopes[j] ==>
          s.scopes[i][n] == s.scopes[j][m] ==> i == j && n == m)
  }

  /** The outermost `depth` scopes of `s` are also those of `t`, with bindings of the same types. */
  ghost predicate Below(s: FlowState, t: FlowState, depth: nat) {
    && depth <= |s.scopes| == |s.scopeBindings| && depth <= |t.scopes| == |t.scopeBindings|
    && t.scopes[..depth] == s.scopes[..depth] && t.scopeBindings[..depth] == s.scopeBindings[..depth]
    && |s.bindings| <= |t.bindings|
    && (forall i :: 0 <= i < |s.bindings| ==> t.bindings[i].ty == s.bindings[i].ty)
  }

  /** `t` has all scopes of `s`, unchanged, and possibly more inside them. */
  ghost predicate Within(s: FlowState, t: FlowState) {
    Valid(t) && |s.scopes| <= |t.scopes| && Below(s, t, |s.scopes|)
  }

  ghost predicate Same(s: FlowState, t: FlowState) {
    Within(s, t) && |t.scopes| == |s.scopes|
  }

  /** As `Within`, but the innermost scope of `s` may have gained names. */
  ghost predicate Near(s: FlowState, t: FlowState) {
    Valid(t) && 0 < |s.scopes| <= |t.scopes| && Below(s, t, |s.scopes| - 1)
  }

  ghost predicate AllWithin(s: FlowState, states: seq<FlowState>) {
    forall i :: 0 <= i < |states| ==> Within(s, states[i])
  }

  ghost predicate AllNear(s: FlowState, states: seq<FlowState>) {
    forall i :: 0 <= i < |states| ==> Near(s, states[i])
  }

  ghost predicate AllSame(s: FlowState, states: seq<FlowState>) {
    forall i :: 0 <= i < |states| ==> Same(s, states[i])
  }

  // ----- relations -----

  lemma BelowTransitive(a: FlowState, b: FlowState, c: FlowState, d: nat, e: nat)
    requires Below(a, b, d) && Below(b, c, e)
    ensures Below(a, c, if d <= e then d else e)
  {
    var least := if d <= e then d else e;
    assert a.scopes[..least] == a.scopes[..d][..least] && b.scopes[..least] == b.scopes[..e][..least];
    assert b.scopes[..least] == b.scopes[..d][..least] && c.scopes[..least] == c.scopes[..e][..least];
    assert a.scopeBindings[..least] == a.scopeBindings[..d][..least];
    assert b.scopeBindings[..least] == b.scopeBindings[..e][..least];
    assert b.scopeBindings[..least] == b.scopeBindings[..d][..least];
    assert c.scopeBindings[..least] == c.scopeBindings[..e][..least];
  }

  lemma BelowLess(a: FlowState, b: FlowState, d: nat, e: nat)
    requires Below(a, b, d) && e <= d
    ensures Below(a, b, e)
  {
    assert a.scopes[..e] == a.scopes[..d][..e] && b.scopes[..e] == b.scopes[..d][..e];
    assert a.scopeBindings[..e] == a.scopeBindings[..d][..e] && b.scopeBindings[..e] == b.scopeBindings[..d][..e];
  }

  lemma WithinTransitive(a: FlowState, b: FlowState, c: FlowState)
    requires Within(a, b) && Within(b, c)
    ensures Within(a, c)
  {
    BelowTransitive(a, b, c, |a.scopes|, |b.scopes|);
  }

  lemma WithinIsNear(s: FlowState, t: FlowState)
    requires Within(s, t) && |s.scopes| > 0
    ensures Near(s, t)
  {
    BelowLess(s, t, |s.scopes|, |s.scopes| - 1);
  }

  lemma NearTransitive(a: FlowState, b: FlowState, c: FlowState)
    requires Near(a, b) && Near(b, c)
    ensures Near(a, c)
  {
    BelowTransitive(a, b, c, |a.scopes| - 1, |b.scopes| - 1);
  }

  lemma AllWithinIsNear(s: FlowState, states: seq<FlowState>)
    requires AllWithin(s, states) && |s.scopes| > 0
    ensures AllNear(s, states)
  {
    forall i | 0 <= i < |states|
      ensures Near(s, states[i])
    {
      WithinIsNear(s, states[i]);
    }
  }

  lemma AllNearAfter(a: FlowState, b: FlowState, states: seq<FlowState>)
    requires Near(a, b) && AllNear(b, states)
    ensures AllNear(a, states)
  {
    forall i | 0 <= i < |states|
      ensures Near(a, states[i])
    {
      NearTransitive(a, b, states[i]);
    }
  }

  lemma AllWithinAfter(a: FlowState, b: FlowState, states: seq<FlowState>)
    requires Within(a, b) && AllWithin(b, states)
    ensures AllWithin(a, states)
  {
    forall i | 0 <= i < |states|
      ensures Within(a, states[i])
    {
      WithinTransitive(a, b, states[i]);
    }
  }

  lemma SameRefl(s: FlowState)
    requires Valid(s)
    ensures Same(s, s)
  {
  }

  // ----- operations that only touch availability or loans -----

  /** `t` is `s` up to loan counters and flags. */
  ghost predicate OnlyLoans(s: FlowState, t: FlowState) {
    && t.scopes == s.scopes && t.scopeBindings == s.scopeBindings && |t.bindings| == |s.bindings|
    && (forall i :: 0 <= i < |s.bindings| ==>
          t.bindings[i].ty == s.bindings[i].ty && t.bindings[i].availability == s.bindings[i].availability)
  }

  lemma SameAfterOnly(s: FlowState, t: FlowState)
    requires Valid(s) && (OnlyAvailability(s, t) || OnlyLoans(s, t))
    ensures Same(s, t)
  {
  }

  lemma {:induction false} BorrowAllOnlyLoans(s: FlowState, loans: seq<Loan>)
    ensures OnlyLoans(s, BorrowAll(s, loans))
    decreases |loans|
  {
    if |loans| > 0 {
      BorrowAllOnlyLoans(s, loans[..|loans| - 1]);
    }
  }

  lemma HoldingIsSame(s: FlowState, t: FlowState)
    requires Valid(s) && Holding(s, t)
    ensures Same(s, t)
  {
    var loans :| Holds(s, loans, t);
    BorrowAllOnlyLoans(s, loans);
    SameAfterOnly(s, BorrowAll(s, loans));
    SameAfterOnly(BorrowAll(s, loans), t);
    WithinTransitive(s, BorrowAll(s, loans), t);
  }

  lemma EndReferenceLoanOnlyLoans(s: FlowState, id: nat)
    ensures OnlyLoans(s, EndReferenceLoan(s, id))
  {
  }

  lemma {:induction false} EndLoansOnlyLoans(s: FlowState, ids: seq<nat>)
    ensures OnlyLoans(s, EndLoans(s, ids))
    decreases |ids|
  {
    if |ids| > 0 {
      EndLoansOnlyLoans(EndReferenceLoan(s, ids[|ids| - 1]), ids[..|ids| - 1]);
    }
  }

  lemma {:induction false} ReleaseExpiredInOnlyLoans(s: FlowState, ids: seq<nat>, position: nat, loopDepth: nat)
    ensures OnlyLoans(s, ReleaseExpiredIn(s, ids, position, loopDepth))
    decreases |ids|
  {
    if |ids| > 0 {
      var s1 :=
        if ids[0] < |s.bindings| && Expired(s.bindings[ids[0]], position, loopDepth) then EndReferenceLoan(s, ids[0])
        else s;
      ReleaseExpiredInOnlyLoans(s1, ids[1..], position, loopDepth);
    }
  }

  lemma ReleaseExpiredSame(s: FlowState, position: nat, loopDepth: nat)
    requires Valid(s)
    ensures OnlyLoans(s, ReleaseExpired(s, position, loopDepth)) && Same(s, ReleaseExpired(s, position, loopDepth))
  {
    ReleaseExpiredInOnlyLoans(s, Flatten(s.scopeBindings), position, loopDepth);
  }

  lemma AcquirePersistentOnlyLoans(s: FlowState, origin: Option<nat>, mutable: bool, at: Span)
    ensures OnlyLoans(s, AcquirePersistent(s, origin, mutable, at).0)
  {
    if origin.Some? {
      EndReferenceLoanOnlyLoans(s, origin.value);
    }
  }

  // ----- scopes -----

  lemma PushScopeWithin(s: FlowState)
    requires Valid(s)
    ensures Within(s, PushScope(s)) && |PushScope(s).scopes| == |s.scopes| + 1
  {
    var t := PushScope(s);
    assert t.scopes[..|s.scopes|] == s.scopes && t.scopeBindings[..|s.scopes|] == s.scopeBindings;
  }

  lemma DeclareNear(
    s: FlowState, name: string, ty: TypeRef, loan: Option<Loan>, at: Span, lastUse: Option<Span>, depth: nat)
    requires Valid(s) && |s.scopes| > 0
    ensures var t := Declare(s, name, ty, loan, at, lastUse, depth);
            Near(s, t) && |t.scopes| == |s.scopes|
  {
    var t := Declare(s, name, ty, loan, at, lastUse, depth);
    var top := |s.scopes| - 1;
    assert t.scopes[..top] == s.scopes[..top] && t.scopeBindings[..top] == s.scopeBindings[..top];
    forall i, n | 0 <= i < |t.scopes| && n in t.scopes[i]
      ensures t.scopes[i][n] < |t.bindings| && t.scopes[i][n] in t.scopeBindings[i]
      ensures i < top || n != name ==> n in s.scopes[i] && t.scopes[i][n] == s.scopes[i][n]
    {
      if i < top || n != name {
        assert n in s.scopes[i] && t.scopes[i][n] == s.scopes[i][n];
        assert s.scopes[i][n] in s.scopeBindings[i];
      }
    }
  }

  lemma PopScopeSame(s: FlowState, t: FlowState)
    requires Valid(t) && |t.scopes| == |s.scopes| + 1 && Below(s, t, |s.scopes|)
    ensures Same(s, PopScope(t))
  {
    var top := t.scopeBindings[|t.scopeBindings| - 1];
    EndLoansOnlyLoans(t, top);
    var ended := EndLoans(t, top);
    var r := PopScope(t);
    assert r.scopes[..|s.scopes|] == r.scopes && r.scopeBindings[..|s.scopes|] == r.scopeBindings;
    assert forall i, n :: 0 <= i < |r.scopes| && n in r.scopes[i] ==>
      n in t.scopes[i] && r.scopes[i][n] == t.scopes[i][n];
  }

  lemma {:induction false} TruncateSame(s: FlowState, t: FlowState)
    requires Within(s, t)
    ensures Same(s, Truncate(t, |s.scopes|))
    decreases |t.scopes|
  {
    if |t.scopes| > |s.scopes| {
      var outer := t.(scopes := t.scopes[..|t.scopes| - 1], scopeBindings := t.scopeBindings[..|t.scopes| - 1]);
      assert Below(outer, t, |outer.scopes|);
      PopScopeSame(outer, t);
      assert Below(s, outer, |s.scopes|) by {
        assert outer.scopes[..|s.scopes|] == t.scopes[..|s.scopes|];
        assert outer.scopeBindings[..|s.scopes|] == t.scopeBindings[..|s.scopes|];
      }
      BelowTransitive(s, outer, PopScope(t), |s.scopes|, |outer.scopes|);
      TruncateSame(s, PopScope(t));
    }
  }

  lemma TruncateAllSame(s: FlowState, states: seq<FlowState>)
    requires AllWithin(s, states)
    ensures AllSame(s, TruncateAll(states, |s.scopes|))
  {
    forall i | 0 <= i < |states|
      ensures Same(s, TruncateAll(states, |s.scopes|)[i])
    {
      TruncateSame(s, states[i]);
    }
  }

  lemma MergeSame(s: FlowState, baseline: FlowState, left: FlowState, right: FlowState)
    requires Same(s, baseline)
    ensures Same(s, Merge(baseline, left, right))
  {
    MergeIdsOnly(baseline, left, right, Flatten(baseline.scopeBindings));
    SameAfterOnly(baseline, Merge(baseline, left, right));
    WithinTransitive(s, baseline, Merge(baseline, left, right));
  }

  lemma MergeManySame(s: FlowState, baseline: FlowState, states: seq<FlowState>)
    requires Same(s, baseline) && AllSame(s, states)
    ensures Same(s, MergeMany(baseline, states))
  {
    if |states| > 1 {
      MergeSame(s, baseline, MergeMany(baseline, states[..|states| - 1]), states[|states| - 1]);
    }
  }

  lemma {:induction false} DeclareRangeNear(bindings: seq<RangeBinding>, x: Surroundings, s: FlowState)
    requires Valid(s) && |s.scopes| > 0
    ensures Near(s, DeclareRange(bindings, x, s)) && |DeclareRange(bindings, x, s).scopes| == |s.scopes|
    decreases |bindings|
  {
    if |bindings| == 0 {
      SameRefl(s);
      WithinIsNear(s, s);
    } else {
      var b := bindings[0];
      var t := Declare(s, b.name, b.ty, None, b.span, b.lastUse, x.loopDepth);
      DeclareNear(s, b.name, b.ty, None, b.span, b.lastUse, x.loopDepth);
      DeclareRangeNear(bindings[1..], x, t);
      NearTransitive(s, t, DeclareRange(bindings, x, s));
    }
  }

  // ----- what is claimed of statements -----

  /** Captured states, wherever control leaves from. */
  ghost predicate Captures(s: FlowState, o: Outcome) {
    AllNear(s, o.breaks) && AllNear(s, o.continues) && AllNear(s, o.throws)
  }

  ghost predicate Framed(s: FlowState, o: Outcome) {
    Near(s, o.state) && |o.state.scopes| == |s.scopes| && Captures(s, o)
  }

  /** As `Framed`, for constructs that make their own scope. */
  ghost predicate ScopeFramed(s: FlowState, o: Outcome) {
    Same(s, o.state) && AllWithin(s, o.breaks) && AllWithin(s, o.continues) && AllWithin(s, o.throws)
  }

  lemma ScopeFramedIsFramed(s: FlowState, o: Outcome)
    requires ScopeFramed(s, o) && |s.scopes| > 0
    ensures Framed(s, o)
  {
    WithinIsNear(s, o.state);
    AllWithinIsNear(s, o.breaks);
    AllWithinIsNear(s, o.continues);
    AllWithinIsNear(s, o.throws);
  }

  lemma CheckedSame(e: Expression, usage: Usage, s: FlowState)
    requires Valid(s)
    ensures Same(s, Check(e, usage, s).state) && AllSame(s, Check(e, usage, s).throws)
    ensures OnlyAvailability(s, Check(e, usage, s).state)
  {
    ExpressionKeepsLoans(e, usage, s);
    SameAfterOnly(s, Check(e, usage, s).state);
    var throws := Check(e, usage, s).throws;
    forall i | 0 <= i < |throws|
      ensures Same(s, throws[i])
    {
      HoldingIsSame(s, throws[i]);
    }
  }

  /** Leaving the scope that was pushed for a body that started in `t`. */
  lemma LeaveScope(s: FlowState, t: FlowState, o: Outcome)
    requires Valid(s) && Within(s, t) && |t.scopes| == |s.scopes| + 1 && Framed(t, o)
    ensures ScopeFramed(s, o.(state := PopScope(o.state)))
  {
    BelowTransitive(s, t, o.state, |s.scopes|, |t.scopes| - 1);
    PopScopeSame(s, o.state);
    LeaveCaptured(s, t, o.breaks);
    LeaveCaptured(s, t, o.continues);
    LeaveCaptured(s, t, o.throws);
  }

  lemma LeaveCaptured(s: FlowState, t: FlowState, states: seq<FlowState>)
    requires Within(s, t) && |t.scopes| == |s.scopes| + 1 && AllNear(t, states)
    ensures AllWithin(s, states)
  {
    forall i | 0 <= i < |states|
      ensures Within(s, states[i])
    {
      BelowTransitive(s, t, states[i], |s.scopes|, |t.scopes| - 1);
    }
  }

  lemma AfterAssociates(a: Outcome, b: Outcome, c: Outcome)
    ensures After(After(a, b), c) == After(a, After(b, c))
  {
    assert a.breaks + b.breaks + c.breaks == a.breaks + (b.breaks + c.breaks);
    assert a.continues + b.continues + c.continues == a.continues + (b.continues + c.continues);
    assert a.throws + b.throws + c.throws == a.throws + (b.throws + c.throws);
    assert a.reports + b.reports + c.reports == a.reports + (b.reports + c.reports);
  }

  lemma AfterFramed(s: FlowState, first: Outcome, second: Outcome)
    requires Framed(s, first) && Framed(first.state, second)
    ensures Framed(s, After(first, second))
  {
    NearTransitive(s, first.state, second.state);
    AllNearAfter(s, first.state, second.breaks);
    AllNearAfter(s, first.state, second.continues);
    AllNearAfter(s, first.state, second.throws);
  }

  lemma AfterScopeFramed(s: FlowState, first: Outcome, second: Outcome)
    requires ScopeFramed(s, first) && ScopeFramed(first.state, second)
    ensures ScopeFramed(s, After(first, second))
  {
    WithinTransitive(s, first.state, second.state);
    AllWithinAfter(s, first.state, second.breaks);
    AllWithinAfter(s, first.state, second.continues);
    AllWithinAfter(s, first.state, second.throws);
  }

  // ----- statements -----

  lemma {:induction false} ListFramed(ss: seq<OwnStatement>, x: Surroundings, s: FlowState)
    requires Valid(s) && |s.scopes| > 0
    ensures Framed(s, AnalyzeList(ss, x, s))
    decreases ss, 0
  {
    if |ss| == 0 {
      SameRefl(s);
      WithinIsNear(s, s);
    } else {
      FirstFramed(ss[0], x, s);
      var first := AnalyzeFirst(ss[0], x, s);
      if first.reachable {
        ListFramed(ss[1..], x, first.state);
        AfterFramed(s, first, AnalyzeList(ss[1..], x, first.state));
      }
    }
  }

  lemma {:induction false} FirstFramed(statement: OwnStatement, x: Surroundings, s: FlowState)
    requires Valid(s) && |s.scopes| > 0
    ensures Framed(s, AnalyzeFirst(statement, x, s))
    decreases statement, 3
  {
    StatementFramed(statement, x, s);
    var o := Analyze(statement, x, s);
    ReleaseExpiredSame(o.state, statement.span.end, x.loopDepth);
    WithinIsNear(o.state, AnalyzeFirst(statement, x, s).state);
    NearTransitive(s, o.state, AnalyzeFirst(statement, x, s).state);
  }

  lemma {:induction false} BlockFramed(b: OwnBlock, x: Surroundings, s: FlowState)
    requires Valid(s)
    ensures ScopeFramed(s, AnalyzeBlock(b, x, s))
    decreases b, 0
  {
    PushScopeWithin(s);
    ListFramed(b.statements, x, PushScope(s));
    LeaveScope(s, PushScope(s), AnalyzeList(b.statements, x, PushScope(s)));
  }

  lemma {:induction false} BranchFramed(statement: OwnStatement, x: Surroundings, s: FlowState)
    requires Valid(s)
    ensures ScopeFramed(s, AnalyzeBranch(statement, x, s))
    decreases statement, 4
  {
    PushScopeWithin(s);
    FirstFramed(statement, x, PushScope(s));
    LeaveScope(s, PushScope(s), AnalyzeFirst(statement, x, PushScope(s)));
  }

  lemma StraightNear(c: Checked, s: FlowState)
    requires Same(s, c.state) && AllSame(s, c.throws) && |s.scopes| > 0
    ensures Framed(s, Straight(c))
  {
    WithinIsNear(s, c.state);
    AllWithinIsNear(s, c.throws);
  }

  lemma CaptureSame(c: Checked, raises: bool, s: FlowState)
    requires Same(s, c.state) && AllSame(s, c.throws)
    ensures Same(s, Capture(c, raises).state) && AllSame(s, Capture(c, raises).throws)
  {
  }

  /** A declaration after the part that computes its value. */
  lemma DeclaredFramed(
    local: LocalDeclaration<Expression>, loan: Option<Loan>, x: Surroundings, c: Checked, s: FlowState)
    requires Valid(s) && Same(s, c.state) && AllSame(s, c.throws) && |s.scopes| > 0
    ensures Framed(s, Straight(c.(state := DeclareLocal(local, loan, x, c.state))))
  {
    StraightNear(c, s);
    DeclareNear(c.state, local.name, local.ty, loan, local.span, local.lastUse, x.loopDepth);
    NearTransitive(s, c.state, DeclareLocal(local, loan, x, c.state));
  }

  lemma BorrowedSame(e: Expression, mutable: bool, s: FlowState)
    requires Valid(s)
    ensures var c := Check(e, LoanUsage(mutable), s);
            Same(s, AcquirePersistent(c.state, c.origin, mutable, e.span).0) && AllSame(s, c.throws)
  {
    var c := Check(e, LoanUsage(mutable), s);
    CheckedSame(e, LoanUsage(mutable), s);
    AcquirePersistentOnlyLoans(c.state, c.origin, mutable, e.span);
    SameAfterOnly(c.state, AcquirePersistent(c.state, c.origin, mutable, e.span).0);
    WithinTransitive(s, c.state, AcquirePersistent(c.state, c.origin, mutable, e.span).0);
  }

  lemma LocalFramed(local: LocalDeclaration<Expression>, x: Surroundings, s: FlowState)
    requires Valid(s) && |s.scopes| > 0
    ensures Framed(s, AnalyzeLocal(local, x, s))
  {
    SameRefl(s);
    if local.initializer.None? {
      DeclaredFramed(local, None, x, Checked(s, None, [], []), s);
      DeclaredFramed(local, None, x, Capture(Checked(s, None, [], []), local.implicitCall.throws), s);
    } else if BorrowsInitializer(local.ty) {
      var e, mutable := local.initializer.value, local.ty.Reference? && local.ty.mutable;
      var c := Check(e, LoanUsage(mutable), s);
      BorrowedSame(e, mutable, s);
      var (state, loan, reports) := AcquirePersistent(c.state, c.origin, mutable, e.span);
      DeclaredFramed(local, loan, x, Checked(state, None, c.throws, c.reports + reports), s);
    } else {
      var c := Check(local.initializer.value, Read, s);
      CheckedSame(local.initializer.value, Read, s);
      CaptureSame(c, local.adapted, s);
      DeclaredFramed(local, None, x, Capture(c, local.adapted), s);
    }
  }

  lemma ReturnFramed(value: Option<Expression>, x: Surroundings, s: FlowState)
    requires Valid(s) && |s.scopes| > 0
    ensures Framed(s, AnalyzeReturn(value, x, s))
  {
    SameRefl(s);
    WithinIsNear(s, s);
    if value.Some? {
      if ReturnMoves(value.value, x, s) {
        var moved := MarkMoved(s, NamedBinding(value.value, s).value, value.value.span);
        SameAfterOnly(s, moved);
        WithinIsNear(s, moved);
      } else {
        CheckedSame(value.value, Read, s);
        StraightNear(Check(value.value, Read, s), s);
      }
    }
  }

  /** Statements that contain no others and declare nothing. */
  lemma PlainFramed(statement: OwnStatement, x: Surroundings, s: FlowState)
    requires Valid(s) && |s.scopes| > 0
    requires statement.kind.Break? || statement.kind.Continue? || statement.kind.Expression? || statement.kind.Empty?
    ensures Framed(s, Analyze(statement, x, s))
  {
    SameRefl(s);
    WithinIsNear(s, s);
    if statement.kind.Expression? {
      CheckedSame(statement.kind.expression, Read, s);
      StraightNear(Check(statement.kind.expression, Read, s), s);
    }
  }

  lemma ThrowFramed(error: Option<Expression>, s: FlowState)
    requires Valid(s) && |s.scopes| > 0
    ensures Framed(s, AnalyzeThrow(error, s))
  {
    SameRefl(s);
    if error.Some? {
      CheckedSame(error.value, Read, s);
    }
    CaptureSame(CheckOptional(error, s), true, s);
    StraightNear(Capture(CheckOptional(error, s), true), s);
  }

  lemma {:induction false} StatementFramed(statement: OwnStatement, x: Surroundings, s: FlowState)
    requires Valid(s) && |s.scopes| > 0
    ensures Framed(s, Analyze(statement, x, s))
    decreases statement, 2
  {
    match statement.kind
    case BlockStatement(b) =>
      BlockFramed(b, x, s);
      ScopeFramedIsFramed(s, AnalyzeBlock(b, x, s));
    case Local(local) => LocalFramed(local, x, s);
    case Return(value) => ReturnFramed(value, x, s);
    case Throw(error) => ThrowFramed(error, s);
    case Try(_, _) => CompositeFramed(statement, x, s);
    case If(_, _, _) => CompositeFramed(statement, x, s);
    case While(_, _) => LoopStatementFramed(statement, x, s);
    case For(_, _) => LoopStatementFramed(statement, x, s);
    case _ => PlainFramed(statement, x, s);
  }

  lemma {:induction false} CompositeFramed(statement: OwnStatement, x: Surroundings, s: FlowState)
    requires Valid(s) && |s.scopes| > 0 && (statement.kind.Try? || statement.kind.If?)
    ensures Framed(s, Analyze(statement, x, s))
    decreases statement, 1, 1
  {
    if statement.kind.Try? {
      TryFramed(statement, x, s);
      ScopeFramedIsFramed(s, AnalyzeTry(statement, x, s));
    } else {
      IfFramed(statement, x, s);
      ScopeFramedIsFramed(s, AnalyzeIf(statement, x, s));
    }
  }

  lemma {:induction false} LoopStatementFramed(statement: OwnStatement, x: Surroundings, s: FlowState)
    requires Valid(s) && |s.scopes| > 0 && (statement.kind.While? || statement.kind.For?)
    ensures Framed(s, Analyze(statement, x, s))
    decreases statement, 1, 1
  {
    if statement.kind.While? {
      WhileFramed(statement, x, s);
      ScopeFramedIsFramed(s, AnalyzeWhile(statement, x, s));
    } else {
      ForFramed(statement, x, s);
      ScopeFramedIsFramed(s, AnalyzeForStatement(statement, x, s));
    }
  }

  lemma StraightFramed(e: Option<Expression>, s: FlowState)
    requires Valid(s)
    ensures ScopeFramed(s, Straight(CheckOptional(e, s)))
  {
    if e.Some? {
      CheckedSame(e.value, Read, s);
    } else {
      SameRefl(s);
    }
  }

  lemma {:induction false} IfFramed(statement: OwnStatement, x: Surroundings, s: FlowState)
    requires Valid(s) && statement.kind.If?
    ensures ScopeFramed(s, AnalyzeIf(statement, x, s))
    decreases statement, 1, 0
  {
    var c := Check(statement.kind.condition, Read, s);
    StraightFramed(Some(statement.kind.condition), s);
    BranchesFramed(statement, x, c.state);
    AfterScopeFramed(s, Straight(c), AnalyzeBranches(statement, x, c.state));
  }

  lemma {:induction false} BranchesFramed(statement: OwnStatement, x: Surroundings, s: FlowState)
    requires Valid(s) && statement.kind.If?
    ensures ScopeFramed(s, AnalyzeBranches(statement, x, s))
    decreases statement, 0
  {
    var yes, no := statement.kind.thenBranch, statement.kind.elseBranch;
    SameRefl(s);
    BranchFramed(yes, x, s);
    if no.Some? {
      BranchFramed(no.value, x, s);
    }
    JoinedFramed(s, AnalyzeBranch(yes, x, s), if no.Some? then AnalyzeBranch(no.value, x, s) else Nothing(s));
  }

  lemma JoinedFramed(s: FlowState, t: Outcome, e: Outcome)
    requires Valid(s) && ScopeFramed(s, t) && ScopeFramed(s, e)
    ensures ScopeFramed(s, JoinBranches(s, t, e))
  {
    SameRefl(s);
    MergeSame(s, s, t.state, e.state);
  }

  lemma BaselineFramed(s: FlowState, throws: seq<FlowState>)
    requires Valid(s) && AllWithin(s, throws)
    ensures Same(s, CatchBaseline(s, throws))
  {
    SameRefl(s);
    TruncateAllSame(s, throws);
    MergeManySame(s, s, TruncateAll(throws, |s.scopes|));
  }

  /** The handlers started from the joined states in which the block may have raised. */
  lemma HandlersFramed(s: FlowState, start: FlowState, ends: seq<FlowState>, h: Outcome)
    requires Same(s, start) && AllSame(start, ends)
    requires AllWithin(start, h.breaks) && AllWithin(start, h.continues) && AllWithin(start, h.throws)
    ensures AllSame(s, ends) && AllWithin(s, h.breaks) && AllWithin(s, h.continues) && AllWithin(s, h.throws)
  {
    forall i | 0 <= i < |ends|
      ensures Same(s, ends[i])
    {
      WithinTransitive(s, start, ends[i]);
    }
    AllWithinAfter(s, start, h.breaks);
    AllWithinAfter(s, start, h.continues);
    AllWithinAfter(s, start, h.throws);
  }

  lemma {:induction false} TryFramed(statement: OwnStatement, x: Surroundings, s: FlowState)
    requires Valid(s) && statement.kind.Try?
    ensures ScopeFramed(s, AnalyzeTry(statement, x, s))
    decreases statement, 1, 0
  {
    var guarded, catches := statement.kind.guarded, statement.kind.catches;
    BlockFramed(guarded, x, s);
    var g := AnalyzeBlock(guarded, x, s);
    BaselineFramed(s, g.throws);
    var start := CatchBaseline(s, g.throws);
    CatchesFramed(catches, x, start);
    var (ends, h) := AnalyzeCatches(catches, x, start);
    HandlersFramed(s, start, ends, h);
    TryEndFramed(s, g, ends, h);
  }

  lemma TryEndFramed(s: FlowState, g: Outcome, ends: seq<FlowState>, h: Outcome)
    requires Valid(s) && ScopeFramed(s, g) && AllSame(s, ends)
    requires AllWithin(s, h.breaks) && AllWithin(s, h.continues) && AllWithin(s, h.throws)
    ensures ScopeFramed(s, TryEnd(s, g, ends, h))
  {
    SameRefl(s);
    MergeManySame(s, s, (if g.reachable then [g.state] else []) + ends);
  }

  lemma {:induction false} CatchesFramed(catches: seq<OwnCatch>, x: Surroundings, s: FlowState)
    requires Valid(s)
    ensures var (ends, o) := AnalyzeCatches(catches, x, s);
            AllSame(s, ends) && AllWithin(s, o.breaks) && AllWithin(s, o.continues) && AllWithin(s, o.throws)
    decreases catches, 0
  {
    if |catches| > 0 {
      HandlerFramed(catches[0], x, s);
      CatchesFramed(catches[1..], x, s);
    }
  }

  lemma {:induction false} HandlerFramed(clause: OwnCatch, x: Surroundings, s: FlowState)
    requires Valid(s)
    ensures ScopeFramed(s, AnalyzeHandler(clause, x, s))
    decreases clause, 0
  {
    PushScopeWithin(s);
    var t := PushScope(s);
    var inside := DeclareCatch(clause.binding, x, t);
    SameRefl(t);
    WithinIsNear(t, t);
    if clause.binding.Some? {
      var b := clause.binding.value;
      DeclareNear(t, b.name, b.ty, None, b.span, b.lastUse, x.loopDepth);
    }
    BodyFramed(clause.body, x, inside);
    var o := AnalyzeBody(clause.body, x, inside);
    NearTransitive(t, inside, o.state);
    AllNearAfter(t, inside, o.breaks);
    AllNearAfter(t, inside, o.continues);
    AllNearAfter(t, inside, o.throws);
    LeaveScope(s, t, o);
  }

  lemma {:induction false} BodyFramed(b: OwnBlock, x: Surroundings, s: FlowState)
    requires Valid(s) && |s.scopes| > 0
    ensures Framed(s, AnalyzeBody(b, x, s))
    decreases b, 0
  {
    ListFramed(b.statements, x, s);
  }

  // ----- loops -----

  lemma {:induction false} TailsFramed(
    update: Option<Expression>, condition: Option<Expression>, s: FlowState, states: seq<FlowState>)
    requires AllSame(s, states)
    ensures var (ends, throws, _) := CheckTails(update, condition, states);
            AllSame(s, ends) && AllSame(s, throws)
    decreases |states|
  {
    if |states| > 0 {
      StraightFramed(update, states[0]);
      var u := CheckOptional(update, states[0]);
      StraightFramed(condition, u.state);
      var c := CheckOptional(condition, u.state);
      AfterScopeFramed(states[0], Straight(u), Straight(c));
      var first := CheckTail(update, condition, states[0]);
      WithinTransitive(s, states[0], first.state);
      CheckTailThrows(update, condition, states[0]);
      forall i | 0 <= i < |first.throws|
        ensures Same(s, first.throws[i])
      {
        WithinTransitive(s, states[0], first.throws[i]);
      }
      TailsFramed(update, condition, s, states[1..]);
    }
  }

  lemma CheckTailThrows(update: Option<Expression>, condition: Option<Expression>, s: FlowState)
    requires Valid(s)
    ensures AllSame(s, CheckTail(update, condition, s).throws)
  {
    StraightFramed(update, s);
    var u := CheckOptional(update, s);
    if update.Some? {
      CheckedSame(update.value, Read, s);
    }
    if condition.Some? {
      CheckedSame(condition.value, Read, u.state);
      var throws := Check(condition.value, Read, u.state).throws;
      forall i | 0 <= i < |throws|
        ensures Same(s, throws[i])
      {
        WithinTransitive(s, u.state, throws[i]);
      }
    }
  }

  ghost predicate IterationFramed(s: FlowState, i: Iteration) {
    (i.next.Some? ==> Same(s, i.next.value)) && AllSame(s, i.breaks) && AllWithin(s, i.throws)
  }

  lemma {:induction false} IterateFramed(
    bindings: seq<RangeBinding>, body: OwnStatement, update: Option<Expression>, condition: Option<Expression>,
    x: Surroundings, s: FlowState)
    requires Valid(s)
    ensures IterationFramed(s, Iterate(bindings, body, update, condition, x, s))
    decreases body, 3
  {
    BodyLeaves(bindings, body, x, s);
    IterationEndFramed(update, condition, s, Analyze(body, x, DeclareRange(bindings, x, PushScope(s))));
  }

  /** How the scope of an iteration is left. */
  lemma {:induction false} BodyLeaves(bindings: seq<RangeBinding>, body: OwnStatement, x: Surroundings, s: FlowState)
    requires Valid(s)
    ensures var o := Analyze(body, x, DeclareRange(bindings, x, PushScope(s)));
            ScopeFramed(s, o.(state := PopScope(o.state)))
    decreases body, 3, 0
  {
    PushScopeWithin(s);
    var t := PushScope(s);
    DeclareRangeNear(bindings, x, t);
    var inside := DeclareRange(bindings, x, t);
    StatementFramed(body, x, inside);
    var o := Analyze(body, x, inside);
    NearTransitive(t, inside, o.state);
    AllNearAfter(t, inside, o.breaks);
    AllNearAfter(t, inside, o.continues);
    AllNearAfter(t, inside, o.throws);
    LeaveScope(s, t, o);
  }

  lemma TailStatesSame(s: FlowState, o: Outcome)
    requires ScopeFramed(s, o.(state := PopScope(o.state)))
    ensures AllSame(s, TailStates(o, |s.scopes|))
  {
    TruncateAllSame(s, o.continues);
  }

  lemma IterationEndFramed(update: Option<Expression>, condition: Option<Expression>, s: FlowState, o: Outcome)
    requires Valid(s) && ScopeFramed(s, o.(state := PopScope(o.state)))
    ensures IterationFramed(s, IterationEnd(o, update, condition, |s.scopes|))
  {
    TruncateAllSame(s, o.continues);
    TruncateAllSame(s, o.breaks);
    var states := TailStates(o, |s.scopes|);
    TailsFramed(update, condition, s, states);
    if |states| > 0 {
      MergeManySame(s, states[0], CheckTails(update, condition, states).0);
    }
  }

  lemma ExitsSame(s: FlowState, first: Iteration, second: Iteration)
    requires Valid(s) && IterationFramed(s, first)
    requires first.next.Some? ==> IterationFramed(first.next.value, second)
    requires first.next.None? ==> second == Iteration(None, [], [], [])
    ensures AllSame(s, LoopExits(s, first, second))
    ensures AllWithin(s, first.throws + second.throws)
  {
    SameRefl(s);
    if first.next.Some? {
      var t := first.next.value;
      if second.next.Some? {
        WithinTransitive(s, t, second.next.value);
      }
      forall i | 0 <= i < |second.breaks|
        ensures Same(s, second.breaks[i])
      {
        WithinTransitive(s, t, second.breaks[i]);
      }
      AllWithinAfter(s, t, second.throws);
    }
  }

  lemma {:induction false} LoopFramed(
    bindings: seq<RangeBinding>, body: OwnStatement, update: Option<Expression>, condition: Option<Expression>,
    x: Surroundings, s: FlowState)
    requires Valid(s)
    ensures ScopeFramed(s, AnalyzeLoop(bindings, body, update, condition, x, s))
    decreases body, 5
  {
    IterateFramed(bindings, body, update, condition, x, s);
    var first := Iterate(bindings, body, update, condition, x, s);
    if first.next.Some? {
      IterateFramed(bindings, body, update, condition, x, first.next.value);
    }
    var second := SecondIteration(bindings, body, update, condition, x, first);
    ExitsSame(s, first, second);
    SameRefl(s);
    MergeManySame(s, s, LoopExits(s, first, second));
  }

  /** Leaving a loop statement: its own scope goes, then loans that ended with it. */
  lemma CloseLoopFramed(s: FlowState, t: FlowState, o: Outcome, position: nat, loopDepth: nat)
    requires Valid(s) && Within(s, t) && |t.scopes| == |s.scopes| + 1 && Framed(t, o)
    ensures ScopeFramed(s, CloseLoop(o, position, loopDepth))
  {
    LeaveScope(s, t, o);
    ReleaseExpiredSame(PopScope(o.state), position, loopDepth);
    WithinTransitive(s, PopScope(o.state), ReleaseExpired(PopScope(o.state), position, loopDepth));
  }

  lemma {:induction false} WhileFramed(statement: OwnStatement, x: Surroundings, s: FlowState)
    requires Valid(s) && statement.kind.While?
    ensures ScopeFramed(s, AnalyzeWhile(statement, x, s))
    decreases statement, 1, 0
  {
    PushScopeWithin(s);
    WhileBodyFramed(statement.kind.condition, statement.kind.body, InLoop(x), PushScope(s));
    CloseLoopFramed(
      s, PushScope(s), AnalyzeWhileBody(statement.kind.condition, statement.kind.body, InLoop(x), PushScope(s)),
      statement.kind.body.span.end, x.loopDepth);
  }

  lemma {:induction false} WhileBodyFramed(condition: Expression, body: OwnStatement, x: Surroundings, s: FlowState)
    requires Valid(s) && |s.scopes| > 0
    ensures Framed(s, AnalyzeWhileBody(condition, body, x, s))
    decreases body, 6
  {
    StraightFramed(Some(condition), s);
    var c := Check(condition, Read, s);
    LoopFramed([], body, None, Some(condition), x, c.state);
    AfterScopeFramed(s, Straight(c), AnalyzeLoop([], body, None, Some(condition), x, c.state));
    ScopeFramedIsFramed(s, AnalyzeWhileBody(condition, body, x, s));
  }

  lemma {:induction false} ForFramed(statement: OwnStatement, x: Surroundings, s: FlowState)
    requires Valid(s) && statement.kind.For?
    ensures ScopeFramed(s, AnalyzeForStatement(statement, x, s))
    decreases statement, 1, 0
  {
    var clause, body := statement.kind.clause, statement.kind.body;
    PushScopeWithin(s);
    if clause.Classic? {
      ClassicFramed(clause, body, InLoop(x), PushScope(s));
    } else {
      RangeFramed(clause, body, InLoop(x), PushScope(s));
    }
    CloseLoopFramed(s, PushScope(s), AnalyzeFor(clause, body, InLoop(x), PushScope(s)), body.span.end, x.loopDepth);
  }

  lemma InitializerFramed(initializer: Option<ForInitializer<Expression>>, x: Surroundings, s: FlowState)
    requires Valid(s) && |s.scopes| > 0
    ensures Framed(s, AnalyzeInitializer(initializer, x, s))
  {
    if initializer.None? {
      SameRefl(s);
      WithinIsNear(s, s);
    } else {
      match initializer.value
      case InitializerLocal(local) => LocalFramed(local, x, s);
      case InitializerExpression(e) =>
        CheckedSame(e, Read, s);
        StraightNear(Check(e, Read, s), s);
    }
  }

  lemma {:induction false} ClassicFramed(
    clause: ForClause<Expression>, body: OwnStatement, x: Surroundings, s: FlowState)
    requires Valid(s) && |s.scopes| > 0 && clause.Classic?
    ensures Framed(s, AnalyzeClassic(clause, body, x, s))
    decreases body, 6
  {
    var i := AnalyzeInitializer(clause.initializer, x, s);
    InitializerFramed(clause.initializer, x, s);
    var c := CheckOptional(clause.condition, i.state);
    StraightFramed(clause.condition, i.state);
    ScopeFramedIsFramed(i.state, Straight(c));
    AfterFramed(s, i, Straight(c));
    LoopFramed([], body, clause.update, clause.condition, x, c.state);
    var l := AnalyzeLoop([], body, clause.update, clause.condition, x, c.state);
    ScopeFramedIsFramed(c.state, l);
    AfterFramed(s, After(i, Straight(c)), l);
  }

  lemma RangeStartFramed(bindings: seq<RangeBinding>, iterable: Expression, json: bool, s: FlowState)
    requires Valid(s)
    ensures ScopeFramed(s, Straight(RangeStart(bindings, iterable, json, s).0))
  {
    var usage := RangeUsage(bindings, iterable, json);
    var c := Check(iterable, usage, s);
    CheckedSame(iterable, usage, s);
    AcquirePersistentOnlyLoans(c.state, c.origin, AnyMutableReference(bindings), iterable.span);
    var t := RangeStart(bindings, iterable, json, s).0.state;
    assert OnlyLoans(c.state, t);
    SameAfterOnly(c.state, t);
    WithinTransitive(s, c.state, t);
  }

  lemma ReleaseLoopFramed(s: FlowState, o: Outcome, loan: Option<Loan>)
    requires ScopeFramed(s, o)
    ensures ScopeFramed(s, ReleaseLoop(o, loan))
  {
    if loan.Some? {
      SameAfterOnly(o.state, Release(o.state, loan.value));
      WithinTransitive(s, o.state, Release(o.state, loan.value));
    }
  }

  lemma {:induction false} RangeFramed(clause: ForClause<Expression>, body: OwnStatement, x: Surroundings, s: FlowState)
    requires Valid(s) && |s.scopes| > 0 && clause.Range?
    ensures Framed(s, AnalyzeRange(clause, body, x, s))
    decreases body, 6
  {
    var (c, loan) := RangeStart(clause.bindings, clause.iterable, clause.json, s);
    RangeStartFramed(clause.bindings, clause.iterable, clause.json, s);
    LoopFramed(clause.bindings, body, None, None, x, c.state);
    var l := AnalyzeLoop(clause.bindings, body, None, None, x, c.state);
    AfterScopeFramed(s, Straight(c), l);
    ReleaseLoopFramed(s, After(Straight(c), l), loan);
    ScopeFramedIsFramed(s, ReleaseLoop(After(Straight(c), l), loan));
  }
}
