/** The state of the ownership pass: bindings with their availability and loans, in nested scopes. */
module FlowStates {
  import opened Wrappers
  import opened Ast

  datatype Availability = Available | Moved(at: Span) | MaybeMoved(at: Span)

  datatype Loan = Loan(owner: nat, mutable: bool)

  datatype Binding = Binding(
    name: string,
    ty: TypeRef,
    availability: Availability,
    sharedBorrows: nat,
    mutablyBorrowed: bool,
    referenceLoan: Option<Loan>,
    loanActive: bool,
    declarationSpan: Span,
    lastUse: Option<Span>,
    loopDepth: nat)

  /** `scopes` and `scopeBindings` run from the outermost scope to the innermost one. */
  datatype FlowState = FlowState(
    bindings: seq<Binding>,
    scopes: seq<map<string, nat>>,
    scopeBindings: seq<seq<nat>>)

  datatype Usage = Read | Mutate | BorrowShared | BorrowMutable

  datatype Report = Report(code: string, span: Span)

  const EMPTY_STATE := FlowState([], [], [])

  predicate IsReference(ty: TypeRef) {
    ty.Reference?
  }

  predicate IsCopyable(ty: TypeRef) {
    ty.Owned? && ty.copyable
  }

  /** Whether the referenced or owned type is a lock guard. */
  predicate IsGuard(ty: TypeRef) {
    ty.Guard? || (ty.Reference? && ty.toGuard)
  }

  // ----- scopes -----

  function PushScope(s: FlowState): FlowState {
    s.(scopes := s.scopes + [map[]], scopeBindings := s.scopeBindings + [[]])
  }

  function Declare(
    s: FlowState, name: string, ty: TypeRef, loan: Option<Loan>, at: Span, lastUse: Option<Span>, depth: nat)
    : FlowState
  {
    var id: nat := |s.bindings|;
    var b := Binding(name, ty, Available, 0, false, loan, loan.Some?, at, lastUse, depth);
    if |s.scopes| == 0 || |s.scopeBindings| == 0 then s
    else
      var top, topIds := |s.scopes| - 1, |s.scopeBindings| - 1;
      var declared: map<string, nat> := s.scopes[top][name := id];
      FlowState(
        s.bindings + [b],
        s.scopes[top := declared],
        s.scopeBindings[topIds := s.scopeBindings[topIds] + [id]])
  }

  /** Innermost scope first. */
  function LookupIn(scopes: seq<map<string, nat>>, name: string): Option<nat> {
    if |scopes| == 0 then None
    else
      var top := |scopes| - 1;
      if name in scopes[top] then Some(scopes[top][name]) else LookupIn(scopes[..top], name)
  }

  function Lookup(s: FlowState, name: string): (id: Option<nat>) {
    LookupIn(s.scopes, name)
  }

  // ----- loans -----

  function Release(s: FlowState, loan: Loan): FlowState {
    if loan.owner >= |s.bindings| then s
    else
      var owner := s.bindings[loan.owner];
      s.(bindings := s.bindings[loan.owner :=
        if loan.mutable then owner.(mutablyBorrowed := false)
        else owner.(sharedBorrows := if owner.sharedBorrows > 0 then owner.sharedBorrows - 1 else 0)])
  }

  /** Last loan first. */
  function ReleaseAll(s: FlowState, loans: seq<Loan>): FlowState
    decreases |loans|
  {
    if |loans| == 0 then s else ReleaseAll(Release(s, loans[|loans| - 1]), loans[..|loans| - 1])
  }

  function EndReferenceLoan(s: FlowState, id: nat): FlowState {
    if id >= |s.bindings| || !s.bindings[id].loanActive then s
    else
      var released := if s.bindings[id].referenceLoan.Some? then Release(s, s.bindings[id].referenceLoan.value) else s;
      if id >= |released.bindings| then released
      else released.(bindings := released.bindings[id := released.bindings[id].(loanActive := false)])
  }

  /** Newest binding first. */
  function EndLoans(s: FlowState, ids: seq<nat>): FlowState
    decreases |ids|
  {
    if |ids| == 0 then s else EndLoans(EndReferenceLoan(s, ids[|ids| - 1]), ids[..|ids| - 1])
  }

  function PopScope(s: FlowState): FlowState {
    if |s.scopes| == 0 || |s.scopeBindings| == 0 then s
    else
      var ended := EndLoans(s, s.scopeBindings[|s.scopeBindings| - 1]);
      ended.(scopes := s.scopes[..|s.scopes| - 1], scopeBindings := s.scopeBindings[..|s.scopeBindings| - 1])
  }

  /** Pops scopes until only `depth` are left. */
  function Truncate(s: FlowState, depth: nat): FlowState
    decreases |s.scopes|
  {
    if |s.scopes| <= depth || |s.scopeBindings| == 0 then s else Truncate(PopScope(s), depth)
  }

  function TruncateAll(states: seq<FlowState>, depth: nat): (r: seq<FlowState>)
    ensures |r| == |states|
    ensures forall i :: 0 <= i < |r| ==> r[i] == Truncate(states[i], depth)
  {
    seq(|states|, i requires 0 <= i < |states| => Truncate(states[i], depth))
  }

  function Flatten(ids: seq<seq<nat>>): seq<nat> {
    if |ids| == 0 then [] else ids[0] + Flatten(ids[1..])
  }

  predicate Expired(b: Binding, position: nat, loopDepth: nat) {
    && b.loanActive
    && (loopDepth == 0 || loopDepth <= b.loopDepth)
    && (if b.lastUse.Some? then b.lastUse.value.end <= position else b.declarationSpan.end <= position)
  }

  function ReleaseExpiredIn(s: FlowState, ids: seq<nat>, position: nat, loopDepth: nat): FlowState
    decreases |ids|
  {
    if |ids| == 0 then s
    else
      var s1 :=
        if ids[0] < |s.bindings| && Expired(s.bindings[ids[0]], position, loopDepth) then EndReferenceLoan(s, ids[0])
        else s;
      ReleaseExpiredIn(s1, ids[1..], position, loopDepth)
  }

  function ReleaseExpired(s: FlowState, position: nat, loopDepth: nat): FlowState {
    ReleaseExpiredIn(s, Flatten(s.scopeBindings), position, loopDepth)
  }

  predicate Conflicts(b: Binding, usage: Usage) {
    if usage.Read? || usage.BorrowShared? then b.mutablyBorrowed else b.mutablyBorrowed || b.sharedBorrows != 0
  }

  function CheckBorrow(s: FlowState, id: nat, usage: Usage, at: Span): seq<Report> {
    if id < |s.bindings| && Conflicts(s.bindings[id], usage) then [Report("OWN003", at)] else []
  }

  function CheckUsage(s: FlowState, id: nat, usage: Usage, at: Span): seq<Report> {
    if id >= |s.bindings| then []
    else match s.bindings[id].availability
      case Available => CheckBorrow(s, id, usage, at)
      case Moved(_) => [Report("OWN001", at)]
      case MaybeMoved(_) => [Report("OWN002", at)]
  }

  function SetAvailability(s: FlowState, id: nat, a: Availability): FlowState {
    if id < |s.bindings| then s.(bindings := s.bindings[id := s.bindings[id].(availability := a)]) else s
  }

  function MarkMoved(s: FlowState, id: nat, at: Span): FlowState {
    if id < |s.bindings| && s.bindings[id].availability.Available? && !Conflicts(s.bindings[id], Mutate)
    then SetAvailability(s, id, Moved(at))
    else s
  }

  function LoanUsage(mutable: bool): Usage {
    if mutable then BorrowMutable else BorrowShared
  }

  function Borrow(s: FlowState, owner: nat, mutable: bool): FlowState {
    if owner >= |s.bindings| then s
    else
      var b := s.bindings[owner];
      s.(bindings := s.bindings[owner :=
        if mutable then b.(mutablyBorrowed := true) else b.(sharedBorrows := b.sharedBorrows + 1)])
  }

  /** State, loan and reports of asking for a loan on `owner`. */
  function Acquire(s: FlowState, owner: nat, mutable: bool, at: Span): (FlowState, Option<Loan>, seq<Report>) {
    var conflict := CheckBorrow(s, owner, LoanUsage(mutable), at);
    if conflict != [] then (s, None, conflict) else (Borrow(s, owner, mutable), Some(Loan(owner, mutable)), [])
  }

  function AcquireTemporary(s: FlowState, origin: Option<nat>, mutable: bool, at: Span)
    : (FlowState, Option<Loan>, seq<Report>)
  {
    if origin.None? then (s, None, []) else Acquire(s, origin.value, mutable, at)
  }

  /** The binding a chain of references finally borrows from; guards own what they guard. */
  function RootOrigin(s: FlowState, id: nat): nat
    decreases id
  {
    if id < |s.bindings| && s.bindings[id].referenceLoan.Some? && !IsGuard(s.bindings[id].ty)
      && s.bindings[id].referenceLoan.value.owner < id
    then RootOrigin(s, s.bindings[id].referenceLoan.value.owner)
    else id
  }

  predicate LoanEndsWithin(b: Binding, at: Span) {
    b.loanActive && b.lastUse.Some? && at.start <= b.lastUse.value.start && b.lastUse.value.end <= at.end
  }

  function AcquirePersistent(s: FlowState, origin: Option<nat>, mutable: bool, at: Span)
    : (FlowState, Option<Loan>, seq<Report>)
  {
    if origin.None? then (s, None, [Report("OWN004", at)])
    else
      var owner := RootOrigin(s, origin.value);
      var s1 :=
        if origin.value < |s.bindings| && LoanEndsWithin(s.bindings[origin.value], at)
        then EndReferenceLoan(s, origin.value)
        else s;
      Acquire(s1, owner, mutable, at)
  }

  // ----- joins -----

  function MergeAvailability(left: Availability, right: Availability): Availability {
    match (left, right)
    case (Available, Available) => Available
    case (Moved(at), Moved(_)) => Moved(at)
    case (MaybeMoved(at), _) => MaybeMoved(at)
    case (_, MaybeMoved(at)) => MaybeMoved(at)
    case (Moved(at), Available) => MaybeMoved(at)
    case (Available, Moved(at)) => MaybeMoved(at)
  }

  function AvailabilityOf(s: FlowState, id: nat): Availability {
    if id < |s.bindings| then s.bindings[id].availability else Available
  }

  /** Availability of every binding in scope is joined; all else is as in the baseline. */
  function MergeIds(baseline: FlowState, left: FlowState, right: FlowState, ids: seq<nat>): FlowState {
    if |ids| == 0 then baseline
    else
      var id := ids[|ids| - 1];
      SetAvailability(
        MergeIds(baseline, left, right, ids[..|ids| - 1]),
        id,
        MergeAvailability(AvailabilityOf(left, id), AvailabilityOf(right, id)))
  }

  function Merge(baseline: FlowState, left: FlowState, right: FlowState): FlowState {
    MergeIds(baseline, left, right, Flatten(baseline.scopeBindings))
  }

  function MergeMany(baseline: FlowState, states: seq<FlowState>): FlowState {
    if |states| == 0 then baseline
    else if |states| == 1 then states[0]
    else Merge(baseline, MergeMany(baseline, states[..|states| - 1]), states[|states| - 1])
  }
}
