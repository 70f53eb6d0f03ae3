/**
 Loans are accounted for: in every state of the pass the counters and flags of a binding are those of
 the active reference loans on it, plus those that something under way still holds.
 */
module OwnershipLoans {
  import opened Wrappers
  import opened Ast
  import opened FlowStates
  import opened Ownership
  import opened OwnershipFrames
  import opened OwnershipScopes

  predicate Active(b: Binding, loan: Loan) {
    b.loanActive && b.referenceLoan == Some(loan)
  }

  /** How many bindings have the loan. */
  function Borrowers(bindings: seq<Binding>, loan: Loan): nat {
    if |bindings| == 0 then 0
    else Borrowers(bindings[..|bindings| - 1], loan) + if Active(bindings[|bindings| - 1], loan) then 1 else 0
  }

  ghost predicate Chained(b: Binding, id: nat) {
    && (b.referenceLoan.Some? ==> b.referenceLoan.value.owner < id)
    && (b.loanActive ==> b.referenceLoan.Some?)
  }

  /** The counters of `owner` are those of its loans. */
  ghost predicate Accounted(bindings: seq<Binding>, held: multiset<Loan>, owner: nat)
    requires owner < |bindings|
  {
    var shared, mutable := Loan(owner, false), Loan(owner, true);
    var m := Borrowers(bindings, mutable) + held[mutable];
    && bindings[owner].sharedBorrows == Borrowers(bindings, shared) + held[shared]
    && m <= 1 && (bindings[owner].mutablyBorrowed <==> m == 1)
    && (m == 1 ==> bindings[owner].sharedBorrows == 0)
  }

  /** `held`: loans of calls and loops under way, which no binding has. */
  ghost predicate Balanced(s: FlowState, held: multiset<Loan>) {
    && |s.scopes| == |s.scopeBindings|
    && (forall id :: 0 <= id < |s.bindings| ==> Chained(s.bindings[id], id))
    && (forall owner :: 0 <= owner < |s.bindings| ==> Accounted(s.bindings, held, owner))
    && (forall loan :: loan in held ==> loan.owner < |s.bindings|)
    && (forall id: nat :: id < |s.bindings| && s.bindings[id].loanActive ==> id in Flatten(s.scopeBindings))
  }

  /** As `Balanced`, but unless `exact` more may be held. */
  ghost predicate Kept(s: FlowState, held: multiset<Loan>, exact: bool) {
    exists leaked :: (exact ==> leaked == multiset{}) && Balanced(s, held + leaked)
  }

  ghost predicate AllKept(states: seq<FlowState>, held: multiset<Loan>, exact: bool) {
    forall i :: 0 <= i < |states| ==> Kept(states[i], held, exact)
  }

  lemma BalancedIsKept(s: FlowState, held: multiset<Loan>, exact: bool)
    requires Balanced(s, held)
    ensures Kept(s, held, exact)
  {
    assert held + multiset{} == held;
  }

  lemma KeptOver(s: FlowState, held: multiset<Loan>, leaked: multiset<Loan>, exact: bool)
    requires Kept(s, held + leaked, exact) && (exact ==> leaked == multiset{})
    ensures Kept(s, held, exact)
  {
    var more :| (exact ==> more == multiset{}) && Balanced(s, held + leaked + more);
    assert held + (leaked + more) == held + leaked + more;
  }

  lemma AllKeptOver(states: seq<FlowState>, held: multiset<Loan>, leaked: multiset<Loan>, exact: bool)
    requires AllKept(states, held + leaked, exact) && (exact ==> leaked == multiset{})
    ensures AllKept(states, held, exact)
  {
    forall i | 0 <= i < |states|
      ensures Kept(states[i], held, exact)
    {
      KeptOver(states[i], held, leaked, exact);
    }
  }

  // ----- counting -----

  lemma {:induction false} BorrowersAfter(bindings: seq<Binding>, i: nat, b: Binding, loan: Loan)
    requires i < |bindings|
    ensures Borrowers(bindings[i := b], loan) + (if Active(bindings[i], loan) then 1 else 0)
         == Borrowers(bindings, loan) + (if Active(b, loan) then 1 else 0)
    decreases |bindings|
  {
    var last := |bindings| - 1;
    if i < last {
      BorrowersAfter(bindings[..last], i, b, loan);
      assert bindings[i := b][..last] == bindings[..last][i := b];
    } else {
      assert bindings[i := b][..last] == bindings[..last];
    }
  }

  lemma {:induction false} BorrowersSame(a: seq<Binding>, b: seq<Binding>, loan: Loan)
    requires |a| == |b| && forall i :: 0 <= i < |a| ==> Active(a[i], loan) == Active(b[i], loan)
    ensures Borrowers(a, loan) == Borrowers(b, loan)
    decreases |a|
  {
    if |a| > 0 {
      BorrowersSame(a[..|a| - 1], b[..|b| - 1], loan);
    }
  }

  lemma {:induction false} NoBorrowers(bindings: seq<Binding>, loan: Loan)
    requires forall i :: 0 <= i < |bindings| ==> !Active(bindings[i], loan)
    ensures Borrowers(bindings, loan) == 0
    decreases |bindings|
  {
    if |bindings| > 0 {
      NoBorrowers(bindings[..|bindings| - 1], loan);
    }
  }

  lemma {:induction false} SomeBorrower(bindings: seq<Binding>, i: nat, loan: Loan)
    requires i < |bindings| && Active(bindings[i], loan)
    ensures Borrowers(bindings, loan) >= 1
    decreases |bindings|
  {
    if i < |bindings| - 1 {
      SomeBorrower(bindings[..|bindings| - 1], i, loan);
    }
  }

  lemma {:induction false} TwoBorrowers(bindings: seq<Binding>, i: nat, j: nat, loan: Loan)
    requires i < j < |bindings| && Active(bindings[i], loan) && Active(bindings[j], loan)
    ensures Borrowers(bindings, loan) >= 2
    decreases |bindings|
  {
    if j < |bindings| - 1 {
      TwoBorrowers(bindings[..|bindings| - 1], i, j, loan);
    } else {
      SomeBorrower(bindings[..|bindings| - 1], i, loan);
    }
  }

  // ----- operations -----

  lemma AvailabilityBalanced(s: FlowState, t: FlowState, held: multiset<Loan>)
    requires Balanced(s, held) && OnlyAvailability(s, t)
    ensures Balanced(t, held)
  {
    forall owner | 0 <= owner < |t.bindings|
      ensures Accounted(t.bindings, held, owner)
    {
      assert Accounted(s.bindings, held, owner);
      BorrowersSame(s.bindings, t.bindings, Loan(owner, false));
      BorrowersSame(s.bindings, t.bindings, Loan(owner, true));
    }
  }

  lemma BorrowBalanced(s: FlowState, loan: Loan, held: multiset<Loan>)
    requires Balanced(s, held) && Free(s, loan) && loan.owner < |s.bindings|
    ensures Balanced(Borrow(s, loan.owner, loan.mutable), held + multiset{loan})
  {
    var t := Borrow(s, loan.owner, loan.mutable);
    forall owner | 0 <= owner < |t.bindings|
      ensures Accounted(t.bindings, held + multiset{loan}, owner)
    {
      assert Accounted(s.bindings, held, owner);
      BorrowersSame(s.bindings, t.bindings, Loan(owner, false));
      BorrowersSame(s.bindings, t.bindings, Loan(owner, true));
    }
  }

  lemma ReleaseBalanced(s: FlowState, loan: Loan, held: multiset<Loan>)
    requires Balanced(s, held + multiset{loan})
    ensures Balanced(Release(s, loan), held)
  {
    assert loan in held + multiset{loan};
    var t := Release(s, loan);
    forall owner | 0 <= owner < |t.bindings|
      ensures Accounted(t.bindings, held, owner)
    {
      assert Accounted(s.bindings, held + multiset{loan}, owner);
      BorrowersSame(s.bindings, t.bindings, Loan(owner, false));
      BorrowersSame(s.bindings, t.bindings, Loan(owner, true));
    }
    assert forall l :: l in held ==> l in held + multiset{loan};
  }

  /** A reference gives its loan up, so that the loan is merely held. */
  lemma Detached(s: FlowState, id: nat, held: multiset<Loan>)
    requires Balanced(s, held) && id < |s.bindings| && s.bindings[id].loanActive
    ensures var t := s.(bindings := s.bindings[id := s.bindings[id].(loanActive := false)]);
            Balanced(t, held + multiset{s.bindings[id].referenceLoan.value})
  {
    var b := s.bindings[id].(loanActive := false);
    var loan := s.bindings[id].referenceLoan.value;
    var t := s.(bindings := s.bindings[id := b]);
    assert Chained(s.bindings[id], id);
    forall owner | 0 <= owner < |t.bindings|
      ensures Accounted(t.bindings, held + multiset{loan}, owner)
    {
      assert Accounted(s.bindings, held, owner);
      BorrowersAfter(s.bindings, id, b, Loan(owner, false));
      BorrowersAfter(s.bindings, id, b, Loan(owner, true));
    }
    forall i | 0 <= i < |t.bindings|
      ensures Chained(t.bindings[i], i)
    {
      assert Chained(s.bindings[i], i);
    }
  }

  lemma EndLoanBalanced(s: FlowState, id: nat, held: multiset<Loan>)
    requires Balanced(s, held)
    ensures Balanced(EndReferenceLoan(s, id), held)
    ensures id < |s.bindings| ==> !EndReferenceLoan(s, id).bindings[id].loanActive
    ensures EndedMore(s, EndReferenceLoan(s, id))
  {
    if id < |s.bindings| && s.bindings[id].loanActive {
      assert Chained(s.bindings[id], id);
      var loan := s.bindings[id].referenceLoan.value;
      var detached := s.(bindings := s.bindings[id := s.bindings[id].(loanActive := false)]);
      Detached(s, id, held);
      ReleaseBalanced(detached, loan, held);
      assert Release(detached, loan).bindings == EndReferenceLoan(s, id).bindings;
      assert Release(detached, loan) == EndReferenceLoan(s, id);
    }
  }

  /** `t` has the bindings of `s`, of which some loans have ended. */
  ghost predicate EndedMore(s: FlowState, t: FlowState) {
    && |t.bindings| == |s.bindings| && t.scopes == s.scopes && t.scopeBindings == s.scopeBindings
    && forall i :: 0 <= i < |s.bindings| && t.bindings[i].loanActive ==> s.bindings[i].loanActive
  }

  lemma {:induction false} EndLoansBalanced(s: FlowState, ids: seq<nat>, held: multiset<Loan>)
    requires Balanced(s, held)
    ensures Balanced(EndLoans(s, ids), held) && EndedMore(s, EndLoans(s, ids))
    ensures forall id :: id in ids && id < |s.bindings| ==> !EndLoans(s, ids).bindings[id].loanActive
    decreases |ids|
  {
    if |ids| > 0 {
      var last := |ids| - 1;
      EndLoanBalanced(s, ids[last], held);
      EndLoansBalanced(EndReferenceLoan(s, ids[last]), ids[..last], held);
      assert ids == ids[..last] + [ids[last]];
    }
  }

  lemma {:induction false} ReleaseExpiredInBalanced(
    s: FlowState, ids: seq<nat>, position: nat, loopDepth: nat, held: multiset<Loan>)
    requires Balanced(s, held)
    ensures Balanced(ReleaseExpiredIn(s, ids, position, loopDepth), held)
    decreases |ids|
  {
    if |ids| > 0 {
      EndLoanBalanced(s, ids[0], held);
      var s1 :=
        if ids[0] < |s.bindings| && Expired(s.bindings[ids[0]], position, loopDepth) then EndReferenceLoan(s, ids[0])
        else s;
      ReleaseExpiredInBalanced(s1, ids[1..], position, loopDepth, held);
    }
  }

  lemma ReleaseExpiredBalanced(s: FlowState, position: nat, loopDepth: nat, held: multiset<Loan>)
    requires Balanced(s, held)
    ensures Balanced(ReleaseExpired(s, position, loopDepth), held)
  {
    ReleaseExpiredInBalanced(s, Flatten(s.scopeBindings), position, loopDepth, held);
  }

  lemma {:induction false} FlattenSplit(ids: seq<seq<nat>>)
    requires |ids| > 0
    ensures Flatten(ids) == Flatten(ids[..|ids| - 1]) + ids[|ids| - 1]
    decreases |ids|
  {
    if |ids| == 1 {
      assert ids[1..] == [] && ids[..0] == [];
    } else {
      FlattenSplit(ids[1..]);
      assert ids[1..][..|ids| - 2] == ids[..|ids| - 1][1..];
    }
  }

  lemma PushBalanced(s: FlowState, held: multiset<Loan>)
    requires Balanced(s, held)
    ensures Balanced(PushScope(s), held)
  {
    var t := PushScope(s);
    FlattenSplit(t.scopeBindings);
    assert t.scopeBindings[..|t.scopeBindings| - 1] == s.scopeBindings;
  }

  lemma PopBalanced(s: FlowState, held: multiset<Loan>)
    requires Balanced(s, held)
    ensures Balanced(PopScope(s), held)
  {
    if |s.scopes| > 0 {
      var top := |s.scopeBindings| - 1;
      EndLoansBalanced(s, s.scopeBindings[top], held);
      FlattenSplit(s.scopeBindings);
      var ended, t := EndLoans(s, s.scopeBindings[top]), PopScope(s);
      forall id: nat | id < |t.bindings| && t.bindings[id].loanActive
        ensures id in Flatten(t.scopeBindings)
      {
        assert ended.bindings[id].loanActive && s.bindings[id].loanActive;
        assert id in Flatten(s.scopeBindings);
      }
    }
  }

  lemma {:induction false} TruncateBalanced(s: FlowState, depth: nat, held: multiset<Loan>)
    requires Balanced(s, held)
    ensures Balanced(Truncate(s, depth), held)
    decreases |s.scopes|
  {
    if |s.scopes| > depth {
      PopBalanced(s, held);
      TruncateBalanced(PopScope(s), depth, held);
    }
  }

  /** Declaring a binding hands it the loan that was held for it. */
  lemma DeclareBalanced(
    s: FlowState, name: string, ty: TypeRef, loan: Option<Loan>, at: Span, lastUse: Option<Span>, depth: nat,
    held: multiset<Loan>)
    requires |s.scopes| > 0 && Balanced(s, held + if loan.Some? then multiset{loan.value} else multiset{})
    ensures Balanced(Declare(s, name, ty, loan, at, lastUse, depth), held)
  {
    var t := Declare(s, name, ty, loan, at, lastUse, depth);
    var before := held + if loan.Some? then multiset{loan.value} else multiset{};
    var id := |s.bindings|;
    var b := t.bindings[id];
    assert t.bindings[..id] == s.bindings;
    assert loan.Some? ==> loan.value in before;
    forall owner | 0 <= owner < |t.bindings|
      ensures Accounted(t.bindings, held, owner)
    {
      assert Borrowers(t.bindings, Loan(owner, false))
          == Borrowers(s.bindings, Loan(owner, false)) + if Active(b, Loan(owner, false)) then 1 else 0;
      assert Borrowers(t.bindings, Loan(owner, true))
          == Borrowers(s.bindings, Loan(owner, true)) + if Active(b, Loan(owner, true)) then 1 else 0;
      if owner < id {
        assert Accounted(s.bindings, before, owner);
      } else {
        NobodyBorrows(s, owner, false, before);
        NobodyBorrows(s, owner, true, before);
      }
    }
    forall i | 0 <= i < |t.bindings|
      ensures Chained(t.bindings[i], i)
    {
      if i < id {
        assert Chained(s.bindings[i], i);
      }
    }
    var top := |s.scopeBindings| - 1;
    FlattenSplit(s.scopeBindings);
    FlattenSplit(t.scopeBindings);
    assert t.scopeBindings[..top] == s.scopeBindings[..top];
    forall l | l in held
      ensures l.owner < |t.bindings|
    {
      assert l in before;
    }
  }

  lemma NobodyBorrows(s: FlowState, owner: nat, mutable: bool, held: multiset<Loan>)
    requires Balanced(s, held) && owner == |s.bindings|
    ensures Borrowers(s.bindings, Loan(owner, mutable)) == 0 && held[Loan(owner, mutable)] == 0
  {
    forall i | 0 <= i < |s.bindings|
      ensures !Active(s.bindings[i], Loan(owner, mutable))
    {
      assert Chained(s.bindings[i], i);
    }
    NoBorrowers(s.bindings, Loan(owner, mutable));
  }

  lemma PlainDeclareBalanced(
    s: FlowState, name: string, ty: TypeRef, at: Span, lastUse: Option<Span>, depth: nat, held: multiset<Loan>)
    requires |s.scopes| > 0 && Balanced(s, held)
    ensures Balanced(Declare(s, name, ty, None, at, lastUse, depth), held)
  {
    assert held + multiset{} == held;
    DeclareBalanced(s, name, ty, None, at, lastUse, depth, held);
  }

  lemma RootExists(s: FlowState, id: nat)
    requires id < |s.bindings|
    ensures RootOrigin(s, id) < |s.bindings|
    decreases id
  {
  }

  /** Asking for a lasting loan: if it is given, it is held until it is declared. */
  lemma PersistentBalanced(s: FlowState, origin: Option<nat>, mutable: bool, at: Span, held: multiset<Loan>)
    requires Balanced(s, held) && (origin.Some? ==> origin.value < |s.bindings|)
    ensures var (t, loan, _) := AcquirePersistent(s, origin, mutable, at);
            Balanced(t, held + if loan.Some? then multiset{loan.value} else multiset{})
  {
    assert held + multiset{} == held;
    if origin.Some? {
      RootExists(s, origin.value);
      EndLoanBalanced(s, origin.value, held);
      var owner := RootOrigin(s, origin.value);
      var s1 :=
        if LoanEndsWithin(s.bindings[origin.value], at) then EndReferenceLoan(s, origin.value) else s;
      if CheckBorrow(s1, owner, LoanUsage(mutable), at) == [] {
        BorrowBalanced(s1, Loan(owner, mutable), held);
      }
    }
  }

  /** With the loans that are held during a call. */
  lemma {:induction false} BorrowAllBalanced(s: FlowState, loans: seq<Loan>, held: multiset<Loan>)
    requires Balanced(s, held) && Clean(s, loans)
    ensures Kept(BorrowAll(s, loans), held, false) && |BorrowAll(s, loans).bindings| == |s.bindings|
    decreases |loans|
  {
    BalancedIsKept(s, held, false);
    if |loans| > 0 {
      var last := loans[|loans| - 1];
      BorrowAllBalanced(s, loans[..|loans| - 1], held);
      var t := BorrowAll(s, loans[..|loans| - 1]);
      if last.owner < |t.bindings| {
        var leaked :| Balanced(t, held + leaked);
        BorrowBalanced(t, last, held + leaked);
        assert held + leaked + multiset{last} == held + (leaked + multiset{last});
      }
    }
  }

  lemma HoldingKept(s: FlowState, t: FlowState, held: multiset<Loan>)
    requires Balanced(s, held) && Holding(s, t)
    ensures Kept(t, held, false)
  {
    var loans :| Holds(s, loans, t);
    BorrowAllBalanced(s, loans, held);
    var leaked :| Balanced(BorrowAll(s, loans), held + leaked);
    AvailabilityBalanced(BorrowAll(s, loans), t, held + leaked);
  }

  lemma AllHoldingKept(s: FlowState, states: seq<FlowState>, held: multiset<Loan>)
    requires Balanced(s, held) && AllHolding(s, states)
    ensures AllKept(states, held, false)
  {
    forall i | 0 <= i < |states|
      ensures Kept(states[i], held, false)
    {
      HoldingKept(s, states[i], held);
    }
  }

  lemma MergeManyKept(b: FlowState, states: seq<FlowState>, held: multiset<Loan>, exact: bool)
    requires Balanced(b, held) && AllKept(states, held, exact)
    ensures Kept(MergeMany(b, states), held, exact)
  {
    BalancedIsKept(b, held, exact);
    if |states| > 1 {
      MergeIdsOnly(b, MergeMany(b, states[..|states| - 1]), states[|states| - 1], Flatten(b.scopeBindings));
      AvailabilityBalanced(b, MergeMany(b, states), held);
      BalancedIsKept(MergeMany(b, states), held, exact);
    }
  }

  lemma TruncateAllKept(states: seq<FlowState>, depth: nat, held: multiset<Loan>, exact: bool)
    requires AllKept(states, held, exact)
    ensures AllKept(TruncateAll(states, depth), held, exact)
  {
    forall i | 0 <= i < |states|
      ensures Kept(TruncateAll(states, depth)[i], held, exact)
    {
      var leaked :| (exact ==> leaked == multiset{}) && Balanced(states[i], held + leaked);
      TruncateBalanced(states[i], depth, held + leaked);
    }
  }

  // ----- what the pass guarantees in a balanced state -----

  /** An active mutable loan is flagged and excludes all other loans on its owner; shared loans are counted. */
  ghost predicate LoansRespected(s: FlowState) {
    && (forall id :: 0 <= id < |s.bindings| && s.bindings[id].referenceLoan.Some? ==>
          s.bindings[id].referenceLoan.value.owner < id)
    && (forall id, owner: nat :: 0 <= id < |s.bindings| && Active(s.bindings[id], Loan(owner, true)) ==>
          && s.bindings[owner].mutablyBorrowed && s.bindings[owner].sharedBorrows == 0
          && forall other, mutable :: 0 <= other < |s.bindings| && other != id ==>
               !Active(s.bindings[other], Loan(owner, mutable)))
    && (forall owner :: 0 <= owner < |s.bindings| ==>
          s.bindings[owner].sharedBorrows >= Borrowers(s.bindings, Loan(owner, false)))
  }

  lemma BalancedRespectsLoans(s: FlowState, held: multiset<Loan>)
    requires Balanced(s, held)
    ensures LoansRespected(s)
  {
    forall id | 0 <= id < |s.bindings| && s.bindings[id].referenceLoan.Some?
      ensures s.bindings[id].referenceLoan.value.owner < id
    {
      assert Chained(s.bindings[id], id);
    }
    forall id, owner: nat | 0 <= id < |s.bindings| && Active(s.bindings[id], Loan(owner, true))
      ensures owner < |s.bindings| && s.bindings[owner].mutablyBorrowed && s.bindings[owner].sharedBorrows == 0
      ensures forall other, mutable :: 0 <= other < |s.bindings| && other != id ==>
                !Active(s.bindings[other], Loan(owner, mutable))
    {
      assert Chained(s.bindings[id], id);
      assert Accounted(s.bindings, held, owner);
      SomeBorrower(s.bindings, id, Loan(owner, true));
      forall other, mutable | 0 <= other < |s.bindings| && other != id
        ensures !Active(s.bindings[other], Loan(owner, mutable))
      {
        OnlyBorrower(s, held, id, other, owner, mutable);
      }
    }
    forall owner | 0 <= owner < |s.bindings|
      ensures s.bindings[owner].sharedBorrows >= Borrowers(s.bindings, Loan(owner, false))
    {
      assert Accounted(s.bindings, held, owner);
    }
  }

  lemma OnlyBorrower(s: FlowState, held: multiset<Loan>, id: nat, other: nat, owner: nat, mutable: bool)
    requires Balanced(s, held) && id < |s.bindings| && other < |s.bindings| && other != id && owner < |s.bindings|
    requires Active(s.bindings[id], Loan(owner, true))
    ensures !Active(s.bindings[other], Loan(owner, mutable))
  {
    assert Accounted(s.bindings, held, owner);
    SomeBorrower(s.bindings, id, Loan(owner, true));
    if Active(s.bindings[other], Loan(owner, mutable)) {
      if mutable {
        TwoBorrowers(s.bindings, if id < other then id else other, if id < other then other else id, Loan(owner, true));
      } else {
        SomeBorrower(s.bindings, other, Loan(owner, false));
      }
    }
  }

  /** Following references ends at a binding that borrows from nothing, or at a guard. */
  lemma RootOriginEnds(s: FlowState, held: multiset<Loan>, id: nat)
    requires Balanced(s, held) && id < |s.bindings|
    ensures var root := RootOrigin(s, id);
            root <= id && (s.bindings[root].referenceLoan.None? || IsGuard(s.bindings[root].ty))
    decreases id
  {
    assert Chained(s.bindings[id], id);
    if s.bindings[id].referenceLoan.Some? && !IsGuard(s.bindings[id].ty) {
      RootOriginEnds(s, held, s.bindings[id].referenceLoan.value.owner);
    }
  }
}
