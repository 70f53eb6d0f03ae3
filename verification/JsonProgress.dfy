/** Operations under way end, however the threads take turns. */
module JsonProgress {
  import opened Wrappers
  import opened JsonHeaps
  import opened JsonValues
  import opened JsonThreads
  import opened JsonTrees

  /** How many steps a walk below `v` may take. */
  ghost function Weight(h: Heap, v: Var): (n: nat)
    requires WellFormed(h) && Acyclic(h) && Valid(h, v)
    ensures n > 0
    decreases Height(h, v), 1, 0
  {
    if !IsAggregate(v) then 1
    else
      ChildrenLower(h, v.id);
      3 + Weights(h, Children(h[v.id]), Height(h, v))
  }

  ghost function Weights(h: Heap, vs: seq<Var>, bound: nat): nat
    requires WellFormed(h) && Acyclic(h) && AllValid(h, vs) && AllLower(h, vs, bound)
    decreases bound, 0, |vs|
  {
    if |vs| == 0 then 0 else Weight(h, vs[0]) + Weights(h, vs[1..], bound)
  }

  lemma {:induction false} WeightsSame(h: Heap, vs: seq<Var>, bound: nat, other: nat)
    requires WellFormed(h) && Acyclic(h) && AllValid(h, vs) && AllLower(h, vs, bound) && AllLower(h, vs, other)
    ensures Weights(h, vs, bound) == Weights(h, vs, other)
    decreases |vs|
  {
    if |vs| > 0 {
      WeightsSame(h, vs[1..], bound, other);
    }
  }

  ghost function Sum(h: Heap, vs: seq<Var>): nat
    requires WellFormed(h) && Acyclic(h) && AllValid(h, vs)
  {
    if |vs| == 0 then 0 else Weight(h, vs[0]) + Sum(h, vs[1..])
  }

  lemma {:induction false} WeightsAreSum(h: Heap, vs: seq<Var>, bound: nat)
    requires WellFormed(h) && Acyclic(h) && AllValid(h, vs) && AllLower(h, vs, bound)
    ensures Weights(h, vs, bound) == Sum(h, vs)
    decreases |vs|
  {
    if |vs| > 0 {
      WeightsAreSum(h, vs[1..], bound);
    }
  }

  /** Going on to a child costs more than entering it. */
  lemma WeightOfNode(h: Heap, v: Var)
    requires WellFormed(h) && Acyclic(h) && Valid(h, v) && IsAggregate(v)
    ensures AllValid(h, Children(h[v.id])) && Weight(h, v) == 3 + Sum(h, Children(h[v.id]))
  {
    ChildrenLower(h, v.id);
    WeightsAreSum(h, Children(h[v.id]), Height(h, v));
  }

  ghost predicate FramesValid(h: Heap, frames: seq<Frame>) {
    forall k :: 0 <= k < |frames| ==> AllValid(h, frames[k].rest)
  }

  ghost function FramesWeight(h: Heap, frames: seq<Frame>): nat
    requires WellFormed(h) && Acyclic(h) && FramesValid(h, frames)
  {
    if |frames| == 0 then 0
    else FramesWeight(h, frames[..|frames| - 1]) + 1 + Sum(h, frames[|frames| - 1].rest)
  }

  ghost function WalkWeight(h: Heap, t: Thread): nat
    requires WellFormed(h) && Acyclic(h) && ThreadOk(h, t)
  {
    if !Walking(t) then 0
    else
      WalkFramesValid(h, t.walk);
      FramesWeight(h, t.walk.frames)
      + if t.walk.pending.None? then 0 else 2 + Sum(h, Children(h[t.walk.pending.value]))
  }

  lemma WalkFramesValid(h: Heap, walk: Walk)
    requires WellFormed(h) && WalkOk(h, walk)
    ensures FramesValid(h, walk.frames)
  {
    forall k | 0 <= k < |walk.frames|
      ensures AllValid(h, walk.frames[k].rest)
    {
      assert FrameOk(h, walk, k);
    }
  }

  function Phase(t: Thread): nat {
    match t
    case Idle => 0
    case Reading(_) => 1
    case Writing(_, _) => 1
    case WantsWrite(_, _) => 2
    case Checking(_, _, _, _) => 3
    case WantsMutex(_, _) => 4
  }

  function Phases(ts: seq<Thread>): nat {
    if |ts| == 0 then 0 else Phase(ts[0]) + Phases(ts[1..])
  }

  ghost predicate AllOk(h: Heap, ts: seq<Thread>) {
    WellFormed(h) && Acyclic(h) && forall i :: 0 <= i < |ts| ==> ThreadOk(h, ts[i])
  }

  ghost function WalkWeights(h: Heap, ts: seq<Thread>): nat
    requires AllOk(h, ts)
  {
    if |ts| == 0 then 0 else WalkWeight(h, ts[0]) + WalkWeights(h, ts[1..])
  }

  lemma {:induction false} PhasesAfter(ts: seq<Thread>, i: nat, t: Thread)
    requires i < |ts|
    ensures Phases(ts[i := t]) + Phase(ts[i]) == Phases(ts) + Phase(t)
    decreases i
  {
    if i > 0 {
      PhasesAfter(ts[1..], i - 1, t);
      assert ts[i := t][1..] == ts[1..][i - 1 := t];
    } else {
      assert ts[i := t][1..] == ts[1..];
    }
  }

  lemma {:induction false} WeightsAfter(h: Heap, ts: seq<Thread>, i: nat, t: Thread)
    requires AllOk(h, ts) && i < |ts| && ThreadOk(h, t)
    ensures AllOk(h, ts[i := t])
    ensures WalkWeights(h, ts[i := t]) + WalkWeight(h, ts[i]) == WalkWeights(h, ts) + WalkWeight(h, t)
    decreases i
  {
    if i > 0 {
      WeightsAfter(h, ts[1..], i - 1, t);
      assert ts[i := t][1..] == ts[1..][i - 1 := t];
    } else {
      assert ts[i := t][1..] == ts[1..];
    }
  }

  lemma AdvanceLightens(h: Heap, t: Thread, u: Thread, pending: Option<nat>)
    requires WellFormed(h) && Acyclic(h) && ThreadOk(h, t) && ThreadOk(h, u) && Walking(t) && Walking(u)
    requires t.walk.pending.None? && |t.walk.frames| > 0 && |Top(t.walk).rest| > 0 && u.walk == Advance(t.walk, pending)
    requires pending.None? || pending == Reference(Top(t.walk).rest[0])
    ensures WalkWeight(h, u) < WalkWeight(h, t)
  {
    WalkFramesValid(h, t.walk);
    WalkFramesValid(h, u.walk);
    var last := |t.walk.frames| - 1;
    assert u.walk.frames[..last] == t.walk.frames[..last];
    var next := Top(t.walk).rest[0];
    assert FrameOk(h, t.walk, last);
    assert next in Top(t.walk).rest;
    if IsAggregate(next) {
      WeightOfNode(h, next);
    }
  }

  lemma EnterLightens(h: Heap, t: Thread, u: Thread)
    requires WellFormed(h) && Acyclic(h) && ThreadOk(h, t) && ThreadOk(h, u) && Walking(t) && Walking(u)
    requires t.walk.pending.Some? && u.walk == Enter(h, t.walk)
    ensures WalkWeight(h, u) < WalkWeight(h, t)
  {
    WalkFramesValid(h, t.walk);
    WalkFramesValid(h, u.walk);
    assert u.walk.frames[..|t.walk.frames|] == t.walk.frames;
  }

  lemma LeaveLightens(h: Heap, t: Thread, u: Thread)
    requires WellFormed(h) && Acyclic(h) && ThreadOk(h, t) && ThreadOk(h, u) && Walking(t) && Walking(u)
    requires t.walk.pending.None? && |t.walk.frames| > 0 && u.walk == Leave(t.walk)
    ensures WalkWeight(h, u) < WalkWeight(h, t)
  {
    WalkFramesValid(h, t.walk);
    WalkFramesValid(h, u.walk);
  }

  lemma WalkLightens(h: Heap, t: Thread, u: Thread)
    requires WellFormed(h) && Acyclic(h) && ThreadOk(h, t) && ThreadOk(h, u) && Walking(t) && t.walk.pending.None?
    requires u == (if t.Reading? then ReaderNext(t.walk) else CheckNext(t))
    ensures Phase(u) < Phase(t) || (Phase(u) == Phase(t) && WalkWeight(h, u) < WalkWeight(h, t))
  {
    if |t.walk.frames| > 0 {
      if |Top(t.walk).rest| == 0 {
        LeaveLightens(h, t, u);
      } else if Walking(u) {
        AdvanceLightens(h, t, u, u.walk.pending);
      }
    }
  }

  /**
   Every step of an operation under way makes the world smaller: fewer stages of mutations and reads
   left, or, at the same stages, less left to walk.
   */
  lemma StepsShrink(w: World, i: nat, a: Action)
    requires Invariant(w) && i < |w.threads| && (a.Go? || a.Skip?) && Act(w, i, a).Some?
    ensures var k := Act(w, i, a).value;
            && AllOk(w.heap, w.threads) && AllOk(k.heap, k.threads)
            && (Phases(k.threads) < Phases(w.threads)
                || (Phases(k.threads) == Phases(w.threads)
                    && WalkWeights(k.heap, k.threads) < WalkWeights(w.heap, w.threads)))
  {
    StepKeepsInvariant(w, i, a);
    var t, k := w.threads[i], Act(w, i, a).value;
    var u := k.threads[i];
    assert ThreadOk(w.heap, t) && ThreadOk(k.heap, u);
    PhasesAfter(w.threads, i, u);
    assert k.threads == w.threads[i := u];
    if Phase(u) >= Phase(t) {
      assert k.heap == w.heap;
      StepLightens(w, i, a);
      WeightsAfter(w.heap, w.threads, i, u);
    }
  }

  lemma StepLightens(w: World, i: nat, a: Action)
    requires Invariant(w) && i < |w.threads| && (a.Go? || a.Skip?) && Act(w, i, a).Some?
    requires Invariant(Act(w, i, a).value) && Phase(Act(w, i, a).value.threads[i]) >= Phase(w.threads[i])
    ensures var t, u := w.threads[i], Act(w, i, a).value.threads[i];
            && ThreadOk(w.heap, t) && ThreadOk(w.heap, u)
            && Phase(u) == Phase(t) && WalkWeight(w.heap, u) < WalkWeight(w.heap, t)
  {
    var t, k := w.threads[i], Act(w, i, a).value;
    var u := k.threads[i];
    assert ThreadOk(w.heap, t) && ThreadOk(k.heap, u);
    if a.Skip? {
      AdvanceLightens(w.heap, t, u, None);
    } else if Walking(t) {
      if t.walk.pending.Some? {
        EnterLightens(w.heap, t, u);
      } else {
        WalkLightens(w.heap, t, u);
      }
    }
  }

  // ----- runs in which no operation is started -----

  datatype Move = Move(thread: nat, action: Action)

  /** The move goes on with an operation under way. */
  predicate GoesOn(w: World, move: Move) {
    move.thread < |w.threads| && (move.action.Go? || move.action.Skip?) && Act(w, move.thread, move.action).Some?
  }

  function Moved(w: World, move: Move): World
    requires GoesOn(w, move)
  {
    Act(w, move.thread, move.action).value
  }

  /** The moves, one after the other, lead from `w` to `k`. */
  predicate Leads(w: World, moves: seq<Move>, k: World)
    decreases |moves|
  {
    if |moves| == 0 then k == w else GoesOn(w, moves[0]) && Leads(Moved(w, moves[0]), moves[1..], k)
  }

  function Larger(a: nat, b: nat): nat {
    if a < b then b else a
  }

  ghost predicate Measured(w: World) {
    AllOk(w.heap, w.threads) && Invariant(w)
  }

  lemma InvariantIsMeasured(w: World)
    requires Invariant(w)
    ensures Measured(w)
  {
  }

  /** The length of the longest run without new operations. */
  ghost function Longest(w: World): nat
    requires Measured(w)
    decreases Phases(w.threads), WalkWeights(w.heap, w.threads), |w.threads| + 1
  {
    LongestFrom(w, 0)
  }

  /** Among the runs whose first move is of a thread from `i` on. */
  ghost function LongestFrom(w: World, i: nat): nat
    requires Measured(w) && i <= |w.threads|
    decreases Phases(w.threads), WalkWeights(w.heap, w.threads), |w.threads| - i
  {
    if i == |w.threads| then 0
    else Larger(Larger(LongestAfter(w, Move(i, Go)), LongestAfter(w, Move(i, Skip))), LongestFrom(w, i + 1))
  }

  ghost function LongestAfter(w: World, move: Move): nat
    requires Measured(w) && (move.action.Go? || move.action.Skip?)
    decreases Phases(w.threads), WalkWeights(w.heap, w.threads), 0
  {
    if !GoesOn(w, move) then 0
    else
      StepsShrink(w, move.thread, move.action);
      StepKeepsInvariant(w, move.thread, move.action);
      1 + Longest(Moved(w, move))
  }

  lemma {:induction false} LongestCovers(w: World, move: Move, i: nat)
    requires Measured(w) && GoesOn(w, move) && i <= move.thread
    ensures LongestAfter(w, move) <= LongestFrom(w, i)
    decreases move.thread - i
  {
    if i < move.thread {
      LongestCovers(w, move, i + 1);
    }
  }

  lemma MovedIsMeasured(w: World, move: Move)
    requires Measured(w) && GoesOn(w, move)
    ensures Measured(Moved(w, move)) && Longest(Moved(w, move)) < Longest(w)
  {
    StepKeepsInvariant(w, move.thread, move.action);
    InvariantIsMeasured(Moved(w, move));
    LongestCovers(w, move, 0);
  }

  lemma {:induction false} LengthIsBounded(w: World, moves: seq<Move>, k: World)
    requires Measured(w) && Leads(w, moves, k)
    ensures Measured(k) && |moves| + Longest(k) <= Longest(w)
    decreases |moves|
  {
    if |moves| > 0 {
      MovedIsMeasured(w, moves[0]);
      LengthIsBounded(Moved(w, moves[0]), moves[1..], k);
    }
  }

  /**
   If no operation is started, runs are not longer than a bound that depends on where they start alone, and
   a run that cannot be continued, even if waiting writers keep readers out, ends with all threads idle.
   */
  lemma OperationsEnd(w: World, moves: seq<Move>, k: World)
    requires Invariant(w) && Leads(w, moves, k)
    ensures Measured(w) && |moves| <= Longest(w)
    ensures (forall i :: 0 <= i < |k.threads| && !k.threads[i].Idle? ==> !CanGo(k, i)) ==> AllIdle(k)
  {
    InvariantIsMeasured(w);
    LengthIsBounded(w, moves, k);
    if !AllIdle(k) {
      var i := SomeGoes(k);
    }
  }

  /** From every state of a run the operations under way can all be finished. */
  lemma {:induction false} OperationsCanFinish(w: World) returns (moves: seq<Move>, k: World)
    requires Invariant(w)
    ensures Leads(w, moves, k) && AllIdle(k)
    decreases Phases(w.threads), WalkWeights(w.heap, w.threads)
  {
    moves, k := [], w;
    if !AllIdle(w) {
      var i := SomeGoes(w);
      var first := Move(i, Go);
      StepsShrink(w, i, Go);
      StepKeepsInvariant(w, i, Go);
      var rest;
      rest, k := OperationsCanFinish(Moved(w, first));
      moves := [first] + rest;
      assert moves[1..] == rest;
    }
  }
}
