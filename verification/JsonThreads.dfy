/**
 Any number of threads reading and changing shared JSON values, one step at a time. Readers hold the
 read locks of the nodes on the way down; a mutation holds the one global mutex from its check to its
 write.
 */
module JsonThreads {
  import opened Wrappers
  import opened JsonHeaps
  import opened JsonCycles
  import opened JsonValues

  /** What is left to look at in a node that is read-locked; the first frame has no node. */
  datatype Frame = Frame(node: Option<nat>, rest: seq<Var>)

  /** A depth-first walk, outermost frame first, and the node whose read lock it is waiting for. */
  datatype Walk = Walk(frames: seq<Frame>, pending: Option<nat>)

  datatype Thread =
    | Idle
    | Reading(walk: Walk)
    | WantsMutex(receiver: Var, edit: Edit)
    | Checking(receiver: Var, edit: Edit, walk: Walk, visited: set<nat>)
    | WantsWrite(receiver: Var, edit: Edit)
    | Writing(receiver: Var, edit: Edit)

  datatype World = World(heap: Heap, threads: seq<Thread>)

  // ----- locks -----

  predicate Walking(t: Thread) {
    t.Reading? || t.Checking?
  }

  predicate HoldsRead(t: Thread, n: nat) {
    Walking(t) && exists k :: 0 <= k < |t.walk.frames| && t.walk.frames[k].node == Some(n)
  }

  predicate HoldsWrite(t: Thread, n: nat) {
    t.Writing? && IsAggregate(t.receiver) && t.receiver.id == n
  }

  predicate AwaitsWrite(t: Thread, n: nat) {
    t.WantsWrite? && IsAggregate(t.receiver) && t.receiver.id == n
  }

  predicate HoldsMutex(t: Thread) {
    t.Checking? || t.WantsWrite? || t.Writing?
  }

  predicate MutexFree(w: World) {
    forall j :: 0 <= j < |w.threads| ==> !HoldsMutex(w.threads[j])
  }

  predicate Unwritten(w: World, n: nat) {
    forall j :: 0 <= j < |w.threads| ==> !HoldsWrite(w.threads[j], n)
  }

  predicate Unread(w: World, n: nat) {
    forall j :: 0 <= j < |w.threads| ==> !HoldsRead(w.threads[j], n)
  }

  predicate Unawaited(w: World, n: nat) {
    forall j :: 0 <= j < |w.threads| ==> !AwaitsWrite(w.threads[j], n)
  }

  // ----- steps -----

  /** `Go`: the next step of what the thread is doing. A reader may also pass over what comes next. */
  datatype Action = Allocate(node: Node) | Read(v: Var) | Start(receiver: Var, edit: Edit) | Go | Skip

  function Top(walk: Walk): Frame
    requires |walk.frames| > 0
  {
    walk.frames[|walk.frames| - 1]
  }

  /** The next child of the innermost frame is dealt with; `pending` is what to lock for it. */
  function Advance(walk: Walk, pending: Option<nat>): Walk
    requires |walk.frames| > 0 && |Top(walk).rest| > 0
  {
    var top := Top(walk);
    Walk(walk.frames[|walk.frames| - 1 := top.(rest := top.rest[1..])], pending)
  }

  function Enter(h: Heap, walk: Walk): Walk
    requires walk.pending.Some? && walk.pending.value < |h|
  {
    Walk(walk.frames + [Frame(walk.pending, Children(h[walk.pending.value]))], None)
  }

  function Leave(walk: Walk): Walk
    requires |walk.frames| > 0
  {
    Walk(walk.frames[..|walk.frames| - 1], None)
  }

  function Reference(v: Var): Option<nat> {
    if IsAggregate(v) then Some(v.id) else None
  }

  function StartWalk(v: Var): Walk {
    Walk([Frame(None, [v])], None)
  }

  /** With the mutex taken: a receiver of the wrong kind ends it, an inserted value is checked. */
  function Locked(receiver: Var, edit: Edit): Thread {
    if !Suits(receiver, edit) then Idle
    else if Inserted(edit).Some? then Checking(receiver, edit, StartWalk(Inserted(edit).value), {})
    else WantsWrite(receiver, edit)
  }

  function ReaderNext(walk: Walk): Thread
    requires walk.pending.None?
  {
    if |walk.frames| == 0 then Idle
    else if |Top(walk).rest| == 0 then Reading(Leave(walk))
    else Reading(Advance(walk, Reference(Top(walk).rest[0])))
  }

  function CheckNext(t: Thread): Thread
    requires t.Checking? && t.walk.pending.None? && IsAggregate(t.receiver)
  {
    if |t.walk.frames| == 0 then WantsWrite(t.receiver, t.edit)
    else if |Top(t.walk).rest| == 0 then t.(walk := Leave(t.walk))
    else
      var next := Top(t.walk).rest[0];
      if !IsAggregate(next) || (next.id != t.receiver.id && next.id in t.visited) then t.(walk := Advance(t.walk, None))
      else if next.id == t.receiver.id then Idle
      else t.(walk := Advance(t.walk, Some(next.id)), visited := t.visited + {next.id})
  }

  function Written(h: Heap, receiver: Var, edit: Edit): Heap {
    if Valid(h, receiver) && Suits(receiver, edit) then
      var result := Apply(edit, h[receiver.id]);
      if result.None? then h else h[receiver.id := result.value.0]
    else h
  }

  predicate OperandsValid(h: Heap, receiver: Var, edit: Edit) {
    Valid(h, receiver) && (Inserted(edit).Some? ==> Valid(h, Inserted(edit).value))
  }

  function Become(w: World, i: nat, t: Thread): World
    requires i < |w.threads|
  {
    w.(threads := w.threads[i := t])
  }

  /** The world after thread `i` does `a`; `None` where it cannot. */
  function Act(w: World, i: nat, a: Action): Option<World>
    requires i < |w.threads|
  {
    var t := w.threads[i];
    match a
    case Allocate(node) =>
      if t.Idle? && AllValid(w.heap, Children(node)) then Some(w.(heap := w.heap + [node])) else None
    case Read(v) => if t.Idle? && Valid(w.heap, v) then Some(Become(w, i, Reading(StartWalk(v)))) else None
    case Start(receiver, edit) =>
      if t.Idle? && OperandsValid(w.heap, receiver, edit) then Some(Become(w, i, WantsMutex(receiver, edit))) else None
    case Skip =>
      if t.Reading? && t.walk.pending.None? && |t.walk.frames| > 0 && |Top(t.walk).rest| > 0
      then Some(Become(w, i, Reading(Advance(t.walk, None))))
      else None
    case Go =>
      match t
      case Idle => None
      case WantsMutex(receiver, edit) =>
        if MutexFree(w) then Some(Become(w, i, Locked(receiver, edit))) else None
      case Reading(walk) =>
        if walk.pending.None? then Some(Become(w, i, ReaderNext(walk)))
        else if walk.pending.value < |w.heap| && Unwritten(w, walk.pending.value)
        then Some(Become(w, i, Reading(Enter(w.heap, walk))))
        else None
      case Checking(receiver, _, walk, _) =>
        if !IsAggregate(receiver) then None
        else if walk.pending.None? then Some(Become(w, i, CheckNext(t)))
        else if walk.pending.value < |w.heap| && Unwritten(w, walk.pending.value)
        then Some(Become(w, i, t.(walk := Enter(w.heap, walk))))
        else None
      case WantsWrite(receiver, edit) =>
        if IsAggregate(receiver) && Unread(w, receiver.id) && Unwritten(w, receiver.id)
        then Some(Become(w, i, Writing(receiver, edit)))
        else None
      case Writing(receiver, edit) => Some(World(Written(w.heap, receiver, edit), w.threads[i := Idle]))
  }

  // ----- what every step keeps -----

  ghost predicate FrameOk(h: Heap, walk: Walk, k: nat)
    requires k < |walk.frames|
  {
    var f := walk.frames[k];
    && (k == 0 <==> f.node.None?)
    && AllValid(h, f.rest)
    && (k > 0 ==> f.node.value < |h| && forall x :: x in f.rest ==> x in Children(h[f.node.value]))
    && (1 < k ==> walk.frames[k - 1].node.Some? && Edge(h, walk.frames[k - 1].node.value, f.node.value))
  }

  /** The locked nodes are a path down the graph, and the awaited one is the next on it. */
  ghost predicate WalkOk(h: Heap, walk: Walk) {
    && (forall k :: 0 <= k < |walk.frames| ==> FrameOk(h, walk, k))
    && (walk.pending.Some? ==>
          && |walk.frames| > 0 && walk.pending.value < |h|
          && (|walk.frames| > 1 ==> Top(walk).node.Some? && Edge(h, Top(walk).node.value, walk.pending.value)))
  }

  /** An edge that the check still has to follow. */
  ghost predicate Open(walk: Walk, x: nat, y: nat) {
    || walk.pending == Some(x)
    || exists k :: 0 <= k < |walk.frames| && walk.frames[k].node == Some(x) && RefersTo(walk.frames[k].rest, y)
  }

  /** Below what the check has visited, nothing is missing but what it still has to look at. */
  ghost predicate VisitedOk(h: Heap, walk: Walk, visited: set<nat>, v: Var, target: nat) {
    && target !in visited && (forall x :: x in visited ==> x < |h|)
    && (forall x: nat, y: nat :: x in visited && Edge(h, x, y) ==> y in visited || Open(walk, x, y))
    && (IsAggregate(v) ==> v.id in visited || (|walk.frames| > 0 && RefersTo(walk.frames[0].rest, v.id)))
  }

  /** All the check looks at is below the value. */
  ghost predicate BelowOk(h: Heap, walk: Walk, v: Var) {
    && (|walk.frames| > 0 ==> forall x :: x in walk.frames[0].rest ==> x == v)
    && (forall k :: 1 <= k < |walk.frames| && walk.frames[k].node.Some? ==> Leads(h, v, walk.frames[k].node.value))
    && (walk.pending.Some? ==> Leads(h, v, walk.pending.value))
  }

  ghost predicate ThreadOk(h: Heap, t: Thread) {
    match t
    case Idle => true
    case Reading(walk) => WalkOk(h, walk)
    case WantsMutex(receiver, edit) => OperandsValid(h, receiver, edit)
    case Checking(receiver, edit, walk, visited) =>
      && OperandsValid(h, receiver, edit) && Suits(receiver, edit) && Inserted(edit).Some?
      && WalkOk(h, walk) && VisitedOk(h, walk, visited, Inserted(edit).value, receiver.id)
      && BelowOk(h, walk, Inserted(edit).value)
    case WantsWrite(receiver, edit) => Checked(h, receiver, edit)
    case Writing(receiver, edit) => Checked(h, receiver, edit)
  }

  /** The write may go ahead. */
  ghost predicate Checked(h: Heap, receiver: Var, edit: Edit) {
    && OperandsValid(h, receiver, edit) && Suits(receiver, edit)
    && (Inserted(edit).Some? ==> !Leads(h, Inserted(edit).value, receiver.id))
  }

  ghost predicate ThreadsOk(w: World) {
    forall i :: 0 <= i < |w.threads| ==> ThreadOk(w.heap, w.threads[i])
  }

  ghost predicate OneMutex(w: World) {
    forall i, j | 0 <= i < |w.threads| && 0 <= j < |w.threads| ::
      HoldsMutex(w.threads[i]) && HoldsMutex(w.threads[j]) ==> i == j
  }

  ghost predicate NoReadWhileWritten(w: World) {
    forall i, n :: 0 <= i < |w.threads| && HoldsWrite(w.threads[i], n) ==> Unread(w, n)
  }

  ghost predicate Invariant(w: World) {
    WellFormed(w.heap) && Acyclic(w.heap) && ThreadsOk(w) && OneMutex(w) && NoReadWhileWritten(w)
  }

  // ----- walks -----

  lemma AdvanceOk(h: Heap, walk: Walk, pending: Option<nat>)
    requires WalkOk(h, walk) && walk.pending.None? && |walk.frames| > 0 && |Top(walk).rest| > 0 && WellFormed(h)
    requires pending.None? || pending == Reference(Top(walk).rest[0])
    ensures WalkOk(h, Advance(walk, pending))
  {
    var top := |walk.frames| - 1;
    var next := Advance(walk, pending);
    assert FrameOk(h, walk, top);
    var first := Top(walk).rest[0];
    assert first in Top(walk).rest && Valid(h, first);
    if pending.Some? && top > 0 {
      RefersIn(Children(h[Top(walk).node.value]), first);
    }
    forall k | 0 <= k < |next.frames|
      ensures FrameOk(h, next, k)
    {
      assert FrameOk(h, walk, k);
    }
  }

  lemma LeaveOk(h: Heap, walk: Walk)
    requires WalkOk(h, walk) && |walk.frames| > 0
    ensures WalkOk(h, Leave(walk))
  {
    forall k | 0 <= k < |walk.frames| - 1
      ensures FrameOk(h, Leave(walk), k)
    {
      assert FrameOk(h, walk, k);
    }
  }

  lemma EnterOk(h: Heap, walk: Walk)
    requires WalkOk(h, walk) && walk.pending.Some? && WellFormed(h)
    ensures WalkOk(h, Enter(h, walk))
  {
    var next := Enter(h, walk);
    forall k | 0 <= k < |next.frames|
      ensures FrameOk(h, next, k)
    {
      if k < |walk.frames| {
        assert FrameOk(h, walk, k);
      } else if k > 1 {
        assert FrameOk(h, walk, k - 1);
      }
    }
  }

  /** A lock a walk waits for is not one it holds, or the graph would have a cycle. */
  lemma PendingIsNew(h: Heap, walk: Walk, k: nat)
    requires WalkOk(h, walk) && Acyclic(h) && walk.pending.Some? && k < |walk.frames|
    ensures walk.frames[k].node != walk.pending
  {
    assert FrameOk(h, walk, k);
    if k > 0 {
      FramesReach(h, walk, k);
    }
  }

  lemma {:induction false} FramesReach(h: Heap, walk: Walk, k: nat)
    requires WalkOk(h, walk) && 0 < k < |walk.frames|
    ensures walk.frames[k].node.Some? && Top(walk).node.Some?
    ensures Reaches(h, walk.frames[k].node.value, Top(walk).node.value)
    decreases |walk.frames| - k
  {
    assert FrameOk(h, walk, k);
    if k == |walk.frames| - 1 {
      ReachesItself(h, walk.frames[k].node.value);
    } else {
      assert FrameOk(h, walk, k + 1);
      FramesReach(h, walk, k + 1);
      EdgeReaches(h, walk.frames[k].node.value, walk.frames[k + 1].node.value, Top(walk).node.value);
    }
  }

  // ----- the check -----

  lemma OpenAdvanced(walk: Walk, pending: Option<nat>, x: nat, y: nat)
    requires walk.pending.None? && |walk.frames| > 0 && |Top(walk).rest| > 0 && Open(walk, x, y)
    ensures Open(Advance(walk, pending), x, y) || Reference(Top(walk).rest[0]) == Some(y)
  {
    var k :| 0 <= k < |walk.frames| && walk.frames[k].node == Some(x) && RefersTo(walk.frames[k].rest, y);
    var next := Advance(walk, pending);
    if k < |walk.frames| - 1 {
      assert next.frames[k] == walk.frames[k];
    } else {
      if Reference(Top(walk).rest[0]) != Some(y) {
        RestRefers(Top(walk).rest, y);
      }
      assert next.frames[k].node == Some(x);
    }
  }

  lemma RestRefers(vs: seq<Var>, y: nat)
    requires RefersTo(vs, y) && Reference(vs[0]) != Some(y)
    ensures RefersTo(vs[1..], y)
  {
    var i :| 0 <= i < |vs| && IsAggregate(vs[i]) && vs[i].id == y;
    assert vs[1..][i - 1] == vs[i];
  }

  /** Passing over a scalar or a visited node, or visiting a new one. */
  lemma VisitedAdvance(h: Heap, walk: Walk, visited: set<nat>, v: Var, target: nat, pending: Option<nat>)
    requires walk.pending.None? && |walk.frames| > 0 && |Top(walk).rest| > 0
    requires VisitedOk(h, walk, visited, v, target)
    requires var next := Top(walk).rest[0];
             && (IsAggregate(next) ==> next.id != target && next.id < |h|)
             && if IsAggregate(next) && next.id !in visited then pending == Some(next.id) else pending.None?
    ensures VisitedOk(h, Advance(walk, pending), visited + (if pending.Some? then {pending.value} else {}), v, target)
  {
    var next := Top(walk).rest[0];
    var after := visited + (if pending.Some? then {pending.value} else {});
    forall x: nat, y: nat | x in after && Edge(h, x, y)
      ensures y in after || Open(Advance(walk, pending), x, y)
    {
      if x in visited && y !in after {
        OpenAdvanced(walk, pending, x, y);
      }
    }
    if IsAggregate(v) && v.id !in after && |walk.frames| == 1 {
      RestRefers(walk.frames[0].rest, v.id);
    }
  }

  lemma VisitedEnter(h: Heap, walk: Walk, visited: set<nat>, v: Var, target: nat)
    requires walk.pending.Some? && walk.pending.value < |h| && |walk.frames| > 0
    requires VisitedOk(h, walk, visited, v, target)
    ensures VisitedOk(h, Enter(h, walk), visited, v, target)
  {
    var next := Enter(h, walk);
    forall x: nat, y: nat | x in visited && Edge(h, x, y) && y !in visited
      ensures Open(next, x, y)
    {
      if walk.pending == Some(x) {
        assert next.frames[|walk.frames|].node == Some(x);
      } else {
        var k :| 0 <= k < |walk.frames| && walk.frames[k].node == Some(x) && RefersTo(walk.frames[k].rest, y);
        assert next.frames[k] == walk.frames[k];
      }
    }
  }

  lemma VisitedLeave(h: Heap, walk: Walk, visited: set<nat>, v: Var, target: nat)
    requires walk.pending.None? && |walk.frames| > 0 && |Top(walk).rest| == 0
    requires VisitedOk(h, walk, visited, v, target)
    ensures VisitedOk(h, Leave(walk), visited, v, target)
  {
    var next := Leave(walk);
    forall x: nat, y: nat | x in visited && Edge(h, x, y) && y !in visited
      ensures Open(next, x, y)
    {
      var k :| 0 <= k < |walk.frames| && walk.frames[k].node == Some(x) && RefersTo(walk.frames[k].rest, y);
      assert k < |walk.frames| - 1 && next.frames[k] == walk.frames[k];
    }
  }

  /** A check that has looked at everything has decided that the value does not lead to the target. */
  lemma CheckComplete(h: Heap, walk: Walk, visited: set<nat>, v: Var, target: nat)
    requires |walk.frames| == 0 && walk.pending.None? && VisitedOk(h, walk, visited, v, target)
    ensures !Leads(h, v, target)
  {
    if Leads(h, v, target) {
      var p :| Joins(h, p, v.id, target);
      ClosedContains(h, visited, p, v.id, target);
    }
  }

  /** What the check comes to next is below the value. */
  lemma NextIsBelow(h: Heap, walk: Walk, v: Var)
    requires WalkOk(h, walk) && BelowOk(h, walk, v) && walk.pending.None? && |walk.frames| > 0 && |Top(walk).rest| > 0
    requires IsAggregate(Top(walk).rest[0])
    ensures Leads(h, v, Top(walk).rest[0].id)
  {
    var next := Top(walk).rest[0];
    assert next in Top(walk).rest;
    var top := |walk.frames| - 1;
    assert FrameOk(h, walk, top);
    ReachesItself(h, next.id);
    if top > 0 {
      var n := Top(walk).node.value;
      RefersIn(Children(h[n]), next);
      EdgeReaches(h, n, next.id, next.id);
      ReachesTransitive(h, v.id, n, next.id);
    }
  }

  lemma BelowAdvance(h: Heap, walk: Walk, v: Var, pending: Option<nat>)
    requires WalkOk(h, walk) && BelowOk(h, walk, v) && walk.pending.None? && |walk.frames| > 0 && |Top(walk).rest| > 0
    requires pending.None? || pending == Reference(Top(walk).rest[0])
    ensures BelowOk(h, Advance(walk, pending), v)
  {
    if pending.Some? {
      NextIsBelow(h, walk, v);
    }
    var next := Advance(walk, pending);
    forall x | x in next.frames[0].rest
      ensures x == v
    {
      assert x in walk.frames[0].rest;
    }
  }

  lemma BelowEnterLeave(h: Heap, walk: Walk, v: Var)
    requires WalkOk(h, walk) && BelowOk(h, walk, v) && |walk.frames| > 0
    ensures walk.pending.Some? ==> BelowOk(h, Enter(h, walk), v)
    ensures walk.pending.None? ==> BelowOk(h, Leave(walk), v)
  {
  }

  // ----- threads that stay as they are while the heap changes -----

  lemma NewNodeKeepsEdges(h: Heap, node: Node)
    requires WellFormed(h)
    ensures forall x: nat, y: nat :: x < |h| ==> (Edge(h + [node], x, y) <==> Edge(h, x, y))
    ensures forall v :: Valid(h, v) ==> Valid(h + [node], v)
  {
  }

  lemma WalkKept(h: Heap, k: Heap, walk: Walk)
    requires WalkOk(h, walk) && |h| <= |k| && (forall v :: Valid(h, v) ==> Valid(k, v))
    requires forall i, n: nat :: 0 <= i < |walk.frames| && walk.frames[i].node == Some(n) && n < |h| ==> k[n] == h[n]
    ensures WalkOk(k, walk)
  {
    forall i | 0 <= i < |walk.frames|
      ensures FrameOk(k, walk, i)
    {
      assert FrameOk(h, walk, i);
      if i > 1 {
        assert FrameOk(h, walk, i - 1);
      }
    }
    if walk.pending.Some? && |walk.frames| > 1 {
      assert FrameOk(h, walk, |walk.frames| - 1);
    }
  }

  lemma LeadsKept(h: Heap, node: Node, v: Var, n: nat)
    requires WellFormed(h) && Valid(h, v)
    ensures Leads(h + [node], v, n) <==> Leads(h, v, n)
  {
    if IsAggregate(v) {
      NewNodeKeepsReach(h, node, v.id, n);
    }
  }

  lemma VisitedKept(h: Heap, node: Node, walk: Walk, visited: set<nat>, v: Var, target: nat)
    requires WellFormed(h) && VisitedOk(h, walk, visited, v, target)
    ensures VisitedOk(h + [node], walk, visited, v, target)
  {
    NewNodeKeepsEdges(h, node);
  }

  lemma AllocationKeeps(h: Heap, node: Node, t: Thread)
    requires WellFormed(h) && ThreadOk(h, t)
    ensures ThreadOk(h + [node], t)
  {
    var k := h + [node];
    NewNodeKeepsEdges(h, node);
    match t
    case Idle =>
    case Reading(walk) => WalkKept(h, k, walk);
    case WantsMutex(_, _) =>
    case Checking(receiver, edit, walk, visited) =>
      WalkKept(h, k, walk);
      VisitedKept(h, node, walk, visited, Inserted(edit).value, receiver.id);
      forall n: nat
        ensures Leads(k, Inserted(edit).value, n) <==> Leads(h, Inserted(edit).value, n)
      {
        LeadsKept(h, node, Inserted(edit).value, n);
      }
    case WantsWrite(receiver, edit) =>
      if Inserted(edit).Some? {
        LeadsKept(h, node, Inserted(edit).value, receiver.id);
      }
    case Writing(receiver, edit) =>
      if Inserted(edit).Some? {
        LeadsKept(h, node, Inserted(edit).value, receiver.id);
      }
  }

  /** A write leaves alone every thread that does not read the node and holds no mutex. */
  lemma WriteKeeps(h: Heap, receiver: Var, edit: Edit, t: Thread)
    requires WellFormed(h) && Checked(h, receiver, edit) && ThreadOk(h, t)
    requires !HoldsMutex(t) && !HoldsRead(t, receiver.id)
    ensures ThreadOk(Written(h, receiver, edit), t)
  {
    var k := Written(h, receiver, edit);
    if Apply(edit, h[receiver.id]).Some? {
      EditedChildren(edit, h[receiver.id]);
    }
    assert forall v :: Valid(h, v) ==> Valid(k, v);
    if t.Reading? {
      WalkKept(h, k, t.walk);
    }
  }

  /** The write itself keeps the graph acyclic. */
  lemma WrittenAcyclic(h: Heap, receiver: Var, edit: Edit)
    requires WellFormed(h) && Acyclic(h) && Checked(h, receiver, edit)
    ensures WellFormed(Written(h, receiver, edit)) && Acyclic(Written(h, receiver, edit))
    ensures Written(h, receiver, edit) == Mutate(h, receiver, edit).0
  {
    MutationKeepsAcyclic(h, receiver, edit);
    if Inserted(edit).Some? {
      SearchDecidesReach(h, Inserted(edit).value, receiver.id);
    }
  }

  // ----- what one thread does -----

  lemma StartWalkOk(h: Heap, v: Var)
    requires Valid(h, v)
    ensures WalkOk(h, StartWalk(v)) && BelowOk(h, StartWalk(v), v)
    ensures forall target: nat :: VisitedOk(h, StartWalk(v), {}, v, target)
  {
    assert FrameOk(h, StartWalk(v), 0);
    assert StartWalk(v).frames[0].rest[0] == v;
  }

  lemma LockedOk(h: Heap, receiver: Var, edit: Edit)
    requires OperandsValid(h, receiver, edit)
    ensures ThreadOk(h, Locked(receiver, edit))
  {
    if Inserted(edit).Some? {
      StartWalkOk(h, Inserted(edit).value);
    }
  }

  lemma ReaderNextOk(h: Heap, walk: Walk)
    requires WellFormed(h) && WalkOk(h, walk) && walk.pending.None?
    ensures ThreadOk(h, ReaderNext(walk))
  {
    if |walk.frames| > 0 {
      if |Top(walk).rest| == 0 {
        LeaveOk(h, walk);
      } else {
        AdvanceOk(h, walk, Reference(Top(walk).rest[0]));
      }
    }
  }

  lemma CheckNextOk(h: Heap, t: Thread)
    requires WellFormed(h) && ThreadOk(h, t) && t.Checking? && t.walk.pending.None?
    ensures ThreadOk(h, CheckNext(t))
  {
    var walk, v, target := t.walk, Inserted(t.edit).value, t.receiver.id;
    if |walk.frames| == 0 {
      CheckComplete(h, walk, t.visited, v, target);
    } else if |Top(walk).rest| == 0 {
      LeaveOk(h, walk);
      VisitedLeave(h, walk, t.visited, v, target);
      BelowEnterLeave(h, walk, v);
    } else {
      CheckAdvanceOk(h, t);
    }
  }

  lemma CheckAdvanceOk(h: Heap, t: Thread)
    requires WellFormed(h) && ThreadOk(h, t) && t.Checking? && t.walk.pending.None?
    requires |t.walk.frames| > 0 && |Top(t.walk).rest| > 0
    ensures ThreadOk(h, CheckNext(t))
  {
    var walk, v, target := t.walk, Inserted(t.edit).value, t.receiver.id;
    var next := Top(walk).rest[0];
    assert FrameOk(h, walk, |walk.frames| - 1);
    assert next in Top(walk).rest && Valid(h, next);
    if !(IsAggregate(next) && next.id == target) {
      var pending := if IsAggregate(next) && next.id !in t.visited then Some(next.id) else None;
      AdvanceOk(h, walk, pending);
      VisitedAdvance(h, walk, t.visited, v, target, pending);
      BelowAdvance(h, walk, v, pending);
      assert t.visited + {} == t.visited;
    }
  }

  lemma EnterThreadOk(h: Heap, t: Thread)
    requires WellFormed(h) && ThreadOk(h, t) && Walking(t) && t.walk.pending.Some?
    ensures ThreadOk(h, t.(walk := Enter(h, t.walk)))
  {
    EnterOk(h, t.walk);
    if t.Checking? {
      VisitedEnter(h, t.walk, t.visited, Inserted(t.edit).value, t.receiver.id);
      BelowEnterLeave(h, t.walk, Inserted(t.edit).value);
    }
  }

  /** What a thread may become without disturbing the others. */
  ghost predicate MayBecome(w: World, i: nat, t: Thread)
    requires i < |w.threads|
  {
    && ThreadOk(w.heap, t)
    && (HoldsMutex(t) ==> HoldsMutex(w.threads[i]) || MutexFree(w))
    && (forall n :: HoldsRead(t, n) ==> HoldsRead(w.threads[i], n) || Unwritten(w, n))
    && (forall n :: HoldsWrite(t, n) ==> HoldsWrite(w.threads[i], n) || Unread(w, n))
  }

  lemma WrittenIsUnread(w: World, j: nat, n: nat)
    requires NoReadWhileWritten(w) && j < |w.threads| && HoldsWrite(w.threads[j], n)
    ensures Unread(w, n)
  {
  }

  lemma NotReading(w: World, n: nat, m: nat)
    requires Unread(w, n) && m < |w.threads|
    ensures !HoldsRead(w.threads[m], n)
  {
  }

  lemma BecomeKeeps(w: World, i: nat, t: Thread)
    requires Invariant(w) && i < |w.threads| && MayBecome(w, i, t)
    ensures Invariant(Become(w, i, t))
  {
    var k := Become(w, i, t);
    forall j, n | 0 <= j < |k.threads| && HoldsWrite(k.threads[j], n)
      ensures Unread(k, n)
    {
      forall m | 0 <= m < |k.threads|
        ensures !HoldsRead(k.threads[m], n)
      {
        if j != i {
          WrittenIsUnread(w, j, n);
          NotReading(w, n, m);
        } else if m != i {
          NotReading(w, n, m);
        }
      }
    }
  }

  /** Reading on, a thread holds no lock it did not hold; entering, it holds the one it waited for. */
  lemma NextHolds(w: World, i: nat, t: Thread, n: nat)
    requires i < |w.threads| && HoldsRead(t, n) && Walking(w.threads[i])
    requires var walk := w.threads[i].walk;
             || (|walk.frames| > 0 && t.walk == Leave(walk))
             || (|walk.frames| > 0 && |Top(walk).rest| > 0 && exists p :: t.walk == Advance(walk, p))
             || (walk.pending.Some? && walk.pending.value < |w.heap| && t.walk == Enter(w.heap, walk)
                 && Unwritten(w, walk.pending.value))
    ensures HoldsRead(w.threads[i], n) || Unwritten(w, n)
  {
    var walk := w.threads[i].walk;
    var k :| 0 <= k < |t.walk.frames| && t.walk.frames[k].node == Some(n);
    if k < |walk.frames| {
      assert walk.frames[k].node == Some(n);
    }
  }

  /** Every step of every thread keeps the invariant. */
  lemma StepKeepsInvariant(w: World, i: nat, a: Action)
    requires Invariant(w) && i < |w.threads| && Act(w, i, a).Some?
    ensures Invariant(Act(w, i, a).value)
  {
    var t, k := w.threads[i], Act(w, i, a).value;
    assert ThreadOk(w.heap, t);
    match a
    case Allocate(node) => AllocateKeeps(w, i, node);
    case Read(v) =>
      StartWalkOk(w.heap, v);
      BecomeKeeps(w, i, k.threads[i]);
    case Start(_, _) => BecomeKeeps(w, i, k.threads[i]);
    case Skip =>
      AdvanceOk(w.heap, t.walk, None);
      SkipMay(w, i);
      BecomeKeeps(w, i, k.threads[i]);
    case Go =>
      if t.Writing? {
        WritingKeeps(w, i);
      } else {
        GoMay(w, i);
        BecomeKeeps(w, i, k.threads[i]);
      }
  }

  lemma AllocateKeeps(w: World, i: nat, node: Node)
    requires Invariant(w) && i < |w.threads| && w.threads[i].Idle? && AllValid(w.heap, Children(node))
    ensures Invariant(w.(heap := w.heap + [node]))
  {
    NewNodeKeepsAcyclic(w.heap, node);
    forall j | 0 <= j < |w.threads|
      ensures ThreadOk(w.heap + [node], w.threads[j])
    {
      AllocationKeeps(w.heap, node, w.threads[j]);
    }
    var k := w.(heap := w.heap + [node]);
    forall j, n | 0 <= j < |k.threads| && HoldsWrite(k.threads[j], n)
      ensures Unread(k, n)
    {
      WrittenIsUnread(w, j, n);
    }
  }

  lemma SkipMay(w: World, i: nat)
    requires Invariant(w) && i < |w.threads| && Act(w, i, Skip).Some?
    requires ThreadOk(w.heap, Act(w, i, Skip).value.threads[i])
    ensures MayBecome(w, i, Act(w, i, Skip).value.threads[i])
  {
    var t := Act(w, i, Skip).value.threads[i];
    forall n | HoldsRead(t, n)
      ensures HoldsRead(w.threads[i], n) || Unwritten(w, n)
    {
      assert t.walk == Advance(w.threads[i].walk, None);
      NextHolds(w, i, t, n);
    }
  }

  lemma GoMay(w: World, i: nat)
    requires Invariant(w) && i < |w.threads| && Act(w, i, Go).Some? && !w.threads[i].Writing?
    ensures MayBecome(w, i, Act(w, i, Go).value.threads[i])
    ensures Act(w, i, Go).value == Become(w, i, Act(w, i, Go).value.threads[i])
  {
    var t, u := w.threads[i], Act(w, i, Go).value.threads[i];
    assert ThreadOk(w.heap, t);
    if t.WantsMutex? {
      LockedOk(w.heap, t.receiver, t.edit);
    } else if Walking(t) {
      WalkMay(w, i);
    }
  }

  lemma WalkMay(w: World, i: nat)
    requires Invariant(w) && i < |w.threads| && Act(w, i, Go).Some? && Walking(w.threads[i])
    ensures MayBecome(w, i, Act(w, i, Go).value.threads[i])
  {
    var t, u := w.threads[i], Act(w, i, Go).value.threads[i];
    assert ThreadOk(w.heap, t);
    if t.walk.pending.Some? {
      EnterThreadOk(w.heap, t);
    } else if t.Reading? {
      ReaderNextOk(w.heap, t.walk);
    } else {
      CheckNextOk(w.heap, t);
    }
    forall n | HoldsRead(u, n)
      ensures HoldsRead(w.threads[i], n) || Unwritten(w, n)
    {
      NextHolds(w, i, u, n);
    }
  }

  lemma WritingKeeps(w: World, i: nat)
    requires Invariant(w) && i < |w.threads| && w.threads[i].Writing?
    ensures Invariant(Act(w, i, Go).value)
  {
    var t, k := w.threads[i], Act(w, i, Go).value;
    assert ThreadOk(w.heap, t);
    WrittenAcyclic(w.heap, t.receiver, t.edit);
    assert HoldsWrite(t, t.receiver.id);
    forall j | 0 <= j < |k.threads|
      ensures ThreadOk(k.heap, k.threads[j])
    {
      if j != i {
        WrittenIsUnread(w, i, t.receiver.id);
        NotReading(w, t.receiver.id, j);
        WriteKeeps(w.heap, t.receiver, t.edit, w.threads[j]);
      }
    }
  }

  // ----- whole runs -----

  /** Threads take turns in any order, each doing anything it can. */
  ghost predicate IsRun(run: seq<World>) {
    && |run| > 0
    && WellFormed(run[0].heap) && Acyclic(run[0].heap)
    && (forall i :: 0 <= i < |run[0].threads| ==> run[0].threads[i].Idle?)
    && forall k :: 0 <= k < |run| - 1 ==> Follows(run[k], run[k + 1])
  }

  ghost predicate Follows(w: World, k: World) {
    exists i: nat, a :: i < |w.threads| && Act(w, i, a) == Some(k)
  }

  lemma ShorterRun(run: seq<World>)
    requires IsRun(run) && |run| > 1
    ensures IsRun(run[..|run| - 1])
  {
    var before := run[..|run| - 1];
    forall k | 0 <= k < |before| - 1
      ensures Follows(before[k], before[k + 1])
    {
      assert Follows(run[k], run[k + 1]);
    }
  }

  lemma FollowingKeepsInvariant(w: World, k: World)
    requires Invariant(w) && Follows(w, k)
    ensures Invariant(k)
  {
    var i: nat, a :| i < |w.threads| && Act(w, i, a) == Some(k);
    StepKeepsInvariant(w, i, a);
  }

  lemma {:induction false} RunsKeepInvariant(run: seq<World>)
    requires IsRun(run)
    ensures Invariant(run[|run| - 1])
    decreases |run|
  {
    if |run| > 1 {
      ShorterRun(run);
      RunsKeepInvariant(run[..|run| - 1]);
      assert Follows(run[|run| - 2], run[|run| - 1]);
      FollowingKeepsInvariant(run[|run| - 2], run[|run| - 1]);
    }
  }

  /** In every interleaving, the graph is acyclic at every moment. */
  lemma AlwaysAcyclic(run: seq<World>)
    requires IsRun(run)
    ensures Acyclic(run[|run| - 1].heap)
  {
    RunsKeepInvariant(run);
  }

  // ----- deadlock -----

  /** Even if a thread waiting to write keeps new readers out. */
  predicate CanGo(w: World, i: nat)
    requires i < |w.threads|
  {
    && Act(w, i, Go).Some?
    && (Walking(w.threads[i]) && w.threads[i].walk.pending.Some? ==> Unawaited(w, w.threads[i].walk.pending.value))
  }

  /** No thread asks for a lock that it holds. */
  lemma NoLockTwice(w: World, i: nat)
    requires Invariant(w) && i < |w.threads|
    ensures var t := w.threads[i];
            && (Walking(t) && t.walk.pending.Some? ==> !HoldsRead(t, t.walk.pending.value))
            && (t.WantsWrite? ==> forall n :: !HoldsRead(t, n))
  {
    var t := w.threads[i];
    assert ThreadOk(w.heap, t);
    if Walking(t) && t.walk.pending.Some? && HoldsRead(t, t.walk.pending.value) {
      var k :| 0 <= k < |t.walk.frames| && t.walk.frames[k].node == Some(t.walk.pending.value);
      PendingIsNew(w.heap, t.walk, k);
    }
  }

  /** A reader is held up only by a writer of the very node it waits for. */
  lemma ReaderGoes(w: World, i: nat)
    requires Invariant(w) && i < |w.threads| && Walking(w.threads[i])
    requires w.threads[i].walk.pending.Some? ==>
               Unwritten(w, w.threads[i].walk.pending.value) && Unawaited(w, w.threads[i].walk.pending.value)
    ensures CanGo(w, i)
  {
    assert ThreadOk(w.heap, w.threads[i]);
  }

  predicate AllIdle(w: World) {
    forall j :: 0 <= j < |w.threads| ==> w.threads[j].Idle?
  }

  lemma HolderGoes(w: World, m: nat) returns (i: nat)
    requires Invariant(w) && m < |w.threads| && HoldsMutex(w.threads[m])
    ensures i < |w.threads| && !w.threads[i].Idle? && CanGo(w, i)
  {
    var t := w.threads[m];
    assert ThreadOk(w.heap, t);
    i := m;
    if t.Checking? {
      OnlyHolderWrites(w, m);
      ReaderGoes(w, m);
    } else if t.WantsWrite? {
      OnlyHolderWrites(w, m);
      if !Unread(w, t.receiver.id) {
        i :| 0 <= i < |w.threads| && HoldsRead(w.threads[i], t.receiver.id);
        var r := w.threads[i];
        assert ThreadOk(w.heap, r);
        NoLockTwice(w, i);
        if r.walk.pending.Some? {
          assert r.walk.pending.value != t.receiver.id;
        }
        ReaderGoes(w, i);
      }
    }
  }

  lemma OnlyHolderWrites(w: World, m: nat)
    requires Invariant(w) && m < |w.threads| && HoldsMutex(w.threads[m])
    ensures forall j, n :: 0 <= j < |w.threads| && (HoldsWrite(w.threads[j], n) || AwaitsWrite(w.threads[j], n)) ==>
              j == m
  {
  }

  lemma SomeGoes(w: World) returns (i: nat)
    requires Invariant(w) && !AllIdle(w)
    ensures i < |w.threads| && !w.threads[i].Idle? && CanGo(w, i)
  {
    if MutexFree(w) {
      i :| 0 <= i < |w.threads| && !w.threads[i].Idle?;
      if Walking(w.threads[i]) {
        ReaderGoes(w, i);
      }
    } else {
      var m :| 0 <= m < |w.threads| && HoldsMutex(w.threads[m]);
      i := HolderGoes(w, m);
    }
  }

  /** In every state that can be reached, if some thread is not finished, some such thread can go on. */
  lemma NoDeadlock(run: seq<World>) returns (i: nat)
    requires IsRun(run)
    requires !AllIdle(run[|run| - 1])
    ensures var w := run[|run| - 1];
            i < |w.threads| && !w.threads[i].Idle? && CanGo(w, i)
  {
    RunsKeepInvariant(run);
    i := SomeGoes(run[|run| - 1]);
  }

  // ----- mutations as others see them -----

  /** A thread inside a mutation. */
  predicate Mutating(t: Thread) {
    t.WantsMutex? || t.Checking? || t.WantsWrite? || t.Writing?
  }

  /**
   Mutations are atomic: until its last step a mutation changes nothing, and its last step does to the
   heap of that moment what the whole mutation would have done to it at once.
   */
  lemma MutationsAreAtomic(w: World, i: nat)
    requires Invariant(w) && i < |w.threads| && Mutating(w.threads[i]) && Act(w, i, Go).Some?
    ensures var t, k := w.threads[i], Act(w, i, Go).value;
            && OperandsValid(w.heap, t.receiver, t.edit)
            && (if k.threads[i].Idle? then k.heap == Mutate(w.heap, t.receiver, t.edit).0 else k.heap == w.heap)
            && (t.WantsMutex? && k.threads[i].Idle? ==> Mutate(w.heap, t.receiver, t.edit).1 == Failure(WrongKind))
            && (t.Checking? && k.threads[i].Idle? ==> Mutate(w.heap, t.receiver, t.edit).1 == Failure(WouldCycle))
  {
    var t, k := w.threads[i], Act(w, i, Go).value;
    assert ThreadOk(w.heap, t);
    if t.Writing? {
      WrittenAcyclic(w.heap, t.receiver, t.edit);
    } else if t.Checking? && k.threads[i].Idle? {
      NextIsBelow(w.heap, t.walk, Inserted(t.edit).value);
      SearchDecidesReach(w.heap, Inserted(t.edit).value, t.receiver.id);
    }
  }
}
