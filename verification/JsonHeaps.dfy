/**
 JSON values whose arrays and objects are nodes shared by reference, and the graph they form. Nodes
 are numbered in the order they were made and never reused.
 */
module JsonHeaps {
  import opened Wrappers

  /** `Number` stands for any number that can be written in JSON. */
  datatype Var = Null | Bool(b: bool) | Number(digits: string) | Text(text: string) | Array(id: nat) | Object(id: nat)

  /** An object keeps its members ordered by name. */
  datatype Node = Elements(values: seq<Var>) | Members(fields: seq<(string, Var)>)

  type Heap = seq<Node>

  function Values<V>(fields: seq<(string, V)>): (vs: seq<V>)
    ensures |vs| == |fields| && forall i :: 0 <= i < |fields| ==> vs[i] == fields[i].1
  {
    seq(|fields|, i requires 0 <= i < |fields| => fields[i].1)
  }

  function Children(node: Node): seq<Var> {
    match node
    case Elements(values) => values
    case Members(fields) => Values(fields)
  }

  predicate IsAggregate(v: Var) {
    v.Array? || v.Object?
  }

  /** A reference leads to a node of its kind. */
  predicate Valid(h: Heap, v: Var) {
    match v
    case Array(id) => id < |h| && h[id].Elements?
    case Object(id) => id < |h| && h[id].Members?
    case _ => true
  }

  predicate AllValid(h: Heap, vs: seq<Var>) {
    forall i :: 0 <= i < |vs| ==> Valid(h, vs[i])
  }

  ghost predicate WellFormed(h: Heap) {
    forall u :: 0 <= u < |h| ==> AllValid(h, Children(h[u]))
  }

  predicate RefersTo(vs: seq<Var>, id: nat) {
    exists i :: 0 <= i < |vs| && IsAggregate(vs[i]) && vs[i].id == id
  }

  ghost predicate Edge(h: Heap, u: nat, v: nat) {
    u < |h| && RefersTo(Children(h[u]), v)
  }

  // ----- reachability -----

  ghost predicate IsPath(h: Heap, p: seq<nat>) {
    |p| > 0 && forall i :: 0 <= i < |p| - 1 ==> Edge(h, p[i], p[i + 1])
  }

  ghost predicate Joins(h: Heap, p: seq<nat>, u: nat, v: nat) {
    IsPath(h, p) && p[0] == u && p[|p| - 1] == v
  }

  ghost predicate Reaches(h: Heap, u: nat, v: nat) {
    exists p :: Joins(h, p, u, v)
  }

  /** No node is below itself. */
  ghost predicate Acyclic(h: Heap) {
    forall u, v :: Edge(h, u, v) ==> !Reaches(h, v, u)
  }

  /** Whether the aggregate `v` refers to, if any, reaches the node. */
  ghost predicate Leads(h: Heap, v: Var, target: nat) {
    IsAggregate(v) && Reaches(h, v.id, target)
  }

  lemma ReachesItself(h: Heap, u: nat)
    ensures Reaches(h, u, u)
  {
    assert Joins(h, [u], u, u);
  }

  lemma EdgeReaches(h: Heap, u: nat, v: nat, w: nat)
    requires Edge(h, u, v) && Reaches(h, v, w)
    ensures Reaches(h, u, w)
  {
    var p :| Joins(h, p, v, w);
    var q := [u] + p;
    forall i | 0 <= i < |q| - 1
      ensures Edge(h, q[i], q[i + 1])
    {
      if i > 0 {
        assert Edge(h, p[i - 1], p[i]);
      }
    }
    assert Joins(h, q, u, w);
  }

  /** The rest of a path of more than one node. */
  lemma TailJoins(h: Heap, p: seq<nat>, w: nat)
    requires |p| > 1 && Joins(h, p, p[0], w)
    ensures Edge(h, p[0], p[1]) && Joins(h, p[1..], p[1], w)
  {
    forall i | 0 <= i < |p[1..]| - 1
      ensures Edge(h, p[1..][i], p[1..][i + 1])
    {
      assert Edge(h, p[i + 1], p[i + 2]);
    }
  }

  /** A path that goes somewhere else begins with an edge. */
  lemma FirstEdge(h: Heap, u: nat, w: nat) returns (v: nat)
    requires Reaches(h, u, w) && u != w
    ensures Edge(h, u, v) && Reaches(h, v, w)
  {
    var p :| Joins(h, p, u, w);
    v := p[1];
    TailJoins(h, p, w);
  }

  lemma {:induction false} PathReaches(h: Heap, p: seq<nat>, u: nat, v: nat, w: nat)
    requires Joins(h, p, u, v) && Reaches(h, v, w)
    ensures Reaches(h, u, w)
    decreases |p|
  {
    if |p| > 1 {
      TailJoins(h, p, v);
      PathReaches(h, p[1..], p[1], v, w);
      EdgeReaches(h, u, p[1], w);
    }
  }

  lemma ReachesTransitive(h: Heap, u: nat, v: nat, w: nat)
    requires Reaches(h, u, v) && Reaches(h, v, w)
    ensures Reaches(h, u, w)
  {
    var p :| Joins(h, p, u, v);
    PathReaches(h, p, u, v, w);
  }

  lemma ReachesExisting(h: Heap, u: nat, v: nat)
    requires WellFormed(h) && Reaches(h, u, v) && u < |h|
    ensures v < |h|
  {
    var p :| Joins(h, p, u, v);
    if |p| > 1 {
      assert Edge(h, p[|p| - 2], p[|p| - 1]);
    }
  }

  /** A set closed under edges contains all that its members reach. */
  lemma {:induction false} ClosedContains(h: Heap, closed: set<nat>, p: seq<nat>, u: nat, v: nat)
    requires forall x, y :: x in closed && Edge(h, x, y) ==> y in closed
    requires u in closed && Joins(h, p, u, v)
    ensures v in closed
    decreases |p|
  {
    if |p| > 1 {
      TailJoins(h, p, v);
      ClosedContains(h, closed, p[1..], p[1], v);
    }
  }

  // ----- changing one node -----

  /** `k` is `h` with node `u` changed; its edges are old ones and perhaps one to `t`. */
  ghost predicate Rewired(h: Heap, k: Heap, u: nat, t: Option<nat>) {
    && |k| == |h| && u < |h|
    && (forall x :: 0 <= x < |h| && x != u ==> k[x] == h[x])
    && (forall y: nat :: Edge(k, u, y) ==> Edge(h, u, y) || t == Some(y))
  }

  lemma {:induction false} PathToChanged(h: Heap, k: Heap, u: nat, t: Option<nat>, p: seq<nat>, a: nat)
    requires Rewired(h, k, u, t) && Joins(k, p, a, u)
    ensures Reaches(h, a, u)
    decreases |p|
  {
    if a == u {
      ReachesItself(h, u);
    } else {
      TailJoins(k, p, u);
      PathToChanged(h, k, u, t, p[1..], p[1]);
      assert Edge(h, a, p[1]);
      EdgeReaches(h, a, p[1], u);
    }
  }

  /** A path of the new graph is one of the old graph, or passes through the changed node. */
  lemma {:induction false} PathThroughChanged(h: Heap, k: Heap, u: nat, t: Option<nat>, p: seq<nat>, a: nat, b: nat)
    requires Rewired(h, k, u, t) && Joins(k, p, a, b)
    ensures Reaches(h, a, b) || (Reaches(k, a, u) && Reaches(k, u, b))
    decreases |p|
  {
    if |p| == 1 {
      ReachesItself(h, a);
    } else if a == u {
      ReachesItself(k, u);
    } else {
      TailJoins(k, p, b);
      PathThroughChanged(h, k, u, t, p[1..], p[1], b);
      assert Edge(h, a, p[1]);
      if Reaches(h, p[1], b) {
        EdgeReaches(h, a, p[1], b);
      } else {
        EdgeReaches(k, a, p[1], u);
      }
    }
  }

  lemma NoCycleAtChanged(h: Heap, k: Heap, u: nat, t: Option<nat>, y: nat)
    requires Acyclic(h) && Rewired(h, k, u, t) && (t.Some? ==> !Reaches(h, t.value, u))
    requires Edge(k, u, y)
    ensures !Reaches(k, y, u)
  {
    if Reaches(k, y, u) {
      var p :| Joins(k, p, y, u);
      PathToChanged(h, k, u, t, p, y);
    }
  }

  /** Adding an edge to a node that does not lead back keeps the graph acyclic. */
  lemma RewiringKeepsAcyclic(h: Heap, k: Heap, u: nat, t: Option<nat>)
    requires Acyclic(h) && Rewired(h, k, u, t) && (t.Some? ==> !Reaches(h, t.value, u))
    ensures Acyclic(k)
  {
    forall x: nat, y: nat | Edge(k, x, y)
      ensures !Reaches(k, y, x)
    {
      if Reaches(k, y, x) {
        if x == u {
          NoCycleAtChanged(h, k, u, t, y);
        } else {
          var p :| Joins(k, p, y, x);
          PathThroughChanged(h, k, u, t, p, y, x);
          assert Edge(h, x, y);
          var c := FirstEdge(k, u, x);
          EdgeReaches(k, x, y, u);
          ReachesTransitive(k, c, x, u);
          NoCycleAtChanged(h, k, u, t, c);
        }
      }
    }
  }

  /** And to a node that does lead back, it makes a cycle. */
  lemma RewiringMakesCycle(h: Heap, k: Heap, u: nat, t: nat)
    requires Rewired(h, k, u, Some(t)) && Edge(k, u, t) && Reaches(h, t, u)
    ensures !Acyclic(k)
  {
    var p :| Joins(h, p, t, u);
    PathKept(h, k, u, Some(t), p, t);
  }

  lemma {:induction false} PathKept(h: Heap, k: Heap, u: nat, t: Option<nat>, p: seq<nat>, a: nat)
    requires Rewired(h, k, u, t) && Joins(h, p, a, u)
    ensures Reaches(k, a, u)
    decreases |p|
  {
    if a == u {
      ReachesItself(k, u);
    } else {
      TailJoins(h, p, u);
      PathKept(h, k, u, t, p[1..], p[1]);
      assert Edge(k, a, p[1]);
      EdgeReaches(k, a, p[1], u);
    }
  }

  // ----- adding a node -----

  lemma {:induction false} PathBeforeNew(h: Heap, node: Node, p: seq<nat>, a: nat, b: nat)
    requires WellFormed(h) && Joins(h + [node], p, a, b) && a < |h|
    ensures Reaches(h, a, b)
    decreases |p|
  {
    if |p| == 1 {
      ReachesItself(h, a);
    } else {
      var k := h + [node];
      TailJoins(k, p, b);
      assert Edge(h, a, p[1]);
      PathBeforeNew(h, node, p[1..], p[1], b);
      EdgeReaches(h, a, p[1], b);
    }
  }

  /** A new node whose children existed before is below nothing. */
  lemma NewNodeKeepsAcyclic(h: Heap, node: Node)
    requires WellFormed(h) && Acyclic(h) && AllValid(h, Children(node))
    ensures WellFormed(h + [node]) && Acyclic(h + [node])
  {
    var k := h + [node];
    forall x: nat, y: nat | Edge(k, x, y)
      ensures !Reaches(k, y, x)
    {
      if Reaches(k, y, x) {
        var p :| Joins(k, p, y, x);
        PathBeforeNew(h, node, p, y, x);
        if x >= |h| {
          ReachesExisting(h, y, x);
        }
      }
    }
  }

  /** What old nodes reach does not change when one is added. */
  lemma NewNodeKeepsReach(h: Heap, node: Node, a: nat, b: nat)
    requires WellFormed(h) && a < |h|
    ensures Reaches(h + [node], a, b) <==> Reaches(h, a, b)
  {
    var k := h + [node];
    if Reaches(k, a, b) {
      var p :| Joins(k, p, a, b);
      PathBeforeNew(h, node, p, a, b);
    }
    if Reaches(h, a, b) {
      var p :| Joins(h, p, a, b);
      forall i | 0 <= i < |p| - 1
        ensures Edge(k, p[i], p[i + 1])
      {
        assert Edge(h, p[i], p[i + 1]);
      }
      assert Joins(k, p, a, b);
    }
  }

  // ----- heights -----

  ghost function Below(h: Heap, u: nat): set<nat> {
    set v | 0 <= v < |h| && Reaches(h, u, v)
  }

  /** On an acyclic graph the number of nodes below a node falls along every edge. */
  lemma HeightFalls(h: Heap, u: nat, v: nat)
    requires WellFormed(h) && Acyclic(h) && Edge(h, u, v)
    ensures |Below(h, v)| < |Below(h, u)|
  {
    forall w | w in Below(h, v)
      ensures w in Below(h, u)
    {
      EdgeReaches(h, u, v, w);
    }
    ReachesItself(h, u);
    assert u in Below(h, u) && u !in Below(h, v);
    Proper(Below(h, v), Below(h, u));
  }

  lemma Proper(a: set<nat>, b: set<nat>)
    requires a < b
    ensures |a| < |b|
  {
    var x :| x in b && x !in a;
    assert a <= b - {x};
    Subset(a, b - {x});
  }

  lemma {:induction false} Subset(a: set<nat>, b: set<nat>)
    requires a <= b
    ensures |a| <= |b|
    decreases |a|
  {
    if a != {} {
      var x :| x in a;
      Subset(a - {x}, b - {x});
    }
  }

  ghost function Height(h: Heap, v: Var): nat {
    if IsAggregate(v) then |Below(h, v.id)| + 1 else 0
  }
}
