/** Finite graphs, given by the successors of each node, and what can be reached in them. */
module Graphs {

  type Graph<T> = map<T, set<T>>

  predicate Edge<T(==)>(g: Graph<T>, u: T, v: T) {
    u in g && v in g[u]
  }

  ghost predicate IsPath<T(!new)>(g: Graph<T>, p: seq<T>) {
    |p| > 0 && forall i :: 0 <= i < |p| - 1 ==> Edge(g, p[i], p[i + 1])
  }

  ghost predicate Joins<T(!new)>(g: Graph<T>, p: seq<T>, u: T, v: T) {
    IsPath(g, p) && p[0] == u && p[|p| - 1] == v
  }

  ghost predicate Reaches<T(!new)>(g: Graph<T>, u: T, v: T) {
    exists p: seq<T> :: Joins(g, p, u, v)
  }

  /** The node is on a cycle. */
  ghost predicate OnCycle<T(!new)>(g: Graph<T>, u: T) {
    u in g && exists v :: v in g[u] && Reaches(g, v, u)
  }

  lemma ReachesItself<T(!new)>(g: Graph<T>, u: T)
    ensures Reaches(g, u, u)
  {
    assert Joins(g, [u], u, u);
  }

  lemma EdgeReaches<T(!new)>(g: Graph<T>, u: T, v: T, w: T)
    requires Edge(g, u, v) && Reaches(g, v, w)
    ensures Reaches(g, u, w)
  {
    var p :| Joins(g, p, v, w);
    var q := [u] + p;
    forall i | 0 <= i < |q| - 1
      ensures Edge(g, q[i], q[i + 1])
    {
      if i > 0 {
        assert Edge(g, p[i - 1], p[i]);
      }
    }
    assert Joins(g, q, u, w);
  }

  /** The rest of a path of more than one node. */
  lemma TailJoins<T(!new)>(g: Graph<T>, p: seq<T>, w: T)
    requires |p| > 1 && Joins(g, p, p[0], w)
    ensures Edge(g, p[0], p[1]) && Joins(g, p[1..], p[1], w)
  {
    forall i | 0 <= i < |p[1..]| - 1
      ensures Edge(g, p[1..][i], p[1..][i + 1])
    {
      assert Edge(g, p[i + 1], p[i + 2]);
    }
  }

  lemma {:induction false} PathReaches<T(!new)>(g: Graph<T>, p: seq<T>, u: T, v: T, w: T)
    requires Joins(g, p, u, v) && Reaches(g, v, w)
    ensures Reaches(g, u, w)
    decreases |p|
  {
    if |p| > 1 {
      TailJoins(g, p, v);
      PathReaches(g, p[1..], p[1], v, w);
      EdgeReaches(g, u, p[1], w);
    }
  }

  lemma ReachesTransitive<T(!new)>(g: Graph<T>, u: T, v: T, w: T)
    requires Reaches(g, u, v) && Reaches(g, v, w)
    ensures Reaches(g, u, w)
  {
    var p :| Joins(g, p, u, v);
    PathReaches(g, p, u, v, w);
  }

  lemma ReachesOver<T(!new)>(g: Graph<T>, u: T, v: T, w: T)
    requires Reaches(g, u, v) && Edge(g, v, w)
    ensures Reaches(g, u, w)
  {
    ReachesItself(g, w);
    EdgeReaches(g, v, w, w);
    ReachesTransitive(g, u, v, w);
  }

  /** A set closed under edges contains all that its members reach. */
  lemma {:induction false} ClosedContains<T(!new)>(g: Graph<T>, closed: set<T>, p: seq<T>, u: T, v: T)
    requires forall x, y :: x in closed && Edge(g, x, y) ==> y in closed
    requires u in closed && Joins(g, p, u, v)
    ensures v in closed
    decreases |p|
  {
    if |p| > 1 {
      TailJoins(g, p, v);
      ClosedContains(g, closed, p[1..], p[1], v);
    }
  }

  lemma CycleEdge<T(!new)>(g: Graph<T>, u: T) returns (v: T)
    requires OnCycle(g, u)
    ensures Edge(g, u, v) && Reaches(g, v, u)
  {
    v :| v in g[u] && Reaches(g, v, u);
  }

  /** A path around a cycle. */
  lemma CyclePath<T(!new)>(g: Graph<T>, u: T) returns (p: seq<T>)
    requires OnCycle(g, u)
    ensures Joins(g, p, u, u) && |p| > 1
  {
    var v := CycleEdge(g, u);
    var back :| Joins(g, back, v, u);
    p := [u] + back;
    forall i | 0 <= i < |p| - 1
      ensures Edge(g, p[i], p[i + 1])
    {
      if i > 0 {
        assert Edge(g, back[i - 1], back[i]);
      }
    }
  }

  lemma NeverBack<T(!new)>(g: Graph<T>, u: T, v: T, x: T)
    requires !OnCycle(g, u) && Edge(g, u, v) && Reaches(g, v, x)
    ensures x != u
  {
  }

  lemma OnCycleBack<T(!new)>(g: Graph<T>, u: T, v: T)
    requires Edge(g, u, v) && Reaches(g, v, u)
    ensures OnCycle(g, u)
  {
  }
}
