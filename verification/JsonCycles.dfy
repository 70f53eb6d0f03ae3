/** The search that decides whether a mutation would close a cycle. */
module JsonCycles {
  import opened Wrappers
  import opened JsonHeaps

  ghost function Ids(h: Heap): (ids: set<nat>)
    ensures forall id: nat :: id in ids <==> id < |h|
  {
    if |h| == 0 then {} else Ids(h[..|h| - 1]) + {|h| - 1}
  }

  /** Depth first; `visited` is shared by all branches and results also when the search stops early. */
  function Contains(h: Heap, v: Var, target: nat, visited: set<nat>): (r: (bool, set<nat>))
    requires WellFormed(h) && Valid(h, v)
    ensures visited <= r.1
    decreases Ids(h) - visited, 0
  {
    if !IsAggregate(v) then (false, visited)
    else if v.id == target then (true, visited)
    else if v.id in visited then (false, visited)
    else
      assert v.id in Ids(h) - visited;
      ContainsAny(h, Children(h[v.id]), target, visited + {v.id})
  }

  function ContainsAny(h: Heap, vs: seq<Var>, target: nat, visited: set<nat>): (r: (bool, set<nat>))
    requires WellFormed(h) && AllValid(h, vs)
    ensures visited <= r.1
    decreases Ids(h) - visited, |vs|
  {
    if |vs| == 0 then (false, visited)
    else
      var first := Contains(h, vs[0], target, visited);
      assert Ids(h) - first.1 <= Ids(h) - visited;
      if first.0 then first else ContainsAny(h, vs[1..], target, first.1)
  }

  lemma {:induction false} FoundLeads(h: Heap, v: Var, target: nat, visited: set<nat>)
    requires WellFormed(h) && Valid(h, v) && Contains(h, v, target, visited).0
    ensures Leads(h, v, target)
    decreases Ids(h) - visited, 0
  {
    if v.id == target {
      ReachesItself(h, target);
    } else {
      var vs := Children(h[v.id]);
      assert v.id in Ids(h) - visited;
      var i := FoundLeadsAny(h, vs, target, visited + {v.id});
      assert Edge(h, v.id, vs[i].id);
      EdgeReaches(h, v.id, vs[i].id, target);
    }
  }

  lemma {:induction false} FoundLeadsAny(h: Heap, vs: seq<Var>, target: nat, visited: set<nat>) returns (i: nat)
    requires WellFormed(h) && AllValid(h, vs) && ContainsAny(h, vs, target, visited).0
    ensures i < |vs| && Leads(h, vs[i], target)
    decreases Ids(h) - visited, |vs|
  {
    var first := Contains(h, vs[0], target, visited);
    assert Ids(h) - first.1 <= Ids(h) - visited;
    if first.0 {
      FoundLeads(h, vs[0], target, visited);
      i := 0;
    } else {
      i := FoundLeadsAny(h, vs[1..], target, first.1);
      i := i + 1;
    }
  }

  /** Nodes searched since `before` have only children that were visited and are not the target. */
  ghost predicate Searched(h: Heap, target: nat, before: set<nat>, after: set<nat>) {
    forall x: nat, y: nat :: x in after && x !in before && Edge(h, x, y) ==> y in after && y != target
  }

  ghost predicate AllVisited(vs: seq<Var>, target: nat, visited: set<nat>) {
    forall i :: 0 <= i < |vs| && IsAggregate(vs[i]) ==> vs[i].id in visited && vs[i].id != target
  }

  lemma {:induction false} NotFoundSearched(h: Heap, v: Var, target: nat, visited: set<nat>)
    requires WellFormed(h) && Valid(h, v) && !Contains(h, v, target, visited).0
    ensures Searched(h, target, visited, Contains(h, v, target, visited).1)
    ensures AllVisited([v], target, Contains(h, v, target, visited).1)
    decreases Ids(h) - visited, 0
  {
    if IsAggregate(v) && v.id !in visited {
      assert v.id in Ids(h) - visited;
      NotFoundSearchedAny(h, Children(h[v.id]), target, visited + {v.id});
    }
  }

  lemma {:induction false} NotFoundSearchedAny(h: Heap, vs: seq<Var>, target: nat, visited: set<nat>)
    requires WellFormed(h) && AllValid(h, vs) && !ContainsAny(h, vs, target, visited).0
    ensures Searched(h, target, visited, ContainsAny(h, vs, target, visited).1)
    ensures AllVisited(vs, target, ContainsAny(h, vs, target, visited).1)
    decreases Ids(h) - visited, |vs|
  {
    if |vs| > 0 {
      var first := Contains(h, vs[0], target, visited);
      assert Ids(h) - first.1 <= Ids(h) - visited;
      NotFoundSearched(h, vs[0], target, visited);
      NotFoundSearchedAny(h, vs[1..], target, first.1);
      assert [vs[0]][0] == vs[0];
      forall i | 0 <= i < |vs| && IsAggregate(vs[i])
        ensures vs[i].id in ContainsAny(h, vs, target, visited).1 && vs[i].id != target
      {
        if i > 0 {
          assert vs[i] == vs[1..][i - 1];
        }
      }
    }
  }

  /** The search finds the target exactly when the value leads to it. */
  lemma SearchDecidesReach(h: Heap, v: Var, target: nat)
    requires WellFormed(h) && Valid(h, v)
    ensures Contains(h, v, target, {}).0 <==> Leads(h, v, target)
  {
    var (found, visited) := Contains(h, v, target, {});
    if found {
      FoundLeads(h, v, target, {});
    } else {
      NotFoundSearched(h, v, target, {});
      assert [v][0] == v;
      if Leads(h, v, target) {
        var p :| Joins(h, p, v.id, target);
        NeverTarget(h, visited, target, p, v.id);
      }
    }
  }

  lemma {:induction false} NeverTarget(h: Heap, visited: set<nat>, target: nat, p: seq<nat>, u: nat)
    requires Searched(h, target, {}, visited) && u in visited && u != target && Joins(h, p, u, target)
    ensures false
    decreases |p|
  {
    TailJoins(h, p, target);
    NeverTarget(h, visited, target, p[1..], p[1]);
  }

  /** The search as it runs, over one set of visited nodes. */
  class CycleSearch {
    var visited: set<nat>

    constructor ()
      ensures visited == {}
    {
      visited := {};
    }

    method ContainsAggregate(h: Heap, v: Var, target: nat) returns (found: bool)
      requires WellFormed(h) && Valid(h, v)
      modifies this
      ensures (found, visited) == Contains(h, v, target, old(visited))
      decreases Ids(h) - visited
    {
      if !IsAggregate(v) {
        return false;
      }
      if v.id == target {
        return true;
      }
      if v.id in visited {
        return false;
      }
      ghost var before := visited;
      assert v.id in Ids(h) - before;
      visited := visited + {v.id};
      var vs := Children(h[v.id]);
      ghost var all := ContainsAny(h, vs, target, visited);
      found := false;
      var i := 0;
      while i < |vs| && !found
        invariant 0 <= i <= |vs|
        invariant before + {v.id} <= visited
        invariant if found then (true, visited) == all else ContainsAny(h, vs[i..], target, visited) == all
        decreases |vs| - i, !found
      {
        assert vs[i..][1..] == vs[i + 1..];
        assert Ids(h) - visited < Ids(h) - before;
        found := ContainsAggregate(h, vs[i], target);
        i := i + 1;
      }
    }
  }
}
