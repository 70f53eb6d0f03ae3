/** The operations on shared JSON values, each changing the one heap in place. */
module JsonRuntime {
  import opened Wrappers
  import opened JsonHeaps
  import opened JsonCycles
  import opened JsonValues
  import opened JsonTrees

  class Runtime {
    var heap: Heap

    ghost predicate Valid()
      reads this
    {
      WellFormed(heap) && Acyclic(heap)
    }

    constructor ()
      ensures Valid() && heap == []
    {
      heap := [];
      new;
      assert forall u: nat, v: nat :: !Edge(heap, u, v);
    }

    method NewArray(values: seq<Var>) returns (v: Var)
      requires Valid() && AllValid(heap, values)
      modifies this
      ensures Valid() && heap == old(heap) + [Elements(values)] && v == Array(|old(heap)|)
    {
      NewNodeKeepsAcyclic(heap, Elements(values));
      v := Array(|heap|);
      heap := heap + [Elements(values)];
    }

    /** A later duplicate name replaces an earlier one. */
    method NewObject(fields: seq<(string, Var)>) returns (v: Var)
      requires Valid() && AllValid(heap, Values(fields))
      modifies this
      ensures Valid() && heap == old(heap) + [Members(Collect(fields))] && v == Object(|old(heap)|)
    {
      var collected := [];
      for i := 0 to |fields|
        invariant heap == old(heap) && collected == Collect(fields[..i])
        invariant AllValid(heap, Values(collected))
      {
        assert fields[..i + 1][..i] == fields[..i];
        assert Values(fields)[i] == fields[i].1;
        PutValues(collected, fields[i].0, fields[i].1);
        collected := Put(collected, fields[i].0, fields[i].1);
        forall j | 0 <= j < |Values(collected)|
          ensures JsonHeaps.Valid(heap, Values(collected)[j])
        {
          assert Values(collected)[j] in Values(collected);
        }
      }
      assert fields[..|fields|] == fields;
      NewNodeKeepsAcyclic(heap, Members(collected));
      v := Object(|heap|);
      heap := heap + [Members(collected)];
    }

    method RejectCycle(target: nat, value: Var) returns (accepted: bool)
      requires Valid() && JsonHeaps.Valid(heap, value)
      ensures accepted <==> !Leads(heap, value, target)
    {
      var search := new CycleSearch();
      var found := search.ContainsAggregate(heap, value, target);
      SearchDecidesReach(heap, value, target);
      accepted := !found;
    }

    method SetField(receiver: Var, name: string, value: Var) returns (r: Result<Var, JsonError>)
      requires Valid() && JsonHeaps.Valid(heap, receiver) && JsonHeaps.Valid(heap, value)
      modifies this
      ensures Valid() && (heap, r) == Mutate(old(heap), receiver, Edit.SetField(name, value))
    {
      MutationKeepsAcyclic(heap, receiver, Edit.SetField(name, value));
      if !receiver.Object? {
        return Failure(WrongKind);
      }
      SearchDecidesReach(heap, value, receiver.id);
      var accepted := RejectCycle(receiver.id, value);
      if !accepted {
        return Failure(WouldCycle);
      }
      heap := heap[receiver.id := Members(Put(heap[receiver.id].fields, name, value))];
      return Success(Null);
    }

    method SetIndex(receiver: Var, index: nat, value: Var) returns (r: Result<Var, JsonError>)
      requires Valid() && JsonHeaps.Valid(heap, receiver) && JsonHeaps.Valid(heap, value)
      modifies this
      ensures Valid() && (heap, r) == Mutate(old(heap), receiver, Edit.SetIndex(index, value))
    {
      MutationKeepsAcyclic(heap, receiver, Edit.SetIndex(index, value));
      if !receiver.Array? {
        return Failure(WrongKind);
      }
      SearchDecidesReach(heap, value, receiver.id);
      var accepted := RejectCycle(receiver.id, value);
      if !accepted {
        return Failure(WouldCycle);
      }
      var elements := heap[receiver.id].values;
      if index >= |elements| {
        if index >= USIZE_MAX {
          return Failure(BadIndex);
        }
        elements := elements + Nulls(index + 1 - |elements|);
      }
      ghost var before := heap[receiver.id].values;
      elements := elements[index := value];
      assert index >= |before| ==> elements == before + Nulls(index - |before|) + [value];
      heap := heap[receiver.id := Elements(elements)];
      return Success(Null);
    }

    method Push(receiver: Var, value: Var) returns (r: Result<Var, JsonError>)
      requires Valid() && JsonHeaps.Valid(heap, receiver) && JsonHeaps.Valid(heap, value)
      modifies this
      ensures Valid() && (heap, r) == Mutate(old(heap), receiver, Edit.Push(value))
    {
      MutationKeepsAcyclic(heap, receiver, Edit.Push(value));
      if !receiver.Array? {
        return Failure(WrongKind);
      }
      SearchDecidesReach(heap, value, receiver.id);
      var accepted := RejectCycle(receiver.id, value);
      if !accepted {
        return Failure(WouldCycle);
      }
      heap := heap[receiver.id := Elements(heap[receiver.id].values + [value])];
      return Success(Null);
    }

    method Pop(receiver: Var) returns (r: Result<Var, JsonError>)
      requires Valid() && JsonHeaps.Valid(heap, receiver)
      modifies this
      ensures Valid() && (heap, r) == Mutate(old(heap), receiver, Edit.Pop)
    {
      MutationKeepsAcyclic(heap, receiver, Edit.Pop);
      if !receiver.Array? {
        return Failure(WrongKind);
      }
      var elements := heap[receiver.id].values;
      if |elements| == 0 {
        assert heap[receiver.id := heap[receiver.id]] == heap;
        return Success(Null);
      }
      heap := heap[receiver.id := Elements(elements[..|elements| - 1])];
      return Success(elements[|elements| - 1]);
    }

    method Insert(receiver: Var, index: nat, value: Var) returns (r: Result<Var, JsonError>)
      requires Valid() && JsonHeaps.Valid(heap, receiver) && JsonHeaps.Valid(heap, value)
      modifies this
      ensures Valid() && (heap, r) == Mutate(old(heap), receiver, Edit.Insert(index, value))
    {
      MutationKeepsAcyclic(heap, receiver, Edit.Insert(index, value));
      if !receiver.Array? {
        return Failure(WrongKind);
      }
      SearchDecidesReach(heap, value, receiver.id);
      var accepted := RejectCycle(receiver.id, value);
      if !accepted {
        return Failure(WouldCycle);
      }
      var elements := heap[receiver.id].values;
      if index > |elements| {
        return Failure(BadIndex);
      }
      heap := heap[receiver.id := Elements(elements[..index] + [value] + elements[index..])];
      return Success(Null);
    }

    method RemoveIndex(receiver: Var, index: nat) returns (r: Result<Var, JsonError>)
      requires Valid() && JsonHeaps.Valid(heap, receiver)
      modifies this
      ensures Valid() && (heap, r) == Mutate(old(heap), receiver, Edit.RemoveIndex(index))
    {
      MutationKeepsAcyclic(heap, receiver, Edit.RemoveIndex(index));
      if !receiver.Array? {
        return Failure(WrongKind);
      }
      var elements := heap[receiver.id].values;
      if index >= |elements| {
        return Failure(BadIndex);
      }
      heap := heap[receiver.id := Elements(elements[..index] + elements[index + 1..])];
      return Success(elements[index]);
    }

    method RemoveField(receiver: Var, name: string) returns (r: Result<Var, JsonError>)
      requires Valid() && JsonHeaps.Valid(heap, receiver)
      modifies this
      ensures Valid() && (heap, r) == Mutate(old(heap), receiver, Edit.RemoveField(name))
    {
      MutationKeepsAcyclic(heap, receiver, Edit.RemoveField(name));
      if !receiver.Object? {
        return Failure(WrongKind);
      }
      var fields := heap[receiver.id].fields;
      var removed := Get(fields, name);
      heap := heap[receiver.id := Members(Drop(fields, name))];
      return Success(if removed.Some? then removed.value else Null);
    }

    method Clear(receiver: Var) returns (r: Result<Var, JsonError>)
      requires Valid() && JsonHeaps.Valid(heap, receiver)
      modifies this
      ensures Valid() && (heap, r) == Mutate(old(heap), receiver, Edit.Clear)
    {
      MutationKeepsAcyclic(heap, receiver, Edit.Clear);
      match receiver
      case Array(id) =>
        heap := heap[id := Elements([])];
        r := Success(Null);
      case Object(id) =>
        heap := heap[id := Members([])];
        r := Success(Null);
      case _ =>
        r := Failure(WrongKind);
    }
  }

  // ----- order of members -----

  ghost predicate OrderedNodes(h: Heap) {
    forall x :: 0 <= x < |h| && h[x].Members? ==> Ordered(h[x].fields)
  }

  lemma {:induction false} DropOrdered<V>(fields: seq<(string, V)>, name: string)
    requires Ordered(fields)
    ensures Ordered(Drop(fields, name))
    ensures forall i :: 0 <= i < |Drop(fields, name)| ==>
              exists j :: 0 <= j < |fields| && fields[j].0 == Drop(fields, name)[i].0
    ensures forall n :: Get(Drop(fields, name), n) == if n == name then None else Get(fields, n)
  {
    if |fields| > 0 {
      if fields[0].0 == name {
        Absent(fields[1..], name);
      } else {
        DropOrdered(fields[1..], name);
      }
    }
  }

  lemma {:induction false} Absent<V>(fields: seq<(string, V)>, name: string)
    requires forall i :: 0 <= i < |fields| ==> Before(name, fields[i].0)
    ensures Get(fields, name).None?
  {
    if |fields| > 0 {
      BeforeTotal(name, fields[0].0);
      Absent(fields[1..], name);
    }
  }

  /** Setting and removing members act on an object as on a map, and keep it ordered. */
  lemma MembersStayOrdered(h: Heap, receiver: Var, edit: Edit)
    requires WellFormed(h) && Valid(h, receiver) && OrderedNodes(h)
    requires Inserted(edit).Some? ==> Valid(h, Inserted(edit).value)
    ensures OrderedNodes(Mutate(h, receiver, edit).0)
    ensures Mutate(h, receiver, edit).1.Success? && receiver.Object? && !edit.Clear? ==>
              forall n :: Get(Mutate(h, receiver, edit).0[receiver.id].fields, n)
                == if edit.SetField? && n == edit.name then Some(edit.value)
                   else if edit.RemoveField? && n == edit.name then None
                   else Get(h[receiver.id].fields, n)
  {
    if Mutate(h, receiver, edit).1.Success? {
      if edit.SetField? {
        PutOrdered(h[receiver.id].fields, edit.name, edit.value);
      } else if edit.RemoveField? {
        DropOrdered(h[receiver.id].fields, edit.name);
      }
    }
  }

  /** What a value unfolds to has its members in order, so that reading it back gives the same tree. */
  lemma {:induction false} UnfoldingSorted(h: Heap, v: Var)
    requires WellFormed(h) && Acyclic(h) && Valid(h, v) && OrderedNodes(h)
    ensures Sorted(ToValue(h, v))
    decreases Height(h, v), 1, 0
  {
    match v
    case Array(id) =>
      ChildrenLower(h, id);
      ValuesSorted(h, h[id].values, Height(h, v));
    case Object(id) =>
      ChildrenLower(h, id);
      MembersSorted(h, h[id].fields, Height(h, v));
    case _ =>
  }

  lemma {:induction false} ValuesSorted(h: Heap, vs: seq<Var>, bound: nat)
    requires WellFormed(h) && Acyclic(h) && AllValid(h, vs) && AllLower(h, vs, bound) && OrderedNodes(h)
    ensures forall i :: 0 <= i < |vs| ==> Sorted(ToValues(h, vs, bound)[i])
    decreases bound, 0, |vs|
  {
    if |vs| > 0 {
      UnfoldingSorted(h, vs[0]);
      ValuesSorted(h, vs[1..], bound);
    }
  }

  lemma {:induction false} MembersSorted(h: Heap, fields: seq<(string, Var)>, bound: nat)
    requires WellFormed(h) && Acyclic(h) && OrderedNodes(h)
    requires AllValid(h, Values(fields)) && AllLower(h, Values(fields), bound)
    ensures var ms := ToMembers(h, fields, bound);
            forall i :: 0 <= i < |fields| ==> ms[i].0 == fields[i].0 && SortedMember(ms[i])
    decreases bound, 0, |fields|
  {
    if |fields| > 0 {
      assert Values(fields)[0] == fields[0].1;
      UnfoldingSorted(h, fields[0].1);
      forall i | 0 <= i < |fields[1..]|
        ensures Values(fields[1..])[i] == Values(fields)[i + 1]
      {
      }
      MembersSorted(h, fields[1..], bound);
    }
  }

  /** A deep copy through a document unfolds to what the original unfolds to, and shares no node with it. */
  lemma WriteThenRead(h: Heap, v: Var)
    requires WellFormed(h) && Acyclic(h) && Valid(h, v) && OrderedNodes(h)
    ensures var (k, w) := FromValue(h, ToValue(h, v));
            && WellFormed(k) && Acyclic(k) && Valid(k, w)
            && ToValue(k, w) == ToValue(h, v)
            && (IsAggregate(v) ==> IsAggregate(w) && w.id >= |h|)
  {
    UnfoldingSorted(h, v);
    ReadThenWrite(h, ToValue(h, v), v);
    OldPrefix(h, ToValue(h, v));
  }

  lemma {:induction false} OldPrefix(h: Heap, j: Json)
    ensures |FromValue(h, j).0| >= |h|
    ensures IsAggregate(FromValue(h, j).1) ==> FromValue(h, j).1.id >= |h|
    decreases j, 0
  {
    match j
    case JsonArray(items) => OldPrefixes(h, items);
    case JsonObject(members) => OldPrefixMembers(h, members);
    case _ =>
  }

  lemma {:induction false} OldPrefixes(h: Heap, items: seq<Json>)
    ensures |FromValues(h, items).0| >= |h|
    decreases items, 0
  {
    if |items| > 0 {
      OldPrefix(h, items[0]);
      OldPrefixes(FromValue(h, items[0]).0, items[1..]);
    }
  }

  lemma {:induction false} OldPrefixMembers(h: Heap, members: seq<(string, Json)>)
    ensures |FromMembers(h, members).0| >= |h|
    decreases members, 0
  {
    if |members| > 0 {
      OldPrefixMember(h, members[0]);
      OldPrefixMembers(FromMember(h, members[0]).0, members[1..]);
    }
  }

  lemma {:induction false} OldPrefixMember(h: Heap, member: (string, Json))
    ensures |FromMember(h, member).0| >= |h|
    decreases member, 0
  {
    OldPrefix(h, member.1);
  }
}
