/**
 The operations on JSON values by what they do: arrays are edited as lists, objects as maps, and a value
 unfolds to the document with its elements and members.
 */
module JsonMeaning {
  import opened Wrappers
  import opened JsonHeaps
  import opened JsonCycles
  import opened JsonValues
  import opened JsonTrees
  import opened JsonRuntime

  /** A mutation can be asked for. */
  ghost predicate Posed(h: Heap, receiver: Var, edit: Edit) {
    && WellFormed(h) && Acyclic(h) && Valid(h, receiver)
    && match edit
       case SetField(_, value) => Valid(h, value)
       case SetIndex(_, value) => Valid(h, value)
       case Push(value) => Valid(h, value)
       case Insert(_, value) => Valid(h, value)
       case _ => true
  }

  // ----- when a mutation fails -----

  ghost predicate WrongReceiver(receiver: Var, edit: Edit) {
    if edit.SetField? || edit.RemoveField? then !receiver.Object?
    else if edit.Clear? then !receiver.Array? && !receiver.Object?
    else !receiver.Array?
  }

  /** The value that is put in leads back to the receiver. */
  ghost predicate PutsCycle(h: Heap, receiver: Var, edit: Edit)
    requires IsAggregate(receiver)
  {
    match edit
    case SetField(_, value) => Leads(h, value, receiver.id)
    case SetIndex(_, value) => Leads(h, value, receiver.id)
    case Push(value) => Leads(h, value, receiver.id)
    case Insert(_, value) => Leads(h, value, receiver.id)
    case _ => false
  }

  predicate OutOfRange(length: nat, edit: Edit) {
    match edit
    case SetIndex(index, _) => index >= length && index >= USIZE_MAX
    case Insert(index, _) => index > length
    case RemoveIndex(index) => index >= length
    case _ => false
  }

  /** The error of a mutation: a wrong kind before a cycle, a cycle before a bad index, and no other. */
  lemma FailsExactly(h: Heap, receiver: Var, edit: Edit)
    requires Posed(h, receiver, edit)
    ensures var r := Mutate(h, receiver, edit).1;
            && (r == Failure(WrongKind) <==> WrongReceiver(receiver, edit))
            && (r == Failure(WouldCycle) <==> !WrongReceiver(receiver, edit) && PutsCycle(h, receiver, edit))
            && (r == Failure(BadIndex)
                <==> && !WrongReceiver(receiver, edit) && !PutsCycle(h, receiver, edit)
                     && receiver.Array? && OutOfRange(|h[receiver.id].values|, edit))
  {
    if !WrongReceiver(receiver, edit) {
      match edit
      case SetField(_, value) => SearchDecidesReach(h, value, receiver.id);
      case SetIndex(_, value) => SearchDecidesReach(h, value, receiver.id);
      case Push(value) => SearchDecidesReach(h, value, receiver.id);
      case Insert(_, value) => SearchDecidesReach(h, value, receiver.id);
      case _ =>
    }
  }

  // ----- arrays as lists -----

  /** The elements of the list after the edit, by index, and their number. */
  ghost predicate Edited(before: seq<Var>, edit: Edit, after: seq<Var>) {
    match edit
    case SetIndex(index, value) =>
      && |after| == (if index < |before| then |before| else index + 1)
      && forall i :: 0 <= i < |after| ==>
           after[i] == if i == index then value else if i < |before| then before[i] else Null
    case Push(value) =>
      && |after| == |before| + 1
      && forall i :: 0 <= i < |after| ==> after[i] == if i == |before| then value else before[i]
    case Pop =>
      && |after| == (if |before| == 0 then 0 else |before| - 1)
      && forall i :: 0 <= i < |after| ==> after[i] == before[i]
    case Insert(index, value) =>
      && |after| == |before| + 1 && index <= |before|
      && forall i :: 0 <= i < |after| ==>
           after[i] == if i < index then before[i] else if i == index then value else before[i - 1]
    case RemoveIndex(index) =>
      && |after| + 1 == |before| && index < |before|
      && forall i :: 0 <= i < |after| ==> after[i] == if i < index then before[i] else before[i + 1]
    case Clear => |after| == 0
    case _ => false
  }

  /** What a mutation of an array hands back. */
  function HandedBack(before: seq<Var>, edit: Edit): Var {
    match edit
    case Pop => if |before| == 0 then Null else before[|before| - 1]
    case RemoveIndex(index) => if index < |before| then before[index] else Null
    case _ => Null
  }

  /** A mutation of an array that does not fail changes that array as a list, and nothing else. */
  lemma ArraysAreLists(h: Heap, receiver: Var, edit: Edit)
    requires Posed(h, receiver, edit) && receiver.Array? && Mutate(h, receiver, edit).1.Success?
    ensures var (k, r) := Mutate(h, receiver, edit);
            && |k| == |h| && (forall x :: 0 <= x < |h| && x != receiver.id ==> k[x] == h[x])
            && k[receiver.id].Elements? && Edited(h[receiver.id].values, edit, k[receiver.id].values)
            && r.value == HandedBack(h[receiver.id].values, edit)
  {
    EditsList(h[receiver.id].values, edit);
  }

  lemma EditsList(vs: seq<Var>, edit: Edit)
    requires !edit.SetField? && !edit.RemoveField? && Apply(edit, Elements(vs)).Some?
    ensures var (node, back) := Apply(edit, Elements(vs)).value;
            node.Elements? && Edited(vs, edit, node.values) && back == HandedBack(vs, edit)
  {
    match edit
    case SetIndex(index, value) =>
      if index >= |vs| {
        Padded(vs, index, value);
      }
    case Insert(index, value) => Inserts(vs, index, value);
    case RemoveIndex(index) => Removes(vs, index);
    case _ =>
  }

  lemma Padded(vs: seq<Var>, index: nat, value: Var)
    requires |vs| <= index
    ensures Edited(vs, SetIndex(index, value), vs + Nulls(index - |vs|) + [value])
  {
  }

  lemma Inserts(vs: seq<Var>, index: nat, value: Var)
    requires index <= |vs|
    ensures Edited(vs, Insert(index, value), vs[..index] + [value] + vs[index..])
  {
  }

  lemma Removes(vs: seq<Var>, index: nat)
    requires index < |vs|
    ensures Edited(vs, RemoveIndex(index), vs[..index] + vs[index + 1..])
  {
  }

  lemma PutBack(h: Heap, id: nat, node: Node, before: Node)
    requires id < |h| && h[id] == before
    ensures h[id := node][id := before] == h
  {
  }

  /** What is pushed is popped, and the array is as before. */
  lemma PushThenPop(h: Heap, receiver: Var, value: Var)
    requires Posed(h, receiver, Push(value)) && Mutate(h, receiver, Push(value)).1.Success?
    ensures WellFormed(Mutate(h, receiver, Push(value)).0) && Valid(Mutate(h, receiver, Push(value)).0, receiver)
    ensures Mutate(Mutate(h, receiver, Push(value)).0, receiver, Pop) == (h, Success(value))
  {
    MutationKeepsAcyclic(h, receiver, Push(value));
    var vs := h[receiver.id].values;
    assert (vs + [value])[..|vs|] == vs;
    PutBack(h, receiver.id, Elements(vs + [value]), Elements(vs));
  }

  /** What is inserted is removed at its index, and the array is as before. */
  lemma InsertThenRemove(h: Heap, receiver: Var, index: nat, value: Var)
    requires Posed(h, receiver, Insert(index, value)) && Mutate(h, receiver, Insert(index, value)).1.Success?
    ensures WellFormed(Mutate(h, receiver, Insert(index, value)).0)
    ensures Valid(Mutate(h, receiver, Insert(index, value)).0, receiver)
    ensures Mutate(Mutate(h, receiver, Insert(index, value)).0, receiver, RemoveIndex(index)) == (h, Success(value))
  {
    MutationKeepsAcyclic(h, receiver, Insert(index, value));
    var vs := h[receiver.id].values;
    var longer := vs[..index] + [value] + vs[index..];
    assert longer[..index] + longer[index + 1..] == vs;
    PutBack(h, receiver.id, Elements(longer), Elements(vs));
  }

  // ----- objects as maps -----

  /** What a mutation of an object hands back. */
  function MemberHandedBack(before: seq<(string, Var)>, edit: Edit): Var {
    if edit.RemoveField? && Get(before, edit.name).Some? then Get(before, edit.name).value else Null
  }

  /** The members of an object after a mutation that does not fail, by name, and what is handed back. */
  lemma ObjectsAreMaps(h: Heap, receiver: Var, edit: Edit)
    requires Posed(h, receiver, edit) && OrderedNodes(h)
    requires receiver.Object? && Mutate(h, receiver, edit).1.Success?
    ensures var (k, r) := Mutate(h, receiver, edit);
            var before := h[receiver.id].fields;
            && |k| == |h| && (forall x :: 0 <= x < |h| && x != receiver.id ==> k[x] == h[x])
            && k[receiver.id].Members?
            && (forall n ::
                  Get(k[receiver.id].fields, n)
                  == if edit.Clear? then None
                     else if n != edit.name then Get(before, n)
                     else if edit.SetField? then Some(edit.value) else None)
            && r.value == MemberHandedBack(before, edit)
  {
    MembersStayOrdered(h, receiver, edit);
  }

  lemma {:induction false} GetFinds<V>(fields: seq<(string, V)>, i: nat)
    requires Ordered(fields) && i < |fields|
    ensures Get(fields, fields[i].0) == Some(fields[i].1)
  {
    if i > 0 {
      BeforeTotal(fields[0].0, fields[i].0);
      GetFinds(fields[1..], i - 1);
    }
  }

  lemma {:induction false} GetIsThere<V>(fields: seq<(string, V)>, name: string) returns (i: nat)
    requires Get(fields, name).Some?
    ensures i < |fields| && fields[i] == (name, Get(fields, name).value)
  {
    if fields[0].0 == name {
      i := 0;
    } else {
      i := GetIsThere(fields[1..], name);
      i := i + 1;
    }
  }

  /** The members are those of the map: a name has a value exactly if it is listed with it. */
  lemma GetIsMembership<V>(fields: seq<(string, V)>, name: string, v: V)
    requires Ordered(fields)
    ensures Get(fields, name) == Some(v) <==> (name, v) in fields
  {
    if (name, v) in fields {
      var i :| 0 <= i < |fields| && fields[i] == (name, v);
      GetFinds(fields, i);
    }
    if Get(fields, name) == Some(v) {
      var i := GetIsThere(fields, name);
      assert fields[i] in fields;
    }
  }

  /** The value of the last member with the name. */
  ghost predicate LastOf<V>(fields: seq<(string, V)>, name: string, v: V) {
    exists i :: 0 <= i < |fields| && fields[i] == (name, v) && forall j :: i < j < |fields| ==> fields[j].0 != name
  }

  lemma StaysLast<V>(fields: seq<(string, V)>, name: string, v: V)
    requires |fields| > 0 && fields[|fields| - 1].0 != name && LastOf(fields[..|fields| - 1], name, v)
    ensures LastOf(fields, name, v)
  {
    var before := fields[..|fields| - 1];
    var i :| 0 <= i < |before| && before[i] == (name, v) && forall j :: i < j < |before| ==> before[j].0 != name;
    assert fields[i] == (name, v);
    forall j | i < j < |fields|
      ensures fields[j].0 != name
    {
      if j < |before| {
        assert before[j].0 != name;
      }
    }
  }

  ghost predicate Missing<V>(fields: seq<(string, V)>, name: string) {
    forall i :: 0 <= i < |fields| ==> fields[i].0 != name
  }

  lemma StaysAbsent<V>(fields: seq<(string, V)>, name: string)
    requires |fields| > 0 && fields[|fields| - 1].0 != name && Missing(fields[..|fields| - 1], name)
    ensures Missing(fields, name)
  {
    var before := fields[..|fields| - 1];
    assert forall i :: 0 <= i < |before| ==> before[i].0 != name && before[i] == fields[i];
  }

  lemma {:induction false} CollectIs<V>(fields: seq<(string, V)>, name: string)
    ensures Ordered(Collect(fields))
    ensures Get(Collect(fields), name).Some? ==> LastOf(fields, name, Get(Collect(fields), name).value)
    ensures Get(Collect(fields), name).None? ==> Missing(fields, name)
    decreases |fields|
  {
    if |fields| > 0 {
      var last := |fields| - 1;
      CollectIs(fields[..last], name);
      PutOrdered(Collect(fields[..last]), fields[last].0, fields[last].1);
      if fields[last].0 == name {
        assert LastOf(fields, name, fields[last].1);
      } else if Get(Collect(fields[..last]), name).Some? {
        StaysLast(fields, name, Get(Collect(fields[..last]), name).value);
      } else {
        StaysAbsent(fields, name);
      }
    }
  }

  /** An object made from members has, for every name, the value of the last of them with that name. */
  lemma LaterMembersWin<V>(fields: seq<(string, V)>, name: string, v: V)
    ensures Ordered(Collect(fields))
    ensures Get(Collect(fields), name) == Some(v) <==> LastOf(fields, name, v)
  {
    CollectIs(fields, name);
    if LastOf(fields, name, v) {
      var i :| 0 <= i < |fields| && fields[i] == (name, v) && forall j :: i < j < |fields| ==> fields[j].0 != name;
      assert fields[i].0 == name;
      var w := Get(Collect(fields), name).value;
      var k :| 0 <= k < |fields| && fields[k] == (name, w) && forall j :: k < j < |fields| ==> fields[j].0 != name;
      assert fields[k].0 == name;
    }
  }

  // ----- values as documents -----

  lemma {:induction false} ElementUnfolds(h: Heap, vs: seq<Var>, bound: nat, i: nat)
    requires WellFormed(h) && Acyclic(h) && AllValid(h, vs) && AllLower(h, vs, bound) && i < |vs|
    ensures ToValues(h, vs, bound)[i] == ToValue(h, vs[i])
    decreases |vs|
  {
    if i > 0 {
      ElementUnfolds(h, vs[1..], bound, i - 1);
    }
  }

  lemma {:induction false} MemberUnfolds(h: Heap, fields: seq<(string, Var)>, bound: nat, i: nat)
    requires WellFormed(h) && Acyclic(h) && i < |fields|
    requires AllValid(h, Values(fields)) && AllLower(h, Values(fields), bound)
    ensures Valid(h, fields[i].1)
    ensures ToMembers(h, fields, bound)[i] == (fields[i].0, ToValue(h, fields[i].1))
    decreases |fields|
  {
    assert Values(fields)[i] == fields[i].1;
    if i > 0 {
      assert forall m :: 0 <= m < |fields[1..]| ==> Values(fields[1..])[m] == Values(fields)[m + 1];
      MemberUnfolds(h, fields[1..], bound, i - 1);
    }
  }

  /** The document is the value, kind by kind. */
  ghost predicate Shows(h: Heap, v: Var, j: Json)
    requires WellFormed(h) && Acyclic(h) && Valid(h, v)
  {
    match v
    case Null => j == JsonNull
    case Bool(b) => j == JsonBool(b)
    case Number(digits) => j == JsonNumber(digits)
    case Text(text) => j == JsonText(text)
    case Array(id) =>
      var vs := h[id].values;
      && j.JsonArray? && |j.items| == |vs|
      && forall i :: 0 <= i < |vs| ==> Valid(h, vs[i]) && j.items[i] == ToValue(h, vs[i])
    case Object(id) =>
      var fields := h[id].fields;
      && j.JsonObject? && |j.members| == |fields|
      && forall i :: 0 <= i < |fields| ==>
           Valid(h, fields[i].1) && j.members[i] == (fields[i].0, ToValue(h, fields[i].1))
  }

  lemma UnfoldingShows(h: Heap, v: Var)
    requires WellFormed(h) && Acyclic(h) && Valid(h, v)
    ensures Shows(h, v, ToValue(h, v))
  {
    if v.Array? {
      ChildrenLower(h, v.id);
      forall i | 0 <= i < |h[v.id].values|
        ensures ToValue(h, v).items[i] == ToValue(h, h[v.id].values[i])
      {
        ElementUnfolds(h, h[v.id].values, Height(h, v), i);
      }
    } else if v.Object? {
      ChildrenLower(h, v.id);
      forall i | 0 <= i < |h[v.id].fields|
        ensures Valid(h, h[v.id].fields[i].1)
        ensures ToValue(h, v).members[i] == (h[v.id].fields[i].0, ToValue(h, h[v.id].fields[i].1))
      {
        MemberUnfolds(h, h[v.id].fields, Height(h, v), i);
      }
    }
  }
}
