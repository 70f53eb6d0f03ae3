/** JSON documents as trees: what a value unfolds to, and the value a document is read into. */
module JsonTrees {
  import opened Wrappers
  import opened JsonHeaps
  import opened JsonValues

  datatype Json =
    | JsonNull
    | JsonBool(b: bool)
    | JsonNumber(digits: string)
    | JsonText(text: string)
    | JsonArray(items: seq<Json>)
    | JsonObject(members: seq<(string, Json)>)

  lemma HeightsFall(h: Heap, u: nat, i: nat)
    requires WellFormed(h) && Acyclic(h) && u < |h| && i < |Children(h[u])|
    ensures Height(h, Children(h[u])[i]) < |Below(h, u)| + 1
  {
    var c := Children(h[u])[i];
    if IsAggregate(c) {
      assert Edge(h, u, c.id);
      HeightFalls(h, u, c.id);
    }
  }

  ghost predicate AllLower(h: Heap, vs: seq<Var>, bound: nat) {
    forall i :: 0 <= i < |vs| ==> Height(h, vs[i]) < bound
  }

  lemma ChildrenLower(h: Heap, u: nat)
    requires WellFormed(h) && Acyclic(h) && u < |h|
    ensures AllLower(h, Children(h[u]), |Below(h, u)| + 1) && AllValid(h, Children(h[u]))
  {
    forall i | 0 <= i < |Children(h[u])|
      ensures Height(h, Children(h[u])[i]) < |Below(h, u)| + 1
    {
      HeightsFall(h, u, i);
    }
  }

  /** The unfolding of a value. It ends because the graph is acyclic. */
  function ToValue(h: Heap, v: Var): Json
    requires WellFormed(h) && Acyclic(h) && Valid(h, v)
    decreases Height(h, v), 1, 0
  {
    match v
    case Null => JsonNull
    case Bool(b) => JsonBool(b)
    case Number(digits) => JsonNumber(digits)
    case Text(text) => JsonText(text)
    case Array(id) =>
      ChildrenLower(h, id);
      JsonArray(ToValues(h, h[id].values, Height(h, v)))
    case Object(id) =>
      ChildrenLower(h, id);
      JsonObject(ToMembers(h, h[id].fields, Height(h, v)))
  }

  function ToValues(h: Heap, vs: seq<Var>, ghost bound: nat): (js: seq<Json>)
    requires WellFormed(h) && Acyclic(h) && AllValid(h, vs) && AllLower(h, vs, bound)
    ensures |js| == |vs|
    decreases bound, 0, |vs|
  {
    if |vs| == 0 then [] else [ToValue(h, vs[0])] + ToValues(h, vs[1..], bound)
  }

  function ToMembers(h: Heap, fields: seq<(string, Var)>, ghost bound: nat): (ms: seq<(string, Json)>)
    requires WellFormed(h) && Acyclic(h) && AllValid(h, Values(fields)) && AllLower(h, Values(fields), bound)
    ensures |ms| == |fields|
    decreases bound, 0, |fields|
  {
    if |fields| == 0 then []
    else
      assert forall i :: 0 <= i < |fields[1..]| ==> Values(fields[1..])[i] == Values(fields)[i + 1];
      assert Values(fields)[0] == fields[0].1;
      [(fields[0].0, ToValue(h, fields[0].1))] + ToMembers(h, fields[1..], bound)
  }

  /** Reading a document makes its nodes from the leaves up. */
  function FromValue(h: Heap, j: Json): (Heap, Var)
    decreases j, 0
  {
    match j
    case JsonNull => (h, Null)
    case JsonBool(b) => (h, Bool(b))
    case JsonNumber(digits) => (h, Number(digits))
    case JsonText(text) => (h, Text(text))
    case JsonArray(items) =>
      var (k, vs) := FromValues(h, items);
      (k + [Elements(vs)], Array(|k|))
    case JsonObject(members) =>
      var (k, fields) := FromMembers(h, members);
      (k + [Members(Collect(fields))], Object(|k|))
  }

  function FromValues(h: Heap, items: seq<Json>): (r: (Heap, seq<Var>))
    ensures |r.1| == |items|
    decreases items, 0
  {
    if |items| == 0 then (h, [])
    else
      var (k, v) := FromValue(h, items[0]);
      var (k1, rest) := FromValues(k, items[1..]);
      (k1, [v] + rest)
  }

  function FromMembers(h: Heap, members: seq<(string, Json)>): (r: (Heap, seq<(string, Var)>))
    ensures |r.1| == |members|
    decreases members, 0
  {
    if |members| == 0 then (h, [])
    else
      var (k, v) := FromMember(h, members[0]);
      var (k1, rest) := FromMembers(k, members[1..]);
      (k1, [v] + rest)
  }

  function FromMember(h: Heap, member: (string, Json)): (Heap, (string, Var))
    decreases member, 0
  {
    var (k, v) := FromValue(h, member.1);
    (k, (member.0, v))
  }

  /** The members of every object of a document are in the order of their names. */
  ghost predicate Sorted(j: Json)
    decreases j, 0
  {
    match j
    case JsonArray(items) => forall i :: 0 <= i < |items| ==> Sorted(items[i])
    case JsonObject(members) =>
      Ordered(members) && forall i :: 0 <= i < |members| ==> SortedMember(members[i])
    case _ => true
  }

  ghost predicate SortedMember(member: (string, Json))
    decreases member, 0
  {
    Sorted(member.1)
  }

  // ----- what unfoldings depend on -----

  /** `k` has, unchanged, every node below `v` in `h`. */
  ghost predicate SameBelow(h: Heap, k: Heap, v: Var) {
    IsAggregate(v) ==> forall x: nat :: x < |h| && Reaches(h, v.id, x) ==> x < |k| && k[x] == h[x]
  }

  lemma SameBelowChild(h: Heap, k: Heap, v: Var, i: nat)
    requires WellFormed(h) && IsAggregate(v) && v.id < |h| && SameBelow(h, k, v) && i < |Children(h[v.id])|
    ensures SameBelow(h, k, Children(h[v.id])[i])
  {
    var c := Children(h[v.id])[i];
    if IsAggregate(c) {
      assert Edge(h, v.id, c.id);
      forall x: nat | x < |h| && Reaches(h, c.id, x)
        ensures x < |k| && k[x] == h[x]
      {
        EdgeReaches(h, v.id, c.id, x);
      }
    }
  }

  lemma {:induction false} SameUnfolding(h: Heap, k: Heap, v: Var)
    requires WellFormed(h) && Acyclic(h) && WellFormed(k) && Acyclic(k) && Valid(h, v) && SameBelow(h, k, v)
    ensures Valid(k, v) && ToValue(k, v) == ToValue(h, v)
    decreases Height(h, v), 1, 0
  {
    if IsAggregate(v) {
      ReachesItself(h, v.id);
      ChildrenLower(h, v.id);
      ChildrenLower(k, v.id);
      var vs := Children(h[v.id]);
      forall i | 0 <= i < |vs|
        ensures SameBelow(h, k, vs[i])
      {
        SameBelowChild(h, k, v, i);
      }
      if v.Array? {
        SameUnfoldings(h, k, vs, Height(h, v), Height(k, v));
      } else {
        SameMembers(h, k, h[v.id].fields, Height(h, v), Height(k, v));
      }
    }
  }

  lemma {:induction false} SameUnfoldings(h: Heap, k: Heap, vs: seq<Var>, bound: nat, other: nat)
    requires WellFormed(h) && Acyclic(h) && WellFormed(k) && Acyclic(k)
    requires AllValid(h, vs) && AllLower(h, vs, bound) && AllValid(k, vs) && AllLower(k, vs, other)
    requires forall i :: 0 <= i < |vs| ==> SameBelow(h, k, vs[i])
    ensures ToValues(k, vs, other) == ToValues(h, vs, bound)
    decreases bound, 0, |vs|
  {
    if |vs| > 0 {
      SameUnfolding(h, k, vs[0]);
      SameUnfoldings(h, k, vs[1..], bound, other);
    }
  }

  lemma {:induction false} SameMembers(h: Heap, k: Heap, fields: seq<(string, Var)>, bound: nat, other: nat)
    requires WellFormed(h) && Acyclic(h) && WellFormed(k) && Acyclic(k)
    requires AllValid(h, Values(fields)) && AllLower(h, Values(fields), bound)
    requires AllValid(k, Values(fields)) && AllLower(k, Values(fields), other)
    requires forall i :: 0 <= i < |fields| ==> SameBelow(h, k, Values(fields)[i])
    ensures ToMembers(k, fields, other) == ToMembers(h, fields, bound)
    decreases bound, 0, |fields|
  {
    if |fields| > 0 {
      assert Values(fields)[0] == fields[0].1;
      SameUnfolding(h, k, fields[0].1);
      forall i | 0 <= i < |fields[1..]|
        ensures Values(fields[1..])[i] == Values(fields)[i + 1]
      {
      }
      SameMembers(h, k, fields[1..], bound, other);
    }
  }

  /** A mutation of a node changes only the unfoldings of values that lead to it. */
  lemma MutationIsLocal(h: Heap, receiver: Var, edit: Edit, v: Var)
    requires WellFormed(h) && Acyclic(h) && Valid(h, receiver) && Valid(h, v)
    requires Inserted(edit).Some? ==> Valid(h, Inserted(edit).value)
    requires IsAggregate(receiver) ==> !Leads(h, v, receiver.id)
    ensures var k := Mutate(h, receiver, edit).0;
            WellFormed(k) && Acyclic(k) && Valid(k, v) && ToValue(k, v) == ToValue(h, v)
  {
    MutationKeepsAcyclic(h, receiver, edit);
    SameUnfolding(h, Mutate(h, receiver, edit).0, v);
  }

  // ----- reading -----

  ghost predicate Extends(h: Heap, k: Heap) {
    && WellFormed(k) && Acyclic(k) && |h| <= |k| && k[..|h|] == h
  }

  lemma ExtendsIndex(h: Heap, k: Heap)
    requires Extends(h, k)
    ensures forall x :: 0 <= x < |h| ==> k[x] == h[x]
    ensures forall v :: Valid(h, v) ==> Valid(k, v)
  {
    forall x | 0 <= x < |h|
      ensures k[x] == h[x]
    {
      assert k[..|h|][x] == k[x];
    }
  }

  lemma ExtendsTransitive(a: Heap, b: Heap, c: Heap)
    requires Extends(a, b) && Extends(b, c)
    ensures Extends(a, c)
  {
    assert c[..|a|] == c[..|b|][..|a|];
  }

  /** Older values keep their unfolding. */
  lemma OldUnfolding(h: Heap, k: Heap, v: Var)
    requires WellFormed(h) && Acyclic(h) && Extends(h, k) && Valid(h, v)
    ensures Valid(k, v) && ToValue(k, v) == ToValue(h, v)
  {
    ExtendsIndex(h, k);
    SameUnfolding(h, k, v);
  }

  lemma NewNode(h: Heap, node: Node)
    requires WellFormed(h) && Acyclic(h) && AllValid(h, Children(node))
    ensures Extends(h, h + [node])
  {
    NewNodeKeepsAcyclic(h, node);
  }

  lemma {:induction false} FromValueReads(h: Heap, j: Json)
    requires WellFormed(h) && Acyclic(h) && Sorted(j)
    ensures var (k, v) := FromValue(h, j);
            Extends(h, k) && Valid(k, v) && ToValue(k, v) == j
    decreases j, 0
  {
    match j
    case JsonArray(items) =>
      FromValuesReads(h, items);
      var (k, vs) := FromValues(h, items);
      NewNode(k, Elements(vs));
      ArrayUnfolds(k, vs, items);
      ExtendsTransitive(h, k, k + [Elements(vs)]);
    case JsonObject(members) =>
      FromMembersReads(h, members);
      var (k, fields) := FromMembers(h, members);
      MembersOrdered(members, fields);
      CollectOrdered(fields);
      NewNode(k, Members(fields));
      ObjectUnfolds(k, fields, members);
      ExtendsTransitive(h, k, k + [Members(fields)]);
    case _ =>
  }

  ghost predicate Unfold(h: Heap, vs: seq<Var>, items: seq<Json>) {
    && WellFormed(h) && Acyclic(h) && |vs| == |items| && AllValid(h, vs)
    && forall i :: 0 <= i < |vs| ==> ToValue(h, vs[i]) == items[i]
  }

  ghost predicate UnfoldMembers(h: Heap, fields: seq<(string, Var)>, members: seq<(string, Json)>) {
    && WellFormed(h) && Acyclic(h) && |fields| == |members| && AllValid(h, Values(fields))
    && forall i :: 0 <= i < |fields| ==>
         fields[i].0 == members[i].0 && Valid(h, fields[i].1) && ToValue(h, fields[i].1) == members[i].1
  }

  lemma MembersOrdered(members: seq<(string, Json)>, fields: seq<(string, Var)>)
    requires |fields| == |members| && (forall i :: 0 <= i < |fields| ==> fields[i].0 == members[i].0)
    requires Ordered(members)
    ensures Ordered(fields)
  {
  }

  lemma {:induction false} FromValuesReads(h: Heap, items: seq<Json>)
    requires WellFormed(h) && Acyclic(h) && forall i :: 0 <= i < |items| ==> Sorted(items[i])
    ensures var (k, vs) := FromValues(h, items);
            Extends(h, k) && Unfold(k, vs, items)
    decreases items, 0
  {
    if |items| > 0 {
      FromValueReads(h, items[0]);
      var (k, v) := FromValue(h, items[0]);
      FromValuesReads(k, items[1..]);
      var (k1, rest) := FromValues(k, items[1..]);
      ExtendsTransitive(h, k, k1);
      OldUnfolding(k, k1, v);
    }
  }

  lemma {:induction false} FromMembersReads(h: Heap, members: seq<(string, Json)>)
    requires WellFormed(h) && Acyclic(h) && forall i :: 0 <= i < |members| ==> SortedMember(members[i])
    ensures var (k, fields) := FromMembers(h, members);
            Extends(h, k) && UnfoldMembers(k, fields, members)
    decreases members, 0
  {
    if |members| > 0 {
      FromMemberReads(h, members[0]);
      var (k, f) := FromMember(h, members[0]);
      FromMembersReads(k, members[1..]);
      var (k1, rest) := FromMembers(k, members[1..]);
      ExtendsTransitive(h, k, k1);
      OldUnfolding(k, k1, f.1);
      forall i | 0 <= i < |members|
        ensures Valid(k1, Values([f] + rest)[i])
      {
        if i > 0 {
          assert Values([f] + rest)[i] == Values(rest)[i - 1];
        }
      }
    }
  }

  lemma {:induction false} FromMemberReads(h: Heap, member: (string, Json))
    requires WellFormed(h) && Acyclic(h) && SortedMember(member)
    ensures var (k, f) := FromMember(h, member);
            Extends(h, k) && f.0 == member.0 && Valid(k, f.1) && ToValue(k, f.1) == member.1
    decreases member, 0
  {
    FromValueReads(h, member.1);
  }

  lemma ElementsLower(h: Heap, id: nat)
    requires WellFormed(h) && Acyclic(h) && id < |h| && h[id].Elements?
    ensures AllValid(h, h[id].values) && AllLower(h, h[id].values, Height(h, Array(id)))
  {
    ChildrenLower(h, id);
  }

  lemma ArrayIs(h: Heap, id: nat)
    requires WellFormed(h) && Acyclic(h) && id < |h| && h[id].Elements?
    requires AllValid(h, h[id].values) && AllLower(h, h[id].values, Height(h, Array(id)))
    ensures ToValue(h, Array(id)) == JsonArray(ToValues(h, h[id].values, Height(h, Array(id))))
  {
  }

  lemma FieldsLower(h: Heap, id: nat)
    requires WellFormed(h) && Acyclic(h) && id < |h| && h[id].Members?
    ensures AllValid(h, Values(h[id].fields)) && AllLower(h, Values(h[id].fields), Height(h, Object(id)))
  {
    ChildrenLower(h, id);
  }

  lemma ObjectIs(h: Heap, id: nat)
    requires WellFormed(h) && Acyclic(h) && id < |h| && h[id].Members?
    requires AllValid(h, Values(h[id].fields)) && AllLower(h, Values(h[id].fields), Height(h, Object(id)))
    ensures ToValue(h, Object(id)) == JsonObject(ToMembers(h, h[id].fields, Height(h, Object(id))))
  {
  }

  lemma ItemsStillUnfold(h: Heap, k: Heap, vs: seq<Var>, items: seq<Json>)
    requires Unfold(h, vs, items) && Extends(h, k)
    ensures Unfold(k, vs, items)
  {
    forall i | 0 <= i < |vs|
      ensures Valid(k, vs[i]) && ToValue(k, vs[i]) == items[i]
    {
      OldUnfolding(h, k, vs[i]);
    }
  }

  lemma ArrayUnfolds(h: Heap, vs: seq<Var>, items: seq<Json>)
    requires Unfold(h, vs, items) && Extends(h, h + [Elements(vs)])
    ensures ToValue(h + [Elements(vs)], Array(|h|)) == JsonArray(items)
  {
    var k := h + [Elements(vs)];
    ItemsStillUnfold(h, k, vs, items);
    ElementsLower(k, |h|);
    ArrayIs(k, |h|);
    ItemsUnfold(k, vs, items, Height(k, Array(|h|)));
  }

  lemma {:induction false} ItemsUnfold(h: Heap, vs: seq<Var>, items: seq<Json>, bound: nat)
    requires Unfold(h, vs, items) && AllLower(h, vs, bound)
    ensures ToValues(h, vs, bound) == items
    decreases |vs|
  {
    if |vs| > 0 {
      ItemsUnfold(h, vs[1..], items[1..], bound);
      assert items == [items[0]] + items[1..];
    }
  }

  lemma ObjectUnfolds(h: Heap, fields: seq<(string, Var)>, members: seq<(string, Json)>)
    requires UnfoldMembers(h, fields, members) && Extends(h, h + [Members(fields)])
    ensures ToValue(h + [Members(fields)], Object(|h|)) == JsonObject(members)
  {
    var k := h + [Members(fields)];
    forall i | 0 <= i < |fields|
      ensures Valid(k, fields[i].1) && ToValue(k, fields[i].1) == members[i].1
    {
      OldUnfolding(h, k, fields[i].1);
    }
    assert k[|h|] == Members(fields) && UnfoldMembers(k, fields, members);
    FieldsLower(k, |h|);
    ObjectIs(k, |h|);
    FieldsUnfold(k, fields, members, Height(k, Object(|h|)));
  }

  lemma {:induction false} FieldsUnfold(h: Heap, fields: seq<(string, Var)>, members: seq<(string, Json)>, bound: nat)
    requires UnfoldMembers(h, fields, members) && AllLower(h, Values(fields), bound)
    ensures ToMembers(h, fields, bound) == members
    decreases |fields|
  {
    if |fields| > 0 {
      forall i | 0 <= i < |fields[1..]|
        ensures Values(fields[1..])[i] == Values(fields)[i + 1]
      {
      }
      FieldsUnfold(h, fields[1..], members[1..], bound);
      assert members == [members[0]] + members[1..];
    }
  }

  /**
   Reading a document touches only fresh nodes, and writing the value read gives the document back;
   the unfoldings of all older values stay what they were.
   */
  lemma ReadThenWrite(h: Heap, j: Json, older: Var)
    requires WellFormed(h) && Acyclic(h) && Sorted(j) && Valid(h, older)
    ensures var (k, v) := FromValue(h, j);
            && WellFormed(k) && Acyclic(k) && |h| <= |k| && k[..|h|] == h
            && Valid(k, v) && ToValue(k, v) == j
            && Valid(k, older) && ToValue(k, older) == ToValue(h, older)
  {
    FromValueReads(h, j);
    OldUnfolding(h, FromValue(h, j).0, older);
  }
}
