/** Mutating JSON values, and turning them into trees and back. */
module JsonValues {
  import opened Wrappers
  import opened JsonHeaps
  import opened JsonCycles

  // ----- members, ordered by name -----

  predicate Before(a: string, b: string) {
    if |a| == 0 then |b| > 0
    else if |b| == 0 then false
    else if a[0] != b[0] then a[0] < b[0]
    else Before(a[1..], b[1..])
  }

  lemma {:induction false} BeforeTotal(a: string, b: string)
    ensures Before(a, b) || Before(b, a) || a == b
    ensures !(Before(a, b) && Before(b, a)) && !Before(a, a)
  {
    if |a| > 0 && |b| > 0 && a[0] == b[0] {
      BeforeTotal(a[1..], b[1..]);
      assert a == [a[0]] + a[1..] && b == [b[0]] + b[1..];
    }
    if |a| > 0 {
      BeforeTotal(a[1..], a[1..]);
    }
  }

  lemma {:induction false} BeforeTransitive(a: string, b: string, c: string)
    requires Before(a, b) && Before(b, c)
    ensures Before(a, c)
  {
    if |a| > 0 && a[0] == b[0] && b[0] == c[0] {
      BeforeTransitive(a[1..], b[1..], c[1..]);
    }
  }

  /** A later value for a name replaces an earlier one. */
  function Put<V>(fields: seq<(string, V)>, name: string, v: V): seq<(string, V)> {
    if |fields| == 0 then [(name, v)]
    else if fields[0].0 == name then [(name, v)] + fields[1..]
    else if Before(name, fields[0].0) then [(name, v)] + fields
    else [fields[0]] + Put(fields[1..], name, v)
  }

  function Drop<V>(fields: seq<(string, V)>, name: string): seq<(string, V)> {
    if |fields| == 0 then []
    else if fields[0].0 == name then fields[1..]
    else [fields[0]] + Drop(fields[1..], name)
  }

  function Get<V>(fields: seq<(string, V)>, name: string): Option<V> {
    if |fields| == 0 then None
    else if fields[0].0 == name then Some(fields[0].1)
    else Get(fields[1..], name)
  }

  function Collect<V>(fields: seq<(string, V)>): seq<(string, V)> {
    if |fields| == 0 then []
    else Put(Collect(fields[..|fields| - 1]), fields[|fields| - 1].0, fields[|fields| - 1].1)
  }

  predicate Ordered<V>(fields: seq<(string, V)>) {
    forall i, j :: 0 <= i < j < |fields| ==> Before(fields[i].0, fields[j].0)
  }

  lemma {:induction false} PutOrdered<V>(fields: seq<(string, V)>, name: string, v: V)
    requires Ordered(fields)
    ensures Ordered(Put(fields, name, v))
    ensures forall i :: 0 <= i < |Put(fields, name, v)| ==>
              || Put(fields, name, v)[i].0 == name
              || exists j :: 0 <= j < |fields| && fields[j].0 == Put(fields, name, v)[i].0
    ensures forall n :: Get(Put(fields, name, v), n) == if n == name then Some(v) else Get(fields, n)
  {
    if |fields| > 0 && fields[0].0 != name {
      BeforeTotal(name, fields[0].0);
      if Before(name, fields[0].0) {
        forall j | 0 < j < |fields|
          ensures Before(name, fields[j].0)
        {
          BeforeTransitive(name, fields[0].0, fields[j].0);
        }
      } else {
        PutOrdered(fields[1..], name, v);
      }
    }
  }

  lemma {:induction false} PutAfterAll<V>(fields: seq<(string, V)>, name: string, v: V)
    requires forall i :: 0 <= i < |fields| ==> Before(fields[i].0, name)
    ensures Put(fields, name, v) == fields + [(name, v)]
  {
    if |fields| > 0 {
      BeforeTotal(fields[0].0, name);
      PutAfterAll(fields[1..], name, v);
      assert fields == [fields[0]] + fields[1..];
    }
  }

  lemma {:induction false} CollectOrdered<V>(fields: seq<(string, V)>)
    requires Ordered(fields)
    ensures Collect(fields) == fields
    decreases |fields|
  {
    if |fields| > 0 {
      var last := |fields| - 1;
      CollectOrdered(fields[..last]);
      PutAfterAll(fields[..last], fields[last].0, fields[last].1);
      assert fields == fields[..last] + [fields[last]];
    }
  }

  lemma InTail<V>(fields: seq<(string, V)>, x: V)
    requires |fields| > 0 && x in Values(fields[1..])
    ensures x in Values(fields)
  {
    var m :| 0 <= m < |Values(fields[1..])| && Values(fields[1..])[m] == x;
    assert Values(fields)[m + 1] == x;
  }

  lemma {:induction false} PutValues<V>(fields: seq<(string, V)>, name: string, v: V)
    ensures forall x :: x in Values(Put(fields, name, v)) ==> x == v || x in Values(fields)
    ensures v in Values(Put(fields, name, v))
  {
    var k := Put(fields, name, v);
    if |fields| == 0 || fields[0].0 == name || Before(name, fields[0].0) {
      assert Values(k)[0] == v;
      forall x | x in Values(k)
        ensures x == v || x in Values(fields)
      {
        var i :| 0 <= i < |k| && Values(k)[i] == x;
        if i > 0 {
          var j := if fields[0].0 == name then i else i - 1;
          assert Values(fields)[j] == x;
        }
      }
    } else {
      PutValues(fields[1..], name, v);
      var i :| 0 <= i < |Values(Put(fields[1..], name, v))| && Values(Put(fields[1..], name, v))[i] == v;
      assert Values(k)[i + 1] == v;
      forall x | x in Values(k)
        ensures x == v || x in Values(fields)
      {
        var j :| 0 <= j < |k| && Values(k)[j] == x;
        if j == 0 {
          assert Values(fields)[0] == x;
        } else {
          assert Values(Put(fields[1..], name, v))[j - 1] == x;
          if x != v {
            InTail(fields, x);
          }
        }
      }
    }
  }

  lemma {:induction false} DropValues<V>(fields: seq<(string, V)>, name: string)
    ensures forall x :: x in Values(Drop(fields, name)) ==> x in Values(fields)
  {
    var k := Drop(fields, name);
    if |fields| > 0 {
      DropValues(fields[1..], name);
      forall x | x in Values(k)
        ensures x in Values(fields)
      {
        var j :| 0 <= j < |k| && Values(k)[j] == x;
        if fields[0].0 == name {
          assert Values(fields)[j + 1] == x;
        } else if j == 0 {
          assert Values(fields)[0] == x;
        } else {
          assert Values(Drop(fields[1..], name))[j - 1] == x;
          InTail(fields, x);
        }
      }
    }
  }

  // ----- mutations -----

  const USIZE_MAX: nat := 0xFFFF_FFFF_FFFF_FFFF

  datatype Edit =
    | SetField(name: string, value: Var)
    | SetIndex(index: nat, value: Var)
    | Push(value: Var)
    | Pop
    | Insert(index: nat, value: Var)
    | RemoveIndex(index: nat)
    | RemoveField(name: string)
    | Clear

  datatype JsonError = WrongKind | WouldCycle | BadIndex

  predicate Suits(receiver: Var, edit: Edit) {
    match edit
    case SetField(_, _) => receiver.Object?
    case RemoveField(_) => receiver.Object?
    case Clear => IsAggregate(receiver)
    case _ => receiver.Array?
  }

  /** The value an edit puts into the node. */
  function Inserted(edit: Edit): Option<Var> {
    match edit
    case SetField(_, value) => Some(value)
    case SetIndex(_, value) => Some(value)
    case Push(value) => Some(value)
    case Insert(_, value) => Some(value)
    case _ => None
  }

  function Nulls(count: nat): seq<Var> {
    seq(count, i => Null)
  }

  /** The node after the edit and the value handed back; `None` where the index is out of range. */
  function Apply(edit: Edit, node: Node): Option<(Node, Var)>
    requires Clear == edit || (if edit.SetField? || edit.RemoveField? then node.Members? else node.Elements?)
  {
    match edit
    case SetField(name, value) => Some((Members(Put(node.fields, name, value)), Null))
    case SetIndex(index, value) =>
      var vs := node.values;
      if index < |vs| then Some((Elements(vs[index := value]), Null))
      else if index >= USIZE_MAX then None
      else Some((Elements(vs + Nulls(index - |vs|) + [value]), Null))
    case Push(value) => Some((Elements(node.values + [value]), Null))
    case Pop =>
      var vs := node.values;
      if |vs| == 0 then Some((node, Null)) else Some((Elements(vs[..|vs| - 1]), vs[|vs| - 1]))
    case Insert(index, value) =>
      var vs := node.values;
      if index > |vs| then None else Some((Elements(vs[..index] + [value] + vs[index..]), Null))
    case RemoveIndex(index) =>
      var vs := node.values;
      if index >= |vs| then None else Some((Elements(vs[..index] + vs[index + 1..]), vs[index]))
    case RemoveField(name) =>
      var removed := Get(node.fields, name);
      Some((Members(Drop(node.fields, name)), if removed.Some? then removed.value else Null))
    case Clear => Some((if node.Elements? then Elements([]) else Members([]), Null))
  }

  /** A whole mutation, in the order its checks are made. */
  function Mutate(h: Heap, receiver: Var, edit: Edit): (Heap, Result<Var, JsonError>)
    requires WellFormed(h) && Valid(h, receiver) && (Inserted(edit).Some? ==> Valid(h, Inserted(edit).value))
  {
    if !Suits(receiver, edit) then (h, Failure(WrongKind))
    else if Inserted(edit).Some? && Contains(h, Inserted(edit).value, receiver.id, {}).0 then (h, Failure(WouldCycle))
    else
      var result := Apply(edit, h[receiver.id]);
      if result.None? then (h, Failure(BadIndex))
      else (h[receiver.id := result.value.0], Success(result.value.1))
  }

  /** The children of an edited node were there before, are `null`, or are the inserted value. */
  lemma EditedChildren(edit: Edit, node: Node)
    requires edit.Clear? || (if edit.SetField? || edit.RemoveField? then node.Members? else node.Elements?)
    requires Apply(edit, node).Some?
    ensures var k := Apply(edit, node).value.0;
            && (k.Elements? <==> node.Elements?)
            && (forall x :: x in Children(k) ==> x in Children(node) || x == Null || Inserted(edit) == Some(x))
            && (Inserted(edit).Some? ==> Inserted(edit).value in Children(k))
  {
    match edit
    case SetField(name, value) => PutValues(node.fields, name, value);
    case RemoveField(name) => DropValues(node.fields, name);
    case SetIndex(index, value) =>
      var k := Apply(edit, node).value.0;
      assert k.values[index] == value;
    case Push(value) => assert Apply(edit, node).value.0.values[|node.values|] == value;
    case Insert(index, value) => assert Apply(edit, node).value.0.values[index] == value;
    case _ =>
  }

  lemma RefersIn(vs: seq<Var>, x: Var)
    requires x in vs && IsAggregate(x)
    ensures RefersTo(vs, x.id)
  {
    var i :| 0 <= i < |vs| && vs[i] == x;
  }

  /** The node an inserted value refers to. */
  function InsertedId(edit: Edit): Option<nat> {
    if Inserted(edit).Some? && IsAggregate(Inserted(edit).value) then Some(Inserted(edit).value.id) else None
  }

  /** The heap with the node `u` changed in kind-preserving ways stays well formed. */
  lemma StaysWellFormed(h: Heap, u: nat, node: Node)
    requires WellFormed(h) && u < |h| && (node.Elements? <==> h[u].Elements?) && AllValid(h, Children(node))
    ensures WellFormed(h[u := node])
  {
    var k := h[u := node];
    forall x | 0 <= x < |k|
      ensures AllValid(k, Children(k[x]))
    {
      assert AllValid(h, Children(h[x]));
      assert AllValid(h, Children(k[x]));
    }
  }

  lemma EditedValid(h: Heap, u: nat, edit: Edit)
    requires WellFormed(h) && u < |h|
    requires edit.Clear? || (if edit.SetField? || edit.RemoveField? then h[u].Members? else h[u].Elements?)
    requires Apply(edit, h[u]).Some? && (Inserted(edit).Some? ==> Valid(h, Inserted(edit).value))
    ensures WellFormed(h[u := Apply(edit, h[u]).value.0])
  {
    EditedChildren(edit, h[u]);
    var node := Apply(edit, h[u]).value.0;
    forall i | 0 <= i < |Children(node)|
      ensures Valid(h, Children(node)[i])
    {
      assert Children(node)[i] in Children(node);
      assert AllValid(h, Children(h[u]));
    }
    StaysWellFormed(h, u, node);
  }

  /** An edit rewires its node: at most one new edge, to the inserted value. */
  lemma EditRewires(h: Heap, receiver: Var, edit: Edit)
    requires WellFormed(h) && Valid(h, receiver) && Suits(receiver, edit)
    requires Inserted(edit).Some? ==> Valid(h, Inserted(edit).value)
    requires Apply(edit, h[receiver.id]).Some?
    ensures var k := h[receiver.id := Apply(edit, h[receiver.id]).value.0];
            && WellFormed(k)
            && Rewired(h, k, receiver.id, InsertedId(edit))
            && (InsertedId(edit).Some? ==> Edge(k, receiver.id, InsertedId(edit).value))
  {
    var u := receiver.id;
    EditedChildren(edit, h[u]);
    EditedValid(h, u, edit);
    var node := Apply(edit, h[u]).value.0;
    forall y: nat | Edge(h[u := node], u, y)
      ensures Edge(h, u, y) || InsertedId(edit) == Some(y)
    {
      var i :| 0 <= i < |Children(node)| && IsAggregate(Children(node)[i]) && Children(node)[i].id == y;
      var c := Children(node)[i];
      assert c in Children(node);
      if c in Children(h[u]) {
        RefersIn(Children(h[u]), c);
      }
    }
    if InsertedId(edit).Some? {
      RefersIn(Children(node), Inserted(edit).value);
    }
  }

  /** Whatever a mutation does, the graph stays well formed and acyclic, and a refusal changes nothing. */
  lemma MutationKeepsAcyclic(h: Heap, receiver: Var, edit: Edit)
    requires WellFormed(h) && Acyclic(h) && Valid(h, receiver)
    requires Inserted(edit).Some? ==> Valid(h, Inserted(edit).value)
    ensures var (k, result) := Mutate(h, receiver, edit);
            && WellFormed(k) && Acyclic(k) && |k| == |h| && (result.Failure? ==> k == h)
            && forall x :: 0 <= x < |h| && !(IsAggregate(receiver) && x == receiver.id) ==> k[x] == h[x]
  {
    var (k, result) := Mutate(h, receiver, edit);
    if result.Success? {
      EditRewires(h, receiver, edit);
      var v := Inserted(edit);
      if v.Some? {
        SearchDecidesReach(h, v.value, receiver.id);
      }
      RewiringKeepsAcyclic(h, k, receiver.id, InsertedId(edit));
    }
  }

  /** A mutation whose index is in range is refused as a cycle exactly when it would make one. */
  lemma CycleRefusedExactly(h: Heap, receiver: Var, edit: Edit)
    requires WellFormed(h) && Acyclic(h) && Valid(h, receiver) && Suits(receiver, edit)
    requires Inserted(edit).Some? ==> Valid(h, Inserted(edit).value)
    requires Apply(edit, h[receiver.id]).Some?
    ensures Mutate(h, receiver, edit).1 == Failure(WouldCycle)
            <==> !Acyclic(h[receiver.id := Apply(edit, h[receiver.id]).value.0])
  {
    EditRewires(h, receiver, edit);
    var k := h[receiver.id := Apply(edit, h[receiver.id]).value.0];
    var v := Inserted(edit);
    if v.Some? {
      SearchDecidesReach(h, v.value, receiver.id);
    }
    if v.Some? && Leads(h, v.value, receiver.id) {
      RewiringMakesCycle(h, k, receiver.id, v.value.id);
    } else {
      RewiringKeepsAcyclic(h, k, receiver.id, InsertedId(edit));
    }
  }
}
