/** Which struct types can be converted to JSON: a recursive check over fields and bases. */
module JsonSupport {
  import opened Wrappers
  import opened Graphs

  type StructId = int

  /** `StructType(None)`: a path that names no struct. */
  datatype FieldType =
    | Scalar
    | Container(element: FieldType)
    | Mapping(stringKey: bool, value: FieldType)
    | StructType(id: Option<StructId>)
    | Other

  datatype Field = Field(name: string, ty: FieldType)

  datatype Structure = Structure(fields: seq<Field>, base: Option<StructId>)

  type Structures = map<StructId, Structure>

  /** The struct and its bases, the struct first; `None` where a base is missing or repeats. */
  function Chain(structs: Structures, current: Option<StructId>, seen: set<StructId>): Option<seq<StructId>>
    decreases structs.Keys - seen
  {
    if current.None? then Some([])
    else if current.value in seen || current.value !in structs then None
    else
      assert current.value in structs.Keys - seen;
      Prefixed([current.value], Chain(structs, structs[current.value].base, seen + {current.value}))
  }

  function Prefixed(found: seq<StructId>, rest: Option<seq<StructId>>): Option<seq<StructId>> {
    if rest.None? then None else Some(found + rest.value)
  }

  lemma PrefixedNext(found: seq<StructId>, id: StructId, rest: Option<seq<StructId>>)
    ensures Prefixed(found, Prefixed([id], rest)) == Prefixed(found + [id], rest)
    ensures Prefixed([], rest) == rest && Prefixed(found, Some([])) == Some(found)
  {
    if rest.Some? {
      assert found + ([id] + rest.value) == found + [id] + rest.value;
      assert [] + rest.value == rest.value;
    }
    assert found + [] == found;
  }

  /** Fields of a chain, those of the outermost base first. */
  function FieldsOf(structs: Structures, chain: seq<StructId>): seq<Field> {
    if |chain| == 0 then []
    else FieldsOf(structs, chain[1..]) + if chain[0] in structs then structs[chain[0]].fields else []
  }

  function Supported(structs: Structures, id: StructId, visiting: set<StructId>): bool
    decreases structs.Keys - visiting, 0
  {
    if id in visiting || id !in structs then false
    else
      assert id in structs.Keys - visiting;
      var chain := Chain(structs, Some(id), {});
      chain.Some? && FieldsSupported(structs, FieldsOf(structs, chain.value), {}, visiting + {id})
  }

  function FieldsSupported(structs: Structures, fields: seq<Field>, names: set<string>, visiting: set<StructId>): bool
    decreases structs.Keys - visiting, 2, |fields|
  {
    if |fields| == 0 then true
    else
      && fields[0].name !in names
      && TypeSupported(structs, fields[0].ty, visiting)
      && FieldsSupported(structs, fields[1..], names + {fields[0].name}, visiting)
  }

  function TypeSupported(structs: Structures, ty: FieldType, visiting: set<StructId>): bool
    decreases structs.Keys - visiting, 1, ty
  {
    match ty
    case Scalar => true
    case Container(element) => TypeSupported(structs, element, visiting)
    case Mapping(stringKey, value) => stringKey && TypeSupported(structs, value, visiting)
    case StructType(id) => id.Some? && Supported(structs, id.value, visiting)
    case Other => false
  }

  // ----- what the check decides -----

  /** Struct types a type mentions. */
  function Mentions(ty: FieldType): set<StructId> {
    match ty
    case Container(element) => Mentions(element)
    case Mapping(_, value) => Mentions(value)
    case StructType(id) => if id.Some? then {id.value} else {}
    case _ => {}
  }

  predicate Convertible(ty: FieldType) {
    match ty
    case Scalar => true
    case Container(element) => Convertible(element)
    case Mapping(stringKey, value) => stringKey && Convertible(value)
    case StructType(id) => id.Some?
    case Other => false
  }

  function AllMentions(fields: seq<Field>): (ids: set<StructId>)
    ensures forall id :: id in ids <==> exists i :: 0 <= i < |fields| && id in Mentions(fields[i].ty)
  {
    if |fields| == 0 then {}
    else
      var rest := AllMentions(fields[..|fields| - 1]);
      assert forall i :: 0 <= i < |fields| - 1 ==> fields[i] == fields[..|fields| - 1][i];
      rest + Mentions(fields[|fields| - 1].ty)
  }

  /** All fields of a struct, inherited ones included, if its bases are in order. */
  function Flattened(structs: Structures, id: StructId): seq<Field> {
    var chain := Chain(structs, Some(id), {});
    if chain.None? then [] else FieldsOf(structs, chain.value)
  }

  /** A struct leads to those its fields contain. */
  function Contained(structs: Structures): Graph<StructId> {
    map id | id in structs :: AllMentions(Flattened(structs, id))
  }

  /** A struct that can be converted if those it contains can. */
  ghost predicate LocallyFine(structs: Structures, id: StructId) {
    && id in structs
    && Chain(structs, Some(id), {}).Some?
    && (forall i, j :: 0 <= i < j < |Flattened(structs, id)| ==>
      Flattened(structs, id)[i].name != Flattened(structs, id)[j].name)
    && (forall i :: 0 <= i < |Flattened(structs, id)| ==> Convertible(Flattened(structs, id)[i].ty))
  }

  lemma {:induction false} TypeCondition(structs: Structures, ty: FieldType, visiting: set<StructId>)
    ensures TypeSupported(structs, ty, visiting)
            <==> Convertible(ty) && forall t :: t in Mentions(ty) ==> Supported(structs, t, visiting)
    decreases ty
  {
    match ty
    case Container(element) => TypeCondition(structs, element, visiting);
    case Mapping(_, value) => TypeCondition(structs, value, visiting);
    case StructType(mentioned) =>
      if mentioned.Some? {
        assert Mentions(ty) == {mentioned.value};
        assert TypeSupported(structs, ty, visiting) == Supported(structs, mentioned.value, visiting);
      }
    case _ =>
  }

  lemma {:induction false} FieldsCondition(
    structs: Structures, fields: seq<Field>, names: set<string>, visiting: set<StructId>)
    ensures FieldsSupported(structs, fields, names, visiting)
            <==> && (forall i :: 0 <= i < |fields| ==> fields[i].name !in names)
                 && (forall i, j :: 0 <= i < j < |fields| ==> fields[i].name != fields[j].name)
                 && (forall i :: 0 <= i < |fields| ==> TypeSupported(structs, fields[i].ty, visiting))
    decreases |fields|
  {
    if |fields| > 0 {
      FieldsCondition(structs, fields[1..], names + {fields[0].name}, visiting);
      assert forall i :: 0 < i < |fields| ==> fields[i] == fields[1..][i - 1];
    }
  }

  ghost predicate AllSupported(structs: Structures, ids: set<StructId>, visiting: set<StructId>) {
    forall t :: t in ids ==> Supported(structs, t, visiting)
  }

  lemma MentionsSupported(structs: Structures, fields: seq<Field>, visiting: set<StructId>)
    ensures (forall i :: 0 <= i < |fields| ==> TypeSupported(structs, fields[i].ty, visiting))
            <==> && (forall i :: 0 <= i < |fields| ==> Convertible(fields[i].ty))
                 && AllSupported(structs, AllMentions(fields), visiting)
  {
    forall i | 0 <= i < |fields|
      ensures TypeSupported(structs, fields[i].ty, visiting)
              <==> Convertible(fields[i].ty) && AllSupported(structs, Mentions(fields[i].ty), visiting)
    {
      TypeCondition(structs, fields[i].ty, visiting);
    }
    if AllSupported(structs, AllMentions(fields), visiting) {
      forall i | 0 <= i < |fields|
        ensures AllSupported(structs, Mentions(fields[i].ty), visiting)
      {
        assert forall t :: t in Mentions(fields[i].ty) ==> t in AllMentions(fields);
      }
    }
  }

  /** One step of the check, without its recursion over fields and types. */
  lemma SupportedStep(structs: Structures, id: StructId, visiting: set<StructId>)
    ensures Supported(structs, id, visiting)
            <==> (&& id !in visiting && LocallyFine(structs, id)
                  && AllSupported(structs, Contained(structs)[id], visiting + {id}))
  {
    if id !in visiting && id in structs && Chain(structs, Some(id), {}).Some? {
      FieldsCondition(structs, Flattened(structs, id), {}, visiting + {id});
      MentionsSupported(structs, Flattened(structs, id), visiting + {id});
    }
  }

  /** With fewer structs being visited the check accepts no less. */
  lemma {:induction false} FewerVisiting(structs: Structures, id: StructId, more: set<StructId>, fewer: set<StructId>)
    requires fewer <= more && Supported(structs, id, more)
    ensures Supported(structs, id, fewer)
    decreases structs.Keys - more
  {
    SupportedStep(structs, id, more);
    SupportedStep(structs, id, fewer);
    assert id in structs.Keys - more;
    forall t | t in Contained(structs)[id]
      ensures Supported(structs, t, fewer + {id})
    {
      FewerVisiting(structs, t, more + {id}, fewer + {id});
    }
  }

  lemma {:induction false} SupportedBelow(
    structs: Structures, p: seq<StructId>, id: StructId, x: StructId, visiting: set<StructId>)
    requires Supported(structs, id, visiting) && Joins(Contained(structs), p, id, x)
    ensures Supported(structs, x, visiting)
    decreases |p|
  {
    if |p| > 1 {
      TailJoins(Contained(structs), p, x);
      SupportedStep(structs, id, visiting);
      FewerVisiting(structs, p[1], visiting + {id}, visiting);
      SupportedBelow(structs, p[1..], p[1], x, visiting);
    }
  }

  lemma SupportedFine(structs: Structures, id: StructId, x: StructId)
    requires Supported(structs, id, {}) && Reaches(Contained(structs), id, x)
    ensures LocallyFine(structs, x) && !OnCycle(Contained(structs), x)
  {
    var g := Contained(structs);
    var p :| Joins(g, p, id, x);
    SupportedBelow(structs, p, id, x, {});
    SupportedStep(structs, x, {});
    if OnCycle(g, x) {
      var t := CycleEdge(g, x);
      var back :| Joins(g, back, t, x);
      SupportedBelow(structs, back, t, x, {} + {x});
      SupportedStep(structs, x, {} + {x});
    }
  }

  lemma {:induction false} FineSupported(structs: Structures, id: StructId, visiting: set<StructId>)
    requires forall x :: Reaches(Contained(structs), id, x) ==>
               LocallyFine(structs, x) && !OnCycle(Contained(structs), x) && x !in visiting
    ensures Supported(structs, id, visiting)
    decreases structs.Keys - visiting
  {
    var g := Contained(structs);
    ReachesItself(g, id);
    assert id in structs.Keys - visiting;
    forall t | t in g[id]
      ensures Supported(structs, t, visiting + {id})
    {
      forall x | Reaches(g, t, x)
        ensures LocallyFine(structs, x) && !OnCycle(g, x) && x !in visiting + {id}
      {
        assert Edge(g, id, t);
        EdgeReaches(g, id, t, x);
        NeverBack(g, id, t, x);
      }
      FineSupported(structs, t, visiting + {id});
    }
    SupportedStep(structs, id, visiting);
  }

  /**
   The check accepts a struct exactly when every struct it leads to has bases in order, distinct names
   among all its fields and only convertible types, and none of them contains itself.
   */
  lemma SupportDecided(structs: Structures, id: StructId)
    ensures Supported(structs, id, {})
            <==> forall x :: Reaches(Contained(structs), id, x) ==>
                   LocallyFine(structs, x) && !OnCycle(Contained(structs), x)
  {
    if Supported(structs, id, {}) {
      forall x | Reaches(Contained(structs), id, x)
        ensures LocallyFine(structs, x) && !OnCycle(Contained(structs), x)
      {
        SupportedFine(structs, id, x);
      }
    } else if forall x :: Reaches(Contained(structs), id, x) ==>
      LocallyFine(structs, x) && !OnCycle(Contained(structs), x) {
      FineSupported(structs, id, {});
    }
  }

  // ----- the check as it runs -----

  /** The set of structs being visited is changed on the way and restored. */
  class Checker {
    const structs: Structures
    var visiting: set<StructId>

    constructor (structs: Structures)
      ensures this.structs == structs && visiting == {}
    {
      this.structs := structs;
      visiting := {};
    }

    method StructureSupported(id: StructId) returns (result: bool)
      modifies this
      ensures visiting == old(visiting) && result == Supported(structs, id, old(visiting))
      decreases structs.Keys - visiting, 0
    {
      if id in visiting {
        return false;
      }
      ghost var before := visiting;
      visiting := visiting + {id};
      var hierarchy := Hierarchy(id);
      result := hierarchy.Some?;
      if result {
        assert id in structs.Keys - before;
        result := AllFieldsSupported(hierarchy.value);
      }
      visiting := visiting - {id};
    }

    method Hierarchy(id: StructId) returns (hierarchy: Option<seq<StructId>>)
      ensures hierarchy == Chain(structs, Some(id), {})
    {
      var current, seen := Some(id), {};
      var found := [];
      PrefixedNext([], id, Chain(structs, current, seen));
      while current.Some?
        invariant Chain(structs, Some(id), {}) == Prefixed(found, Chain(structs, current, seen))
        decreases structs.Keys - seen, current.Some?
      {
        if current.value in seen || current.value !in structs {
          return None;
        }
        assert current.value in structs.Keys - seen;
        PrefixedNext(found, current.value, Chain(structs, structs[current.value].base, seen + {current.value}));
        seen := seen + {current.value};
        found := found + [current.value];
        current := structs[current.value].base;
      }
      PrefixedNext(found, id, None);
      hierarchy := Some(found);
    }

    /** From the outermost base down. */
    method AllFieldsSupported(hierarchy: seq<StructId>) returns (result: bool)
      modifies this
      ensures visiting == old(visiting)
      ensures result == FieldsSupported(structs, FieldsOf(structs, hierarchy), {}, old(visiting))
      decreases structs.Keys - visiting, 3
    {
      var fields := FieldsOf(structs, hierarchy);
      var names := {};
      result := true;
      assert fields[0..] == fields;
      var i := 0;
      while i < |fields| && result
        invariant 0 <= i <= |fields| && visiting == old(visiting)
        invariant (result && FieldsSupported(structs, fields[i..], names, visiting))
               == FieldsSupported(structs, fields, {}, visiting)
      {
        assert fields[i..][1..] == fields[i + 1..];
        if fields[i].name in names {
          result := false;
        } else {
          names := names + {fields[i].name};
          result := IsSupported(fields[i].ty);
        }
        i := i + 1;
      }
    }

    method IsSupported(ty: FieldType) returns (result: bool)
      modifies this
      ensures visiting == old(visiting) && result == TypeSupported(structs, ty, old(visiting))
      decreases structs.Keys - visiting, 1, ty
    {
      match ty
      case Scalar => result := true;
      case Container(element) => result := IsSupported(element);
      case Mapping(stringKey, value) =>
        result := stringKey;
        if stringKey {
          result := IsSupported(value);
        }
      case StructType(id) =>
        result := id.Some?;
        if id.Some? {
          result := StructureSupported(id.value);
        }
      case Other => result := false;
    }
  }

  // ----- inherited fields -----

  /** From each struct to its base. */
  function Bases(structs: Structures): Graph<StructId> {
    map id | id in structs :: if structs[id].base.Some? then {structs[id].base.value} else {}
  }

  /** `a` is the struct itself or one of its bases. */
  ghost predicate Inherits(structs: Structures, id: StructId, a: StructId) {
    Reaches(Bases(structs), id, a)
  }

  ghost predicate HasField(structs: Structures, id: StructId, a: StructId, i: nat) {
    Inherits(structs, id, a) && a in structs && i < |structs[a].fields|
  }

  ghost predicate BasesInOrder(structs: Structures, id: StructId) {
    forall a :: Inherits(structs, id, a) ==> a in structs && !OnCycle(Bases(structs), a)
  }

  /** Bases in order, and among the fields of them all distinct names and convertible types only. */
  ghost predicate Fine(structs: Structures, id: StructId) {
    && BasesInOrder(structs, id)
    && (forall a, i: nat, b, j: nat ::
          HasField(structs, id, a, i) && HasField(structs, id, b, j) && (a != b || i != j) ==>
            structs[a].fields[i].name != structs[b].fields[j].name)
    && (forall a, i: nat :: HasField(structs, id, a, i) ==> Convertible(structs[a].fields[i].ty))
  }

  /** Some field of the struct or of a base mentions `t`. */
  ghost predicate Contains(structs: Structures, id: StructId, t: StructId) {
    exists a, i: nat :: HasField(structs, id, a, i) && t in Mentions(structs[a].fields[i].ty)
  }

  // ----- the chain of bases -----

  ghost predicate IsChain(structs: Structures, chain: seq<StructId>) {
    && (forall k :: 0 <= k < |chain| ==> chain[k] in structs)
    && (forall k :: 0 <= k < |chain| - 1 ==> structs[chain[k]].base == Some(chain[k + 1]))
    && (|chain| > 0 ==> structs[chain[|chain| - 1]].base.None?)
    && (forall k, l :: 0 <= k < l < |chain| ==> chain[k] != chain[l])
  }

  lemma {:induction false} ChainLinks(structs: Structures, id: StructId, seen: set<StructId>)
    requires Chain(structs, Some(id), seen).Some?
    ensures var chain := Chain(structs, Some(id), seen).value;
            && |chain| > 0 && chain[0] == id && IsChain(structs, chain)
            && forall k :: 0 <= k < |chain| ==> chain[k] !in seen
    decreases structs.Keys - seen
  {
    assert id in structs.Keys - seen;
    if structs[id].base.Some? {
      ChainLinks(structs, structs[id].base.value, seen + {id});
      var rest := Chain(structs, structs[id].base, seen + {id}).value;
      var chain := [id] + rest;
      forall k | 0 < k < |chain|
        ensures chain[k] == rest[k - 1] && chain[k] !in seen && chain[k] != id
      {
        assert rest[k - 1] !in seen + {id};
      }
    } else {
      assert Chain(structs, None, seen + {id}) == Some([]);
    }
  }

  /** What the elements from `k` on lead to lies among them. */
  lemma ChainClosed(structs: Structures, chain: seq<StructId>, k: nat, x: StructId)
    requires IsChain(structs, chain) && k < |chain| && Inherits(structs, chain[k], x)
    ensures x in chain[k..]
  {
    var g := Bases(structs);
    var closed := set y | y in chain[k..];
    forall y, z | y in closed && Edge(g, y, z)
      ensures z in closed
    {
      var m :| k <= m < |chain| && chain[m] == y;
      assert chain[m + 1] == z && chain[k..][m + 1 - k] == z;
    }
    var p :| Joins(g, p, chain[k], x);
    assert chain[k..][0] == chain[k];
    ClosedContains(g, closed, p, chain[k], x);
  }

  lemma {:induction false} ChainReached(structs: Structures, chain: seq<StructId>, k: nat)
    requires IsChain(structs, chain) && k < |chain|
    ensures Inherits(structs, chain[0], chain[k])
    decreases k
  {
    if k == 0 {
      ReachesItself(Bases(structs), chain[0]);
    } else {
      ChainReached(structs, chain, k - 1);
      assert Edge(Bases(structs), chain[k - 1], chain[k]);
      ReachesOver(Bases(structs), chain[0], chain[k - 1], chain[k]);
    }
  }

  /** The chain is the struct and its bases. */
  lemma ChainIsInherited(structs: Structures, id: StructId, a: StructId)
    requires Chain(structs, Some(id), {}).Some?
    ensures a in Chain(structs, Some(id), {}).value <==> Inherits(structs, id, a)
  {
    var chain := Chain(structs, Some(id), {}).value;
    ChainLinks(structs, id, {});
    if a in chain {
      var k :| 0 <= k < |chain| && chain[k] == a;
      ChainReached(structs, chain, k);
    }
    if Inherits(structs, id, a) {
      ChainClosed(structs, chain, 0, a);
      assert chain[0..] == chain;
    }
  }

  lemma ChainIsInOrder(structs: Structures, id: StructId)
    requires Chain(structs, Some(id), {}).Some?
    ensures BasesInOrder(structs, id)
  {
    var chain := Chain(structs, Some(id), {}).value;
    ChainLinks(structs, id, {});
    forall a | Inherits(structs, id, a)
      ensures a in structs && !OnCycle(Bases(structs), a)
    {
      ChainIsInherited(structs, id, a);
      var k :| 0 <= k < |chain| && chain[k] == a;
      if OnCycle(Bases(structs), a) {
        var next := CycleEdge(Bases(structs), a);
        assert k + 1 < |chain| && next == chain[k + 1];
        ChainClosed(structs, chain, k + 1, a);
      }
    }
  }

  lemma {:induction false} OrderGivesChain(structs: Structures, id: StructId, seen: set<StructId>)
    requires BasesInOrder(structs, id)
    requires forall a :: Inherits(structs, id, a) ==> a !in seen
    ensures Chain(structs, Some(id), seen).Some?
    decreases structs.Keys - seen
  {
    var g := Bases(structs);
    ReachesItself(g, id);
    assert id in structs.Keys - seen;
    if structs[id].base.Some? {
      var next := structs[id].base.value;
      assert Edge(g, id, next);
      forall a | Inherits(structs, next, a)
        ensures a in structs && !OnCycle(g, a) && a !in seen + {id}
      {
        EdgeReaches(g, id, next, a);
        NeverBack(g, id, next, a);
      }
      OrderGivesChain(structs, next, seen + {id});
    } else {
      assert Chain(structs, None, seen + {id}) == Some([]);
    }
  }

  // ----- the fields of a chain -----

  ghost predicate FieldAt(structs: Structures, chain: seq<StructId>, k: nat, i: nat) {
    k < |chain| && chain[k] in structs && i < |structs[chain[k]].fields|
  }

  ghost predicate Listed(structs: Structures, chain: seq<StructId>, f: Field) {
    exists k: nat, i: nat :: FieldAt(structs, chain, k, i) && structs[chain[k]].fields[i] == f
  }

  lemma {:induction false} FieldsAreListed(structs: Structures, chain: seq<StructId>, f: Field)
    ensures f in FieldsOf(structs, chain) <==> Listed(structs, chain, f)
    decreases |chain|
  {
    if |chain| > 0 {
      FieldsAreListed(structs, chain[1..], f);
      if Listed(structs, chain[1..], f) {
        var k: nat, i: nat :| FieldAt(structs, chain[1..], k, i) && structs[chain[1..][k]].fields[i] == f;
        assert FieldAt(structs, chain, k + 1, i);
      }
      if chain[0] in structs && f in structs[chain[0]].fields {
        var i :| 0 <= i < |structs[chain[0]].fields| && structs[chain[0]].fields[i] == f;
        assert FieldAt(structs, chain, 0, i);
      }
      if Listed(structs, chain, f) {
        var k: nat, i: nat :| FieldAt(structs, chain, k, i) && structs[chain[k]].fields[i] == f;
        if k > 0 {
          assert FieldAt(structs, chain[1..], k - 1, i);
        }
      }
    }
  }

  predicate Distinct(fields: seq<Field>) {
    forall i, j :: 0 <= i < j < |fields| ==> fields[i].name != fields[j].name
  }

  ghost predicate Apart(a: seq<Field>, b: seq<Field>) {
    forall f, g :: f in a && g in b ==> f.name != g.name
  }

  lemma DistinctAppend(a: seq<Field>, b: seq<Field>)
    ensures Distinct(a + b) <==> Distinct(a) && Distinct(b) && Apart(a, b)
  {
    var all := a + b;
    if Distinct(all) {
      forall i, j | 0 <= i < j < |a|
        ensures a[i].name != a[j].name
      {
        assert all[i].name != all[j].name;
      }
      forall i, j | 0 <= i < j < |b|
        ensures b[i].name != b[j].name
      {
        assert all[|a| + i].name != all[|a| + j].name;
      }
      forall f, g | f in a && g in b
        ensures f.name != g.name
      {
        var i :| 0 <= i < |a| && a[i] == f;
        var j :| 0 <= j < |b| && b[j] == g;
        assert all[i].name != all[|a| + j].name;
      }
    }
    if Distinct(a) && Distinct(b) && Apart(a, b) {
      forall i, j | 0 <= i < j < |all|
        ensures all[i].name != all[j].name
      {
        if i < |a| <= j {
          assert a[i] in a && b[j - |a|] in b;
        }
      }
    }
  }

  /** No two fields in the chain have the same name. */
  ghost predicate AllDiffer(structs: Structures, chain: seq<StructId>) {
    forall k: nat, i: nat, l: nat, j: nat ::
      FieldAt(structs, chain, k, i) && FieldAt(structs, chain, l, j) && (k != l || i != j) ==>
        structs[chain[k]].fields[i].name != structs[chain[l]].fields[j].name
  }

  lemma {:induction false} NamesDiffer(structs: Structures, chain: seq<StructId>)
    requires forall k :: 0 <= k < |chain| ==> chain[k] in structs
    ensures Distinct(FieldsOf(structs, chain)) <==> AllDiffer(structs, chain)
    decreases |chain|
  {
    if |chain| > 0 {
      var own, rest := structs[chain[0]].fields, FieldsOf(structs, chain[1..]);
      NamesDiffer(structs, chain[1..]);
      DistinctAppend(rest, own);
      if AllDiffer(structs, chain) {
        RestDiffers(structs, chain);
      }
      if Distinct(FieldsOf(structs, chain)) {
        AllOfChainDiffer(structs, chain);
      }
    }
  }

  lemma RestDiffers(structs: Structures, chain: seq<StructId>)
    requires |chain| > 0 && (forall k :: 0 <= k < |chain| ==> chain[k] in structs) && AllDiffer(structs, chain)
    ensures AllDiffer(structs, chain[1..]) && Distinct(structs[chain[0]].fields)
    ensures Apart(FieldsOf(structs, chain[1..]), structs[chain[0]].fields)
  {
    var own := structs[chain[0]].fields;
    forall k: nat, i: nat, l: nat, j: nat |
      FieldAt(structs, chain[1..], k, i) && FieldAt(structs, chain[1..], l, j) && (k != l || i != j)
      ensures structs[chain[1..][k]].fields[i].name != structs[chain[1..][l]].fields[j].name
    {
      assert FieldAt(structs, chain, k + 1, i) && FieldAt(structs, chain, l + 1, j);
    }
    forall i, j | 0 <= i < j < |own|
      ensures own[i].name != own[j].name
    {
      assert FieldAt(structs, chain, 0, i) && FieldAt(structs, chain, 0, j);
    }
    forall f, g | f in FieldsOf(structs, chain[1..]) && g in own
      ensures f.name != g.name
    {
      FieldsAreListed(structs, chain[1..], f);
      var k: nat, i: nat :| FieldAt(structs, chain[1..], k, i) && structs[chain[1..][k]].fields[i] == f;
      var j :| 0 <= j < |own| && own[j] == g;
      assert FieldAt(structs, chain, k + 1, i) && FieldAt(structs, chain, 0, j);
    }
  }

  lemma AllOfChainDiffer(structs: Structures, chain: seq<StructId>)
    requires |chain| > 0 && (forall k :: 0 <= k < |chain| ==> chain[k] in structs)
    requires AllDiffer(structs, chain[1..]) && Distinct(structs[chain[0]].fields)
    requires Apart(FieldsOf(structs, chain[1..]), structs[chain[0]].fields)
    ensures AllDiffer(structs, chain)
  {
    var own := structs[chain[0]].fields;
    forall k: nat, i: nat, l: nat, j: nat |
      FieldAt(structs, chain, k, i) && FieldAt(structs, chain, l, j) && (k != l || i != j)
      ensures structs[chain[k]].fields[i].name != structs[chain[l]].fields[j].name
    {
      if k > 0 {
        InRest(structs, chain, k, i);
      }
      if l > 0 {
        InRest(structs, chain, l, j);
      }
    }
  }

  /** A field of a later struct of the chain. */
  lemma InRest(structs: Structures, chain: seq<StructId>, k: nat, i: nat)
    requires 0 < k && FieldAt(structs, chain, k, i)
    ensures FieldAt(structs, chain[1..], k - 1, i) && chain[1..][k - 1] == chain[k]
    ensures structs[chain[k]].fields[i] in FieldsOf(structs, chain[1..])
  {
    assert FieldAt(structs, chain[1..], k - 1, i);
    FieldsAreListed(structs, chain[1..], structs[chain[k]].fields[i]);
  }

  // ----- what is checked -----

  /** The flattened fields are those of the struct and its bases, and none besides. */
  lemma FieldsAreInherited(structs: Structures, id: StructId, f: Field)
    requires BasesInOrder(structs, id)
    ensures f in Flattened(structs, id)
            <==> exists a, i: nat :: HasField(structs, id, a, i) && structs[a].fields[i] == f
  {
    OrderGivesChain(structs, id, {});
    var chain := Chain(structs, Some(id), {}).value;
    FieldsAreListed(structs, chain, f);
    if Listed(structs, chain, f) {
      var k: nat, i: nat :| FieldAt(structs, chain, k, i) && structs[chain[k]].fields[i] == f;
      assert chain[k] in chain;
      ChainIsInherited(structs, id, chain[k]);
      assert HasField(structs, id, chain[k], i);
    }
    if a, i: nat :| HasField(structs, id, a, i) && structs[a].fields[i] == f {
      ChainIsInherited(structs, id, a);
      var k :| 0 <= k < |chain| && chain[k] == a;
      assert FieldAt(structs, chain, k, i);
    }
  }

  lemma InheritedAt(structs: Structures, id: StructId, chain: seq<StructId>, a: StructId, i: nat) returns (k: nat)
    requires Chain(structs, Some(id), {}) == Some(chain) && HasField(structs, id, a, i)
    ensures FieldAt(structs, chain, k, i) && chain[k] == a
  {
    ChainIsInherited(structs, id, a);
    k :| 0 <= k < |chain| && chain[k] == a;
  }

  lemma DifferByStruct(structs: Structures, id: StructId)
    requires Chain(structs, Some(id), {}).Some?
    ensures Distinct(Flattened(structs, id))
            <==> forall a, i: nat, b, j: nat ::
                   HasField(structs, id, a, i) && HasField(structs, id, b, j) && (a != b || i != j) ==>
                     structs[a].fields[i].name != structs[b].fields[j].name
  {
    var chain := Chain(structs, Some(id), {}).value;
    ChainLinks(structs, id, {});
    NamesDiffer(structs, chain);
    if AllDiffer(structs, chain) {
      forall a, i: nat, b, j: nat | HasField(structs, id, a, i) && HasField(structs, id, b, j) && (a != b || i != j)
        ensures structs[a].fields[i].name != structs[b].fields[j].name
      {
        var k := InheritedAt(structs, id, chain, a, i);
        var l := InheritedAt(structs, id, chain, b, j);
      }
    } else {
      var k: nat, i: nat, l: nat, j: nat :|
        FieldAt(structs, chain, k, i) && FieldAt(structs, chain, l, j) && (k != l || i != j)
        && structs[chain[k]].fields[i].name == structs[chain[l]].fields[j].name;
      assert chain[k] in chain && chain[l] in chain;
      ChainIsInherited(structs, id, chain[k]);
      ChainIsInherited(structs, id, chain[l]);
      assert HasField(structs, id, chain[k], i) && HasField(structs, id, chain[l], j);
    }
  }

  lemma ConvertibleByStruct(structs: Structures, id: StructId)
    requires BasesInOrder(structs, id)
    ensures (forall i :: 0 <= i < |Flattened(structs, id)| ==> Convertible(Flattened(structs, id)[i].ty))
            <==> forall a, i: nat :: HasField(structs, id, a, i) ==> Convertible(structs[a].fields[i].ty)
  {
    var all := Flattened(structs, id);
    if forall i :: 0 <= i < |all| ==> Convertible(all[i].ty) {
      forall a, i: nat | HasField(structs, id, a, i)
        ensures Convertible(structs[a].fields[i].ty)
      {
        FieldsAreInherited(structs, id, structs[a].fields[i]);
      }
    }
    if forall a, i: nat :: HasField(structs, id, a, i) ==> Convertible(structs[a].fields[i].ty) {
      forall i | 0 <= i < |all|
        ensures Convertible(all[i].ty)
      {
        FieldsAreInherited(structs, id, all[i]);
      }
    }
  }

  /** The check on one struct looks at all its fields, inherited ones included. */
  lemma FineExactly(structs: Structures, id: StructId)
    ensures LocallyFine(structs, id) <==> Fine(structs, id)
  {
    if Chain(structs, Some(id), {}).Some? {
      ChainIsInOrder(structs, id);
      DifferByStruct(structs, id);
      ConvertibleByStruct(structs, id);
    } else if BasesInOrder(structs, id) {
      OrderGivesChain(structs, id, {});
    }
  }

  /** The structs a struct leads to are those its fields, inherited ones included, mention. */
  lemma ContainedExactly(structs: Structures, id: StructId, t: StructId)
    requires BasesInOrder(structs, id)
    ensures Edge(Contained(structs), id, t) <==> Contains(structs, id, t)
  {
    ReachesItself(Bases(structs), id);
    assert Inherits(structs, id, id);
    var all := Flattened(structs, id);
    if t in AllMentions(all) {
      var i :| 0 <= i < |all| && t in Mentions(all[i].ty);
      FieldsAreInherited(structs, id, all[i]);
    }
    if Contains(structs, id, t) {
      var a, i: nat :| HasField(structs, id, a, i) && t in Mentions(structs[a].fields[i].ty);
      FieldsAreInherited(structs, id, structs[a].fields[i]);
    }
  }

  /**
   The check accepts a struct exactly when every struct it leads to is fine with all it inherits, and none
   of them contains itself.
   */
  lemma SupportMeans(structs: Structures, id: StructId)
    ensures Supported(structs, id, {})
            <==> forall x :: Reaches(Contained(structs), id, x) ==>
                   Fine(structs, x) && !OnCycle(Contained(structs), x)
  {
    SupportDecided(structs, id);
    forall x
      ensures LocallyFine(structs, x) <==> Fine(structs, x)
    {
      FineExactly(structs, x);
    }
  }
}
