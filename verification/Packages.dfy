/** Resolving a package and all it depends on, dependencies first. */
module Packages {
  import opened Wrappers
  import opened Graphs

  type Path = string

  /** `directory`: what the path resolves to, if it is a directory. */
  datatype Dependency = Dependency(name: string, directory: Option<Path>)

  datatype Native = Native(name: string, directory: Option<Path>, isCargo: bool)

  /** `inside`: the path stays in its package and has the right extension. */
  datatype Source = Source(inside: bool, file: Option<Path>)

  datatype Manifest = Manifest(
    schema: nat,
    name: string,
    dependencies: seq<Dependency>,
    natives: seq<Native>,
    sources: seq<Source>,
    main: Option<Source>)

  /** The packages whose manifests can be read. */
  type Disk = map<Path, Manifest>

  datatype Error =
    | Cyclic(at: Path)
    | Unreadable(at: Path)
    | BadSchema(at: Path)
    | BadName(name: string)
    | WrongPackage(expected: string, at: Path)
    | NameClash(name: string, at: Path)
    | NoDirectory(name: string)
    | NotCargo(name: string)
    | BadSource(at: Path)

  datatype State = State(
    visiting: set<Path>,
    visited: set<Path>,
    names: map<string, Path>,
    sourcePaths: set<Path>,
    sources: seq<Path>,
    roots: seq<Path>,
    natives: map<string, Path>)

  const START := State({}, {}, map[], {}, [], [], map[])

  predicate IsNameCharacter(c: char) {
    'a' <= c <= 'z' || 'A' <= c <= 'Z' || '0' <= c <= '9' || c == '-' || c == '_'
  }

  predicate ValidName(name: string) {
    name != "" && forall i :: 0 <= i < |name| ==> IsNameCharacter(name[i])
  }

  /** Why a package cannot be entered under the name expected of it. */
  function Objection(m: Manifest, names: map<string, Path>, root: Path, expected: Option<string>): Option<Error> {
    if m.schema != 1 then Some(BadSchema(root))
    else if !ValidName(m.name) then Some(BadName(m.name))
    else if expected.Some? && expected.value != m.name then Some(WrongPackage(expected.value, root))
    else if m.name in names && names[m.name] != root then Some(NameClash(m.name, root))
    else None
  }

  function AddNatives(s: State, natives: seq<Native>): (r: Result<State, Error>)
    ensures r.Success? ==> r.value == s.(natives := r.value.natives)
    decreases |natives|
  {
    if |natives| == 0 then Success(s)
    else
      var n := natives[0];
      if !ValidName(n.name) then Failure(BadName(n.name))
      else if n.directory.None? then Failure(NoDirectory(n.name))
      else if !n.isCargo then Failure(NotCargo(n.name))
      else if n.name in s.natives && s.natives[n.name] != n.directory.value then
        Failure(NameClash(n.name, n.directory.value))
      else AddNatives(s.(natives := s.natives[n.name := n.directory.value]), natives[1..])
  }

  function AddSource(s: State, root: Path, source: Source): Result<State, Error> {
    if !source.inside || source.file.None? then Failure(BadSource(root))
    else if source.file.value in s.sourcePaths then Success(s)
    else Success(s.(sourcePaths := s.sourcePaths + {source.file.value}, sources := s.sources + [source.file.value]))
  }

  function AddSources(s: State, root: Path, sources: seq<Source>): (r: Result<State, Error>)
    ensures r.Success? ==> r.value == s.(sourcePaths := r.value.sourcePaths, sources := r.value.sources)
    decreases |sources|
  {
    if |sources| == 0 then Success(s)
    else
      var first := AddSource(s, root, sources[0]);
      if first.Failure? then first else AddSources(first.value, root, sources[1..])
  }

  function AllSources(m: Manifest, includeMain: bool): seq<Source> {
    m.sources + if includeMain && m.main.Some? then [m.main.value] else []
  }

  /** After the dependencies of a package, the package itself. */
  function Finish(s: State, root: Path, m: Manifest, includeMain: bool): Result<State, Error> {
    var n := AddNatives(s, m.natives);
    if n.Failure? then n
    else
      var f := AddSources(n.value, root, AllSources(m, includeMain));
      if f.Failure? then f
      else
        Success(f.value.(
          visiting := f.value.visiting - {root},
          visited := f.value.visited + {root},
          roots := f.value.roots + [root]))
  }

  /** Depth first; ends because every package is entered at most once on the way down. */
  function Visit(disk: Disk, s: State, root: Path, expected: Option<string>, includeMain: bool)
    : (r: Result<State, Error>)
    ensures r.Success? ==> r.value.visiting == s.visiting && s.visited <= r.value.visited
    decreases disk.Keys - s.visiting - s.visited, 0
  {
    if root in s.visited then
      if expected.Some? && !(expected.value in s.names && s.names[expected.value] == root) then
        Failure(NameClash(expected.value, root))
      else Success(s)
    else if root in s.visiting then Failure(Cyclic(root))
    else if root !in disk then Failure(Unreadable(root))
    else
      var m := disk[root];
      var objection := Objection(m, s.names, root, expected);
      if objection.Some? then Failure(objection.value)
      else
        var entered := s.(visiting := s.visiting + {root}, names := s.names[m.name := root]);
        assert root in disk.Keys - s.visiting - s.visited;
        var d := VisitAll(disk, entered, m.dependencies);
        if d.Failure? then d else Finish(d.value, root, m, includeMain)
  }

  function VisitAll(disk: Disk, s: State, dependencies: seq<Dependency>): (r: Result<State, Error>)
    ensures r.Success? ==> r.value.visiting == s.visiting && s.visited <= r.value.visited
    decreases disk.Keys - s.visiting - s.visited, |dependencies|
  {
    if |dependencies| == 0 then Success(s)
    else
      var d := dependencies[0];
      if !ValidName(d.name) then Failure(BadName(d.name))
      else if d.directory.None? then Failure(NoDirectory(d.name))
      else
        var first := Visit(disk, s, d.directory.value, Some(d.name), false);
        if first.Failure? then first
        else
          assert disk.Keys - first.value.visiting - first.value.visited <= disk.Keys - s.visiting - s.visited;
          VisitAll(disk, first.value, dependencies[1..])
  }

  function Resolve(disk: Disk, root: Path): Result<State, Error> {
    Visit(disk, START, root, None, true)
  }

  // ----- the graph of packages -----

  function Directories(dependencies: seq<Dependency>): (ds: set<Path>)
    ensures forall i :: 0 <= i < |dependencies| && dependencies[i].directory.Some? ==>
              dependencies[i].directory.value in ds
    ensures forall d :: d in ds ==> exists i :: 0 <= i < |dependencies| && dependencies[i].directory == Some(d)
  {
    if |dependencies| == 0 then {}
    else
      var last := dependencies[|dependencies| - 1];
      Directories(dependencies[..|dependencies| - 1]) + if last.directory.Some? then {last.directory.value} else {}
  }

  function DependencyGraph(disk: Disk): Graph<Path> {
    map root | root in disk :: Directories(disk[root].dependencies)
  }

  // ----- what resolution keeps -----

  ghost predicate Listed<T(!new)>(all: set<T>, order: seq<T>) {
    && (forall x :: x in all <==> x in order)
    && (forall i, j :: 0 <= i < j < |order| ==> order[i] != order[j])
  }

  /** Every dependency of a listed package is there under its own name, and listed before it. */
  ghost predicate DependencyMet(disk: Disk, roots: seq<Path>, i: nat, d: Dependency)
    requires i < |roots|
  {
    && d.directory.Some? && d.directory.value in disk && disk[d.directory.value].name == d.name
    && exists j :: 0 <= j < i && roots[j] == d.directory.value
  }

  ghost predicate DependenciesFirst(disk: Disk, roots: seq<Path>) {
    forall i, k :: 0 <= i < |roots| && roots[i] in disk && 0 <= k < |disk[roots[i]].dependencies| ==>
      DependencyMet(disk, roots, i, disk[roots[i]].dependencies[k])
  }

  ghost predicate Named(disk: Disk, s: State) {
    && (forall p :: p in s.visited || p in s.visiting ==>
          p in disk && disk[p].name in s.names && s.names[disk[p].name] == p)
    && (forall n :: n in s.names ==> s.names[n] in disk && disk[s.names[n]].name == n)
  }

  ghost predicate Consistent(disk: Disk, s: State) {
    && Listed(s.visited, s.roots) && Listed(s.sourcePaths, s.sources)
    && s.visited !! s.visiting
    && Named(disk, s) && DependenciesFirst(disk, s.roots)
  }

  /** `t` comes after `s` while packages that `roots` lead to were visited. */
  ghost predicate Later(disk: Disk, s: State, t: State, from: set<Path>) {
    && Consistent(disk, t) && t.visiting == s.visiting && s.visited <= t.visited
    && (forall p :: p in t.visited && p !in s.visited ==> exists r :: r in from && Reaches(DependencyGraph(disk), r, p))
  }

  lemma {:induction false} SourcesListed(s: State, root: Path, sources: seq<Source>)
    requires Listed(s.sourcePaths, s.sources)
    ensures var r := AddSources(s, root, sources);
            r.Success? ==> Listed(r.value.sourcePaths, r.value.sources)
    decreases |sources|
  {
    if |sources| > 0 {
      var first := AddSource(s, root, sources[0]);
      if first.Success? {
        SourcesListed(first.value, root, sources[1..]);
      }
    }
  }

  lemma MetLater(disk: Disk, roots: seq<Path>, more: seq<Path>, i: nat, d: Dependency)
    requires i < |roots| && DependencyMet(disk, roots, i, d)
    ensures DependencyMet(disk, roots + more, i, d)
  {
    var j :| 0 <= j < i && roots[j] == d.directory.value;
    assert (roots + more)[j] == roots[j];
  }

  /** Listing a package whose dependencies are all listed. */
  lemma RootListed(disk: Disk, roots: seq<Path>, root: Path)
    requires DependenciesFirst(disk, roots) && root in disk
    requires forall k :: 0 <= k < |disk[root].dependencies| ==> Met(disk, roots, disk[root].dependencies[k])
    ensures DependenciesFirst(disk, roots + [root])
  {
    var longer := roots + [root];
    forall i, k | 0 <= i < |longer| && longer[i] in disk && 0 <= k < |disk[longer[i]].dependencies|
      ensures DependencyMet(disk, longer, i, disk[longer[i]].dependencies[k])
    {
      var d := disk[longer[i]].dependencies[k];
      if i < |roots| {
        assert DependencyMet(disk, roots, i, d);
        MetLater(disk, roots, [root], i, d);
      } else {
        assert Met(disk, roots, d);
        var j :| 0 <= j < |roots| && roots[j] == d.directory.value;
        assert longer[j] == roots[j];
      }
    }
  }

  ghost predicate Met(disk: Disk, roots: seq<Path>, d: Dependency) {
    && d.directory.Some? && d.directory.value in roots
    && d.directory.value in disk && disk[d.directory.value].name == d.name
  }

  lemma FinishKeeps(disk: Disk, s: State, root: Path, includeMain: bool)
    requires Consistent(disk, s) && root in s.visiting && root in disk
    requires forall k :: 0 <= k < |disk[root].dependencies| ==> Met(disk, s.roots, disk[root].dependencies[k])
    ensures var r := Finish(s, root, disk[root], includeMain);
            r.Success? ==>
              && Consistent(disk, r.value) && r.value.visiting == s.visiting - {root}
              && r.value.visited == s.visited + {root} && r.value.roots == s.roots + [root]
  {
    var m := disk[root];
    var n := AddNatives(s, m.natives);
    if n.Success? {
      SourcesListed(n.value, root, AllSources(m, includeMain));
      RootListed(disk, s.roots, root);
    }
  }

  /** A successful visit leaves the package and all it leads to listed, in order. */
  lemma {:induction false} VisitLists(disk: Disk, s: State, root: Path, expected: Option<string>, includeMain: bool)
    requires Consistent(disk, s)
    ensures var r := Visit(disk, s, root, expected, includeMain);
            r.Success? ==>
              && Later(disk, s, r.value, {root}) && root in r.value.visited
              && (expected.Some? ==> disk[root].name == expected.value)
    decreases disk.Keys - s.visiting - s.visited, 0
  {
    var r := Visit(disk, s, root, expected, includeMain);
    if r.Success? {
      if root in s.visited {
        assert Named(disk, s);
      } else {
        VisitUnfolds(disk, s, root, expected, includeMain);
        assert root in disk.Keys - s.visiting - s.visited;
        EnteredConsistent(disk, s, root);
        VisitAllLists(disk, Entered(disk, s, root), disk[root].dependencies);
        FinishLists(
          disk, s, root, VisitAll(disk, Entered(disk, s, root), disk[root].dependencies).value, includeMain);
      }
    }
  }

  /** A package that is entered: nothing speaks against it, and its dependencies are visited first. */
  lemma VisitUnfolds(disk: Disk, s: State, root: Path, expected: Option<string>, includeMain: bool)
    requires Visit(disk, s, root, expected, includeMain).Success? && root !in s.visited
    ensures root in disk && root !in s.visiting
    ensures disk[root].name in s.names ==> s.names[disk[root].name] == root
    ensures expected.Some? ==> disk[root].name == expected.value
    ensures var d := VisitAll(disk, Entered(disk, s, root), disk[root].dependencies);
            d.Success? && Visit(disk, s, root, expected, includeMain) == Finish(d.value, root, disk[root], includeMain)
  {
  }

  lemma FinishLists(disk: Disk, s: State, root: Path, d: State, includeMain: bool)
    requires root in disk && root !in s.visited && root !in s.visiting
    requires Later(disk, Entered(disk, s, root), d, Directories(disk[root].dependencies))
    requires forall k :: 0 <= k < |disk[root].dependencies| ==> Met(disk, d.roots, disk[root].dependencies[k])
    ensures var r := Finish(d, root, disk[root], includeMain);
            r.Success? ==> Later(disk, s, r.value, {root}) && root in r.value.visited
  {
    FinishKeeps(disk, d, root, includeMain);
    NewAreReached(disk, s, root, d.visited);
    var r := Finish(d, root, disk[root], includeMain);
    if r.Success? {
      assert r.value.visiting == s.visiting;
      assert root in {root};
    }
  }

  function Entered(disk: Disk, s: State, root: Path): State
    requires root in disk
  {
    s.(visiting := s.visiting + {root}, names := s.names[disk[root].name := root])
  }

  lemma EnteredConsistent(disk: Disk, s: State, root: Path)
    requires Consistent(disk, s) && root in disk && root !in s.visited
    requires disk[root].name in s.names ==> s.names[disk[root].name] == root
    ensures Consistent(disk, Entered(disk, s, root))
  {
  }

  /** What the dependencies of a package lead to, the package leads to. */
  lemma NewAreReached(disk: Disk, s: State, root: Path, visited: set<Path>)
    requires root in disk
    requires forall p :: p in visited && p !in s.visited ==>
               exists q :: q in Directories(disk[root].dependencies) && Reaches(DependencyGraph(disk), q, p)
    ensures forall p :: p in visited + {root} && p !in s.visited ==> Reaches(DependencyGraph(disk), root, p)
  {
    var g := DependencyGraph(disk);
    ReachesItself(g, root);
    forall p | p in visited && p !in s.visited
      ensures Reaches(g, root, p)
    {
      var q :| q in Directories(disk[root].dependencies) && Reaches(g, q, p);
      assert Edge(g, root, q);
      EdgeReaches(g, root, q, p);
    }
  }

  lemma {:induction false} VisitAllLists(disk: Disk, s: State, dependencies: seq<Dependency>)
    requires Consistent(disk, s)
    ensures var r := VisitAll(disk, s, dependencies);
            r.Success? ==>
              && Later(disk, s, r.value, Directories(dependencies))
              && forall k :: 0 <= k < |dependencies| ==> Met(disk, r.value.roots, dependencies[k])
    decreases disk.Keys - s.visiting - s.visited, |dependencies|
  {
    var r := VisitAll(disk, s, dependencies);
    if r.Success? && |dependencies| > 0 {
      var d := dependencies[0];
      VisitLists(disk, s, d.directory.value, Some(d.name), false);
      var first := Visit(disk, s, d.directory.value, Some(d.name), false).value;
      assert disk.Keys - first.visiting - first.visited <= disk.Keys - s.visiting - s.visited;
      VisitAllLists(disk, first, dependencies[1..]);
      assert Met(disk, r.value.roots, d);
      forall k | 0 <= k < |dependencies|
        ensures Met(disk, r.value.roots, dependencies[k])
      {
        if k > 0 {
          assert dependencies[k] == dependencies[1..][k - 1];
        }
      }
      LaterThan(disk, s, first, r.value, dependencies);
    }
  }

  /** After the first dependency and then the others. */
  lemma LaterThan(disk: Disk, s: State, t: State, r: State, dependencies: seq<Dependency>)
    requires |dependencies| > 0 && dependencies[0].directory.Some?
    requires Later(disk, s, t, {dependencies[0].directory.value}) && Later(disk, t, r, Directories(dependencies[1..]))
    ensures Later(disk, s, r, Directories(dependencies))
  {
    forall p | p in r.visited && p !in s.visited
      ensures exists q :: q in Directories(dependencies) && Reaches(DependencyGraph(disk), q, p)
    {
      if p in t.visited {
        assert dependencies[0].directory.value in Directories(dependencies);
      } else {
        var q :| q in Directories(dependencies[1..]) && Reaches(DependencyGraph(disk), q, p);
        var i :| 0 <= i < |dependencies[1..]| && dependencies[1..][i].directory == Some(q);
        assert dependencies[i + 1].directory == Some(q);
      }
    }
  }

  // ----- the results -----

  /**
   On success the listed packages are exactly those the root leads to, each once, every dependency before
   its dependents and under its own name; names are unique; and no source is listed twice.
   */
  lemma ResolutionIsComplete(disk: Disk, root: Path)
    requires Resolve(disk, root).Success?
    ensures var r := Resolve(disk, root).value;
            && (forall p :: p in r.roots <==> Reaches(DependencyGraph(disk), root, p))
            && (forall i, j :: 0 <= i < j < |r.roots| ==> r.roots[i] != r.roots[j])
            && DependenciesFirst(disk, r.roots)
            && (forall p :: p in r.roots ==> p in disk)
            && (forall p, q :: p in r.roots && q in r.roots && disk[p].name == disk[q].name ==> p == q)
            && (forall i, j :: 0 <= i < j < |r.sources| ==> r.sources[i] != r.sources[j])
  {
    VisitLists(disk, START, root, None, true);
    var r := Resolve(disk, root).value;
    var g := DependencyGraph(disk);
    forall p | Reaches(g, root, p)
      ensures p in r.roots
    {
      var path :| Joins(g, path, root, p);
      RootsClosed(disk, r);
      ClosedContains(g, r.visited, path, root, p);
    }
  }

  lemma RootsClosed(disk: Disk, r: State)
    requires Consistent(disk, r)
    ensures forall x, y :: x in r.visited && Edge(DependencyGraph(disk), x, y) ==> y in r.visited
  {
    forall x, y | x in r.visited && Edge(DependencyGraph(disk), x, y)
      ensures y in r.visited
    {
      var i := PlaceOf(r.roots, x);
      var k :| 0 <= k < |disk[x].dependencies| && disk[x].dependencies[k].directory == Some(y);
      assert DependencyMet(disk, r.roots, i, disk[x].dependencies[k]);
    }
  }

  lemma PlaceOf<T>(order: seq<T>, x: T) returns (i: nat)
    requires x in order
    ensures i < |order| && order[i] == x
  {
    i :| 0 <= i < |order| && order[i] == x;
  }

  /** Along every path of listed packages the places fall, so no listed package is on a cycle. */
  lemma {:induction false} PlacesFall(disk: Disk, r: State, p: seq<Path>, u: Path, v: Path, i: nat) returns (j: nat)
    requires Consistent(disk, r) && i < |r.roots| && r.roots[i] == u && Joins(DependencyGraph(disk), p, u, v)
    ensures j <= i && r.roots[j] == v && (|p| > 1 ==> j < i)
    decreases |p|
  {
    j := i;
    if |p| > 1 {
      TailJoins(DependencyGraph(disk), p, v);
      var k :| 0 <= k < |disk[u].dependencies| && disk[u].dependencies[k].directory == Some(p[1]);
      assert DependencyMet(disk, r.roots, i, disk[u].dependencies[k]);
      var next :| 0 <= next < i && r.roots[next] == p[1];
      j := PlacesFall(disk, r, p[1..], p[1], v, next);
    }
  }

  /** Resolution does not succeed where the root leads to a cycle. */
  lemma CyclesAreFound(disk: Disk, root: Path, p: Path)
    requires Reaches(DependencyGraph(disk), root, p) && OnCycle(DependencyGraph(disk), p)
    ensures Resolve(disk, root).Failure?
  {
    if Resolve(disk, root).Success? {
      ResolutionIsComplete(disk, root);
      VisitLists(disk, START, root, None, true);
      var r := Resolve(disk, root).value;
      var around := CyclePath(DependencyGraph(disk), p);
      var i := PlaceOf(r.roots, p);
      var j := PlacesFall(disk, r, around, p, p, i);
    }
  }

  /** Packages being visited lead to the one that is to be visited next. */
  ghost predicate OnTheWay(disk: Disk, s: State, root: Path) {
    forall x :: x in s.visiting ==>
      exists y :: Edge(DependencyGraph(disk), x, y) && Reaches(DependencyGraph(disk), y, root)
  }

  lemma {:induction false} CycleErrorIsCycle(
    disk: Disk, s: State, root: Path, expected: Option<string>, includeMain: bool)
    requires OnTheWay(disk, s, root) && Visit(disk, s, root, expected, includeMain).Failure?
    requires Visit(disk, s, root, expected, includeMain).error.Cyclic?
    ensures var at := Visit(disk, s, root, expected, includeMain).error.at;
            Reaches(DependencyGraph(disk), root, at) && OnCycle(DependencyGraph(disk), at)
    decreases disk.Keys - s.visiting - s.visited, 0
  {
    var g := DependencyGraph(disk);
    ReachesItself(g, root);
    if root in s.visiting {
      var y :| Edge(g, root, y) && Reaches(g, y, root);
      OnCycleBack(g, root, y);
    } else {
      var m := disk[root];
      var entered := Entered(disk, s, root);
      assert root in disk.Keys - s.visiting - s.visited;
      forall k | 0 <= k < |m.dependencies| && m.dependencies[k].directory.Some?
        ensures OnTheWay(disk, entered, m.dependencies[k].directory.value)
        ensures Edge(g, root, m.dependencies[k].directory.value)
      {
        var next := m.dependencies[k].directory.value;
        assert Edge(g, root, next);
        forall x | x in entered.visiting
          ensures exists y :: Edge(g, x, y) && Reaches(g, y, next)
        {
          if x == root {
            ReachesItself(g, next);
          } else {
            var y :| Edge(g, x, y) && Reaches(g, y, root);
            ReachesOver(g, y, root, next);
          }
        }
      }
      if VisitAll(disk, entered, m.dependencies).Failure? {
        var q := CycleErrorAmong(disk, entered, m.dependencies);
        EdgeReaches(g, root, q, Visit(disk, s, root, expected, includeMain).error.at);
      } else {
        NoCycleAtEnd(VisitAll(disk, entered, m.dependencies).value, root, m, includeMain);
      }
    }
  }

  lemma NoCycleAtEnd(s: State, root: Path, m: Manifest, includeMain: bool)
    ensures Finish(s, root, m, includeMain).Failure? ==> !Finish(s, root, m, includeMain).error.Cyclic?
  {
    NoCycleInNatives(s, m.natives);
    if AddNatives(s, m.natives).Success? {
      NoCycleInSources(AddNatives(s, m.natives).value, root, AllSources(m, includeMain));
    }
  }

  lemma NoCycleInNatives(s: State, natives: seq<Native>)
    ensures AddNatives(s, natives).Failure? ==> !AddNatives(s, natives).error.Cyclic?
    decreases |natives|
  {
  }

  lemma NoCycleInSources(s: State, root: Path, sources: seq<Source>)
    ensures AddSources(s, root, sources).Failure? ==> !AddSources(s, root, sources).error.Cyclic?
    decreases |sources|
  {
  }

  lemma {:induction false} CycleErrorAmong(disk: Disk, s: State, dependencies: seq<Dependency>) returns (q: Path)
    requires VisitAll(disk, s, dependencies).Failure? && VisitAll(disk, s, dependencies).error.Cyclic?
    requires forall k :: 0 <= k < |dependencies| && dependencies[k].directory.Some? ==>
               OnTheWay(disk, s, dependencies[k].directory.value)
    ensures q in Directories(dependencies)
    ensures var at := VisitAll(disk, s, dependencies).error.at;
            Reaches(DependencyGraph(disk), q, at) && OnCycle(DependencyGraph(disk), at)
    decreases disk.Keys - s.visiting - s.visited, |dependencies|
  {
    var d := dependencies[0];
    var first := Visit(disk, s, d.directory.value, Some(d.name), false);
    if first.Failure? {
      CycleErrorIsCycle(disk, s, d.directory.value, Some(d.name), false);
      q := d.directory.value;
    } else {
      assert disk.Keys - first.value.visiting - first.value.visited <= disk.Keys - s.visiting - s.visited;
      q := CycleErrorAmong(disk, first.value, dependencies[1..]);
      var i :| 0 <= i < |dependencies[1..]| && dependencies[1..][i].directory == Some(q);
      assert dependencies[i + 1].directory == Some(q);
    }
  }

  /** A cycle is reported only where the root leads to one. */
  lemma ReportedCyclesExist(disk: Disk, root: Path)
    requires Resolve(disk, root).Failure? && Resolve(disk, root).error.Cyclic?
    ensures var at := Resolve(disk, root).error.at;
            Reaches(DependencyGraph(disk), root, at) && OnCycle(DependencyGraph(disk), at)
  {
    CycleErrorIsCycle(disk, START, root, None, true);
  }

  // ----- the resolver -----

  class Resolver {
    var visiting: set<Path>
    var visited: set<Path>
    var packageNames: map<string, Path>
    var sourcePaths: set<Path>
    var sources: seq<Path>
    var packageRoots: seq<Path>
    var nativeDependencies: map<string, Path>

    constructor ()
      ensures Fields() == START
    {
      visiting, visited, packageNames, sourcePaths := {}, {}, map[], {};
      sources, packageRoots, nativeDependencies := [], [], map[];
    }

    ghost function Fields(): State
      reads this
    {
      State(visiting, visited, packageNames, sourcePaths, sources, packageRoots, nativeDependencies)
    }

    method VisitPackage(disk: Disk, root: Path, expected: Option<string>, includeMain: bool)
      returns (failure: Option<Error>)
      modifies this
      ensures var r := Visit(disk, old(Fields()), root, expected, includeMain);
              if failure.None? then r == Success(Fields()) else r == Failure(failure.value)
      decreases disk.Keys - visiting - visited
    {
      if root in visited {
        if expected.Some? && !(expected.value in packageNames && packageNames[expected.value] == root) {
          return Some(NameClash(expected.value, root));
        }
        return None;
      }
      if root in visiting {
        return Some(Cyclic(root));
      }
      ghost var before := Fields();
      visiting := visiting + {root};
      if root !in disk {
        return Some(Unreadable(root));
      }
      var m := disk[root];
      var objection := Objection(m, packageNames, root, expected);
      if objection.Some? {
        return objection;
      }
      packageNames := packageNames[m.name := root];
      ghost var all := VisitAll(disk, Fields(), m.dependencies);
      assert m.dependencies[0..] == m.dependencies;
      assert root in disk.Keys - before.visiting - before.visited;
      var i := 0;
      while i < |m.dependencies|
        invariant 0 <= i <= |m.dependencies|
        invariant VisitAll(disk, Fields(), m.dependencies[i..]) == all
        invariant visiting == before.visiting + {root} && before.visited <= visited
      {
        var d := m.dependencies[i];
        assert m.dependencies[i..][0] == d && m.dependencies[i..][1..] == m.dependencies[i + 1..];
        if !ValidName(d.name) {
          return Some(BadName(d.name));
        }
        if d.directory.None? {
          return Some(NoDirectory(d.name));
        }
        assert disk.Keys - visiting - visited < disk.Keys - before.visiting - before.visited;
        failure := VisitPackage(disk, d.directory.value, Some(d.name), false);
        if failure.Some? {
          return failure;
        }
        i := i + 1;
      }
      failure := FinishPackage(root, m, includeMain);
    }

    method FinishPackage(root: Path, m: Manifest, includeMain: bool) returns (failure: Option<Error>)
      modifies this
      ensures var r := Finish(old(Fields()), root, m, includeMain);
              if failure.None? then r == Success(Fields()) else r == Failure(failure.value)
    {
      ghost var natives := AddNatives(Fields(), m.natives);
      assert m.natives[0..] == m.natives;
      for i := 0 to |m.natives|
        invariant AddNatives(Fields(), m.natives[i..]) == natives
      {
        var n := m.natives[i];
        assert m.natives[i..][1..] == m.natives[i + 1..];
        if !ValidName(n.name) {
          return Some(BadName(n.name));
        } else if n.directory.None? {
          return Some(NoDirectory(n.name));
        } else if !n.isCargo {
          return Some(NotCargo(n.name));
        } else if n.name in nativeDependencies && nativeDependencies[n.name] != n.directory.value {
          return Some(NameClash(n.name, n.directory.value));
        }
        nativeDependencies := nativeDependencies[n.name := n.directory.value];
      }
      var all := AllSources(m, includeMain);
      ghost var added := AddSources(Fields(), root, all);
      assert all[0..] == all;
      for i := 0 to |all|
        invariant AddSources(Fields(), root, all[i..]) == added
      {
        assert all[i..][1..] == all[i + 1..];
        var file := all[i].file;
        if !all[i].inside || file.None? {
          return Some(BadSource(root));
        }
        if file.value !in sourcePaths {
          sourcePaths := sourcePaths + {file.value};
          sources := sources + [file.value];
        }
      }
      visiting := visiting - {root};
      visited := visited + {root};
      packageRoots := packageRoots + [root];
      return None;
    }
  }

  datatype Resolved = Resolved(sources: seq<Path>, roots: seq<Path>, natives: map<string, Path>)

  /** The whole resolution, from a fresh resolver. */
  method ResolvePackage(disk: Disk, root: Path) returns (r: Result<Resolved, Error>)
    ensures var all := Resolve(disk, root);
            if all.Success? then r == Success(Resolved(all.value.sources, all.value.roots, all.value.natives))
            else r == Failure(all.error)
  {
    var resolver := new Resolver();
    var failure := resolver.VisitPackage(disk, root, None, true);
    r :=
      if failure.Some? then Failure(failure.value)
      else Success(Resolved(resolver.sources, resolver.packageRoots, resolver.nativeDependencies));
  }
}
