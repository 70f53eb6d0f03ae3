/** When the resolution of a package succeeds, what it then gathers in which order, and what errors say. */
module PackageSuccess {
  import opened Wrappers
  import opened Graphs
  import opened Packages

  /** Letters, digits, `-` and `_`. */
  predicate WellNamed(name: string) {
    |name| > 0
    && forall c :: c in name ==> 97 <= c as int <= 122 || 65 <= c as int <= 90 || 48 <= c as int <= 57 || c in "-_"
  }

  lemma ValidNames(name: string)
    ensures ValidName(name) <==> WellNamed(name)
  {
    if WellNamed(name) {
      forall i | 0 <= i < |name|
        ensures IsNameCharacter(name[i])
      {
        assert name[i] in name;
      }
    }
  }

  predicate DependencyFits(disk: Disk, d: Dependency) {
    WellNamed(d.name) && d.directory.Some? && d.directory.value in disk && disk[d.directory.value].name == d.name
  }

  predicate NativeFits(n: Native) {
    WellNamed(n.name) && n.directory.Some? && n.isCargo
  }

  predicate SourceFits(source: Source) {
    source.inside && source.file.Some?
  }

  predicate AllNativesFit(natives: seq<Native>) {
    forall i :: 0 <= i < |natives| ==> NativeFits(natives[i])
  }

  predicate AllSourcesFit(sources: seq<Source>) {
    forall i :: 0 <= i < |sources| ==> SourceFits(sources[i])
  }

  /** Nothing is wrong with the package itself; its main file matters only if it is the one asked for. */
  predicate Fits(disk: Disk, p: Path, isTop: bool) {
    && p in disk && disk[p].schema == 1 && WellNamed(disk[p].name)
    && (forall k :: 0 <= k < |disk[p].dependencies| ==> DependencyFits(disk, disk[p].dependencies[k]))
    && AllNativesFit(disk[p].natives) && AllSourcesFit(disk[p].sources)
    && (isTop && disk[p].main.Some? ==> SourceFits(disk[p].main.value))
  }

  ghost predicate Below(disk: Disk, top: Path, p: Path) {
    Reaches(DependencyGraph(disk), top, p)
  }

  predicate SameName(disk: Disk, p: Path, q: Path) {
    p in disk && q in disk && disk[p].name == disk[q].name
  }

  ghost predicate UniqueNames(disk: Disk, top: Path) {
    forall p, q {:trigger SameName(disk, p, q)} ::
      Below(disk, top, p) && Below(disk, top, q) && SameName(disk, p, q) ==> p == q
  }

  predicate SameNatives(a: seq<Native>, b: seq<Native>) {
    forall i, j :: 0 <= i < |a| && 0 <= j < |b| && a[i].name == b[j].name ==> a[i].directory == b[j].directory
  }

  ghost predicate UniqueNatives(disk: Disk, top: Path) {
    forall p, q {:trigger SameNatives(disk[p].natives, disk[q].natives)} ::
      Below(disk, top, p) && Below(disk, top, q) && p in disk && q in disk ==>
        SameNatives(disk[p].natives, disk[q].natives)
  }

  /** All packages the top leads to are in order, their names agree, and they are on no cycle. */
  ghost predicate Resolvable(disk: Disk, top: Path) {
    && (forall p :: Below(disk, top, p) ==> Fits(disk, p, p == top) && !OnCycle(DependencyGraph(disk), p))
    && UniqueNames(disk, top) && UniqueNatives(disk, top)
  }

  // ----- what is gathered -----

  predicate HasNative(natives: seq<Native>, name: string, directory: Path) {
    exists i :: 0 <= i < |natives| && natives[i].name == name && natives[i].directory == Some(directory)
  }

  predicate HasSource(sources: seq<Source>, file: Path) {
    exists i :: 0 <= i < |sources| && sources[i].file == Some(file)
  }

  ghost predicate NativeOfSome(disk: Disk, ps: set<Path>, name: string, directory: Path) {
    exists p :: p in ps && p in disk && HasNative(disk[p].natives, name, directory)
  }

  /** The file is named by one of the packages, or is the main file of the one that was asked for. */
  ghost predicate SourceOfSome(disk: Disk, ps: set<Path>, top: Path, file: Path) {
    || (exists p :: p in ps && p in disk && HasSource(disk[p].sources, file))
    || (top in ps && top in disk && disk[top].main.Some? && disk[top].main.value.file == Some(file))
  }

  lemma MainIsLast(m: Manifest, includeMain: bool, file: Path)
    ensures HasSource(AllSources(m, includeMain), file)
            <==> HasSource(m.sources, file) || (includeMain && m.main.Some? && m.main.value.file == Some(file))
  {
    var all := AllSources(m, includeMain);
    if HasSource(all, file) {
      var i :| 0 <= i < |all| && all[i].file == Some(file);
      assert i < |m.sources| ==> m.sources[i].file == Some(file);
    }
    if HasSource(m.sources, file) {
      var i :| 0 <= i < |m.sources| && m.sources[i].file == Some(file);
      assert all[i].file == Some(file);
    } else if includeMain && m.main.Some? && m.main.value.file == Some(file) {
      assert all[|m.sources|].file == Some(file);
    }
  }

  lemma MainFits(m: Manifest, includeMain: bool)
    ensures AllSourcesFit(AllSources(m, includeMain))
            <==> AllSourcesFit(m.sources) && (includeMain && m.main.Some? ==> SourceFits(m.main.value))
  {
    var all := AllSources(m, includeMain);
    if AllSourcesFit(all) {
      forall i | 0 <= i < |m.sources|
        ensures SourceFits(m.sources[i])
      {
        assert SourceFits(all[i]);
      }
      if includeMain && m.main.Some? {
        assert SourceFits(all[|m.sources|]);
      }
    }
  }

  /** Of the visited packages, all natives and sources are there, and none besides; and they are in order. */
  ghost predicate Gathered(disk: Disk, s: State, top: Path) {
    && (forall p :: p in s.visited ==> Fits(disk, p, p == top))
    && (forall n, d :: n in s.natives && s.natives[n] == d <==> NativeOfSome(disk, s.visited, n, d))
    && (forall f :: f in s.sourcePaths <==> SourceOfSome(disk, s.visited, top, f))
  }

  lemma {:induction false} NativesAdded(s: State, natives: seq<Native>)
    requires AddNatives(s, natives).Success?
    ensures var r := AddNatives(s, natives).value;
            && AllNativesFit(natives)
            && (forall n :: n in s.natives ==> n in r.natives && r.natives[n] == s.natives[n])
            && (forall i :: 0 <= i < |natives| ==>
                  natives[i].name in r.natives && natives[i].directory == Some(r.natives[natives[i].name]))
            && (forall n :: n in r.natives ==> n in s.natives || HasNative(natives, n, r.natives[n]))
    decreases |natives|
  {
    if |natives| > 0 {
      var first := natives[0];
      ValidNames(first.name);
      var t := s.(natives := s.natives[first.name := first.directory.value]);
      NativesAdded(t, natives[1..]);
      var r := AddNatives(s, natives).value;
      forall i | 0 <= i < |natives|
        ensures NativeFits(natives[i])
        ensures natives[i].name in r.natives && natives[i].directory == Some(r.natives[natives[i].name])
      {
        if i > 0 {
          assert natives[1..][i - 1] == natives[i];
        }
      }
      forall n | n in r.natives && n !in s.natives
        ensures HasNative(natives, n, r.natives[n])
      {
        NativeOfRest(natives, n, r.natives[n]);
        if n == first.name {
          assert t.natives[n] == first.directory.value;
        }
      }
    }
  }

  lemma NativeOfRest(natives: seq<Native>, name: string, directory: Path)
    requires |natives| > 0
    ensures HasNative(natives[1..], name, directory) ==> HasNative(natives, name, directory)
    ensures natives[0].name == name && natives[0].directory == Some(directory) ==> HasNative(natives, name, directory)
  {
    if HasNative(natives[1..], name, directory) {
      var i :| 0 <= i < |natives[1..]| && natives[1..][i].name == name && natives[1..][i].directory == Some(directory);
      assert natives[i + 1].name == name;
    }
  }

  lemma {:induction false} SourcesAdded(s: State, root: Path, sources: seq<Source>)
    requires AddSources(s, root, sources).Success?
    ensures var r := AddSources(s, root, sources).value;
            && AllSourcesFit(sources)
            && (forall f :: f in r.sourcePaths <==> f in s.sourcePaths || HasSource(sources, f))
    decreases |sources|
  {
    if |sources| > 0 {
      var t := AddSource(s, root, sources[0]).value;
      SourcesAdded(t, root, sources[1..]);
      forall i | 0 <= i < |sources|
        ensures SourceFits(sources[i])
      {
        if i > 0 {
          assert sources[1..][i - 1] == sources[i];
        }
      }
      forall f
        ensures HasSource(sources, f) <==> sources[0].file == Some(f) || HasSource(sources[1..], f)
      {
        SourceSplit(sources, f);
      }
    }
  }

  lemma SourceSplit(sources: seq<Source>, f: Path)
    requires |sources| > 0
    ensures HasSource(sources, f) <==> sources[0].file == Some(f) || HasSource(sources[1..], f)
  {
    if HasSource(sources[1..], f) {
      var i :| 0 <= i < |sources[1..]| && sources[1..][i].file == Some(f);
      assert sources[i + 1].file == Some(f);
    }
    if HasSource(sources, f) {
      var i :| 0 <= i < |sources| && sources[i].file == Some(f);
      assert i > 0 ==> sources[1..][i - 1].file == Some(f);
    }
  }

  /** What a finished package adds to what was gathered. */
  lemma FinishGathers(disk: Disk, s: State, root: Path, top: Path)
    requires Gathered(disk, s, top) && root in disk && root !in s.visited
    requires Finish(s, root, disk[root], root == top).Success?
    requires disk[root].schema == 1 && WellNamed(disk[root].name)
    requires forall k :: 0 <= k < |disk[root].dependencies| ==> DependencyFits(disk, disk[root].dependencies[k])
    ensures Gathered(disk, Finish(s, root, disk[root], root == top).value, top)
  {
    var m := disk[root];
    var n := AddNatives(s, m.natives).value;
    NativesAdded(s, m.natives);
    SourcesAdded(n, root, AllSources(m, root == top));
    MainFits(m, root == top);
    var r := Finish(s, root, m, root == top).value;
    NativesGathered(disk, s, r, root);
    SourcesGathered(disk, s, r, root, top);
  }

  lemma NativesGathered(disk: Disk, s: State, r: State, root: Path)
    requires root in disk && r.visited == s.visited + {root}
    requires forall n, d :: n in s.natives && s.natives[n] == d <==> NativeOfSome(disk, s.visited, n, d)
    requires forall n :: n in s.natives ==> n in r.natives && r.natives[n] == s.natives[n]
    requires forall i :: 0 <= i < |disk[root].natives| ==>
               disk[root].natives[i].name in r.natives
               && disk[root].natives[i].directory == Some(r.natives[disk[root].natives[i].name])
    requires forall n :: n in r.natives ==> n in s.natives || HasNative(disk[root].natives, n, r.natives[n])
    ensures forall n, d :: n in r.natives && r.natives[n] == d <==> NativeOfSome(disk, r.visited, n, d)
  {
    forall n, d
      ensures n in r.natives && r.natives[n] == d <==> NativeOfSome(disk, r.visited, n, d)
    {
      if n in r.natives && r.natives[n] == d {
        if n in s.natives {
          assert NativeOfSome(disk, s.visited, n, d);
        } else {
          assert root in r.visited;
        }
      }
      if NativeOfSome(disk, r.visited, n, d) {
        var p :| p in r.visited && p in disk && HasNative(disk[p].natives, n, d);
        if p in s.visited {
          assert NativeOfSome(disk, s.visited, n, d);
        }
      }
    }
  }

  lemma SourcesGathered(disk: Disk, s: State, r: State, root: Path, top: Path)
    requires root in disk && r.visited == s.visited + {root}
    requires forall f :: f in s.sourcePaths <==> SourceOfSome(disk, s.visited, top, f)
    requires forall f :: f in r.sourcePaths <==> f in s.sourcePaths || HasSource(AllSources(disk[root], root == top), f)
    ensures forall f :: f in r.sourcePaths <==> SourceOfSome(disk, r.visited, top, f)
  {
    forall f
      ensures f in r.sourcePaths <==> SourceOfSome(disk, r.visited, top, f)
    {
      MainIsLast(disk[root], root == top, f);
      if f in r.sourcePaths {
        if f in s.sourcePaths {
          assert SourceOfSome(disk, s.visited, top, f);
        } else {
          assert root in r.visited;
        }
      }
      if SourceOfSome(disk, r.visited, top, f) {
        if p :| p in r.visited && p in disk && HasSource(disk[p].sources, f) {
          if p in s.visited {
            assert SourceOfSome(disk, s.visited, top, f);
          }
        }
      }
    }
  }

  /** The top is being visited whenever another package is. */
  ghost predicate FromTop(s: State, root: Path, top: Path, includeMain: bool) {
    if includeMain then root == top else top in s.visiting
  }

  lemma {:induction false} VisitGathers(
    disk: Disk, s: State, root: Path, expected: Option<string>, top: Path, includeMain: bool)
    requires Consistent(disk, s) && Gathered(disk, s, top) && FromTop(s, root, top, includeMain)
    requires Visit(disk, s, root, expected, includeMain).Success?
    ensures Gathered(disk, Visit(disk, s, root, expected, includeMain).value, top)
    decreases disk.Keys - s.visiting - s.visited, 0
  {
    if root !in s.visited {
      VisitUnfolds(disk, s, root, expected, includeMain);
      assert root in disk.Keys - s.visiting - s.visited;
      EnteredConsistent(disk, s, root);
      var entered := Entered(disk, s, root);
      assert Gathered(disk, entered, top);
      DependenciesGather(disk, entered, disk[root].dependencies, top);
      VisitAllLists(disk, entered, disk[root].dependencies);
      var d := VisitAll(disk, entered, disk[root].dependencies).value;
      EnteredFits(disk, s, root, expected, includeMain);
      assert includeMain <==> root == top;
      FinishGathers(disk, d, root, top);
    }
  }

  /** A package that is entered has no objection against it. */
  lemma EnteredFits(disk: Disk, s: State, root: Path, expected: Option<string>, includeMain: bool)
    requires root !in s.visited && Visit(disk, s, root, expected, includeMain).Success?
    ensures root in disk && disk[root].schema == 1 && WellNamed(disk[root].name)
  {
    ValidNames(disk[root].name);
  }

  lemma {:induction false} DependenciesGather(disk: Disk, s: State, dependencies: seq<Dependency>, top: Path)
    requires Consistent(disk, s) && Gathered(disk, s, top) && top in s.visiting
    requires VisitAll(disk, s, dependencies).Success?
    ensures Gathered(disk, VisitAll(disk, s, dependencies).value, top)
    ensures forall k :: 0 <= k < |dependencies| ==> DependencyFits(disk, dependencies[k])
    decreases disk.Keys - s.visiting - s.visited, |dependencies|
  {
    if |dependencies| > 0 {
      var d := dependencies[0];
      ValidNames(d.name);
      VisitGathers(disk, s, d.directory.value, Some(d.name), top, false);
      VisitLists(disk, s, d.directory.value, Some(d.name), false);
      var first := Visit(disk, s, d.directory.value, Some(d.name), false).value;
      assert disk.Keys - first.visiting - first.visited <= disk.Keys - s.visiting - s.visited;
      DependenciesGather(disk, first, dependencies[1..], top);
      assert DependencyFits(disk, d);
      forall k | 0 <= k < |dependencies|
        ensures DependencyFits(disk, dependencies[k])
      {
        if k > 0 {
          assert dependencies[1..][k - 1] == dependencies[k];
        }
      }
    }
  }

  // ----- success under the condition -----

  /** What is noted so far comes from packages the top leads to. */
  ghost predicate Known(disk: Disk, s: State, top: Path) {
    && Consistent(disk, s)
    && (forall n :: n in s.names ==> Below(disk, top, s.names[n]))
    && (forall n :: n in s.natives ==> NativeBelow(disk, top, n, s.natives[n]))
  }

  ghost predicate NativeBelow(disk: Disk, top: Path, name: string, directory: Path) {
    exists p :: Below(disk, top, p) && p in disk && HasNative(disk[p].natives, name, directory)
  }

  lemma {:induction false} NativesAccepted(disk: Disk, s: State, top: Path, root: Path, natives: seq<Native>)
    requires Resolvable(disk, top) && Below(disk, top, root)
    requires forall i :: 0 <= i < |natives| ==> natives[i] in disk[root].natives
    requires forall n :: n in s.natives ==> NativeBelow(disk, top, n, s.natives[n])
    ensures AddNatives(s, natives).Success?
    ensures forall n :: n in AddNatives(s, natives).value.natives ==>
              NativeBelow(disk, top, n, AddNatives(s, natives).value.natives[n])
    decreases |natives|
  {
    if |natives| > 0 {
      var n := natives[0];
      assert n in disk[root].natives;
      NativeAccepted(disk, s, top, root, n);
      ValidNames(n.name);
      var t := s.(natives := s.natives[n.name := n.directory.value]);
      NativesAccepted(disk, t, top, root, natives[1..]);
    }
  }

  lemma NativeAccepted(disk: Disk, s: State, top: Path, root: Path, n: Native)
    requires Resolvable(disk, top) && Below(disk, top, root) && root in disk && n in disk[root].natives
    requires forall m :: m in s.natives ==> NativeBelow(disk, top, m, s.natives[m])
    ensures NativeFits(n) && NativeBelow(disk, top, n.name, n.directory.value)
    ensures n.name in s.natives ==> s.natives[n.name] == n.directory.value
  {
    assert Fits(disk, root, root == top);
    NativeHere(disk[root].natives, n);
    if n.name in s.natives {
      NativesAgree(disk, top, root, n, s.natives[n.name]);
    }
  }

  lemma NativeHere(natives: seq<Native>, n: Native)
    requires n in natives && n.directory.Some?
    ensures HasNative(natives, n.name, n.directory.value)
  {
    var i :| 0 <= i < |natives| && natives[i] == n;
  }

  lemma NativesAgree(disk: Disk, top: Path, root: Path, n: Native, directory: Path)
    requires Resolvable(disk, top) && Below(disk, top, root) && n in disk[root].natives
    requires NativeBelow(disk, top, n.name, directory)
    ensures n.directory == Some(directory)
  {
    var p :| Below(disk, top, p) && p in disk && HasNative(disk[p].natives, n.name, directory);
    var i :|
      0 <= i < |disk[p].natives| && disk[p].natives[i].name == n.name
      && disk[p].natives[i].directory == Some(directory);
    var j :| 0 <= j < |disk[root].natives| && disk[root].natives[j] == n;
    assert SameNatives(disk[p].natives, disk[root].natives);
  }

  lemma {:induction false} SourcesAccepted(s: State, root: Path, sources: seq<Source>)
    requires AllSourcesFit(sources)
    ensures AddSources(s, root, sources).Success?
    decreases |sources|
  {
    if |sources| > 0 {
      assert SourceFits(sources[0]);
      assert AllSourcesFit(sources[1..]) by {
        forall i | 0 <= i < |sources[1..]|
          ensures SourceFits(sources[1..][i])
        {
          assert SourceFits(sources[i + 1]);
        }
      }
      SourcesAccepted(AddSource(s, root, sources[0]).value, root, sources[1..]);
    }
  }

  lemma FinishSucceeds(disk: Disk, s: State, root: Path, top: Path)
    requires Resolvable(disk, top) && Below(disk, top, root) && Known(disk, s, top) && root in s.visiting
    requires forall k :: 0 <= k < |disk[root].dependencies| ==> Met(disk, s.roots, disk[root].dependencies[k])
    ensures var r := Finish(s, root, disk[root], root == top);
            r.Success? && Known(disk, r.value, top)
  {
    assert Fits(disk, root, root == top);
    NativesAccepted(disk, s, top, root, disk[root].natives);
    MainFits(disk[root], root == top);
    SourcesAccepted(AddNatives(s, disk[root].natives).value, root, AllSources(disk[root], root == top));
    FinishKeeps(disk, s, root, root == top);
  }

  lemma EnteredKnown(disk: Disk, s: State, root: Path, top: Path)
    requires Resolvable(disk, top) && Below(disk, top, root) && Known(disk, s, top) && root !in s.visited
    ensures Known(disk, Entered(disk, s, root), top)
  {
    assert Fits(disk, root, root == top);
    NamesAgree(disk, s, root, top);
    EnteredConsistent(disk, s, root);
  }

  lemma NamesAgree(disk: Disk, s: State, root: Path, top: Path)
    requires Resolvable(disk, top) && Below(disk, top, root) && Known(disk, s, top)
    ensures root in disk && (disk[root].name in s.names ==> s.names[disk[root].name] == root)
  {
    assert Fits(disk, root, root == top);
    if disk[root].name in s.names {
      var q := s.names[disk[root].name];
      assert Named(disk, s);
      assert Below(disk, top, q) && SameName(disk, q, root);
    }
  }

  /** A package that is being visited and met again is on a cycle. */
  lemma MetAgain(disk: Disk, s: State, root: Path)
    requires OnTheWay(disk, s, root) && root in s.visiting
    ensures OnCycle(DependencyGraph(disk), root)
  {
    var y :| Edge(DependencyGraph(disk), root, y) && Reaches(DependencyGraph(disk), y, root);
    OnCycleBack(DependencyGraph(disk), root, y);
  }

  lemma NotVisiting(disk: Disk, s: State, root: Path, top: Path)
    requires Resolvable(disk, top) && Below(disk, top, root) && OnTheWay(disk, s, root)
    ensures root !in s.visiting
  {
    if root in s.visiting {
      MetAgain(disk, s, root);
    }
  }

  lemma StillOnTheWay(disk: Disk, s: State, root: Path, next: Path)
    requires root in disk && OnTheWay(disk, s, root) && Edge(DependencyGraph(disk), root, next)
    ensures OnTheWay(disk, Entered(disk, s, root), next)
  {
    var g := DependencyGraph(disk);
    forall x | x in Entered(disk, s, root).visiting
      ensures exists y :: Edge(g, x, y) && Reaches(g, y, next)
    {
      if x == root {
        ReachesItself(g, next);
      } else {
        var y :| Edge(g, x, y) && Reaches(g, y, root);
        ReachesOver(g, y, root, next);
      }
    }
  }

  lemma {:induction false} VisitSucceeds(
    disk: Disk, s: State, root: Path, expected: Option<string>, top: Path, includeMain: bool)
    requires Resolvable(disk, top) && Below(disk, top, root) && Known(disk, s, top) && OnTheWay(disk, s, root)
    requires FromTop(s, root, top, includeMain)
    requires expected.Some? ==> root in disk && disk[root].name == expected.value
    ensures var r := Visit(disk, s, root, expected, includeMain);
            r.Success? && Known(disk, r.value, top)
    decreases disk.Keys - s.visiting - s.visited, 0, 0
  {
    NotVisiting(disk, s, root, top);
    if root in s.visited {
      assert Named(disk, s);
    } else {
      assert Fits(disk, root, root == top);
      ValidNames(disk[root].name);
      NamesAgree(disk, s, root, top);
      EnteredKnown(disk, s, root, top);
      var entered := Entered(disk, s, root);
      assert root in disk.Keys - s.visiting - s.visited;
      DependenciesAreBelow(disk, s, root, top);
      DependenciesSucceed(disk, entered, disk[root].dependencies, top);
      VisitAllLists(disk, entered, disk[root].dependencies);
      FinishSucceeds(disk, VisitAll(disk, entered, disk[root].dependencies).value, root, top);
      assert includeMain <==> root == top;
      FinishIsVisit(disk, s, root, expected, includeMain);
    }
  }

  /** A package nothing speaks against is finished after its dependencies. */
  lemma FinishIsVisit(disk: Disk, s: State, root: Path, expected: Option<string>, includeMain: bool)
    requires root in disk && root !in s.visited && root !in s.visiting
    requires Objection(disk[root], s.names, root, expected).None?
    requires VisitAll(disk, Entered(disk, s, root), disk[root].dependencies).Success?
    ensures Visit(disk, s, root, expected, includeMain)
         == Finish(VisitAll(disk, Entered(disk, s, root), disk[root].dependencies).value, root, disk[root], includeMain)
  {
  }

  ghost predicate DependencyBelow(disk: Disk, s: State, d: Dependency, top: Path) {
    && DependencyFits(disk, d) && Below(disk, top, d.directory.value)
    && OnTheWay(disk, s, d.directory.value)
  }

  lemma DependenciesAreBelow(disk: Disk, s: State, root: Path, top: Path)
    requires Resolvable(disk, top) && Below(disk, top, root) && OnTheWay(disk, s, root) && root in disk
    ensures forall k :: 0 <= k < |disk[root].dependencies| ==>
              DependencyBelow(disk, Entered(disk, s, root), disk[root].dependencies[k], top)
  {
    assert Fits(disk, root, root == top);
    forall k | 0 <= k < |disk[root].dependencies|
      ensures DependencyBelow(disk, Entered(disk, s, root), disk[root].dependencies[k], top)
    {
      var next := disk[root].dependencies[k].directory.value;
      assert DependencyFits(disk, disk[root].dependencies[k]);
      assert Edge(DependencyGraph(disk), root, next);
      ReachesOver(DependencyGraph(disk), top, root, next);
      StillOnTheWay(disk, s, root, next);
    }
  }

  lemma {:induction false} DependencySucceeds(disk: Disk, s: State, d: Dependency, top: Path)
    requires Resolvable(disk, top) && Known(disk, s, top) && top in s.visiting && DependencyBelow(disk, s, d, top)
    ensures var r := Visit(disk, s, d.directory.value, Some(d.name), false);
            && r.Success? && Known(disk, r.value, top) && r.value.visiting == s.visiting && s.visited <= r.value.visited
    decreases disk.Keys - s.visiting - s.visited, 0, 1
  {
    VisitSucceeds(disk, s, d.directory.value, Some(d.name), top, false);
  }

  lemma {:induction false} DependenciesSucceed(disk: Disk, s: State, dependencies: seq<Dependency>, top: Path)
    requires Resolvable(disk, top) && Known(disk, s, top) && top in s.visiting
    requires forall k :: 0 <= k < |dependencies| ==> DependencyBelow(disk, s, dependencies[k], top)
    ensures var r := VisitAll(disk, s, dependencies);
            r.Success? && Known(disk, r.value, top)
    decreases disk.Keys - s.visiting - s.visited, |dependencies|
  {
    if |dependencies| > 0 {
      var d := dependencies[0];
      DependencySucceeds(disk, s, d, top);
      var first := Visit(disk, s, d.directory.value, Some(d.name), false).value;
      assert disk.Keys - first.visiting - first.visited <= disk.Keys - s.visiting - s.visited;
      RestBelow(disk, s, first, dependencies, top);
      DependenciesSucceed(disk, first, dependencies[1..], top);
      AfterFirst(disk, s, dependencies);
    }
  }

  lemma AfterFirst(disk: Disk, s: State, dependencies: seq<Dependency>)
    requires |dependencies| > 0 && WellNamed(dependencies[0].name) && dependencies[0].directory.Some?
    requires Visit(disk, s, dependencies[0].directory.value, Some(dependencies[0].name), false).Success?
    ensures var first := Visit(disk, s, dependencies[0].directory.value, Some(dependencies[0].name), false).value;
            VisitAll(disk, s, dependencies) == VisitAll(disk, first, dependencies[1..])
  {
    ValidNames(dependencies[0].name);
  }

  lemma RestBelow(disk: Disk, s: State, t: State, dependencies: seq<Dependency>, top: Path)
    requires |dependencies| > 0 && t.visiting == s.visiting
    requires forall k :: 0 <= k < |dependencies| ==> DependencyBelow(disk, s, dependencies[k], top)
    ensures forall k :: 0 <= k < |dependencies[1..]| ==> DependencyBelow(disk, t, dependencies[1..][k], top)
  {
    forall k | 0 <= k < |dependencies[1..]|
      ensures DependencyBelow(disk, t, dependencies[1..][k], top)
    {
      assert DependencyBelow(disk, s, dependencies[k + 1], top);
    }
  }

  // ----- the results -----

  lemma StartGathered(disk: Disk, top: Path)
    ensures Consistent(disk, START) && Gathered(disk, START, top)
  {
  }

  /**
   On success the listed packages are in order, and the natives and sources are exactly theirs, with the
   main file of the one that was asked for.
   */
  lemma EverythingIsGathered(disk: Disk, root: Path)
    requires Resolve(disk, root).Success?
    ensures var r := Resolve(disk, root).value;
            && Gathered(disk, r, root)
            && (forall p :: p in r.roots <==> p in r.visited) && (forall f :: f in r.sources <==> f in r.sourcePaths)
  {
    StartGathered(disk, root);
    VisitGathers(disk, START, root, None, root, true);
    VisitLists(disk, START, root, None, true);
  }

  lemma GatheredNativesAgree(disk: Disk, r: State, top: Path, p: Path, q: Path)
    requires Gathered(disk, r, top) && p in r.visited && q in r.visited
    ensures SameNatives(disk[p].natives, disk[q].natives)
  {
    assert Fits(disk, p, p == top) && Fits(disk, q, q == top);
    forall i, j | 0 <= i < |disk[p].natives| && 0 <= j < |disk[q].natives|
      && disk[p].natives[i].name == disk[q].natives[j].name
      ensures disk[p].natives[i].directory == disk[q].natives[j].directory
    {
      var a, b := disk[p].natives[i], disk[q].natives[j];
      assert NativeFits(a) && NativeFits(b);
      NativeHere(disk[p].natives, a);
      NativeHere(disk[q].natives, b);
      assert NativeOfSome(disk, r.visited, a.name, a.directory.value);
      assert NativeOfSome(disk, r.visited, b.name, b.directory.value);
    }
  }

  lemma SuccessIsResolvable(disk: Disk, root: Path)
    requires Resolve(disk, root).Success?
    ensures Resolvable(disk, root)
  {
    ResolutionIsComplete(disk, root);
    EverythingIsGathered(disk, root);
    var r := Resolve(disk, root).value;
    forall p | Below(disk, root, p)
      ensures Fits(disk, p, p == root) && !OnCycle(DependencyGraph(disk), p)
    {
      assert p in r.roots;
      if OnCycle(DependencyGraph(disk), p) {
        CyclesAreFound(disk, root, p);
      }
    }
    forall p, q | Below(disk, root, p) && Below(disk, root, q) && p in disk && q in disk
      ensures SameNatives(disk[p].natives, disk[q].natives)
    {
      assert p in r.roots && q in r.roots;
      GatheredNativesAgree(disk, r, root, p, q);
    }
  }

  /**
   A package is resolved exactly if every package it leads to can be read and is in order, their names and
   the directories of their native dependencies agree, and none of them is on a cycle.
   */
  lemma ResolutionSucceedsExactly(disk: Disk, root: Path)
    ensures Resolve(disk, root).Success? <==> Resolvable(disk, root)
  {
    if Resolve(disk, root).Success? {
      SuccessIsResolvable(disk, root);
    }
    if Resolvable(disk, root) {
      StartGathered(disk, root);
      ReachesItself(DependencyGraph(disk), root);
      VisitSucceeds(disk, START, root, None, root, true);
    }
  }

  // ----- the order of the sources -----

  function Files(sources: seq<Source>): seq<Path> {
    if |sources| == 0 then []
    else (if sources[0].file.Some? then [sources[0].file.value] else []) + Files(sources[1..])
  }

  /** The sources of a package as it lists them, and then its main file if it is the one asked for. */
  function PackageFiles(disk: Disk, p: Path, top: Path): seq<Path> {
    if p !in disk then []
    else Files(disk[p].sources) + if p == top && disk[p].main.Some? then Files([disk[p].main.value]) else []
  }

  /** Package by package. */
  function AllFiles(disk: Disk, roots: seq<Path>, top: Path): seq<Path> {
    if |roots| == 0 then []
    else AllFiles(disk, roots[..|roots| - 1], top) + PackageFiles(disk, roots[|roots| - 1], top)
  }

  /** Every file where it occurs first. */
  function FirstOccurrences(files: seq<Path>): seq<Path> {
    if |files| == 0 then []
    else
      var before := FirstOccurrences(files[..|files| - 1]);
      if files[|files| - 1] in files[..|files| - 1] then before else before + [files[|files| - 1]]
  }

  lemma {:induction false} SameFiles(files: seq<Path>, f: Path)
    ensures f in FirstOccurrences(files) <==> f in files
    decreases |files|
  {
    if |files| > 0 {
      var last := files[|files| - 1];
      SameFiles(files[..|files| - 1], f);
      assert files == files[..|files| - 1] + [last];
    }
  }

  lemma OneMore(files: seq<Path>, f: Path)
    ensures FirstOccurrences(files + [f])
         == if f in FirstOccurrences(files) then FirstOccurrences(files) else FirstOccurrences(files) + [f]
  {
    SameFiles(files, f);
    assert (files + [f])[..|files|] == files;
  }

  lemma Grouped<T>(a: seq<T>, b: seq<T>, c: seq<T>)
    ensures a + b + c == a + (b + c)
  {
  }

  lemma Regrouped(files: seq<Path>, f: Path, sources: seq<Source>)
    requires |sources| > 0 && sources[0].file == Some(f)
    ensures files + [f] + Files(sources[1..]) == files + Files(sources)
  {
    Grouped(files, [f], Files(sources[1..]));
  }

  lemma {:induction false} SourcesInOrder(s: State, root: Path, sources: seq<Source>, files: seq<Path>)
    requires Listed(s.sourcePaths, s.sources) && s.sources == FirstOccurrences(files)
    requires AddSources(s, root, sources).Success?
    ensures AddSources(s, root, sources).value.sources == FirstOccurrences(files + Files(sources))
    decreases |sources|
  {
    if |sources| == 0 {
      assert files + Files(sources) == files;
    } else {
      var f := sources[0].file.value;
      OneMore(files, f);
      Regrouped(files, f, sources);
      SourcesInOrder(AddSource(s, root, sources[0]).value, root, sources[1..], files + [f]);
    }
  }

  lemma {:induction false} FilesAppend(a: seq<Source>, b: seq<Source>)
    ensures Files(a + b) == Files(a) + Files(b)
    decreases |a|
  {
    if |a| == 0 {
      assert a + b == b;
    } else {
      FilesAppend(a[1..], b);
      assert (a + b)[1..] == a[1..] + b;
    }
  }

  lemma FilesOfAll(disk: Disk, p: Path, top: Path)
    requires p in disk
    ensures Files(AllSources(disk[p], p == top)) == PackageFiles(disk, p, top)
  {
    var m := disk[p];
    FilesAppend(m.sources, if p == top && m.main.Some? then [m.main.value] else []);
  }

  ghost predicate InOrder(disk: Disk, s: State, top: Path) {
    s.sources == FirstOccurrences(AllFiles(disk, s.roots, top))
  }

  lemma FinishInOrder(disk: Disk, s: State, root: Path, top: Path)
    requires Consistent(disk, s) && InOrder(disk, s, top) && root in disk
    requires Finish(s, root, disk[root], root == top).Success?
    ensures InOrder(disk, Finish(s, root, disk[root], root == top).value, top)
  {
    var n := AddNatives(s, disk[root].natives).value;
    SourcesInOrder(n, root, AllSources(disk[root], root == top), AllFiles(disk, s.roots, top));
    FilesOfAll(disk, root, top);
    assert (s.roots + [root])[..|s.roots|] == s.roots;
  }

  lemma {:induction false} VisitInOrder(
    disk: Disk, s: State, root: Path, expected: Option<string>, top: Path, includeMain: bool)
    requires Consistent(disk, s) && InOrder(disk, s, top) && FromTop(s, root, top, includeMain)
    requires Visit(disk, s, root, expected, includeMain).Success?
    ensures InOrder(disk, Visit(disk, s, root, expected, includeMain).value, top)
    decreases disk.Keys - s.visiting - s.visited, 0
  {
    if root !in s.visited {
      VisitUnfolds(disk, s, root, expected, includeMain);
      assert root in disk.Keys - s.visiting - s.visited;
      EnteredConsistent(disk, s, root);
      var entered := Entered(disk, s, root);
      DependenciesInOrder(disk, entered, disk[root].dependencies, top);
      VisitAllLists(disk, entered, disk[root].dependencies);
      assert includeMain <==> root == top;
      FinishInOrder(disk, VisitAll(disk, entered, disk[root].dependencies).value, root, top);
    }
  }

  lemma {:induction false} DependenciesInOrder(disk: Disk, s: State, dependencies: seq<Dependency>, top: Path)
    requires Consistent(disk, s) && InOrder(disk, s, top) && top in s.visiting
    requires VisitAll(disk, s, dependencies).Success?
    ensures InOrder(disk, VisitAll(disk, s, dependencies).value, top)
    decreases disk.Keys - s.visiting - s.visited, |dependencies|
  {
    if |dependencies| > 0 {
      var d := dependencies[0];
      VisitInOrder(disk, s, d.directory.value, Some(d.name), top, false);
      VisitLists(disk, s, d.directory.value, Some(d.name), false);
      var first := Visit(disk, s, d.directory.value, Some(d.name), false).value;
      assert disk.Keys - first.visiting - first.visited <= disk.Keys - s.visiting - s.visited;
      DependenciesInOrder(disk, first, dependencies[1..], top);
    }
  }

  /**
   The sources come package by package in the order of the roots, so those of dependencies first, in each as
   its manifest lists them, the main file last; a file that occurs again is left out.
   */
  lemma SourcesAreOrdered(disk: Disk, root: Path)
    requires Resolve(disk, root).Success?
    ensures var r := Resolve(disk, root).value;
            r.sources == FirstOccurrences(AllFiles(disk, r.roots, root))
  {
    StartGathered(disk, root);
    VisitInOrder(disk, START, root, None, root, true);
  }

  // ----- errors -----

  /** A package the top leads to depends on this. */
  ghost predicate DependsOn(disk: Disk, top: Path, d: Dependency) {
    exists p :: Below(disk, top, p) && p in disk && d in disk[p].dependencies
  }

  ghost predicate UsesNative(disk: Disk, top: Path, n: Native) {
    exists p :: Below(disk, top, p) && p in disk && n in disk[p].natives
  }

  /** The package at `at` is met where another name, or another package of that name, was expected. */
  ghost predicate NamesClash(disk: Disk, top: Path, name: string, at: Path) {
    || (exists q :: Below(disk, top, at) && Below(disk, top, q) && q != at && SameName(disk, at, q)
                    && disk[at].name == name)
    || (exists d :: DependsOn(disk, top, d) && d.name == name && d.directory == Some(at) && at in disk
                    && disk[at].name != name)
    || (exists n, m :: UsesNative(disk, top, n) && UsesNative(disk, top, m)
                       && n.name == name && m.name == name && n.directory == Some(at) && m.directory != n.directory)
  }

  /** What an error says is so. */
  ghost predicate True(disk: Disk, top: Path, error: Error) {
    match error
    case Cyclic(at) => Below(disk, top, at) && OnCycle(DependencyGraph(disk), at)
    case Unreadable(at) => Below(disk, top, at) && at !in disk
    case BadSchema(at) => Below(disk, top, at) && at in disk && disk[at].schema != 1
    case BadName(name) =>
      && !WellNamed(name)
      && (|| (exists p :: Below(disk, top, p) && p in disk && disk[p].name == name)
          || (exists d :: DependsOn(disk, top, d) && d.name == name)
          || (exists n :: UsesNative(disk, top, n) && n.name == name))
    case WrongPackage(expected, at) =>
      exists d :: DependsOn(disk, top, d) && d.name == expected && d.directory == Some(at) && at in disk
                  && disk[at].name != expected
    case NameClash(name, at) => NamesClash(disk, top, name, at)
    case NoDirectory(name) =>
      || (exists d :: DependsOn(disk, top, d) && d.name == name && d.directory.None?)
      || (exists n :: UsesNative(disk, top, n) && n.name == name && n.directory.None?)
    case NotCargo(name) => exists n :: UsesNative(disk, top, n) && n.name == name && !n.isCargo
    case BadSource(at) =>
      && Below(disk, top, at) && at in disk
      && (|| (exists source :: source in disk[at].sources && !SourceFits(source))
          || (at == top && disk[at].main.Some? && !SourceFits(disk[at].main.value)))
  }

  lemma NativeIsUsed(disk: Disk, top: Path, name: string, directory: Path) returns (n: Native)
    requires NativeBelow(disk, top, name, directory)
    ensures UsesNative(disk, top, n) && n.name == name && n.directory == Some(directory)
  {
    var p :| Below(disk, top, p) && p in disk && HasNative(disk[p].natives, name, directory);
    var i :| 0 <= i < |disk[p].natives| && disk[p].natives[i].name == name
      && disk[p].natives[i].directory == Some(directory);
    n := disk[p].natives[i];
    assert n in disk[p].natives;
  }

  lemma UsedIsBelow(disk: Disk, top: Path, n: Native)
    requires UsesNative(disk, top, n) && n.directory.Some?
    ensures NativeBelow(disk, top, n.name, n.directory.value)
  {
    var p :| Below(disk, top, p) && p in disk && n in disk[p].natives;
    NativeHere(disk[p].natives, n);
  }

  lemma {:induction false} NativesTold(disk: Disk, s: State, top: Path, natives: seq<Native>)
    requires forall i :: 0 <= i < |natives| ==> UsesNative(disk, top, natives[i])
    requires forall n :: n in s.natives ==> NativeBelow(disk, top, n, s.natives[n])
    ensures var r := AddNatives(s, natives);
            if r.Failure? then True(disk, top, r.error)
            else forall n :: n in r.value.natives ==> NativeBelow(disk, top, n, r.value.natives[n])
    decreases |natives|
  {
    if |natives| > 0 {
      var n := natives[0];
      ValidNames(n.name);
      assert UsesNative(disk, top, n);
      if n.directory.Some? {
        UsedIsBelow(disk, top, n);
        if n.name in s.natives && s.natives[n.name] != n.directory.value {
          var m := NativeIsUsed(disk, top, n.name, s.natives[n.name]);
        }
        NativesTold(disk, s.(natives := s.natives[n.name := n.directory.value]), top, natives[1..]);
      }
    }
  }

  lemma {:induction false} SourcesTold(s: State, root: Path, sources: seq<Source>)
    ensures var r := AddSources(s, root, sources);
            r.Failure? ==> r.error == BadSource(root) && exists source :: source in sources && !SourceFits(source)
    decreases |sources|
  {
    if |sources| > 0 {
      var first := AddSource(s, root, sources[0]);
      if first.Failure? {
        assert sources[0] in sources && !SourceFits(sources[0]);
      } else {
        SourcesTold(first.value, root, sources[1..]);
      }
    }
  }

  lemma FinishTold(disk: Disk, s: State, root: Path, top: Path)
    requires Known(disk, s, top) && Below(disk, top, root) && root in disk && root in s.visiting
    requires forall k :: 0 <= k < |disk[root].dependencies| ==> Met(disk, s.roots, disk[root].dependencies[k])
    ensures var r := Finish(s, root, disk[root], root == top);
            if r.Failure? then True(disk, top, r.error) else Known(disk, r.value, top)
  {
    var m := disk[root];
    var n := AddNatives(s, m.natives);
    forall i | 0 <= i < |m.natives|
      ensures UsesNative(disk, top, m.natives[i])
    {
      assert m.natives[i] in disk[root].natives;
    }
    NativesTold(disk, s, top, m.natives);
    if n.Success? {
      SourcesTold(n.value, root, AllSources(m, root == top));
      FinishKeeps(disk, s, root, root == top);
    }
  }

  lemma EnteredTold(disk: Disk, s: State, root: Path, top: Path)
    requires Known(disk, s, top) && Below(disk, top, root) && root in disk && root !in s.visited
    requires disk[root].name in s.names ==> s.names[disk[root].name] == root
    ensures Known(disk, Entered(disk, s, root), top)
  {
    EnteredConsistent(disk, s, root);
  }

  /** What is expected of a package is what some dependency on it says. */
  ghost predicate Asked(disk: Disk, top: Path, root: Path, expected: Option<string>) {
    expected.Some? ==> DependsOn(disk, top, Dependency(expected.value, Some(root)))
  }

  lemma ObjectionTold(disk: Disk, s: State, root: Path, expected: Option<string>, top: Path)
    requires Known(disk, s, top) && Below(disk, top, root) && root in disk && Asked(disk, top, root, expected)
    ensures var objection := Objection(disk[root], s.names, root, expected);
            objection.Some? ==> True(disk, top, objection.value)
  {
    var m := disk[root];
    ValidNames(m.name);
    if m.name in s.names && s.names[m.name] != root {
      assert Named(disk, s);
      assert Below(disk, top, s.names[m.name]) && SameName(disk, root, s.names[m.name]);
    }
    if expected.Some? && expected.value != m.name {
      assert DependsOn(disk, top, Dependency(expected.value, Some(root)));
    }
  }

  /** A package that was visited under another name than the one expected. */
  lemma RevisitTold(disk: Disk, s: State, root: Path, expected: string, top: Path)
    requires Known(disk, s, top) && root in s.visited && Asked(disk, top, root, Some(expected))
    requires !(expected in s.names && s.names[expected] == root)
    ensures True(disk, top, NameClash(expected, root))
  {
    assert Named(disk, s);
    var d := Dependency(expected, Some(root));
    assert DependsOn(disk, top, d) && root in disk && disk[root].name != expected;
  }

  lemma {:induction false} VisitTold(
    disk: Disk, s: State, root: Path, expected: Option<string>, top: Path, includeMain: bool)
    requires Known(disk, s, top) && Below(disk, top, root) && OnTheWay(disk, s, root)
    requires FromTop(s, root, top, includeMain) && Asked(disk, top, root, expected)
    ensures var r := Visit(disk, s, root, expected, includeMain);
            if r.Failure? then True(disk, top, r.error) else Known(disk, r.value, top)
    decreases disk.Keys - s.visiting - s.visited, 0
  {
    if root in s.visited {
      if expected.Some? && !(expected.value in s.names && s.names[expected.value] == root) {
        RevisitTold(disk, s, root, expected.value, top);
      }
    } else if root in s.visiting {
      MetAgain(disk, s, root);
    } else if root in disk {
      ObjectionTold(disk, s, root, expected, top);
      if Objection(disk[root], s.names, root, expected).None? {
        EnteredTold(disk, s, root, top);
        BodyTold(disk, s, root, expected, top, includeMain);
      }
    }
  }

  lemma {:induction false} BodyTold(
    disk: Disk, s: State, root: Path, expected: Option<string>, top: Path, includeMain: bool)
    requires Below(disk, top, root) && OnTheWay(disk, s, root) && FromTop(s, root, top, includeMain)
    requires root in disk && root !in s.visited && root !in s.visiting
    requires Objection(disk[root], s.names, root, expected).None? && Known(disk, Entered(disk, s, root), top)
    ensures var r := Visit(disk, s, root, expected, includeMain);
            if r.Failure? then True(disk, top, r.error) else Known(disk, r.value, top)
    decreases disk.Keys - s.visiting - s.visited, 0, 0
  {
    var entered := Entered(disk, s, root);
    assert root in disk.Keys - s.visiting - s.visited;
    forall k | 0 <= k < |disk[root].dependencies|
      ensures DependencyAsked(disk, entered, disk[root].dependencies[k], top)
    {
      DependencyIsAsked(disk, s, root, disk[root].dependencies[k], top);
    }
    DependenciesTold(disk, entered, disk[root].dependencies, top);
    VisitAllLists(disk, entered, disk[root].dependencies);
    var d := VisitAll(disk, entered, disk[root].dependencies);
    if d.Success? {
      assert includeMain <==> root == top;
      FinishTold(disk, d.value, root, top);
      FinishIsVisit(disk, s, root, expected, includeMain);
    } else {
      FailsBefore(disk, s, root, expected, includeMain);
    }
  }

  lemma FailsBefore(disk: Disk, s: State, root: Path, expected: Option<string>, includeMain: bool)
    requires root in disk && root !in s.visited && root !in s.visiting
    requires Objection(disk[root], s.names, root, expected).None?
    requires VisitAll(disk, Entered(disk, s, root), disk[root].dependencies).Failure?
    ensures Visit(disk, s, root, expected, includeMain)
         == VisitAll(disk, Entered(disk, s, root), disk[root].dependencies)
  {
  }

  ghost predicate DependencyAsked(disk: Disk, s: State, d: Dependency, top: Path) {
    && DependsOn(disk, top, d)
    && (d.directory.Some? ==> Below(disk, top, d.directory.value) && OnTheWay(disk, s, d.directory.value))
  }

  lemma DependencyIsAsked(disk: Disk, s: State, root: Path, d: Dependency, top: Path)
    requires Below(disk, top, root) && OnTheWay(disk, s, root) && root in disk && d in disk[root].dependencies
    ensures DependencyAsked(disk, Entered(disk, s, root), d, top)
  {
    if d.directory.Some? {
      var k :| 0 <= k < |disk[root].dependencies| && disk[root].dependencies[k] == d;
      assert Edge(DependencyGraph(disk), root, d.directory.value);
      ReachesOver(DependencyGraph(disk), top, root, d.directory.value);
      StillOnTheWay(disk, s, root, d.directory.value);
    }
  }

  lemma {:induction false} DependenciesTold(disk: Disk, s: State, dependencies: seq<Dependency>, top: Path)
    requires Known(disk, s, top) && top in s.visiting
    requires forall k :: 0 <= k < |dependencies| ==> DependencyAsked(disk, s, dependencies[k], top)
    ensures var r := VisitAll(disk, s, dependencies);
            if r.Failure? then True(disk, top, r.error) else Known(disk, r.value, top)
    decreases disk.Keys - s.visiting - s.visited, |dependencies|
  {
    if |dependencies| > 0 {
      var d := dependencies[0];
      ValidNames(d.name);
      assert DependencyAsked(disk, s, d, top);
      if WellNamed(d.name) && d.directory.Some? {
        assert d == Dependency(d.name, Some(d.directory.value));
        VisitTold(disk, s, d.directory.value, Some(d.name), top, false);
        var first := Visit(disk, s, d.directory.value, Some(d.name), false);
        if first.Success? {
          assert disk.Keys - first.value.visiting - first.value.visited <= disk.Keys - s.visiting - s.visited;
          RestAsked(disk, s, first.value, dependencies, top);
          DependenciesTold(disk, first.value, dependencies[1..], top);
        }
      }
    }
  }

  lemma RestAsked(disk: Disk, s: State, t: State, dependencies: seq<Dependency>, top: Path)
    requires |dependencies| > 0 && t.visiting == s.visiting
    requires forall k :: 0 <= k < |dependencies| ==> DependencyAsked(disk, s, dependencies[k], top)
    ensures forall k :: 0 <= k < |dependencies[1..]| ==> DependencyAsked(disk, t, dependencies[1..][k], top)
  {
    forall k | 0 <= k < |dependencies[1..]|
      ensures DependencyAsked(disk, t, dependencies[1..][k], top)
    {
      assert DependencyAsked(disk, s, dependencies[k + 1], top);
    }
  }

  /** Whatever error a resolution ends in, what it says is so, in a package the root leads to. */
  lemma ErrorsAreTrue(disk: Disk, root: Path)
    requires Resolve(disk, root).Failure?
    ensures True(disk, root, Resolve(disk, root).error)
  {
    StartGathered(disk, root);
    ReachesItself(DependencyGraph(disk), root);
    VisitTold(disk, START, root, None, root, true);
  }
}
