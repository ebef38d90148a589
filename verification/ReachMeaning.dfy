/** What a change reaches, on the recorded graph alone. */
module ReachMeaning {
  import opened Text
  import opened Reachability
  import opened DependencyGraph
  import opened TestsReaching

  // -- names

  /** `path` lies in the folder, and its last part is `name`. */
  ghost predicate Named(path: string, folder: string, name: string) {
    path == folder + "/" + name && '/' !in name
  }

  ghost predicate TestName(name: string) {
    && |name| >= 3 && name[|name| - 3..] == ".py"
    && ("test_" <= name || (|name| >= 8 && name[|name| - 8..] == "_test.py"))
  }

  /** A Python file anywhere under tests/, named as pytest collects it. */
  ghost predicate IsTest(path: string) {
    "tests/" <= path && exists folder, name :: Named(path, folder, name) && TestName(name)
  }

  /** `path` is `top/name/rest`. */
  ghost predicate InPackage(path: string, top: string, name: string, rest: string) {
    path == top + "/" + name + "/" + rest && '/' !in top && '/' !in name
  }

  /** A tracked test of the package an engine module lies in. */
  ghost predicate TestsModule(g: Graph, m: string, t: string) {
    t in g.files && IsTest(t) && exists top, name, rest :: InPackage(m, top, name, rest) && "tests/test_" + name + "/" <= t
  }

  lemma {:induction false} NamedSplit(path: string, folder: string, name: string)
    requires Named(path, folder, name)
    ensures BaseOf(path) == name
    decreases |folder|
  {
    if '/' !in folder {
      SplitHead(folder, name, '/');
      SplitPiece(name, '/');
      assert path == folder + ['/'] + name;
    } else {
      var cut :| 0 <= cut < |folder| && folder[cut] == '/' && '/' !in folder[..cut] by { FirstSlash(folder); }
      var head, rest := folder[..cut], folder[cut + 1..];
      assert folder == head + ['/'] + rest;
      assert path == head + ['/'] + (rest + "/" + name);
      SplitHead(head, rest + "/" + name, '/');
      NamedSplit(rest + "/" + name, rest, name);
    }
  }

  lemma {:induction false} FirstSlash(s: string)
    requires '/' in s
    ensures exists cut :: 0 <= cut < |s| && s[cut] == '/' && '/' !in s[..cut]
  {
    if s[0] == '/' {
      assert s[..0] == [];
    } else {
      assert s == [s[0]] + s[1..];
      FirstSlash(s[1..]);
      var cut :| 0 <= cut < |s[1..]| && s[1..][cut] == '/' && '/' !in s[1..][..cut];
      assert s[..cut + 1] == [s[0]] + s[1..][..cut];
      assert s[cut + 1] == '/';
    }
  }

  lemma {:induction false} TestIs(path: string)
    ensures IsTestFile(path) <==> IsTest(path)
  {
    if "tests/" <= path {
      FolderOfSplits(path);
      assert path[5] == '/';
      var folder := FolderOf(path);
      var name := path[|folder| + 1..];
      assert path == folder + "/" + name;
      assert Named(path, folder, name);
      NamedSplit(path, folder, name);
      forall f, n | Named(path, f, n) ensures n == BaseOf(path) { NamedSplit(path, f, n); }
    }
  }

  lemma {:induction false} PackageIs(m: string, top: string, name: string, rest: string)
    requires InPackage(m, top, name, rest)
    ensures |Split(m, '/')| >= 3 && Split(m, '/')[1] == name
  {
    assert m == top + ['/'] + (name + "/" + rest);
    assert name + "/" + rest == name + ['/'] + rest;
    SplitHead(top, name + "/" + rest, '/');
    SplitHead(name, rest, '/');
  }

  lemma {:induction false} InSomePackage(m: string)
    requires |Split(m, '/')| >= 3
    ensures exists rest :: InPackage(m, Split(m, '/')[0], Split(m, '/')[1], rest)
  {
    var parts := Split(m, '/');
    JoinSplit(m, '/');
    var rest := Join(parts[2..], '/');
    assert Join(parts, '/') == parts[0] + ['/'] + Join(parts[1..], '/');
    assert parts[1..][1..] == parts[2..];
    assert m == parts[0] + "/" + parts[1] + "/" + rest;
    assert InPackage(m, parts[0], parts[1], rest);
  }

  lemma {:induction false} PackageTestIs(g: Graph, m: string, t: string)
    ensures t in PackageTests(g, m) <==> TestsModule(g, m, t)
  {
    TestIs(t);
    if t in PackageTests(g, m) {
      InSomePackage(m);
    }
    if TestsModule(g, m, t) {
      var top, name, rest :| InPackage(m, top, name, rest) && "tests/test_" + name + "/" <= t;
      PackageIs(m, top, name, rest);
    }
  }

  // -- one step

  /** `b` imports, runs or names `a`. */
  ghost predicate Names(g: Graph, a: string, b: string) {
    a in g.dependents && b in g.dependents[a]
  }

  /** `b` reads a leading directory of `a`. */
  ghost predicate ReadsFolder(g: Graph, a: string, b: string) {
    exists folder :: folder in g.folderReaders && folder != "" && folder + "/" <= a && b in g.folderReaders[folder]
  }

  ghost predicate NamedBy(g: Graph, a: string, m: string) {
    a in g.engineReads && m in g.engineReads[a]
  }

  /** A folder's readers and a plugin's collection count only for a file that was itself changed. */
  ghost predicate Hears(g: Graph, changed: set<string>, a: string, b: string) {
    || (b != a && (Names(g, a, b) || (a in changed && ReadsFolder(g, a, b))))
    || (a in changed && a in g.plugins && b == g.plugins[a])
  }

  ghost predicate DependsOn(g: Graph, changed: set<string>, a: string, b: string) {
    Hears(g, changed, a, b) || exists m :: NamedBy(g, a, m) && TestsModule(g, m, b)
  }

  ghost predicate IsRoute(g: Graph, changed: set<string>, route: seq<string>) {
    && route != [] && route[0] in changed
    && forall i :: 0 <= i < |route| - 1 ==> DependsOn(g, changed, route[i], route[i + 1])
  }

  lemma {:induction false} StepIs(g: Graph, changed: set<string>, a: string, b: string)
    ensures Step(g, changed, a, b) <==> DependsOn(g, changed, a, b)
  {
    forall m ensures b in PackageTests(g, m) <==> TestsModule(g, m, b) { PackageTestIs(g, m, b); }
    assert b in FolderReaders(g, a) <==> ReadsFolder(g, a, b);
  }

  /** What a change reaches is what a route of recorded dependencies leads to from a changed file. */
  lemma {:induction false} ReachedMeans(g: Graph, changed: set<string>, x: string)
    ensures Reached(g, changed, x) <==> exists route :: IsRoute(g, changed, route) && route[|route| - 1] == x
  {
    if Reached(g, changed, x) {
      var path :| PathTo(Steps(g, changed), changed, path, x);
      forall i | 0 <= i < |path| - 1 ensures DependsOn(g, changed, path[i], path[i + 1]) {
        assert Steps(g, changed)(path[i], path[i + 1]);
        StepIs(g, changed, path[i], path[i + 1]);
      }
      assert IsRoute(g, changed, path);
    }
    if route :| IsRoute(g, changed, route) && route[|route| - 1] == x {
      forall i | 0 <= i < |route| - 1 ensures Steps(g, changed)(route[i], route[i + 1]) { StepIs(g, changed, route[i], route[i + 1]); }
      assert PathTo(Steps(g, changed), changed, route, x);
    }
  }

  // -- the chains that are shown

  /** What stands at `i` hears of what stands before it, or is an engine module between a file it names and a test of its
      package, or that test. */
  ghost predicate Link(g: Graph, changed: set<string>, chain: seq<string>, i: nat)
    requires 0 < i < |chain|
  {
    || Hears(g, changed, chain[i - 1], chain[i])
    || (i + 1 < |chain| && NamedBy(g, chain[i - 1], chain[i]) && TestsModule(g, chain[i], chain[i + 1]))
    || (i > 1 && NamedBy(g, chain[i - 2], chain[i - 1]) && TestsModule(g, chain[i - 1], chain[i]))
  }

  ghost predicate Linked(g: Graph, changed: set<string>, chain: seq<string>) {
    && chain != [] && chain[0] in changed
    && forall i :: 0 < i < |chain| ==> Link(g, changed, chain, i)
  }

  lemma {:induction false} LinkKept(g: Graph, changed: set<string>, chain: seq<string>, n: nat, i: nat)
    requires 0 < i < n <= |chain| && Link(g, changed, chain[..n], i)
    ensures Link(g, changed, chain, i)
  {
  }

  lemma {:induction false} ChainLinked(g: Graph, changed: set<string>, chain: seq<string>)
    requires IsChain(g, changed, chain)
    ensures Linked(g, changed, chain)
    decreases |chain|
  {
    var n := |chain|;
    if n == 1 && chain[0] in changed {
    } else if n > 1 && IsChain(g, changed, chain[..n - 1]) && Hears(g, changed, chain[n - 2], chain[n - 1]) {
      ChainLinked(g, changed, chain[..n - 1]);
      forall i | 0 < i < n ensures Link(g, changed, chain, i) {
        if i < n - 1 { LinkKept(g, changed, chain, n - 1, i); }
      }
    } else {
      StepSplits(g, changed, chain);
      ChainLinked(g, changed, chain[..n - 2]);
      PackageTestIs(g, chain[n - 2], chain[n - 1]);
      forall i | 0 < i < n ensures Link(g, changed, chain, i) {
        if i < n - 2 { LinkKept(g, changed, chain, n - 2, i); }
      }
    }
  }

  lemma {:induction false} StepSplits(g: Graph, changed: set<string>, chain: seq<string>)
    requires IsChain(g, changed, chain) && !(|chain| == 1 && chain[0] in changed)
    requires !(|chain| > 1 && IsChain(g, changed, chain[..|chain| - 1]) && Hears(g, changed, chain[|chain| - 2], chain[|chain| - 1]))
    ensures var n := |chain|; n > 2 && IsChain(g, changed, chain[..n - 2]) && chain[n - 2] in EngineReaders(g, chain[n - 3]) && chain[n - 1] in PackageTests(g, chain[n - 2])
  {
    var n := |chain|;
    if n > 1 {
      var a, b := chain[n - 2], chain[n - 1];
      assert b in FolderReaders(g, a) <==> ReadsFolder(g, a, b);
      assert b in Direct(g, a, a in changed) ==> Hears(g, changed, a, b);
    }
  }
}
