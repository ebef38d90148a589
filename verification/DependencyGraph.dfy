/** The dependency graph of scripts/dependency_graph.py: what depends directly on a file, and which tests a change reaches. */
module DependencyGraph {
  import opened Text
  import opened Reachability

  const TESTS := "tests/"
  const COLLECTION := "::pytest-collection"

  /** The part of a built graph that following it reads; `files` are the tracked files of the tree. */
  datatype Graph = Graph(files: set<string>, dependents: map<string, set<string>>, folderReaders: map<string, set<string>>,
                         engineReads: map<string, set<string>>, plugins: map<string, string>,
                         fixtureUncertainty: set<string>, dynamicImports: set<string>)

  /** A plugin's collection-only node is named after its source and is no source itself. */
  ghost predicate PluginsOk(g: Graph) {
    forall s :: s in g.plugins ==> g.plugins[s] == s + COLLECTION && g.plugins[s] !in g.plugins
  }

  // -- folders

  /** `path.rpartition("/")[0]` */
  function FolderOf(path: string): (r: string)
    ensures |r| < |path| || path == ""
  {
    if path == "" then ""
    else if path[|path| - 1] == '/' then path[..|path| - 1]
    else FolderOf(path[..|path| - 1])
  }

  /** `folder` is a leading directory of `path`. */
  predicate Holds(folder: string, path: string) {
    folder != "" && StartsWith(path, folder + "/")
  }

  lemma {:induction false} FolderOfSplits(path: string)
    ensures var f := FolderOf(path);
            if '/' in path then |f| < |path| && path[..|f|] == f && path[|f|] == '/' && '/' !in path[|f| + 1..] else f == ""
  {
    if path != "" {
      var front := path[..|path| - 1];
      assert path == front + [path[|path| - 1]];
      if path[|path| - 1] != '/' {
        FolderOfSplits(front);
        var f := FolderOf(front);
        if '/' in front {
          assert path[|f| + 1..] == front[|f| + 1..] + [path[|path| - 1]];
        }
      }
    }
  }

  /** The folders of a path are its own folder and that folder's folders. */
  lemma {:induction false} HoldsUpward(folder: string, path: string)
    ensures Holds(folder, path) <==> FolderOf(path) != "" && (folder == FolderOf(path) || Holds(folder, FolderOf(path)))
  {
    FolderOfSplits(path);
    var f := FolderOf(path);
    if Holds(folder, path) {
      assert path[|folder|] == '/' && path[..|folder|] == folder by { assert (folder + "/")[|folder|] == '/'; }
      assert '/' in path;
      forall k | |f| < k < |path| ensures path[k] != '/' { assert path[|f| + 1..][k - |f| - 1] in path[|f| + 1..]; }
      if |folder| < |f| {
        assert f[..|folder| + 1] == path[..|folder| + 1] == folder + "/";
      }
    }
    if f != "" && (folder == f || Holds(folder, f)) {
      if folder == f {
        assert path[..|f| + 1] == f + "/";
      } else {
        assert path[..|folder| + 1] == f[..|folder| + 1];
      }
    }
  }

  // -- direct dependents

  function Dependents(g: Graph, path: string): set<string> {
    if path in g.dependents then g.dependents[path] else {}
  }

  function ReadersOf(g: Graph, folder: string): set<string> {
    if folder in g.folderReaders then g.folderReaders[folder] else {}
  }

  /** Everything that reads a folder holding `path`. */
  function FolderReaders(g: Graph, path: string): set<string> {
    set folder, r | folder in g.folderReaders && Holds(folder, path) && r in g.folderReaders[folder] :: r
  }

  /** Files that import, run or name `path` and, where a change starts, those that read a folder holding it. */
  function Direct(g: Graph, path: string, start: bool): set<string> {
    Dependents(g, path) + (if start then FolderReaders(g, path) else {}) - {path}
  }

  /** `direct_dependents` */
  method DirectDependents(g: Graph, path: string, includeFolders: bool) returns (found: set<string>)
    ensures found == Direct(g, path, includeFolders)
  {
    found := Dependents(g, path);
    if includeFolders {
      var folder := FolderOf(path);
      HoldersStep(g, path);
      while folder != ""
        invariant found + (if folder == "" then {} else ReadersOf(g, folder) + FolderReaders(g, folder)) == Dependents(g, path) + FolderReaders(g, path)
        decreases |folder|
      {
        HoldersStep(g, folder);
        found := found + ReadersOf(g, folder);
        folder := FolderOf(folder);
      }
    }
    found := found - {path};
  }

  lemma {:induction false} HoldersStep(g: Graph, path: string)
    ensures FolderReaders(g, path) ==
              if FolderOf(path) == "" then {} else ReadersOf(g, FolderOf(path)) + FolderReaders(g, FolderOf(path))
  {
    forall folder ensures Holds(folder, path) <==> FolderOf(path) != "" && (folder == FolderOf(path) || Holds(folder, FolderOf(path))) {
      HoldsUpward(folder, path);
    }
  }

  // -- the tests of an engine module's package

  function BaseOf(path: string): string {
    var parts := Split(path, '/');
    parts[|parts| - 1]
  }

  predicate IsTestFile(path: string) {
    && StartsWith(path, TESTS) && EndsWith(BaseOf(path), ".py")
    && (StartsWith(BaseOf(path), "test_") || EndsWith(BaseOf(path), "_test.py"))
  }

  function PackageTests(g: Graph, engineModule: string): set<string> {
    var parts := Split(engineModule, '/');
    if |parts| < 3 then {} else set p | p in g.files && Holds("tests/test_" + parts[1], p) && IsTestFile(p)
  }

  function EngineReaders(g: Graph, path: string): set<string> {
    if path in g.engineReads then g.engineReads[path] else {}
  }

  // -- chains

  /** One step of following a change made to `changed`: folders and plugin collections count only where it starts. */
  ghost predicate Step(g: Graph, changed: set<string>, a: string, b: string) {
    || b in Direct(g, a, a in changed)
    || (exists m :: m in EngineReaders(g, a) && b in PackageTests(g, m))
    || (a in changed && a in g.plugins && b == g.plugins[a])
  }

  ghost function Steps(g: Graph, changed: set<string>): (string, string) -> bool {
    (a, b) => Step(g, changed, a, b)
  }

  /** A dependency chain from a changed file: every element depends on the one before it, an engine module standing
      between a file it names and its package's tests. */
  ghost predicate IsChain(g: Graph, changed: set<string>, chain: seq<string>)
    decreases |chain|
  {
    var n := |chain|;
    && n > 0
    && (|| (n == 1 && chain[0] in changed)
        || (n > 1 && IsChain(g, changed, chain[..n - 1]) && chain[n - 1] in Direct(g, chain[n - 2], chain[n - 2] in changed))
        || (n > 1 && IsChain(g, changed, chain[..n - 1]) && chain[n - 2] in changed && chain[n - 2] in g.plugins && chain[n - 1] == g.plugins[chain[n - 2]])
        || (n > 2 && IsChain(g, changed, chain[..n - 2]) && chain[n - 2] in EngineReaders(g, chain[n - 3]) && chain[n - 1] in PackageTests(g, chain[n - 2])))
  }

  /** A chain's last element is reachable from the change. */
  lemma {:induction false} ChainReaches(g: Graph, changed: set<string>, chain: seq<string>)
    requires IsChain(g, changed, chain)
    ensures Reachable(Steps(g, changed), changed, chain[|chain| - 1])
    decreases |chain|
  {
    var n := |chain|;
    if n == 1 && chain[0] in changed {
      SeedReachable(Steps(g, changed), changed, chain[0]);
    } else if n > 1 && IsChain(g, changed, chain[..n - 1]) && Step(g, changed, chain[n - 2], chain[n - 1]) {
      ChainReaches(g, changed, chain[..n - 1]);
      StepReachable(Steps(g, changed), changed, chain[n - 2], chain[n - 1]);
    } else {
      ChainReaches(g, changed, chain[..n - 2]);
      StepReachable(Steps(g, changed), changed, chain[n - 3], chain[n - 1]);
    }
  }
}
