/** What is selected, spelled out on the paths, the rules' parts and the recorded graph. */
module SelectionMeaning {
  import opened Records
  import opened Text
  import opened DependencyGraph
  import opened TestsReaching
  import opened ReachMeaning
  import opened SelectionRules
  import opened SelectionTheorems

  // -- paths

  /** `path[i..j]` is one of the names between the slashes of `path`. */
  ghost predicate Piece(path: string, i: int, j: int) {
    && 0 <= i <= j <= |path| && '/' !in path[i..j]
    && (i == 0 || path[i - 1] == '/') && (j == |path| || path[j] == '/')
  }

  predicate Plain(c: char) {
    'A' <= c <= 'Z' || 'a' <= c <= 'z' || '0' <= c <= '9' || c == '_' || c == '.' || c == '-'
  }

  ghost predicate Safe(path: string) {
    forall i, j :: Piece(path, i, j) ==>
      path[i..j] != "" && path[i..j] != "." && path[i..j] != ".." && forall k :: i <= k < j ==> Plain(path[k])
  }

  ghost predicate HasPiece(path: string, part: string) {
    exists i, j :: Piece(path, i, j) && path[i..j] == part
  }

  /** The piece that starts no later than the first slash ends there. */
  lemma {:induction false} FirstPiece(path: string, cut: nat, i: int, j: int)
    requires cut < |path| && path[cut] == '/' && (forall k :: 0 <= k < cut ==> path[k] != '/')
    requires Piece(path, i, j) && i <= cut
    ensures i == 0 && j == cut
  {
    forall k | i <= k < j ensures path[k] != '/' { assert path[i..j][k - i] == path[k]; }
  }

  lemma {:induction false} HeadPiece(head: string, rest: string)
    requires '/' !in head
    ensures HasPiece(head + "/" + rest, head)
  {
    var path, n := head + "/" + rest, |head|;
    assert path[0..n] == head && path[n] == '/';
    assert Piece(path, 0, n);
  }

  lemma {:induction false} LaterPiece(head: string, rest: string, part: string)
    requires HasPiece(rest, part)
    ensures HasPiece(head + "/" + rest, part)
  {
    var path, n := head + "/" + rest, |head| + 1;
    var i, j :| Piece(rest, i, j) && rest[i..j] == part;
    assert path[n..] == rest && path[n - 1] == '/';
    assert path[i + n..j + n] == path[n..][i..j];
    assert Piece(path, i + n, j + n);
  }

  lemma {:induction false} PieceOf(head: string, rest: string, part: string)
    requires '/' !in head && HasPiece(head + "/" + rest, part)
    ensures part == head || HasPiece(rest, part)
  {
    var path, n := head + "/" + rest, |head| + 1;
    var i, j :| Piece(path, i, j) && path[i..j] == part;
    assert path[..n - 1] == head && path[n..] == rest && path[n - 1] == '/';
    if i < n {
      forall k | 0 <= k < n - 1 ensures path[k] != '/' { assert path[k] == head[k] && head[k] in head; }
      FirstPiece(path, n - 1, i, j);
      assert path[0..n - 1] == path[..n - 1];
    } else {
      assert path[i..j] == path[n..][i - n..j - n];
      assert Piece(rest, i - n, j - n);
    }
  }

  lemma {:induction false} PiecesAfter(head: string, rest: string, part: string)
    requires '/' !in head
    ensures HasPiece(head + "/" + rest, part) <==> part == head || HasPiece(rest, part)
  {
    HeadPiece(head, rest);
    if HasPiece(rest, part) { LaterPiece(head, rest, part); }
    if HasPiece(head + "/" + rest, part) { PieceOf(head, rest, part); }
  }

  lemma {:induction false} PiecesAlone(path: string, part: string)
    requires '/' !in path
    ensures HasPiece(path, part) <==> part == path
  {
    if HasPiece(path, part) {
      var i, j :| Piece(path, i, j) && path[i..j] == part;
      assert path[0..|path|] == path;
    }
    assert path[0..|path|] == path && Piece(path, 0, |path|) by { assert path[0..|path|] == path; }
  }

  lemma {:induction false} SplitHolds(path: string, part: string)
    ensures part in Split(path, '/') <==> HasPiece(path, part)
    decreases |path|
  {
    if '/' in path {
      FirstSlash(path);
      var cut :| 0 <= cut < |path| && path[cut] == '/' && '/' !in path[..cut];
      var head, rest := path[..cut], path[cut + 1..];
      assert path == head + "/" + rest && path == head + ['/'] + rest;
      PiecesAfter(head, rest, part);
      SplitHead(head, rest, '/');
      SplitHolds(rest, part);
    } else {
      PiecesAlone(path, part);
      SplitPiece(path, '/');
    }
  }

  lemma {:induction false} SafeIs(path: string)
    ensures SafePath(path) <==> Safe(path)
  {
    if SafePath(path) {
      forall i, j | Piece(path, i, j)
        ensures path[i..j] != "" && path[i..j] != "." && path[i..j] != ".." && forall k :: i <= k < j ==> Plain(path[k])
      {
        SplitHolds(path, path[i..j]);
        forall k | i <= k < j ensures Plain(path[k]) { assert SafeChar(path[i..j][k - i]); }
      }
    }
    if Safe(path) {
      forall part | part in Split(path, '/')
        ensures part !in {"", ".", ".."} && forall i :: 0 <= i < |part| ==> SafeChar(part[i])
      {
        SplitHolds(path, part);
        var i, j :| Piece(path, i, j) && path[i..j] == part;
        forall k | 0 <= k < |part| ensures SafeChar(part[k]) { assert Plain(path[i + k]); }
      }
    }
  }

  /** A safe path of the supplier boundary. */
  ghost predicate Boundary(path: string) {
    Safe(path) && (path == "docs/p3-host-contracts.md" || "p3_host_contracts/" <= path || "tests/test_p3_host_contracts/" <= path)
  }

  lemma {:induction false} BoundaryNames()
    ensures HOST_DOC == "docs/p3-host-contracts.md" && HOST_PACKAGE + "/__init__.py" == "p3_host_contracts/__init__.py"
    ensures HOST_PACKAGE + "/" == "p3_host_contracts/" && HOST_TESTS + "/" == "tests/test_p3_host_contracts/"
  {
  }

  lemma {:induction false} BoundaryIs(path: string)
    ensures HostContractPath(path) <==> Boundary(path)
  {
    SafeIs(path);
    BoundaryNames();
  }

  // -- when everything runs

  ghost predicate Asks(rules: Rules, path: string, part: Part) {
    rules.ruleFor(path).Some? && part in rules.ruleFor(path).value
  }

  ghost predicate ChangedPath(changes: set<Change>, path: string) {
    exists c: Change :: c in changes && c.path == path
  }

  ghost predicate DeletedPath(changes: set<Change>, path: string) {
    Change(path, true) in changes
  }

  /** A changed path whose rule follows the graph. */
  ghost predicate Start(rules: Rules, changes: set<Change>, path: string) {
    ChangedPath(changes, path) && Asks(rules, path, FollowGraph)
  }

  /** The graph is entered at a start that is there and at what still names one that is gone. */
  ghost predicate Enters(rules: Rules, tree: Tree, changes: set<Change>, path: string) {
    || (Start(rules, changes, path) && !DeletedPath(changes, path))
    || exists gone :: Start(rules, changes, gone) && DeletedPath(changes, gone) && path in tree.stillNaming(gone)
  }

  ghost predicate MeetsBoundary(changes: set<Change>) {
    exists c: Change :: c in changes && Boundary(c.path)
  }

  /** All changes lie in the boundary, by its own rule. */
  ghost predicate BoundaryAlone(rules: Rules, tree: Tree, changes: set<Change>) {
    && (forall c: Change :: c in changes ==> Boundary(c.path) && rules.bareRuleFor(c.path) == Some([HostContracts]))
    && BoundaryTree(tree)
  }

  /** The tree holds the boundary's package and tests, under safe paths. */
  ghost predicate BoundaryTree(tree: Tree) {
    && "p3_host_contracts/__init__.py" in tree.files
    && (exists t :: t in tree.files && IsTest(t) && "tests/test_p3_host_contracts/" <= t)
    && (forall p :: p in tree.files && ("p3_host_contracts/" <= p || "tests/test_p3_host_contracts/" <= p) ==> Safe(p))
  }

  /** No rule matches a changed path, or its rule asks for everything or names the boundary. */
  ghost predicate Unruled(rules: Rules, changes: set<Change>) {
    exists c: Change :: c in changes && (rules.ruleFor(c.path).None? || Asks(rules, c.path, Full) || Asks(rules, c.path, HostContracts))
  }

  /** The graph is followed though it is uncertain, a start imports dynamically, or a hub that is no start is entered. */
  ghost predicate CannotNarrow(rules: Rules, tree: Tree, changes: set<Change>) {
    && (exists s :: Start(rules, changes, s))
    && (|| (exists f :: f in tree.graph.fixtureUncertainty)
        || (exists s :: Start(rules, changes, s) && s in tree.graph.dynamicImports)
        || (exists h :: h in rules.hubs && Enters(rules, tree, changes, h) && !Start(rules, changes, h)))
  }

  ghost predicate RunsAll(rules: Rules, tree: Tree, changes: set<Change>) {
    || changes == {}
    || (exists c: Change :: c in changes && !Safe(c.path))
    || (MeetsBoundary(changes) && !BoundaryAlone(rules, tree, changes))
    || (!MeetsBoundary(changes) && (Unruled(rules, changes) || CannotNarrow(rules, tree, changes)))
  }

  // -- which tests run otherwise

  /** The folder itself, or anything below it. */
  ghost predicate Within(folder: string, t: string) {
    t == folder || folder + "/" <= t
  }

  /** `part`, asked for by the rule of `path`, takes the tests in `folder`. */
  ghost predicate TakesFolder(tree: Tree, part: Part, path: string, folder: string) {
    || part == TestsUnder(folder)
    || (part == OwnPackageTests && (exists p :: p in tree.files && folder + "/" <= p)
        && exists top, name, rest :: InPackage(path, top, name, rest) && folder == "tests/test_" + name)
    || (part == TopFolderTests && exists name, rest :: InPackage(path, "tests", name, rest) && folder == "tests/" + name)
  }

  ghost predicate TakenByRule(rules: Rules, tree: Tree, changes: set<Change>, t: string) {
    exists path, part, folder :: ChangedPath(changes, path) && Asks(rules, path, part) && TakesFolder(tree, part, path, folder) && Within(folder, t)
  }

  ghost predicate AllEntered(rules: Rules, tree: Tree, changes: set<Change>, entered: set<string>) {
    forall x :: x in entered <==> Enters(rules, tree, changes, x)
  }

  /** A route of dependencies leads to the test from where the graph is entered. */
  ghost predicate TakenByGraph(rules: Rules, tree: Tree, changes: set<Change>, t: string) {
    exists entered, route :: AllEntered(rules, tree, changes, entered) && IsRoute(tree.graph, entered, route) && route[|route| - 1] == t
  }

  ghost predicate Takes(rules: Rules, tree: Tree, changes: set<Change>, t: string) {
    if MeetsBoundary(changes) then t in tree.files && IsTest(t) && "tests/test_p3_host_contracts/" <= t
    else IsTest(t) && ((t in tree.files && TakenByRule(rules, tree, changes, t)) || TakenByGraph(rules, tree, changes, t))
  }

  ghost predicate AsksFor(rules: Rules, changes: set<Change>, part: Part) {
    exists c: Change :: c in changes && Asks(rules, c.path, part)
  }

  // -- the parts of the selection mean this

  lemma {:induction false} StartIs(rules: Rules, changes: set<Change>, path: string)
    ensures path in Starts(rules, changes) <==> Start(rules, changes, path)
    ensures path in Deleted(changes) <==> DeletedPath(changes, path)
  {
    if path in Deleted(changes) {
      var c :| c in changes && c.deleted && c.path == path;
      assert c == Change(path, true);
    }
  }

  lemma {:induction false} EntersIs(rules: Rules, tree: Tree, changes: set<Change>, path: string)
    ensures path in Origins(tree, Starts(rules, changes), Deleted(changes)) <==> Enters(rules, tree, changes, path)
  {
    forall s ensures (s in Starts(rules, changes) <==> Start(rules, changes, s)) && (s in Deleted(changes) <==> DeletedPath(changes, s)) {
      StartIs(rules, changes, s);
    }
  }

  lemma {:induction false} UnruledIs(rules: Rules, changes: set<Change>)
    ensures Unruled(rules, changes) <==> exists c :: c in changes && !Narrowed(rules, c.path)
  {
  }

  lemma {:induction false} NarrowIs(rules: Rules, tree: Tree, changes: set<Change>)
    ensures CannotNarrow(rules, tree, changes) <==>
            Starts(rules, changes) != {} && Widens(rules, tree, Starts(rules, changes), Deleted(changes))
  {
    var starts, origins := Starts(rules, changes), Origins(tree, Starts(rules, changes), Deleted(changes));
    forall s ensures (s in starts <==> Start(rules, changes, s)) && (s in origins <==> Enters(rules, tree, changes, s)) {
      StartIs(rules, changes, s);
      EntersIs(rules, tree, changes, s);
    }
    if h :| h in rules.hubs && Enters(rules, tree, changes, h) && !Start(rules, changes, h) { assert h in origins * rules.hubs - starts; }
    if s :| Start(rules, changes, s) && s in tree.graph.dynamicImports { assert s in starts * tree.graph.dynamicImports; }
  }

  lemma {:induction false} MeetsIs(changes: set<Change>)
    ensures MeetsBoundary(changes) <==> AnyHost(changes)
  {
    forall path ensures HostContractPath(path) <==> Boundary(path) { BoundaryIs(path); }
  }

  lemma {:induction false} AloneIs(rules: Rules, tree: Tree, changes: set<Change>)
    ensures BoundaryAlone(rules, tree, changes) <==> HostOnly(rules, tree, changes)
  {
    forall path ensures HostContractPath(path) <==> Boundary(path) { BoundaryIs(path); }
    BoundaryTreeIs(tree);
  }

  lemma {:induction false} BoundaryTreeIs(tree: Tree)
    ensures BoundaryTree(tree) <==> HostTreeOk(tree.files)
  {
    BoundaryNames();
    BoundaryTestsAre(tree.files);
    BoundaryFilesAre(tree.files);
  }

  lemma {:induction false} BoundaryTestsAre(files: set<string>)
    ensures (exists t :: t in TestsIn(files) && Under(HOST_TESTS, t)) <==>
            exists t :: t in files && IsTest(t) && "tests/test_p3_host_contracts/" <= t
  {
    BoundaryNames();
    forall t ensures t in TestsIn(files) <==> t in files && IsTest(t) { TestIs(t); }
    if t :| t in TestsIn(files) && Under(HOST_TESTS, t) { assert t in files && IsTest(t) && "tests/test_p3_host_contracts/" <= t; }
    if t :| t in files && IsTest(t) && "tests/test_p3_host_contracts/" <= t { assert t in TestsIn(files) && Under(HOST_TESTS, t); }
  }

  lemma {:induction false} BoundaryFilesAre(files: set<string>)
    ensures (forall p :: p in files && (Under(HOST_PACKAGE, p) || Under(HOST_TESTS, p)) ==> SafePath(p)) <==>
            forall p :: p in files && ("p3_host_contracts/" <= p || "tests/test_p3_host_contracts/" <= p) ==> Safe(p)
  {
    BoundaryNames();
    forall path ensures SafePath(path) <==> Safe(path) { SafeIs(path); }
  }

  lemma {:induction false} UnsafeIs(changes: set<Change>)
    ensures AnyUnsafe(changes) <==> changes == {} || exists c: Change :: c in changes && !Safe(c.path)
  {
    forall path ensures SafePath(path) <==> Safe(path) { SafeIs(path); }
  }

  lemma {:induction false} RouteIs(rules: Rules, tree: Tree, changes: set<Change>)
    ensures Selected(rules, tree, changes).Everything? <==>
            AnyUnsafe(changes) || (AnyHost(changes) && !HostOnly(rules, tree, changes)) || (!AnyHost(changes) && Broad(rules, tree, changes))
  {
  }

  lemma {:induction false} BroadIs(rules: Rules, tree: Tree, changes: set<Change>)
    ensures Broad(rules, tree, changes) <==> Unruled(rules, changes) || CannotNarrow(rules, tree, changes)
  {
    UnruledIs(rules, changes);
    NarrowIs(rules, tree, changes);
  }

  /** Everything runs exactly for these changes. */
  lemma {:induction false} EverythingMeans(rules: Rules, tree: Tree, changes: set<Change>)
    ensures Selected(rules, tree, changes).Everything? <==> RunsAll(rules, tree, changes)
  {
    RouteIs(rules, tree, changes);
    UnsafeIs(changes);
    MeetsIs(changes);
    AloneIs(rules, tree, changes);
    BroadIs(rules, tree, changes);
  }

  // -- the tests

  lemma {:induction false} OwnFolderIs(path: string, files: set<string>, folder: string)
    ensures PackageFolder(path, files) == Some(folder) <==>
            (exists p :: p in files && folder + "/" <= p) && exists top, name, rest :: InPackage(path, top, name, rest) && folder == "tests/test_" + name
  {
    if PackageFolder(path, files) == Some(folder) { InSomePackage(path); }
    if top, name, rest :| InPackage(path, top, name, rest) && folder == "tests/test_" + name { PackageIs(path, top, name, rest); }
  }

  lemma {:induction false} TopFolderIs(path: string, folder: string)
    ensures TopTestFolder(path) == Some(folder) <==> exists name, rest :: InPackage(path, "tests", name, rest) && folder == "tests/" + name
  {
    var parts := Split(path, '/');
    if TopTestFolder(path) == Some(folder) {
      InSomePackage(path);
      TwoJoined(parts);
    }
    if name, rest :| InPackage(path, "tests", name, rest) && folder == "tests/" + name {
      PackageIs(path, "tests", name, rest);
      assert path == "tests" + ['/'] + (name + "/" + rest);
      SplitHead("tests", name + "/" + rest, '/');
      assert parts[0] == "tests";
      TwoJoined(parts);
      assert "tests" + "/" + name == "tests/" + name;
    }
  }

  lemma {:induction false} TwoJoined(parts: seq<string>)
    requires |parts| > 2
    ensures Join(parts[..2], '/') == parts[0] + "/" + parts[1]
  {
    assert parts[..2][1..] == [parts[1]];
  }

  lemma {:induction false} FolderIs(part: Part, path: string, tree: Tree, folder: string)
    ensures FolderFor(part, path, tree.files) == Some(folder) <==> TakesFolder(tree, part, path, folder)
  {
    OwnFolderIs(path, tree.files, folder);
    TopFolderIs(path, folder);
  }

  lemma {:induction false} PartTestsIs(part: Part, path: string, tree: Tree, t: string)
    ensures t in PartTests(part, path, tree.files) <==>
            t in tree.files && IsTest(t) && exists folder :: TakesFolder(tree, part, path, folder) && Within(folder, t)
  {
    TestIs(t);
    forall folder ensures FolderFor(part, path, tree.files) == Some(folder) <==> TakesFolder(tree, part, path, folder) {
      FolderIs(part, path, tree, folder);
    }
    var taken := FolderFor(part, path, tree.files);
    if taken.Some? { assert taken == Some(taken.value); }
  }

  lemma {:induction false} RuleTestsAre(rules: Rules, tree: Tree, changes: set<Change>, t: string)
    ensures t in FolderPick(rules, tree, changes) <==> t in tree.files && IsTest(t) && TakenByRule(rules, tree, changes, t)
  {
    forall part, path ensures t in PartTests(part, path, tree.files) <==>
                              t in tree.files && IsTest(t) && exists folder :: TakesFolder(tree, part, path, folder) && Within(folder, t) {
      PartTestsIs(part, path, tree, t);
    }
    if t in FolderPick(rules, tree, changes) {
      var c, part :| c in changes && part in PartsFor(rules, c.path) && t in PartTests(part, c.path, tree.files);
      var folder :| TakesFolder(tree, part, c.path, folder) && Within(folder, t);
      assert ChangedPath(changes, c.path) && Asks(rules, c.path, part);
    }
    if t in tree.files && IsTest(t) && TakenByRule(rules, tree, changes, t) {
      var path, part, folder :| ChangedPath(changes, path) && Asks(rules, path, part) && TakesFolder(tree, part, path, folder) && Within(folder, t);
      var c :| c in changes && c.path == path;
      assert part in PartsFor(rules, c.path) && t in PartTests(part, c.path, tree.files);
    }
  }

  lemma {:induction false} GraphTestsAre(rules: Rules, tree: Tree, changes: set<Change>, t: string)
    ensures t in GraphTests(rules, tree, changes) <==> IsTest(t) && TakenByGraph(rules, tree, changes, t)
  {
    var origins := Origins(tree, Starts(rules, changes), Deleted(changes));
    TestIs(t);
    forall x ensures x in origins <==> Enters(rules, tree, changes, x) { EntersIs(rules, tree, changes, x); }
    assert AllEntered(rules, tree, changes, origins);
    ReachedTestsAre(tree.graph, origins, t);
    ReachedMeans(tree.graph, origins, t);
    if IsTest(t) && TakenByGraph(rules, tree, changes, t) {
      var entered, route :| AllEntered(rules, tree, changes, entered) && IsRoute(tree.graph, entered, route) && route[|route| - 1] == t;
      assert entered == origins;
      assert route[0] in origins;
      NoStartsNoOrigins(rules, tree, changes);
    }
  }

  lemma {:induction false} NoStartsNoOrigins(rules: Rules, tree: Tree, changes: set<Change>)
    ensures Starts(rules, changes) == {} ==> Origins(tree, Starts(rules, changes), Deleted(changes)) == {}
  {
  }

  lemma {:induction false} BoundaryTakes(tree: Tree, t: string)
    ensures t in HostPick(tree).tests <==> t in tree.files && IsTest(t) && "tests/test_p3_host_contracts/" <= t
  {
    TestIs(t);
    BoundaryNames();
  }

  lemma {:induction false} OrdinaryTakes(rules: Rules, tree: Tree, changes: set<Change>, t: string)
    ensures t in NarrowPick(rules, tree, changes).tests <==>
            IsTest(t) && ((t in tree.files && TakenByRule(rules, tree, changes, t)) || TakenByGraph(rules, tree, changes, t))
  {
    RuleTestsAre(rules, tree, changes, t);
    GraphTestsAre(rules, tree, changes, t);
  }

  lemma {:induction false} TakesIs(rules: Rules, tree: Tree, changes: set<Change>, t: string)
    requires Selected(rules, tree, changes).Picks?
    ensures t in Selected(rules, tree, changes).tests <==> Takes(rules, tree, changes, t)
  {
    MeetsIs(changes);
    BoundaryTakes(tree, t);
    OrdinaryTakes(rules, tree, changes, t);
    Picked(rules, tree, changes);
  }

  lemma {:induction false} Picked(rules: Rules, tree: Tree, changes: set<Change>)
    requires Selected(rules, tree, changes).Picks?
    ensures Selected(rules, tree, changes) == if AnyHost(changes) then HostPick(tree) else NarrowPick(rules, tree, changes)
  {
  }

  lemma {:induction false} WantsMeans(rules: Rules, changes: set<Change>, part: Part)
    ensures Wants(rules, changes, part) <==> AsksFor(rules, changes, part)
  {
  }

  /** What runs when not everything does: exactly these tests, and the two checks that a rule asks for. */
  lemma {:induction false} PickMeans(rules: Rules, tree: Tree, changes: set<Change>)
    requires Selected(rules, tree, changes).Picks?
    ensures var pick := Selected(rules, tree, changes);
            && (pick.host <==> MeetsBoundary(changes))
            && (forall t :: t in pick.tests <==> Takes(rules, tree, changes, t))
            && (pick.frontend <==> !MeetsBoundary(changes) && AsksFor(rules, changes, Frontend))
            && (pick.e2e <==> !MeetsBoundary(changes) && AsksFor(rules, changes, E2E))
  {
    MeetsIs(changes);
    Picked(rules, tree, changes);
    WantsMeans(rules, changes, Frontend);
    WantsMeans(rules, changes, E2E);
    forall t ensures t in Selected(rules, tree, changes).tests <==> Takes(rules, tree, changes, t) { TakesIs(rules, tree, changes, t); }
  }
}
