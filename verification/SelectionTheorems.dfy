/** Selection is monotone in the changes, except where the rules make a hub that names a deleted start a graph start itself. */
module SelectionTheorems {
  import opened Records
  import opened Text
  import opened Reachability
  import opened DependencyGraph
  import opened TestsReaching
  import opened SelectionRules

  /** No path is both changed and deleted. */
  ghost predicate Consistent(changes: set<Change>) {
    forall c, d :: c in changes && d in changes && c.path == d.path ==> c == d
  }

  /** What was deleted is not in the tree. */
  ghost predicate Gone(tree: Tree, changes: set<Change>) {
    forall c :: c in changes && c.deleted ==> c.path !in tree.files
  }

  // -- reaching is bounded and grows with the origins

  lemma {:induction false} WorldHoldsReached(g: Graph, origins: set<string>, x: string)
    requires Reached(g, origins, x)
    ensures x in World(g, origins)
  {
    var world := World(g, origins);
    forall a, b | a in world && Steps(g, origins)(a, b) ensures b in world {}
    ClosedHolds(Steps(g, origins), origins, world, x);
  }

  lemma {:induction false} ReachedTestsAre(g: Graph, origins: set<string>, t: string)
    ensures t in ReachedTests(g, origins) <==> IsTestFile(t) && Reached(g, origins, t)
  {
    if Reached(g, origins, t) { WorldHoldsReached(g, origins, t); }
  }

  lemma {:induction false} ReachedTestsGrow(g: Graph, less: set<string>, more: set<string>)
    requires less <= more
    ensures ReachedTests(g, less) <= ReachedTests(g, more)
  {
    forall t | t in ReachedTests(g, less) ensures t in ReachedTests(g, more) {
      ReachingGrows(g, less, more, t);
      ReachedTestsAre(g, more, t);
    }
  }

  // -- growing changes

  lemma {:induction false} StartsGrow(rules: Rules, less: set<Change>, more: set<Change>)
    requires less <= more
    ensures Starts(rules, less) <= Starts(rules, more) && Deleted(less) <= Deleted(more)
  {
  }

  lemma {:induction false} OriginsGrow(rules: Rules, tree: Tree, less: set<Change>, more: set<Change>)
    requires less <= more && Consistent(more)
    ensures Origins(tree, Starts(rules, less), Deleted(less)) <= Origins(tree, Starts(rules, more), Deleted(more))
  {
    StartsGrow(rules, less, more);
    forall s | s in Starts(rules, less) && s !in Deleted(less) ensures s !in Deleted(more) {
      var c :| c in less && FollowGraph in PartsFor(rules, c.path) && c.path == s;
      assert !c.deleted;
    }
  }

  /** The larger change's picks hold the smaller one's. */
  lemma {:induction false} PicksGrow(rules: Rules, tree: Tree, less: set<Change>, more: set<Change>)
    requires less <= more && Consistent(more)
    ensures AtMost(NarrowPick(rules, tree, less), NarrowPick(rules, tree, more))
  {
    StartsGrow(rules, less, more);
    OriginsGrow(rules, tree, less, more);
    ReachedTestsGrow(tree.graph, Origins(tree, Starts(rules, less), Deleted(less)), Origins(tree, Starts(rules, more), Deleted(more)));
    FoldersGrow(rules, tree, less, more);
    WantsGrow(rules, less, more, Frontend);
    WantsGrow(rules, less, more, E2E);
  }

  lemma {:induction false} FoldersGrow(rules: Rules, tree: Tree, less: set<Change>, more: set<Change>)
    requires less <= more
    ensures FolderPick(rules, tree, less) <= FolderPick(rules, tree, more)
  {
  }

  lemma {:induction false} WantsGrow(rules: Rules, less: set<Change>, more: set<Change>, part: Part)
    requires less <= more
    ensures Wants(rules, less, part) ==> Wants(rules, more, part)
  {
  }

  // -- the one way a larger change can select less

  predicate OrdinaryPath(path: string) {
    SafePath(path) && !HostContractPath(path)
  }

  /** The rules follow the graph from `path`, and nothing about it widens. */
  predicate Follows(rules: Rules, tree: Tree, path: string) {
    Narrowed(rules, path) && FollowGraph in PartsFor(rules, path) && path !in tree.graph.dynamicImports
  }

  /** Deleting `path` is widened only by hubs that could each be changed along with it. */
  predicate Escapes(rules: Rules, tree: Tree, path: string) {
    path !in tree.files && OnlyHubsWiden(rules, tree, path)
  }

  predicate OnlyHubsWiden(rules: Rules, tree: Tree, path: string) {
    var hubs := tree.stillNaming(path) * rules.hubs - {path};
    && tree.graph.fixtureUncertainty == {} && OrdinaryPath(path) && Follows(rules, tree, path)
    && hubs != {} && forall h :: h in hubs ==> OrdinaryPath(h) && Follows(rules, tree, h)
  }

  lemma {:induction false} StartsFollow(rules: Rules, tree: Tree, more: set<Change>, s: string)
    requires !Broad(rules, tree, more) && s in Starts(rules, more)
    ensures Follows(rules, tree, s) && exists c :: c in more && c.path == s
  {
    var c :| c in more && FollowGraph in PartsFor(rules, c.path) && c.path == s;
    assert Starts(rules, more) * tree.graph.dynamicImports == {};
    assert s !in Starts(rules, more) * tree.graph.dynamicImports;
  }

  lemma {:induction false} HubsStarted(rules: Rules, tree: Tree, more: set<Change>, d: string)
    requires !Broad(rules, tree, more) && d in Starts(rules, more) && d in Deleted(more)
    ensures tree.stillNaming(d) * rules.hubs <= Starts(rules, more) && tree.graph.fixtureUncertainty == {}
  {
    var starts, deleted := Starts(rules, more), Deleted(more);
    forall h | h in tree.stillNaming(d) * rules.hubs ensures h in starts {
      assert h in Origins(tree, starts, deleted);
      assert h !in Origins(tree, starts, deleted) * rules.hubs - starts;
    }
  }

  /** If only the smaller change is broad, a deleted start's hubs widened it. */
  lemma {:induction false} HubWidens(rules: Rules, tree: Tree, less: set<Change>, more: set<Change>) returns (d: string, h: string)
    requires less <= more && Broad(rules, tree, less) && !Broad(rules, tree, more)
    ensures d in Starts(rules, less) && d in Deleted(less) && h in tree.stillNaming(d) * rules.hubs - {d}
  {
    var starts, deleted := Starts(rules, less), Deleted(less);
    StartsGrow(rules, less, more);
    assert starts != {} && Widens(rules, tree, starts, deleted);
    assert starts * tree.graph.dynamicImports <= Starts(rules, more) * tree.graph.dynamicImports;
    h :| h in Origins(tree, starts, deleted) * rules.hubs - starts;
    d :| d in starts && d in deleted && h in tree.stillNaming(d);
  }

  /** Then those hubs were all changed along with it. */
  lemma {:induction false} OnlyHubsEscape(rules: Rules, tree: Tree, less: set<Change>, more: set<Change>) returns (d: string)
    requires less <= more && Broad(rules, tree, less) && !Broad(rules, tree, more)
    requires forall c :: c in more ==> OrdinaryPath(c.path)
    ensures OnlyHubsWiden(rules, tree, d) && d in Deleted(more) && Starts(rules, more) * rules.hubs != {}
  {
    var h;
    d, h := HubWidens(rules, tree, less, more);
    StartsGrow(rules, less, more);
    HubsStarted(rules, tree, more, d);
    StartsFollow(rules, tree, more, d);
    forall k | k in tree.stillNaming(d) * rules.hubs ensures OrdinaryPath(k) && Follows(rules, tree, k) { StartsFollow(rules, tree, more, k); }
    assert h in Starts(rules, more) * rules.hubs;
  }

  // -- the routes

  lemma {:induction false} RoutesGrow(rules: Rules, tree: Tree, less: set<Change>, more: set<Change>)
    requires less != {} && less <= more
    ensures AnyUnsafe(less) ==> AnyUnsafe(more)
    ensures AnyHost(less) ==> AnyHost(more)
    ensures HostOnly(rules, tree, more) ==> HostOnly(rules, tree, less) && AnyHost(less)
  {
    if HostOnly(rules, tree, more) {
      var c :| c in less;
      assert HostContractPath(c.path);
    }
  }

  /** A larger change selects less only by being narrow where the smaller one is broad, on the ordinary route. */
  lemma {:induction false} SelectsLess(rules: Rules, tree: Tree, less: set<Change>, more: set<Change>)
    requires less != {} && less <= more && Consistent(more)
    requires !AtMost(Selected(rules, tree, less), Selected(rules, tree, more))
    ensures Broad(rules, tree, less) && !Broad(rules, tree, more) && !AnyUnsafe(more) && !AnyHost(more)
  {
    RoutesGrow(rules, tree, less, more);
    PicksGrow(rules, tree, less, more);
  }

  lemma {:induction false} OrdinaryPaths(more: set<Change>)
    requires !AnyUnsafe(more) && !AnyHost(more)
    ensures forall c :: c in more ==> OrdinaryPath(c.path)
  {
  }

  lemma {:induction false} LessMeansEscape(rules: Rules, tree: Tree, less: set<Change>, more: set<Change>) returns (d: string)
    requires less != {} && less <= more && Consistent(more)
    requires !AtMost(Selected(rules, tree, less), Selected(rules, tree, more))
    ensures OnlyHubsWiden(rules, tree, d) && d in Deleted(more) && Starts(rules, more) * rules.hubs != {}
  {
    SelectsLess(rules, tree, less, more);
    OrdinaryPaths(more);
    d := OnlyHubsEscape(rules, tree, less, more);
  }

  /** Selection is monotone when no hub is a graph start: a larger change selects at least the tests and checks. */
  lemma {:induction false} SelectionGrows(rules: Rules, tree: Tree, less: set<Change>, more: set<Change>)
    requires less != {} && less <= more && Consistent(more) && Starts(rules, more) * rules.hubs == {}
    ensures AtMost(Selected(rules, tree, less), Selected(rules, tree, more))
  {
    if !AtMost(Selected(rules, tree, less), Selected(rules, tree, more)) {
      var d := LessMeansEscape(rules, tree, less, more);
    }
  }

  // -- the exact condition

  ghost predicate Monotone(rules: Rules, tree: Tree) {
    forall less, more :: less != {} && less <= more && Consistent(more) && Gone(tree, more) ==>
      AtMost(Selected(rules, tree, less), Selected(rules, tree, more))
  }

  function WithHubs(d: string, hubs: set<string>): set<Change> {
    {Change(d, true)} + set h | h in hubs :: Change(h, false)
  }

  lemma {:induction false} WithHubsStarts(rules: Rules, tree: Tree, d: string, hubs: set<string>)
    requires d !in hubs && forall s :: s in {d} + hubs ==> Follows(rules, tree, s)
    ensures Starts(rules, WithHubs(d, hubs)) == {d} + hubs && Deleted(WithHubs(d, hubs)) == {d}
    ensures Starts(rules, {Change(d, true)}) == {d} && Deleted({Change(d, true)}) == {d}
  {
    var more := WithHubs(d, hubs);
    assert Change(d, true) in more;
    forall s | s in {d} + hubs ensures s in Starts(rules, more) {
      var c := Change(s, s == d);
      assert c in more && FollowGraph in PartsFor(rules, c.path);
    }
  }

  lemma {:induction false} DeletionBroad(rules: Rules, tree: Tree, d: string, hubs: set<string>)
    requires d !in hubs && forall s :: s in {d} + hubs ==> Follows(rules, tree, s)
    requires hubs != {} && hubs <= tree.stillNaming(d) * rules.hubs
    ensures Broad(rules, tree, {Change(d, true)})
  {
    WithHubsStarts(rules, tree, d, hubs);
    var h :| h in hubs;
    assert h in Origins(tree, {d}, {d}) * rules.hubs - {d};
  }

  lemma {:induction false} WithHubsNarrow(rules: Rules, tree: Tree, d: string, hubs: set<string>)
    requires d !in hubs && forall s :: s in {d} + hubs ==> Follows(rules, tree, s)
    requires tree.graph.fixtureUncertainty == {} && tree.stillNaming(d) * rules.hubs <= {d} + hubs
    ensures !Broad(rules, tree, WithHubs(d, hubs))
  {
    WithHubsStarts(rules, tree, d, hubs);
    var starts := {d} + hubs;
    assert starts * tree.graph.dynamicImports == {};
    forall h | h in Origins(tree, starts, {d}) * rules.hubs ensures h in starts {
      assert h in starts || h in tree.stillNaming(d) * rules.hubs;
    }
    assert Origins(tree, starts, {d}) * rules.hubs - starts == {};
    forall c | c in WithHubs(d, hubs) ensures Narrowed(rules, c.path) { assert c.path in starts && Follows(rules, tree, c.path); }
  }

  lemma {:induction false} AllOrdinary(changes: set<Change>)
    requires changes != {} && forall c :: c in changes ==> OrdinaryPath(c.path)
    ensures !AnyUnsafe(changes) && !AnyHost(changes)
  {
  }

  lemma {:induction false} WithHubsConsistent(d: string, hubs: set<string>)
    requires d !in hubs
    ensures Change(d, true) in WithHubs(d, hubs) && Consistent(WithHubs(d, hubs))
  {
  }

  lemma {:induction false} WithHubsGone(tree: Tree, d: string, hubs: set<string>)
    requires d !in tree.files
    ensures Gone(tree, WithHubs(d, hubs))
  {
  }

  lemma {:induction false} WithHubsOrdinary(d: string, hubs: set<string>)
    requires d !in hubs && forall s :: s in {d} + hubs ==> OrdinaryPath(s)
    ensures var more := WithHubs(d, hubs); Change(d, true) in more && Consistent(more) && !AnyUnsafe(more) && !AnyHost(more)
  {
    var more := WithHubs(d, hubs);
    WithHubsConsistent(d, hubs);
    forall c | c in more ensures OrdinaryPath(c.path) { assert c.path in {d} + hubs; }
    AllOrdinary(more);
  }

  /** Deleting such a file alone runs everything; changing its hubs as well does not. */
  lemma {:induction false} EscapeSelectsLess(rules: Rules, tree: Tree, d: string)
    requires Escapes(rules, tree, d)
    ensures var less, more := {Change(d, true)}, WithHubs(d, tree.stillNaming(d) * rules.hubs - {d});
            less <= more && Consistent(more) && Gone(tree, more) && Selected(rules, tree, less).Everything? && Selected(rules, tree, more).Picks?
  {
    var hubs := tree.stillNaming(d) * rules.hubs - {d};
    DeletionBroad(rules, tree, d, hubs);
    WithHubsNarrow(rules, tree, d, hubs);
    WithHubsOrdinary(d, hubs);
    WithHubsGone(tree, d, hubs);
    RoutesGrow(rules, tree, {Change(d, true)}, WithHubs(d, hubs));
  }

  lemma {:induction false} EscapeNotMonotone(rules: Rules, tree: Tree, d: string)
    requires Escapes(rules, tree, d)
    ensures !Monotone(rules, tree)
  {
    EscapeSelectsLess(rules, tree, d);
    var less, more := {Change(d, true)}, WithHubs(d, tree.stillNaming(d) * rules.hubs - {d});
    assert !AtMost(Selected(rules, tree, less), Selected(rules, tree, more));
  }

  lemma {:induction false} LessEscapes(rules: Rules, tree: Tree, less: set<Change>, more: set<Change>) returns (d: string)
    requires less != {} && less <= more && Consistent(more) && Gone(tree, more)
    requires !AtMost(Selected(rules, tree, less), Selected(rules, tree, more))
    ensures Escapes(rules, tree, d)
  {
    d := LessMeansEscape(rules, tree, less, more);
    assert d !in tree.files by { var c :| c in more && c.deleted && c.path == d; }
  }

  /** Selection is monotone exactly when no deletion is widened only by hubs that could be changed along with it. */
  lemma {:induction false} MonotoneExactly(rules: Rules, tree: Tree)
    ensures Monotone(rules, tree) <==> forall d :: !Escapes(rules, tree, d)
  {
    if d :| Escapes(rules, tree, d) { EscapeNotMonotone(rules, tree, d); }
    if !Monotone(rules, tree) {
      var less, more :| less != {} && less <= more && Consistent(more) && Gone(tree, more) && !AtMost(Selected(rules, tree, less), Selected(rules, tree, more));
      var d := LessEscapes(rules, tree, less, more);
    }
  }

  // -- both sides of the condition occur

  lemma {:induction false} EscapeHub(rules: Rules, tree: Tree, d: string) returns (h: string)
    requires Escapes(rules, tree, d)
    ensures h in rules.hubs && Narrowed(rules, h)
  {
    h :| h in tree.stillNaming(d) * rules.hubs - {d};
  }

  /** Rules that send every hub to everything, as the repository's own do, make selection monotone. */
  lemma {:induction false} FullHubsMonotone(rules: Rules, tree: Tree)
    requires forall h :: h in rules.hubs ==> !Narrowed(rules, h)
    ensures Monotone(rules, tree)
  {
    MonotoneExactly(rules, tree);
    if d :| Escapes(rules, tree, d) { var h := EscapeHub(rules, tree, d); }
  }

  /** Rules that only follow the graph, and a hub that still names a deleted file. */
  function GraphOnly(hub: string): Rules {
    Rules({hub}, path => Some([FollowGraph]), path => None)
  }

  function OneHub(hub: string): Tree {
    Tree({hub}, Graph({hub}, map[], map[], map[], map[], {}, {}), path => {hub})
  }

  lemma {:induction false} GraphOnlyFollows(hub: string, path: string)
    ensures Follows(GraphOnly(hub), OneHub(hub), path)
  {
  }

  /** There a larger change selects less, whatever the two files are called. */
  lemma {:induction false} HubEscapes(hub: string, gone: string)
    requires OrdinaryPath(hub) && OrdinaryPath(gone) && hub != gone
    ensures Escapes(GraphOnly(hub), OneHub(hub), gone) && !Monotone(GraphOnly(hub), OneHub(hub))
  {
    var rules, tree := GraphOnly(hub), OneHub(hub);
    GraphOnlyFollows(hub, hub);
    GraphOnlyFollows(hub, gone);
    assert hub in tree.stillNaming(gone) * rules.hubs - {gone};
    EscapeNotMonotone(rules, tree, gone);
  }

  lemma {:induction false} HostNamesLong()
    ensures |HOST_PACKAGE| > 1 && |HOST_TESTS| > 1 && |HOST_DOC| > 1
  {
  }

  lemma {:induction false} UnderLonger(folder: string, path: string)
    ensures Under(folder, path) ==> |path| > |folder|
  {
  }

  lemma {:induction false} ShortIsNoHost(path: string)
    requires |path| == 1
    ensures !HostContractPath(path)
  {
    HostNamesLong();
    UnderLonger(HOST_PACKAGE, path);
    UnderLonger(HOST_TESTS, path);
  }

  lemma {:induction false} LetterOrdinary(path: string)
    requires |path| == 1 && SafeChar(path[0]) && path[0] !in {'.', '/'}
    ensures OrdinaryPath(path)
  {
    SplitPiece(path, '/');
    assert path[0] != "."[0] && |".."| == 2;
    assert SafePath(path);
    ShortIsNoHost(path);
  }

  /** For one: a hub `h` that still names the deleted `g`. */
  lemma {:induction false} HubEscapesOnce()
    ensures exists rules, tree, d :: Escapes(rules, tree, d) && !Monotone(rules, tree)
  {
    LetterOrdinary("h");
    LetterOrdinary("g");
    assert "h"[0] != "g"[0];
    HubEscapes("h", "g");
  }
}
