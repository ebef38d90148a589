/** What a set of changes selects: scripts/select_tests.py, with the parsed rules given as lookups by path. */
module SelectionRules {
  import opened Records
  import opened Text
  import opened Reachability
  import opened DependencyGraph
  import opened TestsReaching

  const HOST_PACKAGE := "p3_host_contracts"
  const HOST_TESTS := "tests/test_p3_host_contracts"
  const HOST_DOC := "docs/p3-host-contracts.md"

  datatype Part = Full | FollowGraph | OwnPackageTests | TopFolderTests | Frontend | E2E | HostContracts | TestsUnder(folder: string)

  /** `ruleFor` is the parts of the first rule matching a path in the checked tree; `bareRuleFor` the same with no tree. */
  datatype Rules = Rules(hubs: set<string>, ruleFor: string -> Option<seq<Part>>, bareRuleFor: string -> Option<seq<Part>>)

  datatype Change = Change(path: string, deleted: bool)

  /** The checked tree: its files, its dependency graph, and for a path gone from it the files that still name it. */
  datatype Tree = Tree(files: set<string>, graph: Graph, stillNaming: string -> set<string>)

  // -- paths

  predicate SafeChar(c: char) {
    'A' <= c <= 'Z' || 'a' <= c <= 'z' || '0' <= c <= '9' || c in {'_', '.', '-'}
  }

  predicate SafePath(path: string) {
    forall part :: part in Split(path, '/') ==> part !in {"", ".", ".."} && forall i :: 0 <= i < |part| ==> SafeChar(part[i])
  }

  predicate Under(folder: string, path: string) {
    StartsWith(path, folder + "/")
  }

  predicate HostContractPath(path: string) {
    SafePath(path) && (path == HOST_DOC || Under(HOST_PACKAGE, path) || Under(HOST_TESTS, path))
  }

  // -- the rules

  function PartsFor(rules: Rules, path: string): seq<Part> {
    var parts := rules.ruleFor(path);
    if parts.Some? then parts.value else []
  }

  /** A rule exists and neither asks for everything nor names the host boundary. */
  predicate Narrowed(rules: Rules, path: string) {
    var parts := rules.ruleFor(path);
    parts.Some? && Full !in parts.value && HostContracts !in parts.value
  }

  /** `tests/test_<name>` for `<top>/<name>/...`, when it has files. */
  function PackageFolder(path: string, files: set<string>): Option<string> {
    var parts := Split(path, '/');
    if |parts| < 3 then None
    else if exists p :: p in files && Under("tests/test_" + parts[1], p) then Some("tests/test_" + parts[1])
    else None
  }

  /** `tests/<folder>` for a file inside one. */
  function TopTestFolder(path: string): Option<string> {
    var parts := Split(path, '/');
    if parts[0] == "tests" && |parts| > 2 then Some(Join(parts[..2], '/')) else None
  }

  function FolderFor(part: Part, path: string, files: set<string>): Option<string> {
    match part
    case OwnPackageTests => PackageFolder(path, files)
    case TopFolderTests => TopTestFolder(path)
    case TestsUnder(folder) => Some(folder)
    case _ => None
  }

  predicate FolderTakes(folder: Option<string>, t: string) {
    folder.Some? && (t == folder.value || Under(folder.value, t))
  }

  function TestsIn(files: set<string>): set<string> {
    set t | t in files && IsTestFile(t)
  }

  function PartTests(part: Part, path: string, files: set<string>): set<string> {
    set t | t in TestsIn(files) && FolderTakes(FolderFor(part, path, files), t)
  }

  // -- what a set of changes selects

  datatype Pick = Everything | Picks(host: bool, tests: set<string>, frontend: bool, e2e: bool)

  /** `b` runs at least what `a` runs. */
  predicate AtMost(a: Pick, b: Pick) {
    b.Everything? || (a.Picks? && a.tests <= b.tests && (a.frontend ==> b.frontend) && (a.e2e ==> b.e2e))
  }

  predicate HostTreeOk(files: set<string>) {
    && HOST_PACKAGE + "/__init__.py" in files
    && (exists t :: t in TestsIn(files) && Under(HOST_TESTS, t))
    && (forall p :: p in files && (Under(HOST_PACKAGE, p) || Under(HOST_TESTS, p)) ==> SafePath(p))
  }

  /** A change confined to the host contracts, by the explicit rule, in a tree that has them. */
  predicate HostOnly(rules: Rules, tree: Tree, changes: set<Change>) {
    && (forall c :: c in changes ==> HostContractPath(c.path) && rules.bareRuleFor(c.path) == Some([HostContracts]))
    && HostTreeOk(tree.files)
  }

  function HostPick(tree: Tree): Pick {
    Picks(true, set t | t in TestsIn(tree.files) && Under(HOST_TESTS, t), false, false)
  }

  function Wants(rules: Rules, changes: set<Change>, part: Part): bool {
    exists c :: c in changes && part in PartsFor(rules, c.path)
  }

  function FolderPick(rules: Rules, tree: Tree, changes: set<Change>): set<string> {
    set c, part, t | c in changes && part in PartsFor(rules, c.path) && t in PartTests(part, c.path, tree.files) :: t
  }

  function Starts(rules: Rules, changes: set<Change>): set<string> {
    set c | c in changes && FollowGraph in PartsFor(rules, c.path) :: c.path
  }

  function Deleted(changes: set<Change>): set<string> {
    set c | c in changes && c.deleted :: c.path
  }

  /** Where the graph is entered: a start that is there, or the files still naming one that is gone. */
  function Origins(tree: Tree, starts: set<string>, deleted: set<string>): set<string> {
    (starts - deleted) + (set s, n | s in starts && s in deleted && n in tree.stillNaming(s) :: n)
  }

  /** The graph cannot narrow these starts. */
  predicate Widens(rules: Rules, tree: Tree, starts: set<string>, deleted: set<string>) {
    || tree.graph.fixtureUncertainty != {}
    || starts * tree.graph.dynamicImports != {}
    || Origins(tree, starts, deleted) * rules.hubs - starts != {}
  }

  ghost function ReachedTests(g: Graph, origins: set<string>): set<string> {
    set t | t in World(g, origins) && IsTestFile(t) && Reached(g, origins, t)
  }

  /** A rule or the graph sends these changes to everything. */
  predicate Broad(rules: Rules, tree: Tree, changes: set<Change>) {
    || (exists c :: c in changes && !Narrowed(rules, c.path))
    || (Starts(rules, changes) != {} && Widens(rules, tree, Starts(rules, changes), Deleted(changes)))
  }

  ghost function GraphTests(rules: Rules, tree: Tree, changes: set<Change>): set<string> {
    var starts := Starts(rules, changes);
    if starts == {} then {} else ReachedTests(tree.graph, Origins(tree, starts, Deleted(changes)))
  }

  ghost function NarrowPick(rules: Rules, tree: Tree, changes: set<Change>): Pick {
    Picks(false, FolderPick(rules, tree, changes) + GraphTests(rules, tree, changes), Wants(rules, changes, Frontend), Wants(rules, changes, E2E))
  }

  predicate AnyUnsafe(changes: set<Change>) {
    changes == {} || exists c :: c in changes && !SafePath(c.path)
  }

  predicate AnyHost(changes: set<Change>) {
    exists c :: c in changes && HostContractPath(c.path)
  }

  ghost function Selected(rules: Rules, tree: Tree, changes: set<Change>): Pick {
    if AnyUnsafe(changes) then Everything
    else if AnyHost(changes) then if HostOnly(rules, tree, changes) then HostPick(tree) else Everything
    else if Broad(rules, tree, changes) then Everything
    else NarrowPick(rules, tree, changes)
  }
}
