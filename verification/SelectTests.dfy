/** The selector of scripts/select_tests.py: a Selection filled step by step, proved to hold what the changes select. */
module SelectTests {
  import opened Records
  import opened Text
  import opened DependencyGraph
  import opened TestsReaching
  import opened SelectionRules
  import opened SelectionTheorems

  class Selection {
    var everything: bool
    var hostRoute: bool
    var tests: set<string>
    var frontend: bool
    var e2e: bool

    /** What the selection asks to be run; the tests gathered before everything was chosen no longer matter. */
    ghost function Pick(): Pick
      reads this
    {
      if everything then Everything else Picks(hostRoute, tests, frontend, e2e)
    }

    constructor ()
      ensures !everything && !hostRoute && tests == {} && !frontend && !e2e
    {
      everything, hostRoute, tests, frontend, e2e := false, false, {}, false, false;
    }

    method RunEverything()
      modifies this
      ensures everything && frontend && e2e && !hostRoute && Pick() == Everything && tests == old(tests)
    {
      hostRoute := false;
      everything, frontend, e2e := true, true, true;
    }

    /** `_add_folder` */
    method AddFolder(part: Part, path: string, files: set<string>)
      modifies this`tests
      ensures tests == old(tests) + PartTests(part, path, files)
    {
      tests := tests + PartTests(part, path, files);
    }

    /** One change's rule applied part by part. */
    method ApplyParts(parts: seq<Part>, path: string, files: set<string>)
      modifies this
      ensures everything == old(everything) && hostRoute == old(hostRoute)
      ensures tests == old(tests) + PartsTests(parts, path, files)
      ensures frontend == (old(frontend) || Frontend in parts) && e2e == (old(e2e) || E2E in parts)
    {
      for i := 0 to |parts|
        invariant everything == old(everything) && hostRoute == old(hostRoute)
        invariant tests == old(tests) + PartsTests(parts[..i], path, files)
        invariant frontend == (old(frontend) || Frontend in parts[..i]) && e2e == (old(e2e) || E2E in parts[..i])
      {
        assert parts[..i + 1] == parts[..i] + [parts[i]];
        PartsTestsStep(parts[..i], parts[i], path, files);
        match parts[i] {
          case Frontend => frontend := true;
          case E2E => e2e := true;
          case _ => AddFolder(parts[i], path, files);
        }
      }
      assert parts[..|parts|] == parts;
    }
  }

  function PartsTests(parts: seq<Part>, path: string, files: set<string>): set<string> {
    set part, t | part in parts && t in PartTests(part, path, files) :: t
  }

  lemma {:induction false} PartsTestsStep(parts: seq<Part>, part: Part, path: string, files: set<string>)
    ensures PartsTests(parts + [part], path, files) == PartsTests(parts, path, files) + PartTests(part, path, files)
    ensures part.Frontend? || part.E2E? ==> PartTests(part, path, files) == {}
  {
  }

  function SetOf(changes: seq<Change>): set<Change> {
    set c | c in changes
  }

  lemma {:induction false} OneMoreChange(rules: Rules, tree: Tree, changes: seq<Change>, c: Change)
    ensures SetOf(changes + [c]) == SetOf(changes) + {c}
    ensures FolderPick(rules, tree, SetOf(changes + [c])) == FolderPick(rules, tree, SetOf(changes)) + PartsTests(PartsFor(rules, c.path), c.path, tree.files)
  {
  }

  lemma {:induction false} OneMoreWants(rules: Rules, changes: seq<Change>, c: Change, part: Part)
    ensures Wants(rules, SetOf(changes + [c]), part) <==> Wants(rules, SetOf(changes), part) || part in PartsFor(rules, c.path)
  {
    assert SetOf(changes + [c]) == SetOf(changes) + {c};
  }

  lemma {:induction false} OneMoreStart(rules: Rules, changes: seq<Change>, c: Change)
    ensures Starts(rules, SetOf(changes + [c])) == Starts(rules, SetOf(changes)) + (if FollowGraph in PartsFor(rules, c.path) then {c.path} else {})
  {
    assert SetOf(changes + [c]) == SetOf(changes) + {c};
  }

  /** The selection holds what the rules ask of the changes, before the graph is followed. */
  ghost predicate Gathered(selection: Selection, rules: Rules, tree: Tree, changes: seq<Change>, starts: set<string>)
    reads selection
  {
    && !selection.everything && !selection.hostRoute && starts == Starts(rules, SetOf(changes))
    && selection.tests == FolderPick(rules, tree, SetOf(changes))
    && selection.frontend == Wants(rules, SetOf(changes), Frontend) && selection.e2e == Wants(rules, SetOf(changes), E2E)
    && forall c :: c in changes ==> Narrowed(rules, c.path)
  }

  method Gather(selection: Selection, rules: Rules, tree: Tree, changes: seq<Change>) returns (starts: set<string>)
    requires Gathered(selection, rules, tree, [], {})
    modifies selection
    ensures if forall c :: c in changes ==> Narrowed(rules, c.path) then Gathered(selection, rules, tree, changes, starts)
            else selection.Pick() == Everything
  {
    starts := {};
    for i := 0 to |changes|
      invariant Gathered(selection, rules, tree, changes[..i], starts)
    {
      var change := changes[i];
      assert changes[..i + 1] == changes[..i] + [change];
      if !Narrowed(rules, change.path) {
        selection.RunEverything();
        return;
      }
      OneMoreChange(rules, tree, changes[..i], change);
      OneMoreWants(rules, changes[..i], change, Frontend);
      OneMoreWants(rules, changes[..i], change, E2E);
      OneMoreStart(rules, changes[..i], change);
      selection.ApplyParts(PartsFor(rules, change.path), change.path, tree.files);
      if FollowGraph in PartsFor(rules, change.path) { starts := starts + {change.path}; }
    }
    assert changes[..|changes|] == changes;
  }

  // -- following the graph

  /** The origins in order: each start, or the files still naming it. */
  method FindOrigins(tree: Tree, starts: set<string>, deleted: set<string>) returns (origins: seq<string>)
    ensures Changed(origins) == Origins(tree, starts, deleted)
  {
    origins := [];
    ghost var done: set<string> := {};
    var rest := starts;
    while rest != {}
      invariant rest !! done && rest + done == starts && Changed(origins) == Origins(tree, done, deleted)
      decreases |rest|
    {
      var path :| path in rest;
      OneMoreOrigin(tree, done, deleted, path);
      var more := if path in deleted then tree.stillNaming(path) else {path};
      origins := AddAll(origins, more);
      rest, done := rest - {path}, done + {path};
    }
    assert done == starts;
  }

  lemma {:induction false} OneMoreOrigin(tree: Tree, done: set<string>, deleted: set<string>, path: string)
    ensures Origins(tree, done + {path}, deleted) == Origins(tree, done, deleted) + (if path in deleted then tree.stillNaming(path) else {path})
  {
  }

  method AddAll(origins: seq<string>, more: set<string>) returns (all: seq<string>)
    ensures Changed(all) == Changed(origins) + more
  {
    all := origins;
    var rest := more;
    while rest != {}
      invariant rest <= more && Changed(all) == Changed(origins) + (more - rest)
      decreases |rest|
    {
      var x :| x in rest;
      ghost var before := all;
      all := if x in all then all else all + [x];
      assert Changed(all) == Changed(before) + {x};
      rest := rest - {x};
    }
  }

  /** `_follow_graph` */
  method FollowStarts(selection: Selection, rules: Rules, tree: Tree, starts: set<string>, deleted: set<string>)
    requires PluginsOk(tree.graph) && !selection.everything
    modifies selection
    ensures if Widens(rules, tree, starts, deleted) then selection.Pick() == Everything
            else && !selection.everything && selection.hostRoute == old(selection.hostRoute)
                 && selection.frontend == old(selection.frontend) && selection.e2e == old(selection.e2e)
                 && selection.tests == old(selection.tests) + ReachedTests(tree.graph, Origins(tree, starts, deleted))
  {
    if tree.graph.fixtureUncertainty != {} || starts * tree.graph.dynamicImports != {} {
      selection.RunEverything();
      return;
    }
    var origins := FindOrigins(tree, starts, deleted);
    if Changed(origins) * rules.hubs - starts != {} {
      selection.RunEverything();
      return;
    }
    var reached := TestsReaching.TestsReaching(tree.graph, origins);
    forall t ensures t in reached.Keys <==> t in ReachedTests(tree.graph, Origins(tree, starts, deleted)) {
      ReachedTestsAre(tree.graph, Origins(tree, starts, deleted), t);
    }
    selection.tests := selection.tests + reached.Keys;
  }

  // -- the whole

  method SelectHost(selection: Selection, rules: Rules, tree: Tree, changes: seq<Change>)
    requires Gathered(selection, rules, tree, [], {})
    modifies selection
    ensures selection.Pick() == if HostOnly(rules, tree, SetOf(changes)) then HostPick(tree) else Everything
  {
    if HostOnly(rules, tree, SetOf(changes)) {
      selection.hostRoute := true;
      selection.tests := set t | t in TestsIn(tree.files) && Under(HOST_TESTS, t);
    } else {
      selection.RunEverything();
    }
  }

  /** `select` */
  method Select(rules: Rules, tree: Tree, changes: seq<Change>) returns (selection: Selection)
    requires PluginsOk(tree.graph)
    ensures fresh(selection) && selection.Pick() == Selected(rules, tree, SetOf(changes))
  {
    selection := new Selection();
    if AnyUnsafe(SetOf(changes)) {
      selection.RunEverything();
      return;
    }
    if AnyHost(SetOf(changes)) {
      SelectHost(selection, rules, tree, changes);
      return;
    }
    SelectOrdinary(selection, rules, tree, changes);
  }

  method SelectOrdinary(selection: Selection, rules: Rules, tree: Tree, changes: seq<Change>)
    requires PluginsOk(tree.graph) && Gathered(selection, rules, tree, [], {})
    modifies selection
    ensures selection.Pick() == if Broad(rules, tree, SetOf(changes)) then Everything else NarrowPick(rules, tree, SetOf(changes))
  {
    var starts := Gather(selection, rules, tree, changes);
    if forall c :: c in changes ==> Narrowed(rules, c.path) {
      var deleted := Deleted(SetOf(changes));
      if starts != {} {
        FollowStarts(selection, rules, tree, starts, deleted);
      }
    }
  }
}
