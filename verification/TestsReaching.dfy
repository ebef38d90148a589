/** tests_reaching of scripts/dependency_graph.py: a breadth-first walk that keeps one chain for everything it meets. */
module TestsReaching {
  import opened Text
  import opened Reachability
  import opened DependencyGraph

  type Via = map<string, seq<string>>

  function Changed(changes: seq<string>): set<string> {
    set c | c in changes
  }

  /** Everything met has a chain that ends at it. */
  ghost predicate Chained(g: Graph, changed: set<string>, via: Via) {
    forall x :: x in via ==> ChainTo(g, changed, via[x], x)
  }

  ghost predicate ChainTo(g: Graph, changed: set<string>, chain: seq<string>, x: string) {
    IsChain(g, changed, chain) && chain[|chain| - 1] == x
  }

  /** What the walk follows from `a`, folders only where it started. */
  ghost predicate Follows(g: Graph, starts: set<string>, a: string, b: string) {
    b in Direct(g, a, a in starts) || b in TestsOfAll(g, EngineReaders(g, a))
  }

  /** Everything met is still queued or has been followed. */
  ghost predicate Followed(g: Graph, starts: set<string>, via: Via, queue: seq<string>) {
    forall a, b :: a in via && a !in queue && Follows(g, starts, a, b) ==> b in via
  }

  // -- the starts

  /** A changed file starts the walk unless an earlier change already brought it in as its collection node. */
  ghost predicate Started(g: Graph, changes: seq<string>, i: nat, starts: set<string>, via: Via)
    requires i <= |changes|
  {
    && starts <= Changed(changes[..i]) && starts <= via.Keys
    && (forall k :: 0 <= k < i ==> changes[k] in via && (changes[k] in starts || exists s :: s in starts && s in g.plugins && g.plugins[s] == changes[k]))
    && (forall s :: s in starts && s in g.plugins ==> g.plugins[s] in via)
    && (forall x :: x in via ==> x in starts || exists s :: s in starts && s in g.plugins && g.plugins[s] == x)
  }

  method Start(g: Graph, changes: seq<string>) returns (starts: set<string>, via: Via, queue: seq<string>)
    ensures Started(g, changes, |changes|, starts, via)
    ensures Chained(g, Changed(changes), via) && forall x :: x in via <==> x in queue
  {
    starts, via, queue := {}, map[], [];
    for i := 0 to |changes|
      invariant Started(g, changes, i, starts, via)
      invariant Chained(g, Changed(changes), via) && forall x :: x in via <==> x in queue
    {
      var path := changes[i];
      assert changes[..i + 1] == changes[..i] + [path];
      if path !in via {
        starts, via, queue := starts + {path}, via[path := [path]], queue + [path];
        if path in g.plugins {
          var node := g.plugins[path];
          assert [path, node][..1] == [path];
          assert IsChain(g, Changed(changes), [path, node]);
          via, queue := via[node := [path, node]], queue + [node];
        }
      }
    }
  }

  // -- one turn of the walk

  /** What was newly met, and nothing else, went to the end of the queue. */
  ghost predicate Queued(via: Via, queue: seq<string>, via': Via, queue': seq<string>) {
    && via.Keys <= via'.Keys && queue <= queue'
    && (forall i :: |queue| <= i < |queue'| ==> queue'[i] in via' && queue'[i] !in via)
    && (forall x :: x in via' && x !in via ==> x in queue')
    && (via'.Keys == via.Keys ==> queue' == queue)
  }

  lemma {:induction false} QueuedTwice(v0: Via, q0: seq<string>, v1: Via, q1: seq<string>, v2: Via, q2: seq<string>)
    requires Queued(v0, q0, v1, q1) && Queued(v1, q1, v2, q2)
    ensures Queued(v0, q0, v2, q2)
  {
    forall i | |q0| <= i < |q2| ensures q2[i] in v2 && q2[i] !in v0 {
      if i < |q1| { assert q2[i] == q1[i]; }
    }
    forall x | x in v2 && x !in v0 ensures x in q2 {
      if x in v1 {
        var i :| 0 <= i < |q1| && q1[i] == x;
        assert q2[i] == x;
      }
    }
  }

  /** `met` was met: what was there keeps its chain, what is new has the chain `stem` and itself. */
  ghost predicate Extended(via: Via, met: set<string>, stem: seq<string>, via': Via) {
    && via'.Keys == via.Keys + met
    && forall x :: x in via' ==> via'[x] == if x in via then via[x] else stem + [x]
  }

  lemma {:induction false} ExtendOne(via: Via, met: set<string>, stem: seq<string>, via': Via, x: string)
    requires Extended(via, met, stem, via')
    ensures x in via' ==> Extended(via, met + {x}, stem, via')
    ensures x !in via' ==> Extended(via, met + {x}, stem, via'[x := stem + [x]])
  {
  }

  /** Queue what is new among `found`, each with the chain `stem` and itself. */
  method Enqueue(found: set<string>, stem: seq<string>, via: Via, queue: seq<string>) returns (via': Via, queue': seq<string>)
    ensures Extended(via, found, stem, via') && Queued(via, queue, via', queue')
  {
    via', queue' := via, queue;
    var rest := found;
    while rest != {}
      invariant rest <= found && Extended(via, found - rest, stem, via') && Queued(via, queue, via', queue')
      decreases |rest|
    {
      var x :| x in rest;
      ExtendOne(via, found - rest, stem, via', x);
      assert found - (rest - {x}) == found - rest + {x};
      rest := rest - {x};
      if x !in via' {
        QueueOne(via, queue, via', queue', x, stem + [x]);
        via', queue' := via'[x := stem + [x]], queue' + [x];
      }
    }
    assert found - rest == found;
  }

  lemma {:induction false} QueueOne(via: Via, queue: seq<string>, via': Via, queue': seq<string>, x: string, chain: seq<string>)
    requires Queued(via, queue, via', queue') && x !in via'
    ensures Queued(via, queue, via'[x := chain], queue' + [x])
  {
  }

  lemma {:induction false} DirectChain(g: Graph, changed: set<string>, chain: seq<string>, a: string, b: string, start: bool)
    requires ChainTo(g, changed, chain, a) && b in Direct(g, a, start) && (start ==> a in changed)
    ensures ChainTo(g, changed, chain + [b], b)
  {
    assert (chain + [b])[..|chain|] == chain;
  }

  lemma {:induction false} EngineChain(g: Graph, changed: set<string>, chain: seq<string>, a: string, m: string, b: string)
    requires ChainTo(g, changed, chain, a) && m in EngineReaders(g, a) && b in PackageTests(g, m)
    ensures ChainTo(g, changed, chain + [m] + [b], b)
  {
    assert (chain + [m] + [b])[..|chain|] == chain;
  }

  method FollowDirect(g: Graph, ghost changed: set<string>, path: string, start: bool, via: Via, queue: seq<string>)
    returns (via': Via, queue': seq<string>)
    requires path in via && Chained(g, changed, via) && (start ==> path in changed)
    ensures via'.Keys == via.Keys + Direct(g, path, start) && Chained(g, changed, via')
    ensures Queued(via, queue, via', queue')
  {
    var found := DirectDependents(g, path, start);
    via', queue' := Enqueue(found, via[path], via, queue);
    forall x | x in via' ensures ChainTo(g, changed, via'[x], x) {
      if x !in via { DirectChain(g, changed, via[path], path, x, start); }
    }
  }

  function TestsOfAll(g: Graph, modules: set<string>): set<string> {
    set m, t | m in modules && t in PackageTests(g, m) :: t
  }

  lemma {:induction false} TestsOfOneMore(g: Graph, modules: set<string>, m: string)
    ensures TestsOfAll(g, modules + {m}) == TestsOfAll(g, modules) + PackageTests(g, m)
  {
  }

  /** The tests of `modules` were met on top of `via`. */
  ghost predicate MetTests(g: Graph, changed: set<string>, modules: set<string>, via: Via, queue: seq<string>, via': Via, queue': seq<string>) {
    && via'.Keys == via.Keys + TestsOfAll(g, modules) && Chained(g, changed, via') && Queued(via, queue, via', queue')
  }

  lemma {:induction false} MetOneMore(g: Graph, changed: set<string>, modules: set<string>, m: string, via: Via, queue: seq<string>,
                                      v1: Via, q1: seq<string>, v2: Via, q2: seq<string>)
    requires MetTests(g, changed, modules, via, queue, v1, q1)
    requires v2.Keys == v1.Keys + PackageTests(g, m) && Chained(g, changed, v2) && Queued(v1, q1, v2, q2)
    ensures MetTests(g, changed, modules + {m}, via, queue, v2, q2)
  {
    QueuedTwice(via, queue, v1, q1, v2, q2);
    TestsOfOneMore(g, modules, m);
  }

  method FollowEngine(g: Graph, ghost changed: set<string>, path: string, via: Via, queue: seq<string>)
    returns (via': Via, queue': seq<string>)
    requires path in via && Chained(g, changed, via)
    ensures via'.Keys == via.Keys + TestsOfAll(g, EngineReaders(g, path)) && Chained(g, changed, via')
    ensures Queued(via, queue, via', queue')
  {
    via', queue' := via, queue;
    ghost var done: set<string> := {};
    var rest := EngineReaders(g, path);
    while rest != {}
      invariant rest !! done && rest + done == EngineReaders(g, path)
      invariant MetTests(g, changed, done, via, queue, via', queue')
      decreases |rest|
    {
      var m :| m in rest;
      ghost var v, q := via', queue';
      via', queue' := FollowModule(g, changed, path, m, via', queue');
      MetOneMore(g, changed, done, m, via, queue, v, q, via', queue');
      rest, done := rest - {m}, done + {m};
    }
    assert done == EngineReaders(g, path);
  }

  method FollowModule(g: Graph, ghost changed: set<string>, path: string, m: string, via: Via, queue: seq<string>)
    returns (via': Via, queue': seq<string>)
    requires path in via && Chained(g, changed, via) && m in EngineReaders(g, path)
    ensures via'.Keys == via.Keys + PackageTests(g, m) && Chained(g, changed, via')
    ensures Queued(via, queue, via', queue')
  {
    via', queue' := Enqueue(PackageTests(g, m), via[path] + [m], via, queue);
    forall x | x in via' ensures ChainTo(g, changed, via'[x], x) {
      if x !in via { EngineChain(g, changed, via[path], path, m, x); }
    }
  }

  /** Take the head of the queue and follow it. */
  method Turn(g: Graph, ghost changed: set<string>, starts: set<string>, via: Via, queue: seq<string>)
    returns (via': Via, queue': seq<string>)
    requires queue != [] && (forall x :: x in queue ==> x in via) && starts <= changed
    requires Chained(g, changed, via) && Followed(g, starts, via, queue)
    ensures Chained(g, changed, via') && Followed(g, starts, via', queue') && via.Keys <= via'.Keys
    ensures forall x :: x in queue' ==> x in via'
    ensures forall b :: b in via' ==> b in via || Follows(g, starts, queue[0], b)
    ensures |queue'| < |queue| || via.Keys < via'.Keys
  {
    var path, rest := queue[0], queue[1..];
    assert queue == [path] + rest;
    var via1, queue1 := FollowDirect(g, changed, path, path in starts, via, rest);
    via', queue' := FollowEngine(g, changed, path, via1, queue1);
    QueuedTwice(via, rest, via1, queue1, via', queue');
    TurnFollows(g, starts, path, rest, via, via', queue');
  }

  lemma {:induction false} TurnFollows(g: Graph, starts: set<string>, path: string, rest: seq<string>, via: Via, via': Via, queue': seq<string>)
    requires Followed(g, starts, via, [path] + rest) && Queued(via, rest, via', queue')
    requires forall b :: b in via' <==> b in via || Follows(g, starts, path, b)
    ensures Followed(g, starts, via', queue')
  {
    forall a, b | a in via' && a !in queue' && Follows(g, starts, a, b) ensures b in via' {
      assert forall i :: 0 <= i < |rest| ==> queue'[i] == rest[i];
      assert a == path || (a in via && a !in rest);
    }
  }

  // -- the walk

  /** Everything the walk can meet. */
  ghost function World(g: Graph, changed: set<string>): set<string> {
    changed + g.files + (set s | s in g.plugins :: g.plugins[s]) + (set k, d | k in g.dependents && d in g.dependents[k] :: d)
    + (set k, d | k in g.folderReaders && d in g.folderReaders[k] :: d)
  }

  lemma {:induction false} FollowsStays(g: Graph, changed: set<string>, starts: set<string>, a: string, b: string)
    requires Follows(g, starts, a, b)
    ensures b in World(g, changed)
  {
  }

  method Walk(g: Graph, ghost changed: set<string>, starts: set<string>, via: Via, queue: seq<string>) returns (via': Via)
    requires (forall x :: x in queue ==> x in via) && starts <= changed && via.Keys <= World(g, changed)
    requires Chained(g, changed, via) && Followed(g, starts, via, queue)
    ensures Chained(g, changed, via') && Followed(g, starts, via', []) && via.Keys <= via'.Keys
    decreases World(g, changed) - via.Keys, |queue|
  {
    via' := via;
    var pending := queue;
    while pending != []
      invariant (forall x :: x in pending ==> x in via') && via.Keys <= via'.Keys <= World(g, changed)
      invariant Chained(g, changed, via') && Followed(g, starts, via', pending)
      decreases World(g, changed) - via'.Keys, |pending|
    {
      ghost var before, head := via', pending[0];
      via', pending := Turn(g, changed, starts, via', pending);
      forall b | b in via' ensures b in World(g, changed) {
        if b !in before { FollowsStays(g, changed, starts, head, b); }
      }
      if before.Keys < via'.Keys { assert World(g, changed) - via'.Keys < World(g, changed) - before.Keys by { Shrinks(World(g, changed), before.Keys, via'.Keys); } }
    }
  }

  lemma {:induction false} Shrinks(all: set<string>, less: set<string>, more: set<string>)
    requires less < more <= all
    ensures all - more < all - less
  {
    var x :| x in more && x !in less;
    assert x in all - less && x !in all - more;
  }

  // -- the result

  /** A changed file that did not start itself is a collection node, in the same folders as its source. */
  lemma {:induction false} SameFolders(g: Graph, source: string)
    ensures FolderReaders(g, source + COLLECTION) == FolderReaders(g, source)
  {
    var node := source + COLLECTION;
    forall folder ensures Holds(folder, node) <==> Holds(folder, source) {
      forall k | |source| <= k < |node| ensures node[k] != '/' { assert node[k] == COLLECTION[k - |source|]; }
      if Holds(folder, node) { assert (folder + "/")[|folder|] == '/' == node[|folder|]; }
      if |folder| < |source| {
        assert node[..|folder| + 1] == source[..|folder| + 1];
      }
    }
  }

  lemma {:induction false} WalkCloses(g: Graph, changes: seq<string>, starts: set<string>, v0: Via, via: Via, a: string, b: string)
    requires PluginsOk(g) && Started(g, changes, |changes|, starts, v0) && v0.Keys <= via.Keys
    requires Followed(g, starts, via, []) && a in via && Step(g, Changed(changes), a, b)
    ensures b in via
  {
    assert changes[..|changes|] == changes;
    if !Follows(g, starts, a, b) && a !in starts {
      var i :| 0 <= i < |changes| && changes[i] == a;
      var s :| s in starts && s in g.plugins && g.plugins[s] == a;
      SameFolders(g, s);
      if b != s { assert b in Direct(g, s, true) && Follows(g, starts, s, b); }
    }
  }

  ghost predicate Reached(g: Graph, changed: set<string>, x: string) {
    Reachable(Steps(g, changed), changed, x)
  }

  /** Everything a change reaches, with the chains met. */
  method Meet(g: Graph, changes: seq<string>) returns (via: Via)
    requires PluginsOk(g)
    ensures forall x :: x in via <==> Reached(g, Changed(changes), x)
    ensures Chained(g, Changed(changes), via)
  {
    var starts, via0, queue := Start(g, changes);
    assert changes[..|changes|] == changes;
    StartInWorld(g, changes, starts, via0);
    via := Walk(g, Changed(changes), starts, via0, queue);
    forall x ensures x in via <==> Reached(g, Changed(changes), x) { ViaExact(g, changes, starts, via0, via, x); }
  }

  /** Every test a change reaches and no other, each with a genuine dependency chain from a changed file; among them every
      test that names a changed file or reads a leading directory of one. */
  method TestsReaching(g: Graph, changes: seq<string>) returns (reached: Via)
    requires PluginsOk(g)
    ensures forall t :: t in reached <==> IsTestFile(t) && Reached(g, Changed(changes), t)
    ensures forall t :: t in reached ==> ChainTo(g, Changed(changes), reached[t], t)
    ensures forall c, t :: c in changes && ReadsFrom(g, c, t) && IsTestFile(t) ==> t in reached
  {
    var via := Meet(g, changes);
    forall c, t | c in changes && ReadsFrom(g, c, t) ensures t in via { ReadersReached(g, Changed(changes), c, t); }
    reached := map t | t in via && IsTestFile(t) :: via[t];
  }

  /** `t` imports, runs or names `c`, or reads a leading directory of it. */
  ghost predicate ReadsFrom(g: Graph, c: string, t: string) {
    || (c in g.dependents && t in g.dependents[c])
    || exists folder :: folder in g.folderReaders && t in g.folderReaders[folder] && folder != "" && folder + "/" <= c
  }

  lemma {:induction false} ReadersReached(g: Graph, changed: set<string>, c: string, t: string)
    requires c in changed && ReadsFrom(g, c, t)
    ensures Reached(g, changed, t)
  {
    SeedReachable(Steps(g, changed), changed, c);
    if t != c {
      assert t in Direct(g, c, true);
      StepReachable(Steps(g, changed), changed, c, t);
    }
  }

  lemma {:induction false} StartInWorld(g: Graph, changes: seq<string>, starts: set<string>, via: Via)
    requires Started(g, changes, |changes|, starts, via)
    ensures via.Keys <= World(g, Changed(changes)) && starts <= Changed(changes)
  {
    assert changes[..|changes|] == changes;
  }

  lemma {:induction false} ViaExact(g: Graph, changes: seq<string>, starts: set<string>, v0: Via, via: Via, x: string)
    requires PluginsOk(g) && Started(g, changes, |changes|, starts, v0) && v0.Keys <= via.Keys
    requires Followed(g, starts, via, []) && Chained(g, Changed(changes), via)
    ensures x in via <==> Reached(g, Changed(changes), x)
  {
    var changed := Changed(changes);
    if x in via { ChainReaches(g, changed, via[x]); }
    if Reached(g, changed, x) {
      forall a, b | a in via.Keys && Steps(g, changed)(a, b) ensures b in via.Keys { WalkCloses(g, changes, starts, v0, via, a, b); }
      assert changed <= via.Keys;
      ClosedHolds(Steps(g, changed), changed, via.Keys, x);
    }
  }

  // -- two changes

  /** Though folders and collections count only where a change starts, reaching distributes over the union of changes. */
  lemma {:induction false} ReachingDistributes(g: Graph, a: set<string>, b: set<string>, x: string)
    ensures Reached(g, a + b, x) <==> Reached(g, a, x) || Reached(g, b, x)
  {
    if Reached(g, a, x) { ReachingGrows(g, a, a + b, x); }
    if Reached(g, b, x) { ReachingGrows(g, b, a + b, x); }
    if Reached(g, a + b, x) {
      var path :| PathTo(Steps(g, a + b), a + b, path, x);
      PathSplits(g, a, b, path, |path| - 1);
    }
  }

  lemma {:induction false} PathSplits(g: Graph, a: set<string>, b: set<string>, path: seq<string>, i: nat)
    requires IsPath(Steps(g, a + b), path) && path[0] in a + b && i < |path|
    ensures Reached(g, a, path[i]) || Reached(g, b, path[i])
  {
    var p := path[i];
    if p in a { SeedReachable(Steps(g, a), a, p); }
    if p in b { SeedReachable(Steps(g, b), b, p); }
    if i > 0 {
      var q := path[i - 1];
      assert Steps(g, a + b)(path[i - 1], path[i - 1 + 1]);
      PathSplits(g, a, b, path, i - 1);
      if q in a {
        SeedReachable(Steps(g, a), a, q);
        StepReachable(Steps(g, a), a, q, p);
      } else if q in b {
        SeedReachable(Steps(g, b), b, q);
        StepReachable(Steps(g, b), b, q, p);
      } else if Reached(g, a, q) {
        StepReachable(Steps(g, a), a, q, p);
      } else {
        StepReachable(Steps(g, b), b, q, p);
      }
    }
  }

  lemma {:induction false} ReachingGrows(g: Graph, less: set<string>, more: set<string>, x: string)
    requires less <= more && Reached(g, less, x)
    ensures Reached(g, more, x)
  {
    var path :| PathTo(Steps(g, less), less, path, x);
    forall i | 0 <= i < |path| - 1 ensures Steps(g, more)(path[i], path[i + 1]) { assert Steps(g, less)(path[i], path[i + 1]); }
    assert PathTo(Steps(g, more), more, path, x);
  }
}
