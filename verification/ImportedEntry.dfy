/** Where a profile's lists leave its own walk: two profiles with a scope each, where one imports the other's entry file, and
    that entry has a bootstrap chain. The file's chain edge belongs to both profiles' closures, but its target was walked
    only under the profile whose entry it is. Every candidate of this specification shows it, and the builder makes one. */
module ImportedEntry {
  import opened Records
  import opened Reachability
  import opened ClosureWalk
  import opened ProfileClosures
  import opened GraphBuilder
  import opened BuilderTheorems
  import opened ReviewedGraph
  import GraphDocument

  /** One profile's entrypoint carries a bootstrap chain, and another profile imports its file: `p` starts at `a` and
      bootstraps `b` for it, `q` starts at `c`, which imports `a`, and both run on `i`. */
  datatype Cast = Cast(p: string, q: string, a: Node, b: Node, c: Node, i: Node, content: ContentIdentity, policy: EvidenceRef)

  predicate Distinct(x: Cast) {
    && x.p != x.q
    && x.a != x.b && x.a != x.c && x.a != x.i && x.b != x.c && x.b != x.i && x.c != x.i
  }

  function Runtime(x: Cast): SourceNode {
    SourceNode(x.i, Interpreter, x.content, "python", "100755",
               Artifact(x.content, x.content, [], [], x.i, "cp312", Bytes, x.content, None))
  }

  function Imports(x: Cast): Scope {
    Scope((n, m) => Analysis(if n == x.c then [x.a] else [], [], map[], []), n => None)
  }

  function TheWorld(x: Cast): World {
    World({x.a, x.b, x.c}, map[x.i := Runtime(x)], map[x.p := Imports(x), x.q := Imports(x)],
          r => if r in {x.a, x.b, x.c, x.i} then Some(r) else None)
  }

  function First(x: Cast): EntrySpec {
    EntrySpec("first", x.p, x.a, "main", [x.b])
  }

  function Second(x: Cast): EntrySpec {
    EntrySpec("second", x.q, x.c, "main", [])
  }

  function Runs(x: Cast, id: string, entry: string): ProfileSpec {
    ProfileSpec(id, Worker, [entry], [x.i], [], [], [], x.policy)
  }

  function TheSpec(x: Cast): Spec {
    Spec([First(x), Second(x)], [Runs(x, x.p, "first"), Runs(x, x.q, "second")], map[x.p := x.p, x.q := x.q])
  }

  // -- the specification passes every check, and nothing in its walk is refused

  lemma {:induction false} Entries(x: Cast)
    ensures EntryMap(TheSpec(x).entries) == map["first" := First(x), "second" := Second(x)]
  {
    assert TheSpec(x).entries[..1] == [First(x)] && [First(x)][..0] == [];
    assert EntryMap([First(x)]) == map["first" := First(x)];
  }

  lemma {:induction false} Profiles(x: Cast)
    ensures ProfileMap(TheSpec(x).profiles) == map[x.p := Runs(x, x.p, "first"), x.q := Runs(x, x.q, "second")]
  {
    assert TheSpec(x).profiles[..1] == [Runs(x, x.p, "first")] && [Runs(x, x.p, "first")][..0] == [];
    assert ProfileMap([Runs(x, x.p, "first")]) == map[x.p := Runs(x, x.p, "first")];
  }

  lemma {:induction false} WorldBounded(x: Cast)
    requires Distinct(x)
    ensures Bounded(TheWorld(x), {None})
  {
  }

  lemma {:induction false} RunsChecked(x: Cast, id: string, entry: string)
    requires Distinct(x) && id in {x.p, x.q} && entry in {"first", "second"}
    ensures ProfileChecked(TheWorld(x), TheSpec(x), Runs(x, id, entry))
  {
    Entries(x);
    assert x.i in Runs(x, id, entry).runtimeNodes && TheWorld(x).declared[x.i].kind == Interpreter;
  }

  lemma {:induction false} ProfilesChecked(x: Cast)
    requires Distinct(x)
    ensures forall p :: p in TheSpec(x).profiles ==> ProfileChecked(TheWorld(x), TheSpec(x), p)
    ensures TheSpec(x).scopeOf.Keys == ProfileMap(TheSpec(x).profiles).Keys && ScopesKnown(TheWorld(x), TheSpec(x))
  {
    RunsChecked(x, x.p, "first");
    RunsChecked(x, x.q, "second");
    Profiles(x);
  }

  lemma {:induction false} EntriesChecked(x: Cast)
    requires Distinct(x)
    ensures forall e :: e in TheSpec(x).entries ==> EntryChecked(TheWorld(x), TheSpec(x), e)
  {
    assert EntryChecked(TheWorld(x), TheSpec(x), First(x)) && EntryChecked(TheWorld(x), TheSpec(x), Second(x));
  }

  lemma {:induction false} SpecChecked(x: Cast)
    requires Distinct(x)
    ensures Checked(TheWorld(x), TheSpec(x))
  {
    ProfilesChecked(x);
    EntriesChecked(x);
    assert "first" != "second";
  }

  /** So the final validator's entry and profile checks pass as well (BuilderTheorems.CandidateAccepted). */
  lemma {:induction false} SpecNamed(x: Cast)
    requires Distinct(x) && EntriesKnown(TheSpec(x))
    ensures DuplicateFree(TheSpec(x)) && forall p :: p in TheSpec(x).profiles ==> EntriesNamed(TheSpec(x), p)
  {
    Entries(x);
  }

  lemma {:induction false} NothingRefused(x: Cast, seen: set<State>)
    requires Distinct(x)
    ensures !Disagree(TheWorld(x), seen) && forall s :: !Stuck(TheWorld(x), seen, s)
  {
  }

  // -- the walk

  ghost function Walkable(x: Cast): set<State> {
    {State(x.p, x.a, None), State(x.p, x.b, None), State(x.p, x.i, None),
     State(x.q, x.a, None), State(x.q, x.c, None), State(x.q, x.i, None)}
  }

  lemma {:induction false} SeedIs(x: Cast, p: string, n: Node)
    requires Distinct(x) && IsSeed(TheSpec(x), p, n)
    ensures (p == x.p && n in {x.a, x.b, x.i}) || (p == x.q && n in {x.c, x.i})
  {
    var spec := TheSpec(x);
    if e :| e in spec.entries && e.profileId == p && (n == e.node || n in e.boots) {
      assert e == First(x) || e == Second(x);
    } else {
      var r :| r in spec.profiles && r.id == p && n in r.extraRequired + r.extraAllowed + r.runtimeNodes;
      assert r == spec.profiles[0] || r == spec.profiles[1];
    }
  }

  lemma {:induction false} SeedStateIs(x: Cast, p: string, n: Node)
    requires Distinct(x) && ScopesKnown(TheWorld(x), TheSpec(x)) && IsSeed(TheSpec(x), p, n)
    ensures p in TheSpec(x).scopeOf && SeedState(TheWorld(x), TheSpec(x), (p, n)) in Walkable(x)
  {
    SeedIs(x, p, n);
    assert SeedState(TheWorld(x), TheSpec(x), (p, n)) == State(p, n, None);
  }

  lemma {:induction false} SeedsWalkable(x: Cast)
    requires Distinct(x) && ScopesKnown(TheWorld(x), TheSpec(x))
    ensures SpecSeeds(TheWorld(x), TheSpec(x)) <= Walkable(x)
  {
    forall s | s in SpecSeeds(TheWorld(x), TheSpec(x)) ensures s in Walkable(x) {
      var p :| p in TheSpec(x).scopeOf && IsSeed(TheSpec(x), p, s.node) && s == SeedState(TheWorld(x), TheSpec(x), (p, s.node));
      SeedStateIs(x, p, s.node);
    }
  }

  lemma {:induction false} StepsWalkable(x: Cast, s: State, t: State)
    requires Distinct(x) && s in Walkable(x) && Possible(TheWorld(x))(s, t)
    ensures t in Walkable(x)
  {
  }

  lemma {:induction false} WalkableHolds(x: Cast)
    requires Distinct(x) && ScopesKnown(TheWorld(x), TheSpec(x))
    ensures Holds(TheWorld(x), TheSpec(x), Walkable(x)) && forall s :: s in Walkable(x) ==> !(s.scope == x.q && s.node == x.b)
  {
    SeedsWalkable(x);
    forall y, z | y in Walkable(x) && Possible(TheWorld(x))(y, z) ensures z in Walkable(x) { StepsWalkable(x, y, z); }
  }

  // -- the exact condition applies to it, and fails

  lemma {:induction false} InterpreterStays(x: Cast, s: State, t: State)
    requires Distinct(x) && s in Walkable(x) && InterpreterStep(TheWorld(x), s, t)
    ensures t == s
  {
  }

  lemma {:induction false} ItsInterpretersSeeded(x: Cast)
    requires Distinct(x) && ScopesKnown(TheWorld(x), TheSpec(x))
    ensures InterpretersSeeded(TheWorld(x), SpecSeeds(TheWorld(x), TheSpec(x)))
  {
    var w, seeds := TheWorld(x), SpecSeeds(TheWorld(x), TheSpec(x));
    WalkableHolds(x);
    forall s, t | Reachable(Always(w), seeds, s) && InterpreterStep(w, s, t) ensures Reachable(Always(w), seeds, t) {
      MoreSteps(Always(w), Possible(w), seeds, s);
      ClosedHolds(Possible(w), seeds, Walkable(x), s);
      InterpreterStays(x, s, t);
    }
  }

  lemma {:induction false} NeverUnder(x: Cast)
    requires Distinct(x) && ScopesKnown(TheWorld(x), TheSpec(x))
    ensures !Under(TheWorld(x), TheSpec(x), Always(TheWorld(x)), x.q, x.b)
  {
    var w, seeds := TheWorld(x), SpecSeeds(TheWorld(x), TheSpec(x));
    WalkableHolds(x);
    forall m ensures !Reachable(Always(w), seeds, State(x.q, x.b, m)) {
      if Reachable(Always(w), seeds, State(x.q, x.b, m)) {
        MoreSteps(Always(w), Possible(w), seeds, State(x.q, x.b, m));
        ClosedHolds(Possible(w), seeds, Walkable(x), State(x.q, x.b, m));
      }
    }
  }

  lemma {:induction false} ChainMet(x: Cast)
    requires Distinct(x) && ScopesKnown(TheWorld(x), TheSpec(x)) && EntriesKnown(TheSpec(x))
    ensures var spec := TheSpec(x);
            Reachable(LoadSteps(TheWorld(x), spec, Always(TheWorld(x)), x.q), OwnSeeds(spec, spec.profiles[1]), x.a) && BootOf(spec, x.a, x.b)
  {
    var w, spec := TheWorld(x), TheSpec(x);
    var loads := LoadSteps(w, spec, Always(w), x.q);
    assert Second(x) in spec.entries && First(x) in spec.entries;
    assert IsSeed(spec, x.q, x.c);
    assert SeedState(w, spec, (x.q, x.c)) == State(x.q, x.c, None);
    SeedReachable(Always(w), SpecSeeds(w, spec), State(x.q, x.c, None));
    assert loads(x.c, x.a);
    Entries(x);
    assert "second" in spec.profiles[1].entrypointIds;
    SeedReachable(loads, OwnSeeds(spec, spec.profiles[1]), x.c);
    StepReachable(loads, OwnSeeds(spec, spec.profiles[1]), x.c, x.a);
  }

  /** The specification itself shows it: `q` meets the chain of `a` in its scope, which never comes to `b`. */
  lemma {:induction false} ConditionFails(x: Cast)
    requires Distinct(x) && ScopesKnown(TheWorld(x), TheSpec(x)) && EntriesKnown(TheSpec(x))
    ensures InterpretersSeeded(TheWorld(x), SpecSeeds(TheWorld(x), TheSpec(x)))
    ensures !ChainsKept(TheWorld(x), TheSpec(x), Always(TheWorld(x)), Always(TheWorld(x)), TheSpec(x).profiles[1])
  {
    ItsInterpretersSeeded(x);
    NeverUnder(x);
    ChainMet(x);
  }

  // -- the closure

  lemma {:induction false} ChainStep(x: Cast, names: set<Name>, d: WalkData)
    requires Distinct(x) && BootsOf(TheSpec(x).entries, d.boots) && Finished(TheWorld(x), names, d)
    ensures x.b in Adj(d.staticAdj, x.a)
  {
    assert First(x) in TheSpec(x).entries;
    assert x.b in Adj(d.boots, x.a);
    assert AdjacencyAt(d.boots, d.first, d.staticAdj, d.dynamicAdj, x.a);
  }

  lemma {:induction false} ImportStep(x: Cast, names: set<Name>, d: WalkData)
    requires Distinct(x) && Finished(TheWorld(x), names, d) && WalkedUnder(d.seen, x.q, x.c)
    ensures x.a in Adj(d.staticAdj, x.c)
  {
    var s :| s in d.seen && s.scope == x.q && s.node == x.c;
    assert Analyzes(TheWorld(x), s, d.first[x.c]);
    assert AdjacencyAt(d.boots, d.first, d.staticAdj, d.dynamicAdj, x.c);
  }

  lemma {:induction false} ChainLoaded(x: Cast, staticAdj: Adjacency, dynamicAdj: Adjacency, o: ProcessProfile)
    requires Distinct(x) && EntriesKnown(TheSpec(x)) && x.a in Adj(staticAdj, x.c) && x.b in Adj(staticAdj, x.a)
    requires ProfileOut(TheSpec(x), TheSpec(x).profiles[1], staticAdj, dynamicAdj, o)
    ensures x.b in o.requiredLoadIds && x.b in o.allowedNodeIds
  {
    Entries(x);
    var p, step := TheSpec(x).profiles[1], NodeStep(staticAdj, map[]);
    var seeds := Elements(EntryLoads(EntryMap(TheSpec(x).entries), p.entrypointIds) + p.extraRequired);
    assert "second" in p.entrypointIds;
    SeedReachable(step, seeds, x.c);
    StepReachable(step, seeds, x.c, x.a);
    StepReachable(step, seeds, x.a, x.b);
    var more := Elements(p.runtimeNodes + o.requiredLoadIds + p.extraAllowed);
    assert x.b in more;
    SeedReachable(NodeStep(staticAdj, dynamicAdj), more, x.b);
  }

  lemma {:induction false} SecondWalked(x: Cast, spec: Spec, d: WalkData)
    requires spec == TheSpec(x) && Seeded(spec, d)
    ensures WalkedUnder(d.seen, x.q, x.c)
  {
    assert Second(x) in spec.entries;
    EntrySeed(spec, d, Second(x), x.c);
  }

  lemma {:induction false} BuiltHas(x: Cast, names: set<Name>, render: Node -> SourceNode, d: WalkData, g: SourceGraph)
    requires Distinct(x) && Built(TheWorld(x), names, TheSpec(x), render, d, g)
    ensures |g.processProfiles| == 2 && g.processProfiles[1].id == x.q
    ensures x.b in g.processProfiles[1].requiredLoadIds && x.b in g.processProfiles[1].allowedNodeIds
  {
    BuiltSeeded(TheWorld(x), names, TheSpec(x), d);
    SecondWalked(x, TheSpec(x), d);
    ChainStep(x, names, d);
    ImportStep(x, names, d);
    ChainLoaded(x, d.staticAdj, d.dynamicAdj, g.processProfiles[1]);
  }

  /** Every candidate built of it makes `q` require and allow `b`, which was never walked under `q`. */
  lemma {:induction false} ImportedEntryEscapes(x: Cast, names: set<Name>, render: Node -> SourceNode, d: WalkData, g: SourceGraph)
    requires Distinct(x) && Built(TheWorld(x), names, TheSpec(x), render, d, g)
    ensures |g.processProfiles| == 2 && g.processProfiles[1].id == x.q
    ensures x.b in g.processProfiles[1].requiredLoadIds && x.b in g.processProfiles[1].allowedNodeIds
    ensures !WalkedUnder(d.seen, TheSpec(x).scopeOf[x.q], x.b)
  {
    BuiltHas(x, names, render, d, g);
    WalkableHolds(x);
    NotWalked(TheWorld(x), names, TheSpec(x), d, Walkable(x), x.q, x.b);
  }

  // -- the final validator has no objection

  /** Identifiers, repositories and committed files the validator accepts. */
  ghost predicate Presentable(x: Cast, render: Node -> SourceNode, repositories: seq<Repository>) {
    && RepositoriesFit(repositories) && RecordId(x.p) && RecordId(x.q)
    && (forall n :: n in {x.a, x.b, x.c, x.i} ==> RecordId(n))
    && (forall n :: n in {x.a, x.b, x.c} ==> render(n).provenance.Git?)
    && (forall n, ids :: n in {x.a, x.b, x.c} ==> ProvenanceOk(RepositoriesById(repositories), ids, render(n)))
  }

  lemma {:induction false} EntryIdsSpelled()
    ensures RecordId("first") && RecordId("second")
  {
  }

  lemma {:induction false} AllSpelled(x: Cast, render: Node -> SourceNode, repositories: seq<Repository>, reached: set<Node>)
    requires Presentable(x, render, repositories) && reached <= {x.a, x.b, x.c, x.i}
    ensures IdsSpelled(TheSpec(x), reached)
  {
    EntryIdsSpelled();
  }

  lemma {:induction false} AllFit(x: Cast, render: Node -> SourceNode, repositories: seq<Repository>, reached: set<Node>, nodes: seq<SourceNode>)
    requires Presentable(x, render, repositories) && NodeRecordsOf(TheWorld(x), render, reached, nodes)
    ensures forall n :: n in nodes ==> ProvenanceFits(TheWorld(x), RepositoriesById(repositories), reached, n)
  {
    forall n | n in nodes ensures ProvenanceFits(TheWorld(x), RepositoriesById(repositories), reached, n) {
      if n.id in TheWorld(x).git {
        assert ProvenanceOk(RepositoriesById(repositories), reached, render(n.id));
      } else {
        assert n == Runtime(x) && !RecordId("");
      }
    }
  }

  lemma {:induction false} AllAcceptable(x: Cast, render: Node -> SourceNode, d: WalkData, g: SourceGraph)
    requires Distinct(x) && EntriesKnown(TheSpec(x)) && Presentable(x, render, g.repositories)
    requires NodeRecordsOf(TheWorld(x), render, d.reached, g.nodes) && d.reached <= {x.a, x.b, x.c, x.i}
    ensures Acceptable(TheWorld(x), TheSpec(x), d, g)
  {
    AllSpelled(x, render, g.repositories, d.reached);
    AllFit(x, render, g.repositories, d.reached, g.nodes);
    SpecNamed(x);
  }

  lemma {:induction false} ReachedHere(x: Cast, names: set<Name>, d: WalkData)
    requires Finished(TheWorld(x), names, d)
    ensures d.reached <= {x.a, x.b, x.c, x.i}
  {
    ReachedAreNodes(TheWorld(x), names, d);
  }

  lemma {:induction false} WorldPresented(x: Cast, render: Node -> SourceNode, repositories: seq<Repository>)
    requires Presentable(x, render, repositories)
    ensures IdsResolve(TheWorld(x)) && forall n :: n in TheWorld(x).git ==> render(n).provenance.Git?
  {
  }

  lemma {:induction false} BuiltAcceptable(x: Cast, names: set<Name>, render: Node -> SourceNode, d: WalkData, g: SourceGraph)
    requires Distinct(x) && Built(TheWorld(x), names, TheSpec(x), render, d, g) && Presentable(x, render, g.repositories)
    ensures Acceptable(TheWorld(x), TheSpec(x), d, g)
  {
    ReachedHere(x, names, d);
    AllAcceptable(x, render, d, g);
  }

  lemma {:induction false} ImportedEntryAccepted(x: Cast, names: set<Name>, render: Node -> SourceNode, d: WalkData, g: SourceGraph)
    requires Distinct(x) && Built(TheWorld(x), names, TheSpec(x), render, d, g) && NothingUnresolved(TheWorld(x), d)
    requires Presentable(x, render, g.repositories)
    ensures GraphOk(g)
  {
    BuiltAcceptable(x, names, render, d, g);
    WorldPresented(x, render, g.repositories);
    GraphAccepted(TheWorld(x), names, TheSpec(x), render, d, g);
  }

  /** And the builder does return such a candidate, which the final validator accepts if it can be decoded. */
  method BuildImportedEntry(x: Cast, render: Node -> SourceNode, graphId: string, repositories: seq<Repository>)
    returns (g: SourceGraph, walk: Walk)
    requires Distinct(x) && forall n :: n in TheWorld(x).git ==> render(n).id == n
    ensures Built(TheWorld(x), {None}, TheSpec(x), render, walk.Data(), g)
    ensures |g.processProfiles| == 2 && g.processProfiles[1].id == x.q
    ensures x.b in g.processProfiles[1].requiredLoadIds && x.b in g.processProfiles[1].allowedNodeIds
    ensures !WalkedUnder(walk.seen, TheSpec(x).scopeOf[x.q], x.b)
    ensures Presentable(x, render, repositories) ==> GraphOk(g) && (GraphDocument.Documented(g) ==> GraphDocument.Validated(g))
  {
    SpecChecked(x);
    WorldBounded(x);
    var r;
    r, walk := BuildCandidate(TheWorld(x), {None}, TheSpec(x), render, graphId, repositories);
    NothingRefused(x, walk.seen);
    g := r.graph;
    ImportedEntryEscapes(x, {None}, render, walk.Data(), g);
    if Presentable(x, render, repositories) {
      ImportedEntryAccepted(x, {None}, render, walk.Data(), g);
      GraphDocument.DocumentDecodes(g);
    }
  }
}
