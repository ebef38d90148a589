/** What a candidate graph is good for: when the validator accepts it, and whose walk its closures fit. A profile's lists are
    made from the one adjacency of all walks, so they can leave the profile's own walk; the condition under which they do
    not is stated on the specification and the states that its seeds reach. */
module BuilderTheorems {
  import opened Records
  import opened Reachability
  import opened ClosureWalk
  import opened ProfileClosures
  import opened GraphBuilder
  import opened ReviewedGraph
  import opened Sorting

  /** A candidate and the walk behind it. */
  ghost predicate Built(w: World, names: set<Name>, spec: Spec, render: Node -> SourceNode, d: WalkData, g: SourceGraph) {
    && Checked(w, spec) && EntriesKnown(spec) && (forall n :: n in w.git ==> render(n).id == n)
    && SeedsOf(w, spec, d.seeds) && BootsOf(spec.entries, d.boots)
    && Finished(w, names, d) && CandidateOf(w, spec, render, d, g)
  }

  // -- everything the graph mentions is one of its nodes

  ghost predicate Walked(spec: Spec, d: WalkData, p: string, n: Node) {
    p in spec.scopeOf && WalkedUnder(d.seen, spec.scopeOf[p], n) && n in d.reached
  }

  /** Every seed of a profile was walked under its scope, and bootstrap adjacency comes from the entrypoints. */
  ghost predicate Seeded(spec: Spec, d: WalkData) {
    && (forall p, n :: IsSeed(spec, p, n) ==> Walked(spec, d, p, n))
    && BootsOf(spec.entries, d.boots)
  }

  lemma {:induction false} SeedWalked(w: World, spec: Spec, d: WalkData, p: string, n: Node)
    requires Complete(w, d.seeds, d.seen, []) && SeedsOf(w, spec, d.seeds) && p in spec.scopeOf && IsSeed(spec, p, n)
    requires d.reached == set s | s in d.seen :: s.node
    ensures Walked(spec, d, p, n)
  {
    var s := SeedState(w, spec, (p, n));
    assert s in d.seeds && Pending(d.seen, [], s);
  }

  lemma {:induction false} BuiltSeeded(w: World, names: set<Name>, spec: Spec, d: WalkData)
    requires Checked(w, spec) && SeedsOf(w, spec, d.seeds) && BootsOf(spec.entries, d.boots) && Finished(w, names, d)
    ensures Seeded(spec, d)
  {
    forall p, n | IsSeed(spec, p, n) ensures Walked(spec, d, p, n) {
      SeedChecked(w, spec, p, n);
      SeedWalked(w, spec, d, p, n);
    }
  }

  lemma {:induction false} EntrySeed(spec: Spec, d: WalkData, e: EntrySpec, n: Node)
    requires Seeded(spec, d) && e in spec.entries && (n == e.node || n in e.boots)
    ensures Walked(spec, d, e.profileId, n)
  {
    assert IsSeed(spec, e.profileId, n);
  }

  lemma {:induction false} ProfileSeed(spec: Spec, d: WalkData, p: ProfileSpec, n: Node)
    requires Seeded(spec, d) && p in spec.profiles && n in p.extraRequired + p.extraAllowed + p.runtimeNodes
    ensures Walked(spec, d, p.id, n)
  {
    assert IsSeed(spec, p.id, n);
  }

  lemma {:induction false} BootWalked(spec: Spec, d: WalkData, n: Node, b: Node)
    requires Seeded(spec, d) && b in Adj(d.boots, n)
    ensures n in d.reached && b in d.reached
  {
    var e :| e in spec.entries && e.node == n && b in e.boots;
    EntrySeed(spec, d, e, n);
    EntrySeed(spec, d, e, b);
  }

  lemma {:induction false} TargetReached(w: World, names: set<Name>, d: WalkData, n: Node, t: Node)
    requires Finished(w, names, d) && n in d.first && IsTarget(d.first[n], t)
    ensures n in d.reached && t in d.reached
  {
    var s :| s in d.seen && s.node == n && Analyzes(w, s, d.first[n]);
    TargetsWalked(w, names, d, s.scope, n, t);
  }

  lemma {:induction false} ClosureReached(w: World, names: set<Name>, spec: Spec, d: WalkData, useDynamic: bool, roots: set<Node>, n: Node)
    requires Seeded(spec, d) && Finished(w, names, d) && roots <= d.reached
    requires Reachable(NodeStep(d.staticAdj, if useDynamic then d.dynamicAdj else map[]), roots, n)
    ensures n in d.reached
  {
    var step := NodeStep(d.staticAdj, if useDynamic then d.dynamicAdj else map[]);
    forall x, t | x in d.reached && step(x, t) ensures t in d.reached {
      StepsOfClosure(w, names, d, useDynamic, x, t);
      if t in Adj(d.boots, x) { BootWalked(spec, d, x, t); } else { TargetReached(w, names, d, x, t); }
    }
    ClosedHolds(step, roots, d.reached, n);
  }

  lemma {:induction false} DeclaredEndReached(w: World, names: set<Name>, d: WalkData, n: Node, refs: seq<string>, t: Node)
    requires Finished(w, names, d) && n in d.reached && n !in w.git && n in w.declared
    requires (forall r :: r in refs ==> r in Follows(w.declared[n].provenance)) && ResolvesFrom(w, refs, t)
    ensures t in d.reached
  {
    var s :| s in d.seen && s.node == n;
    assert Pending(d.seen, [], s);
    var u := State(s.scope, t, w.scopes[s.scope].reach(t));
    var r :| r in refs && w.resolveNode(r) == Some(t);
    assert r in Follows(w.declared[n].provenance);
    assert StepTo(w, s, u);
    assert Pending(d.seen, [], u);
  }

  lemma {:induction false} WalkEdgeReached(w: World, names: set<Name>, spec: Spec, d: WalkData, k: EdgeKey)
    requires Seeded(spec, d) && Finished(w, names, d) && EdgeDue(w, d.boots, d.first, d.reached, k)
    ensures k.source in d.reached && k.target in d.reached
  {
    match k.kind {
      case Bootstrap => BootWalked(spec, d, k.source, k.target);
      case Import => TargetReached(w, names, d, k.source, k.target);
      case DynamicImport => TargetReached(w, names, d, k.source, k.target);
      case GeneratedInput => DeclaredEndReached(w, names, d, k.target, w.declared[k.target].provenance.inputs, k.source);
      case Generates => DeclaredEndReached(w, names, d, k.target, w.declared[k.target].provenance.generators, k.source);
      case CacheOf => DeclaredEndReached(w, names, d, k.source, w.declared[k.source].provenance.sourceNodes, k.target);
      case _ =>
    }
  }

  lemma {:induction false} EntryNodeReached(spec: Spec, d: WalkData, ids: seq<string>, n: Node)
    requires Seeded(spec, d) && forall k :: k in ids ==> k in EntryMap(spec.entries)
    requires n in EntryNodes(EntryMap(spec.entries), ids)
    ensures n in d.reached
  {
    var k :| k in ids && n == EntryMap(spec.entries)[k].node;
    EntrySeed(spec, d, EntryMap(spec.entries)[k], n);
  }

  lemma {:induction false} SpawnEdgeReached(spec: Spec, d: WalkData, k: EdgeKey)
    requires EntriesKnown(spec) && Seeded(spec, d) && SpawnDue(spec, spec.profiles, k)
    ensures k.source in d.reached && k.target in d.reached
  {
    var p :| p in spec.profiles && IsSpawn(spec, p, p.childProfiles, (k.source, k.target));
    var c :| c in p.childProfiles && SpawnPair(spec, p, c, (k.source, k.target));
    EntryNodeReached(spec, d, p.entrypointIds, k.source);
    assert ProfileMap(spec.profiles)[c] in spec.profiles;
    EntryNodeReached(spec, d, ProfileMap(spec.profiles)[c].entrypointIds, k.target);
  }

  // -- the output profile

  lemma {:induction false} RootsReached(spec: Spec, d: WalkData, p: ProfileSpec)
    requires EntriesKnown(spec) && Seeded(spec, d) && p in spec.profiles
    ensures forall n :: n in EntryLoads(EntryMap(spec.entries), p.entrypointIds) ==> n in d.reached
    ensures forall n :: n in p.extraRequired + p.extraAllowed + p.runtimeNodes ==> n in d.reached
  {
    var entries := EntryMap(spec.entries);
    forall n | n in EntryLoads(entries, p.entrypointIds) ensures n in d.reached {
      var k :| k in p.entrypointIds && (n == entries[k].node || n in entries[k].boots);
      EntrySeed(spec, d, entries[k], n);
    }
    forall n | n in p.extraRequired + p.extraAllowed + p.runtimeNodes ensures n in d.reached {
      ProfileSeed(spec, d, p, n);
    }
  }

  /** Runtime and required nodes, entries and bootstraps are allowed; allowed nodes are nodes; no list repeats. */
  lemma {:induction false} ProfileWithin(w: World, names: set<Name>, spec: Spec, d: WalkData, p: ProfileSpec, o: ProcessProfile)
    requires EntriesKnown(spec) && Seeded(spec, d) && Finished(w, names, d)
    requires p in spec.profiles && ProfileOut(spec, p, d.staticAdj, d.dynamicAdj, o)
    ensures NoDuplicates(o.requiredLoadIds) && NoDuplicates(o.allowedNodeIds)
    ensures forall n :: n in o.runtimeNodes + o.requiredLoadIds ==> n in o.allowedNodeIds
    ensures forall n :: n in o.allowedNodeIds ==> n in d.reached
    ensures forall n :: n in EntryLoads(EntryMap(spec.entries), p.entrypointIds) ==> n in o.allowedNodeIds
  {
    var roots := Elements(EntryLoads(EntryMap(spec.entries), p.entrypointIds) + p.extraRequired);
    var step, steps := NodeStep(d.staticAdj, map[]), NodeStep(d.staticAdj, d.dynamicAdj);
    var more := Elements(p.runtimeNodes + o.requiredLoadIds + p.extraAllowed);
    RootsReached(spec, d, p);
    forall n | n in o.requiredLoadIds ensures n in d.reached { ClosureReached(w, names, spec, d, false, roots, n); }
    forall n | n in more ensures n in o.allowedNodeIds && n in d.reached { SeedReachable(steps, more, n); }
    forall n | n in o.allowedNodeIds ensures n in d.reached { ClosureReached(w, names, spec, d, true, more, n); }
    forall n | n in EntryLoads(EntryMap(spec.entries), p.entrypointIds) ensures n in o.allowedNodeIds {
      SeedReachable(step, roots, n);
      assert n in o.requiredLoadIds || n in p.runtimeNodes;
    }
  }

  // -- the grammar's edge and profile checks

  lemma {:induction false} NodeIds(w: World, render: Node -> SourceNode, d: WalkData, nodes: seq<SourceNode>)
    requires NodeRecordsOf(w, render, d.reached, nodes)
    ensures NodesById(nodes).Keys == d.reached
    ensures forall n :: n in d.reached && n in w.declared && n !in w.git ==> NodesById(nodes)[n] == w.declared[n]
  {
    forall n | n in d.reached ensures n in NodesById(nodes) {
      var x :| x in nodes && x.id == n;
    }
  }

  lemma {:induction false} EdgesAccepted(w: World, names: set<Name>, spec: Spec, render: Node -> SourceNode, d: WalkData, g: SourceGraph)
    requires EntriesKnown(spec) && Seeded(spec, d) && Finished(w, names, d) && CandidateOf(w, spec, render, d, g)
    ensures EdgesOk(g.edges, NodesById(g.nodes).Keys)
  {
    NodeIds(w, render, d, g.nodes);
    forall e | e in g.edges ensures e.source in d.reached && e.target in d.reached {
      var k := EdgeKey(e.source, e.target, e.kind);
      if k in d.edges { WalkEdgeReached(w, names, spec, d, k); } else { SpawnEdgeReached(spec, d, k); }
    }
  }

  lemma {:induction false} EntryAccepted(spec: Spec, d: WalkData, profiles: set<string>, e: EntrySpec)
    requires Seeded(spec, d) && spec.scopeOf.Keys == profiles && e in spec.entries
    ensures e.node in d.reached && e.profileId in profiles
    ensures References(e.boots, d.reached) <==> NoDuplicates(e.boots)
  {
    EntrySeed(spec, d, e, e.node);
    forall b | b in e.boots ensures b in d.reached { EntrySeed(spec, d, e, b); }
  }

  lemma {:induction false} EntriesAccepted(spec: Spec, d: WalkData, entries: seq<Entrypoint>)
    requires Seeded(spec, d) && |entries| == |spec.entries|
    requires forall i :: 0 <= i < |entries| ==> entries[i] == EntryRecord(spec.entries[i])
    ensures EntriesOk(entries, d.reached, spec.scopeOf.Keys) <==> forall e :: e in spec.entries ==> NoDuplicates(e.boots)
  {
    forall i | 0 <= i < |entries|
      ensures entries[i].node in d.reached && entries[i].profileId in spec.scopeOf
      ensures References(entries[i].bootstrapChain, d.reached) <==> NoDuplicates(spec.entries[i].boots)
    {
      EntryAccepted(spec, d, spec.scopeOf.Keys, spec.entries[i]);
    }
    if EntriesOk(entries, d.reached, spec.scopeOf.Keys) {
      forall e | e in spec.entries ensures NoDuplicates(e.boots) {
        var i :| 0 <= i < |spec.entries| && spec.entries[i] == e;
        assert entries[i] in entries;
      }
    }
  }

  lemma {:induction false} ProfileKeys(spec: Spec, profiles: seq<ProcessProfile>)
    requires |profiles| == |spec.profiles|
    requires forall i :: 0 <= i < |profiles| ==> profiles[i].id == spec.profiles[i].id
    ensures ProfilesById(profiles).Keys == ProfileMap(spec.profiles).Keys
  {
    var a, b := ProfilesById(profiles), ProfileMap(spec.profiles);
    forall k | k in a ensures k in b {
      var i :| 0 <= i < |profiles| && profiles[i] == a[k];
      assert spec.profiles[i] in spec.profiles;
    }
    forall k | k in b ensures k in a {
      var i :| 0 <= i < |spec.profiles| && spec.profiles[i] == b[k];
      assert profiles[i] in profiles;
    }
  }

  lemma {:induction false} EntryRecordAt(spec: Spec, entries: seq<Entrypoint>, k: string)
    requires forall i, j :: 0 <= i < j < |spec.entries| ==> spec.entries[i].id != spec.entries[j].id
    requires |entries| == |spec.entries| && forall i :: 0 <= i < |entries| ==> entries[i] == EntryRecord(spec.entries[i])
    requires k in EntryMap(spec.entries)
    ensures k in EntriesById(entries) && EntriesById(entries)[k] == EntryRecord(EntryMap(spec.entries)[k])
  {
    var e := EntryMap(spec.entries)[k];
    var i :| 0 <= i < |spec.entries| && spec.entries[i] == e;
    assert entries[i] in entries && entries[i].id == k;
    var x := EntriesById(entries)[k];
    var j :| 0 <= j < |entries| && entries[j] == x;
    assert spec.entries[j].id == k;
    assert i == j;
  }

  lemma {:induction false} EntryRecordsById(spec: Spec, entries: seq<Entrypoint>)
    requires forall i, j :: 0 <= i < j < |spec.entries| ==> spec.entries[i].id != spec.entries[j].id
    requires |entries| == |spec.entries| && forall i :: 0 <= i < |entries| ==> entries[i] == EntryRecord(spec.entries[i])
    ensures EntriesById(entries).Keys == EntryMap(spec.entries).Keys
    ensures forall k :: k in EntryMap(spec.entries) ==> EntriesById(entries)[k] == EntryRecord(EntryMap(spec.entries)[k])
  {
    forall k | k in EntryMap(spec.entries)
      ensures k in EntriesById(entries) && EntriesById(entries)[k] == EntryRecord(EntryMap(spec.entries)[k])
    {
      EntryRecordAt(spec, entries, k);
    }
    forall k | k in EntriesById(entries) ensures k in EntryMap(spec.entries) {
      var x := EntriesById(entries)[k];
      var i :| 0 <= i < |entries| && entries[i] == x;
      assert spec.entries[i] in spec.entries;
    }
  }

  /** What the grammar asks of a profile beyond what the builder guarantees. */
  ghost predicate ListsOk(spec: Spec, p: ProfileSpec)
    requires forall k :: k in p.entrypointIds ==> k in EntryMap(spec.entries)
  {
    NoDuplicates(p.entrypointIds) && NoDuplicates(p.runtimeNodes) && NoDuplicates(p.childProfiles) && EntriesNamed(spec, p)
  }

  lemma {:induction false} ListsAccepted(ids: set<string>, entries: set<string>, profiles: set<string>, o: ProcessProfile)
    requires o.entrypointIds != [] && o.runtimeNodes != []
    requires NoDuplicates(o.requiredLoadIds) && NoDuplicates(o.allowedNodeIds)
    requires forall n :: n in o.runtimeNodes + o.requiredLoadIds ==> n in o.allowedNodeIds
    requires forall n :: n in o.allowedNodeIds ==> n in ids
    requires (forall k :: k in o.entrypointIds ==> k in entries) && (forall c :: c in o.childProfiles ==> c in profiles)
    ensures ProfileLists(ids, entries, profiles, o) <==>
            NoDuplicates(o.entrypointIds) && NoDuplicates(o.runtimeNodes) && NoDuplicates(o.childProfiles)
  {
    forall n | n in o.runtimeNodes || n in o.requiredLoadIds ensures n in ids {
      assert n in o.runtimeNodes + o.requiredLoadIds;
    }
  }

  lemma {:induction false} EntriesFit(spec: Spec, entries: map<string, Entrypoint>, p: ProfileSpec, o: ProcessProfile)
    requires o.id == p.id && o.entrypointIds == p.entrypointIds
    requires forall k :: k in p.entrypointIds ==> k in EntryMap(spec.entries)
    requires forall k :: k in p.entrypointIds ==> k in entries && entries[k] == EntryRecord(EntryMap(spec.entries)[k])
    requires forall n :: n in EntryLoads(EntryMap(spec.entries), p.entrypointIds) ==> n in o.allowedNodeIds
    ensures (forall k :: k in o.entrypointIds ==> k in entries && EntryFits(entries[k], o)) <==> EntriesNamed(spec, p)
  {
    var specs, loads := EntryMap(spec.entries), EntryLoads(EntryMap(spec.entries), p.entrypointIds);
    forall k | k in p.entrypointIds ensures EntryFits(entries[k], o) <==> specs[k].profileId == p.id {
      assert specs[k].node in loads && forall b :: b in specs[k].boots ==> b in loads;
    }
  }

  /** The dictionaries the grammar makes of a candidate. */
  ghost predicate Indexed(w: World, spec: Spec, d: WalkData, nodes: map<string, SourceNode>, entries: map<string, Entrypoint>, profiles: set<string>) {
    && nodes.Keys == d.reached && (forall n :: n in d.reached && n in w.declared && n !in w.git ==> nodes[n] == w.declared[n])
    && w.git !! w.declared.Keys && profiles == ProfileMap(spec.profiles).Keys
    && (forall k :: k in EntryMap(spec.entries) ==> k in entries && entries[k] == EntryRecord(EntryMap(spec.entries)[k]))
  }

  lemma {:induction false} ProfileAccepted(w: World, names: set<Name>, spec: Spec, d: WalkData, nodes: map<string, SourceNode>,
                        entries: map<string, Entrypoint>, profiles: set<string>, p: ProfileSpec, o: ProcessProfile)
    requires EntriesKnown(spec) && Seeded(spec, d) && Finished(w, names, d) && Indexed(w, spec, d, nodes, entries, profiles)
    requires p in spec.profiles && ProfileOut(spec, p, d.staticAdj, d.dynamicAdj, o) && ProfileChecked(w, spec, p)
    ensures ProfileOk(nodes, entries, profiles, o) <==> ListsOk(spec, p)
  {
    ProfileWithin(w, names, spec, d, p, o);
    ListsAccepted(nodes.Keys, entries.Keys, profiles, o);
    EntriesFit(spec, entries, p, o);
    assert HasInterpreter(nodes, o.runtimeNodes) by {
      var n :| n in p.runtimeNodes && w.declared[n].kind == Interpreter;
      RootsReached(spec, d, p);
      assert n in p.extraRequired + p.extraAllowed + p.runtimeNodes;
      assert nodes[n] == w.declared[n];
    }
  }

  lemma {:induction false} EachAccepted(spec: Spec, d: WalkData, nodes: map<string, SourceNode>, entries: map<string, Entrypoint>,
                                        profiles: set<string>, out: seq<ProcessProfile>)
    requires EntriesKnown(spec) && |out| == |spec.profiles|
    requires forall i :: 0 <= i < |out| ==> (ProfileOk(nodes, entries, profiles, out[i]) <==> ListsOk(spec, spec.profiles[i]))
    ensures (forall o :: o in out ==> ProfileOk(nodes, entries, profiles, o)) <==> forall p :: p in spec.profiles ==> ListsOk(spec, p)
  {
    if forall o :: o in out ==> ProfileOk(nodes, entries, profiles, o) {
      forall p | p in spec.profiles ensures ListsOk(spec, p) {
        var i :| 0 <= i < |spec.profiles| && spec.profiles[i] == p;
        assert out[i] in out;
      }
    } else {
      var o :| o in out && !ProfileOk(nodes, entries, profiles, o);
      var i :| 0 <= i < |out| && out[i] == o;
      assert spec.profiles[i] in spec.profiles;
    }
  }

  lemma {:induction false} CandidateIndexed(w: World, spec: Spec, render: Node -> SourceNode, d: WalkData, g: SourceGraph)
    requires Checked(w, spec) && EntriesKnown(spec) && CandidateOf(w, spec, render, d, g)
    ensures Indexed(w, spec, d, NodesById(g.nodes), EntriesById(g.entrypoints), ProfilesById(g.processProfiles).Keys)
  {
    NodeIds(w, render, d, g.nodes);
    ProfileKeys(spec, g.processProfiles);
    EntryRecordsById(spec, g.entrypoints);
  }

  lemma {:induction false} ProfilesAccepted(w: World, names: set<Name>, spec: Spec, d: WalkData, nodes: map<string, SourceNode>,
                                            entries: map<string, Entrypoint>, profiles: set<string>, out: seq<ProcessProfile>)
    requires EntriesKnown(spec) && Seeded(spec, d) && Finished(w, names, d) && Indexed(w, spec, d, nodes, entries, profiles)
    requires |out| == |spec.profiles| && forall p :: p in spec.profiles ==> ProfileChecked(w, spec, p)
    requires forall i :: 0 <= i < |out| ==> ProfileOut(spec, spec.profiles[i], d.staticAdj, d.dynamicAdj, out[i])
    ensures (forall o :: o in out ==> ProfileOk(nodes, entries, profiles, o)) <==> forall p :: p in spec.profiles ==> ListsOk(spec, p)
  {
    forall i | 0 <= i < |out| ensures ProfileOk(nodes, entries, profiles, out[i]) <==> ListsOk(spec, spec.profiles[i]) {
      assert spec.profiles[i] in spec.profiles;
      ProfileAccepted(w, names, spec, d, nodes, entries, profiles, spec.profiles[i], out[i]);
    }
    EachAccepted(spec, d, nodes, entries, profiles, out);
  }

  /** The whole of it: edges are always accepted, entries and profiles exactly for duplicate-free specifications whose
      entrypoints name the profile that lists them. */
  lemma {:induction false} CandidateAccepted(w: World, names: set<Name>, spec: Spec, render: Node -> SourceNode, d: WalkData, g: SourceGraph)
    requires Built(w, names, spec, render, d, g)
    ensures EdgesOk(g.edges, NodesById(g.nodes).Keys)
    ensures EntriesOk(g.entrypoints, NodesById(g.nodes).Keys, ProfilesById(g.processProfiles).Keys) && ProfilesOk(g) <==>
            DuplicateFree(spec) && forall p :: p in spec.profiles ==> EntriesNamed(spec, p)
  {
    var nodes, entries, profiles := NodesById(g.nodes), EntriesById(g.entrypoints), ProfilesById(g.processProfiles).Keys;
    BuiltSeeded(w, names, spec, d);
    EdgesAccepted(w, names, spec, render, d, g);
    CandidateIndexed(w, spec, render, d, g);
    assert ProfilesOk(g) <==> forall p :: p in spec.profiles ==> ListsOk(spec, p) by {
      ProfilesAccepted(w, names, spec, d, nodes, entries, profiles, g.processProfiles);
    }
    assert EntriesOk(g.entrypoints, nodes.Keys, profiles) <==> forall e :: e in spec.entries ==> NoDuplicates(e.boots) by {
      EntriesAccepted(spec, d, g.entrypoints);
    }
    AcceptedLists(spec);
  }

  lemma {:induction false} AcceptedLists(spec: Spec)
    requires EntriesKnown(spec)
    ensures (forall e :: e in spec.entries ==> NoDuplicates(e.boots)) && (forall p :: p in spec.profiles ==> ListsOk(spec, p)) <==>
            DuplicateFree(spec) && forall p :: p in spec.profiles ==> EntriesNamed(spec, p)
  {
  }

  // -- the whole grammar

  /** A node's id resolves to that node: always with several repositories, and with one unless a declared node takes the path
      of a module file for its id. */
  ghost predicate IdsResolve(w: World) {
    forall n :: n in Nodes(w) ==> w.resolveNode(n) == Some(n)
  }

  /** No error on record, seen as values. */
  ghost predicate NothingUnresolved(w: World, d: WalkData) {
    Resolved(w, d.seen) && InterpretersReached(w, d.reached, d.seen, [])
  }

  ghost predicate RepositoriesFit(repositories: seq<Repository>) {
    && (forall i, j :: 0 <= i < j < |repositories| ==> repositories[i].id != repositories[j].id)
    && (forall r :: r in repositories ==> RecordId(r.id) && ObjectId(r.commit, r.objectFormat) && ObjectId(r.tree, r.objectFormat))
  }

  ghost predicate IdsSpelled(spec: Spec, reached: set<Node>) {
    && (forall n :: n in reached ==> RecordId(n))
    && (forall p :: p in spec.profiles ==> RecordId(p.id))
    && (forall e :: e in spec.entries ==> RecordId(e.id))
  }

  /** `ProvenanceOk` with every reference the walk follows looked up among the declared and committed nodes: only a generated
      node's toolchain and a cached node's interpreter, which it does not follow, must be reached some other way. */
  ghost predicate ProvenanceFits(w: World, repositories: map<string, Repository>, reached: set<Node>, n: SourceNode) {
    match n.provenance
    case Git(_, _, _, _, _, _, _, _, _) => ProvenanceOk(repositories, reached, n)
    case Generated(generators, inputs, toolchain, _, _, _, _) =>
      References(generators, Nodes(w)) && References(inputs, Nodes(w)) && References(toolchain, reached) && n.kind == GeneratedCode
    case Cached(sources, interpreter, _, _, _) =>
      References(sources, Nodes(w)) && interpreter in reached && n.kind == CachedCode
    case Artifact(_, _, sources, dependencies, interpreter, _, _, _, _) =>
      && References(sources, Nodes(w)) && References(dependencies, Nodes(w)) && interpreter != "" && interpreter in Nodes(w)
      && n.kind in {Package, Interpreter, Stdlib, NativeBinary, Resource}
  }

  lemma {:induction false} FollowedReached(w: World, names: set<Name>, d: WalkData, n: Node, r: string)
    requires IdsResolve(w) && Finished(w, names, d) && n in d.reached && n !in w.git && n in w.declared
    requires r in Follows(w.declared[n].provenance)
    ensures r in d.reached <==> r in Nodes(w)
  {
    ReachedAreNodes(w, names, d);
    if r in Nodes(w) {
      assert ResolvesFrom(w, [r], r);
      DeclaredEndReached(w, names, d, n, [r], r);
    }
  }

  lemma {:induction false} InterpreterKnown(w: World, names: set<Name>, d: WalkData, n: Node)
    requires IdsResolve(w) && Finished(w, names, d) && InterpretersReached(w, d.reached, d.seen, [])
    requires n in d.reached && n !in w.git && n in w.declared
    ensures var r := InterpreterOf(w.declared[n].provenance); r != "" ==> (r in d.reached <==> r in Nodes(w))
  {
    ReachedAreNodes(w, names, d);
    var s :| s in d.seen && s.node == n;
    assert InterpreterReached(w, d.reached, d.seen, [], s);
  }

  lemma {:induction false} ListFollowed(w: World, names: set<Name>, d: WalkData, n: Node, refs: seq<string>)
    requires IdsResolve(w) && Finished(w, names, d) && n in d.reached && n !in w.git && n in w.declared
    requires forall r :: r in refs ==> r in Follows(w.declared[n].provenance)
    ensures References(refs, d.reached) <==> References(refs, Nodes(w))
  {
    forall r | r in refs ensures r in d.reached <==> r in Nodes(w) { FollowedReached(w, names, d, n, r); }
  }

  lemma {:induction false} ProvenanceAccepted(w: World, names: set<Name>, d: WalkData, repositories: map<string, Repository>, n: Node)
    requires IdsResolve(w) && Finished(w, names, d) && InterpretersReached(w, d.reached, d.seen, [])
    requires n in d.reached && n !in w.git && n in w.declared && "" !in d.reached
    ensures ProvenanceOk(repositories, d.reached, w.declared[n]) <==> ProvenanceFits(w, repositories, d.reached, w.declared[n])
  {
    match w.declared[n].provenance {
      case Git(_, _, _, _, _, _, _, _, _) =>
      case Generated(generators, inputs, _, _, _, _, _) =>
        ListFollowed(w, names, d, n, generators);
        ListFollowed(w, names, d, n, inputs);
      case Cached(sources, _, _, _, _) => ListFollowed(w, names, d, n, sources);
      case Artifact(_, _, sources, dependencies, _, _, _, _, _) =>
        ListFollowed(w, names, d, n, sources);
        ListFollowed(w, names, d, n, dependencies);
        InterpreterKnown(w, names, d, n);
    }
  }

  lemma {:induction false} NodesAccepted(w: World, names: set<Name>, render: Node -> SourceNode, d: WalkData,
                                         repositories: map<string, Repository>, nodes: seq<SourceNode>)
    requires IdsResolve(w) && Finished(w, names, d) && InterpretersReached(w, d.reached, d.seen, [])
    requires NodeRecordsOf(w, render, d.reached, nodes) && "" !in d.reached
    requires forall n :: n in w.git ==> render(n).provenance.Git?
    ensures (forall x :: x in nodes ==> ProvenanceOk(repositories, d.reached, x)) <==>
            forall x :: x in nodes ==> ProvenanceFits(w, repositories, d.reached, x)
  {
    forall x | x in nodes ensures ProvenanceOk(repositories, d.reached, x) <==> ProvenanceFits(w, repositories, d.reached, x) {
      if x.id !in w.git { ProvenanceAccepted(w, names, d, repositories, x.id); }
    }
  }

  /** What of a candidate the identifier checks read. */
  ghost predicate IdsCarried(w: World, spec: Spec, render: Node -> SourceNode, reached: set<Node>, g: SourceGraph) {
    && NodeRecordsOf(w, render, reached, g.nodes)
    && |g.entrypoints| == |spec.entries|
    && (forall i :: 0 <= i < |spec.entries| ==> g.entrypoints[i] == EntryRecord(spec.entries[i]))
    && |g.processProfiles| == |spec.profiles|
    && (forall i :: 0 <= i < |spec.profiles| ==> g.processProfiles[i].id == spec.profiles[i].id)
    && (forall i, j :: 0 <= i < j < |spec.entries| ==> spec.entries[i].id != spec.entries[j].id)
    && (forall i, j :: 0 <= i < j < |spec.profiles| ==> spec.profiles[i].id != spec.profiles[j].id)
  }

  lemma {:induction false} IdsDistinct(w: World, spec: Spec, render: Node -> SourceNode, reached: set<Node>, g: SourceGraph)
    requires IdsCarried(w, spec, render, reached, g)
    ensures DistinctIds(g) <==> forall i, j :: 0 <= i < j < |g.repositories| ==> g.repositories[i].id != g.repositories[j].id
  {
  }

  lemma {:induction false} EntryIds(spec: Spec, entries: seq<Entrypoint>)
    requires |entries| == |spec.entries| && forall i :: 0 <= i < |entries| ==> entries[i] == EntryRecord(spec.entries[i])
    ensures (forall e :: e in entries ==> RecordId(e.id)) <==> forall e :: e in spec.entries ==> RecordId(e.id)
  {
    forall e | e in spec.entries ensures exists x :: x in entries && x.id == e.id {
      var i :| 0 <= i < |spec.entries| && spec.entries[i] == e;
      assert entries[i] in entries;
    }
  }

  lemma {:induction false} ProfileIds(spec: Spec, profiles: seq<ProcessProfile>)
    requires |profiles| == |spec.profiles| && forall i :: 0 <= i < |profiles| ==> profiles[i].id == spec.profiles[i].id
    ensures (forall p :: p in profiles ==> RecordId(p.id)) <==> forall p :: p in spec.profiles ==> RecordId(p.id)
  {
    forall p | p in spec.profiles ensures exists x :: x in profiles && x.id == p.id {
      var i :| 0 <= i < |spec.profiles| && spec.profiles[i] == p;
      assert profiles[i] in profiles;
    }
  }

  lemma {:induction false} NodeSpelling(w: World, render: Node -> SourceNode, reached: set<Node>, nodes: seq<SourceNode>)
    requires NodeRecordsOf(w, render, reached, nodes)
    ensures (forall n :: n in nodes ==> RecordId(n.id)) <==> forall n :: n in reached ==> RecordId(n)
  {
  }

  lemma {:induction false} SpellingAccepted(spec: Spec, reached: set<Node>, g: SourceGraph)
    requires (forall e :: e in g.entrypoints ==> RecordId(e.id)) <==> forall e :: e in spec.entries ==> RecordId(e.id)
    requires (forall p :: p in g.processProfiles ==> RecordId(p.id)) <==> forall p :: p in spec.profiles ==> RecordId(p.id)
    requires (forall n :: n in g.nodes ==> RecordId(n.id)) <==> forall n :: n in reached ==> RecordId(n)
    requires DistinctIds(g) <==> forall i, j :: 0 <= i < j < |g.repositories| ==> g.repositories[i].id != g.repositories[j].id
    ensures DistinctIds(g) && SpelledIds(g) && RepositoriesOk(g) <==> RepositoriesFit(g.repositories) && IdsSpelled(spec, reached)
  {
  }

  lemma {:induction false} IdsAccepted(w: World, spec: Spec, render: Node -> SourceNode, reached: set<Node>, g: SourceGraph)
    requires IdsCarried(w, spec, render, reached, g)
    ensures DistinctIds(g) && SpelledIds(g) && RepositoriesOk(g) <==> RepositoriesFit(g.repositories) && IdsSpelled(spec, reached)
  {
    IdsDistinct(w, spec, render, reached, g);
    EntryIds(spec, g.entrypoints);
    ProfileIds(spec, g.processProfiles);
    NodeSpelling(w, render, reached, g.nodes);
    SpellingAccepted(spec, reached, g);
  }

  lemma {:induction false} NothingEmpty(w: World, names: set<Name>, spec: Spec, render: Node -> SourceNode, d: WalkData, g: SourceGraph)
    requires Built(w, names, spec, render, d, g)
    ensures g.nodes != [] && g.processProfiles != [] && g.entrypoints != []
  {
    BuiltSeeded(w, names, spec, d);
    EntrySeed(spec, d, spec.entries[0], spec.entries[0].node);
  }

  lemma {:induction false} IdsOfBuilt(w: World, names: set<Name>, spec: Spec, render: Node -> SourceNode, d: WalkData, g: SourceGraph)
    requires Built(w, names, spec, render, d, g)
    ensures g.nodes != [] && g.processProfiles != [] && g.entrypoints != []
    ensures DistinctIds(g) && SpelledIds(g) && RepositoriesOk(g) <==> RepositoriesFit(g.repositories) && IdsSpelled(spec, d.reached)
  {
    NothingEmpty(w, names, spec, render, d, g);
    IdsAccepted(w, spec, render, d.reached, g);
  }

  lemma {:induction false} ReferencesAccepted(w: World, names: set<Name>, spec: Spec, render: Node -> SourceNode, d: WalkData, g: SourceGraph)
    requires Finished(w, names, d) && NothingUnresolved(w, d) && IdsResolve(w) && IdsSpelled(spec, d.reached)
    requires NodeRecordsOf(w, render, d.reached, g.nodes) && forall n :: n in w.git ==> render(n).provenance.Git?
    ensures (forall x :: x in g.nodes ==> ProvenanceOk(RepositoriesById(g.repositories), NodesById(g.nodes).Keys, x)) <==>
            forall x :: x in g.nodes ==> ProvenanceFits(w, RepositoriesById(g.repositories), d.reached, x)
  {
    assert !RecordId("");
    NodeIds(w, render, d, g.nodes);
    NodesAccepted(w, names, render, d, RepositoriesById(g.repositories), g.nodes);
  }

  /** What a reviewed graph needs of a candidate's specification and world. */
  ghost predicate Acceptable(w: World, spec: Spec, d: WalkData, g: SourceGraph)
    requires EntriesKnown(spec)
  {
    && RepositoriesFit(g.repositories) && IdsSpelled(spec, d.reached)
    && DuplicateFree(spec) && (forall p :: p in spec.profiles ==> EntriesNamed(spec, p))
    && forall x :: x in g.nodes ==> ProvenanceFits(w, RepositoriesById(g.repositories), d.reached, x)
  }

  lemma {:induction false} PartsAccepted(w: World, spec: Spec, d: WalkData, g: SourceGraph)
    requires EntriesKnown(spec) && g.nodes != [] && g.processProfiles != [] && g.entrypoints != []
    requires EdgesOk(g.edges, NodesById(g.nodes).Keys)
    requires DistinctIds(g) && SpelledIds(g) && RepositoriesOk(g) <==> RepositoriesFit(g.repositories) && IdsSpelled(spec, d.reached)
    requires EntriesOk(g.entrypoints, NodesById(g.nodes).Keys, ProfilesById(g.processProfiles).Keys) && ProfilesOk(g) <==>
             DuplicateFree(spec) && forall p :: p in spec.profiles ==> EntriesNamed(spec, p)
    requires IdsSpelled(spec, d.reached) ==>
               ((forall x :: x in g.nodes ==> ProvenanceOk(RepositoriesById(g.repositories), NodesById(g.nodes).Keys, x)) <==>
                forall x :: x in g.nodes ==> ProvenanceFits(w, RepositoriesById(g.repositories), d.reached, x))
    ensures GraphOk(g) <==> Acceptable(w, spec, d, g)
  {
  }

  /** A candidate is a reviewed graph exactly when its identifiers are well spelled, its lists free of duplicates, its
      entrypoints named by their own profile, and its references those of known nodes. */
  lemma {:induction false} GraphAccepted(w: World, names: set<Name>, spec: Spec, render: Node -> SourceNode, d: WalkData, g: SourceGraph)
    requires Built(w, names, spec, render, d, g) && NothingUnresolved(w, d) && IdsResolve(w)
    requires forall n :: n in w.git ==> render(n).provenance.Git?
    ensures GraphOk(g) <==> Acceptable(w, spec, d, g)
  {
    IdsOfBuilt(w, names, spec, render, d, g);
    CandidateAccepted(w, names, spec, render, d, g);
    if IdsSpelled(spec, d.reached) { ReferencesAccepted(w, names, spec, render, d, g); }
    PartsAccepted(w, spec, d, g);
  }

  // -- each profile's closures and its own walk

  ghost function OwnSeeds(spec: Spec, p: ProfileSpec): set<Node>
    requires forall k :: k in p.entrypointIds ==> k in EntryMap(spec.entries)
  {
    Elements(EntryLoads(EntryMap(spec.entries), p.entrypointIds) + p.extraRequired + p.runtimeNodes + p.extraAllowed)
  }

  lemma {:induction false} OwnSeedsWalked(spec: Spec, d: WalkData, p: ProfileSpec, n: Node)
    requires EntriesKnown(spec) && Seeded(spec, d) && p in spec.profiles && EntriesNamed(spec, p) && n in OwnSeeds(spec, p)
    ensures Walked(spec, d, p.id, n)
  {
    var entries := EntryMap(spec.entries);
    if n in EntryLoads(entries, p.entrypointIds) {
      var k :| k in p.entrypointIds && (n == entries[k].node || n in entries[k].boots);
      EntrySeed(spec, d, entries[k], n);
    } else {
      ProfileSeed(spec, d, p, n);
    }
  }

  /** Every node the profile may or must load was walked under the profile's own scope. */
  ghost predicate StaysInScope(spec: Spec, d: WalkData, p: ProfileSpec, o: ProcessProfile)
    requires p.id in spec.scopeOf
  {
    forall n :: n in o.requiredLoadIds + o.allowedNodeIds ==> WalkedUnder(d.seen, spec.scopeOf[p.id], n)
  }

  // What the world and the specification alone say of it. `via` is the steps a walk takes: all walks take `Always(w)`, and no
  // walk takes more than `Possible(w)`.

  ghost predicate BootOf(spec: Spec, n: Node, b: Node) {
    exists e :: e in spec.entries && e.node == n && b in e.boots
  }

  /** Scope `l` comes to `n` from the specification's seeds. */
  ghost predicate Under(w: World, spec: Spec, via: (State, State) -> bool, l: string, n: Node)
    requires ScopesKnown(w, spec)
  {
    exists m :: Reachable(via, SpecSeeds(w, spec), State(l, n, m))
  }

  /** From `n`, as scope `l` comes to it, an import or a bootstrap chain leads to `t`. */
  ghost predicate LoadStep(w: World, spec: Spec, via: (State, State) -> bool, l: string, n: Node, t: Node)
    requires ScopesKnown(w, spec)
  {
    || BootOf(spec, n, t)
    || (l in w.scopes && n in w.git
        && exists m :: Reachable(via, SpecSeeds(w, spec), State(l, n, m)) && IsTarget(TargetsOf(w.scopes[l].analyze(n, m)), t))
  }

  ghost function LoadSteps(w: World, spec: Spec, via: (State, State) -> bool, l: string): (Node, Node) -> bool
    requires ScopesKnown(w, spec)
  {
    (n, t) => LoadStep(w, spec, via, l, n, t)
  }

  /** The bootstrap chains that the profile's own seeds lead to, in its scope, stay in that scope. */
  ghost predicate ChainsKept(w: World, spec: Spec, via: (State, State) -> bool, inner: (State, State) -> bool, p: ProfileSpec)
    requires ScopesKnown(w, spec) && p.id in spec.scopeOf && forall k :: k in p.entrypointIds ==> k in EntryMap(spec.entries)
  {
    var l := spec.scopeOf[p.id];
    forall n, b :: Reachable(LoadSteps(w, spec, via, l), OwnSeeds(spec, p), n) && BootOf(spec, n, b) ==> Under(w, spec, inner, l, b)
  }

  /** A profile of a finished walk, and its output. */
  ghost predicate Closed(w: World, names: set<Name>, spec: Spec, d: WalkData, p: ProfileSpec, o: ProcessProfile) {
    && EntriesKnown(spec) && Seeded(spec, d) && SeedsOf(w, spec, d.seeds) && Finished(w, names, d)
    && p.id in spec.scopeOf && p in spec.profiles && EntriesNamed(spec, p)
    && ProfileOut(spec, p, d.staticAdj, d.dynamicAdj, o)
  }

  /** Seen is what all walks come to, and nothing no walk comes to. */
  ghost predicate Between(w: World, spec: Spec, seen: set<State>)
    requires ScopesKnown(w, spec)
  {
    && (forall s :: Reachable(Always(w), SpecSeeds(w, spec), s) ==> s in seen)
    && (forall s :: s in seen ==> Reachable(Possible(w), SpecSeeds(w, spec), s))
  }

  lemma {:induction false} SeenBetween(w: World, names: set<Name>, spec: Spec, d: WalkData)
    requires SeedsOf(w, spec, d.seeds) && Finished(w, names, d)
    ensures Between(w, spec, d.seen)
  {
    SeedsAreSpecSeeds(w, spec, d.seeds);
    WalkIsExact(w, names, d.seeds, d.seen);
  }

  ghost predicate Holds(w: World, spec: Spec, states: set<State>)
    requires ScopesKnown(w, spec)
  {
    SpecSeeds(w, spec) <= states && forall y, z :: y in states && Possible(w)(y, z) ==> z in states
  }

  /** What no possible step leads to is not walked. */
  lemma {:induction false} NotWalked(w: World, names: set<Name>, spec: Spec, d: WalkData, states: set<State>, l: string, n: Node)
    requires SeedsOf(w, spec, d.seeds) && Finished(w, names, d) && Holds(w, spec, states)
    requires forall s :: s in states ==> !(s.scope == l && s.node == n)
    ensures !WalkedUnder(d.seen, l, n)
  {
    SeenBetween(w, names, spec, d);
    if s :| s in d.seen && s.scope == l && s.node == n { ClosedHolds(Possible(w), SpecSeeds(w, spec), states, s); }
  }

  lemma {:induction false} ReachedIsSeen(w: World, spec: Spec, seen: set<State>, l: string, n: Node)
    requires ScopesKnown(w, spec) && Between(w, spec, seen)
    ensures Under(w, spec, Always(w), l, n) ==> WalkedUnder(seen, l, n)
    ensures WalkedUnder(seen, l, n) ==> Under(w, spec, Possible(w), l, n)
  {
    if WalkedUnder(seen, l, n) {
      var s :| s in seen && s.scope == l && s.node == n;
      assert s == State(l, n, s.name);
    }
  }

  lemma {:induction false} TargetIsLoad(w: World, spec: Spec, seen: set<State>, first: map<Node, Targets>, l: string, n: Node, t: Node)
    requires ScopesKnown(w, spec) && Between(w, spec, seen) && Agreed(w, seen, first)
    requires WalkedUnder(seen, l, n) && n in first && IsTarget(first[n], t)
    ensures LoadStep(w, spec, Possible(w), l, n, t)
  {
    var s :| s in seen && s.scope == l && s.node == n;
    assert s == State(l, n, s.name) && Analyzes(w, s, first[n]);
  }

  lemma {:induction false} LoadIsTarget(w: World, spec: Spec, d: WalkData, l: string, n: Node, t: Node)
    requires ScopesKnown(w, spec) && Between(w, spec, d.seen) && Agreed(w, d.seen, d.first) && OneAnalysis(w, d.seen, d.reached, d.first)
    requires LoadStep(w, spec, Always(w), l, n, t) && !BootOf(spec, n, t)
    ensures n in d.first && IsTarget(d.first[n], t)
  {
    var m :| Reachable(Always(w), SpecSeeds(w, spec), State(l, n, m)) && IsTarget(TargetsOf(w.scopes[l].analyze(n, m)), t);
    assert State(l, n, m) in d.seen;
    assert Analyzes(w, State(l, n, m), d.first[n]);
  }

  /** Within the scope's walk a closure takes no more than the possible load steps. */
  lemma {:induction false} ClosureStepIsLoad(w: World, names: set<Name>, spec: Spec, d: WalkData, l: string, n: Node, t: Node)
    requires BootsOf(spec.entries, d.boots) && ScopesKnown(w, spec) && Between(w, spec, d.seen) && Finished(w, names, d)
    requires WalkedUnder(d.seen, l, n) && NodeStep(d.staticAdj, d.dynamicAdj)(n, t)
    ensures LoadStep(w, spec, Possible(w), l, n, t)
    ensures BootOf(spec, n, t) || WalkedUnder(d.seen, l, t)
  {
    StepsOfClosure(w, names, d, true, n, t);
    if t !in Adj(d.boots, n) {
      TargetsWalked(w, names, d, l, n, t);
      TargetIsLoad(w, spec, d.seen, d.first, l, n, t);
    }
  }

  /** And it takes all those that every walk takes. */
  lemma {:induction false} LoadIsClosureStep(w: World, names: set<Name>, spec: Spec, d: WalkData, l: string, n: Node, t: Node)
    requires BootsOf(spec.entries, d.boots) && ScopesKnown(w, spec) && Between(w, spec, d.seen) && Finished(w, names, d)
    requires LoadStep(w, spec, Always(w), l, n, t)
    ensures NodeStep(d.staticAdj, d.dynamicAdj)(n, t)
  {
    assert AdjacencyAt(d.boots, d.first, d.staticAdj, d.dynamicAdj, n);
    if BootOf(spec, n, t) {
      assert t in Adj(d.boots, n);
    } else {
      LoadIsTarget(w, spec, d, l, n, t);
    }
  }

  /** A set of nodes of the scope's walk that holds the profile's seeds and all closure steps holds its lists. */
  lemma {:induction false} ListsInside(w: World, names: set<Name>, spec: Spec, d: WalkData, p: ProfileSpec, o: ProcessProfile, inside: set<Node>)
    requires Closed(w, names, spec, d, p, o) && inside <= WalkedNodes(d.seen, spec.scopeOf[p.id]) && OwnSeeds(spec, p) <= inside
    requires forall n, t :: n in inside && NodeStep(d.staticAdj, d.dynamicAdj)(n, t) ==> t in inside
    ensures StaysInScope(spec, d, p, o)
  {
    AllowedFromSeeds(spec, d, p, o);
    ProfileWithin(w, names, spec, d, p, o);
    forall n | n in o.requiredLoadIds + o.allowedNodeIds ensures WalkedUnder(d.seen, spec.scopeOf[p.id], n) {
      assert n in o.runtimeNodes + o.requiredLoadIds || n in o.allowedNodeIds;
      ClosedHolds(NodeStep(d.staticAdj, d.dynamicAdj), OwnSeeds(spec, p), inside, n);
    }
  }

  lemma {:induction false} KeptStays(w: World, names: set<Name>, spec: Spec, d: WalkData, p: ProfileSpec, o: ProcessProfile)
    requires Closed(w, names, spec, d, p, o) && ChainsKept(w, spec, Possible(w), Always(w), p)
    ensures StaysInScope(spec, d, p, o)
  {
    var l, loads, seeds := spec.scopeOf[p.id], LoadSteps(w, spec, Possible(w), spec.scopeOf[p.id]), OwnSeeds(spec, p);
    var inside := set n | n in WalkedNodes(d.seen, l) && Reachable(loads, seeds, n);
    SeenBetween(w, names, spec, d);
    forall n | n in seeds ensures n in inside {
      OwnSeedsWalked(spec, d, p, n);
      SeedReachable(loads, seeds, n);
    }
    forall n, t | n in inside && NodeStep(d.staticAdj, d.dynamicAdj)(n, t) ensures t in inside {
      ClosureStepIsLoad(w, names, spec, d, l, n, t);
      StepReachable(loads, seeds, n, t);
      if BootOf(spec, n, t) { ReachedIsSeen(w, spec, d.seen, l, t); }
    }
    ListsInside(w, names, spec, d, p, o, inside);
  }

  lemma {:induction false} StaysKept(w: World, names: set<Name>, spec: Spec, d: WalkData, p: ProfileSpec, o: ProcessProfile)
    requires Closed(w, names, spec, d, p, o) && StaysInScope(spec, d, p, o)
    ensures ChainsKept(w, spec, Always(w), Possible(w), p)
  {
    var l, loads, seeds := spec.scopeOf[p.id], LoadSteps(w, spec, Always(w), spec.scopeOf[p.id]), OwnSeeds(spec, p);
    var step := NodeStep(d.staticAdj, d.dynamicAdj);
    AllowedFromSeeds(spec, d, p, o);
    SeenBetween(w, names, spec, d);
    forall x, y | loads(x, y) ensures step(x, y) { LoadIsClosureStep(w, names, spec, d, l, x, y); }
    forall n, b | Reachable(loads, seeds, n) && BootOf(spec, n, b) ensures Under(w, spec, Possible(w), l, b) {
      StepReachable(loads, seeds, n, b);
      MoreSteps(loads, step, seeds, b);
      assert b in o.requiredLoadIds + o.allowedNodeIds;
      ReachedIsSeen(w, spec, d.seen, l, b);
    }
  }

  lemma {:induction false} SameStates(w: World, spec: Spec, p: ProfileSpec)
    requires ScopesKnown(w, spec) && InterpretersSeeded(w, SpecSeeds(w, spec)) && p.id in spec.scopeOf
    requires forall k :: k in p.entrypointIds ==> k in EntryMap(spec.entries)
    ensures ChainsKept(w, spec, Always(w), Possible(w), p) <==> ChainsKept(w, spec, Always(w), Always(w), p)
    ensures ChainsKept(w, spec, Possible(w), Always(w), p) <==> ChainsKept(w, spec, Always(w), Always(w), p)
  {
    var l, seeds := spec.scopeOf[p.id], SpecSeeds(w, spec);
    forall s ensures Reachable(Possible(w), seeds, s) <==> Reachable(Always(w), seeds, s) { GuardsIdle(w, seeds, s); }
    var some, all := LoadSteps(w, spec, Always(w), l), LoadSteps(w, spec, Possible(w), l);
    forall n ensures Reachable(all, OwnSeeds(spec, p), n) <==> Reachable(some, OwnSeeds(spec, p), n) {
      if Reachable(all, OwnSeeds(spec, p), n) { MoreSteps(all, some, OwnSeeds(spec, p), n); }
      if Reachable(some, OwnSeeds(spec, p), n) { MoreSteps(some, all, OwnSeeds(spec, p), n); }
    }
  }

  /** Required and allowed nodes were walked under the profile's scope if and only if the specification keeps the bootstrap
      chains the profile meets in that scope, where every scope comes to its artifacts' interpreters by unconditional steps.
      Without that, what the walk follows lies between `Always(w)` and `Possible(w)`, and each bounds one direction. */
  lemma {:induction false} ProfileRespectsScope(w: World, names: set<Name>, spec: Spec, d: WalkData, p: ProfileSpec, o: ProcessProfile)
    requires Closed(w, names, spec, d, p, o)
    ensures ChainsKept(w, spec, Possible(w), Always(w), p) ==> StaysInScope(spec, d, p, o)
    ensures StaysInScope(spec, d, p, o) ==> ChainsKept(w, spec, Always(w), Possible(w), p)
    ensures InterpretersSeeded(w, SpecSeeds(w, spec)) ==> (StaysInScope(spec, d, p, o) <==> ChainsKept(w, spec, Always(w), Always(w), p))
  {
    if ChainsKept(w, spec, Possible(w), Always(w), p) { KeptStays(w, names, spec, d, p, o); }
    if StaysInScope(spec, d, p, o) { StaysKept(w, names, spec, d, p, o); }
    if InterpretersSeeded(w, SpecSeeds(w, spec)) { SameStates(w, spec, p); }
  }

  /** An artifact's interpreter is a seed under every scope that comes to the artifact: say, a runtime node of that profile. */
  ghost predicate OwnInterpreters(w: World, spec: Spec)
    requires ScopesKnown(w, spec)
  {
    forall s :: Reachable(Always(w), SpecSeeds(w, spec), s) && Declares(w, s) && InterpreterOf(w.declared[s.node].provenance) != "" ==>
      var n := w.resolveNode(InterpreterOf(w.declared[s.node].provenance));
      n.Some? ==> exists p :: p in spec.scopeOf && spec.scopeOf[p] == s.scope && IsSeed(spec, p, n.value)
  }

  /** That is enough for the exact form. */
  lemma {:induction false} OwnInterpretersSeeded(w: World, spec: Spec)
    requires ScopesKnown(w, spec) && OwnInterpreters(w, spec)
    ensures InterpretersSeeded(w, SpecSeeds(w, spec))
  {
    var seeds := SpecSeeds(w, spec);
    forall s, t | Reachable(Always(w), seeds, s) && InterpreterStep(w, s, t) ensures Reachable(Always(w), seeds, t) {
      var p :| p in spec.scopeOf && spec.scopeOf[p] == s.scope && IsSeed(spec, p, t.node);
      assert t == SeedState(w, spec, (p, t.node));
      SeedReachable(Always(w), seeds, t);
    }
  }

  lemma {:induction false} ScopeKept(w: World, seeds: set<State>, l: string, path: seq<State>, i: nat)
    requires IsPath(Possible(w), path) && path[0] in seeds && i < |path| && forall s :: s in seeds ==> s.scope == l
    ensures path[i].scope == l
  {
    if i > 0 {
      ScopeKept(w, seeds, l, path, i - 1);
      assert Possible(w)(path[i - 1], path[i - 1 + 1]);
    }
  }

  lemma {:induction false} ScopeShared(w: World, names: set<Name>, d: WalkData, l: string, n: Node)
    requires Finished(w, names, d) && n in d.reached && forall s :: s in d.seeds ==> s.scope == l
    ensures WalkedUnder(d.seen, l, n)
  {
    var s :| s in d.seen && s.node == n;
    assert Pending(d.seen, [], s);
    var path :| PathTo(Possible(w), d.seeds, path, s);
    ScopeKept(w, d.seeds, l, path, |path| - 1);
  }

  /** Where all profiles share one scope, as with a single repository, the lists always stay in it. */
  lemma {:induction false} SharedScopeStays(w: World, names: set<Name>, spec: Spec, d: WalkData, p: ProfileSpec, o: ProcessProfile)
    requires Closed(w, names, spec, d, p, o) && forall q :: q in spec.scopeOf ==> spec.scopeOf[q] == spec.scopeOf[p.id]
    ensures StaysInScope(spec, d, p, o)
  {
    var l := spec.scopeOf[p.id];
    ProfileWithin(w, names, spec, d, p, o);
    forall n | n in o.requiredLoadIds + o.allowedNodeIds ensures WalkedUnder(d.seen, l, n) {
      assert n in o.runtimeNodes + o.requiredLoadIds || n in o.allowedNodeIds;
      ScopeShared(w, names, d, l, n);
    }
  }

  /** The allowed closure is what the profile's own seeds reach over both kinds of edge. */
  lemma {:induction false} AllowedFromSeeds(spec: Spec, d: WalkData, p: ProfileSpec, o: ProcessProfile)
    requires EntriesKnown(spec) && p in spec.profiles && ProfileOut(spec, p, d.staticAdj, d.dynamicAdj, o)
    ensures forall n :: n in o.allowedNodeIds <==> Reachable(NodeStep(d.staticAdj, d.dynamicAdj), OwnSeeds(spec, p), n)
  {
    var loads := EntryLoads(EntryMap(spec.entries), p.entrypointIds) + p.extraRequired;
    var seeds := OwnSeeds(spec, p);
    var step, steps := NodeStep(d.staticAdj, map[]), NodeStep(d.staticAdj, d.dynamicAdj);
    var more := Elements(p.runtimeNodes + o.requiredLoadIds + p.extraAllowed);
    forall n | n in more ensures Reachable(steps, seeds, n) {
      if n in o.requiredLoadIds {
        var path :| PathTo(step, Elements(loads), path, n);
        assert PathTo(steps, seeds, path, n);
      } else {
        SeedReachable(steps, seeds, n);
      }
    }
    forall n | n in seeds ensures Reachable(steps, more, n) {
      if n in loads { SeedReachable(step, Elements(loads), n); }
      assert n in more;
      SeedReachable(steps, more, n);
    }
    forall n | Reachable(steps, more, n) ensures Reachable(steps, seeds, n) { ReachableFromReachable(steps, more, seeds, n); }
    forall n | Reachable(steps, seeds, n) ensures Reachable(steps, more, n) { ReachableFromReachable(steps, seeds, more, n); }
  }

  /** No scope but its entrypoint's can come to a node that carries a bootstrap chain. */
  ghost predicate ChainsAtHome(w: World, spec: Spec)
    requires ScopesKnown(w, spec)
  {
    forall e, l :: e in spec.entries && e.boots != [] && Under(w, spec, Possible(w), l, e.node) ==>
      e.profileId in spec.scopeOf && l == spec.scopeOf[e.profileId]
  }

  lemma {:induction false} HomeStep(w: World, spec: Spec, d: WalkData, l: string, e: EntrySpec, b: Node)
    requires ScopesKnown(w, spec) && ChainsAtHome(w, spec) && Seeded(spec, d)
    requires e in spec.entries && b in e.boots && Under(w, spec, Possible(w), l, e.node)
    ensures WalkedUnder(d.seen, l, b)
  {
    EntrySeed(spec, d, e, b);
  }

  /** In particular the lists stay in scope under that condition. */
  lemma {:induction false} ChainsStayHome(w: World, names: set<Name>, spec: Spec, d: WalkData, p: ProfileSpec, o: ProcessProfile)
    requires Closed(w, names, spec, d, p, o) && ChainsAtHome(w, spec)
    ensures StaysInScope(spec, d, p, o)
  {
    var l, inside := spec.scopeOf[p.id], WalkedNodes(d.seen, spec.scopeOf[p.id]);
    SeenBetween(w, names, spec, d);
    forall n | n in OwnSeeds(spec, p) ensures n in inside { OwnSeedsWalked(spec, d, p, n); }
    forall n, t | n in inside && NodeStep(d.staticAdj, d.dynamicAdj)(n, t) ensures t in inside {
      ClosureStepIsLoad(w, names, spec, d, l, n, t);
      ReachedIsSeen(w, spec, d.seen, l, n);
      if e :| e in spec.entries && e.node == n && t in e.boots { HomeStep(w, spec, d, l, e, t); }
    }
    ListsInside(w, names, spec, d, p, o, inside);
  }

}
