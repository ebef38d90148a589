/** What a candidate graph records, on the specification and the visited states: its edges by kind, each with what calls for
    it, its nodes and entrypoints, and its profiles' lists as what trails along the graph's own edges lead to. Nothing here
    mentions the walk's adjacency, its edge map or its first analyses except to prove that they agree. */
module GraphMeaning {
  import opened Records
  import opened Reachability
  import opened ClosureWalk
  import opened ProfileClosures
  import opened GraphBuilder
  import opened BuilderTheorems

  // -- what calls for an edge

  ghost predicate Visited(seen: set<State>, n: Node) {
    exists s: State :: s in seen && s.node == n
  }

  ghost predicate VisitedFile(w: World, seen: set<State>, s: State) {
    s in seen && s.node in w.git && s.scope in w.scopes
  }

  ghost predicate VisitedDeclared(w: World, seen: set<State>, n: Node) {
    Visited(seen, n) && n !in w.git && n in w.declared
  }

  ghost predicate Resolves(w: World, refs: seq<string>, n: Node) {
    exists r :: r in refs && w.resolveNode(r) == Some(n)
  }

  ghost predicate ImportsFile(w: World, seen: set<State>, a: Node, b: Node) {
    exists s: State :: VisitedFile(w, seen, s) && s.node == a && b in w.scopes[s.scope].analyze(a, s.name).stat
  }

  ghost predicate LoadsFile(w: World, seen: set<State>, a: Node, b: Node, condition: EvidenceRef) {
    exists s: State :: VisitedFile(w, seen, s) && s.node == a && (b, condition) in w.scopes[s.scope].analyze(a, s.name).dyn
  }

  ghost predicate MadeFrom(w: World, seen: set<State>, input: Node, n: Node) {
    && VisitedDeclared(w, seen, n) && w.declared[n].provenance.Generated?
    && Resolves(w, w.declared[n].provenance.inputs, input)
  }

  ghost predicate MadeBy(w: World, seen: set<State>, generator: Node, n: Node) {
    && VisitedDeclared(w, seen, n) && w.declared[n].provenance.Generated?
    && Resolves(w, w.declared[n].provenance.generators, generator)
  }

  ghost predicate Caches(w: World, seen: set<State>, n: Node, source: Node) {
    && VisitedDeclared(w, seen, n) && w.declared[n].provenance.Cached?
    && Resolves(w, w.declared[n].provenance.sourceNodes, source)
  }

  ghost predicate Boots(spec: Spec, a: Node, b: Node) {
    exists e: EntrySpec :: e in spec.entries && e.node == a && b in e.boots
  }

  ghost predicate Enters(spec: Spec, p: ProfileSpec, n: Node) {
    exists e: EntrySpec :: e in spec.entries && e.id in p.entrypointIds && e.node == n
  }

  /** An entry node of a profile and one of its child profile. */
  ghost predicate Starts(spec: Spec, a: Node, b: Node) {
    exists p: ProfileSpec, c: ProfileSpec :: p in spec.profiles && c in spec.profiles && c.id in p.childProfiles && Enters(spec, p, a) && Enters(spec, c, b)
  }

  ghost predicate Called(w: World, spec: Spec, seen: set<State>, a: Node, b: Node, kind: EdgeKind, condition: Option<EvidenceRef>) {
    || (kind == Bootstrap && condition == None && Boots(spec, a, b))
    || (kind == Import && condition == None && ImportsFile(w, seen, a, b))
    || (kind == DynamicImport && condition.Some? && LoadsFile(w, seen, a, b, condition.value))
    || (kind == GeneratedInput && condition == None && MadeFrom(w, seen, a, b))
    || (kind == Generates && condition == None && MadeBy(w, seen, a, b))
    || (kind == CacheOf && condition == None && Caches(w, seen, a, b))
    || (kind == Spawns && condition == None && Starts(spec, a, b))
  }

  // -- the walk's edges

  lemma {:induction false} ImportMeans(w: World, names: set<Name>, d: WalkData, a: Node, b: Node)
    requires Finished(w, names, d)
    ensures a in d.first && b in d.first[a].stat <==> ImportsFile(w, d.seen, a, b)
  {
    if a in d.first {
      var s :| s in d.seen && s.node == a && Analyzes(w, s, d.first[a]);
      assert VisitedFile(w, d.seen, s);
    }
    if s: State :| VisitedFile(w, d.seen, s) && s.node == a && b in w.scopes[s.scope].analyze(a, s.name).stat {
      assert a in d.reached && Analyzes(w, s, d.first[a]);
    }
  }

  lemma {:induction false} LoadMeans(w: World, names: set<Name>, d: WalkData, a: Node, b: Node, c: EvidenceRef)
    requires Finished(w, names, d)
    ensures a in d.first && (b, c) in d.first[a].dyn <==> LoadsFile(w, d.seen, a, b, c)
  {
    if a in d.first {
      var s :| s in d.seen && s.node == a && Analyzes(w, s, d.first[a]);
      assert VisitedFile(w, d.seen, s);
    }
    if s: State :| VisitedFile(w, d.seen, s) && s.node == a && (b, c) in w.scopes[s.scope].analyze(a, s.name).dyn {
      assert a in d.reached && Analyzes(w, s, d.first[a]);
    }
  }

  lemma {:induction false} TargetLoaded(w: World, names: set<Name>, d: WalkData, a: Node, b: Node)
    requires Finished(w, names, d)
    ensures a in d.first && IsDynamicTarget(d.first[a].dyn, b) <==> exists c :: LoadsFile(w, d.seen, a, b, c)
  {
    if a in d.first && IsDynamicTarget(d.first[a].dyn, b) {
      var i :| 0 <= i < |d.first[a].dyn| && d.first[a].dyn[i].0 == b;
      var c := d.first[a].dyn[i].1;
      assert d.first[a].dyn[i] == (b, c);
      LoadMeans(w, names, d, a, b, c);
    }
    if c :| LoadsFile(w, d.seen, a, b, c) {
      LoadMeans(w, names, d, a, b, c);
      var i :| 0 <= i < |d.first[a].dyn| && d.first[a].dyn[i] == (b, c);
    }
  }

  lemma {:induction false} VisitedMeans(w: World, names: set<Name>, d: WalkData, n: Node)
    requires Finished(w, names, d)
    ensures n in d.reached <==> Visited(d.seen, n)
  {
  }

  lemma {:induction false} DeclaredMeans(w: World, names: set<Name>, d: WalkData, a: Node, b: Node)
    requires Finished(w, names, d)
    ensures b in d.reached && DeclaredEdge(w, b, EdgeKey(a, b, GeneratedInput)) <==> MadeFrom(w, d.seen, a, b)
    ensures b in d.reached && DeclaredEdge(w, b, EdgeKey(a, b, Generates)) <==> MadeBy(w, d.seen, a, b)
    ensures a in d.reached && DeclaredEdge(w, a, EdgeKey(a, b, CacheOf)) <==> Caches(w, d.seen, a, b)
  {
    VisitedMeans(w, names, d, a);
    VisitedMeans(w, names, d, b);
    forall refs, n ensures ResolvesFrom(w, refs, n) <==> Resolves(w, refs, n) {}
  }

  /** The walk calls for the edge, whatever its condition. */
  ghost predicate WalkCalls(w: World, spec: Spec, seen: set<State>, k: EdgeKey) {
    match k.kind
    case Bootstrap => Boots(spec, k.source, k.target)
    case Import => ImportsFile(w, seen, k.source, k.target)
    case DynamicImport => exists condition :: LoadsFile(w, seen, k.source, k.target, condition)
    case GeneratedInput => MadeFrom(w, seen, k.source, k.target)
    case Generates => MadeBy(w, seen, k.source, k.target)
    case CacheOf => Caches(w, seen, k.source, k.target)
    case _ => false
  }

  lemma {:induction false} DueMeans(w: World, names: set<Name>, spec: Spec, d: WalkData, k: EdgeKey)
    requires Finished(w, names, d) && BootsOf(spec.entries, d.boots)
    ensures EdgeDue(w, d.boots, d.first, d.reached, k) <==> WalkCalls(w, spec, d.seen, k)
  {
    assert k == EdgeKey(k.source, k.target, k.kind);
    ImportMeans(w, names, d, k.source, k.target);
    TargetLoaded(w, names, d, k.source, k.target);
    DeclaredMeans(w, names, d, k.source, k.target);
  }

  lemma {:induction false} ConditionMeans(w: World, names: set<Name>, spec: Spec, d: WalkData, k: EdgeKey, condition: Option<EvidenceRef>)
    requires Finished(w, names, d) && WalkCalls(w, spec, d.seen, k) && ConditionDue(d.first, k, condition)
    ensures Called(w, spec, d.seen, k.source, k.target, k.kind, condition)
  {
    if k.kind == DynamicImport {
      LoadMeans(w, names, d, k.source, k.target, condition.value);
    }
  }

  // -- the spawn edges

  lemma {:induction false} EntersMeans(w: World, spec: Spec, p: ProfileSpec, n: Node)
    requires Checked(w, spec) && EntriesKnown(spec) && p in spec.profiles
    ensures n in EntryNodes(EntryMap(spec.entries), p.entrypointIds) <==> Enters(spec, p, n)
  {
    var entries := EntryMap(spec.entries);
    if e: EntrySpec :| e in spec.entries && e.id in p.entrypointIds && e.node == n {
      SameEntry(w, spec, e);
    }
  }

  lemma {:induction false} SameEntry(w: World, spec: Spec, e: EntrySpec)
    requires Checked(w, spec) && e in spec.entries
    ensures e.id in EntryMap(spec.entries) && EntryMap(spec.entries)[e.id] == e
  {
    var f := EntryMap(spec.entries)[e.id];
    var i :| 0 <= i < |spec.entries| && spec.entries[i] == e;
    var j :| 0 <= j < |spec.entries| && spec.entries[j] == f;
  }

  lemma {:induction false} SameProfile(w: World, spec: Spec, p: ProfileSpec)
    requires Checked(w, spec) && p in spec.profiles
    ensures p.id in ProfileMap(spec.profiles) && ProfileMap(spec.profiles)[p.id] == p
  {
    var q := ProfileMap(spec.profiles)[p.id];
    var i :| 0 <= i < |spec.profiles| && spec.profiles[i] == p;
    var j :| 0 <= j < |spec.profiles| && spec.profiles[j] == q;
  }

  lemma {:induction false} SpawnMeans(w: World, spec: Spec, k: EdgeKey)
    requires Checked(w, spec) && EntriesKnown(spec)
    ensures SpawnDue(spec, spec.profiles, k) <==> k.kind == Spawns && Starts(spec, k.source, k.target)
  {
    var x := (k.source, k.target);
    if SpawnDue(spec, spec.profiles, k) {
      var p :| p in spec.profiles && IsSpawn(spec, p, p.childProfiles, x);
      var c :| c in p.childProfiles && SpawnPair(spec, p, c, x);
      var q := ProfileMap(spec.profiles)[c];
      EntersMeans(w, spec, p, k.source);
      EntersMeans(w, spec, q, k.target);
    }
    if k.kind == Spawns && Starts(spec, k.source, k.target) {
      var p: ProfileSpec, q: ProfileSpec :| p in spec.profiles && q in spec.profiles && q.id in p.childProfiles
                                            && Enters(spec, p, k.source) && Enters(spec, q, k.target);
      SameProfile(w, spec, q);
      EntersMeans(w, spec, p, k.source);
      EntersMeans(w, spec, q, k.target);
      assert SpawnPair(spec, p, q.id, x);
    }
  }

  // -- the records

  ghost predicate HasEdge(g: SourceGraph, a: Node, b: Node, kind: EdgeKind) {
    exists e: SourceEdge :: e in g.edges && e.source == a && e.target == b && e.kind == kind
  }

  lemma {:induction false} EdgeCalled(w: World, names: set<Name>, spec: Spec, render: Node -> SourceNode, d: WalkData, g: SourceGraph, e: SourceEdge)
    requires Built(w, names, spec, render, d, g) && e in g.edges
    ensures Called(w, spec, d.seen, e.source, e.target, e.kind, e.conditionRef)
  {
    var k := KeyOf(e);
    SpawnMeans(w, spec, k);
    DueMeans(w, names, spec, d, k);
    if k in d.edges { ConditionMeans(w, names, spec, d, k, e.conditionRef); }
  }

  lemma {:induction false} CallsAre(w: World, spec: Spec, seen: set<State>, k: EdgeKey, condition: Option<EvidenceRef>)
    requires Called(w, spec, seen, k.source, k.target, k.kind, condition)
    ensures if k.kind == Spawns then Starts(spec, k.source, k.target) else WalkCalls(w, spec, seen, k)
  {
  }

  lemma {:induction false} DueRecorded(w: World, spec: Spec, d: WalkData, g: SourceGraph, k: EdgeKey)
    requires EntriesKnown(spec) && EdgeRecordsOf(spec, d.edges, g.edges) && EdgesOf(w, d.boots, d.first, d.reached, d.edges)
    requires EdgeDue(w, d.boots, d.first, d.reached, k) || SpawnDue(spec, spec.profiles, k)
    ensures HasEdge(g, k.source, k.target, k.kind)
  {
    assert k in d.edges || SpawnDue(spec, spec.profiles, k);
    var e :| e in g.edges && KeyOf(e) == k;
  }

  lemma {:induction false} CalledEdge(w: World, names: set<Name>, spec: Spec, render: Node -> SourceNode, d: WalkData, g: SourceGraph,
                                      k: EdgeKey, condition: Option<EvidenceRef>)
    requires Built(w, names, spec, render, d, g) && Called(w, spec, d.seen, k.source, k.target, k.kind, condition)
    ensures HasEdge(g, k.source, k.target, k.kind)
  {
    CallsAre(w, spec, d.seen, k, condition);
    SpawnMeans(w, spec, k);
    DueMeans(w, names, spec, d, k);
    DueRecorded(w, spec, d, g, k);
  }

  /** The edges of a candidate are those its specification and the visited files and declared nodes call for, each once and
      under a condition they give. */
  lemma {:induction false} EdgesMean(w: World, names: set<Name>, spec: Spec, render: Node -> SourceNode, d: WalkData, g: SourceGraph)
    requires Built(w, names, spec, render, d, g)
    ensures forall e :: e in g.edges ==> Called(w, spec, d.seen, e.source, e.target, e.kind, e.conditionRef)
    ensures forall a, b, kind, condition :: Called(w, spec, d.seen, a, b, kind, condition) ==> HasEdge(g, a, b, kind)
    ensures forall i, j :: 0 <= i < j < |g.edges| ==> g.edges[i].source != g.edges[j].source || g.edges[i].target != g.edges[j].target
                                                       || g.edges[i].kind != g.edges[j].kind
  {
    forall e | e in g.edges ensures Called(w, spec, d.seen, e.source, e.target, e.kind, e.conditionRef) {
      EdgeCalled(w, names, spec, render, d, g, e);
    }
    forall a, b, kind, condition | Called(w, spec, d.seen, a, b, kind, condition) ensures HasEdge(g, a, b, kind) {
      CalledEdge(w, names, spec, render, d, g, EdgeKey(a, b, kind), condition);
    }
    forall i, j | 0 <= i < j < |g.edges|
      ensures g.edges[i].source != g.edges[j].source || g.edges[i].target != g.edges[j].target || g.edges[i].kind != g.edges[j].kind
    {
      assert KeyOf(g.edges[i]) != KeyOf(g.edges[j]);
    }
  }

  lemma {:induction false} NodeRecordsMean(w: World, render: Node -> SourceNode, reached: set<Node>, nodes: seq<SourceNode>)
    requires NodeRecordsOf(w, render, reached, nodes)
    ensures forall n :: n in reached <==> exists x: SourceNode :: x in nodes && x.id == n
    ensures forall x :: x in nodes ==> if x.id in w.git then x == render(x.id) else x.id in w.declared && x == w.declared[x.id]
    ensures forall i, j :: 0 <= i < j < |nodes| ==> nodes[i].id != nodes[j].id
  {
  }

  lemma {:induction false} EntrypointsMean(spec: Spec, entrypoints: seq<Entrypoint>, i: nat)
    requires |entrypoints| == |spec.entries| && forall i :: 0 <= i < |spec.entries| ==> entrypoints[i] == EntryRecord(spec.entries[i])
    requires i < |spec.entries|
    ensures var o, e := entrypoints[i], spec.entries[i];
            o.id == e.id && o.profileId == e.profileId && o.node == e.node && o.symbol == e.symbol && o.bootstrapChain == e.boots
  {
    assert entrypoints[i] == EntryRecord(spec.entries[i]);
  }

  /** The nodes of a candidate are the visited ones, each once, the record of a file or the declared node itself; its entrypoints
      are the specified ones. */
  lemma {:induction false} NodesMean(w: World, names: set<Name>, spec: Spec, render: Node -> SourceNode, d: WalkData, g: SourceGraph)
    requires Built(w, names, spec, render, d, g)
    ensures forall n :: Visited(d.seen, n) <==> exists x: SourceNode :: x in g.nodes && x.id == n
    ensures forall x :: x in g.nodes ==> if x.id in w.git then x == render(x.id) else x.id in w.declared && x == w.declared[x.id]
    ensures forall i, j :: 0 <= i < j < |g.nodes| ==> g.nodes[i].id != g.nodes[j].id
    ensures |g.entrypoints| == |spec.entries|
    ensures forall i :: 0 <= i < |spec.entries| ==>
              var o, e := g.entrypoints[i], spec.entries[i];
              o.id == e.id && o.profileId == e.profileId && o.node == e.node && o.symbol == e.symbol && o.bootstrapChain == e.boots
  {
    forall n ensures n in d.reached <==> Visited(d.seen, n) { VisitedMeans(w, names, d, n); }
    NodeRecordsMean(w, render, d.reached, g.nodes);
    forall i | 0 <= i < |spec.entries|
      ensures var o, e := g.entrypoints[i], spec.entries[i];
              o.id == e.id && o.profileId == e.profileId && o.node == e.node && o.symbol == e.symbol && o.bootstrapChain == e.boots
    {
      EntrypointsMean(spec, g.entrypoints, i);
    }
  }

  // -- the profiles' lists follow the graph's own edges

  ghost predicate Carries(g: SourceGraph, dynamic: bool, a: Node, b: Node) {
    HasEdge(g, a, b, Bootstrap) || HasEdge(g, a, b, Import) || (dynamic && HasEdge(g, a, b, DynamicImport))
  }

  ghost predicate Trail(g: SourceGraph, dynamic: bool, path: seq<Node>, n: Node) {
    path != [] && path[|path| - 1] == n && forall i :: 0 <= i < |path| - 1 ==> Carries(g, dynamic, path[i], path[i + 1])
  }

  /** What the profile loads at its start: its entrypoints, their bootstrap chains, and what it requires besides. */
  ghost predicate LoadsFirst(spec: Spec, p: ProfileSpec, n: Node) {
    n in p.extraRequired || exists e: EntrySpec :: e in spec.entries && e.id in p.entrypointIds && (n == e.node || n in e.boots)
  }

  ghost predicate Needed(spec: Spec, p: ProfileSpec, g: SourceGraph, n: Node) {
    && (n in p.runtimeNodes ==> n in p.extraRequired)
    && exists path :: Trail(g, false, path, n) && LoadsFirst(spec, p, path[0])
  }

  ghost predicate MayLoad(p: ProfileSpec, g: SourceGraph, required: seq<Node>, n: Node) {
    exists path :: Trail(g, true, path, n) && (path[0] in p.runtimeNodes || path[0] in required || path[0] in p.extraAllowed)
  }

  /** One step of a closure is one edge of the graph. */
  ghost predicate StepsMean(d: WalkData, g: SourceGraph, dynamic: bool) {
    forall a, b :: NodeStep(d.staticAdj, if dynamic then d.dynamicAdj else map[])(a, b) <==> Carries(g, dynamic, a, b)
  }

  ghost predicate EdgesRecorded(w: World, d: WalkData, g: SourceGraph) {
    forall k: EdgeKey :: k.kind != Spawns ==> (EdgeDue(w, d.boots, d.first, d.reached, k) <==> HasEdge(g, k.source, k.target, k.kind))
  }

  lemma {:induction false} StepMeans(w: World, d: WalkData, g: SourceGraph, dynamic: bool)
    requires AdjacencyOf(d.boots, d.first, d.staticAdj, d.dynamicAdj) && EdgesRecorded(w, d, g)
    ensures StepsMean(d, g, dynamic)
  {
    forall a, b ensures NodeStep(d.staticAdj, if dynamic then d.dynamicAdj else map[])(a, b) <==> Carries(g, dynamic, a, b) {
      assert AdjacencyAt(d.boots, d.first, d.staticAdj, d.dynamicAdj, a);
      assert EdgeDue(w, d.boots, d.first, d.reached, EdgeKey(a, b, Bootstrap)) <==> HasEdge(g, a, b, Bootstrap);
      assert EdgeDue(w, d.boots, d.first, d.reached, EdgeKey(a, b, Import)) <==> HasEdge(g, a, b, Import);
      assert EdgeDue(w, d.boots, d.first, d.reached, EdgeKey(a, b, DynamicImport)) <==> HasEdge(g, a, b, DynamicImport);
    }
  }

  lemma {:induction false} KeyMeans(w: World, spec: Spec, d: WalkData, g: SourceGraph, k: EdgeKey)
    requires EntriesKnown(spec) && EdgeRecordsOf(spec, d.edges, g.edges) && EdgesOf(w, d.boots, d.first, d.reached, d.edges)
    requires k.kind != Spawns
    ensures EdgeDue(w, d.boots, d.first, d.reached, k) <==> HasEdge(g, k.source, k.target, k.kind)
  {
    if e: SourceEdge :| e in g.edges && e.source == k.source && e.target == k.target && e.kind == k.kind { assert KeyOf(e) == k; }
    if EdgeDue(w, d.boots, d.first, d.reached, k) {
      assert k in d.edges;
      var e :| e in g.edges && KeyOf(e) == k;
    }
  }

  lemma {:induction false} BuiltSteps(w: World, names: set<Name>, spec: Spec, render: Node -> SourceNode, d: WalkData, g: SourceGraph)
    requires Built(w, names, spec, render, d, g)
    ensures StepsMean(d, g, false) && StepsMean(d, g, true)
  {
    forall k: EdgeKey | k.kind != Spawns
      ensures EdgeDue(w, d.boots, d.first, d.reached, k) <==> HasEdge(g, k.source, k.target, k.kind)
    {
      KeyMeans(w, spec, d, g, k);
    }
    StepMeans(w, d, g, false);
    StepMeans(w, d, g, true);
  }

  lemma {:induction false} TrailMeans(d: WalkData, g: SourceGraph, dynamic: bool, roots: set<Node>, n: Node)
    requires StepsMean(d, g, dynamic)
    ensures Reachable(NodeStep(d.staticAdj, if dynamic then d.dynamicAdj else map[]), roots, n) <==>
            exists path :: Trail(g, dynamic, path, n) && path[0] in roots
  {
    var step := NodeStep(d.staticAdj, if dynamic then d.dynamicAdj else map[]);
    if Reachable(step, roots, n) {
      var path :| PathTo(step, roots, path, n);
      forall i | 0 <= i < |path| - 1 ensures Carries(g, dynamic, path[i], path[i + 1]) { assert step(path[i], path[i + 1]); }
      assert Trail(g, dynamic, path, n);
    }
    if path :| Trail(g, dynamic, path, n) && path[0] in roots {
      forall i | 0 <= i < |path| - 1 ensures step(path[i], path[i + 1]) { assert Carries(g, dynamic, path[i], path[i + 1]); }
      assert PathTo(step, roots, path, n);
    }
  }

  /** An entry's id finds the entry. */
  ghost predicate ByOwnId(spec: Spec) {
    forall e :: e in spec.entries ==> e.id in EntryMap(spec.entries) && EntryMap(spec.entries)[e.id] == e
  }

  lemma {:induction false} RootsMean(spec: Spec, p: ProfileSpec, n: Node)
    requires ByOwnId(spec) && forall k :: k in p.entrypointIds ==> k in EntryMap(spec.entries)
    ensures n in Elements(EntryLoads(EntryMap(spec.entries), p.entrypointIds) + p.extraRequired) <==> LoadsFirst(spec, p, n)
  {
    var entries := EntryMap(spec.entries);
    var loads := EntryLoads(entries, p.entrypointIds);
    assert n in Elements(loads + p.extraRequired) <==> n in loads || n in p.extraRequired;
    if n in loads {
      var k :| k in p.entrypointIds && (n == entries[k].node || n in entries[k].boots);
      assert entries[k] in spec.entries && entries[k].id == k;
    }
    if e: EntrySpec :| e in spec.entries && e.id in p.entrypointIds && (n == e.node || n in e.boots) { assert entries[e.id] == e; }
  }

  lemma {:induction false} RequiredMeans(w: World, spec: Spec, d: WalkData, g: SourceGraph, p: ProfileSpec, required: seq<Node>, n: Node)
    requires Checked(w, spec) && EntriesKnown(spec) && p in spec.profiles && StepsMean(d, g, false)
    requires RequiredOf(EntryMap(spec.entries), p, d.staticAdj, required)
    ensures n in required <==> Needed(spec, p, g, n)
  {
    var first := Elements(EntryLoads(EntryMap(spec.entries), p.entrypointIds) + p.extraRequired);
    forall e | e in spec.entries ensures e.id in EntryMap(spec.entries) && EntryMap(spec.entries)[e.id] == e { SameEntry(w, spec, e); }
    forall x ensures x in first <==> LoadsFirst(spec, p, x) { RootsMean(spec, p, x); }
    TrailMeans(d, g, false, first, n);
  }

  lemma {:induction false} AllowedMeans(d: WalkData, g: SourceGraph, p: ProfileSpec, required: seq<Node>, allowed: seq<Node>, n: Node)
    requires StepsMean(d, g, true) && AllowedOf(p, d.staticAdj, d.dynamicAdj, required, allowed)
    ensures n in allowed <==> MayLoad(p, g, required, n)
  {
    var later := Elements(p.runtimeNodes + required + p.extraAllowed);
    TrailMeans(d, g, true, later, n);
  }

  /** A profile must load exactly what the graph's own bootstrap and import edges lead to from what it loads first, its runtime
      aside; and may load exactly what these and the dynamic edges lead to from its runtime, that, and its extra nodes. */
  lemma {:induction false} ListsMean(w: World, names: set<Name>, spec: Spec, render: Node -> SourceNode, d: WalkData, g: SourceGraph, i: nat)
    requires Built(w, names, spec, render, d, g) && i < |spec.profiles|
    ensures i < |g.processProfiles|
    ensures var p, o := spec.profiles[i], g.processProfiles[i];
            && o.id == p.id && o.role == p.role && o.entrypointIds == p.entrypointIds && o.runtimeNodes == p.runtimeNodes
            && o.childProfiles == p.childProfiles && o.loadPolicyRef == p.loadPolicyRef
            && (forall n :: n in o.requiredLoadIds <==> Needed(spec, p, g, n))
            && (forall n :: n in o.allowedNodeIds <==> MayLoad(p, g, o.requiredLoadIds, n))
  {
    var p, o := spec.profiles[i], g.processProfiles[i];
    assert ProfileOut(spec, p, d.staticAdj, d.dynamicAdj, o);
    BuiltSteps(w, names, spec, render, d, g);
    forall n ensures n in o.requiredLoadIds <==> Needed(spec, p, g, n) { RequiredMeans(w, spec, d, g, p, o.requiredLoadIds, n); }
    forall n ensures n in o.allowedNodeIds <==> MayLoad(p, g, o.requiredLoadIds, n) { AllowedMeans(d, g, p, o.requiredLoadIds, o.allowedNodeIds, n); }
  }
}
