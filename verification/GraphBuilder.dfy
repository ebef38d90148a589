/** build_reviewed_source_graph (p3_source_closure/graph_builder.py) from its checked specification on. */
module GraphBuilder {
  import opened Records
  import opened Reachability
  import opened ClosureWalk
  import opened ProfileClosures
  import opened Sorting
  import opened Text
  import ReviewedGraph

  /** Entrypoints and profiles with their references resolved to node ids. */
  datatype EntrySpec = EntrySpec(id: string, profileId: string, node: Node, symbol: string, boots: seq<Node>)
  datatype ProfileSpec = ProfileSpec(id: string, role: Role, entrypointIds: seq<string>, runtimeNodes: seq<Node>,
                                     extraRequired: seq<Node>, extraAllowed: seq<Node>, childProfiles: seq<string>,
                                     loadPolicyRef: EvidenceRef)
  /** `scopeOf` names each profile's import scope: its own, or the one shared scope of the single-repository form. */
  datatype Spec = Spec(entries: seq<EntrySpec>, profiles: seq<ProfileSpec>, scopeOf: map<string, string>)

  function EntryMap(entries: seq<EntrySpec>): (m: map<string, EntrySpec>)
    ensures forall e :: e in entries ==> e.id in m
    ensures forall k :: k in m ==> m[k] in entries && m[k].id == k
  {
    LastByHolds(entries, (x: EntrySpec) => x.id);
    LastBy(entries, (x: EntrySpec) => x.id)
  }

  function ProfileMap(profiles: seq<ProfileSpec>): (m: map<string, ProfileSpec>)
    ensures forall p :: p in profiles ==> p.id in m
    ensures forall k :: k in m ==> m[k] in profiles && m[k].id == k
  {
    LastByHolds(profiles, (x: ProfileSpec) => x.id);
    LastBy(profiles, (x: ProfileSpec) => x.id)
  }

  // -- what the specification checks establish before the walk

  ghost predicate EntryChecked(w: World, spec: Spec, e: EntrySpec) {
    e.profileId in spec.scopeOf && e.node in Nodes(w) && forall b :: b in e.boots ==> b in Nodes(w)
  }

  ghost predicate ProfileChecked(w: World, spec: Spec, p: ProfileSpec) {
    && p.id in spec.scopeOf && p.entrypointIds != [] && p.runtimeNodes != []
    && (forall k :: k in p.entrypointIds ==> k in EntryMap(spec.entries))
    && (forall c :: c in p.childProfiles ==> c in ProfileMap(spec.profiles))
    && (forall n :: n in p.runtimeNodes ==> n in w.declared)
    && (exists n :: n in p.runtimeNodes && w.declared[n].kind == Interpreter)
    && (forall n :: n in p.extraRequired + p.extraAllowed ==> n in Nodes(w))
  }

  ghost predicate Checked(w: World, spec: Spec) {
    && spec.entries != [] && spec.profiles != []
    && (forall i, j :: 0 <= i < j < |spec.entries| ==> spec.entries[i].id != spec.entries[j].id)
    && (forall i, j :: 0 <= i < j < |spec.profiles| ==> spec.profiles[i].id != spec.profiles[j].id)
    && spec.scopeOf.Keys == ProfileMap(spec.profiles).Keys
    && ScopesKnown(w, spec)
    && (forall e :: e in spec.entries ==> EntryChecked(w, spec, e))
    && (forall p :: p in spec.profiles ==> ProfileChecked(w, spec, p))
    && w.git !! w.declared.Keys
    && (forall n :: n in w.declared ==> w.declared[n].id == n)
  }

  /** What the checks leave to the final validator: no list names an id twice, and a profile's entrypoints name it. */
  ghost predicate DuplicateFree(spec: Spec) {
    && (forall e :: e in spec.entries ==> NoDuplicates(e.boots))
    && (forall p :: p in spec.profiles ==> NoDuplicates(p.entrypointIds) && NoDuplicates(p.runtimeNodes) && NoDuplicates(p.childProfiles))
  }

  ghost predicate EntriesNamed(spec: Spec, p: ProfileSpec)
    requires forall k :: k in p.entrypointIds ==> k in EntryMap(spec.entries)
  {
    forall k :: k in p.entrypointIds ==> EntryMap(spec.entries)[k].profileId == p.id
  }

  // -- seeds and bootstrap adjacency

  function EntrySeeds(entries: seq<EntrySpec>): seq<(string, Node)> {
    if entries == [] then []
    else
      var e := entries[0];
      [(e.profileId, e.node)] + SeedsUnder(e.profileId, e.boots) + EntrySeeds(entries[1..])
  }

  function ProfileSeeds(profiles: seq<ProfileSpec>): seq<(string, Node)> {
    if profiles == [] then []
    else
      var p := profiles[0];
      SeedsUnder(p.id, p.extraRequired + p.extraAllowed + p.runtimeNodes) + ProfileSeeds(profiles[1..])
  }

  function SeedsUnder(profile: string, nodes: seq<Node>): (r: seq<(string, Node)>)
    ensures forall x :: x in r <==> x.0 == profile && x.1 in nodes
  {
    if nodes == [] then [] else [(profile, nodes[0])] + SeedsUnder(profile, nodes[1..])
  }

  ghost predicate IsSeed(spec: Spec, profile: string, n: Node) {
    || (exists e :: e in spec.entries && e.profileId == profile && (n == e.node || n in e.boots))
    || (exists p :: p in spec.profiles && p.id == profile && n in p.extraRequired + p.extraAllowed + p.runtimeNodes)
  }

  lemma {:induction false} EntrySeedMembers(entries: seq<EntrySpec>, x: (string, Node))
    ensures x in EntrySeeds(entries) <==> exists e :: e in entries && e.profileId == x.0 && (x.1 == e.node || x.1 in e.boots)
  {
    if entries != [] {
      EntrySeedMembers(entries[1..], x);
      assert entries == [entries[0]] + entries[1..];
    }
  }

  lemma {:induction false} ProfileSeedMembers(profiles: seq<ProfileSpec>, x: (string, Node))
    ensures x in ProfileSeeds(profiles) <==>
            exists p :: p in profiles && p.id == x.0 && x.1 in p.extraRequired + p.extraAllowed + p.runtimeNodes
  {
    if profiles != [] {
      ProfileSeedMembers(profiles[1..], x);
      assert profiles == [profiles[0]] + profiles[1..];
    }
  }

  function SeedState(w: World, spec: Spec, x: (string, Node)): State
    requires x.0 in spec.scopeOf && spec.scopeOf[x.0] in w.scopes
  {
    var l := spec.scopeOf[x.0];
    State(l, x.1, w.scopes[l].reach(x.1))
  }

  /** The seeds are exactly the states the specification's seed nodes give, each under its scope's own name for it. */
  ghost predicate SeedsOf(w: World, spec: Spec, seeds: set<State>) {
    && ScopesKnown(w, spec)
    && forall s :: s in seeds <==> exists p :: p in spec.scopeOf && IsSeed(spec, p, s.node) && s == SeedState(w, spec, (p, s.node))
  }

  ghost function SpecSeeds(w: World, spec: Spec): (seeds: set<State>)
    requires ScopesKnown(w, spec)
    ensures SeedsOf(w, spec, seeds)
  {
    SeedPairsAreSeeds(spec);
    var seeds := set x | x in SeedPairs(spec) && x.0 in spec.scopeOf :: SeedState(w, spec, x);
    assert forall p, n :: IsSeed(spec, p, n) ==> (p, n) in SeedPairs(spec);
    seeds
  }

  lemma {:induction false} SeedsAreSpecSeeds(w: World, spec: Spec, seeds: set<State>)
    requires SeedsOf(w, spec, seeds)
    ensures seeds == SpecSeeds(w, spec)
  {
  }

  function SeedPairs(spec: Spec): seq<(string, Node)> {
    Dedup(EntrySeeds(spec.entries) + ProfileSeeds(spec.profiles))
  }

  lemma {:induction false} SeedPairsAreSeeds(spec: Spec)
    ensures forall x :: x in SeedPairs(spec) <==> IsSeed(spec, x.0, x.1)
  {
    forall x: (string, Node) ensures x in SeedPairs(spec) <==> IsSeed(spec, x.0, x.1) {
      EntrySeedMembers(spec.entries, x);
      ProfileSeedMembers(spec.profiles, x);
      assert x in EntrySeeds(spec.entries) + ProfileSeeds(spec.profiles) <==>
        x in EntrySeeds(spec.entries) || x in ProfileSeeds(spec.profiles);
    }
  }

  ghost predicate ScopesKnown(w: World, spec: Spec) {
    forall p :: p in spec.scopeOf ==> spec.scopeOf[p] in w.scopes
  }

  method StatesOf(w: World, spec: Spec, pairs: seq<(string, Node)>) returns (starts: seq<State>)
    requires ScopesKnown(w, spec) && forall x :: x in pairs ==> x.0 in spec.scopeOf
    ensures |starts| == |pairs| && forall j :: 0 <= j < |pairs| ==> pairs[j] in pairs && starts[j] == SeedState(w, spec, pairs[j])
  {
    starts := [];
    for i := 0 to |pairs|
      invariant |starts| == i && forall j :: 0 <= j < i ==> pairs[j] in pairs && starts[j] == SeedState(w, spec, pairs[j])
    {
      assert pairs[i] in pairs;
      starts := starts + [SeedState(w, spec, pairs[i])];
    }
  }

  method SeedStates(w: World, ghost names: set<Name>, spec: Spec) returns (starts: seq<State>)
    requires Bounded(w, names) && Checked(w, spec)
    ensures forall s :: s in starts ==> Known(w, names, s)
    ensures SeedsOf(w, spec, StateSet(starts))
  {
    var pairs := SeedPairs(spec);
    SeedPairsAreSeeds(spec);
    forall x | x in pairs ensures x.0 in spec.scopeOf && x.1 in Nodes(w) {
      SeedChecked(w, spec, x.0, x.1);
    }
    starts := StatesOf(w, spec, pairs);
    SeedStatesFit(w, spec, pairs, starts);
    forall s | s in starts ensures Known(w, names, s) {
      var j :| 0 <= j < |starts| && starts[j] == s;
      assert pairs[j] in pairs;
    }
  }

  lemma {:induction false} SeedStatesFit(w: World, spec: Spec, pairs: seq<(string, Node)>, starts: seq<State>)
    requires ScopesKnown(w, spec)
    requires forall x :: x in pairs <==> IsSeed(spec, x.0, x.1)
    requires forall x :: x in pairs ==> x.0 in spec.scopeOf
    requires |starts| == |pairs|
    requires forall j :: 0 <= j < |pairs| ==> pairs[j] in pairs && starts[j] == SeedState(w, spec, pairs[j])
    ensures SeedsOf(w, spec, StateSet(starts))
  {
    forall s | s in StateSet(starts)
      ensures exists p :: p in spec.scopeOf && IsSeed(spec, p, s.node) && s == SeedState(w, spec, (p, s.node))
    {
      var j :| 0 <= j < |starts| && starts[j] == s;
      assert pairs[j] == (pairs[j].0, s.node) && IsSeed(spec, pairs[j].0, s.node);
    }
    forall p, n | IsSeed(spec, p, n) && p in spec.scopeOf ensures SeedState(w, spec, (p, n)) in StateSet(starts) {
      assert (p, n) in pairs;
      var j :| 0 <= j < |pairs| && pairs[j] == (p, n);
      assert starts[j] in StateSet(starts);
    }
  }

  lemma {:induction false} SeedChecked(w: World, spec: Spec, p: string, n: Node)
    requires Checked(w, spec) && IsSeed(spec, p, n)
    ensures p in spec.scopeOf && n in Nodes(w)
  {
    if e :| e in spec.entries && e.profileId == p && (n == e.node || n in e.boots) {
      assert EntryChecked(w, spec, e);
    } else {
      var q :| q in spec.profiles && q.id == p && n in q.extraRequired + q.extraAllowed + q.runtimeNodes;
      assert ProfileChecked(w, spec, q);
    }
  }

  ghost predicate BootsOf(entries: seq<EntrySpec>, boots: Adjacency) {
    forall n, b :: b in Adj(boots, n) <==> exists e :: e in entries && e.node == n && b in e.boots
  }

  method BootEdges(source: Node, boots: seq<Node>, edges0: Edges) returns (edges: Edges)
    requires forall k :: k in edges0 ==> edges0[k] == None
    ensures forall k :: k in edges <==> k in edges0 || (k.kind == Bootstrap && k.source == source && k.target in boots)
    ensures forall k :: k in edges ==> edges[k] == None
  {
    edges := edges0;
    for j := 0 to |boots|
      invariant forall k :: k in edges <==> k in edges0 || (k.kind == Bootstrap && k.source == source && k.target in boots[..j])
      invariant forall k :: k in edges ==> edges[k] == None
    {
      var k := EdgeKey(source, boots[j], Bootstrap);
      if k !in edges { edges := edges[k := None]; }
      assert boots[..j + 1] == boots[..j] + [boots[j]];
    }
    assert boots[..|boots|] == boots;
  }

  method BootPart(w: World, entries: seq<EntrySpec>) returns (boots: Adjacency, edges: Edges)
    ensures BootsOf(entries, boots) && EdgesOf(w, boots, map[], {}, edges)
  {
    boots, edges := map[], map[];
    for i := 0 to |entries|
      invariant BootsOf(entries[..i], boots)
      invariant forall k :: k in edges <==> k.kind == Bootstrap && k.target in Adj(boots, k.source)
      invariant forall k :: k in edges ==> edges[k] == None
    {
      var e := entries[i];
      ghost var before := boots;
      if e.boots != [] { boots := boots[e.node := Adj(boots, e.node) + e.boots]; }
      edges := BootEdges(e.node, e.boots, edges);
      BootsStep(entries, i, before, boots);
      assert forall n, b :: b in Adj(boots, n) <==> b in Adj(before, n) || (n == e.node && b in e.boots);
    }
    assert entries[..|entries|] == entries;
  }

  lemma {:induction false} BootsStep(entries: seq<EntrySpec>, i: nat, boots0: Adjacency, boots: Adjacency)
    requires i < |entries| && BootsOf(entries[..i], boots0)
    requires boots == if entries[i].boots == [] then boots0 else boots0[entries[i].node := Adj(boots0, entries[i].node) + entries[i].boots]
    ensures BootsOf(entries[..i + 1], boots)
  {
    var e := entries[i];
    assert entries[..i + 1] == entries[..i] + [e];
    forall n, b ensures b in Adj(boots, n) <==> exists x :: x in entries[..i + 1] && x.node == n && b in x.boots {
      assert b in Adj(boots, n) <==> b in Adj(boots0, n) || (n == e.node && b in e.boots);
      if x :| x in entries[..i] && x.node == n && b in x.boots { assert x in entries[..i + 1]; }
      if n == e.node && b in e.boots { assert e in entries[..i + 1]; }
    }
  }

  // -- profile closures

  function EntryLoads(entries: map<string, EntrySpec>, ids: seq<string>): (r: seq<Node>)
    requires forall k :: k in ids ==> k in entries
    ensures forall n :: n in r <==> exists k :: k in ids && (n == entries[k].node || n in entries[k].boots)
  {
    if ids == [] then []
    else
      assert ids == [ids[0]] + ids[1..];
      [entries[ids[0]].node] + entries[ids[0]].boots + EntryLoads(entries, ids[1..])
  }

  function KeepRequired(closure: seq<Node>, p: ProfileSpec): (r: seq<Node>)
    ensures forall n :: n in r <==> n in closure && (n !in p.runtimeNodes || n in p.extraRequired)
    ensures NoDuplicates(closure) ==> NoDuplicates(r)
  {
    if closure == [] then []
    else
      assert closure == [closure[0]] + closure[1..];
      var rest := KeepRequired(closure[1..], p);
      assert NoDuplicates(closure) ==> closure[0] !in closure[1..] && NoDuplicates(closure[1..]);
      if closure[0] !in p.runtimeNodes || closure[0] in p.extraRequired then [closure[0]] + rest else rest
  }

  ghost predicate RequiredOf(entries: map<string, EntrySpec>, p: ProfileSpec, staticAdj: Adjacency, required: seq<Node>)
    requires forall k :: k in p.entrypointIds ==> k in entries
  {
    && NoDuplicates(required)
    && forall n :: n in required <==>
         Reachable(NodeStep(staticAdj, map[]), Elements(EntryLoads(entries, p.entrypointIds) + p.extraRequired), n)
         && (n !in p.runtimeNodes || n in p.extraRequired)
  }

  ghost predicate AllowedOf(p: ProfileSpec, staticAdj: Adjacency, dynamicAdj: Adjacency, required: seq<Node>, allowed: seq<Node>) {
    && NoDuplicates(allowed)
    && forall n :: n in allowed <==>
         Reachable(NodeStep(staticAdj, dynamicAdj), Elements(p.runtimeNodes + required + p.extraAllowed), n)
  }

  ghost predicate ProfileOut(spec: Spec, p: ProfileSpec, staticAdj: Adjacency, dynamicAdj: Adjacency, o: ProcessProfile)
    requires forall k :: k in p.entrypointIds ==> k in EntryMap(spec.entries)
  {
    && o.id == p.id && o.role == p.role && o.entrypointIds == p.entrypointIds && o.runtimeNodes == p.runtimeNodes
    && o.childProfiles == p.childProfiles && o.loadPolicyRef == p.loadPolicyRef
    && RequiredOf(EntryMap(spec.entries), p, staticAdj, o.requiredLoadIds)
    && AllowedOf(p, staticAdj, dynamicAdj, o.requiredLoadIds, o.allowedNodeIds)
  }

  method CloseProfile(spec: Spec, p: ProfileSpec, staticAdj: Adjacency, dynamicAdj: Adjacency) returns (o: ProcessProfile)
    requires forall k :: k in p.entrypointIds ==> k in EntryMap(spec.entries)
    ensures ProfileOut(spec, p, staticAdj, dynamicAdj, o)
  {
    var loads := EntryLoads(EntryMap(spec.entries), p.entrypointIds) + p.extraRequired;
    var closure := Transitive(staticAdj, map[], loads);
    var required := KeepRequired(closure, p);
    var allowed := Transitive(staticAdj, dynamicAdj, p.runtimeNodes + required + p.extraAllowed);
    o := ProcessProfile(p.id, p.role, p.entrypointIds, p.runtimeNodes, allowed, required, p.childProfiles, p.loadPolicyRef);
  }

  // -- spawn edges and the edge records

  function Pairs(parents: seq<Node>, children: seq<Node>): (r: seq<(Node, Node)>)
    ensures forall x :: x in r <==> x.0 in parents && x.1 in children
  {
    if parents == [] then []
    else
      assert parents == [parents[0]] + parents[1..];
      PairsWith(parents[0], children) + Pairs(parents[1..], children)
  }

  function PairsWith(parent: Node, children: seq<Node>): (r: seq<(Node, Node)>)
    ensures forall x :: x in r <==> x.0 == parent && x.1 in children
  {
    if children == [] then []
    else
      assert children == [children[0]] + children[1..];
      [(parent, children[0])] + PairsWith(parent, children[1..])
  }

  function EntryNodes(entries: map<string, EntrySpec>, ids: seq<string>): (r: seq<Node>)
    requires forall k :: k in ids ==> k in entries
    ensures forall n :: n in r <==> exists k :: k in ids && n == entries[k].node
  {
    if ids == [] then []
    else
      assert ids == [ids[0]] + ids[1..];
      [entries[ids[0]].node] + EntryNodes(entries, ids[1..])
  }

  ghost predicate EntriesKnown(spec: Spec) {
    forall p :: p in spec.profiles ==>
      && (forall k :: k in p.entrypointIds ==> k in EntryMap(spec.entries))
      && (forall c :: c in p.childProfiles ==> c in ProfileMap(spec.profiles))
  }

  /** `x` pairs an entry node of a profile with one of its child profile `c`. */
  ghost predicate SpawnPair(spec: Spec, p: ProfileSpec, c: string, x: (Node, Node))
    requires EntriesKnown(spec) && p in spec.profiles && c in ProfileMap(spec.profiles)
  {
    && x.0 in EntryNodes(EntryMap(spec.entries), p.entrypointIds)
    && x.1 in EntryNodes(EntryMap(spec.entries), ProfileMap(spec.profiles)[c].entrypointIds)
  }

  ghost predicate IsSpawn(spec: Spec, p: ProfileSpec, children: seq<string>, x: (Node, Node))
    requires EntriesKnown(spec) && p in spec.profiles && forall c :: c in children ==> c in ProfileMap(spec.profiles)
  {
    exists c :: c in children && SpawnPair(spec, p, c, x)
  }

  ghost predicate SpawnDue(spec: Spec, profiles: seq<ProfileSpec>, k: EdgeKey)
    requires EntriesKnown(spec) && forall p :: p in profiles ==> p in spec.profiles
  {
    k.kind == Spawns && exists p :: p in profiles && IsSpawn(spec, p, p.childProfiles, (k.source, k.target))
  }

  method AddPairs(edges0: Edges, pairs: seq<(Node, Node)>) returns (edges: Edges)
    ensures forall k :: k in edges <==> k in edges0 || (k.kind == Spawns && (k.source, k.target) in pairs)
    ensures forall k :: k in edges ==> edges[k] == if k in edges0 then edges0[k] else None
  {
    edges := edges0;
    for i := 0 to |pairs|
      invariant forall k :: k in edges <==> k in edges0 || (k.kind == Spawns && (k.source, k.target) in pairs[..i])
      invariant forall k :: k in edges ==> edges[k] == if k in edges0 then edges0[k] else None
    {
      var k := EdgeKey(pairs[i].0, pairs[i].1, Spawns);
      if k !in edges { edges := edges[k := None]; }
      assert pairs[..i + 1] == pairs[..i] + [pairs[i]];
    }
    assert pairs[..|pairs|] == pairs;
  }

  method AddChildren(spec: Spec, p: ProfileSpec, edges0: Edges) returns (edges: Edges)
    requires EntriesKnown(spec) && p in spec.profiles
    ensures forall k :: k in edges <==> k in edges0 || (k.kind == Spawns && IsSpawn(spec, p, p.childProfiles, (k.source, k.target)))
    ensures forall k :: k in edges ==> edges[k] == if k in edges0 then edges0[k] else None
  {
    edges := edges0;
    var entries, all := EntryMap(spec.entries), ProfileMap(spec.profiles);
    for i := 0 to |p.childProfiles|
      invariant forall k :: k in edges <==>
                  (k in edges0 || (k.kind == Spawns && IsSpawn(spec, p, p.childProfiles[..i], (k.source, k.target))))
      invariant forall k :: k in edges ==> edges[k] == if k in edges0 then edges0[k] else None
    {
      var c := p.childProfiles[i];
      assert all[c] in spec.profiles;
      var pairs := Pairs(EntryNodes(entries, p.entrypointIds), EntryNodes(entries, all[c].entrypointIds));
      SpawnPairsStep(spec, p, i, pairs);
      edges := AddPairs(edges, pairs);
    }
    assert p.childProfiles[..|p.childProfiles|] == p.childProfiles;
  }

  lemma {:induction false} SpawnPairsStep(spec: Spec, p: ProfileSpec, i: nat, pairs: seq<(Node, Node)>)
    requires EntriesKnown(spec) && p in spec.profiles && i < |p.childProfiles|
    requires forall x :: x in pairs <==> SpawnPair(spec, p, p.childProfiles[i], x)
    ensures forall x :: IsSpawn(spec, p, p.childProfiles[..i + 1], x) <==> IsSpawn(spec, p, p.childProfiles[..i], x) || x in pairs
  {
    var children := p.childProfiles[..i];
    assert p.childProfiles[..i + 1] == children + [p.childProfiles[i]];
    forall x ensures IsSpawn(spec, p, children + [p.childProfiles[i]], x) <==> IsSpawn(spec, p, children, x) || x in pairs {
      if c :| c in children && SpawnPair(spec, p, c, x) { assert c in children + [p.childProfiles[i]]; }
      if x in pairs { assert p.childProfiles[i] in children + [p.childProfiles[i]]; }
    }
  }

  /** The spawn edges of every profile. */
  method AddSpawns(spec: Spec, edges0: Edges) returns (edges: Edges)
    requires EntriesKnown(spec)
    ensures forall k :: k in edges <==> k in edges0 || SpawnDue(spec, spec.profiles, k)
    ensures forall k :: k in edges ==> edges[k] == if k in edges0 then edges0[k] else None
  {
    edges := edges0;
    for i := 0 to |spec.profiles|
      invariant forall k :: k in edges <==> k in edges0 || SpawnDue(spec, spec.profiles[..i], k)
      invariant forall k :: k in edges ==> edges[k] == if k in edges0 then edges0[k] else None
    {
      ghost var before := edges;
      edges := AddChildren(spec, spec.profiles[i], edges);
      SpawnDueStep(spec, i);
    }
    assert spec.profiles[..|spec.profiles|] == spec.profiles;
  }

  lemma {:induction false} SpawnDueStep(spec: Spec, i: nat)
    requires EntriesKnown(spec) && i < |spec.profiles|
    ensures var p := spec.profiles[i];
            forall k :: SpawnDue(spec, spec.profiles[..i + 1], k) <==>
              (SpawnDue(spec, spec.profiles[..i], k) || (k.kind == Spawns && IsSpawn(spec, p, p.childProfiles, (k.source, k.target))))
  {
    assert spec.profiles[..i + 1] == spec.profiles[..i] + [spec.profiles[i]];
  }

  function KindText(kind: EdgeKind): string {
    match kind
    case Bootstrap => "bootstrap"
    case Import => "import"
    case DynamicImport => "dynamic_import"
    case ResourceUse => "resource"
    case Generates => "generates"
    case GeneratedInput => "generated_input"
    case Links => "links"
    case CacheOf => "cache_of"
    case Spawns => "spawns"
  }

  /** Python's order on the tuples (source, target, kind). */
  predicate KeyLe(a: EdgeKey, b: EdgeKey) {
    if a.source != b.source then LexLe(a.source, b.source)
    else if a.target != b.target then LexLe(a.target, b.target)
    else LexLe(KindText(a.kind), KindText(b.kind))
  }

  lemma {:induction false} KeyOrder()
    ensures TotalPreorder(KeyLe)
  {
    forall a, b ensures KeyLe(a, b) || KeyLe(b, a) {
      LexLeTotal(a.source, b.source);
      LexLeTotal(a.target, b.target);
      LexLeTotal(KindText(a.kind), KindText(b.kind));
    }
    forall a, b, c | KeyLe(a, b) && KeyLe(b, c) ensures KeyLe(a, c) {
      if a.source != b.source && b.source != c.source {
        LexLeTransitive(a.source, b.source, c.source);
        LexLeTotal(a.source, b.source);
      } else if a.source == b.source == c.source && a.target != b.target && b.target != c.target {
        LexLeTransitive(a.target, b.target, c.target);
        LexLeTotal(a.target, b.target);
      } else if a.source == b.source == c.source && a.target == b.target == c.target {
        LexLeTransitive(KindText(a.kind), KindText(b.kind), KindText(c.kind));
      }
    }
  }

  function KeyOf(e: SourceEdge): EdgeKey {
    EdgeKey(e.source, e.target, e.kind)
  }

  method EdgeRecords(edges: Edges) returns (r: seq<SourceEdge>)
    ensures forall i, j :: 0 <= i < j < |r| ==> KeyOf(r[i]) != KeyOf(r[j]) && KeyLe(KeyOf(r[i]), KeyOf(r[j]))
    ensures forall k :: k in edges ==> exists e :: e in r && KeyOf(e) == k
    ensures forall e :: e in r ==> KeyOf(e) in edges && e.conditionRef == edges[KeyOf(e)]
  {
    KeyOrder();
    var keys := SortedList(edges.Keys, KeyLe);
    r := [];
    for i := 0 to |keys|
      invariant |r| == i && forall j :: 0 <= j < i ==> keys[j] in keys && KeyOf(r[j]) == keys[j] && r[j].conditionRef == edges[keys[j]]
    {
      assert keys[i] in keys;
      r := r + [SourceEdge(keys[i].source, keys[i].target, keys[i].kind, edges[keys[i]])];
    }
    forall k | k in edges ensures exists e :: e in r && KeyOf(e) == k {
      assert k in keys;
      var j :| 0 <= j < |keys| && keys[j] == k;
      assert r[j] in r;
    }
  }

  /** `sorted` of a set. */
  method SortedList<T(==,!new)>(all: set<T>, le: (T, T) -> bool) returns (r: seq<T>)
    requires TotalPreorder(le)
    ensures NoDuplicates(r) && Ordered(r, le)
    ensures forall x :: x in r <==> x in all
  {
    var list: seq<T> := [];
    var todo := all;
    while todo != {}
      invariant todo <= all && NoDuplicates(list)
      invariant forall x :: x in list <==> x in all - todo
      decreases |todo|
    {
      var x :| x in todo;
      assert forall i :: 0 <= i < |list| ==> list[i] in list;
      list, todo := list + [x], todo - {x};
    }
    r := Sort(list, le);
    SortOrdered(list, le);
    SortElements(list, le);
  }

  // -- the candidate graph

  datatype Outcome =
    | Candidate(graph: SourceGraph)
    | UnresolvedClosure(items: seq<string>)
    | ConflictingResolution(items: seq<string>)

  function RecordOf(w: World, render: Node -> SourceNode, n: Node): SourceNode
    requires n in Nodes(w)
  {
    if n in w.git then render(n) else w.declared[n]
  }

  ghost predicate NodeRecordsOf(w: World, render: Node -> SourceNode, reached: set<Node>, nodes: seq<SourceNode>) {
    && (forall i, j :: 0 <= i < j < |nodes| ==> nodes[i].id != nodes[j].id && LexLe(nodes[i].id, nodes[j].id))
    && (forall x :: x in nodes ==> x.id in reached && x.id in Nodes(w) && x == RecordOf(w, render, x.id))
    && (forall n :: n in reached ==> exists x :: x in nodes && x.id == n)
  }

  ghost predicate EdgeRecordsOf(spec: Spec, edges: Edges, r: seq<SourceEdge>)
    requires EntriesKnown(spec)
  {
    && (forall i, j :: 0 <= i < j < |r| ==> KeyOf(r[i]) != KeyOf(r[j]) && KeyLe(KeyOf(r[i]), KeyOf(r[j])))
    && (forall e :: e in r ==> var k := KeyOf(e);
          (k in edges || SpawnDue(spec, spec.profiles, k)) && e.conditionRef == if k in edges then edges[k] else None)
    && (forall k :: k in edges || SpawnDue(spec, spec.profiles, k) ==> exists e :: e in r && KeyOf(e) == k)
  }

  ghost predicate CandidateOf(w: World, spec: Spec, render: Node -> SourceNode, d: WalkData, g: SourceGraph)
    requires EntriesKnown(spec)
  {
    && NodeRecordsOf(w, render, d.reached, g.nodes)
    && EdgeRecordsOf(spec, d.edges, g.edges)
    && |g.entrypoints| == |spec.entries|
    && (forall i :: 0 <= i < |spec.entries| ==> g.entrypoints[i] == EntryRecord(spec.entries[i]))
    && |g.processProfiles| == |spec.profiles|
    && (forall i :: 0 <= i < |spec.profiles| ==>
          ProfileOut(spec, spec.profiles[i], d.staticAdj, d.dynamicAdj, g.processProfiles[i]))
    && g.completenessReviewRef == None
  }

  function EntryRecord(e: EntrySpec): Entrypoint {
    Entrypoint(e.id, e.profileId, e.node, e.symbol, e.boots)
  }

  function EntryRecords(entries: seq<EntrySpec>): (r: seq<Entrypoint>)
    ensures |r| == |entries| && forall i :: 0 <= i < |r| ==> r[i] == EntryRecord(entries[i])
  {
    seq(|entries|, i requires 0 <= i < |entries| => EntryRecord(entries[i]))
  }

  method NodeRecords(w: World, render: Node -> SourceNode, reached: set<Node>) returns (nodes: seq<SourceNode>)
    requires reached <= Nodes(w)
    requires (forall n :: n in w.git ==> render(n).id == n) && (forall n :: n in w.declared ==> w.declared[n].id == n)
    ensures NodeRecordsOf(w, render, reached, nodes)
  {
    LexOrder();
    var ids := SortedList(reached, LexLe);
    nodes := [];
    for i := 0 to |ids|
      invariant |nodes| == i
      invariant forall j :: 0 <= j < i ==> ids[j] in ids && nodes[j] == RecordOf(w, render, ids[j]) && nodes[j].id == ids[j]
    {
      assert ids[i] in ids;
      nodes := nodes + [RecordOf(w, render, ids[i])];
    }
    forall n | n in reached ensures exists x :: x in nodes && x.id == n {
      assert n in ids;
      var j :| 0 <= j < |ids| && ids[j] == n;
      assert nodes[j] in nodes;
    }
  }

  method ProfileRecords(spec: Spec, staticAdj: Adjacency, dynamicAdj: Adjacency) returns (profiles: seq<ProcessProfile>)
    requires EntriesKnown(spec)
    ensures |profiles| == |spec.profiles|
    ensures forall i :: 0 <= i < |spec.profiles| ==> ProfileOut(spec, spec.profiles[i], staticAdj, dynamicAdj, profiles[i])
  {
    profiles := [];
    for i := 0 to |spec.profiles|
      invariant |profiles| == i
      invariant forall j :: 0 <= j < i ==> ProfileOut(spec, spec.profiles[j], staticAdj, dynamicAdj, profiles[j])
    {
      var o := CloseProfile(spec, spec.profiles[i], staticAdj, dynamicAdj);
      profiles := profiles + [o];
    }
  }

  method Assemble(w: World, ghost names: set<Name>, spec: Spec, render: Node -> SourceNode, graphId: string,
                  repositories: seq<Repository>, ghost d: WalkData, reached: set<Node>, edges0: Edges,
                  staticAdj: Adjacency, dynamicAdj: Adjacency) returns (g: SourceGraph)
    requires EntriesKnown(spec) && Finished(w, names, d)
    requires (forall n :: n in w.git ==> render(n).id == n) && (forall n :: n in w.declared ==> w.declared[n].id == n)
    requires reached == d.reached && edges0 == d.edges && staticAdj == d.staticAdj && dynamicAdj == d.dynamicAdj
    ensures CandidateOf(w, spec, render, d, g) && g.repositories == repositories && g.graphId == graphId
  {
    ReachedAreNodes(w, names, d);
    var nodes := NodeRecords(w, render, reached);
    var edges := AddSpawns(spec, edges0);
    var records := EdgeRecords(edges);
    var profiles := ProfileRecords(spec, staticAdj, dynamicAdj);
    var entries := EntryRecords(spec.entries);
    g := SourceGraph(graphId, repositories, nodes, records, entries, profiles, None);
  }

  lemma {:induction false} CheckedEntriesKnown(w: World, spec: Spec)
    requires Checked(w, spec)
    ensures EntriesKnown(spec)
  {
    forall p | p in spec.profiles
      ensures forall k :: k in p.entrypointIds ==> k in EntryMap(spec.entries)
      ensures forall c :: c in p.childProfiles ==> c in ProfileMap(spec.profiles)
    {
      assert ProfileChecked(w, spec, p);
    }
  }

  /** Walk, then put the candidate together. The walk object is returned with it, for its contract. */
  method BuildCandidate(w: World, ghost names: set<Name>, spec: Spec, render: Node -> SourceNode, graphId: string,
                        repositories: seq<Repository>) returns (r: Outcome, walk: Walk)
    requires Bounded(w, names) && Checked(w, spec) && forall n :: n in w.git ==> render(n).id == n
    ensures walk.Valid() && walk.queue == [] && walk.w == w && walk.names == names
    ensures SeedsOf(w, spec, walk.seeds) && BootsOf(spec.entries, walk.boots) && EntriesKnown(spec)
    ensures r.UnresolvedClosure? <==> walk.errors != []
    ensures r.ConflictingResolution? <==> walk.errors == [] && walk.conflicts != []
    ensures if r.UnresolvedClosure? then exists s :: Stuck(w, walk.seen, s)
            else Resolved(w, walk.seen) && InterpretersReached(w, walk.reached, walk.seen, [])
    ensures !r.UnresolvedClosure? ==> (r.ConflictingResolution? <==> Disagree(w, walk.seen))
    ensures r.Candidate? ==> Finished(w, names, walk.Data()) && CandidateOf(w, spec, render, walk.Data(), r.graph)
    ensures r.Candidate? ==> r.graph.repositories == repositories && r.graph.graphId == graphId
  {
    CheckedEntriesKnown(w, spec);
    var starts := SeedStates(w, names, spec);
    var boots, bootEdges := BootPart(w, spec.entries);
    walk := new Walk(w, names, starts, boots, bootEdges);
    walk.Run();
    if walk.errors != [] {
      r := UnresolvedClosure(walk.errors);
    } else if walk.conflicts != [] {
      r := ConflictingResolution(walk.conflicts);
    } else {
      var g := Assemble(w, names, spec, render, graphId, repositories, walk.Data(), walk.reached, walk.edges,
                        walk.staticAdj, walk.dynamicAdj);
      r := Candidate(g);
    }
  }

  lemma {:induction false} ReachedAreNodes(w: World, names: set<Name>, d: WalkData)
    requires Finished(w, names, d)
    ensures d.reached <= Nodes(w)
  {
    forall n | n in d.reached ensures n in Nodes(w) {
      var s :| s in d.seen && s.node == n;
      assert Pending(d.seen, [], s);
    }
  }
}
