/** The grammar of a reviewed graph: validate_reviewed_graph of p3_source_closure/reviewed_graph.py.
    The refusal carries one code only, so a graph is either accepted or not. */
module ReviewedGraph {
  import opened Records
  import opened Text
  import opened Sorting

  // -- lookups by id, as Python dictionaries: a later record replaces an earlier one

  function NodesById(nodes: seq<SourceNode>): (m: map<string, SourceNode>)
    ensures forall n :: n in nodes ==> n.id in m
    ensures forall k :: k in m ==> m[k] in nodes && m[k].id == k
  {
    LastByHolds(nodes, (x: SourceNode) => x.id);
    LastBy(nodes, (x: SourceNode) => x.id)
  }

  function RepositoriesById(repositories: seq<Repository>): (m: map<string, Repository>)
    ensures forall r :: r in repositories ==> r.id in m
    ensures forall k :: k in m ==> m[k] in repositories && m[k].id == k
  {
    LastByHolds(repositories, (x: Repository) => x.id);
    LastBy(repositories, (x: Repository) => x.id)
  }

  function EntriesById(entries: seq<Entrypoint>): (m: map<string, Entrypoint>)
    ensures forall e :: e in entries ==> e.id in m
    ensures forall k :: k in m ==> m[k] in entries && m[k].id == k
  {
    LastByHolds(entries, (x: Entrypoint) => x.id);
    LastBy(entries, (x: Entrypoint) => x.id)
  }

  function ProfilesById(profiles: seq<ProcessProfile>): (m: map<string, ProcessProfile>)
    ensures forall p :: p in profiles ==> p.id in m
    ensures forall k :: k in m ==> m[k] in profiles && m[k].id == k
  {
    LastByHolds(profiles, (x: ProcessProfile) => x.id);
    LastBy(profiles, (x: ProcessProfile) => x.id)
  }

  // -- spelling

  predicate IsHex(s: string) {
    forall i :: 0 <= i < |s| ==> '0' <= s[i] <= '9' || 'a' <= s[i] <= 'f'
  }

  predicate ObjectId(value: string, format: ObjectFormat) {
    |value| == (if format == Sha1 then 40 else 64) && IsHex(value)
  }

  predicate IsWord(c: char) {
    'A' <= c <= 'Z' || 'a' <= c <= 'z' || '0' <= c <= '9'
  }

  /** `[A-Za-z0-9][A-Za-z0-9._-]{0,127}` */
  predicate RecordId(key: string) {
    && 1 <= |key| <= 128 && IsWord(key[0])
    && forall i :: 0 <= i < |key| ==> IsWord(key[i]) || key[i] in {'.', '_', '-'}
  }

  predicate RepositoryPath(value: string) {
    && (forall part :: part in Split(value, '/') ==> part !in {"", ".", ".."})
    && '\\' !in value
    && forall i :: 0 <= i < |value| ==> value[i] as int >= 32 && value[i] as int != 127
  }

  // -- the checks

  /** `references(values, targets)` */
  predicate References(values: seq<string>, targets: set<string>) {
    NoDuplicates(values) && forall v :: v in values ==> v in targets
  }

  predicate DistinctIds(g: SourceGraph) {
    && (forall i, j :: 0 <= i < j < |g.repositories| ==> g.repositories[i].id != g.repositories[j].id)
    && (forall i, j :: 0 <= i < j < |g.nodes| ==> g.nodes[i].id != g.nodes[j].id)
    && (forall i, j :: 0 <= i < j < |g.processProfiles| ==> g.processProfiles[i].id != g.processProfiles[j].id)
    && (forall i, j :: 0 <= i < j < |g.entrypoints| ==> g.entrypoints[i].id != g.entrypoints[j].id)
  }

  predicate SpelledIds(g: SourceGraph) {
    && (forall r :: r in g.repositories ==> RecordId(r.id))
    && (forall n :: n in g.nodes ==> RecordId(n.id))
    && (forall p :: p in g.processProfiles ==> RecordId(p.id))
    && (forall e :: e in g.entrypoints ==> RecordId(e.id))
  }

  predicate RepositoriesOk(g: SourceGraph) {
    forall r :: r in g.repositories ==> ObjectId(r.commit, r.objectFormat) && ObjectId(r.tree, r.objectFormat)
  }

  predicate ProvenanceOk(repositories: map<string, Repository>, ids: set<string>, n: SourceNode) {
    match n.provenance
    case Git(repository, commit, tree, path, _, objectId, _, targetChain, _) =>
      && repository in repositories && RepositoryPath(path)
      && ObjectId(commit, repositories[repository].objectFormat)
      && ObjectId(tree, repositories[repository].objectFormat)
      && ObjectId(objectId, repositories[repository].objectFormat)
      && References(targetChain, ids) && n.kind in {GitSource, Resource}
    case Generated(generators, inputs, toolchain, _, _, _, _) =>
      References(generators, ids) && References(inputs, ids) && References(toolchain, ids) && n.kind == GeneratedCode
    case Cached(sources, interpreter, _, _, _) =>
      References(sources, ids) && interpreter in ids && n.kind == CachedCode
    case Artifact(_, _, sources, dependencies, interpreter, _, _, _, _) =>
      && References(sources, ids) && References(dependencies, ids) && interpreter in ids
      && n.kind in {Package, Interpreter, Stdlib, NativeBinary, Resource}
  }

  predicate EdgesOk(edges: seq<SourceEdge>, ids: set<string>) {
    && (forall i, j :: 0 <= i < j < |edges| ==>
          !(edges[i].source == edges[j].source && edges[i].target == edges[j].target && edges[i].kind == edges[j].kind))
    && (forall e :: e in edges ==> e.source in ids && e.target in ids)
  }

  predicate EntriesOk(entries: seq<Entrypoint>, ids: set<string>, profiles: set<string>) {
    forall e :: e in entries ==> References(e.bootstrapChain, ids) && e.node in ids && e.profileId in profiles
  }

  predicate ProfileLists(ids: set<string>, entries: set<string>, profiles: set<string>, p: ProcessProfile) {
    && References(p.entrypointIds, entries) && References(p.runtimeNodes, ids) && References(p.allowedNodeIds, ids)
    && References(p.requiredLoadIds, ids) && References(p.childProfiles, profiles)
    && p.entrypointIds != [] && p.runtimeNodes != []
    && (forall n :: n in p.runtimeNodes + p.requiredLoadIds ==> n in p.allowedNodeIds)
  }

  predicate HasInterpreter(nodes: map<string, SourceNode>, runtime: seq<string>) {
    exists k :: k in runtime && k in nodes && nodes[k].kind == Interpreter
  }

  predicate EntryFits(entry: Entrypoint, p: ProcessProfile) {
    && entry.profileId == p.id && entry.node in p.allowedNodeIds
    && forall b :: b in entry.bootstrapChain ==> b in p.allowedNodeIds
  }

  predicate ProfileOk(nodes: map<string, SourceNode>, entries: map<string, Entrypoint>, profiles: set<string>, p: ProcessProfile) {
    && ProfileLists(nodes.Keys, entries.Keys, profiles, p)
    && HasInterpreter(nodes, p.runtimeNodes)
    && (forall k :: k in p.entrypointIds ==> k in entries && EntryFits(entries[k], p))
  }

  predicate ProfilesOk(g: SourceGraph) {
    var nodes, entries := NodesById(g.nodes), EntriesById(g.entrypoints);
    forall p :: p in g.processProfiles ==> ProfileOk(nodes, entries, ProfilesById(g.processProfiles).Keys, p)
  }

  predicate GraphOk(g: SourceGraph) {
    var ids := NodesById(g.nodes).Keys;
    && DistinctIds(g) && g.nodes != [] && g.processProfiles != [] && g.entrypoints != []
    && SpelledIds(g) && RepositoriesOk(g)
    && (forall n :: n in g.nodes ==> ProvenanceOk(RepositoriesById(g.repositories), ids, n))
    && EdgesOk(g.edges, ids)
    && EntriesOk(g.entrypoints, ids, ProfilesById(g.processProfiles).Keys)
    && ProfilesOk(g)
  }

  lemma {:induction false} ByIdFinds(g: SourceGraph)
    requires DistinctIds(g)
    ensures forall n :: n in g.nodes ==> NodesById(g.nodes)[n.id] == n
    ensures forall r :: r in g.repositories ==> RepositoriesById(g.repositories)[r.id] == r
    ensures forall e :: e in g.entrypoints ==> EntriesById(g.entrypoints)[e.id] == e
    ensures forall p :: p in g.processProfiles ==> ProfilesById(g.processProfiles)[p.id] == p
  {
    forall n | n in g.nodes ensures NodesById(g.nodes)[n.id] == n {
      var i :| 0 <= i < |g.nodes| && g.nodes[i] == n;
      var j :| 0 <= j < |g.nodes| && g.nodes[j] == NodesById(g.nodes)[n.id];
    }
    forall r | r in g.repositories ensures RepositoriesById(g.repositories)[r.id] == r {
      var i :| 0 <= i < |g.repositories| && g.repositories[i] == r;
      var j :| 0 <= j < |g.repositories| && g.repositories[j] == RepositoriesById(g.repositories)[r.id];
    }
    forall e | e in g.entrypoints ensures EntriesById(g.entrypoints)[e.id] == e {
      var i :| 0 <= i < |g.entrypoints| && g.entrypoints[i] == e;
      var j :| 0 <= j < |g.entrypoints| && g.entrypoints[j] == EntriesById(g.entrypoints)[e.id];
    }
    forall p | p in g.processProfiles ensures ProfilesById(g.processProfiles)[p.id] == p {
      var i :| 0 <= i < |g.processProfiles| && g.processProfiles[i] == p;
      var j :| 0 <= j < |g.processProfiles| && g.processProfiles[j] == ProfilesById(g.processProfiles)[p.id];
    }
  }
}
