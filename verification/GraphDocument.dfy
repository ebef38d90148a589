/** A source graph as the record the codec reads and writes. */
module GraphDocument {
  import Records
  import ReviewedGraph
  import GraphBuilder
  import ClosureWalk
  import BuilderTheorems
  import opened RecordCodec
  import opened CodecTheorems
  import opened RecordParser
  import opened GraphSchema

  // -- the record of a graph

  function Text(s: string): Value {
    Plain(Str(s))
  }

  function TextList(s: seq<string>): Value {
    Tuple(seq(|s|, i requires 0 <= i < |s| => Text(s[i])))
  }

  function ContentValue(c: Records.ContentIdentity): Value {
    Record(ContentIdentity, [Text(c.sha256), Plain(Int(c.byteLength))])
  }

  function RefValue(r: Records.EvidenceRef): Value {
    Record(EvidenceRef, [Text(r.schema), ContentValue(r.content), Text(r.supplier), Text(r.recordId)])
  }

  function OptionalRefValue(r: Records.Option<Records.EvidenceRef>): Value {
    if r.None? then Plain(Null) else RefValue(r.value)
  }

  function FormatText(f: Records.ObjectFormat): string {
    match f case Sha1 => "sha1" case Sha256 => "sha256"
  }

  function RepositoryValue(r: Records.Repository): Value {
    Record(Repository, [Text(r.id), Text(r.owner), Text(FormatText(r.objectFormat)), Text(r.commit), Text(r.tree)])
  }

  function GitFormText(r: Records.GitRepresentation): string {
    match r case Regular => "regular" case Symlink => "symlink" case Submodule => "submodule" case Lfs => "lfs"
  }

  function FormText(r: Records.Representation): string {
    match r case Bytes => "bytes" case Relocated => "relocated" case Jit => "jit"
  }

  function ProvenanceValue(p: Records.Provenance): Value {
    match p
    case Git(repository, commit, tree, path, mode, objectId, membershipRef, targetChain, form) =>
      Record(GitProvenance, [Text("git"), Text(repository), Text(commit), Text(tree), Text(path), Text(mode), Text(objectId),
                             OptionalRefValue(membershipRef), TextList(targetChain), Text(GitFormText(form))])
    case Generated(generators, inputs, toolchain, recipe, output, execution, generationRef) =>
      Record(GeneratedProvenance, [Text("generated"), TextList(generators), TextList(inputs), TextList(toolchain), ContentValue(recipe),
                                   ContentValue(output), ContentValue(execution), OptionalRefValue(generationRef)])
    case Artifact(artifact, build, sources, dependencies, interpreter, abi, form, loaded, artifactRef) =>
      Record(ArtifactProvenance, [Text("artifact"), ContentValue(artifact), ContentValue(build), TextList(sources), TextList(dependencies),
                                  Text(interpreter), Text(abi), Text(FormText(form)), ContentValue(loaded), OptionalRefValue(artifactRef)])
    case Cached(sourceNodes, interpreter, cacheFormat, executed, cacheRef) =>
      Record(CachedProvenance, [Text("cache"), TextList(sourceNodes), Text(interpreter), Text(cacheFormat), ContentValue(executed),
                                OptionalRefValue(cacheRef)])
  }

  function NodeKindText(k: Records.NodeKind): string {
    match k
    case GitSource => "git_source"
    case GeneratedCode => "generated"
    case Package => "package"
    case Interpreter => "interpreter"
    case Stdlib => "stdlib"
    case NativeBinary => "native_binary"
    case Resource => "resource"
    case CachedCode => "cached_code"
  }

  function NodeValue(n: Records.SourceNode): Value {
    Record(SourceNode, [Text(n.id), Text(NodeKindText(n.kind)), ContentValue(n.content), Text(n.logicalOrigin), Text(n.mode),
                        ProvenanceValue(n.provenance)])
  }

  function EdgeValue(e: Records.SourceEdge): Value {
    Record(SourceEdge, [Text(e.source), Text(e.target), Text(GraphBuilder.KindText(e.kind)), OptionalRefValue(e.conditionRef)])
  }

  function EntryValue(e: Records.Entrypoint): Value {
    Record(Entrypoint, [Text(e.id), Text(e.profileId), Text(e.node), Text(e.symbol), TextList(e.bootstrapChain)])
  }

  function RoleText(r: Records.Role): string {
    match r
    case Creator => "creator"
    case Controller => "controller"
    case Executor => "executor"
    case Worker => "worker"
    case Checker => "checker"
    case Child => "child"
    case Registry => "registry"
    case Verifier => "verifier"
    case Observer => "observer"
    case Comparator => "comparator"
    case Dispatcher => "dispatcher"
  }

  function ProfileValue(p: Records.ProcessProfile): Value {
    Record(ProcessProfile, [Text(p.id), Text(RoleText(p.role)), TextList(p.entrypointIds), TextList(p.runtimeNodes),
                            TextList(p.allowedNodeIds), TextList(p.requiredLoadIds), TextList(p.childProfiles), RefValue(p.loadPolicyRef)])
  }

  function ListValue<T>(s: seq<T>, value: T -> Value): Value {
    Tuple(seq(|s|, i requires 0 <= i < |s| => value(s[i])))
  }

  function GraphValue(g: Records.SourceGraph): Value {
    Record(SourceGraph, [Text("p3-reviewed-source-graph/1"), Text(g.graphId), ListValue(g.repositories, RepositoryValue),
                         ListValue(g.nodes, NodeValue), ListValue(g.edges, EdgeValue), ListValue(g.entrypoints, EntryValue),
                         ListValue(g.processProfiles, ProfileValue), OptionalRefValue(g.completenessReviewRef)])
  }

  function WireOf(g: Records.SourceGraph): Wire {
    ToWire(GraphRecords, GraphValue(g))
  }

  // -- the record tells everything about the graph

  lemma {:induction false} TextListTells(a: seq<string>, b: seq<string>)
    requires TextList(a) == TextList(b)
    ensures a == b
  {
    var x, y := TextList(a).items, TextList(b).items;
    forall i | 0 <= i < |a| && i < |b| ensures a[i] == b[i] { assert x[i] == y[i]; }
    assert |a| == |x| && |b| == |y|;
  }

  lemma {:induction false} OptionalRefTells(a: Records.Option<Records.EvidenceRef>, b: Records.Option<Records.EvidenceRef>)
    requires OptionalRefValue(a) == OptionalRefValue(b)
    ensures a == b
  {
  }

  lemma {:induction false} ListTells<T(!new)>(a: seq<T>, b: seq<T>, value: T -> Value)
    requires ListValue(a, value) == ListValue(b, value) && forall x, y :: value(x) == value(y) ==> x == y
    ensures a == b
  {
    var u, v := ListValue(a, value).items, ListValue(b, value).items;
    assert |a| == |u| && |b| == |v|;
    forall i | 0 <= i < |a| ensures a[i] == b[i] { assert u[i] == v[i]; }
  }

  lemma {:induction false} RepositoryTells(a: Records.Repository, b: Records.Repository)
    requires RepositoryValue(a) == RepositoryValue(b)
    ensures a == b
  {
    assert FormatText(a.objectFormat) == FormatText(b.objectFormat);
    assert "sha1"[3] != "sha256"[3];
  }

  lemma {:induction false} ProvenanceTells(a: Records.Provenance, b: Records.Provenance)
    requires ProvenanceValue(a) == ProvenanceValue(b)
    ensures a == b
  {
    assert ProvenanceValue(a).cls == ProvenanceValue(b).cls;
    var u, v := ProvenanceValue(a).fields, ProvenanceValue(b).fields;
    match a {
      case Git(_, _, _, _, _, _, membershipRef, targetChain, form) =>
        TextListTells(targetChain, b.targetChain);
        OptionalRefTells(membershipRef, b.membershipRef);
        assert u[9] == v[9] && GitFormText(form) == GitFormText(b.gitRepresentation);
      case Generated(generators, inputs, toolchain, _, _, _, generationRef) =>
        TextListTells(generators, b.generators);
        TextListTells(inputs, b.inputs);
        TextListTells(toolchain, b.toolchain);
        OptionalRefTells(generationRef, b.generationRef);
      case Artifact(_, _, sources, dependencies, _, _, form, _, artifactRef) =>
        TextListTells(sources, b.sources);
        TextListTells(dependencies, b.dependencies);
        OptionalRefTells(artifactRef, b.artifactRef);
        assert u[7] == v[7] && FormText(form) == FormText(b.representation);
      case Cached(sourceNodes, _, _, _, cacheRef) =>
        TextListTells(sourceNodes, b.sourceNodes);
        OptionalRefTells(cacheRef, b.cacheRef);
    }
  }

  lemma {:induction false} NodeTells(a: Records.SourceNode, b: Records.SourceNode)
    requires NodeValue(a) == NodeValue(b)
    ensures a == b
  {
    ProvenanceTells(a.provenance, b.provenance);
  }

  lemma {:induction false} EdgeTells(a: Records.SourceEdge, b: Records.SourceEdge)
    requires EdgeValue(a) == EdgeValue(b)
    ensures a == b
  {
    OptionalRefTells(a.conditionRef, b.conditionRef);
  }

  lemma {:induction false} EntryTells(a: Records.Entrypoint, b: Records.Entrypoint)
    requires EntryValue(a) == EntryValue(b)
    ensures a == b
  {
    TextListTells(a.bootstrapChain, b.bootstrapChain);
  }

  lemma {:induction false} RolesTell(a: Records.Role, b: Records.Role)
    requires RoleText(a) == RoleText(b)
    ensures a == b
  {
    var x, y := RoleText(a), RoleText(b);
    assert |x| == |y| && x[0] == y[0] && x[|x| - 1] == y[|y| - 1] && x[1] == y[1];
  }

  lemma {:induction false} ProfileTells(a: Records.ProcessProfile, b: Records.ProcessProfile)
    requires ProfileValue(a) == ProfileValue(b)
    ensures a == b
  {
    var u, v := ProfileValue(a).fields, ProfileValue(b).fields;
    assert u[1] == v[1] && u[2] == v[2] && u[3] == v[3] && u[4] == v[4] && u[5] == v[5] && u[6] == v[6] && u[7] == v[7];
    RolesTell(a.role, b.role);
    TextListTells(a.entrypointIds, b.entrypointIds);
    TextListTells(a.runtimeNodes, b.runtimeNodes);
    TextListTells(a.allowedNodeIds, b.allowedNodeIds);
    TextListTells(a.requiredLoadIds, b.requiredLoadIds);
    TextListTells(a.childProfiles, b.childProfiles);
  }

  lemma {:induction false} ListsTell(a: Records.SourceGraph, b: Records.SourceGraph)
    requires ListValue(a.repositories, RepositoryValue) == ListValue(b.repositories, RepositoryValue)
    requires ListValue(a.nodes, NodeValue) == ListValue(b.nodes, NodeValue) && ListValue(a.edges, EdgeValue) == ListValue(b.edges, EdgeValue)
    requires ListValue(a.entrypoints, EntryValue) == ListValue(b.entrypoints, EntryValue)
    requires ListValue(a.processProfiles, ProfileValue) == ListValue(b.processProfiles, ProfileValue)
    ensures a.repositories == b.repositories && a.nodes == b.nodes && a.edges == b.edges
    ensures a.entrypoints == b.entrypoints && a.processProfiles == b.processProfiles
  {
    forall x, y | RepositoryValue(x) == RepositoryValue(y) ensures x == y { RepositoryTells(x, y); }
    forall x, y | NodeValue(x) == NodeValue(y) ensures x == y { NodeTells(x, y); }
    forall x, y | EdgeValue(x) == EdgeValue(y) ensures x == y { EdgeTells(x, y); }
    forall x, y | EntryValue(x) == EntryValue(y) ensures x == y { EntryTells(x, y); }
    forall x, y | ProfileValue(x) == ProfileValue(y) ensures x == y { ProfileTells(x, y); }
    ListTells(a.repositories, b.repositories, RepositoryValue);
    ListTells(a.nodes, b.nodes, NodeValue);
    ListTells(a.edges, b.edges, EdgeValue);
    ListTells(a.entrypoints, b.entrypoints, EntryValue);
    ListTells(a.processProfiles, b.processProfiles, ProfileValue);
  }

  lemma {:induction false} GraphTells(a: Records.SourceGraph, b: Records.SourceGraph)
    requires GraphValue(a) == GraphValue(b)
    ensures a == b
  {
    var u, v := GraphValue(a).fields, GraphValue(b).fields;
    assert u[1] == v[1] && u[2] == v[2] && u[3] == v[3] && u[4] == v[4] && u[5] == v[5] && u[6] == v[6] && u[7] == v[7];
    ListsTell(a, b);
    OptionalRefTells(a.completenessReviewRef, b.completenessReviewRef);
  }

  // -- decoding

  /** What decoding asks of a graph: typed fields, no overlong tuple, one content per evidence reference. */
  ghost predicate Documented(g: Records.SourceGraph) {
    WellTyped(GraphRecords, GraphValue(g), TRecord(SourceGraph)) && Short(GraphValue(g)) && OneContent(GraphValue(g))
  }

  lemma {:induction false} DocumentDecodes(g: Records.SourceGraph)
    ensures Parsed(GraphRecords, WireOf(g), SourceGraph) == Ok(GraphValue(g)) <==> Documented(g)
  {
    GraphSchemaOk();
    DecodeExact(GraphRecords, WireOf(g), TRecord(SourceGraph), 0, GraphValue(g));
    if WellTyped(GraphRecords, GraphValue(g), TRecord(SourceGraph)) { GraphRoundTrip(GraphValue(g)); }
  }

  /** Two graphs that can be read back and have one wire form are one graph, so an injective identity of documents tells them apart. */
  lemma {:induction false} DocumentTells(a: Records.SourceGraph, b: Records.SourceGraph)
    requires Documented(a) && Documented(b) && WireOf(a) == WireOf(b)
    ensures a == b
  {
    DocumentDecodes(a);
    DocumentDecodes(b);
    GraphTells(a, b);
  }

  /** What validate_reviewed_graph accepts: the graph's wire form reads back as the graph, which keeps the grammar. */
  ghost predicate Validated(g: Records.SourceGraph) {
    Parsed(GraphRecords, WireOf(g), SourceGraph) == Ok(GraphValue(g)) && ReviewedGraph.GraphOk(g)
  }

  /** The validator accepts a candidate exactly when decoding and grammar find nothing: the one a matter of its fields and
      sizes, the other of its specification. */
  lemma {:induction false} CandidateValidated(w: ClosureWalk.World, names: set<ClosureWalk.Name>, spec: GraphBuilder.Spec,
                                              render: ClosureWalk.Node -> Records.SourceNode, d: ClosureWalk.WalkData, g: Records.SourceGraph)
    requires BuilderTheorems.Built(w, names, spec, render, d, g) && BuilderTheorems.NothingUnresolved(w, d) && BuilderTheorems.IdsResolve(w)
    requires forall n :: n in w.git ==> render(n).provenance.Git?
    ensures Validated(g) <==> Documented(g) && BuilderTheorems.Acceptable(w, spec, d, g)
  {
    DocumentDecodes(g);
    BuilderTheorems.GraphAccepted(w, names, spec, render, d, g);
  }
}
