/** The records of a reviewed source graph (p3_source_closure/records.py) as a schema of the codec. The codec's theorems
    ask three things of a schema: wire names distinct within a class, record alternatives of a union told apart by
    literal tags, and no tag that is not a literal. Each class is shown to meet them, so a reviewed graph survives its
    wire form. The only renamed fields are the ends of an edge; the only tagged union is a node's provenance. */
module GraphSchema {
  import opened RecordCodec
  import opened CodecTheorems
  import opened RecordParser

  function OptionalRef(): Annotation { TUnion([TRecord(EvidenceRef), TNone]) }
  function Content(): Annotation { TRecord(ContentIdentity) }
  function Texts(): Annotation { TTuple(TStr) }

  function ProvenanceUnion(): Annotation {
    TUnion([TRecord(GitProvenance), TRecord(GeneratedProvenance), TRecord(ArtifactProvenance), TRecord(CachedProvenance)])
  }

  function ContentIdentityFields(): seq<Field> {
    [Field(Sha256Name, TStr), Field(ByteLength, TInt)]
  }

  function EvidenceRefFields(): seq<Field> {
    [Field(Schema, TStr), Field(ContentName, Content()), Field(Supplier, TStr), Field(RecordId, TStr)]
  }

  function RepositoryFields(): seq<Field> {
    [Field(Id, TStr), Field(Owner, TLiteral({"ops", "architecture", "qa", "temper", "systems"})),
     Field(ObjectFormatName, TLiteral({"sha1", "sha256"})), Field(Commit, TStr), Field(Tree, TStr)]
  }

  function GitProvenanceFields(): seq<Field> {
    [Field(Tag, TLiteral({"git"})), Field(RepositoryName, TStr), Field(Commit, TStr), Field(Tree, TStr), Field(Path, TStr),
     Field(Mode, TLiteral({"100644", "100755", "120000", "160000"})), Field(ObjectId, TStr), Field(MembershipRef, OptionalRef()),
     Field(TargetChain, Texts()), Field(RepresentationName, TLiteral({"regular", "symlink", "submodule", "lfs"}))]
  }

  function GeneratedProvenanceFields(): seq<Field> {
    [Field(Tag, TLiteral({"generated"})), Field(Generators, Texts()), Field(Inputs, Texts()), Field(Toolchain, Texts()),
     Field(Recipe, Content()), Field(Output, Content()), Field(ExecutionObject, Content()), Field(GenerationRef, OptionalRef())]
  }

  function ArtifactProvenanceFields(): seq<Field> {
    [Field(Tag, TLiteral({"artifact"})), Field(ArtifactName, Content()), Field(BuildName, Content()), Field(Sources, Texts()),
     Field(Dependencies, Texts()), Field(InterpreterName, TStr), Field(Abi, TStr), Field(RepresentationName, TLiteral({"bytes", "relocated", "jit"})),
     Field(LoadedRepresentation, Content()), Field(ProvenanceRef, OptionalRef())]
  }

  function CachedProvenanceFields(): seq<Field> {
    [Field(Tag, TLiteral({"cache"})), Field(SourceNodes, Texts()), Field(InterpreterName, TStr), Field(CacheFormat, TStr),
     Field(Executed, Content()), Field(ProvenanceRef, OptionalRef())]
  }

  function SourceNodeFields(): seq<Field> {
    [Field(Id, TStr),
     Field(KindName, TLiteral({"git_source", "generated", "package", "interpreter", "stdlib", "native_binary", "resource", "cached_code"})),
     Field(ContentName, Content()), Field(LogicalOrigin, TStr), Field(Mode, TStr), Field(ProvenanceName, ProvenanceUnion())]
  }

  function SourceEdgeFields(): seq<Field> {
    [Field(Source, TStr), Field(Target, TStr),
     Field(KindName, TLiteral({"bootstrap", "import", "dynamic_import", "resource", "generates", "generated_input", "links",
     "cache_of", "spawns"})),
     Field(ConditionRef, OptionalRef())]
  }

  function EntrypointFields(): seq<Field> {
    [Field(Id, TStr), Field(ProfileId, TStr), Field(Node, TStr), Field(Symbol, TStr), Field(BootstrapChain, Texts())]
  }

  function ProcessProfileFields(): seq<Field> {
    [Field(Id, TStr), Field(RoleName, TLiteral({"creator", "controller", "executor", "worker", "checker", "child", "registry", "verifier", "observer", "comparator",
                         "dispatcher"})), Field(EntrypointIds, Texts()), Field(RuntimeNodes, Texts()),
     Field(Allowed, Texts()), Field(RequiredLoadIds, Texts()), Field(ChildProfiles, Texts()), Field(LoadPolicyRef, TRecord(EvidenceRef))]
  }

  function SourceGraphFields(): seq<Field> {
    [Field(Schema, TLiteral({"p3-reviewed-source-graph/1"})), Field(GraphId, TStr), Field(Repositories, TTuple(TRecord(Repository))),
     Field(Nodes, TTuple(TRecord(SourceNode))), Field(Edges, TTuple(TRecord(SourceEdge))),
     Field(Entrypoints, TTuple(TRecord(Entrypoint))), Field(ProcessProfiles, TTuple(TRecord(ProcessProfile))),
     Field(CompletenessReviewRef, OptionalRef())]
  }

  function GraphRecords(c: Class): seq<Field> {
    match c
    case ContentIdentity => ContentIdentityFields()
    case EvidenceRef => EvidenceRefFields()
    case Repository => RepositoryFields()
    case GitProvenance => GitProvenanceFields()
    case GeneratedProvenance => GeneratedProvenanceFields()
    case ArtifactProvenance => ArtifactProvenanceFields()
    case CachedProvenance => CachedProvenanceFields()
    case SourceNode => SourceNodeFields()
    case SourceEdge => SourceEdgeFields()
    case Entrypoint => EntrypointFields()
    case ProcessProfile => ProcessProfileFields()
    case SourceGraph => SourceGraphFields()
  }

  // -- the schema is one the codec can tell apart

  function TagText(c: Class): string {
    match c
    case GitProvenance => "git"
    case GeneratedProvenance => "generated"
    case ArtifactProvenance => "artifact"
    case _ => "cache"
  }

  predicate IsProvenance(c: Class) {
    c in {GitProvenance, GeneratedProvenance, ArtifactProvenance, CachedProvenance}
  }

  lemma {:induction false} TagOf(c: Class)
    requires IsProvenance(c)
    ensures LiteralOf(GraphRecords(c), Tag) == Some({TagText(c)}) && HasField(GraphRecords(c), Tag)
  {
    assert GraphRecords(c)[0] == Field(Tag, TLiteral({TagText(c)}));
  }

  lemma {:induction false} TagTextsDiffer(a: Class, b: Class)
    requires a != b && IsProvenance(a) && IsProvenance(b)
    ensures TagText(a) != TagText(b)
  {
    assert |"git"| == 3 && |"generated"| == 9 && |"artifact"| == 8 && |"cache"| == 5;
  }

  lemma {:induction false} SingletonsApart(a: string, b: string)
    requires a != b
    ensures {a} !! {b}
  {
  }

  lemma {:induction false} ProvenanceTagsApart(a: Class, b: Class)
    requires a != b && IsProvenance(a) && IsProvenance(b)
    ensures TagsApart(GraphRecords, a, b)
  {
    TagOf(a);
    TagOf(b);
    TagTextsDiffer(a, b);
    SingletonsApart(TagText(a), TagText(b));
  }

  lemma {:induction false} ProvenanceUnionOk()
    ensures AnnotationOk(GraphRecords, ProvenanceUnion())
  {
    var alternatives := ProvenanceUnion().alternatives;
    forall i, j | 0 <= i < j < |alternatives| ensures TagsApart(GraphRecords, alternatives[i].cls, alternatives[j].cls) {
      ProvenanceTagsApart(alternatives[i].cls, alternatives[j].cls);
    }
  }

  /** Only edges rename fields, so elsewhere distinct names are distinct on the wire. */
  lemma {:induction false} OwnNames(c: Class, fields: seq<Field>)
    requires c != SourceEdge && forall i, j :: 0 <= i < j < |fields| ==> fields[i].name != fields[j].name
    ensures DistinctNames(c, fields)
  {
  }

  function EdgeWireNames(): seq<Name> { [From, To, KindName, ConditionRef] }

  lemma {:induction false} EdgeWireName(i: nat)
    requires i < 4
    ensures WireName(SourceEdge, SourceEdgeFields()[i].name) == EdgeWireNames()[i]
  {
    match i { case 0 => case 1 => case 2 => case _ => }
  }

  lemma {:induction false} SourceEdgeDistinct()
    ensures DistinctNames(SourceEdge, SourceEdgeFields())
  {
    forall i | 0 <= i < 4 ensures WireName(SourceEdge, SourceEdgeFields()[i].name) == EdgeWireNames()[i] { EdgeWireName(i); }
    assert forall i, j :: 0 <= i < j < 4 ==> EdgeWireNames()[i] != EdgeWireNames()[j];
  }

  /** The only unions are optional references, and tuples hold none. */
  predicate PlainFields(fields: seq<Field>) {
    forall i :: 0 <= i < |fields| ==>
      var a := fields[i].annotation;
      (a.TUnion? ==> a == OptionalRef()) && (a.TTuple? ==> !a.item.TUnion? && !a.item.TTuple?)
  }

  lemma {:induction false} PlainAnnotations(schema: Schema, fields: seq<Field>)
    requires PlainFields(fields)
    ensures AnnotationsOk(schema, fields)
  {
  }

  lemma {:induction false} PlainOk(schema: Schema, c: Class, fields: seq<Field>)
    requires c != SourceEdge && PlainFields(fields) && TagOk(fields)
    requires forall i, j :: 0 <= i < j < |fields| ==> fields[i].name != fields[j].name
    ensures FieldsOk(schema, c, fields)
  {
    OwnNames(c, fields);
  }

  lemma {:induction false} ContentIdentityOk()
    ensures ClassOk(GraphRecords, ContentIdentity)
  {
    assert !HasField(ContentIdentityFields(), Tag);
    PlainOk(GraphRecords, ContentIdentity, ContentIdentityFields());
  }

  lemma {:induction false} EvidenceRefOk()
    ensures ClassOk(GraphRecords, EvidenceRef)
  {
    assert !HasField(EvidenceRefFields(), Tag);
    PlainOk(GraphRecords, EvidenceRef, EvidenceRefFields());
  }

  lemma {:induction false} RepositoryOk()
    ensures ClassOk(GraphRecords, Repository)
  {
    assert !HasField(RepositoryFields(), Tag);
    PlainOk(GraphRecords, Repository, RepositoryFields());
  }

  lemma {:induction false} EntrypointOk()
    ensures ClassOk(GraphRecords, Entrypoint)
  {
    assert !HasField(EntrypointFields(), Tag);
    PlainOk(GraphRecords, Entrypoint, EntrypointFields());
  }

  lemma {:induction false} ProcessProfileOk()
    ensures ClassOk(GraphRecords, ProcessProfile)
  {
    assert !HasField(ProcessProfileFields(), Tag);
    PlainOk(GraphRecords, ProcessProfile, ProcessProfileFields());
  }

  lemma {:induction false} SourceGraphOk()
    ensures ClassOk(GraphRecords, SourceGraph)
  {
    assert !HasField(SourceGraphFields(), Tag);
    PlainOk(GraphRecords, SourceGraph, SourceGraphFields());
  }

  lemma {:induction false} GitProvenanceOk()
    ensures ClassOk(GraphRecords, GitProvenance)
  {
    TagOf(GitProvenance);
    PlainOk(GraphRecords, GitProvenance, GitProvenanceFields());
  }

  lemma {:induction false} GeneratedProvenanceOk()
    ensures ClassOk(GraphRecords, GeneratedProvenance)
  {
    TagOf(GeneratedProvenance);
    PlainOk(GraphRecords, GeneratedProvenance, GeneratedProvenanceFields());
  }

  lemma {:induction false} ArtifactProvenanceOk()
    ensures ClassOk(GraphRecords, ArtifactProvenance)
  {
    TagOf(ArtifactProvenance);
    PlainOk(GraphRecords, ArtifactProvenance, ArtifactProvenanceFields());
  }

  lemma {:induction false} CachedProvenanceOk()
    ensures ClassOk(GraphRecords, CachedProvenance)
  {
    TagOf(CachedProvenance);
    PlainOk(GraphRecords, CachedProvenance, CachedProvenanceFields());
  }

  lemma {:induction false} SourceNodeOk()
    ensures ClassOk(GraphRecords, SourceNode)
  {
    OwnNames(SourceNode, SourceNodeFields());
    ProvenanceUnionOk();
    assert !HasField(SourceNodeFields(), Tag);
  }

  lemma {:induction false} SourceEdgeOk()
    ensures ClassOk(GraphRecords, SourceEdge)
  {
    SourceEdgeDistinct();
    PlainAnnotations(GraphRecords, SourceEdgeFields());
    assert !HasField(SourceEdgeFields(), Tag);
  }

  lemma {:induction false} ClassesOk(c: Class)
    ensures ClassOk(GraphRecords, c)
  {
    match c {
      case ContentIdentity => ContentIdentityOk();
      case EvidenceRef => EvidenceRefOk();
      case Repository => RepositoryOk();
      case GitProvenance => GitProvenanceOk();
      case GeneratedProvenance => GeneratedProvenanceOk();
      case ArtifactProvenance => ArtifactProvenanceOk();
      case CachedProvenance => CachedProvenanceOk();
      case SourceNode => SourceNodeOk();
      case SourceEdge => SourceEdgeOk();
      case Entrypoint => EntrypointOk();
      case ProcessProfile => ProcessProfileOk();
      case SourceGraph => SourceGraphOk();
    }
  }

  /** The records of a reviewed graph form a schema the codec can tell apart. */
  lemma {:induction false} GraphSchemaOk()
    ensures SchemaOk(GraphRecords)
  {
    forall c ensures ClassOk(GraphRecords, c) { ClassesOk(c); }
  }

  // -- nesting

  /** How deep a record of each class nests. */
  function Rank(c: Class): nat {
    match c
    case ContentIdentity => 1
    case Repository => 1
    case EvidenceRef => 2
    case Entrypoint => 2
    case ProcessProfile => 3
    case GitProvenance => 4
    case GeneratedProvenance => 4
    case ArtifactProvenance => 4
    case CachedProvenance => 4
    case SourceEdge => 4
    case SourceNode => 6
    case SourceGraph => 8
  }

  /** A value of the annotation nests less than `r` deep. */
  predicate Nests(a: Annotation, r: nat) {
    match a
    case TUnion(alternatives) => 0 < r && forall i :: 0 <= i < |alternatives| && alternatives[i].TRecord? ==> Rank(alternatives[i].cls) + 1 < r
    case TTuple(item) => 1 < r && !item.TUnion? && !item.TTuple? && (item.TRecord? ==> Rank(item.cls) + 1 < r)
    case TRecord(c) => Rank(c) < r
    case _ => 0 < r
  }

  lemma {:induction false} FieldNests(c: Class, i: nat)
    requires i < |GraphRecords(c)|
    ensures Nests(GraphRecords(c)[i].annotation, Rank(c))
  {
  }

  /** No tuple anywhere in the value is longer than the size limit. */
  predicate Short(v: Value)
    decreases v
  {
    match v
    case Plain(_) => true
    case Tuple(items) => |items| <= MAX_GRAPH && forall i :: 0 <= i < |items| ==> Short(items[i])
    case Record(_, fields) => forall i :: 0 <= i < |fields| ==> Short(fields[i])
  }

  /** The ranks stay far below the depth limit, so only the lengths of tuples can break the limits. */
  lemma {:induction false} OnlyLengthsMatter(v: Value, a: Annotation, r: nat, depth: nat)
    requires WellTyped(GraphRecords, v, a) && Nests(a, r) && depth + r <= MAX_DEPTH + 1
    ensures Within(GraphRecords, v, a, depth) <==> Short(v)
    decreases v, if a.TUnion? then 1 else 0
  {
    match a {
      case TUnion(_) => if v.Record? { OnlyLengthsMatter(v, TRecord(v.cls), r - 1, depth + 1); }
      case TTuple(item) =>
        forall i | 0 <= i < |v.items| ensures Within(GraphRecords, v.items[i], item, depth + 1) <==> Short(v.items[i]) {
          OnlyLengthsMatter(v.items[i], item, r - 1, depth + 1);
        }
      case TRecord(c) =>
        forall i | 0 <= i < |v.fields|
          ensures Within(GraphRecords, v.fields[i], GraphRecords(c)[i].annotation, depth + 1) <==> Short(v.fields[i])
        {
          FieldNests(c, i);
          OnlyLengthsMatter(v.fields[i], GraphRecords(c)[i].annotation, Rank(c), depth + 1);
        }
      case _ =>
    }
  }

  /** A reviewed graph survives its wire form exactly when no tuple exceeds the size limit and its references agree: its nesting
      never comes near the depth limit. */
  lemma {:induction false} GraphRoundTrip(v: Value)
    requires WellTyped(GraphRecords, v, TRecord(SourceGraph))
    ensures Parsed(GraphRecords, ToWire(GraphRecords, v), SourceGraph) == Ok(v) <==> Short(v) && OneContent(v)
  {
    GraphSchemaOk();
    RecordRoundTrip(GraphRecords, v);
    OnlyLengthsMatter(v, TRecord(SourceGraph), Rank(SourceGraph) + 1, 0);
  }

  /** On the wire an edge's ends are `from` and `to`, and only there. */
  lemma {:induction false} EdgeEnds(schema: Schema, v: Value)
    requires schema(SourceEdge) == SourceEdgeFields() && v.Record? && v.cls == SourceEdge && |v.fields| == |SourceEdgeFields()|
    ensures var w := ToWire(schema, v);
            && w.Dict? && Source !in w.entries && Target !in w.entries
            && From in w.entries && w.entries[From] == ToWire(schema, v.fields[0])
            && To in w.entries && w.entries[To] == ToWire(schema, v.fields[1])
  {
    var fields := schema(SourceEdge);
    var wires := seq(|v.fields|, i requires 0 <= i < |v.fields| => ToWire(schema, v.fields[i]));
    SourceEdgeDistinct();
    EntriesKeys(SourceEdge, fields, wires);
    EntryIs(SourceEdge, fields, wires, 0);
    EntryIs(SourceEdge, fields, wires, 1);
    EdgeNames();
  }

  lemma {:induction false} EdgeNames()
    ensures var fields := SourceEdgeFields();
            && WireName(SourceEdge, fields[0].name) == From && WireName(SourceEdge, fields[1].name) == To
            && Source !in WireNames(SourceEdge, fields) && Target !in WireNames(SourceEdge, fields)
  {
  }
}
