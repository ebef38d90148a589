/** The record codec of p3_source_closure/parsing.py: `to_wire` and `_decode`, driven by a schema of record classes. */
module RecordCodec {
  import ReviewedGraph

  // -- names, classes and annotations

  /** The field and wire names of a reviewed graph's records; `Unlisted` is any other key a document may hold. */
  datatype Name =
    | Abi | Allowed | ArtifactName | BootstrapChain | BuildName | ByteLength | CacheFormat | ChildProfiles | Commit
    | CompletenessReviewRef | ConditionRef | ContentName | Dependencies | Edges | EntrypointIds | Entrypoints
    | Executed | ExecutionObject | From | GenerationRef | Generators | GraphId | Id | Inputs | InterpreterName
    | KindName | LoadPolicyRef | LoadedRepresentation | LogicalOrigin | MembershipRef | Mode | Node | Nodes
    | ObjectFormatName | ObjectId | Output | Owner | Path | ProcessProfiles | ProfileId | ProvenanceName
    | ProvenanceRef | Recipe | RecordId | Repositories | RepositoryName | RepresentationName | RequiredLoadIds
    | RoleName | RuntimeNodes | Schema | Sha256Name | Source | SourceNodes | Sources | Supplier | Symbol | Tag
    | Target | TargetChain | To | Toolchain | Tree
    | Unlisted(text: string)

  datatype Class =
    | ContentIdentity | EvidenceRef | Repository | GitProvenance | GeneratedProvenance | ArtifactProvenance | CachedProvenance
    | SourceNode | SourceEdge | Entrypoint | ProcessProfile | SourceGraph

  datatype Annotation =
    | TStr | TInt | TBool | TNone
    | TLiteral(options: set<string>)
    | TUnion(alternatives: seq<Annotation>)
    | TTuple(item: Annotation)
    | TRecord(cls: Class)

  datatype Field = Field(name: Name, annotation: Annotation)
  type Schema = Class -> seq<Field>

  /** The two edge fields whose wire name is not their own. */
  function WireName(c: Class, name: Name): Name {
    if c == SourceEdge && name == Source then From else if c == SourceEdge && name == Target then To else name
  }

  // -- values and their wire form

  datatype Scalar = Str(text: string) | Int(number: int) | Bool(truth: bool) | Null
  datatype Value = Plain(scalar: Scalar) | Tuple(items: seq<Value>) | Record(cls: Class, fields: seq<Value>)
  /** JSON data as Python holds it; `oddKeys` marks a dict with a key that is no string, `Alien` what no annotation admits. */
  datatype Wire = Leaf(scalar: Scalar) | List(items: seq<Wire>) | Dict(entries: map<Name, Wire>, oddKeys: bool) | Alien

  datatype Code = TARGET_BINDING_INVALID | TARGET_SCHEMA_MISMATCH
  datatype Result<T> = Ok(value: T) | Refused(code: Code)

  const MAX_DEPTH: nat := 32
  const MAX_GRAPH: nat := 65536

  function Entries(c: Class, fields: seq<Field>, wires: seq<Wire>): (m: map<Name, Wire>)
    decreases |fields|
  {
    if fields == [] || |wires| != |fields| then map[]
    else
      var n := |fields| - 1;
      Entries(c, fields[..n], wires[..n])[WireName(c, fields[n].name) := wires[n]]
  }

  /** `to_wire` */
  function ToWire(schema: Schema, v: Value): Wire {
    match v
    case Plain(scalar) => Leaf(scalar)
    case Tuple(items) => List(seq(|items|, i requires 0 <= i < |items| => ToWire(schema, items[i])))
    case Record(c, fields) => Dict(Entries(c, schema(c), seq(|fields|, i requires 0 <= i < |fields| => ToWire(schema, fields[i]))), false)
  }

  // -- typing

  predicate ScalarTyped(s: Scalar, a: Annotation) {
    match a
    case TStr => s.Str? && s.text != "" && '\0' !in s.text
    case TInt => s.Int? && s.number >= 0
    case TBool => s.Bool?
    case TNone => s.Null?
    case TLiteral(options) => s.Str? && s.text in options
    case _ => false
  }

  predicate IsPrimitive(a: Annotation) {
    a.TStr? || a.TInt? || a.TBool? || a.TNone?
  }

  predicate SomePrimitive(s: Scalar, alternatives: seq<Annotation>) {
    exists a :: a in alternatives && IsPrimitive(a) && ScalarTyped(s, a)
  }

  /** `_typed`, which a record's constructor asks of every field; it does not look into nested records. */
  predicate Typed(v: Value, a: Annotation)
    decreases a
  {
    match a
    case TUnion(alternatives) => exists i :: 0 <= i < |alternatives| && Typed(v, alternatives[i])
    case TTuple(item) => v.Tuple? && forall i :: 0 <= i < |v.items| ==> Typed(v.items[i], item)
    case TRecord(c) => v.Record? && v.cls == c
    case _ => v.Plain? && ScalarTyped(v.scalar, a)
  }

  /** The content identity's digest is 64 lower-case hexadecimal digits. */
  predicate DigestOk(v: Value) {
    v.Record? && v.cls == ContentIdentity ==>
      && |v.fields| > 0 && v.fields[0].Plain? && v.fields[0].scalar.Str?
      && |v.fields[0].scalar.text| == 64 && ReviewedGraph.IsHex(v.fields[0].scalar.text)
  }

  // -- decoding

  function WireNames(c: Class, fields: seq<Field>): set<Name> {
    set f | f in fields :: WireName(c, f.name)
  }

  /** The options of the field of this name, if the class has it as a literal. */
  function LiteralOf(fields: seq<Field>, name: Name): (r: Option<set<string>>)
    ensures r.Some? ==> exists i :: 0 <= i < |fields| && fields[i] == Field(name, TLiteral(r.value))
  {
    if fields == [] then None
    else if fields[0].name == name && fields[0].annotation.TLiteral? then Some(fields[0].annotation.options)
    else
      var r := LiteralOf(fields[1..], name);
      assert r.Some? ==> exists i :: 0 <= i < |fields| && fields[i] == Field(name, TLiteral(r.value)) by {
        if r.Some? {
          var i :| 0 <= i < |fields[1..]| && fields[1..][i] == Field(name, TLiteral(r.value));
          assert fields[i + 1] == Field(name, TLiteral(r.value));
        }
      }
      r
  }
  datatype Option<T> = None | Some(value: T)

  predicate HasField(fields: seq<Field>, name: Name) {
    exists i :: 0 <= i < |fields| && fields[i].name == name
  }

  predicate HoldsOption(w: Wire, name: Name, options: set<string>) {
    w.Dict? && name in w.entries && w.entries[name].Leaf? && w.entries[name].scalar.Str? && w.entries[name].scalar.text in options
  }

  /** Whether a union hands `w` to this record class: it has no tag, or `w` carries one of its tags. */
  predicate TagFits(fields: seq<Field>, w: Wire) {
    !HasField(fields, Tag) || (var options := LiteralOf(fields, Tag); options.Some? && HoldsOption(w, Tag, options.value))
  }

  function FirstRecord(schema: Schema, alternatives: seq<Annotation>, w: Wire): (r: Option<Class>)
    ensures r.Some? ==> TRecord(r.value) in alternatives
  {
    if alternatives == [] then None
    else if alternatives[0].TRecord? && TagFits(schema(alternatives[0].cls), w) then Some(alternatives[0].cls)
    else FirstRecord(schema, alternatives[1..], w)
  }

  function Construct(schema: Schema, c: Class, fields: seq<Value>): Result<Value> {
    if |fields| == |schema(c)| && forall i :: 0 <= i < |fields| ==> Typed(fields[i], schema(c)[i].annotation)
    then Ok(Record(c, fields))
    else Refused(TARGET_BINDING_INVALID)
  }

  function SchemaRefusal(fields: seq<Field>, entries: map<Name, Wire>): Option<Code> {
    var options := LiteralOf(fields, Schema);
    if options.None? || Schema !in entries then None
    else if !(entries[Schema].Leaf? && entries[Schema].scalar.Str?) then Some(TARGET_BINDING_INVALID)
    else if entries[Schema].scalar.text !in options.value then Some(TARGET_SCHEMA_MISMATCH)
    else None
  }

  /** `_decode` */
  function Decode(schema: Schema, w: Wire, a: Annotation, depth: nat): Result<Value>
    requires depth <= MAX_DEPTH + 1
    decreases MAX_DEPTH + 1 - depth, 0
  {
    if depth > MAX_DEPTH then Refused(TARGET_BINDING_INVALID)
    else match a
      case TUnion(alternatives) =>
        if w.Leaf? && SomePrimitive(w.scalar, alternatives) then Ok(Plain(w.scalar))
        else
          var c := FirstRecord(schema, alternatives, w);
          if c.None? then Refused(TARGET_BINDING_INVALID) else Decode(schema, w, TRecord(c.value), depth + 1)
      case TTuple(item) =>
        if !w.List? || |w.items| > MAX_GRAPH then Refused(TARGET_BINDING_INVALID)
        else
          var items := DecodeAll(schema, w.items, item, depth + 1);
          if items.Refused? then Refused(items.code) else Ok(Tuple(items.value))
      case TRecord(c) =>
        if !w.Dict? || w.oddKeys || w.entries.Keys != WireNames(c, schema(c)) then Refused(TARGET_BINDING_INVALID)
        else DecodeRecord(schema, w.entries, c, depth)
      case _ => if w.Leaf? && ScalarTyped(w.scalar, a) then Ok(Plain(w.scalar)) else Refused(TARGET_BINDING_INVALID)
  }

  function DecodeRecord(schema: Schema, entries: map<Name, Wire>, c: Class, depth: nat): Result<Value>
    requires depth <= MAX_DEPTH && entries.Keys == WireNames(c, schema(c))
    decreases MAX_DEPTH - depth, |schema(c)| + 2
  {
    var refusal := SchemaRefusal(schema(c), entries);
    if refusal.Some? then Refused(refusal.value)
    else
      var fields := DecodeFields(schema, entries, c, schema(c), depth + 1);
      if fields.Refused? then Refused(fields.code)
      else
        var record := Construct(schema, c, fields.value);
        if record.Ok? && !DigestOk(record.value) then Refused(TARGET_BINDING_INVALID) else record
  }

  /** One more result before a sequence of them; the first refusal is the result. */
  function Prepend(first: Result<Value>, rest: Result<seq<Value>>): Result<seq<Value>> {
    if first.Refused? then Refused(first.code)
    else if rest.Refused? then rest
    else Ok([first.value] + rest.value)
  }

  function DecodeAll(schema: Schema, ws: seq<Wire>, a: Annotation, depth: nat): Result<seq<Value>>
    requires depth <= MAX_DEPTH + 1
    decreases MAX_DEPTH + 1 - depth, |ws| + 1
  {
    if ws == [] then Ok([])
    else
      Prepend(Decode(schema, ws[0], a, depth), DecodeAll(schema, ws[1..], a, depth))
  }

  function DecodeFields(schema: Schema, entries: map<Name, Wire>, c: Class, fields: seq<Field>, depth: nat): Result<seq<Value>>
    requires depth <= MAX_DEPTH + 1
    requires forall f :: f in fields ==> WireName(c, f.name) in entries
    decreases MAX_DEPTH + 1 - depth, |fields| + 1
  {
    if fields == [] then Ok([])
    else
      Prepend(Decode(schema, entries[WireName(c, fields[0].name)], fields[0].annotation, depth),
              DecodeFields(schema, entries, c, fields[1..], depth))
  }
}
