/** `_decode` undoes `to_wire`: it accepts exactly the wire forms of well-typed records within the limits. */
module CodecTheorems {
  import opened RecordCodec

  // -- schemas the codec can tell records apart with

  ghost predicate DistinctNames(c: Class, fields: seq<Field>) {
    forall i, j :: 0 <= i < j < |fields| ==> WireName(c, fields[i].name) != WireName(c, fields[j].name)
  }

  /** Two record alternatives carry literal tags with no option in common. */
  ghost predicate TagsApart(schema: Schema, a: Class, b: Class) {
    var x, y := LiteralOf(schema(a), Tag), LiteralOf(schema(b), Tag);
    x.Some? && y.Some? && HasField(schema(a), Tag) && x.value !! y.value
  }

  ghost predicate AnnotationOk(schema: Schema, a: Annotation)
    decreases a
  {
    match a
    case TUnion(alternatives) =>
      && (forall i :: 0 <= i < |alternatives| ==> IsPrimitive(alternatives[i]) || alternatives[i].TRecord?)
      && (forall i, j :: 0 <= i < j < |alternatives| && alternatives[i].TRecord? && alternatives[j].TRecord? ==>
            TagsApart(schema, alternatives[i].cls, alternatives[j].cls))
    case TTuple(item) => AnnotationOk(schema, item)
    case _ => true
  }

  ghost predicate AnnotationsOk(schema: Schema, fields: seq<Field>) {
    forall i :: 0 <= i < |fields| ==> AnnotationOk(schema, fields[i].annotation)
  }

  predicate TagOk(fields: seq<Field>) {
    HasField(fields, Tag) ==> LiteralOf(fields, Tag).Some?
  }

  /** Distinct wire names, distinguishable unions, and a tag only as a literal. */
  ghost predicate FieldsOk(schema: Schema, c: Class, fields: seq<Field>) {
    DistinctNames(c, fields) && AnnotationsOk(schema, fields) && TagOk(fields)
  }

  ghost predicate ClassOk(schema: Schema, c: Class) {
    FieldsOk(schema, c, schema(c))
  }

  ghost predicate SchemaOk(schema: Schema) {
    forall c :: ClassOk(schema, c)
  }

  // -- well-typed values and the limits

  /** Every field, at every depth, has the type its class declares; digests are digests. */
  ghost predicate WellTyped(schema: Schema, v: Value, a: Annotation)
    decreases v, if a.TUnion? then 1 else 0
  {
    match a
    case TUnion(alternatives) =>
      || (v.Plain? && SomePrimitive(v.scalar, alternatives))
      || (v.Record? && TRecord(v.cls) in alternatives && WellTyped(schema, v, TRecord(v.cls)))
    case TTuple(item) => v.Tuple? && forall i :: 0 <= i < |v.items| ==> WellTyped(schema, v.items[i], item)
    case TRecord(c) =>
      && v.Record? && v.cls == c && |v.fields| == |schema(c)| && DigestOk(v)
      && forall i :: 0 <= i < |v.fields| ==> WellTyped(schema, v.fields[i], schema(c)[i].annotation)
    case _ => v.Plain? && ScalarTyped(v.scalar, a)
  }

  /** Nesting stays within the depth limit and no tuple is longer than the size limit. */
  ghost predicate Within(schema: Schema, v: Value, a: Annotation, depth: nat)
    decreases v, if a.TUnion? then 1 else 0
  {
    && depth <= MAX_DEPTH
    && match v
       case Plain(_) => true
       case Tuple(items) => a.TTuple? ==> |items| <= MAX_GRAPH && forall i :: 0 <= i < |items| ==> Within(schema, items[i], a.item, depth + 1)
       case Record(c, fields) =>
         if a.TUnion? then Within(schema, v, TRecord(c), depth + 1)
         else forall i :: 0 <= i < |fields| && i < |schema(c)| ==> Within(schema, fields[i], schema(c)[i].annotation, depth + 1)
  }

  // -- the pieces of a document

  lemma {:induction false} EntriesKeys(c: Class, fields: seq<Field>, wires: seq<Wire>)
    requires |wires| == |fields|
    ensures Entries(c, fields, wires).Keys == WireNames(c, fields)
    decreases |fields|
  {
    if fields != [] {
      var n := |fields| - 1;
      EntriesKeys(c, fields[..n], wires[..n]);
      assert fields == fields[..n] + [fields[n]];
      assert WireNames(c, fields) == WireNames(c, fields[..n]) + {WireName(c, fields[n].name)};
    }
  }

  lemma {:induction false} EntryIs(c: Class, fields: seq<Field>, wires: seq<Wire>, i: nat)
    requires DistinctNames(c, fields) && |wires| == |fields| && i < |fields|
    ensures var k := WireName(c, fields[i].name); k in Entries(c, fields, wires) && Entries(c, fields, wires)[k] == wires[i]
    decreases |fields|
  {
    var n := |fields| - 1;
    if i < n { EntryIs(c, fields[..n], wires[..n], i); }
  }

  /** Two dictionaries over a class's names are equal when they agree field by field. */
  lemma {:induction false} SameEntries(c: Class, fields: seq<Field>, m: map<Name, Wire>, wires: seq<Wire>)
    requires DistinctNames(c, fields) && |wires| == |fields|
    requires m.Keys == WireNames(c, fields)
    ensures m == Entries(c, fields, wires) <==> forall i :: 0 <= i < |fields| ==> m[WireName(c, fields[i].name)] == wires[i]
  {
    EntriesKeys(c, fields, wires);
    var e := Entries(c, fields, wires);
    forall i | 0 <= i < |fields| ensures WireName(c, fields[i].name) in e && e[WireName(c, fields[i].name)] == wires[i] {
      EntryIs(c, fields, wires, i);
    }
    if forall i :: 0 <= i < |fields| ==> m[WireName(c, fields[i].name)] == wires[i] {
      forall k | k in m ensures m[k] == e[k] {
        var f :| f in fields && k == WireName(c, f.name);
        var i :| 0 <= i < |fields| && fields[i] == f;
      }
    }
  }

  lemma {:induction false} PrependOk(first: Result<Value>, rest: Result<seq<Value>>, vs: seq<Value>)
    ensures Prepend(first, rest) == Ok(vs) <==> vs != [] && first == Ok(vs[0]) && rest == Ok(vs[1..])
  {
    if first.Ok? && rest.Ok? {
      var both := [first.value] + rest.value;
      assert both[0] == first.value && both[1..] == rest.value;
      if vs != [] { assert vs == [vs[0]] + vs[1..]; }
    }
  }

  ghost predicate ItemsDecoded(schema: Schema, ws: seq<Wire>, a: Annotation, depth: nat, vs: seq<Value>)
    requires depth <= MAX_DEPTH + 1
  {
    |vs| == |ws| && forall i :: 0 <= i < |ws| ==> Decode(schema, ws[i], a, depth) == Ok(vs[i])
  }

  lemma {:induction false} AllDecoded(schema: Schema, ws: seq<Wire>, a: Annotation, depth: nat, vs: seq<Value>)
    requires depth <= MAX_DEPTH + 1
    ensures DecodeAll(schema, ws, a, depth) == Ok(vs) <==> ItemsDecoded(schema, ws, a, depth, vs)
  {
    if ws != [] {
      PrependOk(Decode(schema, ws[0], a, depth), DecodeAll(schema, ws[1..], a, depth), vs);
      if vs != [] {
        var tail, rest := ws[1..], vs[1..];
        AllDecoded(schema, tail, a, depth, rest);
        if Decode(schema, ws[0], a, depth) == Ok(vs[0]) && ItemsDecoded(schema, tail, a, depth, rest) {
          forall i | 0 <= i < |ws| ensures Decode(schema, ws[i], a, depth) == Ok(vs[i]) {
            if i > 0 { assert ws[i] == tail[i - 1] && vs[i] == rest[i - 1]; }
          }
        }
        if ItemsDecoded(schema, ws, a, depth, vs) {
          assert forall i :: 0 <= i < |tail| ==> tail[i] == ws[i + 1] && rest[i] == vs[i + 1];
        }
      }
    }
  }

  ghost predicate FieldsMatch(schema: Schema, entries: map<Name, Wire>, c: Class, fields: seq<Field>, depth: nat, vs: seq<Value>)
    requires depth <= MAX_DEPTH + 1
  {
    |vs| == |fields| && forall i :: 0 <= i < |fields| ==> FieldDecoded(schema, entries, c, fields[i], depth, vs[i])
  }

  lemma {:induction false} FieldsMatchStep(schema: Schema, entries: map<Name, Wire>, c: Class, fields: seq<Field>, depth: nat, vs: seq<Value>)
    requires depth <= MAX_DEPTH + 1 && fields != [] && vs != []
    ensures FieldsMatch(schema, entries, c, fields, depth, vs)
       <==> FieldDecoded(schema, entries, c, fields[0], depth, vs[0]) && FieldsMatch(schema, entries, c, fields[1..], depth, vs[1..])
  {
    var tail, rest := fields[1..], vs[1..];
    if FieldDecoded(schema, entries, c, fields[0], depth, vs[0]) && FieldsMatch(schema, entries, c, tail, depth, rest) {
      forall i | 0 <= i < |fields| ensures FieldDecoded(schema, entries, c, fields[i], depth, vs[i]) {
        if i > 0 { assert fields[i] == tail[i - 1] && vs[i] == rest[i - 1]; }
      }
    }
    if FieldsMatch(schema, entries, c, fields, depth, vs) {
      forall i | 0 <= i < |tail| ensures FieldDecoded(schema, entries, c, tail[i], depth, rest[i]) {
        assert tail[i] == fields[i + 1] && rest[i] == vs[i + 1];
      }
    }
  }

  lemma {:induction false} FieldsDecoded(schema: Schema, entries: map<Name, Wire>, c: Class, fields: seq<Field>, depth: nat, vs: seq<Value>)
    requires depth <= MAX_DEPTH + 1
    requires forall f :: f in fields ==> WireName(c, f.name) in entries
    ensures DecodeFields(schema, entries, c, fields, depth) == Ok(vs) <==> FieldsMatch(schema, entries, c, fields, depth, vs)
  {
    if fields != [] {
      PrependOk(Decode(schema, entries[WireName(c, fields[0].name)], fields[0].annotation, depth),
                DecodeFields(schema, entries, c, fields[1..], depth), vs);
      if vs != [] {
        FieldsDecoded(schema, entries, c, fields[1..], depth, vs[1..]);
        FieldsMatchStep(schema, entries, c, fields, depth, vs);
      }
    }
  }

  ghost predicate FieldDecoded(schema: Schema, entries: map<Name, Wire>, c: Class, f: Field, depth: nat, v: Value)
    requires depth <= MAX_DEPTH + 1
  {
    WireName(c, f.name) in entries && Decode(schema, entries[WireName(c, f.name)], f.annotation, depth) == Ok(v)
  }

  // -- records

  lemma {:induction false} WellTypedIsTyped(schema: Schema, v: Value, a: Annotation)
    requires AnnotationOk(schema, a) && WellTyped(schema, v, a)
    ensures Typed(v, a)
    decreases a
  {
    match a
    case TUnion(alternatives) =>
      if v.Plain? {
        var p :| p in alternatives && IsPrimitive(p) && ScalarTyped(v.scalar, p);
        var i :| 0 <= i < |alternatives| && alternatives[i] == p;
        assert Typed(v, alternatives[i]);
      } else {
        var i :| 0 <= i < |alternatives| && alternatives[i] == TRecord(v.cls);
        assert Typed(v, alternatives[i]);
      }
    case TTuple(item) =>
      forall i | 0 <= i < |v.items| ensures Typed(v.items[i], item) { WellTypedIsTyped(schema, v.items[i], item); }
    case _ =>
  }

  /** The wire form of a well-typed record carries an option of each of its literal fields. */
  lemma {:induction false} LiteralHeld(schema: Schema, v: Value, name: Name)
    requires SchemaOk(schema) && v.Record? && WellTyped(schema, v, TRecord(v.cls)) && name in {Schema, Tag}
    requires LiteralOf(schema(v.cls), name).Some?
    ensures HoldsOption(ToWire(schema, v), name, LiteralOf(schema(v.cls), name).value)
  {
    var c, options := v.cls, LiteralOf(schema(v.cls), name).value;
    var i :| 0 <= i < |schema(c)| && schema(c)[i] == Field(name, TLiteral(options));
    var wires := seq(|v.fields|, i requires 0 <= i < |v.fields| => ToWire(schema, v.fields[i]));
    assert ClassOk(schema, c);
    EntryIs(c, schema(c), wires, i);
    assert WellTyped(schema, v.fields[i], schema(c)[i].annotation);
  }

  lemma {:induction false} OwnTagFits(schema: Schema, v: Value)
    requires SchemaOk(schema) && v.Record? && WellTyped(schema, v, TRecord(v.cls))
    ensures TagFits(schema(v.cls), ToWire(schema, v))
  {
    assert ClassOk(schema, v.cls);
    if HasField(schema(v.cls), Tag) { LiteralHeld(schema, v, Tag); }
  }

  lemma {:induction false} OtherTagFails(schema: Schema, other: Class, v: Value)
    requires SchemaOk(schema) && v.Record? && WellTyped(schema, v, TRecord(v.cls)) && TagsApart(schema, other, v.cls)
    ensures !TagFits(schema(other), ToWire(schema, v))
  {
    LiteralHeld(schema, v, Tag);
  }

  lemma {:induction false} FewerAlternatives(schema: Schema, alternatives: seq<Annotation>)
    requires AnnotationOk(schema, TUnion(alternatives)) && alternatives != []
    ensures AnnotationOk(schema, TUnion(alternatives[1..]))
  {
    var rest := alternatives[1..];
    assert forall i :: 0 <= i < |rest| ==> rest[i] == alternatives[i + 1];
  }

  /** A union hands the wire form of a well-typed record to that record's own class. */
  lemma {:induction false} RecordFound(schema: Schema, alternatives: seq<Annotation>, v: Value)
    requires SchemaOk(schema) && AnnotationOk(schema, TUnion(alternatives))
    requires v.Record? && WellTyped(schema, v, TRecord(v.cls)) && TRecord(v.cls) in alternatives
    ensures FirstRecord(schema, alternatives, ToWire(schema, v)) == Some(v.cls)
    decreases |alternatives|
  {
    var a := alternatives[0];
    if a == TRecord(v.cls) {
      OwnTagFits(schema, v);
    } else {
      var j :| 0 <= j < |alternatives| && alternatives[j] == TRecord(v.cls);
      if a.TRecord? {
        assert TagsApart(schema, alternatives[0].cls, alternatives[j].cls);
        OtherTagFails(schema, a.cls, v);
      }
      FewerAlternatives(schema, alternatives);
      assert alternatives[1..][j - 1] == TRecord(v.cls);
      RecordFound(schema, alternatives[1..], v);
    }
  }

  // -- the whole

  /** What `_decode` accepts as `v`: the wire form of `v`, well typed and within the limits. */
  ghost predicate Accepted(schema: Schema, w: Wire, a: Annotation, depth: nat, v: Value) {
    ToWire(schema, v) == w && WellTyped(schema, v, a) && Within(schema, v, a, depth)
  }

  lemma {:induction false} DecodeExact(schema: Schema, w: Wire, a: Annotation, depth: nat, v: Value)
    requires SchemaOk(schema) && AnnotationOk(schema, a) && depth <= MAX_DEPTH + 1
    ensures Decode(schema, w, a, depth) == Ok(v) <==> Accepted(schema, w, a, depth, v)
    decreases MAX_DEPTH + 1 - depth, 3
  {
    if depth <= MAX_DEPTH {
      match a
      case TUnion(alternatives) => UnionExact(schema, w, alternatives, depth, v);
      case TTuple(item) => TupleExact(schema, w, item, depth, v);
      case TRecord(c) => RecordExact(schema, w, c, depth, v);
      case _ =>
    }
  }

  lemma {:induction false} UnionExact(schema: Schema, w: Wire, alternatives: seq<Annotation>, depth: nat, v: Value)
    requires SchemaOk(schema) && AnnotationOk(schema, TUnion(alternatives)) && depth <= MAX_DEPTH
    ensures Decode(schema, w, TUnion(alternatives), depth) == Ok(v) <==> Accepted(schema, w, TUnion(alternatives), depth, v)
    decreases MAX_DEPTH + 1 - depth, 0
  {
    if !(w.Leaf? && SomePrimitive(w.scalar, alternatives)) {
      var c := FirstRecord(schema, alternatives, w);
      if c.Some? { DecodeExact(schema, w, TRecord(c.value), depth + 1, v); }
      if Accepted(schema, w, TUnion(alternatives), depth, v) { RecordFound(schema, alternatives, v); }
    }
  }

  lemma {:induction false} ItemsExact(schema: Schema, ws: seq<Wire>, item: Annotation, depth: nat, vs: seq<Value>)
    requires SchemaOk(schema) && AnnotationOk(schema, item) && depth <= MAX_DEPTH && |ws| == |vs|
    ensures DecodeAll(schema, ws, item, depth + 1) == Ok(vs) <==> forall i :: 0 <= i < |ws| ==> Accepted(schema, ws[i], item, depth + 1, vs[i])
    decreases MAX_DEPTH + 1 - depth, 0
  {
    AllDecoded(schema, ws, item, depth + 1, vs);
    forall i | 0 <= i < |ws|
      ensures Decode(schema, ws[i], item, depth + 1) == Ok(vs[i]) <==> Accepted(schema, ws[i], item, depth + 1, vs[i])
    {
      DecodeExact(schema, ws[i], item, depth + 1, vs[i]);
    }
  }

  lemma {:induction false} TupleAccepted(schema: Schema, w: Wire, item: Annotation, depth: nat, v: Value)
    requires w.List? && v.Tuple? && |w.items| == |v.items| <= MAX_GRAPH && depth <= MAX_DEPTH
    ensures Accepted(schema, w, TTuple(item), depth, v)
       <==> forall i :: 0 <= i < |w.items| ==> Accepted(schema, w.items[i], item, depth + 1, v.items[i])
  {
    TupleWire(schema, w, v);
  }

  lemma {:induction false} TupleExact(schema: Schema, w: Wire, item: Annotation, depth: nat, v: Value)
    requires SchemaOk(schema) && AnnotationOk(schema, item) && depth <= MAX_DEPTH
    ensures Decode(schema, w, TTuple(item), depth) == Ok(v) <==> Accepted(schema, w, TTuple(item), depth, v)
    decreases MAX_DEPTH + 1 - depth, 1
  {
    if w.List? && v.Tuple? && |w.items| <= MAX_GRAPH {
      if |w.items| == |v.items| {
        ItemsExact(schema, w.items, item, depth, v.items);
        TupleAccepted(schema, w, item, depth, v);
      } else {
        AllDecoded(schema, w.items, item, depth + 1, v.items);
      }
    }
  }

  lemma {:induction false} TupleWire(schema: Schema, w: Wire, v: Value)
    requires w.List? && v.Tuple? && |w.items| == |v.items|
    ensures ToWire(schema, v) == w <==> forall i :: 0 <= i < |v.items| ==> ToWire(schema, v.items[i]) == w.items[i]
  {
    var wires := seq(|v.items|, i requires 0 <= i < |v.items| => ToWire(schema, v.items[i]));
    assert ToWire(schema, v) == List(wires);
    assert wires == w.items <==> forall i :: 0 <= i < |v.items| ==> wires[i] == w.items[i];
  }

  lemma {:induction false} RecordWire(schema: Schema, w: Wire, c: Class, v: Value)
    requires SchemaOk(schema) && v.Record? && v.cls == c && |v.fields| == |schema(c)|
    ensures ToWire(schema, v) == w <==>
              && w.Dict? && !w.oddKeys && w.entries.Keys == WireNames(c, schema(c))
              && forall i :: 0 <= i < |v.fields| ==> ToWire(schema, v.fields[i]) == w.entries[WireName(c, schema(c)[i].name)]
  {
    var wires := seq(|v.fields|, i requires 0 <= i < |v.fields| => ToWire(schema, v.fields[i]));
    assert ToWire(schema, v) == Dict(Entries(c, schema(c), wires), false);
    assert ClassOk(schema, c);
    EntriesKeys(c, schema(c), wires);
    if w.Dict? && w.entries.Keys == WireNames(c, schema(c)) { SameEntries(c, schema(c), w.entries, wires); }
  }

  ghost predicate FieldAccepted(schema: Schema, w: Wire, c: Class, depth: nat, f: Field, v: Value) {
    w.Dict? && WireName(c, f.name) in w.entries && Accepted(schema, w.entries[WireName(c, f.name)], f.annotation, depth, v)
  }

  lemma {:induction false} RecordAccepted(schema: Schema, w: Wire, c: Class, depth: nat, v: Value)
    requires SchemaOk(schema) && depth <= MAX_DEPTH && v.Record? && v.cls == c && |v.fields| == |schema(c)|
    ensures Accepted(schema, w, TRecord(c), depth, v)
       <==> && w.Dict? && !w.oddKeys && w.entries.Keys == WireNames(c, schema(c)) && DigestOk(v)
            && forall i :: 0 <= i < |v.fields| ==> FieldAccepted(schema, w, c, depth + 1, schema(c)[i], v.fields[i])
  {
    RecordWire(schema, w, c, v);
  }

  lemma {:induction false} FieldExact(schema: Schema, w: Wire, c: Class, depth: nat, f: Field, v: Value)
    requires SchemaOk(schema) && depth <= MAX_DEPTH && f in schema(c) && w.Dict? && WireName(c, f.name) in w.entries
    ensures FieldDecoded(schema, w.entries, c, f, depth + 1, v) <==> FieldAccepted(schema, w, c, depth + 1, f, v)
    decreases MAX_DEPTH + 1 - depth, 0
  {
    assert ClassOk(schema, c);
    DecodeExact(schema, w.entries[WireName(c, f.name)], f.annotation, depth + 1, v);
  }

  lemma {:induction false} FieldsExact(schema: Schema, w: Wire, c: Class, depth: nat, v: Value)
    requires SchemaOk(schema) && depth <= MAX_DEPTH && v.Record? && v.cls == c && |v.fields| == |schema(c)|
    requires w.Dict? && w.entries.Keys == WireNames(c, schema(c))
    ensures DecodeFields(schema, w.entries, c, schema(c), depth + 1) == Ok(v.fields)
       <==> forall i :: 0 <= i < |v.fields| ==> FieldAccepted(schema, w, c, depth + 1, schema(c)[i], v.fields[i])
    decreases MAX_DEPTH + 1 - depth, 1
  {
    FieldsDecoded(schema, w.entries, c, schema(c), depth + 1, v.fields);
    forall i | 0 <= i < |v.fields|
      ensures FieldDecoded(schema, w.entries, c, schema(c)[i], depth + 1, v.fields[i]) <==> FieldAccepted(schema, w, c, depth + 1, schema(c)[i], v.fields[i])
    {
      FieldExact(schema, w, c, depth, schema(c)[i], v.fields[i]);
    }
  }

  /** What a record's decoding comes down to. */
  lemma {:induction false} RecordDecoded(schema: Schema, w: Wire, c: Class, depth: nat, v: Value)
    requires depth <= MAX_DEPTH && v.Record? && v.cls == c && |v.fields| == |schema(c)|
    requires w.Dict? && !w.oddKeys && w.entries.Keys == WireNames(c, schema(c))
    ensures Decode(schema, w, TRecord(c), depth) == Ok(v)
       <==> && SchemaRefusal(schema(c), w.entries).None? && DecodeFields(schema, w.entries, c, schema(c), depth + 1) == Ok(v.fields)
            && Construct(schema, c, v.fields) == Ok(v) && DigestOk(v)
  {
  }

  lemma {:induction false} RecordShape(schema: Schema, w: Wire, c: Class, depth: nat, v: Value)
    requires depth <= MAX_DEPTH && Decode(schema, w, TRecord(c), depth) == Ok(v)
    ensures v.Record? && v.cls == c && |v.fields| == |schema(c)| && w.Dict? && !w.oddKeys && w.entries.Keys == WireNames(c, schema(c))
  {
  }

  lemma {:induction false} RecordExact(schema: Schema, w: Wire, c: Class, depth: nat, v: Value)
    requires SchemaOk(schema) && depth <= MAX_DEPTH
    ensures Decode(schema, w, TRecord(c), depth) == Ok(v) <==> Accepted(schema, w, TRecord(c), depth, v)
    decreases MAX_DEPTH + 1 - depth, 2
  {
    if Decode(schema, w, TRecord(c), depth) == Ok(v) {
      RecordShape(schema, w, c, depth, v);
      RecordAccepted(schema, w, c, depth, v);
      RecordDecoded(schema, w, c, depth, v);
      FieldsExact(schema, w, c, depth, v);
    }
    if Accepted(schema, w, TRecord(c), depth, v) {
      RecordAccepted(schema, w, c, depth, v);
      RecordDecoded(schema, w, c, depth, v);
      FieldsExact(schema, w, c, depth, v);
      RecordPasses(schema, w, c, v);
    }
  }

  /** Neither the schema check nor the constructor refuses the wire form of a well-typed record. */
  lemma {:induction false} RecordPasses(schema: Schema, w: Wire, c: Class, v: Value)
    requires SchemaOk(schema) && WellTyped(schema, v, TRecord(c)) && ToWire(schema, v) == w
    ensures w.Dict? && SchemaRefusal(schema(c), w.entries).None?
    ensures Construct(schema, c, v.fields) == Ok(v)
  {
    if LiteralOf(schema(c), Schema).Some? { LiteralHeld(schema, v, Schema); }
    assert ClassOk(schema, c);
    forall i | 0 <= i < |v.fields| ensures Typed(v.fields[i], schema(c)[i].annotation) {
      WellTypedIsTyped(schema, v.fields[i], schema(c)[i].annotation);
    }
  }

  /** Decoding the wire form of a well-typed value returns it exactly when the value is within the limits. */
  lemma {:induction false} WireRoundTrip(schema: Schema, v: Value, a: Annotation)
    requires SchemaOk(schema) && AnnotationOk(schema, a) && WellTyped(schema, v, a)
    ensures Decode(schema, ToWire(schema, v), a, 0) == Ok(v) <==> Within(schema, v, a, 0)
  {
    DecodeExact(schema, ToWire(schema, v), a, 0, v);
  }

  /** Whatever the decoder accepts is well typed and re-encodes to the same wire value. */
  lemma {:induction false} AcceptedReencodes(schema: Schema, w: Wire, a: Annotation)
    requires SchemaOk(schema) && AnnotationOk(schema, a) && Decode(schema, w, a, 0).Ok?
    ensures var v := Decode(schema, w, a, 0).value; ToWire(schema, v) == w && WellTyped(schema, v, a) && Typed(v, a)
  {
    var v := Decode(schema, w, a, 0).value;
    DecodeExact(schema, w, a, 0, v);
    WellTypedIsTyped(schema, v, a);
  }
}
