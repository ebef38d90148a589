/** What the decoder and its reference check accept, on wire data and on positions inside a record. */
module CodecMeaning {
  import opened RecordCodec
  import opened CodecTheorems
  import opened RecordParser
  import opened GraphSchema

  // -- the limits and the primitive types

  /** A list is read item by item, one level deeper, if it has no more than 65536 items and stands no deeper than 32. */
  lemma {:induction false} ListDecoded(schema: Schema, w: Wire, a: Annotation, depth: nat, v: Value)
    requires depth <= 33
    ensures Decode(schema, w, TTuple(a), depth) == Ok(v) <==>
            && depth <= 32 && w.List? && |w.items| <= 65536 && v.Tuple? && |v.items| == |w.items|
            && forall i :: 0 <= i < |w.items| ==> Decode(schema, w.items[i], a, depth + 1) == Ok(v.items[i])
  {
    if depth <= 32 && w.List? && v.Tuple? { AllDecoded(schema, w.items, a, depth + 1, v.items); }
  }

  /** A text is not empty and holds no NUL, a number is not negative, a literal is one of its options. */
  ghost predicate Fits(s: Scalar, a: Annotation) {
    || (a == TStr && s.Str? && |s.text| > 0 && forall i :: 0 <= i < |s.text| ==> s.text[i] != 0 as char)
    || (a == TInt && s.Int? && 0 <= s.number)
    || (a == TBool && s.Bool?)
    || (a == TNone && s == Null)
    || (a.TLiteral? && s.Str? && s.text in a.options)
  }

  lemma {:induction false} FitsIs(s: Scalar, a: Annotation)
    ensures ScalarTyped(s, a) <==> Fits(s, a)
  {
    if s.Str? { assert '\0' in s.text <==> exists i :: 0 <= i < |s.text| && s.text[i] == 0 as char; }
  }

  lemma {:induction false} LeafDecoded(schema: Schema, w: Wire, a: Annotation, depth: nat, v: Value)
    requires depth <= 33 && !a.TUnion? && !a.TTuple? && !a.TRecord?
    ensures Decode(schema, w, a, depth) == Ok(v) <==> depth <= 32 && w.Leaf? && v == Plain(w.scalar) && Fits(w.scalar, a)
  {
    if w.Leaf? { FitsIs(w.scalar, a); }
  }

  predicate Hexadecimal(c: char) {
    c in {'0', '1', '2', '3', '4', '5', '6', '7', '8', '9', 'a', 'b', 'c', 'd', 'e', 'f'}
  }

  ghost predicate IsIdentity(v: Value, digest: string, length: int) {
    && v == Record(ContentIdentity, [Plain(Str(digest)), Plain(Int(length))]) && length >= 0
    && |digest| == 64 && forall i :: 0 <= i < 64 ==> Hexadecimal(digest[i])
  }

  /** A content identity holds a digest of 64 hexadecimal digits and a length that is not negative. */
  lemma {:induction false} IdentityTyped(v: Value)
    ensures WellTyped(GraphRecords, v, TRecord(ContentIdentity)) <==> exists digest, length :: IsIdentity(v, digest, length)
  {
    if WellTyped(GraphRecords, v, TRecord(ContentIdentity)) {
      assert WellTyped(GraphRecords, v.fields[0], TStr) && WellTyped(GraphRecords, v.fields[1], TInt);
      assert IsIdentity(v, v.fields[0].scalar.text, v.fields[1].scalar.number);
    }
    if digest, length :| IsIdentity(v, digest, length) {
      forall i | 0 <= i < 64 ensures digest[i] != '\0' { assert Hexadecimal(digest[i]); }
    }
  }

  // -- references

  /** Following the positions of `path` from `v`, through fields and items, leads to `r`. */
  ghost predicate StandsAt(v: Value, path: seq<nat>, r: Value)
    decreases |path|
  {
    if path == [] then r == v
    else
      || (v.Tuple? && path[0] < |v.items| && StandsAt(v.items[path[0]], path[1..], r))
      || (v.Record? && path[0] < |v.fields| && StandsAt(v.fields[path[0]], path[1..], r))
  }

  lemma {:induction false} InsideStands(r: Value, v: Value) returns (path: seq<nat>)
    requires Inside(r, v)
    ensures StandsAt(v, path, r)
    decreases v
  {
    if r == v { return []; }
    var i :| 0 <= i < |Children(v)| && Inside(r, Children(v)[i]);
    var rest := InsideStands(r, Children(v)[i]);
    path := [i] + rest;
    assert path[1..] == rest;
  }

  lemma {:induction false} StandsInside(r: Value, v: Value, path: seq<nat>)
    requires StandsAt(v, path, r)
    ensures Inside(r, v)
    decreases |path|
  {
    if path != [] {
      StandsInside(r, Children(v)[path[0]], path[1..]);
    }
  }

  /** An evidence reference: schema, content, supplier and record id. */
  function Reference(schema: Value, content: Value, supplier: Value, record: Value): Value {
    Record(EvidenceRef, [schema, content, supplier, record])
  }

  ghost predicate Holds(v: Value, r: Value) {
    exists path :: StandsAt(v, path, r)
  }

  /** The reference check passes exactly if no two references anywhere in the record agree on schema, supplier and record id but not
      on the content. */
  lemma {:induction false} RefsMean(v: Value)
    ensures OneContent(v) <==>
            forall schema, supplier, record, x, y ::
              Holds(v, Reference(schema, x, supplier, record)) && Holds(v, Reference(schema, y, supplier, record)) ==> x == y
  {
    forall r ensures Holds(v, r) <==> Inside(r, v) {
      if Inside(r, v) { var path := InsideStands(r, v); }
      if path :| StandsAt(v, path, r) { StandsInside(r, v, path); }
    }
    if OneContent(v) {
      forall schema, supplier, record, x, y | Holds(v, Reference(schema, x, supplier, record)) && Holds(v, Reference(schema, y, supplier, record))
        ensures x == y
      {
        var r, s := Reference(schema, x, supplier, record), Reference(schema, y, supplier, record);
        assert IsRef(r) && IsRef(s) && RefKey(r) == RefKey(s);
        assert r.fields[1] == x && s.fields[1] == y;
      }
    }
    if forall schema, supplier, record, x, y ::
         Holds(v, Reference(schema, x, supplier, record)) && Holds(v, Reference(schema, y, supplier, record)) ==> x == y {
      forall r, s | Inside(r, v) && Inside(s, v) && IsRef(r) && IsRef(s) && RefKey(r) == RefKey(s) ensures r == s { AsReference(r); AsReference(s); }
    }
  }

  lemma {:induction false} AsReference(r: Value)
    requires IsRef(r)
    ensures r == Reference(r.fields[0], r.fields[1], r.fields[2], r.fields[3])
  {
    assert r.fields == [r.fields[0], r.fields[1], r.fields[2], r.fields[3]];
  }
}
