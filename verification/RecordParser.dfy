/** decode_record of p3_source_closure/parsing.py: decoding, then one identity per evidence reference. */
module RecordParser {
  import opened RecordCodec
  import opened CodecTheorems

  function Children(v: Value): (r: seq<Value>)
    ensures forall i :: 0 <= i < |r| ==> r[i] < v
  {
    match v
    case Plain(_) => []
    case Tuple(items) => items
    case Record(_, fields) => fields
  }

  /** `r` is `v` or stands somewhere inside it. */
  ghost predicate Inside(r: Value, v: Value)
    decreases v
  {
    r == v || exists i :: 0 <= i < |Children(v)| && Inside(r, Children(v)[i])
  }

  lemma {:induction false} InsideTransitive(r: Value, s: Value, v: Value)
    requires Inside(r, s) && Inside(s, v)
    ensures Inside(r, v)
    decreases v
  {
    if s != v {
      var i :| 0 <= i < |Children(v)| && Inside(s, Children(v)[i]);
      InsideTransitive(r, s, Children(v)[i]);
    }
  }

  predicate IsRef(v: Value) {
    v.Record? && v.cls == EvidenceRef && |v.fields| == 4
  }

  /** Schema, supplier and record id: what names a piece of evidence. */
  function RefKey(v: Value): (Value, Value, Value)
    requires IsRef(v)
  {
    (v.fields[0], v.fields[2], v.fields[3])
  }

  /** No two references inside `v` name the same evidence with different contents. */
  ghost predicate OneContent(v: Value) {
    forall r, s :: Inside(r, v) && Inside(s, v) && IsRef(r) && IsRef(s) && RefKey(r) == RefKey(s) ==> r == s
  }

  // -- the pending stack

  function Size(v: Value): (n: nat)
    ensures n > 0
    decreases v, 0
  {
    1 + SizeOf(Children(v), v)
  }

  /** The size of values that all stand inside `bound`. */
  function SizeOf(vs: seq<Value>, ghost bound: Value): (n: nat)
    requires forall i :: 0 <= i < |vs| ==> vs[i] < bound
    decreases bound, 0, |vs|
  {
    if vs == [] then 0
    else
      var n := |vs| - 1;
      Size(vs[n]) + SizeOf(vs[..n], bound)
  }

  function StackSize(vs: seq<Value>): nat {
    if vs == [] then 0 else Size(vs[|vs| - 1]) + StackSize(vs[..|vs| - 1])
  }

  lemma {:induction false} StackGrows(vs: seq<Value>, more: seq<Value>, bound: Value)
    requires forall i :: 0 <= i < |more| ==> more[i] < bound
    ensures StackSize(vs + more) == StackSize(vs) + SizeOf(more, bound)
    decreases |more|
  {
    if more == [] {
      assert vs + more == vs;
    } else {
      var n := |more| - 1;
      StackGrows(vs, more[..n], bound);
      assert (vs + more)[..|vs + more| - 1] == vs + more[..n];
    }
  }

  ghost predicate OnStack(r: Value, pending: seq<Value>) {
    exists p :: p in pending && Inside(r, p)
  }

  type Refs = map<(Value, Value, Value), Value>

  predicate Recorded(refs: Refs, r: Value) {
    IsRef(r) ==> RefKey(r) in refs && refs[RefKey(r)] == r
  }

  /** Every value inside `v` is still to be visited or, if a reference, recorded; what is recorded stands inside `v`. */
  ghost predicate Sweeping(v: Value, pending: seq<Value>, refs: Refs) {
    && (forall r :: Inside(r, v) ==> OnStack(r, pending) || Recorded(refs, r))
    && (forall p :: p in pending ==> Inside(p, v))
    && (forall k :: k in refs ==> Inside(refs[k], v) && IsRef(refs[k]) && RefKey(refs[k]) == k)
  }

  function Noted(refs: Refs, item: Value): Refs {
    if IsRef(item) then refs[RefKey(item) := item] else refs
  }

  lemma {:induction false} ChildInside(p: Value, item: Value, v: Value)
    requires p in Children(item) && Inside(item, v)
    ensures Inside(p, v)
  {
    var i :| 0 <= i < |Children(item)| && Children(item)[i] == p;
    assert Inside(p, p) && Inside(p, item);
    InsideTransitive(p, item, v);
  }

  /** Popping a value and pushing its children loses only the value itself. */
  lemma {:induction false} StackStep(r: Value, front: seq<Value>, item: Value)
    requires OnStack(r, front + [item])
    ensures r == item || OnStack(r, front + Children(item))
  {
    var p :| p in front + [item] && Inside(r, p);
    if p in front {
      assert p in front + Children(item);
    } else if r != item {
      var i :| 0 <= i < |Children(item)| && Inside(r, Children(item)[i]);
      assert Children(item)[i] in front + Children(item);
    }
  }

  lemma {:induction false} SweepStep(v: Value, front: seq<Value>, item: Value, refs: Refs)
    requires Sweeping(v, front + [item], refs)
    requires IsRef(item) && RefKey(item) in refs ==> refs[RefKey(item)] == item
    ensures Sweeping(v, front + Children(item), Noted(refs, item))
  {
    var next, refs' := front + Children(item), Noted(refs, item);
    assert item in front + [item];
    forall p | p in next ensures Inside(p, v) {
      if p in Children(item) { ChildInside(p, item, v); } else { assert p in front + [item]; }
    }
    forall r | Inside(r, v) ensures OnStack(r, next) || Recorded(refs', r) {
      if OnStack(r, front + [item]) { StackStep(r, front, item); } else { assert Recorded(refs, r); }
    }
  }

  lemma {:induction false} SweepDone(v: Value, refs: Refs)
    requires Sweeping(v, [], refs)
    ensures OneContent(v)
  {
    forall r, s | Inside(r, v) && Inside(s, v) && IsRef(r) && IsRef(s) && RefKey(r) == RefKey(s) ensures r == s {
      assert Recorded(refs, r) && Recorded(refs, s);
    }
  }

  lemma {:induction false} SweepBegins(v: Value)
    ensures Sweeping(v, [v], map[])
  {
    assert v in [v] && Inside(v, v);
  }

  lemma {:induction false} ConflictFound(v: Value, front: seq<Value>, item: Value, refs: Refs)
    requires Sweeping(v, front + [item], refs)
    requires IsRef(item) && RefKey(item) in refs && refs[RefKey(item)] != item
    ensures !OneContent(v)
  {
    assert item in front + [item];
    assert Inside(refs[RefKey(item)], v) && Inside(item, v);
  }

  /** The pending-stack loop finds a conflicting pair of references exactly when there is one. */
  method CheckRefs(v: Value) returns (ok: bool)
    ensures ok <==> OneContent(v)
  {
    var refs: Refs, pending := map[], [v];
    SweepBegins(v);
    while pending != []
      invariant Sweeping(v, pending, refs)
      decreases StackSize(pending)
    {
      var item := pending[|pending| - 1];
      ghost var front := pending[..|pending| - 1];
      assert pending == front + [item];
      if IsRef(item) && RefKey(item) in refs && refs[RefKey(item)] != item {
        ConflictFound(v, front, item, refs);
        return false;
      }
      SweepStep(v, front, item, refs);
      StackGrows(front, Children(item), item);
      refs, pending := Noted(refs, item), pending[..|pending| - 1] + Children(item);
    }
    SweepDone(v, refs);
    return true;
  }

  // -- decode_record

  ghost function Parsed(schema: Schema, w: Wire, c: Class): Result<Value> {
    var r := Decode(schema, w, TRecord(c), 0);
    if r.Ok? && !OneContent(r.value) then Refused(TARGET_BINDING_INVALID) else r
  }

  method ParseRecord(schema: Schema, w: Wire, c: Class) returns (r: Result<Value>)
    ensures r == Parsed(schema, w, c)
    ensures r.Ok? ==> r.value.Record? && r.value.cls == c
  {
    r := Decode(schema, w, TRecord(c), 0);
    if r.Ok? {
      var ok := CheckRefs(r.value);
      if !ok { r := Refused(TARGET_BINDING_INVALID); }
    }
  }

  /** A record is read back from its wire form exactly when it is within the limits and its references agree. */
  lemma {:induction false} RecordRoundTrip(schema: Schema, v: Value)
    requires SchemaOk(schema) && v.Record? && WellTyped(schema, v, TRecord(v.cls))
    ensures Parsed(schema, ToWire(schema, v), v.cls) == Ok(v) <==> Within(schema, v, TRecord(v.cls), 0) && OneContent(v)
  {
    WireRoundTrip(schema, v, TRecord(v.cls));
  }

  /** Two documents read as one record are one document. */
  lemma {:induction false} ParsedReencodes(schema: Schema, w: Wire, c: Class)
    requires SchemaOk(schema) && Parsed(schema, w, c).Ok?
    ensures ToWire(schema, Parsed(schema, w, c).value) == w
    ensures WellTyped(schema, Parsed(schema, w, c).value, TRecord(c)) && OneContent(Parsed(schema, w, c).value)
  {
    AcceptedReencodes(schema, w, TRecord(c));
  }
}
