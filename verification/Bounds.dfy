/**
 Re-encoding does not grow a buffer, except that a negative 32-bit value may have arrived
 in five bytes and always leaves in ten; so it never more than doubles one.
 */
module Bounds {
  import opened Varints
  import opened Schemas
  import opened Records
  import opened Codec
  import opened Streams
  import opened RoundTrips

  predicate Signed32(k: Kind) {
    k == Scalar(I32) || k == Scalar(Enum)
  }

  /** No 32-bit signed field and no foreign message, at any depth. */
  ghost predicate Slim(s: Schema) {
    forall f | f in s.fields :: !Signed32(f.kind) && SlimKind(f.kind)
  }

  ghost predicate SlimKind(k: Kind) {
    (k.One? || k.Many?) ==> (k.elem.Raw? || (k.elem.Sub? && Slim(k.elem.schema)))
  }

  /** 32-bit signed fields are allowed at the top level only. */
  ghost predicate SlimBelow(s: Schema) {
    forall f | f in s.fields :: SlimKind(f.kind)
  }

  /** What the field may cost beyond the bytes it came from. */
  function Slack(k: Kind): nat {
    if Signed32(k) then 5 else 0
  }

  ghost function TotalSlack(s: Schema, k: nat): nat
    requires k <= |s.fields|
    decreases |s.fields| - k
  {
    if k == |s.fields| then 0 else Slack(s.fields[k].kind) + TotalSlack(s, k + 1)
  }

  /** Encoded length of a field beyond its slack. */
  ghost function FieldCost(f: Field, v: Value): nat {
    var n := |EncodeField(f, v)|;
    if n <= Slack(f.kind) then 0 else n - Slack(f.kind)
  }

  ghost function Cost(s: Schema, m: Message, k: nat): nat
    requires Fits(s, m) && k <= |s.fields|
    decreases |s.fields| - k
  {
    if k == |s.fields| then 0 else FieldCost(s.fields[k], m.values[k]) + Cost(s, m, k + 1)
  }

  lemma {:induction false} CostWith(s: Schema, m: Message, i: nat, w: Value, k: nat)
    requires Fits(s, m) && i < |s.fields| && k <= |s.fields|
    ensures Cost(s, With(m, i, w), k)
            == Cost(s, m, k)
               + (if k <= i then FieldCost(s.fields[i], w) - FieldCost(s.fields[i], m.values[i]) else 0)
    decreases |s.fields| - k
  {
    if k < |s.fields| { CostWith(s, m, i, w, k + 1); }
  }

  lemma {:induction false} CostBoundsEncoding(s: Schema, m: Message, k: nat)
    requires Fits(s, m) && k <= |s.fields|
    ensures |EncodeFrom(s, m, k)| <= Cost(s, m, k) + TotalSlack(s, k)
    decreases |s.fields| - k
  {
    if k < |s.fields| { CostBoundsEncoding(s, m, k + 1); }
  }

  lemma {:induction false} SlimCost(s: Schema, m: Message, k: nat)
    requires Slim(s) && Fits(s, m) && k <= |s.fields|
    ensures |EncodeFrom(s, m, k)| == Cost(s, m, k) && TotalSlack(s, k) == 0
    decreases |s.fields| - k
  {
    if k < |s.fields| {
      assert s.fields[k] in s.fields;
      SlimCost(s, m, k + 1);
    }
  }

  lemma {:induction false} EmptyCost(s: Schema, k: nat)
    requires k <= |s.fields|
    ensures Cost(s, Empty(s), k) == 0 && EncodeFrom(s, Empty(s), k) == []
    decreases |s.fields| - k
  {
    if k < |s.fields| { EmptyCost(s, k + 1); }
  }

  // ----- lengths of varints

  lemma VarintLengthSum(a: nat, b: nat)
    ensures |Varint(a + b)| <= |Varint(a)| + |Varint(b)|
  {
    var m := if a < b then b else a;
    VarintLengthMonotone(a + b, 2 * m);
    if m > 0 {
      VarintLengthMonotone(2 * m, 128 * m);
      assert Varint(128 * m) == [128] + Varint(128 * m / 128);
    }
  }

  /** The canonical tag is no longer than the tag that was read. */
  lemma TagNoLonger(b: Bytes)
    requires ReadTag(b).Ok? && ReadTag(b).value.num > 0
    ensures var h := ReadTag(b).value; |Tag(h.num, h.wireType)| <= h.len
  {
    var h, v := ReadTag(b).value, ReadVarint(b, 0).value.v;
    ShortestForm(b, 0);
    assert h.num * 8 + h.wireType <= v;
    VarintLengthMonotone(h.num * 8 + h.wireType, v);
  }

  /** A cut record is at least as long as the canonical record with the same payload. */
  lemma ChunkNoShorter(s: Schema, b: Bytes)
    requires b != [] && Cut(s, b).Ok? && Cut(s, b).value.payload.Chunk?
    ensures var r := Cut(s, b).value;
            |EncodeChunk(s.fields[r.slot].num, r.payload.bytes)| <= r.len
  {
    var r, h := Cut(s, b).value, ReadTag(b).value;
    TagNoLonger(b);
    CutKnown(s, b, h, r.slot);
    ShortestForm(b[h.len..], 0);
    VarintLengthMonotone(|r.payload.bytes|, ReadVarint(b[h.len..], 0).value.v);
  }

  lemma NumberNoShorter(s: Schema, b: Bytes)
    requires b != [] && Cut(s, b).Ok? && Cut(s, b).value.payload.Varnum?
    ensures var r := Cut(s, b).value;
            |Tag(s.fields[r.slot].num, 0)| + |Varint(r.payload.v)| <= r.len
  {
    var r, h := Cut(s, b).value, ReadTag(b).value;
    TagNoLonger(b);
    CutKnown(s, b, h, r.slot);
    ShortestForm(b[h.len..], 0);
  }

  /** Truncation shortens a number; only a negative 32-bit value can be lengthened, by five bytes. */
  lemma WireNoLonger(t: ScalarType, v: nat)
    ensures |Varint(ToWire(FromWire(t, v)))| <= |Varint(v)| + Slack(Scalar(t))
  {
    var w := ToWire(FromWire(t, v));
    if FromWire(t, v) < 0 && (t.I32? || t.Enum?) {
      VarintAtMostTen(w);
      assert v >= TWO_31;
      FiveBytes();
      VarintLengthMonotone(TWO_31, v);
    } else {
      assert w <= v;
      VarintLengthMonotone(w, v);
    }
  }

  lemma FiveBytes()
    ensures |Varint(TWO_31)| == 5
  {
    assert |Varint(TWO_31 / 128 / 128 / 128 / 128)| == 1;
    assert |Varint(TWO_31 / 128 / 128 / 128)| == 2;
    assert |Varint(TWO_31 / 128 / 128)| == 3;
    assert |Varint(TWO_31 / 128)| == 4;
  }

  // ----- one record

  ghost function PrevLen(e: Elem, prev: Option<Elt>): nat {
    if prev.Some? then |EncodeElt(e, prev.value)| else 0
  }

  lemma {:induction false} EltShrinks(o: Options, e: Elem, prev: Option<Elt>, p: Bytes)
    requires SlimKind(Many(e)) && DecodeElt(o, e, prev, p).Ok?
    ensures |EncodeElt(e, DecodeElt(o, e, prev, p).value)| <= PrevLen(e, prev) + |p|
    decreases |p|, 1
  {
    if e.Sub? {
      var s := e.schema;
      var start :=
        if prev.Some? && prev.value.Node? && Fits(s, prev.value.msg) then prev.value.msg else Empty(s);
      EmptyCost(s, 0);
      var m := Decode(s, o, start, p).value;
      DecodeShrinks(s, o, start, p);
      SlimCost(s, start, 0);
      SlimCost(s, m, 0);
      assert |Encode(s, m)| <= |Encode(s, start)| + |p|;
      assert |Encode(s, start)| <= PrevLen(e, prev);
      assert EncodeElt(e, Node(m)) == Encode(s, m);
    }
  }

  lemma {:induction false} EltsAppend(num: nat, e: Elem, xs: seq<Elt>, x: Elt)
    ensures |EncodeElts(num, e, xs + [x])| == |EncodeElts(num, e, xs)| + |EncodeChunk(num, EncodeElt(e, x))|
    decreases |xs|
  {
    if xs != [] {
      assert (xs + [x])[1..] == xs[1..] + [x];
      EltsAppend(num, e, xs[1..], x);
    } else {
      assert xs + [x] == [x] && [x][1..] == [];
    }
  }

  lemma ChunkGrows(num: nat, p: Bytes, q: Bytes)
    requires |p| <= |q|
    ensures |EncodeChunk(num, p)| <= |EncodeChunk(num, q)|
  {
    VarintLengthMonotone(|p|, |q|);
  }

  lemma ChunkMerges(num: nat, p: Bytes, q: Bytes, m: Bytes)
    requires |m| <= |p| + |q|
    ensures |EncodeChunk(num, m)| <= |EncodeChunk(num, p)| + |EncodeChunk(num, q)|
  {
    VarintLengthSum(|p|, |q|);
    VarintLengthMonotone(|m|, |p| + |q|);
  }

  /** A record adds no more to the cost of its field than its own length. */
  lemma {:induction false} RecordShrinks(s: Schema, o: Options, b: Bytes, v: Value)
    requires SlimBelow(s) && b != [] && Cut(s, b).Ok? && Cut(s, b).value.slot >= 0
    requires var r := Cut(s, b).value; Update(o, s.fields[r.slot].kind, v, r.payload).Ok?
    ensures var r := Cut(s, b).value; var f := s.fields[r.slot];
            FieldCost(f, Update(o, f.kind, v, r.payload).value) <= FieldCost(f, v) + r.len
    decreases ChunkLen(Cut(s, b).value.payload), 2
  {
    hide Cut, DecodeElt;
    var r := Cut(s, b).value;
    CutShape(s, b);
    var f := s.fields[r.slot];
    assert f in s.fields;
    if f.kind.Scalar? {
      NumberNoShorter(s, b);
      WireNoLonger(f.kind.t, r.payload.v);
    } else {
      var p := r.payload.bytes;
      ChunkNoShorter(s, b);
      if f.kind.One? {
        var prev := if o.merge && v.List? && v.elts != [] then Some(v.elts[0]) else None;
        EltShrinks(o, f.kind.elem, prev, p);
        var x := DecodeElt(o, f.kind.elem, prev, p).value;
        OneShrinks(f, v, prev, x, p);
      } else if f.kind.Many? {
        EltShrinks(o, f.kind.elem, None, p);
        var x := DecodeElt(o, f.kind.elem, None, p).value;
        EltsAppend(f.num, f.kind.elem, if v.List? then v.elts else [], x);
        ChunkGrows(f.num, EncodeElt(f.kind.elem, x), p);
      }
    }
  }

  lemma OneShrinks(f: Field, v: Value, prev: Option<Elt>, x: Elt, p: Bytes)
    requires f.kind.One?
    requires prev.Some? ==> v.List? && v.elts != [] && prev.value == v.elts[0]
    requires |EncodeElt(f.kind.elem, x)| <= PrevLen(f.kind.elem, prev) + |p|
    ensures FieldCost(f, List([x])) <= FieldCost(f, v) + |EncodeChunk(f.num, p)|
  {
    var e := f.kind.elem;
    assert [x][1..] == [];
    assert |EncodeElts(f.num, e, [x])| == |EncodeChunk(f.num, EncodeElt(e, x))|;
    if prev.Some? {
      assert EncodeElts(f.num, e, v.elts)
          == EncodeChunk(f.num, EncodeElt(e, v.elts[0])) + EncodeElts(f.num, e, v.elts[1..]);
      assert |EncodeField(f, v)| >= |EncodeChunk(f.num, EncodeElt(e, prev.value))|;
      ChunkMerges(f.num, EncodeElt(e, prev.value), p, EncodeElt(e, x));
    } else {
      ChunkGrows(f.num, EncodeElt(e, x), p);
    }
  }

  lemma CutShape(s: Schema, b: Bytes)
    requires b != [] && Cut(s, b).Ok? && Cut(s, b).value.slot >= 0
    ensures var r := Cut(s, b).value;
            && 0 < r.len <= |b| && r.slot < |s.fields|
            && (s.fields[r.slot].kind.Scalar? ==> r.payload.Varnum?)
            && (!s.fields[r.slot].kind.Scalar? ==> r.payload.Chunk? && |r.payload.bytes| < |b|)
  {
  }

  // ----- whole buffers

  /** The cost of the message grows by no more than the bytes read. */
  lemma {:induction false} DecodeShrinks(s: Schema, o: Options, x: Message, b: Bytes)
    requires SlimBelow(s) && Fits(s, x) && Decode(s, o, x, b).Ok?
    ensures var y := Decode(s, o, x, b).value;
            Cost(s, y, 0) + |y.unknown| <= Cost(s, x, 0) + |x.unknown| + |b|
    decreases |b|, 0
  {
    hide Cut, Update, FieldCost, SlimBelow;
    if b != [] {
      DecodeAccepts(s, o, x, b);
      CutWhole(s, b);
      var r := Cut(s, b).value;
      var y := Absorb(s, o, x, r).value;
      if r.slot >= 0 {
        RecordShrinks(s, o, b, x.values[r.slot]);
        CostWith(s, x, r.slot, y.values[r.slot], 0);
        assert y == With(x, r.slot, y.values[r.slot]);
      } else {
        CostSame(s, x, y, 0);
      }
      DecodeShrinks(s, o, y, b[r.len..]);
    }
  }

  lemma {:induction false} CostSame(s: Schema, x: Message, y: Message, k: nat)
    requires Fits(s, x) && Fits(s, y) && x.values == y.values && k <= |s.fields|
    ensures Cost(s, x, k) == Cost(s, y, k)
    decreases |s.fields| - k
  {
    if k < |s.fields| { CostSame(s, x, y, k + 1); }
  }

  /** Re-encoding bound: what comes out is no longer than what went in, plus five bytes for each
      32-bit signed field of the message itself. */
  lemma ReencodingBound(s: Schema, o: Options, b: Bytes, m: Message)
    requires SlimBelow(s) && Decode(s, o, Empty(s), b) == Ok(m)
    ensures |Encode(s, m)| <= |b| + TotalSlack(s, 0)
  {
    hide Decode, SlimBelow;
    DecodeShrinks(s, o, Empty(s), b);
    EmptyCost(s, 0);
    CostBoundsEncoding(s, m, 0);
  }

  // ----- every schema: at most twice as long

  /** A foreign codec that at most doubles what it reads, on top of what it merges into. */
  ghost predicate FrugalExt(o: Options, id: nat) {
    forall d, prev: Option<Bytes>, p :: o.ext(id, d, prev, p).Some? ==>
      |o.ext(id, d, prev, p).value| <= (if prev.Some? then |prev.value| else 0) + 2 * |p|
  }

  /** All foreign messages of the schema, at any depth, have such a codec. */
  ghost predicate Frugal(o: Options, s: Schema)
    decreases s
  {
    forall f | f in s.fields :: FrugalKind(o, f.kind)
  }

  ghost predicate FrugalKind(o: Options, k: Kind)
    decreases k
  {
    k.One? || k.Many? ==> FrugalElem(o, k.elem)
  }

  ghost predicate FrugalElem(o: Options, e: Elem)
    decreases e
  {
    match e
    case Raw => true
    case Sub(s) => Frugal(o, s)
    case Ext(id) => FrugalExt(o, id)
  }

  /** A negative 32-bit value came in five bytes at least and leaves in ten. */
  lemma WireDoubles(t: ScalarType, v: nat)
    ensures |Varint(ToWire(FromWire(t, v)))| <= 2 * |Varint(v)|
  {
    var w := ToWire(FromWire(t, v));
    if FromWire(t, v) < 0 && (t.I32? || t.Enum?) {
      VarintAtMostTen(w);
      assert v >= TWO_31;
      FiveBytes();
      VarintLengthMonotone(TWO_31, v);
    } else {
      assert w <= v;
      VarintLengthMonotone(w, v);
    }
  }

  lemma ChunkDoubles(num: nat, p: Bytes, q: Bytes, m: Bytes)
    requires |m| <= |p| + 2 * |q|
    ensures |EncodeChunk(num, m)| <= |EncodeChunk(num, p)| + 2 * |EncodeChunk(num, q)|
    ensures p == [] ==> |EncodeChunk(num, m)| <= 2 * |EncodeChunk(num, q)|
  {
    hide Varint;
    VarintLengthSum(|q|, |q|);
    VarintLengthSum(|p|, 2 * |q|);
    VarintLengthMonotone(|m|, |p| + 2 * |q|);
  }

  lemma {:induction false} LengthWith(s: Schema, m: Message, i: nat, w: Value, k: nat)
    requires Fits(s, m) && i < |s.fields| && k <= |s.fields|
    ensures |EncodeFrom(s, With(m, i, w), k)|
            == |EncodeFrom(s, m, k)|
               + (if k <= i then |EncodeField(s.fields[i], w)| - |EncodeField(s.fields[i], m.values[i])| else 0)
    decreases |s.fields| - k
  {
    hide EncodeField;
    if k < |s.fields| { LengthWith(s, m, i, w, k + 1); }
  }

  lemma {:induction false} EltDoubles(o: Options, e: Elem, prev: Option<Elt>, p: Bytes)
    requires FrugalElem(o, e) && DecodeElt(o, e, prev, p).Ok?
    ensures |EncodeElt(e, DecodeElt(o, e, prev, p).value)| <= PrevLen(e, prev) + 2 * |p|
    decreases |p|, 1
  {
    if e.Sub? {
      hide Frugal;
      var s := e.schema;
      var start :=
        if prev.Some? && prev.value.Node? && Fits(s, prev.value.msg) then prev.value.msg else Empty(s);
      EmptyCost(s, 0);
      DecodeDoubles(s, o, start, p);
      assert |Encode(s, start)| <= PrevLen(e, prev);
      var m := Decode(s, o, start, p).value;
      assert EncodeElt(e, Node(m)) == Encode(s, m);
    } else if e.Ext? {
      assert o.ext(e.id, o.discardUnknown, LeafBytes(prev), p).Some?;
    }
  }

  lemma OneDoubles(f: Field, v: Value, prev: Option<Elt>, x: Elt, p: Bytes)
    requires f.kind.One?
    requires prev.Some? ==> v.List? && v.elts != [] && prev.value == v.elts[0]
    requires |EncodeElt(f.kind.elem, x)| <= PrevLen(f.kind.elem, prev) + 2 * |p|
    ensures |EncodeField(f, List([x]))| <= |EncodeField(f, v)| + 2 * |EncodeChunk(f.num, p)|
  {
    hide EncodeElt, EncodeChunk;
    var e := f.kind.elem;
    assert [x][1..] == [];
    assert |EncodeElts(f.num, e, [x])| == |EncodeChunk(f.num, EncodeElt(e, x))|;
    if prev.Some? {
      assert EncodeElts(f.num, e, v.elts)
          == EncodeChunk(f.num, EncodeElt(e, v.elts[0])) + EncodeElts(f.num, e, v.elts[1..]);
      ChunkDoubles(f.num, EncodeElt(e, prev.value), p, EncodeElt(e, x));
    } else {
      ChunkDoubles(f.num, [], p, EncodeElt(e, x));
    }
  }

  /** A record adds to its field at most twice its own length. */
  lemma {:induction false} RecordDoubles(s: Schema, o: Options, b: Bytes, v: Value)
    requires Frugal(o, s) && b != [] && Cut(s, b).Ok? && Cut(s, b).value.slot >= 0
    requires var r := Cut(s, b).value; Update(o, s.fields[r.slot].kind, v, r.payload).Ok?
    ensures var r := Cut(s, b).value; var f := s.fields[r.slot];
            |EncodeField(f, Update(o, f.kind, v, r.payload).value)| <= |EncodeField(f, v)| + 2 * r.len
    decreases ChunkLen(Cut(s, b).value.payload), 2
  {
    hide Cut, DecodeElt, Varint, FrugalElem, EncodeElt;
    var r := Cut(s, b).value;
    CutShape(s, b);
    var f := s.fields[r.slot];
    assert f in s.fields;
    if f.kind.Scalar? {
      NumberNoShorter(s, b);
      WireDoubles(f.kind.t, r.payload.v);
    } else {
      var p := r.payload.bytes;
      ChunkNoShorter(s, b);
      if f.kind.One? {
        var prev := if o.merge && v.List? && v.elts != [] then Some(v.elts[0]) else None;
        EltDoubles(o, f.kind.elem, prev, p);
        OneDoubles(f, v, prev, DecodeElt(o, f.kind.elem, prev, p).value, p);
      } else if f.kind.Many? {
        EltDoubles(o, f.kind.elem, None, p);
        var x := DecodeElt(o, f.kind.elem, None, p).value;
        EltsAppend(f.num, f.kind.elem, if v.List? then v.elts else [], x);
        ChunkDoubles(f.num, [], p, EncodeElt(f.kind.elem, x));
      }
    }
  }

  /** Decoding lengthens the encoding of a message by at most twice the bytes read. */
  lemma {:induction false} DecodeDoubles(s: Schema, o: Options, x: Message, b: Bytes)
    requires Frugal(o, s) && Fits(s, x) && Decode(s, o, x, b).Ok?
    ensures |Encode(s, Decode(s, o, x, b).value)| <= |Encode(s, x)| + 2 * |b|
    decreases |b|, 0
  {
    hide Cut, Update, EncodeFrom, Frugal;
    if b != [] {
      DecodeAccepts(s, o, x, b);
      CutWhole(s, b);
      var r := Cut(s, b).value;
      var y := Absorb(s, o, x, r).value;
      if r.slot >= 0 {
        RecordDoubles(s, o, b, x.values[r.slot]);
        LengthWith(s, x, r.slot, y.values[r.slot], 0);
        assert y == With(x, r.slot, y.values[r.slot]);
      } else {
        EncodeSame(s, x, y, 0);
      }
      DecodeDoubles(s, o, y, b[r.len..]);
    }
  }

  lemma {:induction false} EncodeSame(s: Schema, x: Message, y: Message, k: nat)
    requires x.values == y.values && k <= |s.fields|
    ensures EncodeFrom(s, x, k) == EncodeFrom(s, y, k)
    decreases |s.fields| - k
  {
    if k < |s.fields| && k < |x.values| { EncodeSame(s, x, y, k + 1); }
  }

  /** Re-encoding bound for every schema, 32-bit signed fields at any depth and merging included:
      what comes out is at most twice as long as what went in. */
  lemma ReencodingDoubles(s: Schema, o: Options, b: Bytes, m: Message)
    requires Frugal(o, s) && Decode(s, o, Empty(s), b) == Ok(m)
    ensures |Encode(s, m)| <= 2 * |b|
  {
    hide Decode, Frugal;
    DecodeDoubles(s, o, Empty(s), b);
    EmptyCost(s, 0);
  }

  /** Frugal foreign codecs are all that the bound asks for. */
  lemma {:induction false} AllFrugal(o: Options, s: Schema)
    requires forall id :: FrugalExt(o, id)
    ensures Frugal(o, s)
    decreases s
  {
    hide FrugalExt;
    forall f | f in s.fields
      ensures FrugalKind(o, f.kind)
    {
      if (f.kind.One? || f.kind.Many?) && f.kind.elem.Sub? { AllFrugal(o, f.kind.elem.schema); }
    }
  }
}
