/**
 The shape that all generated codecs share, as code that reads the schema instead of being unrolled
 for one message: two-byte tags, repeated sub-messages and any depth of nesting included. The
 bridge messages are covered through these methods.
 */
module Template {
  import opened Varints
  import opened Schemas
  import opened Records
  import opened Codec
  import opened Streams
  import opened RoundTrips
  import opened Buffers

  // ----- what Go's static types guarantee about a message

  ghost predicate Typed(s: Schema, m: Message)
    decreases m
  {
    Fits(s, m) && forall i :: 0 <= i < |m.values| ==> TypedValue(s.fields[i].kind, m.values[i])
  }

  ghost predicate TypedValue(k: Kind, v: Value)
    decreases v
  {
    Shaped(k, v) && ((k.One? || k.Many?) ==> forall x | x in v.elts :: TypedElt(k.elem, x))
  }

  ghost predicate TypedElt(e: Elem, x: Elt)
    decreases x
  {
    if e.Sub? then x.Node? && Typed(e.schema, x.msg) else x.Leaf?
  }

  // ----- size

  method SizeElt(e: Elem, x: Elt) returns (n: nat)
    requires TypedElt(e, x)
    ensures n == |EncodeElt(e, x)|
    decreases x
  {
    if e.Sub? { n := Size(e.schema, x.msg); } else { n := |x.bytes|; }
  }

  method SizeElts(num: nat, e: Elem, xs: seq<Elt>) returns (n: nat)
    requires forall x | x in xs :: TypedElt(e, x)
    ensures n == |EncodeElts(num, e, xs)|
    decreases xs
  {
    hide EncodeElt, EncodeChunk, EncodeElts, Sov, TypedElt;
    n := 0;
    assert xs[..0] == [];
    NoElts(num, e);
    for k := 0 to |xs|
      invariant n == |EncodeElts(num, e, xs[..k])|
    {
      var l := SizeElt(e, xs[k]);
      n := n + Sov(num * 8 + 2) + l + Sov(l);
      EltsAt(num, e, xs, k);
      ChunkLayout(num, EncodeElt(e, xs[k]), []);
      SovIsLength(num * 8 + 2);
    }
    assert xs[..|xs|] == xs;
  }

  method SizeField(f: Field, v: Value) returns (n: nat)
    requires TypedValue(f.kind, v)
    ensures n == |EncodeField(f, v)|
    decreases v
  {
    hide Sov, Varint, ToWire;
    n := 0;
    match v {
      case Num(i) =>
        SovIsLength(ToWire(i));
        SovIsLength(f.num * 8);
        if i != 0 { n := Sov(f.num * 8) + Sov(ToWire(i)); }
      case Str(p) =>
        ChunkLayout(f.num, p, []);
        SovIsLength(f.num * 8 + 2);
        if |p| > 0 { n := Sov(f.num * 8 + 2) + |p| + Sov(|p|); }
      case List(xs) =>
        n := SizeElts(f.num, f.kind.elem, xs);
    }
  }

  /** The size pass of any message counts exactly the bytes of its encoding, at every level. */
  method Size(s: Schema, m: Message) returns (n: nat)
    requires Typed(s, m)
    ensures n == |Encode(s, m)|
    decreases m
  {
    hide EncodeField, Encode, Tail, TypedValue;
    n := 0;
    NothingCounted(s, m);
    for k := 0 to |s.fields|
      invariant Counted(n, s, m, k)
    {
      var l := SizeField(s.fields[k], m.values[k]);
      n := n + l;
      TailStep(s, m, k);
    }
    AllCounted(n, s, m);
    n := n + |m.unknown|;
  }

  // ----- marshal

  /** A tag of any length, its last byte first: the generated code writes one or two bytes. */
  method PutTag(dAtA: array<Byte>, i: nat, num: nat, wireType: nat) returns (j: nat)
    requires |Tag(num, wireType)| <= i <= dAtA.Length
    modifies dAtA
    ensures j == i - |Tag(num, wireType)|
    ensures dAtA[j..] == Tag(num, wireType) + old(dAtA[i..])
    ensures dAtA[..j] == old(dAtA[..j])
  {
    var t := Tag(num, wireType);
    j := PutReversed(dAtA, i, t);
  }

  /** Bytes written one by one, the last one first. */
  method PutReversed(dAtA: array<Byte>, i: nat, t: Bytes) returns (j: nat)
    requires |t| <= i <= dAtA.Length
    modifies dAtA
    ensures j == i - |t|
    ensures dAtA[j..] == t + old(dAtA[i..])
    ensures dAtA[..j] == old(dAtA[..j])
  {
    ghost var tail := dAtA[i..];
    j := i;
    for k := |t| downto 0
      invariant j == i - |t| + k
      invariant dAtA[j..] == t[k..] + tail
      invariant dAtA[..j] == old(dAtA[..j])
    {
      j := PutByte(dAtA, j, t[k]);
      assert t[k..] == [t[k]] + t[k + 1..];
      Associate([t[k]], t[k + 1..], tail);
    }
    assert t[0..] == t;
  }

  method PutRecord(dAtA: array<Byte>, i: nat, num: nat, p: Bytes) returns (j: nat)
    requires |EncodeChunk(num, p)| <= i <= dAtA.Length && |p| < TWO_63
    modifies dAtA
    ensures j == i - |EncodeChunk(num, p)|
    ensures dAtA[j..] == EncodeChunk(num, p) + old(dAtA[i..])
    ensures dAtA[..j] == old(dAtA[..j])
  {
    hide Tag, Varint, Sov, EncodeChunk;
    ChunkLayout(num, p, dAtA[i..]);
    j := PutPayload(dAtA, i, p);
    j := PutTag(dAtA, j, num, 2);
  }

  method MarshalElt(e: Elem, x: Elt) returns (p: Bytes)
    requires TypedElt(e, x) && |EncodeElt(e, x)| < TWO_63
    ensures p == EncodeElt(e, x)
    decreases x
  {
    hide Encode;
    if e.Sub? {
      p := Marshal(e.schema, x.msg, []);
    } else {
      p := x.bytes;
    }
  }

  /** The backward loop over a list: the last element is written first. */
  method PutElts(dAtA: array<Byte>, i: nat, num: nat, e: Elem, xs: seq<Elt>) returns (j: nat)
    requires forall x | x in xs :: TypedElt(e, x)
    requires |EncodeElts(num, e, xs)| <= i <= dAtA.Length && |EncodeElts(num, e, xs)| < TWO_63
    modifies dAtA
    ensures j == i - |EncodeElts(num, e, xs)|
    ensures dAtA[j..] == EncodeElts(num, e, xs) + old(dAtA[i..])
    ensures dAtA[..j] == old(dAtA[..j])
    decreases xs
  {
    hide EncodeElt, EncodeChunk, EncodeElts, TypedElt;
    ghost var tail := dAtA[i..];
    assert xs[|xs|..] == [];
    NoElts(num, e);
    j := i;
    for k := |xs| downto 0
      invariant j == i - |EncodeElts(num, e, xs[k..])|
      invariant dAtA[j..] == EncodeElts(num, e, xs[k..]) + tail
      invariant dAtA[..j] == old(dAtA[..j])
    {
      EltsAt(num, e, xs, k);
      ChunkLonger(num, EncodeElt(e, xs[k]));
      var encoded := MarshalElt(e, xs[k]);
      ghost var rest := EncodeElts(num, e, xs[k + 1..]);
      j := PutRecord(dAtA, j, num, encoded);
      Associate(EncodeChunk(num, encoded), rest, tail);
    }
    assert xs[0..] == xs;
  }

  method PutField(dAtA: array<Byte>, i: nat, f: Field, v: Value) returns (j: nat)
    requires TypedValue(f.kind, v)
    requires |EncodeField(f, v)| <= i <= dAtA.Length && |EncodeField(f, v)| < TWO_63
    modifies dAtA
    ensures j == i - |EncodeField(f, v)|
    ensures dAtA[j..] == EncodeField(f, v) + old(dAtA[i..])
    ensures dAtA[..j] == old(dAtA[..j])
    decreases v
  {
    hide EncodeChunk, EncodeElts, Tag, Varint, Sov, ToWire;
    j := i;
    match v {
      case Num(n) =>
        if n != 0 {
          ghost var tail := dAtA[i..];
          ToWireFits(n);
          SovIsLength(ToWire(n));
          j := EncodeVarint(dAtA, j, ToWire(n));
          j := PutTag(dAtA, j, f.num, 0);
          Associate(Tag(f.num, 0), Varint(ToWire(n)), tail);
        }
      case Str(p) =>
        if |p| > 0 {
          ChunkLonger(f.num, p);
          j := PutRecord(dAtA, j, f.num, p);
        }
      case List(xs) =>
        j := PutElts(dAtA, j, f.num, f.kind.elem, xs);
    }
  }

  /** Marshal of any message: the buffer is filled from its end, and the index ends at 0. */
  method Marshal(s: Schema, m: Message, input: Bytes) returns (output: Bytes)
    requires Typed(s, m) && |Encode(s, m)| < TWO_63
    ensures output == input + Encode(s, m)
    decreases m
  {
    hide EncodeField, Encode, Tail, TypedValue;
    var size := Size(s, m);
    var dAtA := new Byte[size](_ => 0);
    var i := PutUnknown(dAtA, m.unknown, s, m);
    for k := |s.fields| downto 0
      invariant Filled(dAtA, i, s, m, k)
    {
      TailStep(s, m, k);
      i := PutField(dAtA, i, s.fields[k], m.values[k]);
    }
    AllFilled(dAtA, i, s, m);
    output := input + dAtA[..];
  }

  // ----- unmarshal

  /** `options.Unmarshal` into an element. */
  method UnmarshalElt(o: Options, e: Elem, prev: Option<Elt>, p: Slice)
    returns (err: Option<GoError>, x: Elt)
    ensures match DecodeElt(o, e, prev, p)
            case Err(f) => err == Some(Report(f))
            case Ok(y) => err == None && x == y
    decreases |p|, 1
  {
    hide Decode;
    err, x := None, Leaf(p);
    match e {
      case Raw =>
      case Ext(id) =>
        var c := o.ext(id, o.discardUnknown, LeafBytes(prev), p);
        if c.None? { err := Some(External); } else { x := Leaf(c.value); }
      case Sub(s) =>
        var m := if prev.Some? && prev.value.Node? && Fits(s, prev.value.msg) then prev.value.msg else Empty(s);
        err, m := Unmarshal(s, o, m, p);
        x := Node(m);
    }
  }

  /** The parse loop of any message. */
  method Unmarshal(s: Schema, o: Options, x: Message, dAtA: Slice)
    returns (err: Option<GoError>, y: Message)
    requires Fits(s, x)
    ensures Fits(s, y) && Unmarshalled(s, o, x, dAtA, err, y)
    decreases |dAtA|, 0, 2
  {
    hide Cut, Absorb, Decode;
    var l, iNdEx := |dAtA|, 0;
    err, y := None, x;
    LoopStarts(s, o, x, dAtA);
    while iNdEx < l
      invariant iNdEx <= l && Fits(s, y)
      invariant Decode(s, o, x, dAtA[..iNdEx]) == Ok(y)
    {
      ghost var m, pre := y, iNdEx;
      err, y, iNdEx := UnmarshalField(s, o, y, dAtA, iNdEx);
      Turn(s, o, x, m, dAtA, pre, err, y, iNdEx);
      if err.Some? { return; }
    }
    // The closing test `iNdEx > l` never fires.
    assert iNdEx == l && dAtA[..iNdEx] == dAtA;
    err := None;
  }

  method UnmarshalField(s: Schema, o: Options, x: Message, dAtA: Slice, preIndex: nat)
    returns (err: Option<GoError>, y: Message, next: nat)
    requires Fits(s, x) && preIndex < |dAtA|
    ensures Fits(s, y) && Turned(s, o, x, dAtA, preIndex, err, y, next)
    decreases |dAtA|, 0, 1
  {
    hide Cut, Update;
    y := x;
    var fieldNum: int, wireType: nat, iNdEx: nat;
    err, fieldNum, wireType, iNdEx := ReadHeader(dAtA, preIndex);
    next := iNdEx;
    if err.Some? { HeaderFails(s, dAtA[preIndex..]); return; }
    var i := Slot(s.fields, fieldNum);
    if i < 0 {
      var raw: Bytes;
      err, raw, next := ReadUnknown(dAtA, preIndex, fieldNum, wireType, iNdEx, s);
      if err.None? && !o.discardUnknown { y := x.(unknown := x.unknown + raw); }
    } else {
      err, y, next := UnmarshalKnown(s, o, x, dAtA, preIndex, fieldNum, wireType, iNdEx, i);
    }
  }

  method UnmarshalKnown(s: Schema, o: Options, x: Message, dAtA: Slice, ghost preIndex: nat,
                        fieldNum: int, wireType: nat, iNdEx: nat, i: nat)
    returns (err: Option<GoError>, y: Message, next: nat)
    requires Fits(s, x) && AtField(dAtA, preIndex, fieldNum, wireType, iNdEx)
    requires i < |s.fields| && Slot(s.fields, fieldNum) == i
    ensures Fits(s, y) && Turned(s, o, x, dAtA, preIndex, err, y, next)
    decreases |dAtA|, 0, 0
  {
    hide Cut, Update;
    y := x;
    var k := s.fields[i].kind;
    if k.Scalar? {
      var v: nat;
      var w := if k.t in {U32, I32, Enum} then 32 else 64;
      err, v, next := ReadNumberField(dAtA, preIndex, fieldNum, wireType, iNdEx, w, s, i);
      if err.Some? { return; }
      ghost var raw := Cut(s, dAtA[preIndex..]).value.payload.v;
      UpdateNum(o, k.t, x.values[i], raw);
      WordIsEnough(k.t, raw, w);
      y := x.(values := x.values[i := Num(FromWire(k.t, v))]);
    } else {
      var p: Slice;
      err, p, next := ReadChunkField(dAtA, preIndex, fieldNum, wireType, iNdEx, s, i);
      if err.Some? { return; }
      var v: Value;
      err, v := UpdateChunk(o, k, x.values[i], p);
      if err.None? { y := x.(values := x.values[i := v]); }
      assert err.Some? ==> x.values[i := y.values[i]] == x.values;
    }
  }

  /** The accumulated machine word determines the field. */
  lemma WordIsEnough(t: ScalarType, v: nat, w: nat)
    requires w == (if t in {U32, I32, Enum} then 32 else 64)
    ensures FromWire(t, v % Word(w)) == FromWire(t, v)
  {
  }

  method UpdateChunk(o: Options, k: Kind, v: Value, p: Slice) returns (err: Option<GoError>, v': Value)
    requires !k.Scalar?
    ensures match Update(o, k, v, Chunk(p))
            case Err(f) => err == Some(Report(f))
            case Ok(w) => err == None && v' == w
    decreases |p|, 2
  {
    hide DecodeElt;
    err, v' := None, Str(p);
    match k {
      case Text =>
      case One(e) =>
        var prev := if o.merge && v.List? && v.elts != [] then Some(v.elts[0]) else None;
        var x: Elt;
        err, x := UnmarshalElt(o, e, prev, p);
        v' := List([x]);
      case Many(e) =>
        var x: Elt;
        err, x := UnmarshalElt(o, e, None, p);
        v' := List((if v.List? then v.elts else []) + [x]);
    }
  }
}
