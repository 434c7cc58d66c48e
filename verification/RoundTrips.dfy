/**
 Encoding and decoding undo each other: every well-formed message survives a round trip, under its
 own schema and, as far as its known fields go, under any larger one.
 */
module RoundTrips {
  import opened Varints
  import opened Schemas
  import opened Records
  import opened Codec
  import opened Streams

  // ----- one record

  /** A legal tag loses nothing to the truncations of the reader. */
  lemma TagParts(num: nat, wireType: nat)
    requires 0 < num <= MAX_FIELD_NUMBER && wireType < 8
    ensures var wire := num * 8 + wireType;
            && wire < TWO_32 && wire % TWO_64 == wire && wire % 8 == wireType
            && Signed(wire / 8 % TWO_32, TWO_31) == num
  {
  }

  /** Field numbers up to 15 have a one-byte tag. */
  lemma ShortTag(num: nat, wireType: nat)
    requires 1 <= num <= 15 && wireType < 8
    ensures Tag(num, wireType) == [num * 8 + wireType]
  {
  }

  lemma TagRoundTrip(num: nat, wireType: nat, rest: Bytes)
    requires 0 < num <= MAX_FIELD_NUMBER && wireType < 8
    ensures ReadTag(Tag(num, wireType) + rest)
            == Ok(Header(num, wireType, num * 8 + wireType, |Tag(num, wireType)|))
  {
    hide Varint, ReadVarint, Signed;
    var wire := num * 8 + wireType;
    TagParts(num, wireType);
    VarintAtMostTen(wire);
    VarintRoundTrip(wire, rest, 0);
  }

  /** A number record is cut off with the number it was written for. */
  lemma NumberRecord(s: Schema, i: nat, n: int, rest: Bytes)
    requires ValidSchema(s) && i < |s.fields| && s.fields[i].kind.Scalar?
    ensures var b := EncodeNumber(s.fields[i].num, n);
            b + rest != [] && Cut(s, b + rest) == Ok(Record(i, Varnum(ToWire(n)), |b|))
  {
    hide ToWire;
    var num, v := s.fields[i].num, ToWire(n);
    assert s.fields[i] in s.fields;
    var t := Tag(num, 0);
    var b := EncodeNumber(num, n) + rest;
    assert b == t + (Varint(v) + rest);
    TagRoundTrip(num, 0, Varint(v) + rest);
    SlotOf(s, i);
    assert b[|t|..] == Varint(v) + rest;
    assert v < TWO_64 by { ToWireFits(n); }
    VarintAtMostTen(v);
    VarintRoundTrip(v, rest, 0);
    CutKnown(s, b, ReadTag(b).value, i);
  }

  lemma ToWireFits(n: int)
    ensures 0 <= ToWire(n) < TWO_64
  {
  }

  lemma CutKnown(s: Schema, b: Bytes, h: Header, i: nat)
    requires b != [] && ReadTag(b) == Ok(h) && h.num > 0
    requires Slot(s.fields, h.num) == i && h.wireType == WireType(s.fields[i].kind)
    ensures h.wireType == 0 ==> Cut(s, b) == CutNumber(b, h, i)
    ensures h.wireType == 2 ==> Cut(s, b) == CutChunk(b, h, i)
  {
  }

  /** A length-delimited record is cut off with the payload it was written for. */
  lemma ChunkRecord(s: Schema, i: nat, p: Bytes, rest: Bytes)
    requires ValidSchema(s) && i < |s.fields| && !s.fields[i].kind.Scalar?
    requires |p| < TWO_63
    ensures var b := EncodeChunk(s.fields[i].num, p);
            b + rest != [] && Cut(s, b + rest) == Ok(Record(i, Chunk(p), |b|))
  {
    hide Tag, Varint, ReadVarint, ReadTag, Slot;
    var num := s.fields[i].num;
    assert s.fields[i] in s.fields;
    var t, l := Tag(num, 2), Varint(|p|);
    var b := EncodeChunk(num, p) + rest;
    assert b == t + (l + (p + rest));
    TagRoundTrip(num, 2, l + (p + rest));
    SlotOf(s, i);
    assert b[|t|..] == l + (p + rest);
    VarintAtMostTen(|p|);
    VarintRoundTrip(|p|, p + rest, 0);
    assert ReadLength(b[|t|..]) == Ok(Extent(|l|, |p|));
    assert b[|t| + |l|..|t| + |l| + |p|] == p;
    CutKnown(s, b, ReadTag(b).value, i);
  }

  // ----- one field

  /** The message with slot `i` replaced. */
  ghost function With(x: Message, i: nat, v: Value): Message
    requires i < |x.values|
  {
    x.(values := x.values[i := v])
  }

  /** A record at the front is absorbed and the rest is decoded from there. */
  lemma DecodeFront(s: Schema, o: Options, x: Message, b: Bytes, rest: Bytes, r: Record, y: Message)
    requires Fits(s, x) && b != [] && b + rest != [] && Cut(s, b + rest) == Ok(r) && r.len == |b|
    requires Absorb(s, o, x, r) == Ok(y)
    ensures Decode(s, o, x, b + rest) == Shifted(Decode(s, o, y, rest), |b|)
  {
    hide Cut, Absorb;
    DecodeStep(s, o, x, b + rest, r);
    assert (b + rest)[|b|..] == rest;
  }

  lemma {:induction false} EltRoundTrip(o: Options, e: Elem, x: Elt)
    requires ValidElem(e) && GoodElt(o, e, x) && !o.discardUnknown
    requires |EncodeElt(e, x)| < TWO_63
    ensures DecodeElt(o, e, None, EncodeElt(e, x)) == Ok(x)
    decreases x
  {
    if e.Sub? {
      RoundTrip(o, e.schema, x.msg);
    }
  }

  /** The records of a list are decoded one by one onto the elements already there. */
  lemma {:induction false} EltsRoundTrip(s: Schema, o: Options, x: Message, i: nat, done: seq<Elt>, xs: seq<Elt>)
    requires ValidSchema(s) && Fits(s, x) && i < |s.fields| && !o.discardUnknown
    requires s.fields[i].kind.One? || s.fields[i].kind.Many?
    requires s.fields[i].kind.One? ==> done == [] && |xs| <= 1
    requires x.values[i] == List(done)
    requires forall y | y in xs :: GoodElt(o, s.fields[i].kind.elem, y)
    requires |EncodeElts(s.fields[i].num, s.fields[i].kind.elem, xs)| < TWO_63
    ensures Decode(s, o, x, EncodeElts(s.fields[i].num, s.fields[i].kind.elem, xs))
            == Ok(With(x, i, List(done + xs)))
    decreases xs
  {
    hide Cut, Decode, ValidSchema, GoodElt, EncodeChunk;
    var k, num := s.fields[i].kind, s.fields[i].num;
    if xs == [] {
      assert done + xs == done;
      assert With(x, i, List(done)).values == x.values;
      DecodeNothing(s, o, x);
    } else {
      var p := EncodeElt(k.elem, xs[0]);
      var rest := EncodeElts(num, k.elem, xs[1..]);
      var b := EncodeChunk(num, p);
      assert |p| < |b| by { ChunkLonger(num, p); }
      assert ValidElem(k.elem) by { ElemValid(s, i); }
      EltRoundTrip(o, k.elem, xs[0]);
      var y := With(x, i, List(done + [xs[0]]));
      EltAbsorbed(s, o, x, i, done, xs[0], p, rest);
      if xs[1..] != [] || k.Many? {
        EltsRoundTrip(s, o, y, i, done + [xs[0]], xs[1..]);
        assert done + [xs[0]] + xs[1..] == done + xs;
      } else {
        assert rest == [] && done + xs == done + [xs[0]];
        DecodeNothing(s, o, y);
      }
      assert With(y, i, List(done + xs)) == With(x, i, List(done + xs));
    }
  }

  lemma ChunkLonger(num: nat, p: Bytes)
    ensures |p| < |EncodeChunk(num, p)|
  {
  }

  lemma ElemValid(s: Schema, i: nat)
    requires ValidSchema(s) && i < |s.fields| && (s.fields[i].kind.One? || s.fields[i].kind.Many?)
    ensures ValidElem(s.fields[i].kind.elem)
  {
    assert s.fields[i] in s.fields;
  }

  lemma EltAbsorbed(s: Schema, o: Options, x: Message, i: nat, done: seq<Elt>, e: Elt, p: Bytes, rest: Bytes)
    requires ValidSchema(s) && Fits(s, x) && i < |s.fields| && x.values[i] == List(done)
    requires (s.fields[i].kind.One? && done == []) || s.fields[i].kind.Many?
    requires DecodeElt(o, s.fields[i].kind.elem, None, p) == Ok(e) && |p| < TWO_63
    ensures var b := EncodeChunk(s.fields[i].num, p);
            Decode(s, o, x, b + rest) == Shifted(Decode(s, o, With(x, i, List(done + [e])), rest), |b|)
  {
    hide Cut, Decode, Update, ValidSchema;
    var b := EncodeChunk(s.fields[i].num, p);
    ChunkRecord(s, i, p, rest);
    UpdateList(o, s.fields[i].kind, done, e, p);
    DecodeFront(s, o, x, b, rest, Record(i, Chunk(p), |b|), With(x, i, List(done + [e])));
  }

  lemma UpdateList(o: Options, k: Kind, done: seq<Elt>, x: Elt, p: Bytes)
    requires (k.One? && done == []) || k.Many?
    requires DecodeElt(o, k.elem, None, p) == Ok(x)
    ensures Update(o, k, List(done), Chunk(p)) == Ok(List(done + [x]))
  {
    if k.One? { assert done + [x] == [x]; }
  }

  /** The records of one field, decoded onto its default, restore the field and touch no other. */
  lemma {:induction false} FieldRoundTrip(s: Schema, o: Options, x: Message, i: nat, v: Value)
    requires ValidSchema(s) && Fits(s, x) && i < |s.fields| && !o.discardUnknown
    requires x.values[i] == Default(s.fields[i].kind)
    requires GoodValue(o, s.fields[i].kind, v)
    requires |EncodeField(s.fields[i], v)| < TWO_63
    ensures Decode(s, o, x, EncodeField(s.fields[i], v)) == Ok(With(x, i, v))
    decreases v
  {
    hide Cut, Update;
    var f := s.fields[i];
    var b := EncodeField(f, v);
    if v == Default(f.kind) {
      assert b == [];
      assert With(x, i, v).values == x.values;
    } else if v.List? {
      EltsRoundTrip(s, o, x, i, [], v.elts);
      assert [] + v.elts == v.elts;
    } else {
      assert b + [] == b;
      var r: Record;
      if v.Num? {
        NumberRecord(s, i, v.n, []);
        r := Record(i, Varnum(ToWire(v.n)), |b|);
        assert Update(o, f.kind, x.values[i], r.payload) == Ok(v) by {
          UpdateNumber(o, f.kind.t, x.values[i], v.n);
        }
      } else {
        ChunkRecord(s, i, v.text, []);
        r := Record(i, Chunk(v.text), |b|);
        assert Update(o, f.kind, x.values[i], r.payload) == Ok(v) by {
          UpdateText(o, x.values[i], v.text);
        }
      }
      DecodeFront(s, o, x, b, [], r, With(x, i, v));
    }
  }

  lemma UpdateNumber(o: Options, t: ScalarType, w: Value, n: int)
    requires InRange(t, n)
    ensures Update(o, Scalar(t), w, Varnum(ToWire(n))) == Ok(Num(n))
  {
    ScalarRoundTrip(t, n);
  }

  lemma UpdateText(o: Options, w: Value, p: Bytes)
    ensures Update(o, Text, w, Chunk(p)) == Ok(Str(p))
  {
  }

  // ----- all fields

  /** Every field of `r` is a field of `s`. */
  ghost predicate Subschema(r: Schema, s: Schema) {
    ValidSchema(r) && ValidSchema(s) && forall f | f in r.fields :: f in s.fields
  }

  /** The first `k` fields of a message of schema `r`, as a message of schema `s`. */
  ghost function LiftUpTo(s: Schema, r: Schema, m: Message, k: nat): (x: Message)
    requires Fits(r, m) && k <= |r.fields|
    ensures Fits(s, x) && x.unknown == []
  {
    Message(
      seq(|s.fields|, i requires 0 <= i < |s.fields| =>
        var j := Slot(r.fields, s.fields[i].num);
        if 0 <= j < k then m.values[j] else Default(s.fields[i].kind)),
      [])
  }

  lemma LiftStep(s: Schema, r: Schema, m: Message, k: nat) returns (i: nat)
    requires Subschema(r, s) && Fits(r, m) && k < |r.fields|
    ensures i < |s.fields| && s.fields[i] == r.fields[k]
    ensures LiftUpTo(s, r, m, k).values[i] == Default(s.fields[i].kind)
    ensures LiftUpTo(s, r, m, k + 1) == With(LiftUpTo(s, r, m, k), i, m.values[k])
  {
    assert r.fields[k] in s.fields;
    i :| 0 <= i < |s.fields| && s.fields[i] == r.fields[k];
    SlotOf(r, k);
    var a, b := LiftUpTo(s, r, m, k + 1), With(LiftUpTo(s, r, m, k), i, m.values[k]);
    forall j | 0 <= j < |s.fields|
      ensures a.values[j] == b.values[j]
    {
      if j != i {
        assert s.fields[j].num != s.fields[i].num;
      }
    }
    assert a.values == b.values;
  }

  /** A reader with more fields than the writer restores the writer's fields. */
  lemma {:induction false} FieldsRoundTrip(o: Options, s: Schema, r: Schema, m: Message, k: nat)
    requires Subschema(r, s) && WellFormed(o, r, m) && !o.discardUnknown
    requires k <= |r.fields| && |EncodeFrom(r, m, k)| < TWO_63
    ensures Decode(s, o, LiftUpTo(s, r, m, k), EncodeFrom(r, m, k))
            == Ok(LiftUpTo(s, r, m, |r.fields|))
    decreases m, |r.fields| - k
  {
    hide Decode, LiftUpTo;
    if k < |r.fields| {
      var x := LiftUpTo(s, r, m, k);
      var i := LiftStep(s, r, m, k);
      var b, rest := EncodeField(r.fields[k], m.values[k]), EncodeFrom(r, m, k + 1);
      FieldRoundTrip(s, o, x, i, m.values[k]);
      Concatenation(s, o, x, b, rest);
      FieldsRoundTrip(o, s, r, m, k + 1);
    } else {
      DecodeNothing(s, o, LiftUpTo(s, r, m, k));
    }
  }

  lemma DecodeNothing(s: Schema, o: Options, x: Message)
    requires Fits(s, x)
    ensures Decode(s, o, x, []) == Ok(x)
  {
  }

  lemma LiftNone(s: Schema, r: Schema, m: Message)
    requires Fits(r, m)
    ensures LiftUpTo(s, r, m, 0) == Empty(s)
  {
    assert LiftUpTo(s, r, m, 0).values == Empty(s).values;
  }

  lemma LiftSame(s: Schema, m: Message)
    requires ValidSchema(s) && Fits(s, m)
    ensures LiftUpTo(s, s, m, |s.fields|) == m.(unknown := [])
  {
    forall i | 0 <= i < |s.fields|
      ensures LiftUpTo(s, s, m, |s.fields|).values[i] == m.values[i]
    {
      SlotOf(s, i);
    }
    assert LiftUpTo(s, s, m, |s.fields|).values == m.values;
  }

  /** Unknown records are kept byte for byte. */
  lemma {:induction false} UnknownRoundTrip(s: Schema, o: Options, x: Message, u: Bytes)
    requires Fits(s, x) && UnknownOnly(s, u) && !o.discardUnknown
    ensures Decode(s, o, x, u) == Ok(x.(unknown := x.unknown + u))
    decreases |u|
  {
    hide Cut;
    if u == [] {
      assert x.unknown + u == x.unknown;
    } else {
      var r := Cut(s, u).value;
      CutWhole(s, u);
      var y := x.(unknown := x.unknown + u[..r.len]);
      DecodeStep(s, o, x, u, r);
      UnknownRoundTrip(s, o, y, u[r.len..]);
      assert x.unknown + u[..r.len] + u[r.len..] == x.unknown + u;
    }
  }

  /** Round trip: decoding the encoding of a well-formed message gives the message back. */
  lemma {:induction false} RoundTrip(o: Options, s: Schema, m: Message)
    requires ValidSchema(s) && WellFormed(o, s, m) && !o.discardUnknown
    requires |Encode(s, m)| < TWO_63
    ensures Decode(s, o, Empty(s), Encode(s, m)) == Ok(m)
    decreases m, |s.fields| + 1
  {
    hide Decode, LiftUpTo, Cut;
    FieldsRoundTrip(o, s, s, m, 0);
    LiftNone(s, s, m);
    LiftSame(s, m);
    Concatenation(s, o, Empty(s), EncodeFrom(s, m, 0), m.unknown);
    UnknownRoundTrip(s, o, m.(unknown := []), m.unknown);
    assert [] + m.unknown == m.unknown;
  }

  /** Two well-formed messages with the same encoding are equal. */
  lemma EncodeInjective(o: Options, s: Schema, m: Message, m': Message)
    requires ValidSchema(s) && WellFormed(o, s, m) && WellFormed(o, s, m') && !o.discardUnknown
    requires |Encode(s, m)| < TWO_63 && Encode(s, m) == Encode(s, m')
    ensures m == m'
  {
    RoundTrip(o, s, m);
    RoundTrip(o, s, m');
  }

  // ----- a second occurrence of a singular sub-message

  /** With merging, two occurrences of a singular sub-message act as one occurrence of their
      concatenated payloads. */
  lemma MergeIsConcatenation(o: Options, s: Schema, v: Value, p: Bytes, q: Bytes, w: Value)
    requires o.merge && Update(o, One(Sub(s)), v, Chunk(p)) == Ok(w)
    ensures Update(o, One(Sub(s)), w, Chunk(q)).Ok? <==> Update(o, One(Sub(s)), v, Chunk(p + q)).Ok?
    ensures Update(o, One(Sub(s)), w, Chunk(q)).Ok? ==>
              Update(o, One(Sub(s)), w, Chunk(q)) == Update(o, One(Sub(s)), v, Chunk(p + q))
  {
    hide Decode;
    var prev := if v.List? && v.elts != [] then Some(v.elts[0]) else None;
    var start :=
      if prev.Some? && prev.value.Node? && Fits(s, prev.value.msg) then prev.value.msg else Empty(s);
    Concatenation(s, o, start, p, q);
  }

  /** The payloads of the records of slot `i`, one behind the other. */
  ghost function Payloads(s: Schema, b: Bytes, i: nat): Bytes
    requires Framed(s, b)
    decreases |b|
  {
    if b == [] then []
    else
      var r := Cut(s, b).value;
      (if r.slot == i && r.payload.Chunk? then r.payload.bytes else []) + Payloads(s, b[r.len..], i)
  }

  /** Further records of the slot act as further payload of the occurrence in front of them. */
  lemma {:induction false} TrackMerged(
    s: Schema, o: Options, i: nat, t: Schema, v: Value, p: Bytes, w: Value, b: Bytes)
    requires Framed(s, b) && i < |s.fields| && s.fields[i].kind == One(Sub(t)) && o.merge
    requires Update(o, One(Sub(t)), v, Chunk(p)) == Ok(w) && Track(s, o, i, w, b).Some?
    ensures Update(o, One(Sub(t)), v, Chunk(p + Payloads(s, b, i))) == Ok(Track(s, o, i, w, b).value)
    decreases |b|
  {
    hide Cut, Update;
    if b == [] {
      assert p + [] == p;
    } else {
      var r := Cut(s, b).value;
      CutWhole(s, b);
      var rest := b[r.len..];
      if r.slot != i {
        assert Payloads(s, b, i) == Payloads(s, rest, i);
        TrackMerged(s, o, i, t, v, p, w, rest);
      } else {
        ChunkInSlot(s, b);
        var q := r.payload.bytes;
        MergeIsConcatenation(o, t, v, p, q, w);
        Associate(p, q, Payloads(s, rest, i));
        TrackMerged(s, o, i, t, v, p + q, Update(o, One(Sub(t)), w, Chunk(q)).value, rest);
      }
    }
  }

  lemma ChunkInSlot(s: Schema, b: Bytes)
    requires b != [] && Cut(s, b).Ok? && Cut(s, b).value.slot >= 0
    ensures !s.fields[Cut(s, b).value.slot].kind.Scalar? ==> Cut(s, b).value.payload.Chunk?
  {
  }

  lemma {:induction false} TrackOccurrences(s: Schema, o: Options, i: nat, t: Schema, v: Value, b: Bytes)
    requires Framed(s, b) && i < |s.fields| && s.fields[i].kind == One(Sub(t)) && o.merge
    requires Track(s, o, i, v, b).Some?
    ensures if Only(s, b, i) == [] then Track(s, o, i, v, b) == Some(v)
            else Update(o, One(Sub(t)), v, Chunk(Payloads(s, b, i))) == Ok(Track(s, o, i, v, b).value)
    decreases |b|
  {
    hide Cut, Update;
    if b != [] {
      var r := Cut(s, b).value;
      CutWhole(s, b);
      var rest := b[r.len..];
      if r.slot != i {
        assert Payloads(s, b, i) == Payloads(s, rest, i) && Only(s, b, i) == Only(s, rest, i);
        TrackOccurrences(s, o, i, t, v, rest);
      } else {
        ChunkInSlot(s, b);
        var q := r.payload.bytes;
        TrackMerged(s, o, i, t, v, q, Update(o, One(Sub(t)), v, Chunk(q)).value, rest);
      }
    }
  }

  /** With merging, a singular sub-message of an accepted buffer ends up as one occurrence with all
      its payloads in a row would leave it, whatever surrounds them; without any it stays. */
  lemma MergedOccurrences(s: Schema, o: Options, x: Message, b: Bytes, y: Message, i: nat, t: Schema)
    requires Fits(s, x) && Decode(s, o, x, b) == Ok(y) && o.merge
    requires i < |s.fields| && s.fields[i].kind == One(Sub(t))
    ensures Framed(s, b)
    ensures if Only(s, b, i) == [] then y.values[i] == x.values[i]
            else Update(o, One(Sub(t)), x.values[i], Chunk(Payloads(s, b, i))) == Ok(y.values[i])
  {
    hide Cut, Decode, Update, Only, Payloads;
    DecodeIsFieldWise(s, o, x, b, y);
    TrackOccurrences(s, o, i, t, x.values[i], b);
  }

  // ----- groups

  /** A sequence of complete fields of any kind. */
  ghost predicate CompleteFields(b: Bytes)
    decreases |b|
  {
    b == [] || (Skip(b, 0, 0).Ok? && Skip(b, 0, 0).value <= |b| && CompleteFields(b[Skip(b, 0, 0).value..]))
  }

  /** What completes a field outside a group is passed over inside `more` further groups. */
  lemma {:induction false} SkipInside(b: Bytes, at: nat, depth: nat, end: nat, more: nat, at': nat)
    requires Skip(b, at, depth) == Ok(end) && end - at <= |b| && more > 0
    requires at' + (end - at) < TWO_63
    ensures Skip(b, at', depth + more) == Skip(b[end - at..], at' + (end - at), more)
    decreases |b|
  {
    hide ReadItem, Skip;
    assert b != [] by { SkipNothing(at, depth); }
    SkipStep(b, at, depth);
    var x := ReadItem(b).value;
    var inner := DepthAfter(depth, x.wireType);
    SkipFrom(b, at', depth + more, x, inner + more);
    if inner > 0 {
      SkipInside(b[x.len..], at + x.len, inner, end, more, at' + x.len);
      assert b[x.len..][end - at - x.len..] == b[end - at..];
    }
  }

  lemma SkipNothing(at: nat, depth: nat)
    ensures Skip([], at, depth).Err?
  {
  }

  lemma {:induction false} SkipFields(b: Bytes, c: Bytes, at: nat)
    requires CompleteFields(b) && at + |b| < TWO_63
    ensures Skip(b + c, at, 1) == Skip(c, at + |b|, 1)
    decreases |b|
  {
    hide Skip;
    if b == [] {
      assert b + c == c;
    } else {
      var n := Skip(b, 0, 0).value;
      assert (b + c)[..n] == b[..n];
      SkipLocal(b, b + c, 0, 0, n);
      SkipInside(b + c, 0, 0, n, 1, at);
      assert (b + c)[n..] == b[n..] + c;
      SkipFields(b[n..], c, at + n);
    }
  }

  /** A group is skipped as a whole: its start tag, all the fields it holds, its end tag. */
  lemma SkipGroup(first: nat, body: Bytes, last: nat, rest: Bytes)
    requires 0 < first <= MAX_FIELD_NUMBER && 0 < last <= MAX_FIELD_NUMBER && CompleteFields(body)
    requires |Tag(first, 3) + body + Tag(last, 4)| < TWO_63
    ensures Skip(Tag(first, 3) + body + Tag(last, 4) + rest, 0, 0)
            == Ok(|Tag(first, 3) + body + Tag(last, 4)|)
  {
    hide Skip, Tag, ReadTag, CompleteFields;
    var t, u := Tag(first, 3), Tag(last, 4);
    var b := t + body + u + rest;
    assert b == t + (body + (u + rest));
    TagRoundTrip(first, 3, body + (u + rest));
    TagRoundTrip(last, 4, rest);
    assert ReadItem(b) == Ok(Item(3, |t|)) && ReadItem(u + rest) == Ok(Item(4, |u|));
    SkipFrom(b, 0, 0, Item(3, |t|), 1);
    assert b[|t|..] == body + (u + rest);
    SkipFields(body, u + rest, |t|);
    SkipFrom(u + rest, |t| + |body|, 1, Item(4, |u|), 0);
  }

  lemma {:induction false} DefaultsEncodeToNothing(s: Schema, x: Message, k: nat)
    requires Fits(s, x) && k <= |s.fields|
    requires forall i :: k <= i < |s.fields| ==> x.values[i] == Default(s.fields[i].kind)
    ensures EncodeFrom(s, x, k) == []
    decreases |s.fields| - k
  {
    if k < |s.fields| { DefaultsEncodeToNothing(s, x, k + 1); }
  }
}
