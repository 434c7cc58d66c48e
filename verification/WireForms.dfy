/**
 The wire format spelt out in bytes: how each kind of field is written and read, what an unknown
 field of each wire type occupies, and which error a bad length has.
 */
module WireForms {
  import opened Varints
  import opened Schemas
  import opened Records
  import opened Codec
  import opened Streams
  import opened RoundTrips
  import opened Buffers

  // ----- what an unknown field occupies

  /** The length of a field outside groups is that of its tag and its payload. */
  lemma SkipOne(num: nat, wireType: nat, b: Bytes, n: nat)
    requires 0 < num <= MAX_FIELD_NUMBER && wireType < 8 && wireType != 3 && wireType != 4
    requires SkipPayload(wireType, b) == Ok(n) && |Tag(num, wireType)| + n < TWO_63
    ensures Skip(Tag(num, wireType) + b, 0, 0) == Ok(|Tag(num, wireType)| + n)
  {
    hide Skip, Tag, ReadTag, SkipPayload;
    var t := Tag(num, wireType);
    TagRoundTrip(num, wireType, b);
    assert (t + b)[|t|..] == b;
    SkipFrom(t + b, 0, 0, Item(wireType, |t| + n), 0);
  }

  lemma TagLength(num: nat, wireType: nat)
    requires num <= MAX_FIELD_NUMBER && wireType < 8
    ensures |Tag(num, wireType)| <= 10
  {
    VarintAtMostTen(num * 8 + wireType);
  }

  /** Wire type 5 is followed by four bytes, wire type 1 by eight, whatever they are. */
  lemma SkipFixed(num: nat, wireType: nat, p: Bytes, rest: Bytes)
    requires 0 < num <= MAX_FIELD_NUMBER
    requires (wireType == 5 && |p| == 4) || (wireType == 1 && |p| == 8)
    ensures Skip(Tag(num, wireType) + p + rest, 0, 0) == Ok(|Tag(num, wireType)| + |p|)
  {
    hide Skip, Tag;
    TagLength(num, wireType);
    SkipOne(num, wireType, p + rest, |p|);
    Associate(Tag(num, wireType), p, rest);
  }

  /** A varint field is passed over as it was written. */
  lemma SkipNumber(num: nat, n: int, rest: Bytes)
    requires 0 < num <= MAX_FIELD_NUMBER
    ensures Skip(EncodeNumber(num, n) + rest, 0, 0) == Ok(|EncodeNumber(num, n)|)
  {
    hide Skip, Tag, Varint, ToWire;
    var l := Varint(ToWire(n));
    TagLength(num, 0);
    ToWireFits(n);
    VarintAtMostTen(ToWire(n));
    VarintRoundTrip(ToWire(n), rest, 0);
    SkipOne(num, 0, l + rest, |l|);
    Associate(Tag(num, 0), l, rest);
  }

  /** So is a length-delimited one. */
  lemma SkipChunk(num: nat, p: Bytes, rest: Bytes)
    requires 0 < num <= MAX_FIELD_NUMBER && |EncodeChunk(num, p)| < TWO_63
    ensures Skip(EncodeChunk(num, p) + rest, 0, 0) == Ok(|EncodeChunk(num, p)|)
  {
    hide Skip, Tag, Varint;
    var t, l := Tag(num, 2), Varint(|p|);
    VarintAtMostTen(|p|);
    VarintRoundTrip(|p|, p + rest, 0);
    SkipOne(num, 2, l + (p + rest), |l| + |p|);
    assert EncodeChunk(num, p) + rest == t + (l + (p + rest));
  }

  /** Wire types 6 and 7 do not exist, and an end marker ends nothing outside a group. */
  lemma SkipRefuses(num: nat, wireType: nat, rest: Bytes)
    requires 0 < num <= MAX_FIELD_NUMBER && wireType < 8
    ensures wireType == 6 || wireType == 7 ==>
              Skip(Tag(num, wireType) + rest, 0, 0) == Err(Final(IllegalWireType(wireType)))
    ensures wireType == 4 ==> Skip(Tag(num, wireType) + rest, 0, 0) == Err(Final(UnexpectedEndOfGroup))
  {
    hide Tag, ReadTag;
    TagRoundTrip(num, wireType, rest);
  }

  /** A group that is not closed has not ended. */
  lemma SkipUnclosed(num: nat, body: Bytes)
    requires 0 < num <= MAX_FIELD_NUMBER && CompleteFields(body) && |Tag(num, 3) + body| < TWO_63
    ensures Skip(Tag(num, 3) + body, 0, 0) == Err(Final(UnexpectedEOF))
  {
    hide Tag, ReadTag, CompleteFields, Skip;
    var t := Tag(num, 3);
    TagRoundTrip(num, 3, body);
    assert ReadItem(t + body) == Ok(Item(3, |t|));
    SkipFrom(t + body, 0, 0, Item(3, |t|), 1);
    assert (t + body)[|t|..] == body && body + [] == body;
    SkipFields(body, [], |t|);
    assert Skip([], |t| + |body|, 1) == Err(Final(UnexpectedEOF)) by { SkipAtEnd(|t| + |body|); }
  }

  /** Neither has one whose last field runs past the end of the buffer. */
  lemma SkipGroupCut(num: nat, body: Bytes, c: Bytes, x: Item)
    requires 0 < num <= MAX_FIELD_NUMBER && CompleteFields(body)
    requires c != [] && ReadItem(c) == Ok(x) && x.wireType != 4 && |c| < x.len
    requires |Tag(num, 3) + body| + x.len < TWO_63
    ensures Skip(Tag(num, 3) + body + c, 0, 0) == Err(Final(UnexpectedEOF))
  {
    hide Tag, ReadTag, CompleteFields, ReadItem;
    var t := Tag(num, 3);
    var b := t + body + c;
    assert b == t + (body + c) && b[|t|..] == body + c;
    assert ReadItem(b) == Ok(Item(3, |t|)) by { StartItem(num, body + c); }
    SkipFrom(b, 0, 0, Item(3, |t|), 1);
    SkipFields(body, c, |t|);
    assert Skip(c, |t| + |body|, 1) == Err(Final(UnexpectedEOF));
  }

  lemma StartItem(num: nat, rest: Bytes)
    requires 0 < num <= MAX_FIELD_NUMBER
    ensures ReadItem(Tag(num, 3) + rest) == Ok(Item(3, |Tag(num, 3)|))
  {
    hide Tag, ReadTag;
    TagRoundTrip(num, 3, rest);
  }

  lemma SkipAtEnd(at: nat)
    ensures Skip([], at, 1) == Err(Final(UnexpectedEOF))
  {
  }

  /** A parser that does not know the field keeps an unknown fixed-width record whole; with fewer
      bytes than its width the record is cut short. */
  lemma UnknownFixed(s: Schema, o: Options, x: Message, num: nat, wireType: nat, p: Bytes)
    requires Fits(s, x) && 0 < num <= MAX_FIELD_NUMBER && Slot(s.fields, num) == -1 && !o.discardUnknown
    requires wireType == 1 || wireType == 5
    ensures |p| == (if wireType == 1 then 8 else 4) ==>
              Decode(s, o, x, Tag(num, wireType) + p) == Ok(x.(unknown := x.unknown + (Tag(num, wireType) + p)))
    ensures |p| < (if wireType == 1 then 8 else 4) ==>
              && Decode(s, o, x, Tag(num, wireType) + p).Err?
              && Report(Decode(s, o, x, Tag(num, wireType) + p).fault) == UnexpectedEOF
  {
    hide Skip, Tag, ReadTag, Decode;
    var t := Tag(num, wireType);
    var b := t + p;
    TagRoundTrip(num, wireType, p);
    TagLength(num, wireType);
    SkipOne(num, wireType, p, if wireType == 1 then 8 else 4);
    if |p| == (if wireType == 1 then 8 else 4) {
      assert b[..|b|] == b && b[|b|..] == [];
      assert Cut(s, b) == Ok(Record(-1, Whole(b), |b|));
      hide Cut;
      DecodeStep(s, o, x, b, Record(-1, Whole(b), |b|));
      DecodeNothing(s, o, x.(unknown := x.unknown + b));
    } else if |p| < (if wireType == 1 then 8 else 4) {
      DecodeCutFails(s, o, x, b);
    }
  }

  // ----- tags

  /** The tag words that are refused, with their errors: end markers first, then field numbers that
      are zero or, as 32-bit integers, negative. */
  lemma TagRefused(s: Schema, o: Options, x: Message, w: nat, rest: Bytes)
    requires Fits(s, x) && w < TWO_64
    ensures var n := w / 8 % TWO_32;
            && (w % 8 == 4 ==> Decode(s, o, x, Varint(w) + rest) == Err(Final(EndGroup)))
            && (w % 8 != 4 && n == 0 ==> Decode(s, o, x, Varint(w) + rest) == Err(Final(IllegalTag(0, w))))
            && (w % 8 != 4 && n >= TWO_31 ==>
                  Decode(s, o, x, Varint(w) + rest) == Err(Final(IllegalTag(n - TWO_32, w))))
  {
    hide Varint, ReadVarint, Decode, Slot;
    VarintAtMostTen(w);
    VarintRoundTrip(w, rest, 0);
    var b := Varint(w) + rest;
    if Cut(s, b).Err? { DecodeCutFails(s, o, x, b); }
  }

  /** A known field with a wire type that is not its own is refused, whatever follows. */
  lemma WireTypeRefused(s: Schema, o: Options, x: Message, i: nat, wireType: nat, rest: Bytes)
    requires ValidSchema(s) && Fits(s, x) && i < |s.fields| && wireType < 8 && wireType != 4
    requires wireType != (if s.fields[i].kind.Scalar? then 0 else 2)
    ensures Decode(s, o, x, Tag(s.fields[i].num, wireType) + rest)
            == Err(Final(WrongWireType(s.fields[i].num, wireType)))
  {
    hide Tag, ReadTag, Decode, Slot;
    assert s.fields[i] in s.fields;
    TagRoundTrip(s.fields[i].num, wireType, rest);
    SlotOf(s, i);
    DecodeCutFails(s, o, x, Tag(s.fields[i].num, wireType) + rest);
  }

  // ----- lengths

  /** A length prefix of 2^63 or more is a negative Go integer, known field or not. */
  lemma NegativeLength(s: Schema, o: Options, x: Message, num: nat, w: nat, rest: Bytes)
    requires Fits(s, x) && 0 < num <= MAX_FIELD_NUMBER && TWO_63 <= w < TWO_64
    requires var i := Slot(s.fields, num); i >= 0 ==> !s.fields[i].kind.Scalar?
    ensures Decode(s, o, x, Tag(num, 2) + Varint(w) + rest) == Err(Final(InvalidLength))
  {
    hide Tag, ReadTag, Varint, ReadVarint, Decode;
    var t, l := Tag(num, 2), Varint(w);
    var b := t + l + rest;
    assert b == t + (l + rest) && b[|t|..] == l + rest;
    TagRoundTrip(num, 2, l + rest);
    VarintAtMostTen(w);
    VarintRoundTrip(w, rest, 0);
    DecodeCutFails(s, o, x, b);
  }

  /** A length prefix beyond the end of the buffer is an unexpected end, unless the end it declares
      does not fit a 64-bit integer. */
  lemma LengthBeyond(s: Schema, o: Options, x: Message, num: nat, w: nat, rest: Bytes)
    requires Fits(s, x) && 0 < num <= MAX_FIELD_NUMBER && |rest| < w < TWO_63
    requires var i := Slot(s.fields, num); i >= 0 ==> !s.fields[i].kind.Scalar?
    ensures var y := Decode(s, o, x, Tag(num, 2) + Varint(w) + rest);
            var end := |Tag(num, 2)| + |Varint(w)| + w;
            y.Err? && Report(y.fault) == (if end < TWO_63 then UnexpectedEOF else InvalidLength)
  {
    hide Tag, ReadTag, Varint, ReadLength, Decode, Cut, Skip, Slot;
    var t, l := Tag(num, 2), Varint(w);
    var b := t + l + rest;
    assert b == t + (l + rest) && b[|t|..] == l + rest;
    TagRoundTrip(num, 2, l + rest);
    LengthRead(w, rest);
    var i := Slot(s.fields, num);
    if i >= 0 {
      CutKnown(s, b, ReadTag(b).value, i);
    } else {
      CutStranger(s, b, ReadTag(b).value);
      SkipBeyond(b, |t| + |l| + w);
    }
    DecodeCutFails(s, o, x, b);
  }

  lemma LengthRead(w: nat, rest: Bytes)
    requires w < TWO_63
    ensures ReadLength(Varint(w) + rest) == Ok(Extent(|Varint(w)|, w))
  {
    hide Varint, ReadVarint;
    VarintAtMostTen(w);
    VarintRoundTrip(w, rest, 0);
  }

  lemma CutStranger(s: Schema, b: Bytes, h: Header)
    requires b != [] && ReadTag(b) == Ok(h) && h.num > 0 && h.wireType != 4 && Slot(s.fields, h.num) == -1
    ensures Cut(s, b) == CutUnknown(b)
  {
  }

  /** A length-delimited item outside groups that ends at `end`. */
  lemma SkipBeyond(b: Bytes, end: nat)
    requires b != [] && ReadTag(b).Ok? && ReadTag(b).value.wireType == 2
    requires ReadLength(b[ReadTag(b).value.len..]).Ok?
    requires var x := ReadLength(b[ReadTag(b).value.len..]).value; end == ReadTag(b).value.len + x.start + x.len
    ensures Skip(b, 0, 0) == (if end < TWO_63 then Ok(end) else Err(Final(InvalidLength)))
  {
    hide ReadTag, ReadLength;
    assert ReadItem(b) == Ok(Item(2, end));
  }

  // ----- reading one record

  /** A varint record: its number, truncated to the type of the field. */
  lemma NumberRead(s: Schema, o: Options, x: Message, i: nat, v: nat)
    requires ValidSchema(s) && Fits(s, x) && i < |s.fields| && s.fields[i].kind.Scalar? && v < TWO_64
    ensures Decode(s, o, x, Tag(s.fields[i].num, 0) + Varint(v))
            == Ok(With(x, i, Num(FromWire(s.fields[i].kind.t, v))))
  {
    hide Cut, Decode, Varint, Tag, FromWire, ValidSchema, EncodeNumber;
    var num := s.fields[i].num;
    var b := Tag(num, 0) + Varint(v);
    assert b + [] == b && EncodeNumber(num, v) == b by { NumberForm(num, v); }
    NumberRecord(s, i, v, []);
    var r := Record(i, Varnum(v), |b|);
    var y := With(x, i, Num(FromWire(s.fields[i].kind.t, v)));
    assert Absorb(s, o, x, r) == Ok(y) by { UpdateNum(o, s.fields[i].kind.t, x.values[i], v); }
    DecodeFront(s, o, x, b, [], r, y);
    DecodeNothing(s, o, y);
  }

  lemma NumberForm(num: nat, v: nat)
    requires v < TWO_64
    ensures EncodeNumber(num, v) == Tag(num, 0) + Varint(v) && ToWire(v) == v
  {
  }

  /** A bool is true for every number but zero. */
  lemma BoolRead(s: Schema, o: Options, x: Message, i: nat, v: nat)
    requires ValidSchema(s) && Fits(s, x) && i < |s.fields| && s.fields[i].kind == Scalar(Bool) && v < TWO_64
    ensures Decode(s, o, x, Tag(s.fields[i].num, 0) + Varint(v))
            == Ok(With(x, i, Num(if v == 0 then 0 else 1)))
  {
    hide ValidSchema, Decode;
    NumberRead(s, o, x, i, v);
  }

  /** A string record replaces the string. */
  lemma TextRead(s: Schema, o: Options, x: Message, i: nat, p: Bytes)
    requires ValidSchema(s) && Fits(s, x) && i < |s.fields| && s.fields[i].kind.Text? && |p| < TWO_63
    ensures Decode(s, o, x, Tag(s.fields[i].num, 2) + Varint(|p|) + p) == Ok(With(x, i, Str(p)))
  {
    hide ValidSchema, Decode, Update;
    UpdateText(o, x.values[i], p);
    ChunkRead(s, o, x, i, p);
  }

  lemma ChunkRead(s: Schema, o: Options, x: Message, i: nat, p: Bytes)
    requires ValidSchema(s) && Fits(s, x) && i < |s.fields| && !s.fields[i].kind.Scalar? && |p| < TWO_63
    ensures var b := Tag(s.fields[i].num, 2) + Varint(|p|) + p;
            match Update(o, s.fields[i].kind, x.values[i], Chunk(p))
            case Err(f) => Decode(s, o, x, b) == Err(f)
            case Ok(w) => Decode(s, o, x, b) == Ok(With(x, i, w))
  {
    hide Cut, Update, ValidSchema, Decode, Tag, Varint;
    var b := EncodeChunk(s.fields[i].num, p);
    assert b + [] == b && b[|b|..] == [];
    ChunkRecord(s, i, p, []);
    DecodeStep(s, o, x, b, Record(i, Chunk(p), |b|));
    var w := Update(o, s.fields[i].kind, x.values[i], Chunk(p));
    if w.Ok? { DecodeNothing(s, o, With(x, i, w.value)); }
  }

  /** What an element read behind the elements `kept` makes of slot `i`. */
  function Stored(x: Message, i: nat, kept: seq<Elt>, r: Result<Elt>): Result<Message>
    requires i < |x.values|
  {
    match r
    case Err(f) => Err(f)
    case Ok(e) => Ok(x.(values := x.values[i := List(kept + [e])]))
  }

  function Elements(v: Value): seq<Elt> {
    if v.List? then v.elts else []
  }

  /** A record of a repeated field adds an element that is read from nothing. */
  function ReadMany(o: Options, x: Message, i: nat, e: Elem, p: Bytes): Result<Message>
    requires i < |x.values|
  {
    Stored(x, i, Elements(x.values[i]), DecodeElt(o, e, None, p))
  }

  /** A record of a nullable field replaces the element, which is read from nothing or, with
      merging, from the one that is there. */
  function ReadOne(o: Options, x: Message, i: nat, e: Elem, p: Bytes): Result<Message>
    requires i < |x.values|
  {
    var there := Elements(x.values[i]);
    Stored(x, i, [], DecodeElt(o, e, if o.merge && there != [] then Some(there[0]) else None, p))
  }

  lemma ManyRead(s: Schema, o: Options, x: Message, i: nat, p: Bytes)
    requires ValidSchema(s) && Fits(s, x) && i < |s.fields| && s.fields[i].kind.Many? && |p| < TWO_63
    ensures Decode(s, o, x, Tag(s.fields[i].num, 2) + Varint(|p|) + p) == ReadMany(o, x, i, s.fields[i].kind.elem, p)
  {
    hide ValidSchema, Decode, DecodeElt, Tag, Varint;
    ChunkRead(s, o, x, i, p);
  }

  lemma OneRead(s: Schema, o: Options, x: Message, i: nat, p: Bytes)
    requires ValidSchema(s) && Fits(s, x) && i < |s.fields| && s.fields[i].kind.One? && |p| < TWO_63
    ensures Decode(s, o, x, Tag(s.fields[i].num, 2) + Varint(|p|) + p) == ReadOne(o, x, i, s.fields[i].kind.elem, p)
  {
    hide ValidSchema, Decode, DecodeElt, Tag, Varint;
    ChunkRead(s, o, x, i, p);
    assert forall e: Elt :: [] + [e] == [e];
  }

  // ----- the same with the tag bytes of a message

  /** The tag byte followed by the varint of `v` sets slot `i` to the number `n`. */
  ghost predicate ReadsNumber(s: Schema, o: Options, x: Message, tag: Byte, v: nat, i: nat, n: int)
    requires Fits(s, x) && i < |s.fields|
  {
    Decode(s, o, x, [tag] + Varint(v)) == Ok(With(x, i, Num(n)))
  }

  /** The tag followed by the length of `p` and `p` has the outcome `y`. */
  ghost predicate ReadsChunk(s: Schema, o: Options, x: Message, tag: Bytes, p: Bytes, y: Result<Message>)
    requires Fits(s, x)
  {
    Decode(s, o, x, tag + Varint(|p|) + p) == y
  }

  /** `int64` of a 64-bit word. */
  function Int64(v: nat): int {
    if v < TWO_63 then v else v - TWO_64
  }

  /** `int32` of the low half of a word; an enum is one. */
  function Int32(v: nat): int {
    if v % TWO_32 < TWO_31 then v % TWO_32 else v % TWO_32 - TWO_32
  }

  /** A field's value in terms of the machine word that was accumulated for it. */
  lemma WordValue(t: ScalarType, v: nat, x: nat)
    requires v == x % Word(if t in {U32, I32, Enum} then 32 else 64)
    ensures t == U64 || t == U32 ==> FromWire(t, x) == v
    ensures t == I64 ==> FromWire(t, x) == Int64(v) == Signed(v, TWO_63)
    ensures t == I32 || t == Enum ==> FromWire(t, x) == Int32(v) == Signed(v, TWO_31)
    ensures t == Bool ==> FromWire(t, x) == (if v != 0 then 1 else 0)
  {
  }

  lemma ScalarSlot(s: Schema, o: Options, x: Message, i: nat, v: nat)
    requires ValidSchema(s) && Fits(s, x) && i < |s.fields| && s.fields[i].kind.Scalar? && v < TWO_64
    requires 1 <= s.fields[i].num <= 15
    ensures ReadsNumber(s, o, x, s.fields[i].num * 8, v, i,
                        match s.fields[i].kind.t
                        case U64 => v
                        case U32 => v % TWO_32
                        case I64 => Int64(v)
                        case I32 => Int32(v)
                        case Enum => Int32(v)
                        case Bool => if v == 0 then 0 else 1)
  {
    hide ValidSchema, Decode;
    ShortTag(s.fields[i].num, 0);
    NumberRead(s, o, x, i, v);
  }

  lemma TextSlot(s: Schema, o: Options, x: Message, i: nat, p: Bytes)
    requires ValidSchema(s) && Fits(s, x) && i < |s.fields| && s.fields[i].kind.Text? && |p| < TWO_63
    requires 1 <= s.fields[i].num <= 15
    ensures ReadsChunk(s, o, x, [s.fields[i].num * 8 + 2], p, Ok(With(x, i, Str(p))))
  {
    hide ValidSchema, Decode;
    ShortTag(s.fields[i].num, 2);
    TextRead(s, o, x, i, p);
  }

  lemma ListSlot(s: Schema, o: Options, x: Message, i: nat, p: Bytes)
    requires ValidSchema(s) && Fits(s, x) && i < |s.fields| && |p| < TWO_63
    requires s.fields[i].kind.One? || s.fields[i].kind.Many?
    ensures var e := s.fields[i].kind.elem;
            ReadsChunk(s, o, x, Tag(s.fields[i].num, 2), p,
                       if s.fields[i].kind.One? then ReadOne(o, x, i, e, p) else ReadMany(o, x, i, e, p))
    ensures 1 <= s.fields[i].num <= 15 ==> Tag(s.fields[i].num, 2) == [s.fields[i].num * 8 + 2]
  {
    hide ValidSchema, Decode, Tag, ReadOne, ReadMany;
    if s.fields[i].kind.One? { OneRead(s, o, x, i, p); } else { ManyRead(s, o, x, i, p); }
    if 1 <= s.fields[i].num <= 15 { ShortTag(s.fields[i].num, 2); }
  }

  // ----- writing a message

  /** A number, left out if it is zero. */
  function NumberBytes(tag: Byte, n: int): Bytes {
    if n == 0 then [] else [tag] + Varint(ToWire(n))
  }

  /** A string, left out if it is empty. */
  function TextBytes(tag: Byte, p: Bytes): Bytes {
    if p == [] then [] else [tag] + Varint(|p|) + p
  }

  /** Length-delimited records, one behind the other. */
  function ListBytes(tag: Bytes, ps: seq<Bytes>): Bytes {
    if ps == [] then [] else tag + Varint(|ps[0]|) + ps[0] + ListBytes(tag, ps[1..])
  }

  function Encodings(e: Elem, xs: seq<Elt>): (ps: seq<Bytes>)
    ensures |ps| == |xs| && forall i :: 0 <= i < |xs| ==> ps[i] == EncodeElt(e, xs[i])
  {
    seq(|xs|, i requires 0 <= i < |xs| => EncodeElt(e, xs[i]))
  }

  function Joined(parts: seq<Bytes>): Bytes {
    if parts == [] then [] else parts[0] + Joined(parts[1..])
  }

  lemma NumberPart(f: Field, n: int)
    requires 1 <= f.num <= 15
    ensures EncodeField(f, Num(n)) == NumberBytes(f.num * 8, n)
  {
    ShortTag(f.num, 0);
  }

  lemma TextPart(f: Field, p: Bytes)
    requires 1 <= f.num <= 15
    ensures EncodeField(f, Str(p)) == TextBytes(f.num * 8 + 2, p)
  {
    ShortTag(f.num, 2);
  }

  lemma ListPart(f: Field, xs: seq<Elt>)
    requires f.kind.One? || f.kind.Many?
    ensures EncodeField(f, List(xs)) == ListBytes(Tag(f.num, 2), Encodings(f.kind.elem, xs))
    ensures 1 <= f.num <= 15 ==> Tag(f.num, 2) == [f.num * 8 + 2]
  {
    if 1 <= f.num <= 15 { ShortTag(f.num, 2); }
    hide Tag;
    ElementsPart(f.num, f.kind.elem, xs);
  }

  lemma {:induction false} ElementsPart(num: nat, e: Elem, xs: seq<Elt>)
    ensures EncodeElts(num, e, xs) == ListBytes(Tag(num, 2), Encodings(e, xs))
    decreases |xs|
  {
    hide Tag, EncodeElt, Varint;
    if xs != [] {
      ElementsPart(num, e, xs[1..]);
      assert Encodings(e, xs)[1..] == Encodings(e, xs[1..]);
    }
  }

  /** A message is written as its parts, in the order of its fields, and its unknown bytes. */
  lemma Spelled(s: Schema, m: Message, parts: seq<Bytes>)
    requires Fits(s, m) && |parts| == |s.fields| + 1 && parts[|s.fields|] == m.unknown
    requires forall k :: 0 <= k < |s.fields| ==> parts[k] == EncodeField(s.fields[k], m.values[k])
    ensures Encode(s, m) == Joined(parts)
  {
    hide Encode, EncodeField;
    SpelledFrom(s, m, parts, 0);
    TailEnds(s, m);
    assert parts[0..] == parts;
  }

  lemma {:induction false} SpelledFrom(s: Schema, m: Message, parts: seq<Bytes>, k: nat)
    requires Fits(s, m) && |parts| == |s.fields| + 1 && parts[|s.fields|] == m.unknown && k <= |s.fields|
    requires forall k :: 0 <= k < |s.fields| ==> parts[k] == EncodeField(s.fields[k], m.values[k])
    ensures Tail(s, m, k) == Joined(parts[k..])
    decreases |s.fields| - k
  {
    hide EncodeField, Tail;
    assert parts[k..][1..] == parts[k + 1..];
    if k == |s.fields| {
      TailEnds(s, m);
      assert parts[k + 1..] == [];
    } else {
      TailStep(s, m, k);
      SpelledFrom(s, m, parts, k + 1);
    }
  }

  /** A list of strings, and a string that may be absent, as they are in an object. */
  lemma LeafEncodings(e: Elem, ps: seq<Bytes>)
    ensures Encodings(e, Leaves(ps)) == ps
  {
  }

  function Present(p: Option<Bytes>): seq<Bytes> {
    if p.Some? then [p.value] else []
  }

  lemma OptionalEncodings(e: Elem, p: Option<Bytes>)
    ensures Encodings(e, OptionalLeaf(p)) == Present(p)
  {
  }
}
