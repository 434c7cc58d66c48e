/**
 Tag words with the same header. The parser keeps the low three bits of a tag and 32 bits of what is
 above them, so different words can name the same field.
 */
module Aliases {
  import opened Varints
  import opened Schemas
  import opened Records
  import opened Codec
  import opened Streams
  import opened RoundTrips
  import opened BridgeSchemas

  /** The two words agree modulo 8, and their field numbers modulo 2^32. */
  ghost predicate Alias(w: nat, w': nat) {
    w % 8 == w' % 8 && w / 8 % TWO_32 == w' / 8 % TWO_32
  }

  /** The field number that the parser sees in a tag word. */
  function FieldNumber(w: nat): int {
    Signed(w / 8 % TWO_32, TWO_31)
  }

  lemma TagOfWord(w: nat, rest: Bytes)
    requires w < TWO_64
    ensures ReadTag(Varint(w) + rest) == Ok(Header(FieldNumber(w), w % 8, w, |Varint(w)|))
  {
    hide Varint, ReadVarint, Signed;
    VarintAtMostTen(w);
    VarintRoundTrip(w, rest, 0);
  }

  /** Two tag words are given the same field number and wire type if and only if they are aliases. */
  lemma SameHeader(w: nat, w': nat, rest: Bytes, rest': Bytes)
    requires w < TWO_64 && w' < TWO_64
    ensures var t, t' := ReadTag(Varint(w) + rest), ReadTag(Varint(w') + rest');
            t.Ok? && t'.Ok?
            && (t.value.num == t'.value.num && t.value.wireType == t'.value.wireType <==> Alias(w, w'))
  {
    hide Varint, ReadTag;
    TagOfWord(w, rest);
    TagOfWord(w', rest');
  }

  /** A record of a known field is cut alike under either tag word. */
  lemma SameCut(s: Schema, w: nat, w': nat, rest: Bytes)
    requires w < TWO_64 && w' < TWO_64 && Alias(w, w')
    requires FieldNumber(w) > 0 && Slot(s.fields, FieldNumber(w)) >= 0
    ensures var b, b' := Varint(w) + rest, Varint(w') + rest;
            b != [] && b' != [] &&
            match Cut(s, b)
            case Err(f) => Cut(s, b') == Err(if f.Final? then f else Overrun(f.end - |Varint(w)| + |Varint(w')|))
            case Ok(r) =>
              && r.len >= |Varint(w)|
              && Cut(s, b') == Ok(r.(len := r.len - |Varint(w)| + |Varint(w')|))
  {
    hide Varint, ReadVarint, Signed, Slot, ReadTag;
    var t, t' := Varint(w), Varint(w');
    var b, b' := t + rest, t' + rest;
    TagOfWord(w, rest);
    TagOfWord(w', rest);
    assert b[|t|..] == rest == b'[|t'|..];
    var i := Slot(s.fields, FieldNumber(w));
    var h, h' := ReadTag(b).value, ReadTag(b').value;
    if h.wireType == WireType(s.fields[i].kind) {
      CutKnown(s, b, h, i);
      CutKnown(s, b', h', i);
      if h.wireType == 2 && ReadLength(rest).Ok? {
        var x := ReadLength(rest).value;
        if x.start + x.len <= |rest| {
          SameChunk(t, rest, x.start, x.start + x.len);
          SameChunk(t', rest, x.start, x.start + x.len);
        }
      }
    }
  }

  lemma SameChunk(t: Bytes, rest: Bytes, from: nat, to: nat)
    requires from <= to <= |rest|
    ensures (t + rest)[|t| + from..|t| + to] == rest[from..to]
  {
  }

  /** Replacing the tag word of a known field by an alias changes neither acceptance nor message,
      wherever in the buffer it stands. */
  lemma AliasDecodesAlike(s: Schema, o: Options, x: Message, a: Bytes, w: nat, w': nat, rest: Bytes)
    requires w < TWO_64 && w' < TWO_64 && Alias(w, w')
    requires FieldNumber(w) > 0 && Slot(s.fields, FieldNumber(w)) >= 0
    requires Fits(s, x) && Decode(s, o, x, a).Ok?
    ensures var y, y' := Decode(s, o, x, a + (Varint(w) + rest)), Decode(s, o, x, a + (Varint(w') + rest));
            (y.Ok? <==> y'.Ok?) && (y.Ok? ==> y == y')
  {
    hide Varint, Cut, Absorb, Decode, Slot, FieldNumber, Alias;
    var b, b' := Varint(w) + rest, Varint(w') + rest;
    var m := Decode(s, o, x, a).value;
    Concatenation(s, o, x, a, b);
    Concatenation(s, o, x, a, b');
    SameCut(s, w, w', rest);
    if Cut(s, b).Ok? {
      var r, r' := Cut(s, b).value, Cut(s, b').value;
      CutWhole(s, b);
      CutWhole(s, b');
      AbsorbIgnoresLength(s, o, m, r, r');
      DecodeStep(s, o, m, b, r);
      DecodeStep(s, o, m, b', r');
      assert b[r.len..] == rest[r.len - |Varint(w)|..] == b'[r'.len..];
    } else {
      DecodeCutFails(s, o, m, b);
      DecodeCutFails(s, o, m, b');
    }
  }

  lemma AbsorbIgnoresLength(s: Schema, o: Options, m: Message, r: Record, r': Record)
    requires Fits(s, m) && -1 <= r.slot < |s.fields| && r' == r.(len := r'.len)
    ensures Absorb(s, o, m, r) == Absorb(s, o, m, r')
  {
  }

  /** Field number 2^32 + 1 is absorbed as field 1. */
  lemma AliasedLimit(o: Options)
    ensures Decode(PROTOCOL_LIMITS, o, Empty(PROTOCOL_LIMITS), Varint((TWO_32 + 1) * 8) + Varint(7))
            == Ok(With(Empty(PROTOCOL_LIMITS), 0, Num(7)))
  {
    hide Varint, Cut, Decode, ValidSchema, Slot;
    var e := Empty(PROTOCOL_LIMITS);
    ProtocolLimitsValid();
    SlotOf(PROTOCOL_LIMITS, 0);
    DecodeNothing(PROTOCOL_LIMITS, o, e);
    var a: Bytes := [];
    AliasDecodesAlike(PROTOCOL_LIMITS, o, e, a, 8, (TWO_32 + 1) * 8, Varint(7));
    var b := EncodeNumber(1, 7);
    assert b == Varint(8) + Varint(7) && b + [] == b;
    assert a + b == b;
    assert a + (Varint((TWO_32 + 1) * 8) + Varint(7)) == Varint((TWO_32 + 1) * 8) + Varint(7);
    NumberRecord(PROTOCOL_LIMITS, 0, 7, []);
    var y := With(e, 0, Num(7));
    DecodeFront(PROTOCOL_LIMITS, o, e, b, [], Record(0, Varnum(7), |b|), y);
    DecodeNothing(PROTOCOL_LIMITS, o, y);
  }
}
