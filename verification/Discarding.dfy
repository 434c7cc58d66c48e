/**
 Discarding unknown fields: the option does not change which buffers are accepted, and what it drops
 is exactly the unknown bytes, in the message and in every sub-message.
 */
module Discarding {
  import opened Varints
  import opened Schemas
  import opened Records
  import opened Codec
  import opened Streams
  import opened RoundTrips
  import opened Buffers
  import opened DlcSchemas

  /** How the unknown fields are removed from a foreign message, given its identity. */
  type Strip = (nat, Bytes) -> Bytes

  function Stripped(strip: Strip, id: nat, p: Option<Bytes>): Option<Bytes> {
    if p.Some? then Some(strip(id, p.value)) else None
  }

  /** The law asked of foreign codecs: to discard while decoding is to strip what was decoded, for
      values and refusals alike. */
  ghost predicate LawfulStrip(o: Options, strip: Strip) {
    forall id, prev, b ::
      o.ext(id, true, Stripped(strip, id, prev), b) == Stripped(strip, id, o.ext(id, false, prev, b))
  }

  /** The message without unknown bytes, at every level and in foreign messages too. */
  ghost function Forget(strip: Strip, s: Schema, m: Message): (f: Message)
    requires Fits(s, m)
    ensures Fits(s, f)
    decreases m
  {
    Message(
      seq(|m.values|, i requires 0 <= i < |m.values| => ForgetValue(strip, s.fields[i].kind, m.values[i])),
      [])
  }

  ghost function ForgetValue(strip: Strip, k: Kind, v: Value): Value
    decreases v
  {
    if v.List? && (k.One? || k.Many?) then List(ForgetElts(strip, k.elem, v.elts)) else v
  }

  ghost function ForgetElts(strip: Strip, e: Elem, xs: seq<Elt>): (ys: seq<Elt>)
    ensures |ys| == |xs|
    decreases xs
  {
    seq(|xs|, i requires 0 <= i < |xs| => ForgetElt(strip, e, xs[i]))
  }

  ghost function ForgetElt(strip: Strip, e: Elem, x: Elt): Elt
    decreases x
  {
    if e.Sub? && x.Node? && Fits(e.schema, x.msg) then Node(Forget(strip, e.schema, x.msg))
    else if e.Ext? && x.Leaf? then Leaf(strip(e.id, x.bytes))
    else x
  }

  ghost function ForgetResult(strip: Strip, s: Schema, r: Result<Message>): Result<Message>
    requires r.Ok? ==> Fits(s, r.value)
  {
    match r
    case Err(_) => r
    case Ok(m) => Ok(Forget(strip, s, m))
  }

  lemma ForgetEmpty(strip: Strip, s: Schema)
    ensures Forget(strip, s, Empty(s)) == Empty(s)
  {
    forall i | 0 <= i < |s.fields|
      ensures ForgetValue(strip, s.fields[i].kind, Default(s.fields[i].kind)) == Default(s.fields[i].kind)
    {
    }
    assert Forget(strip, s, Empty(s)).values == Empty(s).values;
  }

  lemma {:induction false} ForgetDecodeElt(o: Options, strip: Strip, e: Elem, prev: Option<Elt>, p: Bytes)
    requires LawfulStrip(o, strip)
    ensures var d := DecodeElt(o.(discardUnknown := true), e,
                               if prev.Some? then Some(ForgetElt(strip, e, prev.value)) else None, p);
            match DecodeElt(o.(discardUnknown := false), e, prev, p)
            case Err(f) => d == Err(f)
            case Ok(x) => d == Ok(ForgetElt(strip, e, x))
    decreases |p|, 1
  {
    if e.Sub? {
      hide LawfulStrip, Forget;
      var s := e.schema;
      var start :=
        if prev.Some? && prev.value.Node? && Fits(s, prev.value.msg) then prev.value.msg else Empty(s);
      ForgetEmpty(strip, s);
      ForgetDecode(s, o, strip, start, p);
    } else if e.Ext? {
      assert o.ext(e.id, true, Stripped(strip, e.id, LeafBytes(prev)), p)
          == Stripped(strip, e.id, o.ext(e.id, false, LeafBytes(prev), p));
    }
  }

  lemma {:induction false} ForgetUpdate(o: Options, strip: Strip, k: Kind, v: Value, p: Payload)
    requires LawfulStrip(o, strip)
    ensures var d := Update(o.(discardUnknown := true), k, ForgetValue(strip, k, v), p);
            match Update(o.(discardUnknown := false), k, v, p)
            case Err(f) => d == Err(f)
            case Ok(w) => d == Ok(ForgetValue(strip, k, w))
    decreases ChunkLen(p), 2
  {
    hide DecodeElt, ForgetElt, ForgetElts, LawfulStrip;
    var bytes := if p.Chunk? then p.bytes else [];
    var keep := o.(discardUnknown := false);
    if k.One? {
      var prev := if o.merge && v.List? && v.elts != [] then Some(v.elts[0]) else None;
      ForgetDecodeElt(o, strip, k.elem, prev, bytes);
      if prev.Some? { ForgetFirst(strip, k.elem, v.elts); }
      var x := DecodeElt(keep, k.elem, prev, bytes);
      if x.Ok? { ForgetAppend(strip, k.elem, [], x.value); }
    } else if k.Many? {
      ForgetDecodeElt(o, strip, k.elem, None, bytes);
      var x := DecodeElt(keep, k.elem, None, bytes);
      if x.Ok? { ForgetAppend(strip, k.elem, if v.List? then v.elts else [], x.value); }
    }
  }

  lemma ForgetFirst(strip: Strip, e: Elem, xs: seq<Elt>)
    requires xs != []
    ensures ForgetElts(strip, e, xs)[0] == ForgetElt(strip, e, xs[0])
  {
  }

  lemma ForgetAppend(strip: Strip, e: Elem, xs: seq<Elt>, x: Elt)
    ensures ForgetElts(strip, e, xs + [x]) == ForgetElts(strip, e, xs) + [ForgetElt(strip, e, x)]
    ensures ForgetElts(strip, e, [x]) == [ForgetElt(strip, e, x)]
  {
  }

  lemma ForgetAbsorb(s: Schema, o: Options, strip: Strip, x: Message, r: Record)
    requires LawfulStrip(o, strip) && Fits(s, x) && -1 <= r.slot < |s.fields|
    ensures Absorb(s, o.(discardUnknown := true), Forget(strip, s, x), r)
            == ForgetResult(strip, s, Absorb(s, o.(discardUnknown := false), x, r))
    decreases ChunkLen(r.payload), 3
  {
    hide Update, ForgetValue, LawfulStrip;
    if r.slot >= 0 {
      ForgetUpdate(o, strip, s.fields[r.slot].kind, x.values[r.slot], r.payload);
      var w := Update(o.(discardUnknown := false), s.fields[r.slot].kind, x.values[r.slot], r.payload);
      if w.Ok? {
        assert Forget(strip, s, x.(values := x.values[r.slot := w.value])).values
            == Forget(strip, s, x).values[r.slot := ForgetValue(strip, s.fields[r.slot].kind, w.value)];
      }
    }
  }

  /** Discarding while decoding is decoding and then forgetting, for results and errors alike. */
  lemma {:induction false} ForgetDecode(s: Schema, o: Options, strip: Strip, x: Message, b: Bytes)
    requires LawfulStrip(o, strip) && Fits(s, x)
    ensures Decode(s, o.(discardUnknown := true), Forget(strip, s, x), b)
            == ForgetResult(strip, s, Decode(s, o.(discardUnknown := false), x, b))
    decreases |b|, 0
  {
    hide Cut, Absorb, Forget, LawfulStrip;
    if b != [] && Cut(s, b).Ok? {
      var r := Cut(s, b).value;
      CutWhole(s, b);
      CutChunkShort(s, b);
      ForgetAbsorb(s, o, strip, x, r);
      DecodeStep(s, o.(discardUnknown := true), Forget(strip, s, x), b, r);
      DecodeStep(s, o.(discardUnknown := false), x, b, r);
      var y := Absorb(s, o.(discardUnknown := false), x, r);
      if y.Ok? { ForgetDecode(s, o, strip, y.value, b[r.len..]); }
    }
  }

  lemma CutChunkShort(s: Schema, b: Bytes)
    requires b != [] && Cut(s, b).Ok?
    ensures ChunkLen(Cut(s, b).value.payload) < |b|
  {
  }

  /** A discarding reader leaves the unknown bytes of the message it is given as they are. */
  lemma DiscardKeepsOld(s: Schema, o: Options, x: Message, b: Bytes)
    requires Fits(s, x) && o.discardUnknown && Decode(s, o, x, b).Ok?
    ensures Decode(s, o, x, b).value.unknown == x.unknown
  {
    DecodeIsFieldWise(s, o, x, b, Decode(s, o, x, b).value);
  }

  /** A field of this kind does not show the option: it has no described sub-message, and a foreign
      one is decoded alike with both settings, from nothing and, where occurrences merge, from
      whatever is there. */
  ghost predicate Blind(o: Options, k: Kind) {
    k.One? || k.Many? ==>
      match k.elem
      case Raw => true
      case Sub(_) => false
      case Ext(id) =>
        forall prev: Option<Bytes>, p: Bytes :: |p| < TWO_63 && (prev.None? || (k.One? && o.merge)) ==>
          o.ext(id, true, prev, p) == o.ext(id, false, prev, p)
  }

  ghost predicate BlindFields(o: Options, s: Schema) {
    forall f | f in s.fields :: Blind(o, f.kind)
  }

  lemma BlindUpdate(o: Options, k: Kind, v: Value, p: Payload)
    requires Blind(o, k) && ChunkLen(p) < TWO_63
    ensures Update(o.(discardUnknown := true), k, v, p) == Update(o.(discardUnknown := false), k, v, p)
  {
    if (k.One? || k.Many?) && k.elem.Ext? {
      var bytes := if p.Chunk? then p.bytes else [];
      var prev := if k.One? && o.merge && v.List? && v.elts != [] then Some(v.elts[0]) else None;
      assert o.ext(k.elem.id, true, LeafBytes(prev), bytes) == o.ext(k.elem.id, false, LeafBytes(prev), bytes);
    }
  }

  lemma CutChunkFits(s: Schema, b: Bytes)
    requires b != [] && Cut(s, b).Ok?
    ensures Cut(s, b).value.slot >= 0 ==> ChunkLen(Cut(s, b).value.payload) < TWO_63
  {
  }

  /** If no field shows the option, the two readers agree from any starting message, except that
      the discarding one does not add the unknown records. */
  lemma {:induction false} DiscardBlind(s: Schema, o: Options, x: Message, b: Bytes, u: Bytes)
    requires Fits(s, x) && BlindFields(o, s)
    ensures var keep := Decode(s, o.(discardUnknown := false), x, b);
            var drop := Decode(s, o.(discardUnknown := true), x.(unknown := u), b);
            match keep
            case Err(f) => drop == Err(f)
            case Ok(y) => drop == Ok(y.(unknown := u))
    decreases |b|
  {
    hide Cut, Update, Blind;
    if b != [] && Cut(s, b).Ok? {
      var r := Cut(s, b).value;
      CutWhole(s, b);
      CutChunkFits(s, b);
      var k, d := o.(discardUnknown := false), o.(discardUnknown := true);
      if r.slot >= 0 {
        assert s.fields[r.slot] in s.fields;
        BlindUpdate(o, s.fields[r.slot].kind, x.values[r.slot], r.payload);
      }
      DecodeStep(s, k, x, b, r);
      DecodeStep(s, d, x.(unknown := u), b, r);
      var y := Absorb(s, k, x, r);
      if y.Ok? {
        DiscardBlind(s, o, y.value, b[r.len..], u);
      }
    }
  }

  /** The liveness record of an oracle participant has no sub-messages, so the option only decides
      whether its unknown records are kept. */
  lemma LivenessDiscard(o: Options, x: Message, b: Bytes, y: Message)
    requires Fits(LIVENESS, x) && Decode(LIVENESS, o.(discardUnknown := false), x, b) == Ok(y)
    ensures Decode(LIVENESS, o.(discardUnknown := true), x, b) == Ok(y.(unknown := x.unknown))
    ensures Framed(LIVENESS, b) && y.unknown == x.unknown + Only(LIVENESS, b, -1)
  {
    hide Decode, Cut, Only, Framed;
    DiscardBlind(LIVENESS, o, x, b, x.unknown);
    DecodeIsFieldWise(LIVENESS, o.(discardUnknown := false), x, b, y);
  }

  // ----- where the option shows in the known fields

  /** Both settings accept `b` alike, refuse it with the same error, and agree on the fields. */
  ghost predicate SameFields(s: Schema, o: Options, x: Message, b: Bytes)
    requires Fits(s, x)
  {
    var drop := Decode(s, o.(discardUnknown := true), x, b);
    match Decode(s, o.(discardUnknown := false), x, b)
    case Err(f) => drop == Err(f)
    case Ok(y) => drop.Ok? && drop.value.values == y.values
  }

  /** A record no valid schema knows: its field number is legal for the parser only. */
  function Stranger(): Bytes {
    EncodeNumber(MAX_FIELD_NUMBER + 1, 1)
  }

  lemma StrangerCut(t: Schema)
    requires ValidSchema(t)
    ensures var u := Stranger(); u != [] && Cut(t, u) == Ok(Record(-1, Whole(u), |u|))
  {
    hide Varint, ReadVarint;
    var u, wire := Stranger(), TWO_32;
    assert u == Varint(wire) + Varint(1) && Varint(1) + [] == Varint(1);
    VarintAtMostTen(wire);
    VarintRoundTrip(wire, Varint(1), 0);
    VarintAtMostTen(1);
    VarintRoundTrip(1, [], 0);
    var h := Header(MAX_FIELD_NUMBER + 1, 0, wire, |Varint(wire)|);
    assert ReadTag(u) == Ok(h) && u[h.len..] == Varint(1);
    assert ReadItem(u) == Ok(Item(0, |u|));
    SkipFrom(u, 0, 0, Item(0, |u|), 0);
    assert Slot(t.fields, h.num) == -1;
    assert u[..|u|] == u;
  }

  /** A sub-message shows the option: its own unknown records are part of its value. */
  lemma DiscardShows(s: Schema, o: Options, i: nat)
    requires ValidSchema(s) && i < |s.fields|
    requires (s.fields[i].kind.One? || s.fields[i].kind.Many?) && s.fields[i].kind.elem.Sub?
    ensures !SameFields(s, o, Empty(s), EncodeChunk(s.fields[i].num, Stranger()))
  {
    hide Cut, Decode, ValidSchema, Stranger;
    var t := s.fields[i].kind.elem.schema;
    var u := Stranger();
    assert ValidSchema(t) by { ElemValid(s, i); }
    var keep, drop := o.(discardUnknown := false), o.(discardUnknown := true);
    DecodeStranger(t, keep);
    DecodeStranger(t, drop);
    assert |u| < TWO_63 by { StrangerLength(); }
    var b := EncodeChunk(s.fields[i].num, u);
    assert b + [] == b;
    var x, y := Empty(t).(unknown := u), Empty(t);
    assert [] + [Node(x)] == [Node(x)] && [] + [Node(y)] == [Node(y)];
    EltAbsorbed(s, keep, Empty(s), i, [], Node(x), u, []);
    EltAbsorbed(s, drop, Empty(s), i, [], Node(y), u, []);
    DecodeNothing(s, keep, With(Empty(s), i, List([Node(x)])));
    DecodeNothing(s, drop, With(Empty(s), i, List([Node(y)])));
    assert x != y by { StrangerCut(t); }
    var m, n := With(Empty(s), i, List([Node(x)])), With(Empty(s), i, List([Node(y)]));
    assert m.values[i].elts[0].msg == x && n.values[i].elts[0].msg == y;
  }

  lemma StrangerLength()
    ensures |Stranger()| < TWO_63
  {
    hide Varint;
    VarintAtMostTen(TWO_32);
    VarintAtMostTen(1);
  }

  lemma DecodeStranger(t: Schema, o: Options)
    requires ValidSchema(t)
    ensures Decode(t, o, Empty(t), Stranger())
            == Ok(Empty(t).(unknown := if o.discardUnknown then [] else Stranger()))
  {
    hide Cut, ValidSchema, Stranger;
    var u := Stranger();
    StrangerCut(t);
    DecodeStep(t, o, Empty(t), u, Cut(t, u).value);
    assert u[|u|..] == [] && [] + u == u;
  }

  /** The record of a singular or repeated field, read into a message with `v` in that slot. */
  lemma DecodeOneRecord(s: Schema, o: Options, i: nat, v: Value, p: Bytes)
    requires ValidSchema(s) && i < |s.fields| && !s.fields[i].kind.Scalar? && |p| < TWO_63
    ensures match Update(o, s.fields[i].kind, v, Chunk(p))
            case Err(f) => Decode(s, o, With(Empty(s), i, v), EncodeChunk(s.fields[i].num, p)) == Err(f)
            case Ok(w) => Decode(s, o, With(Empty(s), i, v), EncodeChunk(s.fields[i].num, p))
                          == Ok(With(Empty(s), i, w))
  {
    hide Cut, Update, ValidSchema, Decode;
    var x, b := With(Empty(s), i, v), EncodeChunk(s.fields[i].num, p);
    assert b + [] == b;
    ChunkRecord(s, i, p, []);
    var r := Record(i, Chunk(p), |b|);
    DecodeStep(s, o, x, b, r);
    assert b[|b|..] == [];
    var w := Update(o, s.fields[i].kind, v, Chunk(p));
    if w.Ok? {
      assert x.values[i := w.value] == With(Empty(s), i, w.value).values;
      DecodeNothing(s, o, With(Empty(s), i, w.value));
    }
  }

  /** A foreign payload that the two settings decode differently, seen from the message around it. */
  lemma ForeignShows(s: Schema, o: Options, i: nat, prev: Option<Bytes>, p: Bytes)
    requires ValidSchema(s) && i < |s.fields| && |p| < TWO_63
    requires (s.fields[i].kind.One? || s.fields[i].kind.Many?) && s.fields[i].kind.elem.Ext?
    requires prev.None? || (s.fields[i].kind.One? && o.merge)
    requires var x := With(Empty(s), i, List(OptionalLeaf(prev)));
             SameFields(s, o, x, EncodeChunk(s.fields[i].num, p))
    ensures var id := s.fields[i].kind.elem.id; o.ext(id, true, prev, p) == o.ext(id, false, prev, p)
  {
    hide Decode, ValidSchema, EncodeChunk;
    var v := List(OptionalLeaf(prev));
    var keep, drop := o.(discardUnknown := false), o.(discardUnknown := true);
    DecodeOneRecord(s, keep, i, v, p);
    DecodeOneRecord(s, drop, i, v, p);
    ForeignUpdate(keep, s.fields[i].kind, prev, p);
    ForeignUpdate(drop, s.fields[i].kind, prev, p);
    var k, d := Update(keep, s.fields[i].kind, v, Chunk(p)), Update(drop, s.fields[i].kind, v, Chunk(p));
    hide Update;
    if k.Ok? && d.Ok? {
      assert With(Empty(s), i, k.value).values[i] == k.value && With(Empty(s), i, d.value).values[i] == d.value;
    }
  }

  lemma ForeignUpdate(o: Options, k: Kind, prev: Option<Bytes>, p: Bytes)
    requires (k.One? || k.Many?) && k.elem.Ext? && (prev.None? || (k.One? && o.merge))
    ensures Update(o, k, List(OptionalLeaf(prev)), Chunk(p))
            == (match o.ext(k.elem.id, o.discardUnknown, prev, p)
                case None => Err(Final(External))
                case Some(c) => Ok(List([Leaf(c)])))
  {
    if k.Many? {
      assert o.ext(k.elem.id, o.discardUnknown, prev, p).Some? ==>
          [] + [Leaf(o.ext(k.elem.id, o.discardUnknown, prev, p).value)]
          == [Leaf(o.ext(k.elem.id, o.discardUnknown, prev, p).value)];
    }
  }

  /** Which messages hide the option from their known fields, for all buffers and starting messages:
      exactly those without described sub-messages whose foreign messages are decoded alike with
      both settings. */
  lemma DiscardInvisible(s: Schema, o: Options)
    requires ValidSchema(s)
    ensures BlindFields(o, s) <==> forall x, b | Fits(s, x) :: SameFields(s, o, x, b)
  {
    hide Decode, ValidSchema, Cut, Stranger, Blind;
    if BlindFields(o, s) {
      forall x, b | Fits(s, x)
        ensures SameFields(s, o, x, b)
      {
        DiscardBlind(s, o, x, b, x.unknown);
        assert x.(unknown := x.unknown) == x;
      }
    }
    if forall x, b | Fits(s, x) :: SameFields(s, o, x, b) {
      forall i | 0 <= i < |s.fields|
        ensures Blind(o, s.fields[i].kind)
      {
        SameFieldsBlind(s, o, i);
      }
    }
  }

  lemma SameFieldsBlind(s: Schema, o: Options, i: nat)
    requires ValidSchema(s) && i < |s.fields|
    requires forall x, b | Fits(s, x) :: SameFields(s, o, x, b)
    ensures Blind(o, s.fields[i].kind)
  {
    hide Decode, ValidSchema, Cut, Stranger, SameFields, EncodeChunk;
    var k := s.fields[i].kind;
    if k.One? || k.Many? {
      if k.elem.Sub? {
        DiscardShows(s, o, i);
        assert false;
      } else if k.elem.Ext? {
        forall prev: Option<Bytes>, p: Bytes | |p| < TWO_63 && (prev.None? || (k.One? && o.merge))
          ensures o.ext(k.elem.id, true, prev, p) == o.ext(k.elem.id, false, prev, p)
        {
          ForeignShows(s, o, i, prev, p);
        }
      }
    }
  }

  /** The fields of google.protobuf.Timestamp: seconds and nanoseconds. */
  const TIMESTAMP_FIELDS: Schema := Schema([Field(1, Scalar(I64)), Field(2, Scalar(I32))])

  /** Foreign messages show it as well. In this event the timestamp carries an unknown field 3; as
      soon as the timestamp codec reads that payload as the fields of a timestamp, the two settings
      give different publication times. */
  lemma DiscardReachesTimestamps(o: Options)
    requires forall d ::
      o.ext(TIMESTAMP, d, None, [0x18, 0x01])
      == (match Decode(TIMESTAMP_FIELDS, o.(discardUnknown := d), Empty(TIMESTAMP_FIELDS), [0x18, 0x01])
          case Err(_) => None
          case Ok(t) => Some(Encode(TIMESTAMP_FIELDS, t)))
    ensures var b := [0x4a, 0x02, 0x18, 0x01];
            var keep := Decode(EVENT, o.(discardUnknown := false), Empty(EVENT), b);
            var drop := Decode(EVENT, o.(discardUnknown := true), Empty(EVENT), b);
            && keep.Ok? && keep.value.values[8] == List([Leaf([0x18, 0x01])])
            && drop.Ok? && drop.value.values[8] == List([Leaf([])])
  {
    hide Cut, Decode, Encode;
    var b: Bytes, p: Bytes := [0x4a, 0x02, 0x18, 0x01], [0x18, 0x01];
    var keep, drop := o.(discardUnknown := false), o.(discardUnknown := true);
    UnknownInTimestamp(keep);
    UnknownInTimestamp(drop);
    assert o.ext(TIMESTAMP, false, None, p) == Some(p) && o.ext(TIMESTAMP, true, None, p) == Some([]);
    PublishAt(keep, p);
    PublishAt(drop, []);
  }

  lemma ThreeIsUnknown()
    ensures Cut(TIMESTAMP_FIELDS, [0x18, 0x01]) == Ok(Record(-1, Whole([0x18, 0x01]), 2))
  {
    hide Slot;
    var p: Bytes := [0x18, 0x01];
    assert p[1..] == [0x01] && p[..2] == p;
    assert ReadTag(p) == Ok(Header(3, 0, 0x18, 1)) && ReadItem(p) == Ok(Item(0, 2));
    SkipFrom(p, 0, 0, Item(0, 2), 0);
    ConsecutiveSlot(TIMESTAMP_FIELDS, 3);
  }

  lemma UnknownInTimestamp(o: Options)
    ensures var p, kept: Bytes := [0x18, 0x01], if o.discardUnknown then [] else [0x18, 0x01];
            var t := Empty(TIMESTAMP_FIELDS).(unknown := kept);
            && Decode(TIMESTAMP_FIELDS, o, Empty(TIMESTAMP_FIELDS), p) == Ok(t)
            && Encode(TIMESTAMP_FIELDS, t) == kept
  {
    var p: Bytes, kept: Bytes := [0x18, 0x01], if o.discardUnknown then [] else [0x18, 0x01];
    var t := Empty(TIMESTAMP_FIELDS).(unknown := kept);
    hide Cut;
    ThreeIsUnknown();
    DecodeStep(TIMESTAMP_FIELDS, o, Empty(TIMESTAMP_FIELDS), p, Cut(TIMESTAMP_FIELDS, p).value);
    assert p[2..] == [] && [] + p == p;
    DefaultsEncodeToNothing(TIMESTAMP_FIELDS, t, 0);
  }

  lemma PublishAt(o: Options, c: Bytes)
    requires o.ext(TIMESTAMP, o.discardUnknown, None, [0x18, 0x01]) == Some(c)
    ensures Decode(EVENT, o, Empty(EVENT), [0x4a, 0x02, 0x18, 0x01])
            == Ok(With(Empty(EVENT), 8, List([Leaf(c)])))
  {
    hide Cut, Decode, ValidSchema;
    var p: Bytes := [0x18, 0x01];
    EventValid();
    ShortTag(9, 2);
    assert EncodeChunk(9, p) + [] == [0x4a, 0x02, 0x18, 0x01];
    assert [] + [Leaf(c)] == [Leaf(c)];
    EltAbsorbed(EVENT, o, Empty(EVENT), 8, [], Leaf(c), p, []);
    DecodeNothing(EVENT, o, With(Empty(EVENT), 8, List([Leaf(c)])));
  }
}
