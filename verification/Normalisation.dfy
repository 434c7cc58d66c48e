/**
 What the parser accepts is well-formed, whatever the buffer looked like, so encoding the result
 gives a normal form of the buffer.
 */
module Normalisation {
  import opened Varints
  import opened Schemas
  import opened Records
  import opened Codec
  import opened Streams
  import opened RoundTrips

  lemma EmptyWellFormed(o: Options, s: Schema)
    ensures WellFormed(o, s, Empty(s))
  {
  }

  lemma {:induction false} UnknownAppend(s: Schema, u: Bytes, p: Bytes)
    requires UnknownOnly(s, u) && Single(s, p) && Cut(s, p).value.slot == -1
    ensures UnknownOnly(s, u + p)
    decreases |u|
  {
    hide Cut;
    if u == [] {
      assert u + p == p && p[|p|..] == [];
    } else {
      CutWhole(s, u);
      CutFront(s, u, p);
      UnknownAppend(s, u[Cut(s, u).value.len..], p);
    }
  }

  lemma {:induction false} EltWellFormed(o: Options, e: Elem, prev: Option<Elt>, p: Bytes)
    requires LawfulExt(o) && DecodeElt(o, e, prev, p).Ok?
    requires prev.Some? ==> GoodElt(o, e, prev.value)
    ensures GoodElt(o, e, DecodeElt(o, e, prev, p).value)
    decreases |p|, 1
  {
    if e.Sub? {
      var start := if prev.Some? then prev.value.msg else Empty(e.schema);
      EmptyWellFormed(o, e.schema);
      DecodeWellFormed(e.schema, o, start, p);
    }
  }

  lemma {:induction false} UpdateWellFormed(o: Options, k: Kind, v: Value, p: Payload)
    requires LawfulExt(o) && GoodValue(o, k, v) && Update(o, k, v, p).Ok?
    ensures GoodValue(o, k, Update(o, k, v, p).value)
    decreases ChunkLen(p), 2
  {
    hide DecodeElt;
    var bytes := if p.Chunk? then p.bytes else [];
    match k
    case Scalar(t) => FromWireInRange(t, if p.Varnum? then p.v else 0);
    case Text =>
    case One(e) =>
      var prev := if o.merge && v.elts != [] then Some(v.elts[0]) else None;
      EltWellFormed(o, e, prev, bytes);
    case Many(e) =>
      EltWellFormed(o, e, None, bytes);
  }

  /** From a well-formed message the parser reaches only well-formed messages. */
  lemma {:induction false} DecodeWellFormed(s: Schema, o: Options, x: Message, b: Bytes)
    requires LawfulExt(o) && WellFormed(o, s, x) && Decode(s, o, x, b).Ok?
    ensures WellFormed(o, s, Decode(s, o, x, b).value)
    decreases |b|, 0
  {
    hide Cut, Update, GoodValue, LawfulExt;
    if b != [] {
      DecodeAccepts(s, o, x, b);
      var r := Cut(s, b).value;
      CutFacts(s, b);
      var y := Absorb(s, o, x, r).value;
      if r.slot == -1 {
        CutAlone(s, b);
        UnknownAppend(s, x.unknown, b[..r.len]);
      } else {
        UpdateWellFormed(o, s.fields[r.slot].kind, x.values[r.slot], r.payload);
      }
      DecodeWellFormed(s, o, y, b[r.len..]);
    }
  }

  lemma CutFacts(s: Schema, b: Bytes)
    requires b != [] && Cut(s, b).Ok?
    ensures var r := Cut(s, b).value;
            && 0 < r.len <= |b| && -1 <= r.slot < |s.fields|
            && ChunkLen(r.payload) < |b|
            && (r.slot == -1 ==> r.payload == Whole(b[..r.len]))
  {
  }

  /** Normalisation: for every accepted buffer (overlong varints, repeated singular fields, any
      field order, unknown fields), encoding the message and decoding it again gives the same
      message, with the unknown records kept in order. */
  lemma Normalise(s: Schema, o: Options, b: Bytes, m: Message)
    requires ValidSchema(s) && LawfulExt(o) && !o.discardUnknown
    requires Decode(s, o, Empty(s), b) == Ok(m) && |Encode(s, m)| < TWO_63
    ensures Decode(s, o, Empty(s), Encode(s, m)) == Ok(m)
    ensures Framed(s, b) && m.unknown == Only(s, b, -1)
  {
    hide Decode, Encode, Cut, WellFormed, ValidSchema, LawfulExt, Framed, Select;
    EmptyWellFormed(o, s);
    DecodeWellFormed(s, o, Empty(s), b);
    RoundTrip(o, s, m);
    DecodeIsFieldWise(s, o, Empty(s), b, m);
  }

  /** The normal form is a fixed point: a buffer and its normal form decode to the same message,
      and two accepted buffers decode to the same message exactly when their normal forms agree. */
  lemma NormalFormDecides(s: Schema, o: Options, b: Bytes, c: Bytes, m: Message, n: Message)
    requires ValidSchema(s) && LawfulExt(o) && !o.discardUnknown
    requires Decode(s, o, Empty(s), b) == Ok(m) && |Encode(s, m)| < TWO_63
    requires Decode(s, o, Empty(s), c) == Ok(n) && |Encode(s, n)| < TWO_63
    ensures m == n <==> Encode(s, m) == Encode(s, n)
  {
    Normalise(s, o, b, m);
    Normalise(s, o, c, n);
  }
}
