/**
 Prefixes of an encoding: the cuts that the parser accepts are exactly those that leave the encoding
 of the message restricted to its earlier records, and there the parser returns that restriction.
 */
module Prefixes {
  import opened Varints
  import opened Schemas
  import opened Records
  import opened Codec
  import opened Streams
  import opened RoundTrips
  import opened Buffers

  /** A place in a message: behind the fields in front of `slot`, the first `elts` elements of that
      slot if it is a list, and, once all fields are passed, `unknown` unknown bytes. */
  datatype Point = Point(slot: nat, elts: nat, unknown: nat)

  ghost predicate InMessage(s: Schema, m: Message, p: Point)
    requires Fits(s, m)
  {
    && p.slot <= |s.fields|
    && p.elts <= (if p.slot < |s.fields| && m.values[p.slot].List? then |m.values[p.slot].elts| else 0)
    && p.unknown <= |m.unknown| && Boundary(s, m.unknown, p.unknown)
    && (p.unknown > 0 ==> p.slot == |s.fields|)
  }

  ghost function RestrictValue(f: Field, v: Value, elts: nat): Value
    requires v.List? ==> elts <= |v.elts|
  {
    if v.List? then List(v.elts[..elts]) else Default(f.kind)
  }

  /** The message with nothing but what stands in front of the point. */
  ghost function Restrict(s: Schema, m: Message, p: Point): (x: Message)
    requires Fits(s, m) && InMessage(s, m, p)
    ensures Fits(s, x)
  {
    Message(
      seq(|s.fields|, i requires 0 <= i < |s.fields| =>
        if i < p.slot then m.values[i]
        else if i == p.slot then RestrictValue(s.fields[i], m.values[i], p.elts)
        else Default(s.fields[i].kind)),
      m.unknown[..p.unknown])
  }

  /** What is written behind the point. */
  ghost function Rest(s: Schema, m: Message, p: Point): Bytes
    requires Fits(s, m) && InMessage(s, m, p)
  {
    if p.slot == |s.fields| then m.unknown[p.unknown..]
    else RestOfField(s.fields[p.slot], m.values[p.slot], p.elts) + Tail(s, m, p.slot + 1)
  }

  ghost function RestOfField(f: Field, v: Value, elts: nat): Bytes
    requires v.List? ==> elts <= |v.elts|
  {
    if v.List? then EncodeField(f, List(v.elts[elts..])) else EncodeField(f, v)
  }

  // ----- the restricted message is written in front of the rest

  lemma FieldSplit(f: Field, v: Value, elts: nat)
    requires Shaped(f.kind, v) && (v.List? ==> elts <= |v.elts|)
    ensures EncodeField(f, RestrictValue(f, v, elts)) + RestOfField(f, v, elts) == EncodeField(f, v)
  {
    hide EncodeElts;
    if v.List? { EltsSplit(f.num, f.kind.elem, v.elts, elts); }
  }

  lemma {:induction false} RestrictFrom(s: Schema, m: Message, p: Point, i: nat)
    requires AllShaped(s, m) && InMessage(s, m, p) && i <= p.slot
    ensures EncodeFrom(s, Restrict(s, m, p), i) + (m.unknown[..p.unknown] + Rest(s, m, p)) == Tail(s, m, i)
    decreases p.slot - i
  {
    hide EncodeField, Tail, Boundary, RestrictValue, RestOfField;
    var x, u := Restrict(s, m, p), m.unknown[..p.unknown];
    if i == |s.fields| {
      TailEnds(s, m);
      assert u + m.unknown[p.unknown..] == m.unknown;
    } else {
      TailStep(s, m, i);
      var a := EncodeField(s.fields[i], x.values[i]);
      if i < p.slot {
        RestrictFrom(s, m, p, i + 1);
        Associate(a, EncodeFrom(s, x, i + 1), u + Rest(s, m, p));
      } else {
        DefaultsEncodeToNothing(s, x, i + 1);
        assert u == [] && u + Rest(s, m, p) == Rest(s, m, p) && a + [] == a;
        FieldSplit(s.fields[i], m.values[i], p.elts);
        Associate(a, RestOfField(s.fields[i], m.values[i], p.elts), Tail(s, m, i + 1));
      }
    }
  }

  lemma RestrictEncoding(s: Schema, m: Message, p: Point)
    requires AllShaped(s, m) && InMessage(s, m, p)
    ensures Encode(s, Restrict(s, m, p)) + Rest(s, m, p) == Encode(s, m)
  {
    hide EncodeFrom, Rest, Tail, Boundary;
    RestrictFrom(s, m, p, 0);
    TailEnds(s, m);
    Associate(EncodeFrom(s, Restrict(s, m, p), 0), m.unknown[..p.unknown], Rest(s, m, p));
  }

  // ----- the restricted message is well-formed

  lemma FitsWellFormed(o: Options, s: Schema, m: Message)
    requires WellFormed(o, s, m)
    ensures Fits(s, m)
    ensures forall i :: 0 <= i < |s.fields| ==> GoodValue(o, s.fields[i].kind, m.values[i])
  {
  }

  lemma {:induction false} UnknownPrefix(s: Schema, u: Bytes, n: nat)
    requires UnknownOnly(s, u) && Boundary(s, u, n) && n <= |u|
    ensures UnknownOnly(s, u[..n])
    decreases |u|
  {
    hide Cut;
    if n == 0 {
      assert u[..0] == [];
    } else {
      var r := Cut(s, u).value;
      CutWhole(s, u);
      var p := u[..n];
      assert p[..r.len] == u[..r.len];
      CutLocal(s, u, p);
      assert p[r.len..] == u[r.len..][..n - r.len];
      UnknownPrefix(s, u[r.len..], n - r.len);
    }
  }

  lemma RestrictGood(o: Options, f: Field, v: Value, elts: nat)
    requires GoodValue(o, f.kind, v) && (v.List? ==> elts <= |v.elts|)
    ensures Shaped(f.kind, v)
    ensures GoodValue(o, f.kind, RestrictValue(f, v, elts)) && GoodValue(o, f.kind, Default(f.kind))
  {
    hide GoodElt;
  }

  lemma RestrictWellFormed(o: Options, s: Schema, m: Message, p: Point)
    requires WellFormed(o, s, m) && InMessage(s, m, p)
    ensures AllShaped(s, m) && WellFormed(o, s, Restrict(s, m, p))
  {
    hide GoodValue, UnknownOnly, Boundary, RestrictValue;
    UnknownPrefix(s, m.unknown, p.unknown);
    var x := Restrict(s, m, p);
    forall i | 0 <= i < |s.fields|
      ensures Shaped(s.fields[i].kind, m.values[i]) && GoodValue(o, s.fields[i].kind, x.values[i])
    {
      RestrictGood(o, s.fields[i], m.values[i], if i == p.slot then p.elts else 0);
    }
  }

  // ----- every boundary is such a point

  lemma {:induction false} BoundarySplit(s: Schema, b: Bytes, c: Bytes, n: nat)
    requires Framed(s, b) && Boundary(s, b + c, n)
    ensures (n <= |b| && Boundary(s, b, n)) || (n >= |b| && Boundary(s, c, n - |b|))
    decreases |b|
  {
    hide Cut;
    if b == [] {
      assert b + c == c;
    } else if n > 0 {
      CutWhole(s, b);
      CutFront(s, b, c);
      var r := Cut(s, b).value;
      BoundarySplit(s, b[r.len..], c, n - r.len);
    }
  }

  lemma SingleBoundary(s: Schema, b: Bytes, n: nat)
    requires Single(s, b) && Boundary(s, b, n)
    ensures n == 0 || n == |b|
  {
    hide Cut;
    assert b[|b|..] == [];
  }

  /** A boundary inside the records of a list falls between two elements. */
  lemma {:induction false} FindElement(s: Schema, i: nat, xs: seq<Elt>, n: nat) returns (j: nat)
    requires ValidSchema(s) && i < |s.fields| && (s.fields[i].kind.One? || s.fields[i].kind.Many?)
    requires |EncodeElts(s.fields[i].num, s.fields[i].kind.elem, xs)| < TWO_63
    requires Boundary(s, EncodeElts(s.fields[i].num, s.fields[i].kind.elem, xs), n)
    ensures j <= |xs|
    ensures n + |EncodeElts(s.fields[i].num, s.fields[i].kind.elem, xs[j..])|
            == |EncodeElts(s.fields[i].num, s.fields[i].kind.elem, xs)|
    decreases |xs|
  {
    hide Cut, ValidSchema, EncodeElt, EncodeChunk;
    var num, e := s.fields[i].num, s.fields[i].kind.elem;
    j := 0;
    assert xs[0..] == xs;
    if n > 0 {
      assert xs != [];
      var p := EncodeElt(e, xs[0]);
      var b, rest := EncodeChunk(num, p), EncodeElts(num, e, xs[1..]);
      ChunkLonger(num, p);
      ChunkRecord(s, i, p, rest);
      assert (b + rest)[|b|..] == rest;
      j := FindElement(s, i, xs[1..], n - |b|);
      assert xs[1..][j..] == xs[j + 1..];
      j := j + 1;
    }
  }

  lemma FieldFramed(o: Options, s: Schema, i: nat, v: Value)
    requires ValidSchema(s) && i < |s.fields| && !o.discardUnknown && GoodValue(o, s.fields[i].kind, v)
    requires |EncodeField(s.fields[i], v)| < TWO_63
    ensures Framed(s, EncodeField(s.fields[i], v))
    ensures !v.List? && EncodeField(s.fields[i], v) != [] ==> Single(s, EncodeField(s.fields[i], v))
  {
    hide Cut, ValidSchema, EncodeNumber, EncodeChunk, EncodeElts, Decode;
    var f := s.fields[i];
    var b := EncodeField(f, v);
    FieldRoundTrip(s, o, Empty(s), i, v);
    DecodeIsFieldWise(s, o, Empty(s), b, With(Empty(s), i, v));
    assert b + [] == b;
    if v.Num? && b != [] {
      NumberRecord(s, i, v.n, []);
    } else if v.Str? && b != [] {
      ChunkLonger(f.num, v.text);
      ChunkRecord(s, i, v.text, []);
    }
  }

  /** A boundary behind the fields in front of slot `k` is a point of the message. */
  lemma {:induction false} FindPoint(o: Options, s: Schema, m: Message, k: nat, n: nat) returns (p: Point)
    requires ValidSchema(s) && WellFormed(o, s, m) && !o.discardUnknown && |Encode(s, m)| < TWO_63
    requires k <= |s.fields| && n <= |Tail(s, m, k)| && Boundary(s, Tail(s, m, k), n)
    ensures InMessage(s, m, p) && n + |Rest(s, m, p)| == |Tail(s, m, k)|
    decreases |s.fields| - k
  {
    hide Encode, EncodeField, Tail, Boundary, WellFormed, GoodValue, ValidSchema, RestOfField, Framed;
    FitsWellFormed(o, s, m);
    if k == |s.fields| {
      TailEnds(s, m);
      p := Point(k, 0, n);
    } else {
      var f, v := s.fields[k], m.values[k];
      var b := EncodeField(f, v);
      TailStep(s, m, k);
      FieldFramed(o, s, k, v);
      BoundarySplit(s, b, Tail(s, m, k + 1), n);
      BoundaryAtStart(s, Tail(s, m, k + 1));
      if n >= |b| && Boundary(s, Tail(s, m, k + 1), n - |b|) {
        p := FindPoint(o, s, m, k + 1, n - |b|);
      } else {
        var j := FindInField(o, s, k, v, n);
        p := Point(k, j, 0);
        BoundaryAtStart(s, m.unknown);
      }
    }
  }

  lemma BoundaryAtStart(s: Schema, b: Bytes)
    ensures Boundary(s, b, 0)
  {
  }

  lemma FindInField(o: Options, s: Schema, k: nat, v: Value, n: nat) returns (j: nat)
    requires ValidSchema(s) && k < |s.fields| && GoodValue(o, s.fields[k].kind, v) && !o.discardUnknown
    requires |EncodeField(s.fields[k], v)| < TWO_63 && Boundary(s, EncodeField(s.fields[k], v), n)
    requires v.List? || n < |EncodeField(s.fields[k], v)|
    ensures if v.List? then j <= |v.elts| else j == 0
    ensures n + |RestOfField(s.fields[k], v, j)| == |EncodeField(s.fields[k], v)|
  {
    hide ValidSchema, Boundary, EncodeElts, GoodElt, Single;
    j := 0;
    if v.List? {
      j := FindElement(s, k, v.elts, n);
    } else {
      FieldFramed(o, s, k, v);
      SingleBoundary(s, EncodeField(s.fields[k], v), n);
    }
  }

  // ----- the result

  /** In front of any point the encoding is that of the restricted message, and it decodes to it. */
  lemma RestrictDecodes(o: Options, s: Schema, m: Message, p: Point)
    requires ValidSchema(s) && WellFormed(o, s, m) && !o.discardUnknown && |Encode(s, m)| < TWO_63
    requires InMessage(s, m, p)
    ensures Encode(s, Restrict(s, m, p)) + Rest(s, m, p) == Encode(s, m)
    ensures Decode(s, o, Empty(s), Encode(s, Restrict(s, m, p))) == Ok(Restrict(s, m, p))
  {
    hide Encode, Decode, ValidSchema, WellFormed, Rest, InMessage;
    RestrictWellFormed(o, s, m, p);
    RestrictEncoding(s, m, p);
    RoundTrip(o, s, Restrict(s, m, p));
  }

  /** A cut through an encoding falls on a record boundary if and only if it leaves the encoding of
      the message restricted at some point: behind a field, behind an element of a list, or behind
      an unknown record. */
  lemma PrefixIsRestriction(o: Options, s: Schema, m: Message, n: nat)
    requires ValidSchema(s) && WellFormed(o, s, m) && !o.discardUnknown && |Encode(s, m)| < TWO_63
    requires n <= |Encode(s, m)|
    ensures Boundary(s, Encode(s, m), n) <==>
            exists p :: InMessage(s, m, p) && Encode(s, m)[..n] == Encode(s, Restrict(s, m, p))
  {
    hide Encode, Decode, ValidSchema, WellFormed, Rest, InMessage, Boundary, Restrict, Tail;
    var b := Encode(s, m);
    assert Fits(s, m) by { FitsWellFormed(o, s, m); }
    if Boundary(s, b, n) {
      TailEnds(s, m);
      var p := FindPoint(o, s, m, 0, n);
      RestrictDecodes(o, s, m, p);
      assert b[..n] == Encode(s, Restrict(s, m, p));
    }
    forall p | InMessage(s, m, p) && b[..n] == Encode(s, Restrict(s, m, p))
      ensures Boundary(s, b, n)
    {
      RestrictDecodes(o, s, m, p);
      RoundTrip(o, s, m);
      PrefixAcceptance(s, o, Empty(s), b, n);
    }
  }

  /** Prefixes of an encoding: an accepted one decodes to the message restricted to the records in
      front of the cut. */
  lemma AcceptedPrefix(o: Options, s: Schema, m: Message, n: nat)
    requires ValidSchema(s) && WellFormed(o, s, m) && !o.discardUnknown && |Encode(s, m)| < TWO_63
    requires n <= |Encode(s, m)|
    ensures Decode(s, o, Empty(s), Encode(s, m)[..n]).Ok? <==>
            exists p :: InMessage(s, m, p) && Encode(s, m)[..n] == Encode(s, Restrict(s, m, p))
                        && Decode(s, o, Empty(s), Encode(s, m)[..n]) == Ok(Restrict(s, m, p))
  {
    hide Encode, Decode, ValidSchema, WellFormed, Rest, InMessage, Boundary, Restrict;
    assert Fits(s, m) by { FitsWellFormed(o, s, m); }
    RoundTrip(o, s, m);
    PrefixAcceptance(s, o, Empty(s), Encode(s, m), n);
    PrefixIsRestriction(o, s, m, n);
    forall p | InMessage(s, m, p)
      ensures Decode(s, o, Empty(s), Encode(s, Restrict(s, m, p))) == Ok(Restrict(s, m, p))
    {
      RestrictDecodes(o, s, m, p);
    }
  }
}
