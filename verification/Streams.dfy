/**
 Whole runs of the parse loop: what happens at the seam of two buffers, at a cut through a buffer,
 and when records are reordered.
 */
module Streams {
  import opened Varints
  import opened Schemas
  import opened Records
  import opened Codec

  // ----- concatenation

  lemma {:induction false} CutFront(s: Schema, b: Bytes, c: Bytes)
    requires b != [] && Cut(s, b).Ok?
    ensures Cut(s, b + c) == Cut(s, b)
    ensures (b + c)[Cut(s, b).value.len..] == b[Cut(s, b).value.len..] + c
  {
    var n := Cut(s, b).value.len;
    assert (b + c)[..n] == b[..n];
    CutLocal(s, b, b + c);
  }

  /** One turn of the loop. */
  lemma DecodeStep(s: Schema, o: Options, x: Message, b: Bytes, r: Record)
    requires Fits(s, x) && b != [] && Cut(s, b) == Ok(r)
    ensures Absorb(s, o, x, r).Ok? ==>
              Decode(s, o, x, b) == Shifted(Decode(s, o, Absorb(s, o, x, r).value, b[r.len..]), r.len)
    ensures Absorb(s, o, x, r).Err? ==> Decode(s, o, x, b) == Err(Absorb(s, o, x, r).fault)
  {
  }

  lemma DecodeAccepts(s: Schema, o: Options, x: Message, b: Bytes)
    requires Fits(s, x) && b != [] && Decode(s, o, x, b).Ok?
    ensures Cut(s, b).Ok?
    ensures Absorb(s, o, x, Cut(s, b).value).Ok?
    ensures Decode(s, o, Absorb(s, o, x, Cut(s, b).value).value, b[Cut(s, b).value.len..]) == Decode(s, o, x, b)
  {
  }

  /** If `b` is accepted, decoding `b + c` is decoding `c` from the message that `b` produced; a
      declared end beyond the buffer is then counted from the start of `b`. */
  lemma {:induction false} Concatenation(s: Schema, o: Options, x: Message, b: Bytes, c: Bytes)
    requires Fits(s, x) && Decode(s, o, x, b).Ok?
    ensures Decode(s, o, x, b + c) == Shifted(Decode(s, o, Decode(s, o, x, b).value, c), |b|)
    decreases |b|
  {
    hide Cut, Absorb;
    if b == [] {
      assert b + c == c;
    } else {
      DecodeAccepts(s, o, x, b);
      var r := Cut(s, b).value;
      CutFront(s, b, c);
      DecodeStep(s, o, x, b + c, r);
      Concatenation(s, o, Absorb(s, o, x, r).value, b[r.len..], c);
    }
  }

  /** The records of `c` up to `k` are accepted, and the one that starts there declares an end `e`
      bytes further on, beyond the end of `c`. */
  ghost predicate Overruns(s: Schema, o: Options, x: Message, c: Bytes, k: nat, e: nat)
    requires Fits(s, x)
  {
    k < |c| && Decode(s, o, x, c[..k]).Ok? && Cut(s, c[k..]) == Err(Overrun(e))
  }

  /** Where a decode that stops at an overrun has stopped. */
  lemma {:induction false} FindOverrun(s: Schema, o: Options, x: Message, c: Bytes, n: nat) returns (k: nat, e: nat)
    requires Fits(s, x) && Decode(s, o, x, c) == Err(Overrun(n))
    ensures Overruns(s, o, x, c, k, e) && n == k + e
    decreases |c|
  {
    hide Cut, Absorb;
    if Cut(s, c).Err? {
      k, e := 0, n;
      assert c[..0] == [] && c[0..] == c;
    } else {
      var r := Cut(s, c).value;
      DecodeStep(s, o, x, c, r);
      AbsorbFinal(s, o, x, c);
      var rest := c[r.len..];
      k, e := FindOverrun(s, o, Absorb(s, o, x, r).value, rest, n - r.len);
      k := k + r.len;
      var p := c[..k];
      assert p[..r.len] == c[..r.len];
      CutLocal(s, c, p);
      DecodeStep(s, o, x, p, r);
      assert p[r.len..] == rest[..k - r.len] && rest[k - r.len..] == c[k..];
    }
  }

  lemma AbsorbFinal(s: Schema, o: Options, x: Message, c: Bytes)
    requires Fits(s, x) && c != [] && Cut(s, c).Ok?
    ensures 0 < Cut(s, c).value.len <= |c|
    ensures Absorb(s, o, x, Cut(s, c).value).Err? ==> Absorb(s, o, x, Cut(s, c).value).fault.Final?
  {
  }

  /** A decode stops at an overrun with declared end `n` if and only if some record of the buffer,
      behind accepted ones, declares that end. */
  lemma OverrunLocated(s: Schema, o: Options, x: Message, c: Bytes, n: nat)
    requires Fits(s, x)
    ensures Decode(s, o, x, c) == Err(Overrun(n)) <==> exists k: nat, e: nat :: Overruns(s, o, x, c, k, e) && n == k + e
  {
    hide Cut, Decode;
    if Decode(s, o, x, c) == Err(Overrun(n)) {
      var k, e := FindOverrun(s, o, x, c, n);
    }
    forall k: nat, e: nat | Overruns(s, o, x, c, k, e) && n == k + e
      ensures Decode(s, o, x, c) == Err(Overrun(n))
    {
      assert c[..k] + c[k..] == c;
      Concatenation(s, o, x, c[..k], c[k..]);
      DecodeCutFails(s, o, Decode(s, o, x, c[..k]).value, c[k..]);
    }
  }

  lemma DecodeCutFails(s: Schema, o: Options, x: Message, c: Bytes)
    requires Fits(s, x) && c != [] && Cut(s, c).Err?
    ensures Decode(s, o, x, c) == Err(Cut(s, c).fault)
  {
  }

  /** A record of `c` declares an end that fits below the largest 64-bit integer on its own and is
      carried past it by an offset `d`. */
  ghost predicate Carried(s: Schema, o: Options, x: Message, c: Bytes, d: nat)
    requires Fits(s, x)
  {
    exists k: nat, e: nat :: Overruns(s, o, x, c, k, e) && k + e < TWO_63 <= k + e + d
  }

  /** Acceptance and result at a seam are those of `c` on its own. The error value differs if and
      only if a record of `c` declares an end that only the offset carries past the largest 64-bit
      integer: then `InvalidLength` replaces `UnexpectedEOF`. */
  lemma ConcatenationErrors(s: Schema, o: Options, x: Message, b: Bytes, c: Bytes)
    requires Fits(s, x) && Decode(s, o, x, b).Ok?
    ensures var x' := Decode(s, o, x, b).value;
            var y, z := Decode(s, o, x', c), Decode(s, o, x, b + c);
            && (y.Ok? ==> z == y)
            && (y.Err? ==> z.Err? && (Report(z.fault) != Report(y.fault) <==> Carried(s, o, x', c, |b|)))
            && (Carried(s, o, x', c, |b|) ==>
                  y.Err? && Report(y.fault) == UnexpectedEOF && z.Err? && Report(z.fault) == InvalidLength)
  {
    hide Decode, Overruns;
    var x' := Decode(s, o, x, b).value;
    var y := Decode(s, o, x', c);
    Concatenation(s, o, x, b, c);
    if y.Err? && y.fault.Overrun? { OverrunLocated(s, o, x', c, y.fault.end); }
    forall k: nat, e: nat | Overruns(s, o, x', c, k, e)
      ensures y == Err(Overrun(k + e))
    {
      OverrunLocated(s, o, x', c, k + e);
    }
  }

  // ----- prefixes

  /** `k` is an end of some record of `b`, or 0. */
  ghost predicate Boundary(s: Schema, b: Bytes, k: nat)
    decreases |b|
  {
    k == 0 ||
    (b != [] && Cut(s, b).Ok? && Cut(s, b).value.len <= k
     && Boundary(s, b[Cut(s, b).value.len..], k - Cut(s, b).value.len))
  }

  /** A prefix of an accepted buffer is accepted exactly when the cut falls between two records. */
  lemma {:induction false} PrefixAcceptance(s: Schema, o: Options, x: Message, b: Bytes, k: nat)
    requires Fits(s, x) && Decode(s, o, x, b).Ok? && k <= |b|
    ensures Decode(s, o, x, b[..k]).Ok? <==> Boundary(s, b, k)
    decreases |b|
  {
    hide Cut, Absorb;
    var p := b[..k];
    if k == 0 {
      assert p == [];
    } else {
      DecodeAccepts(s, o, x, b);
      var r := Cut(s, b).value;
      if r.len <= k {
        assert p[..r.len] == b[..r.len];
        CutLocal(s, b, p);
        DecodeStep(s, o, x, p, r);
        assert p[r.len..] == b[r.len..][..k - r.len];
        PrefixAcceptance(s, o, Absorb(s, o, x, r).value, b[r.len..], k - r.len);
      } else if Decode(s, o, x, p).Ok? {
        DecodeAccepts(s, o, x, p);
        assert p + b[k..] == b;
        CutFront(s, p, b[k..]);
        assert false;
      }
    }
  }

  /** At a boundary the prefix has absorbed the earlier records and nothing else: decoding the
      remaining bytes from there completes the message. */
  lemma PrefixResumes(s: Schema, o: Options, x: Message, b: Bytes, k: nat)
    requires Fits(s, x) && Decode(s, o, x, b).Ok? && k <= |b| && Boundary(s, b, k)
    ensures Decode(s, o, x, b[..k]).Ok?
    ensures Decode(s, o, Decode(s, o, x, b[..k]).value, b[k..]) == Decode(s, o, x, b)
  {
    hide Decode, Boundary;
    PrefixAcceptance(s, o, x, b, k);
    assert b[..k] + b[k..] == b;
    Concatenation(s, o, x, b[..k], b[k..]);
  }

  // ----- each field by itself

  /** Every record of `b` can be cut. */
  ghost predicate Framed(s: Schema, b: Bytes)
    decreases |b|
  {
    b == [] || (Cut(s, b).Ok? && Framed(s, b[Cut(s, b).value.len..]))
  }

  /** The bytes of the records whose being of slot `i` is `want`, in order. */
  ghost function Select(s: Schema, b: Bytes, i: int, want: bool): Bytes
    requires Framed(s, b)
    decreases |b|
  {
    if b == [] then []
    else
      var r := Cut(s, b).value;
      (if (r.slot == i) == want then b[..r.len] else []) + Select(s, b[r.len..], i, want)
  }

  /** The records of slot `i` (-1: the unknown fields). */
  ghost function Only(s: Schema, b: Bytes, i: int): Bytes
    requires Framed(s, b)
  {
    Select(s, b, i, true)
  }

  /** The records of every other slot. */
  ghost function Without(s: Schema, b: Bytes, i: int): Bytes
    requires Framed(s, b)
  {
    Select(s, b, i, false)
  }

  /** The value of slot `i` after its own records alone, starting from `v`. */
  ghost function Track(s: Schema, o: Options, i: nat, v: Value, b: Bytes): Option<Value>
    requires Framed(s, b) && i < |s.fields|
    decreases |b|
  {
    if b == [] then Some(v)
    else
      var r := Cut(s, b).value;
      if r.slot != i then Track(s, o, i, v, b[r.len..])
      else
        match Update(o, s.fields[i].kind, v, r.payload)
        case Err(_) => None
        case Ok(w) => Track(s, o, i, w, b[r.len..])
  }

  /** `y` is what the records of `b`, taken field by field, make of `x`. */
  ghost predicate FieldWise(s: Schema, o: Options, x: Message, b: Bytes, y: Message)
    requires Framed(s, b) && Fits(s, x)
  {
    && Fits(s, y)
    && (forall i :: 0 <= i < |s.fields| ==> Track(s, o, i, x.values[i], b) == Some(y.values[i]))
    && y.unknown == x.unknown + (if o.discardUnknown then [] else Only(s, b, -1))
  }

  /** The parse loop is one independent fold per field: a buffer is accepted with result `y` if and
      only if all its records can be cut and each slot of `y` is the fold of that slot's records. */
  lemma {:induction false} DecodeIsFieldWise(s: Schema, o: Options, x: Message, b: Bytes, y: Message)
    requires Fits(s, x)
    ensures Decode(s, o, x, b) == Ok(y) <==> Framed(s, b) && FieldWise(s, o, x, b, y)
    decreases |b|
  {
    hide Cut;
    if b == [] {
      assert x.unknown + [] == x.unknown;
      if FieldWise(s, o, x, b, y) { assert y.values == x.values; }
    } else if Cut(s, b).Ok? {
      var r := Cut(s, b).value;
      var c := b[r.len..];
      DecodeStep(s, o, x, b, r);
      if Absorb(s, o, x, r).Ok? {
        var x' := Absorb(s, o, x, r).value;
        DecodeIsFieldWise(s, o, x', c, y);
        if Framed(s, c) { FieldWiseStep(s, o, x, b, x', y); }
      } else if Framed(s, b) {
        assert Track(s, o, r.slot, x.values[r.slot], b) == None;
      }
    }
  }

  lemma FieldWiseStep(s: Schema, o: Options, x: Message, b: Bytes, x': Message, y: Message)
    requires Fits(s, x) && b != [] && Framed(s, b)
    requires Absorb(s, o, x, Cut(s, b).value) == Ok(x')
    ensures FieldWise(s, o, x, b, y) <==> FieldWise(s, o, x', b[Cut(s, b).value.len..], y)
  {
    hide Cut;
    var r := Cut(s, b).value;
    var c := b[r.len..];
    CutWhole(s, b);
    forall i | 0 <= i < |s.fields|
      ensures Track(s, o, i, x.values[i], b) == Track(s, o, i, x'.values[i], c)
    {
    }
    var u, w := Only(s, b, -1), Only(s, c, -1);
    if o.discardUnknown {
    } else if r.slot == -1 {
      assert x.unknown + u == x'.unknown + w;
    } else {
      assert u == w;
    }
  }

  lemma CutWhole(s: Schema, b: Bytes)
    requires b != [] && Cut(s, b).Ok?
    ensures var r := Cut(s, b).value;
            -1 <= r.slot < |s.fields| && 0 < r.len <= |b|
            && (r.slot == -1 ==> r.payload == Whole(b[..r.len]))
  {
  }

  /** Without sub-messages, what can be cut is accepted. */
  lemma {:induction false} FlatAccepts(s: Schema, o: Options, x: Message, b: Bytes)
    requires Fits(s, x) && Flat(s)
    ensures Decode(s, o, x, b).Ok? <==> Framed(s, b)
    decreases |b|
  {
    hide Cut, Update;
    if b != [] && Cut(s, b).Ok? {
      CutWhole(s, b);
      var r := Cut(s, b).value;
      DecodeStep(s, o, x, b, r);
      if r.slot >= 0 {
        assert s.fields[r.slot] in s.fields;
        FlatUpdates(o, s.fields[r.slot].kind, x.values[r.slot], r.payload);
      }
      FlatAccepts(s, o, Absorb(s, o, x, r).value, b[r.len..]);
    }
  }

  lemma FlatUpdates(o: Options, k: Kind, v: Value, p: Payload)
    requires FlatKind(k)
    ensures Update(o, k, v, p).Ok?
  {
  }

  /** Without sub-messages the condition on the error value at a seam is one on the framing of `c`
      alone, whatever the options and the message. */
  lemma CarriedFlat(s: Schema, o: Options, x: Message, c: Bytes, d: nat)
    requires Fits(s, x) && Flat(s)
    ensures Carried(s, o, x, c, d) <==>
            exists k: nat, e: nat :: k < |c| && Framed(s, c[..k]) && Cut(s, c[k..]) == Err(Overrun(e))
                           && k + e < TWO_63 <= k + e + d
  {
    hide Cut, Decode, Framed;
    forall k | 0 <= k < |c|
      ensures Decode(s, o, x, c[..k]).Ok? <==> Framed(s, c[..k])
    {
      FlatAccepts(s, o, x, c[..k]);
    }
    if Carried(s, o, x, c, d) {
      var k: nat, e: nat :| Overruns(s, o, x, c, k, e) && k + e < TWO_63 <= k + e + d;
      assert Framed(s, c[..k]);
    }
    forall k: nat, e: nat | k < |c| && Framed(s, c[..k]) && Cut(s, c[k..]) == Err(Overrun(e))
                  && k + e < TWO_63 <= k + e + d
      ensures Carried(s, o, x, c, d)
    {
      assert Overruns(s, o, x, c, k, e);
    }
  }

  /** Slot `i` sees nothing but its own records. */
  lemma {:induction false} TrackOnly(s: Schema, o: Options, i: nat, v: Value, b: Bytes)
    requires Framed(s, b) && i < |s.fields|
    ensures Framed(s, Only(s, b, i))
    ensures Track(s, o, i, v, Only(s, b, i)) == Track(s, o, i, v, b)
    decreases |b|
  {
    hide Cut;
    if b != [] {
      var r := Cut(s, b).value;
      var c := b[r.len..];
      CutWhole(s, b);
      if r.slot != i {
        TrackOnly(s, o, i, v, c);
        assert Only(s, b, i) == Only(s, c, i);
      } else {
        var p := Only(s, b, i);
        assert p == b[..r.len] + Only(s, c, i);
        CutAlone(s, b);
        CutFront(s, b[..r.len], Only(s, c, i));
        assert p[r.len..] == Only(s, c, i);
        var w := Update(o, s.fields[i].kind, v, r.payload);
        TrackOnly(s, o, i, if w.Ok? then w.value else v, c);
      }
    }
  }

  lemma CutAlone(s: Schema, b: Bytes)
    requires b != [] && Cut(s, b).Ok?
    ensures Cut(s, b[..Cut(s, b).value.len]) == Cut(s, b)
  {
    var n := Cut(s, b).value.len;
    assert b[..n][..n] == b[..n];
    CutLocal(s, b, b[..n]);
  }

  /** Field order: two buffers whose records agree field by field, each field's records in the same
      order, are accepted alike and decode to the same message, however the fields interleave. */
  lemma FieldOrder(s: Schema, o: Options, x: Message, b: Bytes, c: Bytes)
    requires Fits(s, x) && Framed(s, b) && Framed(s, c)
    requires forall i :: -1 <= i < |s.fields| ==> Only(s, b, i) == Only(s, c, i)
    ensures Decode(s, o, x, b).Ok? <==> Decode(s, o, x, c).Ok?
    ensures Decode(s, o, x, b).Ok? ==> Decode(s, o, x, b) == Decode(s, o, x, c)
  {
    if Decode(s, o, x, b).Ok? {
      FieldOrderOneWay(s, o, x, b, c, Decode(s, o, x, b).value);
    } else if Decode(s, o, x, c).Ok? {
      FieldOrderOneWay(s, o, x, c, b, Decode(s, o, x, c).value);
    }
  }

  lemma FieldOrderOneWay(s: Schema, o: Options, x: Message, b: Bytes, c: Bytes, y: Message)
    requires Fits(s, x) && Framed(s, b) && Framed(s, c)
    requires forall i :: -1 <= i < |s.fields| ==> Only(s, b, i) == Only(s, c, i)
    requires Decode(s, o, x, b) == Ok(y)
    ensures Decode(s, o, x, c) == Ok(y)
  {
    hide Decode, Cut;
    DecodeIsFieldWise(s, o, x, b, y);
    forall i | 0 <= i < |s.fields|
      ensures Track(s, o, i, x.values[i], c) == Some(y.values[i])
    {
      TrackOnly(s, o, i, x.values[i], b);
      TrackOnly(s, o, i, x.values[i], c);
      assert Only(s, b, i) == Only(s, c, i);
    }
    assert Only(s, b, -1) == Only(s, c, -1);
    DecodeIsFieldWise(s, o, x, c, y);
  }

  lemma {:induction false} TrackAppend(s: Schema, o: Options, i: nat, v: Value, b: Bytes, c: Bytes)
    requires Framed(s, b) && Framed(s, c) && Framed(s, b + c) && i < |s.fields|
    ensures Track(s, o, i, v, b + c)
            == (match Track(s, o, i, v, b) case None => None case Some(w) => Track(s, o, i, w, c))
    decreases |b|
  {
    hide Cut, Update;
    if b == [] {
      assert b + c == c;
    } else {
      CutWhole(s, b);
      CutFront(s, b, c);
      var r := Cut(s, b).value;
      FramedAppend(s, b[r.len..], c);
      var w := Update(o, s.fields[i].kind, v, r.payload);
      if r.slot != i {
        TrackAppend(s, o, i, v, b[r.len..], c);
      } else if w.Ok? {
        TrackAppend(s, o, i, w.value, b[r.len..], c);
      }
    }
  }

  /** Last one wins: a number or string field, and without merging a singular sub-message, ends up
      with the value of its last record alone, whatever the message held before, whatever its
      earlier records said and whatever surrounds them. */
  lemma LastOneWins(s: Schema, o: Options, x: Message, b: Bytes, y: Message, i: nat, q: Bytes, p: Bytes)
    requires Fits(s, x) && Decode(s, o, x, b) == Ok(y) && i < |s.fields|
    requires s.fields[i].kind.Scalar? || s.fields[i].kind.Text? || (s.fields[i].kind.One? && !o.merge)
    requires Framed(s, b) && Only(s, b, i) == q + p && Framed(s, q) && Single(s, p)
    requires Cut(s, p).value.slot == i
    ensures Ok(y.values[i]) == Update(o, s.fields[i].kind, Default(s.fields[i].kind), Cut(s, p).value.payload)
  {
    hide Cut, Decode, Only;
    DecodeIsFieldWise(s, o, x, b, y);
    TrackOnly(s, o, i, x.values[i], b);
    SingleOnly(s, p, i);
    TrackAppend(s, o, i, x.values[i], q, p);
    var w := Track(s, o, i, x.values[i], q);
    if w.Some? {
      var r := Cut(s, p).value;
      assert p[r.len..] == [];
      var u := Update(o, s.fields[i].kind, w.value, r.payload);
      assert u == Update(o, s.fields[i].kind, Default(s.fields[i].kind), r.payload);
    }
  }

  // ----- swapping neighbours

  lemma {:induction false} FramedAppend(s: Schema, b: Bytes, c: Bytes)
    requires Framed(s, b) && Framed(s, c)
    ensures Framed(s, b + c)
    decreases |b|
  {
    hide Cut;
    if b == [] {
      assert b + c == c;
    } else {
      CutWhole(s, b);
      CutFront(s, b, c);
      FramedAppend(s, b[Cut(s, b).value.len..], c);
    }
  }

  lemma {:induction false} SelectAppend(s: Schema, b: Bytes, c: Bytes, i: int, want: bool)
    requires Framed(s, b) && Framed(s, c)
    ensures Framed(s, b + c)
    ensures Select(s, b + c, i, want) == Select(s, b, i, want) + Select(s, c, i, want)
    decreases |b|
  {
    hide Cut;
    FramedAppend(s, b, c);
    if b == [] {
      assert b + c == c;
    } else {
      CutWhole(s, b);
      CutFront(s, b, c);
      var n := Cut(s, b).value.len;
      assert (b + c)[..n] == b[..n];
      var p: Bytes := if (Cut(s, b).value.slot == i) == want then b[..n] else [];
      SelectAppend(s, b[n..], c, i, want);
      Associate(p, Select(s, b[n..], i, want), Select(s, c, i, want));
    }
  }

  lemma Associate(p: Bytes, q: Bytes, r: Bytes)
    ensures p + (q + r) == p + q + r
  {
  }

  lemma OnlyAppend(s: Schema, b: Bytes, c: Bytes, i: int)
    requires Framed(s, b) && Framed(s, c)
    ensures Framed(s, b + c) && Only(s, b + c, i) == Only(s, b, i) + Only(s, c, i)
  {
    SelectAppend(s, b, c, i, true);
  }

  /** `b` is exactly one record. */
  ghost predicate Single(s: Schema, b: Bytes) {
    b != [] && Cut(s, b).Ok? && Cut(s, b).value.len == |b|
  }

  lemma SingleSelect(s: Schema, b: Bytes, i: int, want: bool)
    requires Single(s, b)
    ensures Framed(s, b)
    ensures Select(s, b, i, want) == (if (Cut(s, b).value.slot == i) == want then b else [])
  {
    hide Cut;
    var r := Cut(s, b).value;
    var rest := b[r.len..];
    assert rest == [] && b[..r.len] == b;
    assert Framed(s, rest);
    assert Select(s, rest, i, want) == [];
  }

  lemma SingleOnly(s: Schema, b: Bytes, i: int)
    requires Single(s, b)
    ensures Framed(s, b) && Only(s, b, i) == (if Cut(s, b).value.slot == i then b else [])
  {
    hide Cut;
    SingleSelect(s, b, i, true);
  }

  /** Two neighbouring records of different fields may be swapped. (Two fields that the schema
      does not know share slot -1, so at least one of the two is known.) */
  lemma SwapNeighbours(s: Schema, o: Options, x: Message, a: Bytes, p: Bytes, q: Bytes, c: Bytes)
    requires Fits(s, x) && Framed(s, a) && Framed(s, c) && Single(s, p) && Single(s, q)
    requires Cut(s, p).value.slot != Cut(s, q).value.slot
    ensures Decode(s, o, x, a + p + q + c).Ok? <==> Decode(s, o, x, a + q + p + c).Ok?
    ensures Decode(s, o, x, a + p + q + c).Ok? ==>
              Decode(s, o, x, a + p + q + c) == Decode(s, o, x, a + q + p + c)
  {
    hide Cut, Decode, Only, Framed;
    var b, b' := a + p + q + c, a + q + p + c;
    SplitFour(s, a, p, q, c, 0);
    SplitFour(s, a, q, p, c, 0);
    forall i | -1 <= i < |s.fields|
      ensures Only(s, b, i) == Only(s, b', i)
    {
      SplitFour(s, a, p, q, c, i);
      SplitFour(s, a, q, p, c, i);
    }
    FieldOrder(s, o, x, b, b');
  }

  lemma SplitFour(s: Schema, a: Bytes, p: Bytes, q: Bytes, c: Bytes, i: int)
    requires Framed(s, a) && Framed(s, c) && Single(s, p) && Single(s, q)
    ensures Framed(s, a + p + q + c)
    ensures Only(s, a + p + q + c, i)
            == Only(s, a, i)
               + (if Cut(s, p).value.slot == i then p else [])
               + (if Cut(s, q).value.slot == i then q else [])
               + Only(s, c, i)
  {
    hide Cut;
    SingleOnly(s, p, i);
    SingleOnly(s, q, i);
    OnlyAppend(s, a, p, i);
    OnlyAppend(s, a + p, q, i);
    OnlyAppend(s, a + p + q, c, i);
  }
}
