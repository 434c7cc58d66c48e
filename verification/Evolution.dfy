/**
 Schema evolution: a reader that lacks some fields passes their records on as unknown bytes, and a
 later reader that has the fields recovers exactly what it would have read from the original.
 */
module Evolution {
  import opened Varints
  import opened Schemas
  import opened Records
  import opened Codec
  import opened Streams
  import opened RoundTrips
  import opened Normalisation

  // ----- the same record under two schemas

  /** Every field of `r` has a counterpart in `s`: a field of that number and wire type. */
  ghost predicate Covers(r: Schema, s: Schema) {
    && ValidSchema(r) && ValidSchema(s)
    && forall f | f in r.fields ::
         var i := Slot(s.fields, f.num); i >= 0 && WireType(s.fields[i].kind) == WireType(f.kind)
  }

  lemma SubschemaCovers(r: Schema, s: Schema)
    requires Subschema(r, s)
    ensures Covers(r, s) && forall f | f in r.fields :: s.fields[Slot(s.fields, f.num)] == f
  {
    forall f | f in r.fields
      ensures var i := Slot(s.fields, f.num); i >= 0 && s.fields[i] == f
    {
      var k :| 0 <= k < |s.fields| && s.fields[k] == f;
      SlotOf(s, k);
    }
  }

  /** How a record that schema `r` can cut looks under a schema `s` that covers it: the same bytes,
      unless only `s` knows the field and finds the wrong wire type. */
  lemma CutTransfer(s: Schema, r: Schema, b: Bytes)
    requires Covers(r, s) && b != [] && Cut(r, b).Ok?
    ensures var c, d := Cut(r, b).value, Cut(s, b);
            && (d.Ok? ==> d.value.len == c.len)
            && (d.Err? ==>
                  && ReadTag(b).Ok? && c.slot == -1
                  && d.fault == Final(WrongWireType(ReadTag(b).value.num, ReadTag(b).value.wireType)))
            && (c.slot >= 0 ==>
                  && d.Ok? && d.value.payload == c.payload && d.value.slot >= 0
                  && d.value.slot == Slot(s.fields, r.fields[c.slot].num))
            && (c.slot == -1 && d.Ok? && d.value.slot >= 0 ==>
                  Slot(r.fields, s.fields[d.value.slot].num) == -1)
  {
    hide ValidSchema;
    var h := ReadTag(b).value;
    var j, i := Slot(r.fields, h.num), Slot(s.fields, h.num);
    if j >= 0 {
      assert r.fields[j] in r.fields;
      CutKnown(r, b, h, j);
      CutKnown(s, b, h, i);
    } else if i >= 0 && h.wireType == WireType(s.fields[i].kind) {
      CutKnown(s, b, h, i);
      SkipIsCut(b, h, i);
    }
  }

  /** Skipping a varint or length-delimited field passes the bytes that cutting it consumes. */
  lemma SkipIsCut(b: Bytes, h: Header, i: nat)
    requires b != [] && ReadTag(b) == Ok(h) && CutUnknown(b).Ok?
    ensures h.wireType == 0 ==> CutNumber(b, h, i).Ok? && CutNumber(b, h, i).value.len == CutUnknown(b).value.len
    ensures h.wireType == 2 ==> CutChunk(b, h, i).Ok? && CutChunk(b, h, i).value.len == CutUnknown(b).value.len
  {
    if h.wireType == 0 || h.wireType == 2 {
      var x := ReadItem(b).value;
      SkipFrom(b, 0, 0, x, 0);
    }
  }

  /** Continue with `b` after a first result. */
  ghost function Then(s: Schema, o: Options, y: Result<Message>, b: Bytes): Result<Message>
    requires y.Ok? ==> Fits(s, y.value)
  {
    match y
    case Err(f) => Err(f)
    case Ok(x) => Decode(s, o, x, b)
  }

  /** Records that `r` can cut never overrun under `s`. */
  lemma {:induction false} OnlyFinalFaults(s: Schema, r: Schema, o: Options, x: Message, b: Bytes)
    requires Subschema(r, s) && Fits(s, x) && Framed(r, b)
    ensures Decode(s, o, x, b).Err? ==> Decode(s, o, x, b).fault.Final?
    decreases |b|
  {
    hide Cut, Subschema, Covers;
    if b != [] {
      SubschemaCovers(r, s);
      CutTransfer(s, r, b);
      CutWhole(r, b);
      if Cut(s, b).Ok? {
        var c := Cut(s, b).value;
        CutWhole(s, b);
        DecodeStep(s, o, x, b, c);
        if Absorb(s, o, x, c).Ok? {
          OnlyFinalFaults(s, r, o, Absorb(s, o, x, c).value, b[c.len..]);
        }
      }
    }
  }

  /** Over such records decoding splits at every boundary, errors included. */
  lemma {:induction false} SplitDecode(s: Schema, r: Schema, o: Options, x: Message, u: Bytes, p: Bytes)
    requires Subschema(r, s) && Fits(s, x) && Framed(r, u) && Framed(r, p)
    ensures Decode(s, o, x, u + p) == Then(s, o, Decode(s, o, x, u), p)
  {
    hide Cut, Subschema, Covers;
    if Decode(s, o, x, u).Ok? {
      Concatenation(s, o, x, u, p);
      OnlyFinalFaults(s, r, o, Decode(s, o, x, u).value, p);
    } else {
      ErrorStays(s, r, o, x, u, p);
    }
  }

  lemma {:induction false} ErrorStays(s: Schema, r: Schema, o: Options, x: Message, u: Bytes, p: Bytes)
    requires Subschema(r, s) && Fits(s, x) && Framed(r, u) && Decode(s, o, x, u).Err?
    ensures Decode(s, o, x, u + p) == Decode(s, o, x, u)
    decreases |u|
  {
    hide Cut, Subschema, Covers;
    SubschemaCovers(r, s);
    CutTransfer(s, r, u);
    CutWhole(r, u);
    if Cut(s, u).Ok? {
      var c := Cut(s, u).value;
      CutWhole(s, u);
      CutFront(s, u, p);
      DecodeStep(s, o, x, u, c);
      DecodeStep(s, o, x, u + p, c);
      if Absorb(s, o, x, c).Ok? {
        ErrorStays(s, r, o, Absorb(s, o, x, c).value, u[c.len..], p);
      }
    } else {
      CutErrorStays(s, r, u, p);
    }
  }

  lemma CutErrorStays(s: Schema, r: Schema, u: Bytes, p: Bytes)
    requires Covers(r, s) && u != [] && Cut(r, u).Ok? && Cut(s, u).Err?
    ensures Cut(s, u + p) == Cut(s, u)
  {
    CutTransfer(s, r, u);
    hide Covers;
    var h := ReadTag(u).value;
    assert (u + p)[..h.len] == u[..h.len];
    ReadTagLocal(u, u + p);
  }

  // ----- what the smaller schema does not know, commutes with what it knows

  ghost function WithResult(y: Result<Message>, i: nat, w: Value): Result<Message>
    requires y.Ok? ==> i < |y.value.values|
  {
    match y
    case Err(f) => Err(f)
    case Ok(x) => Ok(With(x, i, w))
  }

  lemma WithWith(x: Message, i: nat, v: Value, j: nat, w: Value)
    requires i < |x.values| && j < |x.values| && i != j
    ensures With(With(x, i, v), j, w) == With(With(x, j, w), i, v)
  {
    assert x.values[i := v][j := w] == x.values[j := w][i := v];
  }

  /** Absorbing a record of another slot leaves slot `i` alone and does not look at it. */
  lemma AbsorbElsewhere(s: Schema, o: Options, x: Message, c: Record, i: nat, w: Value)
    requires Fits(s, x) && -1 <= c.slot < |s.fields| && i < |s.fields| && c.slot != i
    ensures Absorb(s, o, With(x, i, w), c) == WithResult(Absorb(s, o, x, c), i, w)
    ensures Absorb(s, o, x, c).Ok? ==> Absorb(s, o, x, c).value.values[i] == x.values[i]
  {
    hide Update;
    if c.slot >= 0 {
      var v := Update(o, s.fields[c.slot].kind, x.values[c.slot], c.payload);
      if v.Ok? { WithWith(x, i, w, c.slot, v.value); }
    }
  }

  lemma {:induction false} Commute(s: Schema, r: Schema, o: Options, x: Message, u: Bytes, i: nat, w: Value)
    requires Subschema(r, s) && Fits(s, x) && UnknownOnly(r, u)
    requires i < |s.fields| && s.fields[i] in r.fields
    ensures Decode(s, o, With(x, i, w), u) == WithResult(Decode(s, o, x, u), i, w)
    ensures Decode(s, o, x, u).Ok? ==> Decode(s, o, x, u).value.values[i] == x.values[i]
    decreases |u|
  {
    hide Cut, Subschema, Covers, Absorb;
    if u != [] {
      SubschemaCovers(r, s);
      CutTransfer(s, r, u);
      CutWhole(r, u);
      if Cut(s, u).Ok? {
        var c := Cut(s, u).value;
        CutWhole(s, u);
        AbsorbElsewhere(s, o, x, c, i, w);
        DecodeStep(s, o, x, u, c);
        DecodeStep(s, o, With(x, i, w), u, c);
        if Absorb(s, o, x, c).Ok? {
          Commute(s, r, o, Absorb(s, o, x, c).value, u[c.len..], i, w);
        }
      }
    }
  }

  // ----- simulation

  lemma {:induction false} UnknownIsFramed(r: Schema, u: Bytes)
    requires UnknownOnly(r, u)
    ensures Framed(r, u)
    decreases |u|
  {
    hide Cut;
    if u != [] {
      CutWhole(r, u);
      UnknownIsFramed(r, u[Cut(r, u).value.len..]);
    }
  }

  ghost function Lift(s: Schema, r: Schema, x: Message): (y: Message)
    requires Fits(r, x)
    ensures Fits(s, y)
  {
    LiftUpTo(s, r, x, |r.fields|)
  }

  /** A message of the smaller schema, completed by reading its unknown bytes under the larger. */
  ghost function Full(s: Schema, r: Schema, o: Options, x: Message): (y: Result<Message>)
    requires Fits(r, x)
    ensures y.Ok? ==> Fits(s, y.value)
  {
    Decode(s, o, Lift(s, r, x), x.unknown)
  }

  lemma LiftWith(s: Schema, r: Schema, x: Message, j: nat, i: nat, w: Value)
    requires Subschema(r, s) && Fits(r, x) && j < |r.fields| && i < |s.fields|
    requires s.fields[i] == r.fields[j]
    ensures Lift(s, r, With(x, j, w)) == With(Lift(s, r, x), i, w)
    ensures Lift(s, r, x).values[i] == x.values[j]
  {
    SlotOf(r, j);
    var a, b := Lift(s, r, With(x, j, w)), With(Lift(s, r, x), i, w);
    forall k | 0 <= k < |s.fields|
      ensures a.values[k] == b.values[k]
    {
      if k != i { assert s.fields[k].num != s.fields[i].num; }
    }
    assert a.values == b.values;
  }

  /** A record known to both schemas. */
  lemma KnownStep(s: Schema, r: Schema, o: Options, x: Message, b: Bytes, x': Message)
    requires Subschema(r, s) && Fits(r, x) && UnknownOnly(r, x.unknown)
    requires b != [] && Cut(r, b).Ok? && Cut(r, b).value.slot >= 0
    requires Absorb(r, o, x, Cut(r, b).value) == Ok(x')
    requires Framed(r, b)
    ensures Then(s, o, Full(s, r, o, x), b) == Then(s, o, Full(s, r, o, x'), b[Cut(r, b).value.len..])
  {
    hide Cut, Update, Subschema, Covers, LiftUpTo;
    var c := Cut(r, b).value;
    SubschemaCovers(r, s);
    CutTransfer(s, r, b);
    CutWhole(r, b);
    var d := Cut(s, b).value;
    var w := x'.values[c.slot];
    assert x' == With(x, c.slot, w);
    LiftWith(s, r, x, c.slot, d.slot, w);
    CutWhole(s, b);
    Commute(s, r, o, Lift(s, r, x), x.unknown, d.slot, w);
    var y := Full(s, r, o, x);
    if y.Ok? {
      DecodeStep(s, o, y.value, b, d);
      OnlyFinalFaults(s, r, o, With(y.value, d.slot, w), b[c.len..]);
    }
  }

  /** A record the smaller schema does not know. */
  lemma UnknownStep(s: Schema, r: Schema, o: Options, x: Message, b: Bytes, x': Message)
    requires Subschema(r, s) && Fits(r, x) && UnknownOnly(r, x.unknown) && !o.discardUnknown
    requires b != [] && Cut(r, b).Ok? && Cut(r, b).value.slot == -1
    requires Absorb(r, o, x, Cut(r, b).value) == Ok(x')
    requires Framed(r, b)
    ensures Then(s, o, Full(s, r, o, x), b) == Then(s, o, Full(s, r, o, x'), b[Cut(r, b).value.len..])
  {
    hide Cut, Subschema, Covers, LiftUpTo, Decode;
    var c := Cut(r, b).value;
    CutWhole(r, b);
    var p, rest := b[..c.len], b[c.len..];
    assert x' == x.(unknown := x.unknown + p);
    assert Lift(s, r, x') == Lift(s, r, x) by { LiftIgnoresUnknown(s, r, x, x'); }
    CutAlone(r, b);
    SingleOnly(r, p, -1);
    UnknownIsFramed(r, x.unknown);
    SplitDecode(s, r, o, Lift(s, r, x), x.unknown, p);
    var y := Full(s, r, o, x);
    if y.Ok? {
      assert p + rest == b;
      SplitDecode(s, r, o, y.value, p, rest);
    }
  }

  lemma LiftIgnoresUnknown(s: Schema, r: Schema, x: Message, x': Message)
    requires Fits(r, x) && Fits(r, x') && x.values == x'.values
    ensures Lift(s, r, x) == Lift(s, r, x')
  {
    assert Lift(s, r, x).values == Lift(s, r, x').values;
  }

  /** The smaller reader's state, completed, is what the larger reader reaches. */
  lemma {:induction false} Simulate(s: Schema, r: Schema, o: Options, x: Message, b: Bytes, y: Message)
    requires Subschema(r, s) && LawfulExt(o) && !o.discardUnknown
    requires WellFormed(o, r, x) && Decode(r, o, x, b) == Ok(y)
    ensures Full(s, r, o, y) == Then(s, o, Full(s, r, o, x), b)
    decreases |b|
  {
    hide Cut, Absorb, Subschema, Full, GoodValue, LawfulExt;
    if b == [] {
      DecodeNothingThen(s, o, Full(s, r, o, x));
    } else {
      DecodeAccepts(r, o, x, b);
      CutWhole(r, b);
      var c := Cut(r, b).value;
      var x' := Absorb(r, o, x, c).value;
      assert Framed(r, b) by { DecodeIsFieldWise(r, o, x, b, y); }
      if c.slot >= 0 {
        KnownStep(s, r, o, x, b, x');
      } else {
        UnknownStep(s, r, o, x, b, x');
      }
      assert WellFormed(o, r, x') by { OneRecord(o, r, x, b); }
      Simulate(s, r, o, x', b[c.len..], y);
    }
  }

  lemma OneRecord(o: Options, r: Schema, x: Message, b: Bytes)
    requires LawfulExt(o) && WellFormed(o, r, x) && b != [] && Cut(r, b).Ok?
    requires Absorb(r, o, x, Cut(r, b).value).Ok?
    ensures WellFormed(o, r, Absorb(r, o, x, Cut(r, b).value).value)
  {
    hide Cut, Absorb;
    var c := Cut(r, b).value;
    CutWhole(r, b);
    var p := b[..c.len];
    CutAlone(r, b);
    assert p[c.len..] == [];
    DecodeStep(r, o, x, p, c);
    DecodeWellFormed(r, o, x, p);
  }

  lemma DecodeNothingThen(s: Schema, o: Options, y: Result<Message>)
    requires y.Ok? ==> Fits(s, y.value)
    ensures Then(s, o, y, []) == y
  {
  }

  /** Schema evolution: decode with a schema that lacks some fields, encode again, decode with the
      full schema. The outcome, errors included, is that of decoding the original in full. */
  lemma SchemaEvolution(o: Options, s: Schema, r: Schema, b: Bytes, m: Message)
    requires Subschema(r, s) && LawfulExt(o) && !o.discardUnknown
    requires Decode(r, o, Empty(r), b) == Ok(m) && |Encode(r, m)| < TWO_63
    ensures Decode(s, o, Empty(s), Encode(r, m)) == Decode(s, o, Empty(s), b)
  {
    hide Decode, LiftUpTo, Cut, Subschema, WellFormed;
    EmptyWellFormed(o, r);
    DecodeWellFormed(r, o, Empty(r), b);
    Simulate(s, r, o, Empty(r), b, m);
    assert Full(s, r, o, Empty(r)) == Ok(Empty(s)) by {
      LiftEmpty(s, r);
      DecodeNothing(s, o, Empty(s));
    }
    FieldsRoundTrip(o, s, r, m, 0);
    LiftNone(s, r, m);
    assert Fits(r, m);
    Concatenation(s, o, Empty(s), EncodeFrom(r, m, 0), m.unknown);
    UnknownStaysFinal(o, s, r, m);
  }

  lemma UnknownStaysFinal(o: Options, s: Schema, r: Schema, m: Message)
    requires Subschema(r, s) && WellFormed(o, r, m)
    ensures Full(s, r, o, m).Err? ==> Full(s, r, o, m).fault.Final?
  {
    hide Cut, Subschema, Covers;
    UnknownIsFramed(r, m.unknown);
    OnlyFinalFaults(s, r, o, Lift(s, r, m), m.unknown);
  }

  lemma LiftEmpty(s: Schema, r: Schema)
    requires Subschema(r, s)
    ensures Lift(s, r, Empty(r)) == Empty(s)
  {
    forall i | 0 <= i < |s.fields|
      ensures Lift(s, r, Empty(r)).values[i] == Empty(s).values[i]
    {
      var j := Slot(r.fields, s.fields[i].num);
      if j >= 0 {
        assert r.fields[j] in r.fields && r.fields[j] in s.fields;
        var k :| 0 <= k < |s.fields| && s.fields[k] == r.fields[j];
        assert k == i;
      }
    }
    assert Lift(s, r, Empty(r)).values == Empty(s).values;
  }
}
