/**
 Schema evolution at every depth: the smaller reader may also lack fields of sub-messages. What it
 passes on is related to what the larger reader reads by a relation that both parsers preserve.
 */
module NestedEvolution {
  import opened Varints
  import opened Schemas
  import opened Records
  import opened Codec
  import opened Streams
  import opened RoundTrips
  import opened Buffers
  import opened Normalisation
  import opened Evolution
  import opened DlcSchemas

  // ----- schemas that lack fields at any depth

  ghost predicate Within(r: Schema, s: Schema)
    decreases r
  {
    && ValidSchema(r) && ValidSchema(s)
    && forall j :: 0 <= j < |r.fields| ==>
         var i := Slot(s.fields, r.fields[j].num);
         i >= 0 && KindWithin(r.fields[j].kind, s.fields[i].kind)
  }

  ghost predicate KindWithin(k: Kind, l: Kind)
    decreases k
  {
    match k
    case Scalar(_) => l == k
    case Text => l == k
    case One(e) => l.One? && ElemWithin(e, l.elem)
    case Many(e) => l.Many? && ElemWithin(e, l.elem)
  }

  ghost predicate ElemWithin(e: Elem, g: Elem)
    decreases e
  {
    if e.Sub? then g.Sub? && Within(e.schema, g.schema) else g == e
  }

  lemma WithinCovers(r: Schema, s: Schema)
    requires Within(r, s)
    ensures Covers(r, s)
  {
    hide ValidSchema;
    forall f | f in r.fields
      ensures var i := Slot(s.fields, f.num); i >= 0 && WireType(s.fields[i].kind) == WireType(f.kind)
    {
      var j :| 0 <= j < |r.fields| && r.fields[j] == f;
    }
  }

  /** The counterpart of slot `j` has `j` as its own counterpart. */
  lemma SlotBack(r: Schema, s: Schema, j: nat)
    requires Within(r, s) && j < |r.fields|
    ensures var i := Slot(s.fields, r.fields[j].num);
            0 <= i < |s.fields| && Slot(r.fields, s.fields[i].num) == j
            && KindWithin(r.fields[j].kind, s.fields[i].kind)
  {
    SlotOf(r, j);
  }

  // ----- what a message of the smaller schema stands for

  /** `y` is what message `x` of the smaller schema stands for under the larger: the known fields
      alike at every depth, the others as its unknown records give them. */
  ghost predicate Completes(o: Options, s: Schema, r: Schema, x: Message, y: Message)
    decreases x
  {
    && Fits(r, x) && Fits(s, y)
    && (forall j :: 0 <= j < |r.fields| ==>
          var i := Slot(s.fields, r.fields[j].num);
          i >= 0 && CompletesValue(o, s.fields[i].kind, r.fields[j].kind, x.values[j], y.values[i]))
    && Carries(o, s, r, x.unknown, y)
  }

  ghost predicate CompletesValue(o: Options, l: Kind, k: Kind, v: Value, w: Value)
    decreases v
  {
    if v.List? && (k.One? || k.Many?) && (l.One? || l.Many?) then
      && w.List? && |w.elts| == |v.elts|
      && forall q :: 0 <= q < |v.elts| ==> CompletesElt(o, l.elem, k.elem, v.elts[q], w.elts[q])
    else w == v
  }

  ghost predicate CompletesElt(o: Options, g: Elem, e: Elem, x: Elt, y: Elt)
    decreases x
  {
    if e.Sub? && g.Sub? then x.Node? && y.Node? && Completes(o, g.schema, e.schema, x.msg, y.msg)
    else y == x
  }

  /** The unknown bytes `u` of the smaller reader give the fields of `y` that only `s` has. */
  ghost predicate Carries(o: Options, s: Schema, r: Schema, u: Bytes, y: Message) {
    && Fits(s, y) && Framed(s, u)
    && (forall i :: 0 <= i < |s.fields| && Slot(r.fields, s.fields[i].num) == -1 ==>
          Track(s, o, i, Default(s.fields[i].kind), u) == Some(y.values[i]))
    && y.unknown == Only(s, u, -1)
  }

  lemma CompletesFits(o: Options, s: Schema, r: Schema, x: Message, y: Message)
    requires Completes(o, s, r, x, y)
    ensures Fits(r, x) && Fits(s, y)
  {
  }

  lemma CompletesEmpty(o: Options, s: Schema, r: Schema)
    requires Within(r, s)
    ensures Completes(o, s, r, Empty(r), Empty(s))
  {
    hide Within, ValidSchema;
    forall j | 0 <= j < |r.fields|
      ensures var i := Slot(s.fields, r.fields[j].num);
              i >= 0 && CompletesValue(o, s.fields[i].kind, r.fields[j].kind, Empty(r).values[j], Empty(s).values[i])
    {
      SlotBack(r, s, j);
    }
  }

  lemma OnlyEmpty(o: Options, s: Schema, r: Schema, y: Message)
    requires Within(r, s) && Completes(o, s, r, Empty(r), y)
    ensures y == Empty(s)
  {
    hide Within, ValidSchema;
    forall i | 0 <= i < |s.fields|
      ensures y.values[i] == Default(s.fields[i].kind)
    {
      var j := Slot(r.fields, s.fields[i].num);
      if j >= 0 {
        assert Slot(s.fields, r.fields[j].num) == i by { WithinSlot(r, s, i); }
        SlotBack(r, s, j);
      }
    }
    assert y.values == Empty(s).values;
  }

  lemma WithinSlot(r: Schema, s: Schema, i: nat)
    requires Within(r, s) && i < |s.fields|
    ensures Slot(s.fields, s.fields[i].num) == i
  {
    SlotOf(s, i);
  }

  // ----- a record that both schemas know

  /** Changing a known field on both sides keeps the relation. */
  lemma ReplaceKnown(o: Options, s: Schema, r: Schema, x: Message, y: Message, j: nat, v: Value, w: Value)
    requires Within(r, s) && Completes(o, s, r, x, y) && j < |r.fields|
    requires var i := Slot(s.fields, r.fields[j].num);
             i >= 0 && CompletesValue(o, s.fields[i].kind, r.fields[j].kind, v, w)
    ensures Completes(o, s, r, With(x, j, v), With(y, Slot(s.fields, r.fields[j].num), w))
  {
    hide Within, CompletesValue, Framed, Track, Only;
    var i := Slot(s.fields, r.fields[j].num);
    SlotBack(r, s, j);
    var x', y' := With(x, j, v), With(y, i, w);
    forall q | 0 <= q < |r.fields|
      ensures var p := Slot(s.fields, r.fields[q].num);
              p >= 0 && CompletesValue(o, s.fields[p].kind, r.fields[q].kind, x'.values[q], y'.values[p])
    {
      SlotBack(r, s, q);
    }
    assert Carries(o, s, r, x'.unknown, y');
  }

  /** The two starting points of a sub-message. */
  ghost function Start(t: Schema, prev: Option<Elt>): (m: Message)
    ensures Fits(t, m)
  {
    if prev.Some? && prev.value.Node? && Fits(t, prev.value.msg) then prev.value.msg else Empty(t)
  }

  lemma DecodeSub(o: Options, t: Schema, prev: Option<Elt>, p: Bytes)
    ensures match Decode(t, o, Start(t, prev), p)
            case Err(f) => DecodeElt(o, Sub(t), prev, p) == Err(Final(Report(f)))
            case Ok(m) => DecodeElt(o, Sub(t), prev, p) == Ok(Node(m))
  {
  }

  ghost predicate CompletesPrev(o: Options, g: Elem, e: Elem, prev: Option<Elt>, prev': Option<Elt>) {
    (prev.None? && prev'.None?) ||
    (prev.Some? && prev'.Some? && CompletesElt(o, g, e, prev.value, prev'.value) && GoodElt(o, e, prev.value))
  }

  lemma StartCompletes(o: Options, s: Schema, r: Schema, prev: Option<Elt>, prev': Option<Elt>)
    requires Within(r, s) && CompletesPrev(o, Sub(s), Sub(r), prev, prev')
    ensures Completes(o, s, r, Start(r, prev), Start(s, prev')) && WellFormed(o, r, Start(r, prev))
  {
    hide Within, WellFormed, Completes;
    CompletesEmpty(o, s, r);
    EmptyWellFormed(o, r);
    if prev.Some? { CompletesFits(o, s, r, prev.value.msg, prev'.value.msg); }
  }

  lemma {:induction false} EltForward(
    o: Options, g: Elem, e: Elem, prev: Option<Elt>, prev': Option<Elt>, p: Bytes, x: Elt, y: Elt)
    requires ElemWithin(e, g) && LawfulExt(o) && !o.discardUnknown && CompletesPrev(o, g, e, prev, prev')
    requires DecodeElt(o, e, prev, p) == Ok(x) && DecodeElt(o, g, prev', p) == Ok(y)
    ensures CompletesElt(o, g, e, x, y)
    decreases |p|, 1
  {
    if e.Sub? {
      hide LawfulExt, Within, Decode, WellFormed, Completes;
      var r, s := e.schema, g.schema;
      StartCompletes(o, s, r, prev, prev');
      DecodeSub(o, r, prev, p);
      DecodeSub(o, s, prev', p);
      Forward(o, s, r, Start(r, prev), Start(s, prev'), p, x.msg, y.msg);
    }
  }

  lemma {:induction false} ValueForward(
    o: Options, l: Kind, k: Kind, v: Value, w: Value, p: Payload, v': Value, w': Value)
    requires KindWithin(k, l) && LawfulExt(o) && !o.discardUnknown && GoodValue(o, k, v)
    requires CompletesValue(o, l, k, v, w)
    requires Update(o, k, v, p) == Ok(v') && Update(o, l, w, p) == Ok(w')
    ensures CompletesValue(o, l, k, v', w')
    decreases ChunkLen(p), 2
  {
    hide DecodeElt, LawfulExt, GoodElt, CompletesElt, ElemWithin;
    var bytes := if p.Chunk? then p.bytes else [];
    if k.One? {
      var prev := if o.merge && v.elts != [] then Some(v.elts[0]) else None;
      var prev' := if o.merge && w.elts != [] then Some(w.elts[0]) else None;
      EltForward(o, l.elem, k.elem, prev, prev', bytes, v'.elts[0], w'.elts[0]);
    } else if k.Many? {
      EltForward(o, l.elem, k.elem, None, None, bytes, v'.elts[|v.elts|], w'.elts[|w.elts|]);
    }
  }

  // ----- a record that only the larger schema may know

  lemma SingleTrack(s: Schema, o: Options, i: nat, v: Value, p: Bytes)
    requires Single(s, p) && i < |s.fields|
    ensures Framed(s, p)
    ensures Track(s, o, i, v, p)
            == (if Cut(s, p).value.slot != i then Some(v)
                else match Update(o, s.fields[i].kind, v, Cut(s, p).value.payload)
                     case Err(_) => None
                     case Ok(w) => Some(w))
  {
    hide Cut, Update;
    assert p[|p|..] == [];
  }

  lemma {:induction false} FramedSplit(s: Schema, r: Schema, u: Bytes, p: Bytes)
    requires Covers(r, s) && UnknownOnly(r, u) && Framed(s, u + p)
    ensures Framed(s, u) && Framed(s, p)
    decreases |u|
  {
    hide Cut, Covers;
    if u == [] {
      assert u + p == p;
    } else {
      CutTransfer(s, r, u);
      CutWhole(r, u);
      if Cut(s, u).Err? {
        CutErrorStays(s, r, u, p);
        assert false;
      }
      CutFront(s, u, p);
      FramedSplit(s, r, u[Cut(r, u).value.len..], p);
    }
  }

  /** A record `p` that only `s` may know, behind the unknown bytes `u`: `y'` is carried by both
      exactly when some `y` is carried by `u` and absorbs the record to become `y'`. */
  lemma CarryForward(o: Options, s: Schema, r: Schema, u: Bytes, p: Bytes, y: Message, y': Message)
    requires Carries(o, s, r, u, y) && Single(s, p) && !o.discardUnknown
    requires Absorb(s, o, y, Cut(s, p).value) == Ok(y')
    ensures Carries(o, s, r, u + p, y')
  {
    hide Cut, Update, Track, Only, Framed;
    var d := Cut(s, p).value;
    CutWhole(s, p);
    SingleOnly(s, p, -1);
    OnlyAppend(s, u, p, -1);
    forall i | 0 <= i < |s.fields| && Slot(r.fields, s.fields[i].num) == -1
      ensures Track(s, o, i, Default(s.fields[i].kind), u + p) == Some(y'.values[i])
    {
      TrackAppend(s, o, i, Default(s.fields[i].kind), u, p);
      SingleTrack(s, o, i, y.values[i], p);
    }
    assert p[..|p|] == p;
    if d.slot >= 0 { assert Only(s, u, -1) + [] == Only(s, u, -1); }
  }

  lemma CarryBackward(o: Options, s: Schema, r: Schema, u: Bytes, p: Bytes, y': Message) returns (y: Message)
    requires Covers(r, s) && UnknownOnly(r, u) && Single(r, p) && Cut(r, p).value.slot == -1
    requires Carries(o, s, r, u + p, y') && !o.discardUnknown
    ensures Single(s, p) && Carries(o, s, r, u, y) && Absorb(s, o, y, Cut(s, p).value) == Ok(y')
    ensures forall i :: 0 <= i < |s.fields| && Slot(r.fields, s.fields[i].num) >= 0 ==> y.values[i] == y'.values[i]
  {
    hide Cut, Update, Track, Only, Covers, UnknownOnly;
    FramedSplit(s, r, u, p);
    CutTransfer(s, r, p);
    var d := Cut(s, p).value;
    CutWhole(s, p);
    SingleOnly(s, p, -1);
    OnlyAppend(s, u, p, -1);
    assert p[..|p|] == p;
    forall i | 0 <= i < |s.fields| && Slot(r.fields, s.fields[i].num) == -1
      ensures var t := Track(s, o, i, Default(s.fields[i].kind), u);
              && t.Some? && Track(s, o, i, t.value, p) == Some(y'.values[i])
              && (d.slot != i ==> t == Some(y'.values[i]))
              && (d.slot == i ==> Update(o, s.fields[i].kind, t.value, d.payload) == Ok(y'.values[i]))
    {
      TrackAppend(s, o, i, Default(s.fields[i].kind), u, p);
      var t := Track(s, o, i, Default(s.fields[i].kind), u);
      SingleTrack(s, o, i, t.value, p);
    }
    if d.slot == -1 {
      y := y'.(unknown := Only(s, u, -1));
    } else {
      var t := Track(s, o, d.slot, Default(s.fields[d.slot].kind), u);
      y := With(y', d.slot, t.value);
      assert y.values[d.slot := y'.values[d.slot]] == y'.values;
      assert Only(s, u, -1) + [] == Only(s, u, -1);
    }
  }

  // ----- forwards

  /** Both readers, run on the same bytes, stay related. */
  lemma {:induction false} Forward(
    o: Options, s: Schema, r: Schema, x: Message, y: Message, b: Bytes, x': Message, y': Message)
    requires Within(r, s) && LawfulExt(o) && !o.discardUnknown
    requires WellFormed(o, r, x) && Completes(o, s, r, x, y)
    requires Decode(r, o, x, b) == Ok(x') && Decode(s, o, y, b) == Ok(y')
    ensures Completes(o, s, r, x', y')
    decreases |b|, 0
  {
    hide Cut, Absorb, Within, Covers, LawfulExt, WellFormed, Completes;
    CompletesFits(o, s, r, x, y);
    if b != [] {
      WithinCovers(r, s);
      DecodeAccepts(r, o, x, b);
      DecodeAccepts(s, o, y, b);
      CutTransfer(s, r, b);
      CutFacts(r, b);
      var c, d := Cut(r, b).value, Cut(s, b).value;
      var x1, y1 := Absorb(r, o, x, c).value, Absorb(s, o, y, d).value;
      assert Completes(o, s, r, x1, y1) by {
        if c.slot >= 0 { StepForward(o, s, r, x, y, c, d); } else { PassForward(o, s, r, x, y, b); }
      }
      OneRecord(o, r, x, b);
      Forward(o, s, r, x1, y1, b[c.len..], x', y');
    }
  }

  lemma {:induction false} StepForward(
    o: Options, s: Schema, r: Schema, x: Message, y: Message, c: Record, d: Record)
    requires Within(r, s) && LawfulExt(o) && !o.discardUnknown
    requires WellFormed(o, r, x) && Completes(o, s, r, x, y)
    requires 0 <= c.slot < |r.fields| && d.slot == Slot(s.fields, r.fields[c.slot].num) && d.payload == c.payload
    requires Absorb(r, o, x, c).Ok? && Absorb(s, o, y, d).Ok?
    ensures Completes(o, s, r, Absorb(r, o, x, c).value, Absorb(s, o, y, d).value)
    decreases ChunkLen(c.payload), 3
  {
    hide Within, LawfulExt, Update, CompletesValue, GoodValue, Carries, UnknownOnly, ValidSchema;
    SlotBack(r, s, c.slot);
    var k, l := r.fields[c.slot].kind, s.fields[d.slot].kind;
    var v, w := x.values[c.slot], y.values[d.slot];
    var v', w' := Update(o, k, v, c.payload).value, Update(o, l, w, c.payload).value;
    ValueForward(o, l, k, v, w, c.payload, v', w');
    ReplaceKnown(o, s, r, x, y, c.slot, v', w');
  }

  lemma PassForward(o: Options, s: Schema, r: Schema, x: Message, y: Message, b: Bytes)
    requires Completes(o, s, r, x, y) && !o.discardUnknown && Covers(r, s)
    requires b != [] && Cut(r, b).Ok? && Cut(r, b).value.slot == -1 && Cut(s, b).Ok?
    requires Absorb(r, o, x, Cut(r, b).value).Ok? && Absorb(s, o, y, Cut(s, b).value).Ok?
    ensures Completes(o, s, r, Absorb(r, o, x, Cut(r, b).value).value, Absorb(s, o, y, Cut(s, b).value).value)
  {
    hide Cut, Update, CompletesValue, Carries, Covers;
    CutTransfer(s, r, b);
    CutWhole(r, b);
    CutWhole(s, b);
    var d := Cut(s, b).value;
    var p := b[..d.len];
    CutAlone(s, b);
    var x', y' := Absorb(r, o, x, Cut(r, b).value).value, Absorb(s, o, y, d).value;
    CarryForward(o, s, r, x.unknown, p, y, y');
    OthersKnown(s, r, d.slot);
    forall j | 0 <= j < |r.fields|
      ensures var i := Slot(s.fields, r.fields[j].num);
              i >= 0 && CompletesValue(o, s.fields[i].kind, r.fields[j].kind, x'.values[j], y'.values[i])
    {
    }
    assert Fits(s, y') by { CarriesFits(o, s, r, x'.unknown, y'); }
  }

  lemma CarriesFits(o: Options, s: Schema, r: Schema, u: Bytes, y: Message)
    requires Carries(o, s, r, u, y)
    ensures Fits(s, y)
  {
  }

  /** A slot that `r` does not know is no counterpart of one that it knows. */
  lemma OthersKnown(s: Schema, r: Schema, i: int)
    requires i >= 0 ==> i < |s.fields| && Slot(r.fields, s.fields[i].num) == -1
    ensures i >= 0 ==> forall j :: 0 <= j < |r.fields| ==> Slot(s.fields, r.fields[j].num) != i
  {
    if i >= 0 {
      forall j | 0 <= j < |r.fields|
        ensures Slot(s.fields, r.fields[j].num) != i
      {
        assert r.fields[j] in r.fields;
      }
    }
  }

  // ----- no repeated sub-message

  /** No record of `b` is a second occurrence of a singular sub-message, or an occurrence of one in
      `seen`, at any depth. */
  ghost predicate Unrepeated(r: Schema, seen: set<int>, b: Bytes)
    decreases |b|, 0
  {
    b == [] ||
    (&& Cut(r, b).Ok?
     && UnrepeatedRecord(r, seen, Cut(r, b).value)
     && Unrepeated(r, seen + {Cut(r, b).value.slot}, b[Cut(r, b).value.len..]))
  }

  ghost predicate UnrepeatedRecord(r: Schema, seen: set<int>, c: Record)
    requires c.slot < |r.fields|
    decreases ChunkLen(c.payload), 1
  {
    c.slot >= 0 && c.payload.Chunk? && MessageKind(r.fields[c.slot].kind) ==>
      && (r.fields[c.slot].kind.One? ==> c.slot !in seen)
      && Unrepeated(r.fields[c.slot].kind.elem.schema, {}, c.payload.bytes)
  }

  // ----- nothing refused is dropped

  /** Some record of `b` belongs to slot `i`. */
  ghost predicate Occurs(r: Schema, i: int, b: Bytes)
    decreases |b|
  {
    b != [] && Cut(r, b).Ok? && (Cut(r, b).value.slot == i || Occurs(r, i, b[Cut(r, b).value.len..]))
  }

  /** The full reader accepts every occurrence of a singular sub-message that a later one replaces,
      at every depth of what is kept. */
  ghost predicate Sound(o: Options, s: Schema, r: Schema, b: Bytes)
    decreases |b|, 0
  {
    b == [] ||
    (&& Cut(r, b).Ok?
     && SoundRecord(o, s, r, Cut(r, b).value, b[Cut(r, b).value.len..])
     && Sound(o, s, r, b[Cut(r, b).value.len..]))
  }

  /** The same of one record, with `rest` behind it. */
  ghost predicate SoundRecord(o: Options, s: Schema, r: Schema, c: Record, rest: Bytes)
    requires c.slot < |r.fields|
    decreases ChunkLen(c.payload), 1
  {
    c.payload.Chunk? && Nested(s, r, c.slot) ==>
      var t, u := Counterpart(s, r, c.slot).elem.schema, r.fields[c.slot].kind.elem.schema;
      if r.fields[c.slot].kind.One? && Occurs(r, c.slot, rest) then Decode(t, o, Empty(t), c.payload.bytes).Ok?
      else Sound(o, t, u, c.payload.bytes)
  }

  /** Slot `j` is a described sub-message, and so is its counterpart. */
  ghost predicate Nested(s: Schema, r: Schema, j: int)
    requires j < |r.fields|
  {
    && j >= 0 && MessageKind(r.fields[j].kind)
    && var i := Slot(s.fields, r.fields[j].num); i >= 0 && MessageKind(s.fields[i].kind)
  }

  /** The kind that slot `j` has in the larger schema. */
  function Counterpart(s: Schema, r: Schema, j: nat): Kind
    requires j < |r.fields| && Slot(s.fields, r.fields[j].num) >= 0
  {
    s.fields[Slot(s.fields, r.fields[j].num)].kind
  }

  predicate MessageKind(k: Kind) {
    (k.One? || k.Many?) && k.elem.Sub?
  }

  /** Without merging, whatever the full reader accepts is sound. */
  lemma {:induction false} AcceptedSound(o: Options, s: Schema, r: Schema, x: Message, y: Message, b: Bytes)
    requires Within(r, s) && !o.merge && Fits(r, x) && Fits(s, y)
    requires Decode(r, o, x, b).Ok? && Decode(s, o, y, b).Ok?
    ensures Sound(o, s, r, b)
    decreases |b|, 0
  {
    hide Cut, Absorb, Within, Covers, SoundRecord;
    if b != [] {
      WithinCovers(r, s);
      DecodeAccepts(r, o, x, b);
      DecodeAccepts(s, o, y, b);
      CutTransfer(s, r, b);
      CutFacts(r, b);
      CutFacts(s, b);
      var c, d := Cut(r, b).value, Cut(s, b).value;
      if c.slot >= 0 && c.payload.Chunk? && Nested(s, r, c.slot) { AcceptedRecord(o, s, r, x, y, c, d, b[c.len..]); }
      UnnestedSound(o, s, r, c, b[c.len..]);
      AcceptedSound(o, s, r, Absorb(r, o, x, c).value, Absorb(s, o, y, d).value, b[c.len..]);
    }
  }

  lemma UnnestedSound(o: Options, s: Schema, r: Schema, c: Record, rest: Bytes)
    requires c.slot < |r.fields|
    ensures !(c.payload.Chunk? && Nested(s, r, c.slot)) ==> SoundRecord(o, s, r, c, rest)
  {
  }

  lemma {:induction false} AcceptedRecord(
    o: Options, s: Schema, r: Schema, x: Message, y: Message, c: Record, d: Record, rest: Bytes)
    requires Within(r, s) && !o.merge && Fits(r, x) && Fits(s, y)
    requires 0 <= c.slot < |r.fields| && d.slot == Slot(s.fields, r.fields[c.slot].num) && d.slot >= 0
    requires d.payload == c.payload && c.payload.Chunk? && Nested(s, r, c.slot)
    requires Absorb(r, o, x, c).Ok? && Absorb(s, o, y, d).Ok?
    ensures SoundRecord(o, s, r, c, rest)
    decreases ChunkLen(c.payload), 1
  {
    hide Within, Decode, Sound, Occurs;
    SlotBack(r, s, c.slot);
    var t, u := s.fields[d.slot].kind.elem.schema, r.fields[c.slot].kind.elem.schema;
    FreshPayload(o, r.fields[c.slot].kind, x.values[c.slot], c.payload.bytes);
    FreshPayload(o, s.fields[d.slot].kind, y.values[d.slot], c.payload.bytes);
    assert Within(u, t) by { ElemsWithin(r.fields[c.slot].kind, s.fields[d.slot].kind); }
    AcceptedSound(o, t, u, Empty(u), Empty(t), c.payload.bytes);
  }

  /** Without merging, every occurrence of a sub-message is read into an empty one. */
  lemma FreshPayload(o: Options, k: Kind, v: Value, p: Bytes)
    requires !o.merge && MessageKind(k)
    ensures Update(o, k, v, Chunk(p)).Ok? <==> Decode(k.elem.schema, o, Empty(k.elem.schema), p).Ok?
    ensures k.One? && Update(o, k, v, Chunk(p)).Ok? ==>
              Update(o, k, v, Chunk(p)) == Ok(List([Node(Decode(k.elem.schema, o, Empty(k.elem.schema), p).value)]))
  {
  }

  lemma ElemsWithin(k: Kind, l: Kind)
    requires KindWithin(k, l) && MessageKind(k)
    ensures MessageKind(l) && Within(k.elem.schema, l.elem.schema) && (k.One? <==> l.One?)
  {
    hide Within;
  }

  /** In a sound record that the smaller reader accepts, the payload is sound. */
  lemma SoundPayload(o: Options, s: Schema, r: Schema, x: Message, c: Record, rest: Bytes)
    requires Within(r, s) && !o.merge && Fits(r, x) && 0 <= c.slot < |r.fields| && c.payload.Chunk?
    requires SoundRecord(o, s, r, c, rest) && Absorb(r, o, x, c).Ok? && MessageKind(r.fields[c.slot].kind)
    ensures Nested(s, r, c.slot)
    ensures Sound(o, Counterpart(s, r, c.slot).elem.schema, r.fields[c.slot].kind.elem.schema, c.payload.bytes)
  {
    hide Within, Decode, Sound, Occurs;
    SlotBack(r, s, c.slot);
    var i := Slot(s.fields, r.fields[c.slot].num);
    var k, l := r.fields[c.slot].kind, s.fields[i].kind;
    ElemsWithin(k, l);
    var t, u := l.elem.schema, k.elem.schema;
    FreshPayload(o, k, x.values[c.slot], c.payload.bytes);
    if Decode(t, o, Empty(t), c.payload.bytes).Ok? { AcceptedSound(o, t, u, Empty(u), Empty(t), c.payload.bytes); }
  }

  /** The value stands for something. */
  ghost predicate Completable(o: Options, l: Kind, k: Kind, v: Value) {
    exists w :: CompletesValue(o, l, k, v, w)
  }

  /** Every singular sub-message that still occurs in `b` stands for something by now. */
  ghost predicate Ready(o: Options, s: Schema, r: Schema, x: Message, b: Bytes)
    requires Fits(r, x)
  {
    forall j :: 0 <= j < |r.fields| && r.fields[j].kind.One? && Nested(s, r, j) && Occurs(r, j, b) ==>
      Completable(o, Counterpart(s, r, j), r.fields[j].kind, x.values[j])
  }

  lemma ReadyEmpty(o: Options, s: Schema, r: Schema, b: Bytes)
    ensures Ready(o, s, r, Empty(r), b)
  {
    hide Occurs;
    forall j | 0 <= j < |r.fields| && r.fields[j].kind.One? && Nested(s, r, j) && Occurs(r, j, b)
      ensures Completable(o, Counterpart(s, r, j), r.fields[j].kind, Empty(r).values[j])
    {
      assert CompletesValue(o, Counterpart(s, r, j), r.fields[j].kind, Empty(r).values[j], List([]));
    }
  }

  lemma ReadyStep(o: Options, s: Schema, r: Schema, x: Message, b: Bytes)
    requires Within(r, s) && LawfulExt(o) && !o.discardUnknown && !o.merge && Fits(r, x)
    requires b != [] && Cut(r, b).Ok? && Absorb(r, o, x, Cut(r, b).value).Ok?
    requires Ready(o, s, r, x, b) && SoundRecord(o, s, r, Cut(r, b).value, b[Cut(r, b).value.len..])
    ensures Ready(o, s, r, Absorb(r, o, x, Cut(r, b).value).value, b[Cut(r, b).value.len..])
  {
    hide Cut, Update, Completable, Within, LawfulExt, SoundRecord;
    CutFacts(r, b);
    var c := Cut(r, b).value;
    var rest, x' := b[c.len..], Absorb(r, o, x, c).value;
    forall j | 0 <= j < |r.fields| && r.fields[j].kind.One? && Nested(s, r, j) && Occurs(r, j, rest)
      ensures Completable(o, Counterpart(s, r, j), r.fields[j].kind, x'.values[j])
    {
      if j == c.slot {
        ChunkInSlot(r, b);
        NextReady(o, s, r, x, c, rest);
      } else {
        assert Occurs(r, j, b);
      }
    }
  }

  lemma NextReady(o: Options, s: Schema, r: Schema, x: Message, c: Record, rest: Bytes)
    requires Within(r, s) && LawfulExt(o) && !o.discardUnknown && !o.merge && Fits(r, x)
    requires 0 <= c.slot < |r.fields| && Absorb(r, o, x, c).Ok? && SoundRecord(o, s, r, c, rest)
    requires r.fields[c.slot].kind.One? && c.payload.Chunk? && Nested(s, r, c.slot) && Occurs(r, c.slot, rest)
    ensures Completable(o, Counterpart(s, r, c.slot), r.fields[c.slot].kind,
                        Absorb(r, o, x, c).value.values[c.slot])
  {
    hide Within, LawfulExt, Decode, Sound, Occurs, Completes, WellFormed;
    SlotBack(r, s, c.slot);
    var k, l := r.fields[c.slot].kind, Counterpart(s, r, c.slot);
    ElemsWithin(k, l);
    var t, u, p := l.elem.schema, k.elem.schema, c.payload.bytes;
    FreshPayload(o, k, x.values[c.slot], p);
    CompletesEmpty(o, t, u);
    EmptyWellFormed(o, u);
    var m, n := Decode(u, o, Empty(u), p).value, Decode(t, o, Empty(t), p).value;
    Forward(o, t, u, Empty(u), Empty(t), p, m, n);
    assert CompletesValue(o, l, k, List([Node(m)]), List([Node(n)]));
  }

  /** Nothing that the smaller reader drops matters: it merges, or all it drops is accepted. */
  ghost predicate Kept(o: Options, s: Schema, r: Schema, x: Message, b: Bytes)
    requires Fits(r, x)
  {
    o.merge || (Sound(o, s, r, b) && Ready(o, s, r, x, b))
  }

  // ----- backwards

  lemma {:induction false} EltBackward(
    o: Options, g: Elem, e: Elem, prev: Option<Elt>, p: Bytes, x: Elt, y: Elt)
    returns (prev': Option<Elt>)
    requires ElemWithin(e, g) && LawfulExt(o) && !o.discardUnknown
    requires prev.Some? ==> GoodElt(o, e, prev.value) && o.merge
    requires DecodeElt(o, e, prev, p) == Ok(x) && CompletesElt(o, g, e, x, y)
    requires e.Sub? && !o.merge ==> Sound(o, g.schema, e.schema, p)
    ensures prev.Some? <==> prev'.Some?
    ensures prev.Some? ==> CompletesElt(o, g, e, prev.value, prev'.value)
    ensures DecodeElt(o, g, prev', p) == Ok(y)
    decreases |p|, 1
  {
    prev' := prev;
    if e.Sub? {
      hide LawfulExt, Within, Decode, WellFormed, Completes, Sound, Ready;
      var r, s := e.schema, g.schema;
      assert WellFormed(o, r, Start(r, prev)) by { StartWellFormed(o, r, prev); }
      DecodeSub(o, r, prev, p);
      if prev.None? { ReadyEmpty(o, s, r, p); }
      var y0 := Backward(o, s, r, Start(r, prev), p, x.msg, y.msg);
      CompletesFits(o, s, r, Start(r, prev), y0);
      if prev.Some? {
        StartWellFormed(o, r, prev);
        prev' := Some(Node(y0));
      } else {
        OnlyEmpty(o, s, r, y0);
      }
      DecodeSub(o, s, prev', p);
    }
  }

  lemma StartWellFormed(o: Options, r: Schema, prev: Option<Elt>)
    requires prev.Some? ==> GoodElt(o, Sub(r), prev.value)
    ensures WellFormed(o, r, Start(r, prev))
    ensures prev.Some? ==> prev.value == Node(Start(r, prev))
  {
    EmptyWellFormed(o, r);
  }

  lemma {:induction false} ValueBackward(o: Options, l: Kind, k: Kind, v: Value, p: Payload, v': Value, w': Value)
    returns (w: Value)
    requires KindWithin(k, l) && LawfulExt(o) && !o.discardUnknown && GoodValue(o, k, v)
    requires Update(o, k, v, p) == Ok(v') && CompletesValue(o, l, k, v', w')
    requires !o.merge && k.One? && k.elem.Sub? ==> Completable(o, l, k, v)
    requires !k.Scalar? ==> p.Chunk?
    requires !o.merge && MessageKind(k) && MessageKind(l) ==> Sound(o, l.elem.schema, k.elem.schema, p.bytes)
    ensures CompletesValue(o, l, k, v, w) && Update(o, l, w, p) == Ok(w')
    decreases ChunkLen(p), 2
  {
    hide DecodeElt, LawfulExt, GoodElt, CompletesElt, ElemWithin, Sound;
    w := v;
    if MessageKind(k) { ElemsWithin(k, l); }
    if k.One? {
      var prev := if o.merge && v.elts != [] then Some(v.elts[0]) else None;
      var prev' := EltBackward(o, l.elem, k.elem, prev, p.bytes, v'.elts[0], w'.elts[0]);
      if prev.Some? {
        w := List([prev'.value]);
      } else if !o.merge && k.elem.Sub? {
        w :| CompletesValue(o, l, k, v, w);
      } else {
        LeavesComplete(o, l, k, v);
      }
      assert w' == List([w'.elts[0]]);
    } else if k.Many? {
      var n := |v.elts|;
      var none := EltBackward(o, l.elem, k.elem, None, p.bytes, v'.elts[n], w'.elts[n]);
      w := List(w'.elts[..n]);
      assert w'.elts == w.elts + [w'.elts[n]];
    }
  }

  /** A field without sub-messages, or an empty one, stands for itself. */
  lemma LeavesComplete(o: Options, l: Kind, k: Kind, v: Value)
    requires KindWithin(k, l) && k.One? && (v == List([]) || !k.elem.Sub?)
    ensures CompletesValue(o, l, k, v, v)
  {
  }

  lemma {:induction false} StepBackward(o: Options, s: Schema, r: Schema, x: Message, c: Record, y': Message)
    returns (y: Message)
    requires Within(r, s) && LawfulExt(o) && !o.discardUnknown && WellFormed(o, r, x)
    requires 0 <= c.slot < |r.fields| && (!r.fields[c.slot].kind.Scalar? ==> c.payload.Chunk?)
    requires Absorb(r, o, x, c).Ok? && Completes(o, s, r, Absorb(r, o, x, c).value, y')
    requires !o.merge && MessageKind(r.fields[c.slot].kind) ==>
               && Nested(s, r, c.slot)
               && Sound(o, Counterpart(s, r, c.slot).elem.schema, r.fields[c.slot].kind.elem.schema, c.payload.bytes)
               && (r.fields[c.slot].kind.One? ==>
                     Completable(o, Counterpart(s, r, c.slot), r.fields[c.slot].kind, x.values[c.slot]))
    ensures Fits(s, y) && Completes(o, s, r, x, y)
    ensures var i := Slot(s.fields, r.fields[c.slot].num);
            i >= 0 && Absorb(s, o, y, Record(i, c.payload, c.len)) == Ok(y')
    decreases ChunkLen(c.payload), 3
  {
    hide Within, LawfulExt, Update, CompletesValue, GoodValue, Carries, UnknownOnly, Sound;
    SlotBack(r, s, c.slot);
    var i := Slot(s.fields, r.fields[c.slot].num);
    var k, l := r.fields[c.slot].kind, s.fields[i].kind;
    var v := x.values[c.slot];
    var v' := Update(o, k, v, c.payload).value;
    var w := ValueBackward(o, l, k, v, c.payload, v', y'.values[i]);
    var x' := Absorb(r, o, x, c).value;
    ReplaceKnown(o, s, r, x', y', c.slot, v, w);
    y := With(y', i, w);
    assert With(x', c.slot, v).values == x.values;
    assert y.values[i := y'.values[i]] == y'.values;
  }

  lemma PassBackward(o: Options, s: Schema, r: Schema, x: Message, b: Bytes, y': Message) returns (y: Message)
    requires Within(r, s) && Covers(r, s) && !o.discardUnknown && WellFormed(o, r, x)
    requires b != [] && Cut(r, b).Ok? && Cut(r, b).value.slot == -1
    requires Absorb(r, o, x, Cut(r, b).value).Ok?
    requires Completes(o, s, r, Absorb(r, o, x, Cut(r, b).value).value, y')
    ensures Fits(s, y) && Completes(o, s, r, x, y)
    ensures Cut(s, b).Ok? && Absorb(s, o, y, Cut(s, b).value) == Ok(y')
  {
    hide Cut, Update, CompletesValue, Carries, Covers, Within, UnknownOnly, GoodValue;
    CutWhole(r, b);
    var n := Cut(r, b).value.len;
    var p := b[..n];
    CutAlone(r, b);
    y := CarryBackward(o, s, r, x.unknown, p, y');
    CarriesFits(o, s, r, x.unknown, y);
    assert p + b[n..] == b;
    CutFront(s, p, b[n..]);
    forall j | 0 <= j < |r.fields|
      ensures var i := Slot(s.fields, r.fields[j].num);
              i >= 0 && CompletesValue(o, s.fields[i].kind, r.fields[j].kind, x.values[j], y.values[i])
    {
      SlotBack(r, s, j);
    }
  }

  /** What the smaller reader's result stands for, the larger reader reads, from what the smaller
      reader's starting point stands for. */
  lemma {:induction false} Backward(
    o: Options, s: Schema, r: Schema, x: Message, b: Bytes, x': Message, y': Message)
    returns (y: Message)
    requires Within(r, s) && LawfulExt(o) && !o.discardUnknown && WellFormed(o, r, x)
    requires Fits(r, x) && Decode(r, o, x, b) == Ok(x') && Completes(o, s, r, x', y') && Kept(o, s, r, x, b)
    ensures Fits(s, y) && Completes(o, s, r, x, y) && Decode(s, o, y, b) == Ok(y')
    decreases |b|, 0
  {
    hide Cut, Absorb, Within, Covers, LawfulExt, WellFormed, Completes, Ready, SoundRecord;
    CompletesFits(o, s, r, x', y');
    if b == [] {
      y := y';
    } else {
      WithinCovers(r, s);
      DecodeAccepts(r, o, x, b);
      CutTransfer(s, r, b);
      CutFacts(r, b);
      var c := Cut(r, b).value;
      var x1 := Absorb(r, o, x, c).value;
      OneRecord(o, r, x, b);
      if !o.merge { ReadyStep(o, s, r, x, b); }
      var y1 := Backward(o, s, r, x1, b[c.len..], x', y');
      if c.slot >= 0 {
        ChunkInSlot(r, b);
        if !o.merge && MessageKind(r.fields[c.slot].kind) {
          SoundPayload(o, s, r, x, c, b[c.len..]);
          ReadyHere(o, s, r, x, b);
        }
        y := StepBackward(o, s, r, x, c, y1);
      } else {
        y := PassBackward(o, s, r, x, b, y1);
      }
      DecodeStep(s, o, y, b, Cut(s, b).value);
    }
  }

  lemma ReadyHere(o: Options, s: Schema, r: Schema, x: Message, b: Bytes)
    requires Fits(r, x) && b != [] && Cut(r, b).Ok? && Ready(o, s, r, x, b)
    requires var c := Cut(r, b).value; c.slot >= 0 && Nested(s, r, c.slot)
    ensures var k := r.fields[Cut(r, b).value.slot].kind;
            k.One? ==> Completable(o, Counterpart(s, r, Cut(r, b).value.slot), k, x.values[Cut(r, b).value.slot])
  {
    hide Cut, Completable;
    CutFacts(r, b);
    assert Occurs(r, Cut(r, b).value.slot, b);
  }

  // ----- an encoding repeats nothing

  lemma {:induction false} UnrepeatedFewer(r: Schema, fewer: set<int>, seen: set<int>, b: Bytes)
    requires Unrepeated(r, seen, b) && fewer <= seen
    ensures Unrepeated(r, fewer, b)
    decreases |b|
  {
    hide Cut;
    if b != [] {
      CutFacts(r, b);
      var c := Cut(r, b).value;
      UnrepeatedFewer(r, fewer + {c.slot}, seen + {c.slot}, b[c.len..]);
    }
  }

  /** A first record that may stand there, in front of a rest without repetitions. */
  lemma UnrepeatedFront(r: Schema, seen: set<int>, p: Bytes, rest: Bytes, c: Record)
    requires p + rest != [] && Cut(r, p + rest) == Ok(c) && c.len == |p| && c.slot < |r.fields|
    requires UnrepeatedRecord(r, seen, c) && Unrepeated(r, seen + {c.slot}, rest)
    ensures Unrepeated(r, seen, p + rest)
  {
    hide Cut, UnrepeatedRecord;
    assert (p + rest)[|p|..] == rest;
  }

  lemma {:induction false} UnrepeatedUnknown(r: Schema, seen: set<int>, u: Bytes)
    requires UnknownOnly(r, u)
    ensures Unrepeated(r, seen, u)
    decreases |u|
  {
    hide Cut;
    if u != [] {
      CutFacts(r, u);
      UnrepeatedUnknown(r, seen + {-1}, u[Cut(r, u).value.len..]);
    }
  }

  lemma {:induction false} UnrepeatedElts(o: Options, r: Schema, i: nat, xs: seq<Elt>, seen: set<int>, rest: Bytes)
    requires ValidSchema(r) && i < |r.fields| && (r.fields[i].kind.One? || r.fields[i].kind.Many?)
    requires r.fields[i].kind.One? ==> |xs| <= 1 && (xs != [] ==> i !in seen)
    requires forall x | x in xs :: GoodElt(o, r.fields[i].kind.elem, x)
    requires |EncodeElts(r.fields[i].num, r.fields[i].kind.elem, xs)| < TWO_63
    requires !o.discardUnknown && Unrepeated(r, seen + {i}, rest)
    ensures Unrepeated(r, seen, EncodeElts(r.fields[i].num, r.fields[i].kind.elem, xs) + rest)
    decreases xs
  {
    hide Cut, Unrepeated, ValidSchema, EncodeChunk, EncodeElt, GoodElt;
    var num, e := r.fields[i].num, r.fields[i].kind.elem;
    if xs == [] {
      assert EncodeElts(num, e, xs) + rest == rest;
      UnrepeatedFewer(r, seen, seen + {i}, rest);
    } else {
      var p := EncodeElt(e, xs[0]);
      var b, more := EncodeChunk(num, p), EncodeElts(num, e, xs[1..]);
      assert |p| < |b| by { ChunkLonger(num, p); }
      Associate(b, more, rest);
      ChunkRecord(r, i, p, more + rest);
      assert xs[0] in xs;
      if e.Sub? {
        assert ValidElem(e) by { ElemValid(r, i); }
        UnrepeatedElt(o, e, xs[0]);
      }
      assert seen + {i} + {i} == seen + {i};
      UnrepeatedElts(o, r, i, xs[1..], seen + {i}, rest);
      UnrepeatedFront(r, seen, b, more + rest, Record(i, Chunk(p), |b|));
    }
  }

  lemma {:induction false} UnrepeatedElt(o: Options, e: Elem, x: Elt)
    requires e.Sub? && ValidElem(e) && GoodElt(o, e, x) && !o.discardUnknown && |EncodeElt(e, x)| < TWO_63
    ensures Unrepeated(e.schema, {}, EncodeElt(e, x))
    decreases x
  {
    hide Unrepeated, ValidSchema, WellFormed, Encode;
    UnrepeatedEncoding(o, e.schema, x.msg);
  }

  /** The slots in front of `k`, with -1 for the unknown fields. */
  function Before(k: nat): (seen: set<int>)
    ensures forall i :: i in seen <==> -1 <= i < k
  {
    if k == 0 then {-1} else Before(k - 1) + {k - 1}
  }

  lemma {:induction false} UnrepeatedField(o: Options, r: Schema, k: nat, v: Value, rest: Bytes)
    requires ValidSchema(r) && k < |r.fields| && GoodValue(o, r.fields[k].kind, v) && !o.discardUnknown
    requires |EncodeField(r.fields[k], v)| < TWO_63 && Unrepeated(r, Before(k + 1), rest)
    ensures Unrepeated(r, Before(k), EncodeField(r.fields[k], v) + rest)
    decreases v
  {
    hide Cut, Unrepeated, ValidSchema, EncodeChunk, EncodeNumber, EncodeElts, GoodElt, ToWire;
    var f := r.fields[k];
    var b := EncodeField(f, v);
    assert Before(k) + {k} == Before(k + 1);
    if v.List? {
      UnrepeatedElts(o, r, k, v.elts, Before(k), rest);
    } else if b == [] {
      assert b + rest == rest;
      UnrepeatedFewer(r, Before(k), Before(k + 1), rest);
    } else if v.Num? {
      NumberRecord(r, k, v.n, rest);
      UnrepeatedFront(r, Before(k), b, rest, Record(k, Varnum(ToWire(v.n)), |b|));
    } else {
      ChunkLonger(f.num, v.text);
      ChunkRecord(r, k, v.text, rest);
      UnrepeatedFront(r, Before(k), b, rest, Record(k, Chunk(v.text), |b|));
    }
  }

  lemma {:induction false} UnrepeatedTail(o: Options, r: Schema, m: Message, k: nat)
    requires ValidSchema(r) && WellFormed(o, r, m) && !o.discardUnknown && |Encode(r, m)| < TWO_63
    requires k <= |r.fields|
    ensures Unrepeated(r, Before(k), Tail(r, m, k))
    decreases m, |r.fields| - k
  {
    hide Unrepeated, ValidSchema, Encode, EncodeField, Tail, GoodValue, UnknownOnly, Before;
    if k == |r.fields| {
      TailEnds(r, m);
      UnrepeatedUnknown(r, Before(k), m.unknown);
    } else {
      TailStep(r, m, k);
      UnrepeatedTail(o, r, m, k + 1);
      UnrepeatedField(o, r, k, m.values[k], Tail(r, m, k + 1));
    }
  }

  /** The generated writer never writes a singular sub-message twice. */
  lemma {:induction false} UnrepeatedEncoding(o: Options, r: Schema, m: Message)
    requires ValidSchema(r) && WellFormed(o, r, m) && !o.discardUnknown && |Encode(r, m)| < TWO_63
    ensures Unrepeated(r, {}, Encode(r, m))
    decreases m, |r.fields| + 1
  {
    hide Unrepeated, ValidSchema, Encode, Tail;
    UnrepeatedTail(o, r, m, 0);
    TailEnds(r, m);
    UnrepeatedFewer(r, {}, Before(0), Encode(r, m));
  }

  // ----- the result

  lemma {:induction false} SeenOnce(r: Schema, seen: set<int>, i: nat, b: Bytes)
    requires Unrepeated(r, seen, b) && i in seen
    requires i < |r.fields| && r.fields[i].kind.One? && MessageKind(r.fields[i].kind)
    ensures !Occurs(r, i, b)
    decreases |b|
  {
    hide Cut;
    if b != [] {
      CutFacts(r, b);
      var c := Cut(r, b).value;
      if c.slot == i {
        ChunkInSlot(r, b);
        assert false;
      }
      SeenOnce(r, seen + {c.slot}, i, b[c.len..]);
    }
  }

  /** Where no singular sub-message is repeated, nothing is dropped. */
  lemma {:induction false} UnrepeatedSound(o: Options, s: Schema, r: Schema, seen: set<int>, b: Bytes)
    requires Within(r, s) && Unrepeated(r, seen, b)
    ensures Sound(o, s, r, b)
    decreases |b|
  {
    hide Cut, Within, Occurs;
    if b != [] {
      CutFacts(r, b);
      var c := Cut(r, b).value;
      var rest := b[c.len..];
      if c.payload.Chunk? && Nested(s, r, c.slot) {
        var k, l := r.fields[c.slot].kind, Counterpart(s, r, c.slot);
        SlotBack(r, s, c.slot);
        ElemsWithin(k, l);
        UnrepeatedSound(o, l.elem.schema, k.elem.schema, {}, c.payload.bytes);
        if k.One? { SeenOnce(r, seen + {c.slot}, c.slot, rest); }
      }
      UnrepeatedSound(o, s, r, seen + {c.slot}, rest);
    }
  }

  /** Schema evolution at every depth. Decode with a schema that lacks fields at any level, encode
      again, decode with the full schema: whatever the full reader accepts of the original, it
      accepts of the copy, with the same message. It accepts the original if and only if it accepts
      the copy and sub-messages merge or all the occurrences that were dropped on the way are
      acceptable to it as well. */
  lemma DeepEvolution(o: Options, s: Schema, r: Schema, b: Bytes, m: Message)
    requires Within(r, s) && LawfulExt(o) && !o.discardUnknown
    requires Decode(r, o, Empty(r), b) == Ok(m) && |Encode(r, m)| < TWO_63
    ensures var direct, copy := Decode(s, o, Empty(s), b), Decode(s, o, Empty(s), Encode(r, m));
            && (direct.Ok? ==> copy == direct)
            && (direct.Ok? <==> copy.Ok? && (o.merge || Sound(o, s, r, b)))
  {
    hide Decode, Encode, Within, LawfulExt, WellFormed, Completes, Unrepeated, Sound;
    assert ValidSchema(r) by { WithinValid(r, s); }
    EmptyWellFormed(o, r);
    DecodeWellFormed(r, o, Empty(r), b);
    RoundTrip(o, r, m);
    CompletesEmpty(o, s, r);
    var direct, copy := Decode(s, o, Empty(s), b), Decode(s, o, Empty(s), Encode(r, m));
    if direct.Ok? {
      Forward(o, s, r, Empty(r), Empty(s), b, m, direct.value);
      if !o.merge { AcceptedSound(o, s, r, Empty(r), Empty(s), b); }
      UnrepeatedEncoding(o, r, m);
      UnrepeatedSound(o, s, r, {}, Encode(r, m));
      ReadBack(o, s, r, Encode(r, m), m, direct.value);
    } else if copy.Ok? && (o.merge || Sound(o, s, r, b)) {
      Forward(o, s, r, Empty(r), Empty(s), Encode(r, m), m, copy.value);
      ReadBack(o, s, r, b, m, copy.value);
    }
  }

  lemma WithinValid(r: Schema, s: Schema)
    requires Within(r, s)
    ensures ValidSchema(r)
  {
  }

  lemma ReadBack(o: Options, s: Schema, r: Schema, b: Bytes, m: Message, y: Message)
    requires Within(r, s) && LawfulExt(o) && !o.discardUnknown && Completes(o, s, r, m, y)
    requires Decode(r, o, Empty(r), b) == Ok(m) && (o.merge || Sound(o, s, r, b))
    ensures Decode(s, o, Empty(s), b) == Ok(y)
  {
    hide Decode, Within, LawfulExt, WellFormed, Completes, Sound, Ready;
    EmptyWellFormed(o, r);
    ReadyEmpty(o, s, r, b);
    var start := Backward(o, s, r, Empty(r), b, m, y);
    OnlyEmpty(o, s, r, start);
  }

  // ----- why the converse needs its condition

  /** The dlc parameters before `oracle_participant_threshold` was added, and the genesis with them. */
  const OLD_PARAMS: Schema := Schema([
    Field(1, Scalar(U32)), Field(2, Scalar(U32)), Field(3, Scalar(I64)),
    Field(4, One(Ext(DURATION))), Field(5, Many(Raw)), Field(6, Scalar(U32))])

  const OLD_GENESIS: Schema := Schema([
    Field(1, One(Sub(OLD_PARAMS))), Field(2, Many(Sub(EVENT))), Field(3, Many(Sub(ATTESTATION)))])

  /** A string where the threshold should be. */
  const ODD_THRESHOLD: Bytes := [0x3a, 0x00]

  lemma OldParamsValid()
    ensures Consecutive(OLD_PARAMS) && ValidSchema(OLD_PARAMS)
  {
    ConsecutiveValid(OLD_PARAMS);
  }

  lemma OldGenesisValid()
    ensures Consecutive(OLD_GENESIS) && ValidSchema(OLD_GENESIS)
  {
    hide ValidSchema;
    OldParamsValid();
    EventValid();
    AttestationValid();
    ConsecutiveValid(OLD_GENESIS);
  }

  lemma {:induction false} WithinItself(s: Schema)
    requires ValidSchema(s)
    ensures Within(s, s)
    decreases s
  {
    hide Slot;
    forall j | 0 <= j < |s.fields|
      ensures Slot(s.fields, s.fields[j].num) == j && KindWithin(s.fields[j].kind, s.fields[j].kind)
    {
      SlotOf(s, j);
      var k := s.fields[j].kind;
      if (k.One? || k.Many?) && k.elem.Sub? {
        ElemValid(s, j);
        WithinItself(k.elem.schema);
      }
    }
  }

  /** With consecutive numbers, lacking fields at the end is lacking fields. */
  lemma WithinConsecutive(r: Schema, s: Schema)
    requires ValidSchema(r) && ValidSchema(s) && Consecutive(r) && Consecutive(s) && |r.fields| <= |s.fields|
    requires forall j :: 0 <= j < |r.fields| ==> KindWithin(r.fields[j].kind, s.fields[j].kind)
    ensures Within(r, s)
  {
    hide ValidSchema, KindWithin;
    forall j | 0 <= j < |r.fields|
      ensures Slot(s.fields, r.fields[j].num) == j
    {
      ConsecutiveSlot(s, r.fields[j].num);
    }
  }

  lemma OldParamsWithin()
    ensures Within(OLD_PARAMS, PARAMS)
  {
    hide ValidSchema, Consecutive, Within;
    OldParamsValid();
    ParamsValid();
    WithinConsecutive(OLD_PARAMS, PARAMS);
  }

  lemma OldWithin()
    ensures Within(OLD_GENESIS, GENESIS)
  {
    hide ValidSchema, Consecutive, Within;
    OldGenesisValid();
    GenesisValid();
    OldParamsWithin();
    WithinItself(EVENT) by { EventValid(); }
    WithinItself(ATTESTATION) by { AttestationValid(); }
    WithinConsecutive(OLD_GENESIS, GENESIS);
  }

  lemma OddThreshold(o: Options)
    requires !o.discardUnknown
    ensures Decode(OLD_PARAMS, o, Empty(OLD_PARAMS), ODD_THRESHOLD)
            == Ok(Empty(OLD_PARAMS).(unknown := ODD_THRESHOLD))
    ensures Decode(PARAMS, o, Empty(PARAMS), ODD_THRESHOLD) == Err(Final(WrongWireType(7, 2)))
  {
    var p := ODD_THRESHOLD;
    assert p[1..] == [0x00] && p[..2] == p && p[2..] == [] && [] + p == p;
    assert ReadTag(p) == Ok(Header(7, 2, 0x3a, 1)) && ReadItem(p) == Ok(Item(2, 2));
    SkipFrom(p, 0, 0, Item(2, 2), 0);
    hide Slot, ReadTag, Skip, ValidSchema;
    OldParamsValid();
    ParamsValid();
    ConsecutiveSlot(OLD_PARAMS, 7);
    ConsecutiveSlot(PARAMS, 7);
    assert Cut(OLD_PARAMS, p) == Ok(Record(-1, Whole(p), 2));
    assert Cut(PARAMS, p) == Err(Final(WrongWireType(7, 2)));
    hide Cut;
    DecodeStep(OLD_PARAMS, o, Empty(OLD_PARAMS), p, Record(-1, Whole(p), 2));
    DecodeCutFails(PARAMS, o, Empty(PARAMS), p);
  }

  /** Without merging, an occurrence of a singular field replaces what was there. */
  lemma Replaced(s: Schema, o: Options, x: Message, i: nat, p: Bytes, e: Elt, rest: Bytes)
    requires ValidSchema(s) && Fits(s, x) && i < |s.fields| && s.fields[i].kind.One? && !o.merge && |p| < TWO_63
    requires DecodeElt(o, s.fields[i].kind.elem, None, p) == Ok(e)
    ensures var b := EncodeChunk(s.fields[i].num, p);
            Decode(s, o, x, b + rest) == Shifted(Decode(s, o, With(x, i, List([e])), rest), |b|)
  {
    hide Cut, Decode, DecodeElt, ValidSchema;
    var b := EncodeChunk(s.fields[i].num, p);
    ChunkRecord(s, i, p, rest);
    DecodeFront(s, o, x, b, rest, Record(i, Chunk(p), |b|), With(x, i, List([e])));
  }

  /** A genesis with nothing but empty parameters is written as one empty record. */
  lemma ParamsOnly(m: Message)
    requires m == With(Empty(OLD_GENESIS), 0, List([Node(Empty(OLD_PARAMS))]))
    ensures Encode(OLD_GENESIS, m) == EncodeChunk(1, [])
  {
    hide EncodeChunk;
    DefaultsEncodeToNothing(OLD_GENESIS, m, 1);
    assert EncodeField(OLD_GENESIS.fields[0], m.values[0]) == EncodeChunk(1, []) by {
      hide EncodeFrom;
      DefaultsEncodeToNothing(OLD_PARAMS, Empty(OLD_PARAMS), 0);
      var x := Node(Empty(OLD_PARAMS));
      assert EncodeElt(Sub(OLD_PARAMS), x) == [] && [x][1..] == [];
      assert EncodeElts(1, Sub(OLD_PARAMS), [x]) == EncodeChunk(1, []) + [];
    }
  }

  /** Without merging, a genesis whose first parameters carry an ill-typed threshold and whose second
      are empty: the full reader refuses it, the older one drops the first parameters, and what it
      writes the full reader accepts. */
  lemma DroppedOccurrence(o: Options)
    requires !o.merge && !o.discardUnknown
    ensures var b := EncodeChunk(1, ODD_THRESHOLD) + EncodeChunk(1, []);
            var m := With(Empty(OLD_GENESIS), 0, List([Node(Empty(OLD_PARAMS))]));
            && Within(OLD_GENESIS, GENESIS)
            && Decode(OLD_GENESIS, o, Empty(OLD_GENESIS), b) == Ok(m)
            && Decode(GENESIS, o, Empty(GENESIS), Encode(OLD_GENESIS, m)).Ok?
            && Decode(GENESIS, o, Empty(GENESIS), b).Err?
  {
    hide Decode, Cut, Encode, EncodeChunk, ValidSchema, Within, Empty, Consecutive;
    OldWithin();
    OldGenesisValid();
    GenesisValid();
    OddThreshold(o);
    var e := Empty(OLD_GENESIS);
    var p, q := EncodeChunk(1, ODD_THRESHOLD), EncodeChunk(1, []);
    var first, last := Node(Empty(OLD_PARAMS).(unknown := ODD_THRESHOLD)), Node(Empty(OLD_PARAMS));
    DecodeSub(o, OLD_PARAMS, None, ODD_THRESHOLD);
    DecodeSub(o, OLD_PARAMS, None, []);
    DecodeNothing(OLD_PARAMS, o, Empty(OLD_PARAMS));
    Replaced(OLD_GENESIS, o, e, 0, ODD_THRESHOLD, first, q);
    var x, m := With(e, 0, List([first])), With(e, 0, List([last]));
    assert q + [] == q && With(x, 0, List([last])) == m;
    Replaced(OLD_GENESIS, o, x, 0, [], last, []);
    DecodeNothing(OLD_GENESIS, o, m);
    ParamsOnly(m);
    RefusedOccurrence(o, q);
  }

  lemma RefusedOccurrence(o: Options, rest: Bytes)
    requires !o.discardUnknown
    ensures Decode(GENESIS, o, Empty(GENESIS), EncodeChunk(1, ODD_THRESHOLD) + rest).Err?
    ensures Decode(GENESIS, o, Empty(GENESIS), EncodeChunk(1, [])).Ok?
  {
    hide Decode, Cut, ValidSchema, Consecutive, DecodeElt;
    GenesisValid();
    OddThreshold(o);
    DecodeSub(o, PARAMS, None, ODD_THRESHOLD);
    DecodeSub(o, PARAMS, None, []);
    DecodeNothing(PARAMS, o, Empty(PARAMS));
    var b := EncodeChunk(1, ODD_THRESHOLD) + rest;
    ChunkRecord(GENESIS, 0, ODD_THRESHOLD, rest);
    DecodeStep(GENESIS, o, Empty(GENESIS), b, Cut(GENESIS, b).value);
    var e := Node(Empty(PARAMS));
    assert EncodeChunk(1, []) + [] == EncodeChunk(1, []) && [] + [e] == [e];
    EltAbsorbed(GENESIS, o, Empty(GENESIS), 0, [], e, [], []);
    DecodeNothing(GENESIS, o, With(Empty(GENESIS), 0, List([e])));
  }
}
