/**
 The reflection view of a message (Has, Clear, Range, Set) against its encoding.
 */
module Reflection {
  import opened Varints
  import opened Schemas
  import opened Records
  import opened Codec
  import opened Streams
  import opened RoundTrips

  /** A field is populated: a non-zero number, a non-empty string, a non-empty list, a non-nil
      sub-message. */
  predicate Has(v: Value) {
    match v
    case Num(n) => n != 0
    case Str(p) => p != []
    case List(xs) => xs != []
  }

  function Clear(s: Schema, m: Message, i: nat): Message
    requires Fits(s, m) && i < |s.fields|
  {
    m.(values := m.values[i := Default(s.fields[i].kind)])
  }

  lemma WithoutAppend(s: Schema, b: Bytes, c: Bytes, i: int)
    requires Framed(s, b) && Framed(s, c)
    ensures Framed(s, b + c) && Without(s, b + c, i) == Without(s, b, i) + Without(s, c, i)
  {
    SelectAppend(s, b, c, i, false);
  }

  /** All records of `b` are of slot `j`. */
  ghost predicate AllOf(s: Schema, b: Bytes, j: int) {
    Framed(s, b) && forall i :: -1 <= i < |s.fields| ==>
      && Only(s, b, i) == (if i == j then b else [])
      && Without(s, b, i) == (if i == j then [] else b)
  }

  lemma AllOfSingle(s: Schema, b: Bytes)
    requires Single(s, b)
    ensures AllOf(s, b, Cut(s, b).value.slot)
  {
    hide Cut;
    var r := Cut(s, b).value;
    SingleSelect(s, b, 0, true);
    forall i | -1 <= i < |s.fields|
      ensures Only(s, b, i) == (if i == r.slot then b else [])
      ensures Without(s, b, i) == (if i == r.slot then [] else b)
    {
      SingleSelect(s, b, i, true);
      SingleSelect(s, b, i, false);
    }
  }

  lemma AllOfAppend(s: Schema, b: Bytes, c: Bytes, j: int)
    requires AllOf(s, b, j) && AllOf(s, c, j)
    ensures AllOf(s, b + c, j)
  {
    hide Only, Without, Framed;
    OnlyAppend(s, b, c, 0);
    forall i | -1 <= i < |s.fields|
      ensures Only(s, b + c, i) == (if i == j then b + c else [])
      ensures Without(s, b + c, i) == (if i == j then [] else b + c)
    {
      OnlyAppend(s, b, c, i);
      WithoutAppend(s, b, c, i);
    }
  }

  lemma {:induction false} EltsRecords(s: Schema, j: nat, xs: seq<Elt>)
    requires ValidSchema(s) && j < |s.fields| && (s.fields[j].kind.One? || s.fields[j].kind.Many?)
    requires |EncodeElts(s.fields[j].num, s.fields[j].kind.elem, xs)| < TWO_63
    ensures AllOf(s, EncodeElts(s.fields[j].num, s.fields[j].kind.elem, xs), j)
    decreases |xs|
  {
    hide Cut, AllOf;
    var num, e := s.fields[j].num, s.fields[j].kind.elem;
    if xs == [] {
      AllOfNone(s, j);
    } else {
      var p := EncodeElt(e, xs[0]);
      var b := EncodeChunk(num, p);
      assert |p| <= |b|;
      ChunkRecord(s, j, p, []);
      assert b + [] == b;
      AllOfSingle(s, b);
      EltsRecords(s, j, xs[1..]);
      AllOfAppend(s, b, EncodeElts(num, e, xs[1..]), j);
    }
  }

  lemma AllOfNone(s: Schema, j: int)
    ensures AllOf(s, [], j)
  {
  }

  /** A field is written as records of its own slot, and as none exactly when it is not populated. */
  lemma FieldRecords(o: Options, s: Schema, j: nat, v: Value)
    requires ValidSchema(s) && j < |s.fields| && GoodValue(o, s.fields[j].kind, v)
    requires |EncodeField(s.fields[j], v)| < TWO_63
    ensures AllOf(s, EncodeField(s.fields[j], v), j)
    ensures EncodeField(s.fields[j], v) != [] <==> Has(v)
  {
    hide Cut, AllOf;
    var b := EncodeField(s.fields[j], v);
    assert b + [] == b;
    match v
    case Num(n) =>
      if n == 0 { AllOfNone(s, j); } else { NumberRecord(s, j, n, []); AllOfSingle(s, b); }
    case Str(p) =>
      if p == [] { AllOfNone(s, j); } else { ChunkRecord(s, j, p, []); AllOfSingle(s, b); }
    case List(xs) =>
      EltsRecords(s, j, xs);
  }

  lemma {:induction false} FieldsRecords(o: Options, s: Schema, m: Message, i: nat, k: nat)
    requires ValidSchema(s) && WellFormed(o, s, m) && i < |s.fields| && k <= |s.fields|
    requires |EncodeFrom(s, m, k)| < TWO_63
    ensures var b := EncodeFrom(s, m, k);
            && Framed(s, b)
            && Only(s, b, i) == (if k <= i then EncodeField(s.fields[i], m.values[i]) else [])
            && Without(s, b, i) == EncodeFrom(s, Clear(s, m, i), k)
    decreases |s.fields| - k
  {
    hide Cut, Only, Without, Framed, GoodValue, UnknownOnly, ValidSchema, EncodeField, Has, AllOf, Clear;
    if k == |s.fields| {
      AllOfNone(s, 0);
      AllOfAt(s, [], 0, i);
    } else {
      var v := m.values[k];
      var b, c := EncodeField(s.fields[k], v), EncodeFrom(s, m, k + 1);
      FieldRecords(o, s, k, v);
      AllOfAt(s, b, k, i);
      FieldsRecords(o, s, m, i, k + 1);
      OnlyAppend(s, b, c, i);
      WithoutAppend(s, b, c, i);
      ClearedFrom(s, m, i, k);
    }
  }

  lemma AllOfAt(s: Schema, b: Bytes, j: int, i: nat)
    requires AllOf(s, b, j) && i < |s.fields|
    ensures Framed(s, b)
    ensures Only(s, b, i) == (if i == j then b else [])
    ensures Without(s, b, i) == (if i == j then [] else b)
  {
  }

  lemma ClearedFrom(s: Schema, m: Message, i: nat, k: nat)
    requires Fits(s, m) && i < |s.fields| && k < |s.fields|
    ensures EncodeFrom(s, Clear(s, m, i), k)
            == (if k == i then [] else EncodeField(s.fields[k], m.values[k]))
               + EncodeFrom(s, Clear(s, m, i), k + 1)
  {
    assert EncodeField(s.fields[i], Default(s.fields[i].kind)) == [];
  }

  lemma {:induction false} UnknownRecords(s: Schema, u: Bytes, i: nat)
    requires UnknownOnly(s, u)
    ensures Framed(s, u) && Only(s, u, i) == [] && Without(s, u, i) == u
    decreases |u|
  {
    hide Cut;
    if u != [] {
      CutWhole(s, u);
      var n := Cut(s, u).value.len;
      UnknownRecords(s, u[n..], i);
      assert u[..n] + u[n..] == u;
    }
  }

  /** Clear commutes with encoding: the encoding after Clear is the encoding before it with exactly
      that field's records removed; and the field has a record if and only if Has holds. */
  lemma ClearCommutes(o: Options, s: Schema, m: Message, i: nat)
    requires ValidSchema(s) && WellFormed(o, s, m) && i < |s.fields|
    requires |Encode(s, m)| < TWO_63
    ensures Framed(s, Encode(s, m))
    ensures Without(s, Encode(s, m), i) == Encode(s, Clear(s, m, i))
    ensures Only(s, Encode(s, m), i) != [] <==> Has(m.values[i])
  {
    hide Cut, Only, Without, Framed;
    var b := EncodeFrom(s, m, 0);
    FieldsRecords(o, s, m, i, 0);
    UnknownRecords(s, m.unknown, i);
    OnlyAppend(s, b, m.unknown, i);
    WithoutAppend(s, b, m.unknown, i);
    FieldRecordsAt(o, s, m, i);
  }

  lemma FieldRecordsAt(o: Options, s: Schema, m: Message, i: nat)
    requires ValidSchema(s) && WellFormed(o, s, m) && i < |s.fields|
    requires |Encode(s, m)| < TWO_63
    ensures EncodeField(s.fields[i], m.values[i]) != [] <==> Has(m.values[i])
  {
    hide AllOf;
    FieldInEncoding(s, m, i, 0);
    FieldRecords(o, s, i, m.values[i]);
  }

  lemma {:induction false} FieldInEncoding(s: Schema, m: Message, i: nat, k: nat)
    requires Fits(s, m) && k <= i < |s.fields|
    ensures |EncodeField(s.fields[i], m.values[i])| <= |EncodeFrom(s, m, k)|
    decreases i - k
  {
    if k < i { FieldInEncoding(s, m, i, k + 1); }
  }

  // ----- Range and Set

  /** The populated slots from `k` on, in field order, with their values: what Range visits. */
  function Populated(vs: seq<Value>, k: nat): (r: seq<(nat, Value)>)
    requires k <= |vs|
    decreases |vs| - k
  {
    if k == |vs| then [] else (if Has(vs[k]) then [(k, vs[k])] else []) + Populated(vs, k + 1)
  }

  /** Range stops after the first visit that the callback answers with false. */
  function UpToFirstFalse(xs: seq<(nat, Value)>, f: (nat, Value) -> bool): seq<(nat, Value)> {
    if xs == [] then []
    else if f(xs[0].0, xs[0].1) then [xs[0]] + UpToFirstFalse(xs[1..], f)
    else [xs[0]]
  }

  /** The visits still to come, when `visited` have been made and all were answered with true. */
  ghost predicate Visiting(vs: seq<Value>, f: (nat, Value) -> bool, visited: seq<(nat, Value)>, live: bool, k: nat)
  {
    && k <= |vs|
    && (live ==> visited + UpToFirstFalse(Populated(vs, k), f) == UpToFirstFalse(Populated(vs, 0), f))
    && (!live ==> visited == UpToFirstFalse(Populated(vs, 0), f))
  }

  /** One `if x.F != 0 { ... if !f(fd, value) { return } }` of Range. */
  method Visit(ghost vs: seq<Value>, k: nat, v: Value, f: (nat, Value) -> bool,
               visited: seq<(nat, Value)>, live: bool)
    returns (visited': seq<(nat, Value)>, live': bool)
    requires k < |vs| && vs[k] == v && Visiting(vs, f, visited, live, k)
    ensures Visiting(vs, f, visited', live', k + 1)
  {
    hide Has;
    visited', live' := visited, live;
    if live && Has(v) {
      visited', live' := visited + [(k, v)], f(k, v);
      VisitedOne((k, v), Populated(vs, k + 1), f, visited);
    } else if live {
      assert Populated(vs, k) == Populated(vs, k + 1);
    }
  }

  lemma VisitedOne(x: (nat, Value), rest: seq<(nat, Value)>, f: (nat, Value) -> bool, visited: seq<(nat, Value)>)
    ensures visited + UpToFirstFalse([x] + rest, f)
            == visited + [x] + (if f(x.0, x.1) then UpToFirstFalse(rest, f) else [])
  {
    assert ([x] + rest)[1..] == rest;
  }

  lemma StartVisiting(vs: seq<Value>, f: (nat, Value) -> bool)
    ensures Visiting(vs, f, [], true, 0)
  {
    var all := UpToFirstFalse(Populated(vs, 0), f);
    assert [] + all == all;
  }

  lemma EndVisiting(vs: seq<Value>, f: (nat, Value) -> bool, visited: seq<(nat, Value)>, live: bool)
    requires Visiting(vs, f, visited, live, |vs|)
    ensures visited == UpToFirstFalse(Populated(vs, 0), f)
  {
    assert Populated(vs, |vs|) == [] && visited + [] == visited;
  }

  /** A callback that never answers false sees every populated field. */
  lemma {:induction false} AllVisited(xs: seq<(nat, Value)>, f: (nat, Value) -> bool)
    requires forall k, v :: f(k, v)
    ensures UpToFirstFalse(xs, f) == xs
    decreases |xs|
  {
    if xs != [] { AllVisited(xs[1..], f); }
  }

  /** Range visits exactly the slots where Has holds, each once, in ascending order. */
  lemma {:induction false} RangeVisitsPopulated(vs: seq<Value>, k: nat)
    requires k <= |vs|
    ensures var r := Populated(vs, k);
            && (forall j :: 0 <= j < |r| ==> k <= r[j].0 < |vs| && Has(r[j].1) && r[j].1 == vs[r[j].0])
            && (forall j, j' :: 0 <= j < j' < |r| ==> r[j].0 < r[j'].0)
            && (forall i :: k <= i < |vs| && Has(vs[i]) ==> (i, vs[i]) in r)
    decreases |vs| - k
  {
    if k < |vs| {
      RangeVisitsPopulated(vs, k + 1);
      var rest, r := Populated(vs, k + 1), Populated(vs, k);
      forall i | k <= i < |vs| && Has(vs[i])
        ensures (i, vs[i]) in r
      {
        if i > k { assert (i, vs[i]) in rest; } else { assert r[0] == (i, vs[i]); }
      }
    }
  }

  /** Store each listed value in its slot. */
  function SetAll(vs: seq<Value>, xs: seq<(nat, Value)>): (ws: seq<Value>)
    ensures |ws| == |vs|
    decreases |xs|
  {
    if xs == [] then vs
    else if xs[0].0 < |vs| then SetAll(vs[xs[0].0 := xs[0].1], xs[1..])
    else SetAll(vs, xs[1..])
  }

  /** An unpopulated field holds its default. */
  lemma UnpopulatedIsDefault(k: Kind, v: Value)
    requires Shaped(k, v) && !Has(v)
    ensures v == Default(k)
  {
  }

  /** Copying what Range visits onto defaults restores every field from slot `k` on. */
  lemma {:induction false} CopyRange(s: Schema, ms: seq<Value>, vs: seq<Value>, k: nat)
    requires |ms| == |vs| == |s.fields| && k <= |vs|
    requires forall i :: 0 <= i < |ms| ==> Shaped(s.fields[i].kind, ms[i])
    requires forall i :: 0 <= i < k ==> vs[i] == ms[i]
    requires forall i :: k <= i < |vs| ==> vs[i] == Default(s.fields[i].kind)
    ensures SetAll(vs, Populated(ms, k)) == ms
    decreases |vs| - k
  {
    hide Shaped, Has, Default, SetAll;
    if k == |vs| {
      assert vs == ms;
      SetNone(vs);
    } else {
      var v, rest := ms[k], Populated(ms, k + 1);
      if Has(v) {
        CopyRange(s, ms, vs[k := v], k + 1);
        SetFirst(vs, k, v, rest);
      } else {
        UnpopulatedIsDefault(s.fields[k].kind, v);
        CopyRange(s, ms, vs, k + 1);
        assert Populated(ms, k) == rest;
      }
    }
  }

  lemma SetPrefixNone(vs: seq<Value>, xs: seq<(nat, Value)>)
    ensures SetAll(vs, xs[..0]) == vs
  {
    assert xs[..0] == [];
  }

  lemma {:induction false} SetPrefixNext(vs: seq<Value>, xs: seq<(nat, Value)>, j: nat)
    requires j < |xs| && xs[j].0 < |vs|
    ensures SetAll(vs, xs[..j + 1]) == SetAll(vs, xs[..j])[xs[j].0 := xs[j].1]
    decreases |xs|
  {
    if j == 0 {
      var one := xs[..1];
      assert one == [xs[0]] && one[1..] == xs[..0] == [];
    } else {
      assert xs[..j + 1][1..] == xs[1..][..j] && xs[..j][1..] == xs[1..][..j - 1];
      var ws := if xs[0].0 < |vs| then vs[xs[0].0 := xs[0].1] else vs;
      SetPrefixNext(ws, xs[1..], j - 1);
    }
  }

  lemma SetNone(vs: seq<Value>)
    ensures SetAll(vs, []) == vs
  {
  }

  lemma SetFirst(vs: seq<Value>, k: nat, v: Value, rest: seq<(nat, Value)>)
    requires k < |vs|
    ensures SetAll(vs, [(k, v)] + rest) == SetAll(vs[k := v], rest)
  {
    assert ([(k, v)] + rest)[1..] == rest;
  }

  /** Two clones agree: the fields copied through Range and Set are those that marshal and
      unmarshal reproduce. */
  lemma ClonesAgree(o: Options, s: Schema, m: Message)
    requires ValidSchema(s) && WellFormed(o, s, m) && !o.discardUnknown && |Encode(s, m)| < TWO_63
    ensures Decode(s, o, Empty(s), Encode(s, m)).Ok?
    ensures SetAll(Empty(s).values, Populated(m.values, 0))
            == Decode(s, o, Empty(s), Encode(s, m)).value.values
  {
    CopyRange(s, m.values, Empty(s).values, 0);
    RoundTrip(o, s, m);
  }
}
