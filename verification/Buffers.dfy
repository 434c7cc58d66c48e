/**
 The imperative building blocks of the generated code: writing backwards into an exactly sized
 buffer, and reading forwards with 64-bit wrap-around index arithmetic.
 */
module Buffers {
  import opened Varints
  import opened Schemas
  import opened Records
  import opened Codec
  import opened Streams
  import opened RoundTrips

  type uint64 = x: int | 0 <= x < TWO_64
  type uint32 = x: int | 0 <= x < TWO_32
  type int64 = x: int | -TWO_63 <= x < TWO_63
  type int32 = x: int | -TWO_31 <= x < TWO_31

  /** Input buffers: a Go slice length is a non-negative 64-bit `int`. */
  type Slice = b: Bytes | |b| < TWO_63

  // ----- writing

  /** `runtime.EncodeVarint`: write `v` so that it ends at `offset`. */
  method EncodeVarint(dAtA: array<Byte>, offset: nat, v: uint64) returns (base: nat)
    requires Sov(v) <= offset <= dAtA.Length
    modifies dAtA
    ensures base == offset - Sov(v)
    ensures dAtA[base..] == Varint(v) + old(dAtA[offset..])
    ensures dAtA[..base] == old(dAtA[..base])
  {
    hide Sov;
    base := offset - Sov(v);
    var at, rest: nat := base, v;
    SovIsLength(v);
    ghost var tail, head := dAtA[offset..], dAtA[..base];
    while rest >= 128
      invariant base <= at < offset && |Varint(rest)| == offset - at
      invariant dAtA[base..at] + Varint(rest) == Varint(v)
      invariant dAtA[offset..] == tail && dAtA[..base] == head
      decreases rest
    {
      ghost var done := dAtA[base..at];
      dAtA[at] := rest % 128 + 128;
      assert dAtA[base..at] == done;
      assert dAtA[base..at + 1] == done + [rest % 128 + 128];
      assert done + Varint(rest) == done + [rest % 128 + 128] + Varint(rest / 128);
      rest := rest / 128;
      at := at + 1;
    }
    ghost var done := dAtA[base..at];
    dAtA[at] := rest;
    assert dAtA[base..at] == done;
    assert dAtA[base..offset] == done + [rest];
    assert dAtA[base..] == dAtA[base..offset] + dAtA[offset..];
  }

  /** `i -= len(p); copy(dAtA[i:], p)`. */
  method PutBytes(dAtA: array<Byte>, i: nat, p: Bytes) returns (j: nat)
    requires |p| <= i <= dAtA.Length
    modifies dAtA
    ensures j == i - |p|
    ensures dAtA[j..] == p + old(dAtA[i..])
    ensures dAtA[..j] == old(dAtA[..j])
  {
    j := i - |p|;
    ghost var tail, head := dAtA[i..], dAtA[..j];
    for k := 0 to |p|
      invariant dAtA[j..j + k] == p[..k]
      invariant dAtA[i..] == tail && dAtA[..j] == head
    {
      ghost var done := dAtA[j..j + k];
      dAtA[j + k] := p[k];
      assert dAtA[j..j + k] == done;
      assert dAtA[j..j + k + 1] == p[..k] + [p[k]] == p[..k + 1];
    }
    assert dAtA[j..] == dAtA[j..i] + dAtA[i..];
    assert p[..|p|] == p;
  }

  /** `i--; dAtA[i] = b`. */
  method PutByte(dAtA: array<Byte>, i: nat, b: Byte) returns (j: nat)
    requires 0 < i <= dAtA.Length
    modifies dAtA
    ensures j == i - 1
    ensures dAtA[j..] == [b] + old(dAtA[i..])
    ensures dAtA[..j] == old(dAtA[..j])
  {
    j := i - 1;
    dAtA[j] := b;
  }

  /** A varint field with a one-byte tag. */
  method PutNumber(dAtA: array<Byte>, i: nat, tag: Byte, n: int, ghost num: nat) returns (j: nat)
    requires [tag] == Tag(num, 0) && |EncodeNumber(num, n)| <= i <= dAtA.Length
    modifies dAtA
    ensures j == i - |EncodeNumber(num, n)|
    ensures dAtA[j..] == EncodeNumber(num, n) + old(dAtA[i..])
    ensures dAtA[..j] == old(dAtA[..j])
  {
    hide Tag, Varint, Sov;
    SovIsLength(ToWire(n));
    j := EncodeVarint(dAtA, i, ToWire(n));
    j := PutByte(dAtA, j, tag);
    assert dAtA[j..] == [tag] + (Varint(ToWire(n)) + old(dAtA[i..]));
  }

  /** A payload and, in front of it, its length. */
  method PutPayload(dAtA: array<Byte>, i: nat, p: Bytes) returns (j: nat)
    requires |p| + Sov(|p|) <= i <= dAtA.Length && |p| < TWO_63
    modifies dAtA
    ensures j == i - |p| - Sov(|p|)
    ensures dAtA[j..] == Varint(|p|) + (p + old(dAtA[i..]))
    ensures dAtA[..j] == old(dAtA[..j])
  {
    hide Varint, Sov;
    j := PutBytes(dAtA, i, p);
    j := EncodeVarint(dAtA, j, |p|);
  }

  lemma ChunkLayout(num: nat, p: Bytes, tail: Bytes)
    ensures Tag(num, 2) + (Varint(|p|) + (p + tail)) == EncodeChunk(num, p) + tail
    ensures |EncodeChunk(num, p)| == |Tag(num, 2)| + Sov(|p|) + |p|
  {
    hide Tag, Varint, Sov;
    SovIsLength(|p|);
  }

  /** A length-delimited field with a one-byte tag. */
  method PutChunk(dAtA: array<Byte>, i: nat, tag: Byte, p: Bytes, ghost num: nat) returns (j: nat)
    requires [tag] == Tag(num, 2) && |EncodeChunk(num, p)| <= i <= dAtA.Length && |p| < TWO_63
    modifies dAtA
    ensures j == i - |EncodeChunk(num, p)|
    ensures dAtA[j..] == EncodeChunk(num, p) + old(dAtA[i..])
    ensures dAtA[..j] == old(dAtA[..j])
  {
    hide Tag, Varint, Sov, EncodeChunk;
    ChunkLayout(num, p, dAtA[i..]);
    j := PutPayload(dAtA, i, p);
    j := PutByte(dAtA, j, tag);
  }

  function Leaves(ps: seq<Bytes>): (xs: seq<Elt>)
    ensures |xs| == |ps| && forall i :: 0 <= i < |ps| ==> xs[i] == Leaf(ps[i])
  {
    seq(|ps|, i requires 0 <= i < |ps| => Leaf(ps[i]))
  }

  function OptionalLeaf(p: Option<Bytes>): seq<Elt> {
    if p.Some? then [Leaf(p.value)] else []
  }

  lemma {:induction false} EltsSplit(num: nat, e: Elem, xs: seq<Elt>, k: nat)
    requires k <= |xs|
    ensures EncodeElts(num, e, xs) == EncodeElts(num, e, xs[..k]) + EncodeElts(num, e, xs[k..])
    decreases |xs|
  {
    hide EncodeElt, EncodeChunk;
    if k == 0 {
      assert xs[..0] == [] && xs[0..] == xs;
    } else {
      EltsSplit(num, e, xs[1..], k - 1);
      assert xs[1..][..k - 1] == xs[..k][1..] && xs[1..][k - 1..] == xs[k..];
      Associate(EncodeChunk(num, EncodeElt(e, xs[0])), EncodeElts(num, e, xs[..k][1..]), EncodeElts(num, e, xs[k..]));
    }
  }

  /** The element at `k` is written in front of those behind it, and there is room for it. */
  lemma EltsAt(num: nat, e: Elem, xs: seq<Elt>, k: nat)
    requires k < |xs|
    ensures EncodeElts(num, e, xs[k..]) == EncodeChunk(num, EncodeElt(e, xs[k])) + EncodeElts(num, e, xs[k + 1..])
    ensures |EncodeElts(num, e, xs[k..])| <= |EncodeElts(num, e, xs)|
    ensures |EncodeElts(num, e, xs[..k + 1])|
            == |EncodeElts(num, e, xs[..k])| + |EncodeChunk(num, EncodeElt(e, xs[k]))|
  {
    assert xs[k..][1..] == xs[k + 1..];
    EltsSplit(num, e, xs, k);
    EltsSplit(num, e, xs[..k + 1], k);
    assert xs[..k + 1][..k] == xs[..k] && xs[..k + 1][k..] == [xs[k]] && [xs[k]][1..] == [];
  }

  /** One turn of a backward loop over a list, for a one-byte tag: element `k` is written in front of
      those behind it. */
  method PutElement(dAtA: array<Byte>, j: nat, tag: Byte, p: Bytes,
                    ghost i: nat, ghost num: nat, ghost e: Elem, ghost xs: seq<Elt>, ghost k: nat, ghost tail: Bytes)
    returns (j': nat)
    requires [tag] == Tag(num, 2) && k < |xs| && p == EncodeElt(e, xs[k])
    requires |EncodeElts(num, e, xs)| <= i <= dAtA.Length && |EncodeElts(num, e, xs)| < TWO_63
    requires j == i - |EncodeElts(num, e, xs[k + 1..])| && dAtA[j..] == EncodeElts(num, e, xs[k + 1..]) + tail
    modifies dAtA
    ensures 0 <= j' == i - |EncodeElts(num, e, xs[k..])| <= j
    ensures dAtA[j'..] == EncodeElts(num, e, xs[k..]) + tail
    ensures dAtA[..j'] == old(dAtA[..j'])
  {
    hide Tag, EncodeChunk, EncodeElts, EncodeElt;
    EltsAt(num, e, xs, k);
    ChunkLonger(num, p);
    ghost var rest := EncodeElts(num, e, xs[k + 1..]);
    j' := PutChunk(dAtA, j, tag, p, num);
    Associate(EncodeChunk(num, p), rest, tail);
  }

  /** A repeated string field, last element first. */
  method PutStrings(dAtA: array<Byte>, i: nat, tag: Byte, ps: seq<Bytes>, ghost num: nat) returns (j: nat)
    requires [tag] == Tag(num, 2)
    requires |EncodeElts(num, Raw, Leaves(ps))| <= i <= dAtA.Length
    requires |EncodeElts(num, Raw, Leaves(ps))| < TWO_63
    modifies dAtA
    ensures j == i - |EncodeElts(num, Raw, Leaves(ps))|
    ensures dAtA[j..] == EncodeElts(num, Raw, Leaves(ps)) + old(dAtA[i..])
    ensures dAtA[..j] == old(dAtA[..j])
  {
    hide Tag, EncodeChunk, Leaves, EncodeElts;
    ghost var xs, tail := Leaves(ps), dAtA[i..];
    assert |xs| == |ps|;
    assert xs[|xs|..] == [];
    NoElts(num, Raw);
    j := i;
    for k := |ps| downto 0
      invariant j == i - |EncodeElts(num, Raw, xs[k..])|
      invariant dAtA[j..] == EncodeElts(num, Raw, xs[k..]) + tail
      invariant dAtA[..j] == old(dAtA[..j])
    {
      j := PutElement(dAtA, j, tag, ps[k], i, num, Raw, xs, k, tail);
    }
    assert xs[0..] == xs;
  }

  lemma NoElts(num: nat, e: Elem)
    ensures EncodeElts(num, e, []) == []
  {
  }

  // ----- sizes

  /** Size of a length-delimited record with a one-byte tag. */
  lemma ChunkSize(num: nat, p: Bytes)
    requires |Tag(num, 2)| == 1
    ensures |EncodeChunk(num, p)| == 1 + |p| + Sov(|p|)
  {
    SovIsLength(|p|);
  }

  lemma NumberSize(num: nat, n: int)
    requires |Tag(num, 0)| == 1
    ensures |EncodeNumber(num, n)| == 1 + Sov(ToWire(n))
  {
    SovIsLength(ToWire(n));
  }

  /** The size loop over a repeated string field. */
  method SizeStrings(ps: seq<Bytes>, ghost num: nat) returns (n: nat)
    requires |Tag(num, 2)| == 1
    ensures n == |EncodeElts(num, Raw, Leaves(ps))|
  {
    hide Tag, EncodeChunk, Leaves, EncodeElts, Sov;
    ghost var xs := Leaves(ps);
    n := 0;
    assert EncodeElts(num, Raw, xs[..0]) == [] by { assert xs[..0] == []; NoElts(num, Raw); }
    for k := 0 to |ps|
      invariant n == |EncodeElts(num, Raw, xs[..k])|
    {
      var l := |ps[k]|;
      n := n + 1 + l + Sov(l);
      EltsAt(num, Raw, xs, k);
      assert EncodeElt(Raw, xs[k]) == ps[k];
      ChunkSize(num, ps[k]);
    }
    assert xs[..|ps|] == xs;
  }

  // ----- the encoding from the back

  /** What stands behind slot `k` in the buffer. */
  ghost function Tail(s: Schema, m: Message, k: nat): Bytes
    requires k <= |s.fields|
  {
    EncodeFrom(s, m, k) + m.unknown
  }

  lemma {:induction false} TailFits(s: Schema, m: Message, k: nat, j: nat)
    requires Fits(s, m) && k <= j <= |s.fields|
    ensures |EncodeFrom(s, m, j)| <= |EncodeFrom(s, m, k)|
    decreases j - k
  {
    hide EncodeField;
    if k < j { TailFits(s, m, k + 1, j); }
  }

  lemma TailStep(s: Schema, m: Message, k: nat)
    requires Fits(s, m) && k < |s.fields|
    ensures Tail(s, m, k) == EncodeField(s.fields[k], m.values[k]) + Tail(s, m, k + 1)
    ensures |Tail(s, m, k)| <= |Encode(s, m)|
  {
    hide EncodeField;
    TailFits(s, m, 0, k);
    Associate(EncodeField(s.fields[k], m.values[k]), EncodeFrom(s, m, k + 1), m.unknown);
  }

  lemma TailEnds(s: Schema, m: Message)
    requires Fits(s, m)
    ensures Tail(s, m, |s.fields|) == m.unknown && Tail(s, m, 0) == Encode(s, m)
  {
  }

  /** Slot `k` of the message is field `f` and holds `v`. */
  ghost predicate Holds(s: Schema, m: Message, k: nat, f: Field, v: Value) {
    Fits(s, m) && k < |s.fields| && s.fields[k] == f && m.values[k] == v
  }

  /** The buffer is exactly as long as the encoding, and from `i` on it holds what stands behind
      slot `k`. */
  ghost predicate Filled(dAtA: array<Byte>, i: int, s: Schema, m: Message, k: nat)
    reads dAtA
  {
    && k <= |s.fields| && dAtA.Length == |Encode(s, m)| < TWO_63
    && 0 <= i <= dAtA.Length && dAtA[i..] == Tail(s, m, k)
  }

  /** Writing from `i` down to `j` has left everything in front of `j` as it was. */
  twostate predicate FrontKept(dAtA: array<Byte>, i: int, j: int)
    reads dAtA
  {
    0 <= j <= i <= dAtA.Length && dAtA[..j] == old(dAtA[..j])
  }

  /** `if n != 0 { ... }` of the marshal code. */
  method PutNumberSlot(dAtA: array<Byte>, i: nat, tag: Byte, n: int,
                       ghost s: Schema, ghost m: Message, ghost k: nat)
    returns (j: nat)
    requires k < |s.fields| && s.fields[k].kind.Scalar? && Holds(s, m, k, s.fields[k], Num(n))
    requires Filled(dAtA, i, s, m, k + 1) && [tag] == Tag(s.fields[k].num, 0)
    modifies dAtA
    ensures Filled(dAtA, j, s, m, k)
    ensures FrontKept(dAtA, i, j)
  {
    hide Tail, Encode, Tag, EncodeNumber;
    TailStep(s, m, k);
    j := i;
    if n != 0 { j := PutNumber(dAtA, i, tag, n, s.fields[k].num); }
  }

  /** `if x.Flag { ... }` of the marshal code. */
  method PutBoolSlot(dAtA: array<Byte>, i: nat, tag: Byte, flag: bool,
                     ghost s: Schema, ghost m: Message, ghost k: nat)
    returns (j: nat)
    requires k < |s.fields| && s.fields[k].kind.Scalar?
    requires Holds(s, m, k, s.fields[k], Num(if flag then 1 else 0))
    requires 1 <= s.fields[k].num <= 15 && tag == s.fields[k].num * 8
    requires Filled(dAtA, i, s, m, k + 1)
    modifies dAtA
    ensures Filled(dAtA, j, s, m, k)
    ensures FrontKept(dAtA, i, j)
  {
    hide Tail, Encode, EncodeNumber;
    TailStep(s, m, k);
    TrueIsTwoBytes(s.fields[k].num);
    j := i;
    if flag {
      ghost var rest := dAtA[i..];
      j := PutByte(dAtA, j, if flag then 1 else 0);
      j := PutByte(dAtA, j, tag);
      assert dAtA[j..] == [tag, 1] + rest;
    }
  }

  /** `if len(x.Text) > 0 { ... }` of the marshal code. */
  method PutTextSlot(dAtA: array<Byte>, i: nat, tag: Byte, p: Bytes,
                     ghost s: Schema, ghost m: Message, ghost k: nat)
    returns (j: nat)
    requires k < |s.fields| && Holds(s, m, k, s.fields[k], Str(p))
    requires Filled(dAtA, i, s, m, k + 1) && [tag] == Tag(s.fields[k].num, 2)
    modifies dAtA
    ensures Filled(dAtA, j, s, m, k)
    ensures FrontKept(dAtA, i, j)
  {
    hide Tail, Encode, Tag, EncodeChunk;
    TailStep(s, m, k);
    j := i;
    if |p| > 0 {
      ChunkLonger(s.fields[k].num, p);
      j := PutChunk(dAtA, i, tag, p, s.fields[k].num);
    }
  }

  /** The backward loop over a repeated string field. */
  method PutStringsSlot(dAtA: array<Byte>, i: nat, tag: Byte, ps: seq<Bytes>,
                        ghost s: Schema, ghost m: Message, ghost k: nat)
    returns (j: nat)
    requires k < |s.fields| && s.fields[k].kind == Many(Raw)
    requires Holds(s, m, k, s.fields[k], List(Leaves(ps)))
    requires Filled(dAtA, i, s, m, k + 1) && [tag] == Tag(s.fields[k].num, 2)
    modifies dAtA
    ensures Filled(dAtA, j, s, m, k)
    ensures FrontKept(dAtA, i, j)
  {
    hide Tail, Encode, Tag, EncodeElts, Leaves;
    TailStep(s, m, k);
    j := PutStrings(dAtA, i, tag, ps, s.fields[k].num);
  }

  /** `if x.Time != nil { ... }` of the marshal code, for a foreign message. */
  method PutExternalSlot(dAtA: array<Byte>, i: nat, tag: Byte, p: Option<Bytes>,
                         ghost s: Schema, ghost m: Message, ghost k: nat)
    returns (j: nat)
    requires k < |s.fields| && s.fields[k].kind.One? && s.fields[k].kind.elem.Ext?
    requires Holds(s, m, k, s.fields[k], List(OptionalLeaf(p)))
    requires Filled(dAtA, i, s, m, k + 1) && [tag] == Tag(s.fields[k].num, 2)
    modifies dAtA
    ensures Filled(dAtA, j, s, m, k)
    ensures FrontKept(dAtA, i, j)
  {
    hide Tail, Encode, Tag, EncodeChunk, EncodeField;
    TailStep(s, m, k);
    OptionalRecord(s.fields[k].num, s.fields[k].kind.elem.id, p);
    j := i;
    if p.Some? {
      ChunkLonger(s.fields[k].num, p.value);
      j := PutChunk(dAtA, i, tag, p.value, s.fields[k].num);
    }
  }

  /** `i -= len(x.unknownFields); copy(...)`: the first write. */
  method PutUnknown(dAtA: array<Byte>, u: Bytes, ghost s: Schema, ghost m: Message) returns (j: nat)
    requires Fits(s, m) && u == m.unknown && dAtA.Length == |Encode(s, m)| < TWO_63
    modifies dAtA
    ensures Filled(dAtA, j, s, m, |s.fields|)
    ensures FrontKept(dAtA, dAtA.Length, j)
  {
    hide Tail, Encode;
    TailEnds(s, m);
    UnknownFits(s, m);
    ghost var none := dAtA[dAtA.Length..];
    assert none == [] && u + [] == u;
    j := PutBytes(dAtA, dAtA.Length, u);
  }

  /** When every slot is written the index is 0 and the buffer holds the encoding. */
  lemma AllFilled(dAtA: array<Byte>, i: int, s: Schema, m: Message)
    requires Fits(s, m) && Filled(dAtA, i, s, m, 0)
    ensures i == 0 && dAtA[..] == Encode(s, m)
  {
    hide Encode, Tail;
    TailEnds(s, m);
    assert dAtA[0..] == dAtA[..];
  }

  // ----- the size pass, slot by slot

  /** `n` is the length of everything in front of slot `k`. */
  ghost predicate Counted(n: nat, s: Schema, m: Message, k: nat) {
    k <= |s.fields| && n + |Tail(s, m, k)| == |Encode(s, m)|
  }

  lemma NothingCounted(s: Schema, m: Message)
    requires Fits(s, m)
    ensures Counted(0, s, m, 0)
  {
    hide Encode, Tail;
    TailEnds(s, m);
  }

  /** `if x.F != 0 { n += ... }` of the size code. */
  method AddNumberSlot(n: nat, v: int, ghost s: Schema, ghost m: Message, ghost k: nat) returns (n': nat)
    requires k < |s.fields| && Holds(s, m, k, s.fields[k], Num(v)) && |Tag(s.fields[k].num, 0)| == 1
    requires Counted(n, s, m, k)
    ensures Counted(n', s, m, k + 1)
  {
    hide Tail, Encode, Tag, EncodeNumber, Sov;
    TailStep(s, m, k);
    NumberSize(s.fields[k].num, v);
    n' := n;
    if v != 0 { n' := n' + 1 + Sov(ToWire(v)); }
  }

  /** `if x.Flag { n += 2 }` of the size code. */
  method AddBoolSlot(n: nat, flag: bool, ghost s: Schema, ghost m: Message, ghost k: nat) returns (n': nat)
    requires k < |s.fields| && Holds(s, m, k, s.fields[k], Num(if flag then 1 else 0))
    requires 1 <= s.fields[k].num <= 15 && Counted(n, s, m, k)
    ensures Counted(n', s, m, k + 1)
  {
    hide Tail, Encode, EncodeNumber;
    TailStep(s, m, k);
    TrueIsTwoBytes(s.fields[k].num);
    n' := n;
    if flag { n' := n' + 2; }
  }

  /** `l = len(x.Text); if l > 0 { n += ... }` of the size code. */
  method AddTextSlot(n: nat, p: Bytes, ghost s: Schema, ghost m: Message, ghost k: nat) returns (n': nat)
    requires k < |s.fields| && Holds(s, m, k, s.fields[k], Str(p)) && |Tag(s.fields[k].num, 2)| == 1
    requires Counted(n, s, m, k)
    ensures Counted(n', s, m, k + 1)
  {
    hide Tail, Encode, Tag, EncodeChunk, Sov;
    TailStep(s, m, k);
    ChunkSize(s.fields[k].num, p);
    n' := n;
    var l := |p|;
    if l > 0 { n' := n' + 1 + l + Sov(l); }
  }

  /** The size loop over a repeated string field. */
  method AddStringsSlot(n: nat, ps: seq<Bytes>, ghost s: Schema, ghost m: Message, ghost k: nat)
    returns (n': nat)
    requires k < |s.fields| && s.fields[k].kind == Many(Raw) && |Tag(s.fields[k].num, 2)| == 1
    requires Holds(s, m, k, s.fields[k], List(Leaves(ps))) && Counted(n, s, m, k)
    ensures Counted(n', s, m, k + 1)
  {
    hide Tail, Encode, Tag, EncodeElts, Leaves;
    TailStep(s, m, k);
    var l := SizeStrings(ps, s.fields[k].num);
    n' := n + l;
  }

  /** `if x.Time != nil { ... }` of the size code, for a foreign message. */
  method AddExternalSlot(n: nat, p: Option<Bytes>, ghost s: Schema, ghost m: Message, ghost k: nat)
    returns (n': nat)
    requires k < |s.fields| && s.fields[k].kind.One? && s.fields[k].kind.elem.Ext?
    requires Holds(s, m, k, s.fields[k], List(OptionalLeaf(p))) && |Tag(s.fields[k].num, 2)| == 1
    requires Counted(n, s, m, k)
    ensures Counted(n', s, m, k + 1)
  {
    hide Tail, Encode, Tag, EncodeChunk, EncodeField, Sov;
    TailStep(s, m, k);
    OptionalRecord(s.fields[k].num, s.fields[k].kind.elem.id, p);
    n' := n;
    if p.Some? {
      ChunkSize(s.fields[k].num, p.value);
      var l := |p.value|;
      n' := n' + 1 + l + Sov(l);
    }
  }

  lemma AllCounted(n: nat, s: Schema, m: Message)
    requires Fits(s, m) && Counted(n, s, m, |s.fields|)
    ensures n + |m.unknown| == |Encode(s, m)|
  {
    hide Encode, Tail;
    TailEnds(s, m);
  }

  // ----- reading

  function Word(w: nat): nat {
    if w == 32 then TWO_32 else TWO_64
  }

  /** The varint loop into a `w`-bit variable. */
  method ReadUint(dAtA: Slice, at: nat, w: nat) returns (err: Option<GoError>, v: nat, iNdEx: nat)
    requires at <= |dAtA| && (w == 32 || w == 64)
    ensures match ReadVarint(dAtA[at..], 0)
            case Err(f) => err == Some(f.error)
            case Ok(n) => err == None && v == n.v % Word(w) && iNdEx == at + n.len && iNdEx <= |dAtA|
  {
    hide Pow2, BitOr, ReadVarint, ShiftLeft;
    var l := |dAtA|;
    err, v, iNdEx := None, 0, at;
    var shift := 0;
    ghost var k: nat, sum: nat := 0, 0;
    Pow2Widths();
    ReadStart(dAtA[at..]);
    while true
      invariant at <= iNdEx <= l && iNdEx == at + k && shift == 7 * k && k <= 10
      invariant sum < Pow2(7 * k) && v == sum % Pow2(w) && err == None
      invariant match ReadVarint(dAtA[iNdEx..], k)
                case Err(f) => ReadVarint(dAtA[at..], 0) == Err(f)
                case Ok(n) => ReadVarint(dAtA[at..], 0) == Ok(Number(Scaled(sum, k, n.v), k + n.len))
      decreases 10 - k
    {
      ReadStops(dAtA[iNdEx..], k);
      if shift >= 64 { return Some(IntOverflow), v, iNdEx; }
      if iNdEx >= l { return Some(UnexpectedEOF), v, iNdEx; }
      var b := dAtA[iNdEx];
      ghost var rest := dAtA[iNdEx..];
      assert rest[0] == b && rest[1..] == dAtA[iNdEx + 1..];
      iNdEx := iNdEx + 1;
      AccumulateStep(sum, b % 128, shift, w);
      v := BitOr(v, ShiftLeft(b % 128, shift, w));
      NextGroup(rest, k, sum);
      sum, k := sum + b % 128 * Pow2(7 * k), k + 1;
      if b < 0x80 { return None, v, iNdEx; }
      shift := shift + 7;
    }
  }

  /** The exact sum when `k` groups add up to `sum` and the rest of the varint is `v`. */
  ghost function Scaled(sum: nat, k: nat, v: nat): nat {
    sum + v * Pow2(7 * k)
  }

  lemma ReadStart(b: Bytes)
    ensures Pow2(0) == 1
    ensures ReadVarint(b, 0).Ok? ==> Scaled(0, 0, ReadVarint(b, 0).value.v) == ReadVarint(b, 0).value.v
  {
  }

  lemma ReadStops(b: Bytes, k: nat)
    ensures k >= 10 ==> ReadVarint(b, k) == Err(Final(IntOverflow))
    ensures k < 10 && b == [] ==> ReadVarint(b, k) == Err(Final(UnexpectedEOF))
  {
  }

  /** One turn of the loop against the base-128 sum. */
  lemma NextGroup(b: Bytes, k: nat, sum: nat)
    requires b != [] && k < 10 && sum < Pow2(7 * k)
    ensures var d := b[0] % 128; var sum' := sum + d * Pow2(7 * k);
            && sum' < Pow2(7 * (k + 1))
            && (b[0] < 128 ==> ReadVarint(b, k) == Ok(Number(d, 1)) && Scaled(sum, k, d) == sum')
            && (b[0] >= 128 ==>
                  match ReadVarint(b[1..], k + 1)
                  case Err(f) => ReadVarint(b, k) == Err(f)
                  case Ok(n) =>
                    && ReadVarint(b, k) == Ok(Number(d + 128 * n.v, 1 + n.len))
                    && Scaled(sum, k, d + 128 * n.v) == Scaled(sum', k + 1, n.v))
  {
    hide Pow2;
    Pow2Widths();
    Pow2Add(7 * k, 7);
    var d, p := b[0] % 128, Pow2(7 * k);
    GroupFits(sum, d, p);
    if b[0] >= 128 && ReadVarint(b[1..], k + 1).Ok? {
      GroupShift(d, ReadVarint(b[1..], k + 1).value.v, p);
    }
  }

  lemma GroupFits(sum: nat, d: nat, p: nat)
    requires sum < p && d < 128
    ensures sum + d * p < p * 128
  {
    MulSum(d, 1, p);
    MulMonotone(d + 1, 128, p);
  }

  lemma GroupShift(d: nat, v: nat, p: nat)
    ensures (d + 128 * v) * p == d * p + v * (p * 128)
  {
    MulSum(d, 128 * v, p);
    MulAssoc(v, 128, p);
  }

  /** 64-bit two's complement addition. */
  function WrapAdd(a: int, b: int): (c: int)
    ensures -TWO_63 <= c < TWO_63
  {
    Signed((a + b) % TWO_64, TWO_63)
  }

  /** A sum of two non-negative integers either fits or turns negative. */
  lemma WrapAddCases(a: int, b: int)
    requires 0 <= a < TWO_63 && 0 <= b < TWO_63
    ensures a + b < TWO_63 ==> WrapAdd(a, b) == a + b
    ensures a + b >= TWO_63 ==> WrapAdd(a, b) < 0
  {
  }

  /** The length prefix of a string or sub-message, and the three tests that follow it. */
  method ReadExtent(dAtA: Slice, at: nat) returns (err: Option<GoError>, iNdEx: nat, postIndex: nat)
    requires at <= |dAtA|
    ensures match ReadLength(dAtA[at..])
            case Err(f) => err == Some(f.error)
            case Ok(x) =>
              var end := at + x.start + x.len;
              if end > |dAtA| then err == Some(Report(Overrun(end)))
              else err == None && iNdEx == at + x.start && postIndex == end
    ensures err == None ==> at < iNdEx <= postIndex <= |dAtA|
  {
    hide WrapAdd, ReadVarint;
    var length: nat;
    err, length, iNdEx := ReadUint(dAtA, at, 64);
    postIndex := 0;
    if err.Some? { return; }
    var intLen := Signed(length, TWO_63);
    if intLen < 0 { return Some(InvalidLength), iNdEx, 0; }
    WrapAddCases(iNdEx, intLen);
    var post := WrapAdd(iNdEx, intLen);
    if post < 0 { return Some(InvalidLength), iNdEx, 0; }
    if post > |dAtA| { return Some(UnexpectedEOF), iNdEx, 0; }
    postIndex := post;
  }

  /** The head of every turn of the parse loop: tag, field number and wire type. */
  method ReadHeader(dAtA: Slice, preIndex: nat)
    returns (err: Option<GoError>, fieldNum: int, wireType: nat, iNdEx: nat)
    requires preIndex < |dAtA|
    ensures var b := dAtA[preIndex..];
            match ReadTag(b)
            case Err(f) => err == Some(f.error)
            case Ok(h) =>
              if h.wireType == 4 then err == Some(EndGroup)
              else if h.num <= 0 then err == Some(IllegalTag(h.num, h.wire))
              else err == None && fieldNum == h.num && wireType == h.wireType && iNdEx == preIndex + h.len
  {
    var wire: nat;
    err, wire, iNdEx := ReadUint(dAtA, preIndex, 64);
    fieldNum, wireType := 0, 0;
    if err.Some? { return; }
    fieldNum := Signed(wire / 8 % TWO_32, TWO_31);
    wireType := wire % 8;
    if wireType == 4 { err := Some(EndGroup); return; }
    if fieldNum <= 0 { err := Some(IllegalTag(fieldNum, wire)); return; }
  }

  /** The header of a record that passed the tests of `ReadHeader`. */
  ghost predicate AtField(dAtA: Slice, preIndex: nat, fieldNum: int, wireType: nat, iNdEx: nat) {
    && preIndex < |dAtA| && fieldNum > 0 && wireType != 4
    && ReadTag(dAtA[preIndex..]).Ok?
    && var h := ReadTag(dAtA[preIndex..]).value;
    && h.num == fieldNum && h.wireType == wireType && iNdEx == preIndex + h.len
  }

  /** The case of a varint field in slot `i`. */
  method ReadNumberField(dAtA: Slice, ghost preIndex: nat, fieldNum: int, wireType: nat, iNdEx: nat,
                         w: nat, ghost s: Schema, ghost i: nat)
    returns (err: Option<GoError>, v: nat, next: nat)
    requires AtField(dAtA, preIndex, fieldNum, wireType, iNdEx) && (w == 32 || w == 64)
    requires i < |s.fields| && Slot(s.fields, fieldNum) == i && s.fields[i].kind.Scalar?
    ensures match Cut(s, dAtA[preIndex..])
            case Err(f) => err == Some(Report(Shift(f, preIndex)))
            case Ok(r) =>
              && err == None && r.slot == i && r.payload.Varnum?
              && v == r.payload.v % Word(w) && next == preIndex + r.len
  {
    ghost var b := dAtA[preIndex..];
    assert b[iNdEx - preIndex..] == dAtA[iNdEx..];
    v, next := 0, iNdEx;
    if wireType != 0 { return Some(WrongWireType(fieldNum, wireType)), v, next; }
    CutKnown(s, b, ReadTag(b).value, i);
    err, v, next := ReadUint(dAtA, iNdEx, w);
  }

  lemma SliceOfTail(d: Bytes, a: nat, from: nat, to: nat)
    requires a <= from <= to <= |d|
    ensures d[a..][from - a..to - a] == d[from..to]
  {
  }

  /** The case of a length-delimited field in slot `i`. */
  method ReadChunkField(dAtA: Slice, ghost preIndex: nat, fieldNum: int, wireType: nat, iNdEx: nat,
                        ghost s: Schema, ghost i: nat)
    returns (err: Option<GoError>, p: Slice, next: nat)
    requires AtField(dAtA, preIndex, fieldNum, wireType, iNdEx)
    requires i < |s.fields| && Slot(s.fields, fieldNum) == i && !s.fields[i].kind.Scalar?
    ensures match Cut(s, dAtA[preIndex..])
            case Err(f) => err == Some(Report(Shift(f, preIndex)))
            case Ok(r) =>
              err == None && r == Record(i, Chunk(p), r.len) && next == preIndex + r.len
    ensures err == None ==> |p| < |dAtA|
  {
    hide ReadVarint, ReadLength;
    ghost var b := dAtA[preIndex..];
    assert b[iNdEx - preIndex..] == dAtA[iNdEx..];
    p, next := [], iNdEx;
    if wireType != 2 { return Some(WrongWireType(fieldNum, wireType)), p, next; }
    CutKnown(s, b, ReadTag(b).value, i);
    var from: nat;
    err, from, next := ReadExtent(dAtA, iNdEx);
    if err.Some? { return; }
    p := dAtA[from..next];
    SliceOfTail(dAtA, preIndex, from, next);
  }

  /** The default case: skip the field, and keep its bytes unless told to discard them. */
  method ReadUnknown(dAtA: Slice, preIndex: nat, ghost fieldNum: int, ghost wireType: nat, ghost iNdEx: nat,
                     ghost s: Schema)
    returns (err: Option<GoError>, raw: Bytes, next: nat)
    requires AtField(dAtA, preIndex, fieldNum, wireType, iNdEx)
    requires Slot(s.fields, fieldNum) == -1
    ensures match Cut(s, dAtA[preIndex..])
            case Err(f) => err == Some(Report(Shift(f, preIndex)))
            case Ok(r) =>
              err == None && r == Record(-1, Whole(raw), r.len) && next == preIndex + r.len
  {
    hide WrapAdd, Skip, ReadVarint;
    raw, next := [], preIndex;
    var skipped := Skip(dAtA[preIndex..], 0, 0);
    if skipped.Err? { return Some(skipped.fault.error), raw, next; }
    var skippy := skipped.value;
    assert skippy < TWO_63 by { SkipBounded(dAtA[preIndex..], 0, 0); }
    WrapAddCases(preIndex, skippy);
    var end := WrapAdd(preIndex, skippy);
    if skippy < 0 || end < 0 { return Some(InvalidLength), raw, next; }
    if end > |dAtA| { return Some(UnexpectedEOF), raw, next; }
    err, raw, next := None, dAtA[preIndex..end], end;
    assert dAtA[preIndex..][..skippy] == raw;
  }

  lemma {:induction false} SkipBounded(b: Bytes, at: nat, depth: nat)
    ensures Skip(b, at, depth).Ok? ==> Skip(b, at, depth).value < TWO_63
    decreases |b|
  {
    hide ReadItem;
    if b != [] && Skip(b, at, depth).Ok? {
      SkipStep(b, at, depth);
      var x := ReadItem(b).value;
      var inner := DepthAfter(depth, x.wireType);
      if inner > 0 { SkipBounded(b[x.len..], at + x.len, inner); }
    }
  }

  // ----- schemas whose fields are numbered 1, 2, 3, ...

  ghost predicate Consecutive(s: Schema) {
    forall i :: 0 <= i < |s.fields| ==> s.fields[i].num == i + 1
  }

  lemma ConsecutiveSlot(s: Schema, num: int)
    requires Consecutive(s)
    ensures Slot(s.fields, num) == (if 1 <= num <= |s.fields| then num - 1 else -1)
  {
    if 1 <= num <= |s.fields| {
      assert s.fields[num - 1] in s.fields;
    }
  }

  // ----- fields of a message object

  lemma TrueIsTwoBytes(num: nat)
    requires 1 <= num <= 15
    ensures EncodeNumber(num, 1) == [num * 8, 1]
  {
    assert ToWire(1) == 1;
  }

  lemma UnknownFits(s: Schema, m: Message)
    ensures |m.unknown| <= |Encode(s, m)|
  {
  }

  /** A nullable foreign message is written as one record or none. */
  lemma OptionalRecord(num: nat, id: nat, p: Option<Bytes>)
    ensures EncodeField(Field(num, One(Ext(id))), List(OptionalLeaf(p)))
            == (if p.Some? then EncodeChunk(num, p.value) else [])
  {
    hide EncodeChunk;
    NoElts(num, Ext(id));
    if p.Some? {
      assert [Leaf(p.value)][1..] == [];
      assert EncodeElts(num, Ext(id), [Leaf(p.value)]) == EncodeChunk(num, p.value) + [];
    }
  }

  lemma ExternalUpdate(o: Options, id: nat, prev: Option<Bytes>, p: Bytes)
    ensures var c := o.ext(id, o.discardUnknown, if o.merge then prev else None, p);
            Update(o, One(Ext(id)), List(OptionalLeaf(prev)), Chunk(p))
            == (if c.Some? then Ok(List([Leaf(c.value)])) else Err(Final(External)))
  {
    var kept := if o.merge && OptionalLeaf(prev) != [] then Some(OptionalLeaf(prev)[0]) else None;
    assert LeafBytes(kept) == (if o.merge then prev else None);
  }

  /** `options.Unmarshal` into a foreign message. */
  method UnmarshalExternal(o: Options, id: nat, prev: Option<Bytes>, p: Bytes)
    returns (err: Option<GoError>, value: Option<Bytes>)
    ensures match Update(o, One(Ext(id)), List(OptionalLeaf(prev)), Chunk(p))
            case Err(f) => err == Some(Report(f))
            case Ok(v) => err == None && v == List(OptionalLeaf(value))
    ensures value == o.ext(id, o.discardUnknown, if o.merge then prev else None, p) && (err == None <==> value.Some?)
  {
    value := o.ext(id, o.discardUnknown, if o.merge then prev else None, p);
    err := if value.Some? then None else Some(External);
    ExternalUpdate(o, id, prev, p);
  }

  lemma UpdateNum(o: Options, t: ScalarType, w: Value, v: nat)
    ensures Update(o, Scalar(t), w, Varnum(v)) == Ok(Num(FromWire(t, v)))
  {
  }

  lemma UpdateStrings(o: Options, ps: seq<Bytes>, p: Bytes)
    ensures Update(o, Many(Raw), List(Leaves(ps)), Chunk(p)) == Ok(List(Leaves(ps + [p])))
  {
    assert Leaves(ps + [p]) == Leaves(ps) + [Leaf(p)];
  }

  // ----- the parse loop

  /** The messages agree everywhere but in slot `i`. */
  ghost predicate SameBut(m: Message, m': Message, i: int) {
    0 <= i < |m.values| == |m'.values| && m' == With(m, i, m'.values[i])
  }

  /** The messages agree everywhere but in the field that the tag in front of `b` names, if it names
      one that the schema knows. */
  ghost predicate SameButTagged(s: Schema, m: Message, m': Message, b: Bytes) {
    m' == m || (ReadTag(b).Ok? && SameBut(m, m', Slot(s.fields, ReadTag(b).value.num)))
  }

  /** What one turn of the loop does to a message `m` at `preIndex`. If the record is refused, at most
      its own field changes. */
  ghost predicate Turned(s: Schema, o: Options, m: Message, dAtA: Slice, preIndex: nat,
                         err: Option<GoError>, m': Message, next: nat)
    requires Fits(s, m) && preIndex < |dAtA|
  {
    match Cut(s, dAtA[preIndex..])
    case Err(f) => err == Some(Report(Shift(f, preIndex))) && SameButTagged(s, m, m', dAtA[preIndex..])
    case Ok(r) =>
      match Absorb(s, o, m, r)
      case Err(f) => err == Some(Report(f)) && SameBut(m, m', r.slot)
      case Ok(y) => err == None && m' == y && next == preIndex + r.len
  }

  /** What an error leaves behind: the records in front of `k` are absorbed, and at most the field of
      the refused record there differs from that. */
  ghost predicate Stopped(s: Schema, o: Options, m: Message, dAtA: Slice, m': Message, k: nat)
    requires Fits(s, m)
  {
    && k < |dAtA|
    && match Decode(s, o, m, dAtA[..k])
       case Err(_) => false
       case Ok(y) =>
         match Cut(s, dAtA[k..])
         case Err(_) => SameButTagged(s, y, m', dAtA[k..])
         case Ok(r) => Absorb(s, o, y, r).Err? && SameBut(y, m', r.slot)
  }

  /** What the whole loop does. */
  ghost predicate Unmarshalled(s: Schema, o: Options, m: Message, dAtA: Slice,
                               err: Option<GoError>, m': Message)
    requires Fits(s, m)
  {
    match Decode(s, o, m, dAtA)
    case Err(f) => err == Some(Report(f)) && exists k: nat :: Stopped(s, o, m, dAtA, m', k)
    case Ok(y) => err == None && m' == y
  }

  lemma HeaderFails(s: Schema, b: Bytes)
    requires b != []
    ensures match ReadTag(b)
            case Err(f) => Cut(s, b) == Err(f) && f.Final?
            case Ok(h) =>
              && (h.wireType == 4 ==> Cut(s, b) == Err(Final(EndGroup)))
              && (h.wireType != 4 && h.num <= 0 ==> Cut(s, b) == Err(Final(IllegalTag(h.num, h.wire))))
  {
  }

  /** One turn of the loop, `m` being what the bytes in front of `preIndex` made of `m0`. */
  lemma Turn(s: Schema, o: Options, m0: Message, m: Message, dAtA: Slice, preIndex: nat,
             err: Option<GoError>, m': Message, next: nat)
    requires Fits(s, m0) && Fits(s, m) && Fits(s, m') && preIndex < |dAtA|
    requires Decode(s, o, m0, dAtA[..preIndex]) == Ok(m)
    requires Turned(s, o, m, dAtA, preIndex, err, m', next)
    ensures err.Some? ==> Unmarshalled(s, o, m0, dAtA, err, m')
    ensures err.None? ==> preIndex < next <= |dAtA| && Decode(s, o, m0, dAtA[..next]) == Ok(m')
  {
    hide Cut, Absorb, Decode;
    var b := dAtA[preIndex..];
    if err.Some? {
      assert dAtA[..preIndex] + b == dAtA;
      Concatenation(s, o, m0, dAtA[..preIndex], b);
      if Cut(s, b).Ok? {
        CutWhole(s, b);
        AbsorbFinal(s, o, m, b);
        DecodeStep(s, o, m, b, Cut(s, b).value);
      } else {
        DecodeCutFails(s, o, m, b);
      }
      assert Stopped(s, o, m0, dAtA, m', preIndex);
    } else {
      CutWhole(s, b);
      var p := b[..Cut(s, b).value.len];
      assert p + [] == p;
      CutAlone(s, b);
      DecodeFront(s, o, m, p, [], Cut(s, b).value, m');
      DecodeNothing(s, o, m');
      assert dAtA[..preIndex] + p == dAtA[..next];
      Concatenation(s, o, m0, dAtA[..preIndex], p);
    }
  }

  lemma LoopStarts(s: Schema, o: Options, m: Message, dAtA: Slice)
    requires Fits(s, m)
    ensures Decode(s, o, m, dAtA[..0]) == Ok(m)
  {
    assert dAtA[..0] == [];
    DecodeNothing(s, o, m);
  }
}
