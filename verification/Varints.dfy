/**
 Base 128 varints, as section "Base 128 Varints" of the Protocol Buffers Encoding guide defines
 them: the writer and its length, the reader of the generated parse loops, and the bit-level
 accumulation (`|=` of shifted seven-bit groups) that those loops perform.
 */
module Varints {

  type Byte = x: int | 0 <= x < 256
  type Bytes = seq<Byte>

  const TWO_31: int := 0x8000_0000
  const TWO_32: int := 0x1_0000_0000
  const TWO_63: int := 0x8000_0000_0000_0000
  const TWO_64: int := 0x1_0000_0000_0000_0000

  /** The error values that the generated parsers return. */
  datatype GoError =
    | IntOverflow
    | UnexpectedEOF
    | InvalidLength
    | EndGroup
    | IllegalTag(num: int, wire: nat)
    | WrongWireType(num: int, wireType: nat)
    | IllegalWireType(wireType: nat)
    | UnexpectedEndOfGroup
    | External

  /** Why a parse stops. `Overrun(end)` is a record whose declared end, counted from the start of
      the buffer and without wrap-around, lies beyond the buffer; every other cause is final. */
  datatype Fault = Overrun(end: nat) | Final(error: GoError)

  datatype Result<+T> = Ok(value: T) | Err(fault: Fault)

  /** The error the program returns for a fault: `postIndex` wraps to a negative 64-bit integer,
      or else it exceeds the buffer length. */
  function Report(f: Fault): GoError {
    match f
    case Overrun(end) => if end >= TWO_63 then InvalidLength else UnexpectedEOF
    case Final(e) => e
  }

  /** The same fault seen from a buffer that starts `k` bytes earlier. */
  function Shift(f: Fault, k: nat): Fault {
    match f
    case Overrun(end) => Overrun(end + k)
    case Final(_) => f
  }

  // ----- writing

  function Varint(v: nat): (b: Bytes)
    ensures |b| > 0
  {
    if v < 128 then [v] else [v % 128 + 128] + Varint(v / 128)
  }

  /** Number of significant bits. */
  function BitLen(v: nat): nat {
    if v == 0 then 0 else 1 + BitLen(v / 2)
  }

  /** Encoded length of a varint: seven bits per byte, and one byte for zero. */
  function Sov(v: nat): nat {
    (BitLen(if v == 0 then 1 else v) + 6) / 7
  }

  lemma {:induction false} BitLenDiv128(v: nat)
    requires v >= 128
    ensures BitLen(v) == 7 + BitLen(v / 128)
  {
    assert BitLen(v) == 1 + BitLen(v / 2);
    assert BitLen(v / 2) == 1 + BitLen(v / 2 / 2);
    var q := v / 4;
    assert v / 2 / 2 == q && BitLen(v) == 2 + BitLen(q);
    assert BitLen(q) == 1 + BitLen(q / 2);
    assert BitLen(q / 2) == 1 + BitLen(q / 2 / 2);
    var p := v / 16;
    assert q / 2 / 2 == p && BitLen(v) == 4 + BitLen(p);
    assert BitLen(p) == 1 + BitLen(p / 2);
    assert BitLen(p / 2) == 1 + BitLen(p / 2 / 2);
    var o := v / 64;
    assert p / 2 / 2 == o && BitLen(v) == 6 + BitLen(o);
    assert o / 2 == v / 128;
  }

  lemma {:induction false} SmallBitLen(v: nat)
    requires 0 < v < 128
    ensures 1 <= BitLen(v) <= 7
  {
    BitLenBound(v, 7);
  }

  lemma {:induction false} BitLenBound(v: nat, k: nat)
    requires v < Pow2(k)
    ensures BitLen(v) <= k
  {
    if v > 0 {
      assert k > 0;
      BitLenBound(v / 2, k - 1);
    }
  }

  /** A number between two powers of two has that many bits. */
  lemma {:induction false} BitLenExact(v: nat, k: nat)
    requires Pow2(k) <= v < Pow2(k + 1)
    ensures BitLen(v) == k + 1
  {
    if k > 0 { BitLenExact(v / 2, k - 1); }
  }

  /** `Sov` is the length of the varint. */
  lemma {:induction false} SovIsLength(v: nat)
    ensures |Varint(v)| == Sov(v)
  {
    if v < 128 {
      if v > 0 { SmallBitLen(v); } else { assert BitLen(1) == 1 + BitLen(0); }
    } else {
      SovIsLength(v / 128);
      BitLenDiv128(v);
    }
  }

  // ----- powers of two and the base-128 sum

  function Pow2(k: nat): (p: nat)
    ensures p > 0
  {
    if k == 0 then 1 else 2 * Pow2(k - 1)
  }

  lemma {:induction false} Pow2Add(a: nat, b: nat)
    ensures Pow2(a + b) == Pow2(a) * Pow2(b)
  {
    if a > 0 { Pow2Add(a - 1, b); }
  }

  lemma Pow2Widths()
    ensures Pow2(7) == 128
    ensures Pow2(32) == TWO_32 && Pow2(64) == TWO_64
  {
    assert Pow2(8) == 256;
    Pow2Add(8, 8);
    Pow2Add(16, 16);
    Pow2Add(32, 32);
  }

  // ----- reading

  /** A varint read from the front of a byte string: the base-128 sum of its groups, not yet
      truncated to any machine width, and the number of bytes it occupies. */
  datatype Number = Number(v: nat, len: nat)

  /** The parse loop, after `k` continuation bytes (so the shift is `7 * k`). */
  function ReadVarint(b: Bytes, k: nat): (r: Result<Number>)
    ensures r.Ok? ==> 0 < r.value.len <= |b| && k + r.value.len <= 10
    ensures r.Err? ==> r.fault.Final?
  {
    if k >= 10 then Err(Final(IntOverflow))
    else if b == [] then Err(Final(UnexpectedEOF))
    else if b[0] < 128 then Ok(Number(b[0], 1))
    else
      match ReadVarint(b[1..], k + 1)
      case Err(e) => Err(e)
      case Ok(n) => Ok(Number(b[0] - 128 + 128 * n.v, 1 + n.len))
  }

  /** The reader inverts the writer and looks at no byte beyond the varint. */
  lemma {:induction false} VarintRoundTrip(v: nat, rest: Bytes, k: nat)
    requires k + |Varint(v)| <= 10
    ensures ReadVarint(Varint(v) + rest, k) == Ok(Number(v, |Varint(v)|))
  {
    var b := Varint(v) + rest;
    if v >= 128 {
      assert b[1..] == Varint(v / 128) + rest;
      VarintRoundTrip(v / 128, rest, k + 1);
    }
  }

  lemma {:induction false} VarintLengthMonotone(v: nat, w: nat)
    requires v <= w
    ensures |Varint(v)| <= |Varint(w)|
  {
    if v >= 128 { VarintLengthMonotone(v / 128, w / 128); }
  }

  /** A 64-bit value takes at most ten bytes. */
  lemma VarintAtMostTen(v: nat)
    requires v < TWO_64
    ensures |Varint(v)| <= 10
  {
    SovIsLength(v);
    Pow2Widths();
    if v > 0 { BitLenBound(v, 64); } else { BitLenBound(1, 64); }
  }

  /** What is read depends only on the bytes consumed. */
  lemma {:induction false} ReadVarintLocal(b: Bytes, b': Bytes, k: nat)
    requires ReadVarint(b, k).Ok?
    requires var n := ReadVarint(b, k).value.len; n <= |b'| && b'[..n] == b[..n]
    ensures ReadVarint(b', k) == ReadVarint(b, k)
  {
    var n := ReadVarint(b, k).value.len;
    assert b'[0] == b'[..n][0] == b[..n][0] == b[0];
    if b[0] >= 128 {
      assert b'[1..][..n - 1] == b'[..n][1..] == b[..n][1..] == b[1..][..n - 1];
      ReadVarintLocal(b[1..], b'[1..], k + 1);
    }
  }

  /** Rejection, exactly: a varint is refused if and only if the next `10 - k` bytes all carry the
      continuation bit (overflow), or the buffer ends inside such a run (truncation). */
  lemma {:induction false} ReadVarintRejects(b: Bytes, k: nat)
    requires k <= 10
    ensures ReadVarint(b, k) == Err(Final(IntOverflow)) <==>
            |b| >= 10 - k && forall j :: 0 <= j < 10 - k ==> b[j] >= 128
    ensures ReadVarint(b, k) == Err(Final(UnexpectedEOF)) <==>
            |b| < 10 - k && forall j :: 0 <= j < |b| ==> b[j] >= 128
    ensures ReadVarint(b, k).Err? ==>
            ReadVarint(b, k).fault in {Final(IntOverflow), Final(UnexpectedEOF)}
  {
    if k < 10 && b != [] && b[0] >= 128 {
      ReadVarintRejects(b[1..], k + 1);
      assert forall j :: 1 <= j < |b| ==> b[j] == b[1..][j - 1];
      assert forall j :: 0 <= j < |b| - 1 ==> b[1..][j] == b[j + 1];
    }
  }

  /** No shorter byte string is read as the same number: the writer is the shortest form. */
  lemma {:induction false} ShortestForm(b: Bytes, k: nat)
    requires ReadVarint(b, k).Ok?
    ensures |Varint(ReadVarint(b, k).value.v)| <= ReadVarint(b, k).value.len
  {
    if b[0] >= 128 {
      ShortestForm(b[1..], k + 1);
      var n := ReadVarint(b[1..], k + 1).value;
      var v := b[0] - 128 + 128 * n.v;
      if v >= 128 { assert v / 128 == n.v; }
    }
  }

  // ----- bit-level accumulation

  /** Bitwise or on the naturals. */
  function BitOr(a: nat, b: nat): nat
    decreases a + b
  {
    if a == 0 && b == 0 then 0
    else (if a % 2 == 1 || b % 2 == 1 then 1 else 0) + 2 * BitOr(a / 2, b / 2)
  }

  /** `x << s` in an unsigned word of `w` bits. */
  function ShiftLeft(x: nat, s: nat, w: nat): nat {
    x * Pow2(s) % Pow2(w)
  }

  lemma {:induction false} OrZero(b: nat)
    ensures BitOr(0, b) == b && BitOr(b, 0) == b
  {
    if b > 0 { OrZero(b / 2); }
  }

  /** On disjoint bit ranges `|` is addition. */
  lemma {:induction false} OrIsAdd(a: nat, y: nat, s: nat)
    requires a < Pow2(s)
    ensures BitOr(a, y * Pow2(s)) == a + y * Pow2(s)
  {
    if s == 0 {
      OrZero(y);
    } else {
      var h := y * Pow2(s - 1);
      assert y * Pow2(s) == 2 * h;
      OrIsAdd(a / 2, y, s - 1);
      assert BitOr(a / 2, h) == a / 2 + h;
      if a == 0 && h == 0 {
        assert BitOr(a, 2 * h) == 0;
      } else {
        assert BitOr(a, 2 * h) == a % 2 + 2 * BitOr(a / 2, h);
      }
    }
  }

  lemma MulGrows(k: int, m: nat)
    requires k >= 1
    ensures k * m >= m
  {
  }

  lemma MulDiff(a: int, b: int, m: int)
    ensures (a - b) * m == a * m - b * m
  {
  }

  lemma MulSum(a: int, b: int, m: int)
    ensures (a + b) * m == a * m + b * m
  {
  }

  lemma MulAssoc(a: int, b: int, c: int)
    ensures a * b * c == a * (b * c)
  {
  }

  /** Adding a multiple of the modulus changes nothing. */
  lemma ModMultiple(x: nat, q: nat, m: nat)
    requires x < m
    ensures (x + q * m) % m == x
  {
    var n := x + q * m;
    var q', r := n / m, n % m;
    assert n == q' * m + r;
    MulDiff(q, q', m);
    if q > q' {
      MulGrows(q - q', m);
    } else if q < q' {
      MulDiff(q', q, m);
      MulGrows(q' - q, m);
    }
  }

  /** One turn of the accumulation loop in a `w`-bit word: or-ing in the next group truncates the
      exact base-128 sum. */
  lemma AccumulateStep(sum: nat, d: nat, s: nat, w: nat)
    requires sum < Pow2(s)
    ensures BitOr(sum % Pow2(w), ShiftLeft(d, s, w)) == (sum + d * Pow2(s)) % Pow2(w)
  {
    if s >= w { AccumulateBeyond(sum, d, s, w); } else { AccumulateWithin(sum, d, s, w); }
  }

  /** Groups shifted out of the word vanish. */
  lemma AccumulateBeyond(sum: nat, d: nat, s: nat, w: nat)
    requires w <= s
    ensures BitOr(sum % Pow2(w), ShiftLeft(d, s, w)) == (sum + d * Pow2(s)) % Pow2(w)
  {
    var m, q := Pow2(w), d * Pow2(s - w);
    assert d * Pow2(s) == q * m by {
      Pow2Add(w, s - w);
      MulAssoc(d, Pow2(s - w), m);
    }
    AddMultiple(sum, q, m);
    OrZero(sum % m);
  }

  lemma AddMultiple(n: nat, q: nat, m: nat)
    requires m > 0
    ensures (q * m) % m == 0 && (n + q * m) % m == n % m
  {
    ModMultiple(0, q, m);
    var r, k := n % m, n / m;
    assert n == k * m + r;
    MulSum(k, q, m);
    ModMultiple(r, k + q, m);
  }

  /** Groups inside the word, or straddling its end, are added and truncated. */
  lemma AccumulateWithin(sum: nat, d: nat, s: nat, w: nat)
    requires s < w && sum < Pow2(s)
    ensures BitOr(sum % Pow2(w), ShiftLeft(d, s, w)) == (sum + d * Pow2(s)) % Pow2(w)
  {
    Pow2Add(s, w - s);
    TruncateGroup(sum, d, Pow2(s), Pow2(w - s));
    OrIsAdd(sum, d % Pow2(w - s), s);
  }

  lemma TruncateGroup(sum: nat, d: nat, p: nat, g: nat)
    requires sum < p && g > 0 && p * g > 0
    ensures d * p % (p * g) == d % g * p
    ensures sum % (p * g) == sum
    ensures (sum + d * p) % (p * g) == sum + d % g * p
  {
    var m, dq, dr := p * g, d / g, d % g;
    var low := dr * p;
    assert d * p == low + dq * m by {
      assert d == dq * g + dr;
      MulSum(dq * g, dr, p);
      MulAssoc(dq, g, p);
    }
    assert low + p <= m by { MulSum(dr, 1, p); MulMonotone(dr + 1, g, p); }
    ModMultiple(low, dq, m);
    ModMultiple(sum + low, dq, m);
    ModMultiple(sum, 0, m);
  }

  lemma MulMonotone(a: nat, b: nat, p: nat)
    requires a <= b
    ensures a * p <= p * b
  {
    MulDiff(b, a, p);
    if a < b { MulGrows(b - a, p); }
  }
}
