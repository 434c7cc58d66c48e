/**
 Message descriptions and message values. A schema lists the fields of a message in the order in
 which the generated code writes them; a value has one slot per field, plus the bytes of the
 records its reader did not know.
 */
module Schemas {
  import opened Varints

  datatype Option<+T> = None | Some(value: T)

  datatype ScalarType = U64 | U32 | I64 | I32 | Enum | Bool

  /** The payload of a length-delimited record: raw bytes, a message whose codec is described by a
      schema, or a message with a foreign codec (Timestamp, Duration, Coin). */
  datatype Elem = Raw | Sub(schema: Schema) | Ext(id: nat)

  /** `Text` is a string with no presence, `One` a nullable field, `Many` a repeated field. */
  datatype Kind = Scalar(t: ScalarType) | Text | One(elem: Elem) | Many(elem: Elem)

  datatype Field = Field(num: nat, kind: Kind)

  datatype Schema = Schema(fields: seq<Field>)

  datatype Elt = Leaf(bytes: Bytes) | Node(msg: Message)

  /** A nullable field is a list of at most one element. */
  datatype Value = Num(n: int) | Str(text: Bytes) | List(elts: seq<Elt>)

  datatype Message = Message(values: seq<Value>, unknown: Bytes)

  /** Largest field number that Protocol Buffers allows. */
  const MAX_FIELD_NUMBER: int := 0x1FFF_FFFF

  // ----- schemas

  ghost predicate ValidSchema(s: Schema) {
    && (forall f | f in s.fields :: 0 < f.num <= MAX_FIELD_NUMBER && ValidKind(f.kind))
    && (forall i, j :: 0 <= i < j < |s.fields| ==> s.fields[i].num != s.fields[j].num)
  }

  ghost predicate ValidKind(k: Kind) {
    match k
    case Scalar(_) => true
    case Text => true
    case One(e) => ValidElem(e)
    case Many(e) => ValidElem(e)
  }

  ghost predicate ValidElem(e: Elem) {
    e.Sub? ==> ValidSchema(e.schema)
  }

  function WireType(k: Kind): nat {
    if k.Scalar? then 0 else 2
  }

  /** The slot of a field number, or -1 when the schema does not have it. */
  function Slot(fs: seq<Field>, num: int): (i: int)
    ensures -1 <= i < |fs|
    ensures i >= 0 ==> fs[i].num == num
    ensures i == -1 ==> forall f | f in fs :: f.num != num
  {
    if fs == [] then -1
    else
      var last := |fs| - 1;
      if fs[last].num == num then last
      else
        var i := Slot(fs[..last], num);
        assert i == -1 ==> forall f | f in fs :: f in fs[..last] || f == fs[last];
        i
  }

  lemma SlotOf(s: Schema, i: nat)
    requires ValidSchema(s) && i < |s.fields|
    ensures Slot(s.fields, s.fields[i].num) == i
  {
    var j := Slot(s.fields, s.fields[i].num);
    assert s.fields[i] in s.fields;
  }

  // ----- values

  function Default(k: Kind): Value {
    match k
    case Scalar(_) => Num(0)
    case Text => Str([])
    case One(_) => List([])
    case Many(_) => List([])
  }

  function Empty(s: Schema): (m: Message)
    ensures Fits(s, m)
  {
    Message(seq(|s.fields|, i requires 0 <= i < |s.fields| => Default(s.fields[i].kind)), [])
  }

  predicate Fits(s: Schema, m: Message) {
    |m.values| == |s.fields|
  }

  /** The value has the form that the field's kind calls for. */
  predicate Shaped(k: Kind, v: Value) {
    match k
    case Scalar(_) => v.Num?
    case Text => v.Str?
    case One(_) => v.List?
    case Many(_) => v.List?
  }

  /** Every slot has the form its kind calls for. */
  predicate AllShaped(s: Schema, m: Message) {
    Fits(s, m) && forall i :: 0 <= i < |s.fields| ==> Shaped(s.fields[i].kind, m.values[i])
  }

  predicate InRange(t: ScalarType, n: int) {
    match t
    case U64 => 0 <= n < TWO_64
    case U32 => 0 <= n < TWO_32
    case I64 => -TWO_63 <= n < TWO_63
    case I32 => -TWO_31 <= n < TWO_31
    case Enum => -TWO_31 <= n < TWO_31
    case Bool => 0 <= n <= 1
  }

  function Signed(v: nat, half: nat): int {
    if v < half then v else v - 2 * half
  }

  /** The Go conversion `uint64(n)`: negative numbers are sign-extended to 64 bits. */
  function ToWire(n: int): nat {
    n % TWO_64
  }

  /** Truncation of a base-128 sum to the field's machine type. */
  function FromWire(t: ScalarType, v: nat): int {
    match t
    case U64 => v % TWO_64
    case U32 => v % TWO_32
    case I64 => Signed(v % TWO_64, TWO_63)
    case I32 => Signed(v % TWO_32, TWO_31)
    case Enum => Signed(v % TWO_32, TWO_31)
    case Bool => if v % TWO_64 != 0 then 1 else 0
  }

  lemma ScalarRoundTrip(t: ScalarType, n: int)
    requires InRange(t, n)
    ensures FromWire(t, ToWire(n)) == n
  {
    SignExtension(n);
    if t.I32? || t.Enum? { SignTruncation(n); }
  }

  lemma SignExtension(n: int)
    requires -TWO_63 <= n < TWO_64
    ensures ToWire(n) == (if n < 0 then n + TWO_64 else n)
  {
  }

  /** The low 32 bits of a sign-extended 32-bit value are the value again. */
  lemma SignTruncation(n: int)
    requires -TWO_31 <= n < TWO_31
    ensures (if n < 0 then n + TWO_64 else n) % TWO_32 == (if n < 0 then n + TWO_32 else n)
  {
    if n < 0 { assert n + TWO_64 == (n + TWO_32) + (TWO_32 - 1) * TWO_32; }
  }

  lemma FromWireInRange(t: ScalarType, v: nat)
    ensures InRange(t, FromWire(t, v))
  {
  }
}
