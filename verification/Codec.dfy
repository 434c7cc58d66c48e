/**
 The codec of a message described by a schema: `Encode` is what the generated `marshal` leaves in
 its buffer, `Decode` what the generated `unmarshal` makes of a buffer and the message it is given.
 */
module Codec {
  import opened Varints
  import opened Schemas
  import opened Records

  /** The options that `unmarshal` hands down to sub-messages. `merge` says whether a second
      occurrence of a singular sub-message is merged into the first or replaces it. A message with
      a foreign codec is represented by its canonical encoding, and `ext` decodes it: given the
      message's identity, whether to discard unknown fields, the value to merge into and the
      payload, it yields the new value. */
  datatype Options = Options(
    merge: bool,
    discardUnknown: bool,
    ext: (nat, bool, Option<Bytes>, Bytes) -> Option<Bytes>)

  /** The law asked of foreign codecs: what they decode, they encode to something that decodes
      to the same value. */
  ghost predicate LawfulExt(o: Options) {
    forall id, d, prev, b :: o.ext(id, d, prev, b).Some? ==>
      o.ext(id, d, None, o.ext(id, d, prev, b).value) == o.ext(id, d, prev, b)
  }

  // ----- encoding

  function Tag(num: nat, wireType: nat): (b: Bytes)
    ensures |b| > 0
  {
    Varint(num * 8 + wireType)
  }

  function EncodeChunk(num: nat, p: Bytes): Bytes {
    Tag(num, 2) + Varint(|p|) + p
  }

  function EncodeNumber(num: nat, n: int): Bytes {
    Tag(num, 0) + Varint(ToWire(n))
  }

  function EncodeElt(e: Elem, x: Elt): Bytes
    decreases x
  {
    match x
    case Leaf(p) => p
    case Node(m) => if e.Sub? then Encode(e.schema, m) else []
  }

  function EncodeElts(num: nat, e: Elem, xs: seq<Elt>): Bytes
    decreases xs
  {
    if xs == [] then [] else EncodeChunk(num, EncodeElt(e, xs[0])) + EncodeElts(num, e, xs[1..])
  }

  function EncodeField(f: Field, v: Value): Bytes
    decreases v
  {
    match v
    case Num(n) => if n == 0 then [] else EncodeNumber(f.num, n)
    case Str(p) => if p == [] then [] else EncodeChunk(f.num, p)
    case List(xs) => if f.kind.One? || f.kind.Many? then EncodeElts(f.num, f.kind.elem, xs) else []
  }

  /** The records of the fields from slot `k` on. */
  function EncodeFrom(s: Schema, m: Message, k: nat): Bytes
    requires k <= |s.fields|
    decreases m, |s.fields| - k
  {
    if k == |s.fields| || k >= |m.values| then []
    else EncodeField(s.fields[k], m.values[k]) + EncodeFrom(s, m, k + 1)
  }

  function Encode(s: Schema, m: Message): Bytes
    decreases m, |s.fields| + 1
  {
    EncodeFrom(s, m, 0) + m.unknown
  }

  // ----- decoding

  function ChunkLen(p: Payload): nat {
    if p.Chunk? then |p.bytes| else 0
  }

  /** The foreign value to merge into, if there is one. */
  function LeafBytes(x: Option<Elt>): Option<Bytes> {
    if x.Some? && x.value.Leaf? then Some(x.value.bytes) else None
  }

  function DecodeElt(o: Options, e: Elem, prev: Option<Elt>, p: Bytes): (r: Result<Elt>)
    ensures r.Err? ==> r.fault.Final?
    decreases |p|, 4
  {
    match e
    case Raw => Ok(Leaf(p))
    case Ext(id) =>
      (match o.ext(id, o.discardUnknown, LeafBytes(prev), p)
       case None => Err(Final(External))
       case Some(c) => Ok(Leaf(c)))
    case Sub(s) =>
      var start :=
        if prev.Some? && prev.value.Node? && Fits(s, prev.value.msg) then prev.value.msg else Empty(s);
      match Decode(s, o, start, p)
      case Err(f) => Err(Final(Report(f)))
      case Ok(m) => Ok(Node(m))
  }

  /** The new value of a field after one more of its records. */
  function Update(o: Options, k: Kind, v: Value, p: Payload): (r: Result<Value>)
    ensures r.Err? ==> r.fault.Final?
    decreases ChunkLen(p), 5
  {
    var bytes := if p.Chunk? then p.bytes else [];
    match k
    case Scalar(t) => Ok(Num(FromWire(t, if p.Varnum? then p.v else 0)))
    case Text => Ok(Str(bytes))
    case One(e) =>
      var prev := if o.merge && v.List? && v.elts != [] then Some(v.elts[0]) else None;
      (match DecodeElt(o, e, prev, bytes)
       case Err(f) => Err(f)
       case Ok(x) => Ok(List([x])))
    case Many(e) =>
      match DecodeElt(o, e, None, bytes)
      case Err(f) => Err(f)
      case Ok(x) => Ok(List((if v.List? then v.elts else []) + [x]))
  }

  /** The message after one more record. */
  function Absorb(s: Schema, o: Options, x: Message, r: Record): (y: Result<Message>)
    requires Fits(s, x) && -1 <= r.slot < |s.fields|
    ensures y.Ok? ==> Fits(s, y.value)
    ensures y.Err? ==> y.fault.Final?
    decreases ChunkLen(r.payload), 6
  {
    if r.slot == -1 then
      if o.discardUnknown || !r.payload.Whole? then Ok(x)
      else Ok(x.(unknown := x.unknown + r.payload.bytes))
    else
      match Update(o, s.fields[r.slot].kind, x.values[r.slot], r.payload)
      case Err(f) => Err(f)
      case Ok(v) => Ok(x.(values := x.values[r.slot := v]))
  }

  function Decode(s: Schema, o: Options, x: Message, b: Bytes): (y: Result<Message>)
    requires Fits(s, x)
    ensures y.Ok? ==> Fits(s, y.value)
    decreases |b|, 3
  {
    if b == [] then Ok(x)
    else
      match Cut(s, b)
      case Err(f) => Err(f)
      case Ok(r) =>
        match Absorb(s, o, x, r)
        case Err(f) => Err(f)
        case Ok(y) => Shifted(Decode(s, o, y, b[r.len..]), r.len)
  }

  /** A kind without sub-messages, described or foreign: its updates cannot fail. */
  predicate FlatKind(k: Kind) {
    k.One? || k.Many? ==> k.elem.Raw?
  }

  ghost predicate Flat(s: Schema) {
    forall f | f in s.fields :: FlatKind(f.kind)
  }

  function Shifted<T>(r: Result<T>, k: nat): Result<T> {
    match r
    case Ok(_) => r
    case Err(f) => Err(Shift(f, k))
  }

  // ----- well-formed messages

  /** A sequence of complete records that the schema does not know. */
  ghost predicate UnknownOnly(s: Schema, u: Bytes)
    decreases |u|
  {
    u == [] ||
    (Cut(s, u).Ok? && Cut(s, u).value.slot == -1 && UnknownOnly(s, u[Cut(s, u).value.len..]))
  }

  ghost predicate WellFormed(o: Options, s: Schema, m: Message)
    decreases m
  {
    && Fits(s, m)
    && (forall i :: 0 <= i < |m.values| ==> GoodValue(o, s.fields[i].kind, m.values[i]))
    && UnknownOnly(s, m.unknown)
  }

  ghost predicate GoodValue(o: Options, k: Kind, v: Value)
    decreases v
  {
    match k
    case Scalar(t) => v.Num? && InRange(t, v.n)
    case Text => v.Str?
    case One(e) => v.List? && |v.elts| <= 1 && forall x | x in v.elts :: GoodElt(o, e, x)
    case Many(e) => v.List? && forall x | x in v.elts :: GoodElt(o, e, x)
  }

  ghost predicate GoodElt(o: Options, e: Elem, x: Elt)
    decreases x
  {
    match e
    case Raw => x.Leaf?
    case Ext(id) => x.Leaf? && o.ext(id, o.discardUnknown, None, x.bytes) == Some(x.bytes)
    case Sub(s) => x.Node? && WellFormed(o, s, x.msg)
  }
}
