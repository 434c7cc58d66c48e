/**
 Framing: how the parse loop cuts the next record off a byte string. A cut depends on the schema
 only through the field numbers it knows; it never depends on the message being filled.
 */
module Records {
  import opened Varints
  import opened Schemas

  datatype Header = Header(num: int, wireType: nat, wire: nat, len: nat)

  /** The tag of the next record. The field number is the tag without its low three bits,
      truncated to a signed 32-bit integer. */
  function ReadTag(b: Bytes): (r: Result<Header>)
    ensures r.Ok? ==> 0 < r.value.len <= |b| && r.value.wireType < 8
    ensures r.Err? ==> r.fault.Final?
  {
    match ReadVarint(b, 0)
    case Err(e) => Err(e)
    case Ok(n) =>
      var wire := n.v % TWO_64;
      Ok(Header(Signed(wire / 8 % TWO_32, TWO_31), wire % 8, wire, n.len))
  }

  /** The extent of a length-delimited payload: where its bytes start and how many there are. */
  datatype Extent = Extent(start: nat, len: nat)

  function ReadLength(b: Bytes): (r: Result<Extent>)
    ensures r.Ok? ==> 0 < r.value.start <= |b|
    ensures r.Err? ==> r.fault.Final?
  {
    match ReadVarint(b, 0)
    case Err(e) => Err(e)
    case Ok(n) =>
      if n.v % TWO_64 >= TWO_63 then Err(Final(InvalidLength)) else Ok(Extent(n.len, n.v % TWO_64))
  }

  /** Bytes taken by the payload of an unknown field of the given wire type at the front of `b`;
      the count may exceed `|b|`. Group markers have no payload of their own. */
  function SkipPayload(wireType: nat, b: Bytes): (r: Result<nat>)
    ensures r.Err? ==> r.fault.Final?
  {
    match wireType
    case 0 => (match ReadVarint(b, 0) case Err(e) => Err(e) case Ok(n) => Ok(n.len))
    case 1 => Ok(8)
    case 2 => (match ReadLength(b) case Err(e) => Err(e) case Ok(x) => Ok(x.start + x.len))
    case 3 => Ok(0)
    case 4 => Ok(0)
    case 5 => Ok(4)
    case _ => Err(Final(IllegalWireType(wireType)))
  }

  /** One tag with the payload that follows it; `len` may exceed the buffer. */
  datatype Item = Item(wireType: nat, len: nat)

  function ReadItem(b: Bytes): (r: Result<Item>)
    ensures r.Ok? ==> ReadTag(b).Ok? && ReadTag(b).value.len <= r.value.len && r.value.len > 0
    ensures r.Err? ==> r.fault.Final?
  {
    match ReadTag(b)
    case Err(e) => Err(e)
    case Ok(h) =>
      match SkipPayload(h.wireType, b[h.len..])
      case Err(e) => Err(e)
      case Ok(n) => Ok(Item(h.wireType, h.len + n))
  }

  /** Group depth after an item; -1 is an end marker outside any group. */
  function DepthAfter(depth: nat, wireType: nat): int {
    if wireType == 3 then depth + 1 else if wireType == 4 then depth - 1 else depth
  }

  /** `runtime.Skip`: the length of the first complete field, groups included. `at` bytes of it have
      been passed and `depth` groups are open. As in the library, the length of a field outside any
      group is returned even when the buffer is shorter. */
  function Skip(b: Bytes, at: nat, depth: nat): (r: Result<nat>)
    ensures r.Ok? ==> r.value > at
    ensures r.Err? ==> r.fault.Final?
    decreases |b|
  {
    if b == [] then Err(Final(UnexpectedEOF))
    else
      match ReadItem(b)
      case Err(e) => Err(e)
      case Ok(x) =>
        var inner := DepthAfter(depth, x.wireType);
        if inner < 0 then Err(Final(UnexpectedEndOfGroup))
        else if at + x.len >= TWO_63 then Err(Final(InvalidLength))
        else if inner == 0 then Ok(at + x.len)
        else if x.len > |b| then Err(Final(UnexpectedEOF))
        else Skip(b[x.len..], at + x.len, inner)
  }

  /** What a record carries: a number, a chunk of bytes, or, for an unknown field, itself. */
  datatype Payload = Varnum(v: nat) | Chunk(bytes: Bytes) | Whole(bytes: Bytes)

  /** `slot` is -1 for a field the schema does not have. */
  datatype Record = Record(slot: int, payload: Payload, len: nat)

  /** The first record of `b`. */
  function Cut(s: Schema, b: Bytes): (r: Result<Record>)
    requires b != []
    ensures r.Ok? ==>
              && 0 < r.value.len <= |b|
              && -1 <= r.value.slot < |s.fields|
              && (r.value.payload.Chunk? ==> |r.value.payload.bytes| < r.value.len)
              && (r.value.payload.Whole? <==> r.value.slot == -1)
              && (r.value.payload.Whole? ==> r.value.payload.bytes == b[..r.value.len])
              && (r.value.slot >= 0 ==>
                    (r.value.payload.Varnum? <==> s.fields[r.value.slot].kind.Scalar?))
  {
    match ReadTag(b)
    case Err(e) => Err(e)
    case Ok(h) =>
      if h.wireType == 4 then Err(Final(EndGroup))
      else if h.num <= 0 then Err(Final(IllegalTag(h.num, h.wire)))
      else
        var i := Slot(s.fields, h.num);
        if i < 0 then CutUnknown(b)
        else if h.wireType != WireType(s.fields[i].kind) then
          Err(Final(WrongWireType(h.num, h.wireType)))
        else if h.wireType == 0 then CutNumber(b, h, i)
        else CutChunk(b, h, i)
  }

  function CutNumber(b: Bytes, h: Header, i: nat): (r: Result<Record>)
    requires h.len <= |b|
  {
    match ReadVarint(b[h.len..], 0)
    case Err(e) => Err(e)
    case Ok(n) => Ok(Record(i, Varnum(n.v), h.len + n.len))
  }

  function CutChunk(b: Bytes, h: Header, i: nat): (r: Result<Record>)
    requires h.len <= |b|
  {
    match ReadLength(b[h.len..])
    case Err(e) => Err(e)
    case Ok(x) =>
      var from, to := h.len + x.start, h.len + x.start + x.len;
      if to > |b| then Err(Overrun(to)) else Ok(Record(i, Chunk(b[from..to]), to))
  }

  function CutUnknown(b: Bytes): (r: Result<Record>) {
    match Skip(b, 0, 0)
    case Err(e) => Err(e)
    case Ok(n) => if n > |b| then Err(Overrun(n)) else Ok(Record(-1, Whole(b[..n]), n))
  }

  // ----- a cut depends only on the bytes it consumes

  /** `b` and `b'` agree on their first `n` bytes. */
  ghost predicate SameFront(b: Bytes, b': Bytes, n: nat) {
    n <= |b| && n <= |b'| && b[..n] == b'[..n]
  }

  lemma SameFrontTail(b: Bytes, b': Bytes, n: nat, k: nat)
    requires SameFront(b, b', n) && k <= n
    ensures SameFront(b, b', k) && SameFront(b[k..], b'[k..], n - k)
  {
    assert b[..k] == b[..n][..k] == b'[..n][..k] == b'[..k];
    assert b[k..][..n - k] == b[..n][k..] == b'[..n][k..] == b'[k..][..n - k];
  }

  lemma ReadTagLocal(b: Bytes, b': Bytes)
    requires ReadTag(b).Ok? && SameFront(b, b', ReadTag(b).value.len)
    ensures ReadTag(b') == ReadTag(b)
  {
    ReadVarintLocal(b, b', 0);
  }

  lemma ReadLengthLocal(b: Bytes, b': Bytes)
    requires ReadLength(b).Ok? && SameFront(b, b', ReadLength(b).value.start)
    ensures ReadLength(b') == ReadLength(b)
  {
    ReadVarintLocal(b, b', 0);
  }

  lemma SkipPayloadLocal(w: nat, b: Bytes, b': Bytes)
    requires SkipPayload(w, b).Ok? && SameFront(b, b', SkipPayload(w, b).value)
    ensures SkipPayload(w, b') == SkipPayload(w, b)
  {
    if w == 0 {
      ReadVarintLocal(b, b', 0);
    } else if w == 2 {
      SameFrontTail(b, b', SkipPayload(w, b).value, ReadLength(b).value.start);
      ReadLengthLocal(b, b');
    }
  }

  lemma ReadItemLocal(b: Bytes, b': Bytes)
    requires ReadItem(b).Ok? && SameFront(b, b', ReadItem(b).value.len)
    ensures ReadItem(b') == ReadItem(b)
  {
    var h := ReadTag(b).value;
    SameFrontTail(b, b', ReadItem(b).value.len, h.len);
    ReadTagLocal(b, b');
    SkipPayloadLocal(h.wireType, b[h.len..], b'[h.len..]);
  }

  /** How `Skip` continues after an item that leaves a group open. */
  lemma SkipStep(b: Bytes, at: nat, depth: nat)
    requires b != [] && Skip(b, at, depth).Ok?
    ensures ReadItem(b).Ok?
    ensures var x := ReadItem(b).value; var inner := DepthAfter(depth, x.wireType);
            && inner >= 0 && x.len <= Skip(b, at, depth).value - at
            && (inner == 0 ==> Skip(b, at, depth) == Ok(at + x.len))
            && (inner > 0 ==> x.len <= |b| && Skip(b, at, depth) == Skip(b[x.len..], at + x.len, inner))
  {
  }

  lemma SkipFrom(b: Bytes, at: nat, depth: nat, x: Item, inner: nat)
    requires b != [] && ReadItem(b) == Ok(x) && inner == DepthAfter(depth, x.wireType)
    requires at + x.len < TWO_63
    ensures inner == 0 ==> Skip(b, at, depth) == Ok(at + x.len)
    ensures inner > 0 && x.len <= |b| ==>
              Skip(b, at, depth) == Skip(b[x.len..], at + x.len, inner)
  {
  }

  /** `Skip` reads nothing beyond the field whose length it returns. */
  lemma {:induction false} SkipLocal(b: Bytes, b': Bytes, at: nat, depth: nat, end: nat)
    requires Skip(b, at, depth) == Ok(end) && SameFront(b, b', end - at)
    ensures Skip(b', at, depth) == Ok(end)
    decreases |b|
  {
    hide ReadItem;
    SkipStep(b, at, depth);
    var x := ReadItem(b).value;
    var inner := DepthAfter(depth, x.wireType);
    SameFrontTail(b, b', end - at, x.len);
    ReadItemLocal(b, b');
    if inner > 0 {
      SkipLocal(b[x.len..], b'[x.len..], at + x.len, inner, end);
    }
    SkipFrom(b', at, depth, x, inner);
  }

  lemma CutNumberLocal(b: Bytes, b': Bytes, h: Header, i: nat)
    requires h.len <= |b| && CutNumber(b, h, i).Ok?
    requires SameFront(b, b', CutNumber(b, h, i).value.len)
    ensures CutNumber(b', h, i) == CutNumber(b, h, i)
  {
    SameFrontTail(b, b', CutNumber(b, h, i).value.len, h.len);
    ReadVarintLocal(b[h.len..], b'[h.len..], 0);
  }

  lemma CutChunkLocal(b: Bytes, b': Bytes, h: Header, i: nat)
    requires h.len <= |b| && CutChunk(b, h, i).Ok?
    requires SameFront(b, b', CutChunk(b, h, i).value.len)
    ensures CutChunk(b', h, i) == CutChunk(b, h, i)
  {
    var to := CutChunk(b, h, i).value.len;
    var x := ReadLength(b[h.len..]).value;
    var from := h.len + x.start;
    SameFrontTail(b, b', to, h.len);
    SameFrontTail(b[h.len..], b'[h.len..], to - h.len, x.start);
    ReadLengthLocal(b[h.len..], b'[h.len..]);
    assert b[from..to] == b[..to][from..] == b'[..to][from..] == b'[from..to];
  }

  lemma CutUnknownLocal(b: Bytes, b': Bytes)
    requires b != [] && CutUnknown(b).Ok? && SameFront(b, b', CutUnknown(b).value.len)
    ensures CutUnknown(b') == CutUnknown(b)
  {
    SkipLocal(b, b', 0, 0, CutUnknown(b).value.len);
  }

  /** A successful cut passes at least its own tag. */
  lemma CutPassesTag(s: Schema, b: Bytes)
    requires b != [] && Cut(s, b).Ok?
    ensures ReadTag(b).Ok? && ReadTag(b).value.len <= Cut(s, b).value.len
  {
    if Slot(s.fields, ReadTag(b).value.num) < 0 {
      var x := ReadItem(b).value;
      if DepthAfter(0, x.wireType) > 0 { assert Skip(b, 0, 0) == Skip(b[x.len..], x.len, 1); }
    }
  }

  /** A record is recognised from its own bytes alone. */
  lemma CutLocal(s: Schema, b: Bytes, b': Bytes)
    requires b != [] && b' != []
    requires Cut(s, b).Ok? && SameFront(b, b', Cut(s, b).value.len)
    ensures Cut(s, b') == Cut(s, b)
  {
    CutPassesTag(s, b);
    var h := ReadTag(b).value;
    SameFrontTail(b, b', Cut(s, b).value.len, h.len);
    ReadTagLocal(b, b');
    var i := Slot(s.fields, h.num);
    if i < 0 {
      CutUnknownLocal(b, b');
    } else if h.wireType == 0 {
      CutNumberLocal(b, b', h, i);
    } else {
      CutChunkLocal(b, b', h, i);
    }
  }
}
