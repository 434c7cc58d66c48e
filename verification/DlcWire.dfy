/** The dlc messages in bytes: which tag each field is written under and read from, as which Go type. */
module DlcWire {
  import opened Varints
  import opened Schemas
  import opened Codec
  import opened RoundTrips
  import opened Buffers
  import opened WireForms
  import opened DlcSchemas

  /** Identifier, type, nonce, public key, description, outcomes, triggered or not, outcome index,
      publication time, trigger time. */
  lemma EventBytes(m: Message)
    requires AllShaped(EVENT, m)
    ensures Encode(EVENT, m)
            == Joined([NumberBytes(0x8, m.values[0].n),
                       NumberBytes(0x10, m.values[1].n),
                       TextBytes(0x1a, m.values[2].text),
                       TextBytes(0x22, m.values[3].text),
                       TextBytes(0x2a, m.values[4].text),
                       ListBytes([0x32], Encodings(Raw, m.values[5].elts)),
                       NumberBytes(0x38, m.values[6].n),
                       NumberBytes(0x40, m.values[7].n),
                       ListBytes([0x4a], Encodings(Ext(TIMESTAMP), m.values[8].elts)),
                       ListBytes([0x52], Encodings(Ext(TIMESTAMP), m.values[9].elts)),
                       m.unknown])
  {
    hide Encode, EncodeField, NumberBytes, TextBytes, ListBytes, Encodings, Joined, Tag;
    NumberPart(EVENT.fields[0], m.values[0].n);
    NumberPart(EVENT.fields[1], m.values[1].n);
    TextPart(EVENT.fields[2], m.values[2].text);
    TextPart(EVENT.fields[3], m.values[3].text);
    TextPart(EVENT.fields[4], m.values[4].text);
    ListPart(EVENT.fields[5], m.values[5].elts);
    NumberPart(EVENT.fields[6], m.values[6].n);
    NumberPart(EVENT.fields[7], m.values[7].n);
    ListPart(EVENT.fields[8], m.values[8].elts);
    ListPart(EVENT.fields[9], m.values[9].elts);
    Spelled(EVENT, m, [
      NumberBytes(0x8, m.values[0].n),
      NumberBytes(0x10, m.values[1].n),
      TextBytes(0x1a, m.values[2].text),
      TextBytes(0x22, m.values[3].text),
      TextBytes(0x2a, m.values[4].text),
      ListBytes([0x32], Encodings(Raw, m.values[5].elts)),
      NumberBytes(0x38, m.values[6].n),
      NumberBytes(0x40, m.values[7].n),
      ListBytes([0x4a], Encodings(Ext(TIMESTAMP), m.values[8].elts)),
      ListBytes([0x52], Encodings(Ext(TIMESTAMP), m.values[9].elts)),
      m.unknown]);
  }

  lemma EventReads(o: Options, x: Message, v: nat, p: Bytes)
    requires Fits(EVENT, x) && v < TWO_64 && |p| < TWO_63
    ensures ReadsNumber(EVENT, o, x, 0x8, v, 0, v)
    ensures ReadsNumber(EVENT, o, x, 0x10, v, 1, Int32(v))
    ensures ReadsChunk(EVENT, o, x, [0x1a], p, Ok(With(x, 2, Str(p))))
    ensures ReadsChunk(EVENT, o, x, [0x22], p, Ok(With(x, 3, Str(p))))
    ensures ReadsChunk(EVENT, o, x, [0x2a], p, Ok(With(x, 4, Str(p))))
    ensures ReadsChunk(EVENT, o, x, [0x32], p, ReadMany(o, x, 5, Raw, p))
    ensures ReadsNumber(EVENT, o, x, 0x38, v, 6, if v == 0 then 0 else 1)
    ensures ReadsNumber(EVENT, o, x, 0x40, v, 7, Int32(v))
    ensures ReadsChunk(EVENT, o, x, [0x4a], p, ReadOne(o, x, 8, Ext(TIMESTAMP), p))
    ensures ReadsChunk(EVENT, o, x, [0x52], p, ReadOne(o, x, 9, Ext(TIMESTAMP), p))
  {
    hide ValidSchema, Consecutive, ReadsNumber, ReadsChunk, ReadOne, ReadMany, Int32, Int64, Tag, Decode;
    EventValid();
    ScalarSlot(EVENT, o, x, 0, v);
    ScalarSlot(EVENT, o, x, 1, v);
    TextSlot(EVENT, o, x, 2, p);
    TextSlot(EVENT, o, x, 3, p);
    TextSlot(EVENT, o, x, 4, p);
    ListSlot(EVENT, o, x, 5, p);
    ScalarSlot(EVENT, o, x, 6, v);
    ScalarSlot(EVENT, o, x, 7, v);
    ListSlot(EVENT, o, x, 8, p);
    ListSlot(EVENT, o, x, 9, p);
  }

  /** Identifier, event identifier, outcome, public key, signature, time. */
  lemma AttestationBytes(m: Message)
    requires AllShaped(ATTESTATION, m)
    ensures Encode(ATTESTATION, m)
            == Joined([NumberBytes(0x8, m.values[0].n),
                       NumberBytes(0x10, m.values[1].n),
                       TextBytes(0x1a, m.values[2].text),
                       TextBytes(0x22, m.values[3].text),
                       TextBytes(0x2a, m.values[4].text),
                       ListBytes([0x32], Encodings(Ext(TIMESTAMP), m.values[5].elts)),
                       m.unknown])
  {
    hide Encode, EncodeField, NumberBytes, TextBytes, ListBytes, Encodings, Joined, Tag;
    NumberPart(ATTESTATION.fields[0], m.values[0].n);
    NumberPart(ATTESTATION.fields[1], m.values[1].n);
    TextPart(ATTESTATION.fields[2], m.values[2].text);
    TextPart(ATTESTATION.fields[3], m.values[3].text);
    TextPart(ATTESTATION.fields[4], m.values[4].text);
    ListPart(ATTESTATION.fields[5], m.values[5].elts);
    Spelled(ATTESTATION, m, [
      NumberBytes(0x8, m.values[0].n),
      NumberBytes(0x10, m.values[1].n),
      TextBytes(0x1a, m.values[2].text),
      TextBytes(0x22, m.values[3].text),
      TextBytes(0x2a, m.values[4].text),
      ListBytes([0x32], Encodings(Ext(TIMESTAMP), m.values[5].elts)),
      m.unknown]);
  }

  lemma AttestationReads(o: Options, x: Message, v: nat, p: Bytes)
    requires Fits(ATTESTATION, x) && v < TWO_64 && |p| < TWO_63
    ensures ReadsNumber(ATTESTATION, o, x, 0x8, v, 0, v)
    ensures ReadsNumber(ATTESTATION, o, x, 0x10, v, 1, v)
    ensures ReadsChunk(ATTESTATION, o, x, [0x1a], p, Ok(With(x, 2, Str(p))))
    ensures ReadsChunk(ATTESTATION, o, x, [0x22], p, Ok(With(x, 3, Str(p))))
    ensures ReadsChunk(ATTESTATION, o, x, [0x2a], p, Ok(With(x, 4, Str(p))))
    ensures ReadsChunk(ATTESTATION, o, x, [0x32], p, ReadOne(o, x, 5, Ext(TIMESTAMP), p))
  {
    hide ValidSchema, Consecutive, ReadsNumber, ReadsChunk, ReadOne, ReadMany, Int32, Int64, Tag, Decode;
    AttestationValid();
    ScalarSlot(ATTESTATION, o, x, 0, v);
    ScalarSlot(ATTESTATION, o, x, 1, v);
    TextSlot(ATTESTATION, o, x, 2, p);
    TextSlot(ATTESTATION, o, x, 3, p);
    TextSlot(ATTESTATION, o, x, 4, p);
    ListSlot(ATTESTATION, o, x, 5, p);
  }

  /** Nonce queue size, batch size, interval, timeout, allowed participants, participant number,
      threshold. */
  lemma ParamsBytes(m: Message)
    requires AllShaped(PARAMS, m)
    ensures Encode(PARAMS, m)
            == Joined([NumberBytes(0x8, m.values[0].n),
                       NumberBytes(0x10, m.values[1].n),
                       NumberBytes(0x18, m.values[2].n),
                       ListBytes([0x22], Encodings(Ext(DURATION), m.values[3].elts)),
                       ListBytes([0x2a], Encodings(Raw, m.values[4].elts)),
                       NumberBytes(0x30, m.values[5].n),
                       NumberBytes(0x38, m.values[6].n),
                       m.unknown])
  {
    hide Encode, EncodeField, NumberBytes, TextBytes, ListBytes, Encodings, Joined, Tag;
    NumberPart(PARAMS.fields[0], m.values[0].n);
    NumberPart(PARAMS.fields[1], m.values[1].n);
    NumberPart(PARAMS.fields[2], m.values[2].n);
    ListPart(PARAMS.fields[3], m.values[3].elts);
    ListPart(PARAMS.fields[4], m.values[4].elts);
    NumberPart(PARAMS.fields[5], m.values[5].n);
    NumberPart(PARAMS.fields[6], m.values[6].n);
    Spelled(PARAMS, m, [
      NumberBytes(0x8, m.values[0].n),
      NumberBytes(0x10, m.values[1].n),
      NumberBytes(0x18, m.values[2].n),
      ListBytes([0x22], Encodings(Ext(DURATION), m.values[3].elts)),
      ListBytes([0x2a], Encodings(Raw, m.values[4].elts)),
      NumberBytes(0x30, m.values[5].n),
      NumberBytes(0x38, m.values[6].n),
      m.unknown]);
  }

  lemma ParamsReads(o: Options, x: Message, v: nat, p: Bytes)
    requires Fits(PARAMS, x) && v < TWO_64 && |p| < TWO_63
    ensures ReadsNumber(PARAMS, o, x, 0x8, v, 0, v % TWO_32)
    ensures ReadsNumber(PARAMS, o, x, 0x10, v, 1, v % TWO_32)
    ensures ReadsNumber(PARAMS, o, x, 0x18, v, 2, Int64(v))
    ensures ReadsChunk(PARAMS, o, x, [0x22], p, ReadOne(o, x, 3, Ext(DURATION), p))
    ensures ReadsChunk(PARAMS, o, x, [0x2a], p, ReadMany(o, x, 4, Raw, p))
    ensures ReadsNumber(PARAMS, o, x, 0x30, v, 5, v % TWO_32)
    ensures ReadsNumber(PARAMS, o, x, 0x38, v, 6, v % TWO_32)
  {
    hide ValidSchema, Consecutive, ReadsNumber, ReadsChunk, ReadOne, ReadMany, Int32, Int64, Tag, Decode;
    ParamsValid();
    ScalarSlot(PARAMS, o, x, 0, v);
    ScalarSlot(PARAMS, o, x, 1, v);
    ScalarSlot(PARAMS, o, x, 2, v);
    ListSlot(PARAMS, o, x, 3, p);
    ListSlot(PARAMS, o, x, 4, p);
    ScalarSlot(PARAMS, o, x, 5, v);
    ScalarSlot(PARAMS, o, x, 6, v);
  }

  /** Parameters, events, attestations. */
  lemma GenesisBytes(m: Message)
    requires AllShaped(GENESIS, m)
    ensures Encode(GENESIS, m)
            == Joined([ListBytes([0xa], Encodings(Sub(PARAMS), m.values[0].elts)),
                       ListBytes([0x12], Encodings(Sub(EVENT), m.values[1].elts)),
                       ListBytes([0x1a], Encodings(Sub(ATTESTATION), m.values[2].elts)),
                       m.unknown])
  {
    hide Encode, EncodeField, NumberBytes, TextBytes, ListBytes, Encodings, Joined, Tag;
    ListPart(GENESIS.fields[0], m.values[0].elts);
    ListPart(GENESIS.fields[1], m.values[1].elts);
    ListPart(GENESIS.fields[2], m.values[2].elts);
    Spelled(GENESIS, m, [
      ListBytes([0xa], Encodings(Sub(PARAMS), m.values[0].elts)),
      ListBytes([0x12], Encodings(Sub(EVENT), m.values[1].elts)),
      ListBytes([0x1a], Encodings(Sub(ATTESTATION), m.values[2].elts)),
      m.unknown]);
  }

  lemma GenesisReads(o: Options, x: Message, p: Bytes)
    requires Fits(GENESIS, x) && |p| < TWO_63
    ensures ReadsChunk(GENESIS, o, x, [0xa], p, ReadOne(o, x, 0, Sub(PARAMS), p))
    ensures ReadsChunk(GENESIS, o, x, [0x12], p, ReadMany(o, x, 1, Sub(EVENT), p))
    ensures ReadsChunk(GENESIS, o, x, [0x1a], p, ReadMany(o, x, 2, Sub(ATTESTATION), p))
  {
    hide ValidSchema, Consecutive, ReadsNumber, ReadsChunk, ReadOne, ReadMany, Int32, Int64, Tag, Decode;
    GenesisValid();
    ListSlot(GENESIS, o, x, 0, p);
    ListSlot(GENESIS, o, x, 1, p);
    ListSlot(GENESIS, o, x, 2, p);
  }

  /** Consensus key, alive or not, last DKG, last block height. */
  lemma LivenessBytes(m: Message)
    requires AllShaped(LIVENESS, m)
    ensures Encode(LIVENESS, m)
            == Joined([TextBytes(0xa, m.values[0].text),
                       NumberBytes(0x10, m.values[1].n),
                       NumberBytes(0x18, m.values[2].n),
                       NumberBytes(0x20, m.values[3].n),
                       m.unknown])
  {
    hide Encode, EncodeField, NumberBytes, TextBytes, ListBytes, Encodings, Joined, Tag;
    TextPart(LIVENESS.fields[0], m.values[0].text);
    NumberPart(LIVENESS.fields[1], m.values[1].n);
    NumberPart(LIVENESS.fields[2], m.values[2].n);
    NumberPart(LIVENESS.fields[3], m.values[3].n);
    Spelled(LIVENESS, m, [
      TextBytes(0xa, m.values[0].text),
      NumberBytes(0x10, m.values[1].n),
      NumberBytes(0x18, m.values[2].n),
      NumberBytes(0x20, m.values[3].n),
      m.unknown]);
  }

  lemma LivenessReads(o: Options, x: Message, v: nat, p: Bytes)
    requires Fits(LIVENESS, x) && v < TWO_64 && |p| < TWO_63
    ensures ReadsChunk(LIVENESS, o, x, [0xa], p, Ok(With(x, 0, Str(p))))
    ensures ReadsNumber(LIVENESS, o, x, 0x10, v, 1, if v == 0 then 0 else 1)
    ensures ReadsNumber(LIVENESS, o, x, 0x18, v, 2, v)
    ensures ReadsNumber(LIVENESS, o, x, 0x20, v, 3, Int64(v))
  {
    hide ValidSchema, Consecutive, ReadsNumber, ReadsChunk, ReadOne, ReadMany, Int32, Int64, Tag, Decode;
    LivenessValid();
    TextSlot(LIVENESS, o, x, 0, p);
    ScalarSlot(LIVENESS, o, x, 1, v);
    ScalarSlot(LIVENESS, o, x, 2, v);
    ScalarSlot(LIVENESS, o, x, 3, v);
  }
}
