/**
 The bridge messages in bytes: which tag each field is written under and read from, and as which Go
 type. Together with the round trip this fixes every field of every message.
 */
module BridgeWire {
  import opened Varints
  import opened Schemas
  import opened Codec
  import opened RoundTrips
  import opened Buffers
  import opened WireForms
  import opened DlcSchemas
  import opened BridgeSchemas

  /** Address, public key, asset type, version. */
  lemma VaultBytes(m: Message)
    requires AllShaped(VAULT, m)
    ensures Encode(VAULT, m)
            == Joined([TextBytes(0xa, m.values[0].text),
                       TextBytes(0x12, m.values[1].text),
                       NumberBytes(0x18, m.values[2].n),
                       NumberBytes(0x20, m.values[3].n),
                       m.unknown])
  {
    hide Encode, EncodeField, NumberBytes, TextBytes, ListBytes, Encodings, Joined, Tag;
    TextPart(VAULT.fields[0], m.values[0].text);
    TextPart(VAULT.fields[1], m.values[1].text);
    NumberPart(VAULT.fields[2], m.values[2].n);
    NumberPart(VAULT.fields[3], m.values[3].n);
    Spelled(VAULT, m, [
      TextBytes(0xa, m.values[0].text),
      TextBytes(0x12, m.values[1].text),
      NumberBytes(0x18, m.values[2].n),
      NumberBytes(0x20, m.values[3].n),
      m.unknown]);
  }

  lemma VaultReads(o: Options, x: Message, v: nat, p: Bytes)
    requires Fits(VAULT, x) && v < TWO_64 && |p| < TWO_63
    ensures ReadsChunk(VAULT, o, x, [0xa], p, Ok(With(x, 0, Str(p))))
    ensures ReadsChunk(VAULT, o, x, [0x12], p, Ok(With(x, 1, Str(p))))
    ensures ReadsNumber(VAULT, o, x, 0x18, v, 2, Int32(v))
    ensures ReadsNumber(VAULT, o, x, 0x20, v, 3, v)
  {
    hide ValidSchema, Consecutive, ReadsNumber, ReadsChunk, ReadOne, ReadMany, Int32, Int64, Tag, Decode;
    VaultValid();
    TextSlot(VAULT, o, x, 0, p);
    TextSlot(VAULT, o, x, 1, p);
    ScalarSlot(VAULT, o, x, 2, v);
    ScalarSlot(VAULT, o, x, 3, v);
  }

  /** Max UTXO number, batch period, max batch size. */
  lemma WithdrawParamsBytes(m: Message)
    requires AllShaped(WITHDRAW_PARAMS, m)
    ensures Encode(WITHDRAW_PARAMS, m)
            == Joined([NumberBytes(0x8, m.values[0].n),
                       NumberBytes(0x10, m.values[1].n),
                       NumberBytes(0x18, m.values[2].n),
                       m.unknown])
  {
    hide Encode, EncodeField, NumberBytes, TextBytes, ListBytes, Encodings, Joined, Tag;
    NumberPart(WITHDRAW_PARAMS.fields[0], m.values[0].n);
    NumberPart(WITHDRAW_PARAMS.fields[1], m.values[1].n);
    NumberPart(WITHDRAW_PARAMS.fields[2], m.values[2].n);
    Spelled(WITHDRAW_PARAMS, m, [
      NumberBytes(0x8, m.values[0].n),
      NumberBytes(0x10, m.values[1].n),
      NumberBytes(0x18, m.values[2].n),
      m.unknown]);
  }

  lemma WithdrawParamsReads(o: Options, x: Message, v: nat)
    requires Fits(WITHDRAW_PARAMS, x) && v < TWO_64
    ensures ReadsNumber(WITHDRAW_PARAMS, o, x, 0x8, v, 0, v % TWO_32)
    ensures ReadsNumber(WITHDRAW_PARAMS, o, x, 0x10, v, 1, Int64(v))
    ensures ReadsNumber(WITHDRAW_PARAMS, o, x, 0x18, v, 2, v % TWO_32)
  {
    hide ValidSchema, Consecutive, ReadsNumber, ReadsChunk, ReadOne, ReadMany, Int32, Int64, Tag, Decode;
    WithdrawParamsValid();
    ScalarSlot(WITHDRAW_PARAMS, o, x, 0, v);
    ScalarSlot(WITHDRAW_PARAMS, o, x, 1, v);
    ScalarSlot(WITHDRAW_PARAMS, o, x, 2, v);
  }

  /** Min deposit, min withdrawal, max withdrawal. */
  lemma ProtocolLimitsBytes(m: Message)
    requires AllShaped(PROTOCOL_LIMITS, m)
    ensures Encode(PROTOCOL_LIMITS, m)
            == Joined([NumberBytes(0x8, m.values[0].n),
                       NumberBytes(0x10, m.values[1].n),
                       NumberBytes(0x18, m.values[2].n),
                       m.unknown])
  {
    hide Encode, EncodeField, NumberBytes, TextBytes, ListBytes, Encodings, Joined, Tag;
    NumberPart(PROTOCOL_LIMITS.fields[0], m.values[0].n);
    NumberPart(PROTOCOL_LIMITS.fields[1], m.values[1].n);
    NumberPart(PROTOCOL_LIMITS.fields[2], m.values[2].n);
    Spelled(PROTOCOL_LIMITS, m, [
      NumberBytes(0x8, m.values[0].n),
      NumberBytes(0x10, m.values[1].n),
      NumberBytes(0x18, m.values[2].n),
      m.unknown]);
  }

  lemma ProtocolLimitsReads(o: Options, x: Message, v: nat)
    requires Fits(PROTOCOL_LIMITS, x) && v < TWO_64
    ensures ReadsNumber(PROTOCOL_LIMITS, o, x, 0x8, v, 0, Int64(v))
    ensures ReadsNumber(PROTOCOL_LIMITS, o, x, 0x10, v, 1, Int64(v))
    ensures ReadsNumber(PROTOCOL_LIMITS, o, x, 0x18, v, 2, Int64(v))
  {
    hide ValidSchema, Consecutive, ReadsNumber, ReadsChunk, ReadOne, ReadMany, Int32, Int64, Tag, Decode;
    ProtocolLimitsValid();
    ScalarSlot(PROTOCOL_LIMITS, o, x, 0, v);
    ScalarSlot(PROTOCOL_LIMITS, o, x, 1, v);
    ScalarSlot(PROTOCOL_LIMITS, o, x, 2, v);
  }

  /** Deposit fee, withdrawal fee, collector. */
  lemma ProtocolFeesBytes(m: Message)
    requires AllShaped(PROTOCOL_FEES, m)
    ensures Encode(PROTOCOL_FEES, m)
            == Joined([NumberBytes(0x8, m.values[0].n),
                       NumberBytes(0x10, m.values[1].n),
                       TextBytes(0x1a, m.values[2].text),
                       m.unknown])
  {
    hide Encode, EncodeField, NumberBytes, TextBytes, ListBytes, Encodings, Joined, Tag;
    NumberPart(PROTOCOL_FEES.fields[0], m.values[0].n);
    NumberPart(PROTOCOL_FEES.fields[1], m.values[1].n);
    TextPart(PROTOCOL_FEES.fields[2], m.values[2].text);
    Spelled(PROTOCOL_FEES, m, [
      NumberBytes(0x8, m.values[0].n),
      NumberBytes(0x10, m.values[1].n),
      TextBytes(0x1a, m.values[2].text),
      m.unknown]);
  }

  lemma ProtocolFeesReads(o: Options, x: Message, v: nat, p: Bytes)
    requires Fits(PROTOCOL_FEES, x) && v < TWO_64 && |p| < TWO_63
    ensures ReadsNumber(PROTOCOL_FEES, o, x, 0x8, v, 0, Int64(v))
    ensures ReadsNumber(PROTOCOL_FEES, o, x, 0x10, v, 1, Int64(v))
    ensures ReadsChunk(PROTOCOL_FEES, o, x, [0x1a], p, Ok(With(x, 2, Str(p))))
  {
    hide ValidSchema, Consecutive, ReadsNumber, ReadsChunk, ReadOne, ReadMany, Int32, Int64, Tag, Decode;
    ProtocolFeesValid();
    ScalarSlot(PROTOCOL_FEES, o, x, 0, v);
    ScalarSlot(PROTOCOL_FEES, o, x, 1, v);
    TextSlot(PROTOCOL_FEES, o, x, 2, p);
  }

  /** DKG timeout, transition period. */
  lemma TssParamsBytes(m: Message)
    requires AllShaped(TSS_PARAMS, m)
    ensures Encode(TSS_PARAMS, m)
            == Joined([ListBytes([0xa], Encodings(Ext(DURATION), m.values[0].elts)),
                       ListBytes([0x12], Encodings(Ext(DURATION), m.values[1].elts)),
                       m.unknown])
  {
    hide Encode, EncodeField, NumberBytes, TextBytes, ListBytes, Encodings, Joined, Tag;
    ListPart(TSS_PARAMS.fields[0], m.values[0].elts);
    ListPart(TSS_PARAMS.fields[1], m.values[1].elts);
    Spelled(TSS_PARAMS, m, [
      ListBytes([0xa], Encodings(Ext(DURATION), m.values[0].elts)),
      ListBytes([0x12], Encodings(Ext(DURATION), m.values[1].elts)),
      m.unknown]);
  }

  lemma TssParamsReads(o: Options, x: Message, p: Bytes)
    requires Fits(TSS_PARAMS, x) && |p| < TWO_63
    ensures ReadsChunk(TSS_PARAMS, o, x, [0xa], p, ReadOne(o, x, 0, Ext(DURATION), p))
    ensures ReadsChunk(TSS_PARAMS, o, x, [0x12], p, ReadOne(o, x, 1, Ext(DURATION), p))
  {
    hide ValidSchema, Consecutive, ReadsNumber, ReadsChunk, ReadOne, ReadMany, Int32, Int64, Tag, Decode;
    TssParamsValid();
    ListSlot(TSS_PARAMS, o, x, 0, p);
    ListSlot(TSS_PARAMS, o, x, 1, p);
  }

  /** Period, quota in percent. */
  lemma GlobalRateLimitBytes(m: Message)
    requires AllShaped(GLOBAL_RATE_LIMIT, m)
    ensures Encode(GLOBAL_RATE_LIMIT, m)
            == Joined([ListBytes([0xa], Encodings(Ext(DURATION), m.values[0].elts)),
                       NumberBytes(0x10, m.values[1].n),
                       m.unknown])
  {
    hide Encode, EncodeField, NumberBytes, TextBytes, ListBytes, Encodings, Joined, Tag;
    ListPart(GLOBAL_RATE_LIMIT.fields[0], m.values[0].elts);
    NumberPart(GLOBAL_RATE_LIMIT.fields[1], m.values[1].n);
    Spelled(GLOBAL_RATE_LIMIT, m, [
      ListBytes([0xa], Encodings(Ext(DURATION), m.values[0].elts)),
      NumberBytes(0x10, m.values[1].n),
      m.unknown]);
  }

  lemma GlobalRateLimitReads(o: Options, x: Message, v: nat, p: Bytes)
    requires Fits(GLOBAL_RATE_LIMIT, x) && v < TWO_64 && |p| < TWO_63
    ensures ReadsChunk(GLOBAL_RATE_LIMIT, o, x, [0xa], p, ReadOne(o, x, 0, Ext(DURATION), p))
    ensures ReadsNumber(GLOBAL_RATE_LIMIT, o, x, 0x10, v, 1, v % TWO_32)
  {
    hide ValidSchema, Consecutive, ReadsNumber, ReadsChunk, ReadOne, ReadMany, Int32, Int64, Tag, Decode;
    GlobalRateLimitValid();
    ListSlot(GLOBAL_RATE_LIMIT, o, x, 0, p);
    ScalarSlot(GLOBAL_RATE_LIMIT, o, x, 1, v);
  }

  /** Period, quota. */
  lemma AddressRateLimitBytes(m: Message)
    requires AllShaped(ADDRESS_RATE_LIMIT, m)
    ensures Encode(ADDRESS_RATE_LIMIT, m)
            == Joined([ListBytes([0xa], Encodings(Ext(DURATION), m.values[0].elts)),
                       NumberBytes(0x10, m.values[1].n),
                       m.unknown])
  {
    hide Encode, EncodeField, NumberBytes, TextBytes, ListBytes, Encodings, Joined, Tag;
    ListPart(ADDRESS_RATE_LIMIT.fields[0], m.values[0].elts);
    NumberPart(ADDRESS_RATE_LIMIT.fields[1], m.values[1].n);
    Spelled(ADDRESS_RATE_LIMIT, m, [
      ListBytes([0xa], Encodings(Ext(DURATION), m.values[0].elts)),
      NumberBytes(0x10, m.values[1].n),
      m.unknown]);
  }

  lemma AddressRateLimitReads(o: Options, x: Message, v: nat, p: Bytes)
    requires Fits(ADDRESS_RATE_LIMIT, x) && v < TWO_64 && |p| < TWO_63
    ensures ReadsChunk(ADDRESS_RATE_LIMIT, o, x, [0xa], p, ReadOne(o, x, 0, Ext(DURATION), p))
    ensures ReadsNumber(ADDRESS_RATE_LIMIT, o, x, 0x10, v, 1, Int64(v))
  {
    hide ValidSchema, Consecutive, ReadsNumber, ReadsChunk, ReadOne, ReadMany, Int32, Int64, Tag, Decode;
    AddressRateLimitValid();
    ListSlot(ADDRESS_RATE_LIMIT, o, x, 0, p);
    ScalarSlot(ADDRESS_RATE_LIMIT, o, x, 1, v);
  }

  /** Global limit, limit per address. */
  lemma RateLimitBytes(m: Message)
    requires AllShaped(RATE_LIMIT, m)
    ensures Encode(RATE_LIMIT, m)
            == Joined([ListBytes([0xa], Encodings(Sub(GLOBAL_RATE_LIMIT), m.values[0].elts)),
                       ListBytes([0x12], Encodings(Sub(ADDRESS_RATE_LIMIT), m.values[1].elts)),
                       m.unknown])
  {
    hide Encode, EncodeField, NumberBytes, TextBytes, ListBytes, Encodings, Joined, Tag;
    ListPart(RATE_LIMIT.fields[0], m.values[0].elts);
    ListPart(RATE_LIMIT.fields[1], m.values[1].elts);
    Spelled(RATE_LIMIT, m, [
      ListBytes([0xa], Encodings(Sub(GLOBAL_RATE_LIMIT), m.values[0].elts)),
      ListBytes([0x12], Encodings(Sub(ADDRESS_RATE_LIMIT), m.values[1].elts)),
      m.unknown]);
  }

  lemma RateLimitReads(o: Options, x: Message, p: Bytes)
    requires Fits(RATE_LIMIT, x) && |p| < TWO_63
    ensures ReadsChunk(RATE_LIMIT, o, x, [0xa], p, ReadOne(o, x, 0, Sub(GLOBAL_RATE_LIMIT), p))
    ensures ReadsChunk(RATE_LIMIT, o, x, [0x12], p, ReadOne(o, x, 1, Sub(ADDRESS_RATE_LIMIT), p))
  {
    hide ValidSchema, Consecutive, ReadsNumber, ReadsChunk, ReadOne, ReadMany, Int32, Int64, Tag, Decode;
    RateLimitValid();
    ListSlot(RATE_LIMIT, o, x, 0, p);
    ListSlot(RATE_LIMIT, o, x, 1, p);
  }

  /** Height offset, timeout. */
  lemma IbcParamsBytes(m: Message)
    requires AllShaped(IBC_PARAMS, m)
    ensures Encode(IBC_PARAMS, m)
            == Joined([NumberBytes(0x8, m.values[0].n),
                       ListBytes([0x12], Encodings(Ext(DURATION), m.values[1].elts)),
                       m.unknown])
  {
    hide Encode, EncodeField, NumberBytes, TextBytes, ListBytes, Encodings, Joined, Tag;
    NumberPart(IBC_PARAMS.fields[0], m.values[0].n);
    ListPart(IBC_PARAMS.fields[1], m.values[1].elts);
    Spelled(IBC_PARAMS, m, [
      NumberBytes(0x8, m.values[0].n),
      ListBytes([0x12], Encodings(Ext(DURATION), m.values[1].elts)),
      m.unknown]);
  }

  lemma IbcParamsReads(o: Options, x: Message, v: nat, p: Bytes)
    requires Fits(IBC_PARAMS, x) && v < TWO_64 && |p| < TWO_63
    ensures ReadsNumber(IBC_PARAMS, o, x, 0x8, v, 0, v)
    ensures ReadsChunk(IBC_PARAMS, o, x, [0x12], p, ReadOne(o, x, 1, Ext(DURATION), p))
  {
    hide ValidSchema, Consecutive, ReadsNumber, ReadsChunk, ReadOne, ReadMany, Int32, Int64, Tag, Decode;
    IbcParamsValid();
    ScalarSlot(IBC_PARAMS, o, x, 0, v);
    ListSlot(IBC_PARAMS, o, x, 1, p);
  }

  /** Fee limits. */
  lemma FeeSponsorshipBytes(m: Message)
    requires AllShaped(FEE_SPONSORSHIP, m)
    ensures Encode(FEE_SPONSORSHIP, m)
            == Joined([ListBytes([0xa], Encodings(Ext(COIN), m.values[0].elts)),
                       m.unknown])
  {
    hide Encode, EncodeField, NumberBytes, TextBytes, ListBytes, Encodings, Joined, Tag;
    ListPart(FEE_SPONSORSHIP.fields[0], m.values[0].elts);
    Spelled(FEE_SPONSORSHIP, m, [
      ListBytes([0xa], Encodings(Ext(COIN), m.values[0].elts)),
      m.unknown]);
  }

  lemma FeeSponsorshipReads(o: Options, x: Message, p: Bytes)
    requires Fits(FEE_SPONSORSHIP, x) && |p| < TWO_63
    ensures ReadsChunk(FEE_SPONSORSHIP, o, x, [0xa], p, ReadMany(o, x, 0, Ext(COIN), p))
  {
    hide ValidSchema, Consecutive, ReadsNumber, ReadsChunk, ReadOne, ReadMany, Int32, Int64, Tag, Decode;
    FeeSponsorshipValid();
    ListSlot(FEE_SPONSORSHIP, o, x, 0, p);
  }

  /** Parameters, UTXOs, DKG requests and completions, signing requests, withdrawal requests and the
      pending ones, minted transaction hashes. */
  lemma BridgeGenesisBytes(m: Message)
    requires AllShaped(BRIDGE_GENESIS, m)
    ensures Encode(BRIDGE_GENESIS, m)
            == Joined([ListBytes([0xa], Encodings(Sub(BRIDGE_PARAMS), m.values[0].elts)),
                       ListBytes([0x12], Encodings(Ext(UTXO), m.values[1].elts)),
                       ListBytes([0x1a], Encodings(Ext(DKG_REQUEST), m.values[2].elts)),
                       ListBytes([0x22], Encodings(Ext(DKG_COMPLETION), m.values[3].elts)),
                       ListBytes([0x2a], Encodings(Ext(SIGNING_REQUEST), m.values[4].elts)),
                       ListBytes([0x32], Encodings(Ext(WITHDRAW_REQUEST), m.values[5].elts)),
                       ListBytes([0x3a], Encodings(Ext(WITHDRAW_REQUEST), m.values[6].elts)),
                       ListBytes([0x42], Encodings(Raw, m.values[7].elts)),
                       m.unknown])
  {
    hide Encode, EncodeField, NumberBytes, TextBytes, ListBytes, Encodings, Joined, Tag;
    ListPart(BRIDGE_GENESIS.fields[0], m.values[0].elts);
    ListPart(BRIDGE_GENESIS.fields[1], m.values[1].elts);
    ListPart(BRIDGE_GENESIS.fields[2], m.values[2].elts);
    ListPart(BRIDGE_GENESIS.fields[3], m.values[3].elts);
    ListPart(BRIDGE_GENESIS.fields[4], m.values[4].elts);
    ListPart(BRIDGE_GENESIS.fields[5], m.values[5].elts);
    ListPart(BRIDGE_GENESIS.fields[6], m.values[6].elts);
    ListPart(BRIDGE_GENESIS.fields[7], m.values[7].elts);
    Spelled(BRIDGE_GENESIS, m, [
      ListBytes([0xa], Encodings(Sub(BRIDGE_PARAMS), m.values[0].elts)),
      ListBytes([0x12], Encodings(Ext(UTXO), m.values[1].elts)),
      ListBytes([0x1a], Encodings(Ext(DKG_REQUEST), m.values[2].elts)),
      ListBytes([0x22], Encodings(Ext(DKG_COMPLETION), m.values[3].elts)),
      ListBytes([0x2a], Encodings(Ext(SIGNING_REQUEST), m.values[4].elts)),
      ListBytes([0x32], Encodings(Ext(WITHDRAW_REQUEST), m.values[5].elts)),
      ListBytes([0x3a], Encodings(Ext(WITHDRAW_REQUEST), m.values[6].elts)),
      ListBytes([0x42], Encodings(Raw, m.values[7].elts)),
      m.unknown]);
  }

  lemma BridgeGenesisReads(o: Options, x: Message, p: Bytes)
    requires Fits(BRIDGE_GENESIS, x) && |p| < TWO_63
    ensures ReadsChunk(BRIDGE_GENESIS, o, x, [0xa], p, ReadOne(o, x, 0, Sub(BRIDGE_PARAMS), p))
    ensures ReadsChunk(BRIDGE_GENESIS, o, x, [0x12], p, ReadMany(o, x, 1, Ext(UTXO), p))
    ensures ReadsChunk(BRIDGE_GENESIS, o, x, [0x1a], p, ReadMany(o, x, 2, Ext(DKG_REQUEST), p))
    ensures ReadsChunk(BRIDGE_GENESIS, o, x, [0x22], p, ReadMany(o, x, 3, Ext(DKG_COMPLETION), p))
    ensures ReadsChunk(BRIDGE_GENESIS, o, x, [0x2a], p, ReadMany(o, x, 4, Ext(SIGNING_REQUEST), p))
    ensures ReadsChunk(BRIDGE_GENESIS, o, x, [0x32], p, ReadMany(o, x, 5, Ext(WITHDRAW_REQUEST), p))
    ensures ReadsChunk(BRIDGE_GENESIS, o, x, [0x3a], p, ReadMany(o, x, 6, Ext(WITHDRAW_REQUEST), p))
    ensures ReadsChunk(BRIDGE_GENESIS, o, x, [0x42], p, ReadMany(o, x, 7, Raw, p))
  {
    hide ValidSchema, Consecutive, ReadsNumber, ReadsChunk, ReadOne, ReadMany, Int32, Int64, Tag, Decode;
    BridgeGenesisValid();
    ListSlot(BRIDGE_GENESIS, o, x, 0, p);
    ListSlot(BRIDGE_GENESIS, o, x, 1, p);
    ListSlot(BRIDGE_GENESIS, o, x, 2, p);
    ListSlot(BRIDGE_GENESIS, o, x, 3, p);
    ListSlot(BRIDGE_GENESIS, o, x, 4, p);
    ListSlot(BRIDGE_GENESIS, o, x, 5, p);
    ListSlot(BRIDGE_GENESIS, o, x, 6, p);
    ListSlot(BRIDGE_GENESIS, o, x, 7, p);
  }

  // ----- the parameters

  lemma SettingsFields()
    ensures |BRIDGE_PARAMS.fields| == 17 && forall k :: 0 <= k < 9 ==> BRIDGE_PARAMS.fields[k] == BRIDGE_SETTINGS[k]
  {
  }

  lemma GroupsFields()
    ensures |BRIDGE_PARAMS.fields| == 17 && forall k :: 0 <= k < 8 ==> BRIDGE_PARAMS.fields[k + 9] == BRIDGE_GROUPS[k]
  {
  }

  /** The parts of the fields 1 to 9: confirmation depths, block depth, voucher denomination, the two
      switches, relayers, fee providers and the fee rate period. */
  ghost function SettingsBytes(m: Message): (ps: seq<Bytes>)
    requires AllShaped(BRIDGE_PARAMS, m)
    ensures |ps| == 9
  {
    SettingsFields();
    [NumberBytes(0x8, m.values[0].n),
     NumberBytes(0x10, m.values[1].n),
     NumberBytes(0x18, m.values[2].n),
     TextBytes(0x22, m.values[3].text),
     NumberBytes(0x28, m.values[4].n),
     NumberBytes(0x30, m.values[5].n),
     ListBytes([0x3a], Encodings(Raw, m.values[6].elts)),
     ListBytes([0x42], Encodings(Raw, m.values[7].elts)),
     NumberBytes(0x48, m.values[8].n)]
  }

  /** The parts of the fields 10 to 17: vaults, withdrawals, limits, fees, TSS, rate limits, IBC and
      fee sponsorship. */
  ghost function GroupsBytes(m: Message): (ps: seq<Bytes>)
    requires AllShaped(BRIDGE_PARAMS, m)
    ensures |ps| == 8
  {
    GroupsFields();
    [ListBytes([0x52], Encodings(Sub(VAULT), m.values[9].elts)),
     ListBytes([0x5a], Encodings(Sub(WITHDRAW_PARAMS), m.values[10].elts)),
     ListBytes([0x62], Encodings(Sub(PROTOCOL_LIMITS), m.values[11].elts)),
     ListBytes([0x6a], Encodings(Sub(PROTOCOL_FEES), m.values[12].elts)),
     ListBytes([0x72], Encodings(Sub(TSS_PARAMS), m.values[13].elts)),
     ListBytes([0x7a], Encodings(Sub(RATE_LIMIT), m.values[14].elts)),
     ListBytes([0x82, 0x1], Encodings(Sub(IBC_PARAMS), m.values[15].elts)),
     ListBytes([0x8a, 0x1], Encodings(Sub(FEE_SPONSORSHIP), m.values[16].elts))]
  }

  lemma SettingsParts(m: Message)
    requires AllShaped(BRIDGE_PARAMS, m)
    ensures forall k :: 0 <= k < 9 ==> SettingsBytes(m)[k] == EncodeField(BRIDGE_SETTINGS[k], m.values[k])
  {
    hide Encode, EncodeField, NumberBytes, TextBytes, ListBytes, Encodings, Tag;
    SettingsFields();
    NumberPart(BRIDGE_SETTINGS[0], m.values[0].n);
    NumberPart(BRIDGE_SETTINGS[1], m.values[1].n);
    NumberPart(BRIDGE_SETTINGS[2], m.values[2].n);
    TextPart(BRIDGE_SETTINGS[3], m.values[3].text);
    NumberPart(BRIDGE_SETTINGS[4], m.values[4].n);
    NumberPart(BRIDGE_SETTINGS[5], m.values[5].n);
    ListPart(BRIDGE_SETTINGS[6], m.values[6].elts);
    ListPart(BRIDGE_SETTINGS[7], m.values[7].elts);
    NumberPart(BRIDGE_SETTINGS[8], m.values[8].n);
  }

  lemma GroupsParts(m: Message)
    requires AllShaped(BRIDGE_PARAMS, m)
    ensures forall k :: 0 <= k < 8 ==> GroupsBytes(m)[k] == EncodeField(BRIDGE_GROUPS[k], m.values[k + 9])
  {
    hide Encode, EncodeField, NumberBytes, TextBytes, ListBytes, Encodings, Tag;
    GroupsFields();
    TwoByteTags();
    ListPart(BRIDGE_GROUPS[0], m.values[9].elts);
    ListPart(BRIDGE_GROUPS[1], m.values[10].elts);
    ListPart(BRIDGE_GROUPS[2], m.values[11].elts);
    ListPart(BRIDGE_GROUPS[3], m.values[12].elts);
    ListPart(BRIDGE_GROUPS[4], m.values[13].elts);
    ListPart(BRIDGE_GROUPS[5], m.values[14].elts);
    ListPart(BRIDGE_GROUPS[6], m.values[15].elts);
    ListPart(BRIDGE_GROUPS[7], m.values[16].elts);
  }

  lemma BridgeParamsParts(m: Message)
    requires AllShaped(BRIDGE_PARAMS, m)
    ensures Encode(BRIDGE_PARAMS, m) == Joined(SettingsBytes(m) + GroupsBytes(m) + [m.unknown])
  {
    hide Encode, EncodeField, SettingsBytes, GroupsBytes, Joined, AllShaped;
    SettingsParts(m);
    GroupsParts(m);
    ParamsFit(m);
    SpelledTwice(BRIDGE_SETTINGS, BRIDGE_GROUPS, m, SettingsBytes(m), GroupsBytes(m));
  }

  /** Bridge parameters, all seventeen fields. */
  lemma BridgeParamsBytes(m: Message)
    requires AllShaped(BRIDGE_PARAMS, m)
    ensures |m.values| == 17
    ensures Encode(BRIDGE_PARAMS, m)
            == Joined([NumberBytes(0x8, m.values[0].n),
                       NumberBytes(0x10, m.values[1].n),
                       NumberBytes(0x18, m.values[2].n),
                       TextBytes(0x22, m.values[3].text),
                       NumberBytes(0x28, m.values[4].n),
                       NumberBytes(0x30, m.values[5].n),
                       ListBytes([0x3a], Encodings(Raw, m.values[6].elts)),
                       ListBytes([0x42], Encodings(Raw, m.values[7].elts)),
                       NumberBytes(0x48, m.values[8].n),
                       ListBytes([0x52], Encodings(Sub(VAULT), m.values[9].elts)),
                       ListBytes([0x5a], Encodings(Sub(WITHDRAW_PARAMS), m.values[10].elts)),
                       ListBytes([0x62], Encodings(Sub(PROTOCOL_LIMITS), m.values[11].elts)),
                       ListBytes([0x6a], Encodings(Sub(PROTOCOL_FEES), m.values[12].elts)),
                       ListBytes([0x72], Encodings(Sub(TSS_PARAMS), m.values[13].elts)),
                       ListBytes([0x7a], Encodings(Sub(RATE_LIMIT), m.values[14].elts)),
                       ListBytes([0x82, 0x1], Encodings(Sub(IBC_PARAMS), m.values[15].elts)),
                       ListBytes([0x8a, 0x1], Encodings(Sub(FEE_SPONSORSHIP), m.values[16].elts)),
                       m.unknown])
  {
    hide Encode, EncodeField, NumberBytes, TextBytes, ListBytes, Encodings, Joined;
    SettingsFields();
    BridgeParamsParts(m);
    assert SettingsBytes(m) + GroupsBytes(m) + [m.unknown]
        == [NumberBytes(0x8, m.values[0].n),
            NumberBytes(0x10, m.values[1].n),
            NumberBytes(0x18, m.values[2].n),
            TextBytes(0x22, m.values[3].text),
            NumberBytes(0x28, m.values[4].n),
            NumberBytes(0x30, m.values[5].n),
            ListBytes([0x3a], Encodings(Raw, m.values[6].elts)),
            ListBytes([0x42], Encodings(Raw, m.values[7].elts)),
            NumberBytes(0x48, m.values[8].n),
            ListBytes([0x52], Encodings(Sub(VAULT), m.values[9].elts)),
            ListBytes([0x5a], Encodings(Sub(WITHDRAW_PARAMS), m.values[10].elts)),
            ListBytes([0x62], Encodings(Sub(PROTOCOL_LIMITS), m.values[11].elts)),
            ListBytes([0x6a], Encodings(Sub(PROTOCOL_FEES), m.values[12].elts)),
            ListBytes([0x72], Encodings(Sub(TSS_PARAMS), m.values[13].elts)),
            ListBytes([0x7a], Encodings(Sub(RATE_LIMIT), m.values[14].elts)),
            ListBytes([0x82, 0x1], Encodings(Sub(IBC_PARAMS), m.values[15].elts)),
            ListBytes([0x8a, 0x1], Encodings(Sub(FEE_SPONSORSHIP), m.values[16].elts)),
            m.unknown];
  }

  lemma ParamsFit(m: Message)
    requires AllShaped(BRIDGE_PARAMS, m)
    ensures |BRIDGE_SETTINGS| == 9 && |BRIDGE_GROUPS| == 8 && |m.values| == 17
  {
    SettingsFields();
  }

  lemma SpelledTwice(a: seq<Field>, b: seq<Field>, m: Message, ps: seq<Bytes>, qs: seq<Bytes>)
    requires |m.values| == |a| + |b| && |ps| == |a| && |qs| == |b|
    requires forall k :: 0 <= k < |a| ==> ps[k] == EncodeField(a[k], m.values[k])
    requires forall k :: 0 <= k < |b| ==> qs[k] == EncodeField(b[k], m.values[k + |a|])
    ensures Encode(Schema(a + b), m) == Joined(ps + qs + [m.unknown])
  {
    hide Encode, EncodeField, Joined;
    var s, parts := Schema(a + b), ps + qs + [m.unknown];
    forall k | 0 <= k < |s.fields|
      ensures parts[k] == EncodeField(s.fields[k], m.values[k])
    {
      if k >= |a| { assert parts[k] == qs[k - |a|] == EncodeField(b[k - |a|], m.values[(k - |a|) + |a|]); }
    }
    Spelled(s, m, parts);
  }

  lemma SettingsReads(o: Options, x: Message, v: nat, p: Bytes)
    requires Fits(BRIDGE_PARAMS, x) && v < TWO_64 && |p| < TWO_63
    ensures |BRIDGE_PARAMS.fields| == 17
    ensures ReadsNumber(BRIDGE_PARAMS, o, x, 0x8, v, 0, Int32(v))
    ensures ReadsNumber(BRIDGE_PARAMS, o, x, 0x10, v, 1, Int32(v))
    ensures ReadsNumber(BRIDGE_PARAMS, o, x, 0x18, v, 2, v)
    ensures ReadsChunk(BRIDGE_PARAMS, o, x, [0x22], p, Ok(With(x, 3, Str(p))))
    ensures ReadsNumber(BRIDGE_PARAMS, o, x, 0x28, v, 4, if v == 0 then 0 else 1)
    ensures ReadsNumber(BRIDGE_PARAMS, o, x, 0x30, v, 5, if v == 0 then 0 else 1)
    ensures ReadsChunk(BRIDGE_PARAMS, o, x, [0x3a], p, ReadMany(o, x, 6, Raw, p))
    ensures ReadsChunk(BRIDGE_PARAMS, o, x, [0x42], p, ReadMany(o, x, 7, Raw, p))
    ensures ReadsNumber(BRIDGE_PARAMS, o, x, 0x48, v, 8, Int64(v))
  {
    hide ValidSchema, Consecutive, ReadsNumber, ReadsChunk, ReadOne, ReadMany, Int32, Int64, Tag, Decode;
    BridgeParamsValid();
    SettingsFields();
    ScalarSlot(BRIDGE_PARAMS, o, x, 0, v);
    ScalarSlot(BRIDGE_PARAMS, o, x, 1, v);
    ScalarSlot(BRIDGE_PARAMS, o, x, 2, v);
    TextSlot(BRIDGE_PARAMS, o, x, 3, p);
    ScalarSlot(BRIDGE_PARAMS, o, x, 4, v);
    ScalarSlot(BRIDGE_PARAMS, o, x, 5, v);
    ListSlot(BRIDGE_PARAMS, o, x, 6, p);
    ListSlot(BRIDGE_PARAMS, o, x, 7, p);
    ScalarSlot(BRIDGE_PARAMS, o, x, 8, v);
  }

  lemma GroupsReads(o: Options, x: Message, p: Bytes)
    requires Fits(BRIDGE_PARAMS, x) && |p| < TWO_63
    ensures |BRIDGE_PARAMS.fields| == 17
    ensures ReadsChunk(BRIDGE_PARAMS, o, x, [0x52], p, ReadMany(o, x, 9, Sub(VAULT), p))
    ensures ReadsChunk(BRIDGE_PARAMS, o, x, [0x5a], p, ReadOne(o, x, 10, Sub(WITHDRAW_PARAMS), p))
    ensures ReadsChunk(BRIDGE_PARAMS, o, x, [0x62], p, ReadOne(o, x, 11, Sub(PROTOCOL_LIMITS), p))
    ensures ReadsChunk(BRIDGE_PARAMS, o, x, [0x6a], p, ReadOne(o, x, 12, Sub(PROTOCOL_FEES), p))
    ensures ReadsChunk(BRIDGE_PARAMS, o, x, [0x72], p, ReadOne(o, x, 13, Sub(TSS_PARAMS), p))
    ensures ReadsChunk(BRIDGE_PARAMS, o, x, [0x7a], p, ReadOne(o, x, 14, Sub(RATE_LIMIT), p))
    ensures ReadsChunk(BRIDGE_PARAMS, o, x, [0x82, 0x1], p, ReadOne(o, x, 15, Sub(IBC_PARAMS), p))
    ensures ReadsChunk(BRIDGE_PARAMS, o, x, [0x8a, 0x1], p, ReadOne(o, x, 16, Sub(FEE_SPONSORSHIP), p))
  {
    hide ValidSchema, Consecutive, ReadsNumber, ReadsChunk, ReadOne, ReadMany, Int32, Int64, Tag, Decode;
    BridgeParamsValid();
    GroupsFields();
    TwoByteTags();
    ListSlot(BRIDGE_PARAMS, o, x, 9, p);
    ListSlot(BRIDGE_PARAMS, o, x, 10, p);
    ListSlot(BRIDGE_PARAMS, o, x, 11, p);
    ListSlot(BRIDGE_PARAMS, o, x, 12, p);
    ListSlot(BRIDGE_PARAMS, o, x, 13, p);
    ListSlot(BRIDGE_PARAMS, o, x, 14, p);
    ListSlot(BRIDGE_PARAMS, o, x, 15, p);
    ListSlot(BRIDGE_PARAMS, o, x, 16, p);
  }
}
