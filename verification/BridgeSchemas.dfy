/** The messages of package bitway.btcbridge, and what the general results say about them. */
module BridgeSchemas {
  import opened Varints
  import opened Schemas
  import opened Records
  import opened Codec
  import opened Streams
  import opened RoundTrips
  import opened Bounds
  import opened Buffers
  import opened DlcSchemas

  /** Identities of further messages with a foreign codec, or with one that is not modelled. */
  const COIN: nat := 2
  const UTXO: nat := 3
  const DKG_REQUEST: nat := 4
  const DKG_COMPLETION: nat := 5
  const SIGNING_REQUEST: nat := 6
  const WITHDRAW_REQUEST: nat := 7

  const VAULT: Schema := Schema([
    Field(1, Text), Field(2, Text), Field(3, Scalar(Enum)), Field(4, Scalar(U64))])

  const WITHDRAW_PARAMS: Schema := Schema([
    Field(1, Scalar(U32)), Field(2, Scalar(I64)), Field(3, Scalar(U32))])

  const PROTOCOL_LIMITS: Schema := Schema([
    Field(1, Scalar(I64)), Field(2, Scalar(I64)), Field(3, Scalar(I64))])

  const PROTOCOL_FEES: Schema := Schema([
    Field(1, Scalar(I64)), Field(2, Scalar(I64)), Field(3, Text)])

  const TSS_PARAMS: Schema := Schema([
    Field(1, One(Ext(DURATION))), Field(2, One(Ext(DURATION)))])

  const GLOBAL_RATE_LIMIT: Schema := Schema([Field(1, One(Ext(DURATION))), Field(2, Scalar(U32))])

  const ADDRESS_RATE_LIMIT: Schema := Schema([Field(1, One(Ext(DURATION))), Field(2, Scalar(I64))])

  const RATE_LIMIT: Schema := Schema([
    Field(1, One(Sub(GLOBAL_RATE_LIMIT))), Field(2, One(Sub(ADDRESS_RATE_LIMIT)))])

  const IBC_PARAMS: Schema := Schema([Field(1, Scalar(U64)), Field(2, One(Ext(DURATION)))])

  const FEE_SPONSORSHIP: Schema := Schema([Field(1, Many(Ext(COIN)))])

  const BRIDGE_SETTINGS: seq<Field> := [
    Field(1, Scalar(I32)), Field(2, Scalar(I32)), Field(3, Scalar(U64)), Field(4, Text),
    Field(5, Scalar(Bool)), Field(6, Scalar(Bool)), Field(7, Many(Raw)), Field(8, Many(Raw)),
    Field(9, Scalar(I64))]

  const BRIDGE_GROUPS: seq<Field> := [
    Field(10, Many(Sub(VAULT))), Field(11, One(Sub(WITHDRAW_PARAMS))),
    Field(12, One(Sub(PROTOCOL_LIMITS))), Field(13, One(Sub(PROTOCOL_FEES))),
    Field(14, One(Sub(TSS_PARAMS))), Field(15, One(Sub(RATE_LIMIT))), Field(16, One(Sub(IBC_PARAMS))),
    Field(17, One(Sub(FEE_SPONSORSHIP)))]

  const BRIDGE_PARAMS: Schema := Schema(BRIDGE_SETTINGS + BRIDGE_GROUPS)

  const BRIDGE_GENESIS: Schema := Schema([
    Field(1, One(Sub(BRIDGE_PARAMS))), Field(2, Many(Ext(UTXO))), Field(3, Many(Ext(DKG_REQUEST))),
    Field(4, Many(Ext(DKG_COMPLETION))), Field(5, Many(Ext(SIGNING_REQUEST))),
    Field(6, Many(Ext(WITHDRAW_REQUEST))), Field(7, Many(Ext(WITHDRAW_REQUEST))), Field(8, Many(Raw))])

  lemma VaultValid()
    ensures ValidSchema(VAULT)
  {
    ConsecutiveValid(VAULT);
  }

  lemma WithdrawParamsValid()
    ensures ValidSchema(WITHDRAW_PARAMS)
  {
    ConsecutiveValid(WITHDRAW_PARAMS);
  }

  lemma ProtocolLimitsValid()
    ensures ValidSchema(PROTOCOL_LIMITS)
  {
    ConsecutiveValid(PROTOCOL_LIMITS);
  }

  lemma ProtocolFeesValid()
    ensures ValidSchema(PROTOCOL_FEES)
  {
    ConsecutiveValid(PROTOCOL_FEES);
  }

  lemma TssParamsValid()
    ensures ValidSchema(TSS_PARAMS)
  {
    ConsecutiveValid(TSS_PARAMS);
  }

  lemma IbcParamsValid()
    ensures ValidSchema(IBC_PARAMS)
  {
    ConsecutiveValid(IBC_PARAMS);
  }

  lemma FeeSponsorshipValid()
    ensures ValidSchema(FEE_SPONSORSHIP)
  {
    ConsecutiveValid(FEE_SPONSORSHIP);
  }

  lemma GlobalRateLimitValid()
    ensures ValidSchema(GLOBAL_RATE_LIMIT)
  {
    ConsecutiveValid(GLOBAL_RATE_LIMIT);
  }

  lemma AddressRateLimitValid()
    ensures ValidSchema(ADDRESS_RATE_LIMIT)
  {
    ConsecutiveValid(ADDRESS_RATE_LIMIT);
  }

  lemma RateLimitValid()
    ensures ValidSchema(RATE_LIMIT)
  {
    hide ValidSchema;
    GlobalRateLimitValid();
    AddressRateLimitValid();
    ConsecutiveValid(RATE_LIMIT);
  }

  /** Fields numbered from `start` on, each of a valid kind. */
  ghost predicate Numbered(fs: seq<Field>, start: nat) {
    forall i :: 0 <= i < |fs| ==> fs[i].num == start + i && ValidKind(fs[i].kind)
  }

  lemma GroupsNumbered()
    ensures Numbered(BRIDGE_GROUPS, 10)
  {
    hide ValidSchema, ValidKind;
    VaultValid();
    WithdrawParamsValid();
    ProtocolLimitsValid();
    ProtocolFeesValid();
    TssParamsValid();
    RateLimitValid();
    IbcParamsValid();
    FeeSponsorshipValid();
    SubKind(VAULT);
    SubKind(WITHDRAW_PARAMS);
    SubKind(PROTOCOL_LIMITS);
    SubKind(PROTOCOL_FEES);
    SubKind(TSS_PARAMS);
    SubKind(RATE_LIMIT);
    SubKind(IBC_PARAMS);
    SubKind(FEE_SPONSORSHIP);
  }

  lemma SubKind(s: Schema)
    requires ValidSchema(s)
    ensures ValidKind(One(Sub(s))) && ValidKind(Many(Sub(s)))
  {
  }

  lemma SettingsNumbered()
    ensures Numbered(BRIDGE_SETTINGS, 1) && |BRIDGE_SETTINGS| == 9
  {
    hide ValidSchema;
  }

  lemma NumberedValid(a: seq<Field>, b: seq<Field>)
    requires Numbered(a, 1) && Numbered(b, 1 + |a|) && |a| + |b| <= MAX_FIELD_NUMBER
    ensures Consecutive(Schema(a + b)) && ValidSchema(Schema(a + b))
  {
    hide ValidKind;
    var s := Schema(a + b);
    forall f | f in s.fields
      ensures ValidKind(f.kind)
    {
      var i :| 0 <= i < |a + b| && (a + b)[i] == f;
      assert f == if i < |a| then a[i] else b[i - |a|];
    }
    ConsecutiveValid(s);
  }

  lemma BridgeParamsValid()
    ensures Consecutive(BRIDGE_PARAMS) && ValidSchema(BRIDGE_PARAMS)
  {
    hide ValidSchema, Numbered, Consecutive;
    SettingsNumbered();
    GroupsNumbered();
    NumberedValid(BRIDGE_SETTINGS, BRIDGE_GROUPS);
  }

  lemma NumberedNone(start: nat)
    ensures Numbered([], start)
  {
  }

  lemma GenesisNumbered()
    ensures Numbered(BRIDGE_GENESIS.fields, 1) && |BRIDGE_GENESIS.fields| == 8
  {
    hide ValidSchema, Consecutive;
    BridgeParamsValid();
    SubKind(BRIDGE_PARAMS);
  }

  lemma BridgeGenesisValid()
    ensures Consecutive(BRIDGE_GENESIS) && ValidSchema(BRIDGE_GENESIS)
  {
    hide ValidSchema, Numbered, Consecutive, ValidKind;
    GenesisNumbered();
    var fs := BRIDGE_GENESIS.fields;
    assert fs + [] == fs;
    NumberedNone(1 + |fs|);
    NumberedValid(fs, []);
  }

  /** Fields 16 and 17 carry two-byte tags, with the constants of the generated code. */
  lemma TwoByteTags()
    ensures Tag(15, 2) == [0x7a] && Tag(16, 2) == [0x82, 0x1] && Tag(17, 2) == [0x8a, 0x1]
  {
    assert Varint(130) == [0x82] + Varint(1);
    assert Varint(138) == [0x8a] + Varint(1);
  }

  /** The tag of fields 16 and 17, its last byte first, as the generated code writes it. */
  method PutTwoByteTag(dAtA: array<Byte>, i: nat, num: nat) returns (j: nat)
    requires (num == 16 || num == 17) && 2 <= i <= dAtA.Length
    modifies dAtA
    ensures j == i - 2
    ensures dAtA[j..] == Tag(num, 2) + old(dAtA[i..])
    ensures dAtA[..j] == old(dAtA[..j])
  {
    hide Tag;
    TwoByteTags();
    ghost var tail := dAtA[i..];
    j := PutByte(dAtA, i, 0x1);
    j := PutByte(dAtA, j, if num == 16 then 0x82 else 0x8a);
    assert dAtA[j..] == Tag(num, 2) + tail;
  }

  /** Bridge parameters, with all their nested messages, round-trip. */
  lemma BridgeParamsRoundTrip(o: Options, m: Message)
    requires !o.discardUnknown
    requires WellFormed(o, BRIDGE_PARAMS, m) && |Encode(BRIDGE_PARAMS, m)| < TWO_63
    ensures Decode(BRIDGE_PARAMS, o, Empty(BRIDGE_PARAMS), Encode(BRIDGE_PARAMS, m)) == Ok(m)
  {
    hide ValidSchema, WellFormed, Decode, Encode;
    BridgeParamsValid();
    RoundTrip(o, BRIDGE_PARAMS, m);
  }

  /** So does the bridge genesis, its parameters included. */
  lemma BridgeGenesisRoundTrip(o: Options, g: Message)
    requires !o.discardUnknown
    requires WellFormed(o, BRIDGE_GENESIS, g) && |Encode(BRIDGE_GENESIS, g)| < TWO_63
    ensures Decode(BRIDGE_GENESIS, o, Empty(BRIDGE_GENESIS), Encode(BRIDGE_GENESIS, g)) == Ok(g)
  {
    hide ValidSchema, WellFormed, Decode, Encode;
    BridgeGenesisValid();
    RoundTrip(o, BRIDGE_GENESIS, g);
  }

  // ----- re-encoding

  lemma {:induction false} SlackTotals()
    ensures TotalSlack(PROTOCOL_LIMITS, 0) == TotalSlack(WITHDRAW_PARAMS, 0) == TotalSlack(PROTOCOL_FEES, 0) == 0
    ensures TotalSlack(VAULT, 0) == 5
  {
    assert TotalSlack(PROTOCOL_LIMITS, 3) == TotalSlack(PROTOCOL_LIMITS, 2) == TotalSlack(PROTOCOL_LIMITS, 1) == 0;
    assert TotalSlack(WITHDRAW_PARAMS, 3) == TotalSlack(WITHDRAW_PARAMS, 2) == TotalSlack(WITHDRAW_PARAMS, 1) == 0;
    assert TotalSlack(PROTOCOL_FEES, 3) == TotalSlack(PROTOCOL_FEES, 2) == TotalSlack(PROTOCOL_FEES, 1) == 0;
    assert TotalSlack(VAULT, 4) == TotalSlack(VAULT, 3) == 0;
    assert TotalSlack(VAULT, 2) == 5 == TotalSlack(VAULT, 1);
  }

  /** Reading and writing back never lengthens limits, withdrawal parameters or fees, and a vault
      by at most the five bytes of its sign-extended asset type. */
  lemma BridgeReencoding(o: Options, s: Schema, b: Bytes, m: Message)
    requires s in {PROTOCOL_LIMITS, WITHDRAW_PARAMS, PROTOCOL_FEES, VAULT}
    requires Decode(s, o, Empty(s), b) == Ok(m)
    ensures |Encode(s, m)| <= |b| + (if s == VAULT then 5 else 0)
  {
    hide Decode, Encode;
    assert SlimBelow(s);
    ReencodingBound(s, o, b, m);
    SlackTotals();
  }

  lemma ExtremeLengths()
    ensures |Varint(TWO_32 - 1)| == 5 && |Varint(TWO_64 - 1)| == 10 && |Varint(TWO_63 - 11)| == 9
  {
    hide Varint, BitLen, Pow2;
    SovIsLength(TWO_32 - 1);
    SovIsLength(TWO_64 - 1);
    SovIsLength(TWO_63 - 11);
    Pow2Widths();
    Pow2Halves();
    BitLenExact(TWO_32 - 1, 31);
    BitLenExact(TWO_64 - 1, 63);
    BitLenExact(TWO_63 - 11, 62);
  }

  lemma Pow2Halves()
    ensures 2 * Pow2(31) == Pow2(32) && 2 * Pow2(63) == Pow2(64) && 2 * Pow2(62) == Pow2(63)
  {
  }

  /** The bound for vaults is attained: six bytes that say asset type 2^32 - 1 are read as -1 and
      written back in eleven. */
  lemma VaultBoundAttained(o: Options)
    ensures var b := EncodeNumber(3, TWO_32 - 1);
            var m := With(Empty(VAULT), 2, Num(-1));
            && Decode(VAULT, o, Empty(VAULT), b) == Ok(m)
            && |b| == 6 && |Encode(VAULT, m)| == 11
  {
    hide Cut, Varint, ValidSchema;
    var b := EncodeNumber(3, TWO_32 - 1);
    var m := With(Empty(VAULT), 2, Num(-1));
    VaultValid();
    NumberRecord(VAULT, 2, TWO_32 - 1, []);
    assert b + [] == b;
    DecodeFront(VAULT, o, Empty(VAULT), b, [], Record(2, Varnum(TWO_32 - 1), |b|), m);
    ShortTag(3, 0);
    ExtremeLengths();
    AssetTypeOnly(m);
  }

  /** A vault with nothing but an asset type of -1 is written as that one record. */
  lemma AssetTypeOnly(m: Message)
    requires m == With(Empty(VAULT), 2, Num(-1))
    ensures Encode(VAULT, m) == EncodeNumber(3, -1)
  {
    hide EncodeNumber;
    var e := EncodeNumber(3, -1);
    assert EncodeField(VAULT.fields[0], m.values[0]) == [];
    assert EncodeField(VAULT.fields[1], m.values[1]) == [];
    assert EncodeField(VAULT.fields[2], m.values[2]) == e;
    assert EncodeField(VAULT.fields[3], m.values[3]) == [];
    hide EncodeField;
    assert EncodeFrom(VAULT, m, 4) == [];
    assert EncodeFrom(VAULT, m, 3) == [] + [];
    assert EncodeFrom(VAULT, m, 2) == e + [] == e;
    assert EncodeFrom(VAULT, m, 1) == [] + e == e;
    assert EncodeFrom(VAULT, m, 0) == [] + e == e;
    assert e + [] == e;
  }

  // ----- the error at a seam

  /** Why the error value at a seam needs its condition: on its own this truncated vault is
      `UnexpectedEOF`; behind a harmless two-byte record it is `InvalidLength`. */
  lemma SeamChangesError(o: Options)
    ensures var b, c := EncodeNumber(4, 1), Tag(1, 2) + Varint(TWO_63 - 11);
            && Decode(VAULT, o, Empty(VAULT), b).Ok?
            && Decode(VAULT, o, Decode(VAULT, o, Empty(VAULT), b).value, c) == Err(Overrun(TWO_63 - 1))
            && Report(Overrun(TWO_63 - 1)) == UnexpectedEOF
            && Decode(VAULT, o, Empty(VAULT), b + c).Err?
            && Report(Decode(VAULT, o, Empty(VAULT), b + c).fault) == InvalidLength
  {
    hide Varint, ValidSchema, Tag;
    var b, c := EncodeNumber(4, 1), Tag(1, 2) + Varint(TWO_63 - 11);
    VaultValid();
    assert Decode(VAULT, o, Empty(VAULT), b).Ok? && |b| == 2 by {
      hide Cut;
      NumberRecord(VAULT, 3, 1, []);
      assert b + [] == b;
      DecodeFront(VAULT, o, Empty(VAULT), b, [], Record(3, Varnum(1), |b|), With(Empty(VAULT), 3, Num(1)));
      TrueIsTwoBytes(4);
    }
    assert Cut(VAULT, c) == Err(Overrun(TWO_63 - 1)) by { TruncatedVault(c); }
    Concatenation(VAULT, o, Empty(VAULT), b, c);
  }

  lemma TruncatedVault(c: Bytes)
    requires c == Tag(1, 2) + Varint(TWO_63 - 11)
    ensures c != [] && Cut(VAULT, c) == Err(Overrun(TWO_63 - 1))
  {
    hide Varint, ReadVarint, Tag;
    var l := Varint(TWO_63 - 11);
    assert |Tag(1, 2)| == 1 by { ShortTag(1, 2); }
    ExtremeLengths();
    TagRoundTrip(1, 2, l);
    VarintRoundTrip(TWO_63 - 11, [], 0);
    assert l + [] == l && c[1..] == l;
    ConsecutiveSlot(VAULT, 1);
    CutKnown(VAULT, c, ReadTag(c).value, 0);
  }
}
