/** `Params`: size, marshal and unmarshal as the generated code performs them. */
module DlcParams {
  import opened Varints
  import opened Schemas
  import opened Records
  import opened Codec
  import opened RoundTrips
  import opened Buffers
  import opened WireForms
  import opened DlcSchemas
  import opened DlcWire

  class Params {
    var nonceQueueSize: uint32
    var nonceGenerationBatchSize: uint32
    var nonceGenerationInterval: int64
    var nonceGenerationTimeoutDuration: Option<Bytes>
    var allowedOracleParticipants: seq<Bytes>
    var oracleParticipantNum: uint32
    var oracleParticipantThreshold: uint32
    var unknownFields: Bytes

    ghost function View(): (m: Message)
      reads this
      ensures Fits(PARAMS, m)
    {
      Message([Num(nonceQueueSize), Num(nonceGenerationBatchSize), Num(nonceGenerationInterval),
               List(OptionalLeaf(nonceGenerationTimeoutDuration)), List(Leaves(allowedOracleParticipants)),
               Num(oracleParticipantNum), Num(oracleParticipantThreshold)],
              unknownFields)
    }

    /** `&Params{}`. */
    constructor ()
      ensures View() == Empty(PARAMS)
    {
      nonceQueueSize := 0;
      nonceGenerationBatchSize := 0;
      nonceGenerationInterval := 0;
      nonceGenerationTimeoutDuration := None;
      allowedOracleParticipants := [];
      oracleParticipantNum := 0;
      oracleParticipantThreshold := 0;
      unknownFields := [];
      new;
      assert View().values == Empty(PARAMS).values;
    }

    /** `proto.Reset`. */
    method Reset()
      modifies this
      ensures View() == Empty(PARAMS)
    {
      nonceQueueSize := 0;
      nonceGenerationBatchSize := 0;
      nonceGenerationInterval := 0;
      nonceGenerationTimeoutDuration := None;
      allowedOracleParticipants := [];
      oracleParticipantNum := 0;
      oracleParticipantThreshold := 0;
      unknownFields := [];
      assert View().values == Empty(PARAMS).values;
    }

    /** The size pass counts exactly the bytes of the encoding. */
    method Size() returns (n: nat)
      ensures n == |Encode(PARAMS, View())|
    {
      hide Encode, Leaves, Tag, Counted;
      ghost var m := View();
      ParamsTags();
      NothingCounted(PARAMS, m);
      n := AddNumberSlot(0, nonceQueueSize, PARAMS, m, 0);
      n := AddNumberSlot(n, nonceGenerationBatchSize, PARAMS, m, 1);
      n := AddNumberSlot(n, nonceGenerationInterval, PARAMS, m, 2);
      n := AddExternalSlot(n, nonceGenerationTimeoutDuration, PARAMS, m, 3);
      n := AddStringsSlot(n, allowedOracleParticipants, PARAMS, m, 4);
      n := AddNumberSlot(n, oracleParticipantNum, PARAMS, m, 5);
      n := AddNumberSlot(n, oracleParticipantThreshold, PARAMS, m, 6);
      AllCounted(n, PARAMS, m);
      n := n + |unknownFields|;
    }

    /** The encoding in terms of the fields: each under its own tag, in the order of the tags. */
    lemma Spelling()
      ensures Encode(PARAMS, View())
              == Joined([NumberBytes(0x8, nonceQueueSize),
                         NumberBytes(0x10, nonceGenerationBatchSize),
                         NumberBytes(0x18, nonceGenerationInterval),
                         ListBytes([0x22], Present(nonceGenerationTimeoutDuration)),
                         ListBytes([0x2a], allowedOracleParticipants),
                         NumberBytes(0x30, oracleParticipantNum),
                         NumberBytes(0x38, oracleParticipantThreshold),
                         unknownFields])
    {
      hide Encode, NumberBytes, TextBytes, ListBytes, Joined, Encodings;
      assert AllShaped(PARAMS, View());
      ParamsBytes(View());
      OptionalEncodings(Ext(DURATION), nonceGenerationTimeoutDuration);
      LeafEncodings(Raw, allowedOracleParticipants);
    }

    /** The backward writes fill the buffer exactly: the falling index ends at 0. */
    method Write() returns (dAtA: array<Byte>)
      requires |Encode(PARAMS, View())| < TWO_63
      ensures fresh(dAtA) && dAtA[..] == Encode(PARAMS, View())
    {
      hide Encode, Leaves, Tag, Filled, FrontKept;
      ghost var m := View();
      ParamsTags();
      var size := Size();
      dAtA := new Byte[size](_ => 0);
      var i := PutUnknown(dAtA, unknownFields, PARAMS, m);
      i := PutNumberSlot(dAtA, i, 0x38, oracleParticipantThreshold, PARAMS, m, 6);
      i := PutNumberSlot(dAtA, i, 0x30, oracleParticipantNum, PARAMS, m, 5);
      i := PutStringsSlot(dAtA, i, 0x2a, allowedOracleParticipants, PARAMS, m, 4);
      i := PutExternalSlot(dAtA, i, 0x22, nonceGenerationTimeoutDuration, PARAMS, m, 3);
      i := PutNumberSlot(dAtA, i, 0x18, nonceGenerationInterval, PARAMS, m, 2);
      i := PutNumberSlot(dAtA, i, 0x10, nonceGenerationBatchSize, PARAMS, m, 1);
      i := PutNumberSlot(dAtA, i, 0x8, nonceQueueSize, PARAMS, m, 0);
      AllFilled(dAtA, i, PARAMS, m);
    }

    /** `marshal`: the bytes of the message behind those of the caller. */
    method Marshal(input: Bytes) returns (output: Bytes)
      requires |Encode(PARAMS, View())| < TWO_63
      ensures output == input + Encode(PARAMS, View())
      ensures output
              == input + Joined([NumberBytes(0x8, nonceQueueSize),
                                 NumberBytes(0x10, nonceGenerationBatchSize),
                                 NumberBytes(0x18, nonceGenerationInterval),
                                 ListBytes([0x22], Present(nonceGenerationTimeoutDuration)),
                                 ListBytes([0x2a], allowedOracleParticipants),
                                 NumberBytes(0x30, oracleParticipantNum),
                                 NumberBytes(0x38, oracleParticipantThreshold),
                                 unknownFields])
      ensures input == [] ==> output == Encode(PARAMS, View())
    {
      hide Encode, Joined, NumberBytes, TextBytes, ListBytes;
      Spelling();
      var dAtA := Write();
      output := input + dAtA[..];
    }

    /** The varint cases of the field switch, given the accumulated word. */
    method SetNumber(fieldNum: int, v: nat, ghost x: nat)
      requires fieldNum in {1, 2, 3, 6, 7} && v == x % Word(if fieldNum in {3} then 64 else 32)
      modifies this
      ensures View() == With(old(View()), fieldNum - 1, Num(FromWire(PARAMS.fields[fieldNum - 1].kind.t, x)))
      ensures nonceQueueSize == (if fieldNum == 1 then v else old(nonceQueueSize))
      ensures nonceGenerationBatchSize == (if fieldNum == 2 then v else old(nonceGenerationBatchSize))
      ensures nonceGenerationInterval == (if fieldNum == 3 then Int64(v) else old(nonceGenerationInterval))
      ensures oracleParticipantNum == (if fieldNum == 6 then v else old(oracleParticipantNum))
      ensures oracleParticipantThreshold == (if fieldNum == 7 then v else old(oracleParticipantThreshold))
      ensures unchanged(`nonceGenerationTimeoutDuration, `allowedOracleParticipants, `unknownFields)
    {
      hide Leaves, OptionalLeaf, FromWire, Int64;
      ghost var m := View();
      WordValue(PARAMS.fields[fieldNum - 1].kind.t, v, x);
      match fieldNum {
        case 1 => nonceQueueSize := v;
        case 2 => nonceGenerationBatchSize := v;
        case 3 => nonceGenerationInterval := Signed(v, TWO_63);
        case 6 => oracleParticipantNum := v;
        case 7 => oracleParticipantThreshold := v;
      }
      assert View().values == With(m, fieldNum - 1, View().values[fieldNum - 1]).values;
    }

    /** The length-delimited cases of the field switch, given the payload. */
    method SetChunk(fieldNum: int, p: Slice, o: Options) returns (err: Option<GoError>)
      requires fieldNum in {4, 5}
      modifies this
      ensures match Update(o, PARAMS.fields[fieldNum - 1].kind, old(View()).values[fieldNum - 1], Chunk(p))
              case Err(f) => err == Some(Report(f)) && SameBut(old(View()), View(), fieldNum - 1)
              case Ok(v) => err == None && View() == With(old(View()), fieldNum - 1, v)
      ensures allowedOracleParticipants == old(allowedOracleParticipants) + (if fieldNum == 5 then [p] else [])
      ensures fieldNum != 4 ==> nonceGenerationTimeoutDuration == old(nonceGenerationTimeoutDuration)
      ensures fieldNum == 4 ==>
                var prev := if o.merge then old(nonceGenerationTimeoutDuration) else None;
                var c := o.ext(DURATION, o.discardUnknown, prev, p);
                (err == None <==> c.Some?) && (err == None ==> nonceGenerationTimeoutDuration == c)
      ensures unchanged(`nonceQueueSize, `nonceGenerationBatchSize, `nonceGenerationInterval, `oracleParticipantNum,
                        `oracleParticipantThreshold, `unknownFields)
    {
      hide Update, Leaves, OptionalLeaf;
      ghost var m := View();
      err := None;
      match fieldNum {
        case 4 =>
          err, nonceGenerationTimeoutDuration := UnmarshalExternal(o, DURATION, nonceGenerationTimeoutDuration, p);
        case 5 =>
          UpdateStrings(o, allowedOracleParticipants, p);
          allowedOracleParticipants := allowedOracleParticipants + [p];
      }
      assert View().values == With(m, fieldNum - 1, View().values[fieldNum - 1]).values;
    }

    /** One turn of the parse loop. */
    method UnmarshalField(dAtA: Slice, preIndex: nat, o: Options) returns (err: Option<GoError>, next: nat)
      requires preIndex < |dAtA|
      modifies this
      ensures Turned(PARAMS, o, old(View()), dAtA, preIndex, err, View(), next)
    {
      hide Cut, Update, View;
      ghost var m, b := View(), dAtA[preIndex..];
      var fieldNum: int, wireType: nat, iNdEx: nat;
      err, fieldNum, wireType, iNdEx := ReadHeader(dAtA, preIndex);
      next := iNdEx;
      if err.Some? { HeaderFails(PARAMS, b); return; }
      ParamsSlots(fieldNum);
      if fieldNum in {1, 2, 3, 6, 7} {
        var v: nat;
        err, v, next := ReadNumberField(dAtA, preIndex, fieldNum, wireType, iNdEx,
                                        if fieldNum in {3} then 64 else 32, PARAMS, fieldNum - 1);
        if err.Some? { return; }
        ghost var x := Cut(PARAMS, b).value.payload.v;
        UpdateNum(o, PARAMS.fields[fieldNum - 1].kind.t, m.values[fieldNum - 1], x);
        SetNumber(fieldNum, v, x);
      } else if 1 <= fieldNum <= 7 {
        var p: Slice;
        err, p, next := ReadChunkField(dAtA, preIndex, fieldNum, wireType, iNdEx, PARAMS, fieldNum - 1);
        if err.Some? { return; }
        err := SetChunk(fieldNum, p, o);
      } else {
        var raw: Bytes;
        err, raw, next := ReadUnknown(dAtA, preIndex, fieldNum, wireType, iNdEx, PARAMS);
        if err.Some? { return; }
        KeepUnknown(raw, o);
      }
    }

    method KeepUnknown(raw: Bytes, o: Options)
      modifies this
      ensures View() == (if o.discardUnknown then old(View())
                         else old(View()).(unknown := old(View()).unknown + raw))
      ensures unknownFields == (if o.discardUnknown then old(unknownFields) else old(unknownFields) + raw)
    {
      if !o.discardUnknown { unknownFields := unknownFields + raw; }
    }

    /** The parse loop computes `Decode`: same acceptance, same message, same error; on an
        error all records in front of the refused one have been absorbed. */
    method Unmarshal(dAtA: Slice, o: Options) returns (err: Option<GoError>)
      modifies this
      ensures Unmarshalled(PARAMS, o, old(View()), dAtA, err, View())
    {
      hide Cut, Absorb, Decode;
      var l, iNdEx := |dAtA|, 0;
      LoopStarts(PARAMS, o, View(), dAtA);
      while iNdEx < l
        invariant iNdEx <= l
        invariant Decode(PARAMS, o, old(View()), dAtA[..iNdEx]) == Ok(View())
      {
        ghost var m := View();
        ghost var pre := iNdEx;
        err, iNdEx := UnmarshalField(dAtA, iNdEx, o);
        Turn(PARAMS, o, old(View()), m, dAtA, pre, err, View(), iNdEx);
        if err.Some? { return; }
      }
      // The closing test `iNdEx > l` never fires.
      assert iNdEx == l && dAtA[..iNdEx] == dAtA;
      return None;
    }
  }

  lemma ParamsSlots(num: int)
    ensures Slot(PARAMS.fields, num) == (if 1 <= num <= 7 then num - 1 else -1)
    ensures 1 <= num <= 7 ==> (PARAMS.fields[num - 1].kind.Scalar? <==> num in {1, 2, 3, 6, 7})
  {
    ParamsValid();
    ConsecutiveSlot(PARAMS, num);
  }

  lemma ParamsTags()
    ensures Tag(1, 0) == [0x8]
    ensures Tag(2, 0) == [0x10]
    ensures Tag(3, 0) == [0x18]
    ensures Tag(4, 2) == [0x22]
    ensures Tag(5, 2) == [0x2a]
    ensures Tag(6, 0) == [0x30]
    ensures Tag(7, 0) == [0x38]
  {
  }
}
