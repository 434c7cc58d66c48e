/** `DLCAttestation`: size, marshal and unmarshal as the generated code performs them. */
module DlcAttestations {
  import opened Varints
  import opened Schemas
  import opened Records
  import opened Codec
  import opened RoundTrips
  import opened Buffers
  import opened WireForms
  import opened DlcSchemas
  import opened DlcWire

  class DLCAttestation {
    var id: uint64
    var eventId: uint64
    var outcome: Bytes
    var pubkey: Bytes
    var signature: Bytes
    var time: Option<Bytes>
    var unknownFields: Bytes

    ghost function View(): (m: Message)
      reads this
      ensures Fits(ATTESTATION, m)
    {
      Message([Num(id), Num(eventId), Str(outcome),
               Str(pubkey), Str(signature), List(OptionalLeaf(time))], unknownFields)
    }

    /** `&DLCAttestation{}`. */
    constructor ()
      ensures View() == Empty(ATTESTATION)
    {
      id := 0;
      eventId := 0;
      outcome := [];
      pubkey := [];
      signature := [];
      time := None;
      unknownFields := [];
      new;
      assert View().values == Empty(ATTESTATION).values;
    }

    /** The size pass counts exactly the bytes of the encoding. */
    method Size() returns (n: nat)
      ensures n == |Encode(ATTESTATION, View())|
    {
      hide Encode, Leaves, Tag, Counted;
      ghost var m := View();
      AttestationTags();
      NothingCounted(ATTESTATION, m);
      n := AddNumberSlot(0, id, ATTESTATION, m, 0);
      n := AddNumberSlot(n, eventId, ATTESTATION, m, 1);
      n := AddTextSlot(n, outcome, ATTESTATION, m, 2);
      n := AddTextSlot(n, pubkey, ATTESTATION, m, 3);
      n := AddTextSlot(n, signature, ATTESTATION, m, 4);
      n := AddExternalSlot(n, time, ATTESTATION, m, 5);
      AllCounted(n, ATTESTATION, m);
      n := n + |unknownFields|;
    }

    /** The encoding in terms of the fields: each under its own tag, in the order of the tags. */
    lemma Spelling()
      ensures Encode(ATTESTATION, View())
              == Joined([NumberBytes(0x8, id),
                         NumberBytes(0x10, eventId),
                         TextBytes(0x1a, outcome),
                         TextBytes(0x22, pubkey),
                         TextBytes(0x2a, signature),
                         ListBytes([0x32], Present(time)),
                         unknownFields])
    {
      hide Encode, NumberBytes, TextBytes, ListBytes, Joined, Encodings;
      assert AllShaped(ATTESTATION, View());
      AttestationBytes(View());
      OptionalEncodings(Ext(TIMESTAMP), time);
    }

    /** The backward writes fill the buffer exactly: the falling index ends at 0. */
    method Write() returns (dAtA: array<Byte>)
      requires |Encode(ATTESTATION, View())| < TWO_63
      ensures fresh(dAtA) && dAtA[..] == Encode(ATTESTATION, View())
    {
      hide Encode, Leaves, Tag, Filled, FrontKept;
      ghost var m := View();
      AttestationTags();
      var size := Size();
      dAtA := new Byte[size](_ => 0);
      var i := PutUnknown(dAtA, unknownFields, ATTESTATION, m);
      i := PutExternalSlot(dAtA, i, 0x32, time, ATTESTATION, m, 5);
      i := PutTextSlot(dAtA, i, 0x2a, signature, ATTESTATION, m, 4);
      i := PutTextSlot(dAtA, i, 0x22, pubkey, ATTESTATION, m, 3);
      i := PutTextSlot(dAtA, i, 0x1a, outcome, ATTESTATION, m, 2);
      i := PutNumberSlot(dAtA, i, 0x10, eventId, ATTESTATION, m, 1);
      i := PutNumberSlot(dAtA, i, 0x8, id, ATTESTATION, m, 0);
      AllFilled(dAtA, i, ATTESTATION, m);
    }

    /** `marshal`: the bytes of the message behind those of the caller. */
    method Marshal(input: Bytes) returns (output: Bytes)
      requires |Encode(ATTESTATION, View())| < TWO_63
      ensures output == input + Encode(ATTESTATION, View())
      ensures output
              == input + Joined([NumberBytes(0x8, id),
                                 NumberBytes(0x10, eventId),
                                 TextBytes(0x1a, outcome),
                                 TextBytes(0x22, pubkey),
                                 TextBytes(0x2a, signature),
                                 ListBytes([0x32], Present(time)),
                                 unknownFields])
      ensures input == [] ==> output == Encode(ATTESTATION, View())
    {
      hide Encode, Joined, NumberBytes, TextBytes, ListBytes;
      Spelling();
      var dAtA := Write();
      output := input + dAtA[..];
    }

    /** The varint cases of the field switch, given the accumulated word. */
    method SetNumber(fieldNum: int, v: nat, ghost x: nat)
      requires fieldNum in {1, 2} && v == x % Word(64)
      modifies this
      ensures View() == With(old(View()), fieldNum - 1, Num(FromWire(ATTESTATION.fields[fieldNum - 1].kind.t, x)))
      ensures id == (if fieldNum == 1 then v else old(id))
      ensures eventId == (if fieldNum == 2 then v else old(eventId))
      ensures unchanged(`outcome, `pubkey, `signature, `time, `unknownFields)
    {
      hide Leaves, OptionalLeaf;
      ghost var m := View();
      match fieldNum {
        case 1 => id := v;
        case 2 => eventId := v;
      }
      assert View().values == With(m, fieldNum - 1, View().values[fieldNum - 1]).values;
    }

    /** The length-delimited cases of the field switch, given the payload. */
    method SetChunk(fieldNum: int, p: Slice, o: Options) returns (err: Option<GoError>)
      requires fieldNum in {3, 4, 5, 6}
      modifies this
      ensures match Update(o, ATTESTATION.fields[fieldNum - 1].kind, old(View()).values[fieldNum - 1], Chunk(p))
              case Err(f) => err == Some(Report(f)) && SameBut(old(View()), View(), fieldNum - 1)
              case Ok(v) => err == None && View() == With(old(View()), fieldNum - 1, v)
      ensures outcome == (if fieldNum == 3 then p else old(outcome))
      ensures pubkey == (if fieldNum == 4 then p else old(pubkey))
      ensures signature == (if fieldNum == 5 then p else old(signature))
      ensures fieldNum != 6 ==> time == old(time)
      ensures fieldNum == 6 ==>
                var c := o.ext(TIMESTAMP, o.discardUnknown, if o.merge then old(time) else None, p);
                (err == None <==> c.Some?) && (err == None ==> time == c)
      ensures unchanged(`id, `eventId, `unknownFields)
    {
      hide Update, Leaves, OptionalLeaf;
      ghost var m := View();
      err := None;
      match fieldNum {
        case 3 => outcome := p; UpdateText(o, m.values[2], p);
        case 4 => pubkey := p; UpdateText(o, m.values[3], p);
        case 5 => signature := p; UpdateText(o, m.values[4], p);
        case 6 => err, time := UnmarshalExternal(o, TIMESTAMP, time, p);
      }
      assert View().values == With(m, fieldNum - 1, View().values[fieldNum - 1]).values;
    }

    /** One turn of the parse loop. */
    method UnmarshalField(dAtA: Slice, preIndex: nat, o: Options) returns (err: Option<GoError>, next: nat)
      requires preIndex < |dAtA|
      modifies this
      ensures Turned(ATTESTATION, o, old(View()), dAtA, preIndex, err, View(), next)
    {
      hide Cut, Update, View;
      ghost var m, b := View(), dAtA[preIndex..];
      var fieldNum: int, wireType: nat, iNdEx: nat;
      err, fieldNum, wireType, iNdEx := ReadHeader(dAtA, preIndex);
      next := iNdEx;
      if err.Some? { HeaderFails(ATTESTATION, b); return; }
      AttestationSlots(fieldNum);
      if fieldNum in {1, 2} {
        var v: nat;
        err, v, next := ReadNumberField(dAtA, preIndex, fieldNum, wireType, iNdEx,
                                        64, ATTESTATION, fieldNum - 1);
        if err.Some? { return; }
        ghost var x := Cut(ATTESTATION, b).value.payload.v;
        UpdateNum(o, ATTESTATION.fields[fieldNum - 1].kind.t, m.values[fieldNum - 1], x);
        SetNumber(fieldNum, v, x);
      } else if 1 <= fieldNum <= 6 {
        var p: Slice;
        err, p, next := ReadChunkField(dAtA, preIndex, fieldNum, wireType, iNdEx, ATTESTATION, fieldNum - 1);
        if err.Some? { return; }
        err := SetChunk(fieldNum, p, o);
      } else {
        var raw: Bytes;
        err, raw, next := ReadUnknown(dAtA, preIndex, fieldNum, wireType, iNdEx, ATTESTATION);
        if err.Some? { return; }
        KeepUnknown(raw, o);
      }
    }

    method KeepUnknown(raw: Bytes, o: Options)
      modifies this
      ensures View() == (if o.discardUnknown then old(View())
                         else old(View()).(unknown := old(View()).unknown + raw))
      ensures unknownFields == (if o.discardUnknown then old(unknownFields) else old(unknownFields) + raw)
    {
      if !o.discardUnknown { unknownFields := unknownFields + raw; }
    }

    /** The parse loop computes `Decode`: same acceptance, same message, same error; on an
        error all records in front of the refused one have been absorbed. */
    method Unmarshal(dAtA: Slice, o: Options) returns (err: Option<GoError>)
      modifies this
      ensures Unmarshalled(ATTESTATION, o, old(View()), dAtA, err, View())
    {
      hide Cut, Absorb, Decode;
      var l, iNdEx := |dAtA|, 0;
      LoopStarts(ATTESTATION, o, View(), dAtA);
      while iNdEx < l
        invariant iNdEx <= l
        invariant Decode(ATTESTATION, o, old(View()), dAtA[..iNdEx]) == Ok(View())
      {
        ghost var m := View();
        ghost var pre := iNdEx;
        err, iNdEx := UnmarshalField(dAtA, iNdEx, o);
        Turn(ATTESTATION, o, old(View()), m, dAtA, pre, err, View(), iNdEx);
        if err.Some? { return; }
      }
      // The closing test `iNdEx > l` never fires.
      assert iNdEx == l && dAtA[..iNdEx] == dAtA;
      return None;
    }
  }

  lemma AttestationSlots(num: int)
    ensures Slot(ATTESTATION.fields, num) == (if 1 <= num <= 6 then num - 1 else -1)
    ensures 1 <= num <= 6 ==> (ATTESTATION.fields[num - 1].kind.Scalar? <==> num in {1, 2})
  {
    AttestationValid();
    ConsecutiveSlot(ATTESTATION, num);
  }

  lemma AttestationTags()
    ensures Tag(1, 0) == [0x8]
    ensures Tag(2, 0) == [0x10]
    ensures Tag(3, 2) == [0x1a]
    ensures Tag(4, 2) == [0x22]
    ensures Tag(5, 2) == [0x2a]
    ensures Tag(6, 2) == [0x32]
  {
  }
}
