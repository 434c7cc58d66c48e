/**
 `GenesisState`: a message that holds other message objects. Marshal walks its lists backwards and
 asks every element for its encoding; unmarshal appends a fresh object and lets it parse its slice.
 */
module DlcGenesis {
  import opened Varints
  import opened Schemas
  import opened Records
  import opened Codec
  import opened RoundTrips
  import opened Buffers
  import opened WireForms
  import opened DlcSchemas
  import opened DlcWire
  import opened DlcEvents
  import opened DlcAttestations
  import opened DlcParams

  ghost function EventNodes(es: seq<DLCEvent>): (xs: seq<Elt>)
    reads es
    ensures |xs| == |es| && forall i :: 0 <= i < |es| ==> xs[i] == Node(es[i].View())
  {
    seq(|es|, i requires 0 <= i < |es| reads es => Node(es[i].View()))
  }

  ghost function AttestationNodes(es: seq<DLCAttestation>): (xs: seq<Elt>)
    reads es
    ensures |xs| == |es| && forall i :: 0 <= i < |es| ==> xs[i] == Node(es[i].View())
  {
    seq(|es|, i requires 0 <= i < |es| reads es => Node(es[i].View()))
  }

  ghost function ParamsNode(p: Params?): seq<Elt>
    reads p
  {
    if p == null then [] else [Node(p.View())]
  }

  /** One more element at the end. */
  predicate Grown<T(==)>(xs: seq<T>, ys: seq<T>) {
    |ys| == |xs| + 1 && ys[..|xs|] == xs
  }

  class GenesisState {
    var params: Params?
    var events: seq<DLCEvent>
    var attestations: seq<DLCAttestation>
    var unknownFields: Bytes

    ghost function View(): (m: Message)
      reads this, params, events, attestations
      ensures Fits(GENESIS, m) && m.unknown == unknownFields
    {
      Message([List(ParamsNode(params)), List(EventNodes(events)), List(AttestationNodes(attestations))],
              unknownFields)
    }

    /** `&GenesisState{}`. */
    constructor ()
      ensures View() == Empty(GENESIS) && params == null && events == [] && attestations == []
    {
      params, events, attestations, unknownFields := null, [], [], [];
      new;
      assert View().values == Empty(GENESIS).values;
    }

    /** The size pass counts exactly the bytes of the encoding, through the nested messages. */
    method Size() returns (n: nat)
      ensures n == |Encode(GENESIS, View())|
    {
      hide Encode, Tag, Tail, EncodeElts, EncodeChunk, EncodeElt, Sov;
      ghost var m := View();
      GenesisTags();
      n := 0;
      if params != null {
        var l := params.Size();
        n := n + 1 + l + Sov(l);
        NodeSize(1, PARAMS, params.View());
      }
      assert n == |EncodeElts(1, Sub(PARAMS), ParamsNode(params))| by {
        NoElts(1, Sub(PARAMS));
        if params != null { OneElt(1, Sub(PARAMS), Node(params.View())); }
      }
      var k := SizeEvents();
      n := n + k;
      k := SizeAttestations();
      n := n + k;
      ThreeLists(m);
      n := n + |unknownFields|;
    }

    method SizeEvents() returns (n: nat)
      ensures n == |EncodeElts(2, Sub(EVENT), EventNodes(events))|
    {
      hide Encode, Tag, EncodeElts, EncodeChunk, EncodeElt, Sov;
      ghost var xs := EventNodes(events);
      GenesisTags();
      n := 0;
      assert xs[..0] == [];
      NoElts(2, Sub(EVENT));
      for k := 0 to |events|
        invariant n == |EncodeElts(2, Sub(EVENT), xs[..k])|
      {
        var l := events[k].Size();
        n := n + 1 + l + Sov(l);
        EltsAt(2, Sub(EVENT), xs, k);
        NodeSize(2, EVENT, events[k].View());
      }
      assert xs[..|xs|] == xs;
    }

    method SizeAttestations() returns (n: nat)
      ensures n == |EncodeElts(3, Sub(ATTESTATION), AttestationNodes(attestations))|
    {
      hide Encode, Tag, EncodeElts, EncodeChunk, EncodeElt, Sov;
      ghost var xs := AttestationNodes(attestations);
      GenesisTags();
      n := 0;
      assert xs[..0] == [];
      NoElts(3, Sub(ATTESTATION));
      for k := 0 to |attestations|
        invariant n == |EncodeElts(3, Sub(ATTESTATION), xs[..k])|
      {
        var l := attestations[k].Size();
        n := n + 1 + l + Sov(l);
        EltsAt(3, Sub(ATTESTATION), xs, k);
        NodeSize(3, ATTESTATION, attestations[k].View());
      }
      assert xs[..|xs|] == xs;
    }

    /** The encoding in terms of the fields: each under its own tag, in the order of the tags. */
    lemma Spelling()
      ensures Encode(GENESIS, View())
              == Joined([ListBytes([0xa], Encodings(Sub(PARAMS), ParamsNode(params))),
                         ListBytes([0x12], Encodings(Sub(EVENT), EventNodes(events))),
                         ListBytes([0x1a], Encodings(Sub(ATTESTATION), AttestationNodes(attestations))),
                         unknownFields])
    {
      hide Encode, NumberBytes, TextBytes, ListBytes, Joined, Encodings;
      assert AllShaped(GENESIS, View());
      GenesisBytes(View());
    }

    /** Backward writes, nested encodings included, fill the buffer exactly. */
    method Write() returns (dAtA: array<Byte>)
      requires |Encode(GENESIS, View())| < TWO_63
      ensures fresh(dAtA) && dAtA[..] == Encode(GENESIS, View())
    {
      hide Encode, Filled, FrontKept, View;
      ghost var m := View();
      var size := Size();
      dAtA := new Byte[size](_ => 0);
      var i := PutUnknown(dAtA, unknownFields, GENESIS, m);
      i := PutAttestations(dAtA, i, m);
      i := PutEvents(dAtA, i, m);
      i := PutParams(dAtA, i, m);
      AllFilled(dAtA, i, GENESIS, m);
    }

    /** `marshal`: the bytes of the message behind those of the caller. */
    method Marshal(input: Bytes) returns (output: Bytes)
      requires |Encode(GENESIS, View())| < TWO_63
      ensures output == input + Encode(GENESIS, View())
      ensures output
              == input + Joined([ListBytes([0xa], Encodings(Sub(PARAMS), ParamsNode(params))),
                                 ListBytes([0x12], Encodings(Sub(EVENT), EventNodes(events))),
                                 ListBytes([0x1a], Encodings(Sub(ATTESTATION), AttestationNodes(attestations))),
                                 unknownFields])
      ensures input == [] ==> output == Encode(GENESIS, View())
    {
      hide Encode, Joined, NumberBytes, TextBytes, ListBytes;
      Spelling();
      var dAtA := Write();
      output := input + dAtA[..];
    }

    method PutAttestations(dAtA: array<Byte>, i: nat, ghost m: Message) returns (j: nat)
      requires m == View()
      requires Filled(dAtA, i, GENESIS, m, 3)
      modifies dAtA
      ensures Filled(dAtA, j, GENESIS, m, 2)
      ensures FrontKept(dAtA, i, j)
    {
      hide Encode, Tail, EncodeElts, EncodeElt;
      TailStep(GENESIS, m, 2);
      j := PutAttestationsBackwards(dAtA, i);
    }

    /** The backward loop: every element is asked for its encoding. */
    method PutAttestationsBackwards(dAtA: array<Byte>, i: nat) returns (j: nat)
      requires |EncodeElts(3, Sub(ATTESTATION), AttestationNodes(attestations))| <= i <= dAtA.Length
      requires |EncodeElts(3, Sub(ATTESTATION), AttestationNodes(attestations))| < TWO_63
      modifies dAtA
      ensures j == i - |EncodeElts(3, Sub(ATTESTATION), AttestationNodes(attestations))|
      ensures dAtA[j..] == EncodeElts(3, Sub(ATTESTATION), AttestationNodes(attestations)) + old(dAtA[i..])
      ensures dAtA[..j] == old(dAtA[..j])
    {
      hide Encode, Tag, EncodeElts, EncodeElt;
      ghost var e, xs := Sub(ATTESTATION), AttestationNodes(attestations);
      ghost var tail := dAtA[i..];
      GenesisTags();
      assert xs[|xs|..] == [];
      NoElts(3, e);
      j := i;
      for k := |attestations| downto 0
        invariant j == i - |EncodeElts(3, e, xs[k..])|
        invariant dAtA[j..] == EncodeElts(3, e, xs[k..]) + tail
        invariant dAtA[..j] == old(dAtA[..j])
      {
        NodeEncoding(ATTESTATION, attestations[k].View(), 3, xs, k);
        var encoded := attestations[k].Write();
        j := PutElement(dAtA, j, 0x1a, encoded[..], i, 3, e, xs, k, tail);
      }
      assert xs[0..] == xs;
    }

    method PutEvents(dAtA: array<Byte>, i: nat, ghost m: Message) returns (j: nat)
      requires m == View()
      requires Filled(dAtA, i, GENESIS, m, 2)
      modifies dAtA
      ensures Filled(dAtA, j, GENESIS, m, 1)
      ensures FrontKept(dAtA, i, j)
    {
      hide Encode, Tail, EncodeElts, EncodeElt;
      TailStep(GENESIS, m, 1);
      j := PutEventsBackwards(dAtA, i);
    }

    /** The backward loop: every element is asked for its encoding. */
    method PutEventsBackwards(dAtA: array<Byte>, i: nat) returns (j: nat)
      requires |EncodeElts(2, Sub(EVENT), EventNodes(events))| <= i <= dAtA.Length
      requires |EncodeElts(2, Sub(EVENT), EventNodes(events))| < TWO_63
      modifies dAtA
      ensures j == i - |EncodeElts(2, Sub(EVENT), EventNodes(events))|
      ensures dAtA[j..] == EncodeElts(2, Sub(EVENT), EventNodes(events)) + old(dAtA[i..])
      ensures dAtA[..j] == old(dAtA[..j])
    {
      hide Encode, Tag, EncodeElts, EncodeElt;
      ghost var e, xs := Sub(EVENT), EventNodes(events);
      ghost var tail := dAtA[i..];
      GenesisTags();
      assert xs[|xs|..] == [];
      NoElts(2, e);
      j := i;
      for k := |events| downto 0
        invariant j == i - |EncodeElts(2, e, xs[k..])|
        invariant dAtA[j..] == EncodeElts(2, e, xs[k..]) + tail
        invariant dAtA[..j] == old(dAtA[..j])
      {
        NodeEncoding(EVENT, events[k].View(), 2, xs, k);
        var encoded := events[k].Write();
        j := PutElement(dAtA, j, 0x12, encoded[..], i, 2, e, xs, k, tail);
      }
      assert xs[0..] == xs;
    }

    method PutParams(dAtA: array<Byte>, i: nat, ghost m: Message) returns (j: nat)
      requires m == View()
      requires Filled(dAtA, i, GENESIS, m, 1)
      modifies dAtA
      ensures Filled(dAtA, j, GENESIS, m, 0)
      ensures FrontKept(dAtA, i, j)
    {
      hide Encode, Tag, Tail, EncodeElts, EncodeChunk, EncodeElt;
      GenesisTags();
      TailStep(GENESIS, m, 0);
      NoElts(1, Sub(PARAMS));
      j := i;
      if params != null {
        OneElt(1, Sub(PARAMS), Node(params.View()));
        NodeSize(1, PARAMS, params.View());
        var encoded := params.Write();
        j := PutChunk(dAtA, i, 0xa, encoded[..], 1);
      }
    }

    /** The three cases of the field switch, given the payload. */
    method SetChunk(fieldNum: int, p: Slice, o: Options) returns (err: Option<GoError>)
      requires 1 <= fieldNum <= 3
      modifies this, params
      ensures match Update(o, GENESIS.fields[fieldNum - 1].kind, old(View()).values[fieldNum - 1], Chunk(p))
              case Err(f) => err == Some(Report(f)) && SameBut(old(View()), View(), fieldNum - 1)
              case Ok(v) => err == None && View() == With(old(View()), fieldNum - 1, v)
      ensures params == old(params) || fresh(params)
      ensures fieldNum != 1 ==> params == old(params)
      ensures if fieldNum == 2 then Grown(old(events), events) else events == old(events)
      ensures if fieldNum == 3 then Grown(old(attestations), attestations) else attestations == old(attestations)
      ensures unknownFields == old(unknownFields)
    {
      if fieldNum == 1 {
        err := SetParams(p, o);
      } else if fieldNum == 2 {
        err := AppendEvent(p, o);
      } else {
        err := AppendAttestation(p, o);
      }
    }

    /** Allocate the sub-message if absent; without merging, start it afresh. */
    method PrepareParams(o: Options)
      modifies this, params
      ensures params != null && (params == old(params) || fresh(params))
      ensures params.View()
              == (if o.merge then old(if params == null then Empty(PARAMS) else params.View()) else Empty(PARAMS))
      ensures events == old(events) && attestations == old(attestations) && unknownFields == old(unknownFields)
    {
      hide Empty;
      if params == null { params := new Params(); }
      if !o.merge { params.Reset(); }
    }

    method SetParams(p: Slice, o: Options) returns (err: Option<GoError>)
      modifies this, params
      ensures match Update(o, One(Sub(PARAMS)), old(View()).values[0], Chunk(p))
              case Err(f) => err == Some(Report(f)) && SameBut(old(View()), View(), 0)
              case Ok(v) => err == None && View() == With(old(View()), 0, v)
      ensures params == old(params) || fresh(params)
      ensures events == old(events) && attestations == old(attestations) && unknownFields == old(unknownFields)
    {
      hide Decode, Update, EventNodes, AttestationNodes;
      ghost var m := View();
      PrepareParams(o);
      UpdateSub(o, PARAMS, m.values[0], params.View(), p);
      err := params.Unmarshal(p, o);
      assert EventNodes(events) == old(EventNodes(events));
      assert AttestationNodes(attestations) == old(AttestationNodes(attestations));
      assert View().values == With(m, 0, List([Node(params.View())])).values;
    }

    method AppendEvent(p: Slice, o: Options) returns (err: Option<GoError>)
      modifies this
      ensures match Update(o, Many(Sub(EVENT)), old(View()).values[1], Chunk(p))
              case Err(f) => err == Some(Report(f)) && SameBut(old(View()), View(), 1)
              case Ok(v) => err == None && View() == With(old(View()), 1, v)
      ensures params == old(params) && Grown(old(events), events)
      ensures attestations == old(attestations) && unknownFields == old(unknownFields)
    {
      hide Decode, Update, ParamsNode, AttestationNodes;
      ghost var m, es := View(), events;
      var event := new DLCEvent();
      events := events + [event];
      err := event.Unmarshal(p, o);
      AppendSub(o, EVENT, m.values[1].elts, p);
      assert EventNodes(events) == EventNodes(es) + [Node(event.View())];
      if err.None? {
        assert View().values == With(m, 1, List(EventNodes(events))).values;
      }
    }

    method AppendAttestation(p: Slice, o: Options) returns (err: Option<GoError>)
      modifies this
      ensures match Update(o, Many(Sub(ATTESTATION)), old(View()).values[2], Chunk(p))
              case Err(f) => err == Some(Report(f)) && SameBut(old(View()), View(), 2)
              case Ok(v) => err == None && View() == With(old(View()), 2, v)
      ensures params == old(params) && Grown(old(attestations), attestations)
      ensures events == old(events) && unknownFields == old(unknownFields)
    {
      hide Decode, Update, ParamsNode, EventNodes;
      ghost var m, es := View(), attestations;
      var attestation := new DLCAttestation();
      attestations := attestations + [attestation];
      err := attestation.Unmarshal(p, o);
      AppendSub(o, ATTESTATION, m.values[2].elts, p);
      assert AttestationNodes(attestations) == AttestationNodes(es) + [Node(attestation.View())];
      if err.None? {
        assert View().values == With(m, 2, List(AttestationNodes(attestations))).values;
      }
    }

    /** One turn of the parse loop. */
    method UnmarshalField(dAtA: Slice, preIndex: nat, o: Options) returns (err: Option<GoError>, next: nat)
      requires preIndex < |dAtA|
      modifies this, params
      ensures Turned(GENESIS, o, old(View()), dAtA, preIndex, err, View(), next)
      ensures params == old(params) || fresh(params)
    {
      hide Cut, Update, View;
      ghost var m, b := View(), dAtA[preIndex..];
      var fieldNum: int, wireType: nat, iNdEx: nat;
      err, fieldNum, wireType, iNdEx := ReadHeader(dAtA, preIndex);
      next := iNdEx;
      if err.Some? { HeaderFails(GENESIS, b); return; }
      GenesisSlots(fieldNum);
      if 1 <= fieldNum <= 3 {
        var p: Slice;
        err, p, next := ReadChunkField(dAtA, preIndex, fieldNum, wireType, iNdEx, GENESIS, fieldNum - 1);
        if err.Some? { return; }
        err := SetChunk(fieldNum, p, o);
      } else {
        var raw: Bytes;
        err, raw, next := ReadUnknown(dAtA, preIndex, fieldNum, wireType, iNdEx, GENESIS);
        if err.Some? { return; }
        KeepUnknown(raw, o);
      }
    }

    method KeepUnknown(raw: Bytes, o: Options)
      modifies this
      ensures View() == (if o.discardUnknown then old(View())
                         else old(View()).(unknown := old(View()).unknown + raw))
      ensures params == old(params)
    {
      if !o.discardUnknown { unknownFields := unknownFields + raw; }
    }

    /** The parse loop computes `Decode`, nested messages included. */
    method Unmarshal(dAtA: Slice, o: Options) returns (err: Option<GoError>)
      modifies this, params
      ensures Unmarshalled(GENESIS, o, old(View()), dAtA, err, View())
    {
      hide Cut, Absorb, Decode;
      var l, iNdEx := |dAtA|, 0;
      LoopStarts(GENESIS, o, View(), dAtA);
      while iNdEx < l
        invariant iNdEx <= l && (params == old(params) || fresh(params))
        invariant Decode(GENESIS, o, old(View()), dAtA[..iNdEx]) == Ok(View())
      {
        ghost var m := View();
        ghost var pre := iNdEx;
        err, iNdEx := UnmarshalField(dAtA, iNdEx, o);
        Turn(GENESIS, o, old(View()), m, dAtA, pre, err, View(), iNdEx);
        if err.Some? { return; }
      }
      // The closing test `iNdEx > l` never fires.
      assert iNdEx == l && dAtA[..iNdEx] == dAtA;
      return None;
    }
  }

  /** Marshal a genesis object and unmarshal the buffer into a fresh one: the two objects agree on
      every field, every list element and its order, and every unknown byte, at every level. */
  method Reload(g: GenesisState, o: Options) returns (h: GenesisState, err: Option<GoError>)
    requires WellFormed(o, GENESIS, g.View()) && !o.discardUnknown
    requires |Encode(GENESIS, g.View())| < TWO_63
    ensures fresh(h) && err == None && h.View() == g.View()
  {
    hide WellFormed, Encode, Decode, ValidSchema, GenesisState.View;
    ghost var m := g.View();
    var buf := g.Marshal([]);
    h := new GenesisState();
    GenesisValid();
    RoundTrip(o, GENESIS, m);
    err := h.Unmarshal(buf, o);
  }

  lemma GenesisTags()
    ensures Tag(1, 2) == [0xa] && Tag(2, 2) == [0x12] && Tag(3, 2) == [0x1a]
  {
  }

  lemma GenesisSlots(num: int)
    ensures Slot(GENESIS.fields, num) == (if 1 <= num <= 3 then num - 1 else -1)
    ensures forall i :: 0 <= i < 3 ==> !GENESIS.fields[i].kind.Scalar?
  {
    hide ValidSchema;
    GenesisValid();
    ConsecutiveSlot(GENESIS, num);
  }

  /** A nested message's record, in terms of the nested size. */
  lemma NodeSize(num: nat, s: Schema, m: Message)
    requires |Tag(num, 2)| == 1
    ensures EncodeElt(Sub(s), Node(m)) == Encode(s, m)
    ensures |EncodeChunk(num, Encode(s, m))| == 1 + |Encode(s, m)| + Sov(|Encode(s, m)|)
  {
    hide Encode, Tag;
    ChunkSize(num, Encode(s, m));
  }

  /** Element `k` of a list of messages is encoded like any message, and is shorter than the list. */
  lemma NodeEncoding(s: Schema, m: Message, num: nat, xs: seq<Elt>, k: nat)
    requires k < |xs| && xs[k] == Node(m)
    ensures EncodeElt(Sub(s), xs[k]) == Encode(s, m)
    ensures |Encode(s, m)| < |EncodeElts(num, Sub(s), xs)|
  {
    hide Encode, EncodeElts, EncodeChunk;
    EltsAt(num, Sub(s), xs, k);
    ChunkLonger(num, Encode(s, m));
  }

  lemma OneElt(num: nat, e: Elem, x: Elt)
    ensures EncodeElts(num, e, [x]) == EncodeChunk(num, EncodeElt(e, x))
  {
    hide EncodeChunk, EncodeElt;
    assert [x][1..] == [];
    NoElts(num, e);
  }

  lemma ThreeLists(m: Message)
    requires Fits(GENESIS, m) && m.values[0].List? && m.values[1].List? && m.values[2].List?
    ensures |Encode(GENESIS, m)|
            == |EncodeElts(1, Sub(PARAMS), m.values[0].elts)| + |EncodeElts(2, Sub(EVENT), m.values[1].elts)|
               + |EncodeElts(3, Sub(ATTESTATION), m.values[2].elts)| + |m.unknown|
  {
    hide Encode, Tail, EncodeElts;
    TailEnds(GENESIS, m);
    TailStep(GENESIS, m, 0);
    TailStep(GENESIS, m, 1);
    TailStep(GENESIS, m, 2);
  }

  /** A singular sub-message: `start` is the object handed to `options.Unmarshal`. */
  lemma UpdateSub(o: Options, s: Schema, v: Value, start: Message, p: Bytes)
    requires v.List? && |v.elts| <= 1 && Fits(s, start)
    requires start == (if o.merge && v.elts != [] && v.elts[0].Node? then v.elts[0].msg else Empty(s))
    ensures match Decode(s, o, start, p)
            case Err(f) => Update(o, One(Sub(s)), v, Chunk(p)) == Err(Final(Report(f)))
            case Ok(m) => Update(o, One(Sub(s)), v, Chunk(p)) == Ok(List([Node(m)]))
  {
  }

  /** A repeated sub-message: a fresh object is appended. */
  lemma AppendSub(o: Options, s: Schema, xs: seq<Elt>, p: Bytes)
    ensures match Decode(s, o, Empty(s), p)
            case Err(f) => Update(o, Many(Sub(s)), List(xs), Chunk(p)) == Err(Final(Report(f)))
            case Ok(m) => Update(o, Many(Sub(s)), List(xs), Chunk(p)) == Ok(List(xs + [Node(m)]))
  {
  }
}
