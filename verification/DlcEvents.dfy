/** `DLCEvent`: size, marshal and unmarshal as the generated code performs them. */
module DlcEvents {
  import opened Varints
  import opened Schemas
  import opened Records
  import opened Codec
  import opened RoundTrips
  import opened Buffers
  import opened WireForms
  import opened DlcSchemas
  import opened DlcWire
  import opened Reflection

  class DLCEvent {
    var id: uint64
    var type_: int32
    var nonce: Bytes
    var pubkey: Bytes
    var description: Bytes
    var outcomes: seq<Bytes>
    var hasTriggered: bool
    var outcomeIndex: int32
    var publishAt: Option<Bytes>
    var triggerAt: Option<Bytes>
    var unknownFields: Bytes

    ghost function View(): (m: Message)
      reads this
      ensures Fits(EVENT, m)
    {
      Message([Num(id), Num(type_), Str(nonce), Str(pubkey), Str(description),
               List(Leaves(outcomes)), Num(if hasTriggered then 1 else 0), Num(outcomeIndex),
               List(OptionalLeaf(publishAt)), List(OptionalLeaf(triggerAt))],
              unknownFields)
    }

    /** `&DLCEvent{}`. */
    constructor ()
      ensures View() == Empty(EVENT)
    {
      id, type_, nonce, pubkey, description := 0, 0, [], [], [];
      outcomes, hasTriggered, outcomeIndex := [], false, 0;
      publishAt, triggerAt, unknownFields := None, None, [];
      new;
      assert View().values == Empty(EVENT).values;
    }

    /** The size pass counts exactly the bytes of the encoding. */
    method Size() returns (n: nat)
      ensures n == |Encode(EVENT, View())|
    {
      hide Encode, Leaves, Tag, Counted;
      ghost var m := View();
      EventTags();
      NothingCounted(EVENT, m);
      n := AddNumberSlot(0, id, EVENT, m, 0);
      n := AddNumberSlot(n, type_, EVENT, m, 1);
      n := AddTextSlot(n, nonce, EVENT, m, 2);
      n := AddTextSlot(n, pubkey, EVENT, m, 3);
      n := AddTextSlot(n, description, EVENT, m, 4);
      n := AddStringsSlot(n, outcomes, EVENT, m, 5);
      n := AddBoolSlot(n, hasTriggered, EVENT, m, 6);
      n := AddNumberSlot(n, outcomeIndex, EVENT, m, 7);
      n := AddExternalSlot(n, publishAt, EVENT, m, 8);
      n := AddExternalSlot(n, triggerAt, EVENT, m, 9);
      AllCounted(n, EVENT, m);
      n := n + |unknownFields|;
    }

    /** The encoding in terms of the fields: each under its own tag, in the order of the tags. */
    lemma Spelling()
      ensures Encode(EVENT, View())
              == Joined([NumberBytes(0x8, id),
                         NumberBytes(0x10, type_),
                         TextBytes(0x1a, nonce),
                         TextBytes(0x22, pubkey),
                         TextBytes(0x2a, description),
                         ListBytes([0x32], outcomes),
                         NumberBytes(0x38, if hasTriggered then 1 else 0),
                         NumberBytes(0x40, outcomeIndex),
                         ListBytes([0x4a], Present(publishAt)),
                         ListBytes([0x52], Present(triggerAt)),
                         unknownFields])
    {
      hide Encode, NumberBytes, TextBytes, ListBytes, Joined, Encodings;
      assert AllShaped(EVENT, View());
      EventBytes(View());
      LeafEncodings(Raw, outcomes);
      OptionalEncodings(Ext(TIMESTAMP), publishAt);
      OptionalEncodings(Ext(TIMESTAMP), triggerAt);
    }

    /** The backward writes fill the buffer exactly: the falling index ends at 0. */
    method Write() returns (dAtA: array<Byte>)
      requires |Encode(EVENT, View())| < TWO_63
      ensures fresh(dAtA) && dAtA[..] == Encode(EVENT, View())
    {
      hide Encode, Leaves, Tag, Filled, FrontKept;
      ghost var m := View();
      EventTags();
      var size := Size();
      dAtA := new Byte[size](_ => 0);
      var i := PutUnknown(dAtA, unknownFields, EVENT, m);
      i := PutExternalSlot(dAtA, i, 0x52, triggerAt, EVENT, m, 9);
      i := PutExternalSlot(dAtA, i, 0x4a, publishAt, EVENT, m, 8);
      i := PutNumberSlot(dAtA, i, 0x40, outcomeIndex, EVENT, m, 7);
      i := PutBoolSlot(dAtA, i, 0x38, hasTriggered, EVENT, m, 6);
      i := PutStringsSlot(dAtA, i, 0x32, outcomes, EVENT, m, 5);
      i := PutTextSlot(dAtA, i, 0x2a, description, EVENT, m, 4);
      i := PutTextSlot(dAtA, i, 0x22, pubkey, EVENT, m, 3);
      i := PutTextSlot(dAtA, i, 0x1a, nonce, EVENT, m, 2);
      i := PutNumberSlot(dAtA, i, 0x10, type_, EVENT, m, 1);
      i := PutNumberSlot(dAtA, i, 0x8, id, EVENT, m, 0);
      AllFilled(dAtA, i, EVENT, m);
    }

    /** `marshal`: the bytes of the message behind those of the caller. */
    method Marshal(input: Bytes) returns (output: Bytes)
      requires |Encode(EVENT, View())| < TWO_63
      ensures output == input + Encode(EVENT, View())
      ensures output
              == input + Joined([NumberBytes(0x8, id),
                                 NumberBytes(0x10, type_),
                                 TextBytes(0x1a, nonce),
                                 TextBytes(0x22, pubkey),
                                 TextBytes(0x2a, description),
                                 ListBytes([0x32], outcomes),
                                 NumberBytes(0x38, if hasTriggered then 1 else 0),
                                 NumberBytes(0x40, outcomeIndex),
                                 ListBytes([0x4a], Present(publishAt)),
                                 ListBytes([0x52], Present(triggerAt)),
                                 unknownFields])
      ensures input == [] ==> output == Encode(EVENT, View())
    {
      hide Encode, Joined, NumberBytes, TextBytes, ListBytes;
      Spelling();
      var dAtA := Write();
      output := input + dAtA[..];
    }

    /** The varint cases of the field switch, given the accumulated word. */
    method SetNumber(fieldNum: int, v: nat, ghost x: nat)
      requires fieldNum in {1, 2, 7, 8} && v == x % Word(if fieldNum in {1, 7} then 64 else 32)
      modifies this
      ensures View() == With(old(View()), fieldNum - 1, Num(FromWire(EVENT.fields[fieldNum - 1].kind.t, x)))
      ensures id == (if fieldNum == 1 then v else old(id))
      ensures type_ == (if fieldNum == 2 then Int32(v) else old(type_))
      ensures hasTriggered == (if fieldNum == 7 then v != 0 else old(hasTriggered))
      ensures outcomeIndex == (if fieldNum == 8 then Int32(v) else old(outcomeIndex))
      ensures unchanged(`nonce, `pubkey, `description, `outcomes, `publishAt, `triggerAt, `unknownFields)
    {
      hide Leaves, OptionalLeaf, FromWire, Int32;
      ghost var m := View();
      WordValue(EVENT.fields[fieldNum - 1].kind.t, v, x);
      match fieldNum {
        case 1 => id := v;
        case 2 => type_ := Signed(v, TWO_31);
        case 7 => hasTriggered := v != 0;
        case 8 => outcomeIndex := Signed(v, TWO_31);
      }
      assert View().values == With(m, fieldNum - 1, View().values[fieldNum - 1]).values;
    }

    /** The string cases of the field switch, given the payload. */
    method SetText(fieldNum: int, p: Slice)
      requires fieldNum in {3, 4, 5}
      modifies this
      ensures View() == With(old(View()), fieldNum - 1, Str(p))
      ensures nonce == (if fieldNum == 3 then p else old(nonce))
      ensures pubkey == (if fieldNum == 4 then p else old(pubkey))
      ensures description == (if fieldNum == 5 then p else old(description))
      ensures unchanged(`id, `type_, `outcomes, `hasTriggered, `outcomeIndex, `publishAt, `triggerAt, `unknownFields)
    {
      hide Leaves, OptionalLeaf;
      ghost var m := View();
      match fieldNum {
        case 3 => nonce := p;
        case 4 => pubkey := p;
        case 5 => description := p;
      }
      assert View().values == With(m, fieldNum - 1, Str(p)).values;
    }

    /** The other length-delimited cases. */
    method SetChunk(fieldNum: int, p: Slice, o: Options) returns (err: Option<GoError>)
      requires fieldNum in {6, 9, 10}
      modifies this
      ensures match Update(o, EVENT.fields[fieldNum - 1].kind, old(View()).values[fieldNum - 1], Chunk(p))
              case Err(f) => err == Some(Report(f)) && SameBut(old(View()), View(), fieldNum - 1)
              case Ok(v) => err == None && View() == With(old(View()), fieldNum - 1, v)
      ensures outcomes == (if fieldNum == 6 then old(outcomes) + [p] else old(outcomes))
      ensures fieldNum != 9 ==> publishAt == old(publishAt)
      ensures fieldNum == 9 ==>
                var c := o.ext(TIMESTAMP, o.discardUnknown, if o.merge then old(publishAt) else None, p);
                (err == None <==> c.Some?) && (err == None ==> publishAt == c)
      ensures fieldNum != 10 ==> triggerAt == old(triggerAt)
      ensures fieldNum == 10 ==>
                var c := o.ext(TIMESTAMP, o.discardUnknown, if o.merge then old(triggerAt) else None, p);
                (err == None <==> c.Some?) && (err == None ==> triggerAt == c)
      ensures unchanged(`id, `type_, `nonce, `pubkey, `description, `hasTriggered, `outcomeIndex, `unknownFields)
    {
      hide Update, Leaves, OptionalLeaf;
      ghost var m := View();
      err := None;
      match fieldNum {
        case 6 => UpdateStrings(o, outcomes, p); outcomes := outcomes + [p];
        case 9 => err, publishAt := UnmarshalExternal(o, TIMESTAMP, publishAt, p);
        case 10 => err, triggerAt := UnmarshalExternal(o, TIMESTAMP, triggerAt, p);
      }
      assert View().values == With(m, fieldNum - 1, View().values[fieldNum - 1]).values;
    }

    /** One turn of the parse loop. */
    method UnmarshalField(dAtA: Slice, preIndex: nat, o: Options) returns (err: Option<GoError>, next: nat)
      requires preIndex < |dAtA|
      modifies this
      ensures Turned(EVENT, o, old(View()), dAtA, preIndex, err, View(), next)
    {
      hide Cut, Update, View;
      ghost var m, b := View(), dAtA[preIndex..];
      var fieldNum: int, wireType: nat, iNdEx: nat;
      err, fieldNum, wireType, iNdEx := ReadHeader(dAtA, preIndex);
      next := iNdEx;
      if err.Some? { HeaderFails(EVENT, b); return; }
      EventSlots(fieldNum);
      if fieldNum in {1, 2, 7, 8} {
        var v: nat;
        err, v, next := ReadNumberField(dAtA, preIndex, fieldNum, wireType, iNdEx,
                                        if fieldNum in {1, 7} then 64 else 32, EVENT, fieldNum - 1);
        if err.Some? { return; }
        ghost var x := Cut(EVENT, b).value.payload.v;
        UpdateNum(o, EVENT.fields[fieldNum - 1].kind.t, m.values[fieldNum - 1], x);
        SetNumber(fieldNum, v, x);
      } else if 1 <= fieldNum <= 10 {
        var p: Slice;
        err, p, next := ReadChunkField(dAtA, preIndex, fieldNum, wireType, iNdEx, EVENT, fieldNum - 1);
        if err.Some? { return; }
        if fieldNum <= 5 {
          UpdateText(o, m.values[fieldNum - 1], p);
          SetText(fieldNum, p);
        } else {
          err := SetChunk(fieldNum, p, o);
        }
      } else {
        var raw: Bytes;
        err, raw, next := ReadUnknown(dAtA, preIndex, fieldNum, wireType, iNdEx, EVENT);
        if err.Some? { return; }
        KeepUnknown(raw, o);
      }
    }

    method KeepUnknown(raw: Bytes, o: Options)
      modifies this
      ensures View() == (if o.discardUnknown then old(View())
                         else old(View()).(unknown := old(View()).unknown + raw))
      ensures unknownFields == (if o.discardUnknown then old(unknownFields) else old(unknownFields) + raw)
    {
      if !o.discardUnknown { unknownFields := unknownFields + raw; }
    }

    /** The parse loop computes `Decode`: same acceptance, same message, same error; on an
        error all records in front of the refused one have been absorbed. */
    method Unmarshal(dAtA: Slice, o: Options) returns (err: Option<GoError>)
      modifies this
      ensures Unmarshalled(EVENT, o, old(View()), dAtA, err, View())
    {
      hide Cut, Absorb, Decode;
      var l, iNdEx := |dAtA|, 0;
      LoopStarts(EVENT, o, View(), dAtA);
      while iNdEx < l
        invariant iNdEx <= l
        invariant Decode(EVENT, o, old(View()), dAtA[..iNdEx]) == Ok(View())
      {
        ghost var m := View();
        ghost var pre := iNdEx;
        err, iNdEx := UnmarshalField(dAtA, iNdEx, o);
        Turn(EVENT, o, old(View()), m, dAtA, pre, err, View(), iNdEx);
        if err.Some? { return; }
      }
      // The closing test `iNdEx > l` never fires.
      assert iNdEx == l && dAtA[..iNdEx] == dAtA;
      return None;
    }

    // ----- reflection; fields are named by their slot

    function Get(k: nat): (v: Value)
      requires k < 10
      reads this
      ensures v == View().values[k]
    {
      match k
      case 0 => Num(id)
      case 1 => Num(type_)
      case 2 => Str(nonce)
      case 3 => Str(pubkey)
      case 4 => Str(description)
      case 5 => List(Leaves(outcomes))
      case 6 => Num(if hasTriggered then 1 else 0)
      case 7 => Num(outcomeIndex)
      case 8 => List(OptionalLeaf(publishAt))
      case _ => List(OptionalLeaf(triggerAt))
    }

    predicate HasField(k: nat): (b: bool)
      requires k < 10
      reads this
      ensures b <==> Has(View().values[k])
    {
      match k
      case 0 => id != 0
      case 1 => type_ != 0
      case 2 => nonce != []
      case 3 => pubkey != []
      case 4 => description != []
      case 5 => |outcomes| != 0
      case 6 => hasTriggered
      case 7 => outcomeIndex != 0
      case 8 => publishAt.Some?
      case _ => triggerAt.Some?
    }

    method ClearField(k: nat)
      requires k < 10
      modifies this
      ensures View() == Clear(EVENT, old(View()), k)
    {
      if k < 2 { ClearLow(k); } else if k < 5 { ClearText(k); } else { ClearHigh(k); }
    }

    method ClearLow(k: nat)
      requires k < 2
      modifies this
      ensures View() == Clear(EVENT, old(View()), k)
    {
      hide Leaves, OptionalLeaf;
      ghost var m := View();
      match k {
        case 0 => id := 0;
        case _ => type_ := 0;
      }
      assert View().values == Clear(EVENT, m, k).values;
    }

    method ClearText(k: nat)
      requires 2 <= k < 5
      modifies this
      ensures View() == Clear(EVENT, old(View()), k)
    {
      hide Leaves, OptionalLeaf;
      ghost var m := View();
      match k {
        case 2 => nonce := [];
        case 3 => pubkey := [];
        case _ => description := [];
      }
      assert View().values == Clear(EVENT, m, k).values;
    }

    method ClearHigh(k: nat)
      requires 5 <= k < 10
      modifies this
      ensures View() == Clear(EVENT, old(View()), k)
    {
      ghost var m := View();
      match k {
        case 5 => outcomes := []; assert Leaves(outcomes) == [];
        case 6 => hasTriggered := false;
        case 7 => outcomeIndex := 0;
        case 8 => publishAt := None;
        case _ => triggerAt := None;
      }
      assert View().values == Clear(EVENT, m, k).values;
    }

    /** `Set`; a value of the wrong Go type panics, so the caller owes one of the right type. */
    method SetField(k: nat, v: Value)
      requires k < 10 && Assignable(k, v)
      modifies this
      ensures View() == With(old(View()), k, v)
    {
      if k < 5 { SetLow(k, v); } else { SetHigh(k, v); }
    }

    method SetLow(k: nat, v: Value)
      requires k < 5 && Assignable(k, v)
      modifies this
      ensures View() == With(old(View()), k, v)
    {
      hide Leaves, OptionalLeaf;
      ghost var m := View();
      match k {
        case 0 => id := v.n;
        case 1 => type_ := v.n;
        case 2 => nonce := v.text;
        case 3 => pubkey := v.text;
        case _ => description := v.text;
      }
      assert View().values == With(m, k, v).values;
    }

    method SetHigh(k: nat, v: Value)
      requires 5 <= k < 10 && Assignable(k, v)
      modifies this
      ensures View() == With(old(View()), k, v)
    {
      hide Leaves;
      ghost var m := View();
      match k {
        case 5 => outcomes := Strings(v.elts);
        case 6 => hasTriggered := v.n != 0;
        case 7 => outcomeIndex := v.n;
        case 8 => publishAt := Some(v.elts[0].bytes); assert OptionalLeaf(publishAt) == v.elts;
        case _ => triggerAt := Some(v.elts[0].bytes); assert OptionalLeaf(triggerAt) == v.elts;
      }
      assert View().values == With(m, k, v).values;
    }

    /** Range calls `f` on each populated field in ascending order, up to the first false. */
    method Range(f: (nat, Value) -> bool) returns (visited: seq<(nat, Value)>)
      ensures visited == UpToFirstFalse(Populated(View().values, 0), f)
    {
      hide Visiting, View;
      ghost var vs := View().values;
      var live := true;
      visited := [];
      assert Visiting(vs, f, visited, live, 0) by { StartVisiting(vs, f); }
      visited, live := Visit(vs, 0, Get(0), f, visited, live);
      visited, live := Visit(vs, 1, Get(1), f, visited, live);
      visited, live := Visit(vs, 2, Get(2), f, visited, live);
      visited, live := Visit(vs, 3, Get(3), f, visited, live);
      visited, live := Visit(vs, 4, Get(4), f, visited, live);
      visited, live := Visit(vs, 5, Get(5), f, visited, live);
      visited, live := Visit(vs, 6, Get(6), f, visited, live);
      visited, live := Visit(vs, 7, Get(7), f, visited, live);
      visited, live := Visit(vs, 8, Get(8), f, visited, live);
      visited, live := Visit(vs, 9, Get(9), f, visited, live);
      EndVisiting(vs, f, visited, live);
    }

    method SetEach(xs: seq<(nat, Value)>)
      requires forall j :: 0 <= j < |xs| ==> xs[j].0 < 10 && Assignable(xs[j].0, xs[j].1)
      modifies this
      ensures View() == old(View()).(values := SetAll(old(View()).values, xs))
    {
      hide View, SetAll, Assignable;
      ghost var m := View();
      SetPrefixNone(m.values, xs);
      for j := 0 to |xs|
        invariant View() == m.(values := SetAll(m.values, xs[..j]))
      {
        SetPrefixNext(m.values, xs, j);
        SetField(xs[j].0, xs[j].1);
      }
      assert xs[..|xs|] == xs;
    }

    /** Copy every field that Range visits into a fresh message with Set. */
    method CloneByRange() returns (c: DLCEvent)
      ensures fresh(c) && c.View() == View().(unknown := [])
    {
      hide View, SetAll, Assignable;
      ghost var vs := View().values;
      var visited := Range(Always);
      AllVisited(Populated(vs, 0), Always);
      RangeVisitsPopulated(vs, 0);
      forall j | 0 <= j < |visited|
        ensures visited[j].0 < 10 && Assignable(visited[j].0, visited[j].1)
      {
        PopulatedAssignable(visited[j].0);
      }
      c := new DLCEvent();
      c.SetEach(visited);
      EventShaped();
      CopyRange(EVENT, vs, Empty(EVENT).values, 0);
    }

    lemma EventShaped()
      ensures forall i :: 0 <= i < 10 ==> Shaped(EVENT.fields[i].kind, View().values[i])
    {
    }

    lemma PopulatedAssignable(k: nat)
      requires k < 10 && Has(View().values[k])
      ensures Assignable(k, View().values[k])
    {
    }

    /** Every event object is well-formed as soon as its timestamps are values of their own codec
        and its unknown bytes are complete unknown records: the field types see to the rest. */
    lemma EventWellFormed(o: Options)
      requires publishAt.Some? ==> o.ext(TIMESTAMP, o.discardUnknown, None, publishAt.value) == publishAt
      requires triggerAt.Some? ==> o.ext(TIMESTAMP, o.discardUnknown, None, triggerAt.value) == triggerAt
      requires UnknownOnly(EVENT, unknownFields)
      ensures WellFormed(o, EVENT, View())
    {
      hide UnknownOnly;
      ghost var m := View();
      assert forall x | x in Leaves(outcomes) :: GoodElt(o, Raw, x);
      assert GoodValue(o, EVENT.fields[5].kind, m.values[5]);
      assert GoodValue(o, EVENT.fields[8].kind, m.values[8]);
      assert GoodValue(o, EVENT.fields[9].kind, m.values[9]);
    }
  }

  /** Round trip of an event object: negative outcome index and type, empty outcomes and
      present-but-empty timestamps included. */
  lemma EventRoundTrip(o: Options, e: DLCEvent)
    requires !o.discardUnknown && UnknownOnly(EVENT, e.unknownFields)
    requires e.publishAt.Some? ==> o.ext(TIMESTAMP, o.discardUnknown, None, e.publishAt.value) == e.publishAt
    requires e.triggerAt.Some? ==> o.ext(TIMESTAMP, o.discardUnknown, None, e.triggerAt.value) == e.triggerAt
    requires |Encode(EVENT, e.View())| < TWO_63
    ensures Decode(EVENT, o, Empty(EVENT), Encode(EVENT, e.View())) == Ok(e.View())
  {
    hide Decode, Encode, UnknownOnly, WellFormed, ValidSchema;
    EventValid();
    e.EventWellFormed(o);
    RoundTrip(o, EVENT, e.View());
  }

  predicate Always(k: nat, v: Value) {
    true
  }

  /** What `Set` accepts for each field. */
  predicate Assignable(k: nat, v: Value) {
    match k
    case 0 => v.Num? && InRange(U64, v.n)
    case 1 => v.Num? && InRange(Enum, v.n)
    case 5 => v.List? && forall x | x in v.elts :: x.Leaf?
    case 6 => v.Num? && InRange(Bool, v.n)
    case 7 => v.Num? && InRange(I32, v.n)
    case 8 => v.List? && |v.elts| == 1 && v.elts[0].Leaf?
    case 9 => v.List? && |v.elts| == 1 && v.elts[0].Leaf?
    case _ => v.Str?
  }

  function Strings(xs: seq<Elt>): (ps: seq<Bytes>)
    requires forall x | x in xs :: x.Leaf?
    ensures Leaves(ps) == xs
  {
    var ps := seq(|xs|, i requires 0 <= i < |xs| => assert xs[i] in xs; xs[i].bytes);
    assert forall i :: 0 <= i < |xs| ==> xs[i] in xs && Leaves(ps)[i] == xs[i];
    ps
  }

  lemma EventSlots(num: int)
    ensures Slot(EVENT.fields, num) == (if 1 <= num <= 10 then num - 1 else -1)
    ensures 1 <= num <= 10 ==> (EVENT.fields[num - 1].kind.Scalar? <==> num in {1, 2, 7, 8})
  {
    EventValid();
    ConsecutiveSlot(EVENT, num);
  }

  lemma EventTags()
    ensures Tag(1, 0) == [0x8] && Tag(2, 0) == [0x10] && Tag(3, 2) == [0x1a] && Tag(4, 2) == [0x22]
    ensures Tag(5, 2) == [0x2a] && Tag(6, 2) == [0x32] && Tag(7, 0) == [0x38] && Tag(8, 0) == [0x40]
    ensures Tag(9, 2) == [0x4a] && Tag(10, 2) == [0x52]
  {
  }
}
