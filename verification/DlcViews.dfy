/**
 `_GenesisState_2_list`, the list view of a genesis message's events: a pointer to the message's own
 field, so that whatever is done to the view is done to the message.
 */
module DlcViews {
  import opened Schemas
  import opened RoundTrips
  import opened DlcSchemas
  import opened DlcEvents
  import opened DlcGenesis

  /** One operation on the list or on an event, events being named by handles. */
  datatype ListOp =
    | Append(h: nat)
    | AppendMutable
    | SetAt(i: nat, h: nat)
    | Truncate(n: nat)
    | Edit(h: nat, k: nat, v: Value)

  /** The value behind each handle, and the handles in the list: two places may share an event. */
  datatype Store = Store(values: seq<Message>, list: seq<nat>)

  predicate ValidStore(st: Store) {
    && (forall i :: 0 <= i < |st.list| ==> st.list[i] < |st.values|)
    && (forall h :: 0 <= h < |st.values| ==> Fits(EVENT, st.values[h]))
  }

  /** The operation stays inside the list and sets a field to a value of its type; otherwise the Go
      code panics. */
  predicate Legal(st: Store, op: ListOp) {
    match op
    case Append(h) => h < |st.values|
    case AppendMutable => true
    case SetAt(i, h) => i < |st.list| && h < |st.values|
    case Truncate(n) => n <= |st.list|
    case Edit(h, k, v) => h < |st.values| && k < 10 && Assignable(k, v)
  }

  /** A new event gets the next handle. */
  ghost function Apply(st: Store, op: ListOp): (r: Store)
    requires ValidStore(st) && Legal(st, op)
    ensures ValidStore(r) && |st.values| <= |r.values|
  {
    match op
    case Append(h) => st.(list := st.list + [h])
    case AppendMutable => Store(st.values + [Empty(EVENT)], st.list + [|st.values|])
    case SetAt(i, h) => st.(list := st.list[i := h])
    case Truncate(n) => st.(list := st.list[..n])
    case Edit(h, k, v) => st.(values := st.values[h := With(st.values[h], k, v)])
  }

  /** Every operation of the run is legal when its turn comes. */
  ghost predicate LegalRun(st: Store, ops: seq<ListOp>)
    requires ValidStore(st)
    decreases |ops|
  {
    ops == [] || (Legal(st, ops[0]) && LegalRun(Apply(st, ops[0]), ops[1..]))
  }

  ghost function Run(st: Store, ops: seq<ListOp>): (r: Store)
    requires ValidStore(st) && LegalRun(st, ops)
    ensures ValidStore(r)
    decreases |ops|
  {
    if ops == [] then st else Run(Apply(st, ops[0]), ops[1..])
  }

  /** The list as message values. */
  ghost function Listed(st: Store): (xs: seq<Elt>)
    requires ValidStore(st)
  {
    seq(|st.list|, i requires 0 <= i < |st.list| => Node(st.values[st.list[i]]))
  }

  /** The objects `pool` and the list `es` are what the store describes. */
  ghost predicate Represents(pool: seq<DLCEvent>, es: seq<DLCEvent>, st: Store)
    reads pool
  {
    && ValidStore(st) && |pool| == |st.values| && |es| == |st.list|
    && (forall g, h :: 0 <= g < h < |pool| ==> pool[g] != pool[h])
    && (forall h :: 0 <= h < |pool| ==> pool[h].View() == st.values[h])
    && (forall i :: 0 <= i < |es| ==> es[i] == pool[st.list[i]])
  }

  lemma RepresentsListed(pool: seq<DLCEvent>, es: seq<DLCEvent>, st: Store)
    requires Represents(pool, es, st)
    ensures EventNodes(es) == Listed(st)
  {
    hide DLCEvent.View;
    forall i | 0 <= i < |es|
      ensures EventNodes(es)[i] == Listed(st)[i]
    {
      assert es[i] == pool[st.list[i]];
    }
  }

  /** An element from AppendMutable, edited through the handle it was returned with, is edited in
      the list. */
  lemma EditAfterAppend(st: Store, k: nat, v: Value)
    requires ValidStore(st) && k < 10 && Assignable(k, v)
    ensures var ops := [AppendMutable, Edit(|st.values|, k, v)];
            LegalRun(st, ops) && Listed(Run(st, ops)) == Listed(st) + [Node(With(Empty(EVENT), k, v))]
  {
    hide Empty, Assignable, Run, LegalRun;
    var st1 := Apply(st, AppendMutable);
    var st2 := Apply(st1, Edit(|st.values|, k, v));
    RunTwo(st, AppendMutable, Edit(|st.values|, k, v));
    assert st2.values == st.values + [With(Empty(EVENT), k, v)];
    assert Listed(st2) == Listed(st) + [Node(With(Empty(EVENT), k, v))];
  }

  lemma RunTwo(st: Store, a: ListOp, b: ListOp)
    requires ValidStore(st) && Legal(st, a) && Legal(Apply(st, a), b)
    ensures LegalRun(st, [a, b]) && Run(st, [a, b]) == Apply(Apply(st, a), b)
  {
    hide Apply, Legal;
    assert [a, b][1..] == [b] && [b][1..] == [];
    var st1 := Apply(st, a);
    assert LegalRun(Apply(st1, b), []) && LegalRun(st1, [b]) && LegalRun(st, [a, b]);
    assert Run(st1, [b]) == Run(Apply(st1, b), []) == Apply(st1, b);
  }

  class EventsView {
    const owner: GenesisState

    /** `Mutable`: the view of the message's events. */
    constructor (owner: GenesisState)
      ensures this.owner == owner
    {
      this.owner := owner;
    }

    method Len() returns (n: nat)
      ensures n == |owner.View().values[1].elts|
    {
      n := |owner.events|;
    }

    method Append(e: DLCEvent)
      modifies owner
      ensures owner.events == old(owner.events) + [e] && owner.params == old(owner.params)
      ensures owner.View() == With(old(owner.View()), 1, List(old(EventNodes(owner.events)) + [Node(e.View())]))
    {
      ghost var m, es := owner.View(), owner.events;
      owner.events := owner.events + [e];
      assert EventNodes(owner.events) == EventNodes(es) + [Node(e.View())];
      assert owner.View().values == With(m, 1, List(EventNodes(owner.events))).values;
    }

    /** The element returned is the one in the message: changing it changes the message. */
    method AppendMutable() returns (e: DLCEvent)
      modifies owner
      ensures fresh(e) && e.View() == Empty(EVENT)
      ensures owner.events == old(owner.events) + [e] && owner.params == old(owner.params)
      ensures owner.View() == With(old(owner.View()), 1, List(old(EventNodes(owner.events)) + [Node(Empty(EVENT))]))
    {
      e := new DLCEvent();
      Append(e);
    }

    method Set(i: nat, e: DLCEvent)
      requires i < |owner.events|
      modifies owner
      ensures owner.events == old(owner.events)[i := e] && owner.params == old(owner.params)
      ensures owner.View() == With(old(owner.View()), 1, List(old(EventNodes(owner.events))[i := Node(e.View())]))
    {
      ghost var m, es := owner.View(), owner.events;
      owner.events := owner.events[i := e];
      assert EventNodes(owner.events) == EventNodes(es)[i := Node(e.View())];
      assert owner.View().values == With(m, 1, List(EventNodes(owner.events))).values;
    }

    method Truncate(n: nat)
      requires n <= |owner.events|
      modifies owner
      ensures owner.events == old(owner.events)[..n] && owner.params == old(owner.params)
      ensures owner.View() == With(old(owner.View()), 1, List(old(EventNodes(owner.events))[..n]))
    {
      ghost var m, es := owner.View(), owner.events;
      owner.events := owner.events[..n];
      assert EventNodes(owner.events) == EventNodes(es)[..n];
      assert owner.View().values == With(m, 1, List(EventNodes(owner.events))).values;
    }

    /** Changing an event changes it at every place of the list that holds it. */
    method EditEvent(pool: seq<DLCEvent>, h: nat, k: nat, v: Value, ghost st: Store)
      requires Represents(pool, owner.events, st) && Legal(st, Edit(h, k, v))
      modifies pool
      ensures Represents(pool, owner.events, Apply(st, Edit(h, k, v)))
    {
      hide DLCEvent.View, Assignable;
      pool[h].SetField(k, v);
    }

    method PerformOne(pool: seq<DLCEvent>, op: ListOp, ghost st: Store) returns (pool': seq<DLCEvent>)
      requires Represents(pool, owner.events, st) && Legal(st, op)
      modifies owner, pool
      ensures Represents(pool', owner.events, Apply(st, op))
      ensures pool <= pool' && forall h :: |pool| <= h < |pool'| ==> fresh(pool'[h])
      ensures owner.params == old(owner.params)
      ensures owner.View() == With(old(owner.View()), 1, List(Listed(Apply(st, op))))
    {
      hide DLCEvent.View, Assignable, Empty;
      ghost var m := owner.View();
      pool' := pool;
      match op {
        case Append(h) => Append(pool[h]);
        case AppendMutable => var e := AppendMutable(); pool' := pool + [e];
        case SetAt(i, h) => Set(i, pool[h]);
        case Truncate(n) => Truncate(n);
        case Edit(h, k, v) => EditEvent(pool, h, k, v, st);
      }
      RepresentsListed(pool', owner.events, Apply(st, op));
      assert owner.View().values == With(m, 1, List(EventNodes(owner.events))).values;
    }

    /** Any run of operations on the view, and of changes to the events behind it, leaves the message
        with what the same run makes of a list of shared values; the other fields stay, and so
        marshal writes exactly that list. */
    method Perform(pool: seq<DLCEvent>, ops: seq<ListOp>, ghost st: Store) returns (pool': seq<DLCEvent>)
      requires Represents(pool, owner.events, st) && LegalRun(st, ops)
      modifies owner, pool
      ensures Represents(pool', owner.events, Run(st, ops))
      ensures pool <= pool' && forall h :: |pool| <= h < |pool'| ==> fresh(pool'[h])
      ensures owner.View() == With(old(owner.View()), 1, List(Listed(Run(st, ops))))
      decreases |ops|
    {
      assert ValidStore(st);
      hide Apply, Legal, Represents, GenesisState.View, DLCEvent.View, Listed;
      ghost var m := owner.View();
      pool' := pool;
      if ops == [] {
        NothingDone(owner, pool, st);
      } else {
        pool' := PerformOne(pool, ops[0], st);
        pool' := Perform(pool', ops[1..], Apply(st, ops[0]));
        WithTwice(m, 1, List(Listed(Apply(st, ops[0]))), List(Listed(Run(st, ops))));
      }
    }
  }

  lemma NothingDone(g: GenesisState, pool: seq<DLCEvent>, st: Store)
    requires Represents(pool, g.events, st)
    ensures g.View() == With(g.View(), 1, List(Listed(st)))
  {
    RepresentsListed(pool, g.events, st);
    assert With(g.View(), 1, g.View().values[1]).values == g.View().values;
  }

  lemma WithTwice(m: Message, i: nat, v: Value, w: Value)
    requires i < |m.values|
    ensures With(With(m, i, v), i, w) == With(m, i, w)
  {
  }
}
