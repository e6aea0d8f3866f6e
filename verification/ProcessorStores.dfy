/** Stores leaving the processor: what the commit stage permits and the queue hands over is, store by store, the
  * machine's enqueue step. */
module ProcessorStores {
  import opened Isa
  import opened Core
  import opened LoadStoreQueue
  import opened SlotTable
  import opened ProcessorState
  import opened ProcessorSteps
  import opened ProcessorMemory

  // ---------------------------------------------------------------- one store

  /** The store at place `i` has left the queue for the buffer, and is done. */
  function StoredView(v: View, i: nat, id: nat, e: SbEntry): View
    requires i < |v.entries|
  {
    CompletedView(v, i, 0).(mem := v.mem - {id}, pending := v.pending + [e])
  }

  /** Is the instruction at place `i` a store that waits for permission? */
  predicate Waits(o: Own, i: nat)
    requires i < |o.flight|
  {
    var id := o.flight[i];
    id in o.table && o.table[id].fetched.instr.IsStore() && !o.table[id].completed
  }

  predicate DoneAt(o: Own, i: nat)
    requires i < |o.flight|
  {
    o.flight[i] in o.table && o.table[o.flight[i]].completed
  }

  /** The only queue entry with the tag of the store at place `i` is that store's. */
  lemma {:induction false} StoreSlotIs(c: Config, o: Own, v: View, i: nat, q: seq<LsqEntry>)
    requires AllOk(c, o, v) && i < |o.flight| && Waits(o, i) && DistinctIds(q) && v.mem == Table(q)
    ensures var tag, id := Tag(v.head, c.cap, i), o.flight[i];
            && Holds(q, StoreSlot(q, tag, 0), id) && id in v.mem && q[StoreSlot(q, tag, 0)].body == v.mem[id]
            && MemOpOk(o.table[id], v.mem[id])
  {
    hide DistinctIds, Table, TableOk, NamesInRange, BeatsOk, StoreSlot;
    var tag, id := Tag(v.head, c.cap, i), o.flight[i];
    TagPlaces(c, o, v);
    IsEntry(c, o, v, i);
    assert MemOpOk(o.table[id], v.mem[id]);
    var j := SlotTable.SlotOf(q, id);
    InTable(q, j, id);
    var k := StoreSlot(q, tag, 0);
    InTable(q, k, q[k].id);
    assert MemOpOk(o.table[q[k].id], v.mem[q[k].id]);
  }

  lemma {:induction false} StoredMemory(table: map<nat, InstInfo>, mem: map<nat, MemOp>, id: nat)
    requires MemoryOk(table, mem) && id in table && table[id].fetched.instr.IsStore()
    ensures MemoryOk(table[id := table[id].(completed := true)], mem - {id})
  {
    hide MemOpOk;
    var t := table[id := table[id].(completed := true)];
    forall x | x in mem - {id} ensures x in t && MemOpOk(t[x], mem[x]) {
      assert MemOpOk(table[x], mem[x]);
    }
  }

  lemma {:induction false} StoredFlight(o: Own, v: View, i: nat, e: SbEntry)
    requires Sized(o, v) && Ascending(o.flight) && i < |o.flight| && o.flight[i] in v.mem && !v.mem[o.flight[i]].isLoad
    ensures var o', v' := CompletedOwn(o, o.flight[i]), StoredView(v, i, o.flight[i], e);
            && Sized(o', v') && Statics(o'.table, o'.flight) == Statics(o.table, o.flight)
            && Dynamics(o'.table, o'.flight, v'.entries, v'.mem)
                 == Complete(Dynamics(o.table, o.flight, v.entries, v.mem), i, 0)
  {
    hide Progress;
    CompletedFlight(o, v, i, 0);
    var o', v' := CompletedOwn(o, o.flight[i]), StoredView(v, i, o.flight[i], e);
    var w := CompletedView(v, i, 0);
    forall j | 0 <= j < |o.flight|
      ensures DynOf(o.flight[j], o'.table[o.flight[j]], v'.entries[j], v'.mem)
                == DynOf(o.flight[j], o'.table[o.flight[j]], w.entries[j], v.mem)
    {
    }
    assert Dynamics(o'.table, o'.flight, v'.entries, v'.mem) == Dynamics(o'.table, o'.flight, w.entries, v.mem);
  }

  /** May the machine's store at place `i` be permitted? */
  ghost predicate Oldest(o: Own, i: nat)
    requires i < |o.flight|
  {
    Waits(o, i) && forall j :: 0 <= j < i ==> DoneAt(o, j)
  }

  /** A permitted store that the queue can hand over is the machine's enqueue step. */
  lemma {:induction false} StoringIsEnqueue(c: Config, o: Own, v: View, i: nat, q: seq<LsqEntry>)
    requires AllOk(c, o, v) && i < |o.flight| && Oldest(o, i) && DistinctIds(q) && v.mem == Table(q)
    requires o.phase == Commit
    requires CanHandOver(q, Tag(v.head, c.cap, i))
    ensures i < |v.entries| && o.flight[i] in o.table && DistinctIds(WithoutStore(q, Tag(v.head, c.cap, i)))
    ensures var tag, id := Tag(v.head, c.cap, i), o.flight[i];
            var o', v' := CompletedOwn(o, id), StoredView(v, i, id, HandedEntry(c.byteAddressed, q, tag));
            && Sized(o, v) && AllOk(c, o', v') && Sized(o', v') && v'.mem == Table(WithoutStore(q, tag))
            && CanEnqueueStore(Machine(o, v), i) && Machine(o', v') == EnqueueStore(c, Machine(o, v), i)
  {
    hide DistinctIds, Table, StoreSlot, StoreLanes, AccessMask;
    var tag, id := Tag(v.head, c.cap, i), o.flight[i];
    var e := HandedEntry(c.byteAddressed, q, tag);
    Shapes(c, o, v);
    StoreSlotIs(c, o, v, i, q);
    Freed(q, StoreSlot(q, tag, 0));
    StoredOk(c, o, v, i, e);
    StoredFlight(o, v, i, e);
    PermittedStore(c, o, v, i);
    StoreInMem(c, o, v, i);
    hide AllOk, MemOpOk, EntryOf;
    MachineEntry(c, o, v, i);
  }

  lemma {:induction false} StoredOk(c: Config, o: Own, v: View, i: nat, e: SbEntry)
    requires AllOk(c, o, v) && i < |o.flight| == |v.entries| && Waits(o, i)
    ensures AllOk(c, CompletedOwn(o, o.flight[i]), StoredView(v, i, o.flight[i], e))
  {
    CompletedTable(c, o, v, i, 0);
    StoredMemory(o.table, v.mem, o.flight[i]);
    hide MemoryOk, TableOk, NamesInRange;
  }

  lemma {:induction false} PermittedStore(c: Config, o: Own, v: View, i: nat)
    requires AllOk(c, o, v) && Sized(o, v) && i < |o.flight| && Oldest(o, i)
    ensures var s := Machine(o, v);
            i < |s.st| == |s.dy| && WaitingStore(s.st[i], s.dy[i]) && forall j :: 0 <= j < i ==> s.dy[j].done
  {
    hide MemoryOk, TableOk, NamesInRange;
    MachineEntry(c, o, v, i);
    forall j | 0 <= j < i ensures Machine(o, v).dy[j].done {
      assert DoneAt(o, j);
    }
  }

  // ---------------------------------------------------------------- all permitted stores

  /** Places of permitted stores, in age order: what is older is done, or is permitted too. */
  ghost predicate Permitted(o: Own, places: seq<nat>) {
    && (forall k :: 0 <= k < |places| ==> places[k] < |o.flight| && Waits(o, places[k]))
    && (forall k, m :: 0 <= k < m < |places| ==> places[k] < places[m])
    && (forall k, j :: 0 <= k < |places| && 0 <= j < places[k] && j !in places ==> DoneAt(o, j))
  }

  /** The places permitted so far, after a walk over the `lane` oldest entries. */
  ghost predicate Walked(o: Own, places: seq<nat>, lane: nat) {
    && lane <= |o.flight|
    && (forall k :: 0 <= k < |places| ==> places[k] < lane && Waits(o, places[k]))
    && (forall k, m :: 0 <= k < m < |places| ==> places[k] < places[m])
    && (forall j :: 0 <= j < lane && j !in places ==> DoneAt(o, j))
  }

  lemma {:induction false} NothingWalked(o: Own)
    ensures Walked(o, [], 0)
  {
  }

  lemma {:induction false} WalkedOn(o: Own, places: seq<nat>, lane: nat)
    requires Walked(o, places, lane) && lane < |o.flight|
    ensures DoneAt(o, lane) ==> Walked(o, places, lane + 1)
    ensures Waits(o, lane) ==> Walked(o, places + [lane], lane + 1)
  {
  }

  lemma {:induction false} WalkedIsPermitted(o: Own, places: seq<nat>, lane: nat)
    requires Walked(o, places, lane)
    ensures Permitted(o, places)
  {
  }

  lemma {:induction false} OneMoreTag(c: Config, head: nat, places: seq<nat>, lane: nat)
    ensures TagsOf(c, head, places + [lane]) == TagsOf(c, head, places) + [Tag(head, c.cap, lane)]
  {
  }

  lemma {:induction false} NoTags(c: Config, head: nat)
    ensures TagsOf(c, head, []) == []
  {
  }

  function TagsOf(c: Config, head: nat, places: seq<nat>): (tags: seq<int>)
    ensures |tags| == |places| && forall k :: 0 <= k < |places| ==> tags[k] == Tag(head, c.cap, places[k])
  {
    seq(|places|, k requires 0 <= k < |places| => Tag(head, c.cap, places[k]))
  }

  /** The instructions at `places` are done. */
  function StoresDone(o: Own, places: seq<nat>): (r: Own)
    requires forall k :: 0 <= k < |places| ==> places[k] < |o.flight| && o.flight[places[k]] in o.table
    ensures r.flight == o.flight && r.table.Keys == o.table.Keys
    decreases |places|
  {
    if places == [] then o
    else StoresDone(CompletedOwn(o, o.flight[places[0]]), places[1..])
  }

  function EntriesDone(v: View, places: seq<nat>): (r: View)
    requires forall k :: 0 <= k < |places| ==> places[k] < |v.entries|
    ensures |r.entries| == |v.entries|
    decreases |places|
  {
    if places == [] then v
    else EntriesDone(CompletedView(v, places[0], 0), places[1..])
  }

  /** Completing entries and moving stores are independent. */
  lemma {:induction false} EntriesApart(v: View, places: seq<nat>, mem: map<nat, MemOp>, pending: seq<SbEntry>)
    requires forall k :: 0 <= k < |places| ==> places[k] < |v.entries|
    ensures EntriesDone(v.(mem := mem, pending := pending), places)
              == EntriesDone(v, places).(mem := mem, pending := pending)
    decreases |places|
  {
    if places != [] {
      EntriesApart(CompletedView(v, places[0], 0), places[1..], mem, pending);
      assert CompletedView(v.(mem := mem, pending := pending), places[0], 0)
          == CompletedView(v, places[0], 0).(mem := mem, pending := pending);
    }
  }

  /** After the oldest permitted store has gone, the others are still permitted. */
  lemma {:induction false} PermittedRest(o: Own, places: seq<nat>)
    requires places != [] && Permitted(o, places) && Ascending(o.flight)
    ensures Oldest(o, places[0]) && Permitted(CompletedOwn(o, o.flight[places[0]]), places[1..])
  {
    var i, rest := places[0], places[1..];
    var o' := CompletedOwn(o, o.flight[i]);
    forall j | 0 <= j < i ensures DoneAt(o, j) {
      assert j !in places;
    }
    forall k | 0 <= k < |rest| ensures rest[k] < |o'.flight| && Waits(o', rest[k]) {
      assert rest[k] == places[k + 1];
      assert o.flight[i] < o.flight[rest[k]];
    }
    forall k, j | 0 <= k < |rest| && 0 <= j < rest[k] && j !in rest ensures DoneAt(o', j) {
      assert rest[k] == places[k + 1];
      if j != i {
        assert j !in places;
        assert DoneAt(o, j);
      }
    }
  }

  ghost predicate Enqueues(run: seq<Step>) { forall k :: 0 <= k < |run| ==> run[k].DoEnqueueStore? }

  /** How many of the permitted stores the queue hands over. */
  ghost function Gone(c: Config, v: View, q: seq<LsqEntry>, places: seq<nat>, room: nat): (n: nat)
    ensures n <= |places|
  {
    |HandOver(c.byteAddressed, q, TagsOf(c, v.head, places), room).entries|
  }

  /** Processor and components after the permitted stores have been handed over as far as they can. */
  ghost function HandedView(c: Config, v: View, q: seq<LsqEntry>, places: seq<nat>, room: nat): View
    requires forall k :: 0 <= k < |places| ==> places[k] < |v.entries|
    requires DistinctIds(HandOver(c.byteAddressed, q, TagsOf(c, v.head, places), room).queue)
  {
    var h := HandOver(c.byteAddressed, q, TagsOf(c, v.head, places), room);
    EntriesDone(v, places[..|h.entries|]).(mem := Table(h.queue), pending := v.pending + h.entries)
  }

  ghost predicate PlacesFit(o: Own, v: View, places: seq<nat>) {
    && |v.entries| == |o.flight|
    && forall k :: 0 <= k < |places| ==> places[k] < |o.flight| && o.flight[places[k]] in o.table
  }

  lemma {:induction false} PermittedFit(c: Config, o: Own, v: View, places: seq<nat>)
    requires AllOk(c, o, v) && Permitted(o, places)
    ensures PlacesFit(o, v, places) && Sized(o, v) && Ascending(o.flight)
  {
    Shapes(c, o, v);
  }

  /** The run `run` of enqueue steps leads to the state after the hand-over. */
  ghost predicate HandedBy(c: Config, o: Own, v: View, q: seq<LsqEntry>, places: seq<nat>, room: nat, run: seq<Step>) {
    && PlacesFit(o, v, places) && Sized(o, v)
    && DistinctIds(HandOver(c.byteAddressed, q, TagsOf(c, v.head, places), room).queue)
    && HandedTo(c, o, v, run, StoresDone(o, places[..Gone(c, v, q, places, room)]), HandedView(c, v, q, places, room))
    && Enqueues(run)
  }

  ghost predicate HandedTo(c: Config, o: Own, v: View, run: seq<Step>, o': Own, v': View)
    requires Sized(o, v)
  {
    AllOk(c, o', v') && Sized(o', v') && Reaches(c, Machine(o, v), run, Machine(o', v'))
  }

  /** Handing over the permitted stores is a run of the machine's enqueue steps. */
  lemma {:induction false} HandOverRun(c: Config, o: Own, v: View, q: seq<LsqEntry>, places: seq<nat>, room: nat)
    returns (run: seq<Step>)
    requires AllOk(c, o, v) && Permitted(o, places) && DistinctIds(q) && v.mem == Table(q) && o.phase == Commit
    ensures HandedBy(c, o, v, q, places, room, run)
    decreases |places|
  {
    hide AllOk, Machine, Permitted, DistinctIds, Table, HandedEntry, CanHandOver, WithoutStore, HandOver, HandedBy;
    PermittedFit(c, o, v, places);
    if places == [] || room == 0 || !CanHandOver(q, Tag(v.head, c.cap, places[0])) {
      run := [];
      NothingHanded(c, o, v, q, places, room);
    } else {
      var i, id := places[0], o.flight[places[0]];
      PermittedRest(o, places);
      StoringIsEnqueue(c, o, v, i, q);
      var e := HandedEntry(c.byteAddressed, q, Tag(v.head, c.cap, i));
      var rest := HandOverRun(c, CompletedOwn(o, id), StoredView(v, i, id, e), WithoutStore(q, Tag(v.head, c.cap, i)),
          places[1..], room - 1);
      run := [DoEnqueueStore(i)] + rest;
      HandedMore(c, o, v, q, places, room, i, id, e, rest);
    }
  }

  lemma {:induction false} NothingHanded(c: Config, o: Own, v: View, q: seq<LsqEntry>, places: seq<nat>, room: nat)
    requires AllOk(c, o, v) && DistinctIds(q) && v.mem == Table(q) && PlacesFit(o, v, places) && Sized(o, v)
    requires places == [] || room == 0 || !CanHandOver(q, Tag(v.head, c.cap, places[0]))
    ensures HandedBy(c, o, v, q, places, room, [])
  {
    hide AllOk, Machine, DistinctIds, Table, HandedEntry, StoreSlot, CanHandOver, WithoutStore, HandOver;
    NothingMore(c.byteAddressed, q, TagsOf(c, v.head, places), room);
    NothingGone(v, q);
  }

  /** One store and then the rest. */
  lemma {:induction false} HandedMore(c: Config, o: Own, v: View, q: seq<LsqEntry>, places: seq<nat>, room: nat,
                                      i: nat, id: nat, e: SbEntry, rest: seq<Step>)
    requires places != [] && PlacesFit(o, v, places) && i == places[0] && id == o.flight[i] && room > 0 && Sized(o, v)
    requires CanHandOver(q, Tag(v.head, c.cap, i)) && e == HandedEntry(c.byteAddressed, q, Tag(v.head, c.cap, i))
    requires var o1, v1 := CompletedOwn(o, id), StoredView(v, i, id, e);
             && Sized(o1, v1) && CanEnqueueStore(Machine(o, v), i)
                  && Machine(o1, v1) == EnqueueStore(c, Machine(o, v), i)
             && HandedBy(c, o1, v1, WithoutStore(q, Tag(v.head, c.cap, i)), places[1..], room - 1, rest)
    ensures HandedBy(c, o, v, q, places, room, [DoEnqueueStore(i)] + rest)
  {
    hide AllOk, Machine, DistinctIds, Table, HandedEntry, StoreSlot, CanHandOver, WithoutStore, HandOver, HandedTo,
         HandedView, StoresDone,
         CanEnqueueStore, EnqueueStore, CompletedOwn, StoredView;
    var o1, v1, q1 := CompletedOwn(o, id), StoredView(v, i, id, e), WithoutStore(q, Tag(v.head, c.cap, i));
    HandedStep(c, o, v, q, places, room, i, id, e);
    OneStep(c, Machine(o, v), DoEnqueueStore(i));
    ThenTo(c, o, v, i, o1, v1, rest, StoresDone(o1, places[1..][..Gone(c, v1, q1, places[1..], room - 1)]),
           HandedView(c, v1, q1, places[1..], room - 1));
  }

  lemma {:induction false} ThenTo(c: Config, o: Own, v: View, i: nat, o1: Own, v1: View, rest: seq<Step>, o': Own,
                                  v': View)
    requires Sized(o, v) && Sized(o1, v1) && HandedTo(c, o1, v1, rest, o', v')
    requires CanEnqueueStore(Machine(o, v), i) && Machine(o1, v1) == EnqueueStore(c, Machine(o, v), i)
    ensures HandedTo(c, o, v, [DoEnqueueStore(i)] + rest, o', v')
  {
    hide AllOk, Machine, CanEnqueueStore, EnqueueStore;
    OneStep(c, Machine(o, v), DoEnqueueStore(i));
    ReachesAppend(c, Machine(o, v), [DoEnqueueStore(i)], Machine(o1, v1), rest, Machine(o', v'));
  }

  lemma {:induction false} NothingGone(v: View, q: seq<LsqEntry>)
    requires DistinctIds(q) && v.mem == Table(q)
    ensures EntriesDone(v, []).(mem := Table(q), pending := v.pending + []) == v
  {
    assert v.pending + [] == v.pending;
  }

  /** What is handed over after the first store, seen from before it. */
  lemma {:induction false} HandedStep(c: Config, o: Own, v: View, q: seq<LsqEntry>, places: seq<nat>, room: nat,
                                      i: nat, id: nat, e: SbEntry)
    requires places != [] && PlacesFit(o, v, places) && i == places[0] && id == o.flight[i] && room > 0
    requires CanHandOver(q, Tag(v.head, c.cap, i)) && e == HandedEntry(c.byteAddressed, q, Tag(v.head, c.cap, i))
    requires var q1, v1 := WithoutStore(q, Tag(v.head, c.cap, i)), StoredView(v, i, id, e);
             DistinctIds(HandOver(c.byteAddressed, q1, TagsOf(c, v1.head, places[1..]), room - 1).queue)
    ensures var q1, v1, o1 := WithoutStore(q, Tag(v.head, c.cap, i)), StoredView(v, i, id, e), CompletedOwn(o, id);
            var n := Gone(c, v, q, places, room);
            && DistinctIds(HandOver(c.byteAddressed, q, TagsOf(c, v.head, places), room).queue)
            && PlacesFit(o1, v1, places[1..])
            && n == Gone(c, v1, q1, places[1..], room - 1) + 1
            && StoresDone(o, places[..n]) == StoresDone(o1, places[1..][..n - 1])
            && HandedView(c, v, q, places, room) == HandedView(c, v1, q1, places[1..], room - 1)
  {
    hide DistinctIds, Table, HandedEntry, StoreSlot, CanHandOver, WithoutStore, HandOver;
    var ba, tags := c.byteAddressed, TagsOf(c, v.head, places);
    var q1, v1 := WithoutStore(q, tags[0]), StoredView(v, i, id, e);
    assert TagsOf(c, v1.head, places[1..]) == tags[1..];
    HandOverOne(ba, q, tags, room);
    var h, rest := HandOver(ba, q, tags, room), HandOver(ba, q1, tags[1..], room - 1);
    var n := |h.entries|;
    assert places[..n][0] == i && places[..n][1..] == places[1..][..n - 1];
    assert (v.pending + [e]) + rest.entries == v.pending + h.entries;
    EntriesApart(CompletedView(v, i, 0), places[1..][..n - 1], v1.mem, v1.pending);
  }

  /** Every permitted tag names its own instruction. */
  ghost predicate TagsName(o: Own, places: seq<nat>, tags: seq<int>) {
    && |tags| == |places|
    && forall k :: 0 <= k < |tags| ==>
         && places[k] < |o.flight| && o.flight[places[k]] in o.table && o.table[o.flight[places[k]]].robId == tags[k]
         && forall x :: x in o.table && o.table[x].robId == tags[k] ==> x == o.flight[places[k]]
  }

  /** The stores at `places`, with tags `tags`, are still to be marked done. */
  ghost predicate ToFinish(c: Config, o: Own, v: View, places: seq<nat>, tags: seq<int>) {
    && PlacesFit(o, v, places) && TagsName(o, places, tags)
    && forall k :: 0 <= k < |tags| ==> tags[k] >= 0 && tags[k] == Tag(v.head, c.cap, places[k])
  }

  lemma {:induction false} PermittedToFinish(c: Config, o: Own, v: View, places: seq<nat>, n: nat, u: View)
    requires AllOk(c, o, v) && Permitted(o, places) && n <= |places| && u.head == v.head && u.entries == v.entries
    ensures ToFinish(c, o, u, places[..n], TagsOf(c, v.head, places)[..n])
  {
    Shapes(c, o, v);
    TagPlaces(c, o, v);
    hide AllOk, Tag;
    forall k | 0 <= k < n
      ensures forall x :: x in o.table && o.table[x].robId == Tag(v.head, c.cap, places[k]) ==> x == o.flight[places[k]]
    {
      IsEntry(c, o, v, places[k]);
    }
  }

  /** Marking one store done leaves the others to be marked. */
  lemma {:induction false} FinishOn(c: Config, o: Own, v: View, places: seq<nat>, tags: seq<int>)
    requires ToFinish(c, o, v, places, tags) && places != []
    ensures places[0] < |v.entries| && o.flight[places[0]] in o.table
    ensures var o', v' := CompletedOwn(o, o.flight[places[0]]), CompletedView(v, places[0], 0);
            && ToFinish(c, o', v', places[1..], tags[1..])
            && StoresDone(o', places[1..]) == StoresDone(o, places)
                 && EntriesDone(v', places[1..]) == EntriesDone(v, places)
  {
    hide Tag;
    var o', v' := CompletedOwn(o, o.flight[places[0]]), CompletedView(v, places[0], 0);
    forall k | 0 <= k < |tags[1..]|
      ensures forall x :: x in o'.table && o'.table[x].robId == tags[1..][k] ==> x == o'.flight[places[1..][k]]
      ensures o'.flight[places[1..][k]] in o'.table && o'.table[o'.flight[places[1..][k]]].robId == tags[1..][k]
    {
      assert places[1..][k] == places[k + 1] && tags[1..][k] == tags[k + 1];
    }
  }

  lemma {:induction false} FinishFits(c: Config, o: Own, v: View, places: seq<nat>, tags: seq<int>)
    requires ToFinish(c, o, v, places, tags)
    ensures PlacesFit(o, v, places) && |tags| == |places|
  {
  }

  lemma {:induction false} NoneToFinish(c: Config, o: Own, v: View, places: seq<nat>, tags: seq<int>)
    requires ToFinish(c, o, v, places, tags) && tags == []
    ensures places == [] && StoresDone(o, places) == o && EntriesDone(v, places) == v
  {
  }
}
