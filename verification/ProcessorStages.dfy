/** What table and components do in each stage is what the stage's function says of the machine they make up. */
module ProcessorStages {
  import opened Words
  import opened Isa
  import opened Core
  import opened CoreInv
  import opened LoadStoreQueue
  import opened SlotTable
  import opened ProcessorState
  import opened ProcessorSteps
  import opened ProcessorMemory
  import opened ProcessorStores
  import opened ProcessorCycle

  // ---------------------------------------------------------------- room for the next instruction

  lemma {:induction false} QueuedAt(c: Config, o: Own, v: View, i: nat)
    requires AllOk(c, o, v) && Sized(o, v) && i < |o.flight|
    ensures |Machine(o, v).st| == |Machine(o, v).dy| == |o.flight|
    ensures Queued(Machine(o, v), i) <==> o.flight[i] in v.mem
  {
    hide TableOk, NamesInRange;
    MachineEntry(c, o, v, i);
    var id := o.flight[i];
    if id in v.mem {
      assert MemOpOk(o.table[id], v.mem[id]);
    }
  }

  /** The queue holds an entry for exactly the loads in flight and the waiting stores. */
  lemma {:induction false} QueuedAre(c: Config, o: Own, v: View)
    requires AllOk(c, o, v) && Sized(o, v)
    ensures |Machine(o, v).st| == |Machine(o, v).dy| && QueuedIds(Machine(o, v)) == v.mem.Keys
  {
    hide TablesOk, AllOk, Machine, Queued;
    MachineShape(c, o, v);
    MachineIds(c, o, v);
    var s := Machine(o, v);
    forall id ensures id in QueuedIds(s) <==> id in v.mem {
      if id in QueuedIds(s) {
        var i :| 0 <= i < |s.dy| && Queued(s, i) && s.dy[i].id == id;
        QueuedAt(c, o, v, i);
      }
      if id in v.mem {
        var i := HeldAt(c, o, v, id);
        QueuedAt(c, o, v, i);
      }
    }
  }

  lemma {:induction false} HeldAt(c: Config, o: Own, v: View, id: nat) returns (i: nat)
    requires AllOk(c, o, v) && id in v.mem
    ensures i < |o.flight| && o.flight[i] == id
  {
    hide TableOk, NamesInRange;
    assert MemOpOk(o.table[id], v.mem[id]);
    i := PlaceOf(c, o, v, id);
  }

  // ---------------------------------------------------------------- stores permitted and handed over

  /** What the walk sees of the entry at place `i`. */
  lemma {:induction false} LaneIs(c: Config, o: Own, v: View, i: nat)
    requires AllOk(c, o, v) && Sized(o, v) && i < |o.flight|
    ensures |Machine(o, v).st| == |Machine(o, v).dy| == |o.flight| == |v.entries| && o.flight[i] in o.table
    ensures var s, info := Machine(o, v), o.table[o.flight[i]];
            && s.st[i] == info.fetched && s.dy[i].done == info.completed == v.entries[i].done
            && (s.dy[i].done ==> s.dy[i].value == v.entries[i].value)
  {
    hide MemoryOk, NamesInRange;
    MachineEntry(c, o, v, i);
    EntryAt(c, o, v, i);
  }

  lemma {:induction false} PermitsOn(s: Core, width: nat, lane: nat)
    requires |s.st| == |s.dy|
    ensures Permits(s, width, lane) ==
            if lane >= width || lane >= |s.st| then []
            else if s.dy[lane].done then if WrongPath(s, lane) then [] else Permits(s, width, lane + 1)
            else if s.st[lane].instr.IsStore() then [lane] + Permits(s, width, lane + 1)
            else []
  {
  }

  /** A waiting store at the head is always permitted. */
  lemma {:induction false} HeadPermitted(c: Config, o: Own, v: View, width: nat)
    requires AllOk(c, o, v)
    ensures Sized(o, v) && |Machine(o, v).st| == |Machine(o, v).dy|
    ensures width > 0 && o.flight != [] && Waits(o, 0) ==>
              Permits(Machine(o, v), width, 0) != [] && Permits(Machine(o, v), width, 0)[0] == 0
  {
    hide AllOk, Machine;
    Shapes(c, o, v);
    MachineShape(c, o, v);
    if width > 0 && o.flight != [] && Waits(o, 0) {
      LaneIs(c, o, v, 0);
    }
  }

  // ---------------------------------------------------------------- handing over

  /** The queue can hand a permitted store over exactly if the machine's store is ready. */
  lemma {:induction false} HandableIs(c: Config, o: Own, v: View, i: nat, q: seq<LsqEntry>)
    requires AllOk(c, o, v) && Sized(o, v) && i < |o.flight| && ProcessorStores.Oldest(o, i)
    requires DistinctIds(q) && v.mem == Table(q)
    requires o.phase == Commit
    ensures CanHandOver(q, Tag(v.head, c.cap, i)) <==> CanEnqueueStore(Machine(o, v), i)
  {
    hide AllOk, DistinctIds, Table, StoreSlot, MemOpOk, EntryOf;
    Shapes(c, o, v);
    MachineShape(c, o, v);
    StoreSlotIs(c, o, v, i, q);
    PermittedStore(c, o, v, i);
    StoreInMem(c, o, v, i);
  }

  lemma {:induction false} HandedOn(c: Config, s: Core, places: seq<nat>, room: nat)
    ensures HandedOver(c, s, places, room) ==
            if places == [] || room == 0 || !CanEnqueueStore(s, places[0]) then s
            else HandedOver(c, EnqueueStore(c, s, places[0]), places[1..], room - 1)
  {
  }

  /** Processor and components after the hand-over make up the machine after it. */
  lemma {:induction false} HandedIs(c: Config, o: Own, v: View, q: seq<LsqEntry>, places: seq<nat>, room: nat)
    requires AllOk(c, o, v) && Permitted(o, places) && DistinctIds(q) && v.mem == Table(q) && o.phase == Commit
    ensures PlacesFit(o, v, places) && Sized(o, v)
    ensures DistinctIds(HandOver(c.byteAddressed, q, TagsOf(c, v.head, places), room).queue)
    ensures var o', v' := StoresDone(o, places[..Gone(c, v, q, places, room)]), HandedView(c, v, q, places, room);
            Sized(o', v') && Machine(o', v') == HandedOver(c, Machine(o, v), places, room)
    decreases |places|
  {
    hide AllOk, Machine, Permitted, DistinctIds, Table, HandedEntry, CanHandOver, WithoutStore, HandOver, EnqueueStore,
         CanEnqueueStore, HandedOver, ProcessorStores.Oldest, Waits, DoneAt, CompletedOwn, StoredView;
    PermittedFit(c, o, v, places);
    HandedOn(c, Machine(o, v), places, room);
    if places == [] || room == 0 {
      NothingHandedIs(c, o, v, q, places, room);
    } else {
      var i, id := places[0], o.flight[places[0]];
      PermittedRest(o, places);
      HandableIs(c, o, v, i, q);
      if !CanHandOver(q, Tag(v.head, c.cap, i)) {
        NothingHandedIs(c, o, v, q, places, room);
      } else {
        StoringIsEnqueue(c, o, v, i, q);
        var e := HandedEntry(c.byteAddressed, q, Tag(v.head, c.cap, i));
        KeepsPhase(o, id);
        HandedIs(c, CompletedOwn(o, id), StoredView(v, i, id, e), WithoutStore(q, Tag(v.head, c.cap, i)), places[1..],
            room - 1);
        HandedStep(c, o, v, q, places, room, i, id, e);
      }
    }
  }

  lemma {:induction false} KeepsPhase(o: Own, id: nat)
    requires id in o.table
    ensures CompletedOwn(o, id).phase == o.phase
  {
  }

  lemma {:induction false} NothingHandedIs(c: Config, o: Own, v: View, q: seq<LsqEntry>, places: seq<nat>, room: nat)
    requires DistinctIds(q) && v.mem == Table(q) && PlacesFit(o, v, places) && Sized(o, v)
    requires places == [] || room == 0 || !CanHandOver(q, Tag(v.head, c.cap, places[0]))
    ensures DistinctIds(HandOver(c.byteAddressed, q, TagsOf(c, v.head, places), room).queue)
    ensures StoresDone(o, places[..Gone(c, v, q, places, room)]) == o && HandedView(c, v, q, places, room) == v
  {
    hide DistinctIds, Table, HandedEntry, CanHandOver, WithoutStore, HandOver;
    NothingMore(c.byteAddressed, q, TagsOf(c, v.head, places), room);
    NothingGone(v, q);
  }

  // ---------------------------------------------------------------- memory's cycle

  /** What the machine shows of a cycle of the queue. */
  lemma {:induction false} TickedIs(c: Config, o: Own, v: View, n: nat, q: seq<LsqEntry>)
    requires AllOk(c, o, v) && Sized(o, v) && n <= |v.pending| && DistinctIds(q) && TickedView(c, v, n).mem == Table(q)
    ensures Sized(o, TickedView(c, v, n))
    ensures var s, t := Machine(o, v), Machine(o, TickedView(c, v, n));
            && s.sb == v.pending && |t.dy| == |s.dy|
            && t == s.(main := Written(c.byteAddressed, s.main, s.sb[..n]), sb := s.sb[n..], dy := t.dy)
            && forall i :: 0 <= i < |s.dy| ==> t.dy[i] == s.dy[i].(load := LoadIn(q, s.dy[i].id))
  {
    hide Ticked, Written, DistinctIds, Table, TablesOk, ViewOk, Progress;
  }

  /** The queue's cycle, seen as memory's cycle of the machine. */
  lemma {:induction false} TickedGlance(c: Config, z: Sizes, o: Own, v: View, n: nat, a: Glance, q: seq<LsqEntry>,
                                        buffer: seq<SbSlot>)
    requires AllOk(c, o, v) && Sized(o, v) && n <= |v.pending| && DistinctIds(q) && TickedView(c, v, n).mem == Table(q)
    requires a.core == Machine(o, v) && q == TickedSlots(c.byteAddressed, a.queue, v.main)
    requires n == DueNow(Sent(a.buffer, z.ports, z.memLatency))
    requires buffer == CountedDown(Sent(a.buffer, z.ports, z.memLatency)[n..])
    ensures Sized(o, TickedView(c, v, n))
    ensures MemoryCycled(c, z, a, Glance(Machine(o, TickedView(c, v, n)), q, buffer))
  {
    TickedIs(c, o, v, n, q);
    assert a.core.main == v.main;
    hide AllOk, Machine, TickedView, Sent, DueNow, CountedDown, TickedSlots, Written, LoadIn, DistinctIds, Table;
  }

  // ---------------------------------------------------------------- loads started

  /** No older store in the queue is to the word of the address. */
  ghost predicate NoClash(ba: bool, q: seq<LsqEntry>, id: nat, addr: Word) {
    forall j :: 0 <= j < |q| && OlderStore(q[j], id) ==> !SameWord(ba, q[j].body.address, addr)
  }

  lemma {:induction false} StoreAddress(c: Config, o: Own, v: View, j: nat)
    requires AllOk(c, o, v) && Sized(o, v) && j < |o.flight| && WaitingStore(Machine(o, v).st[j], Machine(o, v).dy[j])
    requires Machine(o, v).dy[j].addrReady && Machine(o, v).dy[j].data.ready
    ensures o.flight[j] in v.mem && v.mem[o.flight[j]].address == Machine(o, v).dy[j].addr
    ensures !v.mem[o.flight[j]].isLoad
  {
    hide AllOk, Machine, StoreLanes, AccessMask;
    StoreInMem(c, o, v, j);
  }

  /** The extra search without forwarding finds what the machine sees. */
  lemma {:induction false} ClashAlike(c: Config, o: Own, v: View, i: nat, q: seq<LsqEntry>)
    requires AllOk(c, o, v) && Sized(o, v) && i < |o.flight| && DistinctIds(q) && v.mem == Table(q)
    requires CanDispatchLoad(Machine(o, v), i) && o.flight[i] in v.mem
    requires v.mem[o.flight[i]].address == Machine(o, v).dy[i].addr
    ensures NoClash(c.byteAddressed, q, o.flight[i], v.mem[o.flight[i]].address) <==>
            CanStart(c, false, Machine(o, v), i)
  {
    hide AllOk, Machine, Known, DistinctIds, Table, SameWord, WordIndex, WaitingStore;
    var s, ba, addr := Machine(o, v), c.byteAddressed, v.mem[o.flight[i]].address;
    MachineShape(c, o, v);
    if NoClash(ba, q, o.flight[i], addr) {
      forall j | 0 <= j < i && WaitingStore(s.st[j], s.dy[j]) ensures WordIndex(ba, s.dy[j].addr) != WordIndex(ba, addr)
      {
        KnownHere(s, i, j);
        StoreAddress(c, o, v, j);
        OlderIsEarlier(c, o, v, i, j);
        var k := SlotTable.SlotOf(q, o.flight[j]);
        InTable(q, k, o.flight[j]);
        SameWordIsIndex(ba, q[k].body.address, addr);
      }
    }
    if CanStart(c, false, s, i) {
      forall j | 0 <= j < |q| && OlderStore(q[j], o.flight[i]) ensures !SameWord(ba, q[j].body.address, addr) {
        InTable(q, j, q[j].id);
        var k := StoreInFlight(c, o, v, q[j].id);
        OlderIsEarlier(c, o, v, i, k);
        KnownHere(s, i, k);
        StoreAddress(c, o, v, k);
        SameWordIsIndex(ba, q[j].body.address, addr);
      }
    }
  }

  lemma {:induction false} KnownHere(s: Core, i: nat, j: nat)
    requires CanDispatchLoad(s, i) && j < i && WaitingStore(s.st[j], s.dy[j])
    ensures s.dy[j].addrReady && s.dy[j].data.ready
  {
  }

  /** The queue starts a load exactly when the machine may. */
  lemma {:induction false} StartableIs(c: Config, o: Own, v: View, i: nat, q: seq<LsqEntry>, forwarding: bool)
    requires AllOk(c, o, v) && Sized(o, v) && i < |o.flight| && DistinctIds(q) && v.mem == Table(q) && o.phase == Back
    requires o.flight[i] in o.table && o.table[o.flight[i]].fetched.instr.IsLoad()
    ensures o.flight[i] in v.mem
    ensures Dispatchable(v, q, o.flight[i])
            && (!forwarding ==> NoClash(c.byteAddressed, q, o.flight[i], v.mem[o.flight[i]].address)) <==>
            CanStart(c, forwarding, Machine(o, v), i)
  {
    hide AllOk, Machine, Dispatchable, DistinctIds, Table, NoClash, CanDispatchLoad;
    DispatchableIs(c, o, v, i, q);
    if Dispatchable(v, q, o.flight[i]) {
      LoadAddress(c, o, v, i);
      ClashAlike(c, o, v, i, q);
    }
  }

  lemma {:induction false} LoadAddress(c: Config, o: Own, v: View, i: nat)
    requires AllOk(c, o, v) && Sized(o, v) && i < |o.flight| && o.flight[i] in v.mem && v.mem[o.flight[i]].isLoad
    requires CanDispatchLoad(Machine(o, v), i)
    ensures v.mem[o.flight[i]].address == Machine(o, v).dy[i].addr
  {
    hide AllOk, Machine, StoresKnown;
    LoadIsIdle(c, o, v, i);
  }

  // ---------------------------------------------------------------- stages one step at a time

  lemma {:induction false} RetiredOn(c: Config, s: Core, n: nat)
    ensures n == 0 || !CanCommit(s) ==> Retired(c, s, n) == s
    ensures n > 0 && CanCommit(s) ==> Retired(c, s, n) == Retired(c, CommitHead(c, s), n - 1)
  {
  }

  lemma {:induction false} HandedKeeps(c: Config, s: Core, places: seq<nat>, room: nat)
    ensures HandedOver(c, s, places, room).commits == s.commits
    decreases |places|
  {
    if places != [] && room > 0 && CanEnqueueStore(s, places[0]) {
      HandedKeeps(c, EnqueueStore(c, s, places[0]), places[1..], room - 1);
    }
  }

  /** As many instructions retire as are done at the head once the stores have been handed over, up to the width. */
  lemma {:induction false} RetiredMany(c: Config, z: Sizes, s: Core, t: Core)
    requires s.phase == Commit && |s.st| == |s.dy| && t == Retired(c, StoresHanded(c, z, s), z.width)
    ensures var done := DonePrefix(StoresHanded(c, z, s).dy);
            t.commits == s.commits + if z.width < done then z.width else done
    ensures t.commits == s.commits + z.width || !CanCommit(t)
  {
    hide HandedOver, Retired, Permits;
    HandedKeeps(c, s, Permits(s, z.width, 0), RoomLeft(z, s));
    RetiredCount(c, StoresHanded(c, z, s), z.width);
  }

  /** The address scan once the instructions outside `left` have been seen. */
  function AddressedBut(s: Core, left: set<nat>): (t: Core)
    requires |s.st| == |s.dy|
    ensures |t.st| == |t.dy| == |s.dy| && t == s.(dy := t.dy)
  {
    s.(dy := seq(|s.dy|, i requires 0 <= i < |s.dy| =>
      if s.dy[i].id !in left && CanComputeAddr(s, i) then ComputeAddr(s, i).dy[i] else s.dy[i]))
  }

  lemma {:induction false} ScanEnds(s: Core, all: set<nat>)
    requires |s.st| == |s.dy| && forall i :: 0 <= i < |s.dy| ==> s.dy[i].id in all
    ensures AddressedBut(s, all) == s && AddressedBut(s, {}) == Addressed(s)
  {
    hide CanComputeAddr, ComputeAddr;
    assert AddressedBut(s, all).dy == s.dy;
    assert AddressedBut(s, {}).dy == Addressed(s).dy;
  }

  lemma {:induction false} ScanOne(s: Core, left: set<nat>, i: nat)
    requires |s.st| == |s.dy| && i < |s.dy| && IdsAscend(s.dy) && s.dy[i].id in left
    ensures var t := AddressedBut(s, left);
            AddressedBut(s, left - {s.dy[i].id}) == if CanComputeAddr(t, i) then ComputeAddr(t, i) else t
  {
    var t, u := AddressedBut(s, left), AddressedBut(s, left - {s.dy[i].id});
    assert t.dy[i] == s.dy[i];
    assert CanComputeAddr(t, i) <==> CanComputeAddr(s, i);
    hide CanComputeAddr;
    forall j | 0 <= j < |s.dy| && j != i ensures u.dy[j] == t.dy[j] {
      assert j < i ==> s.dy[j].id < s.dy[i].id;
      assert i < j ==> s.dy[i].id < s.dy[j].id;
    }
    if CanComputeAddr(t, i) {
      assert u.dy == ComputeAddr(t, i).dy;
    } else {
      assert u.dy == t.dy;
    }
  }

  lemma {:induction false} PlaceIs(dy: seq<Dyn>, i: nat)
    requires i < |dy| && IdsAscend(dy)
    ensures PlaceAt(dy, dy[i].id) == i
  {
  }

  lemma {:induction false} IssueOneOf(c: Config, s: Core, ids: seq<nat>, k: nat, room: set<nat>)
    requires k < |ids|
    ensures IssueAll(c, s, ids[k..], room) == IssueAll(c, IssuedIf(c, s, ids[k], room), ids[k + 1..], room)
  {
    hide IssuedIf;
    assert ids[k..][0] == ids[k] && ids[k..][1..] == ids[k + 1..];
  }

  lemma {:induction false} IssueNone(c: Config, s: Core, room: set<nat>)
    ensures IssueAll(c, s, [], room) == s
  {
  }

  lemma {:induction false} StartOne(c: Config, forwarding: bool, s: Core, i: nat, n: nat)
    ensures i >= |s.dy| || n == 0 ==> LoadsStarted(c, forwarding, s, i, n) == s
    ensures i < |s.dy| && n > 0 ==>
              LoadsStarted(c, forwarding, s, i, n) ==
              if CanStart(c, forwarding, s, i) then LoadsStarted(c, forwarding, DispatchLoad(c, s, i), i + 1, n - 1)
              else LoadsStarted(c, forwarding, s, i + 1, n)
  {
    hide CanStart, DispatchLoad;
  }

  lemma {:induction false} RenameOneOf(c: Config, z: Sizes, s: Core, n: nat)
    requires |s.st| == |s.dy|
    ensures n == 0 || !NextFits(c, z, s) ==> RenamedUpTo(c, z, s, n) == s
    ensures n > 0 && NextFits(c, z, s) ==> RenamedUpTo(c, z, s, n) == RenamedUpTo(c, z, Rename(c, s), n - 1)
    ensures s.front == [] ==> !NextFits(c, z, s)
  {
    hide Rename, QueuedIds;
  }

  lemma {:induction false} FetchOneOf(c: Config, s: Core, guesses: seq<Guess>, k: nat)
    requires k <= |guesses|
    ensures k == |guesses| || !CanFetch(c, s, false) ==> FetchedAlong(c, s, guesses[k..]) == s
    ensures k < |guesses| && CanFetch(c, s, false) ==>
              var taken := guesses[k].taken && c.prog[s.fetchPc].IsControl();
              FetchedAlong(c, s, guesses[k..])
                == FetchedAlong(c, Fetch(c, s, taken, guesses[k].target), guesses[k + 1..])
  {
    hide Fetch;
    if k < |guesses| {
      assert guesses[k..][0] == guesses[k] && guesses[k..][1..] == guesses[k + 1..];
    }
  }

  // ---------------------------------------------------------------- instructions by age

  /** The instructions from place `i` on. */
  ghost function LeftFrom(flight: seq<nat>, i: nat): set<nat>
    requires i <= |flight|
  {
    set j | i <= j < |flight| :: flight[j]
  }

  /** The smallest id left is that of the oldest instruction left. */
  lemma {:induction false} OldestLeft(flight: seq<nat>, i: nat)
    requires i < |flight| && Ascending(flight)
    ensures flight[i] in LeftFrom(flight, i) && forall id :: id in LeftFrom(flight, i) ==> flight[i] <= id
    ensures LeftFrom(flight, i + 1) == LeftFrom(flight, i) - {flight[i]}
  {
    forall id | id in LeftFrom(flight, i) - {flight[i]} ensures id in LeftFrom(flight, i + 1) {
      var j :| i <= j < |flight| && flight[j] == id;
    }
    forall j | i < j < |flight| ensures flight[i] < flight[j] {
    }
  }

  lemma {:induction false} AllLeft(flight: seq<nat>, keys: set<nat>)
    requires forall id :: id in keys <==> id in flight
    ensures LeftFrom(flight, 0) == keys && LeftFrom(flight, |flight|) == {}
  {
    forall id | id in keys ensures id in LeftFrom(flight, 0) {
      var j :| 0 <= j < |flight| && flight[j] == id;
    }
  }
}
