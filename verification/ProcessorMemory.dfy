/** The load/store queue inside the processor: its slots hold the machine's older stores, so its search by age is the
  * machine's forwarding in program order, and its cycle is a run of the machine's fill and drain steps. */
module ProcessorMemory {
  import opened Words
  import opened Isa
  import opened Core
  import opened LoadStoreQueue
  import opened SlotTable
  import opened ProcessorState
  import opened ProcessorSteps

  // ---------------------------------------------------------------- older stores, in program order

  predicate WaitingStore(f: Fetched, d: Dyn) { f.instr.IsStore() && !d.done }

  /** The instructions of `QueueStores`. */
  function QueueIds(st: seq<Fetched>, dy: seq<Dyn>, i: nat): seq<nat>
    requires i <= |st| == |dy|
  {
    if i == 0 then []
    else QueueIds(st, dy, i - 1) + if WaitingStore(st[i - 1], dy[i - 1]) then [dy[i - 1].id] else []
  }

  ghost predicate IdsAscend(dy: seq<Dyn>) { forall i, j :: 0 <= i < j < |dy| ==> dy[i].id < dy[j].id }

  /** Entry `k` of the two lists is the waiting store at place `j`. */
  ghost predicate IsEntryOf(c: Config, st: seq<Fetched>, dy: seq<Dyn>, j: int, id: nat, e: SbEntry)
    requires |st| == |dy|
  {
    0 <= j < |st| && WaitingStore(st[j], dy[j]) && id == dy[j].id && e == StoreEntry(c, st[j], dy[j])
  }

  ghost predicate HasPlace(c: Config, st: seq<Fetched>, dy: seq<Dyn>, i: nat, id: nat, e: SbEntry)
    requires |st| == |dy|
  {
    exists j :: 0 <= j < i && IsEntryOf(c, st, dy, j, id, e)
  }

  ghost predicate Listed(c: Config, st: seq<Fetched>, dy: seq<Dyn>, i: nat, ids: seq<nat>, list: seq<SbEntry>)
    requires i <= |st| == |dy|
  {
    && |ids| == |list|
    && (forall m, k :: 0 <= m < k < |ids| ==> ids[m] < ids[k])
    && (forall k :: 0 <= k < |ids| ==> HasPlace(c, st, dy, i, ids[k], list[k]))
    && (forall j :: 0 <= j < i && WaitingStore(st[j], dy[j]) ==> dy[j].id in ids)
  }

  lemma {:induction false} HasPlaceGrows(c: Config, st: seq<Fetched>, dy: seq<Dyn>, i: nat, id: nat, e: SbEntry)
    requires |st| == |dy| && HasPlace(c, st, dy, i, id, e)
    ensures HasPlace(c, st, dy, i + 1, id, e)
  {
    var j :| 0 <= j < i && IsEntryOf(c, st, dy, j, id, e);
    assert IsEntryOf(c, st, dy, j, id, e);
  }

  lemma {:induction false} HasPlaceBefore(c: Config, st: seq<Fetched>, dy: seq<Dyn>, i: nat, id: nat, e: SbEntry)
    requires i < |st| == |dy| && HasPlace(c, st, dy, i, id, e) && IdsAscend(dy)
    ensures id < dy[i].id
  {
  }

  lemma {:induction false} ListedOneMore(c: Config, st: seq<Fetched>, dy: seq<Dyn>, i: nat, ids: seq<nat>,
                                         list: seq<SbEntry>)
    requires i < |st| == |dy| && IdsAscend(dy) && Listed(c, st, dy, i, ids, list)
    ensures var more := WaitingStore(st[i], dy[i]);
            Listed(c, st, dy, i + 1, ids + (if more then [dy[i].id] else []), list + if more then [StoreEntry(c,
                st[i], dy[i])] else [])
  {
    hide StoreEntry, HasPlace, WaitingStore;
    var more := WaitingStore(st[i], dy[i]);
    var ids', list' := ids + (if more then [dy[i].id] else []), list + if more then [StoreEntry(c, st[i],
        dy[i])] else [];
    forall k | 0 <= k < |ids| ensures ids[k] < dy[i].id && HasPlace(c, st, dy, i + 1, ids[k], list[k]) {
      HasPlaceBefore(c, st, dy, i, ids[k], list[k]);
      HasPlaceGrows(c, st, dy, i, ids[k], list[k]);
    }
    if more {
      NewPlace(c, st, dy, i);
    }
    forall j | 0 <= j < i + 1 && WaitingStore(st[j], dy[j]) ensures dy[j].id in ids' {
      if j == i { assert ids'[|ids|] == dy[i].id; }
    }
  }

  lemma {:induction false} NewPlace(c: Config, st: seq<Fetched>, dy: seq<Dyn>, i: nat)
    requires i < |st| == |dy| && WaitingStore(st[i], dy[i])
    ensures HasPlace(c, st, dy, i + 1, dy[i].id, StoreEntry(c, st[i], dy[i]))
  {
    assert IsEntryOf(c, st, dy, i, dy[i].id, StoreEntry(c, st[i], dy[i]));
  }

  /** What the machine forwards from: the waiting stores older than entry `i`, oldest first. */
  lemma {:induction false} QueueIsListed(c: Config, st: seq<Fetched>, dy: seq<Dyn>, i: nat)
    requires i <= |st| == |dy| && IdsAscend(dy)
    ensures Listed(c, st, dy, i, QueueIds(st, dy, i), QueueStores(c, st, dy, i))
  {
    hide StoreEntry, Listed;
    if i == 0 {
      NothingListed(c, st, dy);
    } else {
      QueueIsListed(c, st, dy, i - 1);
      ListedOneMore(c, st, dy, i - 1, QueueIds(st, dy, i - 1), QueueStores(c, st, dy, i - 1));
    }
  }

  lemma {:induction false} NothingListed(c: Config, st: seq<Fetched>, dy: seq<Dyn>)
    requires |st| == |dy|
    ensures Listed(c, st, dy, 0, [], [])
  {
  }

  // ---------------------------------------------------------------- the same stores in the queue's slots

  /** A store the machine has waiting is in the queue, as the entry it will become. */
  lemma {:induction false} StoreInMem(c: Config, o: Own, v: View, j: nat)
    requires AllOk(c, o, v) && Sized(o, v) && j < |o.flight| && WaitingStore(Machine(o, v).st[j], Machine(o, v).dy[j])
    ensures var s, id := Machine(o, v), o.flight[j];
            && id in v.mem && !v.mem[id].isLoad
            && (Known(v.mem[id]) <==> s.dy[j].addrReady && s.dy[j].data.ready)
            && (Known(v.mem[id]) ==> StoreEntry(c, s.st[j], s.dy[j]) == EntryOf(c.byteAddressed, v.mem[id]))
  {
    hide TableOk, StoreLanes, AccessMask;
    MachineEntry(c, o, v, j);
    assert MemOpOk(o.table[o.flight[j]], v.mem[o.flight[j]]);
  }

  /** A store in the queue is one the machine has waiting. */
  lemma {:induction false} StoreInFlight(c: Config, o: Own, v: View, id: nat) returns (j: nat)
    requires AllOk(c, o, v) && Sized(o, v) && id in v.mem && !v.mem[id].isLoad
    ensures j < |o.flight| && o.flight[j] == id && WaitingStore(Machine(o, v).st[j], Machine(o, v).dy[j])
  {
    hide StoreLanes, AccessMask, NamesInRange;
    assert MemOpOk(o.table[id], v.mem[id]);
    j := PlaceOf(c, o, v, id);
  }

  /** Older in the queue is older in flight. */
  lemma {:induction false} OlderIsEarlier(c: Config, o: Own, v: View, i: nat, j: nat)
    requires AllOk(c, o, v) && i < |o.flight| && j < |o.flight|
    ensures o.flight[j] < o.flight[i] <==> j < i
  {
    Shapes(c, o, v);
    hide AllOk;
  }

  /** No older store in the queue lacks its address or data exactly if none in the machine does. */
  lemma {:induction false} BlockedAlike(c: Config, o: Own, v: View, i: nat, q: seq<LsqEntry>)
    requires AllOk(c, o, v) && Sized(o, v) && i < |o.flight| && DistinctIds(q) && v.mem == Table(q)
    ensures (forall j :: 0 <= j < |q| && OlderStore(q[j], o.flight[i]) ==> Known(q[j].body))
            <==> StoresKnown(Machine(o, v).st, Machine(o, v).dy, i)
  {
    hide AllOk, Machine, Known, DistinctIds, Table;
    var s := Machine(o, v);
    MachineShape(c, o, v);
    if forall j :: 0 <= j < |q| && OlderStore(q[j], o.flight[i]) ==> Known(q[j].body) {
      forall j | 0 <= j < i && s.st[j].instr.IsStore() && !s.dy[j].done
        ensures s.dy[j].addrReady && s.dy[j].data.ready
      {
        StoreInMem(c, o, v, j);
        OlderIsEarlier(c, o, v, i, j);
        var k := SlotTable.SlotOf(q, o.flight[j]);
        InTable(q, k, o.flight[j]);
      }
    }
    if StoresKnown(s.st, s.dy, i) {
      forall j | 0 <= j < |q| && OlderStore(q[j], o.flight[i]) ensures Known(q[j].body) {
        InTable(q, j, q[j].id);
        var k := StoreInFlight(c, o, v, q[j].id);
        OlderIsEarlier(c, o, v, i, k);
        StoreInMem(c, o, v, k);
      }
    }
  }

  /** The queue's slots hold the machine's older stores, and their ids give the program order. */
  lemma {:induction false} QueueInProgramOrder(c: Config, o: Own, v: View, i: nat, q: seq<LsqEntry>, ld: Want)
    requires AllOk(c, o, v) && Sized(o, v) && i < |o.flight| && DistinctIds(q) && v.mem == Table(q)
    requires ld.id == o.flight[i]
    requires StoresKnown(Machine(o, v).st, Machine(o, v).dy, i)
    ensures var s := Machine(o, v);
            && |s.st| == |s.dy| == |o.flight|
            && InProgramOrder(c.byteAddressed, q, ld, QueueStores(c, s.st, s.dy, i), QueueIds(s.st, s.dy, i))
  {
    hide AllOk, Machine, Known, DistinctIds, Table, QueueStores, QueueIds, StoreEntry, EntryOf;
    var s := Machine(o, v);
    MachineShape(c, o, v);
    MachineIds(c, o, v);
    var ids, list := QueueIds(s.st, s.dy, i), QueueStores(c, s.st, s.dy, i);
    QueueIsListed(c, s.st, s.dy, i);
    forall k | 0 <= k < |list| ensures InSomeSlot(c.byteAddressed, q, ld, ids[k], list[k]) {
      ListedInSlot(c, o, v, i, q, ld, ids[k], list[k]);
    }
    forall j | 0 <= j < |q| && OlderStore(q[j], ld.id) ensures q[j].id in ids {
      InTable(q, j, q[j].id);
      var k := StoreInFlight(c, o, v, q[j].id);
      OlderIsEarlier(c, o, v, i, k);
    }
  }

  lemma {:induction false} MachineIds(c: Config, o: Own, v: View)
    requires AllOk(c, o, v) && Sized(o, v)
    ensures |Machine(o, v).dy| == |o.flight| && IdsAscend(Machine(o, v).dy)
    ensures forall j :: 0 <= j < |o.flight| ==> Machine(o, v).dy[j].id == o.flight[j]
  {
  }

  lemma {:induction false} ListedInSlot(c: Config, o: Own, v: View, i: nat, q: seq<LsqEntry>, ld: Want, id: nat,
                                        e: SbEntry)
    requires AllOk(c, o, v) && Sized(o, v) && i < |o.flight| && DistinctIds(q) && v.mem == Table(q)
    requires ld.id == o.flight[i]
    requires |Machine(o, v).st| == |Machine(o, v).dy| && StoresKnown(Machine(o, v).st, Machine(o, v).dy, i)
    requires HasPlace(c, Machine(o, v).st, Machine(o, v).dy, i, id, e)
    ensures InSomeSlot(c.byteAddressed, q, ld, id, e)
  {
    hide AllOk, Machine, Known, DistinctIds, Table, StoreEntry, EntryOf;
    var s := Machine(o, v);
    var j :| 0 <= j < i && IsEntryOf(c, s.st, s.dy, j, id, e);
    MachineIds(c, o, v);
    StoreInMem(c, o, v, j);
    OlderIsEarlier(c, o, v, i, j);
    var k := SlotTable.SlotOf(q, id);
    InTable(q, k, id);
    assert IsSlot(c.byteAddressed, q[k], ld, id, e);
  }

  // ---------------------------------------------------------------- a load's progress

  /** Only entry `i`'s progress differs when only its queue entry does. */
  lemma {:induction false} LoadMoves(c: Config, o: Own, v: View, i: nat, m: MemOp)
    requires AllOk(c, o, v) && i < |o.flight| && o.flight[i] in v.mem && v.mem[o.flight[i]].isLoad
    requires MemOpOk(o.table[o.flight[i]], m)
    ensures var v' := v.(mem := v.mem[o.flight[i] := m]);
            && AllOk(c, o, v') && Sized(o, v) && Sized(o, v')
            && |Machine(o, v).dy| == |o.flight|
            && Machine(o, v') == Machine(o, v).(dy := Machine(o, v).dy[i := Machine(o, v).dy[i].(load := Progress(m))])
  {
    Shapes(c, o, v);
    MemoryMoves(o.table, v.mem, o.flight[i], m);
    hide TableOk, MemoryOk, NamesInRange, Progress, BeatsOk;
    DynamicsMove(o, v, i, m);
  }

  lemma {:induction false} MemoryMoves(table: map<nat, InstInfo>, mem: map<nat, MemOp>, id: nat, m: MemOp)
    requires MemoryOk(table, mem) && id in mem && id in table && MemOpOk(table[id], m)
    ensures MemoryOk(table, mem[id := m])
  {
  }

  lemma {:induction false} DynamicsMove(o: Own, v: View, i: nat, m: MemOp)
    requires Sized(o, v) && Ascending(o.flight) && i < |o.flight| && o.flight[i] in v.mem && m.isLoad
    ensures var dy := Dynamics(o.table, o.flight, v.entries, v.mem);
            Dynamics(o.table, o.flight, v.entries, v.mem[o.flight[i] := m]) == dy[i := dy[i].(load := Progress(m))]
  {
    hide Progress;
    forall j | 0 <= j < |o.flight| ensures j != i ==> o.flight[j] != o.flight[i] {
      assert j < i ==> o.flight[j] < o.flight[i];
      assert i < j ==> o.flight[i] < o.flight[j];
    }
  }

  /** A load the queue dispatches: what it may take, and that this is the machine's dispatch step. */
  lemma {:induction false} DispatchingIs(c: Config, o: Own, v: View, i: nat, q: seq<LsqEntry>, fwdLatency: nat,
                                         memLatency: nat)
    requires AllOk(c, o, v) && Sized(o, v) && i < |o.flight| && DistinctIds(q) && v.mem == Table(q)
    requires o.flight[i] in v.mem && v.mem[o.flight[i]].isLoad && CanDispatchLoad(Machine(o, v), i)
    ensures var v' := v.(mem := v.mem[o.flight[i] := DispatchedOp(c, v, q, o.flight[i], fwdLatency, memLatency)]);
            AllOk(c, o, v') && Sized(o, v') && Machine(o, v') == DispatchLoad(c, Machine(o, v), i)
  {
    hide DistinctIds, Table, QueueCover, Forward, Overlaid, AccessMask, LoadExtend, QueueStores, QueueIds, StoresKnown;
    var id, ba, s := o.flight[i], c.byteAddressed, Machine(o, v);
    var m := v.mem[id];
    var ld := Want(id, m.address, AccessMask(ba, m.size, m.address));
    var cover := Overlaid(QueueCover(ba, q, |q|, ld), Forward(ba, v.pending, WordIndex(ba, m.address), ld.mask));
    QueueInProgramOrder(c, o, v, i, q, ld);
    DispatchIsForward(ba, v.pending, q, ld, QueueStores(c, s.st, s.dy, i), QueueIds(s.st, s.dy, i));
    DispatchProgress(ba, m, cover, fwdLatency, memLatency);
    LoadIsIdle(c, o, v, i);
    ProgressIdle(m);
    DispatchedOk(c, o, v, i, cover, fwdLatency, memLatency);
    hide Dispatched, AllOk, MemOpOk;
    LoadMoves(c, o, v, i, Dispatched(ba, m, cover, fwdLatency, memLatency));
  }

  /** What a dispatch leaves of the queue entry. */
  function DispatchedOp(c: Config, v: View, q: seq<LsqEntry>, id: nat, fwdLatency: nat, memLatency: nat): MemOp
    requires id in v.mem
  {
    var m, ba := v.mem[id], c.byteAddressed;
    var ld := Want(id, m.address, AccessMask(ba, m.size, m.address));
    Dispatched(ba, m, Overlaid(QueueCover(ba, q, |q|, ld), Forward(ba, v.pending, WordIndex(ba, m.address), ld.mask)),
               fwdLatency, memLatency)
  }

  /** May the load be dispatched, as far as the machine is concerned? */
  ghost predicate Dispatchable(v: View, q: seq<LsqEntry>, id: nat) {
    && id in v.mem && v.mem[id].addrReady && !v.mem[id].accessing && !v.mem[id].executed
    && forall j :: 0 <= j < |q| && OlderStore(q[j], id) ==> Known(q[j].body)
  }

  /** The queue may dispatch a load exactly when the machine may. */
  lemma {:induction false} DispatchableIs(c: Config, o: Own, v: View, i: nat, q: seq<LsqEntry>)
    requires AllOk(c, o, v) && Sized(o, v) && i < |o.flight| && DistinctIds(q) && v.mem == Table(q) && o.phase == Back
    requires o.flight[i] in o.table && o.table[o.flight[i]].fetched.instr.IsLoad()
    ensures o.flight[i] in v.mem && v.mem[o.flight[i]].isLoad
    ensures Dispatchable(v, q, o.flight[i]) <==> CanDispatchLoad(Machine(o, v), i)
  {
    hide DistinctIds, Table, StoresKnown, TableOk, NamesInRange;
    Loaded(c, o, v, i);
    LoadIsIdle(c, o, v, i);
    BlockedAlike(c, o, v, i, q);
    ProgressIdle(v.mem[o.flight[i]]);
    hide AllOk, Machine, Progress;
  }

  lemma {:induction false} ProgressIdle(m: MemOp)
    ensures Progress(m) == LoadIdle <==> !m.accessing && !m.executed
  {
  }

  lemma {:induction false} Loaded(c: Config, o: Own, v: View, i: nat)
    requires AllOk(c, o, v) && i < |o.flight| && o.flight[i] in o.table && o.table[o.flight[i]].fetched.instr.IsLoad()
    ensures o.flight[i] in v.mem && v.mem[o.flight[i]].isLoad && MemOpOk(o.table[o.flight[i]], v.mem[o.flight[i]])
  {
    hide TableOk, NamesInRange;
  }

  lemma {:induction false} LoadIsIdle(c: Config, o: Own, v: View, i: nat)
    requires AllOk(c, o, v) && Sized(o, v) && i < |o.flight| && o.flight[i] in v.mem && v.mem[o.flight[i]].isLoad
    ensures var s, m := Machine(o, v), v.mem[o.flight[i]];
            && i < |s.st| == |s.dy| && s.st[i].instr.IsLoad() && s.dy[i].load == Progress(m)
            && (m.addrReady <==> s.dy[i].addrReady) && (m.addrReady ==> m.address == s.dy[i].addr)
            && s.st[i].instr.size == m.size && s.st[i].instr.unsignedLoad == m.isUnsigned && (s.dy[i].done <==>
                 m.executed)
  {
    hide TableOk, NamesInRange, Progress;
    MachineEntry(c, o, v, i);
    assert MemOpOk(o.table[o.flight[i]], v.mem[o.flight[i]]);
  }

  lemma {:induction false} DispatchedOk(c: Config, o: Own, v: View, i: nat, cover: Cover, fwdLatency: nat,
                                        memLatency: nat)
    requires AllOk(c, o, v) && i < |o.flight| && o.flight[i] in v.mem && v.mem[o.flight[i]].isLoad
    requires !v.mem[o.flight[i]].executed
    requires v.mem[o.flight[i]].addrReady
    ensures o.flight[i] in o.table
    ensures MemOpOk(o.table[o.flight[i]], Dispatched(c.byteAddressed, v.mem[o.flight[i]], cover, fwdLatency,
              memLatency))
  {
    hide TableOk, NamesInRange, LoadExtend, AccessMask;
    assert MemOpOk(o.table[o.flight[i]], v.mem[o.flight[i]]);
  }

  // ---------------------------------------------------------------- a load's broadcast

  /** A load the queue offers on the bus. */
  predicate Offers(m: MemOp) { m.isLoad && m.accessing && m.cycles == 0 && !m.executed && !m.needsFill }

  /** A queue entry after a cycle over each of the memories `mains` in turn. */
  function TickedFor(ba: bool, m: MemOp, mains: seq<seq<Lanes>>): MemOp
    decreases |mains|
  {
    if mains == [] then m else Ticked(ba, TickedFor(ba, m, mains[..|mains| - 1]), mains[|mains| - 1])
  }

  /** Cycles from the dispatch of a load to its offer; a load that goes to memory waits for at least one. */
  function LatencyOf(full: bool, fwdLatency: nat, memLatency: nat): nat {
    if full then fwdLatency else if memLatency > 0 then memLatency else 1
  }

  /** A dispatched load is offered exactly once its latency has passed, with what it forwarded laid over the memory
    * of its last waiting cycle. */
  lemma {:induction false} OffersInTime(ba: bool, m: MemOp, c: Cover, fwdLatency: nat, memLatency: nat,
                                        mains: seq<seq<Lanes>>)
    requires m.isLoad && !m.executed
    ensures var full := c.mask == AccessMask(ba, m.size, m.address);
            var latency, t := LatencyOf(full, fwdLatency, memLatency),
              TickedFor(ba, Dispatched(ba, m, c, fwdLatency, memLatency), mains);
            && (Offers(t) <==> |mains| >= latency)
            && (Offers(t) ==>
                  var word := if full then c.word
                    else Merge(MainRead(mains[latency - 1], WordIndex(ba, m.address)), c.word, c.mask);
                  t.buffer == LoadExtend(ba, word, m.size, m.isUnsigned, m.address))
  {
    hide AccessMask, WordIndex, LoadExtend, Ticked, Dispatched, Merge;
    if c.mask == AccessMask(ba, m.size, m.address) {
      ForwardedFor(ba, m, c, fwdLatency, memLatency, mains);
    } else {
      FetchedFor(ba, m, c, fwdLatency, memLatency, mains);
    }
  }

  /** A load that has all its bytes just counts down. */
  lemma {:induction false} ForwardedFor(ba: bool, m: MemOp, c: Cover, fwdLatency: nat, memLatency: nat,
                                        mains: seq<seq<Lanes>>)
    requires m.isLoad && !m.executed && c.mask == AccessMask(ba, m.size, m.address)
    ensures var n := |mains|;
            var t := TickedFor(ba, Dispatched(ba, m, c, fwdLatency, memLatency), mains);
            && t.isLoad && t.accessing && !t.executed && !t.needsFill
            && t.cycles == (if n < fwdLatency then fwdLatency - n else 0)
            && t.buffer == LoadExtend(ba, c.word, m.size, m.isUnsigned, m.address)
    decreases |mains|
  {
    hide AccessMask, WordIndex, LoadExtend, Merge;
    if mains != [] {
      ForwardedFor(ba, m, c, fwdLatency, memLatency, mains[..|mains| - 1]);
    }
  }

  /** A load that needs its word counts down, reads memory when the count ends, and keeps what it has read. */
  lemma {:induction false} FetchedFor(ba: bool, m: MemOp, c: Cover, fwdLatency: nat, memLatency: nat,
                                      mains: seq<seq<Lanes>>)
    requires m.isLoad && !m.executed && c.mask != AccessMask(ba, m.size, m.address)
    ensures var n, latency := |mains|, LatencyOf(false, fwdLatency, memLatency);
            var t := TickedFor(ba, Dispatched(ba, m, c, fwdLatency, memLatency), mains);
            && t.isLoad && t.accessing && !t.executed
            && t.cycles == (if n < memLatency then memLatency - n else 0)
            && (t.needsFill <==> n < latency) && SameAccess(t, m)
            && (n < latency ==>
                  t.partialWord == c.word && t.partialMask == c.mask && t.partialEn == (c.mask != NO_LANES))
            && (n >= latency ==> t.buffer == LoadExtend(ba,
                  Merge(MainRead(mains[latency - 1], WordIndex(ba, m.address)), c.word, c.mask),
                  m.size, m.isUnsigned, m.address))
    decreases |mains|
  {
    hide AccessMask, WordIndex, LoadExtend;
    if mains != [] {
      FetchedFor(ba, m, c, fwdLatency, memLatency, mains[..|mains| - 1]);
      var word := MainRead(mains[|mains| - 1], WordIndex(ba, m.address));
      assert Merge(word, c.word, NO_LANES) == word;
      hide Merge, MainRead;
    }
  }

  predicate SameAccess(t: MemOp, m: MemOp) {
    t.address == m.address && t.size == m.size && t.isUnsigned == m.isUnsigned
  }

  function ReleasedOp(m: MemOp): MemOp { m.(executed := true, accessing := false) }

  function LoadedView(v: View, i: nat, id: nat): View
    requires i < |v.entries| && id in v.mem
  {
    CompletedView(v, i, v.mem[id].buffer).(mem := v.mem[id := ReleasedOp(v.mem[id])])
  }

  function LoadedOwn(o: Own, id: nat, b: Beat): Own
    requires id in o.table
  {
    CompletedOwn(o, id).(wakeups := o.wakeups + [b])
  }

  lemma {:induction false} LoadedMemory(table: map<nat, InstInfo>, mem: map<nat, MemOp>, id: nat)
    requires MemoryOk(table, mem) && id in mem && Offers(mem[id]) && id in table
    ensures MemoryOk(table[id := table[id].(completed := true)], mem[id := ReleasedOp(mem[id])])
  {
    var t, n := table[id := table[id].(completed := true)], mem[id := ReleasedOp(mem[id])];
    assert MemOpOk(table[id], mem[id]);
    forall x | x in n ensures x in t && MemOpOk(t[x], n[x]) {
      assert x in mem && MemOpOk(table[x], mem[x]);
    }
  }

  lemma {:induction false} LoadedFlight(o: Own, v: View, i: nat)
    requires Sized(o, v) && Ascending(o.flight) && i < |o.flight| && o.flight[i] in v.mem && Offers(v.mem[o.flight[i]])
    ensures var o', v' := CompletedOwn(o, o.flight[i]), LoadedView(v, i, o.flight[i]);
            && Sized(o', v') && Statics(o'.table, o'.flight) == Statics(o.table, o.flight)
            && Dynamics(o'.table, o'.flight, v'.entries, v'.mem)
               == Complete(Dynamics(o.table, o.flight, v.entries, v.mem), i, v.mem[o.flight[i]].buffer)
  {
    var id := o.flight[i];
    CompletedFlight(o, v, i, v.mem[id].buffer);
    var o', w := CompletedOwn(o, id), CompletedView(v, i, v.mem[id].buffer);
    DynamicsMove(o', w, i, ReleasedOp(v.mem[id]));
    var dy := Dynamics(o'.table, o.flight, w.entries, v.mem);
    LoadAsBefore(dy, i);
  }

  lemma {:induction false} LoadedOk(c: Config, o: Own, v: View, i: nat, b: Beat)
    requires AllOk(c, o, v) && i < |o.flight| == |v.entries| && o.flight[i] in o.table && o.flight[i] in v.mem
    requires Offers(v.mem[o.flight[i]])
    ensures AllOk(c, LoadedOwn(o, o.flight[i], b), LoadedView(v, i, o.flight[i]))
  {
    var id := o.flight[i];
    CompletedTable(c, o, v, i, v.mem[id].buffer);
    LoadedMemory(o.table, v.mem, id);
    hide MemoryOk, TableOk, NamesInRange;
  }

  /** The place of a load in the queue. */
  lemma {:induction false} HeldLoad(c: Config, o: Own, v: View, id: nat) returns (i: nat)
    requires AllOk(c, o, v) && id in v.mem
    ensures i < |o.flight| == |v.entries| && o.flight[i] == id && id in o.table
    ensures v.mem[id].robId == o.table[id].robId == Tag(v.head, c.cap, i) >= 0
  {
    hide NamesInRange;
    Shapes(c, o, v);
    TagPlaces(c, o, v);
    assert MemOpOk(o.table[id], v.mem[id]);
    i := PlaceOf(c, o, v, id);
  }

  /** A granted load is the machine's load broadcast. */
  lemma {:induction false} GrantingLoadIs(c: Config, o: Own, v: View, i: nat, b: Beat)
    requires AllOk(c, o, v) && i < |o.flight| && o.flight[i] in v.mem && Offers(v.mem[o.flight[i]])
    requires o.phase == Writeback
    requires b == Beat(Tag(v.head, c.cap, i), v.mem[o.flight[i]].buffer)
    ensures Sized(o, v) && i < |v.entries| && o.flight[i] in o.table
    ensures var o', v' := LoadedOwn(o, o.flight[i], b), LoadedView(v, i, o.flight[i]);
            && AllOk(c, o', v') && Sized(o', v')
            && CanBroadcastLoad(Machine(o, v), i) && Machine(o', v') == BroadcastLoad(c, Machine(o, v), i)
  {
    Shapes(c, o, v);
    LoadedOk(c, o, v, i, b);
    LoadedFlight(o, v, i);
    LoadIsIdle(c, o, v, i);
    hide AllOk, LoadedView, CompletedOwn, Complete;
    assert Progress(v.mem[o.flight[i]]) == LoadReady(v.mem[o.flight[i]].buffer);
  }

  // ---------------------------------------------------------------- one cycle of the queue

  /** The queue's entries once those of the first `n` instructions in flight have had their cycle. */
  ghost function TickedUpTo(c: Config, o: Own, v: View, n: nat): View
    requires n <= |o.flight|
  {
    v.(mem := map id | id in v.mem :: if id in o.flight[..n] then Ticked(c.byteAddressed, v.mem[id],
        v.main) else v.mem[id])
  }

  lemma {:induction false} TickedOk(c: Config, info: InstInfo, m: MemOp, main: seq<Lanes>)
    requires MemOpOk(info, m)
    ensures MemOpOk(info, Ticked(c.byteAddressed, m, main))
  {
    hide LoadExtend, WordIndex;
  }

  /** One more instruction's cycle changes at most its own entry. */
  lemma {:induction false} TickedOneMore(c: Config, o: Own, v: View, n: nat)
    requires n < |o.flight| && Ascending(o.flight)
    ensures var u, u' := TickedUpTo(c, o, v, n), TickedUpTo(c, o, v, n + 1);
            && (o.flight[n] !in v.mem ==> u' == u)
            && (o.flight[n] in v.mem ==>
                  && o.flight[n] in u.mem && u.mem[o.flight[n]] == v.mem[o.flight[n]]
                  && u' == u.(mem := u.mem[o.flight[n] := Ticked(c.byteAddressed, v.mem[o.flight[n]], v.main)]))
  {
    hide Ticked;
    assert o.flight[..n + 1] == o.flight[..n] + [o.flight[n]];
    forall x | x in o.flight[..n] ensures x != o.flight[n] {
      var j :| 0 <= j < n && o.flight[j] == x;
    }
  }

  /** A cycle of one entry is nothing to the machine, or its fill step. */
  lemma {:induction false} TickStep(c: Config, o: Own, v: View, n: nat) returns (run: seq<Step>)
    requires AllOk(c, o, v) && n < |o.flight| && o.flight[n] in v.mem && o.phase == Writeback
    ensures var u := v.(mem := v.mem[o.flight[n] := Ticked(c.byteAddressed, v.mem[o.flight[n]], v.main)]);
            && AllOk(c, o, u) && Sized(o, v) && Sized(o, u) && Reaches(c, Machine(o, v), run, Machine(o, u))
    ensures FillsAndDrains(run)
  {
    hide Ticked, AllOk;
    var id, m := o.flight[n], v.mem[o.flight[n]];
    TickedKind(c, m, v.main);
    Shapes(c, o, v);
    run := [];
    if !m.isLoad {
      assert v.mem[id := m] == v.mem;
    } else {
      TickLoad(c, o, v, n);
      hide Machine;
      var m' := Ticked(c.byteAddressed, m, v.main);
      if Progress(m') != Progress(m) {
        run := [DoFillLoad(n)];
        OneStep(c, Machine(o, v), DoFillLoad(n));
      }
    }
  }

  lemma {:induction false} TickLoad(c: Config, o: Own, v: View, n: nat)
    requires AllOk(c, o, v) && Sized(o, v) && n < |o.flight| && o.flight[n] in v.mem && o.phase == Writeback
    requires v.mem[o.flight[n]].isLoad
    ensures var m' := Ticked(c.byteAddressed, v.mem[o.flight[n]], v.main);
            var u := v.(mem := v.mem[o.flight[n] := m']);
            && AllOk(c, o, u) && Sized(o, u)
            && if Progress(m') == Progress(v.mem[o.flight[n]]) then Machine(o, u) == Machine(o, v)
               else CanFill(Machine(o, v), n) && Machine(o, u) == FillLoad(c, Machine(o, v), n)
  {
    hide Ticked, LoadExtend, WordIndex;
    var id, m := o.flight[n], v.mem[o.flight[n]];
    var m' := Ticked(c.byteAddressed, m, v.main);
    InMemOk(c, o, v, n);
    TickedOk(c, o.table[id], m, v.main);
    LoadIsIdle(c, o, v, n);
    LoadMoves(c, o, v, n, m');
    TickedKind(c, m, v.main);
    TickProgress(c.byteAddressed, m, v.main);
    hide AllOk, MemOpOk, Progress;
    LoadAsBefore(Machine(o, v).dy, n);
  }

  lemma {:induction false} LoadAsBefore(dy: seq<Dyn>, n: nat)
    requires n < |dy|
    ensures dy[n := dy[n].(load := dy[n].load)] == dy
  {
  }

  lemma {:induction false} InMemOk(c: Config, o: Own, v: View, n: nat)
    requires AllOk(c, o, v) && n < |o.flight| && o.flight[n] in v.mem
    ensures o.flight[n] in o.table && MemOpOk(o.table[o.flight[n]], v.mem[o.flight[n]])
    ensures var m := v.mem[o.flight[n]]; m.isLoad && m.needsFill ==> m.addrReady && m.accessing && !m.executed
  {
    hide TableOk, NamesInRange;
    assert MemOpOk(o.table[o.flight[n]], v.mem[o.flight[n]]);
  }

  lemma {:induction false} TickedKind(c: Config, m: MemOp, main: seq<Lanes>)
    ensures !m.isLoad ==> Ticked(c.byteAddressed, m, main) == m
    ensures Progress(m).LoadWaiting? ==> m.needsFill
  {
  }

  ghost predicate FillsAndDrains(run: seq<Step>) {
    forall k :: 0 <= k < |run| ==> run[k].DoFillLoad? || run[k].DoDrain?
  }

  /** The loads' cycle is a run of fill steps. */
  lemma {:induction false} FillRun(c: Config, o: Own, v: View, n: nat) returns (run: seq<Step>)
    requires AllOk(c, o, v) && n <= |o.flight| && o.phase == Writeback
    ensures var u := TickedUpTo(c, o, v, n);
            && AllOk(c, o, u) && Sized(o, v) && Sized(o, u) && Reaches(c, Machine(o, v), run, Machine(o, u))
    ensures FillsAndDrains(run)
  {
    hide AllOk, Machine, Ticked;
    Shapes(c, o, v);
    if n == 0 {
      run := [];
      assert TickedUpTo(c, o, v, 0).mem == v.mem;
    } else {
      run := FillRun(c, o, v, n - 1);
      TickedOneMore(c, o, v, n - 1);
      if o.flight[n - 1] in v.mem {
        var u := TickedUpTo(c, o, v, n - 1);
        var step := TickStep(c, o, u, n - 1);
        ReachesAppend(c, Machine(o, v), run, Machine(o, u), step, Machine(o, TickedUpTo(c, o, v, n)));
        run := run + step;
      }
    }
  }

  /** Stores reaching memory, oldest first, are a run of drain steps. */
  lemma {:induction false} DrainRun(c: Config, s: Core, n: nat) returns (run: seq<Step>)
    requires s.phase == Writeback && n <= |s.sb|
    ensures Reaches(c, s, run, s.(main := Written(c.byteAddressed, s.main, s.sb[..n]), sb := s.sb[n..]))
    ensures FillsAndDrains(run)
  {
    hide WordIndex;
    if n == 0 {
      run := [];
      assert s.sb[0..] == s.sb && s.sb[..0] == [];
    } else {
      run := DrainRun(c, s, n - 1);
      var t := s.(main := Written(c.byteAddressed, s.main, s.sb[..n - 1]), sb := s.sb[n - 1..]);
      var u := s.(main := Written(c.byteAddressed, s.main, s.sb[..n]), sb := s.sb[n..]);
      assert s.sb[..n][..n - 1] == s.sb[..n - 1] && t.sb[1..] == s.sb[n..];
      assert u == Drain(c, t);
      OneStep(c, t, DoDrain);
      ReachesAppend(c, s, run, t, [DoDrain], u);
      run := run + [DoDrain];
    }
  }

  /** Components after a cycle in which the `n` oldest buffered stores reached memory. */
  ghost function TickedView(c: Config, v: View, n: nat): View
    requires n <= |v.pending|
  {
    v.(mem := map id | id in v.mem :: Ticked(c.byteAddressed, v.mem[id], v.main),
       main := Written(c.byteAddressed, v.main, v.pending[..n]), pending := v.pending[n..])
  }

  /** The queue's cycle is a run of the machine's fill and drain steps. */
  lemma {:induction false} TickRun(c: Config, o: Own, v: View, n: nat) returns (run: seq<Step>)
    requires AllOk(c, o, v) && n <= |v.pending| && o.phase == Writeback
    ensures var u := TickedView(c, v, n);
            && AllOk(c, o, u) && Sized(o, v) && Sized(o, u) && Reaches(c, Machine(o, v), run, Machine(o, u))
    ensures FillsAndDrains(run)
  {
    hide Ticked, Written;
    var u := TickedUpTo(c, o, v, |o.flight|);
    run := FillRun(c, o, v, |o.flight|);
    AllTicked(c, o, v);
    var more := DrainRun(c, Machine(o, u), n);
    MainMoves(c, o, u, n);
    hide AllOk, Machine;
    ReachesAppend(c, Machine(o, v), run, Machine(o, u), more, Machine(o, TickedView(c, v, n)));
    run := run + more;
  }

  lemma {:induction false} AllTicked(c: Config, o: Own, v: View)
    requires AllOk(c, o, v)
    ensures TickedUpTo(c, o, v, |o.flight|).mem == map id | id in v.mem :: Ticked(c.byteAddressed, v.mem[id], v.main)
  {
    hide Ticked, EntryOk, MemOpOk;
    assert o.flight[..|o.flight|] == o.flight;
  }

  lemma {:induction false} MainMoves(c: Config, o: Own, v: View, n: nat)
    requires AllOk(c, o, v) && Sized(o, v) && n <= |v.pending|
    ensures var u, s := v.(main := Written(c.byteAddressed, v.main, v.pending[..n]), pending := v.pending[n..]),
              Machine(o, v);
            && AllOk(c, o, u) && Sized(o, u) && s.sb == v.pending
            && Machine(o, u) == s.(main := Written(c.byteAddressed, s.main, s.sb[..n]), sb := s.sb[n..])
  {
    hide Written;
  }
}
