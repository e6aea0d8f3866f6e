/** Dispatch and fetch on table and components: addresses, issue to the functional units, and new instructions. */
module ProcessorIssue {
  import opened Words
  import opened Isa
  import opened Core
  import opened LoadStoreQueue
  import opened ProcessorState
  import opened ProcessorSteps

  // ---------------------------------------------------------------- one entry of the table changes

  function WithInfo(o: Own, id: nat, info: InstInfo): Own { o.(table := o.table[id := info]) }

  lemma {:induction false} InfoTable(c: Config, o: Own, v: View, i: nat, info: InstInfo)
    requires AllOk(c, o, v) && i < |o.flight| && o.flight[i] in o.table
    requires EntryOk(c, info, Tag(v.head, c.cap, i), v.entries[i])
    ensures TableOk(c, WithInfo(o, o.flight[i], info).table, o.flight, o.nextId, v.head, v.entries)
  {
    hide EntryOk, MemoryOk, NamesInRange, Tag;
    var t := WithInfo(o, o.flight[i], info).table;
    forall j | 0 <= j < |o.flight|
      ensures o.flight[j] < o.nextId && EntryOk(c, t[o.flight[j]], Tag(v.head, c.cap, j), v.entries[j])
    {
      EntryAt(c, o, v, j);
      assert j < i ==> o.flight[j] < o.flight[i];
      assert i < j ==> o.flight[i] < o.flight[j];
    }
  }

  lemma {:induction false} InfoFlight(o: Own, v: View, i: nat, info: InstInfo, mem: map<nat, MemOp>)
    requires Sized(o, v) && Ascending(o.flight) && i < |o.flight| && info.fetched == o.table[o.flight[i]].fetched
    requires forall x :: x != o.flight[i] ==> (x in mem <==> x in v.mem) && (x in mem ==> mem[x] == v.mem[x])
    ensures var o' := WithInfo(o, o.flight[i], info);
            && InTableAll(o'.table, o.flight)
            && Statics(o'.table, o'.flight) == Statics(o.table, o.flight)
            && Dynamics(o'.table, o'.flight, v.entries, mem)
               == Dynamics(o.table, o.flight, v.entries, v.mem)[i := DynOf(o.flight[i], info, v.entries[i], mem)]
  {
    hide Progress;
    var o' := WithInfo(o, o.flight[i], info);
    forall j | 0 <= j < |o.flight| && j != i
      ensures o.flight[j] != o.flight[i]
      ensures DynOf(o.flight[j], o'.table[o.flight[j]], v.entries[j], mem)
                == DynOf(o.flight[j], o.table[o.flight[j]], v.entries[j], v.mem)
    {
      assert j < i ==> o.flight[j] < o.flight[i];
      assert i < j ==> o.flight[i] < o.flight[j];
    }
  }

  // ---------------------------------------------------------------- addresses

  function AddressOf(info: InstInfo): Word { Wrap32(info.src1.val + info.fetched.instr.imm) }

  /** A load or store whose base is known and whose address is not computed yet. */
  predicate NeedsAddress(info: InstInfo) {
    info.fetched.instr.IsMem() && !info.completed && !info.addrReady && info.src1.ready
  }

  function AddressedInfo(info: InstInfo): InstInfo { info.(addrReady := true, addr := AddressOf(info)) }

  function AddressedView(v: View, id: nat, addr: Word): View
    requires id in v.mem
  {
    v.(mem := v.mem[id := v.mem[id].(address := addr, addrReady := true)])
  }

  lemma {:induction false} InQueue(c: Config, o: Own, v: View, id: nat)
    requires AllOk(c, o, v) && id in o.table && o.table[id].fetched.instr.IsMem() && !o.table[id].completed
    ensures id in v.mem && MemOpOk(o.table[id], v.mem[id])
  {
  }

  lemma {:induction false} AddressedMemory(table: map<nat, InstInfo>, mem: map<nat, MemOp>, id: nat)
    requires MemoryOk(table, mem) && id in table && id in mem && MemOpOk(table[id], mem[id]) && NeedsAddress(table[id])
    ensures MemoryOk(table[id := AddressedInfo(table[id])], mem[id := mem[id].(address := AddressOf(table[id]),
              addrReady := true)])
  {
    hide AddressOf;
    var t, n := table[id := AddressedInfo(table[id])], mem[id := mem[id].(address := AddressOf(table[id]),
        addrReady := true)];
    forall x | x in n ensures x in t && MemOpOk(t[x], n[x]) {
      if x != id { assert x in mem && MemOpOk(table[x], mem[x]); }
    }
  }

  /** Computing an address is the machine's address step. */
  lemma {:induction false} AddressingIs(c: Config, o: Own, v: View, i: nat)
    requires AllOk(c, o, v) && i < |o.flight| && o.flight[i] in o.table && NeedsAddress(o.table[o.flight[i]])
    requires o.phase == Back
    ensures Sized(o, v) && o.flight[i] in v.mem
    ensures var id := o.flight[i];
            var info := o.table[id];
            var o', v' := WithInfo(o, id, AddressedInfo(info)), AddressedView(v, id, AddressOf(info));
            && AllOk(c, o', v') && Sized(o', v')
            && CanComputeAddr(Machine(o, v), i) && Machine(o', v') == ComputeAddr(Machine(o, v), i)
  {
    hide AllOk, MemOpOk;
    var id, info := o.flight[i], o.table[o.flight[i]];
    Shapes(c, o, v);
    InQueue(c, o, v, id);
    AddressedOk(c, o, v, i);
    NeedsAddressIs(c, o, v, i);
    MachineEntry(c, o, v, i);
    InfoFlight(o, v, i, AddressedInfo(info), AddressedView(v, id, AddressOf(info)).mem);
  }

  lemma {:induction false} AddressedOk(c: Config, o: Own, v: View, i: nat)
    requires AllOk(c, o, v) && i < |o.flight| && o.flight[i] in o.table && NeedsAddress(o.table[o.flight[i]])
    ensures var id := o.flight[i];
            id in v.mem && AllOk(c, WithInfo(o, id, AddressedInfo(o.table[id])), AddressedView(v, id,
                AddressOf(o.table[id])))
  {
    var id, info := o.flight[i], o.table[o.flight[i]];
    InQueue(c, o, v, id);
    EntryAt(c, o, v, i);
    AddressedMemory(o.table, v.mem, id);
    InfoTable(c, o, v, i, AddressedInfo(info));
    hide MemoryOk, TableOk, EntryOk, NamesInRange, BeatsOk, AddressOf, MemOpOk, NeedsAddress;
  }

  /** What the address scan asks of an entry is what the machine's step asks. */
  lemma {:induction false} NeedsAddressIs(c: Config, o: Own, v: View, i: nat)
    requires AllOk(c, o, v) && Sized(o, v) && i < |o.flight| && o.flight[i] in o.table && o.phase == Back
    ensures NeedsAddress(o.table[o.flight[i]]) <==> CanComputeAddr(Machine(o, v), i)
  {
    MachineShape(c, o, v);
    MachineEntry(c, o, v, i);
  }

  /** The queue already has the data of a store whose data the table has. */
  lemma {:induction false} DataInQueue(c: Config, o: Own, v: View, id: nat)
    requires AllOk(c, o, v) && id in v.mem && !v.mem[id].isLoad && id in o.table && o.table[id].data.ready
    ensures v.mem[id := v.mem[id].(data := o.table[id].data.val, dataReady := true)] == v.mem
  {
    hide TableOk, NamesInRange;
    assert MemOpOk(o.table[id], v.mem[id]);
    assert v.mem[id].(data := o.table[id].data.val, dataReady := true) == v.mem[id];
  }

  lemma {:induction false} StoreKind(c: Config, o: Own, v: View, id: nat)
    requires AllOk(c, o, v) && id in v.mem && id in o.table && o.table[id].fetched.instr.IsStore()
    ensures !v.mem[id].isLoad
  {
    assert MemOpOk(o.table[id], v.mem[id]);
  }

  lemma {:induction false} WithInfoKeeps(o: Own, id: nat, info: InstInfo)
    requires id in o.table
    ensures WithInfo(o, id, info).flight == o.flight && WithInfo(o, id, info).table.Keys == o.table.Keys
    ensures WithInfo(o, id, info).phase == o.phase
  {
  }

  // ---------------------------------------------------------------- issue

  /** Waits in a station with both operands. */
  predicate InStation(s: Core, id: nat) { id in s.rs && s.rs[id].src1.ready && s.rs[id].src2.ready }

  function IssuedOwn(c: Config, o: Own, id: nat): Own
    requires id in o.table
  {
    var info := o.table[id];
    WithInfo(o, id, info.(issued := true)).(
      fu := o.fu + [Beat(info.robId, Compute(c, info.fetched.instr.op, info.src1.val, info.src2.val))])
  }

  /** Issuing is the machine's issue step. */
  lemma {:induction false} IssuingIs(c: Config, o: Own, v: View, i: nat)
    requires AllOk(c, o, v) && Sized(o, v) && i < |o.flight| && o.flight[i] in o.table && CanIssue(Machine(o, v), i)
    ensures var o', v' := IssuedOwn(c, o, o.flight[i]), v.(stations := v.stations - {o.flight[i]});
            AllOk(c, o', v') && Sized(o', v') && Machine(o', v') == Issue(c, Machine(o, v), i)
  {
    hide AllOk, MemOpOk, Progress, Compute;
    var id, info := o.flight[i], o.table[o.flight[i]];
    Shapes(c, o, v);
    TagPlaces(c, o, v);
    IssuedOk(c, o, v, i);
    MachineEntry(c, o, v, i);
    InfoFlight(o, v, i, info.(issued := true), v.mem);
  }

  lemma {:induction false} IssuedOk(c: Config, o: Own, v: View, i: nat)
    requires AllOk(c, o, v) && i < |o.flight| && o.flight[i] in o.table
    ensures AllOk(c, IssuedOwn(c, o, o.flight[i]), v.(stations := v.stations - {o.flight[i]}))
  {
    var id := o.flight[i];
    var info' := o.table[id].(issued := true);
    TagPlaces(c, o, v);
    EntryAt(c, o, v, i);
    IssuedMemory(o.table, v.mem, id);
    InfoTable(c, o, v, i, info');
    hide MemoryOk, TableOk, EntryOk, NamesInRange, MemOpOk, Compute;
  }

  lemma {:induction false} IssuedMemory(table: map<nat, InstInfo>, mem: map<nat, MemOp>, id: nat)
    requires MemoryOk(table, mem) && id in table
    ensures MemoryOk(table[id := table[id].(issued := true)], mem)
  {
    var t := table[id := table[id].(issued := true)];
    forall x | x in mem ensures x in t && MemOpOk(t[x], mem[x]) {
      assert MemOpOk(table[x], mem[x]);
    }
  }

  // ---------------------------------------------------------------- fetch and the stages of a cycle

  function FetchedOwn(o: Own, f: Fetched): Own { o.(front := o.front + [f], fetchPc := PredNext(f)) }

  lemma {:induction false} MachineFront(c: Config, o: Own, v: View)
    requires AllOk(c, o, v)
    ensures Sized(o, v) && Machine(o, v).phase == o.phase && Machine(o, v).fetchPc == o.fetchPc
    ensures Machine(o, v).front == o.front
  {
    Shapes(c, o, v);
  }

  lemma {:induction false} IssuedKeeps(c: Config, o: Own, id: nat)
    requires id in o.table
    ensures IssuedOwn(c, o, id).flight == o.flight && IssuedOwn(c, o, id).table.Keys == o.table.Keys
    ensures IssuedOwn(c, o, id).phase == o.phase
  {
  }

  lemma {:induction false} FetchingIs(c: Config, o: Own, v: View, taken: bool, target: Pc)
    requires AllOk(c, o, v) && Sized(o, v) && CanFetch(c, Machine(o, v), taken)
    ensures var o' := FetchedOwn(o, Fetched(c.prog[o.fetchPc], o.fetchPc, taken, target));
            AllOk(c, o', v) && Sized(o', v) && Machine(o', v) == Fetch(c, Machine(o, v), taken, target)
  {
    hide ViewOk, TablesOk;
  }

  lemma {:induction false} NextStage(c: Config, o: Own, v: View, phase: Phase)
    requires AllOk(c, o, v)
    ensures var o' := o.(phase := phase);
            Sized(o, v) && AllOk(c, o', v) && Sized(o', v) && Machine(o', v) == Machine(o, v).(phase := phase)
  {
    Shapes(c, o, v);
    hide ViewOk, TablesOk;
  }

  /** The code's test for the end is the machine's. */
  lemma {:induction false} EmptyIs(c: Config, o: Own, v: View)
    requires AllOk(c, o, v)
    ensures Sized(o, v)
    ensures Finished(c, Machine(o, v)) <==>
            o.fetchPc !in c.prog && o.front == [] && o.table == map[] && |o.flight| == 0 && v.mem
                == map[] && v.pending == []
  {
    Shapes(c, o, v);
    MachineShape(c, o, v);
    if |o.flight| == 0 {
      forall x | x in o.table ensures false {
      }
    }
  }
}
