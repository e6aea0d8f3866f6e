/** Instruction table and components as values, the speculative machine they make up, and rename. */
module ProcessorState {
  import opened Words
  import opened Isa
  import opened Core
  import opened ReorderBuffer
  import opened LoadStoreQueue

  /** An entry of the instruction table. */
  datatype InstInfo = InstInfo(robId: int, fetched: Fetched, src1: Operand, src2: Operand, data: Operand,
                               addrReady: bool, addr: Word, issued: bool, snapshot: seq<int>, completed: bool)

  // ---------------------------------------------------------------- the components as one speculative machine

  /** What the machine knows of an instruction: its table entry, its ROB entry's value, its progress in the LSQ. */
  function DynOf(id: nat, info: InstInfo, e: RobEntry, mem: map<nat, MemOp>): Dyn {
    Dyn(id, info.src1, info.src2, info.data, info.addrReady, info.addr, info.issued,
        if id in mem && mem[id].isLoad then Progress(mem[id]) else LoadIdle,
        info.snapshot, info.completed, if info.completed then e.value else 0)
  }

  ghost predicate InTableAll(table: map<nat, InstInfo>, flight: seq<nat>) {
    forall i :: 0 <= i < |flight| ==> flight[i] in table
  }

  ghost function Statics(table: map<nat, InstInfo>, flight: seq<nat>): (st: seq<Fetched>)
    requires InTableAll(table, flight)
    ensures |st| == |flight| && forall i :: 0 <= i < |flight| ==> st[i] == table[flight[i]].fetched
  {
    seq(|flight|, i requires 0 <= i < |flight| => table[flight[i]].fetched)
  }

  ghost function Dynamics(table: map<nat, InstInfo>, flight: seq<nat>, entries: seq<RobEntry>, mem: map<nat,
                          MemOp>): (dy: seq<Dyn>)
    requires InTableAll(table, flight) && |entries| == |flight|
    ensures |dy| == |flight|
    ensures forall i :: 0 <= i < |flight| ==> dy[i] == DynOf(flight[i], table[flight[i]], entries[i], mem)
  {
    seq(|flight|, i requires 0 <= i < |flight| => DynOf(flight[i], table[flight[i]], entries[i], mem))
  }

  ghost predicate Ascending(ids: seq<nat>) { forall i, j :: 0 <= i < j < |ids| ==> ids[i] < ids[j] }

  /** ROB order is id order; the table holds exactly the instructions in the ROB, and agrees with it. */
  ghost predicate TableOk(c: Config, table: map<nat, InstInfo>, flight: seq<nat>, nextId: nat, head: nat,
                          entries: seq<RobEntry>) {
    && InTableAll(table, flight) && |entries| == |flight| && Ascending(flight)
    && (forall id :: id in table ==> id in flight)
    && (forall i :: 0 <= i < |flight| ==>
         flight[i] < nextId && EntryOk(c, table[flight[i]], Tag(head, c.cap, i), entries[i]))
  }

  ghost predicate EntryOk(c: Config, info: InstInfo, tag: int, e: RobEntry) {
    && info.robId == tag && info.completed == e.done && e.dest == info.fetched.instr.dest
    && NamesInRange(c, info.snapshot)
  }

  /** The LSQ holds every load in flight and every store not yet handed over, with the table's address and data. */
  ghost predicate MemoryOk(table: map<nat, InstInfo>, mem: map<nat, MemOp>) {
    && (forall id :: id in mem ==> id in table && MemOpOk(table[id], mem[id]))
    && (forall id :: id in table && InLsq(table[id]) ==> id in mem)
  }

  predicate InLsq(info: InstInfo) {
    info.fetched.instr.IsLoad() || (info.fetched.instr.IsStore() && !info.completed)
  }

  ghost predicate MemOpOk(info: InstInfo, m: MemOp) {
    var ins := info.fetched.instr;
    && InLsq(info) && m.isLoad == ins.IsLoad() && m.robId == info.robId && m.size == ins.size
         && m.isUnsigned == ins.unsignedLoad
    && m.addrReady == info.addrReady && (info.addrReady ==> m.address == info.addr)
    && (ins.IsStore() ==> m.dataReady == info.data.ready && (info.data.ready ==> m.data == info.data.val))
    && (ins.IsLoad() ==> m.executed == info.completed && (m.needsFill ==> m.addrReady && m.accessing && !m.executed))
  }

  /** Rename maps name ROB slots or nothing. */
  ghost predicate NamesInRange(c: Config, names: seq<int>) {
    |names| == c.nregs && forall r :: 0 <= r < |names| ==> -1 <= names[r] < c.cap
  }

  // ---------------------------------------------------------------- operands

  /** An operand as rename reads it from register file, rename map and ROB. */
  function OperandOf(c: Config, arf: seq<Word>, rat: seq<int>, head: nat, entries: seq<RobEntry>, r: int): Operand
    requires |arf| == c.nregs == |rat|
  {
    if r <= 0 || r >= c.nregs then Operand(true, -1, 0)
    else if rat[r] == -1 then Operand(true, -1, arf[r])
    else
      var a := Age(head, c.cap, rat[r]);
      if 0 <= a < |entries| && entries[a].done then Operand(true, rat[r], entries[a].value) else Operand(false,
          rat[r], 0)
  }

  // ---------------------------------------------------------------- growing the flight

  lemma {:induction false} TableGrows(c: Config, table: map<nat, InstInfo>, flight: seq<nat>, nextId: nat, head: nat,
                                      entries: seq<RobEntry>, info: InstInfo, e: RobEntry)
    requires TableOk(c, table, flight, nextId, head, entries) && EntryOk(c, info, Tag(head, c.cap, |flight|), e)
    ensures TableOk(c, table[nextId := info], flight + [nextId], nextId + 1, head, entries + [e])
  {
  }

  lemma {:induction false} MemoryGrows(table: map<nat, InstInfo>, mem: map<nat, MemOp>, id: nat, info: InstInfo,
                                       m: MemOp)
    requires MemoryOk(table, mem) && id !in table && (InLsq(info) ==> MemOpOk(info, m))
    ensures MemoryOk(table[id := info], if InLsq(info) then mem[id := m] else mem)
  {
  }

  lemma {:induction false} FlightGrows(table: map<nat, InstInfo>, flight: seq<nat>, entries: seq<RobEntry>,
                                       mem: map<nat, MemOp>,
                                       id: nat, info: InstInfo, e: RobEntry, mem': map<nat, MemOp>)
    requires InTableAll(table, flight) && |entries| == |flight| && id !in table
    requires forall x :: x != id ==> (x in mem' <==> x in mem) && (x in mem ==> mem'[x] == mem[x])
    ensures InTableAll(table[id := info], flight + [id])
    ensures Statics(table[id := info], flight + [id]) == Statics(table, flight) + [info.fetched]
    ensures Dynamics(table[id := info], flight + [id], entries + [e], mem')
         == Dynamics(table, flight, entries, mem) + [DynOf(id, info, e, mem')]
  {
    var table', dy' := table[id := info], Dynamics(table[id := info], flight + [id], entries + [e], mem');
    forall i | 0 <= i < |flight| ensures dy'[i] == DynOf(flight[i], table[flight[i]], entries[i], mem) {
      assert flight[i] != id;
    }
  }

  /** The LSQ entry of a memory instruction just placed. */
  function PlacedOp(info: InstInfo): MemOp {
    var ins := info.fetched.instr;
    var m := FreshOp(ins.IsLoad(), info.robId, ins.size, ins.unsignedLoad);
    if ins.IsStore() && info.data.ready then m.(data := info.data.val, dataReady := true) else m
  }

  // ---------------------------------------------------------------- the components, seen at once

  /** What the components hold: registers, rename map, checkpoints, reservation stations, LSQ, store buffer, main
    * memory, and the ROB from its head on. */
  datatype View = View(regs: seq<Word>, names: seq<int>, live: map<int, seq<int>>, stations: map<nat, RsOps>,
                       mem: map<nat, MemOp>, pending: seq<SbEntry>, main: seq<Lanes>, head: nat, entries: seq<RobEntry>)

  ghost predicate ViewOk(c: Config, v: View) {
    && |v.regs| == c.nregs && NamesInRange(c, v.names) && (forall t :: t in v.live ==> NamesInRange(c, v.live[t]))
    && v.head < c.cap && |v.entries| <= c.cap
  }

  /** The instruction table and the components agree. */
  ghost predicate TablesOk(c: Config, table: map<nat, InstInfo>, flight: seq<nat>, nextId: nat, v: View) {
    && TableOk(c, table, flight, nextId, v.head, v.entries) && MemoryOk(table, v.mem)
    && forall id :: id in v.stations ==> id < nextId
  }

  /** An operand as rename reads it. */
  function OperandFrom(c: Config, v: View, r: int): Operand
    requires |v.regs| == c.nregs == |v.names|
  {
    OperandOf(c, v.regs, v.names, v.head, v.entries, r)
  }

  /** An instruction enters the LSQ or the reservation stations. */
  function WithSlot(v: View, id: nat, ins: Instr, tag: int, src1: Operand, src2: Operand): View {
    if ins.IsMem() then v.(mem := v.mem[id := FreshOp(ins.IsLoad(), tag, ins.size, ins.unsignedLoad)])
    else v.(stations := v.stations[id := RsOps(src1, src2)])
  }

  function WithData(v: View, id: nat, ins: Instr, data: Operand): View {
    if ins.IsStore() && data.ready && id in v.mem then v.(mem := v.mem[id := v.mem[id].(data := data.val,
        dataReady := true)]) else v
  }

  /** Its destination is named, and a control instruction's map is checkpointed. */
  function WithName(v: View, ins: Instr, tag: int): View {
    var names := if HasDest(ins) then RatRename(v.names, ins.dest, tag) else v.names;
    v.(names := names, live := if ins.IsControl() then v.live[tag := names] else v.live)
  }

  /** Components after an instruction has been placed in them as `info`. */
  function PlacedView(v: View, id: nat, info: InstInfo, e: RobEntry): View {
    var ins := info.fetched.instr;
    WithName(WithData(WithSlot(v.(entries := v.entries + [e]), id, ins, info.robId, info.src1, info.src2), id, ins,
        info.data), ins, info.robId)
  }

  /** What that comes to. */
  lemma {:induction false} PlacedViewIs(v: View, id: nat, info: InstInfo, e: RobEntry)
    requires info.fetched.instr.IsStore() || (!info.data.ready && info.data.tag == -1)
    ensures var ins := info.fetched.instr;
            var names := if HasDest(ins) then RatRename(v.names, ins.dest, info.robId) else v.names;
            PlacedView(v, id, info, e) ==
            v.(entries := v.entries + [e],
               mem := if ins.IsMem() then v.mem[id := PlacedOp(info)] else v.mem,
               stations := if ins.IsMem() then v.stations else v.stations[id := RsOps(info.src1, info.src2)],
               names := names,
               live := if ins.IsControl() then v.live[info.robId := names] else v.live)
  {
    hide RatRename;
  }

  /** The table entry of an instruction renamed against `v`. */
  function PlacedInfo(c: Config, v: View, f: Fetched): InstInfo
    requires |v.regs| == c.nregs == |v.names|
  {
    var ins := f.instr;
    InstInfo(Tag(v.head, c.cap, |v.entries|), f, OperandFrom(c, v, ins.src1),
             if ins.op == ADDI then Operand(true, -1, ins.imm) else OperandFrom(c, v, ins.src2),
             if ins.IsStore() && ins.dest > 0 then OperandFrom(c, v, ins.dest) else Operand(false, -1, 0),
             false, 0, false, v.names, false)
  }

  /** The state of the processor outside its components. */
  datatype Own = Own(table: map<nat, InstInfo>, flight: seq<nat>, fu: seq<Beat>, wakeups: seq<Beat>, freed: set<int>,
                     front: seq<Fetched>, fetchPc: Pc, nextId: nat, committed: nat, squashed: nat, phase: Phase)

  ghost predicate Sized(o: Own, v: View) { InTableAll(o.table, o.flight) && |v.entries| == |o.flight| }

  /** The speculative machine they make up. */
  ghost function Machine(o: Own, v: View): Core
    requires Sized(o, v)
  {
    Core(o.phase, v.regs, v.main, v.pending, v.head, Statics(o.table, o.flight), Dynamics(o.table, o.flight,
        v.entries, v.mem),
         v.names, v.live, v.stations, o.fu, o.wakeups, o.freed, o.front, o.fetchPc, o.nextId, o.committed, o.squashed)
  }

  ghost predicate AllOk(c: Config, o: Own, v: View) {
    ViewOk(c, v) && TablesOk(c, o.table, o.flight, o.nextId, v) && BeatsOk(c, o.fu)
  }

  /** Results in flight are for ROB slots. */
  ghost predicate BeatsOk(c: Config, fu: seq<Beat>) { forall k :: 0 <= k < |fu| ==> 0 <= fu[k].tag < c.cap }

  lemma {:induction false} OperandIs(c: Config, o: Own, v: View, r: int)
    requires AllOk(c, o, v)
    ensures Sized(o, v) && OperandFrom(c, v, r) == ResolveOperand(c, Machine(o, v), r)
  {
    if 0 < r < c.nregs && v.names[r] != -1 {
      var a := Age(v.head, c.cap, v.names[r]);
      if 0 <= a < |v.entries| {
        assert EntryOk(c, o.table[o.flight[a]], Tag(v.head, c.cap, a), v.entries[a]);
      }
    }
  }

  function Renamed(o: Own, info: InstInfo): Own
    requires o.front != []
  {
    o.(table := o.table[o.nextId := info], flight := o.flight + [o.nextId], nextId := o.nextId + 1,
        front := o.front[1..])
  }

  lemma {:induction false} StartsEmpty(c: Config, o: Own, v: View, image: seq<Lanes>, pc: Pc)
    requires o == Own(map[], [], [], [], {}, [], pc, 0, 0, 0, Back) && c.cap > 0
    requires v == View(seq(c.nregs, _ => 0), seq(c.nregs, _ => -1), map[], map[], map[], [], image, 0, [])
    ensures AllOk(c, o, v) && Sized(o, v) && Machine(o, v) == Init(c, image, pc)
  {
    assert Statics(o.table, o.flight) == [] && Dynamics(o.table, o.flight, v.entries, v.mem) == [];
  }

  /** Placing the oldest waiting instruction in every structure is the machine's rename step. */
  lemma {:induction false} PlacingIsRename(c: Config, o: Own, v: View, e: RobEntry)
    requires AllOk(c, o, v) && o.front != [] && o.phase == Back && |v.entries| < c.cap
    requires e.dest == o.front[0].instr.dest && !e.done
    ensures var info := PlacedInfo(c, v, o.front[0]);
            var o', v' := Renamed(o, info), PlacedView(v, o.nextId, info, e);
            && AllOk(c, o', v') && Sized(o, v) && CanRename(c, Machine(o, v))
            && Sized(o', v') && Machine(o', v') == Rename(c, Machine(o, v))
  {
    hide TableOk, MemoryOk, OperandOf, ResolveOperand, NewDyn, RatRename, PlacedView;
    var f := o.front[0];
    var info := PlacedInfo(c, v, f);
    var v' := PlacedView(v, o.nextId, info, e);
    PlacedViewIs(v, o.nextId, info, e);
    FreshInMem(c, o, v);
    OperandIs(c, o, v, f.instr.src1);
    OperandIs(c, o, v, f.instr.src2);
    OperandIs(c, o, v, f.instr.dest);
    PlacedFlight(c, o, v, info, e);
    PlacedDyn(c, Machine(o, v), f, v, info, e, v'.mem);
  }

  lemma {:induction false} FreshInMem(c: Config, o: Own, v: View)
    requires AllOk(c, o, v)
    ensures o.nextId !in v.mem
  {
  }

  /** What has been placed agrees with its table entry, and names only ROB slots. */
  lemma {:induction false} PlacedFits(c: Config, v: View, f: Fetched, id: nat, e: RobEntry)
    requires ViewOk(c, v) && |v.entries| < c.cap && e.dest == f.instr.dest && !e.done
    ensures var info := PlacedInfo(c, v, f);
            && EntryOk(c, info, Tag(v.head, c.cap, |v.entries|), e)
            && (InLsq(info) <==> f.instr.IsMem()) && (InLsq(info) ==> MemOpOk(info, PlacedOp(info)))
            && ViewOk(c, PlacedView(v, id, info, e))
  {
    hide OperandOf, PlacedView;
    var info := PlacedInfo(c, v, f);
    PlacedViewIs(v, id, info, e);
    var names := if HasDest(f.instr) then RatRename(v.names, f.instr.dest, info.robId) else v.names;
    assert NamesInRange(c, names);
  }

  lemma {:induction false} PlacedFlight(c: Config, o: Own, v: View, info: InstInfo, e: RobEntry)
    requires AllOk(c, o, v) && o.front != [] && |v.entries| < c.cap && e.dest == o.front[0].instr.dest && !e.done
    requires info == PlacedInfo(c, v, o.front[0])
    ensures var o', v' := Renamed(o, info), PlacedView(v, o.nextId, info, e);
            && AllOk(c, o', v') && Sized(o, v) && Sized(o', v')
            && Statics(o'.table, o'.flight) == Statics(o.table, o.flight) + [o.front[0]]
            && Dynamics(o'.table, o'.flight, v'.entries, v'.mem)
               == Dynamics(o.table, o.flight, v.entries, v.mem) + [DynOf(o.nextId, info, e, v'.mem)]
  {
    hide OperandOf, PlacedView, TableOk, MemoryOk, EntryOk, MemOpOk, NamesInRange, PlacedOp, RatRename;
    var v' := PlacedView(v, o.nextId, info, e);
    PlacedViewIs(v, o.nextId, info, e);
    PlacedFits(c, v, o.front[0], o.nextId, e);
    NewId(c, o, v);
    TableGrows(c, o.table, o.flight, o.nextId, v.head, v.entries, info, e);
    MemoryGrows(o.table, v.mem, o.nextId, info, PlacedOp(info));
    FlightGrows(o.table, o.flight, v.entries, v.mem, o.nextId, info, e, v'.mem);
  }

  lemma {:induction false} PlacedDyn(c: Config, core: Core, f: Fetched, v: View, info: InstInfo, e: RobEntry,
                                     mem: map<nat, MemOp>)
    requires |v.regs| == c.nregs == |v.names| && info == PlacedInfo(c, v, f) && core.rat == v.names
    requires OperandFrom(c, v, f.instr.src1) == ResolveOperand(c, core, f.instr.src1)
    requires OperandFrom(c, v, f.instr.src2) == ResolveOperand(c, core, f.instr.src2)
    requires OperandFrom(c, v, f.instr.dest) == ResolveOperand(c, core, f.instr.dest)
    requires core.nextId in mem ==> mem[core.nextId] == PlacedOp(info)
    ensures DynOf(core.nextId, info, e, mem) == NewDyn(c, core, f.instr)
  {
    hide OperandFrom, ResolveOperand;
  }

  lemma {:induction false} NewId(c: Config, o: Own, v: View)
    requires AllOk(c, o, v)
    ensures ViewOk(c, v) && Sized(o, v) && o.nextId !in v.mem && o.nextId !in v.stations && o.nextId !in o.table
  {
  }
}
