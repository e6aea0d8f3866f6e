/** The processor over its components: each of its operations is a step of the speculative machine.
  *
  * The functional units and the bus arbiter appear as the set of results in flight, `fu`; their own classes are
  * in `ExecutionEngine` and `CdbArbiter`.
  */
module Processor {
  import opened Words
  import opened Isa
  import opened Core
  import opened CoreResolve
  import opened ReorderBuffer
  import opened RenameTables
  import opened ReservationStation
  import opened LoadStoreQueue
  import opened SlotTable
  import opened ProcessorState
  import opened ProcessorSteps
  import opened ProcessorMemory
  import opened ProcessorStores
  import opened ProcessorWake
  import opened ProcessorIssue
  import opened ProcessorCycle
  import opened ProcessorStages

  class Processor {
    const c: Config
    const width: nat
    const arf: array<Word>
    const rob: ReorderBuffer
    const rat: RegisterAliasTable
    const ckpts: RatCheckpoints
    const rs: ReservationStation
    const lsq: LoadStoreQueue
    var instTable: map<nat, InstInfo>
    var fu: seq<Beat>
    var wakeups: seq<Beat>
    var freed: set<int>
    var front: seq<Fetched>
    var fetchPc: Pc
    var nextId: nat
    var committed: nat
    var squashed: nat
    ghost var flight: seq<nat>
    ghost var phase: Phase

    ghost function Parts(): set<object> {
      {arf, rob, rob.buffer, rat, rat.rat, ckpts, ckpts.valid, ckpts.maps, rs, rs.stations, lsq, lsq.queue, lsq.sb,
          lsq.mainMemory}
    }

    /** The components are sound and fit together. */
    ghost predicate Fit()
      reads Parts()
    {
      && rob.Valid() && rat.Valid() && ckpts.Valid() && rs.Valid() && lsq.Valid()
      && rob.capacity == c.cap == ckpts.robDepth && rat.numRegs == c.nregs == ckpts.numRegs && arf.Length == c.nregs
      && lsq.byteAddressed == c.byteAddressed
    }

    ghost function Look(): (v: View)
      reads Parts()
      requires Fit()
    {
      View(arf[..], rat.rat[..], ckpts.Live(), rs.Contents(), lsq.Contents(), lsq.Pending(), lsq.mainMemory[..],
           rob.head, rob.Contents())
    }

    ghost function Mine(): Own
      reads this
    {
      Own(instTable, flight, fu, wakeups, freed, front, fetchPc, nextId, committed, squashed, phase)
    }

    ghost predicate Valid()
      reads this, Parts()
    {
      Fit() && AllOk(c, Mine(), Look())
    }

    /** The speculative machine the processor is. */
    ghost function Abs(): Core
      reads this, Parts()
      requires Valid()
    {
      Machine(Mine(), Look())
    }

    constructor (cfg: Config, w: nat, lsqSize: nat, rsSize: nat, sbDepth: int, memLatency: nat, fwdLatency: nat,
                 forwarding: bool, memPorts: nat, memory: array<Lanes>, pc: Pc)
      requires cfg.cap > 0 && memory.Length == MEMORY_WORDS
      ensures Valid() && c == cfg && width == w && lsq.mainMemory == memory && Abs() == Init(c, memory[..], pc)
      ensures fresh(rob) && fresh(rob.buffer) && fresh(rat) && fresh(rat.rat) && fresh(ckpts) && fresh(ckpts.valid)
      ensures fresh(ckpts.maps)
      ensures fresh(arf) && fresh(rs) && fresh(rs.stations) && fresh(lsq) && fresh(lsq.queue) && fresh(lsq.sb)
      ensures phase == Back
    {
      hide ReorderBuffer.Valid, ReorderBuffer.Contents, LoadStoreQueue.Valid, LoadStoreQueue.Contents,
           LoadStoreQueue.Pending,
           ReservationStation.Valid, ReservationStation.Contents, RatCheckpoints.Valid, RatCheckpoints.Live, Machine,
               AllOk;
      c, width := cfg, w;
      arf := new Word[cfg.nregs](_ => 0);
      rob := new ReorderBuffer(cfg.cap);
      rat := new RegisterAliasTable(cfg.nregs);
      ckpts := new RatCheckpoints(cfg.cap, cfg.nregs);
      rs := new ReservationStation(rsSize);
      lsq := new LoadStoreQueue(lsqSize, sbDepth, memLatency, fwdLatency, forwarding, memPorts, cfg.byteAddressed,
          memory);
      instTable, fu, wakeups, freed, front, fetchPc, nextId, committed, squashed := map[], [], [], {}, [], pc, 0, 0, 0;
      flight, phase := [], Back;
      new;
      StartsEmpty(c, Mine(), Look(), memory[..], pc);
    }

    /** The machine, with the queue's slots and the store buffer. */
    ghost function Now(): Glance
      reads this, Parts()
      requires Valid()
    {
      Glance(Abs(), lsq.queue[..], lsq.Slots())
    }

    /** Widths, depths and latencies. */
    ghost function Dims(): Sizes {
      Sizes(width, lsq.maxMemPorts, lsq.sbCapacity, rs.capacity, lsq.capacity, lsq.memLatency, lsq.storeForwarding)
    }

    lemma {:induction false} Parted()
      requires Fit()
      ensures rob.Valid() && rat.Valid() && ckpts.Valid() && rs.Valid() && lsq.Valid()
      ensures rob.activeCount == |rob.Contents()| <= c.cap == rob.capacity && 0 < c.cap && rob.head < c.cap
      ensures arf.Length == c.nregs == rat.rat.Length
    {
    }

    // -------------------------------------------------------------- rename

    /** A ready zero for register 0 and register numbers outside the file; else the register file, or the youngest
      * in-flight writer's result or tag. */
    function ResolveOperandOf(r: int): (o: Operand)
      reads Parts()
      requires Fit() && NamesInRange(c, rat.rat[..])
      ensures o == OperandFrom(c, Look(), r)
    {
      if r <= 0 || r >= c.nregs then Operand(true, -1, 0)
      else
        var tag := rat.Lookup(r);
        if tag == -1 then Operand(true, -1, arf[r])
        else if rob.IsReady(tag) then Operand(true, tag, rob.GetValue(tag))
        else Operand(false, tag, 0)
    }

    /** Has the structure the instruction waits in a free slot? */
    method HasRoom(ins: Instr) returns (room: bool)
      requires Fit()
      ensures Fit() && Look() == old(Look())
      ensures room <==> RoomFor(ins)
    {
      hide ReorderBuffer.Valid, ReorderBuffer.Contents, RatCheckpoints.Valid, RatCheckpoints.Live;
      if ins.IsMem() { room := lsq.HasSpace(); } else { room := rs.HasSpace(); }
    }

    ghost predicate RoomFor(ins: Instr)
      reads Parts()
      requires Fit()
    {
      if ins.IsMem() then exists i :: 0 <= i < lsq.capacity && !lsq.queue[i].valid
      else exists i :: 0 <= i < rs.capacity && !rs.stations[i].valid
    }

    method TakeRobEntry(ins: Instr) returns (tag: nat, ghost e: RobEntry)
      requires Fit() && rob.activeCount < c.cap
      modifies rob, rob.buffer
      ensures Fit() && Look() == old(Look()).(entries := old(Look()).entries + [e])
      ensures (old(RoomFor(ins)) ==> RoomFor(ins))
      ensures tag == Tag(old(rob.head), c.cap, old(rob.activeCount)) && tag < c.cap && e.dest == ins.dest && !e.done
    {
      hide LoadStoreQueue.Valid, LoadStoreQueue.Contents, LoadStoreQueue.Pending,
           ReservationStation.Valid, ReservationStation.Contents, RatCheckpoints.Valid, RatCheckpoints.Live;
      ghost var n := rob.activeCount;
      tag := rob.Dispatch(ins.op, ins.dest);
      e := rob.Contents()[n];
    }

    /** Takes a slot in the LSQ or a reservation station; there is one. */
    method Enter(ins: Instr, tag: nat, src1: Operand, src2: Operand)
      requires Fit() && RoomFor(ins) && nextId !in Look().mem && nextId !in Look().stations
      modifies lsq.queue, rs.stations
      ensures Fit()
      ensures Look() == WithSlot(old(Look()), nextId, ins, tag, src1, src2)
    {
      hide ReorderBuffer.Valid, ReorderBuffer.Contents, LoadStoreQueue.Valid, LoadStoreQueue.Contents,
           LoadStoreQueue.Pending,
           ReservationStation.Valid, ReservationStation.Contents, RatCheckpoints.Valid, RatCheckpoints.Live;
      if ins.IsMem() {
        var ok := lsq.Allocate(nextId, tag, ins.IsLoad(), ins.size, ins.unsignedLoad);
      } else {
        var ok := rs.Allocate(nextId, RsOps(src1, src2));
      }
    }

    /** A store's data operand, and the LSQ's copy of it. */
    method CaptureStoreData(ins: Instr, data: Operand)
      requires Fit() && (ins.IsStore() ==> nextId in Look().mem && !Look().mem[nextId].isLoad)
      modifies lsq.queue
      ensures Fit()
      ensures Look() == WithData(old(Look()), nextId, ins, data)
    {
      hide ReorderBuffer.Valid, ReorderBuffer.Contents, LoadStoreQueue.Valid, LoadStoreQueue.Contents,
           LoadStoreQueue.Pending,
           ReservationStation.Valid, ReservationStation.Contents, RatCheckpoints.Valid, RatCheckpoints.Live;
      if ins.IsStore() && data.ready { lsq.SetStoreData(nextId, data.val); }
    }

    /** Names the destination, and checkpoints the map after a control instruction. */
    method NameDestination(ins: Instr, tag: nat)
      requires Fit() && tag < c.cap
      modifies rat.rat, ckpts.valid, ckpts.maps
      ensures Fit()
      ensures Look() == WithName(old(Look()), ins, tag)
    {
      hide ReorderBuffer.Valid, ReorderBuffer.Contents, LoadStoreQueue.Valid, LoadStoreQueue.Contents,
           LoadStoreQueue.Pending,
           ReservationStation.Valid, ReservationStation.Contents, RatCheckpoints.Valid, RatCheckpoints.Live;
      if ins.dest > 0 && !ins.IsStore() { rat.Rename(ins.dest, tag); }
      if ins.IsControl() { ckpts.Save(tag, rat.rat[..]); }
    }

    /** Fills every structure the instruction needs. */
    method Place(f: Fetched) returns (info: InstInfo, ghost e: RobEntry)
      requires Fit() && ViewOk(c, Look()) && rob.activeCount < c.cap && RoomFor(f.instr)
      requires nextId !in Look().mem && nextId !in Look().stations
      modifies Parts()
      ensures info == PlacedInfo(c, old(Look()), f) && e.dest == f.instr.dest && !e.done
      ensures Fit() && Look() == PlacedView(old(Look()), nextId, info, e)
    {
      hide Fit, Look, OperandOf, RatRename, ReorderBuffer.Valid, ReorderBuffer.Contents, WithData, WithName;
      var ins := f.instr;
      Parted();
      Seen();
      ghost var v := Look();
      var snapshot, src1 := rat.rat[..], ResolveOperandOf(ins.src1);
      var src2 := if ins.op == ADDI then Operand(true, -1, ins.imm) else ResolveOperandOf(ins.src2);
      var data := if ins.IsStore() && ins.dest > 0 then ResolveOperandOf(ins.dest) else Operand(false, -1, 0);
      var tag;
      tag, e := TakeRobEntry(ins);
      Enter(ins, tag, src1, src2);
      CaptureStoreData(ins, data);
      NameDestination(ins, tag);
      info := InstInfo(tag, f, src1, src2, data, false, 0, false, snapshot, false);
    }

    /** The queue's entries and the occupied stations are what the machine says they are. */
    lemma {:induction false} Occupancy()
      requires Valid()
      ensures |Abs().st| == |Abs().dy| && |QueuedIds(Abs())| <= lsq.capacity && |Abs().rs| <= rs.capacity
      ensures |QueuedIds(Abs())| < lsq.capacity <==> exists i :: 0 <= i < lsq.capacity && !lsq.queue[i].valid
      ensures |Abs().rs| < rs.capacity <==> exists i :: 0 <= i < rs.capacity && !rs.stations[i].valid
    {
      hide ReorderBuffer.Valid, ReorderBuffer.Contents, RatCheckpoints.Valid, RatCheckpoints.Live, AllOk, Table,
           DistinctIds, QueuedIds;
      Shapes(c, Mine(), Look());
      QueuedAre(c, Mine(), Look());
      QueueSlots();
      StationSlots();
    }

    lemma {:induction false} QueueSlots()
      requires Fit()
      ensures |Look().mem.Keys| <= lsq.capacity
      ensures |Look().mem.Keys| < lsq.capacity <==> exists i :: 0 <= i < lsq.capacity && !lsq.queue[i].valid
    {
      hide ReorderBuffer.Valid, ReorderBuffer.Contents, ReservationStation.Valid, ReservationStation.Contents,
           RatCheckpoints.Valid, RatCheckpoints.Live, Table, DistinctIds;
      SpaceLeft(lsq.queue[..]);
      assert forall i :: 0 <= i < lsq.capacity ==> lsq.queue[..][i] == lsq.queue[i];
    }

    lemma {:induction false} StationSlots()
      requires Fit()
      ensures |Look().stations| <= rs.capacity
      ensures |Look().stations| < rs.capacity <==> exists i :: 0 <= i < rs.capacity && !rs.stations[i].valid
    {
      hide ReorderBuffer.Valid, ReorderBuffer.Contents, LoadStoreQueue.Valid, LoadStoreQueue.Contents,
           LoadStoreQueue.Pending, RatCheckpoints.Valid, RatCheckpoints.Live, Table, DistinctIds;
      SpaceLeft(rs.stations[..]);
      assert forall i :: 0 <= i < rs.capacity ==> rs.stations[..][i] == rs.stations[i];
    }

    /** The next instruction fits exactly if the reorder buffer and its own structure have a free entry. */
    lemma {:induction false} FitsIs()
      requires Valid() && front != [] && phase == Back
      ensures |Abs().st| == |Abs().dy|
      ensures NextFits(c, Dims(), Abs()) <==> rob.activeCount < c.cap && RoomFor(front[0].instr)
    {
      hide Fit, Look, AllOk, Machine, QueuedIds;
      Mirrors();
      Occupancy();
    }

    /** Renames the oldest waiting instruction, exactly if the structures it needs have room. */
    method TryRenameOne() returns (ok: bool)
      requires Valid() && front != [] && phase == Back
      modifies this, Parts()
      ensures Valid() && |old(Abs()).st| == |old(Abs()).dy|
      ensures ok <==> NextFits(c, Dims(), old(Abs()))
      ensures !ok ==> Abs() == old(Abs())
      ensures ok ==> old(CanRename(c, Abs())) && Abs() == old(Rename(c, Abs()))
    {
      hide Fit, Look, Machine, AllOk, ReorderBuffer.Valid, ReorderBuffer.Contents, PlacedView, PlacedInfo, NextFits;
      Parted();
      FitsIs();
      if !rob.HasSpace() { return false; }
      var f := front[0];
      var room := HasRoom(f.instr);
      if !room { return false; }
      RenameNow();
      return true;
    }

    method RenameNow()
      requires Valid() && front != [] && phase == Back && rob.activeCount < c.cap && RoomFor(front[0].instr)
      modifies this, Parts()
      ensures Valid() && old(CanRename(c, Abs())) && Abs() == old(Rename(c, Abs()))
    {
      hide Fit, Look, Machine, AllOk, ReorderBuffer.Valid, ReorderBuffer.Contents, PlacedView, PlacedInfo, Rename,
           Renamed, Mine;
      ghost var o, v := Mine(), Look();
      NewId(c, o, v);
      Seen();
      var info, e := Place(front[0]);
      PlacingIsRename(c, o, v, e);
      Adopt(info);
    }

    method Adopt(info: InstInfo)
      requires front != []
      modifies this`instTable, this`flight, this`nextId, this`front
      ensures Mine() == Renamed(old(Mine()), info)
    {
      instTable := instTable[nextId := info];
      flight := flight + [nextId];
      nextId := nextId + 1;
      front := front[1..];
    }

    lemma {:induction false} Seen()
      requires Fit()
      ensures Mine().nextId == nextId && Mine().front == front && Mine().phase == phase
      ensures Mine().table == instTable && Mine().flight == flight && Mine().fu == fu && Mine().freed == freed
      ensures Look().head == rob.head && |Look().entries| == rob.activeCount && Look().names == rat.rat[..]
      ensures Look().regs == arf[..]
    {
    }

    // -------------------------------------------------------------- commit

    /** Looks an instruction up by its ROB tag. */
    method FindInstByRobId(tag: int) returns (found: bool, id: nat)
      ensures found ==> id in instTable && instTable[id].robId == tag
      ensures !found ==> forall x :: x in instTable ==> instTable[x].robId != tag
    {
      var left := instTable.Keys;
      while left != {}
        invariant forall x :: x in instTable && x !in left ==> instTable[x].robId != tag
        decreases |left|
      {
        var x :| x in left;
        if x in instTable && instTable[x].robId == tag { return true, x; }
        left := left - {x};
      }
      return false, 0;
    }

    /** The oldest ROB entry, removed if it is done. */
    method RetireRobEntry() returns (ok: bool, dest: int, value: Word, tag: nat)
      requires Fit()
      modifies rob, rob.buffer
      ensures Fit() && (ok <==> old(Look()).entries != [] && old(Look()).entries[0].done)
      ensures Look() == if ok then WithoutHead(c, old(Look())) else old(Look())
      ensures ok ==> tag == old(Look()).head
      ensures ok ==> dest == old(Look()).entries[0].dest && value == old(Look()).entries[0].value
    {
      hide LoadStoreQueue.Valid, LoadStoreQueue.Contents, LoadStoreQueue.Pending,
           ReservationStation.Valid, ReservationStation.Contents, RatCheckpoints.Valid, RatCheckpoints.Live;
      ok, dest, value, tag := rob.Commit();
    }

    method FreeLoad(ins: Instr, id: nat)
      requires Fit()
      modifies lsq.queue
      ensures Fit() && Look() == WithoutLoad(old(Look()), id, ins)
    {
      hide ReorderBuffer.Valid, ReorderBuffer.Contents, LoadStoreQueue.Valid, LoadStoreQueue.Contents,
           LoadStoreQueue.Pending,
           ReservationStation.Valid, ReservationStation.Contents, RatCheckpoints.Valid, RatCheckpoints.Live,
               RatCommit, CkClear;
      if ins.IsLoad() { lsq.Free(id); }
    }

    method WriteRegister(ins: Instr, dest: int, value: Word, tag: nat)
      requires Fit() && dest == ins.dest && !ins.IsStore()
      modifies arf, rat.rat, ckpts.maps
      ensures Fit() && Look() == WithRegister(c, old(Look()), ins, value, tag)
    {
      hide ReorderBuffer.Valid, ReorderBuffer.Contents, LoadStoreQueue.Valid, LoadStoreQueue.Contents,
           LoadStoreQueue.Pending,
           ReservationStation.Valid, ReservationStation.Contents, RatCheckpoints.Valid, RatCheckpoints.Live,
               RatCommit, CkClear;
      if dest > 0 && dest < c.nregs {
        arf[dest] := value;
        rat.Commit(dest, tag);
        ckpts.OnCommitClear(dest, tag);
      }
    }

    method DropCheckpoint(ins: Instr, tag: nat)
      requires Fit()
      modifies ckpts.valid
      ensures Fit() && Look() == WithoutCheckpoint(old(Look()), ins, tag)
    {
      hide ReorderBuffer.Valid, ReorderBuffer.Contents, LoadStoreQueue.Valid, LoadStoreQueue.Contents,
           LoadStoreQueue.Pending,
           ReservationStation.Valid, ReservationStation.Contents, RatCheckpoints.Valid, RatCheckpoints.Live,
               RatCommit, CkClear;
      if ins.IsControl() { ckpts.Invalidate(tag); }
    }

    /** Retires the oldest instruction if it is done. */
    method CommitOne() returns (ok: bool)
      requires Valid() && phase == Commit
      modifies this, Parts()
      ensures Valid() && (ok <==> old(CanCommit(Abs())))
      ensures Abs() == if ok then old(CommitHead(c, Abs())) else old(Abs())
    {
      hide Fit, Look, Machine, AllOk, ReorderBuffer.Valid, ReorderBuffer.Contents, CommitHead, CanCommit, WithoutLoad,
           WithoutCheckpoint, RetiredOwn, WithRegister, Mine;
      ghost var o, v := Mine(), Look();
      Parted();
      Seen();
      WhenCommit(c, o, v);
      var dest, value, tag;
      ok, dest, value, tag := RetireRobEntry();
      if !ok { return; }
      OldestFound(c, o, v);
      var found, id := FindInstByRobId(tag);
      assert found && id == o.flight[0];
      RetireRest(id, dest, value, tag, o, v);
      RetiringIsCommit(c, o, v);
    }

    /** What follows once the oldest entry has left the ROB. */
    method RetireRest(id: nat, dest: int, value: Word, tag: nat, ghost o: Own, ghost v: View)
      requires Fit() && v.entries != [] && |v.regs| == c.nregs && Look() == WithoutHead(c, v) && Mine() == o
      requires tag == v.head && dest == v.entries[0].dest && value == v.entries[0].value
      requires o.flight != [] && id == o.flight[0] && id in o.table && o.table[id].fetched.instr.dest == dest
      modifies this`freed, this`committed, this`instTable, this`flight, Parts()
      ensures Fit() && Mine() == RetiredOwn(o, tag)
      ensures Look() == RetiredView(c, v, id, o.table[id].fetched.instr)
    {
      hide Fit, Look, WithoutLoad, WithoutCheckpoint, WithRegister, WithoutHead, RetiredOwn, ReorderBuffer.Valid,
           ReorderBuffer.Contents;
      assert this !in Parts();
      ReleaseParts(instTable[id].fetched.instr, id, dest, value, tag);
      ForgetOldest(id, tag);
    }

    method ReleaseParts(ins: Instr, id: nat, dest: int, value: Word, tag: nat)
      requires Fit() && dest == ins.dest
      modifies arf, rat.rat, ckpts.valid, ckpts.maps, lsq.queue
      ensures |old(Look()).regs| == c.nregs
      ensures Fit()
      ensures Look() == WithoutCheckpoint(WithRegister(c, WithoutLoad(old(Look()), id, ins), ins, value, tag), ins, tag)
    {
      hide Fit, Look, WithoutLoad, WithoutCheckpoint, ReorderBuffer.Valid, ReorderBuffer.Contents;
      Parted();
      Seen();
      FreeLoad(ins, id);
      Parted();
      Seen();
      if ins.IsStore() {
        assert WithRegister(c, Look(), ins, value, tag) == Look();
      } else {
        WriteRegister(ins, dest, value, tag);
      }
      DropCheckpoint(ins, tag);
    }

    method ForgetOldest(id: nat, tag: nat)
      requires flight != [] && id == flight[0]
      modifies this`freed, this`committed, this`instTable, this`flight
      ensures Mine() == RetiredOwn(old(Mine()), tag)
    {
      freed := freed + {tag};
      committed := committed + 1;
      instTable := instTable - {id};
      flight := flight[1..];
    }

    // -------------------------------------------------------------- results

    /** The result of entry `i`, by its tag, reaches the ROB. */
    method WriteRobResult(tag: nat, value: Word, ghost i: nat)
      requires Fit() && i < |Look().entries| && tag == Tag(rob.head, c.cap, i)
      modifies rob.buffer
      ensures Fit() && i < |old(Look()).entries| && Look() == CompletedView(old(Look()), i, value)
    {
      hide LoadStoreQueue.Valid, LoadStoreQueue.Contents, LoadStoreQueue.Pending,
           ReservationStation.Valid, ReservationStation.Contents, RatCheckpoints.Valid, RatCheckpoints.Live;
      Parted();
      rob.WriteResult(tag, value);
    }

    /** The instruction a result belongs to. */
    method FindEntry(tag: int, ghost i: nat) returns (id: nat)
      requires Valid() && i < |flight| && tag == Tag(rob.head, c.cap, i)
      ensures id in instTable && id == flight[i]
    {
      hide Fit, Look, AllOk, Tag;
      Seen();
      TagPlaces(c, Mine(), Look());
      IsEntry(c, Mine(), Look(), i);
      var found;
      found, id := FindInstByRobId(tag);
      assert found;
    }

    /** A granted functional-unit result is broadcast: ROB now, waiting operands at the start of the next cycle. */
    method GrantFu(k: nat)
      requires Valid() && CanBroadcast(c, Abs(), k)
      requires !Abs().st[Age(rob.head, c.cap, fu[k].tag)].instr.IsMem()
      modifies this`instTable, this`wakeups, this`fu, rob.buffer
      ensures Valid() && Abs() == old(Broadcast(c, Abs(), k))
    {
      hide Fit, Look, AllOk, Sized, CompletedView, GrantedOwn, Broadcast, Machine, ReorderBuffer.Valid,
           ReorderBuffer.Contents, Tag, Age, Mine;
      ghost var o, v := Mine(), Look();
      Seen();
      Shapes(c, o, v);
      GrantedEntry(c, o, v, k);
      ghost var i := Age(v.head, c.cap, fu[k].tag);
      GrantIsBroadcast(c, o, v, k);
      assert this !in Parts();
      var id := FindEntry(fu[k].tag, i);
      Deliver(id, k, i);
    }

    method Deliver(id: nat, k: nat, ghost i: nat)
      requires Fit() && i < |Look().entries| && k < |fu| && 0 <= fu[k].tag == Tag(rob.head, c.cap, i) && id in instTable
      modifies this`instTable, this`wakeups, this`fu, rob.buffer
      ensures id in old(Mine()).table && k < |old(Mine()).fu| && i < |old(Look()).entries|
      ensures Fit() && Look() == CompletedView(old(Look()), i, old(Mine()).fu[k].val)
      ensures Mine() == GrantedOwn(old(Mine()), id, k)
    {
      hide Fit, Look, Tag;
      WriteRobResult(fu[k].tag, fu[k].val, i);
      assert this !in Parts();
      MarkGranted(id, k);
    }

    method MarkGranted(id: nat, k: nat)
      requires id in instTable && k < |fu|
      modifies this`instTable, this`wakeups, this`fu
      ensures id in old(Mine()).table && k < |old(Mine()).fu| && Mine() == GrantedOwn(old(Mine()), id, k)
    {
      wakeups := wakeups + [fu[k]];
      fu := fu[..k] + fu[k + 1..];
      instTable := instTable[id := instTable[id].(completed := true)];
    }

    // -------------------------------------------------------------- recovery

    /** Walks the table for the instructions younger than `squashTag`. */
    method CollectYounger(squashTag: nat) returns (ids: seq<nat>, tags: seq<int>)
      requires rob.Valid() && rob.capacity == c.cap && squashTag < c.cap && forall x :: x in instTable ==>
                 0 <= instTable[x].robId < c.cap
      ensures forall x :: x in ids <==>
                x in instTable && Age(rob.head, c.cap, instTable[x].robId) > Age(rob.head, c.cap, squashTag)
      ensures |tags| == |ids| && forall k :: 0 <= k < |ids| ==>
                ids[k] in instTable && tags[k] == instTable[ids[k]].robId
    {
      hide Age;
      ids, tags := [], [];
      var left := instTable.Keys;
      while left != {}
        invariant left <= instTable.Keys
        invariant forall x :: x in ids <==>
          x in instTable && x !in left && Age(rob.head, c.cap, instTable[x].robId) > Age(rob.head, c.cap, squashTag)
        invariant |tags| == |ids| && forall k :: 0 <= k < |ids| ==>
                    ids[k] in instTable && tags[k] == instTable[ids[k]].robId
        decreases |left|
      {
        var x :| x in left;
        var info := instTable[x];
        if rob.AgeFromHead(info.robId) > rob.AgeFromHead(squashTag) {
          ids := ids + [x];
          tags := tags + [info.robId];
        }
        left := left - {x};
      }
    }

    /** Keeps the beats of surviving tags, in order. */
    method FilterBeats(beats: seq<Beat>, kill: set<int>) returns (kept: seq<Beat>)
      ensures kept == Without(beats, kill)
    {
      kept := [];
      var i := 0;
      assert beats[0..] == beats;
      while i < |beats|
        invariant 0 <= i <= |beats| && kept + Without(beats[i..], kill) == Without(beats, kill)
      {
        assert beats[i..][0] == beats[i] && beats[i..][1..] == beats[i + 1..];
        if beats[i].tag !in kill {
          assert kept + ([beats[i]] + Without(beats[i + 1..], kill)) == (kept + [beats[i]]) + Without(beats[i + 1..],
              kill);
          kept := kept + [beats[i]];
        }
        i := i + 1;
      }
      assert kept + [] == kept;
    }

    method RestoreNames(tag: int, snapshot: seq<int>, freedTags: set<int>)
      requires Fit() && |snapshot| == c.nregs
      modifies rat.rat
      requires tag in Look().live ==> |Look().live[tag]| == c.nregs
      ensures Fit()
      ensures Look()
                == old(Look()).(names := Scrub(if tag in old(Look()).live then old(Look()).live[tag] else snapshot,
                freedTags))
    {
      hide ReorderBuffer.Valid, ReorderBuffer.Contents, LoadStoreQueue.Valid, LoadStoreQueue.Contents,
           LoadStoreQueue.Pending,
           ReservationStation.Valid, ReservationStation.Contents, RatCheckpoints.Valid, RatCheckpoints.Live, Scrub;
      var ok, restored := ckpts.Restore(tag);
      if ok { rat.RestoreStateScrub(restored, freedTags); } else { rat.RestoreStateScrub(snapshot, freedTags); }
    }

    method SquashWaiting(ids: seq<nat>)
      requires Fit()
      modifies rs.stations, lsq.queue
      ensures Fit()
      ensures var kill := set id | id in ids;
              Look() == old(Look()).(stations := old(Look()).stations - kill, mem := old(Look()).mem - kill)
    {
      hide ReorderBuffer.Valid, ReorderBuffer.Contents, LoadStoreQueue.Valid, LoadStoreQueue.Contents,
           LoadStoreQueue.Pending,
           ReservationStation.Valid, ReservationStation.Contents, RatCheckpoints.Valid, RatCheckpoints.Live;
      rs.SquashInstIds(ids);
      lsq.SquashInstIds(ids);
    }

    method InvalidateCheckpoints(tags: seq<int>)
      requires Fit()
      modifies ckpts.valid
      ensures Fit() && Look() == old(Look()).(live := old(Look()).live - (set t | t in tags))
    {
      hide ReorderBuffer.Valid, ReorderBuffer.Contents, LoadStoreQueue.Valid, LoadStoreQueue.Contents,
           LoadStoreQueue.Pending,
           ReservationStation.Valid, ReservationStation.Contents, RatCheckpoints.Valid, RatCheckpoints.Live;
      var k := 0;
      while k < |tags|
        invariant 0 <= k <= |tags| && Fit()
        invariant Look() == old(Look()).(live := old(Look()).live - (set t | t in tags[..k]))
      {
        ckpts.Invalidate(tags[k]);
        assert tags[..k + 1] == tags[..k] + [tags[k]];
        k := k + 1;
      }
      assert tags[..k] == tags;
    }

    method SquashRob(tag: nat, ghost a: nat) returns (dropped: nat)
      requires Fit() && a < |Look().entries| && tag == Tag(rob.head, c.cap, a)
      modifies rob, rob.buffer
      ensures Fit() && a < |old(Look()).entries| && dropped == |old(Look()).entries| - (a + 1)
      ensures Look() == old(Look()).(entries := old(Look()).entries[..a + 1])
    {
      hide LoadStoreQueue.Valid, LoadStoreQueue.Contents, LoadStoreQueue.Pending,
           ReservationStation.Valid, ReservationStation.Contents, RatCheckpoints.Valid, RatCheckpoints.Live;
      Parted();
      dropped := rob.SquashYoungerThan(tag);
    }

    /** Drops what is younger than the control instruction `id` from every component. */
    method DropYounger(tag: nat, snapshot: seq<int>, ids: seq<nat>, tags: seq<int>, kill: set<int>,
                       ghost gone: set<nat>, ghost a: nat)
      returns (dropped: nat)
      requires Fit() && a < |Look().entries| && tag == Tag(rob.head, c.cap, a) && kill == (set t | t in tags)
      requires gone == (set x | x in ids)
      requires |snapshot| == c.nregs && (tag in Look().live ==> |Look().live[tag]| == c.nregs)
      modifies Parts()
      ensures Fit() && a < |old(Look()).entries| && dropped == |old(Look()).entries| - (a + 1)
      ensures Look() == RecoveredView(old(Look()), a, tag, snapshot, freed, gone, kill)
    {
      hide Fit, Look, Scrub, Tag, ReorderBuffer.Valid, ReorderBuffer.Contents;
      Parted();
      Seen();
      RestoreNames(tag, snapshot, freed + kill);
      SquashWaiting(ids);
      dropped := SquashTagged(tag, tags, a);
    }

    method SquashTagged(tag: nat, tags: seq<int>, ghost a: nat) returns (dropped: nat)
      requires Fit() && a < |Look().entries| && tag == Tag(rob.head, c.cap, a)
      modifies ckpts.valid, rob, rob.buffer
      ensures Fit() && a < |old(Look()).entries| && dropped == |old(Look()).entries| - (a + 1)
      ensures Look()
                == old(Look()).(live := old(Look()).live - (set t | t in tags), entries := old(Look()).entries[..a + 1])
    {
      hide Fit, Look, Tag, ReorderBuffer.Valid, ReorderBuffer.Contents;
      Parted();
      Seen();
      InvalidateCheckpoints(tags);
      dropped := SquashRob(tag, a);
    }

    /** The instructions younger than `id`, by their ids and by their tags. */
    method FindYounger(id: nat, ghost a: nat) returns (ids: seq<nat>, tags: seq<int>)
      requires Valid() && a < |flight| && id == flight[a] && id in instTable && 0 <= instTable[id].robId
      ensures (set x | x in ids) == YoungerIds(Mine(), a)
      ensures (set t | t in tags) == YoungerTags(c, rob.head, a, |flight|)
    {
      hide Fit, Look, AllOk, Mine, Tag, Age;
      ghost var o, v := Mine(), Look();
      Parted();
      Seen();
      TagPlaces(c, o, v);
      Shapes(c, o, v);
      AgeOfTag(v.head, c.cap, |flight|);
      ids, tags := CollectYounger(instTable[id].robId);
      CollectedTags(instTable, ids, tags);
      YoungerAre(c, o, v, a, (set x | x in ids), (set t | t in tags));
    }

    /** Drops everything younger than the control instruction `id`, and refetches from `next`. */
    method EarlyRecover(id: nat, next: Pc, ghost a: nat)
      requires Valid() && a < |flight| && id == flight[a]
      modifies this, Parts()
      ensures Valid() && Abs() == old(Recover(c, Abs(), a, next))
    {
      hide Fit, Look, AllOk, Sized, Machine, YoungerIds, YoungerTags, Recover, Mine, Tag,
           RecoveredView, RecoveredOwn, ReorderBuffer.Valid, ReorderBuffer.Contents;
      ghost var o, v := Mine(), Look();
      Seen();
      TagPlaces(c, o, v);
      Shapes(c, o, v);
      MapsFit(c, o, v, a);
      RecoveringIsRecover(c, o, v, a, next);
      var tag, snapshot := instTable[id].robId, instTable[id].snapshot;
      var ids, tags := FindYounger(id, a);
      var kill := set t | t in tags;
      var gone := set x | x in ids;
      SquashAll(tag, snapshot, ids, tags, gone, kill, next, a);
    }

    method SquashAll(tag: nat, snapshot: seq<int>, ids: seq<nat>, tags: seq<int>, gone: set<nat>, kill: set<int>,
                     next: Pc, ghost a: nat)
      requires Fit() && a < |flight| == |Look().entries| && tag == Tag(rob.head, c.cap, a)
      requires kill == (set t | t in tags) && gone == (set x | x in ids)
      requires |snapshot| == c.nregs && (tag in Look().live ==> |Look().live[tag]| == c.nregs)
      modifies Parts(), this`instTable, this`flight, this`fu, this`wakeups, this`front, this`fetchPc, this`squashed
      ensures Fit() && a < |old(Mine()).flight| == |old(Look()).entries|
      ensures Mine() == RecoveredOwn(old(Mine()), a, next, gone, kill)
      ensures Look() == RecoveredView(old(Look()), a, tag, snapshot, old(Mine()).freed, gone, kill)
    {
      hide Fit, Look, Tag, RecoveredView, RecoveredOwn;
      assert this !in Parts();
      var dropped := DropYounger(tag, snapshot, ids, tags, kill, gone, a);
      ForgetYounger(gone, kill, next, dropped, a);
    }

    method ForgetYounger(gone: set<nat>, kill: set<int>, next: Pc, dropped: nat, ghost a: nat)
      requires a < |flight| && dropped == |flight| - (a + 1)
      modifies this`instTable, this`flight, this`fu, this`wakeups, this`front, this`fetchPc, this`squashed
      ensures a < |old(Mine()).flight| && Mine() == RecoveredOwn(old(Mine()), a, next, gone, kill)
    {
      fu := FilterBeats(fu, kill);
      wakeups := FilterBeats(wakeups, kill);
      instTable := instTable - gone;
      flight := flight[..a + 1];
      front := [];
      fetchPc := next;
      squashed := squashed + dropped;
    }

    // -------------------------------------------------------------- branches

    /** The resolve bus consumes a branch unit's output. */
    method ConsumeBeat(k: nat)
      requires Valid() && k < |fu|
      modifies this`fu
      ensures Valid() && Abs() == old(Abs()).(fu := old(fu)[..k] + old(fu)[k + 1..])
      ensures instTable == old(instTable) && flight == old(flight)
    {
      hide Fit, Look, AllOk, Sized, Machine, ConsumedOwn;
      ConsumedOk(c, Mine(), Look(), k);
      assert this !in Parts();
      DropBeat(k);
    }

    method DropBeat(k: nat)
      requires k < |fu|
      modifies this`fu
      ensures k < |old(Mine()).fu| && Mine() == ConsumedOwn(old(Mine()), k)
    {
      fu := fu[..k] + fu[k + 1..];
    }

    /** A branch completes on the sideband: no broadcast, nothing waits for its value. */
    method CompleteEntry(id: nat, value: Word, ghost i: nat)
      requires Valid() && i < |Abs().st| == |Abs().dy| && Abs().dy[i].id == id && !Abs().st[i].instr.IsMem()
      modifies this`instTable, rob.buffer
      ensures i < |old(Abs()).dy| && Valid() && Abs() == old(Abs()).(dy := Complete(old(Abs()).dy, i, value))
    {
      hide Fit, Look, AllOk, Sized, Machine, CompletedOwn, CompletedView, Complete, Tag;
      ghost var o, v := Mine(), Look();
      Seen();
      Shapes(c, o, v);
      MachineShape(c, o, v);
      TagPlaces(c, o, v);
      MachineEntry(c, o, v, i);
      CompletingIs(c, o, v, i, value);
      MarkDone(id, value, i);
    }

    method MarkDone(id: nat, value: Word, ghost i: nat)
      requires Fit() && i < |Look().entries| && id in instTable && 0 <= instTable[id].robId == Tag(rob.head, c.cap, i)
      modifies this`instTable, rob.buffer
      ensures id in old(Mine()).table && i < |old(Look()).entries|
      ensures Fit() && Look() == CompletedView(old(Look()), i, value) && Mine() == CompletedOwn(old(Mine()), id)
    {
      hide Fit, Look, Tag;
      WriteRobResult(instTable[id].robId, value, i);
      assert this !in Parts();
      instTable := instTable[id := instTable[id].(completed := true)];
    }

    /** A branch result leaves its unit: if the prediction was wrong, the machine recovers to the right path. */
    method ResolveBranch(k: nat) returns (recovered: bool)
      requires Valid() && CanResolve(c, Abs(), k)
      modifies this, Parts()
      ensures Valid() && Abs() == old(Resolve(c, Abs(), k))
      ensures recovered == old(IsMispredict(c, Abs(), k))
    {
      hide Fit, Look, AllOk, Sized, Machine, Recover, Complete, Age, Tag, Mispredicted, NextPc;
      ghost var s := Abs();
      Seen();
      Shapes(c, Mine(), Look());
      MachineShape(c, Mine(), Look());
      GrantedEntry(c, Mine(), Look(), k);
      var beat := fu[k];
      ghost var i := Age(rob.head, c.cap, beat.tag);
      MachineEntry(c, Mine(), Look(), i);
      var id := FindEntry(beat.tag, i);
      var f := instTable[id].fetched;
      assert f == s.st[i];
      recovered := Mispredicted(f, beat.val != 0);
      ConsumeBeat(k);
      ghost var s1 := Abs();
      if recovered {
        RecoverKeeps(c, s1, i, NextPc(f.pc, f.instr, beat.val != 0));
        EarlyRecover(id, NextPc(f.pc, f.instr, beat.val != 0), i);
      }
      CompleteEntry(id, beat.val, i);
    }

    /** The branch outputs of a cycle in ROB age order. */
    method SortByAge(outputs: seq<Beat>) returns (todo: seq<Beat>)
      requires rob.head < c.cap && DistinctSlots(c, outputs)
      ensures OldestFirst(c, rob.head, todo) && multiset(todo) == multiset(outputs)
    {
      hide Age, InsertByAge, DistinctSlots, OldestFirst;
      todo := [];
      var n := 0;
      assert outputs[..0] == [];
      NothingYet(c, rob.head);
      while n < |outputs|
        invariant 0 <= n <= |outputs| && OldestFirst(c, rob.head, todo) && multiset(todo) == multiset(outputs[..n])
      {
        SortStep(c, rob.head, outputs, todo, n);
        todo := InsertByAge(c, rob.head, todo, outputs[n]);
        n := n + 1;
      }
      assert outputs[..n] == outputs;
    }

    method FindBeat(b: Beat) returns (k: nat)
      requires b in fu
      ensures k < |fu| && k == BeatIndex(fu, b)
    {
      k := 0;
      assert fu[0..] == fu;
      while fu[k] != b
        invariant k < |fu| && b in fu[k..] && BeatIndex(fu, b) == k + BeatIndex(fu[k..], b)
        decreases |fu| - k
      {
        assert fu[k..][1..] == fu[k + 1..];
        k := k + 1;
      }
    }

    /** Resolves one output, unless its instruction has been squashed. */
    method ResolveOutput(b: Beat) returns (recovered: bool)
      requires Valid() && 0 <= b.tag < c.cap
      requires StillThere(c, Abs(), b) <==> b in Abs().fu && CanResolve(c, Abs(), BeatIndex(Abs().fu, b))
      modifies this, Parts()
      ensures Valid() && Abs() == old(ResolveOne(c, Abs(), b)).0 && recovered == old(ResolveOne(c, Abs(), b)).1
    {
      hide Fit, Look, AllOk, Sized, Machine, Age, Resolve, CanResolve, IsMispredict;
      InTableIsInFlight(b);
      var found, id := FindInstByRobId(b.tag);
      if !found { return false; }
      var k := FindBeat(b);
      recovered := ResolveBranch(k);
    }

    /** The table holds an instruction with the tag exactly while it is in flight. */
    lemma {:induction false} InTableIsInFlight(b: Beat)
      requires Valid() && 0 <= b.tag < c.cap
      ensures (exists x :: x in instTable && instTable[x].robId == b.tag) <==> StillThere(c, Abs(), b)
      ensures Abs().fu == fu && Abs().head == rob.head
    {
      hide Fit, Look, AllOk, Sized, Machine;
      Seen();
      Shapes(c, Mine(), Look());
      MachineShape(c, Mine(), Look());
      TagHeld(c, Mine(), Look(), b.tag);
    }

    /** Is it a branch's result? */
    method IsControlBeat(b: Beat) returns (control: bool)
      requires Valid() && 0 <= b.tag < c.cap && StillThere(c, Abs(), b)
      ensures control <==> IsBranch(c, Abs(), b)
    {
      hide Fit, Look, AllOk, Sized, Machine, Age, Tag;
      ghost var o, v, s := Mine(), Look(), Abs();
      assert this !in Parts();
      Seen();
      Shapes(c, o, v);
      MachineShape(c, o, v);
      AgeInverse(c, v.head, b.tag);
      MachineEntry(c, o, v, Age(v.head, c.cap, b.tag));
      var id := FindEntry(b.tag, Age(rob.head, c.cap, b.tag));
      control := instTable[id].fetched.instr.IsControl();
    }

    /** The resolve bus: the branch units' outputs, oldest first. At most one recovers. */
    method ResolveStage(outputs: seq<Beat>) returns (recoveries: nat, ghost todo: seq<Beat>)
      requires Valid() && DistinctSlots(c, outputs) && Offered(c, Abs(), outputs)
      modifies this, Parts()
      ensures OldestFirst(c, old(Abs()).head, todo) && multiset(todo) == multiset(outputs)
      ensures Valid() && Abs() == ResolveAll(c, old(Abs()), todo).core
      ensures recoveries == (if FirstWrong(c, old(Abs()), todo) < |todo| then 1 else 0)
    {
      hide Fit, Look, AllOk, Sized, Machine, Age, ResolveOne, ResolveAll, Offered, OldestFirst, FirstWrong, Resolve;
      ghost var s := Abs();
      HeadInRange();
      var sorted := SortByAge(outputs);
      todo, recoveries := sorted, 0;
      SameOffer(c, s, outputs, todo);
      OldestFirstRecoversOnce(c, s, todo);
      var n := 0;
      assert todo[0..] == todo;
      while n < |sorted|
        invariant 0 <= n <= |todo| && todo == sorted && Valid()
        invariant OldestFirst(c, Abs().head, todo[n..]) && Offered(c, Abs(), todo[n..])
        invariant ResolveAll(c, s, todo).core == ResolveAll(c, Abs(), todo[n..]).core
        invariant ResolveAll(c, s, todo).recoveries == recoveries + ResolveAll(c, Abs(), todo[n..]).recoveries
      {
        assert todo[n..][0] == todo[n] && todo[n..][1..] == todo[n + 1..];
        OneOffers(c, Abs(), todo[n..]);
        OneThenRest(c, Abs(), todo[n..]);
        TagInSlot(c, outputs, todo, n);
        var recovered := ResolveOutput(sorted[n]);
        if recovered { recoveries := recoveries + 1; }
        n := n + 1;
      }
      NoneLeft(c, Abs(), todo[n..]);
    }

    lemma {:induction false} HeadInRange()
      requires Valid()
      ensures rob.head < c.cap && Abs().head == rob.head
    {
      hide Fit, Look, AllOk, Machine;
      Seen();
      Parted();
      Shapes(c, Mine(), Look());
      MachineShape(c, Mine(), Look());
    }

    // -------------------------------------------------------------- loads

    /** Dispatches a load from the queue's slots. */
    method LsqDispatch(id: nat) returns (ok: bool)
      requires Fit() && id in Look().mem
      modifies lsq.queue
      ensures Fit() && DistinctIds(old(lsq.queue[..])) && old(Look()).mem == Table(old(lsq.queue[..]))
      ensures ok <==> Dispatchable(old(Look()), old(lsq.queue[..]), id)
                      && (!lsq.storeForwarding ==>
                            NoClash(c.byteAddressed, old(lsq.queue[..]), id, old(Look()).mem[id].address))
      ensures Look() == if !ok then old(Look()) else
        old(Look()).(mem := old(Look()).mem[id := DispatchedOp(c, old(Look()), old(lsq.queue[..]), id, lsq.fwdLatency,
            lsq.memLatency)])
    {
      hide ReorderBuffer.Valid, ReorderBuffer.Contents, ReservationStation.Valid, ReservationStation.Contents,
           RatCheckpoints.Valid, RatCheckpoints.Live, Overlaid, QueueCover, Forward, AccessMask, WordIndex, Dispatched;
      ghost var i := SlotTable.SlotOf(lsq.queue[..], id);
      InTable(lsq.queue[..], i, id);
      ok := lsq.DispatchLoad(id);
    }

    /** Dispatches the load at place `i`: the search over the slots is the machine's forwarding in program order. */
    method DispatchOneLoad(id: nat, ghost i: nat) returns (ok: bool)
      requires Valid() && phase == Back && i < |flight| && id == flight[i]
      requires id in instTable && instTable[id].fetched.instr.IsLoad()
      modifies lsq.queue
      ensures Valid() && instTable == old(instTable) && flight == old(flight) && phase == old(phase)
      ensures ok ==> CanDispatchLoad(old(Abs()), i) && Abs() == DispatchLoad(c, old(Abs()), i)
      ensures !ok ==> Abs() == old(Abs())
      ensures ok <==> CanStart(c, lsq.storeForwarding, old(Abs()), i)
    {
      hide Fit, Look, AllOk, Sized, Machine, Dispatchable, DispatchedOp, DistinctIds, Table, CanDispatchLoad,
           DispatchLoad, NoClash;
      ghost var o, v, q := Mine(), Look(), lsq.queue[..];
      Seen();
      Shapes(c, o, v);
      QueueSeen();
      StartableIs(c, o, v, i, q, lsq.storeForwarding);
      DispatchableIs(c, o, v, i, q);
      assert this !in Parts();
      if CanDispatchLoad(Machine(o, v), i) {
        DispatchingIs(c, o, v, i, q, lsq.fwdLatency, lsq.memLatency);
      }
      ok := LsqDispatch(id);
    }

    lemma {:induction false} QueueSeen()
      requires Fit()
      ensures DistinctIds(lsq.queue[..]) && Look().mem == Table(lsq.queue[..]) && lsq.queue.Length == lsq.capacity
    {
      hide ReorderBuffer.Valid, ReorderBuffer.Contents, ReservationStation.Valid, ReservationStation.Contents,
           RatCheckpoints.Valid, RatCheckpoints.Live;
    }

    // -------------------------------------------------------------- memory

    method LsqCycle() returns (drained: nat)
      requires Fit()
      modifies lsq`sbHead, lsq`sbCount, lsq.queue, lsq.sb, lsq.mainMemory
      ensures Fit() && drained <= |old(Look()).pending| && Look() == TickedView(c, old(Look()), drained)
      ensures var ring := Sent(old(lsq.Slots()), lsq.maxMemPorts, lsq.memLatency);
              drained == DueNow(ring) && lsq.Slots() == CountedDown(ring[drained..])
      ensures lsq.queue[..] == TickedSlots(c.byteAddressed, old(lsq.queue[..]), old(Look()).main)
    {
      hide ReorderBuffer.Valid, ReorderBuffer.Contents, ReservationStation.Valid, ReservationStation.Contents,
           RatCheckpoints.Valid, RatCheckpoints.Live, Ticked, Written, Sent, DueNow, CountedDown, TickedSlots,
           LoadStoreQueue.Contents, LoadStoreQueue.Pending, LoadStoreQueue.Slots, DistinctIds, InOrder;
      drained := lsq.Tick();
    }

    lemma {:induction false} BufferShape()
      requires Fit()
      ensures lsq.Shape()
    {
      hide ReorderBuffer.Valid, ReorderBuffer.Contents, ReservationStation.Valid, ReservationStation.Contents,
           RatCheckpoints.Valid, RatCheckpoints.Live;
    }

    /** One cycle of loads and buffered stores: every load counts down and reads memory in its time, then the stores
      * that are due are written to it. */
    method TickMemory() returns (ghost run: seq<Step>)
      requires Valid() && phase == Writeback
      modifies lsq, lsq.queue, lsq.sb, lsq.mainMemory
      ensures Valid() && Reaches(c, old(Abs()), run, Abs()) && FillsAndDrains(run)
      ensures fu == old(fu) && phase == old(phase) && instTable == old(instTable) && flight == old(flight)
      ensures MemoryCycled(c, Dims(), old(Now()), Now())
    {
      hide Fit, Look, AllOk, Sized, Machine, TickedView, Sent, DueNow, CountedDown, TickedSlots, Written, LoadIn,
           MemoryCycled, DistinctIds, Table;
      ghost var o, v, was := Mine(), Look(), Now();
      Seen();
      Shapes(c, o, v);
      assert this !in Parts();
      var drained := LsqCycle();
      run := TickRun(c, o, v, drained);
      QueueSeen();
      BufferShape();
      TickedGlance(c, Dims(), o, v, drained, was, lsq.queue[..], lsq.Slots());
    }

    // -------------------------------------------------------------- stores

    /** Is the ROB entry done, and with what value? */
    method RobResult(tag: nat, ghost i: nat) returns (done: bool, value: Word)
      requires Fit() && i < |Look().entries| && tag == Tag(rob.head, c.cap, i)
      ensures done == Look().entries[i].done && value == Look().entries[i].value
    {
      hide LoadStoreQueue.Valid, LoadStoreQueue.Contents, LoadStoreQueue.Pending,
           ReservationStation.Valid, ReservationStation.Contents, RatCheckpoints.Valid, RatCheckpoints.Live;
      done, value := rob.IsReady(tag), rob.GetValue(tag);
    }

    /** What the permission walk sees of the entry `lane` places from the head. */
    method AtLane(lane: nat) returns (ins: Instr, done: bool, wrong: bool)
      requires Valid() && lane < |flight|
      ensures done <==> DoneAt(Mine(), lane)
      ensures !done && ins.IsStore() <==> Waits(Mine(), lane)
      ensures lane < |Abs().st| == |Abs().dy| && ins == Abs().st[lane].instr && done == Abs().dy[lane].done
      ensures done ==> (wrong <==> WrongPath(Abs(), lane))
    {
      hide Fit, Look, AllOk, Tag, Machine, Mispredicted;
      Seen();
      Shapes(c, Mine(), Look());
      LaneIs(c, Mine(), Look(), lane);
      TagPlaces(c, Mine(), Look());
      EntryAt(c, Mine(), Look(), lane);
      HeadInRange();
      assert this !in Parts();
      var tag := Tag(rob.head, c.cap, lane);
      var value;
      done, value := RobResult(tag, lane);
      var id := FindEntry(tag, lane);
      var f := instTable[id].fetched;
      ins, wrong := f.instr, f.instr.IsControl() && done && Mispredicted(f, value != 0);
    }

    /** Tags of the stores that may leave: from the head, over done entries and waiting stores, up to the width. */
    method StoreCommitPermissions() returns (tags: seq<int>, ghost places: seq<nat>)
      requires Valid()
      ensures Permitted(Mine(), places) && tags == TagsOf(c, rob.head, places)
      ensures |Abs().st| == |Abs().dy| && places == Permits(Abs(), width, 0)
      ensures width > 0 && flight != [] && Waits(Mine(), 0) ==> places != [] && places[0] == 0
    {
      hide Fit, Look, AllOk, Machine, Tag, Waits, DoneAt, Walked, Permitted, Permits, WrongPath, TagsOf;
      tags, places := [], [];
      var lane, more := 0, true;
      ghost var s := Abs();
      RobCount();
      NothingWalked(Mine());
      NoTags(c, rob.head);
      assert this !in Parts();
      while more && lane < width && lane < rob.activeCount
        invariant Walked(Mine(), places, lane) && lane <= |flight| == rob.activeCount == |s.st| == |s.dy|
        invariant tags == TagsOf(c, rob.head, places)
        invariant Permits(s, width, 0) == places + if more then Permits(s, width, lane) else []
        decreases width - lane, more
      {
        ghost var was := places;
        var permitted;
        permitted, more := WalkLane(lane, places);
        if permitted {
          OneMoreTag(c, rob.head, places, lane);
          tags := tags + [Tag(rob.head, c.cap, lane)];
          places := places + [lane];
        }
        if more { lane := lane + 1; }
      }
      PermitsOn(s, width, lane);
      HeadPermitted(c, Mine(), Look(), width);
      WalkedIsPermitted(Mine(), places, lane);
    }

    /** One step of the walk: is the entry a permitted store, and does the walk go on? */
    method WalkLane(lane: nat, ghost places: seq<nat>) returns (permitted: bool, more: bool)
      requires Valid() && lane < |flight| && lane < width && Walked(Mine(), places, lane)
      ensures |Abs().st| == |Abs().dy| && (permitted ==> more)
      ensures more ==> Walked(Mine(), if permitted then places + [lane] else places, lane + 1)
      ensures Permits(Abs(), width, lane)
                == (if permitted then [lane] else []) + if more then Permits(Abs(), width, lane + 1) else []
    {
      hide Fit, Look, AllOk, Machine, Tag, Waits, DoneAt, Walked, Permits, WrongPath;
      assert this !in Parts();
      var ins, done, wrong := AtLane(lane);
      WalkedOn(Mine(), places, lane);
      PermitsOn(Abs(), width, lane);
      permitted := !done && ins.IsStore();
      more := permitted || (done && !wrong);
    }

    lemma {:induction false} RobCount()
      requires Valid()
      ensures |flight| == rob.activeCount == |Abs().st| == |Abs().dy|
    {
      hide Fit, Look, AllOk, Machine;
      Mirrors();
    }

    ghost function Room(): nat
      reads Parts()
      requires Fit()
    {
      if lsq.maxMemPorts < lsq.sbCapacity - lsq.sbCount then lsq.maxMemPorts else lsq.sbCapacity - lsq.sbCount
    }

    lemma {:induction false} RoomIs()
      requires Valid()
      ensures |Abs().st| == |Abs().dy| && RoomLeft(Dims(), Abs()) == Room()
    {
      hide ReorderBuffer.Valid, ReorderBuffer.Contents, ReservationStation.Valid, ReservationStation.Contents,
           RatCheckpoints.Valid, RatCheckpoints.Live, AllOk, LoadStoreQueue.Contents;
      RobCount();
    }

    method LsqEnqueue(tags: seq<int>) returns (done: seq<int>)
      requires Fit()
      modifies lsq`sbTail, lsq`sbCount, lsq.queue, lsq.sb
      ensures var h := HandOver(c.byteAddressed, old(lsq.queue[..]), tags, old(Room()));
              && Fit() && DistinctIds(h.queue) && done == tags[..|h.entries|]
              && Look() == old(Look()).(mem := Table(h.queue), pending := old(Look()).pending + h.entries)
    {
      hide ReorderBuffer.Valid, ReorderBuffer.Contents, ReservationStation.Valid, ReservationStation.Contents,
           RatCheckpoints.Valid, RatCheckpoints.Live, HandOver;
      done := lsq.EnqueueStores(tags);
    }

    /** A store handed over is done: in the ROB, and in the table. */
    method FinishStore(tag: int, ghost places: seq<nat>, ghost tags: seq<int>)
      requires Fit() && ToFinish(c, Mine(), Look(), places, tags) && tags != [] && tag == tags[0]
      modifies this`instTable, rob.buffer
      ensures places[0] < |old(Look()).entries| && places[0] < |old(Mine()).flight|
      ensures old(Mine()).flight[places[0]] in old(Mine()).table
      ensures Fit() && Look() == CompletedView(old(Look()), places[0], 0)
      ensures Mine() == CompletedOwn(old(Mine()), old(Mine()).flight[places[0]])
    {
      hide Fit, Look, Tag;
      Seen();
      assert this !in Parts();
      var found, id := FindInstByRobId(tag);
      MarkDone(id, 0, places[0]);
    }

    method FinishStores(done: seq<int>, ghost places: seq<nat>)
      requires Fit() && ToFinish(c, Mine(), Look(), places, done)
      modifies this`instTable, rob.buffer
      ensures PlacesFit(old(Mine()), old(Look()), places)
      ensures Fit() && Look() == EntriesDone(old(Look()), places) && Mine() == StoresDone(old(Mine()), places)
    {
      hide Fit, Look, ToFinish, EntriesDone, StoresDone, CompletedView, CompletedOwn, Mine;
      ghost var left, todo, o, v := places, done, Mine(), Look();
      FinishFits(c, o, v, left, todo);
      var k := 0;
      while k < |done|
        invariant 0 <= k <= |done| && Fit() && todo == done[k..] && ToFinish(c, Mine(), Look(), left, todo)
        invariant PlacesFit(Mine(), Look(), left)
        invariant EntriesDone(Look(), left) == EntriesDone(v, places)
        invariant StoresDone(Mine(), left) == StoresDone(o, places)
      {
        FinishFits(c, Mine(), Look(), left, todo);
        FinishOn(c, Mine(), Look(), left, todo);
        FinishStore(done[k], left, todo);
        left, todo := left[1..], todo[1..];
        FinishFits(c, Mine(), Look(), left, todo);
        k := k + 1;
      }
      NoneToFinish(c, Mine(), Look(), left, todo);
    }

    /** Moves the permitted stores to the buffer as far as they can go, and marks those done. */
    method HandOverStores(tags: seq<int>, ghost places: seq<nat>)
      requires Fit() && PlacesFit(Mine(), Look(), places) && tags == TagsOf(c, Look().head, places)
      requires var n := Gone(c, Look(), lsq.queue[..], places, Room()); ToFinish(c, Mine(), Look(), places[..n],
                 tags[..n])
      modifies this`instTable, rob.buffer, lsq`sbTail, lsq`sbCount, lsq.queue, lsq.sb
      ensures PlacesFit(old(Mine()), old(Look()), places)
      ensures DistinctIds(HandOver(c.byteAddressed, old(lsq.queue[..]), TagsOf(c, old(Look()).head, places),
                old(Room())).queue)
      ensures Fit() && Look() == HandedView(c, old(Look()), old(lsq.queue[..]), places, old(Room()))
      ensures Mine() == StoresDone(old(Mine()), places[..Gone(c, old(Look()), old(lsq.queue[..]), places, old(Room()))])
    {
      hide Fit, Look, TagsName, HandOver, EntriesDone, StoresDone, Tag, Room, Mine;
      ghost var o, v, q := Mine(), Look(), lsq.queue[..];
      assert this !in Parts();
      var done := LsqEnqueue(tags);
      ghost var w := Look();
      FinishStores(done, places[..|done|]);
      EntriesApart(v, places[..|done|], w.mem, w.pending);
    }

    /** The commit stage's store work: permitted stores move to the buffer and are done, as far as they can go. */
    method ProcessStoreBuffer() returns (ghost run: seq<Step>)
      requires Valid() && phase == Commit
      modifies this`instTable, rob.buffer, lsq, lsq.queue, lsq.sb
      ensures Valid() && Reaches(c, old(Abs()), run, Abs()) && Enqueues(run) && phase == old(phase)
      ensures |old(Abs()).st| == |old(Abs()).dy| && Abs() == StoresHanded(c, Dims(), old(Abs()))
    {
      hide Fit, Look, AllOk, Sized, Machine, Permitted, TagsName, HandOver, HandedView, EntriesDone, StoresDone, Tag,
           Room, RoomLeft, Permits, HandedOver;
      ghost var o, v, q, room := Mine(), Look(), lsq.queue[..], Room();
      Seen();
      QueueSeen();
      RoomIs();
      assert this !in Parts();
      var tags;
      ghost var places;
      tags, places := StoreCommitPermissions();
      run := HandOverRun(c, o, v, q, places, room);
      HandedIs(c, o, v, q, places, room);
      PermittedToFinish(c, o, v, places, Gone(c, v, q, places, room), v);
      HandOverStores(tags, places);
    }

    // -------------------------------------------------------------- loads on the bus

    method ReleaseLoad(slot: nat, ghost id: nat)
      requires Fit() && slot < lsq.queue.Length && Holds(lsq.queue[..], slot, id) && lsq.queue[slot].body.isLoad
      modifies lsq.queue
      ensures id in old(Look()).mem && Fit()
      ensures Look() == old(Look()).(mem := old(Look()).mem[id := ReleasedOp(old(Look()).mem[id])])
      ensures lsq.queue[..] == old(lsq.queue[..])[slot := old(lsq.queue[slot]).(body :=
                ReleasedOp(old(lsq.queue[slot]).body))]
    {
      hide ReorderBuffer.Valid, ReorderBuffer.Contents, ReservationStation.Valid, ReservationStation.Contents,
           RatCheckpoints.Valid, RatCheckpoints.Live;
      InTable(lsq.queue[..], slot, id);
      lsq.ReleaseSlot(slot);
    }

    method DeliverLoad(slot: nat, id: nat, b: Beat, ghost i: nat)
      requires Fit() && i < |Look().entries| && slot < lsq.queue.Length && Holds(lsq.queue[..], slot, id)
      requires Offers(lsq.queue[slot].body)
      requires id in Look().mem && b.val == Look().mem[id].buffer
      requires id in instTable && b.tag == instTable[id].robId && 0 <= b.tag == Tag(rob.head, c.cap, i)
      modifies this`instTable, this`wakeups, rob.buffer, lsq.queue
      ensures id in old(Mine()).table && i < |old(Look()).entries| && id in old(Look()).mem
      ensures Fit() && Look() == LoadedView(old(Look()), i, id) && Mine() == LoadedOwn(old(Mine()), id, b)
      ensures lsq.queue[..] == old(lsq.queue[..])[slot := old(lsq.queue[slot]).(body :=
                ReleasedOp(old(lsq.queue[slot]).body))]
    {
      hide Fit, Look, Tag;
      assert this !in Parts();
      MarkDone(id, b.val, i);
      ReleaseLoad(slot, id);
      wakeups := wakeups + [b];
    }

    /** A load the queue offers is granted the bus. */
    method GrantLoad(slot: nat) returns (ghost i: nat)
      requires Valid() && phase == Writeback && slot < lsq.queue.Length && lsq.queue[slot].valid
      requires Offers(lsq.queue[slot].body)
      modifies this`instTable, this`wakeups, rob.buffer, lsq.queue
      ensures Valid() && CanBroadcastLoad(old(Abs()), i) && Abs() == BroadcastLoad(c, old(Abs()), i)
      ensures phase == old(phase) && fu == old(fu) && LoadGranted(c, slot, old(Now()), Now())
      ensures lsq.Slots() == old(lsq.Slots())
    {
      hide Fit, Look, AllOk, Sized, Machine, DistinctIds, Table, LoadedView, LoadedOwn, BroadcastLoad,
           CanBroadcastLoad, Tag;
      ghost var o, v := Mine(), Look();
      Seen();
      QueueSeen();
      assert this !in Parts();
      var e := lsq.queue[slot];
      InTable(lsq.queue[..], slot, e.id);
      i := HeldLoad(c, o, v, e.id);
      var b := Beat(e.body.robId, e.body.buffer);
      GrantingLoadIs(c, o, v, i, b);
      PlacedAt(i);
      DeliverLoad(slot, e.id, b, i);
    }

    lemma {:induction false} PlacedAt(i: nat)
      requires Valid() && i < |flight|
      ensures |Abs().dy| == |flight| && Abs().dy[i].id == flight[i]
    {
      hide Fit, Look, AllOk, Machine;
      Seen();
      Shapes(c, Mine(), Look());
      MachineEntry(c, Mine(), Look(), i);
    }

    // -------------------------------------------------------------- registered wake-ups

    /** What one instruction sees of a result. */
    method SeenBy(info: InstInfo, b: Beat) returns (woken: InstInfo)
      ensures woken == WokenInfo(info, b)
    {
      woken := info;
      if info.completed { return; }
      WakeOne(info.src1, b.tag, b.val);
      WakeOne(info.src2, b.tag, b.val);
      WakeOne(info.data, b.tag, b.val);
      if !info.src1.ready && info.src1.tag == b.tag { woken := woken.(src1 := info.src1.(ready := true,
          val := b.val)); }
      if !info.src2.ready && info.src2.tag == b.tag { woken := woken.(src2 := info.src2.(ready := true,
          val := b.val)); }
      if info.fetched.instr.IsStore() && !info.data.ready && info.data.tag == b.tag {
        woken := woken.(data := info.data.(ready := true, val := b.val));
      }
    }

    /** A store passes the data it has seen on to the queue. */
    method PassData(id: nat, info: InstInfo, b: Beat)
      requires Fit()
      modifies lsq.queue
      ensures Fit() && Look() == DataPassed(old(Look()), id, info, b)
    {
      hide ReorderBuffer.Valid, ReorderBuffer.Contents, ReservationStation.Valid, ReservationStation.Contents,
           RatCheckpoints.Valid, RatCheckpoints.Live, LoadStoreQueue.Valid, LoadStoreQueue.Contents,
               LoadStoreQueue.Pending;
      if !info.completed && info.fetched.instr.IsStore() && !info.data.ready && info.data.tag == b.tag {
        lsq.SetStoreData(id, b.val);
      }
    }

    /** One instruction sees one result. */
    method WakeEntry(id: nat, b: Beat)
      requires Fit() && id in instTable
      modifies this`instTable, lsq.queue
      ensures id in old(Mine()).table
      ensures Mine() == old(Mine()).(table := old(Mine()).table[id := WokenInfo(old(Mine()).table[id], b)])
      ensures Fit() && Look() == DataPassed(old(Look()), id, old(Mine()).table[id], b)
    {
      hide Fit, Look, DataPassed;
      assert this !in Parts();
      PassData(id, instTable[id], b);
      var info := SeenBy(instTable[id], b);
      instTable := instTable[id := info];
    }

    /** Every instruction in the table sees the result. */
    method UpdateOperands(b: Beat)
      requires Fit()
      modifies this`instTable, lsq.queue
      ensures Fit() && Mine() == WokenOwn(old(Mine()), b, old(Mine()).table.Keys)
      ensures Look() == WokenView(old(Mine()), old(Look()), b, old(Mine()).table.Keys)
    {
      hide Fit, Look, WokenOwn, WokenView, Mine;
      ghost var o, v := Mine(), Look();
      Seen();
      assert this !in Parts();
      var keys, seen := instTable.Keys, {};
      WakeNone(o, v, b);
      while seen != keys
        invariant seen <= keys == o.table.Keys && Fit()
        invariant Mine() == WokenOwn(o, b, seen) && Look() == WokenView(o, v, b, seen)
        decreases |keys - seen|
      {
        var id :| id in keys - seen;
        WakeOneMore(o, v, b, seen, id);
        Seen();
        WakeEntry(id, b);
        assert keys - (seen + {id}) < keys - seen;
        seen := seen + {id};
      }
    }

    /** A result reaches the reservation stations and the table. */
    method SeeResult(b: Beat)
      requires Fit()
      modifies this`instTable, lsq.queue, rs.stations
      ensures Fit() && Mine() == WokenOwn(old(Mine()), b, old(Mine()).table.Keys)
      ensures Look() == SeenView(old(Mine()), old(Look()), b)
    {
      hide ReorderBuffer.Valid, ReorderBuffer.Contents, ReservationStation.Valid, ReservationStation.Contents,
           RatCheckpoints.Valid, RatCheckpoints.Live, LoadStoreQueue.Valid, LoadStoreQueue.Contents,
               LoadStoreQueue.Pending,
           WokenOwn, WokenView, WakeRs;
      rs.UpdateFromCDB(b.tag, b.val);
      UpdateOperands(b);
    }

    method WakeByResult(b: Beat)
      requires Valid()
      modifies this`instTable, lsq.queue, rs.stations
      ensures |old(Abs()).st| == |old(Abs()).dy| && Valid() && Abs() == Woken(old(Abs()), [b])
      ensures wakeups == old(wakeups)
    {
      hide Fit, Look, AllOk, Sized, Machine, WokenOwn, SeenView, Woken;
      ghost var o, v := Mine(), Look();
      Seen();
      assert this !in Parts();
      WakingIs(c, o, v, b);
      SeeResult(b);
    }

    /** All of last cycle's results, in the order they were registered. */
    method SeeResults()
      requires Valid()
      modifies this`instTable, lsq.queue, rs.stations
      ensures |old(Abs()).st| == |old(Abs()).dy| && Valid() && Abs() == Woken(old(Abs()), old(wakeups))
      ensures wakeups == old(wakeups)
    {
      hide Fit, Look, AllOk, Sized, Machine, Woken;
      ghost var s, now := Abs(), Abs();
      Seen();
      Shapes(c, Mine(), Look());
      MachineShape(c, Mine(), Look());
      var k := 0;
      assert wakeups[0..] == wakeups;
      while k < |wakeups|
        invariant 0 <= k <= |wakeups| && wakeups == old(wakeups)
        invariant Valid() && Abs() == now
        invariant |s.st| == |s.dy| && |now.st| == |now.dy| && Woken(now, wakeups[k..]) == Woken(s, wakeups)
      {
        assert wakeups[k..] == [wakeups[k]] + wakeups[k + 1..];
        WokenTwice(now, wakeups[k], wakeups[k + 1..]);
        WakeByResult(wakeups[k]);
        WokenShape(now, [wakeups[k]]);
        now := Woken(now, [wakeups[k]]);
        k := k + 1;
      }
      assert wakeups[k..] == [];
      WokenByNone(now);
    }

    /** The start of a cycle: last cycle's results reach every waiting operand. */
    method ApplyWakeups()
      requires Valid() && phase == Back
      modifies this`instTable, this`wakeups, this`freed, this`phase, lsq.queue, rs.stations
      ensures CanStartCycle(old(Abs())) && Valid() && Abs() == StartCycle(old(Abs()))
    {
      hide Fit, Look, AllOk, Sized, Machine;
      BeforeStart(c, Mine(), Look());
      SeeResults();
      StartingIs(c, Mine(), Look());
      assert this !in Parts();
      ForgetWakeups();
    }

    method ForgetWakeups()
      modifies this`wakeups, this`freed, this`phase
      ensures Mine() == StartedOwn(old(Mine()))
    {
      wakeups, freed, phase := [], {}, Commit;
    }

    // -------------------------------------------------------------- addresses and issue

    /** The queue learns an address, and, of a store, the data. */
    method TellQueue(id: nat, addr: Word)
      requires Fit() && id in Look().mem
      modifies lsq.queue
      ensures id in old(Look()).mem && Fit() && Look() == AddressedView(old(Look()), id, addr)
    {
      hide ReorderBuffer.Valid, ReorderBuffer.Contents, ReservationStation.Valid, ReservationStation.Contents,
           RatCheckpoints.Valid, RatCheckpoints.Live, LoadStoreQueue.Valid, LoadStoreQueue.Contents,
               LoadStoreQueue.Pending;
      lsq.SetAddress(id, addr);
    }

    method StoreAddress(id: nat)
      requires Fit() && id in instTable && id in Look().mem
      modifies this`instTable, lsq.queue
      ensures id in old(Mine()).table && id in old(Look()).mem
      ensures Mine() == WithInfo(old(Mine()), id, AddressedInfo(old(Mine()).table[id]))
      ensures Fit() && Look() == AddressedView(old(Look()), id, AddressOf(old(Mine()).table[id]))
    {
      hide Fit, Look, AddressedView;
      assert this !in Parts();
      var info := instTable[id];
      var addr := Wrap32(info.src1.val + info.fetched.instr.imm);
      TellQueue(id, addr);
      instTable := instTable[id := info.(addrReady := true, addr := addr)];
    }

    /** The address scan at the instruction `id`. */
    method ComputeAddress(id: nat, ghost i: nat) returns (computed: bool)
      requires Valid() && phase == Back && i < |flight| && id == flight[i] && id in instTable
      modifies this`instTable, lsq.queue
      ensures Valid() && phase == old(phase) && flight == old(flight) && instTable.Keys == old(instTable).Keys
      ensures computed <==> CanComputeAddr(old(Abs()), i)
      ensures Abs() == if CanComputeAddr(old(Abs()), i) then ComputeAddr(old(Abs()), i) else old(Abs())
    {
      hide Fit, Look, AllOk, Sized, Machine, WithInfo, AddressedInfo, AddressedView, ComputeAddr, CanComputeAddr;
      ghost var o, v := Mine(), Look();
      Seen();
      Shapes(c, o, v);
      NeedsAddressIs(c, o, v, i);
      assert this !in Parts();
      var info := instTable[id];
      computed := info.fetched.instr.IsMem() && !info.completed && !info.addrReady && info.src1.ready;
      if computed {
        AddressingIs(c, o, v, i);
        StoreAddress(id);
        WithInfoKeeps(o, id, AddressedInfo(o.table[id]));
      }
    }

    /** The scan hands the queue a store's data again; it already has it. */
    method RefreshData(id: nat)
      requires Valid() && id in instTable
      modifies lsq.queue
      ensures Valid() && Abs() == old(Abs()) && Mine() == old(Mine())
    {
      hide Fit, Look, AllOk, Sized, Machine;
      ghost var o, v := Mine(), Look();
      Seen();
      assert this !in Parts();
      var info := instTable[id];
      if info.fetched.instr.IsStore() && !info.completed && info.addrReady && info.data.ready {
        InQueue(c, o, v, id);
        StoreKind(c, o, v, id);
        DataInQueue(c, o, v, id);
        SendData(id, info.data.val);
      }
    }

    method SendData(id: nat, data: Word)
      requires Fit() && id in Look().mem && !Look().mem[id].isLoad
      requires Look().mem[id := Look().mem[id].(data := data, dataReady := true)] == Look().mem
      modifies lsq.queue
      ensures Fit() && Look() == old(Look())
    {
      hide ReorderBuffer.Valid, ReorderBuffer.Contents, ReservationStation.Valid, ReservationStation.Contents,
           RatCheckpoints.Valid, RatCheckpoints.Live, LoadStoreQueue.Valid, LoadStoreQueue.Contents,
               LoadStoreQueue.Pending;
      lsq.SetStoreData(id, data);
    }

    method FreeStation(id: nat)
      requires Fit()
      modifies rs.stations
      ensures Fit() && Look() == old(Look()).(stations := old(Look()).stations - {id})
    {
      hide ReorderBuffer.Valid, ReorderBuffer.Contents, LoadStoreQueue.Valid, LoadStoreQueue.Contents,
           LoadStoreQueue.Pending,
           RatCheckpoints.Valid, RatCheckpoints.Live, ReservationStation.Valid, ReservationStation.Contents;
      rs.RemoveInstruction(id);
    }

    method SendToUnit(id: nat)
      requires Fit() && id in instTable
      modifies this`instTable, this`fu, rs.stations
      ensures id in old(Mine()).table && Mine() == IssuedOwn(c, old(Mine()), id)
      ensures Fit() && Look() == old(Look()).(stations := old(Look()).stations - {id})
    {
      hide Fit, Look;
      assert this !in Parts();
      var info := instTable[id];
      fu := fu + [Beat(info.robId, Compute(c, info.fetched.instr.op, info.src1.val, info.src2.val))];
      instTable := instTable[id := info.(issued := true)];
      FreeStation(id);
    }

    /** Sends a ready instruction to its functional unit. */
    method IssueOne(id: nat, ghost i: nat)
      requires Valid() && i < |flight| && id == flight[i] && id in instTable && CanIssue(Abs(), i)
      modifies this`instTable, this`fu, rs.stations
      ensures Valid() && Abs() == Issue(c, old(Abs()), i)
      ensures phase == old(phase) && flight == old(flight) && instTable.Keys == old(instTable).Keys
    {
      hide Fit, Look, AllOk, Sized, Machine, IssuedOwn, Issue, CanIssue;
      ghost var o, v := Mine(), Look();
      Seen();
      Shapes(c, o, v);
      IssuingIs(c, o, v, i);
      assert this !in Parts();
      SendToUnit(id);
      IssuedKeeps(c, o, id);
    }

    // -------------------------------------------------------------- fetch

    /** Fetches the instruction at the fetch pc, if there is one; only branches are predicted. */
    method FetchOne(taken: bool, target: Pc) returns (ok: bool)
      requires Valid() && phase == Back
      modifies this`front, this`fetchPc
      ensures Valid() && phase == old(phase)
      ensures ok <==> old(fetchPc) in c.prog
      ensures ok ==> var guess := taken && c.prog[old(fetchPc)].IsControl();
                     CanFetch(c, old(Abs()), guess) && Abs() == Fetch(c, old(Abs()), guess, target)
      ensures !ok ==> Abs() == old(Abs())
    {
      hide Fit, Look, AllOk, Sized, Machine, PredNext, FetchedOwn;
      ghost var o, v := Mine(), Look();
      Seen();
      Shapes(c, o, v);
      MachineFront(c, o, v);
      ok := fetchPc in c.prog;
      assert this !in Parts();
      if ok {
        var ins := c.prog[fetchPc];
        FetchingIs(c, o, v, taken && ins.IsControl(), target);
        TakeIn(Fetched(ins, fetchPc, taken && ins.IsControl(), target));
      }
    }

    method TakeIn(f: Fetched)
      modifies this`front, this`fetchPc
      ensures Mine() == FetchedOwn(old(Mine()), f)
    {
      front := front + [f];
      fetchPc := PredNext(f);
    }

    /** What the machine shows of the processor. */
    lemma {:induction false} Mirrors()
      requires Valid()
      ensures Abs().phase == phase && Abs().fu == fu && Abs().front == front && Abs().fetchPc == fetchPc
      ensures Abs().head == rob.head
      ensures Abs().arf == arf[..] && Abs().main == lsq.mainMemory[..] && Abs().commits == committed
      ensures |Abs().st| == |Abs().dy| == |flight| == rob.activeCount
    {
      hide Fit, AllOk;
      Seen();
      Shapes(c, Mine(), Look());
      MachineShape(c, Mine(), Look());
      MachineFront(c, Mine(), Look());
    }

    /** The instructions in flight are those of the table, in the order of their ids. */
    lemma {:induction false} FlightIs()
      requires Valid()
      ensures Ascending(flight) && forall id :: id in instTable.Keys <==> id in flight
      ensures |Abs().st| == |Abs().dy| == |flight| && IdsAscend(Abs().dy)
      ensures forall i :: 0 <= i < |flight| ==> Abs().dy[i].id == flight[i]
    {
      hide Fit, Look, AllOk, Machine;
      Seen();
      Shapes(c, Mine(), Look());
      TagPlaces(c, Mine(), Look());
      MachineShape(c, Mine(), Look());
      MachineIds(c, Mine(), Look());
    }

    /** Only a load that is not done and has its address can start. */
    lemma {:induction false} CandidateIs(i: nat)
      requires Valid() && i < |flight| && flight[i] in instTable
      ensures var info := instTable[flight[i]];
              CanDispatchLoad(Abs(), i) ==> info.fetched.instr.IsLoad() && info.addrReady && !info.completed
    {
      hide Fit, Look, AllOk, StoresKnown;
      Seen();
      Shapes(c, Mine(), Look());
      MachineEntry(c, Mine(), Look(), i);
    }

    /** Where an instruction of the table is in flight. */
    lemma {:induction false} PlaceIn(id: nat) returns (i: nat)
      requires Valid() && id in instTable
      ensures i < |flight| && flight[i] == id && i < |Abs().dy|
    {
      hide Fit, Look, AllOk, Machine;
      Seen();
      i := PlaceOf(c, Mine(), Look(), id);
      Mirrors();
    }

    lemma {:induction false} PlaceHere(i: nat, id: nat)
      requires Valid() && i < |Abs().dy| && Abs().dy[i].id == id
      ensures i < |flight| && flight[i] == id && id in instTable && Abs().dy[i].issued == instTable[id].issued
    {
      hide Fit, Look, AllOk, Machine;
      Mirrors();
      EntryHere(i);
    }

    lemma {:induction false} EntryHere(i: nat)
      requires Valid() && i < |flight|
      ensures |Abs().st| == |Abs().dy| == |flight| && Abs().dy[i].id == flight[i] && flight[i] in instTable
      ensures Abs().dy[i].issued == instTable[flight[i]].issued
    {
      hide Fit, Look, AllOk;
      Seen();
      Shapes(c, Mine(), Look());
      MachineEntry(c, Mine(), Look(), i);
    }

    /** The instructions the reservation stations offer for issue, each once. */
    method ReadyInstructions() returns (ready: seq<nat>)
      requires Valid()
      ensures ReadyList(Abs(), ready)
    {
      hide ReorderBuffer.Valid, ReorderBuffer.Contents, LoadStoreQueue.Valid, LoadStoreQueue.Contents,
           LoadStoreQueue.Pending,
           RatCheckpoints.Valid, RatCheckpoints.Live, AllOk;
      ready := rs.CollectReadyInstructions();
      ReadyIdsAre(rs.stations[..]);
      ReadyIdsOnce(rs.stations[..]);
    }

    method QueueDrained() returns (drained: bool)
      requires Fit()
      ensures drained <==> Look().mem == map[] && Look().pending == []
    {
      hide ReorderBuffer.Valid, ReorderBuffer.Contents, ReservationStation.Valid, ReservationStation.Contents,
           RatCheckpoints.Valid, RatCheckpoints.Live, LoadStoreQueue.Valid, LoadStoreQueue.Contents,
               LoadStoreQueue.Pending;
      drained := lsq.IsDrained();
    }

    /** Nothing fetched, in flight, queued or on its way to memory, and no code at the fetch pc. */
    method IsFinished() returns (finished: bool)
      requires Valid()
      ensures finished <==> Finished(c, Abs())
    {
      hide Fit, Look, AllOk, Sized, Machine;
      Seen();
      Mirrors();
      EmptyIs(c, Mine(), Look());
      assert this !in Parts();
      var drained := QueueDrained();
      finished := fetchPc !in c.prog && front == [] && instTable == map[] && rob.activeCount == 0 && drained;
    }

    /** The next stage of the cycle. */
    ghost method EnterStage()
      requires Valid() && phase != Back
      modifies this`phase
      ensures Valid() && Abs() == NextPhase(old(Abs())) && phase == (if old(phase) == Commit then Writeback else Back)
    {
      hide Fit, Look, AllOk, Sized, Machine;
      ghost var o, v := Mine(), Look();
      Seen();
      ghost var next := if phase == Commit then Writeback else Back;
      NextStage(c, o, v, next);
      MachineFront(c, o, v);
      assert this !in Parts();
      SetPhase(next);
    }

    ghost method SetPhase(next: Phase)
      modifies this`phase
      ensures Mine() == old(Mine()).(phase := next)
    {
      phase := next;
    }
  }
}
