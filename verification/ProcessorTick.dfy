/** One cycle of the processor, stage by stage, and whole programs: every stage is a run of the machine's steps, and
  * goes exactly as far as its function in `ProcessorCycle` says. */
module ProcessorTick {
  import opened Words
  import opened Isa
  import opened Core
  import opened CoreInv
  import opened CoreRun
  import opened Golden
  import opened CoreResolve
  import opened ProcessorState
  import opened ProcessorMemory
  import opened ProcessorStores
  import opened ProcessorIssue
  import opened ProcessorCycle
  import opened ProcessorStages
  import opened Processor

  // ---------------------------------------------------------------- a processor that is on track

  /** A state the machine can be in: with registers, memory and results those of in-order execution from `a0`. */
  ghost predicate OnCourse(c: Config, a0: Arch, s: Core) { ProgOk(c) && StoresInRange(c, a0) && Tracks(c, a0, s) }

  ghost predicate Sound(p: Processor, a0: Arch)
    reads p, p.Parts()
  {
    p.Valid() && OnCourse(p.c, a0, p.Abs())
  }

  lemma {:induction false} CourseKept(c: Config, a0: Arch, s: Core, t: Core)
    requires OnCourse(c, a0, s) && Leads(c, s, t)
    ensures OnCourse(c, a0, t)
  {
    hide Reaches, Tracks;
    var run :| Reaches(c, s, run, t);
    RunTracks(c, a0, s, run, t);
  }

  /** From `s` the processor has come by steps of the machine. */
  ghost predicate CameFrom(p: Processor, a0: Arch, s: Core)
    reads p, p.Parts()
  {
    p.Valid() && OnCourse(p.c, a0, s) && Leads(p.c, s, p.Abs())
  }

  lemma {:induction false} StillSound(p: Processor, a0: Arch, s: Core)
    requires CameFrom(p, a0, s)
    ensures Sound(p, a0)
  {
    hide Processor.Valid, Processor.Abs, Tracks, Leads;
    CourseKept(p.c, a0, s, p.Abs());
  }

  // ---------------------------------------------------------------- commit

  lemma {:induction false} CommitPhase(c: Config, s: Core)
    requires CanCommit(s)
    ensures CommitHead(c, s).phase == s.phase && Apply(c, s, DoCommitHead) == CommitHead(c, s)
    ensures Enabled(c, s, DoCommitHead)
  {
  }

  /** The oldest instruction retires, if it is done. */
  method RetireOne(p: Processor, ghost a0: Arch, ghost s: Core) returns (ok: bool)
    requires CameFrom(p, a0, s) && p.phase == Commit
    modifies p, p.Parts()
    ensures CameFrom(p, a0, s) && p.phase == Commit && (ok <==> CanCommit(old(p.Abs())))
    ensures p.Abs() == if ok then CommitHead(p.c, old(p.Abs())) else old(p.Abs())
  {
    hide Processor.Valid, Processor.Abs, Tracks, Leads, Reaches, Apply, CanCommit, CommitHead;
    ghost var t := p.Abs();
    p.Mirrors();
    ok := p.CommitOne();
    p.Mirrors();
    if ok {
      CommitPhase(p.c, t);
      LeadsStep(p.c, s, t, DoCommitHead);
    }
  }

  /** Stores that may leave do. */
  method StoreStage(p: Processor, ghost a0: Arch)
    requires Sound(p, a0) && p.phase == Commit
    modifies p, p.Parts()
    ensures CameFrom(p, a0, old(p.Abs())) && p.phase == Commit && |old(p.Abs()).st| == |old(p.Abs()).dy|
    ensures p.Abs() == StoresHanded(p.c, p.Dims(), old(p.Abs()))
  {
    hide Processor.Valid, Processor.Abs, Tracks, Leads, Reaches, Enqueues, StoresHanded;
    ghost var s := p.Abs();
    ghost var run := p.ProcessStoreBuffer();
    LeadsByRun(p.c, s, run, p.Abs());
  }

  /** Stores that may leave do, and then the oldest instructions retire, as many as are done at the head, up to the
    * width. */
  method CommitStage(p: Processor, ghost a0: Arch)
    requires Sound(p, a0) && p.phase == Commit
    modifies p, p.Parts()
    ensures CameFrom(p, a0, old(p.Abs())) && p.phase == Commit && |old(p.Abs()).st| == |old(p.Abs()).dy|
    ensures p.Abs() == Retired(p.c, StoresHanded(p.c, p.Dims(), old(p.Abs())), p.width)
    ensures var done := DonePrefix(StoresHanded(p.c, p.Dims(), old(p.Abs())).dy);
            p.committed == old(p.committed) + if p.width < done then p.width else done
    ensures p.committed == old(p.committed) + p.width || !CanCommit(p.Abs())
  {
    hide Processor.Valid, Processor.Abs, OnCourse, Leads, StoresHanded, Retired, CanCommit, CommitHead, DonePrefix;
    ghost var s := p.Abs();
    p.Mirrors();
    StoreStage(p, a0);
    ghost var h := p.Abs();
    var k := 0;
    while k < p.width
      invariant 0 <= k <= p.width && CameFrom(p, a0, s) && p.phase == Commit
      invariant Retired(p.c, h, p.width) == Retired(p.c, p.Abs(), p.width - k)
    {
      RetiredOn(p.c, p.Abs(), p.width - k);
      var ok := RetireOne(p, a0, s);
      if !ok { break; }
      k := k + 1;
    }
    RetiredOn(p.c, p.Abs(), p.width - k);
    RetiredMany(p.c, p.Dims(), s, p.Abs());
    p.Mirrors();
  }

  // ---------------------------------------------------------------- write-back

  /** The branch results that are out of their units this cycle. */
  method CollectBranchResolves(p: Processor, ready: set<int>, ghost a0: Arch) returns (outputs: seq<Beat>)
    requires Sound(p, a0) && p.phase == Writeback
    ensures DistinctSlots(p.c, outputs) && CoreResolve.Offered(p.c, p.Abs(), outputs)
    ensures forall b :: b in outputs <==> b in p.Abs().fu && b.tag in ready && IsBranch(p.c, p.Abs(), b)
  {
    hide Processor.Valid, Processor.Abs, Tracks, IsBranch, Picked, DistinctSlots, CoreResolve.Offered;
    ghost var s := p.Abs();
    p.Mirrors();
    var fu := p.fu;
    outputs := [];
    var k := 0;
    assert p !in p.Parts();
    NonePicked(p.c, s, ready);
    while k < |fu|
      invariant 0 <= k <= |fu| && p.Valid() && p.Abs() == s && Picked(p.c, s, ready, fu[..k], outputs)
    {
      var b := fu[k];
      BeatFacts(p.c, a0, s, k);
      var control := p.IsControlBeat(b);
      PickOne(p.c, s, ready, fu, k, outputs);
      if b.tag in ready && control { outputs := outputs + [b]; }
      k := k + 1;
    }
    assert fu[..k] == fu;
    PickedAreOffered(p.c, s, ready, outputs);
  }

  lemma {:induction false} NonePicked(c: Config, s: Core, ready: set<int>)
    requires s.phase == Writeback && |s.st| == |s.dy|
    ensures Picked(c, s, ready, s.fu[..0], [])
  {
  }

  lemma {:induction false} PickedAreOffered(c: Config, s: Core, ready: set<int>, outputs: seq<Beat>)
    requires Picked(c, s, ready, s.fu, outputs)
    ensures DistinctSlots(c, outputs) && CoreResolve.Offered(c, s, outputs)
    ensures forall b :: b in outputs <==> b in s.fu && b.tag in ready && IsBranch(c, s, b)
  {
  }

  /** `outputs` are the branch results of `ready` among `from`, each once. */
  ghost predicate Picked(c: Config, s: Core, ready: set<int>, from: seq<Beat>, outputs: seq<Beat>) {
    && DistinctSlots(c, outputs) && s.phase == Writeback && |s.st| == |s.dy|
    && forall b :: b in outputs <==> b in from && b.tag in ready && IsBranch(c, s, b)
  }

  lemma {:induction false} PickOne(c: Config, s: Core, ready: set<int>, fu: seq<Beat>, k: nat, outputs: seq<Beat>)
    requires k < |fu| && Picked(c, s, ready, fu[..k], outputs) && 0 <= fu[k].tag < c.cap && DistinctTags(fu)
    ensures var pick := fu[k].tag in ready && IsBranch(c, s, fu[k]);
            Picked(c, s, ready, fu[..k + 1], if pick then outputs + [fu[k]] else outputs)
  {
    hide IsBranch;
    assert fu[..k + 1] == fu[..k] + [fu[k]];
    forall i | 0 <= i < |outputs| ensures outputs[i].tag != fu[k].tag {
      assert outputs[i] in fu[..k];
      var m :| 0 <= m < k && fu[..k][m] == outputs[i];
      assert fu[m] == outputs[i];
    }
  }

  /** What reachability says of a result in flight. */
  lemma {:induction false} BeatFacts(c: Config, a0: Arch, s: Core, k: nat)
    requires OnCourse(c, a0, s) && k < |s.fu|
    ensures |s.st| == |s.dy| && 0 <= s.fu[k].tag < c.cap && StillThere(c, s, s.fu[k]) && DistinctTags(s.fu)
    ensures !s.st[Age(s.head, c.cap, s.fu[k].tag)].instr.IsMem()
  {
    assert Inv(c, RunN(c, a0, s.commits), s);
    assert s.fu[k] in s.fu;
    hide AllSources, AllValues, AllLoads, MemOk, PathOk, NamesInv;
  }

  lemma {:induction false} GrantSteps(c: Config, s: Core, k: nat, i: nat)
    ensures CanBroadcast(c, s, k) ==>
              Broadcast(c, s, k).phase == s.phase && Enabled(c, s, DoBroadcast(k)) && Apply(c, s,
                  DoBroadcast(k)) == Broadcast(c, s, k)
    ensures CanBroadcastLoad(s, i) ==>
              Enabled(c, s, DoBroadcastLoad(i)) && Apply(c, s, DoBroadcastLoad(i)) == BroadcastLoad(c, s, i)
  {
  }

  /** Where a unit's result is, and whether it may be broadcast. */
  method FindResult(p: Processor, tag: int, ghost a0: Arch) returns (k: nat, ok: bool)
    requires Sound(p, a0) && p.phase == Writeback
    ensures p.Abs().fu == p.fu && k == BeatAt(p.fu, tag) && (ok <==> CanBroadcast(p.c, p.Abs(), k))
    ensures ok ==> k < |p.fu| && p.Abs().head == p.rob.head
                   && !p.Abs().st[Age(p.rob.head, p.c.cap, p.fu[k].tag)].instr.IsMem()
  {
    hide Processor.Valid, Processor.Abs, Tracks;
    p.Mirrors();
    assert p !in p.Parts();
    k := 0;
    while k < |p.fu| && p.fu[k].tag != tag
      invariant 0 <= k <= |p.fu| && forall i :: 0 <= i < k ==> p.fu[i].tag != tag
    {
      k := k + 1;
    }
    ok := false;
    if k < |p.fu| {
      BeatFacts(p.c, a0, p.Abs(), k);
      var control := p.IsControlBeat(p.fu[k]);
      ok := !control;
    }
  }

  /** A functional unit's result gets the bus, if it is still in flight and not a branch's. */
  method GrantUnit(p: Processor, tag: int, ghost a0: Arch)
    requires Sound(p, a0) && p.phase == Writeback
    modifies p, p.Parts()
    ensures CameFrom(p, a0, old(p.Abs())) && p.phase == Writeback
    ensures Granted(p.c, UnitGrant(tag), old(p.Now()), p.Now())
  {
    hide Processor.Valid, Processor.Abs, OnCourse, Leads, Broadcast, CanBroadcast, Age;
    LeadsNowhere(p.c, p.Abs());
    assert p !in p.Parts();
    var k, ok := FindResult(p, tag, a0);
    if ok { SendResult(p, k, a0); }
  }

  method SendResult(p: Processor, k: nat, ghost a0: Arch)
    requires Sound(p, a0) && p.phase == Writeback && CanBroadcast(p.c, p.Abs(), k)
    requires !p.Abs().st[Age(p.rob.head, p.c.cap, p.fu[k].tag)].instr.IsMem()
    modifies p`instTable, p`wakeups, p`fu, p.rob.buffer
    ensures CameFrom(p, a0, old(p.Abs())) && p.phase == Writeback && p.Abs() == Broadcast(p.c, old(p.Abs()), k)
  {
    hide Processor.Valid, Processor.Abs, OnCourse, Leads, Reaches, Apply, Enabled, Broadcast, CanBroadcast, Age;
    ghost var s := p.Abs();
    LeadsNowhere(p.c, s);
    GrantSteps(p.c, s, k, 0);
    p.GrantFu(k);
    p.Mirrors();
    LeadsStep(p.c, s, s, DoBroadcast(k));
  }

  /** A load that is ready gets the bus. */
  method GrantSlot(p: Processor, slot: nat, ghost a0: Arch)
    requires Sound(p, a0) && p.phase == Writeback
    modifies p, p.Parts()
    ensures CameFrom(p, a0, old(p.Abs())) && p.phase == Writeback
    ensures Granted(p.c, LoadGrant(slot), old(p.Now()), p.Now())
  {
    hide Processor.Valid, Processor.Abs, Tracks, Leads, Reaches, Apply, Enabled, BroadcastLoad, LoadGranted;
    ghost var s := p.Abs();
    LeadsNowhere(p.c, s);
    if slot >= p.lsq.queue.Length || !p.lsq.queue[slot].valid || !Offers(p.lsq.queue[slot].body) {
      NotOffered(p.c, slot, p.Now());
      return;
    }
    ghost var i := p.GrantLoad(slot);
    GrantSteps(p.c, s, 0, i);
    LeadsStep(p.c, s, s, DoBroadcastLoad(i));
  }

  lemma {:induction false} NotOffered(c: Config, slot: nat, a: Glance)
    requires !OffersSlot(a.queue, slot)
    ensures LoadGranted(c, slot, a, a)
  {
  }

  method GrantOne(p: Processor, g: Grant, ghost a0: Arch)
    requires Sound(p, a0) && p.phase == Writeback
    modifies p, p.Parts()
    ensures CameFrom(p, a0, old(p.Abs())) && p.phase == Writeback && Granted(p.c, g, old(p.Now()), p.Now())
  {
    hide Processor.Valid, Processor.Abs, Processor.Now, OnCourse, Leads, Granted;
    match g
    case UnitGrant(tag) => GrantUnit(p, tag, a0);
    case LoadGrant(slot) => GrantSlot(p, slot, a0);
  }

  lemma {:induction false} Onward(p: Processor, a0: Arch, s: Core, t: Core)
    requires OnCourse(p.c, a0, s) && Leads(p.c, s, t) && CameFrom(p, a0, t)
    ensures CameFrom(p, a0, s) && Sound(p, a0)
  {
    hide Processor.Valid, Processor.Abs, OnCourse, Leads;
    LeadsOn(p.c, s, t, p.Abs());
    StillSound(p, a0, s);
  }

  /** Memory's cycle, with all that is due. */
  method MemoryCycle(p: Processor, ghost a0: Arch)
    requires Sound(p, a0) && p.phase == Writeback
    modifies p, p.Parts()
    ensures CameFrom(p, a0, old(p.Abs())) && p.phase == Writeback
    ensures MemoryCycled(p.c, p.Dims(), old(p.Now()), p.Now())
  {
    hide Processor.Valid, Processor.Abs, Processor.Now, OnCourse, Leads, Reaches, FillsAndDrains, MemoryCycled;
    ghost var s := p.Abs();
    ghost var run := p.TickMemory();
    LeadsByRun(p.c, s, run, p.Abs());
  }

  /** The branch results that are out resolve, all of them, oldest first. */
  method ResolveBus(p: Processor, ready: set<int>, ghost a0: Arch) returns (recoveries: nat, ghost todo: seq<Beat>)
    requires Sound(p, a0) && p.phase == Writeback
    modifies p, p.Parts()
    ensures CameFrom(p, a0, old(p.Abs())) && p.phase == Writeback
    ensures OnTheBus(p.c, old(p.Abs()), ready, todo) && p.Abs() == ResolveAll(p.c, old(p.Abs()), todo).core
    ensures recoveries == if FirstWrong(p.c, old(p.Abs()), todo) < |todo| then 1 else 0
    ensures forall b :: b in todo ==> b !in p.Abs().fu
  {
    hide Processor.Valid, Processor.Abs, OnCourse, Leads, Reaches, ResolveAll, FirstWrong, OldestFirst, DistinctSlots,
         CoreResolve.Offered, IsBranch;
    assert p !in p.Parts();
    var outputs := CollectBranchResolves(p, ready, a0);
    ghost var t := p.Abs();
    p.Mirrors();
    recoveries, todo := p.ResolveStage(outputs);
    Resolved(p.c, t, todo);
    SameMembers(todo, outputs);
    BusTaken(p.c, a0, t, ready, todo);
    p.Mirrors();
  }

  /** In a reachable state all of them leave their units. */
  lemma {:induction false} BusTaken(c: Config, a0: Arch, s: Core, outputs: set<int>, todo: seq<Beat>)
    requires OnCourse(c, a0, s) && s.phase == Writeback && OnTheBus(c, s, outputs, todo)
    ensures forall b :: b in todo ==> b !in ResolveAll(c, s, todo).core.fu
  {
    hide OldestFirst, IsBranch, ResolveAll;
    BusFacts(c, a0, s);
    hide OnCourse;
    AllTaken(c, s, todo);
  }

  lemma {:induction false} BusFacts(c: Config, a0: Arch, s: Core)
    requires OnCourse(c, a0, s)
    ensures |s.st| == |s.dy| && OwnTags(s.fu) && (s.fu != [] ==> s.head < c.cap)
    ensures forall b :: b in s.fu ==> 0 <= b.tag < c.cap
  {
    assert Inv(c, RunN(c, a0, s.commits), s);
    hide AllSources, AllValues, AllLoads, MemOk, PathOk, NamesInv;
    if s.fu != [] { assert s.fu[0] in s.fu; }
  }

  lemma {:induction false} SameMembers<T>(a: seq<T>, b: seq<T>)
    requires multiset(a) == multiset(b)
    ensures forall x :: x in a <==> x in b
  {
    forall x ensures x in a <==> x in b {
      assert x in a <==> x in multiset(a);
      assert x in b <==> x in multiset(b);
    }
  }

  method GrantAll(p: Processor, grants: seq<Grant>, ghost a0: Arch) returns (ghost bus: seq<Glance>)
    requires Sound(p, a0) && p.phase == Writeback
    modifies p, p.Parts()
    ensures CameFrom(p, a0, old(p.Abs())) && p.phase == Writeback
    ensures GrantedAll(p.c, grants, bus) && bus[0] == old(p.Now()) && bus[|grants|] == p.Now()
  {
    hide Processor.Valid, Processor.Abs, Processor.Now, OnCourse, Leads, Granted;
    ghost var s := p.Abs();
    LeadsNowhere(p.c, s);
    var k := 0;
    bus := [p.Now()];
    while k < |grants|
      invariant 0 <= k <= |grants| && CameFrom(p, a0, s) && p.phase == Writeback
      invariant GrantedAll(p.c, grants[..k], bus) && bus[0] == old(p.Now()) && bus[k] == p.Now()
    {
      ghost var t, was := p.Abs(), p.Now();
      StillSound(p, a0, s);
      GrantOne(p, grants[k], a0);
      Onward(p, a0, s, t);
      GrantOneMore(p.c, grants, k, bus, p.Now());
      bus := bus + [p.Now()];
      k := k + 1;
    }
    assert grants[..k] == grants;
  }

  lemma {:induction false} GrantOneMore(c: Config, grants: seq<Grant>, k: nat, bus: seq<Glance>, b: Glance)
    requires k < |grants| && GrantedAll(c, grants[..k], bus) && Granted(c, grants[k], bus[k], b)
    ensures GrantedAll(c, grants[..k + 1], bus + [b])
  {
    hide Granted;
    var more := bus + [b];
    forall i | 0 <= i < k + 1 ensures Granted(c, grants[..k + 1][i], more[i], more[i + 1]) {
      if i < k {
        assert Granted(c, grants[..k][i], bus[i], bus[i + 1]);
      }
    }
  }

  /** Memory has its cycle, all branch results resolve oldest first, and granted results are broadcast. */
  method WritebackStage(p: Processor, o: Cycle, ghost a0: Arch) returns (recoveries: nat, ghost x: Trace)
    requires Sound(p, a0) && p.phase == Writeback
    modifies p, p.Parts()
    ensures CameFrom(p, a0, old(p.Abs())) && p.phase == Writeback
    ensures WritebackIs(p.c, p.Dims(), o, x) && x.entered == old(p.Now()) && x.bus[|o.grants|] == p.Now()
    ensures recoveries == if FirstWrong(p.c, x.memory.core, x.todo) < |x.todo| then 1 else 0
  {
    hide Processor.Valid, Processor.Abs, OnCourse, Leads, MemoryCycled, OnTheBus, Granted, ResolveAll, FirstWrong;
    ghost var s, entered := p.Abs(), p.Now();
    MemoryCycle(p, a0);
    StillSound(p, a0, s);
    ghost var t, memory := p.Abs(), p.Now();
    ghost var todo;
    recoveries, todo := ResolveBus(p, o.outputs, a0);
    Onward(p, a0, s, t);
    t := p.Abs();
    ghost var bus := GrantAll(p, o.grants, a0);
    Onward(p, a0, s, t);
    x := Trace(entered, memory, todo, bus, []);
  }

  lemma {:induction false} Resolved(c: Config, s: Core, todo: seq<Beat>)
    ensures Leads(c, s, ResolveAll(c, s, todo).core) && ResolveAll(c, s, todo).core.phase == s.phase
  {
    ResolveAllRuns(c, s, todo);
    hide ResolveAll, Reaches;
    LeadsByRun(c, s, ResolveAll(c, s, todo).run, ResolveAll(c, s, todo).core);
  }

  // ---------------------------------------------------------------- dispatch

  lemma {:induction false} BackSteps(c: Config, s: Core, i: nat)
    ensures CanComputeAddr(s, i) ==>
              Enabled(c, s, DoComputeAddr(i)) && Apply(c, s, DoComputeAddr(i)) == ComputeAddr(s, i)
    ensures CanIssue(s, i) ==>
              Enabled(c, s, DoIssue(i)) && Apply(c, s, DoIssue(i)) == Issue(c, s, i)
              && Issue(c, s, i).rs == s.rs - {s.dy[i].id}
    ensures CanDispatchLoad(s, i) ==>
              Enabled(c, s, DoDispatchLoad(i)) && Apply(c, s, DoDispatchLoad(i)) == DispatchLoad(c, s, i)
    ensures CanRename(c, s) ==>
              Enabled(c, s, DoRename) && Apply(c, s, DoRename) == Rename(c, s) && Rename(c, s).phase == s.phase
  {
  }

  /** Every instruction that has become able to gets its address. */
  method AddressScan(p: Processor, ghost a0: Arch)
    requires Sound(p, a0) && p.phase == Back
    modifies p, p.Parts()
    ensures CameFrom(p, a0, old(p.Abs())) && p.phase == Back
    ensures |old(p.Abs()).st| == |old(p.Abs()).dy| && p.Abs() == Addressed(old(p.Abs()))
  {
    hide Processor.Valid, Processor.Abs, OnCourse, Leads, Addressed, AddressedBut;
    ghost var s := p.Abs();
    LeadsNowhere(p.c, s);
    p.Mirrors();
    p.FlightIs();
    var left := p.instTable.Keys;
    ScanEnds(s, left);
    while left != {}
      invariant left <= p.instTable.Keys && CameFrom(p, a0, s) && p.phase == Back && p.Abs() == AddressedBut(s, left)
      decreases |left|
    {
      var id :| id in left;
      ScanAt(p, id, left, a0, s);
      left := left - {id};
    }
  }

  /** The scan at one instruction. */
  method ScanAt(p: Processor, id: nat, ghost left: set<nat>, ghost a0: Arch, ghost s: Core)
    requires CameFrom(p, a0, s) && p.phase == Back && id in left && id in p.instTable && |s.st| == |s.dy|
    requires IdsAscend(s.dy) && p.Abs() == AddressedBut(s, left)
    modifies p, p.Parts()
    ensures CameFrom(p, a0, s) && p.phase == Back && p.instTable.Keys == old(p.instTable).Keys
    ensures p.Abs() == AddressedBut(s, left - {id})
  {
    hide Processor.Valid, Processor.Abs, OnCourse, Leads, ComputeAddr, CanComputeAddr, Enabled, Apply, AddressedBut;
    ghost var t := p.Abs();
    ghost var i := p.PlaceIn(id);
    p.FlightIs();
    SameId(s, left, i);
    ScanOne(s, left, i);
    var computed := p.ComputeAddress(id, i);
    BackSteps(p.c, t, i);
    if computed { LeadsStep(p.c, s, t, DoComputeAddr(i)); }
    p.RefreshData(id);
  }

  lemma {:induction false} SameId(s: Core, left: set<nat>, i: nat)
    requires |s.st| == |s.dy| && i < |s.dy|
    ensures |AddressedBut(s, left).dy| == |s.dy| && AddressedBut(s, left).dy[i].id == s.dy[i].id
  {
  }

  /** What reachability says of a ready instruction in a station. */
  lemma {:induction false} StationFacts(c: Config, a0: Arch, s: Core, id: nat) returns (i: nat)
    requires OnCourse(c, a0, s) && InStation(s, id) && s.phase == Back
    ensures i < |s.dy| && s.dy[i].id == id && CanIssue(s, i) && !s.dy[i].issued
  {
    assert Inv(c, RunN(c, a0, s.commits), s);
    hide AllSources, AllValues, AllLoads, MemOk, PathOk, FuOk, CkOk, CurrentMap;
    i :| 0 <= i < |s.dy| && s.dy[i].id == id;
  }

  /** A ready instruction goes to its unit, if that has room. It is always in the table and not issued before. */
  method IssueInstruction(p: Processor, id: nat, room: set<nat>, ghost a0: Arch)
    requires Sound(p, a0) && p.phase == Back && InStation(p.Abs(), id)
    modifies p, p.Parts()
    ensures CameFrom(p, a0, old(p.Abs())) && p.phase == Back
    ensures p.Abs() == IssuedIf(p.c, old(p.Abs()), id, room)
    ensures forall x :: x != id && InStation(old(p.Abs()), x) ==> InStation(p.Abs(), x)
  {
    hide Processor.Valid, Processor.Abs, OnCourse, Leads, Enabled, Apply, Issue, CanIssue;
    ghost var s := p.Abs();
    LeadsNowhere(p.c, s);
    p.Mirrors();
    ghost var i := StationFacts(p.c, a0, s, id);
    p.PlaceHere(i, id);
    p.FlightIs();
    PlaceIs(s.dy, i);
    if id !in p.instTable || p.instTable[id].issued {
      assert false;
    } else if id in room {
      BackSteps(p.c, s, i);
      p.IssueOne(id, i);
      LeadsStep(p.c, s, s, DoIssue(i));
    }
  }

  /** Every ready instruction goes to its unit if that has room, in the order of the stations. */
  method IssueReady(p: Processor, room: set<nat>, ghost a0: Arch) returns (ghost order: seq<nat>)
    requires Sound(p, a0) && p.phase == Back
    modifies p, p.Parts()
    ensures CameFrom(p, a0, old(p.Abs())) && p.phase == Back
    ensures ReadyList(old(p.Abs()), order) && p.Abs() == IssueAll(p.c, old(p.Abs()), order, room)
  {
    hide Processor.Valid, Processor.Abs, OnCourse, Leads, InStation, IssueAll, IssuedIf;
    ghost var s := p.Abs();
    LeadsNowhere(p.c, s);
    assert p !in p.Parts();
    var ready := p.ReadyInstructions();
    order := ready;
    var k := 0;
    assert ready[0..] == ready;
    while k < |ready|
      invariant 0 <= k <= |ready| && CameFrom(p, a0, s) && p.phase == Back
      invariant forall m :: k <= m < |ready| ==> InStation(p.Abs(), ready[m])
      invariant IssueAll(p.c, s, ready, room) == IssueAll(p.c, p.Abs(), ready[k..], room)
    {
      ghost var t := p.Abs();
      StillSound(p, a0, s);
      IssueOneOf(p.c, t, ready, k, room);
      IssueInstruction(p, ready[k], room, a0);
      Onward(p, a0, s, t);
      k := k + 1;
    }
    assert ready[k..] == [];
    IssueNone(p.c, p.Abs(), room);
  }

  /** The smallest id of a set. */
  method Least(ids: set<nat>) returns (id: nat)
    requires ids != {}
    ensures id in ids && forall x :: x in ids ==> id <= x
  {
    id :| id in ids;
    var left := ids - {id};
    while left != {}
      invariant left < ids && id in ids && forall x :: x in ids && x !in left ==> id <= x
      decreases |left|
    {
      var x :| x in left;
      if x < id { id := x; }
      left := left - {x};
    }
  }

  /** Loads with an address are offered to the queue, oldest first, until as many as the width have started. */
  method DispatchLoads(p: Processor, ghost a0: Arch)
    requires Sound(p, a0) && p.phase == Back
    modifies p, p.Parts()
    ensures CameFrom(p, a0, old(p.Abs())) && p.phase == Back
    ensures p.Abs() == LoadsStarted(p.c, p.lsq.storeForwarding, old(p.Abs()), 0, p.width)
  {
    hide Processor.Valid, Processor.Abs, OnCourse, Leads, LoadsStarted, LeftFrom, Ascending;
    ghost var s, forwarding, flight := p.Abs(), p.lsq.storeForwarding, p.flight;
    LeadsNowhere(p.c, s);
    InOrder(p);
    var left, started := p.instTable.Keys, 0;
    ghost var i := 0;
    while left != {} && started < p.width
      invariant left <= p.instTable.Keys && CameFrom(p, a0, s) && p.phase == Back && started <= p.width
      invariant p.flight == flight && i <= |flight| && left == LeftFrom(flight, i)
      invariant LoadsStarted(p.c, forwarding, s, 0, p.width)
                  == LoadsStarted(p.c, forwarding, p.Abs(), i, p.width - started)
      decreases |left|
    {
      var id, ok := OfferOldest(p, left, i, p.width - started, a0, s);
      if ok { started := started + 1; }
      left := left - {id};
      i := i + 1;
    }
    Lengths(p);
    NoneLeftFrom(flight, i);
    StartOne(p.c, forwarding, p.Abs(), i, p.width - started);
  }

  /** Offers the oldest load left. */
  method OfferOldest(p: Processor, left: set<nat>, ghost i: nat, ghost n: nat, ghost a0: Arch, ghost s: Core)
    returns (id: nat, ok: bool)
    requires CameFrom(p, a0, s) && p.phase == Back && left != {} && left <= p.instTable.Keys && n > 0
    requires i <= |p.flight| && Ascending(p.flight) && left == LeftFrom(p.flight, i)
    modifies p.lsq.queue
    ensures CameFrom(p, a0, s) && p.phase == Back && p.flight == old(p.flight) && p.instTable == old(p.instTable)
    ensures id in left && i < |p.flight| && left - {id} == LeftFrom(p.flight, i + 1)
    ensures LoadsStarted(p.c, p.lsq.storeForwarding, old(p.Abs()), i, n)
              == LoadsStarted(p.c, p.lsq.storeForwarding, p.Abs(), i + 1, if ok then n - 1 else n)
  {
    hide Processor.Valid, Processor.Abs, OnCourse, Leads, LoadsStarted, LeftFrom, Ascending, CanStart, DispatchLoad;
    assert p !in p.Parts();
    id := Least(left);
    NextLeft(p.flight, i, id);
    Lengths(p);
    StartOne(p.c, p.lsq.storeForwarding, p.Abs(), i, n);
    ok := OfferLoad(p, id, i, a0, s);
  }

  lemma {:induction false} Lengths(p: Processor)
    requires p.Valid()
    ensures |p.Abs().dy| == |p.flight|
  {
    hide Processor.Valid, Processor.Abs;
    p.FlightIs();
  }

  /** The table's instructions, oldest first, are those in flight. */
  lemma {:induction false} InOrder(p: Processor)
    requires p.Valid()
    ensures Ascending(p.flight) && LeftFrom(p.flight, 0) == p.instTable.Keys
  {
    hide Processor.Valid, Processor.Abs, LeftFrom;
    p.FlightIs();
    AllLeft(p.flight, p.instTable.Keys);
  }

  /** Offers one load to the queue, if its address is known. */
  method OfferLoad(p: Processor, id: nat, ghost i: nat, ghost a0: Arch, ghost s: Core) returns (ok: bool)
    requires CameFrom(p, a0, s) && p.phase == Back && i < |p.flight| && p.flight[i] == id && id in p.instTable
    modifies p.lsq.queue
    ensures CameFrom(p, a0, s) && p.phase == Back && p.flight == old(p.flight) && p.instTable == old(p.instTable)
    ensures ok <==> CanStart(p.c, p.lsq.storeForwarding, old(p.Abs()), i)
    ensures p.Abs() == if ok then DispatchLoad(p.c, old(p.Abs()), i) else old(p.Abs())
  {
    hide Processor.Valid, Processor.Abs, OnCourse, Leads, DispatchLoad, CanDispatchLoad, Enabled, Apply;
    ghost var t := p.Abs();
    p.CandidateIs(i);
    var info := p.instTable[id];
    ok := false;
    if info.fetched.instr.IsLoad() && info.addrReady && !info.completed {
      ok := p.DispatchOneLoad(id, i);
      BackSteps(p.c, t, i);
      if ok { LeadsStep(p.c, s, t, DoDispatchLoad(i)); }
    }
  }

  lemma {:induction false} NextLeft(flight: seq<nat>, i: nat, id: nat)
    requires i <= |flight| && Ascending(flight) && LeftFrom(flight, i) != {} && id in LeftFrom(flight, i)
    requires forall x :: x in LeftFrom(flight, i) ==> id <= x
    ensures i < |flight| && id == flight[i] && LeftFrom(flight, i + 1) == LeftFrom(flight, i) - {id}
  {
    OldestLeft(flight, i);
  }

  lemma {:induction false} NoneLeftFrom(flight: seq<nat>, i: nat)
    requires i <= |flight|
    ensures LeftFrom(flight, i) == {} ==> i == |flight|
  {
    assert i < |flight| ==> flight[i] in LeftFrom(flight, i);
  }

  // ---------------------------------------------------------------- rename and fetch

  /** Up to the width, waiting instructions are renamed in order, as long as they fit. */
  method IssueStage(p: Processor, ghost a0: Arch)
    requires Sound(p, a0) && p.phase == Back
    modifies p, p.Parts()
    ensures CameFrom(p, a0, old(p.Abs())) && p.phase == Back && |old(p.Abs()).st| == |old(p.Abs()).dy|
    ensures p.Abs() == RenamedUpTo(p.c, p.Dims(), old(p.Abs()), p.width)
  {
    hide Processor.Valid, Processor.Abs, OnCourse, Leads, RenamedUpTo, NextFits;
    ghost var s := p.Abs();
    LeadsNowhere(p.c, s);
    p.Mirrors();
    var k := 0;
    while k < p.width && p.front != []
      invariant 0 <= k <= p.width && CameFrom(p, a0, s) && p.phase == Back && |p.Abs().st| == |p.Abs().dy|
      invariant RenamedUpTo(p.c, p.Dims(), s, p.width) == RenamedUpTo(p.c, p.Dims(), p.Abs(), p.width - k)
    {
      RenameOneOf(p.c, p.Dims(), p.Abs(), p.width - k);
      var ok := RenameNext(p, a0, s);
      if !ok { break; }
      k := k + 1;
    }
    p.Mirrors();
    RenameOneOf(p.c, p.Dims(), p.Abs(), p.width - k);
  }

  method RenameNext(p: Processor, ghost a0: Arch, ghost s: Core) returns (ok: bool)
    requires CameFrom(p, a0, s) && p.phase == Back && p.front != []
    modifies p, p.Parts()
    ensures CameFrom(p, a0, s) && p.phase == Back && |p.Abs().st| == |p.Abs().dy|
    ensures |old(p.Abs()).st| == |old(p.Abs()).dy| && (ok <==> NextFits(p.c, p.Dims(), old(p.Abs())))
    ensures p.Abs() == if ok then Rename(p.c, old(p.Abs())) else old(p.Abs())
  {
    hide Processor.Valid, Processor.Abs, OnCourse, Leads, Enabled, Apply, Rename, CanRename, QueuedIds;
    ghost var t := p.Abs();
    p.Mirrors();
    ok := p.TryRenameOne();
    BackSteps(p.c, t, 0);
    p.Mirrors();
    if ok { LeadsStep(p.c, s, t, DoRename); }
  }

  /** Fetches along the guesses while there is code. */
  method FetchStage(p: Processor, guesses: seq<Guess>, ghost a0: Arch)
    requires Sound(p, a0) && p.phase == Back
    modifies p, p.Parts()
    ensures CameFrom(p, a0, old(p.Abs())) && p.phase == Back
    ensures p.Abs() == FetchedAlong(p.c, old(p.Abs()), guesses)
  {
    hide Processor.Valid, Processor.Abs, OnCourse, Leads, FetchedAlong, Fetch;
    ghost var s := p.Abs();
    LeadsNowhere(p.c, s);
    var k := 0;
    assert guesses[0..] == guesses;
    while k < |guesses|
      invariant 0 <= k <= |guesses| && CameFrom(p, a0, s) && p.phase == Back
      invariant FetchedAlong(p.c, s, guesses) == FetchedAlong(p.c, p.Abs(), guesses[k..])
    {
      FetchOneOf(p.c, p.Abs(), guesses, k);
      var ok := FetchNext(p, guesses[k], a0, s);
      if !ok { break; }
      k := k + 1;
    }
    FetchOneOf(p.c, p.Abs(), guesses, k);
  }

  method FetchNext(p: Processor, g: Guess, ghost a0: Arch, ghost s: Core) returns (ok: bool)
    requires CameFrom(p, a0, s) && p.phase == Back
    modifies p, p.Parts()
    ensures CameFrom(p, a0, s) && p.phase == Back && (ok <==> CanFetch(p.c, old(p.Abs()), false))
    ensures ok ==> var taken := g.taken && p.c.prog[old(p.Abs()).fetchPc].IsControl();
                   p.Abs() == Fetch(p.c, old(p.Abs()), taken, g.target)
    ensures !ok ==> p.Abs() == old(p.Abs())
  {
    hide Processor.Valid, Processor.Abs, OnCourse, Leads, Fetch, Enabled, Apply;
    ghost var t, pc := p.Abs(), p.fetchPc;
    p.Mirrors();
    ok := p.FetchOne(g.taken, g.target);
    if ok {
      FetchSteps(p.c, t, g.taken && p.c.prog[pc].IsControl(), g.target);
      LeadsStep(p.c, s, t, DoFetch(g.taken && p.c.prog[pc].IsControl(), g.target));
    }
  }

  lemma {:induction false} FetchSteps(c: Config, s: Core, taken: bool, target: Pc)
    requires CanFetch(c, s, taken)
    ensures Enabled(c, s, DoFetch(taken, target)) && Apply(c, s, DoFetch(taken, target)) == Fetch(c, s, taken, target)
  {
  }

  // ---------------------------------------------------------------- a cycle, and a program

  lemma {:induction false} CycleSteps(c: Config, s: Core)
    ensures CanStartCycle(s) ==>
              Enabled(c, s, DoStartCycle) && Apply(c, s, DoStartCycle) == StartCycle(s) && StartCycle(s).phase == Commit
    ensures s.phase != Back ==> Enabled(c, s, DoNextPhase) && Apply(c, s, DoNextPhase) == NextPhase(s)
  {
  }

  method BeginCycle(p: Processor, ghost a0: Arch)
    requires Sound(p, a0) && p.phase == Back
    modifies p, p.Parts()
    ensures CameFrom(p, a0, old(p.Abs())) && p.phase == Commit
    ensures CanStartCycle(old(p.Abs())) && p.Abs() == StartCycle(old(p.Abs()))
  {
    hide Processor.Valid, Processor.Abs, OnCourse, Leads, StartCycle, CanStartCycle, Enabled, Apply;
    ghost var s := p.Abs();
    LeadsNowhere(p.c, s);
    p.ApplyWakeups();
    CycleSteps(p.c, s);
    LeadsStep(p.c, s, s, DoStartCycle);
    p.Mirrors();
  }

  ghost method NextStage(p: Processor, a0: Arch)
    requires Sound(p, a0) && p.phase != Back
    modifies p, p.Parts()
    ensures CameFrom(p, a0, old(p.Abs())) && p.phase == (if old(p.phase) == Commit then Writeback else Back)
    ensures p.Abs() == NextPhase(old(p.Abs()))
  {
    hide Processor.Valid, Processor.Abs, OnCourse, Leads, NextPhase, Enabled, Apply;
    ghost var s := p.Abs();
    LeadsNowhere(p.c, s);
    p.Mirrors();
    CycleSteps(p.c, s);
    p.EnterStage();
    LeadsStep(p.c, s, s, DoNextPhase);
  }

  /** The first quarter of a cycle: wake-ups and commit. */
  method TickCommit(p: Processor, ghost a0: Arch)
    requires Sound(p, a0) && p.phase == Back
    modifies p, p.Parts()
    ensures CameFrom(p, a0, old(p.Abs())) && p.phase == Writeback
    ensures CommitIs(p.c, p.Dims(), old(p.Abs()), p.Abs())
  {
    hide Processor.Valid, Processor.Abs, OnCourse, Leads, StoresHanded, Retired, StartCycle, CanStartCycle, NextPhase,
         DonePrefix, CanCommit;
    ghost var s := p.Abs();
    BeginCycle(p, a0);
    StillSound(p, a0, s);
    ghost var t := p.Abs();
    CommitStage(p, a0);
    Onward(p, a0, s, t);
    t := p.Abs();
    NextStage(p, a0);
    Onward(p, a0, s, t);
  }

  /** The first half: wake-ups, commit, write-back. At most one branch recovers. */
  method TickResults(p: Processor, o: Cycle, ghost a0: Arch) returns (recoveries: nat, ghost x: Trace)
    requires Sound(p, a0) && p.phase == Back
    modifies p, p.Parts()
    ensures CameFrom(p, a0, old(p.Abs())) && p.phase == Back
    ensures CommitIs(p.c, p.Dims(), old(p.Abs()), x.entered.core) && WritebackIs(p.c, p.Dims(), o, x)
    ensures p.Abs() == NextPhase(x.bus[|o.grants|].core)
    ensures recoveries == if FirstWrong(p.c, x.memory.core, x.todo) < |x.todo| then 1 else 0
  {
    hide Processor.Valid, Processor.Abs, OnCourse, Leads, CommitIs, MemoryCycled, OnTheBus, Granted, ResolveAll,
         FirstWrong, NextPhase;
    ghost var s := p.Abs();
    TickCommit(p, a0);
    StillSound(p, a0, s);
    ghost var t := p.Abs();
    recoveries, x := WritebackStage(p, o, a0);
    Onward(p, a0, s, t);
    t := p.Abs();
    NextStage(p, a0);
    Onward(p, a0, s, t);
  }

  /** The second half: dispatch, rename, fetch. */
  method TickFront(p: Processor, o: Cycle, ghost a0: Arch) returns (ghost ready: seq<nat>)
    requires Sound(p, a0) && p.phase == Back
    modifies p, p.Parts()
    ensures CameFrom(p, a0, old(p.Abs())) && p.phase == Back
    ensures FrontIs(p.c, p.Dims(), o, ready, old(p.Abs()), p.Abs())
  {
    hide Processor.Valid, Processor.Abs, OnCourse, Leads, Addressed, ReadyList, IssueAll, LoadsStarted, RenamedUpTo,
         FetchedAlong;
    ghost var s := p.Abs();
    AddressScan(p, a0);
    StillSound(p, a0, s);
    ghost var t := p.Abs();
    ready := IssueReady(p, o.room, a0);
    Onward(p, a0, s, t);
    t := p.Abs();
    DispatchLoads(p, a0);
    Onward(p, a0, s, t);
    t := p.Abs();
    IssueStage(p, a0);
    Onward(p, a0, s, t);
    t := p.Abs();
    FetchStage(p, o.guesses, a0);
    Onward(p, a0, s, t);
  }

  /** One cycle does what its stages' functions say, is a run of the machine's steps, and recovers at most once: exactly
    * if a branch result on the bus was predicted wrongly. */
  method Tick(p: Processor, o: Cycle, ghost a0: Arch) returns (recoveries: nat, ghost x: Trace)
    requires Sound(p, a0) && p.phase == Back
    modifies p, p.Parts()
    ensures Sound(p, a0) && Leads(p.c, old(p.Abs()), p.Abs()) && p.phase == Back
    ensures CycleIs(p.c, p.Dims(), o, x, old(p.Abs()), p.Abs())
    ensures recoveries == if FirstWrong(p.c, x.memory.core, x.todo) < |x.todo| then 1 else 0
  {
    hide Processor.Valid, Processor.Abs, OnCourse, Leads, CommitIs, MemoryCycled, OnTheBus, Granted, ResolveAll,
         FirstWrong, NextPhase, FrontIs;
    ghost var s := p.Abs();
    recoveries, x := TickResults(p, o, a0);
    StillSound(p, a0, s);
    ghost var t := p.Abs();
    ghost var ready := TickFront(p, o, a0);
    Onward(p, a0, s, t);
    x := x.(ready := ready);
  }

  /** A state and the next, a cycle later. */
  ghost predicate OneCycle(c: Config, z: Sizes, o: Cycle, s: Core, t: Core) { exists x :: CycleIs(c, z, o, x, s, t) }

  /** One cycle after another, none of them begun in a finished state. */
  ghost predicate Cycles(c: Config, z: Sizes, cycles: seq<Cycle>, history: seq<Core>) {
    && 0 < |history| <= |cycles| + 1
    && (forall k :: 0 <= k < |history| - 1 ==>
          !Finished(c, history[k]) && OneCycle(c, z, cycles[k], history[k], history[k + 1]))
  }

  lemma {:induction false} CyclesGrow(c: Config, z: Sizes, cycles: seq<Cycle>, history: seq<Core>, x: Trace, t: Core)
    requires Cycles(c, z, cycles, history) && |history| <= |cycles|
    requires var k := |history| - 1; !Finished(c, history[k]) && CycleIs(c, z, cycles[k], x, history[k], t)
    ensures Cycles(c, z, cycles, history + [t])
  {
    hide CycleIs, Finished;
    var more, last := history + [t], |history| - 1;
    assert OneCycle(c, z, cycles[last], history[last], t);
    forall k | 0 <= k < |more| - 1
      ensures !Finished(c, more[k]) && OneCycle(c, z, cycles[k], more[k], more[k + 1])
    {
    }
  }

  /** Ticks until the program has finished or the given cycles are used up. */
  method Run(p: Processor, cycles: seq<Cycle>, ghost a0: Arch) returns (finished: bool, ghost history: seq<Core>)
    requires Sound(p, a0) && p.phase == Back
    modifies p, p.Parts()
    ensures Sound(p, a0) && Leads(p.c, old(p.Abs()), p.Abs()) && (finished <==> Finished(p.c, p.Abs()))
    ensures Cycles(p.c, p.Dims(), cycles, history) && history[0] == old(p.Abs())
    ensures history[|history| - 1] == p.Abs() && (finished || |history| == |cycles| + 1)
  {
    hide Processor.Valid, Processor.Abs, OnCourse, Leads, Finished, CycleIs, FirstWrong, OneCycle;
    ghost var s := p.Abs();
    LeadsNowhere(p.c, s);
    assert p !in p.Parts();
    var k := 0;
    history := [s];
    while k < |cycles|
      invariant 0 <= k <= |cycles| && Sound(p, a0) && p.phase == Back && Leads(p.c, s, p.Abs())
      invariant Cycles(p.c, p.Dims(), cycles, history) && |history| == k + 1
      invariant history[0] == s && history[k] == p.Abs()
    {
      ghost var t := p.Abs();
      finished := p.IsFinished();
      if finished { return; }
      ghost var x;
      var recoveries;
      recoveries, x := Tick(p, cycles[k], a0);
      LeadsOn(p.c, s, t, p.Abs());
      CyclesGrow(p.c, p.Dims(), cycles, history, x, p.Abs());
      history := history + [p.Abs()];
      k := k + 1;
    }
    finished := p.IsFinished();
  }

  lemma {:induction false} StartsOnCourse(c: Config, image: seq<Lanes>, pc: Pc)
    requires Domain(c, image, pc)
    ensures OnCourse(c, Reset(c, image, pc), Init(c, image, pc))
  {
    InitTracks(c, image, pc);
  }

  /** A machine reached from reset has the golden registers, and once finished the golden memory too. */
  lemma {:induction false} LeadsToGolden(c: Config, words: seq<Word>, pc: Pc, t: Core, n: nat)
    requires GoldenDomain(c, words, pc) && Leads(c, Init(c, Image(words), pc), t) && n >= t.commits
    ensures t.arf == GoldenN(c.prog, GoldenReset(c, words, pc), t.commits).regs
    ensures Finished(c, t) ==>
              var g := GoldenN(c.prog, GoldenReset(c, words, pc), n);
              && t.arf == g.regs && g.pc !in c.prog && |g.mem| == MEMORY_WORDS
              && forall w :: 0 <= w < MEMORY_WORDS ==> FromLanes(MainRead(t.main, w)) == g.mem[w]
  {
    hide Reaches, GoldenDomain;
    var run :| Reaches(c, Init(c, Image(words), pc), run, t);
    CommitsMatchGolden(c, words, pc, run, t);
    if Finished(c, t) { FinishMatchesGolden(c, words, pc, run, t, n); }
  }

  /** Runs a program from reset: the registers are always those of the golden model after as many instructions as have
    * committed, and when the processor finishes, registers and memory are the golden model's final ones. */
  method Simulate(c: Config, width: nat, lsqSize: nat, rsSize: nat, sbDepth: int, memLatency: nat, fwdLatency: nat,
                  forwarding: bool, memPorts: nat, memory: array<Lanes>, pc: Pc, cycles: seq<Cycle>,
                      ghost words: seq<Word>)
    returns (p: Processor, finished: bool, ghost history: seq<Core>)
    requires GoldenDomain(c, words, pc) && c.cap > 0 && memory.Length == MEMORY_WORDS && memory[..] == Image(words)
    modifies memory
    ensures p.Valid() && p.lsq.mainMemory == memory && (finished <==> Finished(c, p.Abs()))
    ensures Cycles(c, p.Dims(), cycles, history) && history[0] == Init(c, Image(words), pc)
    ensures history[|history| - 1] == p.Abs() && (finished || |history| == |cycles| + 1)
    ensures p.arf[..] == GoldenN(c.prog, GoldenReset(c, words, pc), p.committed).regs
    ensures finished ==> forall n: nat :: n >= p.committed ==>
              var g := GoldenN(c.prog, GoldenReset(c, words, pc), n);
              && p.arf[..] == g.regs && g.pc !in c.prog && |g.mem| == MEMORY_WORDS
              && forall w :: 0 <= w < MEMORY_WORDS ==> FromLanes(memory[w]) == g.mem[w]
  {
    hide Processor.Valid, Processor.Abs, OnCourse, Leads, Finished, GoldenDomain, Init, Reset, GoldenN, GoldenReset,
         Image, Cycles;
    p := new Processor(c, width, lsqSize, rsSize, sbDepth, memLatency, fwdLatency, forwarding, memPorts, memory, pc);
    InDomain(c, words, pc);
    StartsOnCourse(c, Image(words), pc);
    finished, history := Run(p, cycles, Reset(c, Image(words), pc));
    p.Mirrors();
    LeadsToGolden(c, words, pc, p.Abs(), p.committed);
    if finished {
      forall n: nat | n >= p.committed
        ensures var g := GoldenN(c.prog, GoldenReset(c, words, pc), n);
                && p.arf[..] == g.regs && g.pc !in c.prog && |g.mem| == MEMORY_WORDS
                && forall w :: 0 <= w < MEMORY_WORDS ==> FromLanes(memory[w]) == g.mem[w]
      {
        LeadsToGolden(c, words, pc, p.Abs(), n);
      }
    }
  }
}
