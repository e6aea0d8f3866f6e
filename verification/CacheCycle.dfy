/** One whole cycle of the memory system, and its drain to a quiet state. */
module CacheCycle {
  import opened MemTypes
  import opened CacheModel
  import opened CacheInv
  import opened CacheRun
  import opened CacheTheorems
  import opened CacheDrain

  // ---------------------------------------------------------------- reserved ways and the drain turn

  /** A reserved way is reserved by a register still fetching its line. */
  ghost predicate ReservedBy(mshrs: seq<Mshr>, s: nat, i: nat) {
    exists k :: 0 <= k < |mshrs| && Reserves(mshrs[k], s, i)
  }

  predicate Reserves(m: Mshr, s: nat, i: nat) { m.valid && !m.draining && m.setIdx == s && m.wayIdx == i }

  ghost predicate ReservedOk(c: DConf, d: DState)
    requires Shaped(c, d)
  {
    forall s, i :: 0 <= s < c.sets && 0 <= i < c.ways && d.cache[s][i].reserved ==> ReservedBy(d.mshrs, s, i)
  }

  predicate TurnOk(c: DConf, d: DState)
    requires Shaped(c, d)
  {
    d.drainMshr >= 0 ==> d.mshrs[d.drainMshr].valid && d.mshrs[d.drainMshr].draining
  }

  /** The invariant with what progress needs. */
  ghost predicate LiveInv(c: DConf, m: MemSys) {
    SysInv(c, m) && ReservedOk(c, m.d) && TurnOk(c, m.d)
  }

  /** Registers may change as long as they keep the way they reserve. */
  lemma {:induction false} KeepReserved(mshrs: seq<Mshr>, i: nat, n: Mshr, s: nat, w: nat)
    requires i < |mshrs| && ReservedBy(mshrs, s, w)
    requires Reserves(mshrs[i], s, w) ==> Reserves(n, s, w)
    ensures ReservedBy(mshrs[i := n], s, w)
  {
    var k :| 0 <= k < |mshrs| && Reserves(mshrs[k], s, w);
    assert Reserves(mshrs[i := n][k], s, w);
  }

  lemma {:induction false} MissLive(c: DConf, d: DState, p: nat, s: nat, v: nat, i: nat)
    requires Shaped(c, d) && ReservedOk(c, d) && TurnOk(c, d)
    requires p < c.ports && s < c.sets && v < c.ways && i < c.mshrCount && !d.mshrs[i].valid && d.pipe[p].req.off < c.w
    requires Shaped(c, MissPort(c, d, p, s, v, i))
    ensures ReservedOk(c, MissPort(c, d, p, s, v, i)) && TurnOk(c, MissPort(c, d, p, s, v, i))
  {
    var d' := MissPort(c, d, p, s, v, i);
    forall t, w | 0 <= t < c.sets && 0 <= w < c.ways && d'.cache[t][w].reserved ensures ReservedBy(d'.mshrs, t, w) {
      if t == s && w == v {
        assert Reserves(d'.mshrs[i], t, w);
      } else {
        KeepReserved(d.mshrs, i, d'.mshrs[i], t, w);
      }
    }
  }

  lemma {:induction false} OneMshrLive(c: DConf, d: DState, d': DState, i: nat)
    requires Shaped(c, d) && ReservedOk(c, d) && Shaped(c, d') && i < c.mshrCount
    requires d'.mshrs == d.mshrs[i := d'.mshrs[i]]
    requires forall s, w :: 0 <= s < c.sets && 0 <= w < c.ways && d'.cache[s][w].reserved ==>
               d.cache[s][w].reserved && (Reserves(d.mshrs[i], s, w) ==> Reserves(d'.mshrs[i], s, w))
    ensures ReservedOk(c, d')
  {
    forall s, w | 0 <= s < c.sets && 0 <= w < c.ways && d'.cache[s][w].reserved ensures ReservedBy(d'.mshrs, s, w) {
      KeepReserved(d.mshrs, i, d'.mshrs[i], s, w);
    }
  }

  lemma {:induction false} PortLive(c: DConf, m: MemSys, p: nat)
    requires LiveInv(c, m) && p < c.ports
    ensures LiveInv(c, m.(d := ProcessPort(c, m.d, p)))
  {
    PortStep(c, m, p);
    PortReserved(c, m.d, p);
  }

  lemma {:induction false} PortReserved(c: DConf, d: DState, p: nat)
    requires Shaped(c, d) && p < c.ports && ReservedOk(c, d) && TurnOk(c, d) && Shaped(c, ProcessPort(c, d, p))
    ensures ReservedOk(c, ProcessPort(c, d, p)) && TurnOk(c, ProcessPort(c, d, p))
  {
    if d.pipe[p].valid {
      var req := d.pipe[p].req;
      var s, tag := SetOf(c.sets, req.line), TagOf(c.sets, req.line);
      var existing := FindMshr(d.mshrs, req.line, 0);
      if existing >= 0 {
        if !Holds(c, d.mshrs[existing]) { OneMshrLive(c, d, JoinMshr(d, p, existing), existing); }
      } else {
        var hit := FindHit(d.cache[s], tag, 0);
        if hit >= 0 {
          HitReserved(c, d, p, s, hit);
        } else {
          var i, v := AllocMshr(d.mshrs, 0), FindVictim(d.cache[s]);
          if i >= 0 && v >= 0 { MissLive(c, d, p, s, v, i); }
        }
      }
    }
  }

  lemma {:induction false} HitReserved(c: DConf, d: DState, p: nat, s: nat, i: nat)
    requires Shaped(c, d) && ReservedOk(c, d) && TurnOk(c, d)
    requires p < c.ports && d.pipe[p].valid && s < c.sets && i < c.ways && d.cache[s][i].valid
    requires Shaped(c, HitPort(c, d, p, s, i))
    ensures ReservedOk(c, HitPort(c, d, p, s, i)) && TurnOk(c, HitPort(c, d, p, s, i))
  {
    var d' := HitPort(c, d, p, s, i);
    forall t, w | 0 <= t < c.sets && 0 <= w < c.ways && d'.cache[t][w].reserved ensures ReservedBy(d'.mshrs, t, w) {
      assert ReservedBy(d.mshrs, t, w);
    }
  }

  lemma {:induction false} FillLive(c: DConf, m: MemSys, i: nat)
    requires LiveInv(c, m) && MemEnabled(c, m, Fill(i))
    ensures LiveInv(c, MemApply(c, m, Fill(i)))
  {
    FillStep(c, m, i);
    FillNeeds(c, m, i);
    OneMshrLive(c, m.d, MemApply(c, m, Fill(i)).d, i);
  }

  lemma {:induction false} DrainLive(c: DConf, m: MemSys)
    requires LiveInv(c, m)
    ensures LiveInv(c, MemApply(c, m, Drain))
  {
    DrainStep(c, m);
    DrainNeeds(c, m);
    var i := DrainTurn(m.d);
    if i >= 0 { OneMshrLive(c, m.d, MemApply(c, m, Drain).d, i); }
  }

  lemma {:induction false} ToDramLive(c: DConf, m: MemSys, e: MemStep)
    requires LiveInv(c, m) && MemEnabled(c, m, e) && e.CacheToDram?
    ensures LiveInv(c, MemApply(c, m, e))
  {
    FlatMemory(c, m, e);
    OneMshrLive(c, m.d, MemApply(c, m, e).d, PickDramMshr(m.d.mshrs));
  }

  lemma {:induction false} ReplyLive(c: DConf, m: MemSys, e: MemStep)
    requires LiveInv(c, m) && MemEnabled(c, m, e) && e.Reply?
    ensures LiveInv(c, MemApply(c, m, e))
  {
    FlatMemory(c, m, e);
    if m.slots[e.k].client.FromD? {
      var i := m.slots[e.k].client.mshr;
      if i < |m.d.mshrs| && m.d.mshrs[i].valid {
        OneMshrLive(c, m.d, MemApply(c, m, e).d, i);
      }
    }
  }

  lemma {:induction false} DramLive(c: DConf, m: MemSys, e: MemStep)
    requires LiveInv(c, m) && MemEnabled(c, m, e) && (e.Reply? || e.CacheToDram? || e.SlotTick? || e.OtherToDram?)
    ensures LiveInv(c, MemApply(c, m, e))
  {
    if e.CacheToDram? {
      ToDramLive(c, m, e);
    } else if e.Reply? {
      ReplyLive(c, m, e);
    } else {
      FlatMemory(c, m, e);
    }
  }

  lemma {:induction false} SideLive(c: DConf, m: MemSys, e: MemStep)
    requires LiveInv(c, m) && MemEnabled(c, m, e) && StepInMemory(c, e) && (e.Emit? || e.Accept? || e.Take?)
    ensures LiveInv(c, MemApply(c, m, e))
  {
    SideStep(c, m, e);
  }

  lemma {:induction false} StepLive(c: DConf, m: MemSys, e: MemStep)
    requires LiveInv(c, m) && MemEnabled(c, m, e) && StepInMemory(c, e)
    ensures LiveInv(c, MemApply(c, m, e))
  {
    match e
    case Port(p) => PortLive(c, m, p);
    case Fill(i) => FillLive(c, m, i);
    case Drain => DrainLive(c, m);
    case Emit(_) => SideLive(c, m, e);
    case Accept(_, _) => SideLive(c, m, e);
    case Take => SideLive(c, m, e);
    case _ => DramLive(c, m, e);
  }

  // ---------------------------------------------------------------- the phases of a cycle

  /** One step, if it is possible. */
  ghost function Do(c: DConf, m: MemSys, e: MemStep): (t: MemSys)
    requires LiveInv(c, m) && StepInMemory(c, e)
    ensures LiveInv(c, t) && |t.slots| == |m.slots|
  {
    if MemEnabled(c, m, e) then StepLive(c, m, e); MemApply(c, m, e) else m
  }

  ghost function TickSlots(c: DConf, m: MemSys, k: nat): (t: MemSys)
    requires LiveInv(c, m) && k <= |m.slots|
    ensures LiveInv(c, t) && |t.slots| == |m.slots|
    decreases |m.slots| - k
  {
    if k == |m.slots| then m else TickSlots(c, Do(c, m, SlotTick(k)), k + 1)
  }

  ghost function TakeReply(c: DConf, m: MemSys): (t: MemSys)
    requires LiveInv(c, m)
    ensures LiveInv(c, t) && |t.slots| == |m.slots|
  {
    var k := FindReady(m.slots, 0);
    if k < 0 then m else Do(c, m, Reply(k))
  }

  ghost function SendRequest(c: DConf, latency: nat, m: MemSys): (t: MemSys)
    requires LiveInv(c, m)
    ensures LiveInv(c, t) && |t.slots| == |m.slots|
  {
    var k := FindFree(m.slots, 0);
    if k < 0 then m else Do(c, m, CacheToDram(k, latency))
  }

  ghost function EmitHits(c: DConf, m: MemSys, p: nat): (t: MemSys)
    requires LiveInv(c, m) && p <= c.ports
    ensures LiveInv(c, t) && |t.slots| == |m.slots|
    decreases c.ports - p
  {
    if p == c.ports then m else EmitHits(c, Do(c, m, Emit(p)), p + 1)
  }

  ghost function ProcessPipes(c: DConf, m: MemSys, p: nat): (t: MemSys)
    requires LiveInv(c, m) && p <= c.ports
    ensures LiveInv(c, t) && |t.slots| == |m.slots|
    decreases c.ports - p
  {
    if p == c.ports then m else ProcessPipes(c, Do(c, m, Port(p)), p + 1)
  }

  ghost function CompleteFills(c: DConf, m: MemSys, i: nat): (t: MemSys)
    requires LiveInv(c, m) && i <= c.mshrCount
    ensures LiveInv(c, t) && |t.slots| == |m.slots|
    decreases c.mshrCount - i
  {
    if i == c.mshrCount then m else CompleteFills(c, Do(c, m, Fill(i)), i + 1)
  }

  /** `tickEnd`: emit hits, process pipes, complete fills, drain one. */
  ghost function CacheTick(c: DConf, m: MemSys): (t: MemSys)
    requires LiveInv(c, m)
    ensures LiveInv(c, t) && |t.slots| == |m.slots|
  {
    Do(c, CompleteFills(c, ProcessPipes(c, EmitHits(c, m, 0), 0), 0), Drain)
  }

  /** A line the instruction side wants this cycle, with what its image holds there. */
  datatype ImageRead = NoRead | ImageRead(line: nat, image: Line)

  /** The cache's own request goes first; without one, the instruction side may read its line. */
  ghost function Arbitrate(c: DConf, latency: nat, m: MemSys, read: ImageRead): (t: MemSys)
    requires LiveInv(c, m)
    ensures LiveInv(c, t) && |t.slots| == |m.slots|
  {
    if read.NoRead? || (m.d.dramMshr < 0 && PickDramMshr(m.d.mshrs) >= 0) then SendRequest(c, latency, m)
    else
      var k := FindFree(m.slots, 0);
      if k < 0 then m
      else Do(c, m, OtherToDram(k, DramSlot(true, false, read.line, FromI, latency, read.image)))
  }

  /** A cycle: DRAM counts, one reply is routed, one request sent, the cache ticks. */
  ghost function CycleReading(c: DConf, latency: nat, m: MemSys, read: ImageRead): (t: MemSys)
    requires LiveInv(c, m)
    ensures LiveInv(c, t) && |t.slots| == |m.slots|
  {
    CacheTick(c, Arbitrate(c, latency, TakeReply(c, TickSlots(c, m, 0)), read))
  }

  /** A cycle with the instruction side idle. */
  ghost function Cycle(c: DConf, latency: nat, m: MemSys): (t: MemSys)
    requires LiveInv(c, m)
    ensures LiveInv(c, t) && |t.slots| == |m.slots|
  {
    CycleReading(c, latency, m, NoRead)
  }

  // ---------------------------------------------------------------- every phase works towards quiet

  ghost predicate Falls(c: DConf, latency: nat, m: MemSys, t: MemSys) {
    Work(c, latency, t) < Work(c, latency, m)
  }

  ghost predicate NoMore(c: DConf, latency: nat, m: MemSys, t: MemSys) {
    Work(c, latency, t) <= Work(c, latency, m)
  }

  lemma {:induction false} DoWorks(c: DConf, latency: nat, m: MemSys, e: MemStep)
    requires LiveInv(c, m) && StepInMemory(c, e) && OwnStep(e, latency)
    ensures NoMore(c, latency, m, Do(c, m, e))
    ensures MemEnabled(c, m, e) && Effective(c, m, e) ==> Falls(c, latency, m, Do(c, m, e))
  {
    hide Work, MemApply, Effective;
    if MemEnabled(c, m, e) {
      StepWorks(c, latency, m, e);
    }
  }

  ghost predicate SlotBusy(slots: seq<DramSlot>, k: nat) {
    exists j :: k <= j < |slots| && slots[j].valid && slots[j].cycles > 0
  }

  lemma {:induction false} SlotsWork(c: DConf, latency: nat, m: MemSys, k: nat)
    requires LiveInv(c, m) && k <= |m.slots|
    ensures NoMore(c, latency, m, TickSlots(c, m, k))
    ensures SlotBusy(m.slots, k) ==> Falls(c, latency, m, TickSlots(c, m, k))
    ensures !SlotBusy(m.slots, k) ==> TickSlots(c, m, k).d == m.d && TickSlots(c, m, k).slots == m.slots
    decreases |m.slots| - k
  {
    hide Work, DataOk, DramOk, ReservedOk, PipesOk;
    if k < |m.slots| {
      var t := Do(c, m, SlotTick(k));
      DoWorks(c, latency, m, SlotTick(k));
      SlotsWork(c, latency, t, k + 1);
      if SlotBusy(m.slots, k) && !(m.slots[k].valid && m.slots[k].cycles > 0) {
        var j :| k <= j < |m.slots| && m.slots[j].valid && m.slots[j].cycles > 0;
        assert t.slots[j] == m.slots[j];
      }
    }
  }

  lemma {:induction false} EmitsNoMore(c: DConf, latency: nat, m: MemSys, p: nat)
    requires LiveInv(c, m) && p <= c.ports
    ensures NoMore(c, latency, m, EmitHits(c, m, p))
    decreases c.ports - p
  {
    hide Work, MemApply, DataOk, DramOk, ReservedOk, PipesOk;
    if p < c.ports {
      DoWorks(c, latency, m, Emit(p));
      EmitsNoMore(c, latency, Do(c, m, Emit(p)), p + 1);
    }
  }

  /** A port's hit delay is its own. */
  lemma {:induction false} EmitElsewhere(c: DConf, m: MemSys, p: nat)
    requires LiveInv(c, m) && p < c.ports
    ensures m.d.hitPend[p].valid || Do(c, m, Emit(p)) == m
  {
  }

  lemma {:induction false} EmitsWork(c: DConf, latency: nat, m: MemSys, p: nat)
    requires LiveInv(c, m) && p <= c.ports
    ensures Falls(c, latency, m, EmitHits(c, m, p))
         || (EmitHits(c, m, p) == m && forall q :: p <= q < c.ports ==> !m.d.hitPend[q].valid)
    decreases c.ports - p
  {
    hide Work, MemApply, DataOk, DramOk, ReservedOk, PipesOk;
    if p < c.ports {
      DoWorks(c, latency, m, Emit(p));
      EmitElsewhere(c, m, p);
      if m.d.hitPend[p].valid {
        EmitsNoMore(c, latency, Do(c, m, Emit(p)), p + 1);
      } else {
        EmitsWork(c, latency, m, p + 1);
      }
    }
  }

  /** With no hit waiting, a port either takes its request or changes nothing. */
  lemma {:induction false} TakesOrStays(c: DConf, m: MemSys, p: nat)
    requires LiveInv(c, m) && p < c.ports && !m.d.hitPend[p].valid
    ensures Takes(c, m, p) || Do(c, m, Port(p)) == m
  {
  }

  lemma {:induction false} NotReserved(c: DConf, d: DState, s: nat, j: nat)
    requires Shaped(c, d) && ReservedOk(c, d) && s < c.sets && j < c.ways
    requires forall i :: 0 <= i < c.mshrCount ==> !d.mshrs[i].valid
    ensures !d.cache[s][j].reserved
  {
  }

  /** With nothing in flight, a waiting request is taken. */
  lemma {:induction false} TakesWhenQuiet(c: DConf, m: MemSys, p: nat)
    requires LiveInv(c, m) && p < c.ports && m.d.pipe[p].valid && !m.d.hitPend[p].valid && c.mshrCount > 0 && c.ways > 0
    requires forall i :: 0 <= i < c.mshrCount ==> !m.d.mshrs[i].valid
    ensures Takes(c, m, p)
  {
    var d, s := m.d, SetOf(c.sets, m.d.pipe[p].req.line);
    forall j | 0 <= j < c.ways ensures !d.cache[s][j].reserved {
      NotReserved(c, d, s, j);
    }
    assert !d.cache[s][0].reserved && !d.mshrs[0].valid;
  }

  lemma {:induction false} PipesWork(c: DConf, latency: nat, m: MemSys, p: nat)
    requires LiveInv(c, m) && p <= c.ports && forall q :: 0 <= q < c.ports ==> !m.d.hitPend[q].valid
    ensures NoMore(c, latency, m, ProcessPipes(c, m, p))
    ensures Falls(c, latency, m, ProcessPipes(c, m, p)) || ProcessPipes(c, m, p) == m
    decreases c.ports - p
  {
    hide Work, ProcessPort, MemApply, DataOk, DramOk, ReservedOk, PipesOk;
    if p < c.ports {
      DoWorks(c, latency, m, Port(p));
      TakesOrStays(c, m, p);
      if Takes(c, m, p) {
        PipesNoMore(c, latency, Do(c, m, Port(p)), p + 1);
      } else {
        PipesWork(c, latency, m, p + 1);
      }
    }
  }

  lemma {:induction false} PipesNoMore(c: DConf, latency: nat, m: MemSys, p: nat)
    requires LiveInv(c, m) && p <= c.ports
    ensures NoMore(c, latency, m, ProcessPipes(c, m, p))
    decreases c.ports - p
  {
    hide Work, ProcessPort, MemApply, DataOk, DramOk, ReservedOk, PipesOk;
    if p < c.ports {
      DoWorks(c, latency, m, Port(p));
      PipesNoMore(c, latency, Do(c, m, Port(p)), p + 1);
    }
  }

  /** With nothing in flight, the first waiting request gets work done. */
  lemma {:induction false} PipesFall(c: DConf, latency: nat, m: MemSys, p: nat, q: nat)
    requires LiveInv(c, m) && p <= q < c.ports && m.d.pipe[q].valid && c.mshrCount > 0 && c.ways > 0
    requires forall x :: 0 <= x < c.ports ==> !m.d.hitPend[x].valid
    requires forall i :: 0 <= i < c.mshrCount ==> !m.d.mshrs[i].valid
    ensures Falls(c, latency, m, ProcessPipes(c, m, p))
    decreases c.ports - p
  {
    hide Work, ProcessPort, MemApply, DataOk, DramOk, ReservedOk, PipesOk;
    DoWorks(c, latency, m, Port(p));
    TakesOrStays(c, m, p);
    if m.d.pipe[p].valid {
      TakesWhenQuiet(c, m, p);
    }
    if Takes(c, m, p) {
      PipesNoMore(c, latency, Do(c, m, Port(p)), p + 1);
    } else {
      PipesFall(c, latency, m, p + 1, q);
    }
  }

  lemma {:induction false} FillsNoMore(c: DConf, latency: nat, m: MemSys, i: nat)
    requires LiveInv(c, m) && i <= c.mshrCount
    ensures NoMore(c, latency, m, CompleteFills(c, m, i))
    decreases c.mshrCount - i
  {
    hide Work, MemApply, DataOk, DramOk, ReservedOk, PipesOk;
    if i < c.mshrCount {
      DoWorks(c, latency, m, Fill(i));
      FillsNoMore(c, latency, Do(c, m, Fill(i)), i + 1);
    }
  }

  lemma {:induction false} FillsWork(c: DConf, latency: nat, m: MemSys, i: nat)
    requires LiveInv(c, m) && i <= c.mshrCount
    ensures Falls(c, latency, m, CompleteFills(c, m, i))
         || (CompleteFills(c, m,
             i) == m && forall j :: i <= j < c.mshrCount ==> !(m.d.mshrs[j].valid && m.d.mshrs[j].fillReady))
    decreases c.mshrCount - i
  {
    hide Work, MemApply, DataOk, DramOk, ReservedOk, PipesOk;
    if i < c.mshrCount {
      DoWorks(c, latency, m, Fill(i));
      if m.d.mshrs[i].valid && m.d.mshrs[i].fillReady {
        FillsNoMore(c, latency, Do(c, m, Fill(i)), i + 1);
      } else {
        FillsWork(c, latency, m, i + 1);
      }
    }
  }

  /** Anything in flight anywhere? */
  ghost predicate Busy(m: MemSys) {
    || (exists p :: 0 <= p < |m.d.pipe| && m.d.pipe[p].valid)
    || (exists p :: 0 <= p < |m.d.hitPend| && m.d.hitPend[p].valid)
    || (exists i :: 0 <= i < |m.d.mshrs| && m.d.mshrs[i].valid)
    || (exists k :: 0 <= k < |m.slots| && m.slots[k].valid)
  }

  /** The DRAM side of a cycle works, or has nothing to do. */
  lemma {:induction false} DramSideWorks(c: DConf, latency: nat, m: MemSys)
    requires LiveInv(c, m) && latency > 0 && |m.slots| > 0
    ensures var t := SendRequest(c, latency, TakeReply(c, TickSlots(c, m, 0)));
            && NoMore(c, latency, m, t)
            && (Falls(c, latency, m, t) || (t.d == m.d && (forall k :: 0 <= k < |m.slots| ==> !m.slots[k].valid)
                                            && m.d.dramMshr < 0 && PickDramMshr(m.d.mshrs) < 0))
  {
    hide Work, MemApply, DataOk, DramOk, ReservedOk, PipesOk;
    var m1 := TickSlots(c, m, 0);
    SlotsWork(c, latency, m, 0);
    ReplyWorksOut(c, latency, m1);
    var m2 := TakeReply(c, m1);
    RequestWorksOut(c, latency, m2);
    if !SlotBusy(m.slots, 0) && m2 == m1 {
      forall k | 0 <= k < |m.slots| ensures !m.slots[k].valid {
      }
    }
  }

  lemma {:induction false} ReplyWorksOut(c: DConf, latency: nat, m: MemSys)
    requires LiveInv(c, m)
    ensures NoMore(c, latency, m, TakeReply(c, m))
    ensures Falls(c, latency, m, TakeReply(c, m)) || (TakeReply(c, m) == m && FindReady(m.slots, 0) < 0)
  {
    hide Work, MemApply, DataOk, DramOk, ReservedOk, PipesOk;
    var k := FindReady(m.slots, 0);
    if k >= 0 { DoWorks(c, latency, m, Reply(k)); }
  }

  lemma {:induction false} RequestWorksOut(c: DConf, latency: nat, m: MemSys)
    requires LiveInv(c, m) && latency > 0 && |m.slots| > 0
    ensures NoMore(c, latency, m, SendRequest(c, latency, m))
    ensures Falls(c, latency, m, SendRequest(c, latency, m)) || (exists k :: 0 <= k < |m.slots| && m.slots[k].valid)
         || (SendRequest(c, latency, m) == m && m.d.dramMshr < 0 && PickDramMshr(m.d.mshrs) < 0)
  {
    hide Work, MemApply, DataOk, ReservedOk, PipesOk;
    var k := FindFree(m.slots, 0);
    if k >= 0 { DoWorks(c, latency, m, CacheToDram(k, latency)); }
  }

  /** With DRAM quiet, the cache's part of the cycle works if anything is left. */
  lemma {:induction false} CacheSideWorks(c: DConf, latency: nat, m: MemSys)
    requires LiveInv(c, m)
    ensures NoMore(c, latency, m, CacheTick(c, m))
  {
    hide Work, MemApply, DataOk, DramOk, ReservedOk, PipesOk;
    var m1 := EmitHits(c, m, 0);
    EmitsNoMore(c, latency, m, 0);
    PipesNoMore(c, latency, m1, 0);
    var m2 := ProcessPipes(c, m1, 0);
    FillsNoMore(c, latency, m2, 0);
    DoWorks(c, latency, CompleteFills(c, m2, 0), Drain);
  }

  lemma {:induction false} QuietDram(c: DConf, m: MemSys, i: nat)
    requires SysInv(c, m) && m.d.dramMshr < 0 && PickDramMshr(m.d.mshrs) < 0 && i < c.mshrCount && m.d.mshrs[i].valid
    ensures m.d.mshrs[i].fillReady || m.d.mshrs[i].draining
  {
    assert !WantsWb(m.d.mshrs[i]) && !WantsFill(m.d.mshrs[i]) && !WbOut(m.d.mshrs[i]) && !FillOut(m.d.mshrs[i]);
    assert MshrOk(c, m.d.cache, m.d.mshrs[i]);
  }

  lemma {:induction false} DrainHasTurn(c: DConf, m: MemSys, i: nat)
    requires LiveInv(c, m) && i < c.mshrCount && m.d.mshrs[i].valid && m.d.mshrs[i].draining
    ensures DrainTurn(m.d) >= 0
  {
  }

  lemma {:induction false} CacheSideFalls(c: DConf, latency: nat, m: MemSys)
    requires LiveInv(c, m) && m.d.dramMshr < 0 && PickDramMshr(m.d.mshrs) < 0 && c.mshrCount > 0 && c.ways > 0
    requires (exists p :: 0 <= p < c.ports && (m.d.pipe[p].valid || m.d.hitPend[p].valid))
             || (exists i :: 0 <= i < c.mshrCount && m.d.mshrs[i].valid)
    ensures Falls(c, latency, m, CacheTick(c, m))
  {
    hide Work, MemApply, DataOk, DramOk, ReservedOk, PipesOk;
    CacheSideWorks(c, latency, m);
    var m1 := EmitHits(c, m, 0);
    EmitsWork(c, latency, m, 0);
    PipesNoMore(c, latency, m1, 0);
    var m2 := ProcessPipes(c, m1, 0);
    FillsWork(c, latency, m2, 0);
    var m3 := CompleteFills(c, m2, 0);
    DoWorks(c, latency, m3, Drain);
    if m1 == m && forall p :: 0 <= p < c.ports ==> !m.d.hitPend[p].valid {
      PipesWork(c, latency, m1, 0);
      if i :| 0 <= i < c.mshrCount && m.d.mshrs[i].valid {
        QuietDram(c, m, i);
        if m2 == m && m3 == m { DrainHasTurn(c, m, i); }
      } else {
        var q :| 0 <= q < c.ports && m.d.pipe[q].valid;
        PipesFall(c, latency, m, 0, q);
      }
    }
  }

  /** While anything is in flight, every cycle gets work done. */
  lemma {:induction false} CycleFalls(c: DConf, latency: nat, m: MemSys)
    requires LiveInv(c, m) && latency > 0 && |m.slots| > 0 && c.mshrCount > 0 && c.ways > 0 && Busy(m)
    ensures Falls(c, latency, m, Cycle(c, latency, m))
  {
    hide Work, MemApply, CacheTick, DataOk, DramOk, ReservedOk, PipesOk;
    DramSideWorks(c, latency, m);
    var t := SendRequest(c, latency, TakeReply(c, TickSlots(c, m, 0)));
    CacheSideWorks(c, latency, t);
    if !Falls(c, latency, m, t) {
      CacheSideFalls(c, latency, t);
    }
  }

  /** The state after `n` cycles without new requests. */
  ghost function Cycles(c: DConf, latency: nat, m: MemSys, n: nat): (t: MemSys)
    requires LiveInv(c, m)
    ensures LiveInv(c, t) && |t.slots| == |m.slots|
    decreases n
  {
    if n == 0 then m else Cycles(c, latency, Cycle(c, latency, m), n - 1)
  }

  /** Without new requests, and the instruction side idle, nothing is in flight after at most `Work` cycles. */
  lemma {:induction false} DrainTerminates(c: DConf, latency: nat, m: MemSys)
    requires LiveInv(c, m) && latency > 0 && |m.slots| > 0 && c.mshrCount > 0 && c.ways > 0
    ensures exists n :: 0 <= n <= Work(c, latency, m) && !Busy(Cycles(c, latency, m, n))
    decreases Work(c, latency, m)
  {
    hide Work, Cycle, DataOk, DramOk, ReservedOk, PipesOk;
    if !Busy(m) {
      assert !Busy(Cycles(c, latency, m, 0));
    } else {
      CycleFalls(c, latency, m);
      var t := Cycle(c, latency, m);
      DrainTerminates(c, latency, t);
      var n :| 0 <= n <= Work(c, latency, t) && !Busy(Cycles(c, latency, t, n));
      OneMoreCycle(c, latency, m, n);
    }
  }

  lemma {:induction false} OneMoreCycle(c: DConf, latency: nat, m: MemSys, n: nat)
    requires LiveInv(c, m)
    ensures Cycles(c, latency, m, n + 1) == Cycles(c, latency, Cycle(c, latency, m), n)
  {
  }

  // ---------------------------------------------------------------- a cycle is a run of steps

  ghost predicate Leads(c: DConf, m: MemSys, t: MemSys)
    requires SysInv(c, m)
  {
    exists run :: MemReaches(c, m, run, t)
  }

  lemma {:induction false} RunsAppend(c: DConf, m: MemSys, run: seq<MemStep>, t: MemSys, more: seq<MemStep>, u: MemSys)
    requires SysInv(c, m) && MemReaches(c, m, run, t) && SysInv(c, t) && MemReaches(c, t, more, u)
    ensures MemReaches(c, m, run + more, u)
    decreases |run|
  {
    hide MemApply, DataOk, DramOk;
    if run == [] {
      assert run + more == more;
    } else {
      FlatMemory(c, m, run[0]);
      RunsAppend(c, MemApply(c, m, run[0]), run[1..], t, more, u);
      assert (run + more)[0] == run[0] && (run + more)[1..] == run[1..] + more;
    }
  }

  lemma {:induction false} LeadsOn(c: DConf, m: MemSys, t: MemSys, u: MemSys)
    requires SysInv(c, m) && SysInv(c, t) && Leads(c, m, t) && Leads(c, t, u)
    ensures Leads(c, m, u)
  {
    hide DataOk, DramOk;
    var run :| MemReaches(c, m, run, t);
    var more :| MemReaches(c, t, more, u);
    RunsAppend(c, m, run, t, more, u);
  }

  lemma {:induction false} DoLeads(c: DConf, m: MemSys, e: MemStep)
    requires LiveInv(c, m) && StepInMemory(c, e)
    ensures Leads(c, m, Do(c, m, e))
  {
    hide MemApply, DataOk, DramOk;
    if MemEnabled(c, m, e) {
      FlatMemory(c, m, e);
      assert [e][1..] == [];
      assert MemReaches(c, MemApply(c, m, e), [], MemApply(c, m, e));
      assert MemReaches(c, m, [e], Do(c, m, e));
    } else {
      assert MemReaches(c, m, [], m);
    }
  }

  lemma {:induction false} StepThenLeads(c: DConf, m: MemSys, e: MemStep, u: MemSys)
    requires LiveInv(c, m) && StepInMemory(c, e) && Leads(c, Do(c, m, e), u)
    ensures Leads(c, m, u)
  {
    hide MemApply, DataOk, DramOk;
    DoLeads(c, m, e);
    LeadsOn(c, m, Do(c, m, e), u);
  }

  lemma {:induction false} StaysLeads(c: DConf, m: MemSys)
    requires LiveInv(c, m)
    ensures Leads(c, m, m)
  {
    assert MemReaches(c, m, [], m);
  }

  lemma {:induction false} SlotsLead(c: DConf, m: MemSys, k: nat)
    requires LiveInv(c, m) && k <= |m.slots|
    ensures Leads(c, m, TickSlots(c, m, k))
    decreases |m.slots| - k
  {
    hide MemApply, DataOk, DramOk, ReservedOk, PipesOk, Leads;
    if k == |m.slots| { StaysLeads(c, m); } else {
      SlotsLead(c, Do(c, m, SlotTick(k)), k + 1);
      StepThenLeads(c, m, SlotTick(k), TickSlots(c, m, k));
    }
  }

  lemma {:induction false} EmitsLead(c: DConf, m: MemSys, p: nat)
    requires LiveInv(c, m) && p <= c.ports
    ensures Leads(c, m, EmitHits(c, m, p))
    decreases c.ports - p
  {
    hide MemApply, DataOk, DramOk, ReservedOk, PipesOk, Leads;
    if p == c.ports { StaysLeads(c, m); } else {
      EmitsLead(c, Do(c, m, Emit(p)), p + 1);
      StepThenLeads(c, m, Emit(p), EmitHits(c, m, p));
    }
  }

  lemma {:induction false} PipesLead(c: DConf, m: MemSys, p: nat)
    requires LiveInv(c, m) && p <= c.ports
    ensures Leads(c, m, ProcessPipes(c, m, p))
    decreases c.ports - p
  {
    hide MemApply, DataOk, DramOk, ReservedOk, PipesOk, Leads;
    if p == c.ports { StaysLeads(c, m); } else {
      PipesLead(c, Do(c, m, Port(p)), p + 1);
      StepThenLeads(c, m, Port(p), ProcessPipes(c, m, p));
    }
  }

  lemma {:induction false} FillsLead(c: DConf, m: MemSys, i: nat)
    requires LiveInv(c, m) && i <= c.mshrCount
    ensures Leads(c, m, CompleteFills(c, m, i))
    decreases c.mshrCount - i
  {
    hide MemApply, DataOk, DramOk, ReservedOk, PipesOk, Leads;
    if i == c.mshrCount { StaysLeads(c, m); } else {
      FillsLead(c, Do(c, m, Fill(i)), i + 1);
      StepThenLeads(c, m, Fill(i), CompleteFills(c, m, i));
    }
  }

  lemma {:induction false} CacheTickLeads(c: DConf, m: MemSys)
    requires LiveInv(c, m)
    ensures Leads(c, m, CacheTick(c, m))
  {
    hide MemApply, DataOk, DramOk, ReservedOk, PipesOk, Leads;
    var m1 := EmitHits(c, m, 0);
    var m2 := ProcessPipes(c, m1, 0);
    var m3 := CompleteFills(c, m2, 0);
    EmitsLead(c, m, 0);
    PipesLead(c, m1, 0);
    FillsLead(c, m2, 0);
    DoLeads(c, m3, Drain);
    LeadsOn(c, m2, m3, CacheTick(c, m));
    LeadsOn(c, m1, m2, CacheTick(c, m));
    LeadsOn(c, m, m1, CacheTick(c, m));
  }

  lemma {:induction false} ArbitrateLeads(c: DConf, latency: nat, m: MemSys, read: ImageRead)
    requires LiveInv(c, m)
    ensures Leads(c, m, Arbitrate(c, latency, m, read))
  {
    hide MemApply, DataOk, DramOk, ReservedOk, PipesOk, Leads, Do;
    StaysLeads(c, m);
    var k := FindFree(m.slots, 0);
    if k >= 0 {
      DoLeads(c, m, CacheToDram(k, latency));
      if read.ImageRead? {
        DoLeads(c, m, OtherToDram(k, DramSlot(true, false, read.line, FromI, latency, read.image)));
      }
    }
  }

  /** A cycle is a run of steps, whether or not the instruction side reads, so everything proved of runs holds of
    * cycles. */
  lemma {:induction false} CycleLeads(c: DConf, latency: nat, m: MemSys, read: ImageRead)
    requires LiveInv(c, m)
    ensures Leads(c, m, CycleReading(c, latency, m, read))
  {
    hide MemApply, DataOk, DramOk, ReservedOk, PipesOk, Leads, CacheTick, Arbitrate;
    var m1 := TickSlots(c, m, 0);
    var m2 := TakeReply(c, m1);
    var m3 := Arbitrate(c, latency, m2, read);
    SlotsLead(c, m, 0);
    StaysLeads(c, m1);
    if FindReady(m1.slots, 0) >= 0 { DoLeads(c, m1, Reply(FindReady(m1.slots, 0))); }
    ArbitrateLeads(c, latency, m2, read);
    CacheTickLeads(c, m3);
    LeadsOn(c, m2, m3, CycleReading(c, latency, m, read));
    LeadsOn(c, m1, m2, CycleReading(c, latency, m, read));
    LeadsOn(c, m, m1, CycleReading(c, latency, m, read));
  }
}
