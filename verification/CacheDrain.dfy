/** With no new requests the memory system goes quiet, and writing dirty lines back then leaves main memory flat. */
module CacheDrain {
  import opened MemTypes
  import opened CacheModel
  import opened CacheInv
  import opened CacheRun
  import opened CacheConserve

  // ---------------------------------------------------------------- work left

  /** How far a miss register is from draining. */
  function Stage(m: Mshr): nat {
    if m.needWb && !m.wbDone then if m.wbSent then 4 else 5
    else if !m.fillSent then 3
    else if m.fillReady then 1
    else if m.draining then 0
    else 2
  }

  function MshrWork(m: Mshr, latency: nat): nat {
    if !m.valid then 0
    else Stage(m) * (latency + 3) + (if m.drainIdx <= |m.waiters| then |m.waiters| - m.drainIdx else 0) + 1
  }

  function HitWork(h: HitPend): nat { if h.valid then h.cycles + 1 else 0 }

  function SlotWork(s: DramSlot): nat { if s.valid then s.cycles + 1 else 0 }

  /** More than anything a request can turn into when it leaves its pipe. */
  function PipeWork(c: DConf, latency: nat, p: Pipe): nat {
    if p.valid then 5 * (latency + 3) + c.hitLatency + 4 else 0
  }

  function PipeWorks(c: DConf, latency: nat, pipe: seq<Pipe>): seq<nat> {
    seq(|pipe|, i requires 0 <= i < |pipe| => PipeWork(c, latency, pipe[i]))
  }

  function HitWorks(hits: seq<HitPend>): seq<nat> { seq(|hits|, i requires 0 <= i < |hits| => HitWork(hits[i])) }

  function MshrWorks(mshrs: seq<Mshr>, latency: nat): seq<nat> {
    seq(|mshrs|, i requires 0 <= i < |mshrs| => MshrWork(mshrs[i], latency))
  }

  function SlotWorks(slots: seq<DramSlot>): seq<nat> { seq(|slots|, i requires 0 <= i < |slots| => SlotWork(slots[i])) }

  /** Held pipes, hit countdowns, register phases and undrained waiters, and DRAM countdowns. */
  function Work(c: DConf, latency: nat, m: MemSys): nat {
    Sum(PipeWorks(c, latency, m.d.pipe)) + Sum(HitWorks(m.d.hitPend)) + Sum(MshrWorks(m.d.mshrs,
        latency)) + Sum(SlotWorks(m.slots))
  }

  lemma {:induction false} PipeWorkPut(c: DConf, latency: nat, pipe: seq<Pipe>, i: nat, x: Pipe)
    requires i < |pipe|
    ensures Sum(PipeWorks(c, latency, pipe[i := x])) + PipeWork(c, latency, pipe[i])
         == Sum(PipeWorks(c, latency, pipe)) + PipeWork(c, latency, x)
  {
    assert PipeWorks(c, latency, pipe[i := x]) == PipeWorks(c, latency, pipe)[i := PipeWork(c, latency, x)];
    SumPut(PipeWorks(c, latency, pipe), i, PipeWork(c, latency, x));
  }

  lemma {:induction false} HitWorkPut(hits: seq<HitPend>, i: nat, x: HitPend)
    requires i < |hits|
    ensures Sum(HitWorks(hits[i := x])) + HitWork(hits[i]) == Sum(HitWorks(hits)) + HitWork(x)
  {
    assert HitWorks(hits[i := x]) == HitWorks(hits)[i := HitWork(x)];
    SumPut(HitWorks(hits), i, HitWork(x));
  }

  lemma {:induction false} MshrWorkPut(mshrs: seq<Mshr>, latency: nat, i: nat, x: Mshr)
    requires i < |mshrs|
    ensures Sum(MshrWorks(mshrs[i := x], latency)) + MshrWork(mshrs[i], latency)
         == Sum(MshrWorks(mshrs, latency)) + MshrWork(x, latency)
  {
    assert MshrWorks(mshrs[i := x], latency) == MshrWorks(mshrs, latency)[i := MshrWork(x, latency)];
    SumPut(MshrWorks(mshrs, latency), i, MshrWork(x, latency));
  }

  lemma {:induction false} SlotWorkPut(slots: seq<DramSlot>, i: nat, x: DramSlot)
    requires i < |slots|
    ensures Sum(SlotWorks(slots[i := x])) + SlotWork(slots[i]) == Sum(SlotWorks(slots)) + SlotWork(x)
  {
    assert SlotWorks(slots[i := x]) == SlotWorks(slots)[i := SlotWork(x)];
    SumPut(SlotWorks(slots), i, SlotWork(x));
  }

  // ---------------------------------------------------------------- no step adds work

  /** The steps a cycle takes by itself. */
  predicate OwnStep(e: MemStep, latency: nat) {
    !e.Accept? && !e.Take? && !e.OtherToDram? && (e.CacheToDram? ==> e.latency == latency)
  }

  /** Does the step get anything done? */
  ghost predicate Effective(c: DConf, m: MemSys, e: MemStep)
    requires Shaped(c, m.d) && MemEnabled(c, m, e)
  {
    match e
    case SlotTick(k) => m.slots[k].valid && m.slots[k].cycles > 0
    case Emit(p) => m.d.hitPend[p].valid
    case Port(p) => Takes(c, m, p)
    case Drain => DrainTurn(m.d) >= 0
    case _ => true
  }

  lemma {:induction false} PortWorks(c: DConf, latency: nat, m: MemSys, p: nat)
    requires SysInv(c, m) && p < c.ports
    ensures var m' := m.(d := ProcessPort(c, m.d, p));
            if Takes(c, m, p) then Work(c, latency, m') < Work(c, latency, m)
            else Work(c, latency, m') == Work(c, latency, m)
  {
    var d := m.d;
    if d.pipe[p].valid {
      var req := d.pipe[p].req;
      var s, tag := SetOf(c.sets, req.line), TagOf(c.sets, req.line);
      var existing := FindMshr(d.mshrs, req.line, 0);
      PipeWorkPut(c, latency, d.pipe, p, d.pipe[p].(valid := false));
      if existing >= 0 {
        if !Holds(c, d.mshrs[existing]) {
          var e := d.mshrs[existing];
          assert MshrOk(c, d.cache, e);
          MshrWorkPut(d.mshrs, latency, existing, e.(waiters := e.waiters + [req]));
        }
      } else {
        var hit := FindHit(d.cache[s], tag, 0);
        if hit >= 0 {
          if !req.write && !d.hitPend[p].valid {
            HitWorkPut(d.hitPend, p, HitPend(true, c.hitLatency, ReplyTo(req, d.cache[s][hit].data[req.off])));
          }
        } else {
          var i, v := AllocMshr(d.mshrs, 0), FindVictim(d.cache[s]);
          if i >= 0 && v >= 0 {
            MshrWorkPut(d.mshrs, latency, i, NewMshr(c, d.cache[s][v], s, v, req));
          }
        }
      }
    }
  }

  lemma {:induction false} EmitWorks(c: DConf, latency: nat, m: MemSys, p: nat)
    requires SysInv(c, m) && p < c.ports
    ensures var m' := m.(d := EmitHit(m.d, p));
            if m.d.hitPend[p].valid then Work(c, latency, m') < Work(c, latency, m) else m' == m
  {
    var h := m.d.hitPend[p];
    var left := if h.cycles > 0 then h.cycles - 1 else 0;
    HitWorkPut(m.d.hitPend, p, if left == 0 then NO_HIT else h.(cycles := left));
  }

  lemma {:induction false} ReplyWorks(c: DConf, latency: nat, m: MemSys, k: nat)
    requires SysInv(c, m) && MemEnabled(c, m, Reply(k))
    ensures Work(c, latency, MemApply(c, m, Reply(k))) < Work(c, latency, m)
  {
    var d := m.d;
    SlotWorkPut(m.slots, k, NO_SLOT);
    if m.slots[k].client.FromD? {
      var i := m.slots[k].client.mshr;
      assert SlotOk(c, d.mshrs, d.dramMshr, d.dramIsWb, m.slots[k], m.main);
      assert MshrOk(c, d.cache, d.mshrs[i]);
      MshrWorkPut(d.mshrs, latency, i, DramReplied(c, d, i, m.slots[k].data).mshrs[i]);
    }
  }

  lemma {:induction false} AcceptWorks(c: DConf, latency: nat, m: MemSys, k: nat)
    requires SysInv(c, m) && MemEnabled(c, m, CacheToDram(k, latency))
    ensures Work(c, latency, MemApply(c, m, CacheToDram(k, latency))) < Work(c, latency, m)
  {
    var d, m' := m.d, MemApply(c, m, CacheToDram(k, latency));
    var i := PickDramMshr(d.mshrs);
    assert MshrOk(c, d.cache, d.mshrs[i]);
    SlotWorkPut(m.slots, k, m'.slots[k]);
    MshrWorkPut(d.mshrs, latency, i, m'.d.mshrs[i]);
  }

  lemma {:induction false} FillWorks(c: DConf, latency: nat, m: MemSys, i: nat)
    requires SysInv(c, m) && MemEnabled(c, m, Fill(i))
    ensures Work(c, latency, MemApply(c, m, Fill(i))) < Work(c, latency, m)
  {
    FillNeeds(c, m, i);
    assert MshrOk(c, m.d.cache, m.d.mshrs[i]);
    MshrWorkPut(m.d.mshrs, latency, i, Draining(m.d.mshrs[i]));
  }

  lemma {:induction false} DrainWorks(c: DConf, latency: nat, m: MemSys)
    requires SysInv(c, m)
    ensures var m' := MemApply(c, m, Drain);
            if DrainTurn(m.d) >= 0 then Work(c, latency, m') < Work(c, latency, m)
            else Work(c, latency, m') == Work(c, latency, m)
  {
    DrainNeeds(c, m);
    var i := DrainTurn(m.d);
    if i >= 0 {
      assert MshrOk(c, m.d.cache, m.d.mshrs[i]);
      MshrWorkPut(m.d.mshrs, latency, i, Answered(m.d.mshrs[i]));
    }
  }

  /** No step of a cycle adds work, and every effective one takes some away. */
  lemma {:induction false} StepWorks(c: DConf, latency: nat, m: MemSys, e: MemStep)
    requires SysInv(c, m) && MemEnabled(c, m, e) && OwnStep(e, latency)
    ensures Work(c, latency, MemApply(c, m, e)) <= Work(c, latency, m)
    ensures Effective(c, m, e) ==> Work(c, latency, MemApply(c, m, e)) < Work(c, latency, m)
  {
    match e
    case SlotTick(k) => SlotWorkPut(m.slots, k, TickSlot(m.slots[k]));
    case Reply(k) => ReplyWorks(c, latency, m, k);
    case CacheToDram(k, _) => AcceptWorks(c, latency, m, k);
    case Emit(p) => EmitWorks(c, latency, m, p);
    case Port(p) => PortWorks(c, latency, m, p);
    case Fill(i) => FillWorks(c, latency, m, i);
    case Drain => DrainWorks(c, latency, m);
  }
}
