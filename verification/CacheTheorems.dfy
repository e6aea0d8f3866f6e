/** What every run of cache and DRAM guarantees: one flat memory, loads answered from it in time, requests conserved. */
module CacheTheorems {
  import opened Words
  import opened MemTypes
  import opened CacheModel
  import opened CacheInv
  import opened CacheRun

  /** Does the schedule `run` lead from `m` to `t`, storing inside memory only? */
  ghost predicate MemReaches(c: DConf, m: MemSys, run: seq<MemStep>, t: MemSys)
    requires SysInv(c, m)
    decreases |run|
  {
    if run == [] then m == t
    else
      MemEnabled(c, m, run[0]) && StepInMemory(c, run[0])
      && (FlatMemory(c, m, run[0]); MemReaches(c, MemApply(c, m, run[0]), run[1..], t))
  }

  // ---------------------------------------------------------------- flat memory over whole runs

  /** The requests a run takes out of the compare pipes, in that order. */
  ghost function TakenBy(c: DConf, m: MemSys, run: seq<MemStep>): seq<Req>
    requires SysInv(c, m)
    decreases |run|
  {
    if run == [] || !MemEnabled(c, m, run[0]) || !StepInMemory(c, run[0]) then []
    else
      FlatMemory(c, m, run[0]);
      Taken(c, m, run[0]) + TakenBy(c, MemApply(c, m, run[0]), run[1..])
  }

  ghost function Taken(c: DConf, m: MemSys, e: MemStep): seq<Req>
    requires Shaped(c, m.d) && MemEnabled(c, m, e)
  {
    if e.Port? && Takes(c, m, e.p) then [m.d.pipe[e.p].req] else []
  }

  /** A word-addressed flat memory driven by the same requests: line `ln` after `reqs`. */
  function FlatAfter(l: Line, ln: nat, reqs: seq<Req>): Line
    decreases |reqs|
  {
    if reqs == [] then l
    else
      FlatAfter(if reqs[0].line == ln && reqs[0].write && reqs[0].off < |l| then ApplyStore(l, reqs[0]) else l, ln,
          reqs[1..])
  }

  /** Whatever the evictions, write-backs, fills and drains of a run, the cache behaves as a flat memory to which the
    * requests are applied in the order the compare pipes take them. */
  lemma {:induction false} RunIsFlatMemory(c: DConf, m: MemSys, run: seq<MemStep>, t: MemSys, ln: nat)
    requires SysInv(c, m) && MemReaches(c, m, run, t)
    ensures SysInv(c, t)
    ensures Flat(c, t, ln) == FlatAfter(Flat(c, m, ln), ln, TakenBy(c, m, run))
    decreases |run|
  {
    hide MemApply, AbsLine, ProcessPort;
    if run != [] {
      FlatMemory(c, m, run[0]);
      var m' := MemApply(c, m, run[0]);
      RunIsFlatMemory(c, m', run[1..], t, ln);
      OneTaken(c, m, run[0], ln, TakenBy(c, m', run[1..]));
    }
  }

  lemma {:induction false} OneTaken(c: DConf, m: MemSys, e: MemStep, ln: nat, later: seq<Req>)
    requires SysInv(c, m) && MemEnabled(c, m, e) && StepInMemory(c, e)
    ensures SysInv(c, MemApply(c, m, e))
    ensures FlatAfter(Flat(c, m, ln), ln, Taken(c, m, e) + later)
              == FlatAfter(Flat(c, MemApply(c, m, e), ln), ln, later)
  {
    hide AbsLine, ProcessPort;
    FlatMemory(c, m, e);
    if e.Port? && Takes(c, m, e.p) {
      var r := m.d.pipe[e.p].req;
      assert ([r] + later)[0] == r && ([r] + later)[1..] == later;
    } else {
      assert [] + later == later;
    }
  }

  // ---------------------------------------------------------------- load replies

  /** The word a request addresses, in flat memory now. */
  ghost function WordNow(c: DConf, m: MemSys, r: Req): Lanes
    requires c.sets > 0 && |m.d.cache| == c.sets
  {
    var l := Flat(c, m, r.line);
    if r.off < |l| then l[r.off] else ZERO_LANES
  }

  predicate IsLoad(r: Req, cookie: nat) { !r.write && r.cookie == cookie }

  predicate AnswersLoad(p: Resp, cookie: nat) { !p.isWrite && p.cookie == cookie }

  /** A load of this cookie still in the cache is the one request, and any reply to it, or line it will be answered
    * from, holds one of the `seen` values. */
  ghost predicate Justified(c: DConf, d: DState, r: Req, seen: iset<Lanes>) {
    && (forall p :: 0 <= p < |d.pipe| && d.pipe[p].valid && IsLoad(d.pipe[p].req, r.cookie) ==> d.pipe[p].req == r)
    && (forall p :: 0 <= p < |d.hitPend| && d.hitPend[p].valid && AnswersLoad(d.hitPend[p].resp, r.cookie) ==>
          d.hitPend[p].resp.data in seen)
    && (forall i :: 0 <= i < |d.respQ| && AnswersLoad(d.respQ[i], r.cookie) ==> d.respQ[i].data in seen)
    && (forall i :: 0 <= i < |d.mshrs| && d.mshrs[i].valid ==> WaitersJustified(d.mshrs[i], r, seen))
  }

  ghost predicate WaitersJustified(m: Mshr, r: Req, seen: iset<Lanes>) {
    forall k :: 0 <= k < |m.waiters| && IsLoad(m.waiters[k], r.cookie) ==>
      m.waiters[k] == r && (m.draining ==> r.off < |m.drainLine| && m.drainLine[r.off] in seen)
  }

  lemma {:induction false} MoreSeen(c: DConf, d: DState, r: Req, seen: iset<Lanes>, more: iset<Lanes>)
    requires Justified(c, d, r, seen) && seen <= more
    ensures Justified(c, d, r, more)
  {
    forall i | 0 <= i < |d.mshrs| && d.mshrs[i].valid ensures WaitersJustified(d.mshrs[i], r, more) {
      assert WaitersJustified(d.mshrs[i], r, seen);
    }
  }

  lemma {:induction false} OneMshr(c: DConf, d: DState, i: nat, n: Mshr, r: Req, seen: iset<Lanes>)
    requires Justified(c, d, r, seen) && i < |d.mshrs| && (n.valid ==> WaitersJustified(n, r, seen))
    ensures Justified(c, d.(mshrs := d.mshrs[i := n]), r, seen)
  {
    var mshrs' := d.mshrs[i := n];
    forall k | 0 <= k < |mshrs'| && mshrs'[k].valid ensures WaitersJustified(mshrs'[k], r, seen) {
      if k != i { assert WaitersJustified(d.mshrs[k], r, seen); }
    }
  }

  lemma {:induction false} PortJustified(c: DConf, m: MemSys, p: nat, r: Req, seen: iset<Lanes>)
    requires SysInv(c, m) && p < c.ports && Justified(c, m.d, r, seen) && WordNow(c, m, r) in seen && r.off < c.w
    ensures Justified(c, ProcessPort(c, m.d, p), r, seen)
  {
    var d := m.d;
    if d.pipe[p].valid {
      var req := d.pipe[p].req;
      var s, tag := SetOf(c.sets, req.line), TagOf(c.sets, req.line);
      var existing := FindMshr(d.mshrs, req.line, 0);
      var freed := d.(pipe := d.pipe[p := d.pipe[p].(valid := false)]);
      assert Justified(c, freed, r, seen);
      if existing >= 0 {
        if !Holds(c, d.mshrs[existing]) {
          var e := d.mshrs[existing];
          assert WaitersJustified(e, r, seen);
          OneMshr(c, freed, existing, e.(waiters := e.waiters + [req]), r, seen);
        }
      } else {
        var hit := FindHit(d.cache[s], tag, 0);
        if hit >= 0 {
          HitJustified(c, m, p, hit, r, seen);
        } else {
          var i, v := AllocMshr(d.mshrs, 0), FindVictim(d.cache[s]);
          if i >= 0 && v >= 0 {
            OneMshr(c, freed, i, NewMshr(c, d.cache[s][v], s, v, req), r, seen);
          }
        }
      }
    }
  }

  lemma {:induction false} HitJustified(c: DConf, m: MemSys, p: nat, i: nat, r: Req, seen: iset<Lanes>)
    requires SysInv(c, m) && p < c.ports && m.d.pipe[p].valid && i < c.ways && r.off < c.w
    requires IsResident(m.d.cache[SetOf(c.sets, m.d.pipe[p].req.line)][i], TagOf(c.sets, m.d.pipe[p].req.line))
    requires Justified(c, m.d, r, seen) && WordNow(c, m, r) in seen
    ensures Justified(c, HitPort(c, m.d, p, SetOf(c.sets, m.d.pipe[p].req.line), i), r, seen)
  {
    var req := m.d.pipe[p].req;
    if IsLoad(req, r.cookie) {
      assert req == r;
      AbsResident(c, m.d.cache, m.d.mshrs, m.main, r.line, i);
    }
  }

  lemma {:induction false} FillJustified(c: DConf, m: MemSys, i: nat, r: Req, seen: iset<Lanes>)
    requires SysInv(c, m) && MemEnabled(c, m, Fill(i)) && Justified(c, m.d, r, seen) && WordNow(c, m, r) in seen
    requires r.off < c.w
    ensures Justified(c, MemApply(c, m, Fill(i)).d, r, seen)
  {
    FillNeeds(c, m, i);
    var n := m.d.mshrs[i];
    FillIsMemory(c, m.d.cache, m.d.mshrs, m.main, i);
    assert MshrOk(c, m.d.cache, n) && WaitersJustified(n, r, seen);
    OneMshr(c, m.d, i, Draining(n), r, seen);
  }

  lemma {:induction false} DrainJustified(c: DConf, m: MemSys, r: Req, seen: iset<Lanes>)
    requires SysInv(c, m) && Justified(c, m.d, r, seen)
    ensures Justified(c, MemApply(c, m, Drain).d, r, seen)
  {
    DrainNeeds(c, m);
    var i := DrainTurn(m.d);
    if i >= 0 {
      var n := m.d.mshrs[i];
      assert WaitersJustified(n, r, seen);
      OneMshr(c, m.d, i, Answered(n), r, seen);
    }
  }

  lemma {:induction false} DramJustified(c: DConf, m: MemSys, e: MemStep, r: Req, seen: iset<Lanes>)
    requires SysInv(c, m) && MemEnabled(c, m, e) && Justified(c, m.d, r, seen)
    requires e.SlotTick? || e.Reply? || e.CacheToDram? || e.OtherToDram?
    ensures Justified(c, MemApply(c, m, e).d, r, seen)
  {
    var d := m.d;
    if e.CacheToDram? {
      var i := PickDramMshr(d.mshrs);
      assert WaitersJustified(d.mshrs[i], r, seen);
      OneMshr(c, d, i, DramAccepted(d).mshrs[i], r, seen);
    } else if e.Reply? && m.slots[e.k].client.FromD? {
      var i := m.slots[e.k].client.mshr;
      if i < |d.mshrs| && d.mshrs[i].valid {
        assert WaitersJustified(d.mshrs[i], r, seen);
        OneMshr(c, d, i, DramReplied(c, d, i, m.slots[e.k].data).mshrs[i], r, seen);
      }
    }
  }

  lemma {:induction false} SideJustified(c: DConf, m: MemSys, e: MemStep, r: Req, seen: iset<Lanes>)
    requires SysInv(c, m) && MemEnabled(c, m, e) && Justified(c, m.d, r, seen)
    requires e.Emit? || e.Take? || (e.Accept? && !IsLoad(e.req, r.cookie))
    ensures Justified(c, MemApply(c, m, e).d, r, seen)
  {
  }

  /** Every step keeps every reply to the load equal to a value its word has had. */
  lemma {:induction false} StepJustified(c: DConf, m: MemSys, e: MemStep, r: Req, seen: iset<Lanes>)
    requires SysInv(c, m) && MemEnabled(c, m, e) && Justified(c, m.d, r, seen) && WordNow(c, m, r) in seen
    requires r.off < c.w
    requires e.Accept? ==> !IsLoad(e.req, r.cookie)
    ensures Justified(c, MemApply(c, m, e).d, r, seen)
  {
    match e
    case Port(p) => PortJustified(c, m, p, r, seen);
    case Fill(i) => FillJustified(c, m, i, r, seen);
    case Drain => DrainJustified(c, m, r, seen);
    case SlotTick(_) => DramJustified(c, m, e, r, seen);
    case Reply(_) => DramJustified(c, m, e, r, seen);
    case CacheToDram(_, _) => DramJustified(c, m, e, r, seen);
    case OtherToDram(_, _) => DramJustified(c, m, e, r, seen);
    case _ => SideJustified(c, m, e, r, seen);
  }

  /** The values the request's word has had along a run, the first state included. */
  ghost function Seen(c: DConf, m: MemSys, run: seq<MemStep>, r: Req): iset<Lanes>
    requires SysInv(c, m)
    decreases |run|
  {
    iset{WordNow(c, m, r)} +
    if run == [] || !MemEnabled(c, m, run[0]) || !StepInMemory(c, run[0]) then iset{}
    else
      FlatMemory(c, m, run[0]);
      Seen(c, MemApply(c, m, run[0]), run[1..], r)
  }

  lemma {:induction false} RunJustified(c: DConf, m: MemSys, run: seq<MemStep>, t: MemSys, r: Req, seen: iset<Lanes>)
    requires SysInv(c, m) && MemReaches(c, m, run, t) && r.off < c.w
    requires Justified(c, m.d, r, seen) && WordNow(c, m, r) in seen
    requires forall k :: 0 <= k < |run| && run[k].Accept? ==> !IsLoad(run[k].req, r.cookie)
    ensures Justified(c, t.d, r, seen + Seen(c, m, run, r))
    decreases |run|
  {
    hide MemApply, AbsLine, ProcessPort, Justified;
    if run == [] {
      MoreSeen(c, m.d, r, seen, seen + Seen(c, m, run, r));
    } else {
      FlatMemory(c, m, run[0]);
      StepJustified(c, m, run[0], r, seen);
      var m' := MemApply(c, m, run[0]);
      var more := seen + iset{WordNow(c, m', r)};
      MoreSeen(c, m'.d, r, seen, more);
      RunJustified(c, m', run[1..], t, r, more);
      assert more + Seen(c, m', run[1..], r) == seen + Seen(c, m, run, r);
    }
  }

  /** No request of the cookie is in the cache. */
  ghost predicate CookieFree(d: DState, cookie: nat) {
    && (forall p :: 0 <= p < |d.pipe| && d.pipe[p].valid ==> !IsLoad(d.pipe[p].req, cookie))
    && (forall p :: 0 <= p < |d.hitPend| && d.hitPend[p].valid ==> !AnswersLoad(d.hitPend[p].resp, cookie))
    && (forall i :: 0 <= i < |d.respQ| ==> !AnswersLoad(d.respQ[i], cookie))
    && (forall i, k :: 0 <= i < |d.mshrs| && d.mshrs[i].valid && 0 <= k < |d.mshrs[i].waiters| ==>
         !IsLoad(d.mshrs[i].waiters[k], cookie))
  }

  /** A load's reply is the flat memory's word at some moment between its acceptance and the reply. */
  lemma {:induction false} LoadReply(c: DConf, m: MemSys, p: nat, r: Req, run: seq<MemStep>, t: MemSys, i: nat)
    requires SysInv(c, m) && MemEnabled(c, m, Accept(p, r)) && InMemory(c.words, c.w, r)
    requires !r.write && CookieFree(m.d, r.cookie)
    requires SysInv(c, MemApply(c, m, Accept(p, r))) && MemReaches(c, MemApply(c, m, Accept(p, r)), run, t)
    requires forall k :: 0 <= k < |run| && run[k].Accept? ==> !IsLoad(run[k].req, r.cookie)
    requires i < |t.d.respQ| && AnswersLoad(t.d.respQ[i], r.cookie)
    ensures t.d.respQ[i].data in Seen(c, MemApply(c, m, Accept(p, r)), run, r)
  {
    var a := MemApply(c, m, Accept(p, r));
    var now := iset{WordNow(c, a, r)};
    AcceptedAlone(c, m, p, r, now);
    RunJustified(c, a, run, t, r, now);
    SeenNow(c, a, run, r);
  }

  lemma {:induction false} AcceptedAlone(c: DConf, m: MemSys, p: nat, r: Req, seen: iset<Lanes>)
    requires SysInv(c, m) && MemEnabled(c, m, Accept(p, r)) && !r.write && CookieFree(m.d, r.cookie)
    ensures Justified(c, MemApply(c, m, Accept(p, r)).d, r, seen)
  {
    var d := MemApply(c, m, Accept(p, r)).d;
    forall i | 0 <= i < |d.mshrs| && d.mshrs[i].valid ensures WaitersJustified(d.mshrs[i], r, seen) {
    }
  }

  lemma {:induction false} SeenNow(c: DConf, m: MemSys, run: seq<MemStep>, r: Req)
    requires SysInv(c, m)
    ensures iset{WordNow(c, m, r)} + Seen(c, m, run, r) == Seen(c, m, run, r)
  {
  }
}
