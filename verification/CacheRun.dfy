/** A whole cycle of the memory system, step by step: one flat memory, and every load answered from it. */
module CacheRun {
  import opened Words
  import opened MemTypes
  import opened CacheModel
  import opened CacheInv
  import opened CacheSteps
  import opened CacheMiss

  // ---------------------------------------------------------------- the fill becomes resident

  lemma {:induction false} NoStores(l: Line, reqs: seq<Req>)
    requires AllIn(reqs, |l|) && forall k :: 0 <= k < |reqs| ==> !reqs[k].write
    ensures ApplyStores(l, reqs) == l
  {
    if reqs != [] {
      NoStores(l, reqs[..|reqs| - 1]);
    }
  }

  /** What an arrived fill amounts to: the flat memory's line. */
  lemma {:induction false} FillIsMemory(c: DConf, cache: seq<seq<Way>>, mshrs: seq<Mshr>, main: seq<Lanes>, i: nat)
    requires DataOk(c, cache, mshrs, main) && i < |mshrs| && mshrs[i].valid && mshrs[i].fillReady
    ensures var m := mshrs[i];
            && !m.draining && |m.fill| == c.w && AllIn(m.waiters, |m.fill|)
            && ApplyStores(m.fill, m.waiters) == AbsLine(c, cache, mshrs, main, m.line)
            && Fits(c.words, c.w, m.line, ApplyStores(m.fill, m.waiters))
  {
    var m := mshrs[i];
    assert MshrOk(c, cache, m);
    forall k | 0 <= k < |mshrs| ensures !(Pending(mshrs[k]) && mshrs[k].wbLine == m.line) {
      if k != i && mshrs[k].valid { assert Compatible(mshrs[k], m); }
    }
    assert BaseLine(c, mshrs, main, m.line) == MainLine(main, c.w, m.line);
    AbsOwned(c, cache, mshrs, main, m.line, i);
    MainFits(main, c.w, m.line);
    WaitersFit(c, cache, mshrs, main, i, m.fill);
  }

  /** Installing a line makes it resident and no other line come or go. */
  lemma {:induction false} InstallHits(c: DConf, cache: seq<seq<Way>>, home: nat, v: nat, way: Way, ln: nat)
    requires WaysOk(c, cache) && v < c.ways && cache[SetOf(c.sets, home)][v].reserved
    requires IsResident(way, TagOf(c.sets, home)) && NotResident(c, cache, home)
    ensures var cache', t := PutWay(cache, SetOf(c.sets, home), v, way), SetOf(c.sets, ln);
            && (ln == home ==> IsResident(cache'[t][v], TagOf(c.sets, ln)))
            && (ln != home ==> FindHit(cache'[t], TagOf(c.sets, ln), 0) == FindHit(cache[t], TagOf(c.sets, ln), 0))
            && (ln != home && NotResident(c, cache, ln) ==> NotResident(c, cache', ln))
  {
    var s, t := SetOf(c.sets, home), SetOf(c.sets, ln);
    var cache' := PutWay(cache, s, v, way);
    LineOfParts(c.sets, home);
    LineOfParts(c.sets, ln);
    if ln != home {
      SameHit(cache[t], cache'[t], TagOf(c.sets, ln));
    }
  }

  lemma {:induction false} InstallWays(c: DConf, cache: seq<seq<Way>>, home: nat, v: nat, way: Way)
    requires WaysOk(c, cache) && v < c.ways && cache[SetOf(c.sets, home)][v].reserved
    requires IsResident(way, TagOf(c.sets, home)) && NotResident(c, cache, home) && WayOk(c, SetOf(c.sets, home), way)
    ensures WaysOk(c, PutWay(cache, SetOf(c.sets, home), v, way))
  {
    var s := SetOf(c.sets, home);
    var cache' := PutWay(cache, s, v, way);
    forall t, j | 0 <= t < c.sets && 0 <= j < c.ways ensures WayOk(c, t, cache'[t][j]) {
      assert WayOk(c, t, cache[t][j]);
    }
    forall t, j, k | 0 <= t < c.sets && 0 <= j < k < c.ways && IsResident(cache'[t][j], cache'[t][j].tag)
      ensures !IsResident(cache'[t][k], cache'[t][j].tag)
    {
      if t != s || (j != v && k != v) {
        assert IsResident(cache[t][j], cache[t][j].tag);
      } else if k == v {
        assert !IsResident(cache[s][j], TagOf(c.sets, home));
      }
    }
  }

  lemma {:induction false} InstallMshrs(c: DConf, cache: seq<seq<Way>>, mshrs: seq<Mshr>, main: seq<Lanes>, i: nat,
                                        lru: nat)
    requires DataOk(c, cache, mshrs, main) && i < |mshrs| && mshrs[i].valid && mshrs[i].fillReady
    requires AllIn(mshrs[i].waiters, |mshrs[i].fill|) && mshrs[i].setIdx < c.sets && mshrs[i].wayIdx < c.ways
    requires WaysOk(c, PutWay(cache, mshrs[i].setIdx, mshrs[i].wayIdx, Installed(c, mshrs[i], lru)))
    ensures var m := mshrs[i];
            MshrsOk(c, PutWay(cache, m.setIdx, m.wayIdx, Installed(c, m, lru)), mshrs[i := Draining(m)])
  {
    var m := mshrs[i];
    assert MshrOk(c, cache, m);
    var way := Installed(c, m, lru);
    var cache', mshrs' := PutWay(cache, m.setIdx, m.wayIdx, way), mshrs[i := Draining(m)];
    forall k | 0 <= k < |mshrs'| && mshrs'[k].valid ensures MshrOk(c, cache', mshrs'[k]) {
      assert MshrOk(c, cache, mshrs[k]);
      if k != i {
        assert Compatible(mshrs[k], m);
        InstallHits(c, cache, m.line, m.wayIdx, way, mshrs[k].line);
        InstallHits(c, cache, m.line, m.wayIdx, way, mshrs[k].wbLine);
      }
    }
    forall k, l | 0 <= k < |mshrs'| && 0 <= l < |mshrs'| && k != l && mshrs'[k].valid && mshrs'[l].valid
      ensures Compatible(mshrs'[k], mshrs'[l])
    {
      assert Compatible(mshrs[k], mshrs[l]);
    }
  }

  lemma {:induction false} InstallClean(c: DConf, cache: seq<seq<Way>>, mshrs: seq<Mshr>, main: seq<Lanes>, i: nat,
                                        lru: nat)
    requires DataOk(c, cache, mshrs, main) && i < |mshrs| && mshrs[i].valid && mshrs[i].fillReady
    requires AllIn(mshrs[i].waiters, |mshrs[i].fill|) && mshrs[i].setIdx < c.sets && mshrs[i].wayIdx < c.ways
    requires WaysOk(c, PutWay(cache, mshrs[i].setIdx, mshrs[i].wayIdx, Installed(c, mshrs[i], lru)))
    ensures CleanOk(c, PutWay(cache, mshrs[i].setIdx, mshrs[i].wayIdx, Installed(c, mshrs[i], lru)), main)
  {
    var m := mshrs[i];
    assert MshrOk(c, cache, m);
    var way := Installed(c, m, lru);
    var cache' := PutWay(cache, m.setIdx, m.wayIdx, way);
    LineOfParts(c.sets, m.line);
    if !way.dirty {
      NoStores(m.fill, m.waiters);
    }
    forall t, j | 0 <= t < c.sets && 0 <= j < c.ways ensures CleanWay(c, t, cache'[t][j], main) {
      assert CleanWay(c, t, cache[t][j], main);
    }
  }

  /** The fetched line with the waiting stores applied takes the register's place: flat memory is the same. */
  lemma {:induction false} InstallOk(c: DConf, cache: seq<seq<Way>>, mshrs: seq<Mshr>, main: seq<Lanes>, i: nat,
                                     lru: nat)
    requires DataOk(c, cache, mshrs, main) && i < |mshrs| && mshrs[i].valid && mshrs[i].fillReady
    ensures var m := mshrs[i];
            && AllIn(m.waiters, |m.fill|) && m.setIdx < c.sets && m.wayIdx < c.ways
            && DataOk(c, PutWay(cache, m.setIdx, m.wayIdx, Installed(c, m, lru)), mshrs[i := Draining(m)], main)
  {
    var m := mshrs[i];
    FillIsMemory(c, cache, mshrs, main, i);
    assert MshrOk(c, cache, m);
    LineOfParts(c.sets, m.line);
    InstallWays(c, cache, m.line, m.wayIdx, Installed(c, m, lru));
    InstallMshrs(c, cache, mshrs, main, i, lru);
    InstallClean(c, cache, mshrs, main, i, lru);
  }

  lemma {:induction false} Install(c: DConf, cache: seq<seq<Way>>, mshrs: seq<Mshr>, main: seq<Lanes>, i: nat, lru: nat)
    requires DataOk(c, cache, mshrs, main) && i < |mshrs| && mshrs[i].valid && mshrs[i].fillReady
    ensures var m := mshrs[i];
            && AllIn(m.waiters, |m.fill|) && m.setIdx < c.sets && m.wayIdx < c.ways
            && DataOk(c, PutWay(cache, m.setIdx, m.wayIdx, Installed(c, m, lru)), mshrs[i := Draining(m)], main)
            && SameMemory(c, cache, mshrs, main, PutWay(cache, m.setIdx, m.wayIdx, Installed(c, m, lru)),
                 mshrs[i := Draining(m)], main)
  {
    InstallOk(c, cache, mshrs, main, i, lru);
    var m := mshrs[i];
    var cache', mshrs' := PutWay(cache, m.setIdx, m.wayIdx, Installed(c, m, lru)), mshrs[i := Draining(m)];
    forall ln: nat ensures AbsLine(c, cache', mshrs', main, ln) == AbsLine(c, cache, mshrs, main, ln) {
      InstallLine(c, cache, mshrs, main, i, lru, ln);
    }
  }

  /** Installing a line changes no line of the flat memory. */
  lemma {:induction false} InstallLine(c: DConf, cache: seq<seq<Way>>, mshrs: seq<Mshr>, main: seq<Lanes>, i: nat,
                                       lru: nat, ln: nat)
    requires DataOk(c, cache, mshrs, main) && i < |mshrs| && mshrs[i].valid && mshrs[i].fillReady
    requires var m := mshrs[i];
             && AllIn(m.waiters, |m.fill|) && m.setIdx < c.sets && m.wayIdx < c.ways
             && DataOk(c, PutWay(cache, m.setIdx, m.wayIdx, Installed(c, m, lru)), mshrs[i := Draining(m)], main)
    ensures var m := mshrs[i];
            var cache', mshrs' := PutWay(cache, m.setIdx, m.wayIdx, Installed(c, m, lru)), mshrs[i := Draining(m)];
            AbsLine(c, cache', mshrs', main, ln) == AbsLine(c, cache, mshrs, main, ln)
  {
    var m := mshrs[i];
    FillIsMemory(c, cache, mshrs, main, i);
    assert MshrOk(c, cache, m);
    var way := Installed(c, m, lru);
    var cache', mshrs' := PutWay(cache, m.setIdx, m.wayIdx, way), mshrs[i := Draining(m)];
    InstallHits(c, cache, m.line, m.wayIdx, way, ln);
    if ln == m.line {
      AbsResident(c, cache', mshrs', main, ln, m.wayIdx);
    } else {
      SameOwner(mshrs, mshrs', ln);
      SamePending(mshrs, mshrs', ln);
      var t := SetOf(c.sets, ln);
      var hit := FindHit(cache[t], TagOf(c.sets, ln), 0);
      assert hit >= 0 ==> cache'[t][hit] == cache[t][hit];
    }
  }

  lemma {:induction false} DrainedOk(c: DConf, cache: seq<seq<Way>>, mshrs: seq<Mshr>, main: seq<Lanes>, i: nat,
                                     n: Mshr)
    requires DataOk(c, cache, mshrs, main) && i < |mshrs| && mshrs[i].valid && mshrs[i].draining
    requires n == NO_MSHR || (n == mshrs[i].(drainIdx := n.drainIdx) && n.drainIdx <= |n.waiters|)
    ensures DataOk(c, cache, mshrs[i := n], main) && SameTraffic(mshrs[i], n)
  {
    var mshrs' := mshrs[i := n];
    assert MshrOk(c, cache, mshrs[i]);
    forall k | 0 <= k < |mshrs'| && mshrs'[k].valid ensures MshrOk(c, cache, mshrs'[k]) {
      assert MshrOk(c, cache, mshrs[k]);
    }
    forall k, l | 0 <= k < |mshrs'| && 0 <= l < |mshrs'| && k != l && mshrs'[k].valid && mshrs'[l].valid
      ensures Compatible(mshrs'[k], mshrs'[l])
    {
      assert Compatible(mshrs[k], mshrs[l]);
    }
  }

  /** A draining register, or none in its place, owns and withholds nothing. */
  lemma {:induction false} Drained(c: DConf, cache: seq<seq<Way>>, mshrs: seq<Mshr>, main: seq<Lanes>, i: nat, n: Mshr)
    requires DataOk(c, cache, mshrs, main) && i < |mshrs| && mshrs[i].valid && mshrs[i].draining
    requires n == NO_MSHR || (n == mshrs[i].(drainIdx := n.drainIdx) && n.drainIdx <= |n.waiters|)
    ensures DataOk(c, cache, mshrs[i := n], main)
    ensures SameMemory(c, cache, mshrs, main, cache, mshrs[i := n], main)
    ensures SameTraffic(mshrs[i], n)
  {
    var mshrs' := mshrs[i := n];
    DrainedOk(c, cache, mshrs, main, i, n);
    assert MshrOk(c, cache, mshrs[i]);
    hide MshrOk, Compatible;
    forall ln: nat ensures AbsLine(c, cache, mshrs', main, ln) == AbsLine(c, cache, mshrs, main, ln) {
      SameOwner(mshrs, mshrs', ln);
      SamePending(mshrs, mshrs', ln);
    }
  }

  // ---------------------------------------------------------------- the memory system as a state machine

  /** Cache, DRAM slots and main memory. */
  datatype MemSys = MemSys(d: DState, slots: seq<DramSlot>, main: seq<Lanes>)

  ghost predicate PipesOk(c: DConf, d: DState) {
    forall p :: 0 <= p < |d.pipe| && d.pipe[p].valid ==> InMemory(c.words, c.w, d.pipe[p].req)
  }

  /** The invariant of every reachable state of the memory system. */
  ghost predicate SysInv(c: DConf, m: MemSys) {
    && Shaped(c, m.d) && PipesOk(c, m.d)
    && DataOk(c, m.d.cache, m.d.mshrs, m.main)
    && DramOk(c, m.d.mshrs, m.d.dramMshr, m.d.dramIsWb, m.slots, m.main)
  }

  ghost function Flat(c: DConf, m: MemSys, ln: nat): Line
    requires c.sets > 0 && |m.d.cache| == c.sets
  {
    AbsLine(c, m.d.cache, m.d.mshrs, m.main, ln)
  }

  ghost predicate FlatSame(c: DConf, m: MemSys, m': MemSys)
    requires c.sets > 0 && |m.d.cache| == c.sets && |m'.d.cache| == c.sets
  {
    SameMemory(c, m.d.cache, m.d.mshrs, m.main, m'.d.cache, m'.d.mshrs, m'.main)
  }

  /** The steps of a cycle, in the order the memory system takes them; a request may be accepted, and replies taken,
    * between cycles. `latency` is the DRAM's; another client may take a free slot for a read. */
  datatype MemStep =
    | SlotTick(k: nat) | Reply(k: nat) | CacheToDram(k: nat, latency: nat) | OtherToDram(k: nat, slot: DramSlot)
    | Emit(p: nat) | Port(p: nat) | Fill(i: nat) | Drain
    | Accept(p: nat, req: Req) | Take

  predicate MemEnabled(c: DConf, m: MemSys, e: MemStep)
    requires Shaped(c, m.d)
  {
    match e
    case SlotTick(k) => k < |m.slots|
    case Reply(k) => k < |m.slots| && m.slots[k].valid && m.slots[k].cycles == 0
    case CacheToDram(k, latency) =>
      m.d.dramMshr < 0 && PickDramMshr(m.d.mshrs) >= 0 && k < |m.slots| && !m.slots[k].valid && latency > 0
    case OtherToDram(k, slot) => k < |m.slots| && !m.slots[k].valid && slot.client.FromI? && !slot.write
    case Emit(p) => p < c.ports
    case Port(p) => p < c.ports
    case Fill(i) => i < c.mshrCount && m.d.mshrs[i].valid && m.d.mshrs[i].fillReady
    case Drain => true
    case Accept(p, req) => p < c.ports && !m.d.pipe[p].valid && !m.d.hitPend[p].valid && req.off < c.w
    case Take => m.d.respQ != []
  }

  /** A request's address, if it stores, is inside memory. */
  ghost predicate StepInMemory(c: DConf, e: MemStep) {
    e.Accept? ==> InMemory(c.words, c.w, e.req)
  }

  ghost function MemApply(c: DConf, m: MemSys, e: MemStep): MemSys
    requires SysInv(c, m) && MemEnabled(c, m, e)
  {
    match e
    case SlotTick(k) =>
      assert SlotOk(c, m.d.mshrs, m.d.dramMshr, m.d.dramIsWb, m.slots[k], m.main);
      m.(slots := m.slots[k := TickSlot(m.slots[k])], main := TickMain(c.w, m.slots[k], m.main))
    case Reply(k) =>
      var freed := m.(slots := m.slots[k := NO_SLOT]);
      if m.slots[k].client.FromD? then freed.(d := DramReplied(c, m.d, m.slots[k].client.mshr,
          m.slots[k].data)) else freed
    case CacheToDram(k, latency) =>
      var i := PickDramMshr(m.d.mshrs);
      var slot := if WantsWb(m.d.mshrs[i]) then WbSlot(m.d.mshrs[i], i, latency) else FillSlot(c, m.d.mshrs[i], i,
          latency, m.main);
      m.(d := DramAccepted(m.d), slots := m.slots[k := slot])
    case OtherToDram(k, slot) => m.(slots := m.slots[k := slot])
    case Emit(p) => m.(d := EmitHit(m.d, p))
    case Port(p) => m.(d := ProcessPort(c, m.d, p))
    case Fill(i) => FillNeeds(c, m, i); m.(d := CompleteFill(c, m.d, i))
    case Drain => DrainNeeds(c, m); m.(d := StepDrain(m.d))
    case Accept(p, req) => m.(d := m.d.(pipe := m.d.pipe[p := Pipe(true, req)], cpuAccepts := m.d.cpuAccepts + 1))
    case Take => m.(d := m.d.(respQ := m.d.respQ[1..]))
  }

  lemma {:induction false} FillNeeds(c: DConf, m: MemSys, i: nat)
    requires SysInv(c, m) && i < c.mshrCount && m.d.mshrs[i].valid && m.d.mshrs[i].fillReady
    ensures var r := m.d.mshrs[i]; r.setIdx < c.sets && r.wayIdx < c.ways && AllIn(r.waiters, |r.fill|)
  {
    assert MshrOk(c, m.d.cache, m.d.mshrs[i]);
  }

  lemma {:induction false} DrainNeeds(c: DConf, m: MemSys)
    requires SysInv(c, m)
    ensures forall i :: 0 <= i < |m.d.mshrs| && m.d.mshrs[i].valid && m.d.mshrs[i].draining ==>
              forall k :: 0 <= k < |m.d.mshrs[i].waiters| ==> m.d.mshrs[i].waiters[k].off < |m.d.mshrs[i].drainLine|
  {
    forall i | 0 <= i < |m.d.mshrs| && m.d.mshrs[i].valid && m.d.mshrs[i].draining
      ensures forall k :: 0 <= k < |m.d.mshrs[i].waiters| ==> m.d.mshrs[i].waiters[k].off < |m.d.mshrs[i].drainLine|
    {
      assert MshrOk(c, m.d.cache, m.d.mshrs[i]);
    }
  }

  /** Does the step take a request out of the compare pipe? */
  predicate Takes(c: DConf, m: MemSys, p: nat)
    requires Shaped(c, m.d) && p < c.ports
  {
    m.d.pipe[p].valid && !ProcessPort(c, m.d, p).pipe[p].valid
  }

  /** A port's step: if it takes its request, flat memory changes by that request alone; otherwise not at all. */
  lemma {:induction false} PortStep(c: DConf, m: MemSys, p: nat)
    requires SysInv(c, m) && p < c.ports
    ensures var m' := m.(d := ProcessPort(c, m.d, p));
            && SysInv(c, m')
            && (if Takes(c, m, p) then Requested(c, m.d.cache, m.d.mshrs, m'.d.cache, m'.d.mshrs, m.main,
                 m.d.pipe[p].req)
                else FlatSame(c, m, m'))
  {
    var d := m.d;
    if d.pipe[p].valid {
      var req := d.pipe[p].req;
      var s, tag := SetOf(c.sets, req.line), TagOf(c.sets, req.line);
      var existing := FindMshr(d.mshrs, req.line, 0);
      if existing >= 0 {
        if !Holds(c, d.mshrs[existing]) { JoinStep(c, m, p, existing); }
      } else {
        var hit := FindHit(d.cache[s], tag, 0);
        if hit >= 0 {
          HitStep(c, m, p, hit);
        } else {
          var i, v := AllocMshr(d.mshrs, 0), FindVictim(d.cache[s]);
          if i >= 0 && v >= 0 { MissStep(c, m, p, v, i); }
        }
      }
    }
  }

  lemma {:induction false} JoinStep(c: DConf, m: MemSys, p: nat, i: nat)
    requires SysInv(c, m) && p < c.ports && m.d.pipe[p].valid && i < c.mshrCount
    requires m.d.mshrs[i].valid && m.d.mshrs[i].line == m.d.pipe[p].req.line && !Holds(c, m.d.mshrs[i])
    ensures var m' := m.(d := JoinMshr(m.d, p, i));
            SysInv(c, m') && Requested(c, m.d.cache, m.d.mshrs, m'.d.cache, m'.d.mshrs, m.main, m.d.pipe[p].req)
  {
    var d, r := m.d, m.d.mshrs[i];
    assert MshrOk(c, d.cache, r);
    Join(c, d.cache, d.mshrs, m.main, i, d.pipe[p].req);
    TrafficOk(c, d.mshrs, i, r.(waiters := r.waiters + [d.pipe[p].req]), d.dramMshr, d.dramIsWb, m.slots, m.main);
  }

  lemma {:induction false} HitStep(c: DConf, m: MemSys, p: nat, i: nat)
    requires SysInv(c, m) && p < c.ports && m.d.pipe[p].valid && i < c.ways
    requires IsResident(m.d.cache[SetOf(c.sets, m.d.pipe[p].req.line)][i], TagOf(c.sets, m.d.pipe[p].req.line))
    ensures var req := m.d.pipe[p].req;
            var m' := m.(d := HitPort(c, m.d, p, SetOf(c.sets, req.line), i));
            && SysInv(c, m')
            && (!m'.d.pipe[p].valid ==> Requested(c, m.d.cache, m.d.mshrs, m'.d.cache, m'.d.mshrs, m.main, req))
            && (m'.d.pipe[p].valid ==> FlatSame(c, m, m'))
  {
    var d, req := m.d, m.d.pipe[p].req;
    if req.write {
      StoreHit(c, d.cache, d.mshrs, m.main, req, i, d.lruClock);
    } else {
      LoadHit(c, d.cache, d.mshrs, m.main, req, i, d.lruClock);
    }
  }

  lemma {:induction false} MissStep(c: DConf, m: MemSys, p: nat, v: nat, i: nat)
    requires SysInv(c, m) && p < c.ports && m.d.pipe[p].valid
    requires CanMiss(c, m.d.cache, m.d.mshrs, m.d.pipe[p].req, v, i)
    ensures var req := m.d.pipe[p].req;
            var m' := m.(d := MissPort(c, m.d, p, SetOf(c.sets, req.line), v, i));
            SysInv(c, m') && Requested(c, m.d.cache, m.d.mshrs, m'.d.cache, m'.d.mshrs, m.main, req)
  {
    var d, req := m.d, m.d.pipe[p].req;
    var s := SetOf(c.sets, req.line);
    Miss(c, d.cache, d.mshrs, m.main, req, v, i);
    TrafficOk(c, d.mshrs, i, NewMshr(c, d.cache[s][v], s, v, req), d.dramMshr, d.dramIsWb, m.slots, m.main);
  }

  // ---------------------------------------------------------------- the other steps change no memory

  lemma {:induction false} SlotTickStep(c: DConf, m: MemSys, k: nat)
    requires SysInv(c, m) && k < |m.slots|
    ensures var m' := MemApply(c, m, SlotTick(k)); SysInv(c, m') && FlatSame(c, m, m')
  {
    SlotTicks(c, m.d.cache, m.d.mshrs, m.d.dramMshr, m.d.dramIsWb, m.slots, m.main, k);
  }

  lemma {:induction false} ReplyStep(c: DConf, m: MemSys, k: nat)
    requires SysInv(c, m) && MemEnabled(c, m, Reply(k))
    ensures var m' := MemApply(c, m, Reply(k)); SysInv(c, m') && FlatSame(c, m, m')
  {
    var d := m.d;
    if m.slots[k].client.FromD? {
      var i := m.slots[k].client.mshr;
      assert SlotOk(c, d.mshrs, d.dramMshr, d.dramIsWb, m.slots[k], m.main);
      if d.dramIsWb {
        WbReplied(c, d.cache, d.mshrs, d.dramMshr, m.slots, m.main, k, i);
      } else {
        FillReplied(c, d.cache, d.mshrs, d.dramMshr, m.slots, m.main, k, i);
      }
    } else {
      OtherReplied(c, d.mshrs, d.dramMshr, d.dramIsWb, m.slots, m.main, k);
    }
  }

  lemma {:induction false} AcceptedStep(c: DConf, m: MemSys, k: nat, latency: nat)
    requires SysInv(c, m) && MemEnabled(c, m, CacheToDram(k, latency))
    ensures var m' := MemApply(c, m, CacheToDram(k, latency)); SysInv(c, m') && FlatSame(c, m, m')
  {
    var d := m.d;
    var i := PickDramMshr(d.mshrs);
    if WantsWb(d.mshrs[i]) {
      WbAccepted(c, d.cache, d.mshrs, d.dramIsWb, m.slots, m.main, i, k, latency);
    } else {
      FillAccepted(c, d.cache, d.mshrs, d.dramIsWb, m.slots, m.main, i, k, latency);
    }
  }

  lemma {:induction false} FillStep(c: DConf, m: MemSys, i: nat)
    requires SysInv(c, m) && MemEnabled(c, m, Fill(i))
    ensures var m' := MemApply(c, m, Fill(i)); SysInv(c, m') && FlatSame(c, m, m')
  {
    var d := m.d;
    Install(c, d.cache, d.mshrs, m.main, i, d.lruClock);
    FillIsMemory(c, d.cache, d.mshrs, m.main, i);
    TrafficOk(c, d.mshrs, i, Draining(d.mshrs[i]), d.dramMshr, d.dramIsWb, m.slots, m.main);
  }

  lemma {:induction false} DrainOneOk(c: DConf, m: MemSys, i: nat)
    requires SysInv(c, m) && i < c.mshrCount && m.d.mshrs[i].valid && m.d.mshrs[i].draining
    ensures var mshrs' := m.d.mshrs[i := Answered(m.d.mshrs[i])];
            && DataOk(c, m.d.cache, mshrs', m.main)
            && SameMemory(c, m.d.cache, m.d.mshrs, m.main, m.d.cache, mshrs', m.main)
            && DramOk(c, mshrs', m.d.dramMshr, m.d.dramIsWb, m.slots, m.main)
  {
    var d := m.d;
    assert MshrOk(c, d.cache, d.mshrs[i]);
    Drained(c, d.cache, d.mshrs, m.main, i, Answered(d.mshrs[i]));
    TrafficOk(c, d.mshrs, i, Answered(d.mshrs[i]), d.dramMshr, d.dramIsWb, m.slots, m.main);
  }

  lemma {:induction false} DrainStep(c: DConf, m: MemSys)
    requires SysInv(c, m)
    ensures var m' := MemApply(c, m, Drain); SysInv(c, m') && FlatSame(c, m, m')
  {
    DrainNeeds(c, m);
    var i := DrainTurn(m.d);
    if i >= 0 {
      DrainOneOk(c, m, i);
    }
  }

  lemma {:induction false} SideStep(c: DConf, m: MemSys, e: MemStep)
    requires SysInv(c, m) && MemEnabled(c, m, e) && StepInMemory(c, e)
    requires e.Emit? || e.Accept? || e.Take? || e.OtherToDram?
    ensures var m' := MemApply(c, m, e); SysInv(c, m') && FlatSame(c, m, m')
  {
    if e.OtherToDram? {
      OtherAccepted(c, m.d.mshrs, m.d.dramMshr, m.d.dramIsWb, m.slots, m.main, e.k, e.slot);
    }
  }

  /** What a step does to flat memory: a request taken from its pipe acts alone; nothing else does anything. */
  ghost predicate StepEffect(c: DConf, m: MemSys, e: MemStep, m': MemSys)
    requires Shaped(c, m.d) && |m'.d.cache| == c.sets && MemEnabled(c, m, e)
  {
    if e.Port? && Takes(c, m, e.p)
    then Requested(c, m.d.cache, m.d.mshrs, m'.d.cache, m'.d.mshrs, m.main, m.d.pipe[e.p].req)
    else FlatSame(c, m, m')
  }

  /** The cache and DRAM together are a flat memory: every step keeps the invariant, a store taken from its pipe
    * changes one masked word, and evictions, write-backs, fills and drains change nothing. */
  lemma {:induction false} FlatMemory(c: DConf, m: MemSys, e: MemStep)
    requires SysInv(c, m) && MemEnabled(c, m, e) && StepInMemory(c, e)
    ensures SysInv(c, MemApply(c, m, e)) && StepEffect(c, m, e, MemApply(c, m, e))
  {
    match e
    case SlotTick(k) => SlotTickStep(c, m, k);
    case Reply(k) => ReplyStep(c, m, k);
    case CacheToDram(k, latency) => AcceptedStep(c, m, k, latency);
    case Port(p) => PortStep(c, m, p);
    case Fill(i) => FillStep(c, m, i);
    case Drain => DrainStep(c, m);
    case _ => SideStep(c, m, e);
  }
}
