/** Misses, write-backs, fills and drains: none of them changes the flat memory, except for the missing store itself. */
module CacheMiss {
  import opened Words
  import opened MemTypes
  import opened CacheModel
  import opened CacheInv
  import opened CacheSteps

  // ---------------------------------------------------------------- a miss reserves a victim

  /** Nobody holds or fetches the line, and way `v` and register `i` are free to take. */
  ghost predicate CanMiss(c: DConf, cache: seq<seq<Way>>, mshrs: seq<Mshr>, r: Req, v: nat, i: nat)
    requires WaysOk(c, cache)
  {
    && InMemory(c.words, c.w, r) && v < c.ways && i < |mshrs| && !mshrs[i].valid
    && !cache[SetOf(c.sets, r.line)][v].reserved
    && NotResident(c, cache, r.line)
    && forall k :: 0 <= k < |mshrs| && mshrs[k].valid ==> mshrs[k].line != r.line
  }

  function Reserve(c: DConf, cache: seq<seq<Way>>, s: nat, v: nat): (r: seq<seq<Way>>)
    requires s < |cache| && v < |cache[s]|
    ensures |r| == |cache|
  {
    PutWay(cache, s, v, cache[s][v].(reserved := true))
  }

  lemma {:induction false} ReserveWays(c: DConf, cache: seq<seq<Way>>, s: nat, v: nat)
    requires WaysOk(c, cache) && s < c.sets && v < c.ways
    ensures WaysOk(c, Reserve(c, cache, s, v))
  {
    var cache' := Reserve(c, cache, s, v);
    forall t, j | 0 <= t < c.sets && 0 <= j < c.ways ensures WayOk(c, t, cache'[t][j]) {
      assert WayOk(c, t, cache[t][j]);
    }
    forall t, j, k | 0 <= t < c.sets && 0 <= j < k < c.ways && IsResident(cache'[t][j], cache'[t][j].tag)
      ensures !IsResident(cache'[t][k], cache'[t][j].tag)
    {
      assert IsResident(cache[t][j], cache[t][j].tag);
    }
  }

  /** Reserving a way makes its line, and no other, leave the cache. */
  lemma {:induction false} ReserveHits(c: DConf, cache: seq<seq<Way>>, s: nat, v: nat, ln: nat)
    requires WaysOk(c, cache) && s < c.sets && v < c.ways
    ensures NotResident(c, cache, ln) ==> NotResident(c, Reserve(c, cache, s, v), ln)
    ensures var way, t := cache[s][v], SetOf(c.sets, ln);
            if way.valid && !way.reserved && ln == LineOf(c.sets, s, way.tag)
            then NotResident(c, Reserve(c, cache, s, v), ln)
            else FindHit(Reserve(c, cache, s, v)[t], TagOf(c.sets, ln), 0) == FindHit(cache[t], TagOf(c.sets, ln), 0)
  {
    var way, t, cache' := cache[s][v], SetOf(c.sets, ln), Reserve(c, cache, s, v);
    PartsOfLine(c.sets, s, way.tag);
    LineOfParts(c.sets, ln);
    if way.valid && !way.reserved && ln == LineOf(c.sets, s, way.tag) {
      forall j | 0 <= j < |cache'[t]| ensures !IsResident(cache'[t][j], TagOf(c.sets, ln)) {
        if j < v {
          assert IsResident(cache[t][j], cache[t][j].tag) ==> !IsResident(cache[t][v], cache[t][j].tag);
        } else if j > v {
          assert IsResident(cache[t][v], cache[t][v].tag) ==> !IsResident(cache[t][j], cache[t][v].tag);
        }
      }
    } else {
      SameHit(cache[t], cache'[t], TagOf(c.sets, ln));
    }
  }

  /** The victim's line: neither being fetched nor already on its way to DRAM. */
  lemma {:induction false} VictimIsHome(c: DConf, cache: seq<seq<Way>>, mshrs: seq<Mshr>, s: nat, v: nat, k: nat)
    requires WaysOk(c, cache) && MshrsOk(c, cache, mshrs) && s < c.sets && v < c.ways && k < |mshrs| && mshrs[k].valid
    requires cache[s][v].valid && !cache[s][v].reserved
    ensures !mshrs[k].draining ==> mshrs[k].line != LineOf(c.sets, s, cache[s][v].tag)
    ensures Pending(mshrs[k]) ==> mshrs[k].wbLine != LineOf(c.sets, s, cache[s][v].tag)
    ensures !mshrs[k].draining ==> mshrs[k].setIdx != s || mshrs[k].wayIdx != v
  {
    assert MshrOk(c, cache, mshrs[k]);
    PartsOfLine(c.sets, s, cache[s][v].tag);
    assert IsResident(cache[s][v], cache[s][v].tag);
  }

  lemma {:induction false} NewMshrOk(c: DConf, cache: seq<seq<Way>>, mshrs: seq<Mshr>, r: Req, v: nat, i: nat)
    requires WaysOk(c, cache) && CanMiss(c, cache, mshrs, r, v, i)
    ensures var s := SetOf(c.sets, r.line);
            WaysOk(c, Reserve(c, cache, s, v)) && MshrOk(c, Reserve(c, cache, s, v), NewMshr(c, cache[s][v], s, v, r))
  {
    var s := SetOf(c.sets, r.line);
    ReserveWays(c, cache, s, v);
    ReserveHits(c, cache, s, v, r.line);
    ReserveHits(c, cache, s, v, LineOf(c.sets, s, cache[s][v].tag));
    assert WayOk(c, s, cache[s][v]);
  }

  lemma {:induction false} NewCompatible(c: DConf, cache: seq<seq<Way>>, mshrs: seq<Mshr>, r: Req, v: nat, i: nat,
                                         k: nat)
    requires WaysOk(c, cache) && MshrsOk(c, cache, mshrs) && CanMiss(c, cache, mshrs, r, v, i)
    requires k < |mshrs| && mshrs[k].valid
    ensures var s := SetOf(c.sets, r.line);
            Compatible(NewMshr(c, cache[s][v], s, v, r), mshrs[k]) && Compatible(mshrs[k], NewMshr(c, cache[s][v], s,
                v, r))
  {
    var s := SetOf(c.sets, r.line);
    assert MshrOk(c, cache, mshrs[k]);
    if cache[s][v].valid {
      VictimIsHome(c, cache, mshrs, s, v, k);
    }
  }

  lemma {:induction false} MissMshrs(c: DConf, cache: seq<seq<Way>>, mshrs: seq<Mshr>, r: Req, v: nat, i: nat)
    requires WaysOk(c, cache) && MshrsOk(c, cache, mshrs) && CanMiss(c, cache, mshrs, r, v, i)
    ensures var s := SetOf(c.sets, r.line);
            && WaysOk(c, Reserve(c, cache, s, v))
            && MshrsOk(c, Reserve(c, cache, s, v), mshrs[i := NewMshr(c, cache[s][v], s, v, r)])
  {
    var s := SetOf(c.sets, r.line);
    var cache', n := Reserve(c, cache, s, v), NewMshr(c, cache[s][v], s, v, r);
    var mshrs' := mshrs[i := n];
    NewMshrOk(c, cache, mshrs, r, v, i);
    forall k | 0 <= k < |mshrs'| && mshrs'[k].valid ensures MshrOk(c, cache', mshrs'[k]) {
      if k != i {
        assert MshrOk(c, cache, mshrs[k]);
        ReserveHits(c, cache, s, v, mshrs[k].line);
        ReserveHits(c, cache, s, v, mshrs[k].wbLine);
      }
    }
    forall k, l | 0 <= k < |mshrs'| && 0 <= l < |mshrs'| && k != l && mshrs'[k].valid && mshrs'[l].valid
      ensures Compatible(mshrs'[k], mshrs'[l])
    {
      if k == i {
        NewCompatible(c, cache, mshrs, r, v, i, l);
      } else if l == i {
        NewCompatible(c, cache, mshrs, r, v, i, k);
      } else {
        assert Compatible(mshrs[k], mshrs[l]);
      }
    }
  }

  lemma {:induction false} MissOk(c: DConf, cache: seq<seq<Way>>, mshrs: seq<Mshr>, main: seq<Lanes>, r: Req, v: nat,
                                  i: nat)
    requires DataOk(c, cache, mshrs, main) && CanMiss(c, cache, mshrs, r, v, i)
    ensures var s := SetOf(c.sets, r.line);
            DataOk(c, Reserve(c, cache, s, v), mshrs[i := NewMshr(c, cache[s][v], s, v, r)], main)
  {
    var s := SetOf(c.sets, r.line);
    var cache' := Reserve(c, cache, s, v);
    MissMshrs(c, cache, mshrs, r, v, i);
    forall t, j | 0 <= t < c.sets && 0 <= j < c.ways ensures CleanWay(c, t, cache'[t][j], main) {
      assert CleanWay(c, t, cache[t][j], main);
    }
  }

  /** The victim's line, once in the cache, is now the write-back's or main memory's. */
  lemma {:induction false} VictimAbs(c: DConf, cache: seq<seq<Way>>, mshrs: seq<Mshr>, main: seq<Lanes>, r: Req,
                                     v: nat, i: nat)
    requires DataOk(c, cache, mshrs, main) && CanMiss(c, cache, mshrs, r, v, i)
    requires cache[SetOf(c.sets, r.line)][v].valid
    ensures var s := SetOf(c.sets, r.line);
            var ln := LineOf(c.sets, s, cache[s][v].tag);
            AbsLine(c, Reserve(c, cache, s, v), mshrs[i := NewMshr(c, cache[s][v], s, v, r)], main,
                ln) == cache[s][v].data
  {
    var s := SetOf(c.sets, r.line);
    var way := cache[s][v];
    var ln := LineOf(c.sets, s, way.tag);
    var cache', mshrs' := Reserve(c, cache, s, v), mshrs[i := NewMshr(c, way, s, v, r)];
    PartsOfLine(c.sets, s, way.tag);
    assert IsResident(cache[s][v], TagOf(c.sets, ln));
    MissOk(c, cache, mshrs, main, r, v, i);
    ReserveHits(c, cache, s, v, ln);
    forall k | 0 <= k < |mshrs'| ensures !Owns(mshrs'[k], ln) {
      if k != i && mshrs[k].valid { VictimIsHome(c, cache, mshrs, s, v, k); }
    }
    AbsOther(c, cache', mshrs', main, ln);
    if way.dirty {
      ThePending(c, cache', mshrs', ln, i);
    } else {
      forall k | 0 <= k < |mshrs'| ensures !(Pending(mshrs'[k]) && mshrs'[k].wbLine == ln) {
        if k != i && mshrs[k].valid { VictimIsHome(c, cache, mshrs, s, v, k); }
      }
      assert CleanWay(c, s, way, main);
    }
  }

  /** The missing line: its base is the same, and its only waiter is the request. */
  lemma {:induction false} MissedAbs(c: DConf, cache: seq<seq<Way>>, mshrs: seq<Mshr>, main: seq<Lanes>, r: Req,
                                     v: nat, i: nat)
    requires DataOk(c, cache, mshrs, main) && CanMiss(c, cache, mshrs, r, v, i)
    ensures var s := SetOf(c.sets, r.line);
            var l := AbsLine(c, cache, mshrs, main, r.line);
            r.off < |l| && AbsLine(c, Reserve(c, cache, s, v), mshrs[i := NewMshr(c, cache[s][v], s, v, r)], main,
                r.line)
                           == if r.write then ApplyStore(l, r) else l
  {
    var s := SetOf(c.sets, r.line);
    var n := NewMshr(c, cache[s][v], s, v, r);
    var cache', mshrs' := Reserve(c, cache, s, v), mshrs[i := n];
    MissOk(c, cache, mshrs, main, r, v, i);
    AbsOther(c, cache, mshrs, main, r.line);
    BaseFits(c, cache, mshrs, main, r.line);
    if cache[s][v].valid {
      PartsOfLine(c.sets, s, cache[s][v].tag);
      assert IsResident(cache[s][v], cache[s][v].tag);
    }
    SamePending(mshrs, mshrs', r.line);
    AbsOwned(c, cache', mshrs', main, r.line, i);
    assert [r] == [] + [r];
    ApplyOneMore(BaseLine(c, mshrs, main, r.line), [], r);
  }

  /** Every other line is where it was. */
  lemma {:induction false} BystanderAbs(c: DConf, cache: seq<seq<Way>>, mshrs: seq<Mshr>, main: seq<Lanes>, r: Req,
                                        v: nat, i: nat, ln: nat)
    requires DataOk(c, cache, mshrs, main) && CanMiss(c, cache, mshrs, r, v, i) && ln != r.line
    requires var way, s := cache[SetOf(c.sets, r.line)][v], SetOf(c.sets, r.line); way.valid ==>
               ln != LineOf(c.sets, s, way.tag)
    ensures var s := SetOf(c.sets, r.line);
            AbsLine(c, Reserve(c, cache, s, v), mshrs[i := NewMshr(c, cache[s][v], s, v, r)], main, ln)
            == AbsLine(c, cache, mshrs, main, ln)
  {
    var s := SetOf(c.sets, r.line);
    var mshrs' := mshrs[i := NewMshr(c, cache[s][v], s, v, r)];
    ReserveHits(c, cache, s, v, ln);
    SameOwner(mshrs, mshrs', ln);
    SamePending(mshrs, mshrs', ln);
    var cache', t := Reserve(c, cache, s, v), SetOf(c.sets, ln);
    var hit := FindHit(cache[t], TagOf(c.sets, ln), 0);
    assert hit >= 0 ==> cache'[t][hit] == cache[t][hit];
  }

  /** A miss, whatever its victim, changes flat memory only by the missing store. */
  lemma {:induction false} Miss(c: DConf, cache: seq<seq<Way>>, mshrs: seq<Mshr>, main: seq<Lanes>, r: Req, v: nat,
                                i: nat)
    requires DataOk(c, cache, mshrs, main) && CanMiss(c, cache, mshrs, r, v, i)
    ensures var s := SetOf(c.sets, r.line);
            var cache', mshrs' := Reserve(c, cache, s, v), mshrs[i := NewMshr(c, cache[s][v], s, v, r)];
            DataOk(c, cache', mshrs', main) && Requested(c, cache, mshrs, cache', mshrs', main, r)
  {
    var s := SetOf(c.sets, r.line);
    var way := cache[s][v];
    var cache', mshrs' := Reserve(c, cache, s, v), mshrs[i := NewMshr(c, cache[s][v], s, v, r)];
    MissOk(c, cache, mshrs, main, r, v, i);
    forall ln: nat
      ensures var l := AbsLine(c, cache, mshrs, main, ln);
              r.off < |l| && AbsLine(c, cache', mshrs', main, ln) == if ln == r.line && r.write then ApplyStore(l,
                  r) else l
    {
      AbsFits(c, cache, mshrs, main, ln);
      if ln == r.line {
        MissedAbs(c, cache, mshrs, main, r, v, i);
      } else if way.valid && ln == LineOf(c.sets, s, way.tag) {
        VictimAbs(c, cache, mshrs, main, r, v, i);
        PartsOfLine(c.sets, s, way.tag);
        AbsResident(c, cache, mshrs, main, ln, v);
      } else {
        BystanderAbs(c, cache, mshrs, main, r, v, i, ln);
      }
    }
  }

  // ---------------------------------------------------------------- requests to DRAM

  /** A register that changes only how far its DRAM traffic has got. */
  predicate SameHolding(m: Mshr, n: Mshr) {
    && n == m.(wbSent := n.wbSent, wbDone := n.wbDone, fillSent := n.fillSent, fillReady := n.fillReady, fill := n.fill)
    && (Pending(n) ==> Pending(m))
  }

  lemma {:induction false} TrafficMoves(c: DConf, cache: seq<seq<Way>>, mshrs: seq<Mshr>, main: seq<Lanes>, i: nat,
                                        n: Mshr)
    requires DataOk(c, cache, mshrs, main) && i < |mshrs| && mshrs[i].valid && SameHolding(mshrs[i], n) && PhaseOk(c, n)
    requires n.fillReady ==> n.fill == MainLine(main, c.w, n.line)
    requires n.fillSent && !mshrs[i].fillSent ==> forall k :: 0 <= k < |mshrs| && mshrs[k].valid ==> !Pending(mshrs[k])
    ensures DataOk(c, cache, mshrs[i := n], main)
  {
    var mshrs' := mshrs[i := n];
    forall k | 0 <= k < |mshrs'| && mshrs'[k].valid ensures MshrOk(c, cache, mshrs'[k]) {
      assert MshrOk(c, cache, mshrs[k]);
    }
    forall k, l | 0 <= k < |mshrs'| && 0 <= l < |mshrs'| && k != l && mshrs'[k].valid && mshrs'[l].valid
      ensures Compatible(mshrs'[k], mshrs'[l])
    {
      assert Compatible(mshrs[k], mshrs[l]);
    }
  }

  /** While the same victims are pending, the flat memory is the same. */
  lemma {:induction false} TrafficAbs(c: DConf, cache: seq<seq<Way>>, mshrs: seq<Mshr>, main: seq<Lanes>, i: nat,
                                      n: Mshr)
    requires WaysOk(c, cache) && i < |mshrs| && SameHolding(mshrs[i], n) && (Pending(mshrs[i]) ==> Pending(n))
    ensures SameMemory(c, cache, mshrs, main, cache, mshrs[i := n], main)
  {
    var mshrs' := mshrs[i := n];
    forall ln: nat ensures AbsLine(c, cache, mshrs', main, ln) == AbsLine(c, cache, mshrs, main, ln) {
      SameOwner(mshrs, mshrs', ln);
      SamePending(mshrs, mshrs', ln);
    }
  }

  /** With nothing outstanding and no write-back left to send, no victim is pending. */
  lemma {:induction false} NothingPending(c: DConf, mshrs: seq<Mshr>, dm: int, wb: bool, slots: seq<DramSlot>,
                                          main: seq<Lanes>)
    requires DramOk(c, mshrs, dm, wb, slots, main) && dm == -1 && forall k :: 0 <= k < |mshrs| ==> !WantsWb(mshrs[k])
    ensures forall k :: 0 <= k < |mshrs| && mshrs[k].valid ==> !Pending(mshrs[k])
  {
    forall k | 0 <= k < |mshrs| && mshrs[k].valid ensures !Pending(mshrs[k]) {
      assert !WantsWb(mshrs[k]) && !WbOut(mshrs[k]);
    }
  }

  /** The slot DRAM gives the cache's request. */
  function WbSlot(m: Mshr, i: nat, latency: nat): DramSlot {
    DramSlot(true, true, m.wbLine, FromD(i), latency, m.wbData)
  }

  function FillSlot(c: DConf, m: Mshr, i: nat, latency: nat, main: seq<Lanes>): DramSlot {
    DramSlot(true, false, m.line, FromD(i), latency, MainLine(main, c.w, m.line))
  }

  /** No stale fill: when DRAM accepts a fill, no newer copy of any line is waiting to be written back, and the data
    * it captures is the base the flat memory is built on. */
  lemma {:induction false} NoStaleFill(c: DConf, cache: seq<seq<Way>>, mshrs: seq<Mshr>, dm: int, wb: bool,
                                       slots: seq<DramSlot>, main: seq<Lanes>)
    requires DataOk(c, cache, mshrs, main) && DramOk(c, mshrs, dm, wb, slots, main) && dm == -1
    requires PickDramMshr(mshrs) >= 0 && !WantsWb(mshrs[PickDramMshr(mshrs)])
    ensures forall k :: 0 <= k < |mshrs| ==> !Pending(mshrs[k])
    ensures var m := mshrs[PickDramMshr(mshrs)];
            MainLine(main, c.w, m.line) == BaseLine(c, mshrs, main, m.line)
  {
    NothingPending(c, mshrs, dm, wb, slots, main);
  }

  lemma {:induction false} WbAccepted(c: DConf, cache: seq<seq<Way>>, mshrs: seq<Mshr>, wb: bool, slots: seq<DramSlot>,
                                      main: seq<Lanes>, i: nat, k: nat, latency: nat)
    requires DataOk(c, cache, mshrs, main) && DramOk(c, mshrs, -1, wb, slots, main)
    requires i < |mshrs| && WantsWb(mshrs[i]) && k < |slots| && !slots[k].valid && latency > 0
    ensures var mshrs' := mshrs[i := mshrs[i].(wbSent := true)];
            && DataOk(c, cache, mshrs', main) && SameMemory(c, cache, mshrs, main, cache, mshrs', main)
            && DramOk(c, mshrs', i, true, slots[k := WbSlot(mshrs[i], i, latency)], main)
  {
    var m := mshrs[i];
    assert MshrOk(c, cache, m);
    TrafficMoves(c, cache, mshrs, main, i, m.(wbSent := true));
    TrafficAbs(c, cache, mshrs, main, i, m.(wbSent := true));
    NewSlotOk(c, mshrs, mshrs[i := m.(wbSent := true)], wb, slots, main, i, true, k, WbSlot(m, i, latency));
  }

  lemma {:induction false} NewSlotOk(c: DConf, mshrs: seq<Mshr>, mshrs': seq<Mshr>, wb: bool, slots: seq<DramSlot>,
                                     main: seq<Lanes>,
                                     i: nat, wb': bool, k: nat, slot: DramSlot)
    requires DramOk(c, mshrs, -1, wb, slots, main) && i < |mshrs| && k < |slots| && !slots[k].valid
    requires |mshrs'| == |mshrs| && mshrs' == mshrs[i := mshrs'[i]]
    requires if wb' then WbOut(mshrs'[i]) && !FillOut(mshrs'[i]) else FillOut(mshrs'[i]) && !WbOut(mshrs'[i])
    requires ForD(slot) && SlotOk(c, mshrs', i, wb', slot, main)
    ensures DramOk(c, mshrs', i, wb', slots[k := slot], main)
  {
    var slots' := slots[k := slot];
    assert slots'[k] == slot;
    forall j | 0 <= j < |slots| ensures !ForD(slots[j]) {
      assert SlotOk(c, mshrs, -1, wb, slots[j], main);
    }
    forall j | 0 <= j < |slots'| ensures SlotOk(c, mshrs', i, wb', slots'[j], main) {
      assert SlotOk(c, mshrs, -1, wb, slots[j], main);
    }
    forall j, l | 0 <= j < l < |slots'| ensures !(ForD(slots'[j]) && ForD(slots'[l])) {
    }
  }

  lemma {:induction false} FillAccepted(c: DConf, cache: seq<seq<Way>>, mshrs: seq<Mshr>, wb: bool,
                                        slots: seq<DramSlot>,
                                        main: seq<Lanes>, i: nat, k: nat, latency: nat)
    requires DataOk(c, cache, mshrs, main) && DramOk(c, mshrs, -1, wb, slots, main)
    requires i < |mshrs| && WantsFill(mshrs[i]) && k < |slots| && !slots[k].valid
    requires forall l :: 0 <= l < |mshrs| ==> !WantsWb(mshrs[l])
    ensures var mshrs' := mshrs[i := mshrs[i].(fillSent := true)];
            && DataOk(c, cache, mshrs', main) && SameMemory(c, cache, mshrs, main, cache, mshrs', main)
            && DramOk(c, mshrs', i, false, slots[k := FillSlot(c, mshrs[i], i, latency, main)], main)
  {
    var m := mshrs[i];
    assert MshrOk(c, cache, m);
    NothingPending(c, mshrs, -1, wb, slots, main);
    TrafficMoves(c, cache, mshrs, main, i, m.(fillSent := true));
    TrafficAbs(c, cache, mshrs, main, i, m.(fillSent := true));
    NewSlotOk(c, mshrs, mshrs[i := m.(fillSent := true)], wb, slots, main, i, false, k, FillSlot(c, m, i, latency,
        main));
  }

  /** Another client's read leaves the cache's traffic alone. */
  lemma {:induction false} OtherAccepted(c: DConf, mshrs: seq<Mshr>, dm: int, wb: bool, slots: seq<DramSlot>,
                                         main: seq<Lanes>,
                                         k: nat, slot: DramSlot)
    requires DramOk(c, mshrs, dm, wb, slots, main) && k < |slots| && !slots[k].valid && slot.client.FromI?
    requires !slot.write
    ensures DramOk(c, mshrs, dm, wb, slots[k := slot], main)
  {
    var slots' := slots[k := slot];
    if dm >= 0 {
      var j :| 0 <= j < |slots| && ForD(slots[j]);
      assert ForD(slots'[j]);
    }
    forall j | 0 <= j < |slots'| ensures SlotOk(c, mshrs, dm, wb, slots'[j], main) {
      assert SlotOk(c, mshrs, dm, wb, slots[j], main);
    }
  }

  // ---------------------------------------------------------------- DRAM works

  /** One slot counts down; when the cache's write-back finishes, its line reaches main memory. */
  lemma {:induction false} SlotTicks(c: DConf, cache: seq<seq<Way>>, mshrs: seq<Mshr>, dm: int, wb: bool,
                                     slots: seq<DramSlot>, main: seq<Lanes>, k: nat)
    requires DataOk(c, cache, mshrs, main) && DramOk(c, mshrs, dm, wb, slots, main) && k < |slots|
    ensures slots[k].valid && slots[k].write ==> |slots[k].data| == c.w
    ensures var main' := TickMain(c.w, slots[k], main);
            && DataOk(c, cache, mshrs, main') && SameMemory(c, cache, mshrs, main, cache, mshrs, main')
            && DramOk(c, mshrs, dm, wb, slots[k := TickSlot(slots[k])], main')
  {
    var s, t := slots[k], TickSlot(slots[k]);
    assert SlotOk(c, mshrs, dm, wb, s, main);
    if t.valid && t.cycles == 0 && t.write {
      WrittenBack(c, cache, mshrs, main, dm);
      WrittenSlots(c, mshrs, dm, wb, slots, main, k);
    } else {
      TickedSlots(c, mshrs, dm, wb, slots, main, k);
    }
  }

  lemma {:induction false} TickedSlots(c: DConf, mshrs: seq<Mshr>, dm: int, wb: bool, slots: seq<DramSlot>,
                                       main: seq<Lanes>, k: nat)
    requires DramOk(c, mshrs, dm, wb, slots, main) && k < |slots|
    requires var t := TickSlot(slots[k]); !(t.valid && t.cycles == 0 && t.write)
    ensures DramOk(c, mshrs, dm, wb, slots[k := TickSlot(slots[k])], main)
  {
    var slots' := slots[k := TickSlot(slots[k])];
    if dm >= 0 {
      var j :| 0 <= j < |slots| && ForD(slots[j]);
      assert ForD(slots'[j]);
    }
    forall j | 0 <= j < |slots'| ensures SlotOk(c, mshrs, dm, wb, slots'[j], main) {
      assert SlotOk(c, mshrs, dm, wb, slots[j], main);
    }
  }

  lemma {:induction false} WrittenSlots(c: DConf, mshrs: seq<Mshr>, dm: int, wb: bool, slots: seq<DramSlot>,
                                        main: seq<Lanes>, k: nat)
    requires DramOk(c, mshrs, dm, wb, slots, main) && k < |slots| && |main| == c.words
    requires var t := TickSlot(slots[k]); t.valid && t.cycles == 0 && t.write
    requires dm >= 0 && Fits(c.words, c.w, mshrs[dm].wbLine, mshrs[dm].wbData)
    ensures slots[k].valid && slots[k].write && |slots[k].data| == c.w
    ensures DramOk(c, mshrs, dm, wb, slots[k := TickSlot(slots[k])], TickMain(c.w, slots[k], main))
  {
    assert SlotOk(c, mshrs, dm, wb, slots[k], main);
    var slots', main' := slots[k := TickSlot(slots[k])], TickMain(c.w, slots[k], main);
    WriteThenRead(main, c.w, slots[k].line, slots[k].data);
    assert ForD(slots'[k]);
    forall j | 0 <= j < |slots'| ensures SlotOk(c, mshrs, dm, wb, slots'[j], main') {
      assert SlotOk(c, mshrs, dm, wb, slots[j], main);
      assert j != k ==> !ForD(slots[j]);
    }
  }

  /** Writing a pending victim back changes no clean line, no arrived fill and no flat memory. */
  lemma {:induction false} WrittenBack(c: DConf, cache: seq<seq<Way>>, mshrs: seq<Mshr>, main: seq<Lanes>, i: nat)
    requires DataOk(c, cache, mshrs, main) && i < |mshrs| && Pending(mshrs[i])
    ensures |mshrs[i].wbData| == c.w
    ensures var main' := WriteLine(main, c.w, mshrs[i].wbLine, mshrs[i].wbData);
            DataOk(c, cache, mshrs, main') && SameMemory(c, cache, mshrs, main, cache, mshrs, main')
  {
    var m := mshrs[i];
    assert MshrOk(c, cache, m);
    var main' := WriteLine(main, c.w, m.wbLine, m.wbData);
    forall s, j | 0 <= s < c.sets && 0 <= j < c.ways ensures CleanWay(c, s, cache[s][j], main') {
      CleanElsewhere(c, cache, mshrs, main, i, s, j);
    }
    forall k | 0 <= k < |mshrs| && mshrs[k].valid && mshrs[k].fillReady
      ensures mshrs[k].fill == MainLine(main', c.w, mshrs[k].line)
    {
      assert MshrOk(c, cache, mshrs[k]);
      assert k != i && Compatible(mshrs[i], mshrs[k]);
      WriteElsewhere(main, c.w, m.wbLine, m.wbData, mshrs[k].line);
    }
    forall ln: nat ensures AbsLine(c, cache, mshrs, main', ln) == AbsLine(c, cache, mshrs, main, ln) {
      if ln == m.wbLine {
        ThePending(c, cache, mshrs, ln, i);
      } else {
        WriteElsewhere(main, c.w, m.wbLine, m.wbData, ln);
      }
    }
  }

  lemma {:induction false} CleanElsewhere(c: DConf, cache: seq<seq<Way>>, mshrs: seq<Mshr>, main: seq<Lanes>, i: nat,
                                          s: nat, j: nat)
    requires DataOk(c, cache, mshrs, main) && i < |mshrs| && Pending(mshrs[i]) && s < c.sets && j < c.ways
    requires |mshrs[i].wbData| == c.w
    ensures CleanWay(c, s, cache[s][j], WriteLine(main, c.w, mshrs[i].wbLine, mshrs[i].wbData))
  {
    var way := cache[s][j];
    assert CleanWay(c, s, way, main) && MshrOk(c, cache, mshrs[i]);
    if way.valid && !way.reserved {
      VictimIsHome(c, cache, mshrs, s, j, i);
      WriteElsewhere(main, c.w, mshrs[i].wbLine, mshrs[i].wbData, LineOf(c.sets, s, way.tag));
    }
  }

  // ---------------------------------------------------------------- DRAM replies

  lemma {:induction false} SlotFreed(c: DConf, mshrs: seq<Mshr>, mshrs': seq<Mshr>, dm: int, wb: bool,
                                     slots: seq<DramSlot>,
                                     main: seq<Lanes>, k: nat, i: nat)
    requires DramOk(c, mshrs, dm, wb, slots, main) && k < |slots| && ForD(slots[k])
    requires dm == i && |mshrs'| == |mshrs| && mshrs' == mshrs[i := mshrs'[i]] && !WbOut(mshrs'[i])
    requires !FillOut(mshrs'[i])
    ensures DramOk(c, mshrs', -1, false, slots[k := NO_SLOT], main)
  {
    var slots' := slots[k := NO_SLOT];
    forall j | 0 <= j < |slots'| ensures SlotOk(c, mshrs', -1, false, slots'[j], main) {
      assert SlotOk(c, mshrs, dm, wb, slots[j], main);
      assert j != k ==> !ForD(slots[j]);
    }
  }

  /** The write-back is done: main memory now has the line. */
  lemma {:induction false} WbReplied(c: DConf, cache: seq<seq<Way>>, mshrs: seq<Mshr>, dm: int, slots: seq<DramSlot>,
                                     main: seq<Lanes>, k: nat, i: nat)
    requires DataOk(c, cache, mshrs, main) && DramOk(c, mshrs, dm, true, slots, main)
    requires k < |slots| && slots[k].valid && slots[k].client == FromD(i) && slots[k].cycles == 0
    ensures i < |mshrs| && dm == i
    ensures var mshrs' := mshrs[i := mshrs[i].(wbDone := true)];
            && DataOk(c, cache, mshrs', main) && SameMemory(c, cache, mshrs, main, cache, mshrs', main)
            && DramOk(c, mshrs', -1, false, slots[k := NO_SLOT], main)
  {
    assert SlotOk(c, mshrs, dm, true, slots[k], main);
    var n := mshrs[i].(wbDone := true);
    var mshrs' := mshrs[i := n];
    assert MshrOk(c, cache, mshrs[i]);
    TrafficMoves(c, cache, mshrs, main, i, n);
    SlotFreed(c, mshrs, mshrs', dm, true, slots, main, k, i);
    forall ln: nat ensures AbsLine(c, cache, mshrs', main, ln) == AbsLine(c, cache, mshrs, main, ln) {
      SameOwner(mshrs, mshrs', ln);
      BaseWritten(c, cache, mshrs, main, i, ln);
    }
  }

  lemma {:induction false} BaseWritten(c: DConf, cache: seq<seq<Way>>, mshrs: seq<Mshr>, main: seq<Lanes>, i: nat,
                                       ln: nat)
    requires DataOk(c, cache, mshrs, main) && i < |mshrs| && Pending(mshrs[i])
    requires MainLine(main, c.w, mshrs[i].wbLine) == mshrs[i].wbData
    ensures BaseLine(c, mshrs[i := mshrs[i].(wbDone := true)], main, ln) == BaseLine(c, mshrs, main, ln)
  {
    var mshrs' := mshrs[i := mshrs[i].(wbDone := true)];
    if ln == mshrs[i].wbLine {
      ThePending(c, cache, mshrs, ln, i);
      forall k | 0 <= k < |mshrs'| ensures !(Pending(mshrs'[k]) && mshrs'[k].wbLine == ln) {
        if k != i && mshrs[k].valid { assert Compatible(mshrs[i], mshrs[k]); }
      }
    } else {
      SamePending(mshrs, mshrs', ln);
    }
  }

  /** The fill has arrived, with what main memory still has. */
  lemma {:induction false} FillReplied(c: DConf, cache: seq<seq<Way>>, mshrs: seq<Mshr>, dm: int, slots: seq<DramSlot>,
                                       main: seq<Lanes>, k: nat, i: nat)
    requires DataOk(c, cache, mshrs, main) && DramOk(c, mshrs, dm, false, slots, main)
    requires k < |slots| && slots[k].valid && slots[k].client == FromD(i)
    ensures i < |mshrs| && dm == i
    ensures var mshrs' := mshrs[i := mshrs[i].(fill := slots[k].data, fillReady := true)];
            && DataOk(c, cache, mshrs', main) && SameMemory(c, cache, mshrs, main, cache, mshrs', main)
            && DramOk(c, mshrs', -1, false, slots[k := NO_SLOT], main)
  {
    assert SlotOk(c, mshrs, dm, false, slots[k], main);
    var n := mshrs[i].(fill := slots[k].data, fillReady := true);
    assert MshrOk(c, cache, mshrs[i]);
    TrafficMoves(c, cache, mshrs, main, i, n);
    TrafficAbs(c, cache, mshrs, main, i, n);
    SlotFreed(c, mshrs, mshrs[i := n], dm, false, slots, main, k, i);
  }

  lemma {:induction false} OtherReplied(c: DConf, mshrs: seq<Mshr>, dm: int, wb: bool, slots: seq<DramSlot>,
                                        main: seq<Lanes>, k: nat)
    requires DramOk(c, mshrs, dm, wb, slots, main) && k < |slots| && !ForD(slots[k])
    ensures DramOk(c, mshrs, dm, wb, slots[k := NO_SLOT], main)
  {
    var slots' := slots[k := NO_SLOT];
    if dm >= 0 {
      var j :| 0 <= j < |slots| && ForD(slots[j]);
      assert ForD(slots'[j]);
    }
    forall j | 0 <= j < |slots'| ensures SlotOk(c, mshrs, dm, wb, slots'[j], main) {
      assert SlotOk(c, mshrs, dm, wb, slots[j], main);
    }
  }
}
