/** Each step of cache and DRAM keeps the invariant; a store changes one masked word of the flat memory, and
  * nothing else changes any of it. */
module CacheSteps {
  import opened Words
  import opened MemTypes
  import opened CacheModel
  import opened CacheInv

  /** Flat memory is the same before and after. */
  ghost predicate SameMemory(c: DConf, cache: seq<seq<Way>>, mshrs: seq<Mshr>, main: seq<Lanes>,
                             cache': seq<seq<Way>>, mshrs': seq<Mshr>, main': seq<Lanes>)
    requires c.sets > 0 && |cache| == c.sets && |cache'| == c.sets
  {
    forall ln: nat {:trigger AbsLine(c, cache', mshrs', main', ln)} ::
      AbsLine(c, cache', mshrs', main', ln) == AbsLine(c, cache, mshrs, main, ln)
  }

  /** Flat memory has changed by the request alone: a store's masked word, or nothing for a load. */
  ghost predicate Requested(c: DConf, cache: seq<seq<Way>>, mshrs: seq<Mshr>, cache': seq<seq<Way>>, mshrs': seq<Mshr>,
                            main: seq<Lanes>, r: Req)
    requires c.sets > 0 && |cache| == c.sets && |cache'| == c.sets
  {
    forall ln: nat {:trigger AbsLine(c, cache', mshrs', main, ln)} ::
      var l := AbsLine(c, cache, mshrs, main, ln);
      r.off < |l| && AbsLine(c, cache', mshrs', main, ln) == if ln == r.line && r.write then ApplyStore(l, r) else l
  }

  lemma {:induction false} AbsFits(c: DConf, cache: seq<seq<Way>>, mshrs: seq<Mshr>, main: seq<Lanes>, ln: nat)
    requires DataOk(c, cache, mshrs, main)
    ensures |AbsLine(c, cache, mshrs, main, ln)| == c.w
  {
    BaseFits(c, cache, mshrs, main, ln);
    var s := SetOf(c.sets, ln);
    var hit := FindHit(cache[s], TagOf(c.sets, ln), 0);
    if hit >= 0 {
      assert WayOk(c, s, cache[s][hit]);
    }
  }

  // ---------------------------------------------------------------- hits

  /** A way that keeps its tag and its flags of residence. */
  predicate SamePlace(a: Way, b: Way) {
    a.valid == b.valid && a.reserved == b.reserved && a.tag == b.tag
  }

  lemma {:induction false} PlaceKeepsHits(c: DConf, cache: seq<seq<Way>>, s: nat, i: nat, way: Way, ln: nat)
    requires WaysOk(c, cache) && s < c.sets && i < c.ways && SamePlace(cache[s][i], way)
    ensures var cache', t := PutWay(cache, s, i, way), SetOf(c.sets, ln);
            && FindHit(cache'[t], TagOf(c.sets, ln), 0) == FindHit(cache[t], TagOf(c.sets, ln), 0)
            && (NotResident(c, cache', ln) <==> NotResident(c, cache, ln))
  {
    var cache', t := PutWay(cache, s, i, way), SetOf(c.sets, ln);
    SameHit(cache[t], cache'[t], TagOf(c.sets, ln));
  }

  lemma {:induction false} ReplaceWays(c: DConf, cache: seq<seq<Way>>, s: nat, i: nat, way: Way)
    requires WaysOk(c, cache) && s < c.sets && i < c.ways && SamePlace(cache[s][i], way) && WayOk(c, s, way)
    ensures WaysOk(c, PutWay(cache, s, i, way))
  {
    var cache' := PutWay(cache, s, i, way);
    forall t, j | 0 <= t < c.sets && 0 <= j < c.ways ensures WayOk(c, t, cache'[t][j]) {
      assert WayOk(c, t, cache[t][j]);
    }
    forall t, j, k | 0 <= t < c.sets && 0 <= j < k < c.ways && IsResident(cache'[t][j], cache'[t][j].tag)
      ensures !IsResident(cache'[t][k], cache'[t][j].tag)
    {
      assert IsResident(cache[t][j], cache[t][j].tag);
    }
  }

  lemma {:induction false} ReplaceOk(c: DConf, cache: seq<seq<Way>>, mshrs: seq<Mshr>, main: seq<Lanes>, s: nat,
                                     i: nat, way: Way)
    requires DataOk(c, cache, mshrs, main) && s < c.sets && i < c.ways && SamePlace(cache[s][i], way)
    requires WayOk(c, s, way) && CleanWay(c, s, way, main)
    ensures DataOk(c, PutWay(cache, s, i, way), mshrs, main)
  {
    var cache' := PutWay(cache, s, i, way);
    ReplaceWays(c, cache, s, i, way);
    forall t, j | 0 <= t < c.sets && 0 <= j < c.ways ensures CleanWay(c, t, cache'[t][j], main) {
      assert CleanWay(c, t, cache[t][j], main);
    }
    forall k | 0 <= k < |mshrs| && mshrs[k].valid ensures MshrOk(c, cache', mshrs[k]) {
      assert MshrOk(c, cache, mshrs[k]);
      PlaceKeepsHits(c, cache, s, i, way, mshrs[k].line);
      PlaceKeepsHits(c, cache, s, i, way, mshrs[k].wbLine);
    }
  }

  /** Replacing a resident line's data changes flat memory at that line only. */
  lemma {:induction false} ReplaceAbs(c: DConf, cache: seq<seq<Way>>, mshrs: seq<Mshr>, main: seq<Lanes>,
                                      home: nat, i: nat, way: Way, ln: nat)
    requires DataOk(c, cache, mshrs, main) && i < c.ways
    requires var s := SetOf(c.sets, home); IsResident(cache[s][i], TagOf(c.sets, home)) && SamePlace(cache[s][i], way)
    ensures var cache' := PutWay(cache, SetOf(c.sets, home), i, way);
            AbsLine(c, cache', mshrs, main, ln) == if ln == home then way.data else AbsLine(c, cache, mshrs, main, ln)
  {
    var s := SetOf(c.sets, home);
    PlaceKeepsHits(c, cache, s, i, way, ln);
    LineOfParts(c.sets, home);
    LineOfParts(c.sets, ln);
    if ln == home {
      TheHit(c, cache, ln, i);
    }
  }

  /** A store hit changes one masked word. */
  lemma {:induction false} StoreHit(c: DConf, cache: seq<seq<Way>>, mshrs: seq<Mshr>, main: seq<Lanes>, r: Req,
                                    i: nat, lru: nat)
    requires DataOk(c, cache, mshrs, main) && i < c.ways && r.write && InMemory(c.words, c.w, r)
    requires IsResident(cache[SetOf(c.sets, r.line)][i], TagOf(c.sets, r.line))
    ensures var s := SetOf(c.sets, r.line);
            var way := cache[s][i].(lru := lru, data := ApplyStore(cache[s][i].data, r), dirty := true);
            && DataOk(c, PutWay(cache, s, i, way), mshrs, main)
            && Requested(c, cache, mshrs, PutWay(cache, s, i, way), mshrs, main, r)
  {
    var s := SetOf(c.sets, r.line);
    var old_ := cache[s][i];
    assert WayOk(c, s, old_);
    LineOfParts(c.sets, r.line);
    StoreFits(c.words, c.w, r.line, old_.data, r);
    var way := old_.(lru := lru, data := ApplyStore(old_.data, r), dirty := true);
    ReplaceOk(c, cache, mshrs, main, s, i, way);
    AbsResident(c, cache, mshrs, main, r.line, i);
    forall ln: nat
      ensures var l := AbsLine(c, cache, mshrs, main, ln);
              r.off < |l| && AbsLine(c, PutWay(cache, s, i, way), mshrs, main, ln)
                             == if ln == r.line && r.write then ApplyStore(l, r) else l
    {
      AbsFits(c, cache, mshrs, main, ln);
      ReplaceAbs(c, cache, mshrs, main, r.line, i, way, ln);
    }
  }

  /** A load hit reads the flat memory and changes nothing but the recency of its way. */
  lemma {:induction false} LoadHit(c: DConf, cache: seq<seq<Way>>, mshrs: seq<Mshr>, main: seq<Lanes>, r: Req, i: nat,
                                   lru: nat)
    requires DataOk(c, cache, mshrs, main) && i < c.ways && !r.write && r.off < c.w
    requires IsResident(cache[SetOf(c.sets, r.line)][i], TagOf(c.sets, r.line))
    ensures var s := SetOf(c.sets, r.line);
            var way := cache[s][i].(lru := lru);
            && DataOk(c, PutWay(cache, s, i, way), mshrs, main)
            && Requested(c, cache, mshrs, PutWay(cache, s, i, way), mshrs, main, r)
            && |way.data| == c.w && way.data == AbsLine(c, cache, mshrs, main, r.line)
  {
    var s := SetOf(c.sets, r.line);
    var way := cache[s][i].(lru := lru);
    assert WayOk(c, s, cache[s][i]) && CleanWay(c, s, cache[s][i], main);
    ReplaceOk(c, cache, mshrs, main, s, i, way);
    AbsResident(c, cache, mshrs, main, r.line, i);
    forall ln: nat
      ensures var l := AbsLine(c, cache, mshrs, main, ln);
              r.off < |l| && AbsLine(c, PutWay(cache, s, i, way), mshrs, main, ln) == l
    {
      AbsFits(c, cache, mshrs, main, ln);
      ReplaceAbs(c, cache, mshrs, main, r.line, i, way, ln);
    }
  }

  // ---------------------------------------------------------------- joining a miss

  lemma {:induction false} JoinOk(c: DConf, cache: seq<seq<Way>>, mshrs: seq<Mshr>, main: seq<Lanes>, i: nat, r: Req)
    requires DataOk(c, cache, mshrs, main) && i < |mshrs| && InMemory(c.words, c.w, r)
    requires Owns(mshrs[i], r.line) && !mshrs[i].fillReady
    ensures var m := mshrs[i]; DataOk(c, cache, mshrs[i := m.(waiters := m.waiters + [r])], main)
  {
    var m := mshrs[i];
    var n := m.(waiters := m.waiters + [r]);
    var mshrs' := mshrs[i := n];
    forall k | 0 <= k < |mshrs'| && mshrs'[k].valid ensures MshrOk(c, cache, mshrs'[k]) {
      assert MshrOk(c, cache, mshrs[k]);
    }
    forall k, l | 0 <= k < |mshrs'| && 0 <= l < |mshrs'| && k != l && mshrs'[k].valid && mshrs'[l].valid
      ensures Compatible(mshrs'[k], mshrs'[l])
    {
      assert Compatible(mshrs[k], mshrs[l]);
    }
  }

  lemma {:induction false} JoinAbs(c: DConf, cache: seq<seq<Way>>, mshrs: seq<Mshr>, main: seq<Lanes>, i: nat, r: Req,
                                   ln: nat)
    requires DataOk(c, cache, mshrs, main) && i < |mshrs| && InMemory(c.words, c.w, r)
    requires Owns(mshrs[i], r.line) && !mshrs[i].fillReady
    ensures var m := mshrs[i];
            var l := AbsLine(c, cache, mshrs, main, ln);
            r.off < |l| && AbsLine(c, cache, mshrs[i := m.(waiters := m.waiters + [r])], main, ln)
                           == if ln == r.line && r.write then ApplyStore(l, r) else l
  {
    var m := mshrs[i];
    var mshrs' := mshrs[i := m.(waiters := m.waiters + [r])];
    AbsFits(c, cache, mshrs, main, ln);
    SameOwner(mshrs, mshrs', ln);
    SamePending(mshrs, mshrs', ln);
    JoinOk(c, cache, mshrs, main, i, r);
    if ln == r.line {
      assert MshrOk(c, cache, m);
      AbsOwned(c, cache, mshrs, main, ln, i);
      AbsOwned(c, cache, mshrs', main, ln, i);
      BaseFits(c, cache, mshrs, main, ln);
      ApplyOneMore(BaseLine(c, mshrs, main, ln), m.waiters, r);
    }
  }

  /** A request that joins a line being fetched. */
  lemma {:induction false} Join(c: DConf, cache: seq<seq<Way>>, mshrs: seq<Mshr>, main: seq<Lanes>, i: nat, r: Req)
    requires DataOk(c, cache, mshrs, main) && i < |mshrs| && InMemory(c.words, c.w, r)
    requires Owns(mshrs[i], r.line) && !mshrs[i].fillReady
    ensures var mshrs' := mshrs[i := mshrs[i].(waiters := mshrs[i].waiters + [r])];
            DataOk(c, cache, mshrs', main) && Requested(c, cache, mshrs, cache, mshrs', main, r)
  {
    JoinOk(c, cache, mshrs, main, i, r);
    var mshrs' := mshrs[i := mshrs[i].(waiters := mshrs[i].waiters + [r])];
    forall ln: nat
      ensures var l := AbsLine(c, cache, mshrs, main, ln);
              r.off < |l| && AbsLine(c, cache, mshrs', main, ln) == if ln == r.line && r.write then ApplyStore(l,
                  r) else l
    {
      JoinAbs(c, cache, mshrs, main, i, r, ln);
    }
  }

  /** DRAM traffic is untouched while registers keep their write-back, phase and line. */
  predicate SameTraffic(m: Mshr, n: Mshr) {
    && WbOut(m) == WbOut(n) && FillOut(m) == FillOut(n)
    && (WbOut(m) || FillOut(m) ==> m.line == n.line && m.wbLine == n.wbLine && m.wbData == n.wbData)
  }

  lemma {:induction false} TrafficOk(c: DConf, mshrs: seq<Mshr>, i: nat, n: Mshr, dm: int, wb: bool,
                                     slots: seq<DramSlot>, main: seq<Lanes>)
    requires DramOk(c, mshrs, dm, wb, slots, main) && i < |mshrs| && SameTraffic(mshrs[i], n)
    ensures DramOk(c, mshrs[i := n], dm, wb, slots, main)
  {
    var mshrs' := mshrs[i := n];
    forall k | 0 <= k < |slots| ensures SlotOk(c, mshrs', dm, wb, slots[k], main) {
      assert SlotOk(c, mshrs, dm, wb, slots[k], main);
    }
  }
}
