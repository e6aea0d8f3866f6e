/** What every reachable state of data cache and DRAM satisfies, and the flat memory it stands for. */
module CacheInv {
  import opened Words
  import opened MemTypes
  import opened CacheModel

  // ---------------------------------------------------------------- the memory a state stands for

  /** A miss register that owns its line: nothing has been filled in yet. */
  predicate Owns(m: Mshr, ln: nat) { m.valid && !m.draining && m.line == ln }

  /** A victim's data on its way to DRAM: newer than main memory until the write-back is done. */
  predicate Pending(m: Mshr) { m.valid && m.needWb && !m.wbDone }

  function FindOwner(mshrs: seq<Mshr>, ln: nat, from: nat): (i: int)
    requires from <= |mshrs|
    ensures i == -1 || (from <= i < |mshrs| && Owns(mshrs[i], ln))
    ensures forall j :: from <= j < (if i == -1 then |mshrs| else i) ==> !Owns(mshrs[j], ln)
    decreases |mshrs| - from
  {
    if from == |mshrs| then -1 else if Owns(mshrs[from], ln) then from else FindOwner(mshrs, ln, from + 1)
  }

  function FindPending(mshrs: seq<Mshr>, ln: nat, from: nat): (i: int)
    requires from <= |mshrs|
    ensures i == -1 || (from <= i < |mshrs| && Pending(mshrs[i]) && mshrs[i].wbLine == ln)
    ensures forall j :: from <= j < (if i == -1 then |mshrs| else i) ==> !(Pending(mshrs[j]) && mshrs[j].wbLine == ln)
    decreases |mshrs| - from
  {
    if from == |mshrs| then -1
    else if Pending(mshrs[from]) && mshrs[from].wbLine == ln then from
    else FindPending(mshrs, ln, from + 1)
  }

  /** A line as DRAM will deliver it: a pending write-back of it, or main memory. */
  function BaseLine(c: DConf, mshrs: seq<Mshr>, main: seq<Lanes>, ln: nat): Line {
    var i := FindPending(mshrs, ln, 0);
    if i >= 0 then mshrs[i].wbData else MainLine(main, c.w, ln)
  }

  /** The flat memory: resident lines, then lines being fetched with their waiting stores, then the rest. */
  ghost function AbsLine(c: DConf, cache: seq<seq<Way>>, mshrs: seq<Mshr>, main: seq<Lanes>, ln: nat): Line
    requires c.sets > 0 && |cache| == c.sets
  {
    var s := SetOf(c.sets, ln);
    var hit, owner, base := FindHit(cache[s], TagOf(c.sets, ln), 0), FindOwner(mshrs, ln, 0), BaseLine(c, mshrs, main,
        ln);
    if hit >= 0 then cache[s][hit].data
    else if owner >= 0 && AllIn(mshrs[owner].waiters, |base|) then ApplyStores(base, mshrs[owner].waiters)
    else base
  }

  // ---------------------------------------------------------------- the invariant, part by part

  ghost predicate NotResident(c: DConf, cache: seq<seq<Way>>, ln: nat)
    requires c.sets > 0 && |cache| == c.sets
  {
    forall i :: 0 <= i < |cache[SetOf(c.sets, ln)]| ==> !IsResident(cache[SetOf(c.sets, ln)][i], TagOf(c.sets, ln))
  }

  ghost predicate WayOk(c: DConf, s: nat, way: Way) {
    && (way.valid ==> |way.data| == c.w)
    && (way.valid && !way.reserved ==> Fits(c.words, c.w, LineOf(c.sets, s, way.tag), way.data))
  }

  /** No two ways of a set hold the same line. */
  ghost predicate WaysOk(c: DConf, cache: seq<seq<Way>>) {
    && c.sets > 0 && |cache| == c.sets
    && (forall s :: 0 <= s < c.sets ==> |cache[s]| == c.ways)
    && (forall s, i :: 0 <= s < c.sets && 0 <= i < c.ways ==> WayOk(c, s, cache[s][i]))
    && (forall s, i, j :: 0 <= s < c.sets && 0 <= i < j < c.ways && IsResident(cache[s][i], cache[s][i].tag) ==>
          !IsResident(cache[s][j], cache[s][i].tag))
  }

  /** The order of a miss register's life: write-back, fill, drain. */
  ghost predicate PhaseOk(c: DConf, m: Mshr) {
    && (m.wbSent ==> m.needWb) && (!m.wbDone ==> m.needWb && !m.fillSent)
    && (m.fillReady ==> m.fillSent && |m.fill| == c.w)
    && (m.draining ==> m.fillSent && !m.fillReady && |m.drainLine| == c.w)
    && m.drainIdx <= |m.waiters| && (!m.draining ==> m.drainIdx == 0)
  }

  ghost predicate WaitersOk(c: DConf, m: Mshr) {
    forall k :: 0 <= k < |m.waiters| ==> m.waiters[k].line == m.line && InMemory(c.words, c.w, m.waiters[k])
  }

  ghost predicate MshrOk(c: DConf, cache: seq<seq<Way>>, m: Mshr)
    requires WaysOk(c, cache)
  {
    && m.setIdx == SetOf(c.sets, m.line) && m.wayIdx < c.ways
    && PhaseOk(c, m) && WaitersOk(c, m)
    && (!m.draining ==> cache[m.setIdx][m.wayIdx].reserved && NotResident(c, cache, m.line))
    && (Pending(m) ==> NotResident(c, cache, m.wbLine) && Fits(c.words, c.w, m.wbLine, m.wbData))
  }

  /** Two registers never fetch the same line, reserve the same way or write back the same line, and a line being
    * filled is not one still to be written back. */
  ghost predicate Compatible(m: Mshr, n: Mshr) {
    && m.line != n.line
    && (!m.draining && !n.draining ==> m.setIdx != n.setIdx || m.wayIdx != n.wayIdx)
    && (Pending(m) && Pending(n) ==> m.wbLine != n.wbLine)
    && (Pending(m) && n.fillSent && !n.draining ==> m.wbLine != n.line)
    && (Pending(n) && m.fillSent && !m.draining ==> n.wbLine != m.line)
  }

  ghost predicate MshrsOk(c: DConf, cache: seq<seq<Way>>, mshrs: seq<Mshr>)
    requires WaysOk(c, cache)
  {
    && |mshrs| == c.mshrCount
    && (forall i :: 0 <= i < |mshrs| && mshrs[i].valid ==> MshrOk(c, cache, mshrs[i]))
    && (forall i, j :: 0 <= i < |mshrs| && 0 <= j < |mshrs| && i != j && mshrs[i].valid && mshrs[j].valid ==>
          Compatible(mshrs[i], mshrs[j]))
  }

  /** A clean resident line is what main memory has. */
  ghost predicate CleanOk(c: DConf, cache: seq<seq<Way>>, main: seq<Lanes>)
    requires WaysOk(c, cache)
  {
    forall s, i :: 0 <= s < c.sets && 0 <= i < c.ways ==> CleanWay(c, s, cache[s][i], main)
  }

  ghost predicate CleanWay(c: DConf, s: nat, way: Way, main: seq<Lanes>) {
    way.valid && !way.reserved && !way.dirty ==> way.data == MainLine(main, c.w, LineOf(c.sets, s, way.tag))
  }

  /** A fill that has arrived is what main memory has. */
  ghost predicate FillsOk(c: DConf, mshrs: seq<Mshr>, main: seq<Lanes>) {
    forall i :: 0 <= i < |mshrs| && mshrs[i].valid && mshrs[i].fillReady ==>
      mshrs[i].fill == MainLine(main, c.w, mshrs[i].line)
  }

  predicate WbOut(m: Mshr) { m.valid && m.wbSent && !m.wbDone }

  predicate FillOut(m: Mshr) { m.valid && m.fillSent && !m.fillReady && !m.draining }

  /** A slot working for the cache carries the one request the cache has outstanding. */
  ghost predicate SlotOk(c: DConf, mshrs: seq<Mshr>, dm: int, wb: bool, s: DramSlot, main: seq<Lanes>) {
    s.valid ==>
      match s.client
      case FromI => !s.write
      case FromD(i) =>
        && dm == i && i < |mshrs| && s.write == wb && |s.data| == c.w
        && (s.write ==> s.line == mshrs[i].wbLine && s.data == mshrs[i].wbData
                        && (s.cycles == 0 ==> MainLine(main, c.w, s.line) == s.data))
        && (!s.write ==> s.line == mshrs[i].line && s.data == MainLine(main, c.w, s.line))
  }

  predicate ForD(s: DramSlot) { s.valid && s.client.FromD? }

  /** The cache has at most one request in DRAM, and exactly when its register says so. */
  ghost predicate DramOk(c: DConf, mshrs: seq<Mshr>, dm: int, wb: bool, slots: seq<DramSlot>, main: seq<Lanes>) {
    && -1 <= dm < |mshrs| == c.mshrCount
    && (dm >= 0 ==> if wb then WbOut(mshrs[dm]) else FillOut(mshrs[dm]))
    && (forall i :: 0 <= i < |mshrs| && WbOut(mshrs[i]) ==> dm == i && wb)
    && (forall i :: 0 <= i < |mshrs| && FillOut(mshrs[i]) ==> dm == i && !wb)
    && (forall k :: 0 <= k < |slots| ==> SlotOk(c, mshrs, dm, wb, slots[k], main))
    && (forall k, l :: 0 <= k < l < |slots| ==> !(ForD(slots[k]) && ForD(slots[l])))
    && (dm >= 0 ==> exists k :: 0 <= k < |slots| && ForD(slots[k]))
  }

  /** Tags, registers and data. */
  ghost predicate DataOk(c: DConf, cache: seq<seq<Way>>, mshrs: seq<Mshr>, main: seq<Lanes>) {
    && c.w > 0 && |main| == c.words
    && WaysOk(c, cache) && MshrsOk(c, cache, mshrs) && CleanOk(c, cache, main) && FillsOk(c, mshrs, main)
  }

  // ---------------------------------------------------------------- searches find the only candidate

  lemma {:induction false} TheHit(c: DConf, cache: seq<seq<Way>>, ln: nat, i: nat)
    requires WaysOk(c, cache) && i < c.ways && IsResident(cache[SetOf(c.sets, ln)][i], TagOf(c.sets, ln))
    ensures FindHit(cache[SetOf(c.sets, ln)], TagOf(c.sets, ln), 0) == i
  {
  }

  lemma {:induction false} TheOwner(c: DConf, cache: seq<seq<Way>>, mshrs: seq<Mshr>, ln: nat, i: nat)
    requires WaysOk(c, cache) && MshrsOk(c, cache, mshrs) && i < |mshrs| && Owns(mshrs[i], ln)
    ensures FindOwner(mshrs, ln, 0) == i
  {
  }

  lemma {:induction false} ThePending(c: DConf, cache: seq<seq<Way>>, mshrs: seq<Mshr>, ln: nat, i: nat)
    requires WaysOk(c, cache) && MshrsOk(c, cache, mshrs) && i < |mshrs| && Pending(mshrs[i]) && mshrs[i].wbLine == ln
    ensures FindPending(mshrs, ln, 0) == i
  {
  }

  lemma {:induction false} SameHit(a: seq<Way>, b: seq<Way>, tag: nat)
    requires |a| == |b| && forall i :: 0 <= i < |a| ==> (IsResident(a[i], tag) <==> IsResident(b[i], tag))
    ensures FindHit(a, tag, 0) == FindHit(b, tag, 0)
  {
  }

  lemma {:induction false} SameOwner(a: seq<Mshr>, b: seq<Mshr>, ln: nat)
    requires |a| == |b| && forall i :: 0 <= i < |a| ==> (Owns(a[i], ln) <==> Owns(b[i], ln))
    ensures FindOwner(a, ln, 0) == FindOwner(b, ln, 0)
  {
  }

  lemma {:induction false} SamePending(a: seq<Mshr>, b: seq<Mshr>, ln: nat)
    requires |a| == |b| && forall i :: 0 <= i < |a| ==>
      (Pending(a[i]) && a[i].wbLine == ln <==> Pending(b[i]) && b[i].wbLine == ln)
    ensures FindPending(a, ln, 0) == FindPending(b, ln, 0)
  {
  }

  /** Base lines and the waiters' stores have the width of a line. */
  lemma {:induction false} BaseFits(c: DConf, cache: seq<seq<Way>>, mshrs: seq<Mshr>, main: seq<Lanes>, ln: nat)
    requires DataOk(c, cache, mshrs, main)
    ensures Fits(c.words, c.w, ln, BaseLine(c, mshrs, main, ln))
  {
    MainFits(main, c.w, ln);
  }

  lemma {:induction false} WaitersFit(c: DConf, cache: seq<seq<Way>>, mshrs: seq<Mshr>, main: seq<Lanes>, i: nat,
                                      l: Line)
    requires DataOk(c, cache, mshrs, main) && i < |mshrs| && mshrs[i].valid && |l| == c.w
    ensures AllIn(mshrs[i].waiters, |l|)
    ensures Fits(c.words, c.w, mshrs[i].line, l) ==> Fits(c.words, c.w, mshrs[i].line, ApplyStores(l, mshrs[i].waiters))
  {
    var m := mshrs[i];
    assert WaitersOk(c, m);
    if Fits(c.words, c.w, m.line, l) {
      StoresFit(c.words, c.w, m.line, l, m.waiters);
    }
  }

  /** A resident line is its way's data. */
  lemma {:induction false} AbsResident(c: DConf, cache: seq<seq<Way>>, mshrs: seq<Mshr>, main: seq<Lanes>, ln: nat,
                                       i: nat)
    requires WaysOk(c, cache) && i < c.ways && IsResident(cache[SetOf(c.sets, ln)][i], TagOf(c.sets, ln))
    ensures AbsLine(c, cache, mshrs, main, ln) == cache[SetOf(c.sets, ln)][i].data
  {
    TheHit(c, cache, ln, i);
  }

  /** A line being fetched is its base with the waiting stores applied. */
  lemma {:induction false} AbsOwned(c: DConf, cache: seq<seq<Way>>, mshrs: seq<Mshr>, main: seq<Lanes>, ln: nat, i: nat)
    requires DataOk(c, cache, mshrs, main) && i < |mshrs| && Owns(mshrs[i], ln)
    ensures AllIn(mshrs[i].waiters, |BaseLine(c, mshrs, main, ln)|)
    ensures AbsLine(c, cache, mshrs, main, ln) == ApplyStores(BaseLine(c, mshrs, main, ln), mshrs[i].waiters)
  {
    TheOwner(c, cache, mshrs, ln, i);
    BaseFits(c, cache, mshrs, main, ln);
    WaitersFit(c, cache, mshrs, main, i, BaseLine(c, mshrs, main, ln));
    assert MshrOk(c, cache, mshrs[i]);
  }

  /** Any other line is what DRAM will deliver. */
  lemma {:induction false} AbsOther(c: DConf, cache: seq<seq<Way>>, mshrs: seq<Mshr>, main: seq<Lanes>, ln: nat)
    requires WaysOk(c, cache) && NotResident(c, cache, ln) && forall i :: 0 <= i < |mshrs| ==> !Owns(mshrs[i], ln)
    ensures AbsLine(c, cache, mshrs, main, ln) == BaseLine(c, mshrs, main, ln)
  {
  }
}
