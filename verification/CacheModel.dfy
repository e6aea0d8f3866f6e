/** The data cache as values: its state, what each step of a cycle does to it, and the memory it stands for. */
module CacheModel {
  import opened Words
  import opened MemTypes

  /** Geometry: words in a line, sets, ways, miss registers, request ports, waiters for each register, hit latency,
    * and the size of main memory in words. */
  datatype DConf = DConf(w: nat, sets: nat, ways: nat, mshrCount: nat, ports: nat, waiters: nat, hitLatency: nat,
      words: nat)

  datatype Way = Way(valid: bool, dirty: bool, reserved: bool, tag: nat, data: Line, lru: nat)

  /** A miss register: the line it fetches, the way it has reserved, the victim it must write back first, and the
    * requests waiting for the line. */
  datatype Mshr = Mshr(valid: bool, line: nat, setIdx: nat, wayIdx: nat,
                       needWb: bool, wbSent: bool, wbDone: bool, wbLine: nat, wbData: Line,
                       fillSent: bool, fillReady: bool, fill: Line, waiters: seq<Req>,
                       draining: bool, drainIdx: nat, drainLine: Line)

  const NO_MSHR := Mshr(false, 0, 0, 0, false, false, true, 0, [], false, false, [], [], false, 0, [])

  const NO_REQ := Req(false, 0, 0, ZERO_LANES, NO_LANES, -1, 0)

  datatype Pipe = Pipe(valid: bool, req: Req)

  datatype HitPend = HitPend(valid: bool, cycles: nat, resp: Resp)

  const NO_HIT := HitPend(false, 0, Resp(-1, ZERO_LANES, 0, false))

  datatype DState = DState(cache: seq<seq<Way>>, mshrs: seq<Mshr>, pipe: seq<Pipe>, hitPend: seq<HitPend>,
      respQ: seq<Resp>,
                           dramMshr: int, dramIsWb: bool, drainMshr: int, lruClock: nat, cpuAccepts: nat)

  datatype Client = FromD(mshr: nat) | FromI

  datatype DramSlot = DramSlot(valid: bool, write: bool, line: nat, client: Client, cycles: nat, data: Line)

  const NO_SLOT := DramSlot(false, false, 0, FromI, 0, [])

  // ---------------------------------------------------------------- searches

  predicate IsResident(way: Way, tag: nat) { way.valid && !way.reserved && way.tag == tag }

  function FindHit(ways: seq<Way>, tag: nat, from: nat): (i: int)
    requires from <= |ways|
    ensures i == -1 || (from <= i < |ways| && IsResident(ways[i], tag))
    ensures forall j :: from <= j < (if i == -1 then |ways| else i) ==> !IsResident(ways[j], tag)
    decreases |ways| - from
  {
    if from == |ways| then -1
    else if IsResident(ways[from], tag) then from
    else FindHit(ways, tag, from + 1)
  }

  function FindInvalid(ways: seq<Way>, from: nat): (i: int)
    requires from <= |ways|
    ensures i == -1 || (from <= i < |ways| && !ways[i].valid && !ways[i].reserved)
    decreases |ways| - from
  {
    if from == |ways| then -1
    else if !ways[from].valid && !ways[from].reserved then from
    else FindInvalid(ways, from + 1)
  }

  /** Least recently used way that is not reserved, the first of equals. */
  function FindLru(ways: seq<Way>, n: nat): (i: int)
    requires n <= |ways|
    ensures -1 <= i < n && (i >= 0 ==> !ways[i].reserved)
    ensures i == -1 <==> forall j :: 0 <= j < n ==> ways[j].reserved
    ensures i >= 0 ==> forall j :: 0 <= j < n && !ways[j].reserved ==> ways[i].lru <= ways[j].lru
  {
    if n == 0 then -1
    else
      var i := FindLru(ways, n - 1);
      if !ways[n - 1].reserved && (i < 0 || ways[n - 1].lru < ways[i].lru) then n - 1 else i
  }

  function FindVictim(ways: seq<Way>): (i: int)
    ensures -1 <= i < |ways| && (i >= 0 ==> !ways[i].reserved)
    ensures i == -1 <==> forall j :: 0 <= j < |ways| ==> ways[j].reserved
  {
    var free := FindInvalid(ways, 0);
    if free >= 0 then free else FindLru(ways, |ways|)
  }

  function FindMshr(mshrs: seq<Mshr>, line: nat, from: nat): (i: int)
    requires from <= |mshrs|
    ensures i == -1 || (from <= i < |mshrs| && mshrs[i].valid && mshrs[i].line == line)
    ensures forall j :: from <= j < (if i == -1 then |mshrs| else i) ==> !(mshrs[j].valid && mshrs[j].line == line)
    decreases |mshrs| - from
  {
    if from == |mshrs| then -1
    else if mshrs[from].valid && mshrs[from].line == line then from
    else FindMshr(mshrs, line, from + 1)
  }

  function AllocMshr(mshrs: seq<Mshr>, from: nat): (i: int)
    requires from <= |mshrs|
    ensures i == -1 || (from <= i < |mshrs| && !mshrs[i].valid)
    ensures i == -1 ==> forall j :: from <= j < |mshrs| ==> mshrs[j].valid
    decreases |mshrs| - from
  {
    if from == |mshrs| then -1 else if !mshrs[from].valid then from else AllocMshr(mshrs, from + 1)
  }

  predicate WantsWb(m: Mshr) { m.valid && m.needWb && !m.wbDone && !m.wbSent }

  predicate WantsFill(m: Mshr) { m.valid && m.wbDone && !m.fillSent }

  function FindWb(mshrs: seq<Mshr>, from: nat): (i: int)
    requires from <= |mshrs|
    ensures i == -1 || (from <= i < |mshrs| && WantsWb(mshrs[i]))
    ensures forall j :: from <= j < (if i == -1 then |mshrs| else i) ==> !WantsWb(mshrs[j])
    decreases |mshrs| - from
  {
    if from == |mshrs| then -1 else if WantsWb(mshrs[from]) then from else FindWb(mshrs, from + 1)
  }

  function FindFill(mshrs: seq<Mshr>, from: nat): (i: int)
    requires from <= |mshrs|
    ensures i == -1 || (from <= i < |mshrs| && WantsFill(mshrs[i]))
    ensures forall j :: from <= j < (if i == -1 then |mshrs| else i) ==> !WantsFill(mshrs[j])
    decreases |mshrs| - from
  {
    if from == |mshrs| then -1 else if WantsFill(mshrs[from]) then from else FindFill(mshrs, from + 1)
  }

  /** Write-backs go before fills. */
  function PickDramMshr(mshrs: seq<Mshr>): (i: int)
    ensures i == -1 || (0 <= i < |mshrs| && (WantsWb(mshrs[i]) || WantsFill(mshrs[i])))
    ensures i == -1 ==> forall j :: 0 <= j < |mshrs| ==> !WantsWb(mshrs[j]) && !WantsFill(mshrs[j])
  {
    var wb := FindWb(mshrs, 0);
    if wb >= 0 then wb else FindFill(mshrs, 0)
  }

  // ---------------------------------------------------------------- the compare pipe

  predicate Shaped(c: DConf, d: DState) {
    && c.w > 0 && c.sets > 0
    && |d.cache| == c.sets && (forall s :: 0 <= s < c.sets ==> |d.cache[s]| == c.ways)
    && (forall s, i :: 0 <= s < c.sets && 0 <= i < c.ways && d.cache[s][i].valid ==> |d.cache[s][i].data| == c.w)
    && |d.mshrs| == c.mshrCount && |d.pipe| == c.ports && |d.hitPend| == c.ports
    && (forall p :: 0 <= p < c.ports && d.pipe[p].valid ==> d.pipe[p].req.off < c.w)
    && -1 <= d.dramMshr < c.mshrCount && -1 <= d.drainMshr < c.mshrCount
  }

  function PutWay(cache: seq<seq<Way>>, s: nat, i: nat, way: Way): (r: seq<seq<Way>>)
    requires s < |cache| && i < |cache[s]|
    ensures |r| == |cache| && |r[s]| == |cache[s]|
  {
    cache[s := cache[s][i := way]]
  }

  /** A held request stays in its pipe. */
  predicate Holds(c: DConf, m: Mshr) {
    m.fillReady || m.draining || |m.waiters| >= c.waiters
  }

  function JoinMshr(d: DState, p: nat, i: nat): DState
    requires p < |d.pipe| && i < |d.mshrs|
  {
    var m := d.mshrs[i];
    d.(pipe := d.pipe[p := d.pipe[p].(valid := false)],
       mshrs := d.mshrs[i := m.(waiters := m.waiters + [d.pipe[p].req])])
  }

  /** A hit: a store writes the way and is answered at once, a load is answered after the hit latency. */
  function HitPort(c: DConf, d: DState, p: nat, s: nat, i: nat): DState
    requires Shaped(c, d) && p < c.ports && d.pipe[p].valid && s < c.sets && i < c.ways && d.cache[s][i].valid
  {
    var req, way := d.pipe[p].req, d.cache[s][i].(lru := d.lruClock);
    var free := d.pipe[p := d.pipe[p].(valid := false)];
    if req.write then
      d.(pipe := free, lruClock := d.lruClock + 1, respQ := d.respQ + [ReplyTo(req, ZERO_LANES)],
         cache := PutWay(d.cache, s, i, way.(data := ApplyStore(way.data, req), dirty := true)))
    else if d.hitPend[p].valid then
      d.(lruClock := d.lruClock + 1, cache := PutWay(d.cache, s, i, way))
    else
      d.(pipe := free, lruClock := d.lruClock + 1, cache := PutWay(d.cache, s, i, way),
         hitPend := d.hitPend[p := HitPend(true, c.hitLatency, ReplyTo(req, way.data[req.off]))])
  }

  function NewMshr(c: DConf, way: Way, s: nat, i: nat, req: Req): Mshr {
    var needWb := way.valid && way.dirty;
    Mshr(true, req.line, s, i, needWb, false, !needWb,
         if needWb then LineOf(c.sets, s, way.tag) else 0, if needWb then way.data else [],
         false, false, seq(c.w, _ => ZERO_LANES), [req], false, 0, [])
  }

  /** A miss: reserve a victim and start fetching the line. */
  function MissPort(c: DConf, d: DState, p: nat, s: nat, v: nat, i: nat): DState
    requires Shaped(c, d) && p < c.ports && s < c.sets && v < c.ways && i < c.mshrCount
  {
    var req, way := d.pipe[p].req, d.cache[s][v];
    d.(pipe := d.pipe[p := d.pipe[p].(valid := false)],
       mshrs := d.mshrs[i := NewMshr(c, way, s, v, req)],
       cache := PutWay(d.cache, s, v, way.(reserved := true)))
  }

  /** The request waiting in port `p` meets the tags. */
  function ProcessPort(c: DConf, d: DState, p: nat): DState
    requires Shaped(c, d) && p < c.ports
  {
    if !d.pipe[p].valid then d
    else
      var req := d.pipe[p].req;
      var s, tag := SetOf(c.sets, req.line), TagOf(c.sets, req.line);
      var existing := FindMshr(d.mshrs, req.line, 0);
      if existing >= 0 then
        if Holds(c, d.mshrs[existing]) then d else JoinMshr(d, p, existing)
      else
        var hit := FindHit(d.cache[s], tag, 0);
        if hit >= 0 then HitPort(c, d, p, s, hit)
        else
          var i, v := AllocMshr(d.mshrs, 0), FindVictim(d.cache[s]);
          if i < 0 || v < 0 then d else MissPort(c, d, p, s, v, i)
  }

  // ---------------------------------------------------------------- DRAM side

  /** The picked miss register's request has been taken. */
  function DramAccepted(d: DState): DState
    requires PickDramMshr(d.mshrs) >= 0
  {
    var i := PickDramMshr(d.mshrs);
    var m := d.mshrs[i];
    if WantsWb(m) then d.(dramMshr := i, dramIsWb := true, mshrs := d.mshrs[i := m.(wbSent := true)])
    else d.(dramMshr := i, dramIsWb := false, mshrs := d.mshrs[i := m.(fillSent := true)])
  }

  /** A DRAM reply: the write-back is done, or the fill has arrived. */
  function DramReplied(c: DConf, d: DState, i: nat, line: Line): DState {
    if i >= |d.mshrs| || !d.mshrs[i].valid then d
    else
      var m := d.mshrs[i];
      var d1 := if d.dramMshr == i then d.(dramMshr := -1, dramIsWb := false) else d;
      if (d.dramMshr == i && d.dramIsWb) || (d.dramMshr != i && m.wbSent && !m.wbDone)
      then d1.(mshrs := d.mshrs[i := m.(wbDone := true)])
      else d1.(mshrs := d.mshrs[i := m.(fill := line, fillReady := true)])
  }

  // ---------------------------------------------------------------- fill and drain

  /** The way an arrived fill becomes: the waiting stores applied, dirty if there was one. */
  function Installed(c: DConf, m: Mshr, lru: nat): Way
    requires c.sets > 0 && AllIn(m.waiters, |m.fill|)
  {
    Way(true, exists k :: 0 <= k < |m.waiters| && m.waiters[k].write, false, TagOf(c.sets, m.line),
        ApplyStores(m.fill, m.waiters), lru)
  }

  /** The register then answers its waiters from that line. */
  function Draining(m: Mshr): Mshr
    requires AllIn(m.waiters, |m.fill|)
  {
    m.(fillReady := false, drainLine := ApplyStores(m.fill, m.waiters), draining := true, drainIdx := 0)
  }

  /** The fetched line with the waiting stores applied becomes resident; its waiters start to drain. */
  function CompleteFill(c: DConf, d: DState, i: nat): DState
    requires Shaped(c, d) && i < c.mshrCount
    requires var m := d.mshrs[i]; m.setIdx < c.sets && m.wayIdx < c.ways && AllIn(m.waiters, |m.fill|)
  {
    var m := d.mshrs[i];
    if !m.fillReady || m.draining then d
    else
      d.(cache := PutWay(d.cache, m.setIdx, m.wayIdx, Installed(c, m, d.lruClock)), lruClock := d.lruClock + 1,
         mshrs := d.mshrs[i := Draining(m)],
         drainMshr := if d.drainMshr < 0 then i else d.drainMshr)
  }

  function FindDraining(mshrs: seq<Mshr>, from: nat): (i: int)
    requires from <= |mshrs|
    ensures i == -1 || (from <= i < |mshrs| && mshrs[i].valid && mshrs[i].draining)
    ensures forall j :: from <= j < (if i == -1 then |mshrs| else i) ==> !(mshrs[j].valid && mshrs[j].draining)
    decreases |mshrs| - from
  {
    if from == |mshrs| then -1
    else if mshrs[from].valid && mshrs[from].draining then from
    else FindDraining(mshrs, from + 1)
  }

  /** A register after one more of its waiters has been answered; the last one frees it. */
  function Answered(m: Mshr): Mshr {
    if m.drainIdx + 1 < |m.waiters| then m.(drainIdx := m.drainIdx + 1) else NO_MSHR
  }

  /** The reply the next waiter gets from the line just filled. */
  function NextReplies(m: Mshr): seq<Resp>
    requires forall k :: 0 <= k < |m.waiters| ==> m.waiters[k].off < |m.drainLine|
  {
    if m.drainIdx < |m.waiters| then [ReplyTo(m.waiters[m.drainIdx], m.drainLine[m.waiters[m.drainIdx].off])] else []
  }

  function DrainOne(d: DState, i: nat): DState
    requires i < |d.mshrs|
    requires var m := d.mshrs[i]; forall k :: 0 <= k < |m.waiters| ==> m.waiters[k].off < |m.drainLine|
  {
    var m := d.mshrs[i];
    d.(respQ := d.respQ + NextReplies(m), mshrs := d.mshrs[i := Answered(m)],
        drainMshr := if Answered(m).valid then i else -1)
  }

  /** One reply for each cycle, from one register at a time. */
  function StepDrain(d: DState): DState
    requires -1 <= d.drainMshr < |d.mshrs|
    requires forall i :: 0 <= i < |d.mshrs| && d.mshrs[i].valid && d.mshrs[i].draining ==>
               forall k :: 0 <= k < |d.mshrs[i].waiters| ==> d.mshrs[i].waiters[k].off < |d.mshrs[i].drainLine|
  {
    var i := if d.drainMshr < 0 then FindDraining(d.mshrs, 0) else d.drainMshr;
    if i < 0 then d
    else if !d.mshrs[i].valid || !d.mshrs[i].draining then d.(drainMshr := -1)
    else DrainOne(d, i)
  }

  /** The register whose turn it is to drain, or -1. */
  function DrainTurn(d: DState): (i: int)
    requires -1 <= d.drainMshr < |d.mshrs|
    ensures -1 <= i < |d.mshrs|
  {
    var i := if d.drainMshr < 0 then FindDraining(d.mshrs, 0) else d.drainMshr;
    if i >= 0 && d.mshrs[i].valid && d.mshrs[i].draining then i else -1
  }

  /** A finished hit delay puts its reply in the queue. */
  function EmitHit(d: DState, p: nat): DState
    requires p < |d.hitPend|
  {
    var h := d.hitPend[p];
    if !h.valid then d
    else
      var left := if h.cycles > 0 then h.cycles - 1 else 0;
      if left == 0 then d.(respQ := d.respQ + [h.resp], hitPend := d.hitPend[p := NO_HIT])
      else d.(hitPend := d.hitPend[p := h.(cycles := left)])
  }

  // ---------------------------------------------------------------- DRAM

  /** One slot's part of a cycle: count down, and write memory once the count has ended. */
  function TickSlot(s: DramSlot): DramSlot {
    if s.valid && s.cycles > 0 then s.(cycles := s.cycles - 1) else s
  }

  function TickMain(w: nat, s: DramSlot, main: seq<Lanes>): (m: seq<Lanes>)
    requires s.valid && s.write ==> |s.data| == w
    ensures |m| == |main|
  {
    var t := TickSlot(s);
    if t.valid && t.cycles == 0 && t.write then WriteLine(main, w, t.line, t.data) else main
  }

  function FindFree(slots: seq<DramSlot>, from: nat): (k: int)
    requires from <= |slots|
    ensures k == -1 || (from <= k < |slots| && !slots[k].valid)
    ensures k == -1 ==> forall j :: from <= j < |slots| ==> slots[j].valid
    decreases |slots| - from
  {
    if from == |slots| then -1 else if !slots[from].valid then from else FindFree(slots, from + 1)
  }

  function FindReady(slots: seq<DramSlot>, from: nat): (k: int)
    requires from <= |slots|
    ensures k == -1 || (from <= k < |slots| && slots[k].valid && slots[k].cycles == 0)
    ensures k == -1 ==> forall j :: from <= j < |slots| ==> !slots[j].valid || slots[j].cycles > 0
    decreases |slots| - from
  {
    if from == |slots| then -1 else if slots[from].valid && slots[from].cycles == 0 then from else FindReady(slots,
        from + 1)
  }
}
