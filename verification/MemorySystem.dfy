/** The fixed-latency DRAM over main memory, and the cached memory system that ties it to the data cache. */
module MemorySystem {
  import opened Words
  import opened MemTypes
  import opened CacheModel
  import opened CacheInv
  import opened CacheRun
  import opened CacheCycle
  import opened CacheFlush
  import opened DataCache

  ghost predicate SlotsWide(w: nat, slots: seq<DramSlot>) {
    forall k :: 0 <= k < |slots| && slots[k].valid && slots[k].write ==> |slots[k].data| == w
  }

  function TickedFrom(slots: seq<DramSlot>, k: nat): (r: seq<DramSlot>)
    ensures |r| == |slots| && forall i :: 0 <= i < |slots| ==> r[i] == if i < k then slots[i] else TickSlot(slots[i])
  {
    seq(|slots|, i requires 0 <= i < |slots| => if i < k then slots[i] else TickSlot(slots[i]))
  }

  /** Main memory after slots `k` on have had their cycle. */
  function MainFrom(w: nat, slots: seq<DramSlot>, main: seq<Lanes>, k: nat): (m: seq<Lanes>)
    requires k <= |slots| && SlotsWide(w, slots)
    ensures |m| == |main|
    decreases |slots| - k
  {
    if k == |slots| then main else MainFrom(w, slots, TickMain(w, slots[k], main), k + 1)
  }

  /** The DRAM's tick is the slots' ticks one after the other. */
  lemma {:induction false} TickIsSlots(c: DConf, m: MemSys, k: nat)
    requires LiveInv(c, m) && k <= |m.slots| && SlotsWide(c.w, m.slots)
    ensures TickSlots(c, m, k) == m.(slots := TickedFrom(m.slots, k), main := MainFrom(c.w, m.slots, m.main, k))
    decreases |m.slots| - k
  {
    hide DataOk, DramOk, ReservedOk, PipesOk, TickMain;
    if k == |m.slots| {
      assert TickedFrom(m.slots, k) == m.slots;
    } else {
      var t := Do(c, m, SlotTick(k));
      var slots' := m.slots[k := TickSlot(m.slots[k])];
      assert t == m.(slots := slots', main := TickMain(c.w, m.slots[k], m.main));
      TickIsSlots(c, t, k + 1);
      assert TickedFrom(slots', k + 1) == TickedFrom(m.slots, k);
      SameLater(c.w, m.slots, slots', t.main, k + 1);
    }
  }

  lemma {:induction false} SameLater(w: nat, a: seq<DramSlot>, b: seq<DramSlot>, main: seq<Lanes>, k: nat)
    requires |a| == |b| && k <= |a| && SlotsWide(w, a) && SlotsWide(w, b) && forall i :: k <= i < |a| ==> a[i] == b[i]
    ensures MainFrom(w, a, main, k) == MainFrom(w, b, main, k)
    decreases |a| - k
  {
    if k < |a| {
      SameLater(w, a, b, TickMain(w, a[k], main), k + 1);
    }
  }

  lemma {:induction false} InvIsWide(c: DConf, m: MemSys)
    requires SysInv(c, m)
    ensures SlotsWide(c.w, m.slots)
  {
    forall k | 0 <= k < |m.slots| && m.slots[k].valid && m.slots[k].write ensures |m.slots[k].data| == c.w {
      assert SlotOk(c, m.d.mshrs, m.d.dramMshr, m.d.dramIsWb, m.slots[k], m.main);
    }
  }

  // ---------------------------------------------------------------- DRAM

  class DramSimple {
    const w: nat
    const latency: nat
    const mainMemory: array<Lanes>
    var slots: seq<DramSlot>
    var accepted: bool

    constructor (lineWords: nat, outstanding: int, latencyCycles: int, memory: array<Lanes>)
      ensures w == lineWords && latency > 0 && mainMemory == memory && !accepted
      ensures |slots| == (if outstanding > 0 then outstanding else 1) && forall k :: 0 <= k < |slots| ==>
                slots[k] == NO_SLOT
    {
      w := lineWords;
      latency := if latencyCycles > 0 then latencyCycles else 1;
      mainMemory := memory;
      slots := seq(if outstanding > 0 then outstanding else 1, _ => NO_SLOT);
      accepted := false;
    }

    /** Every slot counts down; a write reaches main memory when its count has ended. */
    method Tick()
      requires SlotsWide(w, slots)
      modifies this, mainMemory
      ensures !accepted && slots == TickedFrom(old(slots), 0)
      ensures mainMemory[..] == MainFrom(w, old(slots), old(mainMemory[..]), 0)
    {
      hide TickMain;
      accepted := false;
      ghost var start := slots;
      var k := 0;
      while k < |slots|
        invariant 0 <= k <= |slots| == |start| && !accepted
        invariant forall i :: 0 <= i < |slots| ==> slots[i] == if i < k then TickSlot(start[i]) else start[i]
        invariant MainFrom(w, start, mainMemory[..], k) == MainFrom(w, start, old(mainMemory[..]), 0)
      {
        TickOne(k);
        k := k + 1;
      }
    }

    method TickOne(k: nat)
      requires k < |slots| && (slots[k].valid && slots[k].write ==> |slots[k].data| == w)
      modifies this`slots, mainMemory
      ensures slots == old(slots)[k := TickSlot(old(slots)[k])]
      ensures mainMemory[..] == TickMain(w, old(slots)[k], old(mainMemory[..]))
    {
      var s := slots[k];
      if s.valid && s.cycles > 0 { s := s.(cycles := s.cycles - 1); }
      slots := slots[k := s];
      if s.valid && s.cycles == 0 && s.write { StoreLine(s.line, s.data); }
    }

    /** Words outside memory are dropped. */
    method StoreLine(line: nat, data: Line)
      requires |data| == w
      modifies mainMemory
      ensures mainMemory[..] == WriteLine(old(mainMemory[..]), w, line, data)
    {
      ghost var was := mainMemory[..];
      var base, i := line * w, 0;
      while i < w
        invariant 0 <= i <= w
        invariant forall x :: 0 <= x < mainMemory.Length ==>
          mainMemory[x] == if base <= x < base + i then data[x - base] else was[x]
      {
        if base + i < mainMemory.Length { mainMemory[base + i] := data[i]; }
        i := i + 1;
      }
      assert mainMemory[..] == WriteLine(was, w, line, data);
    }

    /** At most one request a cycle, into the first free slot; a data fill captures its line now. */
    method TryAccept(write: bool, line: nat, wdata: Line, client: Client, image: Line) returns (ok: bool, k: int)
      requires write ==> |wdata| == w
      modifies this
      ensures k == FindFree(old(slots), 0)
      ensures ok <==> !old(accepted) && k >= 0
      ensures !ok ==> slots == old(slots) && accepted == old(accepted)
      ensures ok ==> accepted && slots == old(slots)[k := DramSlot(true, write, line, client, latency,
                       if write then wdata else if client.FromI? then image else MainLine(mainMemory[..], w, line))]
    {
      k := 0;
      while k < |slots|
        invariant 0 <= k <= |slots| && slots == old(slots) && accepted == old(accepted)
        invariant FindFree(slots, 0) == FindFree(slots, k)
      {
        if !slots[k].valid { break; }
        k := k + 1;
      }
      if k == |slots| { return false, -1; }
      if accepted { return false, k; }
      var data := wdata;
      if !write { if client.FromI? { data := image; } else { data := LoadLine(line); } }
      slots := slots[k := DramSlot(true, write, line, client, latency, data)];
      accepted := true;
      return true, k;
    }

    /** Words outside memory read as zero. */
    method LoadLine(line: nat) returns (data: Line)
      ensures data == MainLine(mainMemory[..], w, line)
    {
      data := [];
      var base, i := line * w, 0;
      while i < w
        invariant 0 <= i <= w && |data| == i
        invariant forall x :: 0 <= x < i ==> data[x] == LineWord(mainMemory[..], w, line, x)
      {
        data := data + [if base + i < mainMemory.Length then mainMemory[base + i] else ZERO_LANES];
        i := i + 1;
      }
    }

    /** The first finished slot is freed and its reply handed over. */
    method TryPopResp() returns (k: int, client: Client, data: Line)
      modifies this`slots
      ensures k == FindReady(old(slots), 0)
      ensures k < 0 ==> slots == old(slots)
      ensures k >= 0 ==>
                client == old(slots)[k].client && data == old(slots)[k].data && slots == old(slots)[k := NO_SLOT]
    {
      client, data, k := FromI, [], 0;
      while k < |slots|
        invariant 0 <= k <= |slots| && slots == old(slots)
        invariant FindReady(slots, 0) == FindReady(slots, k)
      {
        if slots[k].valid && slots[k].cycles == 0 {
          client, data := slots[k].client, slots[k].data;
          slots := slots[k := NO_SLOT];
          return;
        }
        k := k + 1;
      }
      k := -1;
    }
  }

  // ---------------------------------------------------------------- the whole system

  function WrittenBack(way: Way): Way { if Dirty(way) then way.(dirty := false) else way }

  /** The ways of a set after its dirty lines have been written back: nothing but the dirty marks has changed. */
  predicate Cleaned(was: seq<Way>, now: seq<Way>) {
    |now| == |was| && forall j :: 0 <= j < |was| ==> now[j] == WrittenBack(was[j])
  }

  class CachedMemorySystem {
    const conf: DConf
    const dram: DramSimple
    const dcache: DCache

    ghost function State(): MemSys
      reads this, dram, dcache, dram.mainMemory
    {
      MemSys(dcache.State(), dram.slots, dram.mainMemory[..])
    }

    ghost predicate Valid()
      reads this, dram, dcache, dram.mainMemory
    {
      && dcache.conf == conf && dram.w == conf.w && dram.latency > 0
      && LiveInv(conf, State())
    }

    /** An empty cache over any memory stands for that memory. */
    constructor (c: DConf, outstanding: int, latency: int, memory: array<Lanes>)
      requires c.w > 0 && c.sets > 0 && memory.Length == c.words
      ensures Valid() && fresh(dram) && fresh(dcache) && conf == c && dram.mainMemory == memory && !Busy(State())
      ensures forall ln: nat :: Flat(c, State(), ln) == MainLine(memory[..], c.w, ln)
    {
      conf := c;
      dram := new DramSimple(c.w, outstanding, latency, memory);
      dcache := new DCache(c);
      new;
      EmptyIsLive(c, State());
    }

    /** Takes a data request for the compare pipe, if a port is free. */
    method TryDataReq(req: Req) returns (ok: bool)
      requires Valid() && InMemory(conf.words, conf.w, req)
      modifies dcache
      ensures Valid() && dram.slots == old(dram.slots)
      ensures ok <==> old(dcache.cpuAccepts) < conf.ports
                      && exists p :: 0 <= p < conf.ports && !old(dcache.pipe)[p].valid && !old(dcache.hitPend)[p].valid
      ensures !ok ==> State() == old(State())
      ensures ok ==> exists p :: 0 <= p < conf.ports && old(MemEnabled(conf, State(), Accept(p, req)))
                                 && State() == old(MemApply(conf, State(), Accept(p, req)))
    {
      ValidCache();
      ghost var m := State();
      var port;
      ok, port := dcache.TryCpuReq(req);
      if ok {
        StepLive(conf, m, Accept(port, req));
        assert MemEnabled(conf, m, Accept(port, req)) && State() == MemApply(conf, m, Accept(port, req));
      }
    }

    /** The queued replies, oldest first. */
    method PopDataResps() returns (out: seq<Resp>)
      requires Valid()
      modifies dcache
      ensures Valid() && out + dcache.respQ == old(dcache.respQ)
      ensures |out| == (var most := if conf.ports <= 2 then 4 else conf.ports;
                        if |old(dcache.respQ)| < most then |old(dcache.respQ)| else most)
      ensures State() == old(State()).(d := old(State()).d.(respQ := dcache.respQ))
    {
      ValidCache();
      ghost var m := State();
      out := dcache.PopCpuResps();
      TakenLive(conf, m, dcache.respQ);
    }

    lemma {:induction false} ValidCache()
      requires Valid()
      ensures dcache.Valid()
    {
      InvIsCacheOk(conf, State());
    }

    /** The cache has priority for the DRAM; otherwise the instruction side may read. */
    method ArbitrateToDram(read: ImageRead)
      requires Valid() && !dram.accepted
      modifies dram, dcache
      ensures Valid() && State() == old(Arbitrate(conf, dram.latency, State(), read))
    {
      hide DramOk, DataOk, ReservedOk, PipesOk;
      ValidCache();
      ghost var m := State();
      var i := dcache.PickDramRegister();
      if dcache.dramMshr < 0 && i >= 0 {
        var r := dcache.mshrs[i];
        ghost var wb := WantsWb(r);
        PickedWidth(conf, m);
        var ok, k := dram.TryAccept(r.needWb && !r.wbDone && !r.wbSent, if WantsWb(r) then r.wbLine else r.line,
                                    if WantsWb(r) then r.wbData else [], FromD(i), []);
        if ok {
          dcache.DramReqAccepted();
          StepLive(conf, m, CacheToDram(k, dram.latency));
          assert State() == MemApply(conf, m, CacheToDram(k, dram.latency));
        }
        return;
      }
      if read.ImageRead? {
        var ok, k := dram.TryAccept(false, read.line, [], FromI, read.image);
        if ok {
          StepLive(conf, m, OtherToDram(k, dram.slots[k]));
          assert State() == MemApply(conf, m, OtherToDram(k, dram.slots[k]));
        }
      }
    }

    /** One finished DRAM request a cycle goes back to its client. */
    method RouteDramResps()
      requires Valid()
      modifies dram`slots, dcache
      ensures Valid() && dram.accepted == old(dram.accepted) && State() == old(TakeReply(conf, State()))
    {
      hide DramOk, DataOk, ReservedOk, PipesOk;
      ValidCache();
      ghost var m := State();
      var k, client, data := dram.TryPopResp();
      if k >= 0 {
        StepLive(conf, m, Reply(k));
        if client.FromD? {
          ReplyWidth(conf, m, k);
          dcache.DramResp(client.mshr, data);
        }
        assert State() == MemApply(conf, m, Reply(k));
      }
    }

    /** One cycle, the same run of steps whatever the instruction side reads. */
    method Tick(read: ImageRead)
      requires Valid()
      modifies dram, dcache, dram.mainMemory
      ensures Valid() && old(LiveInv(conf, State().(d := State().d.(cpuAccepts := 0))))
      ensures State() == old(CycleReading(conf, dram.latency, State().(d := State().d.(cpuAccepts := 0)), read))
      ensures old(Leads(conf, State().(d := State().d.(cpuAccepts := 0)),
                        CycleReading(conf, dram.latency, State().(d := State().d.(cpuAccepts := 0)), read)))
    {
      hide DramOk, DataOk, ReservedOk, PipesOk, CycleReading, TickSlots, TakeReply, Arbitrate, CacheTick, TickedEnd,
           Leads;
      ValidCache();
      AcceptsReset(conf, State());
      ghost var start := State().(d := State().d.(cpuAccepts := 0));
      dcache.TickBegin();
      InvIsWide(conf, State());
      TickIsSlots(conf, State(), 0);
      dram.Tick();
      ghost var m1 := State();
      assert m1 == TickSlots(conf, start, 0);
      RouteDramResps();
      ghost var m2 := State();
      ArbitrateToDram(read);
      ghost var m3 := State();
      ValidCache();
      CacheTickIs(conf, m3);
      dcache.TickEnd();
      CycleIs(conf, dram.latency, start, read);
      CycleLeads(conf, dram.latency, start, read);
    }

    /** Every dirty line goes to main memory; its way is clean afterwards. */
    method WritebackDirty()
      requires Valid() && !Busy(State())
      modifies dcache`cache, dram.mainMemory
      ensures forall t :: 0 <= t < |old(dcache.cache)| ==> Wide(conf, old(dcache.cache)[t])
      ensures dram.mainMemory[..] == FlushAll(conf, old(dcache.cache), 0, old(dram.mainMemory[..]))
      ensures forall ln: nat :: MainLine(dram.mainMemory[..], conf.w, ln) == old(Flat(conf, State(), ln))
      ensures |dcache.cache| == |old(dcache.cache)|
      ensures forall t :: 0 <= t < |dcache.cache| ==> Cleaned(old(dcache.cache)[t], dcache.cache[t])
    {
      hide Cleaned, FlushWay, DataOk, DramOk, ReservedOk, PipesOk;
      ghost var m := State();
      ghost var cache0 := dcache.cache;
      InvIsWays(conf, m);
      forall ln: nat { FlushIsFlat(conf, m, ln); }
      var s := 0;
      while s < conf.sets
        invariant 0 <= s <= conf.sets == |dcache.cache|
        invariant forall t :: s <= t < conf.sets ==> dcache.cache[t] == cache0[t]
        invariant forall t :: 0 <= t < s ==> Cleaned(cache0[t], dcache.cache[t])
        invariant FlushAll(conf, cache0, s, dram.mainMemory[..]) == FlushAll(conf, cache0, 0, m.main)
      {
        assert Wide(conf, dcache.cache[s]) && |dcache.cache[s]| == conf.ways;
        FlushOneSet(s);
        s := s + 1;
      }
    }

    method FlushOneSet(s: nat)
      requires s < |dcache.cache| && Wide(conf, dcache.cache[s]) && |dcache.cache[s]| == conf.ways && dram.w == conf.w
      modifies dcache`cache, dram.mainMemory
      ensures |dcache.cache| == |old(dcache.cache)| && forall t :: 0 <= t < |dcache.cache| && t != s ==>
                dcache.cache[t] == old(dcache.cache)[t]
      ensures Cleaned(old(dcache.cache)[s], dcache.cache[s])
      ensures dram.mainMemory[..] == FlushSet(conf, s, old(dcache.cache)[s], 0, old(dram.mainMemory[..]))
    {
      ghost var ways, main := dcache.cache[s], dram.mainMemory[..];
      var i := 0;
      while i < conf.ways
        invariant 0 <= i <= conf.ways && |dcache.cache| == |old(dcache.cache)| && |dcache.cache[s]| == conf.ways
        invariant forall t :: 0 <= t < |dcache.cache| && t != s ==> dcache.cache[t] == old(dcache.cache)[t]
        invariant forall j :: i <= j < conf.ways ==> dcache.cache[s][j] == ways[j]
        invariant forall j :: 0 <= j < i ==> dcache.cache[s][j] == WrittenBack(ways[j])
        invariant FlushSet(conf, s, ways, i, dram.mainMemory[..]) == FlushSet(conf, s, ways, 0, main)
      {
        FlushOneWay(s, i);
        i := i + 1;
      }
    }

    /** Writes one line back, if it is dirty. */
    method FlushOneWay(s: nat, i: nat)
      requires s < |dcache.cache| && i < |dcache.cache[s]| == conf.ways && dram.w == conf.w
      requires dcache.cache[s][i].valid ==> |dcache.cache[s][i].data| == conf.w
      modifies dcache`cache, dram.mainMemory
      ensures var way := old(dcache.cache)[s][i];
              && dcache.cache == old(dcache.cache)[s := old(dcache.cache)[s][i := WrittenBack(way)]]
              && dram.mainMemory[..] == FlushWay(conf, s, way, old(dram.mainMemory[..]))
    {
      var way := dcache.cache[s][i];
      if way.valid && way.dirty {
        dram.StoreLine(LineOf(conf.sets, s, way.tag), way.data);
        dcache.cache := dcache.cache[s := dcache.cache[s][i := way.(dirty := false)]];
      } else {
        assert dcache.cache[s][i := way] == dcache.cache[s];
        assert dcache.cache[s := dcache.cache[s]] == dcache.cache;
      }
    }
  }

  // ---------------------------------------------------------------- facts the methods use

  lemma {:induction false} EmptyIsLive(c: DConf, m: MemSys)
    requires c.w > 0 && c.sets > 0 && |m.main| == c.words && CacheOk(c, m.d) && m.d.dramMshr == -1
    requires m.d.drainMshr == -1
    requires forall s, i :: 0 <= s < c.sets && 0 <= i < c.ways ==> !m.d.cache[s][i].valid && !m.d.cache[s][i].reserved
    requires forall i :: 0 <= i < c.mshrCount ==> m.d.mshrs[i] == NO_MSHR
    requires forall p :: 0 <= p < c.ports ==> !m.d.pipe[p].valid && !m.d.hitPend[p].valid
    requires forall k :: 0 <= k < |m.slots| ==> m.slots[k] == NO_SLOT
    ensures LiveInv(c, m) && !Busy(m) && forall ln: nat :: Flat(c, m, ln) == MainLine(m.main, c.w, ln)
  {
    forall ln: nat ensures Flat(c, m, ln) == MainLine(m.main, c.w, ln) {
      AbsOther(c, m.d.cache, m.d.mshrs, m.main, ln);
    }
  }

  lemma {:induction false} InvIsCacheOk(c: DConf, m: MemSys)
    requires SysInv(c, m)
    ensures CacheOk(c, m.d)
  {
    forall i | 0 <= i < |m.d.mshrs| && m.d.mshrs[i].valid ensures RegisterOk(c, m.d.mshrs[i]) {
      assert MshrOk(c, m.d.cache, m.d.mshrs[i]);
    }
  }

  lemma {:induction false} InvIsWays(c: DConf, m: MemSys)
    requires LiveInv(c, m)
    ensures c.w > 0 && |m.d.cache| == c.sets
    ensures forall t :: 0 <= t < |m.d.cache| ==> Wide(c, m.d.cache[t]) && |m.d.cache[t]| == c.ways
  {
    CacheIsWide(c, m.d.cache);
  }

  lemma {:induction false} TakenLive(c: DConf, m: MemSys, q: seq<Resp>)
    requires LiveInv(c, m)
    ensures LiveInv(c, m.(d := m.d.(respQ := q)))
  {
  }

  lemma {:induction false} AcceptsReset(c: DConf, m: MemSys)
    requires LiveInv(c, m)
    ensures LiveInv(c, m.(d := m.d.(cpuAccepts := 0)))
  {
  }

  lemma {:induction false} PickedWidth(c: DConf, m: MemSys)
    requires SysInv(c, m) && PickDramMshr(m.d.mshrs) >= 0
    ensures var r := m.d.mshrs[PickDramMshr(m.d.mshrs)]; WantsWb(r) ==> |r.wbData| == c.w
  {
    assert MshrOk(c, m.d.cache, m.d.mshrs[PickDramMshr(m.d.mshrs)]);
  }

  lemma {:induction false} ReplyWidth(c: DConf, m: MemSys, k: nat)
    requires SysInv(c, m) && k < |m.slots| && m.slots[k].valid && m.slots[k].client.FromD?
    ensures |m.slots[k].data| == c.w
  {
    assert SlotOk(c, m.d.mshrs, m.d.dramMshr, m.d.dramIsWb, m.slots[k], m.main);
  }

  lemma {:induction false} CycleIs(c: DConf, latency: nat, m: MemSys, read: ImageRead)
    requires LiveInv(c, m)
    ensures CycleReading(c, latency, m, read)
              == CacheTick(c, Arbitrate(c, latency, TakeReply(c, TickSlots(c, m, 0)), read))
  {
    hide CacheTick, Arbitrate, TakeReply, TickSlots;
  }

  // ---------------------------------------------------------------- the cache's tick is the model's

  lemma {:induction false} EmitsAre(c: DConf, m: MemSys, p: nat)
    requires LiveInv(c, m) && p <= c.ports
    ensures CacheOk(c, m.d) && EmitHits(c, m, p) == m.(d := EmitsFrom(c, m.d, p))
    decreases c.ports - p
  {
    hide DramOk, DataOk, ReservedOk, PipesOk;
    InvIsCacheOk(c, m);
    if p < c.ports {
      EmitsAre(c, Do(c, m, Emit(p)), p + 1);
    }
  }

  lemma {:induction false} PortsAre(c: DConf, m: MemSys, p: nat)
    requires LiveInv(c, m) && p <= c.ports
    ensures CacheOk(c, m.d) && ProcessPipes(c, m, p) == m.(d := PortsFrom(c, m.d, p))
    decreases c.ports - p
  {
    hide DramOk, DataOk, ReservedOk, PipesOk, ProcessPort;
    InvIsCacheOk(c, m);
    if p < c.ports {
      PortsAre(c, Do(c, m, Port(p)), p + 1);
    }
  }

  lemma {:induction false} FillsAre(c: DConf, m: MemSys, i: nat)
    requires LiveInv(c, m) && i <= c.mshrCount
    ensures CacheOk(c, m.d) && CompleteFills(c, m, i) == m.(d := FillsFrom(c, m.d, i))
    decreases c.mshrCount - i
  {
    hide DramOk, DataOk, ReservedOk, PipesOk, CompleteFill;
    InvIsCacheOk(c, m);
    if i < c.mshrCount {
      FillsAre(c, Do(c, m, Fill(i)), i + 1);
    }
  }

  lemma {:induction false} CacheTickIs(c: DConf, m: MemSys)
    requires LiveInv(c, m)
    ensures CacheOk(c, m.d) && CacheTick(c, m) == m.(d := TickedEnd(c, m.d))
  {
    hide DramOk, DataOk, ReservedOk, PipesOk, StepDrain, EmitHits, ProcessPipes, CompleteFills;
    EmitsAre(c, m, 0);
    var m1 := EmitHits(c, m, 0);
    PortsAre(c, m1, 0);
    var m2 := ProcessPipes(c, m1, 0);
    FillsAre(c, m2, 0);
    var m3 := CompleteFills(c, m2, 0);
    InvIsCacheOk(c, m3);
  }
}
