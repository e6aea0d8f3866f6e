/** The core over the cached memory is the core: whatever the cache's latencies, misses and write-backs, and whatever
  * order stores are acknowledged in. */
module CachedTheorems {
  import opened Words
  import opened Isa
  import opened Core
  import opened CoreInv
  import opened CoreRun
  import opened CoreTheorems
  import opened MemTypes
  import opened CachedModel
  import opened CachedStores
  import opened CachedLoads
  import M = CacheModel
  import V = CacheInv
  import S = CacheSteps
  import R = CacheRun
  import T = CacheTheorems
  import O = CacheOrder

  // ---------------------------------------------------------------- what every reachable state satisfies

  /** A store in the port is the oldest buffered one. */
  ghost predicate PortOk(c: Config, cc: M.DConf, l: Linked) {
    cc.w > 0 && |l.mem.d.pipe| == 1 &&
    (l.mem.d.pipe[0].valid && l.mem.d.pipe[0].req.write ==>
       && l.core.sb != [] && WordIndex(c.byteAddressed, l.core.sb[0].addr) >= 0
       && l.mem.d.pipe[0].req == StoreReq(c, cc.w, l.core.sb[0], l.took))
  }

  /** An unanswered store's line is that of its address. */
  ghost predicate EchoLines(c: Config, w: nat, echoes: seq<Echo>) {
    w > 0 && forall i :: 0 <= i < |echoes| ==> EchoLine(c, w, echoes[i])
  }

  ghost predicate EchoLine(c: Config, w: nat, e: Echo)
    requires w > 0
  {
    WordIndex(c.byteAddressed, e.entry.addr) >= 0 && e.line == WordLine(w, WordIndex(c.byteAddressed, e.entry.addr))
  }

  ghost predicate EchoesInv(c: Config, cc: M.DConf, l: Linked) {
    && AllOwed(l.mem.d, l.echoes, l.lines) && EchoesOk(l.echoes, l.lines, l.took) && EchoLines(c, cc.w, l.echoes)
    && EchoesAgree(c, l.core.main, l.echoes) && O.StoresBelow(l.mem.d, l.took)
  }

  ghost predicate CacheSide(c: Config, cc: M.DConf, l: Linked) {
    && R.SysInv(cc, l.mem) && cc.ports == 1 && cc.words == MEMORY_WORDS && MainIsFlat(cc, l.core.main, l.mem)
    && PortOk(c, cc, l) && EchoesInv(c, cc, l)
  }

  ghost predicate CoreSide(c: Config, a0: Arch, s: Core) { ProgOk(c) && StoresInRange(c, a0) && Tracks(c, a0, s) }

  ghost predicate LinkInv(c: Config, cc: M.DConf, a0: Arch, l: Linked) {
    CoreSide(c, a0, l.core) && CacheSide(c, cc, l) && AllFit(c, cc, l) && Recorded(l)
  }

  /** What the machine's invariant says here: ids differ, and buffered stores are inside memory. */
  lemma {:induction false} CoreFacts(c: Config, a0: Arch, s: Core)
    requires CoreSide(c, a0, s)
    ensures Inv(c, RunN(c, a0, s.commits), s) && |s.st| == |s.dy| && |s.main| == MEMORY_WORDS
    ensures forall j, k :: 0 <= j < k < |s.dy| ==> s.dy[j].id != s.dy[k].id
    ensures forall j :: 0 <= j < |s.dy| ==> s.dy[j].id < s.nextId
    ensures forall k :: 0 <= k < |s.sb| ==> 0 <= WordIndex(c.byteAddressed, s.sb[k].addr) < MEMORY_WORDS
  {
    assert Inv(c, RunN(c, a0, s.commits), s);
    hide AllSources, AllValues, AllLoads, FuOk, PathOk, CkOk, CurrentMap, RsOk, OverlayWord;
  }

  lemma {:induction false} CoreSteps(c: Config, a0: Arch, s: Core, e: Step)
    requires CoreSide(c, a0, s) && Enabled(c, s, e)
    ensures CoreSide(c, a0, Apply(c, s, e)) && Leads(c, s, Apply(c, s, e))
  {
    hide Apply, Enabled, Tracks, Leads;
    StepTracks(c, a0, s, e);
    LeadsNowhere(c, s);
    LeadsStep(c, s, s, e);
  }

  // ---------------------------------------------------------------- the machine's steps

  lemma {:induction false} OwnStepBuffer(c: Config, s: Core, e: Step)
    requires OwnStep(e) && Enabled(c, s, e)
    ensures |s.sb| <= |Apply(c, s, e).sb| && Apply(c, s, e).sb[..|s.sb|] == s.sb
  {
    hide Scrub, Without, KillTags, KillIds, Complete, CommitCkpts, WakeAll, WakeRs, NewDyn;
  }

  /** Nothing of the cache's changes while main memory is the same and the buffer only grows. */
  lemma {:induction false} SideKept(c: Config, cc: M.DConf, l: Linked, l': Linked)
    requires CacheSide(c, cc, l) && l'.mem == l.mem && l'.took == l.took && l'.echoes == l.echoes && l'.lines == l.lines
    requires l'.core.main == l.core.main && |l.core.sb| <= |l'.core.sb| && l'.core.sb[..|l.core.sb|] == l.core.sb
    ensures CacheSide(c, cc, l')
  {
    hide R.SysInv, EchoesInv, MainIsFlat;
    assert l.core.sb != [] ==> l'.core.sb[0] == l'.core.sb[..|l.core.sb|][0];
    hide StoreReq;
    SameEchoes(c, cc, l, l');
  }

  lemma {:induction false} SameEchoes(c: Config, cc: M.DConf, l: Linked, l': Linked)
    requires EchoesInv(c, cc, l) && l'.mem == l.mem && l'.took == l.took && l'.echoes == l.echoes && l'.lines == l.lines
    requires l'.core.main == l.core.main
    ensures EchoesInv(c, cc, l')
  {
    hide AllOwed, EchoesOk, EchoLines, EchoesAgree, O.StoresBelow;
  }

  lemma {:induction false} CoreStepKeeps(c: Config, cc: M.DConf, a0: Arch, l: Linked, x: Step)
    requires LinkInv(c, cc, a0, l) && OwnStep(x) && Enabled(c, l.core, x)
    ensures LinkInv(c, cc, a0, Moved(l, Apply(c, l.core, x))) && Leads(c, l.core, Apply(c, l.core, x))
  {
    hide Apply, Enabled, CacheSide, AllFit, Recorded, Tracks;
    CoreFacts(c, a0, l.core);
    CoreSteps(c, a0, l.core, x);
    OwnStepBuffer(c, l.core, x);
    StepWere(c, RunN(c, a0, l.core.commits), l.core, x);
    StepFits(c, cc, l, Apply(c, l.core, x));
    SideKept(c, cc, l, Moved(l, Apply(c, l.core, x)));
  }

  lemma {:induction false} OfferKeeps(c: Config, cc: M.DConf, a0: Arch, l: Linked, i: nat)
    requires LinkInv(c, cc, a0, l) && R.SysInv(cc, l.mem) && LinkEnabled(c, cc, l, Offer(i))
    ensures LinkInv(c, cc, a0, Moved(l, Offered(c, l.core, i))) && Leads(c, l.core, Offered(c, l.core, i))
  {
    hide CacheSide, AllFit, Recorded, Tracks, Leads, LoadExtend;
    CoreFacts(c, a0, l.core);
    OfferSteps(c, a0, l.core, i);
    OfferWere(c, l.core, i);
    StepFits(c, cc, l, Offered(c, l.core, i));
    SideKept(c, cc, l, Moved(l, Offered(c, l.core, i)));
  }

  lemma {:induction false} OfferSteps(c: Config, a0: Arch, s: Core, i: nat)
    requires CoreSide(c, a0, s) && s.phase == Writeback && i < |s.st| == |s.dy| && Active(s.dy[i])
    ensures CoreSide(c, a0, Offered(c, s, i)) && Leads(c, s, Offered(c, s, i))
    ensures Offered(c, s, i).main == s.main && Offered(c, s, i).sb == s.sb
  {
    hide CoreSide, Leads, LoadExtend;
    if s.dy[i].load.LoadWaiting? {
      CoreSteps(c, a0, s, DoFillLoad(i));
      var t := FillLoad(c, s, i);
      CoreSteps(c, a0, t, DoBroadcastLoad(i));
      LeadsOn(c, s, t, BroadcastLoad(c, t, i));
    } else {
      CoreSteps(c, a0, s, DoBroadcastLoad(i));
    }
  }

  lemma {:induction false} DispatchKeeps(c: Config, cc: M.DConf, a0: Arch, l: Linked, i: nat)
    requires LinkInv(c, cc, a0, l) && CanDispatchLoad(l.core, i)
    ensures LinkInv(c, cc, a0, Started(c, l, i)) && Leads(c, l.core, Started(c, l, i).core)
  {
    hide CacheSide, CoreSide, AllFit, Recorded, Leads, EchoesAgree, Inv, Started, StoresKnown, DispatchLoad;
    CoreFacts(c, a0, l.core);
    CoreSteps(c, a0, l.core, DoDispatchLoad(i));
    Agreeing(c, cc, l);
    DispatchFits(c, cc, l, i);
    DispatchRecorded(c, l, i);
    StartedSide(c, cc, l, i);
  }

  lemma {:induction false} Agreeing(c: Config, cc: M.DConf, l: Linked)
    requires CacheSide(c, cc, l)
    ensures EchoesAgree(c, l.core.main, l.echoes)
  {
  }

  lemma {:induction false} StartedSide(c: Config, cc: M.DConf, l: Linked, i: nat)
    requires CacheSide(c, cc, l) && CanDispatchLoad(l.core, i)
    ensures CacheSide(c, cc, Started(c, l, i)) && Started(c, l, i).core == DispatchLoad(c, l.core, i)
  {
    hide CacheSide, Forwarded, Forward, QueueStores, Aim, LoadExtend, AccessMask;
    assert l.core.sb[..|l.core.sb|] == l.core.sb;
    SideKept(c, cc, l, Started(c, l, i));
  }

  // ---------------------------------------------------------------- steps of the cache that change no word

  /** A step of the cache that takes no request and gives no reply. */
  predicate Internal(x: R.MemStep) { !x.Accept? && !x.Take? && !x.Port? }

  lemma {:induction false} QuietMemory(cc: M.DConf, main: seq<Lanes>, m: R.MemSys, x: R.MemStep)
    requires R.SysInv(cc, m) && MainIsFlat(cc, main, m) && R.MemEnabled(cc, m, x) && R.StepInMemory(cc, x)
    requires !(x.Port? && R.Takes(cc, m, x.p))
    ensures R.SysInv(cc, R.MemApply(cc, m, x)) && MainIsFlat(cc, main, R.MemApply(cc, m, x))
  {
    R.FlatMemory(cc, m, x);
    hide V.DataOk, V.DramOk, R.MemApply, R.FlatSame, V.AbsLine;
    SameFlat(cc, main, m, R.MemApply(cc, m, x));
  }

  lemma {:induction false} SamePort(cc: M.DConf, m: R.MemSys, x: R.MemStep)
    requires R.SysInv(cc, m) && R.MemEnabled(cc, m, x) && (Internal(x) || x.Take?)
    ensures R.MemApply(cc, m, x).d.pipe == m.d.pipe
  {
    hide V.DataOk, V.DramOk;
  }

  lemma {:induction false} InternalSide(c: Config, cc: M.DConf, l: Linked, x: R.MemStep)
    requires CacheSide(c, cc, l) && R.MemEnabled(cc, l.mem, x) && Internal(x)
    ensures CacheSide(c, cc, l.(mem := R.MemApply(cc, l.mem, x)))
  {
    hide R.SysInv, R.MemApply, R.MemEnabled, AllOwed, EchoesOk, EchoLines, EchoesAgree, MainIsFlat, O.StoresBelow;
    QuietMemory(cc, l.core.main, l.mem, x);
    SamePort(cc, l.mem, x);
    HitsKnown(l);
    InsideOwes(cc, l.mem, x, l.echoes, l.lines, l.took);
    O.KeepsOwners(cc, l.mem, x, l.took, {});
  }

  lemma {:induction false} HitsKnown(l: Linked)
    requires O.StoresBelow(l.mem.d, l.took)
    ensures O.HitsAreLoads(l.mem.d)
  {
  }

  lemma {:induction false} InternalKeeps(c: Config, cc: M.DConf, a0: Arch, l: Linked, x: R.MemStep)
    requires LinkInv(c, cc, a0, l) && R.SysInv(cc, l.mem) && R.MemEnabled(cc, l.mem, x) && Internal(x)
    ensures LinkInv(c, cc, a0, l.(mem := R.MemApply(cc, l.mem, x)))
  {
    InternalSide(c, cc, l, x);
    FlatHere(c, cc, l);
    hide R.SysInv, R.MemApply, R.MemEnabled, CacheSide, CoreSide, AllFit, O.LoadsAmong;
    MemFits(c, cc, l, x);
    O.KeepsOwners(cc, l.mem, x, l.took, l.asked.Keys);
  }

  lemma {:induction false} FlatHere(c: Config, cc: M.DConf, l: Linked)
    requires CacheSide(c, cc, l)
    ensures R.SysInv(cc, l.mem) && MainIsFlat(cc, l.core.main, l.mem) && cc.w > 0
  {
  }

  // ---------------------------------------------------------------- requests

  lemma {:induction false} AcceptOwners(cc: M.DConf, m: R.MemSys, r: Req, n: int, cookies: set<nat>)
    requires R.SysInv(cc, m) && R.MemEnabled(cc, m, R.Accept(0, r))
    ensures O.StoresBelow(m.d, n) ==> O.StoresBelow(R.MemApply(cc, m, R.Accept(0, r)).d, n)
    ensures O.LoadsAmong(m.d, cookies) && r.write ==> O.LoadsAmong(R.MemApply(cc, m, R.Accept(0, r)).d, cookies)
    ensures O.LoadsAmong(m.d, cookies) ==> O.LoadsAmong(R.MemApply(cc, m, R.Accept(0, r)).d, cookies + {r.cookie})
  {
    hide V.DataOk, V.DramOk;
  }

  lemma {:induction false} AcceptEchoes(c: Config, cc: M.DConf, l: Linked, r: Req)
    requires CacheSide(c, cc, l) && R.MemEnabled(cc, l.mem, R.Accept(0, r)) && R.StepInMemory(cc, R.Accept(0, r))
    ensures var m' := R.MemApply(cc, l.mem, R.Accept(0, r));
            R.SysInv(cc, m') && MainIsFlat(cc, l.core.main, m') && EchoesInv(c, cc, l.(mem := m'))
  {
    hide R.SysInv, R.MemApply, R.MemEnabled, AllOwed, EchoesOk, EchoLines, EchoesAgree, MainIsFlat, O.StoresBelow;
    var x := R.Accept(0, r);
    QuietMemory(cc, l.core.main, l.mem, x);
    HitsKnown(l);
    InsideOwes(cc, l.mem, x, l.echoes, l.lines, l.took);
    AcceptOwners(cc, l.mem, r, l.took, {});
  }

  lemma {:induction false} AcceptedPort(cc: M.DConf, m: R.MemSys, r: Req)
    requires R.SysInv(cc, m) && cc.ports == 1 && R.MemEnabled(cc, m, R.Accept(0, r))
    ensures var m' := R.MemApply(cc, m, R.Accept(0, r)); |m'.d.pipe| == 1 && m'.d.pipe[0].valid && m'.d.pipe[0].req == r
  {
    hide V.DataOk, V.DramOk;
  }

  lemma {:induction false} SendStoreKeeps(c: Config, cc: M.DConf, a0: Arch, l: Linked)
    requires LinkInv(c, cc, a0, l) && R.SysInv(cc, l.mem) && LinkEnabled(c, cc, l, SendStore)
    ensures LinkInv(c, cc, a0, LinkApply(c, cc, l, SendStore))
  {
    CoreFacts(c, a0, l.core);
    FlatHere(c, cc, l);
    hide Inv, R.SysInv, R.MemApply, R.MemEnabled, CoreSide, AllFit, O.LoadsAmong, EchoesInv, MainIsFlat, WordIndex;
    var r := StoreReq(c, cc.w, l.core.sb[0], l.took);
    AcceptEchoes(c, cc, l, r);
    AcceptedPort(cc, l.mem, r);
    MemFits(c, cc, l, R.Accept(0, r));
    AcceptOwners(cc, l.mem, r, l.took, l.asked.Keys);
  }

  lemma {:induction false} SendLoadKeeps(c: Config, cc: M.DConf, a0: Arch, l: Linked, i: nat, slot: nat)
    requires LinkInv(c, cc, a0, l) && R.SysInv(cc, l.mem) && LinkEnabled(c, cc, l, SendLoad(i, slot))
    ensures LinkInv(c, cc, a0, LinkApply(c, cc, l, SendLoad(i, slot)))
  {
    hide Inv, CoreSide, AllFit, R.SysInv, CacheSide, Recorded, R.MemApply;
    CoreFacts(c, a0, l.core);
    FlatHere(c, cc, l);
    Sent(c, cc, l, i, slot);
    SentSide(c, cc, l, i, slot);
    SentRecorded(c, cc, l, i, slot);
  }

  lemma {:induction false} SentSide(c: Config, cc: M.DConf, l: Linked, i: nat, slot: nat)
    requires CacheSide(c, cc, l) && R.SysInv(cc, l.mem) && LinkEnabled(c, cc, l, SendLoad(i, slot))
    ensures CacheSide(c, cc, LinkApply(c, cc, l, SendLoad(i, slot)))
  {
    hide R.SysInv, R.MemApply, R.MemEnabled, EchoesInv, MainIsFlat, WordIndex;
    var r := LoadReq(c, cc.w, l.parts[l.core.dy[i].id], l.core.dy[i].id, slot);
    AcceptEchoes(c, cc, l, r);
    AcceptedPort(cc, l.mem, r);
    SameEchoes(c, cc, l.(mem := R.MemApply(cc, l.mem, R.Accept(0, r))), LinkApply(c, cc, l, SendLoad(i, slot)));
  }

  lemma {:induction false} SentRecorded(c: Config, cc: M.DConf, l: Linked, i: nat, slot: nat)
    requires Recorded(l) && R.SysInv(cc, l.mem) && LinkEnabled(c, cc, l, SendLoad(i, slot))
    ensures Recorded(LinkApply(c, cc, l, SendLoad(i, slot)))
  {
    hide R.SysInv, R.MemApply, R.MemEnabled, O.LoadsAmong, WordIndex;
    var id := l.core.dy[i].id;
    var r := LoadReq(c, cc.w, l.parts[id], id, slot);
    AcceptOwners(cc, l.mem, r, l.took, l.asked.Keys);
    assert l.asked[id := r].Keys == l.asked.Keys + {id};
  }

  // ---------------------------------------------------------------- the port takes a request

  lemma {:induction false} PortAfter(cc: M.DConf, m: R.MemSys)
    requires R.SysInv(cc, m) && cc.ports == 1
    ensures var m' := R.MemApply(cc, m, R.Port(0));
            && |m'.d.pipe| == 1 && (if R.Takes(cc, m, 0) then !m'.d.pipe[0].valid else m'.d.pipe == m.d.pipe)
                 && m'.main == m.main
  {
    hide V.DataOk, V.DramOk;
  }

  lemma {:induction false} LoadTaken(cc: M.DConf, main: seq<Lanes>, m: R.MemSys)
    requires R.SysInv(cc, m) && MainIsFlat(cc, main, m) && cc.ports == 1 && R.Takes(cc, m, 0) && !m.d.pipe[0].req.write
    ensures R.SysInv(cc, R.MemApply(cc, m, R.Port(0))) && MainIsFlat(cc, main, R.MemApply(cc, m, R.Port(0)))
  {
    R.FlatMemory(cc, m, R.Port(0));
    hide V.DataOk, V.DramOk, R.MemApply, V.AbsLine, WordOff;
    var m' := R.MemApply(cc, m, R.Port(0));
    PortAfter(cc, m);
    forall k: nat ensures MainRead(main, k) == WordAt(cc, m', k) {
      var ln := WordLine(cc.w, k);
      var l, l' := R.Flat(cc, m, ln), R.Flat(cc, m', ln);
      assert l' == l;
      assert MainRead(main, k) == WordAt(cc, m, k);
    }
  }

  /** The port takes a load, or holds what it has. */
  lemma {:induction false} OtherTakeSide(c: Config, cc: M.DConf, l: Linked)
    requires CacheSide(c, cc, l) && !(R.Takes(cc, l.mem, 0) && l.mem.d.pipe[0].req.write)
    ensures CacheSide(c, cc, l.(mem := R.MemApply(cc, l.mem, R.Port(0))))
  {
    var m, takes := l.mem, R.Takes(cc, l.mem, 0);
    hide R.SysInv, R.MemApply, AllOwed, EchoesOk, EchoLines, EchoesAgree, MainIsFlat, O.StoresBelow, R.Takes;
    if takes { LoadTaken(cc, l.core.main, m); } else { QuietMemory(cc, l.core.main, m, R.Port(0)); }
    PortAfter(cc, m);
    LoadTakenOwes(cc, m, l.echoes, l.lines);
    O.PortBelow(cc, m, 0, l.took);
  }

  lemma {:induction false} OtherTakeKeeps(c: Config, cc: M.DConf, a0: Arch, l: Linked)
    requires LinkInv(c, cc, a0, l) && R.SysInv(cc, l.mem) && cc.ports == 1
    requires !(R.Takes(cc, l.mem, 0) && l.mem.d.pipe[0].req.write)
    ensures LinkInv(c, cc, a0, l.(mem := R.MemApply(cc, l.mem, R.Port(0))))
  {
    OtherTakeSide(c, cc, l);
    FlatHere(c, cc, l);
    hide R.SysInv, R.MemApply, CacheSide, CoreSide, AllFit, O.LoadsAmong, R.Takes;
    MemFits(c, cc, l, R.Port(0));
    O.PortAmong(cc, l.mem, 0, l.asked.Keys);
  }

  lemma {:induction false} MoreBelow(d: M.DState, n: int)
    requires O.StoresBelow(d, n)
    ensures O.StoresBelow(d, n + 1)
  {
  }

  /** The port takes a store: one masked word changes, in the cache and in the machine alike. */
  lemma {:induction false} TakeSide(c: Config, cc: M.DConf, a0: Arch, l: Linked)
    requires CoreSide(c, a0, l.core) && CacheSide(c, cc, l) && R.Takes(cc, l.mem, 0) && l.mem.d.pipe[0].req.write
    ensures l.core.sb != []
    ensures CacheSide(c, cc, TakenStore(c, l.(mem := R.MemApply(cc, l.mem, R.Port(0))), l.mem.d.pipe[0].req.line))
  {
    hide Inv, CoreSide, R.SysInv, R.MemApply, AllOwed, EchoesOk, EchoesAgree, MainIsFlat, O.StoresBelow, S.Requested,
         WordIndex, R.Takes;
    CoreFacts(c, a0, l.core);
    Buffered(c, cc, l);
    var m, e, main := l.mem, l.core.sb[0], l.core.main;
    var m', line, i := R.MemApply(cc, m, R.Port(0)), m.d.pipe[0].req.line, WordIndex(c.byteAddressed, e.addr);
    R.FlatMemory(cc, m, R.Port(0));
    PortAfter(cc, m);
    TakenIsDrained(c, cc, main, m, m', e, l.took);
    EchoTaken(c, main, l.echoes, e, l.took, line);
    TakenOwes(cc, m, l.echoes, l.lines, l.took, e);
    MoreBelow(m.d, l.took);
    O.PortBelow(cc, m, 0, l.took + 1);
  }

  lemma {:induction false} Buffered(c: Config, cc: M.DConf, l: Linked)
    requires CacheSide(c, cc, l) && R.Takes(cc, l.mem, 0) && l.mem.d.pipe[0].req.write
    ensures l.core.sb != [] && WordIndex(c.byteAddressed, l.core.sb[0].addr) >= 0
    ensures l.mem.d.pipe[0].req == StoreReq(c, cc.w, l.core.sb[0], l.took)
  {
    hide R.SysInv;
  }

  lemma {:induction false} TakeKeeps(c: Config, cc: M.DConf, a0: Arch, l: Linked)
    requires LinkInv(c, cc, a0, l) && R.SysInv(cc, l.mem) && cc.ports == 1 && l.core.phase == Writeback
    requires R.Takes(cc, l.mem, 0) && l.mem.d.pipe[0].req.write
    ensures l.core.sb != []
    ensures var l' := TakenStore(c, l.(mem := R.MemApply(cc, l.mem, R.Port(0))), l.mem.d.pipe[0].req.line);
            LinkInv(c, cc, a0, l') && Leads(c, l.core, l'.core)
  {
    TakeSide(c, cc, a0, l);
    CoreSteps(c, a0, l.core, DoDrain);
    TakeLoads(c, cc, a0, l);
    hide R.SysInv, R.MemApply, CacheSide, CoreSide, AllFit, Recorded, R.Takes, Leads;
  }

  lemma {:induction false} TakeLoads(c: Config, cc: M.DConf, a0: Arch, l: Linked)
    requires LinkInv(c, cc, a0, l) && R.SysInv(cc, l.mem) && cc.ports == 1 && l.core.sb != []
    ensures var l' := TakenStore(c, l.(mem := R.MemApply(cc, l.mem, R.Port(0))), l.mem.d.pipe[0].req.line);
            AllFit(c, cc, l') && Recorded(l')
  {
    var line := l.mem.d.pipe[0].req.line;
    FlatHere(c, cc, l);
    CoreFacts(c, a0, l.core);
    hide R.SysInv, R.MemApply, CacheSide, CoreSide, AllFit, Recorded, Inv, TakenStore;
    MemFits(c, cc, l, R.Port(0));
    PortRecorded(cc, l);
    DrainFits(c, cc, RunN(c, a0, l.core.commits), l.(mem := R.MemApply(cc, l.mem, R.Port(0))));
    TakenFits(c, cc, l.(mem := R.MemApply(cc, l.mem, R.Port(0))), line);
  }

  lemma {:induction false} PortRecorded(cc: M.DConf, l: Linked)
    requires R.SysInv(cc, l.mem) && cc.ports == 1 && Recorded(l)
    ensures Recorded(l.(mem := R.MemApply(cc, l.mem, R.Port(0))))
  {
    hide R.SysInv, R.MemApply, O.LoadsAmong;
    O.PortAmong(cc, l.mem, 0, l.asked.Keys);
  }

  lemma {:induction false} TakenFits(c: Config, cc: M.DConf, l: Linked, line: nat)
    requires l.core.sb != [] && AllFit(c, cc, l.(core := Drain(c, l.core))) && Recorded(l)
    ensures AllFit(c, cc, TakenStore(c, l, line)) && Recorded(TakenStore(c, l, line))
  {
    hide AimOk, PartOk, AskOk, O.LoadsAmong;
    var l1, l' := l.(core := Drain(c, l.core)), TakenStore(c, l, line);
    forall i | 0 <= i < |l'.core.dy| && Active(l'.core.dy[i])
      ensures LoadFits(c, cc, l', l'.core.st[i].instr, l'.core.dy[i])
    {
      assert LoadFits(c, cc, l1, l1.core.st[i].instr, l1.core.dy[i]);
    }
  }

  // ---------------------------------------------------------------- replies

  lemma {:induction false} TakeReplySide(c: Config, cc: M.DConf, l: Linked)
    requires CacheSide(c, cc, l) && R.MemEnabled(cc, l.mem, R.Take)
    ensures var m' := R.MemApply(cc, l.mem, R.Take);
            && R.SysInv(cc, m') && MainIsFlat(cc, l.core.main, m') && PortOk(c, cc, l.(mem := m'))
            && O.StoresBelow(m'.d, l.took)
  {
    hide R.SysInv, R.MemApply, R.MemEnabled, AllOwed, EchoesOk, EchoLines, EchoesAgree, MainIsFlat, O.StoresBelow;
    QuietMemory(cc, l.core.main, l.mem, R.Take);
    SamePort(cc, l.mem, R.Take);
    O.KeepsOwners(cc, l.mem, R.Take, l.took, {});
  }

  lemma {:induction false} LineFirst(c: Config, w: nat, echoes: seq<Echo>, j: nat)
    requires EchoLines(c, w, echoes) && j < |echoes| && forall i :: 0 <= i < j ==> echoes[i].line != echoes[j].line
    ensures FirstToWord(c, echoes, j)
  {
    hide WordIndex, WordLine;
    assert EchoLine(c, w, echoes[j]);
    forall i | 0 <= i < j
      ensures WordIndex(c.byteAddressed, echoes[i].entry.addr) != WordIndex(c.byteAddressed, echoes[j].entry.addr)
    {
      assert EchoLine(c, w, echoes[i]);
    }
  }

  lemma {:induction false} LinesWithout(c: Config, w: nat, echoes: seq<Echo>, j: nat)
    requires EchoLines(c, w, echoes) && j < |echoes|
    ensures EchoLines(c, w, echoes[..j] + echoes[j + 1..])
  {
    hide EchoLine;
  }

  /** A store's acknowledgement takes out the oldest unanswered store to its line. */
  lemma {:induction false} AckEchoes(c: Config, cc: M.DConf, l: Linked)
    requires CacheSide(c, cc, l) && R.MemEnabled(cc, l.mem, R.Take) && l.mem.d.respQ[0].isWrite
    ensures EchoesInv(c, cc, Answered(c, l.(mem := R.MemApply(cc, l.mem, R.Take)), l.mem.d.respQ[0]))
  {
    TakeReplySide(c, cc, l);
    var id, echoes := l.mem.d.respQ[0].id, l.echoes;
    hide R.SysInv, R.MemApply, R.MemEnabled, AllOwed, EchoLines, EchoesAgree, MainIsFlat, O.StoresBelow, PortOk;
    if j :| 0 <= j < |echoes| && echoes[j].id == id {
      RemovedAt(echoes, id, j);
      AnsweredIsOldest(cc, l.mem, echoes, l.lines, l.took, j);
      AnswerOwes(cc, l.mem, echoes, l.lines, l.took, j);
      EchoesOkWithout(echoes, l.lines, l.took, j);
      LineFirst(c, cc.w, echoes, j);
      LinesWithout(c, cc.w, echoes, j);
      EchoGone(c, l.core.main, echoes, j);
    } else {
      RemovedNone(echoes, id);
      OtherAnswerOwes(cc, l.mem, echoes, l.lines, l.took);
    }
    hide EchoesOk;
  }

  lemma {:induction false} LoadAnswerEchoes(c: Config, cc: M.DConf, l: Linked)
    requires CacheSide(c, cc, l) && R.MemEnabled(cc, l.mem, R.Take) && !l.mem.d.respQ[0].isWrite
    ensures EchoesInv(c, cc, Answered(c, l.(mem := R.MemApply(cc, l.mem, R.Take)), l.mem.d.respQ[0]))
  {
    TakeReplySide(c, cc, l);
    hide R.SysInv, R.MemApply, R.MemEnabled, AllOwed, EchoesOk, EchoLines, EchoesAgree, MainIsFlat, O.StoresBelow,
         PortOk;
    OtherAnswerOwes(cc, l.mem, l.echoes, l.lines, l.took);
  }

  lemma {:induction false} AnswerSide(c: Config, cc: M.DConf, l: Linked)
    requires CacheSide(c, cc, l) && R.MemEnabled(cc, l.mem, R.Take)
    ensures CacheSide(c, cc, Answered(c, l.(mem := R.MemApply(cc, l.mem, R.Take)), l.mem.d.respQ[0]))
  {
    TakeReplySide(c, cc, l);
    if l.mem.d.respQ[0].isWrite { AckEchoes(c, cc, l); } else { LoadAnswerEchoes(c, cc, l); }
    hide R.SysInv, R.MemApply, R.MemEnabled, EchoesInv, MainIsFlat;
  }

  lemma {:induction false} AnswerKeeps(c: Config, cc: M.DConf, a0: Arch, l: Linked)
    requires LinkInv(c, cc, a0, l) && R.SysInv(cc, l.mem) && R.MemEnabled(cc, l.mem, R.Take)
    ensures var l' := Answered(c, l.(mem := R.MemApply(cc, l.mem, R.Take)), l.mem.d.respQ[0]);
            LinkInv(c, cc, a0, l') && l'.core == l.core
  {
    AnswerSide(c, cc, l);
    FlatHere(c, cc, l);
    Queued(cc, l.mem);
    hide R.SysInv, R.MemApply, R.MemEnabled, CacheSide, CoreSide, O.LoadsAmong, LoadFits, Extended, LoadExtend;
    MemFits(c, cc, l, R.Take);
    O.KeepsOwners(cc, l.mem, R.Take, l.took, l.asked.Keys);
    var r := l.mem.d.respQ[0];
    if !r.isWrite && r.cookie in l.parts && r.cookie in l.asked {
      forall i | 0 <= i < |l.core.dy| && Active(l.core.dy[i]) && l.core.dy[i].id == r.cookie
        ensures r.cookie in l.aim && Extended(c, l.parts[r.cookie], r.data)
             == LoadExtend(c.byteAddressed, l.aim[r.cookie], l.core.st[i].instr.size, l.core.st[i].instr.unsignedLoad,
                 l.core.dy[i].addr)
      {
        ReplySuits(c, cc, l, l.core.st[i].instr, l.core.dy[i]);
      }
    }
    hide AllFit;
    AnsweredFits(c, cc, l.(mem := R.MemApply(cc, l.mem, R.Take)), r);
  }

  // ---------------------------------------------------------------- every step, every run

  lemma {:induction false} MachineStepKeeps(c: Config, cc: M.DConf, a0: Arch, l: Linked, e: LinkStep)
    requires LinkInv(c, cc, a0, l) && R.SysInv(cc, l.mem) && LinkEnabled(c, cc, l, e)
    requires (e.CoreStep? || e.Dispatch? || e.Offer?)
    ensures LinkInv(c, cc, a0, LinkApply(c, cc, l, e)) && Leads(c, l.core, LinkApply(c, cc, l, e).core)
  {
    hide LinkInv, R.SysInv, R.MemApply, R.MemEnabled, Leads, Started, Offered, Apply, Enabled, R.Takes;
    match e
    case CoreStep(x) => CoreStepKeeps(c, cc, a0, l, x);
    case Dispatch(i) => DispatchKeeps(c, cc, a0, l, i);
    case Offer(i) => OfferKeeps(c, cc, a0, l, i);
  }

  /** Every step keeps the invariant, and is nothing to the machine or a run of its own steps. */
  lemma {:induction false} LinkStepKeeps(c: Config, cc: M.DConf, a0: Arch, l: Linked, e: LinkStep)
    requires LinkInv(c, cc, a0, l) && R.SysInv(cc, l.mem) && LinkEnabled(c, cc, l, e)
    ensures LinkInv(c, cc, a0, LinkApply(c, cc, l, e)) && Leads(c, l.core, LinkApply(c, cc, l, e).core)
  {
    LeadsNowhere(c, l.core);
    hide LinkInv, R.SysInv, R.MemApply, R.MemEnabled, Leads, Started, Offered, Apply, Enabled, R.Takes, TakenStore;
    match e
    case SendStore => SendStoreKeeps(c, cc, a0, l);
    case SendLoad(i, slot) => SendLoadKeeps(c, cc, a0, l, i, slot);
    case Inside(x) => InternalKeeps(c, cc, a0, l, x);
    case TakeRequest => TakeRequestKeeps(c, cc, a0, l);
    case Answer =>
      AnswerKeeps(c, cc, a0, l);
    case _ => MachineStepKeeps(c, cc, a0, l, e);
  }

  lemma {:induction false} TakeRequestKeeps(c: Config, cc: M.DConf, a0: Arch, l: Linked)
    requires LinkInv(c, cc, a0, l) && R.SysInv(cc, l.mem) && LinkEnabled(c, cc, l, TakeRequest)
    ensures LinkInv(c, cc, a0, LinkApply(c, cc, l, TakeRequest))
    ensures Leads(c, l.core, LinkApply(c, cc, l, TakeRequest).core)
  {
    OnePort(c, cc, l);
    LeadsNowhere(c, l.core);
    var takes := R.Takes(cc, l.mem, 0) && l.mem.d.pipe[0].req.write;
    hide LinkInv, R.MemApply, Leads, R.Takes, R.SysInv, TakenStore;
    if takes {
      TakeKeeps(c, cc, a0, l);
    } else {
      OtherTakeKeeps(c, cc, a0, l);
    }
  }

  lemma {:induction false} OnePort(c: Config, cc: M.DConf, l: Linked)
    requires CacheSide(c, cc, l)
    ensures cc.ports == 1
  {
  }

  /** Does the schedule `run` lead from `l` to `t`? */
  ghost predicate LinkReaches(c: Config, cc: M.DConf, a0: Arch, l: Linked, run: seq<LinkStep>, t: Linked)
    requires LinkInv(c, cc, a0, l)
    decreases |run|
  {
    if run == [] then l == t
    else
      FlatHere(c, cc, l);
      LinkEnabled(c, cc, l, run[0])
      && (LinkStepKeeps(c, cc, a0, l, run[0]); LinkReaches(c, cc, a0, LinkApply(c, cc, l, run[0]), run[1..], t))
  }

  /** Over the cache the machine takes only steps of its own: every state it is in, it is in over a plain memory. */
  lemma {:induction false} LinkedIsCore(c: Config, cc: M.DConf, a0: Arch, l: Linked, run: seq<LinkStep>, t: Linked)
    requires LinkInv(c, cc, a0, l) && LinkReaches(c, cc, a0, l, run, t)
    ensures LinkInv(c, cc, a0, t) && Leads(c, l.core, t.core)
    decreases |run|
  {
    FlatHere(c, cc, l);
    hide LinkInv, Leads, LinkApply, LinkEnabled, R.SysInv;
    if run == [] {
      LeadsNowhere(c, l.core);
    } else {
      LinkStepKeeps(c, cc, a0, l, run[0]);
      var n := LinkApply(c, cc, l, run[0]);
      LinkedIsCore(c, cc, a0, n, run[1..], t);
      LeadsOn(c, l.core, n.core, t.core);
    }
  }

  // ---------------------------------------------------------------- from reset

  /** An empty cache over the memory image. */
  ghost predicate EmptyCache(cc: M.DConf, m: R.MemSys, image: seq<Lanes>) {
    && R.SysInv(cc, m) && cc.ports == 1 && cc.words == MEMORY_WORDS && m.main == image
    && (forall p :: 0 <= p < |m.d.pipe| ==> !m.d.pipe[p].valid) && (forall p :: 0 <= p < |m.d.hitPend| ==>
         !m.d.hitPend[p].valid)
    && (forall i :: 0 <= i < |m.d.mshrs| ==> !m.d.mshrs[i].valid) && m.d.respQ == []
    && (forall s, i :: 0 <= s < |m.d.cache| && 0 <= i < |m.d.cache[s]| ==> !m.d.cache[s][i].valid)
  }

  function LinkInit(c: Config, m: R.MemSys, image: seq<Lanes>, pc: Pc): Linked {
    Linked(Init(c, image, pc), m, 0, [], map[], map[], map[], map[], map[])
  }

  lemma {:induction false} EmptyIsFlat(cc: M.DConf, m: R.MemSys, image: seq<Lanes>)
    requires EmptyCache(cc, m, image)
    ensures MainIsFlat(cc, image, m)
  {
    forall k: nat ensures MainRead(image, k) == WordAt(cc, m, k) {
      var ln := WordLine(cc.w, k);
      assert R.Flat(cc, m, ln) == MainLine(m.main, cc.w, ln);
    }
  }

  lemma {:induction false} LinkInitInv(c: Config, cc: M.DConf, m: R.MemSys, image: seq<Lanes>, pc: Pc)
    requires Domain(c, image, pc) && EmptyCache(cc, m, image)
    ensures LinkInv(c, cc, Reset(c, image, pc), LinkInit(c, m, image, pc))
  {
    InitTracks(c, image, pc);
    EmptyIsFlat(cc, m, image);
    NothingOwed(c, cc, m, image, pc);
    hide R.SysInv, MainIsFlat, Tracks, EchoesInv;
  }

  lemma {:induction false} NothingOwed(c: Config, cc: M.DConf, m: R.MemSys, image: seq<Lanes>, pc: Pc)
    requires EmptyCache(cc, m, image)
    ensures EchoesInv(c, cc, LinkInit(c, m, image, pc)) && O.LoadsAmong(m.d, {}) && cc.w > 0
  {
    forall ln: nat ensures OwedOn(m.d, [], map[], ln) {
      O.NoRegister(m.d.mshrs, ln);
    }
    forall w: int, want: Mask, b: nat | b < 4 ensures EchoAgrees(c, image, [], w, want, b) {
    }
  }

  // ---------------------------------------------------------------- what the core delivers over the cache

  /** A reachable state of core and cache. */
  ghost predicate LinkReachable(c: Config, cc: M.DConf, m: R.MemSys, image: seq<Lanes>, pc: Pc, run: seq<LinkStep>,
                                t: Linked) {
    && Domain(c, image, pc) && EmptyCache(cc, m, image)
    && (LinkInitInv(c, cc, m, image, pc); LinkReaches(c, cc, Reset(c, image, pc), LinkInit(c, m, image, pc), run, t))
  }

  lemma {:induction false} ReachableLink(c: Config, cc: M.DConf, m: R.MemSys, image: seq<Lanes>, pc: Pc,
                                         run: seq<LinkStep>, t: Linked)
    requires LinkReachable(c, cc, m, image, pc, run, t)
    ensures LinkInv(c, cc, Reset(c, image, pc), t) && Leads(c, Init(c, image, pc), t.core)
  {
    hide LinkInv, Domain, EmptyCache, Leads;
    LinkInitInv(c, cc, m, image, pc);
    LinkedIsCore(c, cc, Reset(c, image, pc), LinkInit(c, m, image, pc), run, t);
  }

  /** Over the cache, a load offers on the bus the value of a flat memory with all older stores applied in order. */
  lemma {:induction false} LoadOverCache(c: Config, cc: M.DConf, m: R.MemSys, image: seq<Lanes>, pc: Pc,
                                         run: seq<LinkStep>, t: Linked, i: nat)
    requires LinkReachable(c, cc, m, image, pc, run, t)
    requires i < |t.core.st| == |t.core.dy| && Active(t.core.dy[i]) && t.core.dy[i].id in t.ready
    ensures var d, ins := t.core.dy[i], t.core.st[i].instr;
            t.ready[d.id] == LoadExtend(c.byteAddressed, FlatWord(c, Reset(c, image, pc), t.core, i,
                WordIndex(c.byteAddressed, d.addr)),
                                        ins.size, ins.unsignedLoad, d.addr)
  {
    ReachableLink(c, cc, m, image, pc, run, t);
    hide LinkReachable, CacheSide, LoadExtend, WordIndex, FlatWord, Leads;
    CoreFacts(c, Reset(c, image, pc), t.core);
    FitsValue(c, cc, RunN(c, Reset(c, image, pc), t.core.commits), t, i);
  }

  /** Once the machine has finished, the registers, and the memory the cache stands for, are the final in-order ones,
    * whatever stores have still to be acknowledged. */
  lemma {:induction false} FinishedOverCache(c: Config, cc: M.DConf, m: R.MemSys, image: seq<Lanes>, pc: Pc,
                                             run: seq<LinkStep>, t: Linked, n: nat)
    requires LinkReachable(c, cc, m, image, pc, run, t) && R.SysInv(cc, t.mem)
    requires Finished(c, t.core) && n >= t.core.commits
    ensures var a := RunN(c, Reset(c, image, pc), n);
            t.core.arf == a.regs && a.pc !in c.prog && forall k: nat :: WordAt(cc, t.mem, k) == ReadWord(a.mem, k)
  {
    ReachableLink(c, cc, m, image, pc, run, t);
    FlatHere(c, cc, t);
    assert Domain(c, image, pc);
    hide LinkReachable, CacheSide, CoreSide, AllFit, Recorded, Reaches, R.SysInv, WordAt, Domain;
    var steps :| Reaches(c, Init(c, image, pc), steps, t.core);
    FinishedIsFinal(c, image, pc, steps, t.core, n);
  }

  // ---------------------------------------------------------------- a reply reaches the load that asked for it

  /** The queue waits for memory only for loads in flight. */
  ghost predicate PartsLive(l: Linked) { forall id :: id in l.parts ==> InFlightId(l.core, id) }

  lemma {:induction false} StartedLive(c: Config, l: Linked, i: nat)
    requires PartsLive(l) && CanDispatchLoad(l.core, i)
    ensures PartsLive(Started(c, l, i))
  {
    StartedShape(c, l, i);
    StartedMaps(c, l, i);
    StartedUndone(c, l.core, i);
    var s, l' := l.core, Started(c, l, i);
    hide Started, CanDispatchLoad;
    forall id | id in l'.parts ensures InFlightId(l'.core, id) {
      if id == s.dy[i].id {
        assert l'.core.dy[i].id == id && !l'.core.dy[i].done;
      } else {
        assert id in l.parts;
        var k :| 0 <= k < |s.dy| && s.dy[k].id == id && !s.dy[k].done;
        assert l'.core.dy[k] == s.dy[k];
      }
    }
  }

  lemma {:induction false} StartedUndone(c: Config, s: Core, i: nat)
    requires CanDispatchLoad(s, i)
    ensures !DispatchLoad(c, s, i).dy[i].done
  {
    hide Forward, QueueStores, LoadExtend;
  }

  lemma {:induction false} LiveStep(c: Config, cc: M.DConf, l: Linked, e: LinkStep)
    requires PartsLive(l) && R.SysInv(cc, l.mem) && LinkEnabled(c, cc, l, e)
    ensures PartsLive(LinkApply(c, cc, l, e))
  {
    hide R.SysInv, R.MemApply, R.MemEnabled, Apply, Enabled, Started, Offered, R.Takes;
    match e
    case Dispatch(i) => StartedLive(c, l, i);
    case TakeRequest => assert l.core.sb != [] ==> Drain(c, l.core).dy == l.core.dy;
    case _ =>
  }

  lemma {:induction false} LiveRun(c: Config, cc: M.DConf, a0: Arch, l: Linked, run: seq<LinkStep>, t: Linked)
    requires PartsLive(l) && LinkInv(c, cc, a0, l) && LinkReaches(c, cc, a0, l, run, t)
    ensures PartsLive(t)
    decreases |run|
  {
    FlatHere(c, cc, l);
    hide LinkInv, LinkApply, LinkEnabled, R.SysInv, PartsLive;
    if run != [] {
      LinkStepKeeps(c, cc, a0, l, run[0]);
      LiveStep(c, cc, l, run[0]);
      LiveRun(c, cc, a0, LinkApply(c, cc, l, run[0]), run[1..], t);
    }
  }

  /** A load's reply is either for the very load in flight that sent the request, and then completes it with its
    * in-order value, or, the load having been squashed since, changes nothing, whoever has its slot now. */
  lemma {:induction false} ReplyReachesItsLoad(c: Config, cc: M.DConf, m: R.MemSys, image: seq<Lanes>, pc: Pc,
                                               run: seq<LinkStep>,
                                               t: Linked, r: Resp)
    requires LinkReachable(c, cc, m, image, pc, run, t) && t.mem.d.respQ != [] && r == t.mem.d.respQ[0] && !r.isWrite
    ensures |t.core.st| == |t.core.dy|
    ensures if r.cookie in t.parts && r.cookie in t.asked
            then exists i :: 0 <= i < |t.core.dy| && Completes(c, Reset(c, image, pc), t, i, r)
            else Answered(c, t, r) == t
  {
    var a0 := Reset(c, image, pc);
    ReachableLink(c, cc, m, image, pc, run, t);
    CoreFacts(c, a0, t.core);
    if r.cookie in t.parts && r.cookie in t.asked {
      LinkInitInv(c, cc, m, image, pc);
      LiveRun(c, cc, a0, LinkInit(c, m, image, pc), run, t);
      hide LinkReachable, CacheSide, CoreSide, Leads;
      var i :| 0 <= i < |t.core.dy| && t.core.dy[i].id == r.cookie && !t.core.dy[i].done;
      ReplyCompletes(c, cc, a0, t, i, r);
    }
  }

  /** The reply gives load `i`, the one it was for, its in-order value. */
  ghost predicate Completes(c: Config, a0: Arch, t: Linked, i: int, r: Resp)
    requires 0 <= i < |t.core.dy| == |t.core.st|
  {
    var d, ins := t.core.dy[i], t.core.st[i].instr;
    && d.id == r.cookie && !d.done && r.cookie in t.parts && ins.IsLoad()
    && Extended(c, t.parts[r.cookie], r.data)
       == LoadExtend(c.byteAddressed, FlatWord(c, a0, t.core, i, WordIndex(c.byteAddressed, d.addr)), ins.size,
           ins.unsignedLoad, d.addr)
  }

  lemma {:induction false} ReplyCompletes(c: Config, cc: M.DConf, a0: Arch, t: Linked, i: nat, r: Resp)
    requires AllFit(c, cc, t) && Recorded(t) && Inv(c, RunN(c, a0, t.core.commits), t.core)
    requires i < |t.core.dy| == |t.core.st|
    requires t.core.dy[i].id == r.cookie && !t.core.dy[i].done && r.cookie in t.parts && r.cookie in t.asked
    requires t.mem.d.respQ != [] && r == t.mem.d.respQ[0] && !r.isWrite
    ensures Completes(c, a0, t, i, r)
  {
    var d, ins := t.core.dy[i], t.core.st[i].instr;
    assert Active(d);
    assert LoadFits(c, cc, t, ins, d);
    ReplySuits(c, cc, t, ins, d);
    WaitsFor(c, cc, t, ins, d, i, RunN(c, a0, t.core.commits));
    hide LoadFits, Extended, LoadExtend, Inv;
  }

  /** What a waiting load is aimed at is its in-order value. */
  lemma {:induction false} WaitsFor(c: Config, cc: M.DConf, t: Linked, ins: Instr, d: Dyn, i: nat, g: Arch)
    requires Inv(c, g, t.core) && i < |t.core.dy| == |t.core.st| && d == t.core.dy[i] && ins == t.core.st[i].instr
    requires Active(d)
    requires LoadFits(c, cc, t, ins, d)
    ensures ins.IsLoad()
    ensures LoadExtend(c.byteAddressed, t.aim[d.id], ins.size, ins.unsignedLoad, d.addr)
         == LoadExtend(c.byteAddressed, ReadWord(SpecAt(c, g, t.core.st, i).mem, WordIndex(c.byteAddressed, d.addr)),
                       ins.size, ins.unsignedLoad, d.addr)
  {
    AimIsInOrder(c, g, t.core, i, t.aim[d.id]);
  }
}
