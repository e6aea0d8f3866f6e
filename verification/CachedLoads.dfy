/** Loads over the cache: whatever moment a reply's word was read at, the value offered is the machine's. */
module CachedLoads {
  import opened Words
  import opened Isa
  import opened Core
  import opened CoreInv
  import opened CoreMemory
  import opened MemTypes
  import opened CachedModel
  import opened CachedStores
  import Q = LoadStoreQueue
  import M = CacheModel
  import V = CacheInv
  import S = CacheSteps
  import R = CacheRun
  import T = CacheTheorems
  import O = CacheOrder

  // ---------------------------------------------------------------- what is recorded of a load

  predicate Wants(c: Config, size: MemSize, addr: Word, b: nat)
    requires b < 4
  {
    AccessMask(c.byteAddressed, size, addr)[b]
  }

  /** The machine's progress and main memory now give the bytes aimed at. */
  ghost predicate AimOk(c: Config, main: seq<Lanes>, ins: Instr, d: Dyn, a: Lanes) {
    match d.load
    case LoadIdle => true
    case LoadWaiting(word, mask) =>
      forall b: nat :: b < 4 && Wants(c, ins.size, d.addr, b) ==>
        Merge(MainRead(main, WordIndex(c.byteAddressed, d.addr)), word, mask)[b] == a[b]
    case LoadReady(buf) => buf == LoadExtend(c.byteAddressed, a, ins.size, ins.unsignedLoad, d.addr)
  }

  /** What the queue has forwarded are bytes aimed at; what it has not, the machine has not either. */
  ghost predicate PartOk(c: Config, ins: Instr, d: Dyn, p: Part, a: Lanes) {
    && p.addr == d.addr && p.size == ins.size && p.isUnsigned == ins.unsignedLoad && d.load.LoadWaiting?
    && forall b: nat :: b < 4 && Wants(c, ins.size, d.addr, b) ==>
         if p.cover.mask[b] then p.cover.word[b] == a[b] else !d.load.mask[b]
  }

  /** Words that have the bytes still needed. */
  ghost function Needed(c: Config, p: Part, a: Lanes): iset<Lanes> { iset v: Lanes | Suits(c, p, a, v) }

  ghost predicate Suits(c: Config, p: Part, a: Lanes, v: Lanes) {
    forall b: nat :: b < 4 && Wants(c, p.size, p.addr, b) && !p.cover.mask[b] ==> v[b] == a[b]
  }

  ghost predicate AskOk(c: Config, cc: M.DConf, d: M.DState, id: nat, p: Part, r: Req, a: Lanes) {
    && cc.w > 0 && WordIndex(c.byteAddressed, p.addr) >= 0
         && r == LoadReq(c, cc.w, p, id, if r.id >= 0 then r.id else 0)
    && T.Justified(cc, d, r, Needed(c, p, a))
  }

  /** A dispatched load that is not done. */
  ghost predicate LoadFits(c: Config, cc: M.DConf, l: Linked, ins: Instr, d: Dyn) {
    && d.id in l.aim && AimOk(c, l.core.main, ins, d, l.aim[d.id]) && (d.id in l.parts || d.id in l.ready)
    && (d.id in l.ready ==>
          l.ready[d.id] == LoadExtend(c.byteAddressed, l.aim[d.id], ins.size, ins.unsignedLoad, d.addr))
    && (d.id in l.parts ==> PartOk(c, ins, d, l.parts[d.id], l.aim[d.id]))
    && (d.id in l.parts && d.id in l.asked ==> AskOk(c, cc, l.mem.d, d.id, l.parts[d.id], l.asked[d.id], l.aim[d.id]))
  }

  ghost predicate Active(d: Dyn) { !d.done && d.load != LoadIdle }

  ghost predicate AllFit(c: Config, cc: M.DConf, l: Linked) {
    && |l.core.st| == |l.core.dy|
    && forall i :: 0 <= i < |l.core.dy| && Active(l.core.dy[i]) ==> LoadFits(c, cc, l, l.core.st[i].instr, l.core.dy[i])
  }

  /** Ids are recorded at dispatch, and never used again. */
  ghost predicate Recorded(l: Linked) {
    && l.parts.Keys <= l.aim.Keys && l.ready.Keys <= l.aim.Keys && l.asked.Keys <= l.aim.Keys
    && (forall id :: id in l.aim ==> id < l.core.nextId)
    && IdleIsNew(l.core.dy, l.aim)
    && O.LoadsAmong(l.mem.d, l.asked.Keys)
  }

  ghost predicate IdleIsNew(dy: seq<Dyn>, aim: map<nat, Lanes>) {
    forall i :: 0 <= i < |dy| && dy[i].load == LoadIdle ==> dy[i].id !in aim
  }

  // ---------------------------------------------------------------- the machine's own steps

  /** An entry after a step, as it was before: new and undispatched, or with the same progress. */
  ghost predicate WasEntry(s: Core, f: Fetched, d: Dyn)
    requires |s.st| == |s.dy|
  {
    || (d.id == s.nextId && d.load == LoadIdle)
    || exists i :: 0 <= i < |s.dy| && SameEntry(s, i, f, d)
  }

  ghost predicate SameEntry(s: Core, i: int, f: Fetched, d: Dyn)
    requires 0 <= i < |s.dy| == |s.st|
  {
    && s.dy[i].id == d.id && s.st[i] == f && (d.load == LoadIdle ==> s.dy[i].load == LoadIdle)
    && (!d.done ==> !s.dy[i].done && d.load == s.dy[i].load && (d.load != LoadIdle ==> s.dy[i].addr == d.addr))
  }

  ghost predicate EntriesWere(s: Core, s': Core) {
    && |s.st| == |s.dy| && |s'.st| == |s'.dy| && s'.main == s.main && s'.nextId >= s.nextId
    && forall i :: 0 <= i < |s'.dy| ==> WasEntry(s, s'.st[i], s'.dy[i])
  }

  lemma {:induction false} ResolveWere(c: Config, s: Core, k: nat)
    requires CanResolve(c, s, k)
    ensures EntriesWere(s, Resolve(c, s, k))
  {
    hide Scrub, Without, KillTags, KillIds, Mispredicted, NextPc;
    var s' := Resolve(c, s, k);
    forall i | 0 <= i < |s'.dy| ensures WasEntry(s, s'.st[i], s'.dy[i]) {
      assert SameEntry(s, i, s'.st[i], s'.dy[i]);
    }
  }

  lemma {:induction false} CommitWere(c: Config, s: Core)
    requires CanCommit(s)
    ensures EntriesWere(s, CommitHead(c, s))
  {
    hide CommitCkpts, RatCommit;
    var s' := CommitHead(c, s);
    forall i | 0 <= i < |s'.dy| ensures WasEntry(s, s'.st[i], s'.dy[i]) {
      assert SameEntry(s, i + 1, s'.st[i], s'.dy[i]);
    }
  }

  /** The same entries, with what dispatch records of a load unchanged. */
  ghost predicate SameFlight(s: Core, s': Core) {
    && |s.st| == |s.dy| && s'.st == s.st && |s'.dy| == |s.dy| && s'.main == s.main && s'.nextId >= s.nextId
    && forall i :: 0 <= i < |s.dy| ==> SameEntry(s, i, s'.st[i], s'.dy[i])
  }

  lemma {:induction false} SameWere(s: Core, s': Core)
    requires SameFlight(s, s')
    ensures EntriesWere(s, s')
  {
    forall i | 0 <= i < |s'.dy| ensures WasEntry(s, s'.st[i], s'.dy[i]) {
      assert SameEntry(s, i, s'.st[i], s'.dy[i]);
    }
  }

  lemma {:induction false} RenameWere(c: Config, s: Core)
    requires CanRename(c, s)
    ensures EntriesWere(s, Rename(c, s))
  {
    hide ResolveOperand, RatRename;
    var s' := Rename(c, s);
    forall i | 0 <= i < |s'.dy| ensures WasEntry(s, s'.st[i], s'.dy[i]) {
      if i < |s.dy| { assert SameEntry(s, i, s'.st[i], s'.dy[i]); }
    }
  }

  lemma {:induction false} AddressKnown(c: Config, g: Arch, s: Core, i: nat)
    requires Inv(c, g, s) && i < |s.dy|
    ensures |s.st| == |s.dy| && (s.dy[i].load != LoadIdle ==> s.dy[i].addrReady)
  {
    assert ValuesOk(c, g, s.st, s.dy, i);
  }

  lemma {:induction false} StepWere(c: Config, g: Arch, s: Core, e: Step)
    requires Inv(c, g, s) && OwnStep(e) && Enabled(c, s, e)
    ensures EntriesWere(s, Apply(c, s, e))
  {
    Shape(c, g, s);
    hide Inv, EntriesWere, Resolve, CommitHead, Rename, StartCycle, ComputeAddr;
    match e
    case DoResolve(k) => ResolveWere(c, s, k);
    case DoCommitHead => CommitWere(c, s);
    case DoRename => RenameWere(c, s);
    case DoStartCycle => StartWere(s);
    case DoComputeAddr(i) =>
      AddressKnown(c, g, s, i);
      AddressWere(s, i);
    case _ => OtherWere(c, s, e);
  }

  lemma {:induction false} StartWere(s: Core)
    requires CanStartCycle(s)
    ensures EntriesWere(s, StartCycle(s))
  {
    hide WakeOperand;
    SameWere(s, StartCycle(s));
  }

  lemma {:induction false} AddressWere(s: Core, i: nat)
    requires CanComputeAddr(s, i) && (s.dy[i].load != LoadIdle ==> s.dy[i].addrReady)
    ensures EntriesWere(s, ComputeAddr(s, i))
  {
    SameWere(s, ComputeAddr(s, i));
  }

  lemma {:induction false} OtherWere(c: Config, s: Core, e: Step)
    requires |s.st| == |s.dy| && OwnStep(e) && Enabled(c, s, e)
    requires !e.DoResolve? && !e.DoCommitHead? && !e.DoRename? && !e.DoStartCycle? && !e.DoComputeAddr?
    ensures EntriesWere(s, Apply(c, s, e))
  {
    hide EntriesWere;
    SameWere(s, Apply(c, s, e));
  }

  lemma {:induction false} Shape(c: Config, g: Arch, s: Core)
    requires Inv(c, g, s)
    ensures |s.st| == |s.dy|
  {
  }

  lemma {:induction false} OfferWere(c: Config, s: Core, i: nat)
    requires s.phase == Writeback && i < |s.st| == |s.dy| && Active(s.dy[i])
    ensures EntriesWere(s, Offered(c, s, i))
  {
    hide LoadExtend;
    SameWere(s, Offered(c, s, i));
  }

  /** A load that is in flight after the step has the record it had. */
  lemma {:induction false} StillFits(c: Config, cc: M.DConf, l: Linked, s': Core, i: nat)
    requires AllFit(c, cc, l) && Recorded(l) && EntriesWere(l.core, s') && i < |s'.dy| && Active(s'.dy[i])
    ensures LoadFits(c, cc, Moved(l, s'), s'.st[i].instr, s'.dy[i])
  {
    hide AskOk;
    var s, d := l.core, s'.dy[i];
    assert WasEntry(s, s'.st[i], d);
    var j :| 0 <= j < |s.dy| && SameEntry(s, j, s'.st[i], d);
    assert Active(s.dy[j]) && LoadFits(c, cc, l, s.st[j].instr, s.dy[j]);
    assert InFlightId(s', d.id);
    SameAim(c, s.main, s.st[j].instr, s.dy[j], d, l.aim[d.id]);
    if d.id in l.parts { SamePart(c, s.st[j].instr, s.dy[j], d, l.parts[d.id], l.aim[d.id]); }
    hide AimOk, PartOk;
  }

  lemma {:induction false} SameAim(c: Config, main: seq<Lanes>, ins: Instr, d: Dyn, d': Dyn, a: Lanes)
    requires AimOk(c, main, ins, d, a) && d'.load == d.load && (d.load != LoadIdle ==> d'.addr == d.addr)
    ensures AimOk(c, main, ins, d', a)
  {
    hide LoadExtend, WordIndex, AccessMask;
  }

  lemma {:induction false} SamePart(c: Config, ins: Instr, d: Dyn, d': Dyn, p: Part, a: Lanes)
    requires PartOk(c, ins, d, p, a) && d'.load == d.load && d'.addr == d.addr
    ensures PartOk(c, ins, d', p, a)
  {
    hide AccessMask;
  }

  lemma {:induction false} StillRecorded(c: Config, l: Linked, s': Core)
    requires |l.core.st| == |l.core.dy| && Recorded(l) && EntriesWere(l.core, s')
    ensures Recorded(Moved(l, s'))
  {
    hide O.LoadsAmong;
    forall i | 0 <= i < |s'.dy| && s'.dy[i].load == LoadIdle ensures s'.dy[i].id !in l.aim {
      assert WasEntry(l.core, s'.st[i], s'.dy[i]);
    }
  }

  /** A step of the machine's own keeps every load's record. */
  lemma {:induction false} StepFits(c: Config, cc: M.DConf, l: Linked, s': Core)
    requires AllFit(c, cc, l) && Recorded(l) && EntriesWere(l.core, s')
    ensures var l' := Moved(l, s'); AllFit(c, cc, l') && Recorded(l')
  {
    hide LoadFits;
    StillRecorded(c, l, s');
    forall i | 0 <= i < |s'.dy| && Active(s'.dy[i])
      ensures LoadFits(c, cc, Moved(l, s'), s'.st[i].instr, s'.dy[i])
    {
      StillFits(c, cc, l, s', i);
    }
  }

  // ---------------------------------------------------------------- the cache's word suits a waiting load

  /** Memory now has the bytes a waiting load still needs. */
  lemma {:induction false} NowSuits(c: Config, main: seq<Lanes>, ins: Instr, d: Dyn, p: Part, a: Lanes)
    requires AimOk(c, main, ins, d, a) && PartOk(c, ins, d, p, a)
    ensures MainRead(main, WordIndex(c.byteAddressed, p.addr)) in Needed(c, p, a)
  {
    hide AccessMask, WordIndex;
  }

  lemma {:induction false} WordIsMain(c: Config, cc: M.DConf, main: seq<Lanes>, m: R.MemSys, p: Part, cookie: nat,
                                      slot: nat)
    requires R.SysInv(cc, m) && MainIsFlat(cc, main, m) && WordIndex(c.byteAddressed, p.addr) >= 0
    ensures T.WordNow(cc, m, LoadReq(c, cc.w, p, cookie, slot)) == MainRead(main, WordIndex(c.byteAddressed, p.addr))
  {
    hide V.DataOk, V.DramOk, V.AbsLine, WordIndex;
    assert MainRead(main, WordIndex(c.byteAddressed, p.addr)) == WordAt(cc, m, WordIndex(c.byteAddressed, p.addr));
  }

  /** A reply's word completes the load as aimed. */
  lemma {:induction false} CompletesAsAimed(c: Config, ins: Instr, d: Dyn, p: Part, a: Lanes, v: Lanes)
    requires PartOk(c, ins, d, p, a) && v in Needed(c, p, a)
    ensures Extended(c, p, v) == LoadExtend(c.byteAddressed, a, ins.size, ins.unsignedLoad, d.addr)
  {
    forall b | 0 <= b < 4 && AccessMask(c.byteAddressed, ins.size, d.addr)[b]
      ensures Merge(v, p.cover.word, p.cover.mask)[b] == a[b]
    {
      assert Wants(c, ins.size, d.addr, b);
    }
    LoadExtendLanes(c.byteAddressed, Merge(v, p.cover.word, p.cover.mask), a, ins.size, ins.unsignedLoad, d.addr);
  }

  /** What the machine itself would read for the load is what is aimed at. */
  lemma {:induction false} MachineAims(c: Config, main: seq<Lanes>, ins: Instr, d: Dyn, a: Lanes)
    requires AimOk(c, main, ins, d, a) && d.load.LoadWaiting?
    ensures LoadExtend(c.byteAddressed, Merge(MainRead(main, WordIndex(c.byteAddressed, d.addr)), d.load.word,
              d.load.mask),
                       ins.size, ins.unsignedLoad, d.addr)
         == LoadExtend(c.byteAddressed, a, ins.size, ins.unsignedLoad, d.addr)
  {
    var v := Merge(MainRead(main, WordIndex(c.byteAddressed, d.addr)), d.load.word, d.load.mask);
    forall b | 0 <= b < 4 && AccessMask(c.byteAddressed, ins.size, d.addr)[b] ensures v[b] == a[b] {
      assert Wants(c, ins.size, d.addr, b);
    }
    LoadExtendLanes(c.byteAddressed, v, a, ins.size, ins.unsignedLoad, d.addr);
  }

  /** The value a ready load offers is the value the machine broadcasts for it. */
  lemma {:induction false} OfferIsRight(c: Config, cc: M.DConf, l: Linked, i: nat)
    requires AllFit(c, cc, l) && i < |l.core.dy| && Active(l.core.dy[i]) && l.core.dy[i].id in l.ready
    requires l.core.phase == Writeback
    ensures i < |Offered(c, l.core, i).dy| && Offered(c, l.core, i).dy[i].value == l.ready[l.core.dy[i].id]
    ensures Offered(c, l.core, i).dy[i].done
  {
    var d, ins := l.core.dy[i], l.core.st[i].instr;
    assert LoadFits(c, cc, l, ins, d);
    if d.load.LoadWaiting? { MachineAims(c, l.core.main, ins, d, l.aim[d.id]); }
    hide LoadExtend, Merge;
  }

  // ---------------------------------------------------------------- steps of the cache

  /** A cache step keeps every waiting load's replies right. */
  lemma {:induction false} MemFits(c: Config, cc: M.DConf, l: Linked, x: R.MemStep)
    requires AllFit(c, cc, l) && Recorded(l) && R.SysInv(cc, l.mem) && R.MemEnabled(cc, l.mem, x)
    requires MainIsFlat(cc, l.core.main, l.mem) && (x.Accept? ==> x.req.write || x.req.cookie !in l.asked)
    ensures AllFit(c, cc, l.(mem := R.MemApply(cc, l.mem, x)))
  {
    hide V.DataOk, V.DramOk, R.MemApply, R.MemEnabled;
    var l' := l.(mem := R.MemApply(cc, l.mem, x));
    forall i | 0 <= i < |l.core.dy| && Active(l.core.dy[i])
      ensures LoadFits(c, cc, l', l.core.st[i].instr, l.core.dy[i])
    {
      var d, ins := l.core.dy[i], l.core.st[i].instr;
      assert LoadFits(c, cc, l, ins, d);
      if d.id in l.parts && d.id in l.asked { AskKept(c, cc, l, ins, d, x); }
      hide AimOk, PartOk, AskOk;
    }
  }

  lemma {:induction false} AskKept(c: Config, cc: M.DConf, l: Linked, ins: Instr, d: Dyn, x: R.MemStep)
    requires LoadFits(c, cc, l, ins, d) && R.SysInv(cc, l.mem) && R.MemEnabled(cc, l.mem, x)
    requires MainIsFlat(cc, l.core.main, l.mem)
    requires d.id in l.parts && d.id in l.asked && (x.Accept? ==> x.req.write || x.req.cookie !in l.asked)
    ensures AskOk(c, cc, R.MemApply(cc, l.mem, x).d, d.id, l.parts[d.id], l.asked[d.id], l.aim[d.id])
  {
    var p, r, a := l.parts[d.id], l.asked[d.id], l.aim[d.id];
    NowSuits(c, l.core.main, ins, d, p, a);
    WordIsMain(c, cc, l.core.main, l.mem, p, d.id, if r.id >= 0 then r.id else 0);
    hide V.DataOk, V.DramOk, R.MemApply, R.MemEnabled, Needed, T.Justified, MainIsFlat;
    T.StepJustified(cc, l.mem, x, r, Needed(c, p, a));
  }

  /** A load that has just been sent is the only request of its cookie. */
  lemma {:induction false} Sent(c: Config, cc: M.DConf, l: Linked, i: nat, slot: nat)
    requires AllFit(c, cc, l) && Recorded(l) && R.SysInv(cc, l.mem) && LinkEnabled(c, cc, l, SendLoad(i, slot))
    requires forall j, k :: 0 <= j < k < |l.core.dy| ==> l.core.dy[j].id != l.core.dy[k].id
    requires MainIsFlat(cc, l.core.main, l.mem)
    ensures AllFit(c, cc, LinkApply(c, cc, l, SendLoad(i, slot)))
  {
    var id := l.core.dy[i].id;
    var r := LoadReq(c, cc.w, l.parts[id], id, slot);
    var l' := LinkApply(c, cc, l, SendLoad(i, slot));
    MemFits(c, cc, l, R.Accept(0, r));
    NotYetAsked(l, id);
    T.AcceptedAlone(cc, l.mem, 0, r, if id in l.aim then Needed(c, l.parts[id], l.aim[id]) else iset{});
    hide R.SysInv, R.MemApply, T.Justified, Needed, AimOk, PartOk;
    forall k | 0 <= k < |l.core.dy| && Active(l.core.dy[k])
      ensures LoadFits(c, cc, l', l.core.st[k].instr, l.core.dy[k])
    {
      assert LoadFits(c, cc, l.(mem := l'.mem), l.core.st[k].instr, l.core.dy[k]);
    }
  }

  lemma {:induction false} NotYetAsked(l: Linked, cookie: nat)
    requires O.LoadsAmong(l.mem.d, l.asked.Keys) && cookie !in l.asked
    ensures T.CookieFree(l.mem.d, cookie)
  {
  }

  // ---------------------------------------------------------------- main memory moves under a waiting load

  /** A buffered store that reaches memory touches no byte a waiting load still needs. */
  lemma {:induction false} DrainAims(c: Config, g: Arch, s: Core, i: nat, a: Lanes)
    requires Inv(c, g, s) && s.sb != [] && i < |s.dy| == |s.st| && !s.dy[i].done
    requires AimOk(c, s.main, s.st[i].instr, s.dy[i], a)
    ensures AimOk(c, Drain(c, s).main, s.st[i].instr, s.dy[i], a)
  {
    var d, ins := s.dy[i], s.st[i].instr;
    if d.load.LoadWaiting? {
      forall b: nat | b < 4 && Wants(c, ins.size, d.addr, b) && !d.load.mask[b]
        ensures MainRead(Drain(c, s).main, WordIndex(c.byteAddressed, d.addr))[b]
             == MainRead(s.main, WordIndex(c.byteAddressed, d.addr))[b]
      {
        DrainSpares(c, g, s, i, b);
      }
    }
    hide Inv, WordIndex, Drain, MainRead, LoadExtend, AccessMask;
  }

  lemma {:induction false} DrainSpares(c: Config, g: Arch, s: Core, i: nat, b: nat)
    requires Inv(c, g, s) && s.sb != [] && i < |s.dy| == |s.st| && !s.dy[i].done && s.dy[i].load.LoadWaiting? && b < 4
    requires Wants(c, s.st[i].instr.size, s.dy[i].addr, b) && !s.dy[i].load.mask[b]
    ensures MainRead(Drain(c, s).main, WordIndex(c.byteAddressed, s.dy[i].addr))[b]
         == MainRead(s.main, WordIndex(c.byteAddressed, s.dy[i].addr))[b]
  {
    NotInBuffer(c, g, s, i, b);
    hide Inv, WordIndex;
  }

  /** A byte a waiting load still needs is in no buffered store. */
  lemma {:induction false} NotInBuffer(c: Config, g: Arch, s: Core, i: nat, b: nat)
    requires Inv(c, g, s) && s.sb != [] && i < |s.dy| == |s.st| && !s.dy[i].done && s.dy[i].load.LoadWaiting? && b < 4
    requires Wants(c, s.st[i].instr.size, s.dy[i].addr, b) && !s.dy[i].load.mask[b]
    ensures !EntryCovers(c.byteAddressed, s.sb[0], WordIndex(c.byteAddressed, s.dy[i].addr), b)
  {
    hide WordIndex, QueueStores, MemOk, FuOk, AllValues, AllSources, NamesInv, PathOk;
    var list := s.sb + QueueStores(c, s.st, s.dy, i);
    assert LoadOk(c, g, s.st, s.dy, s.sb, i);
    assert list[0] == s.sb[0];
  }

  lemma {:induction false} DrainFits(c: Config, cc: M.DConf, g: Arch, l: Linked)
    requires AllFit(c, cc, l) && Inv(c, g, l.core) && l.core.sb != []
    ensures AllFit(c, cc, l.(core := Drain(c, l.core)))
  {
    var s := l.core;
    forall i | 0 <= i < |s.dy| && Active(s.dy[i])
      ensures LoadFits(c, cc, l.(core := Drain(c, s)), s.st[i].instr, s.dy[i])
    {
      var d := s.dy[i];
      assert LoadFits(c, cc, l, s.st[i].instr, d);
      DrainAims(c, g, s, i, l.aim[d.id]);
      hide AimOk, PartOk, AskOk, Inv;
    }
    hide Inv, LoadFits;
  }

  // ---------------------------------------------------------------- replies

  /** A reply to a load that waits has a word that suits it. */
  lemma {:induction false} ReplySuits(c: Config, cc: M.DConf, l: Linked, ins: Instr, d: Dyn)
    requires LoadFits(c, cc, l, ins, d) && l.mem.d.respQ != [] && !l.mem.d.respQ[0].isWrite
    requires l.mem.d.respQ[0].cookie == d.id
    requires d.id in l.parts && d.id in l.asked
    ensures Extended(c, l.parts[d.id], l.mem.d.respQ[0].data)
         == LoadExtend(c.byteAddressed, l.aim[d.id], ins.size, ins.unsignedLoad, d.addr)
  {
    var p, a, r := l.parts[d.id], l.aim[d.id], l.mem.d.respQ[0];
    assert T.AnswersLoad(l.mem.d.respQ[0], l.asked[d.id].cookie);
    CompletesAsAimed(c, ins, d, p, a, r.data);
  }

  lemma {:induction false} AnsweredFits(c: Config, cc: M.DConf, l: Linked, r: Resp)
    requires AllFit(c, cc, l) && Recorded(l)
    requires !r.isWrite && r.cookie in l.parts && r.cookie in l.asked ==>
               forall i :: 0 <= i < |l.core.dy| && Active(l.core.dy[i]) && l.core.dy[i].id == r.cookie ==>
                 Extended(c, l.parts[r.cookie], r.data)
                 == LoadExtend(c.byteAddressed, l.aim[r.cookie], l.core.st[i].instr.size,
                     l.core.st[i].instr.unsignedLoad, l.core.dy[i].addr)
    ensures AllFit(c, cc, Answered(c, l, r)) && Recorded(Answered(c, l, r))
  {
    hide AimOk, PartOk, AskOk, Extended, LoadExtend;
    var l' := Answered(c, l, r);
    forall i | 0 <= i < |l.core.dy| && Active(l.core.dy[i])
      ensures LoadFits(c, cc, l', l.core.st[i].instr, l.core.dy[i])
    {
      assert LoadFits(c, cc, l, l.core.st[i].instr, l.core.dy[i]);
    }
  }

  // ---------------------------------------------------------------- dispatch

  /** What the queue forwards covers what the machine does, and its extra bytes are memory's. */
  lemma {:induction false} EchoForward(c: Config, l: Linked, i: nat, b: nat)
    requires CanDispatchLoad(l.core, i) && EchoesAgree(c, l.core.main, l.echoes) && b < 4
    ensures var s, d, ins := l.core, l.core.dy[i], l.core.st[i].instr;
            var w, want := WordIndex(c.byteAddressed, d.addr), AccessMask(c.byteAddressed, ins.size, d.addr);
            var own, all := Forward(c.byteAddressed, s.sb + QueueStores(c, s.st, s.dy, i), w, want), Forwarded(c, l, i);
            && (own.mask[b] ==> all.mask[b])
            && (all.mask[b] ==> all.word[b] == Aim(c, s, i)[b])
  {
    var s, d, ins := l.core, l.core.dy[i], l.core.st[i].instr;
    var w, want := WordIndex(c.byteAddressed, d.addr), AccessMask(c.byteAddressed, ins.size, d.addr);
    Q.ForwardAppend(c.byteAddressed, Entries(l.echoes), s.sb + QueueStores(c, s.st, s.dy, i), w, want);
    assert EchoAgrees(c, s.main, l.echoes, w, want, b);
    hide Forward, WordIndex, AccessMask, QueueStores, EchoesAgree;
  }

  /** The load just dispatched has its record. */
  lemma {:induction false} DispatchedFits(c: Config, cc: M.DConf, l: Linked, i: nat)
    requires Recorded(l) && CanDispatchLoad(l.core, i) && EchoesAgree(c, l.core.main, l.echoes)
    ensures var l' := Started(c, l, i); LoadFits(c, cc, l', l'.core.st[i].instr, l'.core.dy[i])
  {
    hide EchoesAgree, Forward, WordIndex, AccessMask, QueueStores, LoadExtend, Aim, Forwarded;
    var s, d, ins := l.core, l.core.dy[i], l.core.st[i].instr;
    DispatchAims(c, s, i);
    FullIsFull(c, l, i);
    StartedPart(c, l, i);
    if Forwarded(c, l, i).mask == AccessMask(c.byteAddressed, ins.size, d.addr) {
      StartedReady(c, l, i);
    }
    hide AimOk, PartOk;
  }

  lemma {:induction false} StartedReady(c: Config, l: Linked, i: nat)
    requires CanDispatchLoad(l.core, i) && EchoesAgree(c, l.core.main, l.echoes)
    requires var d, ins := l.core.dy[i], l.core.st[i].instr;
             Forwarded(c, l, i).mask == AccessMask(c.byteAddressed, ins.size, d.addr)
    ensures var d, ins := l.core.dy[i], l.core.st[i].instr;
            var ready := LoadExtend(c.byteAddressed, Forwarded(c, l, i).word, ins.size, ins.unsignedLoad, d.addr);
            ready == LoadExtend(c.byteAddressed, Aim(c, l.core, i), ins.size, ins.unsignedLoad, d.addr)
  {
    var d, ins := l.core.dy[i], l.core.st[i].instr;
    forall b | 0 <= b < 4 && AccessMask(c.byteAddressed, ins.size, d.addr)[b]
      ensures Forwarded(c, l, i).word[b] == Aim(c, l.core, i)[b]
    {
      EchoForward(c, l, i, b);
    }
    LoadExtendLanes(c.byteAddressed, Forwarded(c, l, i).word, Aim(c, l.core, i), ins.size, ins.unsignedLoad, d.addr);
  }

  lemma {:induction false} StartedPart(c: Config, l: Linked, i: nat)
    requires CanDispatchLoad(l.core, i) && EchoesAgree(c, l.core.main, l.echoes)
    ensures var d, ins := l.core.dy[i], l.core.st[i].instr;
            DispatchLoad(c, l.core, i).dy[i].load.LoadWaiting? ==>
              PartOk(c, ins, DispatchLoad(c, l.core, i).dy[i], Part(d.addr, ins.size, ins.unsignedLoad, Forwarded(c,
                  l, i)), Aim(c, l.core, i))
  {
    hide Forward, Forwarded, Aim, AccessMask, WordIndex, QueueStores, LoadExtend;
    forall b: nat | b < 4
      ensures DispatchLoad(c, l.core, i).dy[i].load.LoadWaiting? && DispatchLoad(c, l.core, i).dy[i].load.mask[b] ==>
                Forwarded(c, l, i).mask[b]
      ensures Forwarded(c, l, i).mask[b] ==> Forwarded(c, l, i).word[b] == Aim(c, l.core, i)[b]
    {
      EchoForward(c, l, i, b);
    }
  }

  /** The machine's own dispatch aims at the same bytes. */
  lemma {:induction false} DispatchAims(c: Config, s: Core, i: nat)
    requires CanDispatchLoad(s, i)
    ensures i < |DispatchLoad(c, s, i).dy| && AimOk(c, s.main, s.st[i].instr, DispatchLoad(c, s, i).dy[i], Aim(c, s, i))
  {
    hide Forward, WordIndex, QueueStores, LoadExtend;
    var d, ins := s.dy[i], s.st[i].instr;
    var want := AccessMask(c.byteAddressed, ins.size, d.addr);
    var r := Forward(c.byteAddressed, s.sb + QueueStores(c, s.st, s.dy, i), WordIndex(c.byteAddressed, d.addr), want);
    if r.mask == want {
      LoadExtendLanes(c.byteAddressed, r.word, Aim(c, s, i), ins.size, ins.unsignedLoad, d.addr);
    }
    hide AccessMask;
  }

  /** If the machine forwards every byte, so does the queue. */
  lemma {:induction false} FullIsFull(c: Config, l: Linked, i: nat)
    requires CanDispatchLoad(l.core, i) && EchoesAgree(c, l.core.main, l.echoes)
    ensures DispatchLoad(c, l.core, i).dy[i].load.LoadReady? ==>
              Forwarded(c, l, i).mask == AccessMask(c.byteAddressed, l.core.st[i].instr.size, l.core.dy[i].addr)
  {
    hide WordIndex, QueueStores, LoadExtend, EchoesAgree, AccessMask;
    var s, d, ins := l.core, l.core.dy[i], l.core.st[i].instr;
    var w, want := WordIndex(c.byteAddressed, d.addr), AccessMask(c.byteAddressed, ins.size, d.addr);
    var list := s.sb + QueueStores(c, s.st, s.dy, i);
    var own, all := Forward(c.byteAddressed, list, w, want), Forwarded(c, l, i);
    if own.mask == want {
      forall b: nat | b < 4 ensures all.mask[b] == want[b] {
        EchoForward(c, l, i, b);
        if all.mask[b] { ForwardWanted(c.byteAddressed, Entries(l.echoes) + list, w, want, b); }
      }
      SameMask(all.mask, want);
    }
    hide Forward;
  }

  lemma {:induction false} SameMask(m: Mask, n: Mask)
    requires forall b: nat :: b < 4 ==> m[b] == n[b]
    ensures m == n
  {
  }

  /** What a dispatch changes. */
  lemma {:induction false} StartedShape(c: Config, l: Linked, i: nat)
    requires CanDispatchLoad(l.core, i)
    ensures var s, s' := l.core, Started(c, l, i).core;
            && s'.st == s.st && |s'.dy| == |s.dy| == |s.st| && s'.main == s.main && s'.nextId == s.nextId
            && (forall k :: 0 <= k < |s.dy| && k != i ==> s'.dy[k] == s.dy[k])
            && s'.dy[i].id == s.dy[i].id && s'.dy[i].load != LoadIdle
  {
    hide Forwarded, Aim, Forward, AccessMask, WordIndex, QueueStores, LoadExtend, Merge;
  }

  lemma {:induction false} StartedMaps(c: Config, l: Linked, i: nat)
    requires CanDispatchLoad(l.core, i)
    ensures var l', id := Started(c, l, i), l.core.dy[i].id;
            && l'.mem == l.mem && l'.asked == l.asked && id in l'.aim
            && OnlyAt(l.aim, l'.aim, id) && OnlyAt(l.parts, l'.parts, id) && OnlyAt(l.ready, l'.ready, id)
  {
    hide Forwarded, Aim, Forward, AccessMask, WordIndex, QueueStores, LoadExtend, DispatchLoad;
  }

  ghost predicate OnlyAt<T>(m: map<nat, T>, m': map<nat, T>, id: nat) {
    forall x :: x != id ==> (x in m' <==> x in m) && (x in m ==> m'[x] == m[x])
  }

  lemma {:induction false} DispatchFits(c: Config, cc: M.DConf, l: Linked, i: nat)
    requires AllFit(c, cc, l) && Recorded(l) && CanDispatchLoad(l.core, i) && EchoesAgree(c, l.core.main, l.echoes)
    requires forall j, k :: 0 <= j < k < |l.core.dy| ==> l.core.dy[j].id != l.core.dy[k].id
    ensures AllFit(c, cc, Started(c, l, i))
  {
    DispatchedFits(c, cc, l, i);
    StartedShape(c, l, i);
    StartedMaps(c, l, i);
    hide EchoesAgree, Started, AimOk, PartOk, AskOk, LoadExtend, CanDispatchLoad;
    var l' := Started(c, l, i);
    forall k | 0 <= k < |l'.core.dy| && Active(l'.core.dy[k])
      ensures LoadFits(c, cc, l', l'.core.st[k].instr, l'.core.dy[k])
    {
      if k != i { assert LoadFits(c, cc, l, l.core.st[k].instr, l.core.dy[k]); }
    }
  }

  lemma {:induction false} DispatchRecorded(c: Config, l: Linked, i: nat)
    requires Recorded(l) && CanDispatchLoad(l.core, i) && l.core.dy[i].id < l.core.nextId
    requires forall j, k :: 0 <= j < k < |l.core.dy| ==> l.core.dy[j].id != l.core.dy[k].id
    ensures Recorded(Started(c, l, i))
  {
    StartedShape(c, l, i);
    StartedMaps(c, l, i);
    hide Started, O.LoadsAmong, CanDispatchLoad;
    IdleAfter(l.core.dy, Started(c, l, i).core.dy, l.aim, Started(c, l, i).aim, i);
    hide IdleIsNew;
    KeysAfter(l.parts, Started(c, l, i).parts, l.aim, Started(c, l, i).aim, l.core.dy[i].id);
    KeysAfter(l.ready, Started(c, l, i).ready, l.aim, Started(c, l, i).aim, l.core.dy[i].id);
    KeysAfter(l.asked, Started(c, l, i).asked, l.aim, Started(c, l, i).aim, l.core.dy[i].id);
  }

  lemma {:induction false} KeysAfter<T>(m: map<nat, T>, m': map<nat, T>, aim: map<nat, Lanes>, aim': map<nat, Lanes>,
                                        id: nat)
    requires m.Keys <= aim.Keys && OnlyAt(m, m', id) && OnlyAt(aim, aim', id) && id in aim'
    ensures m'.Keys <= aim'.Keys
  {
  }

  lemma {:induction false} IdleAfter(dy: seq<Dyn>, dy': seq<Dyn>, aim: map<nat, Lanes>, aim': map<nat, Lanes>, i: nat)
    requires IdleIsNew(dy, aim) && |dy'| == |dy| && i < |dy| && OnlyAt(aim, aim', dy[i].id) && dy'[i].load != LoadIdle
    requires forall k :: 0 <= k < |dy| && k != i ==> dy'[k] == dy[k]
    requires forall j, k :: 0 <= j < k < |dy| ==> dy[j].id != dy[k].id
    ensures IdleIsNew(dy', aim')
  {
  }

  /** What a dispatched load is aimed at is its in-order value, on whatever path it is. */
  lemma {:induction false} AimIsInOrder(c: Config, g: Arch, s: Core, i: nat, a: Lanes)
    requires Inv(c, g, s) && i < |s.dy| == |s.st| && Active(s.dy[i]) && AimOk(c, s.main, s.st[i].instr, s.dy[i], a)
    ensures var d, ins := s.dy[i], s.st[i].instr;
            && ins.IsLoad()
            && LoadExtend(c.byteAddressed, a, ins.size, ins.unsignedLoad, d.addr)
               == LoadExtend(c.byteAddressed, ReadWord(SpecAt(c, g, s.st, i).mem, WordIndex(c.byteAddressed, d.addr)),
                             ins.size, ins.unsignedLoad, d.addr)
  {
    var d, ins := s.dy[i], s.st[i].instr;
    assert ValuesOk(c, g, s.st, s.dy, i);
    if d.load.LoadWaiting? {
      MachineAims(c, s.main, ins, d, a);
      assert LoadOk(c, g, s.st, s.dy, s.sb, i);
      FilledValue(c, g, s.(phase := Writeback), i);
    }
    hide LoadExtend, SpecAt, Merge, MainRead, WordIndex;
  }

  /** A value that is ready is the in-order one of the load's path. */
  lemma {:induction false} FitsValue(c: Config, cc: M.DConf, g: Arch, l: Linked, i: nat)
    requires AllFit(c, cc, l) && Inv(c, g, l.core) && i < |l.core.dy| && Active(l.core.dy[i])
    requires l.core.dy[i].id in l.ready
    ensures var d, ins := l.core.dy[i], l.core.st[i].instr;
            var flat := ReadWord(SpecAt(c, g, l.core.st, i).mem, WordIndex(c.byteAddressed, d.addr));
            ins.IsLoad() && l.ready[d.id] == LoadExtend(c.byteAddressed, flat, ins.size, ins.unsignedLoad, d.addr)
  {
    var d, ins := l.core.dy[i], l.core.st[i].instr;
    assert LoadFits(c, cc, l, ins, d);
    AimIsInOrder(c, g, l.core, i, l.aim[d.id]);
    hide LoadExtend, SpecAt, WordIndex, Inv, AimOk, PartOk, AskOk;
  }
}
