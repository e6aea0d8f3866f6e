/** Exact recovery, and stores that leave the core only in program order and are never taken back. */
module CoreSafety {
  import opened Words
  import opened Isa
  import opened Core
  import opened CoreInv
  import opened CoreSteps
  import opened CoreMemory
  import opened CoreExec
  import opened CoreRecover
  import opened CoreRun
  import opened CoreTheorems

  // ---------------------------------------------------------------- recovery is exact

  /** Is `tag` the tag of one of the `i + 1` oldest in-flight instructions? */
  predicate NoYounger(c: Config, s: Core, i: nat, tag: int) {
    0 <= Age(s.head, c.cap, tag) <= i
  }

  /** What a misprediction leaves of each component, as the code computes it. */
  lemma {:induction false} ResolveFields(c: Config, s: Core, k: nat)
    requires CanResolve(c, s, k) && IsMispredict(c, s, k)
    ensures var u, i := Resolve(c, s, k), Age(s.head, c.cap, s.fu[k].tag);
            && u.fu == Without(s.fu[..k] + s.fu[k + 1..], KillTags(c, s, i))
            && u.wake == Without(s.wake, KillTags(c, s, i))
            && u.ck == s.ck - KillTags(c, s, i)
            && u.rs == s.rs - KillIds(s, i)
  {
    var i := Age(s.head, c.cap, s.fu[k].tag);
    var s1 := s.(fu := s.fu[..k] + s.fu[k + 1..]);
    assert KillTags(c, s1, i) == KillTags(c, s, i);
    assert KillIds(s1, i) == KillIds(s, i);
  }

  lemma {:induction false} KillIdsAre(s: Core, i: nat)
    requires i < |s.st| == |s.dy| && RsOk(s.st, s.dy, s.rs) && IdsOk(s.dy, s.nextId)
    ensures forall id :: id in s.rs ==> (id in KillIds(s, i) <==> id > s.dy[i].id)
  {
    forall id | id in s.rs ensures id in KillIds(s, i) <==> id > s.dy[i].id {
      var j :| 0 <= j < |s.dy| && s.dy[j].id == id;
    }
  }

  /** Filtering by the killed tags keeps exactly what belongs to no younger entry. */
  lemma {:induction false} KeptBeats(c: Config, s: Core, i: nat, beats: seq<Beat>)
    requires i < |s.st| == |s.dy| <= c.cap && s.head < c.cap
    requires forall b :: b in beats ==> InFlight(c, s, b.tag)
    ensures forall b :: b in Without(beats, KillTags(c, s, i)) <==> b in beats && NoYounger(c, s, i, b.tag)
  {
    forall b ensures b in Without(beats, KillTags(c, s, i)) <==> b in beats && NoYounger(c, s, i, b.tag) {
      WithoutIn(beats, KillTags(c, s, i), b);
      if b in beats {
        Killed(c, s, i, b.tag);
      }
    }
  }

  lemma {:induction false} KeptTags(c: Config, s: Core, i: nat)
    requires i < |s.st| == |s.dy| <= c.cap && s.head < c.cap && CkOk(c, s.head, s.st, s.ck)
    ensures forall tag :: tag in s.ck ==> (tag in KillTags(c, s, i) <==> !NoYounger(c, s, i, tag))
  {
    hide Exec, SpecAt;
    forall tag | tag in s.ck ensures tag in KillTags(c, s, i) <==> !NoYounger(c, s, i, tag) {
      Killed(c, s, i, tag);
    }
  }

  ghost predicate InFlight(c: Config, s: Core, tag: int) {
    0 <= tag < c.cap && 0 <= Age(s.head, c.cap, tag) < |s.st|
  }

  lemma {:induction false} BeatsInFlight(c: Config, g: Arch, s: Core)
    requires Inv(c, g, s)
    ensures forall b :: b in s.fu ==> InFlight(c, s, b.tag)
    ensures forall b :: b in s.wake ==> InFlight(c, s, b.tag)
  {
    forall b | b in s.fu ensures InFlight(c, s, b.tag) {
      assert BeatOk(c, g, s.st, s.dy, s.head, b);
    }
    forall b | b in s.wake ensures InFlight(c, s, b.tag) {
      assert WakeBeatOk(c, s.dy, s.head, b);
    }
  }

  /** The surviving entries: the branch, now resolved, and everything older, those with ids no greater than its own. */
  ghost predicate FlightKept(t: Core, i: nat, v: Word, u: Core)
    requires i < |t.dy| == |t.st|
  {
    && u.st == t.st[..i + 1] && u.dy == t.dy[..i] + [t.dy[i].(done := true, value := v)]
    && forall j :: 0 <= j < |t.dy| ==> (t.dy[j].id <= t.dy[i].id <==> j <= i)
  }

  ghost predicate StationsKept(t: Core, id: nat, u: Core) {
    && (forall n :: n in u.rs <==> n in t.rs && n <= id)
    && (forall n :: n in u.rs ==> u.rs[n] == t.rs[n])
  }

  ghost predicate BeatsKept(c: Config, t: Core, i: nat, tag: int, u: Core) {
    && (forall b :: b in u.fu <==> b in t.fu && b.tag != tag && NoYounger(c, t, i, b.tag))
    && (forall b :: b in u.wake <==> b in t.wake && NoYounger(c, t, i, b.tag))
  }

  ghost predicate CheckpointsKept(c: Config, t: Core, i: nat, u: Core) {
    && (forall m :: m in u.ck <==> m in t.ck && NoYounger(c, t, i, m))
    && (forall m :: m in u.ck ==> u.ck[m] == t.ck[m])
  }

  ghost predicate RestUnchanged(t: Core, u: Core) {
    && u.head == t.head && u.arf == t.arf && u.main == t.main && u.sb == t.sb && u.freed == t.freed
    && u.nextId == t.nextId && u.commits == t.commits && u.phase == t.phase
    && u.squashed == t.squashed + |t.st| - |u.st|
  }

  /** What recovery from the misprediction carried by `fu[k]` leaves, in terms of ages and instruction ids. */
  ghost predicate ExactlyRecovered(c: Config, t: Core, k: nat, u: Core)
    requires CanResolve(c, t, k)
  {
    var i := Age(t.head, c.cap, t.fu[k].tag);
    && FlightKept(t, i, t.fu[k].val, u)
    && StationsKept(t, t.dy[i].id, u)
    && BeatsKept(c, t, i, t.fu[k].tag, u)
    && CheckpointsKept(c, t, i, u)
    && NamesYoungest(c, u, i + 1, u.rat)
    && u.front == [] && u.fetchPc == NextPc(t.st[i].pc, t.st[i].instr, t.fu[k].val != 0)
    && RestUnchanged(t, u)
  }

  lemma {:induction false} RemovedBeat(fu: seq<Beat>, k: nat)
    requires k < |fu| && DistinctTags(fu)
    ensures forall b :: b in fu[..k] + fu[k + 1..] <==> b in fu && b.tag != fu[k].tag
  {
    forall b ensures b in fu[..k] + fu[k + 1..] <==> b in fu && b.tag != fu[k].tag {
      if b in fu && b.tag != fu[k].tag {
        BeatElsewhere(fu, k, b);
      }
    }
  }

  /** Early recovery removes precisely what is younger than the branch, and the rename map is the one just after
    * the branch; the saved checkpoint always exists, so the snapshot kept with the branch is never needed. */
  lemma {:induction false} RecoveryIsExact(c: Config, image: seq<Lanes>, pc: Pc, run: seq<Step>, t: Core, k: nat)
    requires Domain(c, image, pc) && Reaches(c, Init(c, image, pc), run, t)
    requires CanResolve(c, t, k) && IsMispredict(c, t, k)
    ensures t.fu[k].tag in t.ck && Resolve(c, t, k).rat == t.ck[t.fu[k].tag]
    ensures ExactlyRecovered(c, t, k, Resolve(c, t, k))
  {
    var g := RunN(c, Reset(c, image, pc), t.commits);
    Reachable(c, image, pc, run, t);
    ResolveMap(c, g, t, k);
    ResolveIsExact(c, g, t, k);
  }

  lemma {:induction false} ResolveShape(c: Config, s: Core, k: nat)
    requires CanResolve(c, s, k)
    ensures var s', i := Resolve(c, s, k), Age(s.head, c.cap, s.fu[k].tag);
            if IsMispredict(c, s, k) then s'.st == s.st[..i + 1] && s'.dy == Complete(s.dy, i, s.fu[k].val)[..i + 1]
            else s'.st == s.st && s'.dy == Complete(s.dy, i, s.fu[k].val)
  {
    if IsMispredict(c, s, k) {
      ResolveWrongIsRecover(c, s, k);
    }
  }

  lemma {:induction false} ResolveMap(c: Config, g: Arch, t: Core, k: nat)
    requires Inv(c, g, t) && CanResolve(c, t, k) && IsMispredict(c, t, k)
    ensures t.fu[k].tag in t.ck && Resolve(c, t, k).rat == t.ck[t.fu[k].tag]
  {
    var i := Age(t.head, c.cap, t.fu[k].tag);
    BeatIsIssued(c, g, t.st, t.dy, t.head, t.fu, t.fu[k]);
    ResolveWrongIsRecover(c, t, k);
    RecoverRat(c, Resolved(c, t, k), i, NextPc(t.st[i].pc, t.st[i].instr, t.fu[k].val != 0));
  }

  lemma {:induction false} ResolveNames(c: Config, g: Arch, t: Core, k: nat)
    requires Inv(c, g, t) && CanResolve(c, t, k) && IsMispredict(c, t, k)
    ensures var u, i := Resolve(c, t, k), Age(t.head, c.cap, t.fu[k].tag);
            |u.st| == i + 1 && NamesYoungest(c, u, i + 1, u.rat)
  {
    ResolveShape(c, t, k);
    ResolveWrongKeeps(c, g, t, k);
    MapNamesYoungest(c, Resolve(c, t, k), |Resolve(c, t, k).st|, Resolve(c, t, k).rat);
  }

  lemma {:induction false} ResolveBeats(c: Config, g: Arch, t: Core, k: nat)
    requires Inv(c, g, t) && CanResolve(c, t, k) && IsMispredict(c, t, k)
    ensures BeatsKept(c, t, Age(t.head, c.cap, t.fu[k].tag), t.fu[k].tag, Resolve(c, t, k))
  {
    var i := Age(t.head, c.cap, t.fu[k].tag);
    ResolveFields(c, t, k);
    BeatsInFlight(c, g, t);
    RemovedBeat(t.fu, k);
    KeptBeats(c, t, i, t.fu[..k] + t.fu[k + 1..]);
    KeptBeats(c, t, i, t.wake);
  }

  lemma {:induction false} ResolveStations(c: Config, g: Arch, t: Core, k: nat)
    requires Inv(c, g, t) && CanResolve(c, t, k) && IsMispredict(c, t, k)
    ensures var i := Age(t.head, c.cap, t.fu[k].tag);
            StationsKept(t, t.dy[i].id, Resolve(c, t, k)) && CheckpointsKept(c, t, i, Resolve(c, t, k))
  {
    var i := Age(t.head, c.cap, t.fu[k].tag);
    ResolveFields(c, t, k);
    KillIdsAre(t, i);
    KeptTags(c, t, i);
  }

  lemma {:induction false} ResolveRest(c: Config, t: Core, k: nat)
    requires CanResolve(c, t, k) && IsMispredict(c, t, k)
    ensures var u, i := Resolve(c, t, k), Age(t.head, c.cap, t.fu[k].tag);
            && RestUnchanged(t, u)
            && u.front == [] && u.fetchPc == NextPc(t.st[i].pc, t.st[i].instr, t.fu[k].val != 0)
  {
  }

  lemma {:induction false} ResolveFlight(c: Config, t: Core, k: nat)
    requires CanResolve(c, t, k) && IsMispredict(c, t, k) && IdsOk(t.dy, t.nextId)
    ensures FlightKept(t, Age(t.head, c.cap, t.fu[k].tag), t.fu[k].val, Resolve(c, t, k))
  {
    ResolveShape(c, t, k);
  }

  lemma {:induction false} ResolveIsExact(c: Config, g: Arch, t: Core, k: nat)
    requires Inv(c, g, t) && CanResolve(c, t, k) && IsMispredict(c, t, k)
    ensures ExactlyRecovered(c, t, k, Resolve(c, t, k))
  {
    ResolveNames(c, g, t, k);
    ResolveBeats(c, g, t, k);
    ResolveStations(c, g, t, k);
    ResolveFlight(c, t, k);
    ResolveRest(c, t, k);
  }

  // ---------------------------------------------------------------- committed stores only

  /** The stores a run hands to the store buffer, in the order it does so. */
  function Permitted(c: Config, s: Core, run: seq<Step>): seq<SbEntry>
    decreases |run|
  {
    if run == [] || !Enabled(c, s, run[0]) then []
    else PermittedBy(c, s, run[0]) + Permitted(c, Apply(c, s, run[0]), run[1..])
  }

  function PermittedBy(c: Config, s: Core, e: Step): seq<SbEntry>
    requires Enabled(c, s, e)
  {
    if e.DoEnqueueStore? then [StoreEntry(c, s.st[e.i], s.dy[e.i])] else []
  }

  /** The write an in-order store makes. */
  function InOrderEntry(c: Config, a: Arch, ins: Instr): SbEntry {
    SbEntry(Address(a, ins), StoreLanes(c.byteAddressed, ReadReg(a.regs, ins.dest), ins.size, Address(a, ins)),
            AccessMask(c.byteAddressed, ins.size, Address(a, ins)))
  }

  function EntriesOf(c: Config, a: Arch, ins: Instr): seq<SbEntry> {
    if ins.IsStore() then [InOrderEntry(c, a, ins)] else []
  }

  /** The writes of the first `n` in-order instructions. */
  function InOrderStores(c: Config, a0: Arch, n: nat): seq<SbEntry> {
    if n == 0 then []
    else
      var a := RunN(c, a0, n - 1);
      InOrderStores(c, a0, n - 1) + if a.pc in c.prog then EntriesOf(c, a, c.prog[a.pc]) else []
  }

  /** The writes of the permitted stores among the first `n` entries in flight. */
  ghost function DoneStores(c: Config, g: Arch, st: seq<Fetched>, dy: seq<Dyn>, n: nat): seq<SbEntry>
    requires n <= |st| && n <= |dy|
  {
    if n == 0 then [] else DoneStores(c, g, st, dy, n - 1) + DoneEntries(c, g, st, dy, n - 1)
  }

  ghost function DoneEntries(c: Config, g: Arch, st: seq<Fetched>, dy: seq<Dyn>, i: nat): seq<SbEntry>
    requires i < |st| && i < |dy|
  {
    if dy[i].done then EntriesOf(c, SpecAt(c, g, st, i), st[i].instr) else []
  }

  /** Every permitted store of the first flight is still there in the second. */
  ghost predicate StoresStay(st: seq<Fetched>, dy: seq<Dyn>, st': seq<Fetched>, dy': seq<Dyn>)
    requires |st| == |dy| && |st'| == |dy'|
  {
    forall j :: 0 <= j < |st| && st[j].instr.IsStore() && dy[j].done ==>
      j < |st'| && st'[j] == st[j] && dy'[j].done && dy'[j].id == dy[j].id
  }

  /** Every permitted store of the second flight was one in the first. */
  ghost predicate NoNewStores(st: seq<Fetched>, dy: seq<Dyn>, st': seq<Fetched>, dy': seq<Dyn>)
    requires |st| == |dy| && |st'| == |dy'|
  {
    forall j :: 0 <= j < |st'| && st'[j].instr.IsStore() && dy'[j].done ==>
      j < |st| && st'[j] == st[j] && dy[j].done
  }

  /** One of the two flights is a prefix of the other. */
  ghost predicate SamePath(st: seq<Fetched>, st': seq<Fetched>) {
    st <= st' || st' <= st
  }

  /** The same stores are permitted on both sides of a step. */
  ghost predicate SamePermitted(st: seq<Fetched>, dy: seq<Dyn>, st': seq<Fetched>, dy': seq<Dyn>) {
    && |st| == |dy| && |st'| == |dy'| && SamePath(st, st')
    && StoresStay(st, dy, st', dy') && NoNewStores(st, dy, st', dy')
  }

  lemma {:induction false} SquashKeepsPermitted(st: seq<Fetched>, dy: seq<Dyn>, i: nat, v: Word)
    requires i < |st| == |dy| && !dy[i].done && st[i].instr.IsControl()
    requires forall j :: i < j < |st| && st[j].instr.IsStore() ==> !dy[j].done
    ensures SamePermitted(st, dy, st[..i + 1], Complete(dy, i, v)[..i + 1])
    ensures SamePermitted(st, dy, st, Complete(dy, i, v))
  {
  }

  lemma {:induction false} ResolveStores(c: Config, g: Arch, s: Core, k: nat)
    requires Inv(c, g, s) && CanResolve(c, s, k)
    ensures SamePermitted(s.st, s.dy, Resolve(c, s, k).st, Resolve(c, s, k).dy)
  {
    BranchIsUnresolved(c, g, s, k);
    BranchStores(c, s, k);
  }

  lemma {:induction false} BranchStores(c: Config, s: Core, k: nat)
    requires CanResolve(c, s, k)
    requires var i := Age(s.head, c.cap, s.fu[k].tag);
             !s.dy[i].done && forall j :: i < j < |s.st| && s.st[j].instr.IsStore() ==> !s.dy[j].done
    ensures SamePermitted(s.st, s.dy, Resolve(c, s, k).st, Resolve(c, s, k).dy)
  {
    ResolveShape(c, s, k);
    SquashKeepsPermitted(s.st, s.dy, Age(s.head, c.cap, s.fu[k].tag), s.fu[k].val);
  }

  lemma {:induction false} BranchIsUnresolved(c: Config, g: Arch, s: Core, k: nat)
    requires Inv(c, g, s) && CanResolve(c, s, k)
    ensures var i := Age(s.head, c.cap, s.fu[k].tag);
            !s.dy[i].done && forall j :: i < j < |s.st| && s.st[j].instr.IsStore() ==> !s.dy[j].done
  {
    BeatIsIssued(c, g, s.st, s.dy, s.head, s.fu, s.fu[k]);
    StoresBehindBranch(c, g, s, Age(s.head, c.cap, s.fu[k].tag));
  }

  lemma {:induction false} SameFlight(st: seq<Fetched>, dy: seq<Dyn>, dy': seq<Dyn>)
    requires |st| == |dy| == |dy'|
    requires forall j :: 0 <= j < |st| && st[j].instr.IsStore() ==> dy'[j].done == dy[j].done && dy'[j].id == dy[j].id
    ensures SamePermitted(st, dy, st, dy')
  {
  }

  lemma {:induction false} CompleteStores(st: seq<Fetched>, dy: seq<Dyn>, i: nat, v: Word)
    requires i < |st| == |dy| && !st[i].instr.IsStore()
    ensures SamePermitted(st, dy, st, Complete(dy, i, v))
  {
    SameFlight(st, dy, Complete(dy, i, v));
  }

  lemma {:induction false} BroadcastStores(c: Config, g: Arch, s: Core, k: nat)
    requires Inv(c, g, s) && CanBroadcast(c, s, k)
    ensures SamePermitted(s.st, s.dy, Broadcast(c, s, k).st, Broadcast(c, s, k).dy)
  {
    BeatIsIssued(c, g, s.st, s.dy, s.head, s.fu, s.fu[k]);
    CompleteStores(s.st, s.dy, Age(s.head, c.cap, s.fu[k].tag), s.fu[k].val);
  }

  lemma {:induction false} LoadStores(c: Config, g: Arch, s: Core, i: nat)
    requires Inv(c, g, s) && CanBroadcastLoad(s, i)
    ensures SamePermitted(s.st, s.dy, BroadcastLoad(c, s, i).st, BroadcastLoad(c, s, i).dy)
  {
    assert ValuesOk(c, g, s.st, s.dy, i);
    CompleteStores(s.st, s.dy, i, s.dy[i].load.buf);
  }

  lemma {:induction false} RenameStores(c: Config, s: Core)
    requires CanRename(c, s)
    ensures SamePermitted(s.st, s.dy, Rename(c, s).st, Rename(c, s).dy)
  {
  }

  lemma {:induction false} OtherStores(c: Config, s: Core, e: Step)
    requires Enabled(c, s, e) && |s.st| == |s.dy|
    requires e.DoStartCycle? || e.DoNextPhase? || e.DoDrain? || e.DoFillLoad? || e.DoComputeAddr? || e.DoIssue?
             || e.DoDispatchLoad? || e.DoFetch?
    ensures SamePermitted(s.st, s.dy, Apply(c, s, e).st, Apply(c, s, e).dy)
  {
    hide Exec;
    WakeAllWoken(s.st, s.dy, s.wake);
    SameFlight(s.st, s.dy, Apply(c, s, e).dy);
  }

  /** Only store permission makes a store done, and only commit removes a done one. */
  lemma {:induction false} StepStores(c: Config, g: Arch, s: Core, e: Step)
    requires Inv(c, g, s) && Enabled(c, s, e) && !e.DoCommitHead? && !e.DoEnqueueStore?
    ensures SamePermitted(s.st, s.dy, Apply(c, s, e).st, Apply(c, s, e).dy)
  {
    if e.DoResolve? {
      ResolveStores(c, g, s, e.k);
    } else if e.DoBroadcast? {
      BroadcastStores(c, g, s, e.k);
    } else if e.DoBroadcastLoad? {
      LoadStores(c, g, s, e.i);
    } else if e.DoRename? {
      RenameStores(c, s);
    } else {
      OtherStores(c, s, e);
    }
  }

  lemma {:induction false} DoneStoresFrame(c: Config, g: Arch, st: seq<Fetched>, dy: seq<Dyn>, st': seq<Fetched>,
                                           dy': seq<Dyn>, n: nat)
    requires SamePermitted(st, dy, st', dy') && n <= |st| && n <= |st'|
    ensures DoneStores(c, g, st', dy', n) == DoneStores(c, g, st, dy, n)
  {
    hide Exec, ResultOf, SpecAt, AccessMask, StoreLanes, LoadExtend;
    if n > 0 {
      DoneStoresFrame(c, g, st, dy, st', dy', n - 1);
      SameEntries(c, g, st, dy, st', dy', n - 1);
    }
  }

  lemma {:induction false} SameEntries(c: Config, g: Arch, st: seq<Fetched>, dy: seq<Dyn>, st': seq<Fetched>,
                                       dy': seq<Dyn>, i: nat)
    requires SamePermitted(st, dy, st', dy') && i < |st| && i < |st'|
    ensures DoneEntries(c, g, st', dy', i) == DoneEntries(c, g, st, dy, i)
  {
    SpecAlong(c, g, st, st', i);
    SameDone(st, dy, st', dy', i);
  }

  lemma {:induction false} SameDone(st: seq<Fetched>, dy: seq<Dyn>, st': seq<Fetched>, dy': seq<Dyn>, i: nat)
    requires SamePermitted(st, dy, st', dy') && i < |st| && i < |st'|
    ensures st'[i].instr.IsStore() && st[i].instr.IsStore() ==> dy'[i].done == dy[i].done
  {
  }

  lemma {:induction false} SpecAlong(c: Config, g: Arch, st: seq<Fetched>, st': seq<Fetched>, i: nat)
    requires SamePath(st, st') && i < |st| && i < |st'|
    ensures SpecAt(c, g, st', i) == SpecAt(c, g, st, i) && st'[i] == st[i]
  {
    if st <= st' {
      assert st' == st + st'[|st|..];
      SpecPrefix(c, g, st, st'[|st|..], i);
    } else {
      assert st == st' + st[|st'|..];
      SpecPrefix(c, g, st', st[|st'|..], i);
    }
  }

  lemma {:induction false} DoneStoresStop(c: Config, g: Arch, st: seq<Fetched>, dy: seq<Dyn>, m: nat, n: nat)
    requires m <= n <= |st| == |dy|
    requires forall j :: m <= j < n && st[j].instr.IsStore() ==> !dy[j].done
    ensures DoneStores(c, g, st, dy, n) == DoneStores(c, g, st, dy, m)
  {
    hide Exec;
    if m < n {
      DoneStoresStop(c, g, st, dy, m, n - 1);
    }
  }

  /** Where neither permission nor commit happens, the permitted stores in flight are the same. */
  lemma {:induction false} DoneStoresSame(c: Config, g: Arch, st: seq<Fetched>, dy: seq<Dyn>, st': seq<Fetched>,
                                          dy': seq<Dyn>)
    requires SamePermitted(st, dy, st', dy')
    ensures DoneStores(c, g, st', dy', |st'|) == DoneStores(c, g, st, dy, |st|)
  {
    var n := if |st| < |st'| then |st| else |st'|;
    DoneStoresFrame(c, g, st, dy, st', dy', n);
    DoneStoresStop(c, g, st, dy, n, |st|);
    DoneStoresStop(c, g, st', dy', n, |st'|);
  }

  lemma {:induction false} DoneStoresPrefix(c: Config, g: Arch, st: seq<Fetched>, dy: seq<Dyn>, dy': seq<Dyn>, n: nat)
    requires n <= |st| == |dy| == |dy'| && forall j :: 0 <= j < n ==> dy'[j] == dy[j]
    ensures DoneStores(c, g, st, dy', n) == DoneStores(c, g, st, dy, n)
  {
    if n > 0 {
      DoneStoresPrefix(c, g, st, dy, dy', n - 1);
    }
  }

  /** A ready store hands over its in-order write. */
  lemma {:induction false} EntryIsInOrder(c: Config, g: Arch, s: Core, i: nat)
    requires CanEnqueueStore(s, i) && AllValues(c, g, s.st, s.dy) && AllSources(c, g, s.st, s.dy, s.head, s.wake)
    ensures StoreEntry(c, s.st[i], s.dy[i]) == InOrderEntry(c, SpecAt(c, g, s.st, i), s.st[i].instr)
  {
    KnownStore(c, g, s.st, s.dy, s.head, s.wake, i);
  }

  lemma {:induction false} DoneStoresPlus(c: Config, g: Arch, st: seq<Fetched>, dy: seq<Dyn>, i: nat)
    requires i < |st| == |dy| && !dy[i].done && AllValues(c, g, st, dy)
    ensures DoneStores(c, g, st, Complete(dy, i, 0), |st|)
         == DoneStores(c, g, st, dy, |st|) + EntriesOf(c, SpecAt(c, g, st, i), st[i].instr)
  {
    var dy' := Complete(dy, i, 0);
    forall j | i < j < |st| && st[j].instr.IsStore() ensures !dy[j].done {
      assert ValuesOk(c, g, st, dy, j);
    }
    DoneStoresStop(c, g, st, dy, i, |st|);
    DoneStoresStop(c, g, st, dy', i + 1, |st|);
    DoneStoresPrefix(c, g, st, dy, dy', i);
  }

  lemma {:induction false} DoneEntriesShift(c: Config, g: Arch, st: seq<Fetched>, dy: seq<Dyn>, i: nat)
    requires 0 < i < |st| == |dy| && g.pc == st[0].pc
    ensures DoneEntries(c, Exec(c, g, st[0].instr), st[1..], dy[1..], i - 1) == DoneEntries(c, g, st, dy, i)
  {
    SpecShift(c, g, st, i);
    assert st[1..][i - 1] == st[i] && dy[1..][i - 1] == dy[i];
  }

  lemma {:induction false} DoneStoresShift(c: Config, g: Arch, st: seq<Fetched>, dy: seq<Dyn>, n: nat)
    requires 0 < n <= |st| == |dy| && dy[0].done && g.pc == st[0].pc
    ensures EntriesOf(c, g, st[0].instr) + DoneStores(c, Exec(c, g, st[0].instr), st[1..], dy[1..], n - 1)
         == DoneStores(c, g, st, dy, n)
  {
    if n == 1 {
      assert DoneStores(c, g, st, dy, 0) == [];
    } else {
      DoneStoresShift(c, g, st, dy, n - 1);
      DoneEntriesShift(c, g, st, dy, n - 1);
    }
  }

  lemma {:induction false} HeadPc(c: Config, g: Arch, s: Core)
    requires Inv(c, g, s) && s.st != []
    ensures s.st[0].pc == g.pc && g.pc in c.prog && c.prog[g.pc] == s.st[0].instr
  {
    FlightPcAt(g.pc, s.st, s.dy, 0);
    assert FetchedOk(c, s.st[0]);
  }

  lemma {:induction false} CommitMoves(c: Config, a0: Arch, s: Core, k: nat)
    requires k == s.commits + 1 && CanCommit(s)
    requires var g := RunN(c, a0, s.commits); s.st[0].pc == g.pc && g.pc in c.prog && c.prog[g.pc] == s.st[0].instr
    ensures InOrderStores(c, a0, k) + DoneStores(c, RunN(c, a0, k), s.st[1..], s.dy[1..], |s.st| - 1)
         == InOrderStores(c, a0, s.commits) + DoneStores(c, RunN(c, a0, s.commits), s.st, s.dy, |s.st|)
  {
    hide Exec;
    var g, ins := RunN(c, a0, s.commits), s.st[0].instr;
    OneMore(c, a0, s.commits, k);
    DoneStoresShift(c, g, s.st, s.dy, |s.st|);
    Regroup(InOrderStores(c, a0, s.commits), EntriesOf(c, g, ins), DoneStores(c, RunN(c, a0, k), s.st[1..], s.dy[1..],
        |s.st| - 1));
  }

  lemma {:induction false} OneMore(c: Config, a0: Arch, n: nat, k: nat)
    requires k == n + 1 && RunN(c, a0, n).pc in c.prog
    ensures var a := RunN(c, a0, n);
            && RunN(c, a0, k) == Exec(c, a, c.prog[a.pc])
            && InOrderStores(c, a0, k) == InOrderStores(c, a0, n) + EntriesOf(c, a, c.prog[a.pc])
  {
  }

  /** Writes of the committed instructions and of the permitted stores still in flight. */
  ghost function History(c: Config, a0: Arch, s: Core): seq<SbEntry>
    requires |s.st| == |s.dy|
  {
    InOrderStores(c, a0, s.commits) + DoneStores(c, RunN(c, a0, s.commits), s.st, s.dy, |s.st|)
  }

  lemma {:induction false} EnqueueHistory(c: Config, a0: Arch, s: Core, i: nat)
    requires Inv(c, RunN(c, a0, s.commits), s) && CanEnqueueStore(s, i)
    ensures History(c, a0, EnqueueStore(c, s, i)) == History(c, a0, s) + [StoreEntry(c, s.st[i], s.dy[i])]
  {
    var g := RunN(c, a0, s.commits);
    EntryIsInOrder(c, g, s, i);
    DoneStoresPlus(c, g, s.st, s.dy, i);
  }

  lemma {:induction false} OtherHistory(c: Config, a0: Arch, s: Core, s': Core)
    requires SamePermitted(s.st, s.dy, s'.st, s'.dy) && s'.commits == s.commits
    ensures History(c, a0, s') == History(c, a0, s)
  {
    DoneStoresSame(c, RunN(c, a0, s.commits), s.st, s.dy, s'.st, s'.dy);
  }

  lemma {:induction false} CommitShape(c: Config, s: Core)
    requires CanCommit(s)
    ensures var s' := CommitHead(c, s); s'.st == s.st[1..] && s'.dy == s.dy[1..] && s'.commits == s.commits + 1
  {
  }

  lemma {:induction false} CommitHistory(c: Config, a0: Arch, s: Core)
    requires CanCommit(s)
    requires var g := RunN(c, a0, s.commits); s.st[0].pc == g.pc && g.pc in c.prog && c.prog[g.pc] == s.st[0].instr
    ensures History(c, a0, CommitHead(c, s)) == History(c, a0, s)
  {
    CommitShape(c, s);
    CommitMoves(c, a0, s, s.commits + 1);
  }

  lemma {:induction false} QuietHistory(c: Config, a0: Arch, s: Core, e: Step)
    requires Inv(c, RunN(c, a0, s.commits), s) && Enabled(c, s, e) && !e.DoCommitHead? && !e.DoEnqueueStore?
    ensures |Apply(c, s, e).st| == |Apply(c, s, e).dy| && History(c, a0, Apply(c, s, e)) == History(c, a0, s)
  {
    CommitCounts(c, s, e);
    StepStores(c, RunN(c, a0, s.commits), s, e);
    OtherHistory(c, a0, s, Apply(c, s, e));
  }

  /** Each step adds to the history exactly what it hands to the store buffer. */
  lemma {:induction false} StepHistory(c: Config, a0: Arch, s: Core, e: Step)
    requires Inv(c, RunN(c, a0, s.commits), s) && Enabled(c, s, e)
    ensures |Apply(c, s, e).st| == |Apply(c, s, e).dy|
    ensures History(c, a0, Apply(c, s, e)) == History(c, a0, s) + PermittedBy(c, s, e)
  {
    hide Exec;
    if e.DoCommitHead? {
      HeadPc(c, RunN(c, a0, s.commits), s);
      CommitHistory(c, a0, s);
    } else if e.DoEnqueueStore? {
      EnqueueHistory(c, a0, s, e.i);
    } else {
      QuietHistory(c, a0, s, e);
    }
  }

  lemma {:induction false} Regroup(a: seq<SbEntry>, b: seq<SbEntry>, d: seq<SbEntry>)
    ensures (a + b) + d == a + (b + d)
  {
  }

  lemma {:induction false} TracksShape(c: Config, a0: Arch, s: Core)
    requires Tracks(c, a0, s)
    ensures |s.st| == |s.dy|
  {
    assert Inv(c, RunN(c, a0, s.commits), s);
  }

  lemma {:induction false} TracksHistory(c: Config, a0: Arch, s: Core, e: Step)
    requires Tracks(c, a0, s) && Enabled(c, s, e)
    ensures |s.st| == |s.dy| && |Apply(c, s, e).st| == |Apply(c, s, e).dy|
    ensures History(c, a0, Apply(c, s, e)) == History(c, a0, s) + PermittedBy(c, s, e)
  {
    assert Inv(c, RunN(c, a0, s.commits), s);
    StepHistory(c, a0, s, e);
  }

  lemma {:induction false} RunHistory(c: Config, a0: Arch, s: Core, run: seq<Step>, t: Core)
    requires ProgOk(c) && StoresInRange(c, a0) && Tracks(c, a0, s) && Reaches(c, s, run, t)
    ensures |s.st| == |s.dy| && |t.st| == |t.dy|
    ensures History(c, a0, t) == History(c, a0, s) + Permitted(c, s, run)
    decreases |run|
  {
    TracksShape(c, a0, s);
    if run != [] {
      var s' := Apply(c, s, run[0]);
      StepTracks(c, a0, s, run[0]);
      RunHistory(c, a0, s', run[1..], t);
      TracksHistory(c, a0, s, run[0]);
      Regroup(History(c, a0, s), PermittedBy(c, s, run[0]), Permitted(c, s', run[1..]));
    }
  }

  lemma {:induction false} StoresCompose(c: Config, a: Arch, k: nat, i: nat, n: nat)
    requires n == k + i
    ensures InOrderStores(c, a, n) == InOrderStores(c, a, k) + InOrderStores(c, RunN(c, a, k), i)
    decreases i
  {
    hide Exec;
    if i > 0 {
      StoresCompose(c, a, k, i - 1, n - 1);
      RunCompose(c, a, k, i - 1, n - 1);
    }
  }

  /** The writes of the done prefix are those of that many in-order instructions. */
  lemma {:induction false} DoneStoresInOrder(c: Config, g: Arch, st: seq<Fetched>, dy: seq<Dyn>, i: nat)
    requires i <= |st| == |dy| && AllFetched(c, st)
    requires forall j :: 0 <= j < i ==> dy[j].done
    requires forall j {:trigger FetchedAt(c, g, st[j], j)} :: 0 <= j < i ==> FetchedAt(c, g, st[j], j)
    ensures InOrderStores(c, g, i) == DoneStores(c, g, st, dy, i)
  {
    hide Exec;
    if i > 0 {
      DoneStoresInOrder(c, g, st, dy, i - 1);
      TrackIsInOrder(c, g, st, i - 1);
      assert FetchedOk(c, st[i - 1]) && FetchedAt(c, g, st[i - 1], i - 1);
      assert DoneEntries(c, g, st, dy, i - 1) == EntriesOf(c, RunN(c, g, i - 1), st[i - 1].instr);
    }
  }

  /** Committed stores only: what a run has handed to the store buffer is exactly the in-order stores, in program
    * order, of the committed instructions and the completed ones right behind them. */
  lemma {:induction false} StoresInProgramOrder(c: Config, image: seq<Lanes>, pc: Pc, run: seq<Step>, t: Core, n: nat)
    requires Domain(c, image, pc) && Reaches(c, Init(c, image, pc), run, t)
    requires n == t.commits + DonePrefix(t.dy)
    ensures Permitted(c, Init(c, image, pc), run) == InOrderStores(c, Reset(c, image, pc), n)
  {
    var a0 := Reset(c, image, pc);
    Reachable(c, image, pc, run, t);
    FromReset(c, image, pc, run, t);
    HistoryIs(c, a0, t, n);
  }

  lemma {:induction false} NoHistory(c: Config, image: seq<Lanes>, pc: Pc)
    ensures var s := Init(c, image, pc); |s.st| == |s.dy| && History(c, Reset(c, image, pc), s) == []
  {
  }

  lemma {:induction false} FromReset(c: Config, image: seq<Lanes>, pc: Pc, run: seq<Step>, t: Core)
    requires Domain(c, image, pc) && Reaches(c, Init(c, image, pc), run, t)
    ensures |t.st| == |t.dy| && History(c, Reset(c, image, pc), t) == Permitted(c, Init(c, image, pc), run)
  {
    NoHistory(c, image, pc);
    InitTracks(c, image, pc);
    RunHistory(c, Reset(c, image, pc), Init(c, image, pc), run, t);
  }

  lemma {:induction false} HistoryIs(c: Config, a0: Arch, s: Core, n: nat)
    requires Inv(c, RunN(c, a0, s.commits), s) && n == s.commits + DonePrefix(s.dy)
    ensures History(c, a0, s) == InOrderStores(c, a0, n)
  {
    var g := RunN(c, a0, s.commits);
    DoneFetchedInOrder(c, g, s.st, s.dy, DonePrefix(s.dy));
    DoneStoresInOrder(c, g, s.st, s.dy, DonePrefix(s.dy));
    StoresCompose(c, a0, s.commits, DonePrefix(s.dy), n);
    HistoryStops(c, g, s.st, s.dy);
  }

  lemma {:induction false} HistoryStops(c: Config, g: Arch, st: seq<Fetched>, dy: seq<Dyn>)
    requires |st| == |dy| && AllValues(c, g, st, dy)
    ensures DoneStores(c, g, st, dy, |st|) == DoneStores(c, g, st, dy, DonePrefix(dy))
  {
    forall j | DonePrefix(dy) <= j < |st| && st[j].instr.IsStore() ensures !dy[j].done {
      StoreNotDone(c, g, st, dy, j);
    }
    DoneStoresStop(c, g, st, dy, DonePrefix(dy), |st|);
  }

  // ---------------------------------------------------------------- the store buffer is a queue

  function Drains(run: seq<Step>): nat {
    if run == [] then 0 else (if run[0].DoDrain? then 1 else 0) + Drains(run[1..])
  }

  ghost predicate IsTail(all: seq<SbEntry>, n: nat, sb: seq<SbEntry>) {
    n <= |all| && sb == all[n..]
  }

  lemma {:induction false} TailAfterDrain(sb: seq<SbEntry>, later: seq<SbEntry>, n: nat, end: seq<SbEntry>)
    requires sb != [] && IsTail(sb[1..] + later, n, end)
    ensures IsTail(sb + ([] + later), 1 + n, end)
  {
    assert (sb + later)[1..] == sb[1..] + later;
  }

  lemma {:induction false} StepBuffer(c: Config, s: Core, e: Step)
    requires Enabled(c, s, e)
    ensures e.DoDrain? ==> s.sb != [] && Apply(c, s, e).sb == s.sb[1..] && PermittedBy(c, s, e) == []
    ensures !e.DoDrain? ==> Apply(c, s, e).sb == s.sb + PermittedBy(c, s, e)
  {
  }

  /** The store buffer holds exactly the handed-over stores that have not drained, in order. */
  lemma {:induction false} BufferIsQueue(c: Config, s: Core, run: seq<Step>, t: Core)
    requires Reaches(c, s, run, t)
    ensures IsTail(s.sb + Permitted(c, s, run), Drains(run), t.sb)
    decreases |run|
  {
    if run != [] {
      var s' := Apply(c, s, run[0]);
      BufferIsQueue(c, s', run[1..], t);
      StepBuffer(c, s, run[0]);
      if run[0].DoDrain? {
        TailAfterDrain(s.sb, Permitted(c, s', run[1..]), Drains(run[1..]), t.sb);
      } else {
        Regroup(s.sb, PermittedBy(c, s, run[0]), Permitted(c, s', run[1..]));
      }
    }
  }

  // ---------------------------------------------------------------- a permitted store is never squashed

  /** Entry `i` of `t` is the completed instruction `f` with identity `id`; a negative `i` means it has committed. */
  ghost predicate Kept(f: Fetched, id: nat, i: int, t: Core) {
    i < 0 || (i < |t.st| == |t.dy| && t.st[i] == f && t.dy[i].done && t.dy[i].id == id)
  }

  lemma {:induction false} StoreSurvivesStep(c: Config, a0: Arch, s: Core, e: Step, i: nat)
    requires Tracks(c, a0, s) && Enabled(c, s, e) && !e.DoCommitHead? && !e.DoEnqueueStore?
    requires i < |s.st| == |s.dy| && s.st[i].instr.IsStore() && s.dy[i].done
    ensures Kept(s.st[i], s.dy[i].id, i, Apply(c, s, e))
  {
    assert Inv(c, RunN(c, a0, s.commits), s);
    StepStores(c, RunN(c, a0, s.commits), s, e);
  }

  lemma {:induction false} StoreSurvives(c: Config, a0: Arch, s: Core, e: Step, i: nat)
    requires Tracks(c, a0, s) && Enabled(c, s, e)
    requires i < |s.st| == |s.dy| && s.st[i].instr.IsStore() && s.dy[i].done
    ensures Kept(s.st[i], s.dy[i].id, i - (if e.DoCommitHead? then 1 else 0), Apply(c, s, e))
  {
    if !e.DoCommitHead? && !e.DoEnqueueStore? {
      StoreSurvivesStep(c, a0, s, e, i);
    }
  }

  lemma {:induction false} CommitsGrow(c: Config, s: Core, run: seq<Step>, t: Core)
    requires Reaches(c, s, run, t)
    ensures s.commits <= t.commits
    decreases |run|
  {
    if run != [] {
      CommitCounts(c, s, run[0]);
      CommitsGrow(c, Apply(c, s, run[0]), run[1..], t);
    }
  }

  /** From the moment a store is permitted, every continuation of the run keeps it until it commits. */
  lemma {:induction false} StoreNeverSquashed(c: Config, a0: Arch, s: Core, run: seq<Step>, t: Core, i: nat, last: int)
    requires ProgOk(c) && StoresInRange(c, a0) && Tracks(c, a0, s) && Reaches(c, s, run, t)
    requires i < |s.st| == |s.dy| && s.st[i].instr.IsStore() && s.dy[i].done && last == i - (t.commits - s.commits)
    ensures Kept(s.st[i], s.dy[i].id, last, t)
    decreases |run|
  {
    if run != [] {
      var e, s' := run[0], Apply(c, s, run[0]);
      StoreSurvives(c, a0, s, e, i);
      CommitCounts(c, s, e);
      CommitsGrow(c, s', run[1..], t);
      var j := i - if e.DoCommitHead? then 1 else 0;
      if j >= 0 {
        StepTracks(c, a0, s, e);
        StoreNeverSquashed(c, a0, s', run[1..], t, j, last);
      }
    }
  }
}
