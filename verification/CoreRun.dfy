/** Whole runs of the speculative machine: commit refines in-order execution, whatever the schedule. */
module CoreRun {
  import opened Words
  import opened Isa
  import opened Core
  import opened CoreInv
  import opened CoreSteps
  import opened CoreMemory
  import opened CoreExec
  import opened CoreRecover
  import opened CoreFlight

  /** The stores that in-order execution performs stay inside memory. */
  ghost predicate StoresInRange(c: Config, a0: Arch) {
    forall k: nat :: StoreInRange(c, a0, k)
  }

  ghost predicate StoreInRange(c: Config, a0: Arch, k: nat) {
    var a := RunN(c, a0, k);
    a.pc in c.prog && c.prog[a.pc].IsStore() ==> 0 <= AccessIndex(c, a, c.prog[a.pc]) < MEMORY_WORDS
  }

  /** In-order reset state over the same memory image. */
  function Reset(c: Config, image: seq<Lanes>, pc: Pc): Arch {
    Arch(seq(c.nregs, _ => 0), map w | 0 <= w < |image| :: image[w], pc)
  }

  ghost predicate Domain(c: Config, image: seq<Lanes>, pc: Pc) {
    ProgOk(c) && |image| == MEMORY_WORDS && StoresInRange(c, Reset(c, image, pc))
  }

  lemma {:induction false} InitInv(c: Config, image: seq<Lanes>, pc: Pc)
    requires |image| == MEMORY_WORDS
    ensures Inv(c, Reset(c, image, pc), Init(c, image, pc))
  {
    var g, s := Reset(c, image, pc), Init(c, image, pc);
    MapIs(c, 0, [], 0, s.rat);
    assert FlightPc(g.pc, s.st, s.dy, 0) == pc;
  }

  // ---------------------------------------------------------------- the done prefix follows in-order execution

  /** `f` is the `i`-th instruction that in-order execution from `g` reaches. */
  ghost predicate FetchedAt(c: Config, g: Arch, f: Fetched, i: nat) {
    f.pc == RunN(c, g, i).pc
  }

  /** Entries up to `i` have been fetched along the in-order path. */
  ghost predicate OnTrack(c: Config, g: Arch, st: seq<Fetched>, i: nat)
    requires i < |st|
  {
    forall j {:trigger FetchedAt(c, g, st[j], j)} :: 0 <= j <= i ==> FetchedAt(c, g, st[j], j)
  }

  /** Running `k` instructions and then `i` more is running `n == k + i`. */
  lemma {:induction false} RunCompose(c: Config, a: Arch, k: nat, i: nat, n: nat)
    requires n == k + i
    ensures RunN(c, RunN(c, a, k), i) == RunN(c, a, n)
    decreases i
  {
    if i > 0 {
      RunCompose(c, a, k, i - 1, n - 1);
    }
  }

  lemma {:induction false} InOrderStep(c: Config, g: Arch, i: nat, b: Arch, f: Fetched)
    requires i > 0 && RunN(c, g, i - 1) == b && FetchedOk(c, f) && f.pc == b.pc
    ensures RunN(c, g, i) == Exec(c, b.(pc := f.pc), f.instr) == Exec(c, b, f.instr)
  {
    assert b.(pc := f.pc) == b;
  }

  /** What was fetched along the in-order path sees exactly the in-order state. */
  lemma {:induction false} TrackIsInOrder(c: Config, g: Arch, st: seq<Fetched>, i: nat)
    requires i <= |st| && AllFetched(c, st) && forall j {:trigger FetchedAt(c, g, st[j], j)} :: 0 <= j < i ==>
               FetchedAt(c, g, st[j], j)
    ensures SpecAt(c, g, st, i) == RunN(c, g, i)
  {
    hide Exec;
    if i > 0 {
      TrackIsInOrder(c, g, st, i - 1);
      assert FetchedOk(c, st[i - 1]) && FetchedAt(c, g, st[i - 1], i - 1);
      InOrderStep(c, g, i, SpecAt(c, g, st, i - 1), st[i - 1]);
    }
  }

  lemma {:induction false} NextIsInOrder(c: Config, g: Arch, st: seq<Fetched>, dy: seq<Dyn>, i: nat, b: Arch)
    requires i < |st| == |dy| && FetchedOk(c, st[i]) && AllValues(c, g, st, dy) && dy[i].done
    requires b == SpecAt(c, g, st, i) && b.pc == st[i].pc
    ensures Exec(c, b, st[i].instr).pc == NextOf(st[i], dy[i])
  {
    DoneValue(c, g, st, dy, i);
  }

  lemma {:induction false} FlightPcAt(gpc: Pc, st: seq<Fetched>, dy: seq<Dyn>, i: nat)
    requires i < |st| == |dy| && FlightPcOk(gpc, st, dy)
    ensures st[i].pc == if i == 0 then gpc else NextOf(st[i - 1], dy[i - 1])
  {
    assert st[i].pc == FlightPc(gpc, st, dy, i);
  }

  lemma {:induction false} DoneStep(c: Config, g: Arch, st: seq<Fetched>, dy: seq<Dyn>, i: nat)
    requires 0 < i < |st| == |dy| && dy[i - 1].done
    requires AllValues(c, g, st, dy) && FetchedOk(c, st[i - 1]) && SpecAt(c, g, st, i - 1) == RunN(c, g, i - 1)
    requires st[i].pc == NextOf(st[i - 1], dy[i - 1]) && FetchedAt(c, g, st[i - 1], i - 1)
    ensures FetchedAt(c, g, st[i], i) && SpecAt(c, g, st, i) == RunN(c, g, i)
  {
    NextIsInOrder(c, g, st, dy, i - 1, RunN(c, g, i - 1));
    InOrderStep(c, g, i, RunN(c, g, i - 1), st[i - 1]);
  }

  /** When everything older is done, an entry is on the in-order path and sees the in-order state. */
  lemma {:induction false} DoneIsInOrder(c: Config, g: Arch, st: seq<Fetched>, dy: seq<Dyn>, i: nat)
    requires i < |st| == |dy|
    requires AllValues(c, g, st, dy) && AllFetched(c, st) && FlightPcOk(g.pc, st, dy)
    requires forall j :: 0 <= j < i ==> dy[j].done
    ensures FetchedAt(c, g, st[i], i) && SpecAt(c, g, st, i) == RunN(c, g, i)
  {
    hide Exec;
    FlightPcAt(g.pc, st, dy, i);
    if i > 0 {
      DoneIsInOrder(c, g, st, dy, i - 1);
      assert FetchedOk(c, st[i - 1]);
      DoneStep(c, g, st, dy, i);
    }
  }

  lemma {:induction false} DoneFetchedInOrder(c: Config, g: Arch, st: seq<Fetched>, dy: seq<Dyn>, i: nat)
    requires i <= |st| == |dy|
    requires AllValues(c, g, st, dy) && AllFetched(c, st) && FlightPcOk(g.pc, st, dy)
    requires forall j :: 0 <= j < i ==> dy[j].done
    ensures forall j {:trigger FetchedAt(c, g, st[j], j)} :: 0 <= j < i ==> FetchedAt(c, g, st[j], j)
  {
    forall j | 0 <= j < i ensures FetchedAt(c, g, st[j], j) {
      DoneIsInOrder(c, g, st, dy, j);
    }
  }

  lemma {:induction false} EnqueueInRange(c: Config, a0: Arch, s: Core, i: nat, n: nat)
    requires Inv(c, RunN(c, a0, s.commits), s) && CanEnqueueStore(s, i) && StoresInRange(c, a0) && n == s.commits + i
    ensures 0 <= WordIndex(c.byteAddressed, s.dy[i].addr) < MEMORY_WORDS
  {
    var g := RunN(c, a0, s.commits);
    DoneIsInOrder(c, g, s.st, s.dy, i);
    RunCompose(c, a0, s.commits, i, n);
    assert FetchedOk(c, s.st[i]) && FetchedAt(c, g, s.st[i], i);
    assert StoreInRange(c, a0, n);
    KnownStore(c, g, s.st, s.dy, s.head, s.wake, i);
  }

  // ---------------------------------------------------------------- every run

  lemma {:induction false} ResolveKeeps(c: Config, g: Arch, s: Core, k: nat)
    requires Inv(c, g, s) && CanResolve(c, s, k)
    ensures Inv(c, g, Resolve(c, s, k))
  {
    if Mispredicted(s.st[Age(s.head, c.cap, s.fu[k].tag)], s.fu[k].val != 0) {
      ResolveWrongKeeps(c, g, s, k);
    } else {
      ResolveRightKeeps(c, g, s, k);
    }
  }

  lemma {:induction false} MemoryStepKeeps(c: Config, a0: Arch, s: Core, e: Step)
    requires StoresInRange(c, a0) && Inv(c, RunN(c, a0, s.commits), s) && Enabled(c, s, e)
    requires e.DoEnqueueStore? || e.DoDrain? || e.DoFillLoad? || e.DoComputeAddr? || e.DoDispatchLoad?
    ensures Inv(c, RunN(c, a0, s.commits), Apply(c, s, e))
  {
    hide Exec;
    var g := RunN(c, a0, s.commits);
    match e
    case DoEnqueueStore(i) =>
      EnqueueInRange(c, a0, s, i, s.commits + i);
      EnqueueStoreKeeps(c, g, s, i);
    case DoDrain => DrainKeeps(c, g, s);
    case DoFillLoad(i) => FillLoadKeeps(c, g, s, i);
    case DoComputeAddr(i) => ComputeAddrKeeps(c, g, s, i);
    case DoDispatchLoad(i) => DispatchLoadKeeps(c, g, s, i);
  }

  lemma {:induction false} ExecStepKeeps(c: Config, g: Arch, s: Core, e: Step)
    requires Inv(c, g, s) && Enabled(c, s, e)
    requires e.DoBroadcast? || e.DoBroadcastLoad? || e.DoResolve? || e.DoIssue?
    ensures Inv(c, g, Apply(c, s, e))
  {
    match e
    case DoBroadcast(k) => BroadcastKeeps(c, g, s, k);
    case DoBroadcastLoad(i) => BroadcastLoadKeeps(c, g, s, i);
    case DoResolve(k) => ResolveKeeps(c, g, s, k);
    case DoIssue(i) => IssueKeeps(c, g, s, i);
  }

  lemma {:induction false} FrontStepKeeps(c: Config, g: Arch, s: Core, e: Step)
    requires ProgOk(c) && Inv(c, g, s) && Enabled(c, s, e)
    requires e.DoStartCycle? || e.DoNextPhase? || e.DoRename? || e.DoFetch?
    ensures Inv(c, g, Apply(c, s, e))
  {
    match e
    case DoStartCycle => StartCycleKeeps(c, g, s);
    case DoNextPhase => NextPhaseKeeps(c, g, s);
    case DoRename => RenameKeeps(c, g, s);
    case DoFetch(taken, target) => FetchKeeps(c, g, s, taken, target);
  }

  lemma {:induction false} CommitCounts(c: Config, s: Core, e: Step)
    requires Enabled(c, s, e)
    ensures Apply(c, s, e).commits == s.commits + if e.DoCommitHead? then 1 else 0
  {
  }

  /** One step: the invariant holds again, and commit is the step that moves the in-order model. */
  lemma {:induction false} StepKeeps(c: Config, a0: Arch, s: Core, e: Step)
    requires ProgOk(c) && StoresInRange(c, a0)
    requires Inv(c, RunN(c, a0, s.commits), s) && Enabled(c, s, e)
    ensures Inv(c, RunN(c, a0, Apply(c, s, e).commits), Apply(c, s, e))
  {
    hide Exec, SpecAt;
    CommitCounts(c, s, e);
    var g := RunN(c, a0, s.commits);
    if e.DoCommitHead? {
      CommitKeeps(c, g, s);
    } else if e.DoEnqueueStore? || e.DoDrain? || e.DoFillLoad? || e.DoComputeAddr? || e.DoDispatchLoad? {
      MemoryStepKeeps(c, a0, s, e);
    } else if e.DoBroadcast? || e.DoBroadcastLoad? || e.DoResolve? || e.DoIssue? {
      ExecStepKeeps(c, g, s, e);
    } else {
      FrontStepKeeps(c, g, s, e);
    }
  }

  /** `s` satisfies the invariant relative to the in-order run from `a0`. */
  ghost predicate Tracks(c: Config, a0: Arch, s: Core) {
    forall g {:trigger Inv(c, g, s)} :: g == RunN(c, a0, s.commits) ==> Inv(c, g, s)
  }

  lemma {:induction false} StepTracks(c: Config, a0: Arch, s: Core, e: Step)
    requires ProgOk(c) && StoresInRange(c, a0) && Tracks(c, a0, s) && Enabled(c, s, e)
    ensures Tracks(c, a0, Apply(c, s, e))
  {
    assert Inv(c, RunN(c, a0, s.commits), s);
    StepKeeps(c, a0, s, e);
  }

  lemma {:induction false} RunTracks(c: Config, a0: Arch, s: Core, run: seq<Step>, t: Core)
    requires ProgOk(c) && StoresInRange(c, a0) && Tracks(c, a0, s) && Reaches(c, s, run, t)
    ensures Tracks(c, a0, t)
    decreases |run|
  {
    if run != [] {
      StepTracks(c, a0, s, run[0]);
      RunTracks(c, a0, Apply(c, s, run[0]), run[1..], t);
    }
  }

  lemma {:induction false} InitTracks(c: Config, image: seq<Lanes>, pc: Pc)
    requires |image| == MEMORY_WORDS
    ensures Tracks(c, Reset(c, image, pc), Init(c, image, pc))
  {
    InitInv(c, image, pc);
  }

  lemma {:induction false} ReachableTracks(c: Config, image: seq<Lanes>, pc: Pc, run: seq<Step>, t: Core)
    requires Domain(c, image, pc) && Reaches(c, Init(c, image, pc), run, t)
    ensures Tracks(c, Reset(c, image, pc), t)
  {
    InitTracks(c, image, pc);
    RunTracks(c, Reset(c, image, pc), Init(c, image, pc), run, t);
  }

  /** The invariant of every reachable state, with the in-order state of as many instructions as have committed. */
  lemma {:induction false} Reachable(c: Config, image: seq<Lanes>, pc: Pc, run: seq<Step>, t: Core)
    requires Domain(c, image, pc) && Reaches(c, Init(c, image, pc), run, t)
    ensures Inv(c, RunN(c, Reset(c, image, pc), t.commits), t)
  {
    ReachableTracks(c, image, pc, run, t);
  }
}
