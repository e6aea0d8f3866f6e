/** Nothing reachable is stuck: the oldest instruction can always be driven to commit, and the program to its end. */
module CoreProgress {
  import opened Words
  import opened Isa
  import opened Core
  import opened CoreInv
  import opened CoreSteps
  import opened CoreRun
  import opened CoreTheorems
  import opened CoreSafety
  import opened CoreResolve

  // ---------------------------------------------------------------- the next thing the oldest instruction needs

  /** A STORE whose data register is 0 (or absent) never has its data marked ready. */
  predicate NoData(ins: Instr) { ins.IsStore() && ins.dest <= 0 }

  /** Work left before the oldest instruction is done. */
  function HeadWork(s: Core): nat
    requires s.st != [] && |s.st| == |s.dy|
  {
    var ins, d := s.st[0].instr, s.dy[0];
    if d.done then 0
    else if ins.IsStore() then if d.addrReady then 1 else 2
    else if ins.IsLoad() then
      if d.load.LoadReady? then 1 else if d.load.LoadWaiting? then 2 else if d.addrReady then 3 else 4
    else if d.issued then 1 else 2
  }

  /** The stage that does the next piece of that work. */
  function HeadPhase(s: Core): Phase
    requires s.st != [] && |s.st| == |s.dy|
  {
    var ins, d := s.st[0].instr, s.dy[0];
    if d.done || (ins.IsStore() && d.addrReady) then Commit
    else if d.load.LoadReady? || d.load.LoadWaiting? || d.issued then Writeback
    else Back
  }

  function PhaseDistance(now: Phase, want: Phase): nat {
    if now == want then 0
    else if (now == Commit && want == Writeback) || (now == Writeback && want == Back) || (now == Back && want
        == Commit) then 1
    else 2
  }

  /** Falls with every step taken for the oldest instruction. */
  function HeadRank(s: Core): nat
    requires s.st != [] && |s.st| == |s.dy|
  {
    3 * HeadWork(s) + PhaseDistance(s.phase, HeadPhase(s))
  }

  function AdvancePhase(s: Core): Step {
    if s.phase == Back then DoStartCycle else DoNextPhase
  }

  /** What the oldest instruction needs of its stage; `k` is the place of its result in the functional units. */
  function HeadAction(s: Core, k: nat): Step
    requires s.st != [] && |s.st| == |s.dy|
  {
    var ins, d := s.st[0].instr, s.dy[0];
    if d.done then DoCommitHead
    else if ins.IsMem() && !d.addrReady then DoComputeAddr(0)
    else if ins.IsStore() then DoEnqueueStore(0)
    else if ins.IsLoad() then
      if d.load.LoadReady? then DoBroadcastLoad(0) else if d.load.LoadWaiting? then DoFillLoad(0) else DoDispatchLoad(0)
    else if !d.issued then DoIssue(0)
    else if ins.IsControl() then DoResolve(k)
    else DoBroadcast(k)
  }

  function HeadStep(s: Core, k: nat): Step
    requires s.st != [] && |s.st| == |s.dy|
  {
    if s.phase == HeadPhase(s) then HeadAction(s, k) else AdvancePhase(s)
  }

  // ---------------------------------------------------------------- that step is always possible

  /** The oldest instruction waits for no operand. */
  lemma {:induction false} HeadOperandsReady(c: Config, g: Arch, s: Core)
    requires Inv(c, g, s) && s.st != [] && !s.dy[0].done
    ensures s.dy[0].src1.ready && s.dy[0].src2.ready
    ensures s.st[0].instr.IsStore() && s.st[0].instr.dest > 0 ==> s.dy[0].data.ready
  {
    hide Exec;
    assert SourcesOk(c, g, s.st, s.dy, s.head, s.wake, 0);
  }

  lemma {:induction false} HeadValues(c: Config, g: Arch, s: Core)
    requires Inv(c, g, s) && s.st != []
    ensures ValuesOk(c, g, s.st, s.dy, 0)
  {
    hide Exec;
  }

  lemma {:induction false} HeadStation(c: Config, g: Arch, s: Core)
    requires Inv(c, g, s) && s.st != [] && !s.dy[0].done && !s.st[0].instr.IsMem() && !s.dy[0].issued && s.phase == Back
    ensures CanIssue(s, 0)
  {
    hide Exec;
    HeadOperandsReady(c, g, s);
  }

  lemma {:induction false} HeadBeat(c: Config, g: Arch, s: Core) returns (k: nat)
    requires Inv(c, g, s) && s.st != [] && !s.dy[0].done && s.dy[0].issued
    ensures k < |s.fu| && s.fu[k].tag == s.head && Age(s.head, c.cap, s.head) == 0
  {
    hide Exec;
    assert HasBeat(s.fu, Tag(s.head, c.cap, 0));
    var b :| b in s.fu && b.tag == Tag(s.head, c.cap, 0);
    k :| 0 <= k < |s.fu| && s.fu[k] == b;
  }

  lemma {:induction false} HeadActionEnabled(c: Config, g: Arch, s: Core, k: nat)
    requires Inv(c, g, s) && s.st != [] && !NoData(s.st[0].instr) && s.phase == HeadPhase(s)
    requires s.dy[0].issued && !s.dy[0].done ==> k < |s.fu| && s.fu[k].tag == s.head && Age(s.head, c.cap, s.head) == 0
    ensures Enabled(c, s, HeadAction(s, k))
  {
    hide Exec;
    HeadValues(c, g, s);
    if !s.dy[0].done {
      HeadOperandsReady(c, g, s);
      if !s.st[0].instr.IsMem() && !s.dy[0].issued {
        HeadStation(c, g, s);
      }
    }
  }

  /** Some step for the oldest instruction is possible in every reachable state. */
  lemma {:induction false} HeadStepEnabled(c: Config, g: Arch, s: Core) returns (k: nat)
    requires Inv(c, g, s) && s.st != [] && !NoData(s.st[0].instr)
    ensures Enabled(c, s, HeadStep(s, k))
  {
    hide Exec;
    k := 0;
    if !s.dy[0].done && s.dy[0].issued {
      k := HeadBeat(c, g, s);
    }
    if s.phase == HeadPhase(s) {
      HeadActionEnabled(c, g, s, k);
    }
  }

  // ---------------------------------------------------------------- and brings it closer to commit

  ghost predicate HeadCloser(s: Core, s': Core)
    requires s.st != [] && |s.st| == |s.dy|
  {
    s'.st != [] && |s'.st| == |s'.dy| && s'.st[0] == s.st[0] && HeadRank(s') < HeadRank(s)
  }

  lemma {:induction false} PhaseCloser(c: Config, s: Core, k: nat)
    requires s.st != [] && |s.st| == |s.dy| && s.phase != HeadPhase(s)
    ensures Enabled(c, s, AdvancePhase(s)) && HeadCloser(s, Apply(c, s, AdvancePhase(s)))
  {
    if s.phase == Back {
      WakeAllWoken(s.st, s.dy, s.wake);
    }
  }

  lemma {:induction false} ResolveCloser(c: Config, s: Core, k: nat)
    requires CanResolve(c, s, k) && Age(s.head, c.cap, s.fu[k].tag) == 0 && !s.dy[0].done
    ensures HeadCloser(s, Resolve(c, s, k))
  {
    ResolveShape(c, s, k);
    ResolvePhase(c, s, k);
    hide Resolve, Mispredicted;
    var s' := Resolve(c, s, k);
    assert s'.dy[0].done && s'.st[0] == s.st[0];
  }

  lemma {:induction false} ActionCloser(c: Config, s: Core, k: nat)
    requires s.st != [] && |s.st| == |s.dy| && s.phase == HeadPhase(s) && !s.dy[0].done
    requires Enabled(c, s, HeadAction(s, k))
    requires s.dy[0].issued ==> k < |s.fu| && Age(s.head, c.cap, s.fu[k].tag) == 0
    requires s.dy[0].load != LoadIdle ==> s.st[0].instr.IsLoad() && s.dy[0].addrReady
    requires s.dy[0].issued ==> !s.st[0].instr.IsMem()
    ensures HeadCloser(s, Apply(c, s, HeadAction(s, k)))
  {
    if HeadAction(s, k).DoResolve? {
      ResolveCloser(c, s, k);
    }
  }

  lemma {:induction false} HeadStepCloser(c: Config, g: Arch, s: Core) returns (e: Step)
    requires Inv(c, g, s) && s.st != [] && !NoData(s.st[0].instr)
    ensures Enabled(c, s, e)
    ensures if s.dy[0].done && s.phase == Commit then e.DoCommitHead?
            else !e.DoCommitHead? && HeadCloser(s, Apply(c, s, e))
  {
    hide Exec;
    var k := HeadStepEnabled(c, g, s);
    if !s.dy[0].done && s.dy[0].issued {
      k := HeadBeat(c, g, s);
    }
    e := HeadStep(s, k);
    if s.phase != HeadPhase(s) {
      PhaseCloser(c, s, k);
    } else if !s.dy[0].done {
      HeadActionEnabled(c, g, s, k);
      HeadValues(c, g, s);
      ActionCloser(c, s, k);
    }
  }

  // ---------------------------------------------------------------- schedules

  /** Some schedule leads from `s` to a state with `n` commits in all. */
  ghost predicate CanReachCommits(c: Config, s: Core, n: nat) {
    exists run, t :: Reaches(c, s, run, t) && t.commits == n
  }

  lemma {:induction false} StepThen(c: Config, s: Core, e: Step, n: nat)
    requires Enabled(c, s, e) && CanReachCommits(c, Apply(c, s, e), n)
    ensures CanReachCommits(c, s, n)
  {
    var run, t :| Reaches(c, Apply(c, s, e), run, t) && t.commits == n;
    ConsReaches(c, s, e, run, t);
  }

  lemma {:induction false} ConsReaches(c: Config, s: Core, e: Step, run: seq<Step>, t: Core)
    requires Enabled(c, s, e) && Reaches(c, Apply(c, s, e), run, t)
    ensures Reaches(c, s, [e] + run, t)
  {
    var all := [e] + run;
    assert all[0] == e && all[1..] == run;
  }

  lemma {:induction false} AlreadyThere(c: Config, s: Core)
    ensures CanReachCommits(c, s, s.commits)
  {
    assert Reaches(c, s, [], s);
  }

  lemma {:induction false} HeadCommits(c: Config, a0: Arch, s: Core, n: nat)
    requires ProgOk(c) && StoresInRange(c, a0) && Tracks(c, a0, s) && n == s.commits + 1
    requires s.st != [] && |s.st| == |s.dy| && !NoData(s.st[0].instr)
    ensures CanReachCommits(c, s, n)
    decreases HeadRank(s)
  {
    hide Exec, Apply, Enabled;
    var g := RunN(c, a0, s.commits);
    assert Inv(c, g, s);
    var e := HeadStepCloser(c, g, s);
    StepTracks(c, a0, s, e);
    CommitCounts(c, s, e);
    if e.DoCommitHead? {
      AlreadyThere(c, Apply(c, s, e));
    } else {
      HeadCommits(c, a0, Apply(c, s, e), n);
    }
    StepThen(c, s, e, n);
  }

  // ---------------------------------------------------------------- from an empty core to the next commit

  ghost predicate CanReachFull(c: Config, s: Core, n: nat) {
    exists run, t :: Reaches(c, s, run, t) && t.commits == n && t.st != []
  }

  /** Phase changes needed before the front end may fetch and rename, and the fetch itself. */
  function FrontRank(s: Core): nat {
    PhaseDistance(s.phase, Back) + if s.front == [] then 3 else 0
  }

  /** With nothing in flight, the next step towards renaming: reach the back stages, fetch, rename. */
  function FrontStep(s: Core): Step {
    if s.phase != Back then AdvancePhase(s) else if s.front == [] then DoFetch(false, 0) else DoRename
  }

  lemma {:induction false} FrontStepEnabled(c: Config, g: Arch, s: Core)
    requires Inv(c, g, s) && s.st == [] && c.cap > 0 && g.pc in c.prog
    ensures Enabled(c, s, FrontStep(s))
    ensures var s' := Apply(c, s, FrontStep(s));
            |s'.st| == |s'.dy| && s'.commits == s.commits && (s'.st == [] ==> FrontRank(s') < FrontRank(s))
            && (s'.st == [] <==> FrontStep(s) != DoRename)
  {
    hide Exec;
    NextPcIs(c, g, s);
  }

  lemma {:induction false} NextPcIs(c: Config, g: Arch, s: Core)
    requires Inv(c, g, s)
    ensures NextCommitPc(s) == g.pc
    ensures s.st != [] || s.front != [] ==> g.pc in c.prog
  {
    hide Exec;
    assert FlightPc(g.pc, s.st, s.dy, 0) == g.pc;
    var start := FlightPc(g.pc, s.st, s.dy, |s.st|);
    assert FrontPc(start, s.front, 0) == start;
    if s.st != [] {
      assert FetchedOk(c, s.st[0]);
    } else if s.front != [] {
      assert FetchedOk(c, s.front[0]);
    }
  }

  lemma {:induction false} StepThenFull(c: Config, s: Core, e: Step, n: nat)
    requires Enabled(c, s, e) && CanReachFull(c, Apply(c, s, e), n)
    ensures CanReachFull(c, s, n)
  {
    var run, t :| Reaches(c, Apply(c, s, e), run, t) && t.commits == n && t.st != [];
    ConsReaches(c, s, e, run, t);
  }

  lemma {:induction false} CoreFills(c: Config, a0: Arch, s: Core)
    requires ProgOk(c) && StoresInRange(c, a0) && Tracks(c, a0, s) && c.cap > 0
    requires RunN(c, a0, s.commits).pc in c.prog
    ensures CanReachFull(c, s, s.commits)
    decreases FrontRank(s)
  {
    hide Exec, Apply, Enabled;
    if s.st != [] {
      assert Reaches(c, s, [], s);
    } else {
      var e := FrontStep(s);
      assert Inv(c, RunN(c, a0, s.commits), s);
      FrontStepEnabled(c, RunN(c, a0, s.commits), s);
      StepTracks(c, a0, s, e);
      var s' := Apply(c, s, e);
      if s'.st != [] {
        assert Reaches(c, s', [], s');
      } else {
        CoreFills(c, a0, s');
      }
      StepThenFull(c, s, e, s.commits);
    }
  }

  /** In-order execution has no STORE of data register 0 at its `n`-th instruction. */
  ghost predicate HasData(c: Config, a0: Arch, n: nat) {
    var a := RunN(c, a0, n);
    a.pc in c.prog ==> !NoData(c.prog[a.pc])
  }

  lemma {:induction false} HeadIsNext(c: Config, a0: Arch, s: Core)
    requires Tracks(c, a0, s) && s.st != []
    ensures |s.st| == |s.dy|
    ensures var a := RunN(c, a0, s.commits); a.pc in c.prog && s.st[0].instr == c.prog[a.pc]
  {
    hide Exec;
    var g := RunN(c, a0, s.commits);
    assert Inv(c, g, s);
    HeadPc(c, g, s);
  }

  /** No deadlock: from every reachable state, some schedule commits the next in-order instruction. */
  lemma {:induction false} NextCommits(c: Config, a0: Arch, s: Core, n: nat)
    requires ProgOk(c) && StoresInRange(c, a0) && Tracks(c, a0, s) && c.cap > 0 && n == s.commits + 1
    requires RunN(c, a0, s.commits).pc in c.prog && HasData(c, a0, s.commits)
    ensures CanReachCommits(c, s, n)
  {
    hide Exec, Apply, Enabled;
    CoreFills(c, a0, s);
    var run, t :| Reaches(c, s, run, t) && t.commits == s.commits && t.st != [];
    RunTracks(c, a0, s, run, t);
    HeadIsNext(c, a0, t);
    HeadCommits(c, a0, t, n);
    var more, u :| Reaches(c, t, more, u) && u.commits == n;
    ReachesAppend(c, s, run, t, more, u);
  }

  // ---------------------------------------------------------------- the whole program

  ghost predicate CanFinish(c: Config, s: Core) {
    exists run, t :: Reaches(c, s, run, t) && Finished(c, t)
  }

  /** Steps left once the program has run out: phases until write-back, then one drain for each buffered store. */
  function DrainRank(s: Core): nat {
    3 * |s.sb| + PhaseDistance(s.phase, Writeback)
  }

  lemma {:induction false} StepThenFinish(c: Config, s: Core, e: Step)
    requires Enabled(c, s, e) && CanFinish(c, Apply(c, s, e))
    ensures CanFinish(c, s)
  {
    var run, t :| Reaches(c, Apply(c, s, e), run, t) && Finished(c, t);
    ConsReaches(c, s, e, run, t);
  }

  lemma {:induction false} EmptyAtEnd(c: Config, g: Arch, s: Core)
    requires Inv(c, g, s) && g.pc !in c.prog
    ensures s.st == [] && s.dy == [] && s.front == [] && s.fetchPc == g.pc
  {
    hide Exec;
    NextPcIs(c, g, s);
  }

  lemma {:induction false} DrainStep(c: Config, s: Core) returns (e: Step)
    requires s.sb != [] && |s.st| == |s.dy|
    ensures Enabled(c, s, e) && Apply(c, s, e).commits == s.commits && DrainRank(Apply(c, s, e)) < DrainRank(s)
  {
    e := if s.phase == Writeback then DoDrain else AdvancePhase(s);
  }

  lemma {:induction false} BufferDrains(c: Config, a0: Arch, s: Core)
    requires ProgOk(c) && StoresInRange(c, a0) && Tracks(c, a0, s) && RunN(c, a0, s.commits).pc !in c.prog
    ensures CanFinish(c, s)
    decreases DrainRank(s)
  {
    hide Exec, Apply, Enabled;
    assert Inv(c, RunN(c, a0, s.commits), s);
    EmptyAtEnd(c, RunN(c, a0, s.commits), s);
    if s.sb == [] {
      assert Reaches(c, s, [], s);
    } else {
      var e := DrainStep(c, s);
      StepTracks(c, a0, s, e);
      BufferDrains(c, a0, Apply(c, s, e));
      StepThenFinish(c, s, e);
    }
  }

  /** Every reachable state can still finish, when in-order execution leaves the program after `n` instructions. */
  lemma {:induction false} CanAlwaysFinish(c: Config, a0: Arch, s: Core, n: nat)
    requires ProgOk(c) && StoresInRange(c, a0) && Tracks(c, a0, s) && c.cap > 0
    requires RunN(c, a0, n).pc !in c.prog && forall k :: 0 <= k < n ==> HasData(c, a0, k)
    ensures CanFinish(c, s)
    decreases n - s.commits
  {
    hide Exec, Apply, Enabled;
    if RunN(c, a0, s.commits).pc !in c.prog {
      BufferDrains(c, a0, s);
    } else {
      if n <= s.commits {
        HaltedStays(c, a0, n, s.commits);
      }
      NextCommits(c, a0, s, s.commits + 1);
      var run, t :| Reaches(c, s, run, t) && t.commits == s.commits + 1;
      RunTracks(c, a0, s, run, t);
      CanAlwaysFinish(c, a0, t, n);
      var more, u :| Reaches(c, t, more, u) && Finished(c, u);
      ReachesAppend(c, s, run, t, more, u);
    }
  }

  // ---------------------------------------------------------------- the one instruction that blocks for ever

  /** STOREs without a data register have not completed. */
  ghost predicate NoDataWaits(st: seq<Fetched>, dy: seq<Dyn>)
    requires |st| == |dy|
  {
    forall j :: 0 <= j < |st| && NoData(st[j].instr) ==> !dy[j].done
  }

  lemma {:induction false} NoDataStep(c: Config, a0: Arch, s: Core, e: Step)
    requires Tracks(c, a0, s) && Enabled(c, s, e) && |s.st| == |s.dy| && NoDataWaits(s.st, s.dy)
    ensures |Apply(c, s, e).st| == |Apply(c, s, e).dy| && NoDataWaits(Apply(c, s, e).st, Apply(c, s, e).dy)
  {
    hide Exec;
    var g := RunN(c, a0, s.commits);
    assert Inv(c, g, s);
    if e.DoEnqueueStore? {
      assert SourcesOk(c, g, s.st, s.dy, s.head, s.wake, e.i);
    } else if !e.DoCommitHead? {
      StepStores(c, g, s, e);
    }
  }

  lemma {:induction false} NoDataRun(c: Config, a0: Arch, s: Core, run: seq<Step>, t: Core)
    requires ProgOk(c) && StoresInRange(c, a0) && Tracks(c, a0, s) && Reaches(c, s, run, t)
    requires |s.st| == |s.dy| && NoDataWaits(s.st, s.dy)
    ensures |t.st| == |t.dy| && NoDataWaits(t.st, t.dy)
    ensures s.st != [] && NoData(s.st[0].instr) ==> t.commits == s.commits
    decreases |run|
  {
    hide Exec, Apply, Enabled;
    if run != [] {
      NoDataStep(c, a0, s, run[0]);
      StepTracks(c, a0, s, run[0]);
      HeadStuck(c, a0, s, run[0]);
      NoDataRun(c, a0, Apply(c, s, run[0]), run[1..], t);
    }
  }

  lemma {:induction false} HeadStuck(c: Config, a0: Arch, s: Core, e: Step)
    requires Tracks(c, a0, s) && Enabled(c, s, e) && |s.st| == |s.dy| && NoDataWaits(s.st, s.dy)
    ensures var s' := Apply(c, s, e);
            s.st != [] && NoData(s.st[0].instr) ==> s'.st != [] && s'.st[0] == s.st[0] && s'.commits == s.commits
  {
    hide Exec;
    if s.st != [] && NoData(s.st[0].instr) {
      assert Inv(c, RunN(c, a0, s.commits), s);
      CommitCounts(c, s, e);
      if !e.DoEnqueueStore? {
        StepStores(c, RunN(c, a0, s.commits), s, e);
        StaysFirst(c, s, e);
      }
    }
  }

  lemma {:induction false} StaysFirst(c: Config, s: Core, e: Step)
    requires |s.st| == |s.dy| && Enabled(c, s, e) && s.st != [] && !e.DoCommitHead?
    ensures var s' := Apply(c, s, e); s'.st != [] && s'.st[0] == s.st[0]
  {
    hide Exec;
    if e.DoResolve? {
      ResolveShape(c, s, e.k);
    }
  }

  /** The oldest instruction can be driven to commit unless it is a STORE of data register 0, and then nothing ever
    * commits again. */
  lemma {:induction false} HeadProgress(c: Config, image: seq<Lanes>, pc: Pc, run: seq<Step>, t: Core, n: nat)
    requires Domain(c, image, pc) && Reaches(c, Init(c, image, pc), run, t) && t.st != [] && n == t.commits + 1
    ensures CanReachCommits(c, t, n) <==> !NoData(t.st[0].instr)
  {
    hide Exec, Apply, Enabled;
    var a0 := Reset(c, image, pc);
    InitTracks(c, image, pc);
    ReachableTracks(c, image, pc, run, t);
    NoDataRun(c, a0, Init(c, image, pc), run, t);
    if NoData(t.st[0].instr) {
      forall more, u | Reaches(c, t, more, u) ensures u.commits == t.commits {
        NoDataRun(c, a0, t, more, u);
      }
    } else {
      HeadCommits(c, a0, t, n);
    }
  }

  /** The condition can fail: a program that is one STORE of data register 0. */
  function StuckStore(): Instr { Instr(STORE, 0, 0, 0, 0, W, false) }

  lemma {:induction false} StuckInDomain(c: Config, image: seq<Lanes>, pc: Pc)
    requires c.prog == map[pc := StuckStore()] && |image| == MEMORY_WORDS
    ensures Domain(c, image, pc)
  {
    hide RunN;
    forall k: nat ensures StoreInRange(c, Reset(c, image, pc), k) {
    }
  }

  /** It is fetched and renamed, and then nothing ever commits, though in-order execution would go on. */
  lemma {:induction false} StuckForGood(c: Config, image: seq<Lanes>, pc: Pc, t: Core)
    requires c.prog == map[pc := StuckStore()] && |image| == MEMORY_WORDS && c.cap > 0
    requires t == Apply(c, Apply(c, Init(c, image, pc), DoFetch(false, pc)), DoRename)
    ensures Reaches(c, Init(c, image, pc), [DoFetch(false, pc), DoRename], t)
    ensures t.st != [] && NoData(t.st[0].instr) && RunN(c, Reset(c, image, pc), 1).pc == Fallthrough(pc)
    ensures forall more, u :: Reaches(c, t, more, u) ==> u.commits == 0
  {
    var s := Init(c, image, pc);
    var run := [DoFetch(false, pc), DoRename];
    assert run[1..] == [DoRename] && run[1..][1..] == [];
    StuckInDomain(c, image, pc);
    InitTracks(c, image, pc);
    ReachableTracks(c, image, pc, run, t);
    NoDataRun(c, Reset(c, image, pc), s, run, t);
    hide Apply, Enabled;
    forall more, u | Reaches(c, t, more, u) ensures u.commits == 0 {
      NoDataRun(c, Reset(c, image, pc), t, more, u);
    }
  }

  /** No reachable state is cut off from the end of the program: some schedule finishes it. */
  lemma {:induction false} NeverStuck(c: Config, image: seq<Lanes>, pc: Pc, run: seq<Step>, t: Core, n: nat)
    requires Domain(c, image, pc) && Reaches(c, Init(c, image, pc), run, t) && c.cap > 0
    requires RunN(c, Reset(c, image, pc), n).pc !in c.prog
    requires forall k :: 0 <= k < n ==> HasData(c, Reset(c, image, pc), k)
    ensures CanFinish(c, t)
  {
    hide Exec, Apply, Enabled;
    ReachableTracks(c, image, pc, run, t);
    CanAlwaysFinish(c, Reset(c, image, pc), t, n);
  }
}
