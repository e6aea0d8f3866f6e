/** The speculative machine as a state machine: what is in flight, and the steps a cycle is made of.
  *
  * Predictions, latencies, lane counts and the order of steps within a stage are left open; the
  * stages of one cycle keep their order (wake-ups, commit, write-back, then dispatch/rename/fetch).
  */
module Core {
  import opened Words
  import opened Isa

  /** A source operand: captured value, or a wait on the ROB tag of its producer. */
  datatype Operand = Operand(ready: bool, tag: int, val: Word)

  /** What fetch hands to rename and what never changes while the instruction is in flight. */
  datatype Fetched = Fetched(instr: Instr, pc: Pc, predTaken: bool, predTarget: Pc)

  /** LSQ progress of a load: not dispatched; waiting for its memory word with the lanes already
    * forwarded; value ready for the CDB. */
  datatype LoadState = LoadIdle | LoadWaiting(word: Lanes, mask: Mask) | LoadReady(buf: Word)

  /** The changing part of an in-flight instruction (instruction table, ROB entry and LSQ entry). */
  datatype Dyn = Dyn(id: nat, src1: Operand, src2: Operand, data: Operand,
                     addrReady: bool, addr: Word, issued: bool, load: LoadState,
                     snapshot: seq<int>, done: bool, value: Word)

  /** A result travelling in a functional unit, or a wake-up registered for the next cycle. */
  datatype Beat = Beat(tag: int, val: Word)

  /** A committed store on its way to memory. */
  datatype SbEntry = SbEntry(addr: Word, data: Lanes, mask: Mask)

  datatype RsOps = RsOps(src1: Operand, src2: Operand)

  datatype Phase = Commit | Writeback | Back

  /** `st[i]` and `dy[i]` describe the i-th oldest in-flight instruction, whose ROB tag is `Tag(head, cap, i)`. */
  datatype Core = Core(phase: Phase, arf: seq<Word>, main: seq<Lanes>, sb: seq<SbEntry>,
                       head: nat, st: seq<Fetched>, dy: seq<Dyn>,
                       rat: seq<int>, ck: map<int, seq<int>>, rs: map<nat, RsOps>,
                       fu: seq<Beat>, wake: seq<Beat>, freed: set<int>,
                       front: seq<Fetched>, fetchPc: Pc,
                       nextId: nat, commits: nat, squashed: nat)

  // ---------------------------------------------------------------- ROB tags

  /** The tag of the entry `i` places younger than the head. */
  function Tag(head: nat, cap: nat, i: nat): (t: int)
    ensures head < cap && i < cap ==> 0 <= t < cap
  {
    if head + i < cap then head + i else head + i - cap
  }

  /** `ageFromHead` */
  function Age(head: nat, cap: nat, tag: int): (i: int)
    ensures head < cap && 0 <= tag < cap ==> 0 <= i < cap && Tag(head, cap, i) == tag
  {
    if tag >= head then tag - head else tag - head + cap
  }

  // ---------------------------------------------------------------- rename

  function ResolveOperand(c: Config, s: Core, r: int): Operand {
    if r <= 0 || r >= c.nregs || r >= |s.rat| || r >= |s.arf| then Operand(true, -1, 0)
    else
      var tag := s.rat[r];
      if tag == -1 then Operand(true, -1, s.arf[r])
      else
        var a := Age(s.head, c.cap, tag);
        if 0 <= a < |s.dy| && s.dy[a].done then Operand(true, tag, s.dy[a].value)
        else Operand(false, tag, 0)
  }

  /** The destination a ROB entry will write at commit, whatever the opcode. */
  predicate HasDest(ins: Instr) { !ins.IsStore() && ins.dest > 0 }

  function NewDyn(c: Config, s: Core, ins: Instr): Dyn {
    Dyn(s.nextId,
        ResolveOperand(c, s, ins.src1),
        if ins.op == ADDI then Operand(true, -1, ins.imm) else ResolveOperand(c, s, ins.src2),
        if ins.IsStore() && ins.dest > 0 then ResolveOperand(c, s, ins.dest) else Operand(false, -1, 0),
        false, 0, false, LoadIdle, s.rat, false, 0)
  }

  function RatRename(rat: seq<int>, r: int, tag: int): seq<int> {
    if 0 <= r < |rat| then rat[r := tag] else rat
  }

  predicate CanRename(c: Config, s: Core) {
    s.phase == Back && s.front != [] && |s.st| == |s.dy| < c.cap
  }

  function Rename(c: Config, s: Core): Core
    requires CanRename(c, s)
  {
    var f := s.front[0];
    var d := NewDyn(c, s, f.instr);
    var tag := Tag(s.head, c.cap, |s.st|);
    var rat' := if HasDest(f.instr) then RatRename(s.rat, f.instr.dest, tag) else s.rat;
    s.(st := s.st + [f], dy := s.dy + [d], rat := rat',
       ck := if f.instr.IsControl() then s.ck[tag := rat'] else s.ck,
       rs := if f.instr.IsMem() then s.rs else s.rs[d.id := RsOps(d.src1, d.src2)],
       front := s.front[1..], nextId := s.nextId + 1)
  }

  // ---------------------------------------------------------------- fetch

  function PredNext(f: Fetched): Pc {
    if f.predTaken then f.predTarget else Fallthrough(f.pc)
  }

  /** Any prediction is possible for a branch; other instructions are predicted not taken. */
  predicate CanFetch(c: Config, s: Core, taken: bool) {
    s.phase == Back && s.fetchPc in c.prog && (taken ==> c.prog[s.fetchPc].IsControl())
  }

  function Fetch(c: Config, s: Core, taken: bool, target: Pc): Core
    requires CanFetch(c, s, taken)
  {
    var f := Fetched(c.prog[s.fetchPc], s.fetchPc, taken, target);
    s.(front := s.front + [f], fetchPc := PredNext(f))
  }

  // ---------------------------------------------------------------- start of cycle: registered wake-ups

  function WakeOperand(o: Operand, wake: seq<Beat>): Operand {
    if o.ready || wake == [] then o
    else if wake[0].tag == o.tag then Operand(true, o.tag, wake[0].val)
    else WakeOperand(o, wake[1..])
  }

  /** Completed instructions are skipped; store data is only woken in stores. */
  function WakeDyn(ins: Instr, d: Dyn, wake: seq<Beat>): Dyn {
    if d.done then d
    else d.(src1 := WakeOperand(d.src1, wake), src2 := WakeOperand(d.src2, wake),
            data := if ins.IsStore() then WakeOperand(d.data, wake) else d.data)
  }

  function WakeAll(st: seq<Fetched>, dy: seq<Dyn>, wake: seq<Beat>): (r: seq<Dyn>)
    requires |st| == |dy|
    ensures |r| == |dy|
    ensures forall i :: 0 <= i < |dy| ==> r[i] == WakeDyn(st[i].instr, dy[i], wake)
  {
    seq(|dy|, i requires 0 <= i < |dy| => WakeDyn(st[i].instr, dy[i], wake))
  }

  function WakeRs(rs: map<nat, RsOps>, wake: seq<Beat>): map<nat, RsOps> {
    map id | id in rs :: RsOps(WakeOperand(rs[id].src1, wake), WakeOperand(rs[id].src2, wake))
  }

  predicate CanStartCycle(s: Core) { s.phase == Back && |s.st| == |s.dy| }

  function StartCycle(s: Core): Core
    requires CanStartCycle(s)
  {
    s.(phase := Commit, dy := WakeAll(s.st, s.dy, s.wake), rs := WakeRs(s.rs, s.wake), wake := [], freed := {})
  }

  function NextPhase(s: Core): Core {
    s.(phase := if s.phase == Commit then Writeback else Back)
  }

  // ---------------------------------------------------------------- stores and commit

  function StoreEntry(c: Config, f: Fetched, d: Dyn): SbEntry {
    SbEntry(d.addr, StoreLanes(c.byteAddressed, d.data.val, f.instr.size, d.addr),
            AccessMask(c.byteAddressed, f.instr.size, d.addr))
  }

  /** Store permission: everything older is done. */
  predicate CanEnqueueStore(s: Core, i: nat) {
    && s.phase == Commit && i < |s.st| == |s.dy|
    && s.st[i].instr.IsStore() && !s.dy[i].done && s.dy[i].addrReady && s.dy[i].data.ready
    && forall j :: 0 <= j < i ==> s.dy[j].done
  }

  function EnqueueStore(c: Config, s: Core, i: nat): Core
    requires CanEnqueueStore(s, i)
  {
    s.(sb := s.sb + [StoreEntry(c, s.st[i], s.dy[i])], dy := s.dy[i := s.dy[i].(done := true, value := 0)])
  }

  function RatCommit(rat: seq<int>, r: int, tag: int): seq<int> {
    if 0 <= r < |rat| && rat[r] == tag then rat[r := -1] else rat
  }

  /** `onCommitClear` */
  function CkClear(ck: map<int, seq<int>>, r: int, tag: int): map<int, seq<int>> {
    map t | t in ck :: if r > 0 then RatCommit(ck[t], r, tag) else ck[t]
  }

  predicate CanCommit(s: Core) {
    s.phase == Commit && s.dy != [] && |s.st| == |s.dy| && s.dy[0].done
  }

  /** Commit clears the retiring tag from every checkpoint, and drops a control instruction's own. */
  function CommitCkpts(c: Config, ck: map<int, seq<int>>, ins: Instr, tag: int): map<int, seq<int>> {
    var ck' := if HasDest(ins) && ins.dest < c.nregs then CkClear(ck, ins.dest, tag) else ck;
    if ins.IsControl() then ck' - {tag} else ck'
  }

  function CommitHead(c: Config, s: Core): Core
    requires CanCommit(s)
  {
    var f, d := s.st[0], s.dy[0];
    var tag := s.head;
    var writes := HasDest(f.instr) && f.instr.dest < c.nregs;
    s.(arf := if writes then WriteReg(s.arf, f.instr.dest, d.value) else s.arf,
       rat := if writes then RatCommit(s.rat, f.instr.dest, tag) else s.rat,
       ck := CommitCkpts(c, s.ck, f.instr, tag),
       st := s.st[1..], dy := s.dy[1..], head := Tag(s.head, c.cap, 1),
       freed := s.freed + {tag}, commits := s.commits + 1)
  }

  // ---------------------------------------------------------------- memory side of write-back

  function MainRead(main: seq<Lanes>, w: int): Lanes {
    if 0 <= w < |main| then main[w] else ZERO_LANES
  }

  function MainWrite(main: seq<Lanes>, w: int, data: Lanes, mask: Mask): seq<Lanes> {
    if 0 <= w < |main| then main[w := Merge(main[w], data, mask)] else main
  }

  function Drain(c: Config, s: Core): Core
    requires s.sb != []
  {
    var e := s.sb[0];
    s.(main := MainWrite(s.main, WordIndex(c.byteAddressed, e.addr), e.data, e.mask), sb := s.sb[1..])
  }

  predicate CanFill(s: Core, i: nat) {
    s.phase == Writeback && i < |s.st| == |s.dy| && s.dy[i].load.LoadWaiting? && !s.dy[i].done
  }

  function FillLoad(c: Config, s: Core, i: nat): Core
    requires CanFill(s, i)
  {
    var d, ins := s.dy[i], s.st[i].instr;
    var word := Merge(MainRead(s.main, WordIndex(c.byteAddressed, d.addr)), d.load.word, d.load.mask);
    s.(dy := s.dy[i := d.(load := LoadReady(LoadExtend(c.byteAddressed, word, ins.size, ins.unsignedLoad, d.addr)))])
  }

  // ---------------------------------------------------------------- broadcast, resolve, recover

  function Complete(dy: seq<Dyn>, i: nat, v: Word): seq<Dyn>
    requires i < |dy|
  {
    dy[i := dy[i].(done := true, value := v)]
  }

  predicate CanTakeBeat(c: Config, s: Core, k: nat) {
    && s.phase == Writeback && k < |s.fu| && |s.st| == |s.dy|
    && 0 <= Age(s.head, c.cap, s.fu[k].tag) < |s.st|
  }

  predicate CanBroadcast(c: Config, s: Core, k: nat) {
    CanTakeBeat(c, s, k) && !s.st[Age(s.head, c.cap, s.fu[k].tag)].instr.IsControl()
  }

  function Broadcast(c: Config, s: Core, k: nat): Core
    requires CanBroadcast(c, s, k)
  {
    s.(dy := Complete(s.dy, Age(s.head, c.cap, s.fu[k].tag), s.fu[k].val),
       wake := s.wake + [s.fu[k]], fu := s.fu[..k] + s.fu[k + 1..])
  }

  predicate CanBroadcastLoad(s: Core, i: nat) {
    s.phase == Writeback && i < |s.st| == |s.dy| && s.dy[i].load.LoadReady? && !s.dy[i].done
  }

  function BroadcastLoad(c: Config, s: Core, i: nat): Core
    requires CanBroadcastLoad(s, i)
  {
    s.(dy := Complete(s.dy, i, s.dy[i].load.buf),
       wake := s.wake + [Beat(Tag(s.head, c.cap, i), s.dy[i].load.buf)])
  }

  function KillTags(c: Config, s: Core, k: nat): set<int> {
    set j | k < j < |s.st| :: Tag(s.head, c.cap, j)
  }

  function KillIds(s: Core, k: nat): set<nat>
    requires |s.st| == |s.dy|
  {
    set j | k < j < |s.dy| :: s.dy[j].id
  }

  function Without(beats: seq<Beat>, kill: set<int>): seq<Beat> {
    if beats == [] then []
    else if beats[0].tag in kill then Without(beats[1..], kill)
    else [beats[0]] + Without(beats[1..], kill)
  }

  /** `restoreStateScrub` */
  function Scrub(state: seq<int>, freed: set<int>): (r: seq<int>)
    ensures |r| == |state|
    ensures forall i :: 0 <= i < |state| ==>
      r[i] == if i == 0 || (state[i] >= 0 && state[i] in freed) then -1 else state[i]
  {
    seq(|state|, i requires 0 <= i < |state| =>
      if i == 0 || (state[i] >= 0 && state[i] in freed) then -1 else state[i])
  }

  /** `earlyRecover`: drop everything younger than entry `k` and refetch from `next`. */
  function Recover(c: Config, s: Core, k: nat, next: Pc): Core
    requires k < |s.st| == |s.dy|
  {
    var kill := KillTags(c, s, k);
    var tag := Tag(s.head, c.cap, k);
    s.(rat := Scrub(if tag in s.ck then s.ck[tag] else s.dy[k].snapshot, s.freed + kill),
       ck := s.ck - kill, rs := s.rs - KillIds(s, k),
       fu := Without(s.fu, kill), wake := Without(s.wake, kill),
       st := s.st[..k + 1], dy := s.dy[..k + 1],
       front := [], fetchPc := next, squashed := s.squashed + (|s.st| - (k + 1)))
  }

  predicate CanResolve(c: Config, s: Core, k: nat) {
    CanTakeBeat(c, s, k) && s.st[Age(s.head, c.cap, s.fu[k].tag)].instr.IsControl()
  }

  predicate Mispredicted(f: Fetched, taken: bool) {
    taken != f.predTaken || (taken && f.predTarget != PcOf(f.instr.imm))
  }

  predicate IsMispredict(c: Config, s: Core, k: nat)
    requires CanResolve(c, s, k)
  {
    Mispredicted(s.st[Age(s.head, c.cap, s.fu[k].tag)], s.fu[k].val != 0)
  }

  function Resolve(c: Config, s: Core, k: nat): Core
    requires CanResolve(c, s, k)
  {
    var b := s.fu[k];
    var i := Age(s.head, c.cap, b.tag);
    var f := s.st[i];
    var taken := b.val != 0;
    var s1 := s.(fu := s.fu[..k] + s.fu[k + 1..]);
    var s2 := if Mispredicted(f, taken) then Recover(c, s1, i, NextPc(f.pc, f.instr, taken)) else s1;
    s2.(dy := Complete(s2.dy, i, b.val))
  }

  // ---------------------------------------------------------------- dispatch

  predicate CanComputeAddr(s: Core, i: nat) {
    && s.phase == Back && i < |s.st| == |s.dy|
    && s.st[i].instr.IsMem() && !s.dy[i].done && !s.dy[i].addrReady && s.dy[i].src1.ready
  }

  function ComputeAddr(s: Core, i: nat): Core
    requires CanComputeAddr(s, i)
  {
    s.(dy := s.dy[i := s.dy[i].(addrReady := true, addr := Wrap32(s.dy[i].src1.val + s.st[i].instr.imm))])
  }

  /** The RS decides readiness; the operands come from the instruction table. */
  predicate CanIssue(s: Core, i: nat) {
    && s.phase == Back && i < |s.st| == |s.dy| && !s.st[i].instr.IsMem()
    && !s.dy[i].issued && s.dy[i].id in s.rs
    && s.rs[s.dy[i].id].src1.ready && s.rs[s.dy[i].id].src2.ready
  }

  function Issue(c: Config, s: Core, i: nat): Core
    requires CanIssue(s, i)
  {
    var d := s.dy[i];
    s.(fu := s.fu + [Beat(Tag(s.head, c.cap, i), Compute(c, s.st[i].instr.op, d.src1.val, d.src2.val))],
       dy := s.dy[i := d.(issued := true)], rs := s.rs - {d.id})
  }

  /** Stores older than entry `i` still in the LSQ, oldest first. */
  function QueueStores(c: Config, st: seq<Fetched>, dy: seq<Dyn>, i: nat): seq<SbEntry>
    requires i <= |st| == |dy|
  {
    if i == 0 then []
    else
      QueueStores(c, st, dy, i - 1) +
      if st[i - 1].instr.IsStore() && !dy[i - 1].done then [StoreEntry(c, st[i - 1], dy[i - 1])] else []
  }

  datatype Cover = Cover(word: Lanes, mask: Mask)

  /** The lanes in `want` that the stores of `list` (oldest first) provide for word `w`, each from the youngest. */
  function Forward(byteAddressed: bool, list: seq<SbEntry>, w: int, want: Mask): Cover {
    if list == [] then Cover(ZERO_LANES, NO_LANES)
    else
      var r := Forward(byteAddressed, list[..|list| - 1], w, want);
      var e := list[|list| - 1];
      if WordIndex(byteAddressed, e.addr) != w then r
      else
        var overlap := MaskAnd(e.mask, want);
        Cover(Merge(r.word, e.data, overlap), MaskOr(r.mask, overlap))
  }

  /** Every older store still in the LSQ has its address and data. */
  predicate StoresKnown(st: seq<Fetched>, dy: seq<Dyn>, i: nat)
    requires i <= |st| == |dy|
  {
    forall j :: 0 <= j < i && st[j].instr.IsStore() && !dy[j].done ==> dy[j].addrReady && dy[j].data.ready
  }

  predicate CanDispatchLoad(s: Core, i: nat) {
    && s.phase == Back && i < |s.st| == |s.dy|
    && s.st[i].instr.IsLoad() && !s.dy[i].done && s.dy[i].addrReady && s.dy[i].load == LoadIdle
    && StoresKnown(s.st, s.dy, i)
  }

  function DispatchLoad(c: Config, s: Core, i: nat): Core
    requires CanDispatchLoad(s, i)
  {
    var d, ins := s.dy[i], s.st[i].instr;
    var want := AccessMask(c.byteAddressed, ins.size, d.addr);
    var r := Forward(c.byteAddressed, s.sb + QueueStores(c, s.st, s.dy, i), WordIndex(c.byteAddressed, d.addr), want);
    var load := if r.mask == want
                then LoadReady(LoadExtend(c.byteAddressed, r.word, ins.size, ins.unsignedLoad, d.addr))
                else LoadWaiting(r.word, r.mask);
    s.(dy := s.dy[i := d.(load := load)])
  }

  // ---------------------------------------------------------------- runs

  datatype Step =
    | DoStartCycle | DoNextPhase
    | DoEnqueueStore(i: nat) | DoCommitHead
    | DoDrain | DoFillLoad(i: nat) | DoBroadcast(k: nat) | DoBroadcastLoad(i: nat) | DoResolve(k: nat)
    | DoComputeAddr(i: nat) | DoIssue(i: nat) | DoDispatchLoad(i: nat)
    | DoRename | DoFetch(taken: bool, target: Pc)

  predicate Enabled(c: Config, s: Core, e: Step) {
    match e
    case DoStartCycle => CanStartCycle(s)
    case DoNextPhase => s.phase != Back
    case DoEnqueueStore(i) => CanEnqueueStore(s, i)
    case DoCommitHead => CanCommit(s)
    case DoDrain => s.phase == Writeback && s.sb != []
    case DoFillLoad(i) => CanFill(s, i)
    case DoBroadcast(k) => CanBroadcast(c, s, k)
    case DoBroadcastLoad(i) => CanBroadcastLoad(s, i)
    case DoResolve(k) => CanResolve(c, s, k)
    case DoComputeAddr(i) => CanComputeAddr(s, i)
    case DoIssue(i) => CanIssue(s, i)
    case DoDispatchLoad(i) => CanDispatchLoad(s, i)
    case DoRename => CanRename(c, s)
    case DoFetch(taken, _) => CanFetch(c, s, taken)
  }

  function Apply(c: Config, s: Core, e: Step): Core
    requires Enabled(c, s, e)
  {
    match e
    case DoStartCycle => StartCycle(s)
    case DoNextPhase => NextPhase(s)
    case DoEnqueueStore(i) => EnqueueStore(c, s, i)
    case DoCommitHead => CommitHead(c, s)
    case DoDrain => Drain(c, s)
    case DoFillLoad(i) => FillLoad(c, s, i)
    case DoBroadcast(k) => Broadcast(c, s, k)
    case DoBroadcastLoad(i) => BroadcastLoad(c, s, i)
    case DoResolve(k) => Resolve(c, s, k)
    case DoComputeAddr(i) => ComputeAddr(s, i)
    case DoIssue(i) => Issue(c, s, i)
    case DoDispatchLoad(i) => DispatchLoad(c, s, i)
    case DoRename => Rename(c, s)
    case DoFetch(taken, target) => Fetch(c, s, taken, target)
  }

  /** Reset state over an initial memory image. */
  function Init(c: Config, image: seq<Lanes>, pc: Pc): Core {
    Core(Back, seq(c.nregs, _ => 0), image, [], 0, [], [], seq(c.nregs, _ => -1), map[], map[],
         [], [], {}, [], pc, 0, 0, 0)
  }

  /** `isFinished` before any cycle limit: nothing fetched, in flight or waiting for memory, no code at the fetch pc. */
  predicate Finished(c: Config, s: Core) {
    s.fetchPc !in c.prog && s.front == [] && s.st == [] && s.dy == [] && s.sb == []
  }

  /** Does the schedule `run` lead from `s` to `t`? */
  predicate Reaches(c: Config, s: Core, run: seq<Step>, t: Core)
    decreases |run|
  {
    if run == [] then s == t
    else Enabled(c, s, run[0]) && Reaches(c, Apply(c, s, run[0]), run[1..], t)
  }

  lemma {:induction false} ReachesAppend(c: Config, s: Core, run: seq<Step>, t: Core, more: seq<Step>, u: Core)
    requires Reaches(c, s, run, t) && Reaches(c, t, more, u)
    ensures Reaches(c, s, run + more, u)
    decreases |run|
  {
    hide Apply, Enabled;
    if run == [] {
      assert run + more == more;
    } else {
      ReachesAppend(c, Apply(c, s, run[0]), run[1..], t, more, u);
      assert (run + more)[0] == run[0] && (run + more)[1..] == run[1..] + more;
    }
  }

  lemma {:induction false} OneStep(c: Config, s: Core, e: Step)
    requires Enabled(c, s, e)
    ensures Reaches(c, s, [e], Apply(c, s, e))
  {
    hide Apply, Enabled;
    assert [e][1..] == [];
  }

  /** Some schedule leads from `s` to `t`. */
  ghost predicate Leads(c: Config, s: Core, t: Core) { exists run :: Reaches(c, s, run, t) }

  lemma {:induction false} LeadsByRun(c: Config, s: Core, run: seq<Step>, t: Core)
    requires Reaches(c, s, run, t)
    ensures Leads(c, s, t)
  {
  }

  lemma {:induction false} LeadsNowhere(c: Config, s: Core)
    ensures Leads(c, s, s)
  {
    hide Apply, Enabled;
    assert Reaches(c, s, [], s);
  }

  lemma {:induction false} LeadsOn(c: Config, s: Core, t: Core, u: Core)
    requires Leads(c, s, t) && Leads(c, t, u)
    ensures Leads(c, s, u)
  {
    hide Reaches;
    var run :| Reaches(c, s, run, t);
    var more :| Reaches(c, t, more, u);
    ReachesAppend(c, s, run, t, more, u);
  }

  lemma {:induction false} LeadsStep(c: Config, s: Core, t: Core, e: Step)
    requires Leads(c, s, t) && Enabled(c, t, e)
    ensures Leads(c, s, Apply(c, t, e))
  {
    hide Apply, Enabled;
    OneStep(c, t, e);
    LeadsByRun(c, t, [e], Apply(c, t, e));
    LeadsOn(c, s, t, Apply(c, t, e));
  }
}
