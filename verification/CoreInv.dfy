/** What every reachable state of the speculative machine satisfies, relative to the in-order model.
  *
  * `g` is always the in-order state after as many instructions as have committed. `SpecAt(g, st, i)`
  * runs the first `i` in-flight instructions from there, along the path they were fetched on, right or wrong.
  */
module CoreInv {
  import opened Words
  import opened Isa
  import opened Core

  // ---------------------------------------------------------------- in-order meaning of the flight

  ghost function SpecAt(c: Config, g: Arch, st: seq<Fetched>, i: nat): Arch
    requires i <= |st|
  {
    if i == 0 then g
    else Exec(c, SpecAt(c, g, st, i - 1).(pc := st[i - 1].pc), st[i - 1].instr)
  }

  /** The result entry `i` delivers when everything older has executed in order. */
  ghost function SpecResult(c: Config, g: Arch, st: seq<Fetched>, i: nat): Word
    requires i < |st|
  {
    ResultOf(c, SpecAt(c, g, st, i), st[i].instr)
  }

  /** The youngest entry among the first `k` that writes register `r`, or -1. */
  ghost function LastWriter(c: Config, st: seq<Fetched>, k: nat, r: int): (j: int)
    requires k <= |st|
    ensures -1 <= j < k
    ensures j >= 0 ==> WritesReg(c, st[j].instr, r)
  {
    if k == 0 then -1
    else if WritesReg(c, st[k - 1].instr, r) then k - 1
    else LastWriter(c, st, k - 1, r)
  }

  ghost function MapEntry(c: Config, head: nat, j: int): int {
    if j < 0 then -1 else Tag(head, c.cap, j)
  }

  /** The rename map after the first `k` in-flight instructions. */
  ghost function MapOf(c: Config, head: nat, st: seq<Fetched>, k: nat): (m: seq<int>)
    requires k <= |st|
    ensures |m| == c.nregs
  {
    seq(c.nregs, r requires 0 <= r < c.nregs => MapEntry(c, head, LastWriter(c, st, k, r)))
  }

  ghost predicate IsMap(c: Config, head: nat, st: seq<Fetched>, k: nat, m: seq<int>)
    requires k <= |st|
  {
    m == MapOf(c, head, st, k)
  }

  /** `m` is the rename map after everything in flight. */
  ghost predicate CurrentMap(c: Config, head: nat, st: seq<Fetched>, m: seq<int>) {
    IsMap(c, head, st, |st|, m)
  }

  lemma {:induction false} MapIs(c: Config, head: nat, st: seq<Fetched>, k: nat, m: seq<int>)
    requires k <= |st| && |m| == c.nregs
    requires forall r :: 0 <= r < c.nregs ==> m[r] == MapEntry(c, head, LastWriter(c, st, k, r))
    ensures IsMap(c, head, st, k, m)
  {
  }

  lemma {:induction false} MapAt(c: Config, head: nat, st: seq<Fetched>, k: nat, m: seq<int>, r: nat)
    requires k <= |st| && r < c.nregs && IsMap(c, head, st, k, m)
    ensures |m| == c.nregs && m[r] == MapEntry(c, head, LastWriter(c, st, k, r))
  {
  }

  // ---------------------------------------------------------------- the invariant, part by part

  /** The domain: control instructions name no destination, and fetched instructions are the program's. */
  ghost predicate ProgOk(c: Config) {
    forall p :: p in c.prog && c.prog[p].IsControl() ==> c.prog[p].dest <= 0
  }

  ghost predicate FetchedOk(c: Config, f: Fetched) {
    f.pc in c.prog && c.prog[f.pc] == f.instr && (f.predTaken ==> f.instr.IsControl())
  }

  ghost predicate AllFetched(c: Config, fs: seq<Fetched>) {
    forall i {:trigger FetchedOk(c, fs[i])} :: 0 <= i < |fs| ==> FetchedOk(c, fs[i])
  }

  /** Next pc of an in-flight instruction: predicted while unresolved, actual once resolved. */
  ghost function NextOf(f: Fetched, d: Dyn): Pc {
    if f.instr.IsControl() && d.done then NextPc(f.pc, f.instr, d.value != 0) else PredNext(f)
  }

  /** Where entry `j` of the front end continues from. */
  ghost function FrontPc(start: Pc, front: seq<Fetched>, j: nat): Pc
    requires j <= |front|
  {
    if j == 0 then start else PredNext(front[j - 1])
  }

  ghost predicate FrontOk(start: Pc, front: seq<Fetched>, fetchPc: Pc) {
    && (forall j {:trigger FrontPc(start, front, j)} :: 0 <= j < |front| ==> front[j].pc == FrontPc(start, front, j))
    && fetchPc == FrontPc(start, front, |front|)
  }

  /** Where in-flight entry `i` continues from; for `i == |st|`, where the front end starts. */
  ghost function FlightPc(gpc: Pc, st: seq<Fetched>, dy: seq<Dyn>, i: nat): Pc
    requires i <= |st| == |dy|
  {
    if i == 0 then gpc else NextOf(st[i - 1], dy[i - 1])
  }

  ghost predicate FlightPcOk(gpc: Pc, st: seq<Fetched>, dy: seq<Dyn>)
    requires |st| == |dy|
  {
    forall i {:trigger FlightPc(gpc, st, dy, i)} :: 0 <= i < |st| ==> st[i].pc == FlightPc(gpc, st, dy, i)
  }

  /** The path invariant: one chain of pcs from the in-order pc to the fetch pc. */
  ghost predicate PathOk(c: Config, gpc: Pc, st: seq<Fetched>, dy: seq<Dyn>, front: seq<Fetched>, fetchPc: Pc)
    requires |st| == |dy|
  {
    && AllFetched(c, st) && AllFetched(c, front)
    && FlightPcOk(gpc, st, dy)
    && FrontOk(FlightPc(gpc, st, dy, |st|), front, fetchPc)
  }

  /** Every in-flight control instruction, and nothing else, has a checkpoint: the map just after it. */
  ghost predicate CkOk(c: Config, head: nat, st: seq<Fetched>, ck: map<int, seq<int>>) {
    && (forall i :: 0 <= i < |st| && st[i].instr.IsControl() ==>
          Tag(head, c.cap, i) in ck && IsMap(c, head, st, i + 1, ck[Tag(head, c.cap, i)]))
    && (forall t :: t in ck ==>
          0 <= t < c.cap && 0 <= Age(head, c.cap, t) < |st| && st[Age(head, c.cap, t)].instr.IsControl())
  }

  /** A source captured by entry `i` for register `r`: its producer's value, or a wait on the producer's tag. */
  ghost predicate OperandOk(c: Config, g: Arch, st: seq<Fetched>, dy: seq<Dyn>, head: nat, wake: seq<Beat>,
                      i: nat, r: int, o: Operand)
    requires i <= |st| == |dy|
  {
    if o.ready then o.val == ReadReg(SpecAt(c, g, st, i).regs, r)
    else
      var j := LastWriter(c, st, i, r);
      && j >= 0 && o.tag == Tag(head, c.cap, j)
      && (dy[j].done ==> Beat(o.tag, dy[j].value) in wake)
  }

  ghost predicate SourcesOk(c: Config, g: Arch, st: seq<Fetched>, dy: seq<Dyn>, head: nat, wake: seq<Beat>, i: nat)
    requires i < |st| == |dy|
  {
    var d, ins := dy[i], st[i].instr;
    && OperandOk(c, g, st, dy, head, wake, i, ins.src1, d.src1)
    && (if ins.op == ADDI then d.src2.ready && d.src2.val == ins.imm
        else OperandOk(c, g, st, dy, head, wake, i, ins.src2, d.src2))
    && (if ins.IsStore() && ins.dest > 0 then OperandOk(c, g, st, dy, head, wake, i, ins.dest, d.data)
        else !d.data.ready && d.data.tag == -1)
  }

  /** Results and addresses are those of in-order execution. */
  ghost predicate ValuesOk(c: Config, g: Arch, st: seq<Fetched>, dy: seq<Dyn>, i: nat)
    requires i < |st| == |dy|
  {
    var d, ins := dy[i], st[i].instr;
    && (d.done ==> d.value == SpecResult(c, g, st, i))
    && (d.addrReady ==> ins.IsMem() && d.addr == Address(SpecAt(c, g, st, i), ins))
    && (d.done && !ins.IsMem() ==> d.issued)
    && (d.issued ==> !ins.IsMem())
    && (d.load != LoadIdle ==> ins.IsLoad() && d.addrReady)
    && (d.load.LoadReady? ==> d.load.buf == SpecResult(c, g, st, i))
    && (ins.IsStore() && d.done ==> forall j :: 0 <= j < i ==> dy[j].done)
  }

  ghost predicate EntryCovers(byteAddressed: bool, e: SbEntry, w: int, b: nat)
    requires b < 4
  {
    WordIndex(byteAddressed, e.addr) == w && e.mask[b]
  }

  /** No store of `list` touches lane `b` of word `w`. */
  ghost predicate Uncovered(byteAddressed: bool, list: seq<SbEntry>, w: int, b: nat)
    requires b < 4
  {
    forall k :: 0 <= k < |list| ==> !EntryCovers(byteAddressed, list[k], w, b)
  }

  /** A dispatched load still waiting for memory: forwarded lanes are right, the others in no pending older store. */
  ghost predicate LoadOk(c: Config, g: Arch, st: seq<Fetched>, dy: seq<Dyn>, sb: seq<SbEntry>, i: nat)
    requires i < |st| == |dy|
  {
    dy[i].load.LoadWaiting? && !dy[i].done ==>
      var d, ins := dy[i], st[i].instr;
      var w := WordIndex(c.byteAddressed, d.addr);
      var want := AccessMask(c.byteAddressed, ins.size, d.addr);
      && StoresKnown(st, dy, i)
      && forall b :: 0 <= b < 4 && want[b] ==>
           if d.load.mask[b] then d.load.word[b] == ReadWord(SpecAt(c, g, st, i).mem, w)[b]
           else Uncovered(c.byteAddressed, sb + QueueStores(c, st, dy, i), w, b)
  }

  /** The reservation stations hold exactly the unissued non-memory instructions, with the table's operands. */
  ghost predicate RsOk(st: seq<Fetched>, dy: seq<Dyn>, rs: map<nat, RsOps>)
    requires |st| == |dy|
  {
    && (forall i :: 0 <= i < |st| ==>
          (dy[i].id in rs <==> !st[i].instr.IsMem() && !dy[i].issued))
    && (forall i :: 0 <= i < |st| && dy[i].id in rs ==> rs[dy[i].id] == RsOps(dy[i].src1, dy[i].src2))
    && (forall id :: id in rs ==> exists i :: 0 <= i < |dy| && dy[i].id == id)
  }

  ghost predicate IdsOk(dy: seq<Dyn>, nextId: nat) {
    && (forall i :: 0 <= i < |dy| ==> dy[i].id < nextId)
    && (forall i, j :: 0 <= i < j < |dy| ==> dy[i].id < dy[j].id)
  }

  ghost predicate BeatOk(c: Config, g: Arch, st: seq<Fetched>, dy: seq<Dyn>, head: nat, b: Beat)
    requires |st| == |dy|
  {
    && 0 <= b.tag < c.cap && 0 <= Age(head, c.cap, b.tag) < |st|
    && var i := Age(head, c.cap, b.tag);
       !st[i].instr.IsMem() && dy[i].issued && !dy[i].done && b.val == SpecResult(c, g, st, i)
  }

  /** Functional units carry exactly the issued, uncompleted instructions, each once, with the right result. */
  ghost predicate FuOk(c: Config, g: Arch, st: seq<Fetched>, dy: seq<Dyn>, head: nat, fu: seq<Beat>)
    requires |st| == |dy|
  {
    && (forall b :: b in fu ==> BeatOk(c, g, st, dy, head, b))
    && DistinctTags(fu)
    && (forall i :: 0 <= i < |st| && dy[i].issued && !dy[i].done ==> HasBeat(fu, Tag(head, c.cap, i)))
  }

  ghost predicate DistinctTags(fu: seq<Beat>) {
    forall k, m :: 0 <= k < m < |fu| ==> fu[k].tag != fu[m].tag
  }

  ghost predicate HasBeat(fu: seq<Beat>, tag: int) {
    exists b :: b in fu && b.tag == tag
  }

  /** A registered wake-up belongs to a completed in-flight entry and carries its value. */
  ghost predicate WakeBeatOk(c: Config, dy: seq<Dyn>, head: nat, b: Beat) {
    && 0 <= b.tag < c.cap && 0 <= Age(head, c.cap, b.tag) < |dy|
    && dy[Age(head, c.cap, b.tag)].done && b.val == dy[Age(head, c.cap, b.tag)].value
  }

  ghost predicate WakeOk(c: Config, dy: seq<Dyn>, head: nat, wake: seq<Beat>) {
    forall b :: b in wake ==> WakeBeatOk(c, dy, head, b)
  }

  /** How many of the oldest instructions are all done. */
  ghost function DonePrefix(dy: seq<Dyn>): (n: nat)
    ensures n <= |dy|
    ensures forall j :: 0 <= j < n ==> dy[j].done
    ensures n < |dy| ==> !dy[n].done
  {
    if dy == [] || !dy[0].done then 0 else 1 + DonePrefix(dy[1..])
  }

  /** Word `w` after the pending stores of `list` have been written over `base`. */
  ghost function OverlayWord(byteAddressed: bool, base: Lanes, list: seq<SbEntry>, w: int): Lanes
    decreases |list|
  {
    if list == [] then base
    else
      var e := list[0];
      OverlayWord(byteAddressed,
                  if WordIndex(byteAddressed, e.addr) == w then Merge(base, e.data, e.mask) else base,
                  list[1..], w)
  }

  ghost predicate SbInRange(c: Config, sb: seq<SbEntry>) {
    forall k :: 0 <= k < |sb| ==> 0 <= WordIndex(c.byteAddressed, sb[k].addr) < MEMORY_WORDS
  }

  /** Main memory with the store buffer written over it is the in-order memory after the done prefix. */
  ghost predicate MemOk(c: Config, g: Arch, st: seq<Fetched>, dy: seq<Dyn>, main: seq<Lanes>, sb: seq<SbEntry>)
    requires |st| == |dy|
  {
    && |main| == MEMORY_WORDS && SbInRange(c, sb)
    && forall w :: OverlayWord(c.byteAddressed, MainRead(main, w), sb, w)
                == ReadWord(SpecAt(c, g, st, DonePrefix(dy)).mem, w)
  }

  /** Tags freed this cycle are not in flight until rename runs, and no wake-up survives into commit. */
  ghost predicate PhaseOk(c: Config, phase: Phase, head: nat, n: nat, freed: set<int>, wake: seq<Beat>) {
    && (phase != Back ==> forall i :: 0 <= i < n ==> Tag(head, c.cap, i) !in freed)
    && (phase == Commit ==> wake == [])
  }

  ghost predicate ShapeOk(c: Config, head: nat, st: seq<Fetched>, dy: seq<Dyn>) {
    && |st| == |dy| <= c.cap
    && (c.cap > 0 ==> head < c.cap)
  }

  ghost predicate AllSources(c: Config, g: Arch, st: seq<Fetched>, dy: seq<Dyn>, head: nat, wake: seq<Beat>)
    requires |st| == |dy|
  {
    forall i :: 0 <= i < |st| && !dy[i].done ==> SourcesOk(c, g, st, dy, head, wake, i)
  }

  ghost predicate AllValues(c: Config, g: Arch, st: seq<Fetched>, dy: seq<Dyn>)
    requires |st| == |dy|
  {
    forall i :: 0 <= i < |st| ==> ValuesOk(c, g, st, dy, i)
  }

  ghost predicate AllLoads(c: Config, g: Arch, st: seq<Fetched>, dy: seq<Dyn>, sb: seq<SbEntry>)
    requires |st| == |dy|
  {
    forall i :: 0 <= i < |st| ==> LoadOk(c, g, st, dy, sb, i)
  }

  ghost predicate RegsOk(c: Config, g: Arch, arf: seq<Word>) {
    arf == g.regs && |arf| == c.nregs
  }

  /** Tags, rename map, checkpoints, reservation stations and counters. */
  ghost predicate NamesInv(c: Config, s: Core) {
    && ShapeOk(c, s.head, s.st, s.dy)
    && s.nextId == s.commits + s.squashed + |s.st|
    && CurrentMap(c, s.head, s.st, s.rat)
    && CkOk(c, s.head, s.st, s.ck)
    && RsOk(s.st, s.dy, s.rs)
    && IdsOk(s.dy, s.nextId)
    && PhaseOk(c, s.phase, s.head, |s.st|, s.freed, s.wake)
  }

  /** Registers, operands, results and memory. */
  ghost predicate DataInv(c: Config, g: Arch, s: Core)
    requires |s.st| == |s.dy|
  {
    && RegsOk(c, g, s.arf)
    && AllSources(c, g, s.st, s.dy, s.head, s.wake)
    && AllValues(c, g, s.st, s.dy)
    && AllLoads(c, g, s.st, s.dy, s.sb)
    && FuOk(c, g, s.st, s.dy, s.head, s.fu)
    && WakeOk(c, s.dy, s.head, s.wake)
    && MemOk(c, g, s.st, s.dy, s.main, s.sb)
  }

  /** The invariant without the chain of pcs. */
  ghost predicate BackInv(c: Config, g: Arch, s: Core) {
    NamesInv(c, s) && DataInv(c, g, s)
  }

  ghost predicate Inv(c: Config, g: Arch, s: Core) {
    BackInv(c, g, s) && PathOk(c, g.pc, s.st, s.dy, s.front, s.fetchPc)
  }

  // ---------------------------------------------------------------- the flight grows and shrinks at its ends

  lemma {:induction false} SpecPrefix(c: Config, g: Arch, st: seq<Fetched>, more: seq<Fetched>, i: nat)
    requires i <= |st|
    ensures SpecAt(c, g, st + more, i) == SpecAt(c, g, st, i)
  {
    hide Exec;
    if i > 0 {
      SpecPrefix(c, g, st, more, i - 1);
      assert (st + more)[i - 1] == st[i - 1];
    }
  }

  lemma {:induction false} WriterPrefix(c: Config, st: seq<Fetched>, more: seq<Fetched>, i: nat, r: int)
    requires i <= |st|
    ensures LastWriter(c, st + more, i, r) == LastWriter(c, st, i, r)
  {
    if i > 0 {
      WriterPrefix(c, st, more, i - 1, r);
      assert (st + more)[i - 1] == st[i - 1];
    }
  }

  lemma {:induction false} SpecShift(c: Config, g: Arch, st: seq<Fetched>, i: nat)
    requires 0 < i <= |st| && g.pc == st[0].pc
    ensures SpecAt(c, Exec(c, g, st[0].instr), st[1..], i - 1) == SpecAt(c, g, st, i)
  {
    if i == 1 {
      assert SpecAt(c, g, st, 0) == g;
      assert g.(pc := st[0].pc) == g;
    } else {
      SpecShift(c, g, st, i - 1);
      assert st[1..][i - 2] == st[i - 1];
    }
  }

  lemma {:induction false} WriterShift(c: Config, st: seq<Fetched>, i: nat, r: int)
    requires 0 < i <= |st|
    ensures var j := LastWriter(c, st, i, r);
            LastWriter(c, st[1..], i - 1, r) == if j <= 0 then -1 else j - 1
  {
    if i > 1 {
      WriterShift(c, st, i - 1, r);
      assert st[1..][i - 2] == st[i - 1];
    }
  }

  lemma {:induction false} QueuePrefix(c: Config, st: seq<Fetched>, dy: seq<Dyn>, st': seq<Fetched>, dy': seq<Dyn>,
                                       i: nat)
    requires i <= |st| == |dy| && i <= |st'| == |dy'|
    requires forall j :: 0 <= j < i ==> st'[j] == st[j]
    requires forall j :: 0 <= j < i && st[j].instr.IsStore() ==> dy'[j].done == dy[j].done
    requires forall j :: 0 <= j < i && st[j].instr.IsStore() && !dy[j].done ==>
               dy'[j].addr == dy[j].addr && dy'[j].data.val == dy[j].data.val
    ensures QueueStores(c, st', dy', i) == QueueStores(c, st, dy, i)
  {
    if i > 0 {
      QueuePrefix(c, st, dy, st', dy', i - 1);
    }
  }

  lemma {:induction false} QueueShift(c: Config, st: seq<Fetched>, dy: seq<Dyn>, i: nat)
    requires 0 < i <= |st| == |dy| && dy[0].done
    ensures QueueStores(c, st[1..], dy[1..], i - 1) == QueueStores(c, st, dy, i)
  {
    if i > 1 {
      QueueShift(c, st, dy, i - 1);
      assert st[1..][i - 2] == st[i - 1] && dy[1..][i - 2] == dy[i - 1];
    } else {
      assert QueueStores(c, st, dy, 0) == [];
    }
  }

  lemma {:induction false} ExecReg(c: Config, a: Arch, pc: Pc, ins: Instr, r: int)
    requires |a.regs| == c.nregs && (ins.IsControl() ==> ins.dest <= 0)
    ensures var a' := Exec(c, a.(pc := pc), ins);
            && |a'.regs| == c.nregs
            && ReadReg(a'.regs, r) == if WritesReg(c, ins, r) then ResultOf(c, a, ins) else ReadReg(a.regs, r)
  {
    assert ResultOf(c, a.(pc := pc), ins) == ResultOf(c, a, ins);
  }

  /** The value a register has before entry `i` is the one its last writer leaves. */
  lemma {:induction false} RegFromWriter(c: Config, g: Arch, st: seq<Fetched>, i: nat, r: int)
    requires i <= |st| && |g.regs| == c.nregs
    requires forall k :: 0 <= k < |st| ==> st[k].instr.IsControl() ==> st[k].instr.dest <= 0
    ensures |SpecAt(c, g, st, i).regs| == c.nregs
    ensures var j := LastWriter(c, st, i, r);
            ReadReg(SpecAt(c, g, st, i).regs, r)
            == if j < 0 then ReadReg(g.regs, r) else SpecResult(c, g, st, j)
  {
    if i > 0 {
      RegFromWriter(c, g, st, i - 1, r);
      ExecReg(c, SpecAt(c, g, st, i - 1), st[i - 1].pc, st[i - 1].instr, r);
    }
  }

  // ---------------------------------------------------------------- pending stores over memory

  lemma {:induction false} OverlayAppend(ba: bool, base: Lanes, a: seq<SbEntry>, b: seq<SbEntry>, w: int)
    ensures OverlayWord(ba, base, a + b, w) == OverlayWord(ba, OverlayWord(ba, base, a, w), b, w)
    decreases |a|
  {
    if a == [] {
      assert a + b == b;
    } else {
      var e := a[0];
      assert (a + b)[1..] == a[1..] + b;
      OverlayAppend(ba, if WordIndex(ba, e.addr) == w then Merge(base, e.data, e.mask) else base, a[1..], b, w);
    }
  }

  lemma {:induction false} OverlayUncovered(ba: bool, base: Lanes, list: seq<SbEntry>, w: int, b: nat)
    requires b < 4 && Uncovered(ba, list, w, b)
    ensures OverlayWord(ba, base, list, w)[b] == base[b]
    decreases |list|
  {
    if list != [] {
      var e := list[0];
      assert !EntryCovers(ba, list[0], w, b);
      assert Uncovered(ba, list[1..], w, b) by {
        forall k | 0 <= k < |list[1..]| ensures !EntryCovers(ba, list[1..][k], w, b) {
          assert !EntryCovers(ba, list[k + 1], w, b);
        }
      }
      OverlayUncovered(ba, if WordIndex(ba, e.addr) == w then Merge(base, e.data, e.mask) else base, list[1..], w, b);
    }
  }

  /** Forwarding gives exactly the overlay on the lanes it covers; the others are in no pending store. */
  lemma {:induction false} ForwardIsOverlay(ba: bool, base: Lanes, list: seq<SbEntry>, w: int, want: Mask, b: nat)
    requires b < 4
    ensures var r := Forward(ba, list, w, want);
            && (r.mask[b] ==> want[b] && r.word[b] == OverlayWord(ba, base, list, w)[b])
            && (want[b] && !r.mask[b] ==> Uncovered(ba, list, w, b))
    decreases |list|
  {
    if list != [] {
      var front, e := list[..|list| - 1], list[|list| - 1];
      ForwardIsOverlay(ba, base, front, w, want, b);
      assert list == front + [e];
      OverlayAppend(ba, base, front, [e], w);
      var o := OverlayWord(ba, base, front, w);
      assert OverlayWord(ba, o, [e], w) == if WordIndex(ba, e.addr) == w then Merge(o, e.data, e.mask) else o;
      var r := Forward(ba, list, w, want);
      if want[b] && !r.mask[b] {
        forall k | 0 <= k < |list| ensures !EntryCovers(ba, list[k], w, b) {
          if k < |front| {
            assert list[k] == front[k];
          }
        }
      }
    }
  }

  lemma {:induction false} LoadExtendLanes(ba: bool, l: Lanes, m: Lanes, size: MemSize, isUnsigned: bool, addr: Word)
    requires forall b :: 0 <= b < 4 && AccessMask(ba, size, addr)[b] ==> l[b] == m[b]
    ensures LoadExtend(ba, l, size, isUnsigned, addr) == LoadExtend(ba, m, size, isUnsigned, addr)
  {
    var low := AddrLow(ba, addr);
    if !ba || size == W {
      assert AccessMask(ba, size, addr) == ALL_LANES;
      assert l == m;
    } else if size == B {
      assert AccessMask(ba, size, addr)[low];
    } else if low >= 3 {
      assert AccessMask(ba, size, addr)[3];
    } else {
      assert AccessMask(ba, size, addr)[low] && AccessMask(ba, size, addr)[low + 1];
    }
  }
}
