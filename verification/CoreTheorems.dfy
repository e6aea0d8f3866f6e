/** What every run of the speculative machine guarantees, whatever the predictions, latencies and widths. */
module CoreTheorems {
  import opened Words
  import opened Isa
  import opened Core
  import opened CoreInv
  import opened CoreRun

  // ---------------------------------------------------------------- registers, control flow and memory

  /** The pc of the next instruction to commit: the oldest in flight, else in the front end, else to be fetched. */
  function NextCommitPc(s: Core): Pc {
    if s.st != [] then s.st[0].pc else if s.front != [] then s.front[0].pc else s.fetchPc
  }

  /** Commit refinement: after k commits the registers and the next pc are those of k in-order instructions. */
  lemma {:induction false} CommitRefinement(c: Config, image: seq<Lanes>, pc: Pc, run: seq<Step>, t: Core)
    requires Domain(c, image, pc) && Reaches(c, Init(c, image, pc), run, t)
    ensures var a := RunN(c, Reset(c, image, pc), t.commits);
            t.arf == a.regs && NextCommitPc(t) == a.pc
  {
    Reachable(c, image, pc, run, t);
    var a := RunN(c, Reset(c, image, pc), t.commits);
    assert FlightPc(a.pc, t.st, t.dy, 0) == a.pc;
    var start := FlightPc(a.pc, t.st, t.dy, |t.st|);
    assert FrontPc(start, t.front, 0) == start;
  }

  /** In-order execution stands still once it has left the program. */
  lemma {:induction false} HaltedStays(c: Config, a: Arch, k: nat, n: nat)
    requires k <= n && RunN(c, a, k).pc !in c.prog
    ensures RunN(c, a, n) == RunN(c, a, k)
    decreases n
  {
    if k < n {
      HaltedStays(c, a, k, n - 1);
    }
  }

  /** A finished run has executed the whole program: registers and memory are the final in-order ones. */
  lemma {:induction false} FinishedIsFinal(c: Config, image: seq<Lanes>, pc: Pc, run: seq<Step>, t: Core, n: nat)
    requires Domain(c, image, pc) && Reaches(c, Init(c, image, pc), run, t)
    requires Finished(c, t) && n >= t.commits
    ensures var a := RunN(c, Reset(c, image, pc), n);
            t.arf == a.regs && a.pc !in c.prog && forall w :: MainRead(t.main, w) == ReadWord(a.mem, w)
  {
    var a0 := Reset(c, image, pc);
    Reachable(c, image, pc, run, t);
    CommitRefinement(c, image, pc, run, t);
    HaltedStays(c, a0, t.commits, n);
    var a := RunN(c, a0, t.commits);
    forall w ensures MainRead(t.main, w) == ReadWord(a.mem, w) {
      assert OverlayWord(c.byteAddressed, MainRead(t.main, w), t.sb, w) == ReadWord(SpecAt(c, a, t.st, 0).mem, w);
    }
  }

  /** The committed memory image at any time: main memory with the store buffer written over it. */
  function CommittedWord(c: Config, s: Core, w: int): Lanes {
    Drained(c.byteAddressed, MainRead(s.main, w), s.sb, w)
  }

  function Drained(byteAddressed: bool, base: Lanes, sb: seq<SbEntry>, w: int): Lanes {
    if sb == [] then base
    else
      var e, older := sb[|sb| - 1], Drained(byteAddressed, base, sb[..|sb| - 1], w);
      if WordIndex(byteAddressed, e.addr) == w then Merge(older, e.data, e.mask) else older
  }

  lemma {:induction false} DrainedIsOverlay(ba: bool, base: Lanes, sb: seq<SbEntry>, w: int)
    ensures Drained(ba, base, sb, w) == OverlayWord(ba, base, sb, w)
  {
    if sb != [] {
      var older, e := sb[..|sb| - 1], sb[|sb| - 1];
      assert sb == older + [e] && [e][1..] == [];
      OverlayAppend(ba, base, older, [e], w);
      DrainedIsOverlay(ba, base, older, w);
    }
  }

  /** When all in-flight stores have been permitted, main memory plus store buffer is the in-order memory
    * after the done prefix; with nothing in flight it is the memory of the committed instructions. */
  lemma {:induction false} MemoryRefinement(c: Config, image: seq<Lanes>, pc: Pc, run: seq<Step>, t: Core, w: int,
                                            n: nat)
    requires Domain(c, image, pc) && Reaches(c, Init(c, image, pc), run, t)
    requires n == t.commits + DonePrefix(t.dy)
    ensures CommittedWord(c, t, w) == ReadWord(RunN(c, Reset(c, image, pc), n).mem, w)
  {
    Reachable(c, image, pc, run, t);
    MemoryAt(c, Reset(c, image, pc), t, w, n);
  }

  lemma {:induction false} MemoryAt(c: Config, a0: Arch, s: Core, w: int, n: nat)
    requires Inv(c, RunN(c, a0, s.commits), s) && n == s.commits + DonePrefix(s.dy)
    ensures CommittedWord(c, s, w) == ReadWord(RunN(c, a0, n).mem, w)
  {
    var g := RunN(c, a0, s.commits);
    DrainedIsOverlay(c.byteAddressed, MainRead(s.main, w), s.sb, w);
    DoneFetchedInOrder(c, g, s.st, s.dy, DonePrefix(s.dy));
    TrackIsInOrder(c, g, s.st, DonePrefix(s.dy));
    RunCompose(c, a0, s.commits, DonePrefix(s.dy), n);
  }

  /** The path invariant: from the in-order pc to the fetch pc, every pc is where its predecessor leads. */
  lemma {:induction false} PathInvariant(c: Config, image: seq<Lanes>, pc: Pc, run: seq<Step>, t: Core, i: nat)
    requires Domain(c, image, pc) && Reaches(c, Init(c, image, pc), run, t) && i < |t.st|
    ensures |t.st| == |t.dy| && t.st[i].pc in c.prog && t.st[i].instr == c.prog[t.st[i].pc]
    ensures var next := if t.dy[i].done && t.st[i].instr.IsControl()
                        then NextPc(t.st[i].pc, t.st[i].instr, t.dy[i].value != 0) else PredNext(t.st[i]);
            next == if i + 1 < |t.st| then t.st[i + 1].pc else if t.front != [] then t.front[0].pc else t.fetchPc
  {
    var a := RunN(c, Reset(c, image, pc), t.commits);
    Reachable(c, image, pc, run, t);
    assert FetchedOk(c, t.st[i]);
    assert FlightPc(a.pc, t.st, t.dy, i + 1) == NextOf(t.st[i], t.dy[i]);
    if i + 1 == |t.st| {
      assert FrontPc(NextOf(t.st[i], t.dy[i]), t.front, 0) == NextOf(t.st[i], t.dy[i]);
    }
  }

  // ---------------------------------------------------------------- loads

  /** The flat memory word a load at place `i` should see: every program-older instruction has run, one at a time. */
  ghost function FlatWord(c: Config, a0: Arch, s: Core, i: nat, w: int): Lanes
    requires i <= |s.st|
  {
    ReadWord(SpecAt(c, RunN(c, a0, s.commits), s.st, i).mem, w)
  }

  /** A load offers on the CDB, and completes with, the extension of the flat memory's word at the time of the offer. */
  lemma {:induction false} LoadValue(c: Config, image: seq<Lanes>, pc: Pc, run: seq<Step>, t: Core, i: nat)
    requires Domain(c, image, pc) && Reaches(c, Init(c, image, pc), run, t)
    requires i < |t.st| == |t.dy| && t.st[i].instr.IsLoad() && t.dy[i].load.LoadReady?
    ensures var d, ins := t.dy[i], t.st[i].instr;
            d.load.buf == LoadExtend(c.byteAddressed, FlatWord(c, Reset(c, image, pc), t, i,
                WordIndex(c.byteAddressed, d.addr)),
                                     ins.size, ins.unsignedLoad, d.addr)
  {
    hide Exec, SpecAt;
    var g := RunN(c, Reset(c, image, pc), t.commits);
    Reachable(c, image, pc, run, t);
    assert ValuesOk(c, g, t.st, t.dy, i);
  }

  /** Youngest store among the first `i` entries whose address and mask, as executed in order, cover lane `b` of word
    * `w`; -1 if there is none. */
  ghost function YoungestCover(c: Config, g: Arch, st: seq<Fetched>, i: nat, w: int, b: nat): int
    requires i <= |st| && b < 4
  {
    if i == 0 then -1
    else if StoreCovers(c, SpecAt(c, g, st, i - 1), st[i - 1].instr, w, b) then i - 1
    else YoungestCover(c, g, st, i - 1, w, b)
  }

  ghost predicate StoreCovers(c: Config, a: Arch, ins: Instr, w: int, b: nat)
    requires b < 4
  {
    ins.IsStore() && AccessIndex(c, a, ins) == w && AccessMask(c.byteAddressed, ins.size, Address(a, ins))[b]
  }

  /** Each byte of the flat memory is the byte of the youngest covering older store, or the in-order memory's byte. */
  lemma {:induction false} FlatByte(c: Config, a0: Arch, s: Core, i: nat, w: int, b: nat)
    requires i <= |s.st| && b < 4
    ensures var g := RunN(c, a0, s.commits);
            var j := YoungestCover(c, g, s.st, i, w, b);
            && -1 <= j < i
            && FlatWord(c, a0, s, i, w)[b] ==
               if j < 0 then ReadWord(g.mem, w)[b]
               else
                 var a, ins := SpecAt(c, g, s.st, j), s.st[j].instr;
                 StoreLanes(c.byteAddressed, ReadReg(a.regs, ins.dest), ins.size, Address(a, ins))[b]
  {
    hide Exec, StoreLanes, AccessMask, Address, ReadReg;
    if i > 0 {
      var g := RunN(c, a0, s.commits);
      FlatByte(c, a0, s, i - 1, w, b);
      ByteAfter(c, SpecAt(c, g, s.st, i - 1), s.st[i - 1].pc, s.st[i - 1].instr, w, b);
    }
  }

  lemma {:induction false} ByteAfter(c: Config, a: Arch, pc: Pc, ins: Instr, w: int, b: nat)
    requires b < 4
    ensures ReadWord(Exec(c, a.(pc := pc), ins).mem, w)[b] ==
            if StoreCovers(c, a, ins, w, b)
            then StoreLanes(c.byteAddressed, ReadReg(a.regs, ins.dest), ins.size, Address(a, ins))[b]
            else ReadWord(a.mem, w)[b]
  {
  }

  /** On the in-order path, the flat memory and the sources a load sees are those of the in-order state. */
  lemma {:induction false} OnTrackLoad(c: Config, image: seq<Lanes>, pc: Pc, run: seq<Step>, t: Core, i: nat, n: nat)
    requires Domain(c, image, pc) && Reaches(c, Init(c, image, pc), run, t) && n == t.commits + i
    requires i < |t.st| == |t.dy| && OnTrack(c, RunN(c, Reset(c, image, pc), t.commits), t.st, i)
    requires t.st[i].instr.IsLoad() && t.dy[i].load.LoadReady?
    ensures t.dy[i].load.buf == ResultOf(c, RunN(c, Reset(c, image, pc), n), t.st[i].instr)
  {
    var a0 := Reset(c, image, pc);
    Reachable(c, image, pc, run, t);
    TrackIsInOrder(c, RunN(c, a0, t.commits), t.st, i);
    RunCompose(c, a0, t.commits, i, n);
    assert ValuesOk(c, RunN(c, a0, t.commits), t.st, t.dy, i);
  }

  // ---------------------------------------------------------------- rename, checkpoints and operands

  /** Entry `j` is the youngest writer of `r` among the first `k` entries (-1: none writes it). */
  ghost predicate YoungestWriter(c: Config, st: seq<Fetched>, k: nat, r: int, j: int) {
    && k <= |st| && -1 <= j < k
    && (j >= 0 ==> WritesReg(c, st[j].instr, r))
    && forall m :: j < m < k ==> !WritesReg(c, st[m].instr, r)
  }

  /** `map[r]` names the youngest of the first `k` in-flight instructions that writes `r`, or -1. */
  ghost predicate NamesYoungest(c: Config, s: Core, k: nat, names: seq<int>) {
    && |names| == c.nregs
    && forall r :: 0 <= r < c.nregs ==> NameIs(c, s, k, r, names[r])
  }

  ghost predicate ControlTag(c: Config, s: Core, tag: int) {
    exists i :: 0 <= i < |s.st| && s.st[i].instr.IsControl() && tag == Tag(s.head, c.cap, i)
  }

  ghost predicate NameIs(c: Config, s: Core, k: nat, r: int, name: int) {
    exists j :: YoungestWriter(c, s.st, k, r, j) && name == MapEntry(c, s.head, j)
  }

  lemma {:induction false} LastWriterIsYoungest(c: Config, st: seq<Fetched>, k: nat, r: int)
    requires k <= |st|
    ensures YoungestWriter(c, st, k, r, LastWriter(c, st, k, r))
  {
    if k > 0 {
      LastWriterIsYoungest(c, st, k - 1, r);
    }
  }

  lemma {:induction false} MapNamesYoungest(c: Config, s: Core, k: nat, names: seq<int>)
    requires k <= |s.st| && IsMap(c, s.head, s.st, k, names)
    ensures NamesYoungest(c, s, k, names)
  {
    forall r | 0 <= r < c.nregs ensures NameIs(c, s, k, r, names[r]) {
      MapAt(c, s.head, s.st, k, names, r);
      LastWriterIsYoungest(c, s.st, k, r);
    }
  }

  /** The RAT names the youngest in-flight writer; every in-flight control instruction, and no other, has a live
    * checkpoint, and it names the youngest writers no younger than that instruction. */
  lemma {:induction false} RenameInvariant(c: Config, image: seq<Lanes>, pc: Pc, run: seq<Step>, t: Core)
    requires Domain(c, image, pc) && Reaches(c, Init(c, image, pc), run, t)
    ensures NamesYoungest(c, t, |t.st|, t.rat)
    ensures forall i :: 0 <= i < |t.st| && t.st[i].instr.IsControl() ==>
              Tag(t.head, c.cap, i) in t.ck && NamesYoungest(c, t, i + 1, t.ck[Tag(t.head, c.cap, i)])
    ensures forall tag :: tag in t.ck ==> ControlTag(c, t, tag)
  {
    Reachable(c, image, pc, run, t);
    MapNamesYoungest(c, t, |t.st|, t.rat);
    CheckpointsName(c, t);
    CheckpointsAreControl(c, t);
  }

  lemma {:induction false} CheckpointsName(c: Config, s: Core)
    requires CkOk(c, s.head, s.st, s.ck)
    ensures forall i :: 0 <= i < |s.st| && s.st[i].instr.IsControl() ==>
              Tag(s.head, c.cap, i) in s.ck && NamesYoungest(c, s, i + 1, s.ck[Tag(s.head, c.cap, i)])
  {
    forall i | 0 <= i < |s.st| && s.st[i].instr.IsControl()
      ensures Tag(s.head, c.cap, i) in s.ck && NamesYoungest(c, s, i + 1, s.ck[Tag(s.head, c.cap, i)])
    {
      MapNamesYoungest(c, s, i + 1, s.ck[Tag(s.head, c.cap, i)]);
    }
  }

  lemma {:induction false} CheckpointsAreControl(c: Config, s: Core)
    requires CkOk(c, s.head, s.st, s.ck)
    ensures forall tag :: tag in s.ck ==> ControlTag(c, s, tag)
  {
    hide Exec, ResultOf, SpecAt, AccessMask, StoreLanes, LoadExtend;
    forall tag | tag in s.ck ensures ControlTag(c, s, tag) {
      ControlTagIs(c, s, tag, Age(s.head, c.cap, tag));
    }
  }

  lemma {:induction false} ControlTagIs(c: Config, s: Core, tag: int, i: int)
    requires 0 <= i < |s.st| && s.st[i].instr.IsControl() && tag == Tag(s.head, c.cap, i)
    ensures ControlTag(c, s, tag)
  {
  }

  /** A source operand holds its in-order value, or waits for the youngest older writer of its register, which is
    * still in flight and either has yet to complete or has its wake-up registered. */
  ghost predicate Captured(c: Config, a0: Arch, s: Core, i: nat, r: int, o: Operand)
    requires i < |s.st| == |s.dy|
  {
    if o.ready then o.val == ReadReg(SpecAt(c, RunN(c, a0, s.commits), s.st, i).regs, r)
    else exists j :: 0 <= j < i && YoungestWriter(c, s.st, i, r, j) && o.tag == Tag(s.head, c.cap, j)
                     && (s.dy[j].done ==> Beat(o.tag, s.dy[j].value) in s.wake)
  }

  /** Operand capture, for every uncompleted in-flight instruction; the reservation station never disagrees. */
  lemma {:induction false} OperandCapture(c: Config, image: seq<Lanes>, pc: Pc, run: seq<Step>, t: Core, i: nat)
    requires Domain(c, image, pc) && Reaches(c, Init(c, image, pc), run, t)
    requires i < |t.st| == |t.dy| && !t.dy[i].done
    ensures var d, ins, a0 := t.dy[i], t.st[i].instr, Reset(c, image, pc);
            && Captured(c, a0, t, i, ins.src1, d.src1)
            && (if ins.op == ADDI then d.src2.ready
                 && d.src2.val == ins.imm else Captured(c, a0, t, i, ins.src2, d.src2))
            && (ins.IsStore() && ins.dest > 0 ==> Captured(c, a0, t, i, ins.dest, d.data))
            && (d.id in t.rs <==> !ins.IsMem() && !d.issued)
            && (d.id in t.rs ==> t.rs[d.id] == RsOps(d.src1, d.src2))
  {
    hide Exec;
    var g := RunN(c, Reset(c, image, pc), t.commits);
    Reachable(c, image, pc, run, t);
    assert SourcesOk(c, g, t.st, t.dy, t.head, t.wake, i);
    forall r { LastWriterIsYoungest(c, t.st, i, r); }
  }

  /** No wake-up is left when commit runs, so every wait then is on an instruction that has not completed. */
  lemma {:induction false} NoStaleWait(c: Config, image: seq<Lanes>, pc: Pc, run: seq<Step>, t: Core, i: nat)
    requires Domain(c, image, pc) && Reaches(c, Init(c, image, pc), run, t) && t.phase == Commit
    requires i < |t.st| == |t.dy| && !t.dy[i].done && !t.dy[i].src1.ready
    ensures exists j :: 0 <= j < i && t.dy[i].src1.tag == Tag(t.head, c.cap, j) && !t.dy[j].done
  {
    OperandCapture(c, image, pc, run, t, i);
    Reachable(c, image, pc, run, t);
  }

  /** Every instruction that was renamed has committed, been squashed or is in flight. */
  lemma {:induction false} InstructionsConserved(c: Config, image: seq<Lanes>, pc: Pc, run: seq<Step>, t: Core)
    requires Domain(c, image, pc) && Reaches(c, Init(c, image, pc), run, t)
    ensures |t.st| == |t.dy| && t.nextId == t.commits + t.squashed + |t.dy|
    ensures forall i, j :: 0 <= i < j < |t.dy| ==> t.dy[i].id < t.dy[j].id < t.nextId
  {
    Reachable(c, image, pc, run, t);
  }
}
