/** The golden model: one instruction at a time over a register file and a bounded word memory. */
module Golden {
  import opened Words
  import opened Isa
  import opened Core
  import opened CoreInv
  import opened CoreRun
  import opened CoreTheorems

  // ---------------------------------------------------------------- the specification, on values

  datatype GoldenState = GoldenState(regs: seq<Word>, mem: seq<Word>, pc: Pc)

  /** Addresses outside memory read as zero. */
  function GoldenRead(mem: seq<Word>, addr: Word): Word {
    if 0 <= addr < |mem| then mem[addr] else 0
  }

  /** Writes outside memory are dropped. */
  function GoldenWrite(mem: seq<Word>, addr: Word, v: Word): seq<Word> {
    if 0 <= addr < |mem| then mem[addr := v] else mem
  }

  /** One iteration of the golden model's loop. */
  function GoldenStep(g: GoldenState, ins: Instr): GoldenState {
    var s1, s2 := ReadReg(g.regs, ins.src1), ReadReg(g.regs, ins.src2);
    var next := Fallthrough(g.pc);
    match ins.op
    case ADD => GoldenState(WriteReg(g.regs, ins.dest, Wrap32(s1 + s2)), g.mem, next)
    case SUB => GoldenState(WriteReg(g.regs, ins.dest, Wrap32(s1 - s2)), g.mem, next)
    case MUL => GoldenState(WriteReg(g.regs, ins.dest, Wrap32(s1 * s2)), g.mem, next)
    case DIV => GoldenState(WriteReg(g.regs, ins.dest, if s2 != 0 then DivTrunc(s1, s2) else 0), g.mem, next)
    case ADDI => GoldenState(WriteReg(g.regs, ins.dest, Wrap32(s1 + ins.imm)), g.mem, next)
    case LOAD => GoldenState(WriteReg(g.regs, ins.dest, GoldenRead(g.mem, Wrap32(s1 + ins.imm))), g.mem, next)
    case STORE => GoldenState(g.regs, GoldenWrite(g.mem, Wrap32(s1 + ins.imm), ReadReg(g.regs, ins.dest)), next)
    case BEQ => GoldenState(g.regs, g.mem, if s1 == s2 then PcOf(ins.imm) else next)
    case BNE => GoldenState(g.regs, g.mem, if s1 != s2 then PcOf(ins.imm) else next)
  }

  function GoldenN(prog: map<Pc, Instr>, g: GoldenState, k: nat): GoldenState {
    if k == 0 then g
    else
      var b := GoldenN(prog, g, k - 1);
      if b.pc in prog then GoldenStep(b, prog[b.pc]) else b
  }

  // ---------------------------------------------------------------- the model itself

  class GoldenModel {
    const numRegs: nat
    const arf: array<Word>
    const mem: array<Word>
    const icache: map<Pc, Instr>
    var hitLimit: bool

    ghost predicate Valid() {
      arf.Length == numRegs && mem.Length == MEMORY_WORDS && arf != mem
    }

    ghost function At(pc: Pc): GoldenState
      reads arf, mem
    {
      GoldenState(arf[..], mem[..], pc)
    }

    constructor (n: nat, prog: map<Pc, Instr>)
      ensures Valid() && fresh(arf) && fresh(mem) && icache == prog && numRegs == n
      ensures forall pc :: At(pc) == GoldenState(seq(n, _ => 0), seq(MEMORY_WORDS, _ => 0), pc)
    {
      numRegs := n;
      icache := prog;
      arf := new Word[n](_ => 0);
      mem := new Word[MEMORY_WORDS](_ => 0);
    }

    method ReadRegister(r: int) returns (v: Word)
      requires Valid()
      ensures v == ReadReg(arf[..], r)
    {
      if r <= 0 || r >= numRegs { return 0; }
      return arf[r];
    }

    method WriteRegister(r: int, v: Word)
      requires Valid()
      modifies arf
      ensures arf[..] == WriteReg(old(arf[..]), r, v)
    {
      if r > 0 && r < numRegs { arf[r] := v; }
    }

    method MemRead(addr: Word) returns (v: Word)
      requires Valid()
      ensures v == GoldenRead(mem[..], addr)
    {
      if addr < 0 || addr >= mem.Length { return 0; }
      return mem[addr];
    }

    method MemWrite(addr: Word, v: Word)
      requires Valid()
      modifies mem
      ensures mem[..] == GoldenWrite(old(mem[..]), addr, v)
    {
      if addr < 0 || addr >= mem.Length { return; }
      mem[addr] := v;
    }

    /** The body of the loop: the effect of one instruction, and the next pc. */
    method Execute(ins: Instr, pc: Pc) returns (next: Pc)
      requires Valid()
      modifies arf, mem
      ensures At(next) == GoldenStep(old(At(pc)), ins)
    {
      var s1 := ReadRegister(ins.src1);
      var s2 := ReadRegister(ins.src2);
      next := Fallthrough(pc);
      match ins.op
      case ADD => WriteRegister(ins.dest, Wrap32(s1 + s2));
      case SUB => WriteRegister(ins.dest, Wrap32(s1 - s2));
      case MUL => WriteRegister(ins.dest, Wrap32(s1 * s2));
      case DIV => WriteRegister(ins.dest, if s2 != 0 then DivTrunc(s1, s2) else 0);
      case ADDI => WriteRegister(ins.dest, Wrap32(s1 + ins.imm));
      case LOAD =>
        var v := MemRead(Wrap32(s1 + ins.imm));
        WriteRegister(ins.dest, v);
      case STORE =>
        var v := ReadRegister(ins.dest);
        MemWrite(Wrap32(s1 + ins.imm), v);
      case BEQ => if s1 == s2 { next := PcOf(ins.imm); }
      case BNE => if s1 != s2 { next := PcOf(ins.imm); }
    }

    /** Runs until the program ends or `maxSteps` instructions have executed, and counts those that did. */
    method Run(initialPc: Pc, maxSteps: nat) returns (steps: nat, pc: Pc)
      requires Valid()
      modifies this, arf, mem
      ensures steps <= maxSteps
      ensures At(pc) == GoldenN(icache, old(At(initialPc)), steps)
      ensures forall k :: 0 <= k < steps ==> GoldenN(icache, old(At(initialPc)), k).pc in icache
      ensures pc in icache <==> hitLimit
      ensures hitLimit ==> steps == maxSteps
    {
      ghost var start := At(initialPc);
      pc, steps, hitLimit := initialPc, 0, false;
      while pc in icache
        invariant steps <= maxSteps && !hitLimit
        invariant At(pc) == GoldenN(icache, start, steps)
        invariant forall k :: 0 <= k < steps ==> GoldenN(icache, start, k).pc in icache
        decreases maxSteps - steps
      {
        if steps >= maxSteps {
          hitLimit := true;
          break;
        }
        pc := Execute(icache[pc], pc);
        steps := steps + 1;
      }
    }
  }

  // ---------------------------------------------------------------- golden execution is in-order execution

  /** A trace configuration: word addresses, and the trace opcodes' own arithmetic. */
  ghost predicate ToyConfig(c: Config) {
    !c.byteAddressed && forall op, a, b :: c.alu(op, a, b) == ToyAlu(op, a, b)
  }

  /** Golden state and architectural state agree: same registers and pc, same memory, nothing stored outside it. */
  ghost predicate Agree(g: GoldenState, a: Arch) {
    && g.regs == a.regs && g.pc == a.pc && |g.mem| == MEMORY_WORDS
    && (forall w :: 0 <= w < MEMORY_WORDS ==> FromLanes(ReadWord(a.mem, w)) == g.mem[w])
    && (forall w :: w < 0 || w >= MEMORY_WORDS ==> ReadWord(a.mem, w) == ZERO_LANES)
  }

  /** The golden run of `k` instructions never stores outside memory. */
  ghost predicate GoldenInRange(c: Config, g: GoldenState, n: nat) {
    forall k :: 0 <= k < n ==> GoldenStoreInRange(c, g, k)
  }

  ghost predicate GoldenStoreInRange(c: Config, g: GoldenState, k: nat) {
    var b := GoldenN(c.prog, g, k);
    b.pc in c.prog && c.prog[b.pc].IsStore() ==>
      0 <= Wrap32(ReadReg(b.regs, c.prog[b.pc].src1) + c.prog[b.pc].imm) < MEMORY_WORDS
  }

  lemma {:induction false} ZeroWord()
    ensures FromLanes(ZERO_LANES) == 0
  {
  }

  lemma {:induction false} ToyLoad(c: Config, g: GoldenState, a: Arch, ins: Instr)
    requires ToyConfig(c) && Agree(g, a) && ins.op == LOAD
    ensures ResultOf(c, a, ins) == GoldenRead(g.mem, Address(a, ins))
  {
    ZeroWord();
  }

  lemma {:induction false} ToyStore(c: Config, g: GoldenState, a: Arch, ins: Instr)
    requires ToyConfig(c) && Agree(g, a) && ins.op == STORE && 0 <= Address(a, ins) < MEMORY_WORDS
    ensures Agree(GoldenStep(g, ins), Exec(c, a, ins))
  {
    var v, w := ReadReg(a.regs, ins.dest), Address(a, ins);
    LanesRoundTrip(v);
    WholeWord(ReadWord(a.mem, w), ToLanes(v));
    var m := MemAfter(c, a, ins);
    assert m == a.mem[w := ToLanes(v)];
    forall x | x != w ensures ReadWord(m, x) == ReadWord(a.mem, x) {
    }
  }

  lemma {:induction false} WholeWord(base: Lanes, data: Lanes)
    ensures Merge(base, data, ALL_LANES) == data
  {
  }

  /** One golden iteration is one in-order instruction, as long as it stores inside memory. */
  lemma {:induction false} StepAgrees(c: Config, g: GoldenState, a: Arch, ins: Instr)
    requires ToyConfig(c) && Agree(g, a)
    requires ins.IsStore() ==> 0 <= Address(a, ins) < MEMORY_WORDS
    ensures Agree(GoldenStep(g, ins), Exec(c, a, ins))
  {
    if ins.op == STORE {
      ToyStore(c, g, a, ins);
    } else if ins.op == LOAD {
      ToyLoad(c, g, a, ins);
    }
  }

  /** The golden run and in-order execution agree after every number of instructions. */
  lemma {:induction false} RunsAgree(c: Config, g: GoldenState, a: Arch, n: nat)
    requires ToyConfig(c) && Agree(g, a) && GoldenInRange(c, g, n)
    ensures Agree(GoldenN(c.prog, g, n), RunN(c, a, n))
  {
    hide Exec, GoldenStep;
    if n > 0 {
      RunsAgree(c, g, a, n - 1);
      var b := GoldenN(c.prog, g, n - 1);
      if b.pc in c.prog {
        assert GoldenStoreInRange(c, g, n - 1);
        StepAgrees(c, b, RunN(c, a, n - 1), c.prog[b.pc]);
      }
    }
  }

  /** Staying inside memory is the same condition for both. */
  lemma {:induction false} InRangeAgrees(c: Config, g: GoldenState, a: Arch)
    requires ToyConfig(c) && Agree(g, a) && forall n: nat :: GoldenStoreInRange(c, g, n)
    ensures StoresInRange(c, a)
  {
    hide Exec, GoldenStep;
    forall k: nat ensures StoreInRange(c, a, k) {
      RunsAgree(c, g, a, k);
      assert GoldenStoreInRange(c, g, k);
    }
  }

  // ---------------------------------------------------------------- the speculative machine against the golden model

  function Image(words: seq<Word>): seq<Lanes> {
    seq(|words|, w requires 0 <= w < |words| => ToLanes(words[w]))
  }

  ghost predicate GoldenDomain(c: Config, words: seq<Word>, pc: Pc) {
    && ToyConfig(c) && ProgOk(c) && |words| == MEMORY_WORDS
    && forall n: nat :: GoldenStoreInRange(c, GoldenReset(c, words, pc), n)
  }

  function GoldenReset(c: Config, words: seq<Word>, pc: Pc): GoldenState {
    GoldenState(seq(c.nregs, _ => 0), words, pc)
  }

  lemma {:induction false} ResetAgrees(c: Config, words: seq<Word>, pc: Pc)
    requires |words| == MEMORY_WORDS
    ensures Agree(GoldenReset(c, words, pc), Reset(c, Image(words), pc))
  {
    var m := Reset(c, Image(words), pc).mem;
    forall w | 0 <= w < MEMORY_WORDS ensures FromLanes(ReadWord(m, w)) == words[w] {
      LanesRoundTrip(words[w]);
    }
  }

  lemma {:induction false} InDomain(c: Config, words: seq<Word>, pc: Pc)
    requires GoldenDomain(c, words, pc)
    ensures Domain(c, Image(words), pc)
  {
    ResetAgrees(c, words, pc);
    InRangeAgrees(c, GoldenReset(c, words, pc), Reset(c, Image(words), pc));
  }

  /** After k commits, whatever the schedule, the machine's registers are the golden registers after k steps. */
  lemma {:induction false} CommitsMatchGolden(c: Config, words: seq<Word>, pc: Pc, run: seq<Step>, t: Core)
    requires GoldenDomain(c, words, pc) && Reaches(c, Init(c, Image(words), pc), run, t)
    ensures var g := GoldenN(c.prog, GoldenReset(c, words, pc), t.commits);
            t.arf == g.regs && NextCommitPc(t) == g.pc
  {
    hide Exec, GoldenStep;
    InDomain(c, words, pc);
    ResetAgrees(c, words, pc);
    CommitRefinement(c, Image(words), pc, run, t);
    RunsAgree(c, GoldenReset(c, words, pc), Reset(c, Image(words), pc), t.commits);
  }

  /** A finished run has the registers and the whole memory of the golden run, and the golden run has stopped too. */
  lemma {:induction false} FinishMatchesGolden(c: Config, words: seq<Word>, pc: Pc, run: seq<Step>, t: Core, n: nat)
    requires GoldenDomain(c, words, pc) && Reaches(c, Init(c, Image(words), pc), run, t)
    requires Finished(c, t) && n >= t.commits
    ensures var g := GoldenN(c.prog, GoldenReset(c, words, pc), n);
            && t.arf == g.regs && g.pc !in c.prog && |g.mem| == MEMORY_WORDS
            && forall w :: 0 <= w < MEMORY_WORDS ==> FromLanes(MainRead(t.main, w)) == g.mem[w]
  {
    hide Exec, GoldenStep;
    InDomain(c, words, pc);
    ResetAgrees(c, words, pc);
    FinishedIsFinal(c, Image(words), pc, run, t, n);
    RunsAgree(c, GoldenReset(c, words, pc), Reset(c, Image(words), pc), n);
  }
}
