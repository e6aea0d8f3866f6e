/** The instructions of a trace and their one-at-a-time meaning. */
module Isa {
  import opened Words

  /** Access width of a memory operation. Traces only ever use `W`. */
  datatype MemSize = B | H | W

  datatype Op = ADD | SUB | MUL | DIV | ADDI | LOAD | STORE | BEQ | BNE

  /** A fetched instruction. A STORE takes its data from the register named by `dest`. */
  datatype Instr = Instr(op: Op, dest: int, src1: int, src2: int, imm: Word,
                         size: MemSize, unsignedLoad: bool)
  {
    predicate IsControl() { op == BEQ || op == BNE }
    predicate IsMem() { op == LOAD || op == STORE }
    predicate IsLoad() { op == LOAD }
    predicate IsStore() { op == STORE }
  }

  const MEMORY_WORDS: nat := 65536

  /** What a run is configured with: everything else is left to the schedule. `alu` is the arithmetic of
    * the functional units; nothing about the speculative machine depends on which arithmetic that is. */
  datatype Config = Config(nregs: nat, cap: nat, byteAddressed: bool, prog: map<Pc, Instr>,
                           alu: (Op, Word, Word) -> Word)

  /** Does the instruction have `r` as its architectural destination register? */
  predicate WritesReg(c: Config, ins: Instr, r: int) {
    !ins.IsStore() && !ins.IsControl() && ins.dest == r && 0 < r < c.nregs
  }

  // ---------------------------------------------------------------- byte lanes of an access

  /** `memWordIndex`: byte addresses lose their two low bits, word addresses are indices already. */
  function WordIndex(byteAddressed: bool, addr: Word): int {
    if byteAddressed then Unsigned(addr) / 4 else addr
  }

  function AddrLow(byteAddressed: bool, addr: Word): (low: nat)
    ensures low < 4
  {
    if byteAddressed then Unsigned(addr) % 4 else 0
  }

  /** `accessMask`: the lanes of its word that an access touches. */
  function AccessMask(byteAddressed: bool, size: MemSize, addr: Word): Mask {
    if !byteAddressed then ALL_LANES
    else
      var low := AddrLow(true, addr);
      match size
      case B => NO_LANES[low := true]
      case H => if low >= 3 then NO_LANES[3 := true] else NO_LANES[low := true][low + 1 := true]
      case W => ALL_LANES
  }

  /** `storeWdata`: the store value moved to the lanes it will be written to. */
  function StoreLanes(byteAddressed: bool, value: Word, size: MemSize, addr: Word): Lanes {
    var v := ToLanes(value);
    if !byteAddressed then v
    else
      var low := AddrLow(true, addr);
      match size
      case B => ZERO_LANES[low := v[0]]
      case H => if low >= 3 then ZERO_LANES[3 := v[0]] else ZERO_LANES[low := v[0]][low + 1 := v[1]]
      case W => v
  }

  function SignExtend(x: nat, bits: nat): Word
    requires bits == 8 || bits == 16
    requires x < 65536 && (bits == 8 ==> x < 256)
  {
    if bits == 8 then if x < 128 then x else x - 256
    else if x < 32768 then x else x - 65536
  }

  /** `loadExtend`: the register value a load makes of its word. */
  function LoadExtend(byteAddressed: bool, l: Lanes, size: MemSize, isUnsigned: bool, addr: Word): Word {
    if !byteAddressed then FromLanes(l)
    else
      var low := AddrLow(true, addr);
      match size
      case B => if isUnsigned then l[low] else SignExtend(l[low], 8)
      case H =>
        var h := if low >= 3 then l[3] else (l[low] as int) + 256 * (l[low + 1] as int);
        if isUnsigned then h else SignExtend(h, 16)
      case W => FromLanes(l)
  }

  // ---------------------------------------------------------------- flat memory

  /** Memory as a total map from word indices; a word never written holds zero. */
  type Mem = map<int, Lanes>

  function ReadWord(m: Mem, w: int): Lanes {
    if w in m then m[w] else ZERO_LANES
  }

  function WriteMasked(m: Mem, w: int, data: Lanes, mask: Mask): Mem {
    m[w := Merge(ReadWord(m, w), data, mask)]
  }

  // ---------------------------------------------------------------- one instruction

  /** Architectural state: what one instruction at a time reads and writes. */
  datatype Arch = Arch(regs: seq<Word>, mem: Mem, pc: Pc)

  /** Register 0 and register numbers outside the file read as zero. */
  function ReadReg(regs: seq<Word>, r: int): Word {
    if 0 < r < |regs| then regs[r] else 0
  }

  function WriteReg(regs: seq<Word>, r: int, v: Word): seq<Word> {
    if 0 < r < |regs| then regs[r := v] else regs
  }

  /** C++ division truncates toward zero; the overflowing quotient is taken modulo 2^32. */
  function DivTrunc(a: Word, b: Word): Word
    requires b != 0
  {
    var q: int := (if a < 0 then -(a as int) else a as int) / (if b < 0 then -(b as int) else b as int);
    Wrap32(if (a < 0) != (b < 0) then -q else q)
  }

  /** The arithmetic of the trace opcodes. */
  function ToyAlu(op: Op, a: Word, b: Word): Word {
    match op
    case ADD | ADDI => Wrap32(a + b)
    case SUB => Wrap32(a - b)
    case MUL => Wrap32(a * b)
    case DIV => if b != 0 then DivTrunc(a, b) else 0
    case _ => 0
  }

  /** The value a non-memory instruction computes from its two operands; a branch computes its taken bit. */
  function Compute(c: Config, op: Op, a: Word, b: Word): Word {
    match op
    case BEQ => if a == b then 1 else 0
    case BNE => if a != b then 1 else 0
    case _ => c.alu(op, a, b)
  }

  function Operand1(a: Arch, ins: Instr): Word { ReadReg(a.regs, ins.src1) }

  function Operand2(a: Arch, ins: Instr): Word {
    if ins.op == ADDI then ins.imm else ReadReg(a.regs, ins.src2)
  }

  function Address(a: Arch, ins: Instr): Word { Wrap32(Operand1(a, ins) + ins.imm) }

  function AccessIndex(c: Config, a: Arch, ins: Instr): int {
    WordIndex(c.byteAddressed, Address(a, ins))
  }

  /** The value the instruction delivers: ALU result, loaded value or taken bit (0 for a store). */
  function ResultOf(c: Config, a: Arch, ins: Instr): Word {
    match ins.op
    case STORE => 0
    case LOAD =>
      LoadExtend(c.byteAddressed, ReadWord(a.mem, AccessIndex(c, a, ins)), ins.size, ins.unsignedLoad, Address(a, ins))
    case _ => Compute(c, ins.op, Operand1(a, ins), Operand2(a, ins))
  }

  function NextPc(pc: Pc, ins: Instr, taken: bool): Pc {
    if ins.IsControl() && taken then PcOf(ins.imm) else Fallthrough(pc)
  }

  function MemAfter(c: Config, a: Arch, ins: Instr): Mem {
    if ins.IsStore() then
      WriteMasked(a.mem, AccessIndex(c, a, ins),
                  StoreLanes(c.byteAddressed, ReadReg(a.regs, ins.dest), ins.size, Address(a, ins)),
                  AccessMask(c.byteAddressed, ins.size, Address(a, ins)))
    else a.mem
  }

  /** The architectural effect of executing `ins` alone, at `a.pc`. */
  function Exec(c: Config, a: Arch, ins: Instr): Arch {
    Arch(if ins.IsStore() || ins.IsControl() then a.regs else WriteReg(a.regs, ins.dest, ResultOf(c, a, ins)),
         MemAfter(c, a, ins),
         NextPc(a.pc, ins, ResultOf(c, a, ins) != 0))
  }

  /** The state after `k` instructions, following real control flow; it stops where the program ends. */
  function RunN(c: Config, a: Arch, k: nat): Arch {
    if k == 0 then a
    else
      var b := RunN(c, a, k - 1);
      if b.pc in c.prog then Exec(c, b, c.prog[b.pc]) else b
  }
}
