/** What the arithmetic, the addresses and the byte lanes of the instructions mean, stated by ranges, congruences and
  * single bytes. In-order execution, the golden model and the pipeline share these functions, so agreement between
  * them says nothing about what the functions compute. */
module IsaMeaning {
  import opened Words
  import opened Isa
  import MExtension

  const P32: int := 0x1_0000_0000
  const P64: int := 0x1_0000_0000_0000_0000

  // ---------------------------------------------------------------- words, program counters and registers

  /** A wrapped value is the only one of its width that differs from the exact value by a multiple of 2^32. */
  lemma {:induction false} Wraps(x: int)
    ensures (Wrap32(x) - x) % P32 == 0 && (Unsigned(x) - x) % P32 == 0
  {
  }

  /** Jumps sign-extend their immediate, and all program counter arithmetic is modulo 2^64. */
  lemma {:induction false} NextPcWraps(pc: Pc, ins: Instr, taken: bool)
    ensures NextPc(pc, ins, taken) == (if ins.IsControl() && taken then ins.imm else pc + 4) % P64
  {
  }

  /** Reading after a write gives the value written; register 0 and registers outside the file always read zero. */
  lemma {:induction false} RegisterFile(regs: seq<Word>, w: int, v: Word, r: int)
    ensures ReadReg(WriteReg(regs, w, v), r) == if r == w && 0 < w < |regs| then v else ReadReg(regs, r)
    ensures r <= 0 || r >= |regs| ==> ReadReg(regs, r) == 0
  {
  }

  // ---------------------------------------------------------------- the arithmetic of the trace opcodes

  /** The quotient whose remainder is smaller than the divisor and has the sign of the dividend. */
  predicate Truncated(a: int, b: int, q: int) {
    var r := a - b * q;
    (b > 0 ==> -b < r < b) && (b < 0 ==> b < r < -b) && (a >= 0 ==> r >= 0) && (a <= 0 ==> r <= 0)
  }

  lemma {:induction false} QuotientTruncates(a: int, b: int)
    requires b != 0
    ensures Truncated(a, b, MExtension.Quotient(a, b))
  {
    var m, n := if a >= 0 then a else -a, if b > 0 then b else -b;
    var x := m / n;
    DivMod(m, n);
    Signs(n, x);
    assert MExtension.Quotient(a, b) == if (a >= 0) == (b > 0) then x else -x;
    assert b * MExtension.Quotient(a, b) == if a >= 0 then n * x else -(n * x);
  }

  lemma {:induction false} DivMod(m: int, n: int)
    requires m >= 0 && n > 0
    ensures 0 <= m - n * (m / n) < n
  {
  }

  lemma {:induction false} Signs(n: int, x: int)
    ensures (-n) * (-x) == n * x && (-n) * x == -(n * x) && n * (-x) == -(n * x)
  {
  }

  /** A quotient of words is a word, except for the one that overflows. */
  lemma {:induction false} QuotientFits(a: Word, b: Word)
    requires b != 0 && !(a == -0x8000_0000 && b == -1)
    ensures -0x8000_0000 <= MExtension.Quotient(a, b) < 0x8000_0000
  {
    var m: int, n: int := if a >= 0 then a as int else -(a as int), if b > 0 then b as int else -(b as int);
    if n >= 2 {
      HalfAtMost(m, n);
    } else {
      assert m / 1 == m;
    }
  }

  lemma {:induction false} HalfAtMost(m: int, n: int)
    requires 0 <= m <= 0x8000_0000 && n >= 2
    ensures 0 <= m / n <= 0x4000_0000
  {
    var q := m / n;
    assert m == n * q + m % n;
    assert q >= 0;
    assert n * q >= 2 * q;
  }

  /** DIV truncates toward zero: apart from the one quotient that overflows, the remainder is smaller than the divisor
    * and has the sign of the dividend. It is the quotient of the M extension. */
  lemma {:induction false} DivTruncates(a: Word, b: Word)
    requires b != 0
    ensures a == -0x8000_0000 && b == -1 ==> DivTrunc(a, b) == -0x8000_0000
    ensures !(a == -0x8000_0000 && b == -1) ==> Truncated(a, b, DivTrunc(a, b))
    ensures DivTrunc(a, b) == MExtension.Div(a, b)
  {
    if a == -0x8000_0000 && b == -1 {
      assert 0x8000_0000 / 1 == 0x8000_0000;
    } else {
      QuotientTruncates(a, b);
      QuotientFits(a, b);
      hide Truncated;
    }
  }

  /** Sums, differences and products are exact modulo 2^32; dividing by zero gives zero. */
  lemma {:induction false} AluWraps(a: Word, b: Word)
    ensures (ToyAlu(ADD, a, b) - (a + b)) % P32 == 0 && ToyAlu(ADDI, a, b) == ToyAlu(ADD, a, b)
    ensures (ToyAlu(SUB, a, b) - (a - b)) % P32 == 0
    ensures (ToyAlu(MUL, a, b) - a * b) % P32 == 0 && ToyAlu(MUL, a, b) == MExtension.Mul(a, b)
    ensures ToyAlu(DIV, a, b) == if b == 0 then 0 else MExtension.Div(a, b)
  {
    Wraps(a + b);
    Wraps(a - b);
    Wraps(a * b);
    MExtension.MulIsLow(a, b);
    if b != 0 {
      DivTruncates(a, b);
    }
  }

  // ---------------------------------------------------------------- addresses and bytes

  /** Byte `k` of a number in two's complement, least significant first. */
  function Digit(v: int, k: nat): (d: int)
    ensures 0 <= d < 256
    decreases k
  {
    if k == 0 then v % 256 else Digit(v / 256, k - 1)
  }

  /** Byte-addressed memory, one byte at a time. */
  function ByteAt(m: Mem, x: nat): Byte { ReadWord(m, x / 4)[x % 4] }

  /** The address of the first byte of an access. A word access drops the two low bits. */
  function First(size: MemSize, addr: Word): (x: nat) {
    if size == W then Unsigned(addr) - Unsigned(addr) % 4 else Unsigned(addr)
  }

  /** How many bytes an access has. A halfword at the last byte of a word is cut to that byte. */
  function Width(size: MemSize, addr: Word): nat {
    match size
    case B => 1
    case H => if Unsigned(addr) % 4 == 3 then 1 else 2
    case W => 4
  }

  /** The four bytes of a word access's address, or the fewer of a narrower one, lie in one memory word. */
  lemma {:induction false} AddressSplits(size: MemSize, addr: Word)
    ensures First(size, addr) / 4 == (First(size, addr) + Width(size, addr) - 1) / 4 == WordIndex(true, addr)
    ensures 4 * WordIndex(true, addr) + AddrLow(true, addr) == Unsigned(addr)
    ensures 0 <= WordIndex(true, addr) < 0x4000_0000
  {
    var a := Unsigned(addr);
    assert a == 4 * (a / 4) + a % 4;
  }

  lemma {:induction false} DigitsAre(v: int)
    ensures Digit(v, 0) == v % 256 && Digit(v, 1) == v / 256 % 256
    ensures Digit(v, 2) == v / 256 / 256 % 256 && Digit(v, 3) == v / 256 / 256 / 256 % 256
  {
    assert Digit(v, 1) == Digit(v / 256, 0);
    assert Digit(v, 2) == Digit(v / 256, 1) == Digit(v / 256 / 256, 0);
    assert Digit(v, 3) == Digit(v / 256, 2) == Digit(v / 256 / 256, 1) == Digit(v / 256 / 256 / 256, 0);
  }

  /** Four bytes and a multiple of 2^32 have those bytes as their low digits. */
  lemma {:induction false} DigitsOfSum(b0: Byte, b1: Byte, b2: Byte, b3: Byte, k: int)
    ensures var v := b0 + 256 * (b1 + 256 * (b2 + 256 * (b3 + 256 * k)));
            Digit(v, 0) == b0 && Digit(v, 1) == b1 && Digit(v, 2) == b2 && Digit(v, 3) == b3
  {
    var v3 := b3 + 256 * k;
    var v2 := b2 + 256 * v3;
    var v1 := b1 + 256 * v2;
    var v := b0 + 256 * v1;
    DigitsAre(v);
    assert v / 256 == v1 && v1 / 256 == v2 && v2 / 256 == v3;
  }

  /** The lanes of a register word are its bytes, the least significant first. */
  lemma {:induction false} LanesAreDigits(v: Word, k: nat)
    requires k < 4
    ensures ToLanes(v)[k] == Digit(v, k)
  {
    var l := ToLanes(v);
    LanesRoundTrip(v);
    JoinedDigits(l, k);
  }

  /** Bytes joined to a word are its bytes. */
  lemma {:induction false} JoinedDigits(l: Lanes, k: nat)
    requires k < 4
    ensures Digit(FromLanes(l), k) == l[k]
  {
    var u := Combine(l);
    DigitsOfSum(l[0], l[1], l[2], l[3], 0);
    DigitsOfSum(l[0], l[1], l[2], l[3], -1);
    assert FromLanes(l) == u || FromLanes(l) == u - P32;
  }

  // ---------------------------------------------------------------- loads and stores, byte by byte

  /** Memory after a byte-addressed store. */
  function Stored(m: Mem, value: Word, size: MemSize, addr: Word): Mem {
    WriteMasked(m, WordIndex(true, addr), StoreLanes(true, value, size, addr), AccessMask(true, size, addr))
  }

  /** What a byte-addressed load brings. */
  function Loaded(m: Mem, size: MemSize, isUnsigned: bool, addr: Word): Word {
    LoadExtend(true, ReadWord(m, WordIndex(true, addr)), size, isUnsigned, addr)
  }

  /** A store writes the low bytes of its value to its own bytes of memory, in order, and no others. */
  lemma {:induction false} StoreWritesItsBytes(m: Mem, value: Word, size: MemSize, addr: Word, x: nat)
    ensures var first := First(size, addr);
            ByteAt(Stored(m, value, size, addr), x)
            == if first <= x < first + Width(size, addr) then Digit(value, x - first) else ByteAt(m, x)
  {
    var w, first := WordIndex(true, addr), First(size, addr);
    AddressSplits(size, addr);
    assert x == 4 * (x / 4) + x % 4;
    if x / 4 == w && first <= x < first + Width(size, addr) {
      LanesAreDigits(value, x - first);
    }
  }

  /** A load's low bytes are its own bytes of memory; a narrow signed load is sign-extended, any other narrow load
    * zero-extended, and so is a halfword cut to one byte. */
  lemma {:induction false} LoadReadsItsBytes(m: Mem, size: MemSize, isUnsigned: bool, addr: Word)
    ensures var r := Loaded(m, size, isUnsigned, addr);
            && (forall k :: 0 <= k < Width(size, addr) ==> Digit(r, k) == ByteAt(m, First(size, addr) + k))
            && (size == B ==> if isUnsigned then 0 <= r < 256 else -128 <= r < 128)
            && (size == H && Width(H, addr) == 2 ==> if isUnsigned then 0 <= r < 65536 else -32768 <= r < 32768)
            && (size == H && Width(H, addr) == 1 ==> 0 <= r < 256)
  {
    forall k | 0 <= k < Width(size, addr)
      ensures Digit(Loaded(m, size, isUnsigned, addr), k) == ByteAt(m, First(size, addr) + k)
    {
      LoadDigit(m, size, isUnsigned, addr, k);
    }
    hide Digit, ByteAt, First;
  }

  lemma {:induction false} LoadDigit(m: Mem, size: MemSize, isUnsigned: bool, addr: Word, k: nat)
    requires k < Width(size, addr)
    ensures Digit(Loaded(m, size, isUnsigned, addr), k) == ByteAt(m, First(size, addr) + k)
  {
    hide FromLanes, SignExtend, Digit;
    var l, low := ReadWord(m, WordIndex(true, addr)), AddrLow(true, addr);
    AddressSplits(size, addr);
    match size
    case B => NarrowDigits(l[low], 0, 8);
    case H => if low == 3 { NarrowDigits(l[3], 0, 16); } else { NarrowDigits(l[low], l[low + 1], 16); }
    case W => JoinedDigits(l, k);
  }

  /** Sign extension keeps the low bytes. */
  lemma {:induction false} NarrowDigits(b0: Byte, b1: Byte, bits: nat)
    requires bits == 16 || (bits == 8 && b1 == 0)
    ensures var h := b0 + 256 * b1;
            && Digit(h, 0) == b0 && Digit(SignExtend(h, bits), 0) == b0
            && (bits == 16 ==> Digit(h, 1) == b1 && Digit(SignExtend(h, bits), 1) == b1)
  {
    var h := b0 + 256 * b1;
    DigitsAre(h);
    DigitsAre(h - 256);
    DigitsAre(h - 65536);
  }

  /** What a store has written, a load of the same size at the same address brings back: the whole word, or the low
    * bytes of the value, sign- or zero-extended as `LoadReadsItsBytes` says. */
  lemma {:induction false} LoadAfterStore(m: Mem, value: Word, size: MemSize, isUnsigned: bool, addr: Word, k: nat)
    requires k < Width(size, addr)
    ensures Digit(Loaded(Stored(m, value, size, addr), size, isUnsigned, addr), k) == Digit(value, k)
  {
    LoadReadsItsBytes(Stored(m, value, size, addr), size, isUnsigned, addr);
    StoreWritesItsBytes(m, value, size, addr, First(size, addr) + k);
  }

  /** Words come back whole: always in a word-addressed memory, and in a byte-addressed one at full width. */
  lemma {:induction false} WordAfterStore(byteAddressed: bool, m: Mem, value: Word, size: MemSize, isUnsigned: bool,
                                          addr: Word)
    requires byteAddressed ==> size == W
    ensures var w := WordIndex(byteAddressed, addr);
            var n := WriteMasked(m, w, StoreLanes(byteAddressed, value, size, addr),
                                 AccessMask(byteAddressed, size, addr));
            && LoadExtend(byteAddressed, ReadWord(n, w), size, isUnsigned, addr) == value
            && forall x :: x != w ==> ReadWord(n, x) == ReadWord(m, x)
  {
    LanesRoundTrip(value);
    var w := WordIndex(byteAddressed, addr);
    assert Merge(ReadWord(m, w), ToLanes(value), ALL_LANES) == ToLanes(value);
  }
}
