/** 32-bit register words, 64-bit program counters, and the four byte lanes of a memory word. */
module Words {

  /** A register value: the C++ `int` / `int32_t`. */
  type Word = x: int | -0x8000_0000 <= x < 0x8000_0000

  /** A program counter: the C++ `uint64_t`. */
  type Pc = x: int | 0 <= x < 0x1_0000_0000_0000_0000

  type Byte = x: int | 0 <= x < 256

  /** The bytes of one 32-bit memory word, least significant first. */
  type Lanes = s: seq<Byte> | |s| == 4 witness [0, 0, 0, 0]

  /** A write strobe or access mask: one bit for each lane. */
  type Mask = s: seq<bool> | |s| == 4 witness [false, false, false, false]

  const ZERO_LANES: Lanes := [0, 0, 0, 0]
  const NO_LANES: Mask := [false, false, false, false]
  const ALL_LANES: Mask := [true, true, true, true]

  /** The value of the low 32 bits read as unsigned. */
  function Unsigned(x: int): (u: int)
    ensures 0 <= u < 0x1_0000_0000
    ensures 0 <= x < 0x1_0000_0000 ==> u == x
    ensures -0x8000_0000 <= x < 0 ==> u == x + 0x1_0000_0000
  {
    x % 0x1_0000_0000
  }

  /** The value of the low 32 bits read as two's complement. */
  function Wrap32(x: int): (w: Word)
    ensures -0x8000_0000 <= x < 0x8000_0000 ==> w == x
  {
    var u := x % 0x1_0000_0000;
    if u < 0x8000_0000 then u else u - 0x1_0000_0000
  }

  function PcOf(imm: Word): Pc {
    if imm >= 0 then imm else imm + 0x1_0000_0000_0000_0000
  }

  function Fallthrough(pc: Pc): Pc {
    if pc + 4 < 0x1_0000_0000_0000_0000 then pc + 4 else pc + 4 - 0x1_0000_0000_0000_0000
  }

  /** `mergeBytes`: the lanes in `mask` come from `overlay`, the others from `base`. */
  function Merge(base: Lanes, overlay: Lanes, mask: Mask): (w: Lanes)
    ensures forall b :: 0 <= b < 4 ==> w[b] == if mask[b] then overlay[b] else base[b]
  {
    [if mask[0] then overlay[0] else base[0],
     if mask[1] then overlay[1] else base[1],
     if mask[2] then overlay[2] else base[2],
     if mask[3] then overlay[3] else base[3]]
  }

  function MaskOr(m: Mask, n: Mask): (r: Mask)
    ensures forall b :: 0 <= b < 4 ==> (r[b] <==> m[b] || n[b])
  {
    [m[0] || n[0], m[1] || n[1], m[2] || n[2], m[3] || n[3]]
  }

  function MaskAnd(m: Mask, n: Mask): (r: Mask)
    ensures forall b :: 0 <= b < 4 ==> (r[b] <==> m[b] && n[b])
  {
    [m[0] && n[0], m[1] && n[1], m[2] && n[2], m[3] && n[3]]
  }

  function ByteOf(v: int, k: nat): Byte
    requires k < 4
  {
    match k
    case 0 => v % 256
    case 1 => (v / 256) % 256
    case 2 => (v / 65536) % 256
    case _ => (v / 16777216) % 256
  }

  /** The four bytes of a 32-bit value. */
  function ToLanes(v: Word): Lanes {
    var u := Unsigned(v);
    [ByteOf(u, 0), ByteOf(u, 1), ByteOf(u, 2), ByteOf(u, 3)]
  }

  function Combine(l: Lanes): (u: int)
    ensures 0 <= u < 0x1_0000_0000
  {
    (l[0] as int) + 256 * (l[1] as int) + 65536 * (l[2] as int) + 16777216 * (l[3] as int)
  }

  /** The signed 32-bit value of four bytes. */
  function FromLanes(l: Lanes): Word {
    Wrap32(Combine(l))
  }

  /** Splitting a register word into bytes and putting them together gives it back. */
  lemma {:induction false} LanesRoundTrip(v: Word)
    ensures FromLanes(ToLanes(v)) == v
  {
    var u := Unsigned(v);
    assert u / 16777216 == (u / 65536) / 256;
    assert u / 65536 == (u / 256) / 256;
    var q1 := u / 256;
    var q2 := q1 / 256;
    var q3 := q2 / 256;
    assert u == 256 * q1 + u % 256;
    assert q1 == 256 * q2 + q1 % 256;
    assert q2 == 256 * q3 + q2 % 256;
    assert 0 <= q3 < 256;
    assert Combine(ToLanes(v)) == u;
  }
}
