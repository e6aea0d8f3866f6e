/** The M-extension arithmetic of the functional units, on 32-bit words through 64-bit products. */
module MExtension {
  import opened Words

  const P32: int := 0x1_0000_0000

  /** The C++ `int64_t` range. */
  predicate FitsInt64(x: int) { -0x8000_0000_0000_0000 <= x < 0x8000_0000_0000_0000 }

  /** The C++ `uint64_t` range. */
  predicate FitsUint64(x: int) { 0 <= x < 0x1_0000_0000_0000_0000 }

  /** `prod & 0xFFFFFFFF`, read as a signed word. */
  function LowWord(prod: int): Word { Wrap32(prod) }

  /** `prod >> 32`, an arithmetic shift on signed products, read as a signed word. */
  function HighWord(prod: int): Word { Wrap32(prod / 0x1_0000_0000) }

  function Mul(a: Word, b: Word): Word { LowWord(Unsigned(a) * Unsigned(b)) }

  function Mulh(a: Word, b: Word): Word { HighWord(a * b) }

  function Mulhsu(a: Word, b: Word): Word { HighWord(a * Unsigned(b)) }

  function Mulhu(a: Word, b: Word): Word { HighWord(Unsigned(a) * Unsigned(b)) }

  /** C++ division truncates toward zero. */
  function Quotient(a: int, b: int): int
    requires b != 0
  {
    if a >= 0 then if b > 0 then a / b else -(a / -b)
    else if b > 0 then -(-a / b) else -a / -b
  }

  function Div(a: Word, b: Word): Word {
    if b == 0 then -1
    else if a == -0x8000_0000 && b == -1 then -0x8000_0000
    else Wrap32(Quotient(a, b))
  }

  function Divu(a: Word, b: Word): Word {
    if b == 0 then -1 else Wrap32(Unsigned(a) / Unsigned(b))
  }

  function Rem(a: Word, b: Word): Word {
    if b == 0 then a
    else if a == -0x8000_0000 && b == -1 then 0
    else Wrap32(a - b * Quotient(a, b))
  }

  function Remu(a: Word, b: Word): Word {
    if b == 0 then a else Wrap32(Unsigned(a) % Unsigned(b))
  }

  // ---------------------------------------------------------------- products

  lemma {:induction false} ProductBounds(x: int, y: int, lo: int, hi: int, m: int)
    requires lo <= x <= hi && 0 <= y <= m && lo <= 0 <= hi
    ensures lo * m <= x * y <= hi * m
  {
    assert x * y <= hi * y <= hi * m;
    assert x * y >= lo * y >= lo * m;
  }

  /** No 64-bit product the code forms overflows its type. */
  lemma {:induction false} ProductsFit(a: Word, b: Word)
    ensures FitsInt64(a * b) && FitsInt64(a * Unsigned(b)) && FitsUint64(Unsigned(a) * Unsigned(b))
  {
    ProductBounds(a, Unsigned(b), -0x8000_0000, 0x7fff_ffff, 0xffff_ffff);
    ProductBounds(Unsigned(a), Unsigned(b), 0, 0xffff_ffff, 0xffff_ffff);
    if b >= 0 {
      ProductBounds(a, b, -0x8000_0000, 0x7fff_ffff, 0x7fff_ffff);
    } else {
      var nb: int := 0 - b;
      ProductBounds(a, nb, -0x8000_0000, 0x7fff_ffff, 0x8000_0000);
      assert a * b == -(a * nb);
    }
  }

  /** High and low words of a product put together are the product. */
  lemma {:induction false} Rejoin(prod: int)
    ensures -0x8000_0000 <= prod / 0x1_0000_0000 < 0x8000_0000 ==>
              HighWord(prod) * P32 + Unsigned(LowWord(prod)) == prod
    ensures 0 <= prod / 0x1_0000_0000 < P32 ==> Unsigned(HighWord(prod)) * P32 + Unsigned(LowWord(prod)) == prod
  {
  }

  /** Operands that differ by a multiple of 2^32 have the same low product word. */
  lemma {:induction false} LowIsSame(p: int, q: int, k: int)
    requires p == q + k * 0x1_0000_0000
    ensures LowWord(p) == LowWord(q)
  {
  }

  lemma {:induction false} UnsignedIs(a: Word)
    ensures Unsigned(a) == if a >= 0 then a else a + P32
  {
  }

  lemma {:induction false} MulIsLow(a: Word, b: Word)
    ensures Mul(a, b) == LowWord(a * b) && Mul(a, b) == LowWord(a * Unsigned(b))
  {
    var ua, ub := Unsigned(a), Unsigned(b);
    UnsignedIs(a);
    UnsignedIs(b);
    var ka, kb := if a >= 0 then 0 else 1, if b >= 0 then 0 else 1;
    assert ua == a + ka * P32 && ub == b + kb * P32;
    assert ua * ub == a * ub + (ka * ub) * P32;
    assert a * ub == a * b + (a * kb) * P32;
    LowIsSame(ua * ub, a * ub, ka * ub);
    LowIsSame(a * ub, a * b, a * kb);
  }

  lemma {:induction false} HighBounds(p: int)
    ensures FitsInt64(p) ==> -0x8000_0000 <= p / 0x1_0000_0000 < 0x8000_0000
    ensures FitsUint64(p) ==> 0 <= p / 0x1_0000_0000 < P32
  {
  }

  /** MULH with MUL rebuilds the exact signed 64-bit product. */
  lemma {:induction false} MulhExact(a: Word, b: Word)
    ensures Mulh(a, b) * P32 + Unsigned(Mul(a, b)) == a * b
  {
    ProductsFit(a, b);
    HighBounds(a * b);
    MulIsLow(a, b);
    Rejoin(a * b);
  }

  /** MULHSU with MUL rebuilds the exact product of a signed and an unsigned operand. */
  lemma {:induction false} MulhsuExact(a: Word, b: Word)
    ensures Mulhsu(a, b) * P32 + Unsigned(Mul(a, b)) == a * Unsigned(b)
  {
    ProductsFit(a, b);
    HighBounds(a * Unsigned(b));
    MulIsLow(a, b);
    Rejoin(a * Unsigned(b));
  }

  /** MULHU with MUL rebuilds the exact unsigned 64-bit product. */
  lemma {:induction false} MulhuExact(a: Word, b: Word)
    ensures Unsigned(Mulhu(a, b)) * P32 + Unsigned(Mul(a, b)) == Unsigned(a) * Unsigned(b)
  {
    ProductsFit(a, b);
    HighBounds(Unsigned(a) * Unsigned(b));
    Rejoin(Unsigned(a) * Unsigned(b));
  }

  // ---------------------------------------------------------------- division

  function Abs(x: int): nat { if x < 0 then -x else x }

  lemma {:induction false} TimesAtLeast(b: nat, q: nat)
    requires b > 0
    ensures b * q >= q
  {
  }

  lemma {:induction false} Euclid(a: nat, b: nat)
    requires b > 0
    ensures a == b * (a / b) + a % b && a % b < b && a / b <= a
  {
    TimesAtLeast(b, a / b);
  }

  /** Signs move out of a product. */
  lemma {:induction false} SignedProduct(n: int, q: int)
    ensures (0 - n) * q == 0 - n * q && n * (0 - q) == 0 - n * q && (0 - n) * (0 - q) == n * q
  {
  }

  /** Divisor times quotient is the magnitude's multiple, with the dividend's sign. */
  lemma {:induction false} QuotientProduct(a: int, b: int)
    requires b != 0
    ensures b * Quotient(a, b) == if a >= 0 then Abs(b) * (Abs(a) / Abs(b)) else 0 - Abs(b) * (Abs(a) / Abs(b))
  {
    var n, q := Abs(b), Abs(a) / Abs(b);
    SignedProduct(n, q);
    assert Quotient(a, b) == q || Quotient(a, b) == 0 - q;
  }

  /** The truncated quotient leaves a remainder smaller than the divisor, with the dividend's sign. */
  lemma {:induction false} QuotientTruncates(a: int, b: int)
    requires b != 0
    ensures var r := a - b * Quotient(a, b);
            Abs(r) < Abs(b) && (a >= 0 ==> r >= 0) && (a <= 0 ==> r <= 0)
  {
    Euclid(Abs(a), Abs(b));
    QuotientProduct(a, b);
    hide Quotient;
  }

  lemma {:induction false} QuotientAtMost(a: int, b: int)
    requires b != 0
    ensures Abs(Quotient(a, b)) <= Abs(a)
  {
    Euclid(Abs(a), Abs(b));
  }

  /** The quotient of the overflowing division is the only one outside the word range. */
  lemma {:induction false} QuotientFits(a: Word, b: Word)
    requires b != 0 && !(a == -0x8000_0000 && b == -1)
    ensures -0x8000_0000 <= Quotient(a, b) < 0x8000_0000
  {
    QuotientAtMost(a, b);
    if a == -0x8000_0000 && b < 0 {
      var nb: nat := 0 - b;
      Euclid(0x8000_0000, nb);
      assert nb >= 2 && Quotient(a, b) == 0x8000_0000 / nb;
      TwiceAtMost(nb, 0x8000_0000 / nb);
    }
  }

  lemma {:induction false} TwiceAtMost(b: nat, q: nat)
    requires b >= 2
    ensures b * q >= 2 * q
  {
  }

  /** DIV and REM: division identity, remainder bound and sign for a nonzero divisor that does not overflow,
    * and the results fixed for a zero divisor and for the overflowing division. */
  lemma {:induction false} DivRem(a: Word, b: Word)
    ensures b == 0 ==> Div(a, b) == -1 && Rem(a, b) == a
    ensures a == -0x8000_0000 && b == -1 ==> Div(a, b) == -0x8000_0000 && Rem(a, b) == 0
    ensures b != 0 && !(a == -0x8000_0000 && b == -1) ==>
              && a == b * Div(a, b) + Rem(a, b)
              && Abs(Rem(a, b)) < Abs(b)
              && (Rem(a, b) != 0 ==> (Rem(a, b) > 0 <==> a > 0))
  {
    if b != 0 && !(a == -0x8000_0000 && b == -1) {
      QuotientFits(a, b);
      QuotientTruncates(a, b);
    }
  }

  /** DIVU and REMU over the unsigned values, with the all-ones quotient and the dividend for a zero divisor. */
  lemma {:induction false} DivuRemu(a: Word, b: Word)
    ensures b == 0 ==> Unsigned(Divu(a, b)) == 0xffff_ffff && Remu(a, b) == a
    ensures b != 0 ==>
              && Unsigned(a) == Unsigned(b) * Unsigned(Divu(a, b)) + Unsigned(Remu(a, b))
              && Unsigned(Remu(a, b)) < Unsigned(b)
  {
    if b != 0 {
      UnsignedIs(b);
      UnsignedDivision(Unsigned(a), Unsigned(b));
    }
  }

  lemma {:induction false} UnsignedDivision(ua: nat, ub: nat)
    requires ua < P32 && 0 < ub < P32
    ensures ua == ub * Unsigned(Wrap32(ua / ub)) + Unsigned(Wrap32(ua % ub))
    ensures Unsigned(Wrap32(ua % ub)) < ub
  {
    hide Unsigned, Wrap32;
    Euclid(ua, ub);
    UnsignedOfWrap(ua / ub);
    UnsignedOfWrap(ua % ub);
  }

  lemma {:induction false} UnsignedOfWrap(u: nat)
    requires u < P32
    ensures Unsigned(Wrap32(u)) == u
  {
  }
}
