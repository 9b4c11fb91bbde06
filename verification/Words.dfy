/** C's 32-bit and 64-bit unsigned arithmetic, and its bit operators on unsigned operands. */
module Words {
  import opened Arithmetic

  type U32 = x: nat | x < 0x1_0000_0000
  type U64 = x: nat | x < 0x1_0000_0000_0000_0000
  type Byte = x: nat | x < 256
  type Int32 = x: int | -0x8000_0000 <= x < 0x8000_0000

  function Min(x: nat, y: nat): nat { if x < y then x else y }
  function Max(x: int, y: int): int { if x < y then y else x }

  /** Reduction modulo 2^32, by repeated subtraction; WrapIsMod says so. */
  ghost function Wrap(x: nat): U32 {
    if x < 0x1_0000_0000 then x else Wrap(x - 0x1_0000_0000)
  }

  function Add32(x: U32, y: U32): U32 { if x + y < 0x1_0000_0000 then x + y else x + y - 0x1_0000_0000 }
  function Sub32(x: U32, y: U32): U32 { if x >= y then x - y else x + 0x1_0000_0000 - y }
  function Mul32(x: U32, y: U32): U32 { (x * y) % 0x1_0000_0000 }

  function Add64(x: U64, y: U64): U64 {
    if x + y < 0x1_0000_0000_0000_0000 then x + y else x + y - 0x1_0000_0000_0000_0000
  }
  function Sub64(x: U64, y: U64): U64 {
    if x >= y then x - y else x + 0x1_0000_0000_0000_0000 - y
  }

  lemma {:induction false} WrapIsMod(x: nat)
    ensures Wrap(x) == x % 0x1_0000_0000
  {
    if x >= 0x1_0000_0000 { WrapIsMod(x - 0x1_0000_0000); }
  }

  /** The operators are C's: arithmetic modulo 2^32, or 2^64. */
  lemma OperatorsAreModular(x: U32, y: U32)
    ensures Add32(x, y) == (x + y) % 0x1_0000_0000
    ensures Sub32(x, y) == (x - y) % 0x1_0000_0000
    ensures Mul32(x, y) == (x * y) % 0x1_0000_0000
  {
  }

  lemma LongOperatorsAreModular(x: U64, y: U64)
    ensures Add64(x, y) == (x + y) % 0x1_0000_0000_0000_0000
    ensures Sub64(x, y) == (x - y) % 0x1_0000_0000_0000_0000
  {
  }

  lemma MulInWord(x: U32, y: U32)
    requires Times(x, y) < 0x1_0000_0000
    ensures Mul32(x, y) == Times(x, y)
  {
    TimesIsProduct(x, y);
  }

  // ----- Free-running counters: a word that is a natural number reduced modulo 2^32 -----

  /** Advancing the word advances the natural number it stands for. */
  lemma AddWraps(h: nat, n: U32)
    ensures Add32(Wrap(h), n) == Wrap(h + n)
  {
    WrapIsMod(h);
    WrapIsMod(h + n);
  }

  /** The difference of two such words is the true distance, whenever that is below 2^32. */
  lemma SubWraps(h: nat, l: nat)
    requires l <= h < l + 0x1_0000_0000
    ensures Sub32(Wrap(h), Wrap(l)) == h - l
  {
    WrapIsMod(h);
    WrapIsMod(l);
  }

  // ----- Bit operators -----

  function Bit(x: nat, i: nat): bool { if i == 0 then x % 2 == 1 else Bit(x / 2, i - 1) }

  function And(x: nat, y: nat): (r: nat)
    ensures r <= x && r <= y
  {
    if x == 0 then 0
    else (if x % 2 == 1 && y % 2 == 1 then 1 else 0) + 2 * And(x / 2, y / 2)
  }

  function Or(x: nat, y: nat): nat {
    if x == 0 then y
    else (if x % 2 == 1 || y % 2 == 1 then 1 else 0) + 2 * Or(x / 2, y / 2)
  }

  function Shr(x: nat, k: nat): (r: nat)
    ensures r <= x
  {
    if k == 0 then x else Shr(x / 2, k - 1)
  }

  function Pow2(k: nat): (p: nat)
    ensures p >= 1
  {
    if k == 0 then 1 else 2 * Pow2(k - 1)
  }

  /** The operators act bit by bit. */
  lemma {:induction false} Bitwise(x: nat, y: nat, i: nat)
    ensures Bit(And(x, y), i) <==> Bit(x, i) && Bit(y, i)
    ensures Bit(Or(x, y), i) <==> Bit(x, i) || Bit(y, i)
  {
    if x == 0 {
      BitOfZero(i);
    } else if i > 0 {
      Halves(x, y);
      Bitwise(x / 2, y / 2, i - 1);
    } else {
      LowBits(x, y);
    }
  }

  lemma Halves(x: nat, y: nat)
    ensures And(x, y) / 2 == And(x / 2, y / 2) && Or(x, y) / 2 == Or(x / 2, y / 2)
  {
  }

  lemma LowBits(x: nat, y: nat)
    requires x > 0
    ensures Bit(And(x, y), 0) <==> Bit(x, 0) && Bit(y, 0)
    ensures Bit(Or(x, y), 0) <==> Bit(x, 0) || Bit(y, 0)
  {
    Parity(if x % 2 == 1 && y % 2 == 1 then 1 else 0, And(x / 2, y / 2));
    Parity(if x % 2 == 1 || y % 2 == 1 then 1 else 0, Or(x / 2, y / 2));
  }

  lemma Parity(bit: nat, half: nat)
    requires bit <= 1
    ensures (bit + 2 * half) % 2 == bit
  {
  }

  lemma {:induction false} ShiftsBits(x: nat, k: nat, i: nat)
    ensures Bit(Shr(x, k), i) <==> Bit(x, k + i)
  {
    if k > 0 { ShiftsBits(x / 2, k - 1, i); }
  }

  lemma {:induction false} BitOfZero(i: nat)
    ensures !Bit(0, i)
  {
    if i > 0 { BitOfZero(i - 1); }
  }

  lemma {:induction false} Pow2Add(a: nat, b: nat)
    ensures Pow2(a + b) == Pow2(a) * Pow2(b)
  {
    if a > 0 {
      Pow2Add(a - 1, b);
      Distribute(Pow2(a - 1), Pow2(a - 1), Pow2(b));
      assert Pow2(a - 1) + Pow2(a - 1) == Pow2(a);
    }
  }

  lemma {:induction false} Pow2Monotone(a: nat, b: nat)
    requires a < b
    ensures 2 * Pow2(a) <= Pow2(b)
  {
    if a + 1 < b { Pow2Monotone(a, b - 1); }
  }

  lemma WordIsPow2()
    ensures Pow2(31) == 0x8000_0000 && Pow2(32) == 0x1_0000_0000
  {
    assert Pow2(8) == 256;
    Pow2Add(8, 8);
    Pow2Add(16, 8);
    assert Pow2(24) == 0x100_0000;
    assert Pow2(27) == 0x800_0000;
    assert Pow2(30) == 0x4000_0000;
  }

  /** Masking with 2^k - 1 is reduction modulo 2^k. */
  lemma {:induction false} AndMask(x: nat, k: nat)
    ensures And(x, Pow2(k) - 1) == x % Pow2(k)
  {
    if k == 0 {
      AndZero(x);
    } else {
      AndMask(x / 2, k - 1);
      AndMaskTwice(x, Pow2(k - 1), Pow2(k));
    }
  }

  lemma AndMaskTwice(x: nat, p: nat, m: nat)
    requires p > 0 && m == 2 * p && And(x / 2, p - 1) == (x / 2) % p
    ensures And(x, m - 1) == x % m
  {
    AndOdd(x, p - 1);
    ModDouble(x, p);
  }

  lemma AndOdd(x: nat, y: nat)
    ensures And(x, 2 * y + 1) == x % 2 + 2 * And(x / 2, y)
  {
    assert (2 * y + 1) / 2 == y && (2 * y + 1) % 2 == 1;
  }

  lemma {:induction false} AndZero(x: nat)
    ensures And(x, 0) == 0
  {
  }
}
