/** The power-of-two helpers that size the ring buffer (source/common/kfifo.h). */
module PowersOfTwo {
  import opened Arithmetic
  import opened Words

  ghost predicate IsPow2(x: nat) {
    exists k :: x == Pow2(k)
  }

  /** p is the least power of two that is at least n. */
  ghost predicate IsLeastPow2(p: nat, n: nat) {
    IsPow2(p) && n <= p && forall k :: n <= Pow2(k) ==> p <= Pow2(k)
  }

  // ----- is_power_of_2 -----

  function IsPowerOf2(size: U32): bool {
    And(size, Sub32(size, 1)) == 0
  }

  /** The bit trick recognises exactly zero and the powers of two. */
  lemma IsPowerOf2Exact(size: U32)
    ensures IsPowerOf2(size) <==> size == 0 || IsPow2(size)
  {
    if size > 0 {
      assert Sub32(size, 1) == size - 1;
      ClearLowestBit(size);
    }
  }

  lemma {:induction false} ClearLowestBit(x: nat)
    requires x > 0
    ensures And(x, x - 1) == 0 <==> IsPow2(x)
  {
    if x == 1 {
      assert x == Pow2(0);
    } else if x % 2 == 1 {
      AndSelf(x / 2);
      assert (x - 1) / 2 == x / 2;
      forall k ensures x != Pow2(k) { }
    } else {
      ClearLowestBit(x / 2);
      assert (x - 1) / 2 == x / 2 - 1;
      if k: nat :| x / 2 == Pow2(k) { assert x == Pow2(k + 1); }
      if k: nat :| x == Pow2(k) { assert x / 2 == Pow2(k - 1); }
    }
  }

  lemma {:induction false} AndSelf(x: nat)
    ensures And(x, x) == x
  {
    if x > 0 { AndSelf(x / 2); }
  }

  // ----- roundup_pow_of_two -----

  /** The number of bits of v. */
  function BitLength(v: nat): nat { if v == 0 then 0 else 1 + BitLength(v / 2) }

  lemma {:induction false} BitLengthBounds(v: nat)
    ensures v < Pow2(BitLength(v))
    ensures v > 0 ==> Pow2(BitLength(v)) <= 2 * v && Shr(v, BitLength(v) - 1) == 1
  {
    if v > 1 { BitLengthBounds(v / 2); }
  }

  /** The top s of x's `bits` bits are ones, and there are no higher ones. */
  ghost predicate TopOnes(x: nat, bits: nat, s: nat) {
    s <= bits && Shr(x, bits - s) == Pow2(s) - 1
  }

  lemma {:induction false} ShrShr(x: nat, a: nat, b: nat)
    ensures Shr(Shr(x, a), b) == Shr(x, a + b)
  {
    if a > 0 { ShrShr(x / 2, a - 1, b); }
  }

  lemma {:induction false} ShrOr(x: nat, y: nat, k: nat)
    ensures Shr(Or(x, y), k) == Or(Shr(x, k), Shr(y, k))
  {
    if k > 0 {
      assert Or(x, y) / 2 == Or(x / 2, y / 2);
      ShrOr(x / 2, y / 2, k - 1);
    }
  }

  lemma {:induction false} ShrOnes(s: nat, j: nat)
    requires j <= s
    ensures Shr(Pow2(s) - 1, j) == Pow2(s - j) - 1
  {
    if j > 0 {
      assert (Pow2(s) - 1) / 2 == Pow2(s - 1) - 1;
      ShrOnes(s - 1, j - 1);
    }
  }

  lemma {:induction false} OrOnes(x: nat, t: nat, a: nat)
    requires Shr(x, t) == Pow2(a) - 1
    ensures Or(x, Pow2(t) - 1) == Pow2(a + t) - 1
  {
    if t == 0 {
      OrZero(x);
    } else {
      var p := Pow2(t - 1);
      OrOdd(x, p - 1);
      OrOnes(x / 2, t - 1, a);
    }
  }

  lemma OrOdd(x: nat, y: nat)
    ensures Or(x, 2 * y + 1) == 1 + 2 * Or(x / 2, y)
  {
    assert (2 * y + 1) / 2 == y && (2 * y + 1) % 2 == 1;
  }

  lemma {:induction false} OrZero(x: nat)
    ensures Or(x, 0) == x
  {
    if x > 0 { OrZero(x / 2); }
  }

  lemma {:induction false} OrBelow(x: nat, y: nat, k: nat)
    requires x < Pow2(k) && y < Pow2(k)
    ensures Or(x, y) < Pow2(k)
  {
    if x > 0 && k > 0 { OrBelow(x / 2, y / 2, k - 1); }
  }

  /** One source line: v |= v >> s. */
  function Smear(v: nat, s: nat): nat { Or(v, Shr(v, s)) }

  /** Such a line doubles the run of ones at the top. */
  lemma SmearDoubles(v: nat, bits: nat, s: nat)
    requires TopOnes(v, bits, Min(s, bits))
    ensures TopOnes(Smear(v, s), bits, Min(2 * s, bits))
  {
    if s >= bits {
      FullStays(v, bits, s);
    } else {
      var t := Min(2 * s, bits) - s;
      var rest := bits - s - t;
      ShrOr(v, Shr(v, s), rest);
      ShrShr(v, rest, t);
      ShiftedOnes(v, bits, s, t);
      OrOnes(Shr(v, rest), t, s);
    }
  }

  /** The shifted copy brings t of the ones to the t bits just below the original run. */
  lemma ShiftedOnes(v: nat, bits: nat, s: nat, t: nat)
    requires TopOnes(v, bits, s) && t <= s && s + t <= bits
    ensures Shr(Shr(v, s), bits - s - t) == Pow2(t) - 1
  {
    ShrShr(v, s, bits - s - t);
    ShrShr(v, bits - s, s - t);
    ShrOnes(s, s - t);
  }

  /** Once all the bits are ones, a larger shift changes nothing. */
  lemma FullStays(v: nat, bits: nat, s: nat)
    requires TopOnes(v, bits, bits) && bits <= s
    ensures Smear(v, s) == v
  {
    ShrOnes(bits, bits);
    ShrShr(v, bits, s - bits);
    ShrZero(s - bits);
    OrZero(v);
  }

  lemma {:induction false} ShrZero(k: nat)
    ensures Shr(0, k) == 0
  {
  }

  lemma SmearInWord(v: U32, s: nat)
    ensures Smear(v, s) < 0x1_0000_0000
  {
    WordIsPow2();
    OrBelow(v, Shr(v, s), 32);
  }

  function SmearAll(v: nat): nat { Smear(Smear(Smear(Smear(Smear(v, 1), 2), 4), 8), 16) }

  /** Five doublings fill all the bits below the highest one. */
  lemma SmearFills(v: U32)
    ensures SmearAll(v) == Pow2(BitLength(v)) - 1
  {
    if v > 0 {
      BitsInWord(v);
      FirstOne(v);
      FirstDoublings(v, BitLength(v));
      LastDoublings(Smear(Smear(v, 1), 2), BitLength(v));
    }
  }

  lemma FirstOne(v: nat)
    requires v > 0
    ensures TopOnes(v, BitLength(v), Min(1, BitLength(v)))
  {
    BitLengthBounds(v);
  }

  lemma FirstDoublings(v: nat, bits: nat)
    requires TopOnes(v, bits, Min(1, bits))
    ensures TopOnes(Smear(Smear(v, 1), 2), bits, Min(4, bits))
  {
    SmearDoubles(v, bits, 1);
    SmearDoubles(Smear(v, 1), bits, 2);
  }

  lemma LastDoublings(v: nat, bits: nat)
    requires bits <= 32 && TopOnes(v, bits, Min(4, bits))
    ensures Smear(Smear(Smear(v, 4), 8), 16) == Pow2(bits) - 1
  {
    SmearDoubles(v, bits, 4);
    SmearDoubles(Smear(v, 4), bits, 8);
    SmearDoubles(Smear(Smear(v, 4), 8), bits, 16);
  }

  lemma BitsInWord(v: U32)
    ensures BitLength(v) <= 32
  {
    BitLengthBounds(v);
    WordIsPow2();
    if BitLength(v) > 32 { Pow2Monotone(32, BitLength(v)); }
  }

  /** What a rounded-up size is: the least power of two that is at least `size`, and 0 when 32 bits
      cannot hold that or `size` is 0. */
  ghost predicate IsRoundedUp(v: nat, size: U32) {
    if 1 <= size <= 0x8000_0000 then IsLeastPow2(v, size) && v < 2 * size else v == 0
  }

  lemma RoundedIsLeast(size: U32, below: U32, p: nat)
    requires below == Sub32(size, 1) && p == Pow2(BitLength(below))
    ensures IsRoundedUp(Wrap(p), size)
  {
    if 1 <= size <= 0x8000_0000 {
      NarrowBits(below);
      LeastAbove(below);
      assert Wrap(p) == p && below + 1 == size;
    } else {
      WideBits(below);
    }
  }

  lemma LeastAbove(below: nat)
    ensures IsLeastPow2(Pow2(BitLength(below)), below + 1)
  {
    BitLengthBounds(below);
    forall k | below + 1 <= Pow2(k) ensures Pow2(BitLength(below)) <= Pow2(k) {
      NoPow2Between(below, k);
    }
  }

  lemma NarrowBits(below: U32)
    requires below < 0x8000_0000
    ensures below < Pow2(BitLength(below)) < 0x1_0000_0000 && Pow2(BitLength(below)) < 2 * (below + 1)
  {
    BitLengthBounds(below);
    WordIsPow2();
    NoPow2Between(below, 31);
  }

  lemma WideBits(below: U32)
    requires below >= 0x8000_0000
    ensures Pow2(BitLength(below)) == 0x1_0000_0000
  {
    var bits := BitLength(below);
    BitLengthBounds(below);
    WordIsPow2();
    BitsInWord(below);
    if bits < 32 { Pow2Monotone(bits, 32); }
  }

  lemma NoPow2Between(below: nat, k: nat)
    requires below < Pow2(k)
    ensures Pow2(BitLength(below)) <= Pow2(k)
  {
    var bits := BitLength(below);
    BitLengthBounds(below);
    if k < bits {
      Pow2Monotone(k, bits);
    } else if bits < k {
      Pow2Monotone(bits, k);
    }
  }

  /** source/common/kfifo.h, roundup_pow_of_two. */
  method RoundupPowOfTwo(size: U32) returns (v: U32)
    ensures IsRoundedUp(v, size)
  {
    v := Sub32(size, 1);
    ghost var below := v;
    SmearInWord(v, 1);
    v := Smear(v, 1);
    SmearInWord(v, 2);
    v := Smear(v, 2);
    SmearInWord(v, 4);
    v := Smear(v, 4);
    SmearInWord(v, 8);
    v := Smear(v, 8);
    SmearInWord(v, 16);
    v := Smear(v, 16);
    SmearFills(below);
    assert v == Pow2(BitLength(below)) - 1;
    AddWraps(v, 1);
    v := Add32(v, 1);
    RoundedIsLeast(size, below, Pow2(BitLength(below)));
  }

  /** Only a power of two keeps its own rounded-up capacity inside a buffer of its size. */
  lemma RoundedFits(size: nat, esize: nat, n: nat, cap: nat)
    requires esize > 0 && n == size / esize && n >= 1 && IsLeastPow2(cap, n)
    ensures cap * esize <= size <==> IsPow2(n)
  {
    assert size == n * esize + size % esize;
    if IsPow2(n) {
      assert cap == n;
    } else {
      MulMono(n + 1, cap, esize);
      Distribute(n, 1, esize);
    }
  }
}
