/** Where the bytes of a kfifo live: the address arithmetic of kfifo_copy_in and kfifo_copy_out
    (source/common/kfifo.h) and what it means for a stream of elements. */
module Ring {
  import opened Arithmetic
  import opened PowersOfTwo
  import opened Words

  /** The two constants of a fifo: capacity minus one, and bytes per element. */
  datatype Shape = Shape(mask: U32, esize: U32) {
    function Cap(): nat { mask + 1 }

    /** The bytes of n elements. */
    ghost function Size(n: nat): nat { Times(n, esize) }

    ghost function Bytes(): nat { Size(Cap()) }

    ghost predicate Ok() {
      mask >= 1 && IsPow2(Cap()) && esize >= 1 && Bytes() < 0x1_0000_0000
    }

    /** The first byte of the element at index `off`. */
    ghost function Start(off: U32): nat { Size(And(off, mask)) }

    /** The address of byte t of a copy that starts at index `off`: the first memcpy runs to the
        end of the buffer, the second continues at its beginning. */
    ghost function Addr(off: U32, t: nat): int {
      if Start(off) + t < Bytes() then Start(off) + t else Start(off) + t - Bytes()
    }

    /** The byte of such a copy that lands at address a. */
    ghost function Pos(off: U32, a: nat): int {
      if Start(off) <= a then a - Start(off) else a + Bytes() - Start(off)
    }
  }

  // ----- Masked free-running indices -----

  /** A free-running index wrapped at 2^32 and masked is its true count modulo the capacity. */
  lemma SlotOfCount(s: Shape, h: nat)
    requires s.Ok()
    ensures And(Wrap(h), s.mask) == h % s.Cap()
  {
    var k: nat :| s.Cap() == Pow2(k);
    AndMask(Wrap(h), k);
    CapDividesWord(s, k);
    WrapInvisible(h, s.Cap(), Pow2(32 - k));
  }

  lemma WrapInvisible(h: nat, cap: nat, times: nat)
    requires cap > 0 && times > 0 && times * cap == 0x1_0000_0000
    ensures Wrap(h) % cap == h % cap
  {
    WrapIsMod(h);
    ModMod(h, cap, times, 0x1_0000_0000);
  }

  lemma CapDividesWord(s: Shape, k: nat)
    requires s.Cap() == Pow2(k)
    ensures k <= 32 && Pow2(32 - k) * s.Cap() == 0x1_0000_0000
  {
    WordIsPow2();
    if k > 32 { Pow2Monotone(32, k); }
    Pow2Add(32 - k, k);
  }

  /** The first byte of an element is its place in the byte stream modulo the buffer size. */
  lemma StartOfCount(s: Shape, h: nat)
    requires s.Ok()
    ensures s.Bytes() > 0 && s.Start(Wrap(h)) == s.Size(h) % s.Bytes()
    ensures s.Start(Wrap(h)) + s.esize <= s.Bytes()
  {
    SlotOfCount(s, h);
    TimesMod(h, s.Cap(), s.esize);
  }

  lemma StartInside(s: Shape, off: U32)
    requires s.Ok()
    ensures s.Start(off) + s.esize <= s.Bytes()
  {
    StartOfCount(s, off);
    assert Wrap(off) == off;
  }

  /** The start index u elements further on. */
  lemma StartAhead(s: Shape, h: nat, u: nat)
    requires s.Ok() && u <= s.Cap()
    ensures s.Size(u) <= s.Bytes()
    ensures s.Start(Wrap(h + u)) ==
            if s.Start(Wrap(h)) + s.Size(u) < s.Bytes() then s.Start(Wrap(h)) + s.Size(u)
            else s.Start(Wrap(h)) + s.Size(u) - s.Bytes()
  {
    StartOfCount(s, h);
    StartOfCount(s, h + u);
    TimesAdd(h, u, s.esize);
    TimesMono(u, s.Cap(), s.esize);
    AheadInCycle(s.Size(h), s.Size(u), s.Bytes(), s.Start(Wrap(h)), s.Start(Wrap(h + u)));
  }

  lemma AheadInCycle(x: nat, d: nat, m: nat, from: nat, to: nat)
    requires 0 < m && d <= m && from == x % m && to == (x + d) % m
    ensures to == if from + d < m then from + d else from + d - m
  {
    ModAdd(x, d, m);
  }

  // ----- Addresses of a copy -----

  /** Addresses stay inside the buffer and are distinct: Pos undoes Addr. */
  lemma PosOfAddr(s: Shape, off: U32, t: nat)
    requires s.Ok() && t < s.Bytes()
    ensures 0 <= s.Addr(off, t) < s.Bytes() && s.Pos(off, s.Addr(off, t)) == t
  {
    StartInside(s, off);
  }

  /** Advancing the start index by n elements is skipping the bytes of n elements of the copy. */
  lemma AddrShift(s: Shape, h: nat, n: nat, t: nat)
    requires s.Ok() && s.Size(n) + t < s.Bytes() && n <= s.Cap()
    ensures s.Addr(Wrap(h + n), t) == s.Addr(Wrap(h), s.Size(n) + t)
  {
    StartInside(s, Wrap(h));
    StartAhead(s, h, n);
  }

  /** Byte j of element i of a copy that starts at index off goes to byte j of slot
      (off + i) & mask, for any off: the copy is element-wise and modular. */
  lemma AddrOfElement(s: Shape, off: U32, i: nat, j: nat)
    requires s.Ok() && i < s.Cap() && j < s.esize
    ensures s.Size(i) + j < s.Bytes()
    ensures s.Addr(off, s.Size(i) + j) == s.Start(Add32(off, i)) + j
  {
    TimesMono(i, s.Cap(), s.esize);
    AddrShift(s, off, i, j);
    assert Wrap(off) == off;
    StartInside(s, Add32(off, i));
  }

  /** A byte of the queue (read from index l) seen from a writer that is u elements ahead: the
      writer reaches queued bytes only after it has filled all the free ones. */
  lemma PosAhead(s: Shape, l: nat, u: nat, t: nat)
    requires s.Ok() && u <= s.Cap() && t < s.Bytes()
    ensures s.Size(u) <= s.Bytes() && 0 <= s.Addr(Wrap(l), t) < s.Bytes()
    ensures s.Pos(Wrap(l + u), s.Addr(Wrap(l), t)) ==
            if s.Size(u) <= t then t - s.Size(u) else t + s.Bytes() - s.Size(u)
  {
    StartInside(s, Wrap(l));
    StartAhead(s, l, u);
  }

  // ----- The 32-bit arithmetic of the copies -----

  lemma CapInWord(s: Shape)
    requires s.Ok()
    ensures s.Cap() < 0x1_0000_0000
  {
    TimesAtLeast(s.Cap(), s.esize);
  }

  /** None of the 32-bit products of the copies wraps. */
  lemma SizesInWord(s: Shape, len: U32, off: U32)
    requires s.Ok() && len <= s.Cap() < 0x1_0000_0000
    ensures s.Start(off) < s.Bytes() && s.Size(len) <= s.Bytes()
    ensures Mul32(s.Cap(), s.esize) == s.Bytes()
    ensures Mul32(And(off, s.mask), s.esize) == s.Start(off)
    ensures Mul32(len, s.esize) == s.Size(len)
  {
    StartInside(s, off);
    TimesMono(len, s.Cap(), s.esize);
    MulInWord(s.Cap(), s.esize);
    MulInWord(And(off, s.mask), s.esize);
    MulInWord(len, s.esize);
  }

  /** Bytes and elements are the same thing when elements are single bytes. */
  lemma SingleBytes(s: Shape, len: U32, off: U32)
    requires s.esize == 1
    ensures s.Bytes() == s.Cap() && s.Start(off) == And(off, s.mask) && s.Size(len) == len
  {
    TimesOne(s.Cap());
    TimesOne(And(off, s.mask));
    TimesOne(len);
  }
}
