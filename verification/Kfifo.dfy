/** The lock-free byte ring buffer of source/common/kfifo.h, used by one thread.

    The two indices run freely through the 32-bit words and are reduced only when an address is
    formed.  Two ghost streams say what that amounts to: everything ever put in, and everything
    ever taken out, however often the indices have wrapped. */
module Kfifo {
  import opened Arithmetic
  import opened PowersOfTwo
  import opened Ring
  import RingQueue
  import opened Words

  /** memcpy: the two areas must not overlap. */
  method MemCpy(dst: array<Byte>, d: nat, src: array<Byte>, s: nat, n: nat)
    requires dst != src && d + n <= dst.Length && s + n <= src.Length
    modifies dst
    ensures dst[..] == RingQueue.Splice(old(dst[..]), d, src[..][s..s + n])
  {
    forall i | 0 <= i < n {
      dst[d + i] := src[s + i];
    }
  }

  class Kfifo {
    var inIdx: U32
    var outIdx: U32
    var mask: U32
    var esize: U32
    var data: array<Byte>

    ghost var pushed: seq<Byte>
    ghost var popped: seq<Byte>
    ghost var totalIn: nat
    ghost var totalOut: nat

    /** Storage for a fifo whose fields have not been set yet. */
    constructor Allocate() {
      inIdx, outIdx, mask, esize := *, *, *, *;
      data := new Byte[0];
    }

    function Layout(): Shape
      reads this
    {
      Shape(mask, esize)
    }

    /** The bytes of n elements. */
    ghost function Size(n: nat): nat
      reads this
    {
      Layout().Size(n)
    }

    /** The sizes fit: what the copies need of their fifo. */
    ghost predicate Fits()
      reads this
    {
      Layout().Ok() && Layout().Bytes() <= data.Length
    }

    ghost predicate Valid()
      reads this, data
    {
      RingQueue.Represents(Layout(), data[..], inIdx, outIdx, totalIn, totalOut, pushed, popped)
    }

    /** The queued bytes, oldest first, as the fields and the buffer represent them. */
    ghost function Queue(): seq<Byte>
      reads this, data
      requires Fits()
    {
      RingQueue.Queue(Layout(), data[..], inIdx, outIdx)
    }

    lemma Counted()
      requires Valid()
      ensures Sub32(inIdx, outIdx) == totalIn - totalOut
      ensures Add32(mask, 1) == mask + 1
      ensures |Queue()| == Size(Sub32(inIdx, outIdx))
    {
      CapInWord(Layout());
      RingQueue.Counted(Layout(), data[..], totalIn, totalOut);
    }

    // ----- Queries -----

    function Len(): (r: U32)
      reads this, data
      ensures Valid() ==> |Queue()| == Size(r) && r <= Capacity()
    {
      assert Valid() ==> |Queue()| == Size(Sub32(inIdx, outIdx)) && Sub32(inIdx, outIdx) <= Capacity() by {
        if Valid() { Counted(); }
      }
      Sub32(inIdx, outIdx)
    }

    function Capacity(): (r: U32)
      reads this, data
      ensures Valid() ==> Layout().Bytes() == Size(r)
    {
      assert Valid() ==> Add32(mask, 1) == mask + 1 by {
        if Valid() { Counted(); }
      }
      Add32(mask, 1)
    }

    function Avail(): (r: U32)
      reads this, data
      ensures Valid() ==> Len() + r == Capacity()
    {
      Sub32(Capacity(), Len())
    }

    function Unused(): (r: U32)
      reads this, data
      ensures r == Avail()
    {
      Sub32(Add32(mask, 1), Sub32(inIdx, outIdx))
    }

    predicate IsFull()
      reads this, data
      ensures Valid() ==> (IsFull() <==> Avail() == 0)
      ensures Valid() ==> (IsFull() <==> |Queue()| == Layout().Bytes())
    {
      assert Valid() ==> (Len() > mask <==> |Queue()| == Layout().Bytes()) by {
        if Valid() {
          Counted();
          TimesMono(Len(), Capacity(), esize);
        }
      }
      Len() > mask
    }

    predicate IsEmpty()
      reads this, data
      ensures Valid() ==> (IsEmpty() <==> Queue() == [])
      ensures Valid() ==> (IsEmpty() <==> Len() == 0)
    {
      assert Valid() ==> (inIdx == outIdx <==> |Queue()| == 0) by {
        if Valid() { Counted(); }
      }
      inIdx == outIdx
    }

    // ----- __kfifo_init -----

    /** Sets up a fifo over a buffer of `size` bytes.  It succeeds exactly for 2 to 2^31 elements.
        The capacity is then the element count rounded up to a power of two, which the buffer
        holds only when the element count was a power of two to begin with. */
    method Init(buffer: array<Byte>, size: U32, elementSize: U64) returns (code: int)
      requires buffer.Length == size && elementSize > 0
      modifies this
      ensures code == if 2 <= size / elementSize <= 0x8000_0000 then 0 else -1
      ensures data == buffer && inIdx == 0 && outIdx == 0
      ensures code == 0 ==> IsLeastPow2(mask + 1, size / elementSize) && mask + 1 < 2 * (size / elementSize)
      ensures code == 0 ==> esize == elementSize
      ensures esize == elementSize % 0x1_0000_0000
      ensures code == 0 ==> (Fits() <==> IsPow2(size / elementSize))
      ensures code == 0 && Fits() ==> Valid() && Queue() == [] && pushed == [] && popped == []
      ensures code == -1 ==> mask == 0
    {
      var n := RoundedCount(size, elementSize);
      inIdx := 0;
      outIdx := 0;
      esize := elementSize % 0x1_0000_0000;
      data := buffer;
      pushed, popped, totalIn, totalOut := [], [], 0, 0;
      if n < 2 {
        mask := 0;
        return -1;
      }
      mask := n - 1;
      if Fits() {
        RingQueue.Counted(Layout(), data[..], 0, 0);
      }
      return 0;
    }

    // ----- kfifo_copy_in, kfifo_copy_out -----

    /** The lines that the two copies share: the first byte, the size of the copy, and how much of
        it the first memcpy moves. */
    method Extent(len: U32, off: U32) returns (o: U32, n: U32, l: U32)
      requires Fits() && len <= mask + 1
      ensures o == Layout().Start(off) < Layout().Bytes() && n == Size(len) <= Layout().Bytes()
      ensures l == RingQueue.FirstSegment(Layout(), n, off)
    {
      CapInWord(Layout());
      SizesInWord(Layout(), len, off);
      var size := Add32(mask, 1);
      o, n := And(off, mask), len;
      if esize != 1 {
        o := Mul32(o, esize);
        size := Mul32(size, esize);
        n := Mul32(n, esize);
      } else {
        SingleBytes(Layout(), len, off);
      }
      l := Min(n, Sub32(size, o));
    }

    method CopyIn(src: array<Byte>, len: U32, off: U32)
      requires Fits() && src != data
      requires len <= mask + 1 && Size(len) <= src.Length
      modifies data
      ensures Layout().Start(off) < Layout().Bytes()
      ensures data[..] == RingQueue.CopiedIn(Layout(), old(data[..]), src[..], len, off)
    {
      var o, n, l := Extent(len, off);
      ghost var before := data[..];
      MemCpy(data, o, src, 0, l);
      ghost var between := data[..];
      MemCpy(data, 0, src, l, n - l);
      RingQueue.TwoSegmentsIn(Layout(), before, between, data[..], src[..], len, off, l);
    }

    method CopyOut(dst: array<Byte>, len: U32, off: U32)
      requires Fits() && dst != data
      requires len <= mask + 1 && Size(len) <= dst.Length
      modifies dst
      ensures Layout().Start(off) < Layout().Bytes()
      ensures dst[..] == RingQueue.Splice(old(dst[..]), 0, RingQueue.CopiedOut(Layout(), data[..], len, off))
    {
      var o, n, l := Extent(len, off);
      ghost var before := dst[..];
      MemCpy(dst, 0, data, o, l);
      ghost var between := dst[..];
      MemCpy(dst, l, data, 0, n - l);
      RingQueue.TwoSegmentsOut(Layout(), data[..], before, between, dst[..], len, off, l);
    }

    // ----- __kfifo_in, __kfifo_out_peek, __kfifo_out -----

    /** Appends the longest prefix of buf's `len` elements that fits. */
    method In(buf: array<Byte>, len: U32) returns (n: U32)
      requires Valid() && buf != data
      requires Size(Min(len, Unused())) <= buf.Length
      modifies this`inIdx, this`pushed, this`totalIn, data
      ensures Valid()
      ensures n == Min(len, old(Unused())) && Size(n) <= buf.Length
      ensures Queue() == old(Queue()) + buf[..][..Size(n)]
      ensures pushed == old(pushed) + buf[..][..Size(n)]
    {
      Counted();
      var l := Unused();
      n := len;
      if n > l {
        n := l;
      }
      RingQueue.InKeeps(Layout(), data[..], buf[..], n, totalIn, totalOut, pushed, popped);
      CopyIn(buf, n, inIdx);
      inIdx := Add32(inIdx, n);
      totalIn := totalIn + n;
      pushed := pushed + buf[..][..Size(n)];
    }

    /** Copies the first `len` queued elements, or all of them when there are fewer. */
    method OutPeek(buf: array<Byte>, len: U32) returns (n: U32)
      requires Valid() && buf != data
      requires Size(Min(len, Len())) <= buf.Length
      modifies buf
      ensures Valid() && Queue() == old(Queue())
      ensures n == Min(len, Len()) && Size(n) <= buf.Length && Size(n) <= |Queue()|
      ensures buf[..] == RingQueue.Splice(old(buf[..]), 0, Queue()[..Size(n)])
    {
      Counted();
      var l := Sub32(inIdx, outIdx);
      n := len;
      if n > l {
        n := l;
      }
      RingQueue.Peeked(Layout(), data[..], n, totalIn, totalOut);
      CopyOut(buf, n, outIdx);
    }

    /** Removes what OutPeek copies. */
    method Out(buf: array<Byte>, len: U32) returns (n: U32)
      requires Valid() && buf != data
      requires Size(Min(len, Len())) <= buf.Length
      modifies this`outIdx, this`popped, this`totalOut, buf
      ensures Valid()
      ensures n == Min(len, old(Len())) && Size(n) <= buf.Length && Size(n) <= |old(Queue())|
      ensures buf[..] == RingQueue.Splice(old(buf[..]), 0, old(Queue())[..Size(n)])
      ensures Queue() == old(Queue())[Size(n)..]
      ensures popped == old(popped) + old(Queue())[..Size(n)]
    {
      Counted();
      n := OutPeek(buf, len);
      RingQueue.OutKeeps(Layout(), data[..], n, totalIn, totalOut, pushed, popped);
      popped := popped + Queue()[..Size(n)];
      outIdx := Add32(outIdx, n);
      totalOut := totalOut + n;
    }

    /** In and then Out of everything: the old contents, then the accepted prefix. */
    method RoundTrip(buf: array<Byte>, len: U32, sink: array<Byte>) returns (n: U32, m: U32)
      requires Valid() && buf != data && sink != data && sink != buf
      requires Size(len) <= buf.Length && Layout().Bytes() <= sink.Length
      modifies this`inIdx, this`outIdx, this`pushed, this`popped, this`totalIn, this`totalOut, data, sink
      ensures Valid() && Queue() == []
      ensures n == Min(len, old(Unused())) && Size(n) <= buf.Length && Size(m) <= sink.Length
      ensures sink[..][..Size(m)] == old(Queue()) + buf[..][..Size(n)]
    {
      TimesMono(Min(len, Unused()), len, esize);
      n := In(buf, len);
      var all := Len();
      TimesMono(all, Capacity(), esize);
      m := Out(sink, all);
    }
  }

  /** For instance three single bytes: __kfifo_init succeeds with a capacity of four. */
  method InitThreeBytes(fifo: Kfifo, buffer: array<Byte>) returns (code: int)
    requires buffer.Length == 3
    modifies fifo
    ensures code == 0 && fifo.data == buffer
    ensures fifo.mask == 3 && fifo.Layout().Bytes() == 4 > buffer.Length
  {
    code := fifo.Init(buffer, 3, 1);
    LeastAboveThree(fifo.mask + 1);
    TimesOne(fifo.mask + 1);
  }

  /** Three is no power of two, so its capacity is not the element count. */
  lemma LeastAboveThree(cap: nat)
    requires IsLeastPow2(cap, 3)
    ensures cap == 4 && !IsPow2(3)
  {
    assert Pow2(2) == 4;
    var k: nat :| cap == Pow2(k);
    if k > 2 { Pow2Monotone(2, k); }
  }

  // ----- The arithmetic of Init -----

  /** The first lines of __kfifo_init: the element count, rounded up. */
  method RoundedCount(size: U32, elementSize: U64) returns (n: U32)
    requires elementSize > 0
    ensures IsSized(size, elementSize, size / elementSize, n)
  {
    QuotientBound(size, elementSize);
    ghost var count := size / elementSize;
    n := RoundedUnlessPow2(size / elementSize);
    Sized(size, elementSize, count, n);
  }

  method RoundedUnlessPow2(count: U32) returns (n: U32)
    ensures if count == 0 || IsPow2(count) then n == count else IsRoundedUp(n, count)
  {
    n := count;
    IsPowerOf2Exact(n);
    if !IsPowerOf2(n) {
      n := RoundupPowOfTwo(n);
    }
  }

  /** The result is at least 2 for exactly the counts from 2 to 2^31, and only a power of two keeps
      the rounded capacity inside the buffer. */
  ghost predicate IsSized(size: U32, elementSize: U64, count: U32, n: U32)
    requires elementSize > 0
  {
    && (n >= 2 <==> 2 <= count <= 0x8000_0000)
    && (n >= 2 ==> IsLeastPow2(n, count) && n < 2 * count && elementSize < 0x1_0000_0000)
    && (n >= 2 ==> (Shape(n - 1, elementSize).Ok() && Shape(n - 1, elementSize).Bytes() <= size <==> IsPow2(count)))
  }

  lemma QuotientBound(size: U32, elementSize: U64)
    requires elementSize > 0
    ensures size / elementSize <= size
    ensures size / elementSize >= 1 ==> elementSize <= size
  {
    if size < elementSize {
      SmallMod(size, elementSize);
    }
    var q := size / elementSize;
    assert size == q * elementSize + size % elementSize;
    MulMono(1, elementSize, q);
  }

  lemma Sized(size: U32, elementSize: U64, count: U32, n: U32)
    requires elementSize > 0 && count == size / elementSize
    requires if count == 0 || IsPow2(count) then n == count else IsRoundedUp(n, count)
    ensures IsSized(size, elementSize, count, n)
  {
    QuotientBound(size, elementSize);
    if IsPow2(count) {
      Pow2InWord(count);
    }
    if n >= 2 {
      RoundedFits(size, elementSize, count, n);
      TimesIsProduct(n, elementSize);
    }
  }

  lemma Pow2InWord(count: U32)
    requires IsPow2(count)
    ensures 1 <= count <= 0x8000_0000
  {
    var k: nat :| count == Pow2(k);
    WordIsPow2();
    if k > 32 { Pow2Monotone(32, k); }
    if k < 31 { Pow2Monotone(k, 31); }
  }
}
