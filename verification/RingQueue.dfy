/** A ring buffer as a value: which queue of bytes its indices and its buffer represent, and what
    the two copies of source/common/kfifo.h do to that queue. */
module RingQueue {
  import opened Arithmetic
  import opened PowersOfTwo
  import opened Ring
  import opened Words

  // ----- Copies as functions of the buffer -----

  /** The buffer after n elements of src were copied in at index off. */
  ghost function CopiedIn(s: Shape, data: seq<Byte>, src: seq<Byte>, n: nat, off: U32): (r: seq<Byte>)
    requires s.Size(n) <= |src| && s.Bytes() <= |data| && s.Start(off) <= s.Bytes()
    ensures |r| == |data|
  {
    seq(|data|, a requires 0 <= a < |data| =>
      if a < s.Bytes() && s.Pos(off, a) < s.Size(n) then src[s.Pos(off, a)] else data[a])
  }

  /** The n elements that a copy out of index off reads. */
  ghost function CopiedOut(s: Shape, data: seq<Byte>, n: nat, off: U32): (r: seq<Byte>)
    requires n <= s.Cap() && s.Bytes() <= |data| && s.Start(off) <= s.Bytes()
    ensures |r| == s.Size(n)
  {
    TimesMono(n, s.Cap(), s.esize);
    seq(s.Size(n), t requires 0 <= t < s.Size(n) => data[s.Addr(off, t)])
  }

  /** Where the first memcpy of a copy of b bytes stops: at the end of the buffer, if it gets there. */
  ghost function FirstSegment(s: Shape, b: nat, off: U32): nat
    requires s.Start(off) <= s.Bytes()
  {
    Min(b, s.Bytes() - s.Start(off))
  }

  /** What memcpy leaves behind. */
  ghost function Splice(bytes: seq<Byte>, at: nat, patch: seq<Byte>): (r: seq<Byte>)
    requires at + |patch| <= |bytes|
    ensures |r| == |bytes|
  {
    bytes[..at] + patch + bytes[at + |patch|..]
  }

  /** The two memcpy calls of kfifo_copy_in are the modular copy. */
  lemma TwoSegmentsIn(s: Shape, before: seq<Byte>, between: seq<Byte>, after: seq<Byte>,
                      src: seq<Byte>, n: nat, off: U32, l: nat)
    requires s.Size(n) <= s.Bytes() <= |before| && s.Size(n) <= |src| && s.Start(off) <= s.Bytes()
    requires l == FirstSegment(s, s.Size(n), off)
    requires between == Splice(before, s.Start(off), src[0..l])
    requires after == Splice(between, 0, src[l..s.Size(n)])
    ensures after == CopiedIn(s, before, src, n, off)
  {
  }

  /** The two memcpy calls of kfifo_copy_out are the modular copy. */
  lemma TwoSegmentsOut(s: Shape, data: seq<Byte>, before: seq<Byte>, between: seq<Byte>, after: seq<Byte>,
                       n: nat, off: U32, l: nat)
    requires n <= s.Cap() && s.Size(n) <= s.Bytes() <= |data| && s.Start(off) <= s.Bytes()
    requires s.Size(n) <= |before| && l == FirstSegment(s, s.Size(n), off)
    requires between == Splice(before, 0, data[s.Start(off)..s.Start(off) + l])
    requires after == Splice(between, l, data[0..s.Size(n) - l])
    ensures after == Splice(before, 0, CopiedOut(s, data, n, off))
  {
  }

  // ----- The represented queue -----

  /** The queued bytes, oldest first. */
  ghost function Queue(s: Shape, data: seq<Byte>, inIdx: U32, outIdx: U32): seq<Byte>
    requires s.Ok() && s.Bytes() <= |data|
  {
    StartInside(s, outIdx);
    var used := Sub32(inIdx, outIdx);
    if used <= s.Cap() then CopiedOut(s, data, used, outIdx) else []
  }

  /** The indices are the true element counts of two streams, reduced modulo 2^32: everything ever
      put in, and everything ever taken out.  The queue is what lies between them. */
  ghost predicate Represents(s: Shape, data: seq<Byte>, inIdx: U32, outIdx: U32,
                             totalIn: nat, totalOut: nat, pushed: seq<Byte>, popped: seq<Byte>)
  {
    && s.Ok() && s.Bytes() <= |data|
    && totalOut <= totalIn <= totalOut + s.Cap()
    && inIdx == Wrap(totalIn) && outIdx == Wrap(totalOut)
    && |pushed| == s.Size(totalIn) && |popped| == s.Size(totalOut)
    && pushed == popped + Queue(s, data, inIdx, outIdx)
  }

  /** The difference of the indices, as an unsigned int, counts the queued elements. */
  lemma Counted(s: Shape, data: seq<Byte>, totalIn: nat, totalOut: nat)
    requires s.Ok() && s.Bytes() <= |data| && totalOut <= totalIn <= totalOut + s.Cap()
    ensures s.Start(Wrap(totalOut)) < s.Bytes()
    ensures Sub32(Wrap(totalIn), Wrap(totalOut)) == totalIn - totalOut
    ensures Queue(s, data, Wrap(totalIn), Wrap(totalOut)) == CopiedOut(s, data, totalIn - totalOut, Wrap(totalOut))
  {
    CapInWord(s);
    SubWraps(totalIn, totalOut);
    StartInside(s, Wrap(totalOut));
  }

  /** Copying n elements in at the in index appends them and disturbs no queued byte. */
  lemma Appended(s: Shape, data: seq<Byte>, src: seq<Byte>, n: U32, totalIn: nat, totalOut: nat)
    requires s.Ok() && s.Bytes() <= |data| && totalOut <= totalIn && totalIn + n <= totalOut + s.Cap()
    requires s.Size(n) <= |src|
    ensures s.Start(Wrap(totalIn)) < s.Bytes()
    ensures Queue(s, CopiedIn(s, data, src, n, Wrap(totalIn)), Wrap(totalIn + n), Wrap(totalOut)) ==
            Queue(s, data, Wrap(totalIn), Wrap(totalOut)) + src[..s.Size(n)]
  {
    var used := totalIn - totalOut;
    StartInside(s, Wrap(totalIn));
    StartInside(s, Wrap(totalOut));
    forall t: nat | t < s.Bytes()
      ensures IsAhead(s, Wrap(totalIn), Wrap(totalOut), used, t)
    {
      PosAhead(s, totalOut, used, t);
    }
    CopiesCompose(s, data, src, used, n, Wrap(totalIn), Wrap(totalOut));
    Counted(s, data, totalIn, totalOut);
    Counted(s, CopiedIn(s, data, src, n, Wrap(totalIn)), totalIn + n, totalOut);
  }

  /** Byte t of a copy out at index o is where a copy in at index i, `used` elements ahead, puts
      byte t - used, or comes to only after all the free bytes. */
  ghost predicate IsAhead(s: Shape, i: U32, o: U32, used: nat, t: nat) {
    && s.Size(used) <= s.Bytes() && 0 <= s.Addr(o, t) < s.Bytes()
    && s.Pos(i, s.Addr(o, t)) == if s.Size(used) <= t then t - s.Size(used) else t + s.Bytes() - s.Size(used)
  }

  lemma CopiesCompose(s: Shape, data: seq<Byte>, src: seq<Byte>, used: nat, n: nat, i: U32, o: U32)
    requires used + n <= s.Cap() && s.Bytes() <= |data| && s.Size(n) <= |src|
    requires s.Start(i) <= s.Bytes() && s.Start(o) <= s.Bytes()
    requires forall t: nat :: t < s.Bytes() ==> IsAhead(s, i, o, used, t)
    ensures CopiedOut(s, CopiedIn(s, data, src, n, i), used + n, o) == CopiedOut(s, data, used, o) + src[..s.Size(n)]
  {
    TimesAdd(used, n, s.esize);
    TimesMono(used + n, s.Cap(), s.esize);
    var after := CopiedOut(s, CopiedIn(s, data, src, n, i), used + n, o);
    var expected := CopiedOut(s, data, used, o) + src[..s.Size(n)];
    forall t | 0 <= t < |after| ensures after[t] == expected[t] {
      assert IsAhead(s, i, o, used, t);
    }
  }

  /** Advancing the out index by n elements drops their bytes. */
  lemma Advanced(s: Shape, data: seq<Byte>, n: U32, totalIn: nat, totalOut: nat)
    requires s.Ok() && s.Bytes() <= |data| && totalOut + n <= totalIn <= totalOut + s.Cap()
    ensures s.Size(n) <= |Queue(s, data, Wrap(totalIn), Wrap(totalOut))|
    ensures Queue(s, data, Wrap(totalIn), Wrap(totalOut + n)) ==
            Queue(s, data, Wrap(totalIn), Wrap(totalOut))[s.Size(n)..]
  {
    Counted(s, data, totalIn, totalOut);
    Counted(s, data, totalIn, totalOut + n);
    CopyShift(s, data, totalIn - totalOut, n, totalOut);
  }

  lemma CopyShift(s: Shape, data: seq<Byte>, used: nat, n: nat, totalOut: nat)
    requires s.Ok() && s.Bytes() <= |data| && n <= used <= s.Cap()
    requires s.Start(Wrap(totalOut)) <= s.Bytes() && s.Start(Wrap(totalOut + n)) <= s.Bytes()
    ensures s.Size(n) <= s.Size(used)
    ensures CopiedOut(s, data, used - n, Wrap(totalOut + n)) == CopiedOut(s, data, used, Wrap(totalOut))[s.Size(n)..]
  {
    TimesAdd(used - n, n, s.esize);
    TimesMono(used, s.Cap(), s.esize);
    var whole := CopiedOut(s, data, used, Wrap(totalOut));
    var rest := CopiedOut(s, data, used - n, Wrap(totalOut + n));
    forall t | 0 <= t < |rest| ensures rest[t] == whole[s.Size(n)..][t] {
      AddrShift(s, totalOut, n, t);
    }
  }

  /** A copy out of fewer elements is a prefix of the queue. */
  lemma Peeked(s: Shape, data: seq<Byte>, n: U32, totalIn: nat, totalOut: nat)
    requires s.Ok() && s.Bytes() <= |data| && totalOut + n <= totalIn <= totalOut + s.Cap()
    ensures s.Start(Wrap(totalOut)) < s.Bytes()
    ensures s.Size(n) <= |Queue(s, data, Wrap(totalIn), Wrap(totalOut))|
    ensures CopiedOut(s, data, n, Wrap(totalOut)) == Queue(s, data, Wrap(totalIn), Wrap(totalOut))[..s.Size(n)]
  {
    Counted(s, data, totalIn, totalOut);
    TimesMono(n, totalIn - totalOut, s.esize);
  }

  /** A queue that has grown at its end, and one that has shrunk at its front. */
  lemma Longer(s: Shape, data: seq<Byte>, n: U32, totalIn: nat, totalOut: nat,
               pushed: seq<Byte>, popped: seq<Byte>, queue: seq<Byte>, patch: seq<Byte>)
    requires s.Ok() && s.Bytes() <= |data| && totalOut <= totalIn && totalIn + n <= totalOut + s.Cap()
    requires |pushed| == s.Size(totalIn) && |popped| == s.Size(totalOut) && |patch| == s.Size(n)
    requires pushed == popped + queue && Queue(s, data, Wrap(totalIn + n), Wrap(totalOut)) == queue + patch
    ensures Represents(s, data, Wrap(totalIn + n), Wrap(totalOut), totalIn + n, totalOut, pushed + patch, popped)
  {
    TimesAdd(totalIn, n, s.esize);
    assert (popped + queue) + patch == popped + (queue + patch);
  }

  lemma Shorter(s: Shape, data: seq<Byte>, n: U32, totalIn: nat, totalOut: nat,
                pushed: seq<Byte>, popped: seq<Byte>, taken: seq<Byte>, queue: seq<Byte>)
    requires s.Ok() && s.Bytes() <= |data| && totalOut + n <= totalIn <= totalOut + s.Cap()
    requires |pushed| == s.Size(totalIn) && |popped| == s.Size(totalOut) && |taken| == s.Size(n)
    requires pushed == popped + (taken + queue) && Queue(s, data, Wrap(totalIn), Wrap(totalOut + n)) == queue
    ensures Represents(s, data, Wrap(totalIn), Wrap(totalOut + n), totalIn, totalOut + n, pushed, popped + taken)
  {
    TimesAdd(totalOut, n, s.esize);
    assert (popped + taken) + queue == popped + (taken + queue);
  }

  /** __kfifo_in keeps the representation, with n more elements put in. */
  lemma InKeeps(s: Shape, data: seq<Byte>, src: seq<Byte>, n: U32,
                totalIn: nat, totalOut: nat, pushed: seq<Byte>, popped: seq<Byte>)
    requires Represents(s, data, Wrap(totalIn), Wrap(totalOut), totalIn, totalOut, pushed, popped)
    requires totalIn + n <= totalOut + s.Cap() && s.Size(n) <= |src|
    ensures s.Start(Wrap(totalIn)) < s.Bytes()
    ensures Represents(s, CopiedIn(s, data, src, n, Wrap(totalIn)), Add32(Wrap(totalIn), n), Wrap(totalOut),
                       totalIn + n, totalOut, pushed + src[..s.Size(n)], popped)
    ensures Queue(s, CopiedIn(s, data, src, n, Wrap(totalIn)), Add32(Wrap(totalIn), n), Wrap(totalOut)) ==
            Queue(s, data, Wrap(totalIn), Wrap(totalOut)) + src[..s.Size(n)]
  {
    Appended(s, data, src, n, totalIn, totalOut);
    AddWraps(totalIn, n);
    Longer(s, CopiedIn(s, data, src, n, Wrap(totalIn)), n, totalIn, totalOut, pushed, popped,
           Queue(s, data, Wrap(totalIn), Wrap(totalOut)), src[..s.Size(n)]);
  }

  /** __kfifo_out keeps the representation, with n more elements taken out. */
  lemma OutKeeps(s: Shape, data: seq<Byte>, n: U32,
                 totalIn: nat, totalOut: nat, pushed: seq<Byte>, popped: seq<Byte>)
    requires Represents(s, data, Wrap(totalIn), Wrap(totalOut), totalIn, totalOut, pushed, popped)
    requires totalOut + n <= totalIn
    ensures s.Size(n) <= |Queue(s, data, Wrap(totalIn), Wrap(totalOut))|
    ensures Represents(s, data, Wrap(totalIn), Add32(Wrap(totalOut), n), totalIn, totalOut + n,
                       pushed, popped + Queue(s, data, Wrap(totalIn), Wrap(totalOut))[..s.Size(n)])
    ensures Queue(s, data, Wrap(totalIn), Add32(Wrap(totalOut), n)) ==
            Queue(s, data, Wrap(totalIn), Wrap(totalOut))[s.Size(n)..]
  {
    Advanced(s, data, n, totalIn, totalOut);
    AddWraps(totalOut, n);
    var queue := Queue(s, data, Wrap(totalIn), Wrap(totalOut));
    assert queue == queue[..s.Size(n)] + queue[s.Size(n)..];
    Shorter(s, data, n, totalIn, totalOut, pushed, popped, queue[..s.Size(n)], queue[s.Size(n)..]);
  }

  // ----- The same, slot by slot -----

  /** The element in slot k of the buffer, or element k of a caller's array. */
  ghost function Element(s: Shape, bytes: seq<Byte>, k: nat): (r: seq<Byte>)
    requires s.Size(k) + s.esize <= |bytes|
    ensures |r| == s.esize
  {
    bytes[s.Size(k)..s.Size(k) + s.esize]
  }

  /** The element of a copy from index off that belongs in slot k. */
  ghost function ElementFor(s: Shape, off: U32, k: nat): (i: nat)
    requires s.Ok() && k < s.Cap()
    ensures i < s.Cap() && And(Add32(off, i), s.mask) == k
  {
    var i := (k - off) % s.Cap();
    ModDifference(k, off, s.Cap());
    SlotOfCount(s, off + i);
    i
  }

  /** The copy stores element i of src in slot (off + i) & mask for each i < n, and leaves every
      other slot as it was. */
  lemma CopiedInBySlot(s: Shape, data: seq<Byte>, src: seq<Byte>, n: nat, off: U32, k: nat)
    requires s.Ok() && s.Bytes() <= |data| && s.Size(n) <= |src|
    requires s.Start(off) <= s.Bytes() && k < s.Cap()
    ensures s.Size(k) + s.esize <= |data|
    ensures ElementFor(s, off, k) < n ==> s.Size(ElementFor(s, off, k)) + s.esize <= |src|
    ensures Element(s, CopiedIn(s, data, src, n, off), k) ==
            if ElementFor(s, off, k) < n then Element(s, src, ElementFor(s, off, k)) else Element(s, data, k)
  {
    var i := ElementFor(s, off, k);
    TimesMono(k, s.Cap(), s.esize);
    TimesMono(i, n, s.esize);
    var got := Element(s, CopiedIn(s, data, src, n, off), k);
    var want := if i < n then Element(s, src, i) else Element(s, data, k);
    forall j | 0 <= j < s.esize ensures got[j] == want[j] {
      ByteInSlot(s, data, src, n, off, k, j);
    }
  }

  lemma ByteInSlot(s: Shape, data: seq<Byte>, src: seq<Byte>, n: nat, off: U32, k: nat, j: nat)
    requires s.Ok() && s.Bytes() <= |data| && s.Size(n) <= |src| && s.Start(off) <= s.Bytes()
    requires k < s.Cap() && j < s.esize
    ensures s.Size(k) + j < |data|
    ensures ElementFor(s, off, k) < n ==> s.Size(ElementFor(s, off, k)) + j < |src|
    ensures CopiedIn(s, data, src, n, off)[s.Size(k) + j] ==
            if ElementFor(s, off, k) < n then src[s.Size(ElementFor(s, off, k)) + j] else data[s.Size(k) + j]
  {
    var i := ElementFor(s, off, k);
    TimesMono(i, n, s.esize);
    TimesMono(n, i, s.esize);
    PosInSlot(s, off, k, j);
  }

  lemma PosInSlot(s: Shape, off: U32, k: nat, j: nat)
    requires s.Ok() && k < s.Cap() && j < s.esize
    ensures s.Size(k) + j < s.Bytes()
    ensures s.Pos(off, s.Size(k) + j) == s.Size(ElementFor(s, off, k)) + j
  {
    var i := ElementFor(s, off, k);
    TimesMono(k, s.Cap(), s.esize);
    AddrOfElement(s, off, i, j);
    PosOfAddr(s, off, s.Size(i) + j);
  }

  /** The copy out returns the elements of slots off & mask, (off + 1) & mask, ... in order. */
  lemma CopiedOutBySlot(s: Shape, data: seq<Byte>, n: nat, off: U32, i: nat)
    requires s.Ok() && s.Bytes() <= |data| && i < n <= s.Cap()
    requires s.Start(off) <= s.Bytes()
    ensures s.Size(i) + s.esize <= s.Size(n) && s.Start(Add32(off, i)) + s.esize <= |data|
    ensures Element(s, CopiedOut(s, data, n, off), i) == Element(s, data, And(Add32(off, i), s.mask))
  {
    TimesMono(i, n, s.esize);
    StartInside(s, Add32(off, i));
    var got := Element(s, CopiedOut(s, data, n, off), i);
    var want := Element(s, data, And(Add32(off, i), s.mask));
    forall j | 0 <= j < s.esize ensures got[j] == want[j] {
      AddrOfElement(s, off, i, j);
    }
  }

  /** Element a of the stream of everything ever put in sits in slot (a mod 2^32) & mask until it
      is taken out, however often the indices have wrapped. */
  lemma StreamInSlots(s: Shape, data: seq<Byte>, inIdx: U32, outIdx: U32,
                      totalIn: nat, totalOut: nat, pushed: seq<Byte>, popped: seq<Byte>, a: nat)
    requires Represents(s, data, inIdx, outIdx, totalIn, totalOut, pushed, popped)
    requires totalOut <= a < totalIn
    ensures s.Size(a) + s.esize <= |pushed| && s.Start(Wrap(a)) + s.esize <= |data|
    ensures Element(s, data, And(Wrap(a), s.mask)) == Element(s, pushed, a)
  {
    var i, used := a - totalOut, totalIn - totalOut;
    Counted(s, data, totalIn, totalOut);
    AddWraps(totalOut, i);
    CopiedOutBySlot(s, data, used, outIdx, i);
    StartInside(s, Wrap(a));
    ElementOfSum(s, popped, Queue(s, data, inIdx, outIdx), totalOut, i);
  }

  lemma ElementOfSum(s: Shape, front: seq<Byte>, back: seq<Byte>, n: nat, i: nat)
    requires |front| == s.Size(n) && s.Size(i) + s.esize <= |back|
    ensures s.Size(n + i) + s.esize <= |front + back|
    ensures Element(s, front + back, n + i) == Element(s, back, i)
  {
    TimesAdd(n, i, s.esize);
  }
}
