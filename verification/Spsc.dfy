/** The kfifo of source/common/kfifo.h shared by one producer in __kfifo_in and one consumer in
    __kfifo_out (or __kfifo_out_peek), without locks.

    Each load of the other side's index, each byte of a memcpy and each index store is a step of
    its own, and the bytes of a copy move in any order.  Steps take effect in sequence: the memory
    barrier at the end of each copy keeps the index store behind the bytes. */
module Spsc {
  import opened Arithmetic
  import opened Ring
  import opened RingQueue
  import opened Runs
  import opened Words

  /** A thread inside __kfifo_in: arguments, then what it has loaded, then the bytes of its n
      accepted elements that it still has to copy. */
  datatype Producer =
    | PIdle
    | PLoadingIn(src: seq<Byte>, len: U32)
    | PLoadingOut(src: seq<Byte>, len: U32, inSeen: U32)
    | PCopying(src: seq<Byte>, n: U32, off: U32, todo: set<nat>)

  /** A thread inside __kfifo_out or __kfifo_out_peek; dst is the caller's memory.  The history
      variable `seen` is the element count that the loaded in index stands for. */
  datatype Consumer =
    | CIdle
    | CLoadingIn(dst: seq<Byte>, len: U32)
    | CLoadingOut(dst: seq<Byte>, len: U32, inSeen: U32, seen: nat)
    | CCopying(dst: seq<Byte>, n: U32, off: U32, todo: set<nat>)

  /** The shared memory, the two threads, and four history variables: the elements published and
      released so far, and their bytes. */
  datatype State = State(
    shape: Shape, inIdx: U32, outIdx: U32, buf: seq<Byte>,
    p: Producer, c: Consumer,
    totalIn: nat, totalOut: nat, pushed: seq<Byte>, popped: seq<Byte>)
  {
    ghost function Queued(): seq<Byte>
      requires shape.Ok() && shape.Bytes() <= |buf|
    {
      Queue(shape, buf, inIdx, outIdx)
    }
  }

  datatype Action =
    | PCall(src: seq<Byte>, len: U32) | PLoadIn | PLoadOut | PByte(t: nat) | PStore
    | CCall(dst: seq<Byte>, len: U32) | CLoadIn | CLoadOut | CByte(t: nat) | CStore | CPeeked

  // A byte outside the buffer is undefined behaviour; SafeRuns shows that none is touched.
  function Peek(buf: seq<Byte>, a: int): Byte { if 0 <= a < |buf| then buf[a] else 0 }
  function Poke(buf: seq<Byte>, a: int, b: Byte): seq<Byte> { if 0 <= a < |buf| then buf[a := b] else buf }

  function Indices(n: nat): (r: set<nat>)
    ensures forall t: nat :: t in r <==> t < n
    ensures |r| == n
  {
    if n == 0 then {} else Indices(n - 1) + {n - 1}
  }

  ghost function Step(s: State, a: Action): Option<State> {
    match a
    // __kfifo_in
    case PCall(src, len) =>
      if s.p.PIdle? && s.shape.Size(len) <= |src| then Some(s.(p := PLoadingIn(src, len))) else None
    case PLoadIn =>
      if s.p.PLoadingIn? then Some(s.(p := PLoadingOut(s.p.src, s.p.len, s.inIdx))) else None
    case PLoadOut =>
      if s.p.PLoadingOut? then
        var unused := Sub32(Add32(s.shape.mask, 1), Sub32(s.p.inSeen, s.outIdx));
        var n := Min(s.p.len, unused);
        Some(s.(p := PCopying(s.p.src, n, s.inIdx, Indices(s.shape.Size(n)))))
      else None
    case PByte(t) =>
      if s.p.PCopying? && t in s.p.todo && t < |s.p.src| then
        Some(s.(buf := Poke(s.buf, s.shape.Addr(s.p.off, t), s.p.src[t]), p := s.p.(todo := s.p.todo - {t})))
      else None
    case PStore =>
      if s.p.PCopying? && s.p.todo == {} && s.shape.Size(s.p.n) <= |s.p.src| then
        Some(s.(inIdx := Add32(s.inIdx, s.p.n), p := PIdle,
                totalIn := s.totalIn + s.p.n, pushed := s.pushed + s.p.src[..s.shape.Size(s.p.n)]))
      else None
    // __kfifo_out, __kfifo_out_peek
    case CCall(dst, len) =>
      if s.c.CIdle? && s.shape.Size(len) <= |dst| then Some(s.(c := CLoadingIn(dst, len))) else None
    case CLoadIn =>
      if s.c.CLoadingIn? then Some(s.(c := CLoadingOut(s.c.dst, s.c.len, s.inIdx, s.totalIn))) else None
    case CLoadOut =>
      if s.c.CLoadingOut? then
        var n := Min(s.c.len, Sub32(s.c.inSeen, s.outIdx));
        Some(s.(c := CCopying(s.c.dst, n, s.outIdx, Indices(s.shape.Size(n)))))
      else None
    case CByte(t) =>
      if s.c.CCopying? && t in s.c.todo && t < |s.c.dst| then
        Some(s.(c := s.c.(dst := s.c.dst[t := Peek(s.buf, s.shape.Addr(s.c.off, t))], todo := s.c.todo - {t})))
      else None
    case CStore =>
      if s.c.CCopying? && s.c.todo == {} && s.shape.Size(s.c.n) <= |s.c.dst| then
        Some(s.(outIdx := Add32(s.outIdx, s.c.n), c := CIdle,
                totalOut := s.totalOut + s.c.n, popped := s.popped + s.c.dst[..s.shape.Size(s.c.n)]))
      else None
    case CPeeked =>
      if s.c.CCopying? && s.c.todo == {} then Some(s.(c := CIdle)) else None
  }

  // ----- The invariant -----

  ghost predicate Init(s: State) {
    && s.shape.Ok() && s.shape.Bytes() <= |s.buf|
    && s.inIdx == 0 && s.outIdx == 0 && s.p == PIdle && s.c == CIdle
    && s.totalIn == 0 && s.totalOut == 0 && s.pushed == [] && s.popped == []
  }

  ghost predicate Memory(s: State) {
    Represents(s.shape, s.buf, s.inIdx, s.outIdx, s.totalIn, s.totalOut, s.pushed, s.popped)
  }

  /** The bytes copied so far are in place, in free space only. */
  ghost predicate ProducerInv(s: State) {
    match s.p
    case PIdle => true
    case PLoadingIn(src, len) => s.shape.Size(len) <= |src|
    case PLoadingOut(src, len, inSeen) => s.shape.Size(len) <= |src| && inSeen == s.inIdx
    case PCopying(src, n, off, todo) =>
      && s.shape.Size(n) <= |src| && s.totalIn + n <= s.totalOut + s.shape.Cap() && off == s.inIdx
      && (forall t :: t in todo ==> t < s.shape.Size(n))
      && (forall t: nat :: t < s.shape.Size(n) && t !in todo ==> Peek(s.buf, s.shape.Addr(off, t)) == src[t])
  }

  /** The bytes copied so far are the next ones of the published stream, however old the loaded
      index is. */
  ghost predicate ConsumerInv(s: State) {
    match s.c
    case CIdle => true
    case CLoadingIn(dst, len) => s.shape.Size(len) <= |dst|
    case CLoadingOut(dst, len, inSeen, seen) =>
      s.shape.Size(len) <= |dst| && inSeen == Wrap(seen) && s.totalOut <= seen <= s.totalIn
    case CCopying(dst, n, off, todo) =>
      && s.shape.Size(n) <= |dst| && s.totalOut + n <= s.totalIn && off == s.outIdx
      && |s.popped| + s.shape.Size(n) <= |s.pushed|
      && (forall t :: t in todo ==> t < s.shape.Size(n))
      && (forall t: nat :: t < s.shape.Size(n) && t !in todo ==> dst[t] == s.pushed[|s.popped| + t])
  }

  ghost predicate Inv(s: State) {
    Memory(s) && ProducerInv(s) && ConsumerInv(s)
  }

  // ----- Addresses of the two threads -----

  /** Free bytes and queued bytes have different addresses. */
  lemma FreeApartFromQueued(s: Shape, totalIn: nat, totalOut: nat, n: nat, t: nat, u: nat)
    requires s.Ok() && totalOut <= totalIn && totalIn + n <= totalOut + s.Cap()
    requires t < s.Size(n) && u < s.Size(totalIn - totalOut)
    ensures 0 <= s.Addr(Wrap(totalIn), t) < s.Bytes() && 0 <= s.Addr(Wrap(totalOut), u) < s.Bytes()
    ensures s.Addr(Wrap(totalIn), t) != s.Addr(Wrap(totalOut), u)
  {
    var used := totalIn - totalOut;
    TimesAdd(used, n, s.esize);
    TimesMono(used + n, s.Cap(), s.esize);
    PosAhead(s, totalOut, used, u);
    PosOfAddr(s, Wrap(totalIn), t);
  }

  /** Writing one free byte leaves the queue as it was. */
  lemma PokeKeepsQueue(s: State, n: nat, t: nat, b: Byte)
    requires Memory(s) && s.totalIn + n <= s.totalOut + s.shape.Cap() && t < s.shape.Size(n)
    ensures Memory(s.(buf := Poke(s.buf, s.shape.Addr(s.inIdx, t), b)))
    ensures Queue(s.shape, Poke(s.buf, s.shape.Addr(s.inIdx, t), b), s.inIdx, s.outIdx) == s.Queued()
  {
    var used := s.totalIn - s.totalOut;
    var buf := Poke(s.buf, s.shape.Addr(s.inIdx, t), b);
    Counted(s.shape, s.buf, s.totalIn, s.totalOut);
    Counted(s.shape, buf, s.totalIn, s.totalOut);
    var before := CopiedOut(s.shape, s.buf, used, s.outIdx);
    var after := CopiedOut(s.shape, buf, used, s.outIdx);
    forall u | 0 <= u < |after| ensures after[u] == before[u] {
      FreeApartFromQueued(s.shape, s.totalIn, s.totalOut, n, t, u);
    }
  }

  /** The consumer's address holds the next byte of the published stream. */
  lemma PeekIsStream(s: State, n: nat, t: nat)
    requires Memory(s) && s.totalOut + n <= s.totalIn && t < s.shape.Size(n)
    ensures |s.popped| + t < |s.pushed|
    ensures 0 <= s.shape.Addr(s.outIdx, t) < s.shape.Bytes()
    ensures Peek(s.buf, s.shape.Addr(s.outIdx, t)) == s.pushed[|s.popped| + t]
  {
    var used := s.totalIn - s.totalOut;
    Counted(s.shape, s.buf, s.totalIn, s.totalOut);
    TimesMono(n, used, s.shape.esize);
    TimesMono(used, s.shape.Cap(), s.shape.esize);
    PosOfAddr(s.shape, s.outIdx, t);
    assert s.Queued()[t] == s.pushed[|s.popped| + t];
  }

  // ----- Every step keeps it -----

  lemma PLoadOutKeeps(s: State)
    requires Inv(s) && s.p.PLoadingOut?
    ensures Step(s, PLoadOut).Some? && Inv(Step(s, PLoadOut).value)
    ensures Step(s, PLoadOut).value.p.n == Min(s.p.len, s.shape.Cap() - (s.totalIn - s.totalOut))
  {
    CapInWord(s.shape);
    Counted(s.shape, s.buf, s.totalIn, s.totalOut);
    TimesMono(Step(s, PLoadOut).value.p.n, s.p.len, s.shape.esize);
  }

  lemma PByteKeeps(s: State, t: nat)
    requires Inv(s) && Step(s, PByte(t)).Some?
    ensures Inv(Step(s, PByte(t)).value)
    ensures Step(s, PByte(t)).value.Queued() == s.Queued()
  {
    var n, off, src := s.p.n, s.p.off, s.p.src;
    var s' := Step(s, PByte(t)).value;
    PokeKeepsQueue(s, n, t, src[t]);
    SizeOfFree(s);
    PosOfAddr(s.shape, off, t);
    forall u: nat | u < s.shape.Size(n) && u !in s'.p.todo
      ensures Peek(s'.buf, s.shape.Addr(off, u)) == src[u]
    {
      PosOfAddr(s.shape, off, u);
    }
  }

  lemma SizeOfFree(s: State)
    requires Memory(s) && s.p.PCopying? && s.totalIn + s.p.n <= s.totalOut + s.shape.Cap()
    ensures s.shape.Size(s.p.n) <= s.shape.Bytes()
  {
    TimesMono(s.p.n, s.shape.Cap(), s.shape.esize);
  }

  /** At the index store the buffer already is what a whole copy would have made of it. */
  lemma AllCopied(s: State)
    requires Inv(s) && s.p.PCopying? && s.p.todo == {}
    ensures s.shape.Start(s.inIdx) <= s.shape.Bytes()
    ensures CopiedIn(s.shape, s.buf, s.p.src, s.p.n, s.inIdx) == s.buf
  {
    StartInside(s.shape, s.inIdx);
    SizeOfFree(s);
    var copied := CopiedIn(s.shape, s.buf, s.p.src, s.p.n, s.inIdx);
    forall a | 0 <= a < |copied| ensures copied[a] == s.buf[a] {
      if a < s.shape.Bytes() && s.shape.Pos(s.inIdx, a) < s.shape.Size(s.p.n) {
        assert s.shape.Addr(s.inIdx, s.shape.Pos(s.inIdx, a)) == a;
      }
    }
  }

  lemma PStoreKeeps(s: State)
    requires Inv(s) && Step(s, PStore).Some?
    ensures Inv(Step(s, PStore).value)
    ensures Step(s, PStore).value.Queued() == s.Queued() + s.p.src[..s.shape.Size(s.p.n)]
  {
    AllCopied(s);
    Published(s, s.p.src, s.p.n);
    PStoreKeepsThreads(s);
  }

  lemma Published(s: State, src: seq<Byte>, n: U32)
    requires Memory(s) && s.totalIn + n <= s.totalOut + s.shape.Cap() && s.shape.Size(n) <= |src|
    requires s.shape.Start(s.inIdx) <= s.shape.Bytes() && CopiedIn(s.shape, s.buf, src, n, s.inIdx) == s.buf
    ensures var s' := s.(inIdx := Add32(s.inIdx, n), p := PIdle, totalIn := s.totalIn + n,
                         pushed := s.pushed + src[..s.shape.Size(n)]);
            Memory(s') && s'.Queued() == s.Queued() + src[..s.shape.Size(n)]
  {
    InKeeps(s.shape, s.buf, src, n, s.totalIn, s.totalOut, s.pushed, s.popped);
  }

  lemma PStoreKeepsThreads(s: State)
    requires ConsumerInv(s) && Step(s, PStore).Some?
    ensures ProducerInv(Step(s, PStore).value) && ConsumerInv(Step(s, PStore).value)
  {
  }

  lemma CLoadOutKeeps(s: State)
    requires Inv(s) && s.c.CLoadingOut?
    ensures Step(s, CLoadOut).Some? && Inv(Step(s, CLoadOut).value)
    ensures Step(s, CLoadOut).value.c.n == Min(s.c.len, s.c.seen - s.totalOut)
  {
    CapInWord(s.shape);
    SubWraps(s.c.seen, s.totalOut);
    var n := Min(s.c.len, s.c.seen - s.totalOut);
    TimesMono(n, s.c.len, s.shape.esize);
    Available(s, n);
  }

  lemma Available(s: State, n: nat)
    requires Memory(s) && s.totalOut + n <= s.totalIn
    ensures |s.popped| + s.shape.Size(n) <= |s.pushed|
  {
    TimesAdd(s.totalOut, n, s.shape.esize);
    TimesMono(s.totalOut + n, s.totalIn, s.shape.esize);
  }

  lemma CByteKeeps(s: State, t: nat)
    requires Inv(s) && Step(s, CByte(t)).Some?
    ensures Inv(Step(s, CByte(t)).value)
  {
    PeekIsStream(s, s.c.n, t);
    CByteKeepsConsumer(s, t);
  }

  lemma CByteKeepsConsumer(s: State, t: nat)
    requires ConsumerInv(s) && Step(s, CByte(t)).Some?
    requires |s.popped| + t < |s.pushed| && Peek(s.buf, s.shape.Addr(s.c.off, t)) == s.pushed[|s.popped| + t]
    ensures ConsumerInv(Step(s, CByte(t)).value)
  {
  }

  /** What the consumer has when all bytes are copied: the front of the queue. */
  lemma AllRead(s: State)
    requires Inv(s) && s.c.CCopying? && s.c.todo == {}
    ensures s.shape.Size(s.c.n) <= |s.Queued()|
    ensures s.c.dst[..s.shape.Size(s.c.n)] == s.Queued()[..s.shape.Size(s.c.n)]
  {
    var size := s.shape.Size(s.c.n);
    var queue := s.Queued();
    assert s.pushed == s.popped + queue;
    forall t: nat | t < size ensures s.c.dst[t] == queue[t] {
      assert s.c.dst[t] == s.pushed[|s.popped| + t];
    }
  }

  /** Releasing the n elements that were read leaves the rest of the queue. */
  lemma CStoreKeeps(s: State)
    requires Inv(s) && Step(s, CStore).Some?
    ensures Inv(Step(s, CStore).value)
    ensures s.Queued() == s.c.dst[..s.shape.Size(s.c.n)] + Step(s, CStore).value.Queued()
  {
    AllRead(s);
    Released(s, s.c.n, s.c.dst[..s.shape.Size(s.c.n)]);
    CStoreKeepsThreads(s);
  }

  lemma Released(s: State, n: U32, taken: seq<Byte>)
    requires Memory(s) && s.totalOut + n <= s.totalIn
    requires s.shape.Size(n) <= |s.Queued()| && taken == s.Queued()[..s.shape.Size(n)]
    ensures var s' := s.(outIdx := Add32(s.outIdx, n), c := CIdle, totalOut := s.totalOut + n,
                         popped := s.popped + taken);
            Memory(s') && s.Queued() == taken + s'.Queued()
  {
    OutKeeps(s.shape, s.buf, n, s.totalIn, s.totalOut, s.pushed, s.popped);
  }

  lemma CStoreKeepsThreads(s: State)
    requires ProducerInv(s) && Step(s, CStore).Some?
    ensures ProducerInv(Step(s, CStore).value) && ConsumerInv(Step(s, CStore).value)
  {
  }

  lemma StepKeeps(s: State, a: Action)
    requires Inv(s) && Step(s, a).Some?
    ensures Inv(Step(s, a).value)
  {
    match a
    case PLoadOut => PLoadOutKeeps(s);
    case PByte(t) => PByteKeeps(s, t);
    case PStore => PStoreKeeps(s);
    case CLoadOut => CLoadOutKeeps(s);
    case CByte(t) => CByteKeeps(s, t);
    case CStore => CStoreKeeps(s);
    case _ =>
  }

  // ----- What a step does to the queue -----

  /** The operations of a plain queue of bytes: publishing appends what the producer offered,
      releasing removes exactly what the consumer received, peeking has seen the front, and every
      other step, each copied byte included, leaves the queue alone. */
  ghost predicate QueueStep(s: State, a: Action, before: seq<Byte>, after: seq<Byte>) {
    match a
    case PStore =>
      && s.p.PCopying? && s.shape.Size(s.p.n) <= |s.p.src|
      && after == before + s.p.src[..s.shape.Size(s.p.n)]
    case CStore =>
      && s.c.CCopying? && s.shape.Size(s.c.n) <= |s.c.dst|
      && before == s.c.dst[..s.shape.Size(s.c.n)] + after
    case CPeeked =>
      && s.c.CCopying? && s.shape.Size(s.c.n) <= |s.c.dst|
      && s.c.dst[..s.shape.Size(s.c.n)] <= before == after
    case _ => after == before
  }

  /** The shared buffer refines a queue: the queue is read off the two indices and the buffer. */
  lemma Refines(s: State, a: Action)
    requires Inv(s) && Step(s, a).Some?
    ensures Inv(Step(s, a).value)
    ensures QueueStep(s, a, s.Queued(), Step(s, a).value.Queued())
  {
    StepKeeps(s, a);
    match a
    case PByte(t) => PByteKeeps(s, t);
    case PStore => PStoreKeeps(s);
    case CStore => CStoreKeeps(s);
    case CPeeked => Seen(s);
    case _ => OthersKeepQueue(s, a);
  }

  lemma OthersKeepQueue(s: State, a: Action)
    requires s.shape.Ok() && s.shape.Bytes() <= |s.buf| && Step(s, a).Some?
    requires !a.PByte? && !a.PStore? && !a.CStore?
    ensures var s' := Step(s, a).value;
            s'.shape == s.shape && s'.buf == s.buf && s'.Queued() == s.Queued()
  {
  }

  lemma Seen(s: State)
    requires Inv(s) && Step(s, CPeeked).Some?
    ensures s.c.dst[..s.shape.Size(s.c.n)] <= s.Queued()
  {
    AllRead(s);
  }

  // ----- Safety of all runs -----

  /** The addresses that the two threads still have to touch. */
  ghost predicate Writing(s: State, a: int) {
    s.p.PCopying? && exists t :: t in s.p.todo && a == s.shape.Addr(s.p.off, t)
  }

  ghost predicate Reading(s: State, a: int) {
    s.c.CCopying? && exists t :: t in s.c.todo && a == s.shape.Addr(s.c.off, t)
  }

  /** The addresses of the published elements that have not been released. */
  ghost predicate Holding(s: State, a: int)
    requires s.shape.Ok() && s.shape.Bytes() <= |s.buf|
  {
    exists u: nat :: u < |s.Queued()| && a == s.shape.Addr(s.outIdx, u)
  }

  ghost predicate Safe(s: State) {
    && s.shape.Ok() && s.shape.Bytes() <= |s.buf|
    // Everything released is a prefix of everything published, in order.
    && s.popped <= s.pushed && |s.pushed| - |s.popped| <= s.shape.Bytes()
    && s.pushed == s.popped + s.Queued()
    // Nobody leaves the buffer, no unreleased element is overwritten, and no byte is read while
    // it may be written.
    && (forall a :: Writing(s, a) || Reading(s, a) ==> 0 <= a < s.shape.Bytes())
    && (forall a :: Writing(s, a) ==> !Holding(s, a))
    && (forall a :: Reading(s, a) ==> Holding(s, a))
  }

  lemma InvIsSafe(s: State)
    requires Inv(s)
    ensures Safe(s)
  {
    var used := s.totalIn - s.totalOut;
    Counted(s.shape, s.buf, s.totalIn, s.totalOut);
    TimesMono(used, s.shape.Cap(), s.shape.esize);
    forall a | Writing(s, a) ensures 0 <= a < s.shape.Bytes() && !Holding(s, a) {
      WritesApart(s, a);
    }
    forall a | Reading(s, a) ensures 0 <= a < s.shape.Bytes() && Holding(s, a) {
      var t: nat :| t in s.c.todo && a == s.shape.Addr(s.c.off, t);
      PeekIsStream(s, s.c.n, t);
    }
  }

  lemma WritesApart(s: State, a: int)
    requires Inv(s) && Writing(s, a)
    ensures 0 <= a < s.shape.Bytes() && !Holding(s, a)
  {
    var t: nat :| t in s.p.todo && a == s.shape.Addr(s.p.off, t);
    FreeIsNotHeld(s, s.p.n, t);
  }

  lemma FreeIsNotHeld(s: State, n: nat, t: nat)
    requires Memory(s) && s.totalIn + n <= s.totalOut + s.shape.Cap() && t < s.shape.Size(n)
    ensures 0 <= s.shape.Addr(s.inIdx, t) < s.shape.Bytes() && !Holding(s, s.shape.Addr(s.inIdx, t))
  {
    TimesMono(n, s.shape.Cap(), s.shape.esize);
    PosOfAddr(s.shape, s.inIdx, t);
    QueueSize(s);
    forall u: nat | u < |s.Queued()| ensures s.shape.Addr(s.inIdx, t) != s.shape.Addr(s.outIdx, u) {
      FreeApartFromQueued(s.shape, s.totalIn, s.totalOut, n, t, u);
    }
  }

  lemma QueueSize(s: State)
    requires Memory(s)
    ensures |s.Queued()| == s.shape.Size(s.totalIn - s.totalOut)
  {
    Counted(s.shape, s.buf, s.totalIn, s.totalOut);
  }

  lemma InitIsInv(s: State)
    requires Init(s)
    ensures Inv(s)
  {
    Counted(s.shape, s.buf, 0, 0);
  }

  lemma InvInRuns(init: State, schedule: seq<Action>)
    requires Init(init) && Exec(Step, init, schedule).Some?
    ensures Inv(Exec(Step, init, schedule).value)
  {
    InitIsInv(init);
    forall s, a | Inv(s) && Step(s, a).Some? ensures Inv(Step(s, a).value) {
      StepKeeps(s, a);
    }
    Invariance(Step, Inv, init, schedule);
  }

  /** Every interleaving of the two threads, from a fifo just initialised, is safe throughout. */
  lemma SafeRuns(init: State, schedule: seq<Action>)
    requires Init(init)
    ensures Exec(Step, init, schedule).Some? ==> Safe(Exec(Step, init, schedule).value)
  {
    if Exec(Step, init, schedule).Some? {
      InvInRuns(init, schedule);
      InvIsSafe(Exec(Step, init, schedule).value);
    }
  }

  // ----- What a call does -----

  /** While __kfifo_in(src, len) runs that was called in `start`: nothing is published, and the
      producer works on its own arguments.  The consumer can only add to the free space. */
  ghost predicate DuringIn(start: State, src: seq<Byte>, len: U32, s: State)
    requires Memory(start)
  {
    && Inv(s) && s.shape == start.shape && s.totalIn == start.totalIn && s.totalOut >= start.totalOut
    && s.pushed == start.pushed
    && match s.p
       case PIdle => false
       case PLoadingIn(src', len') => src' == src && len' == len
       case PLoadingOut(src', len', _) => src' == src && len' == len
       case PCopying(src', n, _, _) =>
         src' == src && Min(len, start.shape.Cap() - (start.totalIn - start.totalOut)) <= n <= len
  }

  lemma DuringInKept(start: State, src: seq<Byte>, len: U32, s: State, a: Action)
    requires Memory(start) && DuringIn(start, src, len, s) && Step(s, a).Some? && !a.PStore?
    ensures DuringIn(start, src, len, Step(s, a).value)
  {
    StepKeeps(s, a);
    KeepsStream(s, a);
    if a.PLoadOut? { PLoadOutKeeps(s); }
  }

  lemma KeepsStream(s: State, a: Action)
    requires Step(s, a).Some? && !a.PStore?
    ensures var s' := Step(s, a).value;
            s'.shape == s.shape && s'.totalIn == s.totalIn && s'.pushed == s.pushed && s'.totalOut >= s.totalOut
  {
  }

  /** The contract of __kfifo_in under concurrency.  Whatever the consumer does meanwhile, a call in
      any reachable state accepts at least min(len, the free elements at the call) and at most len
      elements, and its index store appends exactly those, from the front of its argument, to the
      published stream. */
  lemma InContract(s: State, src: seq<Byte>, len: U32, rest: seq<Action>)
    requires Inv(s) && Step(s, PCall(src, len)).Some?
    requires forall a :: a in rest ==> !a.PStore?
    requires Exec(Step, Step(s, PCall(src, len)).value, rest).Some?
    ensures var end := Exec(Step, Step(s, PCall(src, len)).value, rest).value;
            && DuringIn(s, src, len, end)
            && (Step(end, PStore).Some? ==>
                  && end.p.PCopying? && s.shape.Size(end.p.n) <= |src|
                  && Step(end, PStore).value.pushed == s.pushed + src[..s.shape.Size(end.p.n)]
                  && Step(end, PStore).value.totalIn == s.totalIn + end.p.n)
  {
    var called := Step(s, PCall(src, len)).value;
    StepKeeps(s, PCall(src, len));
    var during := (m: State) => DuringIn(s, src, len, m);
    var allowed := (a: Action) => !a.PStore?;
    forall m, a | during(m) && allowed(a) && Step(m, a).Some? ensures during(Step(m, a).value) {
      DuringInKept(s, src, len, m, a);
    }
    Maintained(Step, allowed, during, called, rest);
  }

  /** The same for __kfifo_out and __kfifo_out_peek: bytes past the size of the copy are left alone,
      and the producer can only add to what is queued. */
  ghost predicate DuringOut(start: State, dst: seq<Byte>, len: U32, s: State)
    requires Memory(start)
  {
    && Inv(s) && s.shape == start.shape && s.totalOut == start.totalOut && s.totalIn >= start.totalIn
    && s.popped == start.popped && start.pushed <= s.pushed
    && match s.c
       case CIdle => false
       case CLoadingIn(dst', len') => dst' == dst && len' == len
       case CLoadingOut(dst', len', _, seen) => dst' == dst && len' == len && seen >= start.totalIn
       case CCopying(dst', n, _, _) =>
         && Min(len, start.totalIn - start.totalOut) <= n <= len
         && |dst'| == |dst| && s.shape.Size(n) <= |dst| && dst'[s.shape.Size(n)..] == dst[s.shape.Size(n)..]
  }

  lemma DuringOutKept(start: State, dst: seq<Byte>, len: U32, s: State, a: Action)
    requires Memory(start) && DuringOut(start, dst, len, s) && Step(s, a).Some? && !a.CStore? && !a.CPeeked?
    ensures DuringOut(start, dst, len, Step(s, a).value)
  {
    StepKeeps(s, a);
    KeepsReleased(s, a);
    match a
    case CLoadOut =>
      CLoadOutKeeps(s);
      TimesMono(Step(s, a).value.c.n, len, s.shape.esize);
    case CByte(t) => TailUntouched(s.c.dst, t, Peek(s.buf, s.shape.Addr(s.c.off, t)), s.shape.Size(s.c.n));
    case _ =>
  }

  lemma KeepsReleased(s: State, a: Action)
    requires Step(s, a).Some? && !a.CStore?
    ensures var s' := Step(s, a).value;
            && s'.shape == s.shape && s'.totalOut == s.totalOut && s'.popped == s.popped
            && s'.totalIn >= s.totalIn && s.pushed <= s'.pushed
  {
  }

  lemma TailUntouched(bytes: seq<Byte>, t: nat, b: Byte, size: nat)
    requires t < size <= |bytes|
    ensures bytes[t := b][size..] == bytes[size..]
  {
  }

  /** The contract of __kfifo_out: at least min(len, the elements queued at the call) and at most
      len elements; the caller's memory then holds the next ones of the stream and is otherwise as
      it was; and the index store releases exactly those. */
  lemma OutContract(s: State, dst: seq<Byte>, len: U32, rest: seq<Action>)
    requires Inv(s) && Step(s, CCall(dst, len)).Some?
    requires forall a :: a in rest ==> !a.CStore? && !a.CPeeked?
    requires Exec(Step, Step(s, CCall(dst, len)).value, rest).Some?
    ensures var end := Exec(Step, Step(s, CCall(dst, len)).value, rest).value;
            && DuringOut(s, dst, len, end)
            && (Step(end, CStore).Some? ==>
                  && end.c.CCopying? && |s.popped| + s.shape.Size(end.c.n) <= |end.pushed|
                  && end.c.dst == end.pushed[|s.popped|..][..s.shape.Size(end.c.n)] + dst[s.shape.Size(end.c.n)..]
                  && Step(end, CStore).value.popped == s.popped + end.c.dst[..s.shape.Size(end.c.n)]
                  && Step(end, CStore).value.totalOut == s.totalOut + end.c.n)
  {
    OutRuns(s, dst, len, rest);
    var end := Exec(Step, Step(s, CCall(dst, len)).value, rest).value;
    if Step(end, CStore).Some? {
      AllCopiedOut(end);
      Joined(end.c.dst, dst, end.pushed, |s.popped|, s.shape.Size(end.c.n));
    }
  }

  lemma OutRuns(s: State, dst: seq<Byte>, len: U32, rest: seq<Action>)
    requires Inv(s) && Step(s, CCall(dst, len)).Some?
    requires forall a :: a in rest ==> !a.CStore? && !a.CPeeked?
    requires Exec(Step, Step(s, CCall(dst, len)).value, rest).Some?
    ensures DuringOut(s, dst, len, Exec(Step, Step(s, CCall(dst, len)).value, rest).value)
  {
    StepKeeps(s, CCall(dst, len));
    var during := (m: State) => DuringOut(s, dst, len, m);
    var allowed := (a: Action) => !a.CStore? && !a.CPeeked?;
    forall m, a | during(m) && allowed(a) && Step(m, a).Some? ensures during(Step(m, a).value) {
      DuringOutKept(s, dst, len, m, a);
    }
    Maintained(Step, allowed, during, Step(s, CCall(dst, len)).value, rest);
  }

  lemma AllCopiedOut(s: State)
    requires ConsumerInv(s) && s.c.CCopying? && s.c.todo == {}
    ensures s.shape.Size(s.c.n) <= |s.c.dst| && |s.popped| + s.shape.Size(s.c.n) <= |s.pushed|
    ensures forall t: nat :: t < s.shape.Size(s.c.n) ==> s.c.dst[t] == s.pushed[|s.popped| + t]
  {
  }

  lemma Joined(dst': seq<Byte>, dst: seq<Byte>, pushed: seq<Byte>, at: nat, size: nat)
    requires size <= |dst'| == |dst| && at + size <= |pushed|
    requires forall t: nat :: t < size ==> dst'[t] == pushed[at + t]
    requires dst'[size..] == dst[size..]
    ensures dst' == pushed[at..][..size] + dst[size..]
  {
    assert dst'[..size] == pushed[at..][..size];
    assert dst' == dst'[..size] + dst'[size..];
  }

  // ----- Progress -----

  predicate InProducer(a: Action) { a.PLoadIn? || a.PLoadOut? || a.PByte? || a.PStore? }
  predicate InConsumer(a: Action) { a.CLoadIn? || a.CLoadOut? || a.CByte? || a.CStore? || a.CPeeked? }

  /** The steps that a thread still needs, at most, to return from the call it is in. */
  ghost function ProducerRank(s: State): nat {
    match s.p
    case PIdle => 0
    case PLoadingIn(_, len) => s.shape.Size(len) + 3
    case PLoadingOut(_, len, _) => s.shape.Size(len) + 2
    case PCopying(_, _, _, todo) => |todo| + 1
  }

  ghost function ConsumerRank(s: State): nat {
    match s.c
    case CIdle => 0
    case CLoadingIn(_, len) => s.shape.Size(len) + 3
    case CLoadingOut(_, len, _, _) => s.shape.Size(len) + 2
    case CCopying(_, _, _, todo) => |todo| + 1
  }

  /** Each step of a thread brings it nearer to its return, and none holds the other thread up. */
  lemma ProducerAdvances(s: State, a: Action)
    requires InProducer(a) && Step(s, a).Some?
    ensures ProducerRank(Step(s, a).value) < ProducerRank(s)
    ensures ConsumerRank(Step(s, a).value) == ConsumerRank(s)
  {
    match a
    case PLoadOut => TimesMono(Step(s, a).value.p.n, s.p.len, s.shape.esize);
    case PByte(t) => assert t in s.p.todo;
    case _ =>
  }

  lemma ConsumerAdvances(s: State, a: Action)
    requires InConsumer(a) && Step(s, a).Some?
    ensures ConsumerRank(Step(s, a).value) < ConsumerRank(s)
    ensures ProducerRank(Step(s, a).value) == ProducerRank(s)
  {
    match a
    case CLoadOut => TimesMono(Step(s, a).value.c.n, s.c.len, s.shape.esize);
    case CByte(t) => assert t in s.c.todo;
    case _ =>
  }

  lemma CallsKeepRanks(s: State, a: Action)
    requires Step(s, a).Some?
    ensures a.PCall? ==> ConsumerRank(Step(s, a).value) == ConsumerRank(s)
    ensures a.CCall? ==> ProducerRank(Step(s, a).value) == ProducerRank(s)
  {
  }

  /** A thread inside a call can always move. */
  lemma ProducerStep(s: State) returns (a: Action)
    requires ProducerInv(s) && !s.p.PIdle?
    ensures InProducer(a) && Step(s, a).Some?
  {
    match s.p
    case PLoadingIn(_, _) => a := PLoadIn;
    case PLoadingOut(_, _, _) => a := PLoadOut;
    case PCopying(_, _, _, todo) =>
      if t :| t in todo { a := PByte(t); } else { a := PStore; }
  }

  lemma ConsumerStep(s: State) returns (a: Action)
    requires ConsumerInv(s) && !s.c.CIdle?
    ensures InConsumer(a) && !a.CPeeked? && Step(s, a).Some?
  {
    match s.c
    case CLoadingIn(_, _) => a := CLoadIn;
    case CLoadingOut(_, _, _, _) => a := CLoadOut;
    case CCopying(_, _, _, todo) =>
      if t :| t in todo { a := CByte(t); } else { a := CStore; }
  }

  /** Between calls a thread may make any call whose argument is long enough, and inside one it may
      move the bytes in any order. */
  ghost predicate ProducerIsFree(s: State) {
    && (s.p.PIdle? ==>
          forall src: seq<Byte>, len: U32 :: s.shape.Size(len) <= |src| ==> Step(s, PCall(src, len)).Some?)
    && (s.p.PCopying? ==> forall t :: t in s.p.todo ==> Step(s, PByte(t)).Some?)
  }

  ghost predicate ConsumerIsFree(s: State) {
    && (s.c.CIdle? ==>
          forall dst: seq<Byte>, len: U32 :: s.shape.Size(len) <= |dst| ==> Step(s, CCall(dst, len)).Some?)
    && (s.c.CCopying? ==> forall t :: t in s.c.todo ==> Step(s, CByte(t)).Some?)
  }

  lemma BothAreFree(s: State)
    requires ProducerInv(s) && ConsumerInv(s)
    ensures ProducerIsFree(s) && ConsumerIsFree(s)
  {
  }

  /** __kfifo_in is wait-free: while it runs it can always move, and it returns after at most
      Size(len) + 3 of its own steps, whatever the consumer does in between. */
  lemma ProducerIsWaitFree(init: State, schedule: seq<Action>, rest: seq<Action>)
    requires Init(init) && Exec(Step, init, schedule).Some?
    requires forall a :: a in rest ==> !a.PCall?
    requires Exec(Step, Exec(Step, init, schedule).value, rest).Some?
    ensures var s := Exec(Step, init, schedule).value;
            var end := Exec(Step, s, rest).value;
            && Count(InProducer, rest) + ProducerRank(end) <= ProducerRank(s)
            && (s.p.PLoadingIn? ==> Count(InProducer, rest) <= s.shape.Size(s.p.len) + 3)
            && (end.p == PIdle || exists a :: InProducer(a) && Step(end, a).Some?)
            && ProducerIsFree(end)
  {
    InvInRuns(init, schedule);
    var s := Exec(Step, init, schedule).value;
    var within := (a: Action) => !a.PCall?;
    var never := (a: Action) => false;
    forall m, a | Inv(m) && within(a) && Step(m, a).Some?
      ensures Inv(Step(m, a).value)
      ensures ProducerRank(Step(m, a).value) + (if InProducer(a) then 1 else 0) <= ProducerRank(m)
    {
      StepKeeps(m, a);
      ProducerRankFalls(m, a);
    }
    Amortized(Step, within, InProducer, never, Inv, ProducerRank, s, rest);
    CountNone(never, rest);
    var end := Exec(Step, s, rest).value;
    BothAreFree(end);
    if end.p != PIdle { var a := ProducerStep(end); }
  }

  lemma ProducerRankFalls(m: State, a: Action)
    requires !a.PCall? && Step(m, a).Some?
    ensures ProducerRank(Step(m, a).value) + (if InProducer(a) then 1 else 0) <= ProducerRank(m)
  {
    if InProducer(a) {
      ProducerAdvances(m, a);
    } else if InConsumer(a) {
      ConsumerAdvances(m, a);
    } else {
      CallsKeepRanks(m, a);
    }
  }

  /** And so are __kfifo_out and __kfifo_out_peek. */
  lemma ConsumerIsWaitFree(init: State, schedule: seq<Action>, rest: seq<Action>)
    requires Init(init) && Exec(Step, init, schedule).Some?
    requires forall a :: a in rest ==> !a.CCall?
    requires Exec(Step, Exec(Step, init, schedule).value, rest).Some?
    ensures var s := Exec(Step, init, schedule).value;
            var end := Exec(Step, s, rest).value;
            && Count(InConsumer, rest) + ConsumerRank(end) <= ConsumerRank(s)
            && (s.c.CLoadingIn? ==> Count(InConsumer, rest) <= s.shape.Size(s.c.len) + 3)
            && (end.c == CIdle || exists a :: InConsumer(a) && Step(end, a).Some?)
            && ConsumerIsFree(end)
  {
    InvInRuns(init, schedule);
    var s := Exec(Step, init, schedule).value;
    var within := (a: Action) => !a.CCall?;
    var never := (a: Action) => false;
    forall m, a | Inv(m) && within(a) && Step(m, a).Some?
      ensures Inv(Step(m, a).value)
      ensures ConsumerRank(Step(m, a).value) + (if InConsumer(a) then 1 else 0) <= ConsumerRank(m)
    {
      StepKeeps(m, a);
      ConsumerRankFalls(m, a);
    }
    Amortized(Step, within, InConsumer, never, Inv, ConsumerRank, s, rest);
    CountNone(never, rest);
    var end := Exec(Step, s, rest).value;
    BothAreFree(end);
    if end.c != CIdle { var a := ConsumerStep(end); }
  }

  lemma ConsumerRankFalls(m: State, a: Action)
    requires !a.CCall? && Step(m, a).Some?
    ensures ConsumerRank(Step(m, a).value) + (if InConsumer(a) then 1 else 0) <= ConsumerRank(m)
  {
    if InConsumer(a) {
      ConsumerAdvances(m, a);
    } else if InProducer(a) {
      ProducerAdvances(m, a);
    } else {
      CallsKeepRanks(m, a);
    }
  }
}
