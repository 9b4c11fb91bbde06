/** The one-way user-interrupt channel of source/uintr-pro.  The server puts an 8-byte timestamp in
    the shared fifo, sends a user interrupt and spins until the fifo is empty; the client's handler
    takes kfifo_len(fifo) bytes out into bench.single_start.

    A posted interrupt sets a pending bit, which merges interrupts that were not yet delivered.  It
    is delivered once interrupts are enabled and no handler is running. */
module UintrPro {
  import opened Arithmetic
  import K = Kfifo
  import opened Ring
  import opened RingQueue
  import opened Runs
  import S = Spsc
  import opened Timestamps
  import opened Words

  datatype Server = Stamping | Enqueuing | Notifying | Spinning

  datatype Client = Running | Entered | Draining | Returning

  /** The fifo with the threads' progress inside its operations, the two program counters, the
      client's interrupt state, and bench.single_start.  The histories are the timestamps taken by
      the server and the values that the handler has stored. */
  datatype State = State(
    fifo: S.State, server: Server, client: Client, enabled: bool, pending: bool,
    singleStart: seq<Byte>, sent: seq<U64>, got: seq<nat>)

  datatype Action =
    | Stamp(now: U64) | Enqueue(a: S.Action) | Notify | SpinAgain | SpinDone
    | Stui | Deliver | CallOut | Drain(a: S.Action) | Return

  function Len(s: State): U32 { Sub32(s.fifo.inIdx, s.fifo.outIdx) }

  /** The steps of __kfifo_out, which does not stop at the peek. */
  predicate InOut(a: S.Action) { S.InConsumer(a) && !a.CPeeked? }

  ghost function Step(s: State, a: Action): Option<State> {
    match a
    // The server's loop.
    case Stamp(now) =>
      if s.server == Stamping then
        Some(s.(server := Enqueuing, sent := s.sent + [now], fifo := s.fifo.(p := S.PLoadingIn(Encode(now), 8))))
      else None
    case Enqueue(b) =>
      if s.server == Enqueuing && S.InProducer(b) && S.Step(s.fifo, b).Some? then
        Some(s.(server := if b.PStore? then Notifying else Enqueuing, fifo := S.Step(s.fifo, b).value))
      else None
    case Notify =>
      if s.server == Notifying then Some(s.(server := Spinning, pending := true)) else None
    case SpinAgain =>
      if s.server == Spinning && Len(s) != 0 then Some(s) else None
    case SpinDone =>
      if s.server == Spinning && Len(s) == 0 then Some(s.(server := Stamping)) else None
    // The client: enabling interrupts, and the handler.
    case Stui =>
      if !s.enabled then Some(s.(enabled := true)) else None
    case Deliver =>
      if s.enabled && s.pending && s.client == Running then Some(s.(pending := false, client := Entered)) else None
    case CallOut =>
      if s.client == Entered then
        Some(s.(client := Draining, fifo := s.fifo.(c := S.CLoadingIn(s.singleStart, Len(s)))))
      else None
    case Drain(b) =>
      if s.client == Draining && InOut(b) && S.Step(s.fifo, b).Some? then
        var next := s.(fifo := S.Step(s.fifo, b).value);
        if b.CStore? && s.fifo.c.CCopying? then
          Some(next.(client := Returning, singleStart := s.fifo.c.dst, got := s.got + [Decode(s.fifo.c.dst)]))
        else Some(next)
      else None
    case Return =>
      if s.client == Returning then Some(s.(client := Running)) else None
  }

  // ----- The invariant -----

  /** After __kfifo_init(fifo, ..., 4096, 1), before either side has started. */
  ghost predicate Init(s: State) {
    && S.Init(s.fifo) && s.fifo.shape.mask == 4095 && s.fifo.shape.esize == 1
    && s.server == Stamping && s.client == Running && !s.enabled && !s.pending
    && |s.singleStart| == 8 && s.sent == [] && s.got == []
  }

  ghost predicate Resting(s: State) {
    (s.client == Running || s.client == Returning) && s.fifo.c == S.CIdle
  }

  /** All timestamps taken have been stored by the handler. */
  ghost predicate Settled(s: State) {
    s.fifo.totalIn == s.fifo.totalOut && |s.sent| == |s.got| && !s.pending && Resting(s)
  }

  /** Exactly the latest timestamp is in the fifo, all eight bytes of it. */
  ghost predicate Outstanding(s: State) {
    && s.fifo.totalIn == s.fifo.totalOut + 8 && |s.sent| == |s.got| + 1
    && |s.fifo.popped| <= |s.fifo.pushed| && s.fifo.pushed[|s.fifo.popped|..] == Encode(s.sent[|s.got|])
  }

  ghost predicate BeingEnqueued(p: S.Producer, now: U64) {
    match p
    case PIdle => false
    case PLoadingIn(src, len) => src == Encode(now) && len == 8
    case PLoadingOut(src, len, _) => src == Encode(now) && len == 8
    case PCopying(src, n, _, _) => src == Encode(now) && n == 8
  }

  ghost predicate BeingDrained(c: S.Consumer, totalIn: nat) {
    match c
    case CIdle => false
    case CLoadingIn(dst, len) => |dst| == 8 && len == 8
    case CLoadingOut(dst, len, _, seen) => |dst| == 8 && len == 8 && seen == totalIn
    case CCopying(dst, n, _, _) => |dst| == 8 && n == 8
  }

  ghost predicate Phase(s: State) {
    match s.server
    case Stamping => s.fifo.p == S.PIdle && Settled(s)
    case Enqueuing =>
      && s.fifo.totalIn == s.fifo.totalOut && |s.sent| == |s.got| + 1 && !s.pending && Resting(s)
      && BeingEnqueued(s.fifo.p, s.sent[|s.got|])
    case Notifying => s.fifo.p == S.PIdle && Outstanding(s) && !s.pending && Resting(s)
    case Spinning =>
      && s.fifo.p == S.PIdle
      && (|| Settled(s)
          || (Outstanding(s) && s.pending && Resting(s))
          || (Outstanding(s) && !s.pending && s.client == Entered && s.fifo.c == S.CIdle)
          || (Outstanding(s) && !s.pending && s.client == Draining && BeingDrained(s.fifo.c, s.fifo.totalIn)))
  }

  /** The channel's own part of the invariant. */
  ghost predicate Mailbox(s: State) {
    && s.fifo.shape.mask == 4095 && s.fifo.shape.esize == 1
    && |s.singleStart| == 8 && (s.got != [] ==> Decode(s.singleStart) == s.got[|s.got| - 1])
    && s.got <= s.sent && s.fifo.totalOut == 8 * |s.got|
    && (!s.enabled ==> s.client == Running && s.got == [])
    && Phase(s)
  }

  ghost predicate Inv(s: State) {
    S.Inv(s.fifo) && Mailbox(s)
  }

  /** The server's __kfifo_init call gives the fifo that Init assumes: 4096 single bytes, which its
      buffer holds. */
  method SharedFifo(buffer: array<Byte>) returns (fifo: K.Kfifo)
    requires buffer.Length == 4096
    ensures fresh(fifo) && fifo.data == buffer && fifo.mask == 4095 && fifo.esize == 1
    ensures fifo.Valid() && fifo.Queue() == []
  {
    fifo := new K.Kfifo.Allocate();
    var code := fifo.Init(buffer, 4096, 1);
    assert Pow2(12) == 4096;
  }

  // ----- What the channel needs to know of its fifo -----

  /** Elements are single bytes here. */
  lemma ByteSized(s: Shape, n: nat)
    requires s.esize == 1
    ensures s.Size(n) == n
  {
    TimesOne(n);
  }

  /** kfifo_len counts the bytes, and so do the lengths of the streams. */
  lemma LenCounts(s: State)
    requires S.Inv(s.fifo) && s.fifo.shape.esize == 1
    ensures Len(s) == s.fifo.totalIn - s.fifo.totalOut
    ensures |s.fifo.pushed| == s.fifo.totalIn && |s.fifo.popped| == s.fifo.totalOut
  {
    Counted(s.fifo.shape, s.fifo.buf, s.fifo.totalIn, s.fifo.totalOut);
    ByteSized(s.fifo.shape, s.fifo.totalIn);
    ByteSized(s.fifo.shape, s.fifo.totalOut);
  }

  /** Eight bytes always find room in the empty fifo. */
  lemma EightAccepted(f: S.State)
    requires S.Inv(f) && f.shape.mask == 4095 && f.totalIn == f.totalOut
    requires f.p.PLoadingOut? && f.p.len == 8
    ensures S.Step(f, S.PLoadOut).value.p.PCopying? && S.Step(f, S.PLoadOut).value.p.n == 8
  {
    S.PLoadOutKeeps(f);
  }

  /** The handler takes all eight bytes out. */
  lemma EightOffered(f: S.State)
    requires S.Inv(f) && f.totalIn == f.totalOut + 8
    requires f.c.CLoadingOut? && f.c.len == 8 && f.c.seen == f.totalIn
    ensures S.Step(f, S.CLoadOut).value.c.CCopying? && S.Step(f, S.CLoadOut).value.c.n == 8
  {
    S.CLoadOutKeeps(f);
  }

  /** When all bytes are out, the destination is the rest of the published stream. */
  lemma WholeMessage(f: S.State)
    requires S.Inv(f) && f.shape.esize == 1 && f.totalIn == f.totalOut + 8
    requires f.c.CCopying? && f.c.n == 8 && |f.c.dst| == 8 && f.c.todo == {}
    ensures |f.pushed| == |f.popped| + 8 && f.c.dst == f.pushed[|f.popped|..]
  {
    ByteSized(f.shape, 8);
    ByteSized(f.shape, f.totalIn);
    ByteSized(f.shape, f.totalOut);
    forall t | 0 <= t < 8 ensures f.c.dst[t] == f.pushed[|f.popped|..][t] {
      assert f.c.dst[t] == f.pushed[|f.popped| + t];
    }
  }

  // ----- Every step keeps it -----

  /** Taking a timestamp enters __kfifo_in with eight bytes, and the handler enters __kfifo_out
      with its eight-byte destination. */
  lemma CallsAreFifoSteps(f: S.State, now: U64, dst: seq<Byte>)
    requires f.shape.esize == 1 && |dst| == 8
    ensures f.p.PIdle? ==> S.Step(f, S.PCall(Encode(now), 8)) == Some(f.(p := S.PLoadingIn(Encode(now), 8)))
    ensures f.c.CIdle? ==> S.Step(f, S.CCall(dst, 8)) == Some(f.(c := S.CLoadingIn(dst, 8)))
  {
    ByteSized(f.shape, 8);
  }

  /** The fifo of the next state comes from a step of its own, or is the same. */
  lemma FifoSteps(s: State, a: Action) returns (own: Option<S.Action>)
    requires Mailbox(s) && Len(s) == s.fifo.totalIn - s.fifo.totalOut && Step(s, a).Some?
    ensures match own
            case None => Step(s, a).value.fifo == s.fifo
            case Some(b) => S.Step(s.fifo, b) == Some(Step(s, a).value.fifo)
  {
    own := None;
    match a
    case Stamp(now) =>
      CallsAreFifoSteps(s.fifo, now, s.singleStart);
      own := Some(S.PCall(Encode(now), 8));
    case Enqueue(b) => own := Some(b);
    case CallOut =>
      CallsAreFifoSteps(s.fifo, 0, s.singleStart);
      own := Some(S.CCall(s.singleStart, 8));
    case Drain(b) => own := Some(b);
    case _ =>
  }

  lemma FifoKept(s: State, a: Action)
    requires Inv(s) && Step(s, a).Some?
    ensures S.Inv(Step(s, a).value.fifo)
  {
    LenCounts(s);
    var own := FifoSteps(s, a);
    if own.Some? { S.StepKeeps(s.fifo, own.value); }
  }

  lemma EnqueueKeeps(s: State, b: S.Action)
    requires Mailbox(s) && Step(s, Enqueue(b)).Some?
    requires |s.fifo.pushed| == s.fifo.totalIn && |s.fifo.popped| == s.fifo.totalOut
    requires b.PLoadOut? ==> S.Step(s.fifo, b).value.p.PCopying? && S.Step(s.fifo, b).value.p.n == 8
    ensures Mailbox(Step(s, Enqueue(b)).value)
  {
    var f := s.fifo;
    if b.PStore? {
      ByteSized(f.shape, 8);
      assert f.p.src[..8] == f.p.src;
      assert (f.pushed + f.p.src)[|f.popped|..] == f.p.src;
    }
  }

  lemma DrainKeeps(s: State, b: S.Action)
    requires Mailbox(s) && Step(s, Drain(b)).Some? && !b.CStore?
    requires b.CLoadOut? ==> S.Step(s.fifo, b).value.c.CCopying? && S.Step(s.fifo, b).value.c.n == 8
    ensures Mailbox(Step(s, Drain(b)).value)
  {
    DrainTouchesConsumer(s.fifo, b);
    OnlyConsumerMoved(s, S.Step(s.fifo, b).value.c);
  }

  lemma DrainTouchesConsumer(f: S.State, b: S.Action)
    requires InOut(b) && !b.CStore? && S.Step(f, b).Some?
    requires b.CLoadOut? ==> S.Step(f, b).value.c.CCopying? && S.Step(f, b).value.c.n == 8
    ensures S.Step(f, b).value == f.(c := S.Step(f, b).value.c)
    ensures BeingDrained(f.c, f.totalIn) ==> BeingDrained(S.Step(f, b).value.c, f.totalIn)
  {
  }

  lemma OnlyConsumerMoved(s: State, c: S.Consumer)
    requires Mailbox(s) && s.client == Draining
    requires BeingDrained(s.fifo.c, s.fifo.totalIn) ==> BeingDrained(c, s.fifo.totalIn)
    ensures Mailbox(s.(fifo := s.fifo.(c := c)))
  {
  }

  /** The last step of the drain: the stored value is the latest timestamp. */
  lemma ReleaseKeeps(s: State)
    requires Mailbox(s) && Step(s, Drain(S.CStore)).Some?
    requires |s.fifo.popped| <= |s.fifo.pushed| && s.fifo.c.CCopying?
    requires s.fifo.c.dst == s.fifo.pushed[|s.fifo.popped|..]
    ensures Mailbox(Step(s, Drain(S.CStore)).value)
  {
    RoundTrip(s.sent[|s.got|], s.fifo.c.dst);
    assert Decode(s.fifo.c.dst) == s.sent[|s.got|];
  }

  lemma StepKeeps(s: State, a: Action)
    requires Inv(s) && Step(s, a).Some?
    ensures Inv(Step(s, a).value)
  {
    FifoKept(s, a);
    MailboxKept(s, a);
  }

  lemma MailboxKept(s: State, a: Action)
    requires Inv(s) && Step(s, a).Some?
    ensures Mailbox(Step(s, a).value)
  {
    LenCounts(s);
    match a
    case Enqueue(b) =>
      EnqueueFacts(s, b);
      EnqueueKeeps(s, b);
    case Drain(b) =>
      DrainFacts(s, b);
      if b.CStore? { ReleaseKeeps(s); } else { DrainKeeps(s, b); }
    case Stamp(_) => ServerKeeps(s, a);
    case Notify => ServerKeeps(s, a);
    case SpinAgain => ServerKeeps(s, a);
    case SpinDone => ServerKeeps(s, a);
    case _ => ClientKeeps(s, a);
  }

  lemma EnqueueFacts(s: State, b: S.Action)
    requires Inv(s) && s.server == Enqueuing && S.Step(s.fifo, b).Some?
    ensures b.PLoadOut? ==> S.Step(s.fifo, b).value.p.PCopying? && S.Step(s.fifo, b).value.p.n == 8
  {
    if b.PLoadOut? { EightAccepted(s.fifo); }
  }

  lemma DrainFacts(s: State, b: S.Action)
    requires Inv(s) && s.client == Draining && S.Step(s.fifo, b).Some?
    ensures b.CLoadOut? ==> S.Step(s.fifo, b).value.c.CCopying? && S.Step(s.fifo, b).value.c.n == 8
    ensures b.CStore? ==> s.fifo.c.CCopying?
    ensures b.CStore? ==>
              |s.fifo.popped| <= |s.fifo.pushed| && s.fifo.c.dst == s.fifo.pushed[|s.fifo.popped|..]
  {
    if b.CLoadOut? {
      EightOffered(s.fifo);
    } else if b.CStore? {
      WholeMessage(s.fifo);
    }
  }

  lemma ServerKeeps(s: State, a: Action)
    requires Mailbox(s) && Step(s, a).Some? && (a.Stamp? || a.Notify? || a.SpinAgain? || a.SpinDone?)
    requires Len(s) == s.fifo.totalIn - s.fifo.totalOut
    ensures Mailbox(Step(s, a).value)
  {
  }

  lemma ClientKeeps(s: State, a: Action)
    requires Mailbox(s) && Step(s, a).Some? && (a.Stui? || a.Deliver? || a.CallOut? || a.Return?)
    requires Len(s) == s.fifo.totalIn - s.fifo.totalOut
    ensures Mailbox(Step(s, a).value)
  {
  }

  // ----- Safety of all runs -----

  /** The k-th drain has stored exactly the k-th timestamp, and at most one timestamp is on its
      way: none is lost, repeated, reordered or torn. */
  ghost predicate IsMailbox(s: State) {
    && s.got <= s.sent && |s.sent| <= |s.got| + 1
    && (s.got != [] ==> Decode(s.singleStart) == s.got[|s.got| - 1])
  }

  lemma InitIsInv(s: State)
    requires Init(s)
    ensures Inv(s)
  {
    S.InitIsInv(s.fifo);
  }

  lemma InvInRuns(init: State, schedule: seq<Action>)
    requires Init(init)
    ensures Exec(Step, init, schedule).Some? ==> Inv(Exec(Step, init, schedule).value)
  {
    InitIsInv(init);
    forall s, a | Inv(s) && Step(s, a).Some? ensures Inv(Step(s, a).value) {
      StepKeeps(s, a);
    }
    Invariance(Step, Inv, init, schedule);
  }

  /** What the server's clock reads in a step. */
  function ClockReading(a: Action): seq<U64> { match a case Stamp(now) => [now] case _ => [] }

  /** A drain of the handler ends. */
  predicate IsDrained(a: Action) { a == Drain(S.CStore) }

  predicate IsStui(a: Action) { a == Stui }

  /** The histories are the readings and the drains that the schedule itself has. */
  lemma SentInRuns(init: State, schedule: seq<Action>)
    requires Init(init) && Exec(Step, init, schedule).Some?
    ensures Exec(Step, init, schedule).value.sent == Trace(ClockReading, schedule)
  {
    forall s, a | Step(s, a).Some? ensures Step(s, a).value.sent == s.sent + ClockReading(a) {
      SendsReading(s, a);
    }
    Recorded(Step, (m: State) => m.sent, ClockReading, init, schedule);
  }

  lemma SendsReading(s: State, a: Action)
    requires Step(s, a).Some?
    ensures Step(s, a).value.sent == s.sent + ClockReading(a)
  {
  }

  lemma GotInRuns(init: State, schedule: seq<Action>)
    requires Init(init) && Exec(Step, init, schedule).Some?
    ensures |Exec(Step, init, schedule).value.got| == Count(IsDrained, schedule)
  {
    InitIsInv(init);
    forall s, a | Inv(s) && Step(s, a).Some?
      ensures Inv(Step(s, a).value)
      ensures |Step(s, a).value.got| == |s.got| + if IsDrained(a) then 1 else 0
    {
      StepKeeps(s, a);
      GotGrows(s, a);
    }
    Tallied(Step, IsDrained, Inv, (m: State) => |m.got|, init, schedule);
  }

  lemma GotGrows(s: State, a: Action)
    requires Mailbox(s) && Step(s, a).Some?
    ensures |Step(s, a).value.got| == |s.got| + if IsDrained(a) then 1 else 0
  {
  }

  lemma OnlyStuiEnables(init: State, schedule: seq<Action>)
    requires Init(init) && Exec(Step, init, schedule).Some?
    ensures Count(IsStui, schedule) == 0 ==> !Exec(Step, init, schedule).value.enabled
  {
    var enabled := (m: State) => if m.enabled then 1 else 0;
    Tallied(Step, IsStui, (m: State) => true, enabled, init, schedule);
  }

  /** The channel is a one-slot mailbox in every run: the values stored are the clock readings of the
      schedule, in order and as they were read, all but the last one at most.  None is stored before
      the client has enabled interrupts. */
  lemma MailboxInRuns(init: State, schedule: seq<Action>)
    requires Init(init)
    ensures Exec(Step, init, schedule).Some? ==>
              var s := Exec(Step, init, schedule).value;
              && IsMailbox(s) && s.sent == Trace(ClockReading, schedule) && |s.got| == Count(IsDrained, schedule)
              && (s.got != [] ==> s.singleStart == Encode(s.sent[|s.got| - 1]))
              && (Count(IsStui, schedule) == 0 ==> s.got == [] && s.client == Running)
  {
    if Exec(Step, init, schedule).Some? {
      InvInRuns(init, schedule);
      SentInRuns(init, schedule);
      GotInRuns(init, schedule);
      OnlyStuiEnables(init, schedule);
      InvIsMailbox(Exec(Step, init, schedule).value);
    }
  }

  lemma InvIsMailbox(s: State)
    requires Mailbox(s)
    ensures IsMailbox(s) && (s.got != [] ==> s.singleStart == Encode(s.sent[|s.got| - 1]))
  {
    if s.got != [] { RoundTrip(s.sent[|s.got| - 1], s.singleStart); }
  }

  /** Merging interrupts loses nothing: whenever the server sends one, none is pending; whenever the
      handler evaluates its length argument, that is 8, the size of its destination; and it takes
      out that many bytes. */
  ghost predicate NothingMerged(s: State) {
    && (s.server == Notifying ==> !s.pending)
    && (s.client == Entered ==> Len(s) == 8)
    && (s.client == Draining && s.fifo.c.CCopying? ==> s.fifo.c.n == 8 && |s.fifo.c.dst| == 8)
  }

  lemma CoalescingIsHarmless(init: State, schedule: seq<Action>)
    requires Init(init)
    ensures Exec(Step, init, schedule).Some? ==> NothingMerged(Exec(Step, init, schedule).value)
  {
    InvInRuns(init, schedule);
    if Exec(Step, init, schedule).Some? {
      LenCounts(Exec(Step, init, schedule).value);
    }
  }

  /** The first memcpy of a copy of n elements moves a whole record, and is all there is to move. */
  ghost predicate OneSegment(s: Shape, n: nat, off: U32)
    requires s.Start(off) <= s.Bytes()
  {
    s.Size(n) == 8 && FirstSegment(s, s.Size(n), off) == s.Size(n)
  }

  /** The indices stay multiples of 8, and records never straddle the end of the buffer: the second
      memcpy of each copy has nothing to move, however often the counters have wrapped. */
  ghost predicate Contiguous(s: State)
    requires s.fifo.shape.Ok()
  {
    StartInside(s.fifo.shape, if s.fifo.p.PCopying? then s.fifo.p.off else 0);
    StartInside(s.fifo.shape, if s.fifo.c.CCopying? then s.fifo.c.off else 0);
    && s.fifo.inIdx % 8 == 0 && s.fifo.outIdx % 8 == 0
    && (s.fifo.p.PCopying? ==> OneSegment(s.fifo.shape, s.fifo.p.n, s.fifo.p.off))
    && (s.fifo.c.CCopying? ==> OneSegment(s.fifo.shape, s.fifo.c.n, s.fifo.c.off))
  }

  lemma RecordsAreContiguous(init: State, schedule: seq<Action>)
    requires Init(init)
    ensures Exec(Step, init, schedule).Some? ==>
              var s := Exec(Step, init, schedule).value;
              s.fifo.shape.Ok() && Contiguous(s)
  {
    InvInRuns(init, schedule);
    if Exec(Step, init, schedule).Some? {
      InvIsContiguous(Exec(Step, init, schedule).value);
    }
  }

  lemma InvIsContiguous(s: State)
    requires Inv(s)
    ensures Contiguous(s)
  {
    EightAligned(s.fifo.shape, |s.got|);
    EightAligned(s.fifo.shape, |s.got| + 1);
    WholeRecords(s);
    EightAtATime(s);
    IndicesOfCounts(s.fifo);
    AlignedIsContiguous(s);
  }

  lemma IndicesOfCounts(f: S.State)
    requires S.Inv(f)
    ensures f.inIdx == Wrap(f.totalIn) && f.outIdx == Wrap(f.totalOut)
    ensures f.p.PCopying? ==> f.p.off == f.inIdx
    ensures f.c.CCopying? ==> f.c.off == f.outIdx
  {
  }

  lemma AlignedIsContiguous(s: State)
    requires s.fifo.shape.Ok() && s.fifo.inIdx % 8 == 0 && s.fifo.outIdx % 8 == 0
    requires s.fifo.shape.Start(s.fifo.inIdx) <= s.fifo.shape.Bytes() && OneSegment(s.fifo.shape, 8, s.fifo.inIdx)
    requires s.fifo.shape.Start(s.fifo.outIdx) <= s.fifo.shape.Bytes() && OneSegment(s.fifo.shape, 8, s.fifo.outIdx)
    requires s.fifo.p.PCopying? ==> s.fifo.p.n == 8 && s.fifo.p.off == s.fifo.inIdx
    requires s.fifo.c.CCopying? ==> s.fifo.c.n == 8 && s.fifo.c.off == s.fifo.outIdx
    ensures Contiguous(s)
  {
  }

  lemma EightAtATime(s: State)
    requires Mailbox(s)
    ensures s.fifo.p.PCopying? ==> s.fifo.p.n == 8
    ensures s.fifo.c.CCopying? ==> s.fifo.c.n == 8
  {
  }

  lemma WholeRecords(s: State)
    requires Mailbox(s)
    ensures s.fifo.totalOut == 8 * |s.got|
    ensures s.fifo.totalIn == 8 * |s.got| || s.fifo.totalIn == 8 * (|s.got| + 1)
  {
  }

  lemma EightAligned(s: Shape, k: nat)
    requires s.Ok() && s.mask == 4095 && s.esize == 1
    ensures s.Start(Wrap(8 * k)) + 8 <= s.Bytes() && Wrap(8 * k) % 8 == 0
    ensures OneSegment(s, 8, Wrap(8 * k))
  {
    ByteSized(s, 8);
    WrapOfEights(k);
    ByteSized(s, 8 * k);
    ByteSized(s, s.Cap());
    StartOfCount(s, 8 * k);
    ModScale(k, 512, 8);
  }

  lemma WrapOfEights(k: nat)
    ensures Wrap(8 * k) % 8 == 0
  {
    WrapIsMod(8 * k);
    ModMod(8 * k, 8, 0x2000_0000, 0x1_0000_0000);
  }

  // ----- Delivery -----

  /** The steps that bring the latest timestamp on its way: all but another turn of the spin loop
      and the next round's timestamp. */
  predicate Working(a: Action) { !a.SpinAgain? && !a.Stamp? }

  ghost function ServerRank(s: State): nat {
    match s.server
    case Stamping => 0
    case Spinning => 1
    case Notifying => 16
    case Enqueuing => 16 + S.ProducerRank(s.fifo)
  }

  ghost function ClientRank(s: State): nat {
    match s.client
    case Running => 0
    case Returning => 1
    case Entered => 13
    case Draining => 1 + S.ConsumerRank(s.fifo)
  }

  /** An upper bound on the steps left in the round. */
  ghost function Rank(s: State): nat {
    ServerRank(s) + ClientRank(s) + (if s.pending then 14 else 0) + (if s.enabled then 0 else 1)
  }

  lemma RankDecreases(s: State, a: Action)
    requires Inv(s) && Working(a) && Step(s, a).Some?
    ensures Rank(Step(s, a).value) < Rank(s)
  {
    match a
    case Enqueue(b) =>
      S.ProducerAdvances(s.fifo, b);
      EnqueueLowers(s, b);
    case Drain(b) =>
      S.ConsumerAdvances(s.fifo, b);
      DrainLowers(s, b);
    case _ =>
      LenCounts(s);
      OtherRank(s, a);
  }

  lemma EnqueueLowers(s: State, b: S.Action)
    requires Step(s, Enqueue(b)).Some?
    requires S.ProducerRank(S.Step(s.fifo, b).value) < S.ProducerRank(s.fifo)
    requires S.ConsumerRank(S.Step(s.fifo, b).value) == S.ConsumerRank(s.fifo)
    ensures Rank(Step(s, Enqueue(b)).value) < Rank(s)
  {
    var s' := s.(server := if b.PStore? then Notifying else Enqueuing, fifo := S.Step(s.fifo, b).value);
    assert Step(s, Enqueue(b)) == Some(s');
    assert ServerRank(s') < ServerRank(s) && ClientRank(s') == ClientRank(s);
  }

  lemma DrainLowers(s: State, b: S.Action)
    requires Step(s, Drain(b)).Some?
    requires S.ConsumerRank(S.Step(s.fifo, b).value) < S.ConsumerRank(s.fifo)
    requires S.ProducerRank(S.Step(s.fifo, b).value) == S.ProducerRank(s.fifo)
    ensures Rank(Step(s, Drain(b)).value) < Rank(s)
  {
  }

  lemma OtherRank(s: State, a: Action)
    requires Mailbox(s) && Len(s) == s.fifo.totalIn - s.fifo.totalOut
    requires Working(a) && Step(s, a).Some? && !a.Enqueue? && !a.Drain?
    ensures Rank(Step(s, a).value) < Rank(s)
  {
    ByteSized(s.fifo.shape, 8);
  }

  /** Until the timestamp is delivered, some working step is enabled. */
  lemma SomeStep(s: State) returns (a: Action)
    requires Inv(s) && s.server != Stamping
    ensures Working(a) && Step(s, a).Some?
  {
    Occupied(s);
    if s.server == Enqueuing {
      var b := S.ProducerStep(s.fifo);
      a := Enqueue(b);
      FifoStepEnabled(s, b);
    } else if s.client == Draining {
      var b := S.ConsumerStep(s.fifo);
      a := Drain(b);
      FifoStepEnabled(s, b);
    } else {
      LenCounts(s);
      a := StepBetweenCopies(s);
    }
  }

  lemma Occupied(s: State)
    requires Mailbox(s)
    ensures s.server == Enqueuing ==> !s.fifo.p.PIdle?
    ensures s.client == Draining ==> !s.fifo.c.CIdle?
  {
  }

  lemma FifoStepEnabled(s: State, b: S.Action)
    requires S.Step(s.fifo, b).Some?
    ensures s.server == Enqueuing && S.InProducer(b) ==> Step(s, Enqueue(b)).Some?
    ensures s.client == Draining && InOut(b) ==> Step(s, Drain(b)).Some?
  {
  }

  lemma StepBetweenCopies(s: State) returns (a: Action)
    requires Mailbox(s) && Len(s) == s.fifo.totalIn - s.fifo.totalOut
    requires s.server == Notifying || s.server == Spinning
    requires s.client != Draining
    ensures Working(a) && Step(s, a).Some?
  {
    if s.server == Notifying {
      a := Notify;
    } else if Len(s) == 0 {
      a := SpinDone;
    } else if s.client == Entered {
      a := CallOut;
    } else if s.client == Returning {
      a := Return;
    } else {
      a := if s.enabled then Deliver else Stui;
    }
  }

  /** No run gets stuck: from every reachable state some continuation, without another turn of the
      spin loop, gets the latest timestamp stored and the server out of its spin, ready for
      any next one. */
  lemma Delivers(init: State, schedule: seq<Action>) returns (rest: seq<Action>)
    requires Init(init) && Exec(Step, init, schedule).Some?
    ensures |rest| <= Rank(Exec(Step, init, schedule).value) && forall a :: a in rest ==> Working(a)
    ensures Exec(Step, init, schedule + rest).Some?
    ensures var end := Exec(Step, init, schedule + rest).value;
            && end.server == Stamping && end.got == end.sent
            && forall now: U64 :: Step(end, Stamp(now)).Some?
  {
    InvInRuns(init, schedule);
    var s := Exec(Step, init, schedule).value;
    forall m | Inv(m) && !IsStamping(m)
      ensures exists a :: Working(a) && Step(m, a).Some? && Inv(Step(m, a).value) && Rank(Step(m, a).value) < Rank(m)
    {
      var a := SomeStep(m);
      StepKeeps(m, a);
      RankDecreases(m, a);
    }
    rest := Completable(Step, Working, Inv, IsStamping, Rank, s);
    ExecAppend(Step, init, schedule, rest);
  }

  predicate IsStamping(s: State) { s.server == Stamping }

  /** And no run can put the delivery off by working: without spinning, at most Rank(s) steps are
      left in a round, whichever are chosen. */
  lemma WorkIsBounded(s: State, schedule: seq<Action>)
    requires Inv(s) && (forall a :: a in schedule ==> Working(a)) && Exec(Step, s, schedule).Some?
    ensures |schedule| <= Rank(s) <= 29
  {
    forall m, a | Inv(m) && Working(a) && Step(m, a).Some?
      ensures Inv(Step(m, a).value) && Rank(Step(m, a).value) < Rank(m)
    {
      StepKeeps(m, a);
      RankDecreases(m, a);
    }
    Bounded(Step, Working, Inv, Rank, s, schedule);
    RankBound(s);
  }

  lemma RankBound(s: State)
    requires Inv(s)
    ensures Rank(s) <= 29
  {
    ByteSized(s.fifo.shape, 8);
    CopyBound(s.fifo);
  }

  lemma CopyBound(f: S.State)
    requires S.ProducerInv(f) && S.ConsumerInv(f) && f.shape.Size(8) == 8
    ensures f.p.PCopying? && f.p.n == 8 ==> S.ProducerRank(f) <= 9
    ensures f.c.CCopying? && f.c.n == 8 ==> S.ConsumerRank(f) <= 9
  {
    if f.p.PCopying? && f.p.n == 8 { BoundedSet(f.p.todo, 8); }
    if f.c.CCopying? && f.c.n == 8 { BoundedSet(f.c.todo, 8); }
  }

  lemma {:induction false} BoundedSet(todo: set<nat>, n: nat)
    requires forall t :: t in todo ==> t < n
    ensures |todo| <= n
  {
    if n == 0 {
      assert todo == {};
    } else {
      BoundedSet(todo - {n - 1}, n - 1);
    }
  }
}
