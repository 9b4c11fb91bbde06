/** The one-way user-interrupt benchmark of source/uintrfd/uintrfd-uni.c.  A sender thread clears
    the flag, stamps bench.single_start, posts an interrupt and spins on the flag.  The handler,
    which suspends the main thread, records the sample, counts it and sets the flag.  The main
    thread spins on the count and then evaluates. */
module OneWay {
  import opened Benchmarks
  import opened Runs
  import opened Words

  datatype Sender = SHead | SClearing | SStamping | SSending | SSpinning | SDone

  /** ui_handler: idle, then entered, with the time taken, recorded, counted, and with the flag set
      but still to return. */
  datatype Handler = Off | Entered | Timed(time: U64) | Recorded | Counted | Flagged

  datatype Main = Waiting | Evaluating

  /** The histories are the single_start of every round, the handler's clock readings, and the
      samples recorded. */
  datatype State = State(
    count: Int32, sender: Sender, loop: int, received: bool, singleStart: U64, pending: bool,
    handler: Handler, bench: Stats, uintrCount: U32, main: Main,
    starts: seq<U64>, ends: seq<U64>, samples: seq<U64>)

  datatype Action =
    | Test | ClearFlag | Stamp(now: U64) | Post | SeeFlag
    | Deliver | Time(now: U64) | Store | CountUp | SetFlag | Return
    | Leave

  /** The int count, converted for the comparison with the unsigned uintr_count. */
  function Unsigned(count: Int32): U32 { if count < 0 then count + 0x1_0000_0000 else count }

  lemma UnsignedIsModular(count: Int32)
    ensures Unsigned(count) == count % 0x1_0000_0000
  {
  }

  function Step(s: State, a: Action): Option<State> {
    match a
    // client_communicate
    case Test =>
      if s.sender == SHead then Some(s.(sender := if s.loop > 0 then SClearing else SDone)) else None
    case ClearFlag =>
      if s.sender == SClearing then Some(s.(received := false, sender := SStamping)) else None
    case Stamp(now) =>
      if s.sender == SStamping then Some(s.(singleStart := now, sender := SSending, starts := s.starts + [now]))
      else None
    case Post =>
      if s.sender == SSending then Some(s.(pending := true, sender := SSpinning)) else None
    case SeeFlag =>
      if s.sender == SSpinning && s.received then Some(s.(sender := SHead, loop := s.loop - 1)) else None
    // ui_handler
    case Deliver =>
      if s.pending && s.handler == Off then Some(s.(pending := false, handler := Entered)) else None
    case Time(now) =>
      if s.handler == Entered then Some(s.(handler := Timed(Sub64(now, s.singleStart)), ends := s.ends + [now]))
      else None
    case Store =>
      if s.handler.Timed? then
        Some(s.(bench := Record(s.bench, s.handler.time), samples := s.samples + [s.handler.time], handler := Recorded))
      else None
    case CountUp =>
      if s.handler == Recorded then Some(s.(uintrCount := Add32(s.uintrCount, 1), handler := Counted)) else None
    case SetFlag =>
      if s.handler == Counted then Some(s.(received := true, handler := Flagged)) else None
    case Return =>
      if s.handler == Flagged then Some(s.(handler := Off)) else None
    // server_communicate, in the thread that the handler suspends
    case Leave =>
      if s.main == Waiting && s.handler == Off && s.uintrCount >= Unsigned(s.count) then Some(s.(main := Evaluating))
      else None
  }

  function Init(count: Int32): State {
    State(count, SHead, count, false, 0, false, Off, NO_SAMPLES, 0, Waiting, [], [], [])
  }

  // ----- The invariant -----

  /** The rounds that the sender has completed. */
  function Rounds(s: State): int { s.count - s.loop }

  ghost predicate HandlerIdle(s: State) { s.handler == Off || s.handler == Flagged }

  /** Between rounds: every stamp has been answered. */
  ghost predicate Answered(s: State, rounds: int) {
    && !s.pending && HandlerIdle(s)
    && |s.starts| == |s.ends| == |s.samples| == s.uintrCount == rounds
  }

  /** Stamped, and the sample not yet taken. */
  ghost predicate Stamped(s: State, rounds: int) {
    && !s.received && 0 <= rounds == |s.starts| - 1 && s.singleStart == s.starts[rounds]
    && |s.ends| == |s.samples| == s.uintrCount == rounds
  }

  ghost predicate InHandler(s: State, rounds: int) {
    && !s.pending && !s.received && 0 <= rounds == |s.starts| - 1 && s.singleStart == s.starts[rounds]
    && match s.handler
       case Entered => |s.ends| == |s.samples| == s.uintrCount == rounds
       case Timed(time) =>
         && |s.ends| == rounds + 1 && |s.samples| == s.uintrCount == rounds
         && time == Sub64(s.ends[rounds], s.starts[rounds])
       case Recorded => |s.ends| == |s.samples| == rounds + 1 && s.uintrCount == rounds
       case Counted => |s.ends| == |s.samples| == s.uintrCount == rounds + 1
       case _ => false
  }

  ghost predicate Phase(s: State, rounds: int) {
    match s.sender
    case SSending => Stamped(s, rounds) && !s.pending && HandlerIdle(s)
    case SSpinning =>
      || (Stamped(s, rounds) && s.pending && HandlerIdle(s))
      || InHandler(s, rounds)
      || (Answered(s, rounds + 1) && s.received)
    case SStamping => Answered(s, rounds) && !s.received
    case _ => Answered(s, rounds)
  }

  /** Each sample is the handler's clock minus the start of its own round. */
  ghost predicate OwnRounds(s: State) {
    && |s.samples| <= |s.ends| <= |s.starts|
    && forall i :: 0 <= i < |s.samples| ==> s.samples[i] == Sub64(s.ends[i], s.starts[i])
  }

  ghost predicate Inv(s: State) {
    && (if s.count > 0 then 0 <= s.loop <= s.count else s.loop == s.count)
    && (s.sender == SDone ==> s.loop <= 0)
    && (s.sender != SHead && s.sender != SDone ==> s.loop > 0)
    && Phase(s, Rounds(s)) && OwnRounds(s) && s.bench == Fold(s.samples)
    && (s.main == Evaluating ==> s.uintrCount == s.count && s.handler == Off && !s.pending && |s.starts| == s.count)
  }

  lemma SenderKeeps(s: State, a: Action)
    requires Inv(s) && Step(s, a).Some?
    requires a.Test? || a.ClearFlag? || a.Stamp? || a.Post? || a.SeeFlag?
    ensures Inv(Step(s, a).value)
  {
  }

  lemma StoreKeeps(s: State)
    requires Inv(s) && Step(s, Store).Some?
    ensures Inv(Step(s, Store).value)
  {
    TimedIsOwn(s);
    StoredIsOwn(s);
    StoreKeepsPhase(s);
    FoldAppend(s.samples, s.handler.time);
  }

  lemma StoreKeepsPhase(s: State)
    requires Phase(s, Rounds(s)) && Step(s, Store).Some?
    ensures Phase(Step(s, Store).value, Rounds(Step(s, Store).value))
  {
  }

  lemma TimedIsOwn(s: State)
    requires Inv(s) && s.handler.Timed?
    ensures |s.samples| < |s.ends| <= |s.starts|
    ensures s.handler.time == Sub64(s.ends[|s.samples|], s.starts[|s.samples|])
  {
  }

  lemma StoredIsOwn(s: State)
    requires OwnRounds(s) && s.handler.Timed? && |s.samples| < |s.ends| <= |s.starts|
    requires s.handler.time == Sub64(s.ends[|s.samples|], s.starts[|s.samples|])
    ensures OwnRounds(Step(s, Store).value)
  {
  }

  lemma DeliverKeeps(s: State)
    requires Inv(s) && Step(s, Deliver).Some?
    ensures Inv(Step(s, Deliver).value)
  {
  }

  lemma TimeKeeps(s: State, now: U64)
    requires Inv(s) && Step(s, Time(now)).Some?
    ensures Inv(Step(s, Time(now)).value)
  {
  }

  lemma CountUpKeeps(s: State)
    requires Inv(s) && Step(s, CountUp).Some?
    ensures Inv(Step(s, CountUp).value)
  {
  }

  lemma SetFlagKeeps(s: State)
    requires Inv(s) && Step(s, SetFlag).Some?
    ensures Inv(Step(s, SetFlag).value)
  {
  }

  lemma ReturnKeeps(s: State)
    requires Inv(s) && Step(s, Return).Some?
    ensures Inv(Step(s, Return).value)
  {
  }

  lemma LeaveKeeps(s: State)
    requires Inv(s) && Step(s, Leave).Some?
    ensures Inv(Step(s, Leave).value)
  {
  }

  lemma StepKeeps(s: State, a: Action)
    requires Inv(s) && Step(s, a).Some?
    ensures Inv(Step(s, a).value)
  {
    match a
    case Deliver => DeliverKeeps(s);
    case Time(now) => TimeKeeps(s, now);
    case Store => StoreKeeps(s);
    case CountUp => CountUpKeeps(s);
    case SetFlag => SetFlagKeeps(s);
    case Return => ReturnKeeps(s);
    case Leave => LeaveKeeps(s);
    case _ => SenderKeeps(s, a);
  }

  lemma InvInRuns(count: Int32, schedule: seq<Action>)
    ensures Exec(Step, Init(count), schedule).Some? ==> Inv(Exec(Step, Init(count), schedule).value)
  {
    forall s, a | Inv(s) && Step(s, a).Some? ensures Inv(Step(s, a).value) {
      StepKeeps(s, a);
    }
    Invariance(Step, Inv, Init(count), schedule);
  }

  // ----- Safety of all runs -----

  /** The interrupts sent: one for each stamp, but for the stamp of a send still to come. */
  function Sends(s: State): int { if s.sender == SSending then |s.starts| - 1 else |s.starts| }

  /** No handler run mixes rounds or comes before its own send, and each answers the latest one. */
  ghost predicate RaceFree(s: State) {
    && OwnRounds(s) && s.bench == Fold(s.samples)
    && s.uintrCount <= |s.samples| <= |s.ends| <= Sends(s) <= |s.starts| <= Max(s.count, 0)
    && Sends(s) <= s.uintrCount + 1 && |s.starts| <= |s.samples| + 1
    && (s.pending || s.handler == Entered ==> Sends(s) == |s.ends| + 1)
    // posting never finds an interrupt pending, and the flag is never cleared while one is on its way
    && (s.sender == SSending ==> !s.pending)
    && (s.sender == SClearing ==> !s.pending && (s.handler == Off || s.handler == Flagged))
  }

  /** Evaluation starts only when all is quiet, and over exactly the `count` samples. */
  ghost predicate EvaluatesAll(s: State) {
    s.main == Evaluating ==>
      && s.handler == Off && !s.pending
      && |s.samples| == s.count == s.bench.count && s.bench == Fold(s.samples)
  }

  /** What the clock reads in the sender, and in the handler. */
  function StartReading(a: Action): seq<U64> { match a case Stamp(now) => [now] case _ => [] }
  function EndReading(a: Action): seq<U64> { match a case Time(now) => [now] case _ => [] }

  predicate IsSample(a: Action) { a == Store }
  predicate IsSend(a: Action) { a == Post }
  predicate IsCountUp(a: Action) { a == CountUp }

  /** The histories are what the schedule says: its clock readings, unaltered, its samples, sends and
      increments. */
  ghost predicate FromSchedule(s: State, schedule: seq<Action>) {
    && s.starts == Trace(StartReading, schedule) && s.ends == Trace(EndReading, schedule)
    && |s.samples| == Count(IsSample, schedule)
    && Sends(s) == Count(IsSend, schedule) && s.uintrCount == Count(IsCountUp, schedule)
  }

  lemma StepRecords(s: State, a: Action)
    requires Step(s, a).Some?
    ensures var s' := Step(s, a).value;
            && s'.starts == s.starts + StartReading(a) && s'.ends == s.ends + EndReading(a)
            && |s'.samples| == |s.samples| + (if IsSample(a) then 1 else 0)
            && Sends(s') == Sends(s) + (if IsSend(a) then 1 else 0)
            && (s.uintrCount < 0xffff_ffff ==>
                  s'.uintrCount == s.uintrCount + (if IsCountUp(a) then 1 else 0))
  {
  }

  lemma CountInWord(s: State)
    requires Inv(s)
    ensures s.uintrCount < 0xffff_ffff
  {
  }

  lemma {:induction false} HistoriesInRuns(count: Int32, schedule: seq<Action>)
    ensures Exec(Step, Init(count), schedule).Some? ==>
              FromSchedule(Exec(Step, Init(count), schedule).value, schedule)
  {
    if schedule != [] && Exec(Step, Init(count), schedule).Some? {
      var front := schedule[..|schedule| - 1];
      HistoriesInRuns(count, front);
      InvInRuns(count, front);
      CountInWord(Exec(Step, Init(count), front).value);
      StepRecords(Exec(Step, Init(count), front).value, schedule[|schedule| - 1]);
    }
  }

  /** In every run each sample is the handler's clock reading minus the sender's of the same round,
      and the evaluation covers them all. */
  lemma RunsAreRaceFree(count: Int32, schedule: seq<Action>)
    ensures Exec(Step, Init(count), schedule).Some? ==>
              var s := Exec(Step, Init(count), schedule).value;
              RaceFree(s) && EvaluatesAll(s) && FromSchedule(s, schedule)
  {
    InvInRuns(count, schedule);
    HistoriesInRuns(count, schedule);
    if Exec(Step, Init(count), schedule).Some? {
      FoldCounts(Exec(Step, Init(count), schedule).value.samples);
    }
  }

  // ----- All runs end -----

  function Rank(s: State): nat {
    20 * Max(s.loop, 0)
    + (match s.sender
       case SHead => 14
       case SClearing => 13
       case SStamping => 12
       case SSending => 11
       case SSpinning => 1
       case SDone => 0)
    + (if s.pending then 8 else 0)
    + (match s.handler
       case Off => 0
       case Entered => 7
       case Timed(_) => 6
       case Recorded => 5
       case Counted => 4
       case Flagged => 1)
    + (if s.main == Waiting then 1 else 0)
  }

  lemma RankDecreases(s: State, a: Action)
    requires Inv(s) && Step(s, a).Some?
    ensures Rank(Step(s, a).value) < Rank(s)
  {
  }

  ghost predicate IsFinal(s: State) {
    s.sender == SDone && s.handler == Off && !s.pending && |s.samples| == Max(s.count, 0) &&
    (s.main == Evaluating <==> s.count >= 0)
  }

  /** What happens next, the handler first. */
  function Next(s: State, now: U64): Action {
    match s.handler
    case Entered => Time(now)
    case Timed(_) => Store
    case Recorded => CountUp
    case Counted => SetFlag
    case Flagged => Return
    case Off =>
      if s.pending then Deliver
      else
        match s.sender
        case SHead => Test
        case SClearing => ClearFlag
        case SStamping => Stamp(now)
        case SSending => Post
        case SSpinning => SeeFlag
        case SDone => Leave
  }

  lemma NeverStuck(s: State, now: U64)
    requires Inv(s)
    ensures IsFinal(s) || Step(s, Next(s, now)).Some?
  {
  }

  lemma EveryStepLowers(count: Int32, schedule: seq<Action>)
    requires Exec(Step, Init(count), schedule).Some?
    ensures Inv(Exec(Step, Init(count), schedule).value)
    ensures Rank(Exec(Step, Init(count), schedule).value) + |schedule| <= Rank(Init(count))
  {
    var any := (a: Action) => true;
    forall m, a | Inv(m) && any(a) && Step(m, a).Some?
      ensures Inv(Step(m, a).value) && Rank(Step(m, a).value) < Rank(m)
    {
      StepKeeps(m, a);
      RankDecreases(m, a);
    }
    Bounded(Step, any, Inv, Rank, Init(count), schedule);
  }

  /** Every run ends, and until then it can go on whatever the clock reads: after at most
      20 * count + 15 steps the sender has finished `count` rounds and all is quiet.  The main thread
      then evaluates, except when the count is negative: the unsigned comparison keeps it spinning. */
  lemma AllRunsFinish(count: Int32, schedule: seq<Action>, now: U64)
    requires Exec(Step, Init(count), schedule).Some?
    ensures |schedule| <= 20 * Max(count, 0) + 15
    ensures var s := Exec(Step, Init(count), schedule).value;
            && s.count == count
            && (IsFinal(s) || exists a :: Step(s, a).Some? && (a.Stamp? || a.Time? ==> a.now == now))
  {
    Invariance(Step, (m: State) => m.count == count, Init(count), schedule);
    EveryStepLowers(count, schedule);
    NeverStuck(Exec(Step, Init(count), schedule).value, now);
  }
}
