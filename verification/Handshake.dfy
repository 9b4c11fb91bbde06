/** The guard-byte handshake of source/shm and source/mmap (the two differ only in how the memory is
    shared).  The client stores 's' in the guard and waits for 'c'; the server waits for 's', copies
    a timestamp into the payload and stores 'c'.  The guard is atomic; the payload is copied byte by
    byte, in any order.  What the guard and the payload hold at the start is arbitrary. */
module Handshake {
  import opened Runs
  import opened Timestamps
  import opened Words

  datatype Server = SWaiting | SStamping | SCopying(src: seq<Byte>, todo: set<nat>)

  datatype Client = CNotifying | CWaiting | CCopying(todo: set<nat>)

  /** The shared memory, the program counters and bench.single_start.  The histories are the first
      guard value, the timestamps taken with the number of client notifications before each, the
      values read, and the timestamps already delivered when the client first notifies. */
  datatype State = State(
    guard: char, payload: seq<Byte>, server: Server, client: Client, singleStart: seq<Byte>,
    first: char, stamps: seq<U64>, taken: seq<nat>, notified: nat, got: seq<nat>, skipped: nat)

  datatype Action = SeeS | Stamp(now: U64) | SByte(t: nat) | StoreC | StoreS | SeeC | CByte(t: nat) | Finish

  const ALL: set<nat> := {0, 1, 2, 3, 4, 5, 6, 7}

  function Step(s: State, a: Action): Option<State> {
    match a
    // shm_wait, now, memcpy, shm_notify of the server
    case SeeS =>
      if s.server == SWaiting && s.guard == 's' then Some(s.(server := SStamping)) else None
    case Stamp(now) =>
      if s.server == SStamping then
        Some(s.(server := SCopying(Encode(now), ALL), stamps := s.stamps + [now], taken := s.taken + [s.notified]))
      else None
    case SByte(t) =>
      if s.server.SCopying? && t in s.server.todo && t < |s.payload| && t < |s.server.src| then
        Some(s.(payload := s.payload[t := s.server.src[t]], server := s.server.(todo := s.server.todo - {t})))
      else None
    case StoreC =>
      if s.server.SCopying? && s.server.todo == {} then Some(s.(guard := 'c', server := SWaiting)) else None
    // shm_notify, shm_wait, memcpy of the client
    case StoreS =>
      if s.client == CNotifying then
        Some(s.(guard := 's', client := CWaiting, notified := s.notified + 1,
                skipped := if s.notified == 0 && s.server == SWaiting then |s.stamps| else s.skipped))
      else None
    case SeeC =>
      if s.client == CWaiting && s.guard == 'c' then Some(s.(client := CCopying(ALL))) else None
    case CByte(t) =>
      if s.client.CCopying? && t in s.client.todo && t < |s.payload| && t < |s.singleStart| then
        Some(s.(singleStart := s.singleStart[t := s.payload[t]], client := CCopying(s.client.todo - {t})))
      else None
    case Finish =>
      if s.client == CCopying({}) then
        Some(s.(client := CNotifying, got := s.got + [Decode(s.singleStart)]))
      else None
  }

  // ----- The invariant -----

  ghost predicate Init(s: State) {
    && |s.payload| == 8 && |s.singleStart| == 8 && s.server == SWaiting && s.client == CNotifying
    && s.first == s.guard && s.stamps == [] && s.taken == [] && s.notified == 0 && s.got == [] && s.skipped == 0
  }

  /** The payload is the latest timestamp, all of it. */
  ghost predicate Complete(s: State) {
    s.stamps != [] && s.payload == Encode(s.stamps[|s.stamps| - 1])
  }

  ghost predicate Copying(s: State) {
    && s.server.SCopying? && s.stamps != [] && s.server.src == Encode(s.stamps[|s.stamps| - 1])
    && s.server.todo <= ALL && |s.payload| == 8
    && forall t :: 0 <= t < 8 && t !in s.server.todo ==> s.payload[t] == s.server.src[t]
  }

  ghost predicate Reading(s: State) {
    && s.client.CCopying? && s.client.todo <= ALL && |s.payload| == |s.singleStart| == 8
    && forall t :: 0 <= t < 8 && t !in s.client.todo ==> s.singleStart[t] == s.payload[t]
  }

  /** Before the client's first notification: the server moves only if the guard started as 's',
      and then for one timestamp at most. */
  ghost predicate Before(s: State) {
    && s.client == CNotifying && s.got == [] && s.skipped == 0
    && (|| (s.guard == s.first && s.server == SWaiting && s.stamps == [])
        || (s.guard == 's' == s.first && s.server == SStamping && s.stamps == [])
        || (s.guard == 's' == s.first && Copying(s) && |s.stamps| == 1)
        || (s.guard == 'c' && s.first == 's' && s.server == SWaiting && |s.stamps| == 1))
  }

  ghost predicate After(s: State) {
    var served := |s.got| + s.skipped;
    match s.client
    case CNotifying => s.guard == 'c' && s.server == SWaiting && |s.stamps| == served
    case CWaiting =>
      || (s.guard == 's' && (s.server == SWaiting || s.server == SStamping) && |s.stamps| == served)
      || (s.guard == 's' && Copying(s) && |s.stamps| == served + 1)
      || (s.guard == 'c' && s.server == SWaiting && Complete(s) && |s.stamps| == served + 1)
    case CCopying(_) => s.guard == 'c' && s.server == SWaiting && Complete(s) && Reading(s) && |s.stamps| == served + 1
  }

  /** Each value read is a timestamp, and they are read in order. */
  ghost predicate InOrder(s: State) {
    && |s.got| + s.skipped <= |s.stamps|
    && forall i :: 0 <= i < |s.got| ==> s.got[i] == s.stamps[i + s.skipped]
  }

  /** When the timestamps were taken: except perhaps for the very first, each after a notification of
      its own. */
  ghost predicate OnRequest(s: State) {
    && |s.taken| == |s.stamps|
    && (forall i :: 1 <= i < |s.taken| ==> s.taken[i] == i + 1 - s.skipped)
    && (s.first != 's' && s.taken != [] ==> s.taken[0] == 1)
  }

  /** Between reads, bench.single_start holds the value last read. */
  ghost predicate Stored(s: State) {
    s.got != [] && !s.client.CCopying? ==> Decode(s.singleStart) == s.got[|s.got| - 1]
  }

  ghost predicate Inv(s: State) {
    && |s.payload| == 8 && |s.singleStart| == 8
    && s.skipped <= 1 && (s.skipped == 1 ==> s.first == 's')
    && s.notified == |s.got| + (if s.client == CNotifying then 0 else 1)
    && InOrder(s) && OnRequest(s) && Stored(s)
    && (if s.notified == 0 then Before(s) else After(s))
  }

  lemma ServerKeeps(s: State, a: Action)
    requires Inv(s) && Step(s, a).Some? && (a.SeeS? || a.Stamp?)
    ensures Inv(Step(s, a).value)
  {
  }

  lemma SByteKeeps(s: State, t: nat)
    requires Inv(s) && Step(s, SByte(t)).Some?
    ensures Inv(Step(s, SByte(t)).value)
  {
  }

  lemma StoreCKeeps(s: State)
    requires Inv(s) && Step(s, StoreC).Some?
    ensures Inv(Step(s, StoreC).value)
  {
    assert s.payload == s.server.src;
  }

  lemma ClientKeeps(s: State, a: Action)
    requires Inv(s) && Step(s, a).Some? && (a.StoreS? || a.SeeC?)
    ensures Inv(Step(s, a).value)
  {
  }

  lemma CByteKeeps(s: State, t: nat)
    requires Inv(s) && Step(s, CByte(t)).Some?
    ensures Inv(Step(s, CByte(t)).value)
  {
  }

  lemma FinishKeeps(s: State)
    requires Inv(s) && Step(s, Finish).Some?
    ensures Inv(Step(s, Finish).value)
  {
    assert s.singleStart == s.payload;
    RoundTrip(s.stamps[|s.stamps| - 1], s.payload);
  }

  lemma StepKeeps(s: State, a: Action)
    requires Inv(s) && Step(s, a).Some?
    ensures Inv(Step(s, a).value)
  {
    match a
    case SeeS => ServerKeeps(s, a);
    case Stamp(_) => ServerKeeps(s, a);
    case SByte(t) => SByteKeeps(s, t);
    case StoreC => StoreCKeeps(s);
    case CByte(t) => CByteKeeps(s, t);
    case Finish => FinishKeeps(s);
    case _ => ClientKeeps(s, a);
  }

  lemma InvInRuns(init: State, schedule: seq<Action>)
    requires Init(init)
    ensures Exec(Step, init, schedule).Some? ==> Inv(Exec(Step, init, schedule).value)
  {
    forall s, a | Inv(s) && Step(s, a).Some? ensures Inv(Step(s, a).value) {
      StepKeeps(s, a);
    }
    Invariance(Step, Inv, init, schedule);
  }

  // ----- Safety of all runs -----

  /** What the server's clock reads in a step. */
  function ClockReading(a: Action): seq<U64> { match a case Stamp(now) => [now] case _ => [] }

  predicate IsRequest(a: Action) { a == StoreS }
  predicate IsRead(a: Action) { a == Finish }

  /** For each reading of the clock, the requests that were made before it. */
  ghost function Requests(schedule: seq<Action>): seq<nat> {
    if schedule == [] then []
    else
      var front, last := schedule[..|schedule| - 1], schedule[|schedule| - 1];
      Requests(front) + if last.Stamp? then [Count(IsRequest, front)] else []
  }

  /** The histories are what the schedule says: its clock readings, unaltered, when they were taken,
      and its reads. */
  ghost predicate FromSchedule(s: State, schedule: seq<Action>) {
    && s.stamps == Trace(ClockReading, schedule) && s.taken == Requests(schedule)
    && s.notified == Count(IsRequest, schedule) && |s.got| == Count(IsRead, schedule)
  }

  lemma StepRecords(s: State, a: Action)
    requires Step(s, a).Some?
    ensures var s' := Step(s, a).value;
            && s'.stamps == s.stamps + ClockReading(a)
            && s'.taken == s.taken + (if a.Stamp? then [s.notified] else [])
            && s'.notified == s.notified + (if IsRequest(a) then 1 else 0)
            && |s'.got| == |s.got| + (if IsRead(a) then 1 else 0)
  {
  }

  lemma {:induction false} HistoriesInRuns(init: State, schedule: seq<Action>)
    requires Init(init)
    ensures Exec(Step, init, schedule).Some? ==> FromSchedule(Exec(Step, init, schedule).value, schedule)
  {
    if schedule != [] && Exec(Step, init, schedule).Some? {
      var front := schedule[..|schedule| - 1];
      HistoriesInRuns(init, front);
      StepRecords(Exec(Step, init, front).value, schedule[|schedule| - 1]);
    }
  }

  /** While the client copies the payload, the server is in its wait loop and stays there, and the
      payload is one complete timestamp.  While the server is out of its loop, it has been asked to
      be. */
  ghost predicate Exclusive(s: State) {
    && (s.client.CCopying? ==> s.server == SWaiting && s.guard == 'c' && Complete(s))
    && (s.server != SWaiting ==> s.guard == 's')
  }

  /** Whatever the guard holds at the start, access is exclusive, and the values read are readings of
      the server's clock, whole and in order, with at most the first one skipped.  The client finds
      them in bench.single_start. */
  lemma ExclusiveInRuns(init: State, schedule: seq<Action>)
    requires Init(init)
    ensures Exec(Step, init, schedule).Some? ==>
              var s := Exec(Step, init, schedule).value;
              && Exclusive(s) && InOrder(s) && s.skipped <= 1 && Stored(s)
              && FromSchedule(s, schedule)
  {
    InvInRuns(init, schedule);
    HistoriesInRuns(init, schedule);
  }

  /** The k-th read is the k-th timestamp, taken after the k-th notification and before the next. */
  ghost predicate Paired(s: State) {
    && |s.got| <= |s.stamps| == |s.taken|
    && forall i :: 0 <= i < |s.got| ==> s.got[i] == s.stamps[i] && s.taken[i] == i + 1
  }

  ghost predicate AlwaysPaired(init: State) {
    forall schedule :: Exec(Step, init, schedule).Some? ==> Paired(Exec(Step, init, schedule).value)
  }

  lemma PairedInRuns(init: State, schedule: seq<Action>)
    requires Init(init) && init.guard != 's'
    ensures Exec(Step, init, schedule).Some? ==>
              var s := Exec(Step, init, schedule).value;
              Paired(s) && FromSchedule(s, schedule)
  {
    HistoriesInRuns(init, schedule);
    InvInRuns(init, schedule);
    FirstIsKept(init, schedule);
    if Exec(Step, init, schedule).Some? {
      InvIsPaired(Exec(Step, init, schedule).value);
    }
  }

  lemma InvIsPaired(s: State)
    requires Inv(s) && s.first != 's'
    ensures Paired(s)
  {
  }

  lemma FirstIsKept(init: State, schedule: seq<Action>)
    ensures Exec(Step, init, schedule).Some? ==> Exec(Step, init, schedule).value.first == init.first
  {
    Invariance(Step, (m: State) => m.first == init.first, init, schedule);
  }

  // ----- Delivery -----

  /** An upper bound on the steps until the client has its value. */
  function Rank(s: State): nat {
    match s.client
    case CNotifying => 0
    case CCopying(todo) => 1 + |todo|
    case CWaiting =>
      match s.server
      case SWaiting => if s.guard == 's' then 30 else 11
      case SStamping => 29
      case SCopying(_, todo) => 12 + |todo|
  }

  /** The step that the exchange is waiting for. */
  lemma Serves(s: State, now: U64) returns (a: Action)
    requires Inv(s) && s.client != CNotifying
    ensures Step(s, a).Some? && Rank(Step(s, a).value) < Rank(s) && (a.Stamp? ==> a.now == now)
  {
    if s.client.CCopying? {
      a := ClientCopies(s);
    } else if s.server.SCopying? {
      a := ServerCopies(s);
    } else {
      a := if s.server == SStamping then Stamp(now) else if s.guard == 's' then SeeS else SeeC;
    }
  }

  lemma ClientCopies(s: State) returns (a: Action)
    requires Reading(s)
    ensures Step(s, a).Some? && Rank(Step(s, a).value) < Rank(s)
  {
    if t :| t in s.client.todo { a := CByte(t); } else { a := Finish; }
  }

  lemma ServerCopies(s: State) returns (a: Action)
    requires Copying(s)
    ensures (a.SByte? || a.StoreC?) && Step(s, a).Some?
    ensures CopyRank(Step(s, a).value) < CopyRank(s)
    ensures s.client == CWaiting ==> Rank(Step(s, a).value) < Rank(s)
  {
    if t :| t in s.server.todo { a := SByte(t); } else { a := StoreC; }
  }

  function CopyRank(s: State): nat { if s.server.SCopying? then 1 + |s.server.todo| else 0 }

  predicate IsServed(s: State) { s.client == CNotifying }

  /** Whatever is done while the client waits brings it nearer to its value. */
  lemma WaitIsProgress(s: State, a: Action)
    requires Inv(s) && s.client != CNotifying && Step(s, a).Some?
    ensures Rank(Step(s, a).value) < Rank(s)
  {
    if a.SByte? {
      assert a.t in s.server.todo;
    } else if a.CByte? {
      assert a.t in s.client.todo;
    }
  }

  /** In every run a notification is answered in time: fewer than 30 steps can be made before the
      client has its value, and there is always one to make.  (A turn of a wait loop that sees the
      wrong guard changes nothing and is no step.) */
  lemma WaitIsBounded(init: State, schedule: seq<Action>, rest: seq<Action>)
    requires Init(init) && Exec(Step, init, schedule).Some?
    requires Exec(Step, init, schedule).value.client != CNotifying && Finish !in rest
    requires Exec(Step, Exec(Step, init, schedule).value, rest).Some?
    ensures |rest| < 30
    ensures var end := Exec(Step, Exec(Step, init, schedule).value, rest).value;
            (exists a :: Step(end, a).Some?) && AnyOrder(end)
  {
    InvInRuns(init, schedule);
    var s := Exec(Step, init, schedule).value;
    var inv := (m: State) => Inv(m) && m.client != CNotifying;
    var waiting := (a: Action) => a != Finish;
    forall m, a | inv(m) && waiting(a) && Step(m, a).Some?
      ensures inv(Step(m, a).value) && Rank(Step(m, a).value) < Rank(m)
    {
      StepKeeps(m, a);
      WaitIsProgress(m, a);
      StillWaiting(m, a);
    }
    Bounded(Step, waiting, inv, Rank, s, rest);
    RankBound(s);
    var a := Serves(Exec(Step, s, rest).value, 0);
    InvIsAnyOrder(Exec(Step, s, rest).value);
  }

  /** The bytes of a copy may move in any order. */
  ghost predicate AnyOrder(s: State) {
    && (s.server.SCopying? ==> forall t :: t in s.server.todo ==> Step(s, SByte(t)).Some?)
    && (s.client.CCopying? ==> forall t :: t in s.client.todo ==> Step(s, CByte(t)).Some?)
  }

  lemma InvIsAnyOrder(s: State)
    requires Inv(s)
    ensures AnyOrder(s)
  {
    assert s.server.SCopying? ==> Copying(s);
  }

  lemma StillWaiting(s: State, a: Action)
    requires s.client != CNotifying && a != Finish && Step(s, a).Some?
    ensures Step(s, a).value.client != CNotifying
  {
  }

  /** And whatever the clock then reads, some continuation serves the client. */
  lemma Delivers(init: State, schedule: seq<Action>, now: U64) returns (rest: seq<Action>)
    requires Init(init) && Exec(Step, init, schedule).Some?
    ensures |rest| <= 30 && Exec(Step, init, schedule + rest).Some?
    ensures forall a :: a in rest && a.Stamp? ==> a.now == now
    ensures Exec(Step, init, schedule + rest).value.client == CNotifying
  {
    InvInRuns(init, schedule);
    var s := Exec(Step, init, schedule).value;
    rest := DeliversFrom(s, now);
    ExecAppend(Step, init, schedule, rest);
  }

  lemma DeliversFrom(s: State, now: U64) returns (rest: seq<Action>)
    requires Inv(s)
    ensures |rest| <= 30 && Exec(Step, s, rest).Some? && forall a :: a in rest && a.Stamp? ==> a.now == now
    ensures Inv(Exec(Step, s, rest).value) && IsServed(Exec(Step, s, rest).value)
  {
    var reading := (a: Action) => a.Stamp? ==> a.now == now;
    forall m | Inv(m) && !IsServed(m)
      ensures exists a :: reading(a) && Step(m, a).Some? && Inv(Step(m, a).value) && Rank(Step(m, a).value) < Rank(m)
    {
      var a := Serves(m, now);
      assert reading(a);
      StepKeeps(m, a);
    }
    rest := Completable(Step, reading, Inv, IsServed, Rank, s);
    RankBound(s);
  }

  lemma RankBound(s: State)
    requires Inv(s)
    ensures Rank(s) <= 30
  {
    if s.client.CCopying? { AtMostEight(s.client.todo); }
    if s.server.SCopying? && Copying(s) { AtMostEight(s.server.todo); }
  }

  lemma AtMostEight(todo: set<nat>)
    requires todo <= ALL
    ensures |todo| <= 8
  {
    var rest := ALL - todo;
    assert todo + rest == ALL;
  }

  // ----- The first guard value decides the pairing -----

  /** The server has taken the timestamp 1 on its own, because of a left-over 's'. */
  ghost predicate Stale(s: State) {
    Inv(s) && s.notified == 0 && s.stamps == [1] && (s.server.SCopying? || s.server == SWaiting)
  }

  predicate IsWaiting(s: State) { s.server == SWaiting }

  lemma StaleCopies(s: State) returns (a: Action)
    requires Stale(s) && !IsWaiting(s)
    ensures Step(s, a).Some? && Stale(Step(s, a).value) && CopyRank(Step(s, a).value) < CopyRank(s)
  {
    a := ServerCopies(s);
    StepKeeps(s, a);
    CopyKeepsHistories(s, a);
  }

  lemma CopyKeepsHistories(s: State, a: Action)
    requires s.server.SCopying? && (a.SByte? || a.StoreC?) && Step(s, a).Some?
    ensures var s' := Step(s, a).value;
            && s'.notified == s.notified && s'.stamps == s.stamps
            && (s'.server.SCopying? || s'.server == SWaiting)
  {
  }

  /** The server alone finishes that copy. */
  lemma StaleCopyEnds(s: State) returns (rest: seq<Action>)
    requires Stale(s)
    ensures Exec(Step, s, rest).Some?
    ensures Stale(Exec(Step, s, rest).value) && IsWaiting(Exec(Step, s, rest).value)
  {
    var any := (a: Action) => true;
    forall m | Stale(m) && !IsWaiting(m)
      ensures exists a :: any(a) && Step(m, a).Some? && Stale(Step(m, a).value) &&
                          CopyRank(Step(m, a).value) < CopyRank(m)
    {
      var a := StaleCopies(m);
      assert any(a);
    }
    rest := Completable(Step, any, Stale, IsWaiting, CopyRank, s);
  }

  /** The client has notified once, after the server had finished the timestamp 1 and while it was
      taking the timestamp 2. */
  ghost predicate Skipping(s: State) {
    Inv(s) && s.notified == 1 && s.skipped == 1 && [1, 2] <= s.stamps
  }

  lemma SkippingServes(s: State) returns (a: Action)
    requires Skipping(s) && !IsServed(s)
    ensures Step(s, a).Some? && Skipping(Step(s, a).value) && Rank(Step(s, a).value) < Rank(s)
  {
    a := Serves(s, 3);
    StepKeeps(s, a);
    WaitKeepsHistories(s, a);
  }

  lemma WaitKeepsHistories(s: State, a: Action)
    requires s.client != CNotifying && Step(s, a).Some?
    ensures var s' := Step(s, a).value;
            s'.notified == s.notified && s'.skipped == s.skipped && s.stamps <= s'.stamps
  {
  }

  /** The client's first read then returns the second timestamp. */
  lemma SecondIsRead(s: State) returns (rest: seq<Action>)
    requires Skipping(s)
    ensures Exec(Step, s, rest).Some? && !Paired(Exec(Step, s, rest).value)
  {
    var any := (a: Action) => true;
    forall m | Skipping(m) && !IsServed(m)
      ensures exists a :: any(a) && Step(m, a).Some? && Skipping(Step(m, a).value) && Rank(Step(m, a).value) < Rank(m)
    {
      var a := SkippingServes(m);
      assert any(a);
    }
    rest := Completable(Step, any, Skipping, IsServed, Rank, s);
    var end := Exec(Step, s, rest).value;
    assert |end.got| == 1 && end.got[0] == end.stamps[1] == 2 && end.stamps[0] == 1;
  }

  lemma StaleGuardSkips(init: State) returns (schedule: seq<Action>)
    requires Init(init) && init.guard == 's'
    ensures Exec(Step, init, schedule).Some? && !Paired(Exec(Step, init, schedule).value)
  {
    var first := EarlyTimestamp(init);
    var s := Exec(Step, init, first).value;
    var second := SkippedTimestamp(s);
    ExecAppend(Step, init, first, second);
    schedule := first + second;
  }

  lemma EarlyTimestamp(init: State) returns (schedule: seq<Action>)
    requires Init(init) && init.guard == 's'
    ensures Exec(Step, init, schedule).Some?
    ensures var s := Exec(Step, init, schedule).value;
            Inv(s) && s.notified == 0 && s.stamps == [1] && s.server == SWaiting
  {
    ExecTwo(Step, init, SeeS, Stamp(1));
    var s := Step(Step(init, SeeS).value, Stamp(1)).value;
    InvInRuns(init, [SeeS, Stamp(1)]);
    var copy := StaleCopyEnds(s);
    ExecAppend(Step, init, [SeeS, Stamp(1)], copy);
    schedule := [SeeS, Stamp(1)] + copy;
  }

  lemma SkippedTimestamp(s: State) returns (schedule: seq<Action>)
    requires Inv(s) && s.notified == 0 && s.stamps == [1] && s.server == SWaiting
    ensures Exec(Step, s, schedule).Some? && !Paired(Exec(Step, s, schedule).value)
  {
    StepKeeps(s, StoreS);
    var asked := Step(s, StoreS).value;
    StepKeeps(asked, SeeS);
    ExecTwo(Step, s, StoreS, SeeS);
    var seen := Step(asked, SeeS).value;
    StepKeeps(seen, Stamp(2));
    var rest := SecondIsRead(Step(seen, Stamp(2)).value);
    ExecOne(Step, seen, Stamp(2));
    ExecAppend(Step, seen, [Stamp(2)], rest);
    ExecAppend(Step, s, [StoreS, SeeS], [Stamp(2)] + rest);
    schedule := [StoreS, SeeS] + ([Stamp(2)] + rest);
  }

  /** Reads and timestamps are paired in every run if and only if the guard does not start as 's'. */
  lemma GuardDecidesPairing(init: State)
    requires Init(init)
    ensures AlwaysPaired(init) <==> init.guard != 's'
  {
    if init.guard != 's' {
      forall schedule ensures Exec(Step, init, schedule).Some? ==> Paired(Exec(Step, init, schedule).value) {
        PairedInRuns(init, schedule);
      }
    } else {
      var schedule := StaleGuardSkips(init);
    }
  }
}
