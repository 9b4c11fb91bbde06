/** The bidirectional eventfd benchmark of source/eventfd/eventfd-bi.c.  Parent and child share one
    kernel counter: a write adds to it, a read takes all of it and blocks on zero.  Each side
    announces itself with its own token and writes a token that is not for it back. */
module Eventfd {
  import opened Runs
  import opened Words

  const SERVER_TOKEN: U64 := 1
  const CLIENT_TOKEN: U64 := 2

  /** The child, in client_communicate: at the head of its loop, in the read of eventfd_wait, or
      about to write back the value it has read. */
  datatype Client = CHead | CReading | CReturning(stored: U64) | CDone

  /** The parent, in server_communicate. */
  datatype Server = SHead | SReading | SReturning(stored: U64) | SNotifying | SDone

  datatype State = State(count: int, counter: U64, client: Client, remaining: int, server: Server, message: int)

  datatype Action = CNotify | CFinish | CRead | CWriteBack | SEnter | SFinish | SRead | SWriteBack | SNotify

  /** A write blocks when the counter would exceed 2^64 - 2. */
  predicate CanWrite(counter: U64, value: U64) { counter + value <= 0xffff_ffff_ffff_fffe }

  function Step(s: State, a: Action): Option<State> {
    match a
    case CNotify =>
      if s.client == CHead && s.remaining > 0 && CanWrite(s.counter, SERVER_TOKEN) then
        Some(s.(counter := s.counter + SERVER_TOKEN, client := CReading))
      else None
    case CFinish =>
      if s.client == CHead && s.remaining <= 0 then Some(s.(client := CDone)) else None
    case CRead =>
      if s.client == CReading && s.counter != 0 then
        if s.counter == CLIENT_TOKEN then Some(s.(counter := 0, client := CHead, remaining := s.remaining - 1))
        else Some(s.(counter := 0, client := CReturning(s.counter)))
      else None
    case CWriteBack =>
      if s.client.CReturning? && CanWrite(s.counter, s.client.stored) then
        Some(s.(counter := s.counter + s.client.stored, client := CReading))
      else None
    case SEnter =>
      if s.server == SHead && s.message < s.count then Some(s.(server := SReading)) else None
    case SFinish =>
      if s.server == SHead && s.message >= s.count then Some(s.(server := SDone)) else None
    case SRead =>
      if s.server == SReading && s.counter != 0 then
        if s.counter == SERVER_TOKEN then Some(s.(counter := 0, server := SNotifying))
        else Some(s.(counter := 0, server := SReturning(s.counter)))
      else None
    case SWriteBack =>
      if s.server.SReturning? && CanWrite(s.counter, s.server.stored) then
        Some(s.(counter := s.counter + s.server.stored, server := SReading))
      else None
    case SNotify =>
      if s.server == SNotifying && CanWrite(s.counter, CLIENT_TOKEN) then
        Some(s.(counter := s.counter + CLIENT_TOKEN, server := SHead, message := s.message + 1))
      else None
  }

  // ----- The invariant -----

  function Init(count: int): State { State(count, 0, CHead, count, SHead, 0) }

  /** The rounds that the client has completed. */
  function Rounds(s: State): int { s.count - s.remaining }

  /** No token: the client is between rounds. */
  ghost predicate Idle(s: State) {
    && (s.client == CHead || s.client == CDone) && s.counter == 0 && s.message == Rounds(s)
    && (s.server == SHead || s.server == SReading || s.server == SDone)
  }

  /** The server's token is in the counter, or in the client's hands on its way back. */
  ghost predicate Requested(s: State) {
    && s.message == Rounds(s) && (s.server == SHead || s.server == SReading)
    && ((s.client == CReading && s.counter == SERVER_TOKEN) || (s.client == CReturning(SERVER_TOKEN) && s.counter == 0))
  }

  /** The server has taken its token and has not yet written the answer. */
  ghost predicate Accepted(s: State) {
    s.message == Rounds(s) && s.client == CReading && s.server == SNotifying && s.counter == 0
  }

  /** The client's token is in the counter, or in the server's hands on its way back. */
  ghost predicate Answered(s: State) {
    && s.message == Rounds(s) + 1 && s.client == CReading
    && (|| ((s.server == SHead || s.server == SReading || s.server == SDone) && s.counter == CLIENT_TOKEN)
        || (s.server == SReturning(CLIENT_TOKEN) && s.counter == 0))
  }

  ghost predicate Inv(s: State) {
    && (if s.count > 0 then 0 <= s.remaining <= s.count else s.remaining == s.count)
    && (s.client == CDone ==> s.remaining <= 0)
    && (s.client == CReading || s.client.CReturning? ==> s.remaining > 0)
    && (s.server == SDone ==> s.message >= s.count)
    && (s.server == SReading || s.server.SReturning? || s.server == SNotifying ==> s.message < s.count)
    && (Idle(s) || Requested(s) || Accepted(s) || Answered(s))
  }

  predicate InClient(a: Action) { a == CNotify || a == CFinish || a == CRead || a == CWriteBack }

  lemma ClientKeeps(s: State, a: Action)
    requires Inv(s) && InClient(a) && Step(s, a).Some?
    ensures Inv(Step(s, a).value)
  {
  }

  lemma ServerKeeps(s: State, a: Action)
    requires Inv(s) && !InClient(a) && Step(s, a).Some?
    ensures Inv(Step(s, a).value)
  {
  }

  lemma StepKeeps(s: State, a: Action)
    requires Inv(s) && Step(s, a).Some?
    ensures Inv(Step(s, a).value)
  {
    if InClient(a) { ClientKeeps(s, a); } else { ServerKeeps(s, a); }
  }

  lemma InvInRuns(count: int, schedule: seq<Action>)
    ensures Exec(Step, Init(count), schedule).Some? ==> Inv(Exec(Step, Init(count), schedule).value)
  {
    forall s, a | Inv(s) && Step(s, a).Some? ensures Inv(Step(s, a).value) {
      StepKeeps(s, a);
    }
    Invariance(Step, Inv, Init(count), schedule);
  }

  // ----- Token conservation -----

  /** The token that the client writes next, 0 when it does not write next. */
  function ClientHolds(s: State): nat {
    match s.client
    case CHead => if s.remaining > 0 then SERVER_TOKEN else 0
    case CReturning(stored) => stored
    case _ => 0
  }

  function ServerHolds(s: State): nat {
    match s.server
    case SReturning(stored) => stored
    case SNotifying => CLIENT_TOKEN
    case _ => 0
  }

  /** The token that the protocol is at: the client's once the server has accepted the request,
      the server's before that, and none when the client has no rounds left. */
  function Current(s: State): nat {
    if s.remaining <= 0 then 0 else if s.server == SNotifying || s.message > Rounds(s) then 2 else 1
  }

  /** Exactly one token exists until the client is through: in the counter, or about to be written
      by one side.  So tokens never merge, and whoever reads one reads it unaltered.  A write never
      waits for room, and the two sides stay within a round of each other. */
  ghost predicate OneToken(s: State) {
    && s.counter + ClientHolds(s) + ServerHolds(s) == Current(s)
    && (s.counter == 0 || ClientHolds(s) == 0) && (s.counter == 0 || ServerHolds(s) == 0)
    && (ClientHolds(s) == 0 || ServerHolds(s) == 0)
    && s.counter <= 2 && (s.counter == 2 ==> s.message == Rounds(s) + 1)
    && (s.counter == 1 ==> s.message == Rounds(s) && s.client == CReading)
    && (s.client.CReturning? ==> s.client.stored == 1)
    && (s.server.SReturning? ==> s.server.stored == 2)
    && CanWrite(s.counter, SERVER_TOKEN) && CanWrite(s.counter, CLIENT_TOKEN)
    && Rounds(s) <= s.message <= Rounds(s) + 1
  }

  lemma TokenConservation(count: int, schedule: seq<Action>)
    ensures Exec(Step, Init(count), schedule).Some? ==> OneToken(Exec(Step, Init(count), schedule).value)
  {
    InvInRuns(count, schedule);
  }

  predicate IsRequest(a: Action) { a == CNotify }
  predicate IsAnswer(a: Action) { a == SNotify }

  function Requests(s: State): int { Rounds(s) + if s.client == CReading || s.client.CReturning? then 1 else 0 }

  lemma StepExchanges(s: State, a: Action)
    requires Step(s, a).Some?
    ensures Requests(Step(s, a).value) == Requests(s) + if IsRequest(a) then 1 else 0
    ensures Step(s, a).value.message == s.message + if IsAnswer(a) then 1 else 0
  {
  }

  /** The rounds of the two sides are the requests and the answers that the schedule has. */
  lemma RoundsAreExchanges(count: int, schedule: seq<Action>)
    requires Exec(Step, Init(count), schedule).Some?
    ensures Requests(Exec(Step, Init(count), schedule).value) == Count(IsRequest, schedule)
    ensures Exec(Step, Init(count), schedule).value.message == Count(IsAnswer, schedule)
  {
    var any := (m: State) => true;
    forall s, a | any(s) && Step(s, a).Some?
      ensures Requests(Step(s, a).value) == Requests(s) + if IsRequest(a) then 1 else 0
      ensures Step(s, a).value.message == s.message + if IsAnswer(a) then 1 else 0
    {
      StepExchanges(s, a);
    }
    Tallied(Step, IsRequest, any, Requests, Init(count), schedule);
    Tallied(Step, IsAnswer, any, (m: State) => m.message, Init(count), schedule);
  }

  /** Writing a token back puts the counter where it was before the read. */
  lemma WriteBackRestores(s: State)
    requires Inv(s)
    ensures Step(s, CRead).Some? && Step(s, CRead).value.client.CReturning? ==>
              Step(Step(s, CRead).value, CWriteBack) == Some(s)
    ensures Step(s, SRead).Some? && Step(s, SRead).value.server.SReturning? ==>
              Step(Step(s, SRead).value, SWriteBack) == Some(s)
  {
  }

  // ----- Completion -----

  predicate IsFinal(s: State) { s.client == CDone && s.server == SDone }

  /** The length of the shortest way to the end, roughly. */
  function Rank(s: State): nat {
    10 * Max(s.remaining, 0)
    + (match s.client
       case CHead => if s.remaining > 0 then 9 else 2
       case CReading => if s.counter == SERVER_TOKEN then 6 else if s.server == SNotifying then 5 else 3
       case CReturning(_) => 7
       case CDone => 1)
    + (match s.server
       case SHead => 1
       case SReturning(_) => 1
       case _ => 0)
  }

  /** A step that brings the end nearer. */
  function Forward(s: State): Action {
    if s.server == SHead then if s.message < s.count then SEnter else SFinish
    else if s.client == CHead then if s.remaining > 0 then CNotify else CFinish
    else if s.client.CReturning? then CWriteBack
    else if s.server == SNotifying then SNotify
    else if s.server.SReturning? then SWriteBack
    else if s.counter == SERVER_TOKEN then SRead
    else CRead
  }

  lemma ForwardIsEnabled(s: State)
    requires Inv(s) && !IsFinal(s)
    ensures Step(s, Forward(s)).Some?
  {
  }

  lemma ForwardLowersRank(s: State)
    requires Inv(s) && Step(s, Forward(s)).Some?
    ensures Rank(Step(s, Forward(s)).value) < Rank(s)
  {
    if Forward(s) == CRead {
      assert Answered(s);
    } else if Forward(s) == SRead {
      assert Requested(s);
    }
  }

  /** From every reachable state some continuation, linear in the rounds left, ends with both sides
      through all their rounds and the counter empty. */
  lemma Completes(count: int, schedule: seq<Action>) returns (rest: seq<Action>)
    requires Exec(Step, Init(count), schedule).Some?
    ensures |rest| <= 10 * Max(Exec(Step, Init(count), schedule).value.remaining, 0) + 10
    ensures Exec(Step, Init(count), schedule + rest).Some?
    ensures var end := Exec(Step, Init(count), schedule + rest).value;
            IsFinal(end) && end.counter == 0 && Rounds(end) == end.message == Max(count, 0)
  {
    InvInRuns(count, schedule);
    var s := Exec(Step, Init(count), schedule).value;
    rest := CompletesFrom(s);
    RankBound(s);
    ExecAppend(Step, Init(count), schedule, rest);
    CountIsKept(count, schedule + rest);
    AtTheEnd(Exec(Step, s, rest).value);
  }

  lemma RankBound(s: State)
    ensures Rank(s) <= 10 * Max(s.remaining, 0) + 10
  {
  }

  lemma CountIsKept(count: int, schedule: seq<Action>)
    ensures Exec(Step, Init(count), schedule).Some? ==> Exec(Step, Init(count), schedule).value.count == count
  {
    Invariance(Step, (m: State) => m.count == count, Init(count), schedule);
  }

  lemma AtTheEnd(s: State)
    requires Inv(s) && IsFinal(s)
    ensures s.counter == 0 && Rounds(s) == s.message == Max(s.count, 0)
  {
  }

  lemma CompletesFrom(s: State) returns (rest: seq<Action>)
    requires Inv(s)
    ensures |rest| <= Rank(s) && Exec(Step, s, rest).Some?
    ensures Inv(Exec(Step, s, rest).value) && IsFinal(Exec(Step, s, rest).value)
  {
    var any := (a: Action) => true;
    forall m | Inv(m) && !IsFinal(m)
      ensures exists a :: any(a) && Step(m, a).Some? && Inv(Step(m, a).value) && Rank(Step(m, a).value) < Rank(m)
    {
      assert any(Forward(m));
      ForwardIsEnabled(m);
      ForwardLowersRank(m);
      StepKeeps(m, Forward(m));
    }
    rest := Completable(Step, any, Inv, IsFinal, Rank, s);
  }

  /** The client reading its own announcement and writing it back, n times over. */
  function Bounces(n: nat): seq<Action> {
    if n == 0 then [] else Bounces(n - 1) + [CRead, CWriteBack]
  }

  /** The client may read back its own announcement for ever.  For every n there is a run with n
      such rounds of the wait loop and no progress. */
  lemma {:induction false} CanSpinForEver(count: int, n: nat)
    requires count > 0
    ensures Exec(Step, Init(count), [CNotify] + Bounces(n)) == Exec(Step, Init(count), [CNotify])
    ensures Exec(Step, Init(count), [CNotify]).Some? && !IsFinal(Exec(Step, Init(count), [CNotify]).value)
  {
    ExecOne(Step, Init(count), CNotify);
    if n == 0 {
      assert [CNotify] + Bounces(0) == [CNotify];
    } else {
      CanSpinForEver(count, n - 1);
      var s := Step(Init(count), CNotify).value;
      ExecTwo(Step, s, CRead, CWriteBack);
      ExecAppend(Step, Init(count), [CNotify] + Bounces(n - 1), [CRead, CWriteBack]);
      assert [CNotify] + Bounces(n) == [CNotify] + Bounces(n - 1) + [CRead, CWriteBack];
    }
  }

  // ----- What completion depends on -----

  predicate IsWriteBack(a: Action) { a == CWriteBack || a == SWriteBack }
  predicate IsAdvance(a: Action) { !IsWriteBack(a) }

  /** An upper bound on the steps left if nothing more is written back; a write-back raises it by
      one at most. */
  function Potential(s: State): nat {
    10 * Max(s.remaining, 0)
    + (match s.client
       case CHead => if s.remaining > 0 then 19 else 12
       case CReading => if s.counter == SERVER_TOKEN then 17 else if s.server == SNotifying then 15 else 13
       case CReturning(_) => 16
       case CDone => 11)
    + (match s.server
       case SHead => 2
       case SReading => 1
       case SNotifying => 1
       case SReturning(_) => 0
       case SDone => 0)
  }

  lemma PotentialFalls(s: State, a: Action)
    requires Inv(s) && Step(s, a).Some?
    ensures Potential(Step(s, a).value) + (if IsAdvance(a) then 1 else 0) <=
            Potential(s) + (if IsWriteBack(a) then 1 else 0)
  {
  }

  /** Writing back is all that can put the end off: a run has at most 10 * count + 21 steps and two
      for each write-back, and if it cannot be continued both sides are through. */
  lemma OnlyWriteBacksDelay(count: int, schedule: seq<Action>)
    requires Exec(Step, Init(count), schedule).Some?
    ensures |schedule| <= 10 * Max(count, 0) + 21 + 2 * Count(IsWriteBack, schedule)
    ensures var s := Exec(Step, Init(count), schedule).value;
            IsFinal(s) || exists a :: Step(s, a).Some?
  {
    forall s, a | Inv(s) && Step(s, a).Some?
      ensures Inv(Step(s, a).value)
      ensures Potential(Step(s, a).value) + (if IsAdvance(a) then 1 else 0) <=
              Potential(s) + (if IsWriteBack(a) then 1 else 0)
    {
      StepKeeps(s, a);
      PotentialFalls(s, a);
    }
    Amortized(Step, (a: Action) => true, IsAdvance, IsWriteBack, Inv, Potential, Init(count), schedule);
    CountSplits(IsAdvance, IsWriteBack, schedule);
    var s := Exec(Step, Init(count), schedule).value;
    if !IsFinal(s) { ForwardIsEnabled(s); }
  }

  ghost predicate NoRunLonger(count: int, bound: nat) {
    forall schedule :: Exec(Step, Init(count), schedule).Some? ==> |schedule| <= bound
  }

  /** No schedule can go on for ever. */
  ghost predicate CompletionIsForced(count: int) {
    exists bound: nat :: NoRunLonger(count, bound)
  }

  lemma {:induction false} BouncesLength(n: nat)
    ensures |Bounces(n)| == 2 * n
  {
    if n > 0 { BouncesLength(n - 1); }
  }

  /** Without rounds, all that is left to do is to leave the two loops. */
  ghost predicate Leaving(s: State) { Inv(s) && s.count <= 0 }

  function LoopsLeft(s: State): nat { (if s.client == CHead then 1 else 0) + (if s.server == SHead then 1 else 0) }

  lemma NothingToExchange(s: State)
    requires Leaving(s)
    ensures s.remaining <= 0 && s.message >= s.count
    ensures (s.client == CHead || s.client == CDone) && (s.server == SHead || s.server == SDone)
  {
  }

  lemma LeavesLoop(s: State, a: Action)
    requires s.count <= 0 && s.remaining <= 0 && s.message >= s.count && Step(s, a).Some?
    requires (s.client == CHead || s.client == CDone) && (s.server == SHead || s.server == SDone)
    ensures Step(s, a).value.count <= 0 && LoopsLeft(Step(s, a).value) < LoopsLeft(s)
  {
  }

  lemma NoRounds(count: int, schedule: seq<Action>)
    requires count <= 0
    ensures Exec(Step, Init(count), schedule).Some? ==> |schedule| <= 2
  {
    var any := (a: Action) => true;
    forall m, a | Leaving(m) && any(a) && Step(m, a).Some?
      ensures Leaving(Step(m, a).value) && LoopsLeft(Step(m, a).value) < LoopsLeft(m)
    {
      StepKeeps(m, a);
      NothingToExchange(m);
      LeavesLoop(m, a);
    }
    Bounded(Step, any, Leaving, LoopsLeft, Init(count), schedule);
  }

  /** The exact condition: completion is forced if and only if there is nothing to exchange. */
  lemma ForcedOnlyWithoutRounds(count: int)
    ensures CompletionIsForced(count) <==> count <= 0
  {
    if count <= 0 {
      forall schedule ensures Exec(Step, Init(count), schedule).Some? ==> |schedule| <= 2 {
        NoRounds(count, schedule);
      }
      assert NoRunLonger(count, 2);
    } else {
      forall bound: nat ensures !NoRunLonger(count, bound) {
        CanSpinForEver(count, bound);
        BouncesLength(bound);
      }
    }
  }
}
