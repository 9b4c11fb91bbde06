/** The bidirectional user-interrupt benchmark of source/uintrfd/uintrfd-bi.c: two threads of one
    process set up a receiver each, exchange file descriptors through two globals, and then take
    turns sending each other a user interrupt.

    A receiver's handler sets that receiver's flag; the thread spins on the flag and then stores 0
    over it, in two separate accesses.  A posted interrupt stays pending until its receiver has
    enabled interrupts and is not in the handler, which suspends the thread. */
module PingPong {
  import opened Runs
  import opened Words

  datatype Side = Client | Server

  datatype Handler = Off | Entered | Stored

  /** Set-up (register and publish, await the peer's descriptor, register as its sender, enable
      interrupts), then the loop (its test, the spin, the store of 0, the send). */
  datatype Pc =
    | Registering | AwaitingPeer | AddingSender | Enabling
    | Head | Spinning | Clearing | Sending | Done

  /** A thread and the interrupt state of its receiver.  `round` is the loop variable: `loop` of
      the client counts down from the count, `message` of the server counts up to it. */
  datatype Thread = Thread(
    pc: Pc, round: int, published: bool, sender: bool, enabled: bool,
    pending: bool, handler: Handler, flag: bool)

  datatype State = State(count: int, client: Thread, server: Thread)

  datatype Op =
    | Publish | SeePeer | AddSender | Stui
    | Test | SeeFlag | ClearFlag | Post
    | Deliver | StoreFlag | Return

  datatype Action = Action(side: Side, op: Op)

  /** One step of a thread or its handler, which may change the peer's pending bit. */
  function Act(side: Side, count: int, me: Thread, peer: Thread, op: Op): Option<(Thread, Thread)> {
    match op
    // The hardware and ui_handler.
    case Deliver =>
      if me.pending && me.enabled && me.handler == Off then
        Some((me.(pending := false, handler := Entered), peer))
      else None
    case StoreFlag =>
      if me.handler == Entered then Some((me.(flag := true, handler := Stored), peer)) else None
    case Return =>
      if me.handler == Stored then Some((me.(handler := Off), peer)) else None
    // setup_client, setup_server.
    case Publish =>
      if me.handler == Off && me.pc == Registering then
        Some((me.(published := true, pc := AwaitingPeer), peer))
      else None
    case SeePeer =>
      if me.handler == Off && me.pc == AwaitingPeer && peer.published then
        Some((me.(pc := AddingSender), peer))
      else None
    case AddSender =>
      if me.handler == Off && me.pc == AddingSender then Some((me.(sender := true, pc := Enabling), peer)) else None
    case Stui =>
      if me.handler == Off && me.pc == Enabling then Some((me.(enabled := true, pc := Head), peer)) else None
    // client_communicate, server_communicate.
    case Test =>
      if me.handler == Off && me.pc == Head then
        var next :=
          match side
          case Client => if me.round > 0 then Spinning else Done
          case Server => if me.round < count then Sending else Done;
        Some((me.(pc := next), peer))
      else None
    case SeeFlag =>
      if me.handler == Off && me.pc == Spinning && me.flag then Some((me.(pc := Clearing), peer)) else None
    case ClearFlag =>
      if me.handler == Off && me.pc == Clearing then
        match side
        case Client => Some((me.(flag := false, pc := Sending), peer))
        case Server => Some((me.(flag := false, pc := Head, round := me.round + 1), peer))
      else None
    case Post =>
      if me.handler == Off && me.pc == Sending then
        match side
        case Client => Some((me.(pc := Head, round := me.round - 1), peer.(pending := true)))
        case Server => Some((me.(pc := Spinning), peer.(pending := true)))
      else None
  }

  function Step(s: State, a: Action): Option<State> {
    match a.side
    case Client =>
      (match Act(Client, s.count, s.client, s.server, a.op)
       case None => None
       case Some((me, peer)) => Some(s.(client := me, server := peer)))
    case Server =>
      (match Act(Server, s.count, s.server, s.client, a.op)
       case None => None
       case Some((me, peer)) => Some(s.(server := me, client := peer)))
  }

  function Fresh(round: int): Thread { Thread(Registering, round, false, false, false, false, Off, false) }

  function Init(count: int): State { State(count, Fresh(count), Fresh(0)) }

  // ----- The invariant -----

  predicate InSetup(t: Thread) {
    t.pc == Registering || t.pc == AwaitingPeer || t.pc == AddingSender || t.pc == Enabling
  }

  /** Notifications for a receiver that its thread has not consumed: posted, being handled, or
      flagged. */
  function Unseen(t: Thread): nat {
    (if t.pending then 1 else 0) + (if t.handler == Entered then 1 else 0) + (if t.flag then 1 else 0)
  }

  function Rounds(s: State): int { s.count - s.client.round }

  ghost predicate SetupInv(t: Thread, peer: Thread) {
    && (t.published <==> t.pc != Registering)
    && (t.sender <==> t.pc != Registering && t.pc != AwaitingPeer && t.pc != AddingSender)
    && (t.enabled <==> !InSetup(t))
    && (t.pc != Registering && t.pc != AwaitingPeer ==> peer.published)
    && (!t.enabled ==> t.handler == Off && !t.flag)
    && (t.handler == Stored ==> t.flag)
    && (t.pc == Clearing ==> t.flag)
  }

  ghost predicate RoundsInv(s: State) {
    && (if s.count > 0 then 0 <= s.client.round <= s.count && 0 <= s.server.round <= s.count
        else s.client.round == s.count && s.server.round == 0)
    && (s.client.pc == Spinning || s.client.pc == Clearing || s.client.pc == Sending ==> s.client.round > 0)
    && (s.server.pc == Spinning || s.server.pc == Clearing || s.server.pc == Sending ==> s.server.round < s.count)
    && (s.client.pc == Done ==> s.client.round <= 0)
    && (s.server.pc == Done ==> s.server.round >= s.count)
  }

  ghost predicate Resting(t: Thread) { InSetup(t) || t.pc == Head || t.pc == Spinning || t.pc == Done }

  /** Where the one notification is. */
  ghost predicate Baton(s: State) {
    if s.server.pc == Spinning || s.server.pc == Clearing then
      // on its way to the client
      || (&& Unseen(s.client) == 1 && Unseen(s.server) == 0 && s.server.round == Rounds(s)
          && s.client.pc != Sending && s.client.pc != Done)
      // between the client's store of 0 and its send
      || (Unseen(s.client) == 0 && Unseen(s.server) == 0 && s.server.round == Rounds(s) && s.client.pc == Sending)
      // on its way to the server
      || (&& Unseen(s.client) == 0 && Unseen(s.server) == 1 && s.server.round + 1 == Rounds(s)
          && !InSetup(s.client) && Resting(s.client))
    else
      // not sent yet
      && Unseen(s.client) == 0 && Unseen(s.server) == 0 && s.server.round == Rounds(s) && Resting(s.client)
  }

  ghost predicate Inv(s: State) {
    SetupInv(s.client, s.server) && SetupInv(s.server, s.client) && RoundsInv(s) && Baton(s)
  }

  predicate InHandler(op: Op) { op == Deliver || op == StoreFlag || op == Return }
  predicate InLoop(op: Op) { op == Test || op == SeeFlag || op == ClearFlag || op == Post }

  lemma ClientKeeps(s: State, op: Op)
    requires Inv(s) && Step(s, Action(Client, op)).Some?
    ensures Inv(Step(s, Action(Client, op)).value)
  {
    if InHandler(op) {
      ClientHandlerKeeps(s, op);
    } else if InLoop(op) {
      ClientLoopKeeps(s, op);
    } else {
      ClientSetupKeeps(s, op);
    }
  }

  lemma ClientHandlerKeeps(s: State, op: Op)
    requires Inv(s) && InHandler(op) && Step(s, Action(Client, op)).Some?
    ensures Inv(Step(s, Action(Client, op)).value)
  {
  }

  lemma ClientSetupKeeps(s: State, op: Op)
    requires Inv(s) && !InHandler(op) && !InLoop(op) && Step(s, Action(Client, op)).Some?
    ensures Inv(Step(s, Action(Client, op)).value)
  {
  }

  lemma ClientLoopKeeps(s: State, op: Op)
    requires Inv(s) && InLoop(op) && Step(s, Action(Client, op)).Some?
    ensures Inv(Step(s, Action(Client, op)).value)
  {
  }

  lemma ServerKeeps(s: State, op: Op)
    requires Inv(s) && Step(s, Action(Server, op)).Some?
    ensures Inv(Step(s, Action(Server, op)).value)
  {
    if InHandler(op) {
      ServerHandlerKeeps(s, op);
    } else if InLoop(op) {
      ServerLoopKeeps(s, op);
    } else {
      ServerSetupKeeps(s, op);
    }
  }

  lemma ServerHandlerKeeps(s: State, op: Op)
    requires Inv(s) && InHandler(op) && Step(s, Action(Server, op)).Some?
    ensures Inv(Step(s, Action(Server, op)).value)
  {
  }

  lemma ServerSetupKeeps(s: State, op: Op)
    requires Inv(s) && !InHandler(op) && !InLoop(op) && Step(s, Action(Server, op)).Some?
    ensures Inv(Step(s, Action(Server, op)).value)
  {
  }

  lemma ServerLoopKeeps(s: State, op: Op)
    requires Inv(s) && InLoop(op) && Step(s, Action(Server, op)).Some?
    ensures Inv(Step(s, Action(Server, op)).value)
  {
  }

  lemma StepKeeps(s: State, a: Action)
    requires Inv(s) && Step(s, a).Some?
    ensures Inv(Step(s, a).value)
  {
    match a.side
    case Client => ClientKeeps(s, a.op);
    case Server => ServerKeeps(s, a.op);
  }

  lemma InvInRuns(count: int, schedule: seq<Action>)
    ensures Exec(Step, Init(count), schedule).Some? ==> Inv(Exec(Step, Init(count), schedule).value)
  {
    forall s, a | Inv(s) && Step(s, a).Some? ensures Inv(Step(s, a).value) {
      StepKeeps(s, a);
    }
    Invariance(Step, Inv, Init(count), schedule);
  }

  // ----- Safety of all runs -----

  /** The store of 0 erases the one notification that the spin has seen, and nothing else. */
  ghost predicate ClearsOnlySeen(t: Thread) {
    t.pc == Clearing ==> t.flag && !t.pending && t.handler != Entered
  }

  /** A send goes through a registered index to a registered receiver for which nothing is pending
      or flagged, so that no two notifications merge. */
  ghost predicate SendsSafely(t: Thread, peer: Thread) {
    t.pc == Sending ==> t.sender && peer.published && Unseen(peer) == 0
  }

  /** Before its receiver has enabled interrupts, a notification stays pending. */
  ghost predicate HeldUntilEnabled(t: Thread) { !t.enabled ==> t.handler == Off && !t.flag }

  ghost predicate NoneLost(s: State) {
    && HeldUntilEnabled(s.client) && HeldUntilEnabled(s.server)
    && Unseen(s.client) + Unseen(s.server) <= 1
    && ClearsOnlySeen(s.client) && ClearsOnlySeen(s.server)
    && SendsSafely(s.client, s.server) && SendsSafely(s.server, s.client)
    && 0 <= Rounds(s) - s.server.round <= 1
  }

  lemma NoNotificationLost(count: int, schedule: seq<Action>)
    ensures Exec(Step, Init(count), schedule).Some? ==> NoneLost(Exec(Step, Init(count), schedule).value)
  {
    InvInRuns(count, schedule);
  }

  /** While its handler runs, a thread stands still. */
  lemma HandlerSuspends(s: State, a: Action)
    requires Step(s, a).Some?
    ensures s.client.handler != Off ==> Step(s, a).value.client.pc == s.client.pc
    ensures s.server.handler != Off ==> Step(s, a).value.server.pc == s.server.pc
  {
  }

  // ----- What becomes of each notification -----

  predicate ServerPosts(a: Action) { a == Action(Server, Post) }
  predicate ServerClears(a: Action) { a == Action(Server, ClearFlag) }
  predicate ClientPosts(a: Action) { a == Action(Client, Post) }
  predicate ClientClears(a: Action) { a == Action(Client, ClearFlag) }

  function Tally(which: bool): int { if which then 1 else 0 }

  lemma StepBalances(s: State, a: Action)
    requires Inv(s) && Step(s, a).Some?
    ensures var s' := Step(s, a).value;
            && Unseen(s'.client) == Unseen(s.client) + Tally(ServerPosts(a)) - Tally(ClientClears(a))
            && Unseen(s'.server) == Unseen(s.server) + Tally(ClientPosts(a)) - Tally(ServerClears(a))
            && Rounds(s') == Rounds(s) + Tally(ClientPosts(a))
            && s'.server.round == s.server.round + Tally(ServerClears(a))
  {
    match a.side
    case Client => ClientBalances(s, a.op);
    case Server => ServerBalances(s, a.op);
  }

  lemma ClientBalances(s: State, op: Op)
    requires Inv(s) && Step(s, Action(Client, op)).Some?
    ensures var s' := Step(s, Action(Client, op)).value;
            && Unseen(s'.client) == Unseen(s.client) - Tally(op == ClearFlag)
            && Unseen(s'.server) == Unseen(s.server) + Tally(op == Post)
            && Rounds(s') == Rounds(s) + Tally(op == Post) && s'.server.round == s.server.round
  {
  }

  lemma ServerBalances(s: State, op: Op)
    requires Inv(s) && Step(s, Action(Server, op)).Some?
    ensures var s' := Step(s, Action(Server, op)).value;
            && Unseen(s'.client) == Unseen(s.client) + Tally(op == Post)
            && Unseen(s'.server) == Unseen(s.server) - Tally(op == ClearFlag)
            && Rounds(s') == Rounds(s) && s'.server.round == s.server.round + Tally(op == ClearFlag)
  {
  }

  /** In every run the notifications sent to a side are those that it has cleared and those that it
      has not seen yet; and a round is one notification each way. */
  lemma {:induction false} NotificationsBalance(count: int, schedule: seq<Action>)
    ensures Exec(Step, Init(count), schedule).Some? ==>
              var s := Exec(Step, Init(count), schedule).value;
              && Count(ServerPosts, schedule) == Count(ClientClears, schedule) + Unseen(s.client)
              && Count(ClientPosts, schedule) == Count(ServerClears, schedule) + Unseen(s.server)
              && Rounds(s) == Count(ClientPosts, schedule) && s.server.round == Count(ServerClears, schedule)
  {
    if schedule != [] && Exec(Step, Init(count), schedule).Some? {
      var front := schedule[..|schedule| - 1];
      NotificationsBalance(count, front);
      InvInRuns(count, front);
      StepBalances(Exec(Step, Init(count), front).value, schedule[|schedule| - 1]);
    }
  }

  // ----- All runs end -----

  function SetupRank(pc: Pc): nat {
    match pc
    case Registering => 4
    case AwaitingPeer => 3
    case AddingSender => 2
    case Enabling => 1
    case _ => 0
  }

  function SignalRank(t: Thread): nat {
    (if t.pending then 3 else 0) + (match t.handler case Off => 0 case Entered => 2 case Stored => 1)
  }

  function ClientRank(s: State): nat {
    8 * Max(s.client.round, 0) + SetupRank(s.client.pc) + SignalRank(s.client)
    + (match s.client.pc
       case Spinning => 2
       case Clearing => 1
       case Sending => 0
       case Done => 0
       case _ => 3)
  }

  function ServerRank(s: State): nat {
    8 * Max(s.count - s.server.round, 0) + SetupRank(s.server.pc) + SignalRank(s.server)
    + (match s.server.pc
       case Sending => 5
       case Spinning => 1
       case Clearing => 0
       case Done => 0
       case _ => 6)
  }

  /** Every step of either thread or of the hardware lowers this. */
  function Rank(s: State): nat { ClientRank(s) + ServerRank(s) }

  lemma ClientLowersRank(s: State, op: Op)
    requires RoundsInv(s) && Step(s, Action(Client, op)).Some?
    requires op == Post ==> !s.server.pending
    ensures Rank(Step(s, Action(Client, op)).value) < Rank(s)
  {
  }

  lemma ServerLowersRank(s: State, op: Op)
    requires RoundsInv(s) && Step(s, Action(Server, op)).Some?
    requires op == Post ==> !s.client.pending
    ensures Rank(Step(s, Action(Server, op)).value) < Rank(s)
  {
  }

  lemma RankDecreases(s: State, a: Action)
    requires Inv(s) && Step(s, a).Some?
    ensures Rank(Step(s, a).value) < Rank(s)
  {
    match a.side
    case Client => ClientLowersRank(s, a.op);
    case Server => ServerLowersRank(s, a.op);
  }

  /** Both threads are through all rounds, and no notification is left over. */
  ghost predicate IsFinal(s: State) {
    && s.client.pc == Done && s.server.pc == Done
    && s.client.handler == Off && s.server.handler == Off
    && Unseen(s.client) == 0 && Unseen(s.server) == 0
    && s.server.round == Rounds(s) == Max(s.count, 0)
  }

  /** The next thing for a thread or its handler to do, if that is possible now. */
  function Next(t: Thread): Op {
    match t.handler
    case Entered => StoreFlag
    case Stored => Return
    case Off =>
      if t.pending && t.enabled then Deliver
      else
        match t.pc
        case Registering => Publish
        case AwaitingPeer => SeePeer
        case AddingSender => AddSender
        case Enabling => Stui
        case Head => Test
        case Spinning => SeeFlag
        case Clearing => ClearFlag
        case Sending => Post
        case Done => Test
  }

  /** Neither the set-up nor the exchange can get stuck. */
  lemma NeverStuck(s: State)
    requires Inv(s)
    ensures IsFinal(s) || Step(s, Action(Client, Next(s.client))).Some? || Step(s, Action(Server, Next(s.server))).Some?
  {
  }

  /** Whatever the schedule: it has at most 16 * count + 17 steps, and when it cannot be continued
      both threads have finished exactly `count` rounds with all flags and pending bits clear. */
  lemma AllRunsFinish(count: int, schedule: seq<Action>)
    requires Exec(Step, Init(count), schedule).Some?
    ensures |schedule| <= 16 * Max(count, 0) + 17
    ensures var s := Exec(Step, Init(count), schedule).value;
            s.count == count && (IsFinal(s) || exists a :: Step(s, a).Some?)
  {
    Invariance(Step, (m: State) => m.count == count, Init(count), schedule);
    var any := (a: Action) => true;
    forall m, a | Inv(m) && any(a) && Step(m, a).Some?
      ensures Inv(Step(m, a).value) && Rank(Step(m, a).value) < Rank(m)
    {
      StepKeeps(m, a);
      RankDecreases(m, a);
    }
    Bounded(Step, any, Inv, Rank, Init(count), schedule);
    NeverStuck(Exec(Step, Init(count), schedule).value);
  }
}
