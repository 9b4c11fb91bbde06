/** The recursive fork-join sum of source/other/pthread-test.c.  A call over more than two elements
    creates a thread for the left half, calls itself on the right half and joins; a smaller one adds
    its elements to the global sum, one at a time, under a mutex.

    The running calls form a tree.  A schedule picks, step by step, the call that moves next. */
module ForkJoin {
  import opened Runs
  import opened Words

  /** The loop of a small call: its test, the lock, the load and the store of sum += array[first],
      and the unlock. */
  datatype Pc = Testing | Locking | Loading | Storing(value: int) | Unlocking

  datatype Call =
    | Entering(first: int, last: int)
    | Adding(first: int, last: int, pc: Pc)
    | Forked(left: Call, right: Call)
    | Returned

  /** The globals.  The history is the indices whose elements have been stored into the sum. */
  datatype Memory = Memory(values: seq<int>, sum: int, locked: bool, added: seq<int>)

  datatype State = State(root: Call, memory: Memory)

  /** From the root: true goes to the left half, false to the right one. */
  type Path = seq<bool>

  // An index outside the array is undefined behaviour; the invariant shows that there is none.
  function At(values: seq<int>, i: int): int { if 0 <= i < |values| then values[i] else 0 }

  /** The next step of one call.  Creating the thread and making the recursive call are one step:
      nothing can be observed in between. */
  function Move(c: Call, m: Memory): Option<(Call, Memory)> {
    match c
    case Entering(first, last) =>
      if last - first <= 2 then Some((Adding(first, last, Testing), m))
      else
        var mid := first + (last - first) / 2;
        Some((Forked(Entering(first, mid), Entering(mid, last)), m))
    case Adding(first, last, pc) =>
      (match pc
       case Testing => Some((if first < last then Adding(first, last, Locking) else Returned, m))
       case Locking => if m.locked then None else Some((Adding(first, last, Loading), m.(locked := true)))
       case Loading => Some((Adding(first, last, Storing(m.sum + At(m.values, first))), m))
       case Storing(value) => Some((Adding(first, last, Unlocking), m.(sum := value, added := m.added + [first])))
       case Unlocking => Some((Adding(first + 1, last, Testing), m.(locked := false))))
    case Forked(left, right) => if left == Returned && right == Returned then Some((Returned, m)) else None
    case Returned => None
  }

  function MoveAt(c: Call, m: Memory, path: Path): Option<(Call, Memory)>
    decreases |path|
  {
    if path == [] then Move(c, m)
    else if !c.Forked? then None
    else if path[0] then
      match MoveAt(c.left, m, path[1..])
      case None => None
      case Some((left, m')) => Some((Forked(left, c.right), m'))
    else
      match MoveAt(c.right, m, path[1..])
      case None => None
      case Some((right, m')) => Some((Forked(c.left, right), m'))
  }

  function Step(s: State, path: Path): Option<State> {
    match MoveAt(s.root, s.memory, path)
    case None => None
    case Some((root, memory)) => Some(State(root, memory))
  }

  function Init(values: seq<int>, sum: int, first: int, last: int): State {
    State(Entering(first, last), Memory(values, sum, false, []))
  }

  // ----- What is left to add -----

  function SliceSum(values: seq<int>, first: int, last: int): int
    decreases last - first
  {
    if first >= last then 0 else At(values, first) + SliceSum(values, first + 1, last)
  }

  function Indices(first: int, last: int): multiset<int>
    decreases last - first
  {
    if first >= last then multiset{} else multiset{first} + Indices(first + 1, last)
  }

  lemma {:induction false} SplitSum(values: seq<int>, first: int, mid: int, last: int)
    requires first <= mid <= last
    ensures SliceSum(values, first, last) == SliceSum(values, first, mid) + SliceSum(values, mid, last)
    decreases mid - first
  {
    if first < mid { SplitSum(values, first + 1, mid, last); }
  }

  lemma {:induction false} SplitIndices(first: int, mid: int, last: int)
    requires first <= mid <= last
    ensures Indices(first, last) == Indices(first, mid) + Indices(mid, last)
    decreases mid - first
  {
    if first < mid {
      SplitIndices(first + 1, mid, last);
      assert Indices(first, mid) == multiset{first} + Indices(first + 1, mid);
    }
  }

  /** The first index that a small call has not stored yet. */
  function From(c: Call): int
    requires c.Adding?
  {
    if c.pc == Unlocking then c.first + 1 else c.first
  }

  function PendingSum(c: Call, values: seq<int>): int {
    match c
    case Entering(first, last) => SliceSum(values, first, last)
    case Adding(_, last, _) => SliceSum(values, From(c), last)
    case Forked(left, right) => PendingSum(left, values) + PendingSum(right, values)
    case Returned => 0
  }

  function PendingIndices(c: Call): multiset<int> {
    match c
    case Entering(first, last) => Indices(first, last)
    case Adding(_, last, _) => Indices(From(c), last)
    case Forked(left, right) => PendingIndices(left) + PendingIndices(right)
    case Returned => multiset{}
  }

  // ----- The invariant -----

  /** The calls that hold the mutex. */
  function Holders(c: Call): nat {
    match c
    case Adding(_, _, pc) => if pc == Testing || pc == Locking then 0 else 1
    case Forked(left, right) => Holders(left) + Holders(right)
    case _ => 0
  }

  function Locked(m: Memory): nat { if m.locked then 1 else 0 }

  /** Indices stay inside the array, and a value about to be stored is up to date. */
  ghost predicate CallInv(c: Call, m: Memory) {
    match c
    case Entering(first, last) => 0 <= first && last <= |m.values|
    case Adding(first, last, pc) =>
      && 0 <= first && last <= |m.values| && (pc != Testing ==> first < last)
      && (pc.Storing? ==> pc.value == m.sum + At(m.values, first))
    case Forked(left, right) => CallInv(left, m) && CallInv(right, m)
    case Returned => true
  }

  /** Work done plus work left, as a sum and as indices. */
  function Total(c: Call, m: Memory): int { m.sum + PendingSum(c, m.values) }

  function AllIndices(c: Call, m: Memory): multiset<int> { multiset(m.added) + PendingIndices(c) }

  /** One step of some call within c, seen from outside: it takes or frees the mutex for itself, and
      changes the sum only while holding it. */
  ghost predicate Guarded(c: Call, m: Memory, c': Call, m': Memory) {
    && m'.values == m.values && CallInv(c', m')
    && Holders(c') + Locked(m) == Holders(c) + Locked(m')
    && (m'.sum == m.sum || Holders(c) > 0)
  }

  ghost predicate Conserved(c: Call, m: Memory, c': Call, m': Memory) {
    m'.values == m.values && Total(c', m') == Total(c, m) && AllIndices(c', m') == AllIndices(c, m)
  }

  /** An upper bound on the steps left in a call. */
  function Rank(c: Call): nat {
    match c
    case Entering(first, last) => if first >= last then 2 else 9 * (last - first) - 2
    case Adding(first, last, pc) =>
      if first >= last then 1
      else
        5 * (last - first) + (match pc
                              case Testing => 1
                              case Locking => 0
                              case Loading => -1
                              case Storing(_) => -2
                              case Unlocking => -3)
    case Forked(left, right) => 1 + Rank(left) + Rank(right)
    case Returned => 0
  }

  lemma MoveIsGuarded(c: Call, m: Memory)
    requires CallInv(c, m) && Holders(c) <= Locked(m) && Move(c, m).Some?
    ensures Guarded(c, m, Move(c, m).value.0, Move(c, m).value.1)
  {
  }

  lemma MoveConserves(c: Call, m: Memory)
    requires CallInv(c, m) && Move(c, m).Some?
    ensures Conserved(c, m, Move(c, m).value.0, Move(c, m).value.1)
  {
    if c.Entering? {
      EnterConserves(c, m);
    } else if c.Adding? && c.pc.Storing? {
      StoreConserves(c, m);
    }
  }

  lemma EnterConserves(c: Call, m: Memory)
    requires c.Entering?
    ensures Conserved(c, m, Move(c, m).value.0, Move(c, m).value.1)
  {
    if c.last - c.first > 2 {
      HalvesConserve(c.first, c.first + (c.last - c.first) / 2, c.last, m.values);
    }
  }

  lemma HalvesConserve(first: int, mid: int, last: int, values: seq<int>)
    requires first <= mid <= last
    ensures var halves := Forked(Entering(first, mid), Entering(mid, last));
            && PendingSum(halves, values) == SliceSum(values, first, last)
            && PendingIndices(halves) == Indices(first, last)
  {
    SplitSum(values, first, mid, last);
    SplitIndices(first, mid, last);
    var left, right := Entering(first, mid), Entering(mid, last);
    assert PendingSum(Forked(left, right), values) == PendingSum(left, values) + PendingSum(right, values);
    assert PendingIndices(Forked(left, right)) == PendingIndices(left) + PendingIndices(right);
  }

  lemma StoreConserves(c: Call, m: Memory)
    requires c.Adding? && c.pc.Storing? && c.first < c.last && c.pc.value == m.sum + At(m.values, c.first)
    ensures Conserved(c, m, Move(c, m).value.0, Move(c, m).value.1)
  {
    var m' := Move(c, m).value.1;
    assert multiset(m'.added) == multiset(m.added) + multiset{c.first};
    Regroup(multiset(m.added), multiset{c.first}, Indices(c.first + 1, c.last));
  }

  lemma MoveLowersRank(c: Call, m: Memory)
    requires CallInv(c, m) && Move(c, m).Some?
    ensures Rank(Move(c, m).value.0) < Rank(c)
  {
  }

  /** A call that does not hold the mutex does not mind the sum changing. */
  lemma {:induction false} OthersUndisturbed(c: Call, m: Memory, m': Memory)
    requires CallInv(c, m) && m'.values == m.values && (Holders(c) == 0 || m'.sum == m.sum)
    ensures CallInv(c, m')
  {
    if c.Forked? {
      OthersUndisturbed(c.left, m, m');
      OthersUndisturbed(c.right, m, m');
    }
  }

  lemma {:induction false} MoveAtIsGuarded(c: Call, m: Memory, path: Path)
    requires CallInv(c, m) && Holders(c) <= Locked(m) && MoveAt(c, m, path).Some?
    ensures Guarded(c, m, MoveAt(c, m, path).value.0, MoveAt(c, m, path).value.1)
    decreases |path|
  {
    if path == [] {
      MoveIsGuarded(c, m);
    } else if path[0] {
      MoveAtIsGuarded(c.left, m, path[1..]);
      OthersUndisturbed(c.right, m, MoveAt(c, m, path).value.1);
    } else {
      MoveAtIsGuarded(c.right, m, path[1..]);
      OthersUndisturbed(c.left, m, MoveAt(c, m, path).value.1);
    }
  }

  lemma {:induction false} MoveAtConserves(c: Call, m: Memory, path: Path)
    requires CallInv(c, m) && MoveAt(c, m, path).Some?
    ensures Conserved(c, m, MoveAt(c, m, path).value.0, MoveAt(c, m, path).value.1)
    decreases |path|
  {
    if path == [] {
      MoveConserves(c, m);
    } else if path[0] {
      MoveAtConserves(c.left, m, path[1..]);
      var (left, m') := MoveAt(c.left, m, path[1..]).value;
      Regroup(multiset(m.added), PendingIndices(c.left), PendingIndices(c.right));
      Regroup(multiset(m'.added), PendingIndices(left), PendingIndices(c.right));
    } else {
      MoveAtConserves(c.right, m, path[1..]);
      var (right, m') := MoveAt(c.right, m, path[1..]).value;
      Regroup(multiset(m.added), PendingIndices(c.left), PendingIndices(c.right));
      Regroup(multiset(m'.added), PendingIndices(c.left), PendingIndices(right));
    }
  }

  lemma Regroup(x: multiset<int>, y: multiset<int>, z: multiset<int>)
    ensures x + (y + z) == (x + y) + z == (x + z) + y
  {
  }

  lemma {:induction false} MoveAtLowersRank(c: Call, m: Memory, path: Path)
    requires CallInv(c, m) && MoveAt(c, m, path).Some?
    ensures Rank(MoveAt(c, m, path).value.0) < Rank(c)
    decreases |path|
  {
    if path == [] {
      MoveLowersRank(c, m);
    } else {
      MoveAtLowersRank(if path[0] then c.left else c.right, m, path[1..]);
    }
  }

  /** At most one call is inside the mutex, and exactly one when it is locked. */
  ghost predicate Inv(s: State) {
    CallInv(s.root, s.memory) && Holders(s.root) == Locked(s.memory)
  }

  lemma StepKeeps(s: State, path: Path)
    requires Inv(s) && Step(s, path).Some?
    ensures Inv(Step(s, path).value)
    ensures Conserved(s.root, s.memory, Step(s, path).value.root, Step(s, path).value.memory)
    ensures Rank(Step(s, path).value.root) < Rank(s.root)
  {
    MoveAtIsGuarded(s.root, s.memory, path);
    MoveAtConserves(s.root, s.memory, path);
    MoveAtLowersRank(s.root, s.memory, path);
  }

  // ----- Progress -----

  /** The call that holds the mutex can always go on; when none does, any unfinished call can. */
  lemma {:induction false} CanMove(c: Call, m: Memory) returns (path: Path)
    requires c != Returned && (Holders(c) > 0 || !m.locked)
    ensures MoveAt(c, m, path).Some?
    decreases c
  {
    if !c.Forked? {
      path := [];
    } else if c.left == Returned && c.right == Returned {
      path := [];
    } else if c.left != Returned && (Holders(c.left) > 0 || !m.locked) {
      var rest := CanMove(c.left, m);
      path := [true] + rest;
      assert path[1..] == rest;
    } else {
      var rest := CanMove(c.right, m);
      path := [false] + rest;
      assert path[1..] == rest;
    }
  }

  // ----- All schedules -----

  /** The sum and the indices do not depend on the schedule. */
  ghost predicate Conserves(s: State, values: seq<int>, sum: int, first: int, last: int) {
    && Inv(s) && s.memory.values == values
    && Total(s.root, s.memory) == sum + SliceSum(values, first, last)
    && AllIndices(s.root, s.memory) == Indices(first, last)
  }

  /** In every interleaving: the sum plus what is not yet added stays constant, every index is added
      once or still to be added, and at most one thread is in the critical section. */
  lemma Conservation(values: seq<int>, sum: int, first: int, last: int, schedule: seq<Path>)
    requires 0 <= first && last <= |values|
    ensures Exec(Step, Init(values, sum, first, last), schedule).Some? ==>
              var s := Exec(Step, Init(values, sum, first, last), schedule).value;
              Conserves(s, values, sum, first, last) && Holders(s.root) <= 1 &&
              |schedule| + Rank(s.root) <= Rank(Entering(first, last))
  {
    var inv := (s: State) => Conserves(s, values, sum, first, last);
    var any := (path: Path) => true;
    var rank := (s: State) => Rank(s.root);
    var init := Init(values, sum, first, last);
    assert inv(init);
    forall s, path | inv(s) && any(path) && Step(s, path).Some?
      ensures inv(Step(s, path).value) && rank(Step(s, path).value) < rank(s)
    {
      StepKeeps(s, path);
    }
    Bounded(Step, any, inv, rank, init, schedule);
  }

  /** Every schedule is finite, with at most nine steps an element, and one that cannot be continued
      has returned from the root call with the sum grown by exactly the slice, each index added
      exactly once and the mutex free. */
  lemma SumIsScheduleIndependent(values: seq<int>, sum: int, first: int, last: int, schedule: seq<Path>)
    requires 0 <= first && last <= |values|
    requires Exec(Step, Init(values, sum, first, last), schedule).Some?
    ensures |schedule| <= if first >= last then 2 else 9 * (last - first)
    ensures var s := Exec(Step, Init(values, sum, first, last), schedule).value;
            || (exists path :: Step(s, path).Some?)
            || (&& s.root == Returned && !s.memory.locked
                && s.memory.sum == sum + SliceSum(values, first, last)
                && multiset(s.memory.added) == Indices(first, last))
  {
    Conservation(values, sum, first, last, schedule);
    var s := Exec(Step, Init(values, sum, first, last), schedule).value;
    if s.root != Returned {
      var path := CanMove(s.root, s.memory);
      assert Step(s, path).Some?;
    }
  }

  // ----- The width of sum -----

  /** Every value that a call is about to store. */
  ghost predicate StoresWithin(c: Call, low: int, high: int) {
    match c
    case Adding(_, _, Storing(value)) => low <= value <= high
    case Forked(left, right) => StoresWithin(left, low, high) && StoresWithin(right, low, high)
    case _ => true
  }

  /** How far one element moves the sum upwards, or downwards. */
  function Toward(up: bool, x: int): int { if up then x else -x }

  /** The furthest that a loop over a range moves the sum that way, at any time on its way. */
  function LoopSwing(up: bool, values: seq<int>, first: int, last: int): nat
    decreases last - first
  {
    if first >= last then 0 else Max(0, Toward(up, At(values, first)) + LoopSwing(up, values, first + 1, last))
  }

  /** The furthest that a call does: its two halves may both be at their furthest at once. */
  function Swing(up: bool, values: seq<int>, first: int, last: int): nat
    decreases last - first
  {
    if last - first <= 2 then LoopSwing(up, values, first, last)
    else
      var mid := first + (last - first) / 2;
      Swing(up, values, first, mid) + Swing(up, values, mid, last)
  }

  /** The swing that is left in a running call. */
  function SwingLeft(up: bool, c: Call, values: seq<int>): nat {
    match c
    case Entering(first, last) => Swing(up, values, first, last)
    case Adding(_, last, _) => LoopSwing(up, values, From(c), last)
    case Forked(left, right) => SwingLeft(up, left, values) + SwingLeft(up, right, values)
    case Returned => 0
  }

  /** The furthest that the sum can still get. */
  function Reach(up: bool, c: Call, m: Memory): int { Toward(up, m.sum) + SwingLeft(up, c, m.values) }

  lemma MoveLowersReach(up: bool, c: Call, m: Memory)
    requires CallInv(c, m) && Move(c, m).Some?
    ensures Reach(up, Move(c, m).value.0, Move(c, m).value.1) <= Reach(up, c, m)
    ensures Move(c, m).value.1.values == m.values
  {
    if c.Entering? { EnterKeepsReach(up, c, m); } else if c.Adding? { LoopLowersReach(up, c, m); }
  }

  lemma EnterKeepsReach(up: bool, c: Call, m: Memory)
    requires c.Entering?
    ensures Move(c, m).value.1 == m && SwingLeft(up, Move(c, m).value.0, m.values) == SwingLeft(up, c, m.values)
  {
    if c.last - c.first > 2 {
      var mid := c.first + (c.last - c.first) / 2;
      assert Move(c, m).value.0 == Forked(Entering(c.first, mid), Entering(mid, c.last));
    }
  }

  lemma LoopLowersReach(up: bool, c: Call, m: Memory)
    requires c.Adding? && CallInv(c, m) && Move(c, m).Some?
    ensures Reach(up, Move(c, m).value.0, Move(c, m).value.1) <= Reach(up, c, m)
    ensures Move(c, m).value.1.values == m.values
  {
    if c.pc.Storing? { ElementReaches(up, m.values, c.first, c.last); }
  }

  lemma ElementReaches(up: bool, values: seq<int>, first: int, last: int)
    requires first < last
    ensures Toward(up, At(values, first)) + LoopSwing(up, values, first + 1, last) <= LoopSwing(up, values, first, last)
  {
  }

  lemma {:induction false} MoveAtLowersReach(up: bool, c: Call, m: Memory, path: Path)
    requires CallInv(c, m) && MoveAt(c, m, path).Some?
    ensures Reach(up, MoveAt(c, m, path).value.0, MoveAt(c, m, path).value.1) <= Reach(up, c, m)
    ensures MoveAt(c, m, path).value.1.values == m.values
    decreases |path|
  {
    if path == [] {
      MoveLowersReach(up, c, m);
    } else {
      MoveAtLowersReach(up, if path[0] then c.left else c.right, m, path[1..]);
    }
  }

  lemma {:induction false} StoresInReach(c: Call, m: Memory)
    requires CallInv(c, m)
    ensures StoresWithin(c, m.sum - SwingLeft(false, c, m.values), m.sum + SwingLeft(true, c, m.values))
  {
    if c.Forked? {
      StoresInReach(c.left, m);
      StoresInReach(c.right, m);
      var low, high := m.sum - SwingLeft(false, c, m.values), m.sum + SwingLeft(true, c, m.values);
      WiderBounds(c.left, m.sum - SwingLeft(false, c.left, m.values), m.sum + SwingLeft(true, c.left, m.values),
                  low, high);
      WiderBounds(c.right, m.sum - SwingLeft(false, c.right, m.values), m.sum + SwingLeft(true, c.right, m.values),
                  low, high);
    }
  }

  lemma {:induction false} WiderBounds(c: Call, low: int, high: int, lower: int, higher: int)
    requires StoresWithin(c, low, high) && lower <= low && high <= higher
    ensures StoresWithin(c, lower, higher)
  {
    if c.Forked? {
      WiderBounds(c.left, low, high, lower, higher);
      WiderBounds(c.right, low, high, lower, higher);
    }
  }

  /** The sum, and every value about to be stored in it. */
  ghost predicate Within(s: State, low: int, high: int) {
    low <= s.memory.sum <= high && StoresWithin(s.root, low, high)
  }

  /** No schedule moves the sum further than the swing. */
  lemma SwingBounds(values: seq<int>, sum: int, first: int, last: int, schedule: seq<Path>)
    requires 0 <= first && last <= |values|
    ensures Exec(Step, Init(values, sum, first, last), schedule).Some? ==>
              Within(Exec(Step, Init(values, sum, first, last), schedule).value,
                     sum - Swing(false, values, first, last), sum + Swing(true, values, first, last))
  {
    var low, high := sum - Swing(false, values, first, last), sum + Swing(true, values, first, last);
    var inv := (s: State) =>
      && Inv(s) && s.memory.values == values
      && Reach(true, s.root, s.memory) <= high && Reach(false, s.root, s.memory) <= -low;
    var init := Init(values, sum, first, last);
    assert inv(init);
    forall s, path | inv(s) && Step(s, path).Some? ensures inv(Step(s, path).value) {
      StepKeeps(s, path);
      MoveAtLowersReach(true, s.root, s.memory, path);
      MoveAtLowersReach(false, s.root, s.memory, path);
    }
    Invariance(Step, inv, init, schedule);
    if Exec(Step, init, schedule).Some? {
      var s := Exec(Step, init, schedule).value;
      StoresInReach(s.root, s.memory);
      WiderBounds(s.root, s.memory.sum - SwingLeft(false, s.root, values),
                  s.memory.sum + SwingLeft(true, s.root, values), low, high);
    }
  }

  /** The schedule of a half, seen from the whole. */
  function Under(side: bool, schedule: seq<Path>): (r: seq<Path>)
    ensures |r| == |schedule|
  {
    seq(|schedule|, i requires 0 <= i < |schedule| => [side] + schedule[i])
  }

  lemma {:induction false} LeftRuns(left: Call, right: Call, m: Memory, schedule: seq<Path>)
    requires Exec(Step, State(left, m), schedule).Some?
    ensures var end := Exec(Step, State(left, m), schedule).value;
            Exec(Step, State(Forked(left, right), m), Under(true, schedule)) ==
            Some(State(Forked(end.root, right), end.memory))
  {
    if schedule != [] {
      var front := schedule[..|schedule| - 1];
      LeftRuns(left, right, m, front);
      assert Under(true, schedule)[..|schedule| - 1] == Under(true, front);
      assert Under(true, schedule)[|schedule| - 1][1..] == schedule[|schedule| - 1];
    }
  }

  lemma {:induction false} RightRuns(left: Call, right: Call, m: Memory, schedule: seq<Path>)
    requires Exec(Step, State(right, m), schedule).Some?
    ensures var end := Exec(Step, State(right, m), schedule).value;
            Exec(Step, State(Forked(left, right), m), Under(false, schedule)) ==
            Some(State(Forked(left, end.root), end.memory))
  {
    if schedule != [] {
      var front := schedule[..|schedule| - 1];
      RightRuns(left, right, m, front);
      assert Under(false, schedule)[..|schedule| - 1] == Under(false, front);
      assert Under(false, schedule)[|schedule| - 1][1..] == schedule[|schedule| - 1];
    }
  }

  /** The schedule from a free mutex to a free mutex moves the sum by `swing`. */
  ghost predicate Moves(up: bool, c: Call, m: Memory, schedule: seq<Path>, swing: int) {
    match Exec(Step, State(c, m), schedule)
    case None => false
    case Some(end) =>
      && !end.memory.locked && end.memory.values == m.values
      && Toward(up, end.memory.sum) == Toward(up, m.sum) + swing
  }

  /** One turn of the loop of a small call. */
  lemma AddsOne(first: int, last: int, m: Memory) returns (turn: seq<Path>)
    requires first < last && !m.locked
    ensures Exec(Step, State(Adding(first, last, Testing), m), turn) ==
            Some(State(Adding(first + 1, last, Testing),
                       m.(sum := m.sum + At(m.values, first), added := m.added + [first])))
  {
    turn := [[], [], [], [], []];
    var s0 := State(Adding(first, last, Testing), m);
    ExecTwo(Step, s0, [], []);
    var s2 := Exec(Step, s0, [[], []]).value;
    ExecTwo(Step, s2, [], []);
    var s4 := Exec(Step, s2, [[], []]).value;
    ExecOne(Step, s4, []);
    ExecAppend(Step, s0, [[], []], [[], []]);
    ExecAppend(Step, s0, [[], []] + [[], []], [[]]);
    assert turn == [[], []] + [[], []] + [[]];
  }

  lemma {:induction false} LoopReaches(up: bool, first: int, last: int, m: Memory) returns (schedule: seq<Path>)
    requires !m.locked
    ensures Moves(up, Adding(first, last, Testing), m, schedule, LoopSwing(up, m.values, first, last))
    decreases last - first
  {
    schedule := [];
    if LoopSwing(up, m.values, first, last) > 0 {
      var s := State(Adding(first, last, Testing), m);
      var turn := AddsOne(first, last, m);
      var s' := Exec(Step, s, turn).value;
      var rest := LoopReaches(up, first + 1, last, s'.memory);
      ExecAppend(Step, s, turn, rest);
      schedule := turn + rest;
    }
  }

  lemma {:induction false} CallReaches(up: bool, first: int, last: int, m: Memory) returns (schedule: seq<Path>)
    requires !m.locked
    ensures Moves(up, Entering(first, last), m, schedule, Swing(up, m.values, first, last))
    decreases last - first
  {
    var s := State(Entering(first, last), m);
    ExecOne(Step, s, []);
    var rest;
    if last - first <= 2 {
      rest := LoopReaches(up, first, last, m);
    } else {
      var mid := first + (last - first) / 2;
      rest := HalvesReach(up, first, mid, last, m);
    }
    ExecAppend(Step, s, [[]], rest);
    schedule := [[]] + rest;
  }

  lemma HalvesReach(up: bool, first: int, mid: int, last: int, m: Memory) returns (schedule: seq<Path>)
    requires !m.locked && first < mid < last
    ensures Moves(up, Forked(Entering(first, mid), Entering(mid, last)), m, schedule,
                  Swing(up, m.values, first, mid) + Swing(up, m.values, mid, last))
    decreases last - first, 0
  {
    var left, right := Entering(first, mid), Entering(mid, last);
    var one := CallReaches(up, first, mid, m);
    LeftRuns(left, right, m, one);
    var half := Exec(Step, State(left, m), one).value;
    var two := CallReaches(up, mid, last, half.memory);
    RightRuns(half.root, right, half.memory, two);
    ExecAppend(Step, State(Forked(left, right), m), Under(true, one), Under(false, two));
    schedule := Under(true, one) + Under(false, two);
  }

  /** No schedule leaves the range from low to high. */
  ghost predicate NeverLeaves(values: seq<int>, sum: int, first: int, last: int, low: int, high: int) {
    forall schedule ::
      Exec(Step, Init(values, sum, first, last), schedule).Some? ==>
        Within(Exec(Step, Init(values, sum, first, last), schedule).value, low, high)
  }

  /** The exact condition for a sum of limited width, such as the source's int: no schedule leaves
      its range if and only if the two swings stay inside. */
  lemma WidthSuffices(values: seq<int>, sum: int, first: int, last: int, low: int, high: int)
    requires 0 <= first && last <= |values|
    ensures NeverLeaves(values, sum, first, last, low, high) <==>
            low <= sum - Swing(false, values, first, last) && sum + Swing(true, values, first, last) <= high
  {
    var init := Init(values, sum, first, last);
    if low <= sum - Swing(false, values, first, last) && sum + Swing(true, values, first, last) <= high {
      forall schedule
        ensures Exec(Step, init, schedule).Some? ==> Within(Exec(Step, init, schedule).value, low, high)
      {
        SwingBounds(values, sum, first, last, schedule);
        if Exec(Step, init, schedule).Some? {
          var s := Exec(Step, init, schedule).value;
          WiderBounds(s.root, sum - Swing(false, values, first, last), sum + Swing(true, values, first, last),
                      low, high);
        }
      }
    } else {
      var highest := CallReaches(true, first, last, init.memory);
      var lowest := CallReaches(false, first, last, init.memory);
    }
  }

  lemma {:induction false} SliceSumMonotone(values: seq<int>, first: int, last: int)
    requires forall i :: 0 <= i < |values| ==> values[i] >= 0
    ensures SliceSum(values, first, last) >= 0
    ensures LoopSwing(true, values, first, last) == SliceSum(values, first, last)
    ensures LoopSwing(false, values, first, last) == 0
    decreases last - first
  {
    if first < last { SliceSumMonotone(values, first + 1, last); }
  }

  lemma {:induction false} SwingOfNaturals(values: seq<int>, first: int, last: int)
    requires forall i :: 0 <= i < |values| ==> values[i] >= 0
    ensures Swing(true, values, first, last) == SliceSum(values, first, last)
    ensures Swing(false, values, first, last) == 0
    decreases last - first
  {
    if last - first <= 2 {
      SliceSumMonotone(values, first, last);
    } else {
      var mid := first + (last - first) / 2;
      SwingOfNaturals(values, first, mid);
      SwingOfNaturals(values, mid, last);
      SplitSum(values, first, mid, last);
    }
  }

  lemma {:induction false} NoneGoesDown(c: Call, values: seq<int>)
    requires forall i :: 0 <= i < |values| ==> values[i] >= 0
    ensures SwingLeft(false, c, values) == 0
  {
    match c
    case Entering(first, last) => SwingOfNaturals(values, first, last);
    case Adding(first, last, _) => SliceSumMonotone(values, From(c), last);
    case Forked(left, right) =>
      NoneGoesDown(left, values);
      NoneGoesDown(right, values);
    case Returned =>
  }

  lemma {:induction false} TighterBounds(c: Call, low: int, high: int, lower: int, higher: int)
    requires StoresWithin(c, low, higher) && StoresWithin(c, lower, high)
    ensures StoresWithin(c, low, high)
  {
    if c.Forked? {
      TighterBounds(c.left, low, high, lower, higher);
      TighterBounds(c.right, low, high, lower, higher);
    }
  }

  /** With no negative elements, the sum and every value about to be stored in it stay between the
      first and the last sum, and no store lowers it: no schedule overflows an int that the result
      fits. */
  lemma NoScheduleOverflows(values: seq<int>, sum: int, first: int, last: int, schedule: seq<Path>)
    requires 0 <= first && last <= |values| && forall i :: 0 <= i < |values| ==> values[i] >= 0
    ensures Exec(Step, Init(values, sum, first, last), schedule).Some? ==>
              var s := Exec(Step, Init(values, sum, first, last), schedule).value;
              var end := sum + SliceSum(values, first, last);
              Within(s, sum, end) && StoresWithin(s.root, s.memory.sum, end)
  {
    SwingBounds(values, sum, first, last, schedule);
    SwingOfNaturals(values, first, last);
    Conservation(values, sum, first, last, schedule);
    if Exec(Step, Init(values, sum, first, last), schedule).Some? {
      var s := Exec(Step, Init(values, sum, first, last), schedule).value;
      StoresInReach(s.root, s.memory);
      NoneGoesDown(s.root, values);
      TighterBounds(s.root, s.memory.sum, sum + SliceSum(values, first, last),
                    sum, s.memory.sum + SwingLeft(true, s.root, values));
    }
  }

  /** The program's own array and call. */
  const ARRAY: seq<int> := [1, 2, 3, 4, 5, 6, 7, 8, 9, 10]

  lemma ArraySum()
    ensures SliceSum(ARRAY, 0, 10) == 55
  {
    assert SliceSum(ARRAY, 5, 10) == 40;
  }

  /** recursive_add: in every schedule the sum goes from 0 to 55 and never leaves that range. */
  lemma RecursiveAdd(values: seq<int>, schedule: seq<Path>)
    requires values == ARRAY && Exec(Step, Init(values, 0, 0, |values|), schedule).Some?
    ensures var s := Exec(Step, Init(values, 0, 0, |values|), schedule).value;
            Within(s, 0, 55) && ((exists path :: Step(s, path).Some?) || (s.root == Returned && s.memory.sum == 55))
  {
    ArraySum();
    NoScheduleOverflows(values, 0, 0, |values|, schedule);
    SumIsScheduleIndependent(values, 0, 0, |values|, schedule);
  }
}
