/** Runs of a nondeterministic program, each given by the schedule of actions that produced it.

    A program is a partial step function: `step(s, a)` is the state after action `a`, or None
    when `a` is not enabled in `s`.  Every protocol of this project is such a function, with one
    action per atomic memory access; a schedule is then one interleaving of its threads. */
module Runs {

  datatype Option<+T> = None | Some(value: T)

  /** The state reached by a whole schedule, or None when one of its actions was not enabled. */
  function Exec<S, A>(step: (S, A) -> Option<S>, s: S, schedule: seq<A>): Option<S> {
    if schedule == [] then Some(s)
    else
      var last := |schedule| - 1;
      match Exec(step, s, schedule[..last])
      case None => None
      case Some(mid) => step(mid, schedule[last])
  }

  /** An inductive invariant holds at the end of every schedule. */
  lemma {:induction false} Invariance<S(!new), A(!new)>(
    step: (S, A) -> Option<S>, inv: S -> bool, s: S, schedule: seq<A>)
    requires inv(s)
    requires forall m, a :: inv(m) && step(m, a).Some? ==> inv(step(m, a).value)
    ensures Exec(step, s, schedule).Some? ==> inv(Exec(step, s, schedule).value)
  {
    if schedule != [] {
      Invariance(step, inv, s, schedule[..|schedule| - 1]);
    }
  }

  /** The same for schedules that are restricted to `allowed` actions. */
  lemma {:induction false} Maintained<S(!new), A(!new)>(
    step: (S, A) -> Option<S>, allowed: A -> bool, inv: S -> bool, s: S, schedule: seq<A>)
    requires inv(s) && forall a :: a in schedule ==> allowed(a)
    requires forall m, a :: inv(m) && allowed(a) && step(m, a).Some? ==> inv(step(m, a).value)
    ensures Exec(step, s, schedule).Some? ==> inv(Exec(step, s, schedule).value)
  {
    if schedule != [] {
      var front, a := schedule[..|schedule| - 1], schedule[|schedule| - 1];
      Maintained(step, allowed, inv, s, front);
      assert allowed(a);
    }
  }

  /** What the actions of a schedule contribute, in order: the readings of a clock, say. */
  ghost function Trace<A, T>(of: A -> seq<T>, schedule: seq<A>): seq<T> {
    if schedule == [] then []
    else Trace(of, schedule[..|schedule| - 1]) + of(schedule[|schedule| - 1])
  }

  /** A history that every step extends by the contribution of its action is the trace. */
  lemma {:induction false} Recorded<S(!new), A(!new), T>(
    step: (S, A) -> Option<S>, history: S -> seq<T>, of: A -> seq<T>, s: S, schedule: seq<A>)
    requires forall m, a :: step(m, a).Some? ==> history(step(m, a).value) == history(m) + of(a)
    ensures Exec(step, s, schedule).Some? ==>
              history(Exec(step, s, schedule).value) == history(s) + Trace(of, schedule)
  {
    if schedule != [] {
      var front, a := schedule[..|schedule| - 1], schedule[|schedule| - 1];
      Recorded(step, history, of, s, front);
      if Exec(step, s, schedule).Some? {
        var mid := Exec(step, s, front).value;
        assert step(mid, a).Some?;
        assert history(s) + (Trace(of, front) + of(a)) == (history(s) + Trace(of, front)) + of(a);
      }
    }
  }

  /** When each step that `counts` lowers the rank, a schedule of such steps is no longer than the
      rank of the state it starts in. */
  lemma {:induction false} Bounded<S(!new), A(!new)>(
    step: (S, A) -> Option<S>, counts: A -> bool, inv: S -> bool, rank: S -> nat, s: S, schedule: seq<A>)
    requires inv(s) && forall a :: a in schedule ==> counts(a)
    requires forall m, a :: inv(m) && counts(a) && step(m, a).Some? ==>
                              inv(step(m, a).value) && rank(step(m, a).value) < rank(m)
    ensures Exec(step, s, schedule).Some? ==>
              inv(Exec(step, s, schedule).value) &&
              rank(Exec(step, s, schedule).value) + |schedule| <= rank(s)
  {
    if schedule != [] {
      var front, a := schedule[..|schedule| - 1], schedule[|schedule| - 1];
      Bounded(step, counts, inv, rank, s, front);
      if Exec(step, s, schedule).Some? {
        var mid := Exec(step, s, front).value;
        assert counts(a) && step(mid, a).Some?;
      }
    }
  }

  /** The actions of a schedule that belong to `which`. */
  ghost function Count<A>(which: A -> bool, schedule: seq<A>): nat {
    if schedule == [] then 0
    else Count(which, schedule[..|schedule| - 1]) + (if which(schedule[|schedule| - 1]) then 1 else 0)
  }

  /** When steps that `work` lower the potential, steps that `undo` raise it by at most one, and no
      other step raises it, the work of a run is bounded by the potential plus what was undone. */
  lemma {:induction false} Amortized<S(!new), A(!new)>(
    step: (S, A) -> Option<S>, allowed: A -> bool, work: A -> bool, undo: A -> bool,
    inv: S -> bool, potential: S -> nat, s: S, schedule: seq<A>)
    requires inv(s) && forall a :: a in schedule ==> allowed(a)
    requires forall m, a :: inv(m) && allowed(a) && step(m, a).Some? ==>
                              && inv(step(m, a).value)
                              && potential(step(m, a).value) + (if work(a) then 1 else 0) <=
                                 potential(m) + (if undo(a) then 1 else 0)
    ensures Exec(step, s, schedule).Some? ==>
              && inv(Exec(step, s, schedule).value)
              && potential(Exec(step, s, schedule).value) + Count(work, schedule) <=
                 potential(s) + Count(undo, schedule)
  {
    if schedule != [] {
      var front, a := schedule[..|schedule| - 1], schedule[|schedule| - 1];
      Amortized(step, allowed, work, undo, inv, potential, s, front);
      if Exec(step, s, schedule).Some? {
        var mid := Exec(step, s, front).value;
        assert allowed(a) && step(mid, a).Some?;
      }
    }
  }

  /** A quantity that `gains` raise by one, `losses` lower by one, and nothing else changes. */
  lemma {:induction false} Balanced<S(!new), A(!new)>(
    step: (S, A) -> Option<S>, gains: A -> bool, losses: A -> bool,
    inv: S -> bool, value: S -> int, s: S, schedule: seq<A>)
    requires inv(s)
    requires forall m, a :: inv(m) && step(m, a).Some? ==>
                              && inv(step(m, a).value)
                              && value(step(m, a).value) ==
                                 value(m) + (if gains(a) then 1 else 0) - (if losses(a) then 1 else 0)
    ensures Exec(step, s, schedule).Some? ==>
              && inv(Exec(step, s, schedule).value)
              && value(Exec(step, s, schedule).value) == value(s) + Count(gains, schedule) - Count(losses, schedule)
  {
    if schedule != [] {
      var front, a := schedule[..|schedule| - 1], schedule[|schedule| - 1];
      Balanced(step, gains, losses, inv, value, s, front);
      if Exec(step, s, schedule).Some? {
        var mid := Exec(step, s, front).value;
        assert inv(mid) && step(mid, a).Some?;
      }
    }
  }

  lemma {:induction false} CountSplits<A(!new)>(which: A -> bool, others: A -> bool, schedule: seq<A>)
    requires forall a :: which(a) <==> !others(a)
    ensures Count(which, schedule) + Count(others, schedule) == |schedule|
  {
    if schedule != [] { CountSplits(which, others, schedule[..|schedule| - 1]); }
  }

  lemma {:induction false} CountNone<A>(which: A -> bool, schedule: seq<A>)
    requires forall a :: a in schedule ==> !which(a)
    ensures Count(which, schedule) == 0
  {
    if schedule != [] { CountNone(which, schedule[..|schedule| - 1]); }
  }

  /** A quantity that counts the `gains`. */
  lemma Tallied<S(!new), A(!new)>(
    step: (S, A) -> Option<S>, gains: A -> bool, inv: S -> bool, value: S -> int, s: S, schedule: seq<A>)
    requires inv(s)
    requires forall m, a :: inv(m) && step(m, a).Some? ==>
                              && inv(step(m, a).value)
                              && value(step(m, a).value) == value(m) + (if gains(a) then 1 else 0)
    ensures Exec(step, s, schedule).Some? ==>
              value(Exec(step, s, schedule).value) == value(s) + Count(gains, schedule)
  {
    var never := (a: A) => false;
    Balanced(step, gains, never, inv, value, s, schedule);
    CountNone(never, schedule);
  }

  /** Running one schedule after another. */
  lemma {:induction false} ExecAppend<S, A>(
    step: (S, A) -> Option<S>, s: S, first: seq<A>, second: seq<A>)
    requires Exec(step, s, first).Some?
    ensures Exec(step, s, first + second) == Exec(step, Exec(step, s, first).value, second)
  {
    if second == [] {
      assert first + second == first;
    } else {
      var all, last := first + second, |second| - 1;
      assert all[..|all| - 1] == first + second[..last];
      ExecAppend(step, s, first, second[..last]);
    }
  }

  lemma ExecTwo<S, A>(step: (S, A) -> Option<S>, s: S, a: A, b: A)
    requires step(s, a).Some?
    ensures Exec(step, s, [a, b]) == step(step(s, a).value, b)
  {
    ExecOne(step, s, a);
    assert [a, b][..1] == [a];
  }

  /** When every state that is not final has an allowed step that lowers the rank, some schedule of
      allowed steps, no longer than the rank, ends in a final state. */
  lemma {:induction false} Completable<S(!new), A(!new)>(
    step: (S, A) -> Option<S>, allowed: A -> bool, inv: S -> bool, final: S -> bool, rank: S -> nat, s: S)
    returns (schedule: seq<A>)
    requires inv(s)
    requires forall m :: inv(m) && !final(m) ==>
                           exists a :: allowed(a) && step(m, a).Some? &&
                                       inv(step(m, a).value) && rank(step(m, a).value) < rank(m)
    ensures |schedule| <= rank(s) && forall a :: a in schedule ==> allowed(a)
    ensures Exec(step, s, schedule).Some?
    ensures inv(Exec(step, s, schedule).value) && final(Exec(step, s, schedule).value)
    decreases rank(s)
  {
    if final(s) {
      schedule := [];
    } else {
      var a :| allowed(a) && step(s, a).Some? && inv(step(s, a).value) && rank(step(s, a).value) < rank(s);
      var rest := Completable(step, allowed, inv, final, rank, step(s, a).value);
      schedule := [a] + rest;
      ExecOne(step, s, a);
      ExecAppend(step, s, [a], rest);
    }
  }

  lemma ExecOne<S, A>(step: (S, A) -> Option<S>, s: S, a: A)
    ensures Exec(step, s, [a]) == step(s, a)
  {
    assert [a][..0] == [];
    assert Exec(step, s, []) == Some(s);
  }
}
