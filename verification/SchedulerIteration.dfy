/**
  When one iteration of the scheduler loop comes to its end: the worklist always gets drained, and what is on the lists
  then says whether the pass ends.
 */
module SchedulerIteration {
  import opened UInt64
  import opened WorkItems
  import opened ScheduleSpec
  import opened SchedulerRun
  import opened SchedulerShape
  import opened SchedulerFate

  predicate IsThrough(p: Phase)
  {
    !p.Draining? && !p.Dispatching?
  }

  /** The iteration that begins in state `s` drains the worklist and gets through the pass. */
  ghost predicate GetsThrough(s: State, env: nat -> Inputs, from: nat)
  {
    exists end: nat :: from < end && IsThrough(After(s, env, from, end).phase)
  }

  /** The number of the step that follows the start of the pass. */
  function PassFrom(s: State, from: nat): nat
  {
    from + |s.work| + 2
  }

  lemma {:induction false} StaysOver(run: nat -> State, env: nat -> Inputs, from: nat, k: nat, n: nat)
    requires IsRun(run, env, from) && from <= k <= n && (run(k).phase.Aborted? || run(k).phase.Exited?)
    ensures run(n) == run(k)
    decreases n
  {
    if k < n {
      StaysOver(run, env, from, k, n - 1);
      NextOf(run, env, from, n - 1);
    }
  }

  /** The phase of an iteration that has not got further than the start of the pass. */
  predicate UpToPass(p: Phase, now: Clocks, drained: bool)
  {
    p.Aborted? || p.Exited? || p == if drained then Dispatching(now) else Draining(now)
  }

  lemma DrainsOne(s: State, now: Clocks)
    requires s.phase == Draining(now) && s.work != []
    ensures var t := DrainOne(s, now); t.work == s.work[1..] && (t.phase == s.phase || t.phase.Aborted?)
  {
  }

  /** Draining takes one step for each item, unless an assertion fails. */
  lemma {:induction false} DrainsInTime(run: nat -> State, env: nat -> Inputs, from: nat, now: Clocks, k: nat, n: nat)
    requires IsRun(run, env, from) && from <= k <= n <= k + |run(k).work| + 1 && run(k).phase == Draining(now)
    ensures UpToPass(run(n).phase, now, n > k + |run(k).work|)
    decreases n - k
  {
    if k < n {
      NextOf(run, env, from, k);
      if run(k).work != [] {
        DrainsOne(run(k), now);
        if run(k + 1).phase.Aborted? {
          StaysOver(run, env, from, k + 1, n);
        } else {
          DrainsInTime(run, env, from, now, k + 1, n);
        }
      }
    }
  }

  /** So the pass has begun, or the run is over, when its turn comes. */
  lemma PassBegins(run: nat -> State, env: nat -> Inputs, from: nat, n: nat)
    requires IsRun(run, env, from) && run(from).phase == LoopTop && from < n <= PassFrom(run(from), from)
    ensures UpToPass(run(n).phase, run(from).clocks, n == PassFrom(run(from), from))
  {
    NextOf(run, env, from, from);
    if run(from).exiting {
      StaysOver(run, env, from, from + 1, n);
    } else {
      DrainsInTime(run, env, from, run(from).clocks, from + 1, n);
    }
  }

  lemma {:induction false} RunsKeepShape(s: State, env: nat -> Inputs, from: nat, n: nat)
    requires Shape(s)
    ensures Shape(After(s, env, from, n))
    decreases n
  {
    if from < n {
      RunsKeepShape(s, env, from, n - 1);
      StepShape(After(s, env, from, n - 1), env(n - 1));
    }
  }

  /** A pass that is over at some time has an end. */
  lemma {:induction false} EndExists(s: State, now: Clocks, env: nat -> Inputs, k: nat, n: nat)
    requires s.phase == Dispatching(now) && k < n && After(s, env, k, n).phase != Dispatching(now)
    ensures Ends(s, now, env, k)
    decreases n - k
  {
    var t := Step(s, env(k));
    AfterFirst(s, env, k, n);
    if t.phase == Dispatching(now) {
      EndExists(t, now, env, k + 1, n);
      EndsLater(s, now, env, k);
    } else {
      EndsNow(s, now, env, k);
    }
  }

  lemma EndGetsThrough(s: State, env: nat -> Inputs, from: nat, k: nat, now: Clocks)
    requires from <= k && After(s, env, from, k).phase == Dispatching(now) && Shape(After(s, env, from, k))
    requires Ends(After(s, env, from, k), now, env, k)
    ensures GetsThrough(s, env, from)
  {
    var u := After(s, env, from, k);
    var end :| PassEnds(u, now, env, k, end);
    PassEndsAsFated(u, now, env, k, end, FateOf(u.lists, now));
    AfterCompose(s, env, from, k, end);
    assert from < end && IsThrough(After(s, env, from, end).phase);
  }

  lemma LoopGetsNowhere(s: State, env: nat -> Inputs, from: nat, n: nat)
    requires s.phase == LoopTop && from < n
    requires InFate(After(s, env, from, PassFrom(s, from)), s.clocks, Loops) && HarmlessFrom(env, PassFrom(s, from))
    ensures !IsThrough(After(s, env, from, n).phase)
  {
    var k := PassFrom(s, from);
    var run := RunFrom(s, env, from);
    RunIsAfter(run, env, from, from, n);
    RunIsAfter(run, env, from, from, k);
    if n <= k {
      PassBegins(run, env, from, n);
      if run(n).phase.Aborted? || run(n).phase.Exited? {
        StaysOver(run, env, from, n, k);
      }
    } else {
      LoopsForEver(run(k), s.clocks, env, k, n);
      RunIsAfter(run, env, from, k, n);
    }
  }

  /**
    An iteration gets through exactly if an assertion fails or the controller is exiting before the pass, or the lists
    do not say that the pass loops, or a request is refused during it.
   */
  lemma GetsThroughIff(s: State, env: nat -> Inputs, from: nat)
    requires s.phase == LoopTop && Shape(s)
    ensures GetsThrough(s, env, from) <==>
            var u := After(s, env, from, PassFrom(s, from));
            || u.phase != Dispatching(s.clocks)
            || FateOf(u.lists, s.clocks) != Loops
            || !HarmlessFrom(env, PassFrom(s, from))
  {
    var k := PassFrom(s, from);
    var u := After(s, env, from, k);
    var run := RunFrom(s, env, from);
    PassBegins(run, env, from, k);
    RunIsAfter(run, env, from, from, k);
    RunsKeepShape(s, env, from, k);
    if u.phase != Dispatching(s.clocks) {
      assert IsThrough(u.phase);
    } else {
      PassEndsIffFated(u, s.clocks, env, k);
      if Ends(u, s.clocks, env, k) {
        EndGetsThrough(s, env, from, k, s.clocks);
      } else {
        LoopGetsNot(s, env, from);
      }
    }
  }

  lemma LoopGetsNot(s: State, env: nat -> Inputs, from: nat)
    requires s.phase == LoopTop
    requires InFate(After(s, env, from, PassFrom(s, from)), s.clocks, Loops) && HarmlessFrom(env, PassFrom(s, from))
    ensures !GetsThrough(s, env, from)
  {
    if end: nat :| from < end && IsThrough(After(s, env, from, end).phase) {
      LoopGetsNowhere(s, env, from, end);
    }
  }
}
