/**
  One scheduler pass: in which order it dispatches, and that it terminates.
 */
module SchedulerOrder {
  import opened UInt64
  import opened WorkItems
  import opened ScheduleSpec
  import opened SchedulerRun
  import opened SchedulerShape
  import opened SchedulerExactness

  predicate IsStuck(x: Item, q: Queue, now: Clocks)
  {
    Due(x, q, now) && Periodic(x.trigger) && !PeriodFits(x, now)
  }

  /** A due periodic item whose re-arming wraps around is on some list. */
  ghost predicate Stuck(l: Lists, now: Clocks)
  {
    exists q: Queue, x :: x in l.Get(q) && IsStuck(x, q, now)
  }

  /**
    While a pass dispatches, what it has dispatched followed by what is still due is what was due when
    it began; when it is over, it has dispatched exactly that.
   */
  ghost predicate PassOrdered(s: State)
  {
    match s.phase
    case Dispatching(now) =>
      Stuck(s.lists, now) || s.log.passLog + DueAll(s.lists, now) == DueAll(s.log.passStart, now)
    case Informing(now) => s.log.passLog == DueAll(s.log.passStart, now)
    case _ => true
  }

  // ----- one dispatch, seen from the lists

  /** The lists after dispatching `x`, which has been taken off the head of its list. */
  function Redo(x: Item, rest: Lists, now: Clocks): Result<Lists>
  {
    if Periodic(x.trigger) then Place(rest, x, now) else Ok(rest)
  }

  lemma DispatchLists(s: State, x: Item, rest: Lists, now: Clocks, requests: seq<Request>)
    requires s.phase == Dispatching(now)
    ensures var t := DispatchOne(s, x, rest, now, requests);
            && (t.phase == s.phase || t.phase.Aborted?)
            && (Running(t) ==>
                  && Redo(x, rest, now).Ok? && t.lists == Redo(x, rest, now).value
                  && t.log.passLog == s.log.passLog + [x] && t.log.passStart == s.log.passStart)
  {
    EnqueueAllFrame(s.(lists := rest), requests);
    EnqueueAllFault(s.(lists := rest), requests);
    var s1 := EnqueueAll(s.(lists := rest), requests);
    FireFrame(s1, x, now);
    PlaceItemFrame(Fire(s1, x, now), x, now);
  }

  lemma PlaceElements(l: Lists, x: Item, now: Clocks)
    requires Place(l, x, now).Ok?
    ensures var y, l' := Rearm(x, now).value, Place(l, x, now).value;
            && y in l'.Get(Route(y.trigger))
            && forall q: Queue, z :: z in l'.Get(q) <==> (z == y && q == Route(y.trigger)) || z in l.Get(q)
  {
    InsertElements(l.Get(Route(x.trigger)), Rearm(x, now).value);
  }

  /** A stuck item stays stuck whatever is dispatched. */
  lemma StuckStays(l: Lists, now: Clocks)
    requires Valid(l) && Stuck(l, now) && ReadyEvent(l, now).Found?
    ensures var r := ReadyEvent(l, now); Redo(r.item, r.rest, now).Ok? ==> Stuck(Redo(r.item, r.rest, now).value, now)
  {
    var r := ReadyEvent(l, now);
    FoundBelongs(l, now);
    var p: Queue :| Belongs(r.item, p) && l.Get(p) != [] && l.Get(p)[0] == r.item && IsReady(r.item, p, now)
                    && r.rest == l.Set(p, l.Get(p)[1..]);
    var q: Queue, x :| x in l.Get(q) && IsStuck(x, q, now);
    assert x in r.rest.Get(q) || (q == p && x == r.item);
    if Redo(r.item, r.rest, now).Ok? {
      var l' := Redo(r.item, r.rest, now).value;
      if Periodic(r.item.trigger) {
        PlaceElements(r.rest, r.item, now);
        if x !in r.rest.Get(q) {
          UnfitIsStuck(r.rest, r.item, now);
        } else {
          assert x in l'.Get(q);
        }
      }
    }
  }

  /** Putting back a periodic item whose re-arming wraps leaves it due, hence stuck. */
  lemma UnfitIsStuck(l: Lists, x: Item, now: Clocks)
    requires Periodic(x.trigger) && x.period > 0 && !PeriodFits(x, now) && Place(l, x, now).Ok?
    ensures Stuck(Place(l, x, now).value, now)
  {
    RearmIsFutureIffFits(x, now);
    PlaceElements(l, x, now);
    assert IsStuck(Rearm(x, now).value, Route(x.trigger), now);
  }

  /** Without a stuck item, none arises and the due items lose their first. */
  lemma FreeStays(l: Lists, now: Clocks)
    requires Valid(l) && !Stuck(l, now) && ReadyEvent(l, now).Found?
    ensures var r := ReadyEvent(l, now);
            && Redo(r.item, r.rest, now).Ok?
            && !Stuck(Redo(r.item, r.rest, now).value, now)
            && DueAll(l, now) == [r.item] + DueAll(Redo(r.item, r.rest, now).value, now)
  {
    var r := ReadyEvent(l, now);
    ReadyIsFirstDue(l, now);
    FoundBelongs(l, now);
    var p: Queue :| Belongs(r.item, p) && l.Get(p) != [] && l.Get(p)[0] == r.item && IsReady(r.item, p, now)
                    && r.rest == l.Set(p, l.Get(p)[1..]);
    assert r.item in l.Get(p) && Due(r.item, p, now);
    assert !IsStuck(r.item, p, now);
    RestIsFree(l, now, p);
    if Periodic(r.item.trigger) {
      FittingRearmStaysFree(r.rest, r.item, now);
    }
  }

  lemma RestIsFree(l: Lists, now: Clocks, p: Queue)
    requires !Stuck(l, now) && l.Get(p) != []
    ensures !Stuck(l.Set(p, l.Get(p)[1..]), now)
  {
    var rest := l.Set(p, l.Get(p)[1..]);
    forall q: Queue, z | z in rest.Get(q) ensures !IsStuck(z, q, now) {
      assert z in l.Get(q);
    }
  }

  lemma FittingRearmStaysFree(l: Lists, x: Item, now: Clocks)
    requires !Stuck(l, now) && Periodic(x.trigger) && x.period > 0 && PeriodFits(x, now)
    ensures Place(l, x, now).Ok? && !Stuck(Place(l, x, now).value, now)
    ensures DueAll(Place(l, x, now).value, now) == DueAll(l, now)
  {
    PlaceKeepsDue(l, x, now);
    FittingIsFree(l, x, now);
  }

  lemma FittingIsFree(l: Lists, x: Item, now: Clocks)
    requires !Stuck(l, now) && Periodic(x.trigger) && x.period > 0 && PeriodFits(x, now)
    ensures Place(l, x, now).Ok? && !Stuck(Place(l, x, now).value, now)
  {
    RearmIsFutureIffFits(x, now);
    PlaceElements(l, x, now);
    var y, l' := Rearm(x, now).value, Place(l, x, now).value;
    forall q: Queue, z | z in l'.Get(q) ensures !IsStuck(z, q, now) {
      assert z in l.Get(q) ==> !IsStuck(z, q, now);
    }
  }

  // ----- steps

  lemma DispatchOrdered(s: State, now: Clocks, requests: seq<Request>)
    requires s.phase == Dispatching(now) && Shape(s) && PassOrdered(s) && ReadyEvent(s.lists, now).Found?
    ensures var r := ReadyEvent(s.lists, now); PassOrdered(DispatchOne(s, r.item, r.rest, now, requests))
  {
    var r := ReadyEvent(s.lists, now);
    var t := DispatchOne(s, r.item, r.rest, now, requests);
    DispatchLists(s, r.item, r.rest, now, requests);
    if Running(t) {
      if Stuck(s.lists, now) {
        StuckStays(s.lists, now);
      } else {
        FreeStays(s.lists, now);
        ShiftFirst(s.log.passLog, r.item, DueAll(t.lists, now));
      }
    }
  }

  lemma ShiftFirst(a: seq<Item>, x: Item, b: seq<Item>)
    ensures a + ([x] + b) == a + [x] + b
  {
  }

  lemma EndOrdered(s: State, now: Clocks)
    requires s.phase == Dispatching(now) && Shape(s) && PassOrdered(s) && ReadyEvent(s.lists, now) == Nothing
    ensures PassOrdered(s.(phase := Informing(now)))
  {
    NothingReadyNothingDue(s.lists, now);
    ReadyIsFirstDue(s.lists, now);
    assert !Stuck(s.lists, now);
  }

  lemma StepOrdered(s: State, e: Inputs)
    requires Shape(s) && PassOrdered(s)
    ensures PassOrdered(Step(s, e))
  {
    match s.phase
    case Draining(now) =>
      if s.work != [] {
        DrainOrdered(s, now);
      }
    case Dispatching(now) => DispatchingOrdered(s, now, e);
    case _ => QuietOrdered(s, e);
  }

  lemma DispatchingOrdered(s: State, now: Clocks, e: Inputs)
    requires s.phase == Dispatching(now) && Shape(s) && PassOrdered(s)
    ensures PassOrdered(Step(s, e))
  {
    match ReadyEvent(s.lists, now)
    case Nothing => EndOrdered(s, now);
    case Found(x, rest) => DispatchOrdered(s, now, e.requests);
    case Overdue(q) =>
  }

  lemma QuietOrdered(s: State, e: Inputs)
    requires !s.phase.Draining? && !s.phase.Dispatching? && PassOrdered(s)
    ensures PassOrdered(Step(s, e))
  {
    QuietStep(s, e);
  }

  lemma DrainOrdered(s: State, now: Clocks)
    requires s.phase == Draining(now) && s.work != []
    ensures PassOrdered(DrainOne(s, now))
  {
    if Clears(s.work[0]).None? {
      PlaceItemFrame(TakenOff(s, now), s.work[0], now);
    }
  }

  lemma NextOrdered(run: nat -> State, env: nat -> Inputs, from: nat, n: nat)
    requires IsRun(run, env, from) && from < n && Shape(run(n - 1)) && PassOrdered(run(n - 1))
    ensures PassOrdered(run(n))
  {
    NextOf(run, env, from, n - 1);
    FollowsOrdered(run(n - 1), env(n - 1), run(n));
  }

  lemma FollowsOrdered(s: State, e: Inputs, t: State)
    requires Shape(s) && PassOrdered(s) && t == Step(s, e)
    ensures PassOrdered(t)
  {
    StepOrdered(s, e);
  }

  lemma {:induction false} OrderedAlong(run: nat -> State, env: nat -> Inputs, from: nat, n: nat)
    requires IsRun(run, env, from) && from <= n && Shape(run(from)) && Timing(run(from)) && PassOrdered(run(from))
    ensures PassOrdered(run(n))
    decreases n
  {
    if from < n {
      OrderedAlong(run, env, from, n - 1);
      StandingAlong(run, env, from, n - 1);
      NextOrdered(run, env, from, n);
    }
  }

  lemma RunsOrdered(s: State, env: nat -> Inputs, from: nat, end: nat)
    requires Shape(s) && Timing(s) && PassOrdered(s)
    ensures PassOrdered(After(s, env, from, end))
  {
    if from < end {
      var run := RunFrom(s, env, from);
      OrderedAlong(run, env, from, end);
      RunIsAfter(run, env, from, from, end);
    }
  }

  /**
    Over every run, a pass that ends has dispatched exactly the items that were due when it began to
    dispatch: list by list (cycle, nanosecond, instruction, macro-instruction, packet), and within a
    list in list order.
   */
  lemma PassDispatchesTheDueItemsInOrder(clocks: Clocks, markers: u64, brk: bool, requests: seq<Request>,
                                         env: nat -> Inputs, n: nat)
    ensures var s := After(Initial(clocks, markers, brk, requests), env, 0, n);
            s.phase.Informing? ==> s.log.passLog == DueAll(s.log.passStart, s.phase.now)
  {
    var s0 := State(LoopTop, [], EMPTY, clocks, markers, true, false, brk, 0, NO_HISTORY);
    EnqueueAllFault(s0, requests);
    InitialTiming(clocks, markers, brk, requests);
    RunsOrdered(Initial(clocks, markers, brk, requests), env, 0, n);
  }

  /** The due items of a list are in time order, immediate items at time 0. */
  lemma DueOnIsOrdered(l: Lists, q: Queue, now: Clocks)
    requires Valid(l)
    ensures Sorted(DueOn(l, q, now))
    ensures forall x :: x in DueOn(l, q, now) <==> x in l.Get(q) && Due(x, q, now)
    ensures forall x :: x in DueOn(l, q, now) && x.trigger == Now ==> x.time == 0
  {
    var due := (x: Item) => Due(x, q, now);
    assert ListValid(l.Get(q), q);
    FilterSorted(l.Get(q), due);
    FilterElements(l.Get(q), due);
  }

  // ----- termination

  predicate PassOver(f: Phase, now: Clocks)
  {
    f == Informing(now) || f.Aborted?
  }

  /** Without a stuck item the pass is over after one step for each due item and one more. */
  lemma {:induction false} PassTerminates(s: State, now: Clocks, env: nat -> Inputs, k: nat, due: nat)
    requires s.phase == Dispatching(now) && Shape(s) && !Stuck(s.lists, now) && due == |DueAll(s.lists, now)|
    ensures exists end :: k < end <= k + due + 1 && PassOver(After(s, env, k, end).phase, now)
    decreases due
  {
    var t := Step(s, env(k));
    AfterFirst(s, env, k, k + 1);
    assert After(t, env, k + 1, k + 1) == t;
    StepShape(s, env(k));
    ReadyIsFirstDue(s.lists, now);
    if ReadyEvent(s.lists, now).Found? {
      var r := ReadyEvent(s.lists, now);
      FreeStays(s.lists, now);
      DispatchLists(s, r.item, r.rest, now, env(k).requests);
      if Running(t) {
        PassTerminates(t, now, env, k + 1, due - 1);
        var end :| k + 1 < end <= k + 1 + (due - 1) + 1 && PassOver(After(t, env, k + 1, end).phase, now);
        AfterFirst(s, env, k, end);
      } else {
        assert PassOver(After(s, env, k, k + 1).phase, now);
      }
    } else {
      assert PassOver(After(s, env, k, k + 1).phase, now);
    }
  }

  // ----- the assertion before the performance model runs

  /**
    After a pass every list head is strictly later than its counter, so the assertion that no stop
    time equals its counter holds exactly when no empty list meets a counter at its maximum.
   */
  lemma StopTimesAreLater(l: Lists, now: Clocks)
    requires Valid(l) && NothingDue(l, now)
    ensures forall q: Queue :: l.Get(q) != [] ==> NextEvent(l, q, now) > now.Of(q)
    ensures AllLater(StopTimes(l, now), now) <==> forall q: Queue :: l.Get(q) == [] ==> now.Of(q) < MAX
  {
    forall q: Queue
      ensures l.Get(q) != [] ==> NextEvent(l, q, now) > now.Of(q)
      ensures StopTimes(l, now).Of(q) == NextEvent(l, q, now)
    {
      assert l.Get(q) != [] ==> l.Get(q)[0] in l.Get(q);
    }
  }
}
