/**
  The break protocol: commands and committed markers get control back to the controller before the
  clock moves again.
 */
module SchedulerBreak {
  import opened Basics
  import opened UInt64
  import opened WorkItems
  import opened ScheduleSpec
  import opened SchedulerRun
  import opened SchedulerShape
  import opened SchedulerExactness

  /** A worklist that holds anything but quiet additions has the break flag set. */
  ghost predicate BreakPending(s: State)
  {
    Running(s) ==> s.brk || forall x :: x in s.work ==> x.id in s.log.quiet
  }

  function StopItem(id: nat): Item
  {
    Item(id, Stop, Now, 0, 0)
  }

  /** The STOP for a committed marker is queued, scheduled or done, until a start intervenes. */
  ghost predicate WatchPending(s: State)
  {
    && (forall id :: id in s.log.quiet ==> id < s.nextId)
    && (Running(s) && s.log.watch.Some? ==>
          && s.log.watch.value < s.nextId && s.log.watch.value !in s.log.quiet
          && (s.stopped || StopItem(s.log.watch.value) in s.work || StopItem(s.log.watch.value) in s.lists.cycle))
  }

  lemma {:induction false} EnqueueAllBreak(s: State, rs: seq<Request>)
    requires BreakPending(s) && WatchPending(s)
    ensures BreakPending(EnqueueAll(s, rs)) && WatchPending(EnqueueAll(s, rs))
    decreases rs
  {
    if rs != [] {
      EnqueueBreak(s, rs[0]);
      EnqueueAllBreak(Enqueue(s, rs[0]), rs[1..]);
    }
  }

  lemma EnqueueBreak(s: State, r: Request)
    requires BreakPending(s) && WatchPending(s)
    ensures BreakPending(Enqueue(s, r)) && WatchPending(Enqueue(s, r))
  {
    var t := Enqueue(s, r);
    assert forall x :: x in s.work ==> x in t.work;
  }

  lemma DrainBreak(s: State, now: Clocks)
    requires s.phase == Draining(now) && s.work != [] && BreakPending(s) && WatchPending(s)
    ensures BreakPending(DrainOne(s, now)) && WatchPending(DrainOne(s, now))
  {
    var x := s.work[0];
    var u := TakenOff(s, now);
    assert forall y :: y in s.work <==> y == x || y in s.work[1..];
    match Clears(x)
    case Some(q) => FilterElements(s.lists.Get(q), (y: Item) => !IsProgress(y));
    case None =>
      assert [x] + s.work[1..] == s.work;
      PlaceBreak(u, x, now);
  }

  /** An item taken off the worklist and put on its list leaves no committed marker without its STOP. */
  lemma PlaceBreak(s: State, x: Item, now: Clocks)
    requires BreakPending(s) && WatchPending(s.(work := [x] + s.work))
    ensures BreakPending(PlaceItem(s, x, now)) && WatchPending(PlaceItem(s, x, now))
  {
    PlaceItemFrame(s, x, now);
    assert forall y :: y in [x] + s.work <==> y == x || y in s.work;
    if Place(s.lists, x, now).Ok? {
      PlaceOnCycleList(s.lists, x, now);
    }
  }

  lemma DispatchBreak(s: State, now: Clocks, requests: seq<Request>)
    requires s.phase == Dispatching(now) && Shape(s) && BreakPending(s) && WatchPending(s)
    requires ReadyEvent(s.lists, now).Found?
    ensures var r := ReadyEvent(s.lists, now);
            var t := DispatchOne(s, r.item, r.rest, now, requests);
            BreakPending(t) && WatchPending(t)
  {
    var r := ReadyEvent(s.lists, now);
    FoundOnCycleList(s.lists, now);
    EnqueueAllBreak(s, requests);
    EnqueueAllFrame(s, requests);
    EnqueueAllElsewhere(s, requests, r.rest);
    var s1 := EnqueueAll(s.(lists := r.rest), requests);
    FireBreak(s1, EnqueueAll(s, requests).lists, r.item, now);
  }

  /** The command interface does not look at the lists. */
  lemma {:induction false} EnqueueAllElsewhere(s: State, rs: seq<Request>, l: Lists)
    ensures EnqueueAll(s.(lists := l), rs) == EnqueueAll(s, rs).(lists := l)
    decreases rs
  {
    if rs != [] {
      assert Enqueue(s.(lists := l), rs[0]) == Enqueue(s, rs[0]).(lists := l);
      EnqueueAllElsewhere(Enqueue(s, rs[0]), rs[1..], l);
    }
  }

  lemma FireBreak(s: State, l: Lists, x: Item, now: Clocks)
    requires BreakPending(s) && WatchPending(s.(lists := l))
    requires forall y :: y in l.cycle ==> y == x || y in s.lists.cycle
    ensures var t := Fire(s, x, now);
            var u := if s.phase.Aborted? then s else if Periodic(x.trigger) then PlaceItem(t, x, now) else t;
            BreakPending(u) && WatchPending(u)
  {
    FireFrame(s, x, now);
    var t := Fire(s, x, now);
    if Periodic(x.trigger) && Place(t.lists, x, now).Ok? {
      PlaceItemFrame(t, x, now);
      PlaceOnCycleList(t.lists, x, now);
    }
  }

  lemma InformBreak(s: State, e: Inputs)
    requires (s.phase.Informing? || s.phase.Starting?) && BreakPending(s) && WatchPending(s)
    ensures BreakPending(Step(s, e)) && WatchPending(Step(s, e))
  {
    EnqueueAllBreak(s, e.requests);
  }

  lemma ExecuteBreak(s: State, e: Inputs)
    requires s.phase.Executing? && !s.stopped && BreakPending(s) && WatchPending(s)
    ensures BreakPending(Step(s, e)) && WatchPending(Step(s, e))
  {
    if CanClock(s) {
      EnqueueAllBreak(s, e.requests);
    } else {
      LeaveExecutingFrame(s);
    }
  }

  lemma StepBreak(s: State, e: Inputs)
    requires Shape(s) && Timing(s) && BreakPending(s) && WatchPending(s)
    ensures BreakPending(Step(s, e)) && WatchPending(Step(s, e))
  {
    match s.phase
    case Draining(now) =>
      if s.work != [] {
        DrainBreak(s, now);
      }
    case Dispatching(now) =>
      if ReadyEvent(s.lists, now).Found? {
        DispatchBreak(s, now, e.requests);
      }
    case Informing(now) => InformBreak(s, e);
    case Starting(stop) => InformBreak(s, e);
    case Executing(stop, m) => ExecuteBreak(s, e);
    case _ =>
  }

  lemma {:induction false} RunsBreak(s: State, env: nat -> Inputs, from: nat, end: nat)
    requires Shape(s) && Timing(s) && BreakPending(s) && WatchPending(s)
    ensures BreakPending(After(s, env, from, end)) && WatchPending(After(s, env, from, end))
    decreases end
  {
    if from < end {
      RunsBreak(s, env, from, end - 1);
      RunsKeepTiming(s, env, from, end - 1);
      var u := After(s, env, from, end - 1);
      StepBreak(u, env(end - 1));
      assert After(s, env, from, end) == Step(u, env(end - 1));
    }
  }

  /**
    Over every run, whenever the clock is about to move: the worklist holds nothing but quiet
    additions, so every command has reached the schedule; no STOP for a committed marker is
    outstanding; the controller is neither stopped nor exiting; and every item of the cycle list is
    strictly later than the cycle counter.
   */
  lemma ClockMovesOnlyWhenAllowed(clocks: Clocks, markers: u64, brk: bool, requests: seq<Request>,
                                  env: nat -> Inputs, n: nat)
    requires var s := After(Initial(clocks, markers, brk, requests), env, 0, n); s.phase.Executing? && CanClock(s)
    ensures var s := After(Initial(clocks, markers, brk, requests), env, 0, n);
            && (forall x :: x in s.work ==> x.id in s.log.quiet)
            && s.log.watch == None
            && !s.stopped && !s.exiting
            && (forall x :: x in s.lists.cycle ==> x.trigger != Now && s.clocks.cycle < x.time)
  {
    var s0 := State(LoopTop, [], EMPTY, clocks, markers, true, false, brk, 0, NO_HISTORY);
    EnqueueAllBreak(s0, requests);
    InitialTiming(clocks, markers, brk, requests);
    RunsBreak(Initial(clocks, markers, brk, requests), env, 0, n);
    RunsKeepTiming(Initial(clocks, markers, brk, requests), env, 0, n);
  }

  // ----- stop times

  /** While the performance model is prepared and runs, no instruction or macro-instruction item precedes its stop. */
  ghost predicate StopsAhead(s: State)
  {
    s.phase.Starting? || s.phase.Executing? ==>
      && (forall x :: x in s.lists.inst ==> s.phase.stop.inst <= x.time)
      && (forall x :: x in s.lists.macroInst ==> s.phase.stop.macroInst <= x.time)
  }

  lemma InformStops(s: State, now: Clocks, e: Inputs)
    requires s.phase == Informing(now) && Shape(s) && Timing(s)
    ensures StopsAhead(Step(s, e))
  {
    EnqueueAllFrame(s, e.requests);
    StopTimeBounds(s.lists, InstQ, now);
    StopTimeBounds(s.lists, MacroInstQ, now);
    assert s.lists.Get(InstQ) == s.lists.inst && s.lists.Get(MacroInstQ) == s.lists.macroInst;
  }

  lemma StepStops(s: State, e: Inputs)
    requires Shape(s) && Timing(s) && StopsAhead(s)
    ensures StopsAhead(Step(s, e))
  {
    match s.phase
    case Informing(now) => InformStops(s, now, e);
    case Starting(stop) => EnqueueAllFrame(s, e.requests);
    case Executing(stop, m) => ExecuteStops(s, e);
    case Draining(now) =>
      if s.work != [] {
        DrainStops(s, now);
      }
    case Dispatching(now) => DispatchStops(s, now, e);
    case _ =>
  }

  lemma DrainStops(s: State, now: Clocks)
    requires s.phase == Draining(now) && s.work != []
    ensures DrainOne(s, now).phase == s.phase || DrainOne(s, now).phase.Aborted?
  {
  }

  lemma DispatchStops(s: State, now: Clocks, e: Inputs)
    requires s.phase == Dispatching(now)
    ensures !Step(s, e).phase.Starting? && !Step(s, e).phase.Executing?
  {
    if ReadyEvent(s.lists, now).Found? {
      var r := ReadyEvent(s.lists, now);
      EnqueueAllFrame(s.(lists := r.rest), e.requests);
      FireFrame(EnqueueAll(s.(lists := r.rest), e.requests), r.item, now);
    }
  }

  lemma ExecuteStops(s: State, e: Inputs)
    requires s.phase.Executing? && StopsAhead(s)
    ensures StopsAhead(Step(s, e))
  {
    if CanClock(s) {
      EnqueueAllFrame(s, e.requests);
    } else {
      LeaveExecutingFrame(s);
    }
  }

  lemma NextStops(run: nat -> State, env: nat -> Inputs, from: nat, n: nat)
    requires IsRun(run, env, from) && from < n && Shape(run(n - 1)) && Timing(run(n - 1)) && StopsAhead(run(n - 1))
    ensures StopsAhead(run(n))
  {
    NextOf(run, env, from, n - 1);
    StepStops(run(n - 1), env(n - 1));
  }

  lemma {:induction false} StopsAlong(run: nat -> State, env: nat -> Inputs, from: nat, n: nat)
    requires IsRun(run, env, from) && from <= n && Shape(run(from)) && Timing(run(from)) && StopsAhead(run(from))
    ensures StopsAhead(run(n))
    decreases n
  {
    if from < n {
      StopsAlong(run, env, from, n - 1);
      StandingAlong(run, env, from, n - 1);
      NextStops(run, env, from, n);
    }
  }

  /** The clock loop goes on exactly as long as nothing breaks it and no counter has reached its stop. */
  lemma ClockLoopTest(s: State, stop: Clocks, stopMarker: u64, e: Inputs)
    requires s.phase == Executing(stop, stopMarker)
    ensures Step(s, e).phase == LoopTop <==>
            || s.brk || s.clocks.cycle >= stop.cycle || s.clocks.inst >= stop.inst
            || s.clocks.macroInst >= stop.macroInst || s.markers >= stopMarker
  {
    EnqueueAllFrame(s, e.requests);
    LeaveExecutingFrame(s);
  }

  /** The stop times are those of the list heads, and the stop marker is the next one. */
  lemma StopsAreHeads(s: State, now: Clocks, a: Inputs, b: Inputs)
    requires s.phase == Informing(now) && Shape(s) && Timing(s)
    requires Step(s, a).phase.Starting? && Step(Step(s, a), b).phase.Executing?
    ensures var l, p := s.lists, Step(Step(s, a), b).phase;
            && p.stop.cycle == (if l.cycle == [] then MAX else l.cycle[0].time)
            && p.stop.inst == (if l.inst == [] then MAX else l.inst[0].time)
            && p.stop.macroInst == (if l.macroInst == [] then MAX else l.macroInst[0].time)
            && p.stopMarker == (s.markers + 1) % 0x1_0000_0000_0000_0000
  {
    EnqueueAllFrame(s, a.requests);
    EnqueueAllFrame(Step(s, a), b.requests);
    HeadTime(s.lists, CycleQ, now);
    HeadTime(s.lists, InstQ, now);
    HeadTime(s.lists, MacroInstQ, now);
  }

  lemma HeadTime(l: Lists, q: Queue, now: Clocks)
    requires NothingDue(l, now)
    ensures NextEvent(l, q, now) == if l.Get(q) == [] then MAX else l.Get(q)[0].time
  {
    if l.Get(q) != [] {
      assert l.Get(q)[0] in l.Get(q);
    }
  }

  /**
    Over every run, whenever the clock is about to move, every instruction and macro-instruction item on a list is later
    than its counter and no marker has been committed since the clock loop was entered.
   */
  lemma NoStopIsPassed(clocks: Clocks, markers: u64, brk: bool, requests: seq<Request>, env: nat -> Inputs, n: nat)
    requires var s := After(Initial(clocks, markers, brk, requests), env, 0, n); s.phase.Executing? && CanClock(s)
    ensures var s := After(Initial(clocks, markers, brk, requests), env, 0, n);
            && (forall x :: x in s.lists.inst ==> s.clocks.inst < x.time)
            && (forall x :: x in s.lists.macroInst ==> s.clocks.macroInst < x.time)
            && s.markers < s.phase.stopMarker
  {
    var s0 := Initial(clocks, markers, brk, requests);
    var run := RunFrom(s0, env, 0);
    InitialTiming(clocks, markers, brk, requests);
    EnqueueAllFault(State(LoopTop, [], EMPTY, clocks, markers, true, false, brk, 0, NO_HISTORY), requests);
    StopsAlong(run, env, 0, n);
    RunIsAfter(run, env, 0, 0, n);
  }

  /**
    The exception is real: an exit condition that arrives during a clock step leaves the clock loop
    running with work on the worklist whenever the counters and the break flag allow another step.
   */
  lemma ExitConditionDoesNotBreak(s: State, e: Inputs)
    requires s.phase.Executing? && CanClock(s) && e.requests == [ExitCondition]
    ensures var t := Step(s, e);
            && t.phase == s.phase && t.work != []
            && (CanClock(t) <==> t.clocks.cycle < s.phase.stop.cycle && e.clocks.inst < s.phase.stop.inst
                                 && e.clocks.macroInst < s.phase.stop.macroInst && e.markers < s.phase.stopMarker)
  {
    assert e.requests[1..] == [];
    assert EnqueueAll(s, e.requests) == EnqueueAll(Enqueue(s, ExitCondition), []);
  }
}
