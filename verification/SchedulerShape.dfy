/**
  The structural invariant of every run, and the timing invariant that keeps the clock loop from
  running past an event.
 */
module SchedulerShape {
  import opened Basics
  import opened UInt64
  import opened WorkItems
  import opened ScheduleSpec
  import opened SchedulerRun

  predicate Running(s: State)
  {
    !s.phase.Aborted?
  }

  /** What the command interface leaves alone. */
  predicate EnqueueFrame(s: State, t: State)
  {
    && t.lists == s.lists && t.clocks == s.clocks && t.markers == s.markers && t.exiting == s.exiting
    && s.work <= t.work && s.nextId <= t.nextId
    && (t.stopped ==> s.stopped) && (s.brk ==> t.brk)
    && t.log == s.log.(quiet := t.log.quiet, watch := t.log.watch)
    && (t.log.watch == s.log.watch || t.log.watch == None)
    && s.log.quiet <= t.log.quiet
    && (Running(t) ==> t.phase == s.phase)
  }

  lemma EnqueueOneFrame(s: State, r: Request)
    ensures EnqueueFrame(s, Enqueue(s, r))
  {
  }

  lemma FrameThrough(s: State, t: State, u: State)
    requires EnqueueFrame(s, t) && EnqueueFrame(t, u)
    ensures EnqueueFrame(s, u)
  {
  }

  lemma {:induction false} EnqueueAllFrame(s: State, rs: seq<Request>)
    ensures EnqueueFrame(s, EnqueueAll(s, rs))
    decreases rs
  {
    if rs != [] {
      EnqueueAllFrame(Enqueue(s, rs[0]), rs[1..]);
      EnqueueOneFrame(s, rs[0]);
      FrameThrough(s, Enqueue(s, rs[0]), EnqueueAll(s, rs));
    }
  }

  /** The command interface fails in one way only. */
  lemma {:induction false} EnqueueAllFault(s: State, rs: seq<Request>)
    requires Running(s)
    ensures var t := EnqueueAll(s, rs); t.phase == s.phase || t.phase == Aborted(NowWithTime)
    decreases rs
  {
    if rs != [] {
      if Running(Enqueue(s, rs[0])) {
        EnqueueAllFault(Enqueue(s, rs[0]), rs[1..]);
      } else {
        EnqueueAllFrame(Enqueue(s, rs[0]), rs[1..]);
        AbortedStays(Enqueue(s, rs[0]), rs[1..]);
      }
    }
  }

  lemma {:induction false} AbortedStays(s: State, rs: seq<Request>)
    requires !Running(s)
    ensures EnqueueAll(s, rs) == s
    decreases rs
  {
    if rs != [] {
      AbortedStays(s, rs[1..]);
    }
  }

  /** What dispatching an item changes before the item is re-armed. */
  lemma FireFrame(s: State, x: Item, now: Clocks)
    ensures var t := Fire(s, x, now);
            && t.phase == s.phase && t.work == s.work && t.lists == s.lists && t.clocks == s.clocks
            && t.markers == s.markers && t.nextId == s.nextId && t.brk == s.brk
            && t.stopped == (x.command == Stop || (s.stopped && x.command != Start))
            && t.exiting == (s.exiting || x.command == Exit)
            && t.log == s.log.(fired := s.log.fired + [Stamp(x, now)], passLog := s.log.passLog + [x],
                               watch := if x.command == Start then None else s.log.watch)
  {
  }

  /** What putting an item on its list changes. */
  lemma PlaceItemFrame(s: State, x: Item, now: Clocks)
    ensures var t := PlaceItem(s, x, now);
            if Place(s.lists, x, now).Ok?
            then t == s.(lists := Place(s.lists, x, now).value, log := s.log.(placed := s.log.placed + [x.id]))
            else t.phase.Aborted? && t.log == s.log
  {
  }

  /** What happens when the clock loop ends. */
  lemma LeaveExecutingFrame(s: State)
    requires s.phase.Executing?
    ensures var t := LeaveExecuting(s);
            if s.markers >= s.phase.stopMarker
            then t == s.(phase := LoopTop, work := s.work + [Item(s.nextId, Stop, Now, 0, 0)], brk := true,
                         nextId := s.nextId + 1, log := s.log.(watch := Some(s.nextId)))
            else t == s.(phase := LoopTop)
  {
  }

  /** What a step outside a pass leaves alone. */
  predicate Quiet(s: State, t: State)
  {
    && t.lists == s.lists && t.log == s.log.(quiet := t.log.quiet, watch := t.log.watch)
    && s.clocks.cycle <= t.clocks.cycle
    && (t.phase.Dispatching? || t.phase.Informing? ==> t.phase == s.phase)
    && (t.phase.Draining? ==> s.phase == LoopTop && t.phase.now == s.clocks)
    && (Running(s) && t.phase.Aborted? ==> t.phase.fault == NowWithTime || t.phase.fault == NotLater)
    && (!Running(s) ==> t == s)
  }

  lemma InformQuiet(s: State, e: Inputs)
    requires s.phase.Informing? || s.phase.Starting?
    ensures Quiet(s, Step(s, e))
  {
    EnqueueAllFrame(s, e.requests);
    EnqueueAllFault(s, e.requests);
  }

  lemma ExecuteQuiet(s: State, e: Inputs)
    requires s.phase.Executing?
    ensures Quiet(s, Step(s, e))
  {
    if CanClock(s) {
      EnqueueAllFrame(s, e.requests);
      EnqueueAllFault(s, e.requests);
    } else {
      LeaveExecutingFrame(s);
    }
  }

  lemma QuietStep(s: State, e: Inputs)
    requires !s.phase.Draining? && !s.phase.Dispatching?
    ensures Quiet(s, Step(s, e))
  {
    match s.phase
    case Informing(now) => InformQuiet(s, e);
    case Starting(stop) => InformQuiet(s, e);
    case Executing(stop, m) => ExecuteQuiet(s, e);
    case _ =>
  }

  // ----- structure

  /** Every list is sorted and holds only its own kind of item; queued items are well formed. */
  ghost predicate Shape(s: State)
  {
    Valid(s.lists) && forall x :: x in s.work ==> WellFormed(x)
  }

  lemma EnqueueShape(s: State, r: Request)
    requires Shape(s)
    ensures Shape(Enqueue(s, r))
  {
  }

  lemma {:induction false} EnqueueAllShape(s: State, rs: seq<Request>)
    requires Shape(s)
    ensures Shape(EnqueueAll(s, rs))
    decreases rs
  {
    if rs != [] {
      EnqueueShape(s, rs[0]);
      EnqueueAllShape(Enqueue(s, rs[0]), rs[1..]);
    }
  }

  lemma ClearShape(l: Lists, q: Queue)
    requires Valid(l)
    ensures Valid(l.Set(q, WithoutProgress(l.Get(q))))
  {
    var keep := (x: Item) => !IsProgress(x);
    FilterSorted(l.Get(q), keep);
    FilterElements(l.Get(q), keep);
    assert ListValid(WithoutProgress(l.Get(q)), q);
  }

  lemma PlaceItemShape(s: State, x: Item, now: Clocks)
    requires Shape(s) && WellFormed(x)
    ensures Shape(PlaceItem(s, x, now))
  {
    if Place(s.lists, x, now).Ok? {
      PlaceValid(s.lists, x, now);
    }
  }

  lemma DrainShape(s: State, now: Clocks)
    requires Shape(s) && s.work != []
    ensures Shape(DrainOne(s, now))
  {
    var x := s.work[0];
    assert WellFormed(x);
    if Clears(x).Some? {
      ClearShape(s.lists, Clears(x).value);
    } else {
      PlaceItemShape(TakenOff(s, now), x, now);
    }
  }

  lemma DispatchShape(s: State, x: Item, rest: Lists, now: Clocks, requests: seq<Request>)
    requires Shape(s) && Valid(rest) && WellFormed(x)
    ensures Shape(DispatchOne(s, x, rest, now, requests))
  {
    EnqueueAllShape(s.(lists := rest), requests);
    PlaceItemShape(Fire(EnqueueAll(s.(lists := rest), requests), x, now), x, now);
  }

  lemma StepShape(s: State, e: Inputs)
    requires Shape(s)
    ensures Shape(Step(s, e))
  {
    match s.phase
    case Draining(now) =>
      if s.work != [] {
        DrainShape(s, now);
      }
    case Dispatching(now) => DispatchingShape(s, now, e);
    case _ => EnqueueAllShape(s, e.requests);
  }

  lemma DispatchingShape(s: State, now: Clocks, e: Inputs)
    requires Shape(s) && s.phase == Dispatching(now)
    ensures Shape(Step(s, e))
  {
    ReadyIsFirstDue(s.lists, now);
    FoundBelongs(s.lists, now);
    if ReadyEvent(s.lists, now).Found? {
      DispatchShape(s, ReadyEvent(s.lists, now).item, ReadyEvent(s.lists, now).rest, now, e.requests);
    }
  }

  /** A ready item is the head of the list that its trigger names. */
  lemma FoundBelongs(l: Lists, now: Clocks)
    requires Valid(l)
    ensures match ReadyEvent(l, now)
            case Found(x, rest) => HeadFound(l, now, x, rest)
            case _ => true
  {
    FoundFromBelongs(l, now, 0);
  }

  ghost predicate HeadFound(l: Lists, now: Clocks, x: Item, rest: Lists)
  {
    exists q: Queue :: Belongs(x, q) && l.Get(q) != [] && l.Get(q)[0] == x && IsReady(x, q, now)
                       && rest == l.Set(q, l.Get(q)[1..])
  }

  lemma {:induction false} FoundFromBelongs(l: Lists, now: Clocks, k: nat)
    requires Valid(l) && k <= 5
    ensures match ReadyFrom(l, now, k)
            case Found(x, rest) => HeadFound(l, now, x, rest)
            case _ => true
    decreases 5 - k
  {
    if k < 5 {
      var q := Order(k);
      assert ListValid(l.Get(q), q);
      FoundFromBelongs(l, now, k + 1);
    }
  }

  // ----- timing

  /** No item of the cycle list is immediate or in the past. */
  ghost predicate OnSchedule(l: Lists, cycle: u64)
  {
    forall x :: x in l.cycle ==> x.trigger != Now && x.time >= cycle
  }

  ghost predicate NothingDue(l: Lists, now: Clocks)
  {
    forall q: Queue, x :: x in l.Get(q) ==> !Due(x, q, now)
  }

  /**
    The counters of a pass are those of the system; between passes the cycle list is on schedule; and
    while the performance model runs, the controller is neither stopped nor exiting and the cycle counter has not
    passed the stop cycle, which no item of the cycle list precedes.
   */
  ghost predicate Timing(s: State)
  {
    match s.phase
    case LoopTop => OnSchedule(s.lists, s.clocks.cycle)
    case Draining(now) => now == s.clocks
    case Dispatching(now) => now == s.clocks
    case Informing(now) => now == s.clocks && NothingDue(s.lists, now)
    case Starting(stop) =>
      && !s.stopped && !s.exiting && s.clocks.cycle < stop.cycle
      && OnSchedule(s.lists, stop.cycle) && NothingDue(s.lists, s.clocks)
    case Executing(stop, m) =>
      !s.stopped && !s.exiting && s.clocks.cycle <= stop.cycle && OnSchedule(s.lists, stop.cycle)
    case Exited => OnSchedule(s.lists, s.clocks.cycle)
    case Aborted(f) => true
  }

  lemma {:induction false} DueAllEmpty(l: Lists, now: Clocks, k: nat)
    requires k <= 5 && DueFrom(l, now, k) == []
    ensures forall i, x :: k <= i < 5 && x in l.Get(Order(i)) ==> !Due(x, Order(i), now)
    decreases 5 - k
  {
    if k < 5 {
      DueAllEmpty(l, now, k + 1);
      FilterElements(l.Get(Order(k)), (x: Item) => Due(x, Order(k), now));
      assert DueOn(l, Order(k), now) == [];
    }
  }

  lemma NothingReadyNothingDue(l: Lists, now: Clocks)
    requires Valid(l) && ReadyEvent(l, now) == Nothing
    ensures NothingDue(l, now)
  {
    ReadyIsFirstDue(l, now);
    NoneOfAllDue(l, now);
  }

  lemma NoneOfAllDue(l: Lists, now: Clocks)
    requires DueAll(l, now) == []
    ensures NothingDue(l, now)
  {
    DueAllEmpty(l, now, 0);
    forall q: Queue, x | x in l.Get(q)
      ensures !Due(x, q, now)
    {
      assert q == Order(Rank(q));
    }
  }

  /** The place of a list in the order of examination. */
  function Rank(q: Queue): nat
  {
    match q
    case CycleQ => 0
    case NanosecondQ => 1
    case InstQ => 2
    case MacroInstQ => 3
    case PacketQ => 4
  }

  /** With nothing due, the stop time of a list precedes none of its items. */
  lemma StopTimeBounds(l: Lists, q: Queue, now: Clocks)
    requires Valid(l) && NothingDue(l, now)
    ensures NextEvent(l, q, now) >= now.Of(q)
    ensures forall x :: x in l.Get(q) ==> x.trigger != Now && NextEvent(l, q, now) <= x.time
  {
    var s := l.Get(q);
    assert ListValid(s, q);
    if s != [] {
      assert s[0] in s;
    }
  }

  lemma DispatchTiming(s: State, x: Item, rest: Lists, now: Clocks, requests: seq<Request>)
    requires s.phase == Dispatching(now) && now == s.clocks
    ensures Timing(DispatchOne(s, x, rest, now, requests))
  {
    EnqueueAllFrame(s.(lists := rest), requests);
    var s1 := EnqueueAll(s.(lists := rest), requests);
    FireFrame(s1, x, now);
    PlaceItemFrame(Fire(s1, x, now), x, now);
  }

  lemma InformTiming(s: State, now: Clocks, requests: seq<Request>)
    requires Shape(s) && Timing(s) && s.phase == Informing(now)
    ensures Timing(LeaveInforming(EnqueueAll(s, requests), now))
  {
    EnqueueAllFrame(s, requests);
    StopTimeBounds(s.lists, CycleQ, now);
    InformingOnSchedule(s, now);
    var stop := StopTimes(s.lists, now);
    assert AllLater(stop, now) ==> stop.Of(CycleQ) != now.Of(CycleQ);
  }

  lemma ClockTiming(s: State, e: Inputs)
    requires Timing(s) && s.phase.Executing?
    ensures Timing(Step(s, e))
  {
    EnqueueAllFrame(s, e.requests);
  }

  lemma DrainingTiming(s: State, now: Clocks, e: Inputs)
    requires s.phase == Draining(now) && now == s.clocks
    ensures Timing(Step(s, e))
  {
    if s.work != [] && Clears(s.work[0]).None? {
      PlaceItemFrame(TakenOff(s, now), s.work[0], now);
    }
  }

  lemma DispatchingTiming(s: State, now: Clocks, e: Inputs)
    requires Shape(s) && s.phase == Dispatching(now) && now == s.clocks
    ensures Timing(Step(s, e))
  {
    match ReadyEvent(s.lists, now)
    case Nothing => NothingReadyNothingDue(s.lists, now);
    case Found(x, rest) => DispatchTiming(s, x, rest, now, e.requests);
    case Overdue(q) =>
  }

  lemma StepTiming(s: State, e: Inputs)
    requires Shape(s) && Timing(s)
    ensures Timing(Step(s, e))
  {
    match s.phase
    case Draining(now) => DrainingTiming(s, now, e);
    case Dispatching(now) => DispatchingTiming(s, now, e);
    case Informing(now) => InformTiming(s, now, e.requests);
    case Starting(stop) => EnqueueAllFrame(s, e.requests);
    case Executing(stop, m) => ClockTiming(s, e);
    case _ =>
  }

  lemma InformingOnSchedule(s: State, now: Clocks)
    requires NothingDue(s.lists, now)
    ensures OnSchedule(s.lists, now.cycle)
  {
    forall x | x in s.lists.cycle
      ensures x.trigger != Now && x.time >= now.cycle
    {
      assert x in s.lists.Get(CycleQ);
    }
  }

  // ----- all runs

  lemma {:induction false} RunsKeepTiming(s: State, env: nat -> Inputs, from: nat, end: nat)
    requires Shape(s) && Timing(s)
    ensures Shape(After(s, env, from, end)) && Timing(After(s, env, from, end))
    decreases end
  {
    if from < end {
      RunsKeepTiming(s, env, from, end - 1);
      StepShape(After(s, env, from, end - 1), env(end - 1));
      StepTiming(After(s, env, from, end - 1), env(end - 1));
    }
  }

  /** The same, for a run given step by step. */
  lemma StandingAlong(run: nat -> State, env: nat -> Inputs, from: nat, n: nat)
    requires IsRun(run, env, from) && from <= n && Shape(run(from)) && Timing(run(from))
    ensures Shape(run(n)) && Timing(run(n))
  {
    RunIsAfter(run, env, from, from, n);
    RunsKeepTiming(run(from), env, from, n);
  }

  lemma InitialTiming(clocks: Clocks, markers: u64, brk: bool, requests: seq<Request>)
    ensures Shape(Initial(clocks, markers, brk, requests)) && Timing(Initial(clocks, markers, brk, requests))
  {
    var s := State(LoopTop, [], EMPTY, clocks, markers, true, false, brk, 0, NO_HISTORY);
    EnqueueAllFrame(s, requests);
    EnqueueAllShape(s, requests);
  }
}
