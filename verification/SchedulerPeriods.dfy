/**
  How often a periodic cycle item is dispatched.
 */
module SchedulerPeriods {
  import opened UInt64
  import opened WorkItems
  import opened ScheduleSpec
  import opened SchedulerRun
  import opened SchedulerShape
  import opened SchedulerConservation
  import opened SchedulerExactness

  /** The distance between two dispatches; a period of 1 yields a gap of 2. */
  function Gap(period: nat): nat
  {
    if period == 1 then 2 else period
  }

  /** The first dispatch of an item with this period that is drained at cycle `start`. */
  function First(start: nat, period: nat): nat
    requires period > 0
  {
    (start + 1 + period) / period * period
  }

  /** How many dispatches there are up to and including cycle `cycle`. */
  function Expected(start: nat, period: nat, cycle: nat): nat
    requires period > 0
  {
    if cycle < First(start, period) then 0 else (cycle - First(start, period)) / Gap(period) + 1
  }

  ghost function Fires(fired: seq<Stamp>, id: nat): nat
  {
    if fired == [] then 0
    else Fires(fired[..|fired| - 1], id) + One(fired[|fired| - 1].item.id == id)
  }

  lemma FiresAppend(fired: seq<Stamp>, st: Stamp, id: nat)
    ensures Fires(fired + [st], id) == Fires(fired, id) + One(st.item.id == id)
  {
    assert (fired + [st])[..|fired + [st]| - 1] == fired;
  }

  // ----- the invariant for one periodic item

  /** `time` is the time after `n` dispatches, the last of which is not in the future. */
  predicate OnTrack(time: nat, st: Stamp, n: nat, cycle: nat)
    requires st.item.period > 0
  {
    var gap := Gap(st.item.period);
    time == First(st.now.cycle, st.item.period) + gap * n && (n > 0 ==> time <= cycle + gap)
  }

  /** The item, as it sits on the cycle list, is on track, or behind the counter because a re-arming wrapped. */
  predicate Tracks(y: Item, st: Stamp, n: nat, cycle: nat)
  {
    && y.id == st.item.id && y.trigger == CyclePeriod && y.period == st.item.period && y.period > 0
    && (OnTrack(y.time, st, n, cycle) || y.time < cycle)
  }

  ghost predicate WasCleared(s: State, id: nat)
  {
    exists y :: y in s.log.cleared && y.id == id
  }

  ghost predicate Tracked(s: State, st: Stamp)
  {
    WasCleared(s, st.item.id)
    || exists y :: y in s.lists.cycle && Tracks(y, st, Fires(s.log.fired, st.item.id), s.clocks.cycle)
  }

  ghost predicate AllTracked(s: State)
  {
    Running(s) ==> forall st :: st in s.log.drained && st.item.trigger == CyclePeriod ==> Tracked(s, st)
  }

  /** Dispatched items have left the worklist for good. */
  ghost predicate FiredNotQueued(s: State)
  {
    Running(s) ==> forall st :: st in s.log.fired ==> Count(s.work, st.item.id) == 0 && st.item.id < s.nextId
  }

  // ----- arithmetic

  lemma RearmFromMultiple(c: nat, p: nat)
    requires p > 0 && (p == 1 || c % p == 0)
    ensures (c + 1 + p) / p * p == c + Gap(p)
  {
    if p >= 2 {
      assert c == c / p * p by { DivModUnique(c, p, c / p, 0); }
      assert c + 1 + p == (c / p + 1) * p + 1;
      DivModUnique(c + 1 + p, p, c / p + 1, 1);
      assert (c / p + 1) * p == c + p;
    }
  }

  lemma OnTrackMultiple(time: nat, st: Stamp, n: nat, cycle: nat)
    requires st.item.period > 0 && OnTrack(time, st, n, cycle)
    ensures st.item.period == 1 || time % st.item.period == 0
  {
    var p := st.item.period;
    if p > 1 {
      var k := (st.now.cycle + 1 + p) / p;
      assert time == (k + n) * p;
      DivModUnique(time, p, k + n, 0);
    }
  }

  lemma OneMoreGap(gap: nat, n: nat)
    ensures gap * (n + 1) == gap * n + gap
  {
  }

  /** Re-arming an item that is dispatched on track keeps it on track or puts it behind. */
  lemma RearmTracks(y: Item, st: Stamp, n: nat, now: Clocks)
    requires Tracks(y, st, n, now.cycle) && y.time == now.cycle && Rearm(y, now).Ok?
    ensures Tracks(Rearm(y, now).value, st, n + 1, now.cycle)
  {
    OnTrackMultiple(y.time, st, n, now.cycle);
    RearmFromMultiple(now.cycle, y.period);
    RearmIsFutureIffFits(y, now);
    OneMoreGap(Gap(y.period), n);
  }

  lemma PlaceTracks(x: Item, now: Clocks)
    requires x.trigger == CyclePeriod && Rearm(x, now).Ok?
    ensures Tracks(Rearm(x, now).value, Stamp(x, now), 0, now.cycle)
  {
    RearmIsFutureIffFits(x, now);
  }

  // ----- steps

  lemma ClearTracked(s: State, now: Clocks)
    requires s.phase == Draining(now) && s.work != [] && Clears(s.work[0]).Some? && AllTracked(s)
    ensures AllTracked(DrainOne(s, now))
  {
    var q := Clears(s.work[0]).value;
    var t := DrainOne(s, now);
    FilterElements(s.lists.Get(q), (y: Item) => !IsProgress(y));
    FilterElements(s.lists.Get(q), (y: Item) => IsProgress(y));
    assert forall y :: y in s.lists.cycle ==> y in t.lists.cycle || y in t.log.cleared;
    assert forall y :: y in s.log.cleared ==> y in t.log.cleared;
    assert t.log.fired == s.log.fired && t.log.drained == s.log.drained;
    forall st | st in t.log.drained && Tracked(s, st)
      ensures Tracked(t, st)
    {
    }
  }

  lemma {:induction false} NotFiredYet(fired: seq<Stamp>, id: nat)
    requires forall st :: st in fired ==> st.item.id != id
    ensures Fires(fired, id) == 0
  {
    if fired != [] {
      assert fired[|fired| - 1] in fired;
      NotFiredYet(fired[..|fired| - 1], id);
    }
  }

  lemma DrainTracked(s: State, now: Clocks)
    requires s.phase == Draining(now) && now == s.clocks && s.work != [] && Clears(s.work[0]).None?
    requires AllTracked(s) && FiredNotQueued(s)
    ensures AllTracked(DrainOne(s, now))
  {
    var x := s.work[0];
    var t := DrainOne(s, now);
    PlaceItemFrame(TakenOff(s, now), x, now);
    if Place(s.lists, x, now).Ok? {
      PlaceOnCycleList(s.lists, x, now);
      if x.trigger == CyclePeriod {
        PlaceTracks(x, now);
        assert Count(s.work, x.id) > 0;
        NotFiredYet(s.log.fired, x.id);
        assert Tracked(t, Stamp(x, now));
      }
      forall st | st in s.log.drained && Tracked(s, st)
        ensures Tracked(t, st)
      {
      }
    }
  }

  /** The command interface does not disturb the tracking. */
  lemma EnqueueAllTracked(s: State, rs: seq<Request>)
    requires AllTracked(s) && FiredNotQueued(s)
    ensures AllTracked(EnqueueAll(s, rs)) && FiredNotQueued(EnqueueAll(s, rs))
  {
    var t := EnqueueAll(s, rs);
    EnqueueAllFrame(s, rs);
    if Running(t) {
      forall st | st in s.log.drained && Tracked(s, st)
        ensures Tracked(t, st)
      {
      }
      forall st | st in t.log.fired
        ensures Count(t.work, st.item.id) == 0 && st.item.id < t.nextId
      {
        EnqueueAllCount(s, rs, st.item.id);
      }
    }
  }

  lemma OnlyOneOnLists(s: State, x: Item, y: Item)
    requires Running(s) && Conserved(s, x.id) && Shape(s) && ReadyEvent(s.lists, s.clocks).Found?
    requires ReadyEvent(s.lists, s.clocks).item == x && y in s.lists.cycle && y.id == x.id
    ensures y == x && Count(s.work, x.id) == 0 && x.id < s.nextId
  {
    FoundCount(s.lists, s.clocks, x.id);
    FoundOnCycleList(s.lists, s.clocks);
    if y != x {
      CountPositive(ReadyEvent(s.lists, s.clocks).rest.cycle, x.id);
    }
  }

  /** Firing `x`, which has been taken off the lists `l`. */
  lemma FireTracked(s: State, l: Lists, x: Item, now: Clocks, st: Stamp)
    requires s.phase == Dispatching(now) && now == s.clocks && OnTime(Stamp(x, now))
    requires Tracked(s.(lists := l), st)
    requires forall y :: y in l.cycle ==> y == x || y in s.lists.cycle
    requires forall y :: y in l.cycle && y.id == x.id ==> y == x
    requires x.id == st.item.id ==> x in l.cycle || WasCleared(s, x.id)
    ensures var t := Fire(s, x, now);
            var u := if Periodic(x.trigger) then PlaceItem(t, x, now) else t;
            Running(u) ==> Tracked(u, st)
  {
    FireFrame(s, x, now);
    FiresAppend(s.log.fired, Stamp(x, now), st.item.id);
    var t := Fire(s, x, now);
    var u := if Periodic(x.trigger) then PlaceItem(t, x, now) else t;
    PlaceItemFrame(t, x, now);
    if Running(u) && !WasCleared(s, st.item.id) {
      var n := Fires(s.log.fired, st.item.id);
      var y :| y in l.cycle && Tracks(y, st, n, now.cycle);
      if Periodic(x.trigger) {
        PlaceOnCycleList(t.lists, x, now);
      }
      if y.id == x.id {
        assert y == x;
        RearmTracks(y, st, n, now);
        assert Tracks(Rearm(y, now).value, st, n + 1, now.cycle);
        assert Rearm(y, now).value in u.lists.cycle;
      } else {
        assert y in u.lists.cycle;
      }
    }
  }

  lemma DispatchTracked(s: State, now: Clocks, requests: seq<Request>)
    requires s.phase == Dispatching(now) && now == s.clocks && Shape(s) && ConservedAll(s)
    requires AllTracked(s) && FiredNotQueued(s) && ReadyEvent(s.lists, now).Found?
    ensures var r := ReadyEvent(s.lists, now);
            AllTracked(DispatchOne(s, r.item, r.rest, now, requests))
  {
    var r := ReadyEvent(s.lists, now);
    var x := r.item;
    FoundOnCycleList(s.lists, now);
    EnqueueAllFrame(s.(lists := r.rest), requests);
    EnqueueAllFault(s.(lists := r.rest), requests);
    var s1 := EnqueueAll(s.(lists := r.rest), requests);
    var u := DispatchOne(s, x, r.rest, now, requests);
    if Running(s1) {
      FireFrame(s1, x, now);
      PlaceItemFrame(Fire(s1, x, now), x, now);
      forall st | st in u.log.drained && st.item.trigger == CyclePeriod
        ensures Running(u) ==> Tracked(u, st)
      {
        TrackedBeforeFire(s, s1, x, now, st);
        FireTracked(s1, s.lists, x, now, st);
      }
    }
  }

  lemma TrackedBeforeFire(s: State, s1: State, x: Item, now: Clocks, st: Stamp)
    requires Running(s) && now == s.clocks && Shape(s) && ConservedAll(s) && Tracked(s, st)
    requires ReadyEvent(s.lists, now).Found? && ReadyEvent(s.lists, now).item == x
    requires s1.log.fired == s.log.fired && s1.log.cleared == s.log.cleared && s1.clocks == s.clocks
    ensures Tracked(s1.(lists := s.lists), st)
    ensures forall y :: y in s.lists.cycle && y.id == x.id ==> y == x
    ensures x.id == st.item.id ==> x in s.lists.cycle || WasCleared(s1, x.id)
  {
    forall y | y in s.lists.cycle && y.id == x.id
      ensures y == x
    {
      OnlyOneOnLists(s, x, y);
    }
  }

  lemma DispatchNotQueued(s: State, now: Clocks, requests: seq<Request>)
    requires s.phase == Dispatching(now) && now == s.clocks && Shape(s) && ConservedAll(s)
    requires FiredNotQueued(s) && ReadyEvent(s.lists, now).Found?
    ensures var r := ReadyEvent(s.lists, now);
            FiredNotQueued(DispatchOne(s, r.item, r.rest, now, requests))
  {
    var r := ReadyEvent(s.lists, now);
    var x := r.item;
    FoundCount(s.lists, now, x.id);
    assert Conserved(s, x.id);
    EnqueueAllFrame(s.(lists := r.rest), requests);
    var s1 := EnqueueAll(s.(lists := r.rest), requests);
    var u := DispatchOne(s, x, r.rest, now, requests);
    FireFrame(s1, x, now);
    PlaceItemFrame(Fire(s1, x, now), x, now);
    if Running(u) {
      forall st | st in u.log.fired
        ensures Count(u.work, st.item.id) == 0 && st.item.id < u.nextId
      {
        EnqueueAllCount(s.(lists := r.rest), requests, st.item.id);
        assert st in s.log.fired || st == Stamp(x, now);
      }
    }
  }

  lemma ClockTracked(s: State, e: Inputs)
    requires s.phase.Executing? && CanClock(s) && AllTracked(s) && FiredNotQueued(s)
    ensures AllTracked(ClockOne(s, e)) && FiredNotQueued(ClockOne(s, e))
  {
    EnqueueAllTracked(s, e.requests);
    EnqueueAllFrame(s, e.requests);
    var s1 := EnqueueAll(s, e.requests);
    var t := ClockOne(s, e);
    if Running(t) {
      forall st | st in t.log.drained && Tracked(s1, st)
        ensures Tracked(t, st)
      {
        if !WasCleared(s1, st.item.id) {
          var n := Fires(s1.log.fired, st.item.id);
          var y :| y in s1.lists.cycle && Tracks(y, st, n, s1.clocks.cycle);
          assert Tracks(y, st, n, t.clocks.cycle);
        }
      }
    }
  }

  lemma LeaveTracked(s: State)
    requires s.phase.Executing? && AllTracked(s) && FiredNotQueued(s)
    ensures AllTracked(LeaveExecuting(s)) && FiredNotQueued(LeaveExecuting(s))
  {
    LeaveExecutingFrame(s);
    var t := LeaveExecuting(s);
    forall st | st in s.log.fired
      ensures Count(t.work, st.item.id) == 0
    {
      CountConcat(s.work, [Item(s.nextId, Stop, Now, 0, 0)], st.item.id);
    }
    forall st | st in s.log.drained && Tracked(s, st)
      ensures Tracked(t, st)
    {
    }
  }

  lemma PauseTracked(s: State, e: Inputs)
    requires !s.phase.Draining? && !s.phase.Dispatching? && !s.phase.Executing? && AllTracked(s) && FiredNotQueued(s)
    ensures AllTracked(Step(s, e)) && FiredNotQueued(Step(s, e))
  {
    var s1 := if s.phase.Informing? || s.phase.Starting? then EnqueueAll(s, e.requests) else s;
    EnqueueAllTracked(s, e.requests);
    var t := Step(s, e);
    assert t == s1.(phase := t.phase);
    forall st | st in s1.log.drained && Tracked(s1, st)
      ensures Tracked(t, st)
    {
    }
  }

  lemma StepTracked(s: State, e: Inputs)
    requires Shape(s) && Timing(s) && ConservedAll(s) && AllTracked(s) && FiredNotQueued(s)
    ensures AllTracked(Step(s, e)) && FiredNotQueued(Step(s, e))
  {
    match s.phase
    case Draining(now) => DrainingTracked(s, now, e);
    case Dispatching(now) => DispatchingTracked(s, now, e);
    case Executing(stop, m) =>
      if CanClock(s) {
        ClockTracked(s, e);
      } else {
        LeaveTracked(s);
      }
    case _ => PauseTracked(s, e);
  }

  lemma DrainingTracked(s: State, now: Clocks, e: Inputs)
    requires s.phase == Draining(now) && now == s.clocks && AllTracked(s) && FiredNotQueued(s)
    ensures AllTracked(Step(s, e)) && FiredNotQueued(Step(s, e))
  {
    if s.work != [] {
      if Clears(s.work[0]).Some? {
        ClearTracked(s, now);
      } else {
        DrainTracked(s, now);
        var x := s.work[0];
        PlaceItemFrame(TakenOff(s, now), x, now);
      }
    } else {
      forall st | st in s.log.drained && Tracked(s, st)
        ensures Tracked(Step(s, e), st)
      {
      }
    }
  }

  lemma DispatchingTracked(s: State, now: Clocks, e: Inputs)
    requires s.phase == Dispatching(now) && now == s.clocks && Shape(s) && ConservedAll(s)
    requires AllTracked(s) && FiredNotQueued(s)
    ensures AllTracked(Step(s, e)) && FiredNotQueued(Step(s, e))
  {
    if ReadyEvent(s.lists, now).Found? {
      DispatchTracked(s, now, e.requests);
      DispatchNotQueued(s, now, e.requests);
    } else {
      forall st | st in s.log.drained && Tracked(s, st)
        ensures Tracked(Step(s, e), st)
      {
      }
    }
  }

  lemma NextTracked(run: nat -> State, env: nat -> Inputs, from: nat, n: nat)
    requires IsRun(run, env, from) && from < n && Shape(run(n - 1)) && Timing(run(n - 1)) && ConservedAll(run(n - 1))
    requires AllTracked(run(n - 1)) && FiredNotQueued(run(n - 1))
    ensures AllTracked(run(n)) && FiredNotQueued(run(n))
  {
    NextOf(run, env, from, n - 1);
    StepTracked(run(n - 1), env(n - 1));
  }

  lemma {:induction false} TrackedAlong(run: nat -> State, env: nat -> Inputs, from: nat, n: nat)
    requires IsRun(run, env, from) && from <= n && Shape(run(from)) && Timing(run(from)) && ConservedAll(run(from))
    requires AllTracked(run(from)) && FiredNotQueued(run(from))
    ensures AllTracked(run(n)) && FiredNotQueued(run(n))
    decreases n
  {
    if from < n {
      TrackedAlong(run, env, from, n - 1);
      KnownAlong(run, env, from, n - 1);
      NextTracked(run, env, from, n);
    }
  }

  lemma RunsTracked(s: State, env: nat -> Inputs, from: nat, end: nat)
    requires Shape(s) && Timing(s) && ConservedAll(s) && AllTracked(s) && FiredNotQueued(s)
    ensures AllTracked(After(s, env, from, end)) && FiredNotQueued(After(s, env, from, end))
  {
    if from < end {
      var run := RunFrom(s, env, from);
      TrackedAlong(run, env, from, end);
      RunIsAfter(run, env, from, from, end);
    }
  }

  // ----- theorems

  lemma CountFromTrack(time: nat, st: Stamp, n: nat, cycle: nat)
    requires st.item.period > 0 && OnTrack(time, st, n, cycle) && cycle < time
    ensures n == Expected(st.now.cycle, st.item.period, cycle)
  {
    var first, gap := First(st.now.cycle, st.item.period), Gap(st.item.period);
    if n > 0 {
      var before := (n - 1) * gap;
      assert gap * n == before + gap;
      ScaleNonNegative(n - 1, gap);
      DivModUnique(cycle - first, gap, n - 1, cycle - first - before);
    }
  }

  lemma ScaleNonNegative(k: nat, d: nat)
    ensures 0 <= k * d
  {
  }

  /**
    Over every run: when a pass at cycle C is over, a periodic cycle item that was drained at cycle
    `start` and has not been cleared has been dispatched exactly as often as its period says.
   */
  lemma PeriodicItemFiresAsExpected(clocks: Clocks, markers: u64, brk: bool, requests: seq<Request>,
                                    env: nat -> Inputs, n: nat, st: Stamp)
    requires var s := After(Initial(clocks, markers, brk, requests), env, 0, n);
             s.phase.Informing? && st in s.log.drained && st.item.trigger == CyclePeriod
    ensures var s := After(Initial(clocks, markers, brk, requests), env, 0, n);
            WasCleared(s, st.item.id)
            || (st.item.period > 0
                && Fires(s.log.fired, st.item.id) == Expected(st.now.cycle, st.item.period, s.clocks.cycle))
  {
    var base := State(LoopTop, [], EMPTY, clocks, markers, true, false, brk, 0, NO_HISTORY);
    var s0 := Initial(clocks, markers, brk, requests);
    var s := After(s0, env, 0, n);
    EnqueueAllTracked(base, requests);
    InitialTiming(clocks, markers, brk, requests);
    InitialConserves(clocks, markers, brk, requests);
    RunsTracked(s0, env, 0, n);
    RunsKeepTiming(s0, env, 0, n);
    if !WasCleared(s, st.item.id) {
      var k := Fires(s.log.fired, st.item.id);
      var y :| y in s.lists.cycle && Tracks(y, st, k, s.clocks.cycle);
      assert y in s.lists.Get(CycleQ);
      CountFromTrack(y.time, st, k, s.clocks.cycle);
    }
  }

  /** From cycle 0 and with a period of at least 2 the count is the number of whole periods. */
  lemma ExpectedFromZero(period: nat, cycle: nat)
    requires period >= 2
    ensures Expected(0, period, cycle) == cycle / period
  {
    DivModUnique(1 + period, period, 1, 1);
    if cycle < period {
      DivModUnique(cycle, period, 0, cycle);
    } else {
      var q := (cycle - period) / period;
      var r := (cycle - period) % period;
      assert cycle - period == period * q + r;
      assert (q + 1) * period == period * q + period;
      DivModUnique(cycle, period, q + 1, r);
    }
  }

  /** With a period of 1 the item is dispatched in every second cycle only. */
  lemma ExpectedPeriodOne(start: nat, cycle: nat)
    requires start <= cycle
    ensures Expected(start, 1, cycle) == (cycle - start) / 2
  {
  }

  /**
    The alignment skips a multiple of the period that is exactly one cycle ahead: an item drained one
    cycle before a multiple of its period waits for the next one.
   */
  lemma MultipleOneCycleAheadIsSkipped(k: nat, period: nat)
    requires k >= 1 && period >= 2
    ensures k * period >= 1 && First(k * period - 1, period) == (k + 1) * period
  {
    ScaleAtLeast(k, period);
    assert k * period + period == (k + 1) * period;
    DivModUnique(k * period + period, period, k + 1, 0);
  }

  /** The formula gives the first multiple of the period after `start` exactly if the next cycle is not one. */
  lemma FirstIsLeastIff(start: nat, period: nat)
    requires period > 0
    ensures First(start, period) % period == 0 && First(start, period) > start
    ensures (forall m :: m % period == 0 && m > start ==> First(start, period) <= m) <==> (start + 1) % period != 0
  {
    var first := First(start, period);
    QuotientBounds(start + 1 + period, period);
    if (start + 1) % period != 0 {
      forall m | m % period == 0 && m > start ensures first <= m {
        if m < first {
          MultiplesApart(m, first, period);
        }
      }
    } else {
      assert start + 1 < first;
    }
  }
}
