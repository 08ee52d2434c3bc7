/**
  When items are dispatched: every cycle item at exactly its cycle, and never past it.
 */
module SchedulerExactness {
  import opened UInt64
  import opened WorkItems
  import opened ScheduleSpec
  import opened SchedulerRun
  import opened SchedulerShape
  import opened SchedulerConservation

  // ----- dispatches happen on time

  /** The dispatch happened when the item asked for it. */
  predicate OnTime(st: Stamp)
  {
    match st.item.trigger
    case CycleOnce | CyclePeriod => st.item.time == st.now.cycle
    case NanosecondOnce | NanosecondPeriod => st.item.time == st.now.nanosecond
    case InstOnce | InstPeriod => st.item.time <= st.now.inst
    case MacroInstOnce | MacroInstPeriod => st.item.time <= st.now.macroInst
    case PacketOnce => st.item.time <= st.now.packet
    case Now => true
    case Never => false
  }

  ghost predicate AllOnTime(s: State)
  {
    && (forall st :: st in s.log.fired ==> OnTime(st) && st.now.cycle <= s.clocks.cycle)
    && forall st :: st in s.log.drained ==> st.now.cycle <= s.clocks.cycle
  }

  // ----- every drained one-shot cycle item is accounted for

  /** The item was dispatched no earlier than it was drained. */
  ghost predicate WasFired(log: History, st: Stamp)
  {
    exists i :: 0 <= i < |log.fired| && log.fired[i].item == st.item && log.fired[i].now.cycle >= st.now.cycle
  }

  ghost predicate Accounted(s: State, st: Stamp)
  {
    st.item in s.lists.cycle || st.item in s.log.cleared || WasFired(s.log, st)
  }

  ghost predicate AllAccounted(s: State)
  {
    Running(s) ==> forall st :: st in s.log.drained && st.item.trigger == CycleOnce ==> Accounted(s, st)
  }

  // ----- the ways to get a timed item behind the cycle counter

  predicate DrainedLate(st: Stamp)
  {
    st.item.trigger == CycleOnce && st.item.time < st.now.cycle
  }

  predicate WrappedPeriod(st: Stamp)
  {
    st.item.trigger == CyclePeriod && !PeriodFits(st.item, st.now)
  }

  /** A one-shot cycle item was drained after its cycle, or the re-arming of a cycle period wrapped. */
  ghost predicate Offence(log: History)
  {
    || (exists st :: st in log.drained && (DrainedLate(st) || WrappedPeriod(st)))
    || (exists st :: st in log.fired && WrappedPeriod(st))
  }

  ghost predicate NotBehind(l: Lists, cycle: u64)
  {
    forall x :: x in l.cycle ==> x.trigger == Now || x.time >= cycle
  }

  /** Without an offence no timed item is ever behind the cycle counter, and no cycle item is missed. */
  ghost predicate NeverMissed(s: State)
  {
    match s.phase
    case Draining(now) => Offence(s.log) || NotBehind(s.lists, now.cycle)
    case Dispatching(now) => Offence(s.log) || NotBehind(s.lists, now.cycle)
    case Aborted(Missed(CycleQ)) => Offence(s.log)
    case _ => true
  }

  // ----- steps

  /** How placing an item changes the cycle list. */
  lemma PlaceOnCycleList(l: Lists, x: Item, now: Clocks)
    requires Place(l, x, now).Ok?
    ensures var y, l' := Rearm(x, now).value, Place(l, x, now).value;
            if Route(y.trigger) == CycleQ then forall z :: z in l'.cycle <==> z == y || z in l.cycle
            else l'.cycle == l.cycle
  {
    InsertElements(l.cycle, Rearm(x, now).value);
  }

  lemma PlacedNotBehind(l: Lists, x: Item, now: Clocks)
    requires Place(l, x, now).Ok? && NotBehind(l, now.cycle)
    requires x.trigger == CycleOnce ==> x.time >= now.cycle
    requires x.trigger == CyclePeriod ==> PeriodFits(x, now)
    ensures NotBehind(Place(l, x, now).value, now.cycle)
  {
    PlaceOnCycleList(l, x, now);
    if x.trigger == CyclePeriod {
      RearmIsFutureIffFits(x, now);
    }
  }

  lemma ClearExact(s: State, now: Clocks)
    requires s.phase == Draining(now) && s.work != [] && Clears(s.work[0]).Some? && AllAccounted(s) && NeverMissed(s)
    ensures AllAccounted(DrainOne(s, now)) && NeverMissed(DrainOne(s, now))
  {
    var q := Clears(s.work[0]).value;
    var t := DrainOne(s, now);
    FilterElements(s.lists.Get(q), (y: Item) => !IsProgress(y));
    FilterElements(s.lists.Get(q), (y: Item) => IsProgress(y));
    assert forall y :: y in s.lists.cycle ==> y in t.lists.cycle || y in t.log.cleared;
    assert forall y :: y in t.lists.cycle ==> y in s.lists.cycle;
    assert t.log.fired == s.log.fired && t.log.drained == s.log.drained;
    assert forall st :: Accounted(s, st) ==> Accounted(t, st);
  }

  /** What putting an item on the schedule changes. */
  predicate Placed(s: State, t: State, x: Item, now: Clocks)
  {
    && Place(s.lists, x, now).Ok? && t.lists == Place(s.lists, x, now).value && t.phase == s.phase
    && t.log.fired == s.log.fired && t.log.cleared == s.log.cleared
  }

  lemma PlacedAccounted(s: State, t: State, x: Item, now: Clocks, st: Stamp)
    requires Placed(s, t, x, now) && (Accounted(s, st) || (st.item == x && x.trigger == CycleOnce))
    ensures Accounted(t, st)
  {
    PlaceOnCycleList(s.lists, x, now);
  }

  lemma DrainedAccounted(s: State, t: State, x: Item, now: Clocks)
    requires Placed(s, t, x, now) && Running(s) && AllAccounted(s) && t.log.drained == s.log.drained + [Stamp(x, now)]
    ensures AllAccounted(t)
  {
    forall st | st in t.log.drained && st.item.trigger == CycleOnce ensures Accounted(t, st) {
      PlacedAccounted(s, t, x, now, st);
    }
  }

  lemma OffenceStays(log: History, log': History)
    requires Offence(log) && log.drained <= log'.drained && log.fired <= log'.fired
    ensures Offence(log')
  {
    assert forall st :: st in log.drained ==> st in log'.drained;
    assert forall st :: st in log.fired ==> st in log'.fired;
  }

  lemma DrainedNeverMissed(s: State, t: State, x: Item, now: Clocks)
    requires Placed(s, t, x, now) && s.phase == Draining(now) && NeverMissed(s)
    requires t.log.drained == s.log.drained + [Stamp(x, now)]
    ensures NeverMissed(t)
  {
    var st := Stamp(x, now);
    assert st in t.log.drained;
    if Offence(s.log) {
      OffenceStays(s.log, t.log);
    } else if !DrainedLate(st) && !WrappedPeriod(st) {
      PlacedNotBehind(s.lists, x, now);
    }
  }

  lemma DrainPlaceExact(s: State, now: Clocks)
    requires s.phase == Draining(now) && s.work != [] && Clears(s.work[0]).None? && AllAccounted(s) && NeverMissed(s)
    ensures AllAccounted(DrainOne(s, now)) && NeverMissed(DrainOne(s, now))
  {
    var x := s.work[0];
    PlaceItemFrame(TakenOff(s, now), x, now);
    if Place(s.lists, x, now).Ok? {
      DrainedAccounted(s, DrainOne(s, now), x, now);
      DrainedNeverMissed(s, DrainOne(s, now), x, now);
    }
  }

  lemma FoundOnCycleList(l: Lists, now: Clocks)
    requires Valid(l) && ReadyEvent(l, now).Found?
    ensures var r := ReadyEvent(l, now);
            && OnTime(Stamp(r.item, now))
            && (forall y :: y in l.cycle ==> y == r.item || y in r.rest.cycle)
            && (forall y :: y in r.rest.cycle ==> y in l.cycle)
  {
    FoundBelongs(l, now);
    var r := ReadyEvent(l, now);
    var q: Queue :| Belongs(r.item, q) && l.Get(q) != [] && l.Get(q)[0] == r.item && IsReady(r.item, q, now)
                    && r.rest == l.Set(q, l.Get(q)[1..]);
  }

  /** The record of a dispatch. */
  lemma FireRecorded(s: State, x: Item, now: Clocks)
    requires s.phase == Dispatching(now) && now == s.clocks && OnTime(Stamp(x, now)) && AllOnTime(s)
    requires Offence(s.log) || NotBehind(s.lists, now.cycle)
    requires forall st :: st in s.log.drained && st.item.trigger == CycleOnce ==> st.item == x || Accounted(s, st)
    ensures var t := Fire(s, x, now); AllOnTime(t) && AllAccounted(t) && NeverMissed(t) && Stamp(x, now) in t.log.fired
  {
    FireFrame(s, x, now);
    var t := Fire(s, x, now);
    assert t.log.fired[|s.log.fired|] == Stamp(x, now);
    assert forall i :: 0 <= i < |s.log.fired| ==> t.log.fired[i] == s.log.fired[i];
    if Offence(s.log) {
      OffenceStays(s.log, t.log);
    }
    forall st | st in t.log.drained && st.item.trigger == CycleOnce ensures Accounted(t, st) {
      assert st.item == x ==> WasFired(t.log, st);
    }
  }

  /** A dispatched item is put back on its list. */
  lemma RearmExact(s: State, x: Item, now: Clocks)
    requires s.phase == Dispatching(now) && AllOnTime(s) && AllAccounted(s) && NeverMissed(s)
    requires Stamp(x, now) in s.log.fired
    ensures var t := PlaceItem(s, x, now); AllOnTime(t) && AllAccounted(t) && NeverMissed(t)
  {
    PlaceItemFrame(s, x, now);
    var t := PlaceItem(s, x, now);
    if Place(s.lists, x, now).Ok? {
      forall st | st in t.log.drained && st.item.trigger == CycleOnce ensures Accounted(t, st) {
        PlacedAccounted(s, t, x, now, st);
      }
      RearmNeverMissed(s, t, x, now);
    }
  }

  lemma RearmNeverMissed(s: State, t: State, x: Item, now: Clocks)
    requires Placed(s, t, x, now) && s.phase == Dispatching(now) && NeverMissed(s) && t.log.drained == s.log.drained
    requires Stamp(x, now) in s.log.fired && (x.trigger == CycleOnce ==> x.time >= now.cycle)
    ensures NeverMissed(t)
  {
    if Offence(s.log) {
      OffenceStays(s.log, t.log);
    } else {
      assert !WrappedPeriod(Stamp(x, now));
      PlacedNotBehind(s.lists, x, now);
    }
  }

  lemma FireExact(s: State, x: Item, now: Clocks)
    requires s.phase == Dispatching(now) && now == s.clocks && OnTime(Stamp(x, now)) && AllOnTime(s)
    requires Offence(s.log) || NotBehind(s.lists, now.cycle)
    requires forall st :: st in s.log.drained && st.item.trigger == CycleOnce ==> st.item == x || Accounted(s, st)
    ensures var t := Fire(s, x, now);
            var u := if Periodic(x.trigger) then PlaceItem(t, x, now) else t;
            AllOnTime(u) && AllAccounted(u) && NeverMissed(u)
  {
    FireRecorded(s, x, now);
    FireFrame(s, x, now);
    if Periodic(x.trigger) {
      RearmExact(Fire(s, x, now), x, now);
    }
  }

  lemma DispatchExact(s: State, now: Clocks, requests: seq<Request>)
    requires Shape(s) && Timing(s) && s.phase == Dispatching(now) && ReadyEvent(s.lists, now).Found?
    requires AllOnTime(s) && AllAccounted(s) && NeverMissed(s)
    ensures var r := ReadyEvent(s.lists, now);
            var u := DispatchOne(s, r.item, r.rest, now, requests);
            AllOnTime(u) && AllAccounted(u) && NeverMissed(u)
  {
    var r := ReadyEvent(s.lists, now);
    FoundOnCycleList(s.lists, now);
    EnqueueAllFrame(s.(lists := r.rest), requests);
    EnqueueAllFault(s.(lists := r.rest), requests);
    var s1 := EnqueueAll(s.(lists := r.rest), requests);
    if Running(s1) {
      assert forall st :: Accounted(s, st) ==> st.item == r.item || Accounted(s1, st);
      FireExact(s1, r.item, now);
    }
  }

  /** Steps outside a pass leave the lists and the histories alone. */
  lemma OtherExact(s: State, e: Inputs)
    requires AllOnTime(s) && AllAccounted(s) && NeverMissed(s) && Timing(s)
    requires !s.phase.Draining? && !s.phase.Dispatching?
    ensures var t := Step(s, e); AllOnTime(t) && AllAccounted(t) && NeverMissed(t)
  {
    QuietStep(s, e);
    QuietExact(s, Step(s, e));
  }

  lemma QuietExact(s: State, t: State)
    requires AllOnTime(s) && AllAccounted(s) && NeverMissed(s) && Quiet(s, t) && !s.phase.Draining?
    requires !s.phase.Dispatching?
    requires s.phase == LoopTop ==> OnSchedule(s.lists, s.clocks.cycle)
    ensures AllOnTime(t) && AllAccounted(t) && NeverMissed(t)
  {
    forall st | Running(t) && st in t.log.drained && st.item.trigger == CycleOnce ensures Accounted(t, st) {
      assert Accounted(s, st);
    }
  }

  lemma DrainExact(s: State, now: Clocks)
    requires s.phase == Draining(now) && now == s.clocks && AllOnTime(s) && AllAccounted(s) && NeverMissed(s)
    requires s.work != []
    ensures var t := DrainOne(s, now); AllOnTime(t) && AllAccounted(t) && NeverMissed(t)
  {
    if Clears(s.work[0]).Some? {
      ClearExact(s, now);
    } else {
      DrainPlaceExact(s, now);
      PlaceItemFrame(TakenOff(s, now), s.work[0], now);
    }
  }

  lemma StartExact(s: State, now: Clocks)
    requires s.phase == Draining(now) && AllOnTime(s) && AllAccounted(s) && NeverMissed(s)
    ensures var t := StartPass(s, now); AllOnTime(t) && AllAccounted(t) && NeverMissed(t)
  {
    forall st | st in s.log.drained && st.item.trigger == CycleOnce ensures Accounted(StartPass(s, now), st) {
      assert Accounted(s, st);
    }
  }

  /** The end of a pass. */
  lemma EndExact(s: State, now: Clocks)
    requires s.phase == Dispatching(now) && AllOnTime(s) && AllAccounted(s) && NeverMissed(s)
    ensures var t := s.(phase := Informing(now)); AllOnTime(t) && AllAccounted(t) && NeverMissed(t)
    ensures var t := s.(phase := Aborted(Missed(NanosecondQ))); AllOnTime(t) && AllAccounted(t) && NeverMissed(t)
    ensures HeadMissed(s.lists, CycleQ, now) ==>
              var t := s.(phase := Aborted(Missed(CycleQ))); AllOnTime(t) && AllAccounted(t) && NeverMissed(t)
  {
    forall st | st in s.log.drained && st.item.trigger == CycleOnce
      ensures Accounted(s.(phase := Informing(now)), st)
    {
      assert Accounted(s, st);
    }
    if HeadMissed(s.lists, CycleQ, now) {
      assert s.lists.cycle[0] in s.lists.cycle;
    }
  }

  lemma StepExact(s: State, e: Inputs)
    requires Shape(s) && Timing(s) && AllOnTime(s) && AllAccounted(s) && NeverMissed(s)
    ensures var t := Step(s, e); AllOnTime(t) && AllAccounted(t) && NeverMissed(t)
  {
    match s.phase
    case Draining(now) =>
      if s.work != [] {
        DrainExact(s, now);
      } else {
        StartExact(s, now);
      }
    case Dispatching(now) =>
      if ReadyEvent(s.lists, now).Found? {
        DispatchExact(s, now, e.requests);
      } else {
        ReadyIsFirstDue(s.lists, now);
        EndExact(s, now);
      }
    case _ => OtherExact(s, e);
  }

  lemma NextExact(run: nat -> State, env: nat -> Inputs, from: nat, n: nat)
    requires IsRun(run, env, from) && from < n && Shape(run(n - 1)) && Timing(run(n - 1))
    requires AllOnTime(run(n - 1)) && AllAccounted(run(n - 1)) && NeverMissed(run(n - 1))
    ensures AllOnTime(run(n)) && AllAccounted(run(n)) && NeverMissed(run(n))
  {
    NextOf(run, env, from, n - 1);
    StepExact(run(n - 1), env(n - 1));
  }

  lemma {:induction false} ExactAlong(run: nat -> State, env: nat -> Inputs, from: nat, n: nat)
    requires IsRun(run, env, from) && from <= n && Shape(run(from)) && Timing(run(from))
    requires AllOnTime(run(from)) && AllAccounted(run(from)) && NeverMissed(run(from))
    ensures AllOnTime(run(n)) && AllAccounted(run(n)) && NeverMissed(run(n))
    decreases n
  {
    if from < n {
      ExactAlong(run, env, from, n - 1);
      StandingAlong(run, env, from, n - 1);
      NextExact(run, env, from, n);
    }
  }

  lemma RunsExact(s: State, env: nat -> Inputs, from: nat, end: nat)
    requires Shape(s) && Timing(s) && AllOnTime(s) && AllAccounted(s) && NeverMissed(s)
    ensures AllOnTime(After(s, env, from, end)) && AllAccounted(After(s, env, from, end))
    ensures NeverMissed(After(s, env, from, end))
  {
    if from < end {
      var run := RunFrom(s, env, from);
      ExactAlong(run, env, from, end);
      RunIsAfter(run, env, from, from, end);
    }
  }

  lemma InitialExact(clocks: Clocks, markers: u64, brk: bool, requests: seq<Request>)
    ensures var s := Initial(clocks, markers, brk, requests); AllOnTime(s) && AllAccounted(s) && NeverMissed(s)
  {
    var s := State(LoopTop, [], EMPTY, clocks, markers, true, false, brk, 0, NO_HISTORY);
    EnqueueAllFrame(s, requests);
    EnqueueAllFault(s, requests);
  }

  // ----- theorems

  /** Between passes and while the performance model runs. */
  predicate BetweenPasses(s: State)
  {
    Running(s) && !s.phase.Draining? && !s.phase.Dispatching?
  }

  /** The one-shot item `id` was dispatched by the dispatch numbered `i` only. */
  ghost predicate FiredOnlyAt(fired: seq<Stamp>, id: nat, i: nat)
  {
    forall j :: 0 <= j < |fired| && j != i ==> fired[j].item.id != id || Periodic(fired[j].item.trigger)
  }

  /**
    Over every run: once the cycle counter has passed the time of a drained one-shot cycle item, the
    item has been dispatched, in a pass at exactly that cycle and in no other, unless it was cleared.
   */
  lemma CycleItemFiresExactlyOnce(clocks: Clocks, markers: u64, brk: bool, requests: seq<Request>,
                                  env: nat -> Inputs, n: nat, st: Stamp)
    requires var s := After(Initial(clocks, markers, brk, requests), env, 0, n);
             && BetweenPasses(s) && st in s.log.drained
             && st.item.trigger == CycleOnce && st.item.time < s.clocks.cycle
    ensures var s := After(Initial(clocks, markers, brk, requests), env, 0, n);
            st.item in s.log.cleared
            || exists i :: 0 <= i < |s.log.fired| && s.log.fired[i].item == st.item
                           && s.log.fired[i].now.cycle == st.item.time
                           && FiredOnlyAt(s.log.fired, st.item.id, i)
  {
    var s0 := Initial(clocks, markers, brk, requests);
    var s := After(s0, env, 0, n);
    InitialTiming(clocks, markers, brk, requests);
    InitialExact(clocks, markers, brk, requests);
    RunsKeepTiming(s0, env, 0, n);
    RunsExact(s0, env, 0, n);
    EveryItemInExactlyOnePlace(clocks, markers, brk, requests, env, n, st.item.id);
    if st.item !in s.log.cleared {
      NotOnListAnyMore(s, st.item);
      var i :| 0 <= i < |s.log.fired| && s.log.fired[i].item == st.item;
      assert OnTime(s.log.fired[i]);
      OnlyFiring(s, i);
    }
  }

  lemma OnlyFiring(s: State, i: nat)
    requires Running(s) && i < |s.log.fired| && !Periodic(s.log.fired[i].item.trigger)
    requires Conserved(s, s.log.fired[i].item.id)
    ensures FiredOnlyAt(s.log.fired, s.log.fired[i].item.id, i)
  {
    var id := s.log.fired[i].item.id;
    forall j | 0 <= j < |s.log.fired| && j != i
      ensures s.log.fired[j].item.id != id || Periodic(s.log.fired[j].item.trigger)
    {
      if s.log.fired[j].item.id == id && !Periodic(s.log.fired[j].item.trigger) {
        OneShotFiresAtMostOnce(s, i, j);
      }
    }
  }

  lemma NotOnListAnyMore(s: State, x: Item)
    requires Timing(s) && BetweenPasses(s) && x.trigger == CycleOnce && x.time < s.clocks.cycle
    ensures x !in s.lists.cycle
  {
    assert x in s.lists.cycle <==> x in s.lists.Get(CycleQ);
  }

  /**
    Over every run: the assertion that the head of the cycle list is not in the past fails only if
    some one-shot cycle item was drained after its cycle or the re-arming of a cycle period wrapped.
   */
  lemma CycleItemsMissedOnlyAfterOffence(clocks: Clocks, markers: u64, brk: bool, requests: seq<Request>,
                                         env: nat -> Inputs, n: nat)
    ensures var s := After(Initial(clocks, markers, brk, requests), env, 0, n);
            s.phase == Aborted(Missed(CycleQ)) ==> Offence(s.log)
  {
    InitialTiming(clocks, markers, brk, requests);
    InitialExact(clocks, markers, brk, requests);
    RunsExact(Initial(clocks, markers, brk, requests), env, 0, n);
  }

  /** A timed item of list `q` is behind its counter. */
  ghost predicate Late(l: Lists, q: Queue, now: Clocks)
  {
    exists x :: x in l.Get(q) && x.trigger != Now && x.time < now.Of(q)
  }

  /** Conversely, a pass that starts with such an item never completes: the assertion stops it. */
  lemma {:induction false} LateItemDoomsPass(s: State, now: Clocks, env: nat -> Inputs, k: nat, end: nat)
    requires s.phase == Dispatching(now) && Shape(s) && Late(s.lists, CycleQ, now)
    requires end == k + |s.lists.cycle|
    ensures var f := After(s, env, k, end).phase; f == Aborted(Missed(CycleQ)) || f == Aborted(NowWithTime)
    decreases 2 * |s.lists.cycle|
  {
    AfterFirst(s, env, k, end);
    NextLate(s, now, env(k), Step(s, env(k)));
    LateRest(Step(s, env(k)), now, env, k + 1, end);
  }

  lemma NextLate(s: State, now: Clocks, e: Inputs, t: State)
    requires s.phase == Dispatching(now) && Shape(s) && Late(s.lists, CycleQ, now) && t == Step(s, e)
    ensures Shape(t)
    ensures
      || t.phase == Aborted(Missed(CycleQ)) || t.phase == Aborted(NowWithTime)
      || (t.phase == Dispatching(now) && Late(t.lists, CycleQ, now) && |t.lists.cycle| + 1 == |s.lists.cycle|)
  {
    LateStep(s, now, e);
    StepShape(s, e);
  }

  lemma LateRest(t: State, now: Clocks, env: nat -> Inputs, k: nat, end: nat)
    requires Shape(t)
    requires
      || t.phase == Aborted(Missed(CycleQ)) || t.phase == Aborted(NowWithTime)
      || (t.phase == Dispatching(now) && Late(t.lists, CycleQ, now) && k + |t.lists.cycle| == end)
    ensures var f := After(t, env, k, end).phase; f == Aborted(Missed(CycleQ)) || f == Aborted(NowWithTime)
    decreases if t.phase.Dispatching? then 2 * |t.lists.cycle| + 1 else 0
  {
    if t.phase == Dispatching(now) {
      LateItemDoomsPass(t, now, env, k, end);
    } else {
      AfterAborted(t, env, k, end);
    }
  }

  lemma {:induction false} AfterAborted(s: State, env: nat -> Inputs, from: nat, end: nat)
    requires !Running(s)
    ensures After(s, env, from, end) == s
    decreases end
  {
    if from < end {
      AfterAborted(s, env, from, end - 1);
    }
  }

  /** What is found then: the item behind, or an immediate one in front of it. */
  lemma LateHead(l: Lists, now: Clocks)
    requires Valid(l) && Late(l, CycleQ, now)
    ensures ReadyEvent(l, now) == Overdue(CycleQ) || ImmediateHead(l, now)
  {
    var s := l.cycle;
    assert ListValid(l.Get(CycleQ), CycleQ);
    var x :| x in s && x.trigger != Now && x.time < now.cycle;
    var i :| 0 <= i < |s| && s[i] == x;
    assert s[0].time <= x.time;
    assert Order(0) == CycleQ;
    if s[0].trigger == Now {
      assert s[1..][i - 1] == x;
    }
  }

  ghost predicate ImmediateHead(l: Lists, now: Clocks)
  {
    && l.cycle != [] && l.cycle[0].trigger == Now && Late(l.Set(CycleQ, l.cycle[1..]), CycleQ, now)
    && ReadyEvent(l, now) == Found(l.cycle[0], l.Set(CycleQ, l.cycle[1..]))
  }

  lemma LateStep(s: State, now: Clocks, e: Inputs)
    requires s.phase == Dispatching(now) && Shape(s) && Late(s.lists, CycleQ, now)
    ensures var t := Step(s, e);
            || t.phase == Aborted(Missed(CycleQ)) || t.phase == Aborted(NowWithTime)
            || (t.phase == Dispatching(now) && Late(t.lists, CycleQ, now) && |t.lists.cycle| + 1 == |s.lists.cycle|)
  {
    LateHead(s.lists, now);
    if ImmediateHead(s.lists, now) {
      ImmediateStep(s, s.lists.cycle[0], s.lists.Set(CycleQ, s.lists.cycle[1..]), now, e.requests);
    }
  }

  lemma ImmediateStep(s: State, x: Item, rest: Lists, now: Clocks, requests: seq<Request>)
    requires s.phase == Dispatching(now) && x.trigger == Now
    ensures var t := DispatchOne(s, x, rest, now, requests);
            t.phase == Aborted(NowWithTime) || (t.phase == Dispatching(now) && t.lists == rest)
  {
    var u := s.(lists := rest);
    EnqueueAllFrame(u, requests);
    EnqueueAllFault(u, requests);
    FireFrame(EnqueueAll(u, requests), x, now);
  }
}
