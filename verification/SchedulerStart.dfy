/**
  The faults of the scheduler reached by runs that begin as the system does, with all counters at zero.
 */
module SchedulerStart {
  import opened Basics
  import opened UInt64
  import opened WorkItems
  import opened ScheduleSpec
  import opened SchedulerRun
  import opened SchedulerShape
  import opened SchedulerOrder
  import opened SchedulerMissed
  import opened SchedulerFate

  const ZERO: Clocks := Clocks(0, 0, 0, 0, 0)

  /** The scheduler loop is about to take `x`, and nothing else, off the worklist. */
  predicate AboutTo(s: State, x: Item)
  {
    s.phase == LoopTop && !s.exiting && s.work == [x] && Clears(x).None?
  }

  /** What one item leads to in three steps: the pass with the item on its list. */
  predicate Placed(s: State, x: Item, t: State)
  {
    && t.phase == Dispatching(s.clocks) && Place(s.lists, x, s.clocks) == Ok(t.lists) && t.work == [] && !t.brk
    && t.clocks == s.clocks && t.markers == s.markers && t.stopped == s.stopped && t.exiting == s.exiting
    && t.nextId == s.nextId
  }

  lemma PlaceFirst(s: State, x: Item, env: nat -> Inputs, k: nat)
    requires AboutTo(s, x) && Place(s.lists, x, s.clocks).Ok?
    ensures Placed(s, x, After(s, env, k, k + 3))
  {
    var s1 := Step(s, env(k));
    TakeOne(s1, x, s.clocks);
    AfterThree(s, env, k);
  }

  lemma AfterThree(s: State, env: nat -> Inputs, k: nat)
    ensures After(s, env, k, k + 2) == Step(Step(s, env(k)), env(k + 1))
    ensures After(s, env, k, k + 3) == Step(Step(Step(s, env(k)), env(k + 1)), env(k + 2))
  {
    assert After(s, env, k, k + 1) == Step(After(s, env, k, k), env(k));
  }

  lemma TakeOne(s: State, x: Item, now: Clocks)
    requires s.phase == Draining(now) && s.work == [x] && Clears(x).None?
    ensures TakenOff(s, now).work == [] && DrainOne(s, now) == PlaceItem(TakenOff(s, now), x, now)
  {
    assert s.work[1..] == [];
  }

  // ----- from any turn of the loop

  /** A command for a cycle that is past ends the run in the next pass. */
  lemma LateItemAborts(s: State, x: Item, env: nat -> Inputs, k: nat)
    requires AboutTo(s, x) && Timing(s) && x.trigger == CycleOnce && x.time < s.clocks.cycle
    ensures After(s, env, k, k + 4).phase == Aborted(Missed(CycleQ))
  {
    PlaceFirst(s, x, env, k);
    var t := After(s, env, k, k + 3);
    var l := s.lists.cycle;
    assert l != [] ==> l[0] in l;
    assert InsertOrdered(l, x) == [x] + l;
    assert t.lists.Get(CycleQ) == [x] + l && Order(0) == CycleQ;
    assert ReadyEvent(t.lists, s.clocks) == Overdue(CycleQ);
  }

  /** An instruction period that wraps around above a counter between the extremes never leaves the next pass. */
  lemma WrappingPeriodLoops(s: State, x: Item, env: nat -> Inputs, k: nat, n: nat)
    requires AboutTo(s, x) && Shape(s) && Timing(s) && !Doomed(s.lists, s.clocks) && HarmlessFrom(env, k + 3)
    requires x.trigger == InstPeriod && 0 < s.clocks.inst < MAX && x.period > 0 && !Fits(s.clocks.inst, 1, x.period)
    requires k + 3 <= n
    ensures After(s, env, k, n).phase == Dispatching(s.clocks)
  {
    WrapIsPlaced(s.lists, x, s.clocks);
    PlaceFirst(s, x, env, k);
    RunsKeepTiming(s, env, k, k + 3);
    LoopsForEver(After(s, env, k, k + 3), s.clocks, env, k + 3, n);
    AfterCompose(s, env, k, k + 3, n);
  }

  lemma WrapIsPlaced(l: Lists, x: Item, now: Clocks)
    requires !Doomed(l, now) && x.trigger == InstPeriod && 0 < now.inst < MAX
    requires x.period > 0 && !Fits(now.inst, 1, x.period)
    ensures Place(l, x, now).Ok? && FateOf(Place(l, x, now).value, now) == Loops
  {
    AlignIsPresentIff(now.inst, 1, x.period);
    RearmIsFutureIffFits(x, now);
    PlaceElements(l, x, now);
    var y, l' := Rearm(x, now).value, Place(l, x, now).value;
    assert IsStuck(y, InstQ, now) && y in l'.Get(InstQ);
    assert StuckOn(l', InstQ, now) && Stuck(l', now);
    assert forall q: Queue :: Rank(q) <= 1 ==> l'.Get(q) == l.Get(q);
    assert !Doomed(l', now);
  }

  // ----- from the beginning

  /** The system starts; until the first clock step the surroundings stay silent, and in it they issue one command. */
  predicate OneCommand(env: nat -> Inputs, r: Request)
  {
    && env(3).requests == [] && env(5).requests == [] && env(6).requests == []
    && env(7).requests == [r] && env(7).markers == 0
  }

  function Begin(brk: bool): State
  {
    Initial(ZERO, 0, brk, [StartRequest])
  }

  lemma EnqueueNone(s: State)
    ensures EnqueueAll(s, []) == s
  {
  }

  lemma EnqueueOne(s: State, r: Request)
    ensures EnqueueAll(s, [r]) == Enqueue(s, r)
  {
    assert [r][1..] == [];
    EnqueueNone(Enqueue(s, r));
  }

  const START_ITEM: Item := Item(0, Start, Now, 0, 0)

  /** The first pass has the start command on the cycle list. */
  lemma StartIsPlaced(brk: bool, env: nat -> Inputs)
    ensures var s := After(Begin(brk), env, 0, 3);
            && s.phase == Dispatching(ZERO) && s.lists == EMPTY.(cycle := [START_ITEM]) && s.work == [] && !s.brk
            && s.clocks == ZERO && s.markers == 0 && !s.stopped && !s.exiting && s.nextId == 1
  {
    EnqueueOne(State(LoopTop, [], EMPTY, ZERO, 0, true, false, brk, 0, NO_HISTORY), StartRequest);
    assert InsertOrdered([], START_ITEM) == [START_ITEM];
    PlaceFirst(Begin(brk), START_ITEM, env, 0);
  }

  /** It is dispatched, and nothing else is due: */
  lemma StartIsDispatched(s: State, e: Inputs, t: State)
    requires s.phase == Dispatching(ZERO) && s.lists == EMPTY.(cycle := [START_ITEM]) && e.requests == []
    requires t == Step(s, e)
    ensures t.phase == Dispatching(ZERO) && t.lists == EMPTY && t.work == s.work && t.brk == s.brk
    ensures t.clocks == s.clocks
    ensures t.markers == s.markers && !t.stopped && t.exiting == s.exiting && t.nextId == s.nextId
  {
    assert Order(0) == CycleQ;
    assert [START_ITEM][1..] == [];
    assert ReadyEvent(s.lists, ZERO) == Found(START_ITEM, EMPTY);
    EnqueueNone(s.(lists := EMPTY));
  }

  lemma EmptyIsQuiet(now: Clocks)
    ensures ReadyEvent(EMPTY, now) == Nothing
  {
    assert ReadyFrom(EMPTY, now, 5) == Nothing;
    assert ReadyFrom(EMPTY, now, 4) == Nothing;
    assert ReadyFrom(EMPTY, now, 3) == Nothing;
    assert ReadyFrom(EMPTY, now, 2) == Nothing;
    assert ReadyFrom(EMPTY, now, 1) == Nothing;
  }

  const NO_STOP: Clocks := Clocks(MAX, MAX, MAX, MAX, MAX)

  /** the performance model is run without a stop time. */
  lemma PassToClock(s: State, a: Inputs, b: Inputs, c: Inputs, t: State)
    requires s.phase == Dispatching(ZERO) && s.lists == EMPTY && !s.stopped && !s.exiting && s.markers == 0
    requires b.requests == [] && c.requests == [] && t == Step(Step(Step(s, a), b), c)
    ensures t == s.(phase := Executing(NO_STOP, 1))
  {
    EmptyIsQuiet(ZERO);
    var s1 := Step(s, a);
    EnqueueNone(s1);
    assert StopTimes(EMPTY, ZERO) == NO_STOP && AllLater(NO_STOP, ZERO);
    EnqueueNone(Step(s1, b));
  }

  /** The command breaks the clock loop after its first step. */
  lemma ClockAndLeave(s: State, e: Inputs, a: Inputs, command: Command, trigger: Trigger, n: u64, t: State)
    requires s.phase == Executing(NO_STOP, 1) && s.clocks == ZERO && s.markers == 0 && !s.brk && s.work == []
    requires s.nextId == 1 && !s.exiting
    requires (trigger == Now ==> n == 0) && e.requests == [CommandRequest(command, trigger, n)] && e.markers == 0
    requires t == Step(Step(s, e), a)
    ensures t.phase == LoopTop && !t.exiting && t.work == [Item(1, command, trigger, n, n)] && t.lists == s.lists
    ensures t.clocks == e.clocks.(cycle := 1)
  {
    EnqueueOne(s, e.requests[0]);
    assert Add(0, 1) == 1;
    LeaveExecutingFrame(Step(s, e));
  }

  /** The turn of the loop that follows the first clock step has the command to drain, and empty lists. */
  lemma FirstClock(brk: bool, env: nat -> Inputs, command: Command, trigger: Trigger, n: u64)
    requires OneCommand(env, CommandRequest(command, trigger, n)) && (trigger == Now ==> n == 0)
    ensures var s := After(Begin(brk), env, 0, 9);
            && s.phase == LoopTop && !s.exiting && s.work == [Item(1, command, trigger, n, n)] && s.lists == EMPTY
            && s.clocks == env(7).clocks.(cycle := 1) && Shape(s) && Timing(s)
  {
    var s := Begin(brk);
    StartIsPlaced(brk, env);
    StartIsDispatched(After(s, env, 0, 3), env(3), After(s, env, 0, 4));
    AfterThree(After(s, env, 0, 4), env, 4);
    AfterCompose(s, env, 0, 4, 7);
    PassToClock(After(s, env, 0, 4), env(4), env(5), env(6), After(s, env, 0, 7));
    AfterThree(After(s, env, 0, 7), env, 7);
    AfterCompose(s, env, 0, 7, 9);
    ClockAndLeave(After(s, env, 0, 7), env(7), env(8), command, trigger, n, After(s, env, 0, 9));
    InitialTiming(ZERO, 0, brk, [StartRequest]);
    RunsKeepTiming(s, env, 0, 9);
  }

  /** A command for cycle 0 that is issued during the first cycle ends the run in an assertion. */
  lemma LateCommandAborts(brk: bool, env: nat -> Inputs, command: Command)
    requires OneCommand(env, CommandRequest(command, CycleOnce, 0)) && Clears(Item(1, command, CycleOnce, 0, 0)).None?
    ensures After(Begin(brk), env, 0, 13).phase == Aborted(Missed(CycleQ))
  {
    FirstClock(brk, env, command, CycleOnce, 0);
    LateItemAborts(After(Begin(brk), env, 0, 9), Item(1, command, CycleOnce, 0, 0), env, 9);
    AfterCompose(Begin(brk), env, 0, 9, 13);
  }

  /** The largest instruction period, if the first cycle commits anything: the pass that follows never ends. */
  lemma LargestPeriodLoops(brk: bool, env: nat -> Inputs, n: nat)
    requires OneCommand(env, CommandRequest(Other, InstPeriod, MAX)) && 0 < env(7).clocks.inst < MAX
    requires HarmlessFrom(env, 12) && n >= 12
    ensures After(Begin(brk), env, 0, n).phase == Dispatching(env(7).clocks.(cycle := 1))
  {
    FirstClock(brk, env, Other, InstPeriod, MAX);
    EmptyIsNotDoomed(env(7).clocks.(cycle := 1));
    AfterCompose(Begin(brk), env, 0, 9, n);
    WrappingPeriodLoops(After(Begin(brk), env, 0, 9), Item(1, Other, InstPeriod, MAX, MAX), env, 9, n);
  }

  lemma EmptyIsNotDoomed(now: Clocks)
    ensures !Doomed(EMPTY, now)
  {
    assert forall q: Queue :: EMPTY.Get(q) == [];
  }

  /** Before anything is committed the same command fails an assertion instead. */
  lemma LargestPeriodAborts(brk: bool, env: nat -> Inputs)
    ensures After(Initial(ZERO, 0, brk, [CommandRequest(Other, InstPeriod, MAX)]), env, 0, 2).phase
         == Aborted(RearmedToNow)
  {
    var x, r := Item(0, Other, InstPeriod, MAX, MAX), CommandRequest(Other, InstPeriod, MAX);
    var s := Initial(ZERO, 0, brk, [r]);
    EnqueueOne(State(LoopTop, [], EMPTY, ZERO, 0, true, false, brk, 0, NO_HISTORY), r);
    AlignIsPresentIff(0, 1, MAX);
    TakeOne(Step(s, env(0)), x, ZERO);
    AfterThree(s, env, 0);
  }
}
