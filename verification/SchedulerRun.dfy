/**
  The controller's scheduler loop and the clock loop of the single-chip system as a state machine.
  One step is one iteration of the innermost loop that is active, or one transition between loops.
  Everything the controller cannot see (the simulated chip, the feeders, the workbench) is an input
  that each step takes: the commands it issues and the counters it reports.
 */
module SchedulerRun {
  import opened Basics
  import opened UInt64
  import opened WorkItems
  import opened ScheduleSpec

  /** A call of the command interface. */
  datatype Request =
    | StartRequest                                                  // CMD_Start
    | ExitCondition                                                 // CheckExitConditions: no break
    | CommandRequest(command: Command, trigger: Trigger, n: u64)    // the other CMD_ functions

  /** What the surroundings do during one step. */
  datatype Inputs = Inputs(requests: seq<Request>, clocks: Clocks, markers: u64)

  datatype Phase =
    | LoopTop
    | Draining(now: Clocks)
    | Dispatching(now: Clocks)
    | Informing(now: Clocks)
    | Starting(stop: Clocks)
    | Executing(stop: Clocks, stopMarker: u64)
    | Exited
    | Aborted(fault: Fault)

  datatype Stamp = Stamp(item: Item, now: Clocks)

  /**
    What has happened so far.  None of it influences a step.
      drained    items put on the schedule from the worklist, with the counters of that pass
      placed     ids of the items put on a list, drained or re-armed, in that order
      fired      dispatches, in order, with the counters of that pass
      cleared    progress items cleared from the schedule, and the clear commands themselves
      quiet      ids of items added without a break
      watch      the STOP queued for a committed marker, until a start intervenes
      passStart  the schedule when the current pass began to dispatch
      passPlaced how many items had been put on lists by then
      passLog    what the current pass has dispatched
   */
  datatype History = History(drained: seq<Stamp>, placed: seq<nat>, fired: seq<Stamp>, cleared: seq<Item>,
                             quiet: set<nat>, watch: Option<nat>, passStart: Lists, passPlaced: nat, passLog: seq<Item>)

  datatype State = State(phase: Phase, work: seq<Item>, lists: Lists, clocks: Clocks, markers: u64,
                         stopped: bool, exiting: bool, brk: bool, nextId: nat, log: History)

  // ----- the command interface

  function Enqueue(s: State, r: Request): State
  {
    if s.phase.Aborted? then s
    else
      match r
      case StartRequest =>
        s.(stopped := false, work := s.work + [Item(s.nextId, Start, Now, 0, 0)], brk := true,
           nextId := s.nextId + 1, log := s.log.(watch := None))
      case ExitCondition =>
        s.(work := s.work + [Item(s.nextId, Exit, Now, 0, 0)],
           nextId := s.nextId + 1, log := s.log.(quiet := s.log.quiet + {s.nextId}))
      case CommandRequest(c, t, n) =>
        if t == Now && n != 0 then s.(phase := Aborted(NowWithTime))
        else s.(work := s.work + [Item(s.nextId, c, t, n, n)], brk := true, nextId := s.nextId + 1)
  }

  function EnqueueAll(s: State, rs: seq<Request>): State
    decreases rs
  {
    if rs == [] then s else EnqueueAll(Enqueue(s, rs[0]), rs[1..])
  }

  // ----- draining the worklist

  function ClearedQueue(kind: ProgressKind): Option<Queue>
  {
    match kind
    case ClearNanosecond => Some(NanosecondQ)
    case ClearCycle => Some(CycleQ)
    case ClearInst => Some(InstQ)
    case ClearMacroInst => Some(MacroInstQ)
    case ClearPacket => Some(PacketQ)
    case Report => None
  }

  /** The list a clear command clears, if the item is one. */
  function Clears(x: Item): Option<Queue>
  {
    if x.command.Progress? then ClearedQueue(x.command.kind) else None
  }

  function PlaceItem(s: State, x: Item, now: Clocks): State
  {
    match Place(s.lists, x, now)
    case Failed(f) => s.(phase := Aborted(f))
    case Ok(l) => s.(lists := l, log := s.log.(placed := s.log.placed + [x.id]))
  }

  /** The first item is off the worklist and about to be put on the schedule. */
  ghost function TakenOff(s: State, now: Clocks): State
    requires s.work != []
  {
    s.(work := s.work[1..], log := s.log.(drained := s.log.drained + [Stamp(s.work[0], now)]))
  }

  ghost function DrainOne(s: State, now: Clocks): State
    requires s.work != []
  {
    var x := s.work[0];
    match Clears(x)
    case Some(q) =>
      var l := s.lists.Get(q);
      s.(work := s.work[1..], lists := s.lists.Set(q, WithoutProgress(l)),
         log := s.log.(cleared := s.log.cleared + OnlyProgress(l) + [x]))
    case None => PlaceItem(TakenOff(s, now), x, now)
  }

  /** The worklist is empty: the pass begins to dispatch. */
  function StartPass(s: State, now: Clocks): State
  {
    s.(brk := false, phase := Dispatching(now),
       log := s.log.(passStart := s.lists, passPlaced := |s.log.placed|, passLog := []))
  }

  // ----- dispatching

  /** The controller's own action for a dispatched item. */
  function CmdAction(s: State, c: Command): State
  {
    match c
    case Start => s.(stopped := false, log := s.log.(watch := None))
    case Stop => s.(stopped := true)
    case Exit => s.(exiting := true)
    case _ => s
  }

  function Fire(s: State, x: Item, now: Clocks): State
  {
    CmdAction(s.(log := s.log.(fired := s.log.fired + [Stamp(x, now)], passLog := s.log.passLog + [x])), x.command)
  }

  function DispatchOne(s: State, x: Item, rest: Lists, now: Clocks, requests: seq<Request>): State
  {
    var s1 := EnqueueAll(s.(lists := rest), requests);
    if s1.phase.Aborted? then s1
    else
      var s2 := Fire(s1, x, now);
      if Periodic(x.trigger) then PlaceItem(s2, x, now) else s2
  }

  // ----- running the performance model

  function StopTimes(l: Lists, now: Clocks): Clocks
  {
    Clocks(NextEvent(l, NanosecondQ, now), NextEvent(l, CycleQ, now), NextEvent(l, InstQ, now),
           NextEvent(l, MacroInstQ, now), NextEvent(l, PacketQ, now))
  }

  /** Every stop time differs from the counter it belongs to. */
  predicate AllLater(stop: Clocks, now: Clocks)
  {
    forall q: Queue :: stop.Of(q) != now.Of(q)
  }

  function LeaveInforming(s: State, now: Clocks): State
  {
    if s.phase.Aborted? then s
    else if s.stopped || s.exiting then s.(phase := LoopTop)
    else
      var stop := StopTimes(s.lists, now);
      if AllLater(stop, now) then s.(phase := Starting(stop)) else s.(phase := Aborted(NotLater))
  }

  /** The test of the clock loop. */
  predicate CanClock(s: State)
    requires s.phase.Executing?
  {
    !s.brk && s.clocks.cycle < s.phase.stop.cycle && s.clocks.inst < s.phase.stop.inst
    && s.clocks.macroInst < s.phase.stop.macroInst && s.markers < s.phase.stopMarker
  }

  function ClockOne(s: State, e: Inputs): State
  {
    var s1 := EnqueueAll(s, e.requests);
    if s1.phase.Aborted? then s1
    else s1.(clocks := e.clocks.(cycle := Add(s.clocks.cycle, 1)), markers := e.markers)
  }

  function LeaveExecuting(s: State): State
    requires s.phase.Executing?
  {
    if s.markers >= s.phase.stopMarker then
      Enqueue(s, CommandRequest(Stop, Now, 0)).(phase := LoopTop, log := s.log.(watch := Some(s.nextId)))
    else
      s.(phase := LoopTop)
  }

  function EnterExecuting(s: State, stop: Clocks, stopMarker: u64): State
  {
    if s.phase.Aborted? then s else s.(phase := Executing(stop, stopMarker))
  }

  ghost function Step(s: State, e: Inputs): State
  {
    match s.phase
    case LoopTop => if s.exiting then s.(phase := Exited) else s.(phase := Draining(s.clocks))
    case Draining(now) =>
      if s.work != [] then DrainOne(s, now)
      else StartPass(s, now)
    case Dispatching(now) => (
      match ReadyEvent(s.lists, now)
      case Nothing => s.(phase := Informing(now))
      case Overdue(q) => s.(phase := Aborted(Missed(q)))
      case Found(x, rest) => DispatchOne(s, x, rest, now, e.requests))
    case Informing(now) => LeaveInforming(EnqueueAll(s, e.requests), now)
    case Starting(stop) => EnterExecuting(EnqueueAll(s, e.requests), stop, Add(s.markers, 1))
    case Executing(stop, stopMarker) => if CanClock(s) then ClockOne(s, e) else LeaveExecuting(s)
    case Exited => s
    case Aborted(f) => s
  }

  /** The state after the steps numbered `from` up to `end`, with the surroundings given by `env`. */
  ghost function After(s: State, env: nat -> Inputs, from: nat, end: nat): State
    decreases end
  {
    if end <= from then s else Step(After(s, env, from, end - 1), env(end - 1))
  }

  const NO_HISTORY: History := History([], [], [], [], {}, None, EMPTY, 0, [])

  /** The controller after initialisation, with the commands issued before the loop is entered. */
  function Initial(clocks: Clocks, markers: u64, brk: bool, requests: seq<Request>): State
  {
    EnqueueAll(State(LoopTop, [], EMPTY, clocks, markers, true, false, brk, 0, NO_HISTORY), requests)
  }

  /** A run can be split after any step. */
  lemma {:induction false} AfterCompose(s: State, env: nat -> Inputs, a: nat, b: nat, c: nat)
    requires a <= b <= c
    ensures After(After(s, env, a, b), env, b, c) == After(s, env, a, c)
    decreases c
  {
    if b < c {
      AfterCompose(s, env, a, b, c - 1);
    }
  }

  lemma AfterFirst(s: State, env: nat -> Inputs, a: nat, c: nat)
    requires a < c
    ensures After(s, env, a, c) == After(Step(s, env(a)), env, a + 1, c)
  {
    AfterCompose(s, env, a, a + 1, c);
    assert After(s, env, a, a) == s;
  }

  /** A marker: mentioning it makes what `RunOf` says of the state before step `n` known in detail. */
  ghost predicate StepOpened(s: State, from: nat, n: nat)
  {
    true
  }

  ghost predicate Describes(run: nat -> State, s: State, env: nat -> Inputs, from: nat)
  {
    forall n: nat {:trigger StepOpened(s, from, n)} :: StepOpened(s, from, n) ==> run(n) == After(s, env, from, n)
  }

  /** From step `from` on, the state before each step of the run that begins in `s`; kept closed. */
  ghost function RunOf(s: State, env: nat -> Inputs, from: nat): nat -> State
  {
    assert Describes((n: nat) => After(s, env, from, n), s, env, from);
    var run: nat -> State :| Describes(run, s, env, from);
    run
  }

  ghost predicate IsRun(run: nat -> State, env: nat -> Inputs, from: nat)
  {
    run == RunOf(run(from), env, from)
  }

  lemma RunFrom(s: State, env: nat -> Inputs, from: nat) returns (run: nat -> State)
    ensures IsRun(run, env, from) && run(from) == s
  {
    run := RunOf(s, env, from);
    assert StepOpened(s, from, from);
  }

  lemma NextOf(run: nat -> State, env: nat -> Inputs, from: nat, n: nat)
    requires IsRun(run, env, from) && from <= n
    ensures run(n + 1) == Step(run(n), env(n))
  {
    assert StepOpened(run(from), from, n) && StepOpened(run(from), from, n + 1);
  }

  lemma RunIsAfter(run: nat -> State, env: nat -> Inputs, from: nat, k: nat, n: nat)
    requires IsRun(run, env, from) && from <= k <= n
    ensures run(n) == After(run(k), env, k, n)
  {
    assert StepOpened(run(from), from, k) && StepOpened(run(from), from, n);
    AfterCompose(run(from), env, from, k, n);
  }
}
