/**
  The controller object: its command interface, its scheduler loop and the clock loop it drives.  Each
  method is proved to perform exactly the steps of the state machine, so that what is proved of all
  runs of the machine holds of the program.
 */
module Controllers {
  import opened Basics
  import opened UInt64
  import opened WorkItems
  import opened ScheduleSpec
  import opened SchedulerRun
  import opened SchedulerShape
  import opened SchedulerOrder
  import opened SchedulerFate
  import opened SchedulerIteration
  import opened Worklists
  import opened Schedules

  /** The controller drains before step `t`; the iteration is through by step `end`. */
  ghost predicate InDrain(run: nat -> State, t: nat, s: State, now: Clocks, end: nat)
  {
    s == run(t) && s.phase == Draining(now) && t < end && IsThrough(run(end).phase)
  }

  /** One drained item is one step. */
  lemma DrainStep(run: nat -> State, env: nat -> Inputs, from: nat, t: nat, s: State, now: Clocks, end: nat)
    requires IsRun(run, env, from) && from <= t && InDrain(run, t, s, now, end) && s.work != []
    ensures var u := DrainOne(s, now); u == run(t + 1) && (u.phase.Aborted? || InDrain(run, t + 1, u, now, end))
  {
    NextOf(run, env, from, t);
    DrainsOne(s, now);
  }

  /** The drained worklist starts a pass, which has an end. */
  lemma PassStep(run: nat -> State, env: nat -> Inputs, from: nat, t: nat, s: State, now: Clocks, end: nat)
    requires IsRun(run, env, from) && from <= t && InDrain(run, t, s, now, end) && s.work == []
    ensures StartPass(s, now) == run(t + 1) && Ends(run(t + 1), now, env, t + 1)
  {
    NextOf(run, env, from, t);
    RunIsAfter(run, env, from, t + 1, end);
    EndExists(run(t + 1), now, env, t + 1, end);
  }

  /** One iteration of the clock loop is one step, and so is leaving it. */
  lemma ClockStep(run: nat -> State, env: nat -> Inputs, from: nat, t: nat)
    requires IsRun(run, env, from) && from <= t && run(t).phase.Executing?
    ensures var s := run(t);
            && run(t + 1) == (if CanClock(s) then ClockOne(s, env(t)) else LeaveExecuting(s))
            && (CanClock(s) ==>
                  run(t + 1).phase.Aborted?
                  || (run(t + 1).phase == s.phase && run(t + 1).clocks.cycle == s.clocks.cycle + 1))
  {
    NextOf(run, env, from, t);
    EnqueueAllFrame(run(t), env(t).requests);
  }

  /** The clock loop runs before step `t`, and `more` is the outcome of its test. */
  predicate InClock(run: nat -> State, t: nat, stop: Clocks, stopMarker: u64, more: bool)
  {
    run(t).phase == Executing(stop, stopMarker) && more == CanClock(run(t))
  }

  /** A marker: mentioning it makes what `NextReady` is known in detail. */
  ghost predicate LookOpened(s: State, n: int)
  {
    true
  }

  /** What looking for a ready item finds; kept closed. */
  ghost function NextReady(s: State, now: Clocks): Ready
  {
    assert IsNextReady(ReadyEvent(s.lists, now), s, now);
    var r: Ready :| IsNextReady(r, s, now);
    r
  }

  ghost predicate IsNextReady(r: Ready, s: State, now: Clocks)
  {
    forall n :: LookOpened(s, n) ==> r == ReadyEvent(s.lists, now)
  }

  lemma OpenReady(s: State, now: Clocks)
    ensures NextReady(s, now) == ReadyEvent(s.lists, now)
  {
    assert LookOpened(s, 0);
  }

  /** The controller dispatches before step `t`; the pass is over by step `end`. */
  predicate InPass(run: nat -> State, t: nat, now: Clocks, end: nat)
  {
    run(t).phase == Dispatching(now) && t < end && run(end).phase != Dispatching(now)
  }

  lemma EnterPass(run: nat -> State, env: nat -> Inputs, from: nat, now: Clocks) returns (end: nat)
    requires IsRun(run, env, from) && run(from).phase == Dispatching(now) && Ends(run(from), now, env, from)
    ensures InPass(run, from, now, end)
  {
    end :| PassEnds(run(from), now, env, from, end);
    EndIsOver(run(from), now, env, from, end);
    RunIsAfter(run, env, from, from, end);
  }

  /** One dispatch is one step, and the last of the pass only if an assertion fails. */
  lemma DispatchStep(run: nat -> State, env: nat -> Inputs, from: nat, t: nat, now: Clocks, end: nat)
    requires IsRun(run, env, from) && from <= t && InPass(run, t, now, end) && ReadyEvent(run(t).lists, now).Found?
    ensures var r := ReadyEvent(run(t).lists, now);
            && run(t + 1) == DispatchOne(run(t), r.item, r.rest, now, env(t).requests)
            && (run(t + 1).phase.Aborted? || InPass(run, t + 1, now, end))
  {
    var r := ReadyEvent(run(t).lists, now);
    NextOf(run, env, from, t);
    DispatchLists(run(t), r.item, r.rest, now, env(t).requests);
  }

  /** The end of a pass is one step. */
  lemma LastDispatchStep(run: nat -> State, env: nat -> Inputs, from: nat, t: nat, now: Clocks)
    requires IsRun(run, env, from) && from <= t && run(t).phase == Dispatching(now)
    ensures match ReadyEvent(run(t).lists, now)
            case Nothing => run(t + 1) == run(t).(phase := Informing(now))
            case Overdue(q) => run(t + 1) == run(t).(phase := Aborted(Missed(q)))
            case Found(x, rest) => true
  {
    NextOf(run, env, from, t);
  }

  lemma LaterByCases(stop: Clocks, now: Clocks)
    ensures AllLater(stop, now) <==>
            stop.cycle != now.cycle && stop.macroInst != now.macroInst && stop.inst != now.inst
            && stop.packet != now.packet && stop.nanosecond != now.nanosecond
  {
    assert forall q: Queue :: stop.Of(q) != now.Of(q) <==>
             match q
             case CycleQ => stop.cycle != now.cycle
             case NanosecondQ => stop.nanosecond != now.nanosecond
             case InstQ => stop.inst != now.inst
             case MacroInstQ => stop.macroInst != now.macroInst
             case PacketQ => stop.packet != now.packet;
    assert stop.Of(CycleQ) == stop.cycle && stop.Of(NanosecondQ) == stop.nanosecond && stop.Of(InstQ) == stop.inst
           && stop.Of(MacroInstQ) == stop.macroInst && stop.Of(PacketQ) == stop.packet;
  }

  /** The part of the simulated system the controller sees. */
  class System {
    var clocks: Clocks
    var markers: u64
    var sysBreak: bool

    constructor (clocks: Clocks, markers: u64, sysBreak: bool)
      ensures this.clocks == clocks && this.markers == markers && this.sysBreak == sysBreak
    {
      this.clocks := clocks;
      this.markers := markers;
      this.sysBreak := sysBreak;
    }
  }

  /** A marker: mentioning it for a controller makes its validity known in detail. */
  ghost predicate Opened(controller: Controller, n: int)
  {
    true
  }

  class Controller {
    const system: System
    const workList: WorkList
    const schedule: Schedule
    /** What the surroundings do in each step. */
    const env: nat -> Inputs
    var pmStopped: bool
    var pmExiting: bool
    var nextId: nat
    /** An assertion has failed and the program is dead. */
    var verdict: Verdict
    ghost var phase: Phase
    ghost var log: History
    ghost var Repr: set<object>

    /** The parts are intact and share nothing, so no item is both on the worklist and on the schedule. */
    ghost predicate Intact()
      reads this, Repr
    {
      && {this, system, workList, schedule} <= Repr && schedule.Repr <= Repr && workList.Repr <= Repr
      && this !in schedule.Repr && system !in schedule.Repr && this !in workList.Repr && system !in workList.Repr
      && schedule.Repr !! workList.Repr
      && schedule.Valid()
      && workList.Valid()
      && (forall x :: x in workList.contents ==> WellFormed(x))
    }

    /** The same, spelled out for the solver only where `Opened` is mentioned for this controller. */
    ghost predicate Valid()
      reads this, Repr
      ensures Valid() ==> {this, system, workList} <= Repr && workList.Repr <= Repr
      ensures Valid() ==> (verdict.Broken? <==> phase.Aborted?)
    {
      && {this, system, workList} <= Repr && workList.Repr <= Repr
      && (verdict.Broken? <==> phase.Aborted?)
      && (phase.Aborted? ==> verdict == Broken(phase.fault))
      && forall n :: Opened(this, n) ==> Intact()
    }

    ghost function Abs(): State
      requires Valid()
      reads this, Repr
    {
      assert Opened(this, 0);
      State(phase, workList.contents, schedule.Abs(), system.clocks, system.markers,
            pmStopped, pmExiting, system.sysBreak, nextId, log)
    }

    constructor (clocks: Clocks, markers: u64, sysBreak: bool, env: nat -> Inputs)
      ensures Valid() && fresh(Repr)
      ensures Abs() == Initial(clocks, markers, sysBreak, [])
      ensures this.env == env
    {
      system := new System(clocks, markers, sysBreak);
      workList := new WorkList();
      schedule := new Schedule();
      this.env := env;
      pmStopped, pmExiting, nextId, verdict := true, false, 0, Fine;
      phase, log := LoopTop, NO_HISTORY;
      new;
      workList.NewIsEmpty();
      Repr := {this, system, workList, schedule} + schedule.Repr + workList.Repr;
      assert Intact();
      assert Opened(this, 0) && Valid();
    }

    // ----- the command interface

    /** Create a work item and add it to the worklist. */
    method AddItem(command: Command, trigger: Trigger, n: u64)
      requires Valid() && (trigger == Now ==> n == 0)
      modifies this, system, workList.Repr
      ensures Valid() && old(Repr) <= Repr && fresh(Repr - old(Repr)) && fresh(workList.Repr - old(workList.Repr))
      ensures Abs() == old(Abs()).(work := old(Abs()).work + [Item(old(nextId), command, trigger, n, n)],
                                   nextId := old(nextId) + 1)
    {
      assert Opened(this, 0);
      var wi := new WorkItem(nextId, command, trigger, n);
      AddNew(wi);
    }

    /** Add an item that is nowhere yet, and go on to the next number. */
    method AddNew(wi: WorkItem)
      requires Valid() && wi !in Repr && wi.next == null && WellFormed(wi.Value())
      modifies this, workList.Repr, wi
      ensures Valid() && Repr == old(Repr) + {wi} && fresh(workList.Repr - old(workList.Repr) - {wi})
      ensures Abs() == old(Abs()).(work := old(Abs()).work + [old(wi.Value())], nextId := old(nextId) + 1)
    {
      assert Opened(this, 0);
      workList.Add(wi);
      nextId := nextId + 1;
      Repr := Repr + {wi};
      assert Intact();
    }

    /** An assertion fails. */
    method Fail(f: Fault)
      requires Valid()
      modifies this
      ensures Valid() && Repr == old(Repr)
      ensures Abs() == old(Abs()).(phase := Aborted(f))
    {
      assert Opened(this, 0);
      verdict, phase := Broken(f), Aborted(f);
    }

    /** Add an item and break the performance model, so that control returns to the controller. */
    method AddAndBreak(command: Command, trigger: Trigger, n: u64)
      requires Valid() && (trigger == Now ==> n == 0)
      modifies this, system, workList.Repr
      ensures Valid() && old(Repr) <= Repr && fresh(Repr - old(Repr)) && fresh(workList.Repr - old(workList.Repr))
      ensures Abs() == old(Abs()).(work := old(Abs()).work + [Item(old(nextId), command, trigger, n, n)],
                                   brk := true, nextId := old(nextId) + 1)
    {
      AddItem(command, trigger, n);
      SetBreak();
    }

    method SetBreak()
      requires Valid()
      modifies system
      ensures Valid() && Abs() == old(Abs()).(brk := true)
    {
      assert Opened(this, 0);
      system.sysBreak := true;
      assert Intact();
    }

    /** A call of the command interface. */
    method Enqueue(r: Request)
      requires Valid()
      modifies this, system, workList.Repr
      ensures Valid() && old(Repr) <= Repr && fresh(Repr - old(Repr)) && fresh(workList.Repr - old(workList.Repr))
      ensures Abs() == SchedulerRun.Enqueue(old(Abs()), r)
    {
      if verdict.Broken? {
        return;
      }
      match r
      case StartRequest => StartPm();
      case ExitCondition => CheckExit();
      case CommandRequest(c, t, n) =>
        if t == Now && n != 0 {
          Fail(NowWithTime);
        } else {
          AddAndBreak(c, t, n);
        }
    }

    /** Start the performance model. */
    method StartPm()
      requires Valid() && !phase.Aborted?
      modifies this, system, workList.Repr
      ensures Valid() && old(Repr) <= Repr && fresh(Repr - old(Repr)) && fresh(workList.Repr - old(workList.Repr))
      ensures Abs() == SchedulerRun.Enqueue(old(Abs()), StartRequest)
    {
      ForgetWatch();
      AddAndBreak(Start, Now, 0);
    }

    /** The controller is no longer stopped, and no STOP for a marker is owed. */
    method ForgetWatch()
      requires Valid()
      modifies this
      ensures Valid() && Repr == old(Repr)
      ensures Abs() == old(Abs()).(stopped := false, log := old(log).(watch := None))
    {
      assert Opened(this, 0);
      pmStopped := false;
      log := log.(watch := None);
    }

    /** An exit condition has been met. */
    method CheckExit()
      requires Valid() && !phase.Aborted?
      modifies this, system, workList.Repr
      ensures Valid() && old(Repr) <= Repr && fresh(Repr - old(Repr)) && fresh(workList.Repr - old(workList.Repr))
      ensures Abs() == SchedulerRun.Enqueue(old(Abs()), ExitCondition)
    {
      SetQuiet();
      AddItem(Exit, Now, 0);
    }

    ghost method SetQuiet()
      requires Valid()
      modifies this
      ensures Valid() && Repr == old(Repr)
      ensures Abs() == old(Abs()).(log := old(log).(quiet := old(log).quiet + {old(nextId)}))
    {
      assert Opened(this, 0);
      log := log.(quiet := log.quiet + {nextId});
    }

    /** The calls that the surroundings make in one step. */
    method EnqueueAll(rs: seq<Request>)
      requires Valid()
      modifies this, system, workList.Repr
      ensures Valid() && old(Repr) <= Repr && fresh(Repr - old(Repr)) && fresh(workList.Repr - old(workList.Repr))
      ensures Abs() == SchedulerRun.EnqueueAll(old(Abs()), rs)
    {
      for i := 0 to |rs|
        invariant Valid() && old(Repr) <= Repr && fresh(Repr - old(Repr)) && fresh(workList.Repr - old(workList.Repr))
        invariant SchedulerRun.EnqueueAll(Abs(), rs[i..]) == SchedulerRun.EnqueueAll(old(Abs()), rs)
      {
        assert rs[i..][0] == rs[i] && rs[i..][1..] == rs[i + 1..];
        Enqueue(rs[i]);
      }
    }

    // ----- draining the worklist

    /** An item that is in the controller's hands and on no list. */
    ghost predicate Holding(wi: WorkItem)
      reads this, workList, schedule, wi
    {
      wi in Repr && wi !in schedule.Repr && wi !in workList.Repr && wi.next == null
    }

    method TakeWork() returns (wi: WorkItem)
      requires Valid() && workList.contents != []
      modifies Repr
      ensures Valid() && Repr == old(Repr)
      ensures Holding(wi) && wi.Value() == old(Abs()).work[0] && WellFormed(wi.Value())
      ensures Abs() == old(Abs()).(work := old(Abs()).work[1..])
    {
      assert Opened(this, 0);
      ghost var s := workList.contents;
      assert s[0] in s;
      wi := workList.Remove();
    }

    method NotePlaced(ghost id: nat)
      requires Valid()
      modifies this`log
      ensures Valid()
      ensures Abs() == old(Abs()).(log := old(log).(placed := old(log).placed + [id]))
    {
      assert Opened(this, 0);
      log := log.(placed := log.placed + [id]);
    }

    /** Put an item on the schedule. */
    method PlaceItem(wi: WorkItem, now: Clocks)
      requires Valid() && Holding(wi) && WellFormed(wi.Value()) && !phase.Aborted?
      modifies Repr
      ensures Valid() && Repr == old(Repr)
      ensures Abs() == SchedulerRun.PlaceItem(old(Abs()), old(wi.Value()), now)
    {
      ghost var id := wi.Value().id;
      var v := Schedule(wi, now);
      if v.Broken? {
        Fail(v.fault);
      } else {
        NotePlaced(id);
      }
    }

    /** What the schedule makes of an item. */
    method Schedule(wi: WorkItem, now: Clocks) returns (v: Verdict)
      requires Valid() && Holding(wi) && WellFormed(wi.Value()) && !phase.Aborted?
      modifies Repr
      ensures Valid() && Repr == old(Repr)
      ensures match Place(old(Abs()).lists, old(wi.Value()), now)
              case Ok(l) => v == Fine && Abs() == old(Abs()).(lists := l)
              case Failed(f) => v == Broken(f) && Abs() == old(Abs())
    {
      assert Opened(this, 0);
      v := schedule.ScheduleItem(wi, now);
    }

    method ClearQueue(q: Queue)
      requires Valid()
      modifies Repr
      ensures Valid() && Repr == old(Repr)
      ensures var l := old(Abs()).lists; Abs() == old(Abs()).(lists := l.Set(q, WithoutProgress(l.Get(q))))
    {
      assert Opened(this, 0);
      ghost var l := schedule.Abs();
      schedule.GetIsOn();
      schedule.ClearProgress(q);
      schedule.SetOne(q, l, WithoutProgress(l.Get(q)));
    }

    /** A clear command clears its list and is consumed. */
    method DrainClear(q: Queue, ghost x: Item)
      requires Valid() && !phase.Aborted?
      modifies Repr
      ensures Valid() && Repr == old(Repr)
      ensures var s := old(Abs());
              Abs() == s.(lists := s.lists.Set(q, WithoutProgress(s.lists.Get(q))),
                          log := s.log.(cleared := s.log.cleared + OnlyProgress(s.lists.Get(q)) + [x]))
    {
      assert Opened(this, 0);
      log := log.(cleared := log.cleared + OnlyProgress(schedule.Abs().Get(q)) + [x]);
      ClearQueue(q);
    }

    /** Any other item goes onto the schedule. */
    method DrainPlace(wItem: WorkItem, now: Clocks)
      requires Valid() && Holding(wItem) && WellFormed(wItem.Value()) && !phase.Aborted?
      modifies Repr
      ensures Valid() && Repr == old(Repr)
      ensures var s, x := old(Abs()), old(wItem.Value());
              Abs() == SchedulerRun.PlaceItem(s.(log := s.log.(drained := s.log.drained + [Stamp(x, now)])), x, now)
    {
      assert Opened(this, 0);
      log := log.(drained := log.drained + [Stamp(wItem.Value(), now)]);
      PlaceItem(wItem, now);
    }

    /** Take one item off the worklist and put it on the schedule, or let it clear a list. */
    method DrainOne(now: Clocks)
      requires Valid() && phase == Draining(now) && workList.contents != []
      modifies Repr
      ensures Valid() && Repr == old(Repr)
      ensures Abs() == SchedulerRun.DrainOne(old(Abs()), now)
      ensures workList.contents == old(workList.contents)[1..] && (phase == old(phase) || phase.Aborted?)
    {
      assert Opened(this, 0);
      var wItem := TakeWork();
      if wItem.command.Progress? && ClearedQueue(wItem.command.kind).Some? {
        DrainClear(ClearedQueue(wItem.command.kind).value, wItem.Value());
      } else {
        DrainPlace(wItem, now);
      }
    }

    /**
      While there are things on the worklist, remove them and update the schedule.  The loops take the
      number of the next step and return that of the first step they leave to others.
     */
    method Drain(now: Clocks, from: nat, ghost run: nat -> State, ghost start: nat, ghost end: nat) returns (t: nat)
      requires Valid() && IsRun(run, env, start) && start <= from && InDrain(run, from, Abs(), now, end)
      modifies Repr
      ensures Valid() && Repr == old(Repr) && from <= t
      ensures Abs() == run(t)
      ensures phase.Aborted? || (InDrain(run, t, Abs(), now, end) && workList.contents == [])
    {
      t := from;
      var more := HasWork();
      while more && !verdict.Broken?
        invariant Valid() && Repr == old(Repr) && from <= t
        invariant Abs() == run(t) && (phase.Aborted? || InDrain(run, t, Abs(), now, end))
        invariant more <==> workList.contents != []
        decreases |workList.contents|
      {
        more := DrainNext(now, t, run, start, end);
        t := t + 1;
      }
    }

    /** One turn of the drain loop and the test for the next one. */
    method DrainNext(now: Clocks, ghost t: nat, ghost run: nat -> State, ghost start: nat, ghost end: nat)
      returns (more: bool)
      requires Valid() && IsRun(run, env, start) && start <= t && InDrain(run, t, Abs(), now, end)
      requires workList.contents != []
      modifies Repr
      ensures Valid() && Repr == old(Repr) && workList.contents == old(workList.contents)[1..]
      ensures Abs() == run(t + 1) && (phase.Aborted? || InDrain(run, t + 1, Abs(), now, end))
      ensures more <==> workList.contents != []
    {
      DrainStep(run, env, start, t, Abs(), now, end);
      DrainOne(now);
      more := HasWork();
    }

    /** There is something on the worklist. */
    method HasWork() returns (more: bool)
      requires Valid()
      ensures more <==> workList.contents != []
    {
      assert Opened(this, 0);
      workList.HeadIsFirst();
      more := workList.head != null;
    }

    // ----- dispatching

    /** The controller's own action for a dispatched item, and the record of the dispatch. */
    method Fire(command: Command, ghost x: Item, ghost now: Clocks)
      requires Valid() && x.command == command
      modifies this
      ensures Valid() && Repr == old(Repr)
      ensures Abs() == SchedulerRun.Fire(old(Abs()), x, now)
    {
      assert Opened(this, 0);
      log := log.(fired := log.fired + [Stamp(x, now)], passLog := log.passLog + [x]);
      match command
      case Start =>
        pmStopped := false;
        log := log.(watch := None);
      case Stop => pmStopped := true;
      case Exit => pmExiting := true;
      case _ =>
    }

    /** Perform the actions of an item taken off its list, then re-arm it or drop it. */
    method DispatchItem(sItem: WorkItem, now: Clocks, requests: seq<Request>)
      requires Valid() && Holding(sItem) && phase == Dispatching(now)
      modifies Repr
      ensures Valid() && fresh(Repr - old(Repr))
      ensures Abs() == DispatchOne(old(Abs()), old(sItem.Value()), old(Abs()).lists, now, requests)
    {
      assert Opened(this, 0);
      EnqueueAll(requests);
      if verdict.Broken? {
        return;
      }
      Fire(sItem.command, sItem.Value(), now);
      if Periodic(sItem.trigger) {
        PlaceItem(sItem, now);
      }
    }

    /** `r` is the answer to looking for a ready item in state `s`, and the controller has acted on it. */
    ghost predicate Answered(r: Outcome, s: State, now: Clocks)
      requires Valid()
      reads this, Repr, if r.Taken? then {r.wi} else {}
    {
      assert Opened(this, 0);
      match NextReady(s, now)
      case Nothing => r == NoneReady && Abs() == s
      case Overdue(q) => r == Behind(q) && Abs() == s
      case Found(x, rest) => r.Taken? && Holding(r.wi) && r.wi.Value() == x && Abs() == s.(lists := rest)
    }

    method TakeReady(now: Clocks) returns (r: Outcome)
      requires Valid()
      modifies Repr
      ensures Valid() && Repr == old(Repr)
      ensures Answered(r, old(Abs()), now)
    {
      assert Opened(this, 0);
      OpenReady(Abs(), now);
      r := schedule.ReadyEvent(now);
    }

    /** Act on a ready item, and look for the next one unless an assertion has failed. */
    method DispatchNext(sItem: Outcome, now: Clocks, requests: seq<Request>, ghost s: State)
      returns (next: Outcome, ghost u: State)
      requires Valid() && sItem.Taken? && Answered(sItem, s, now) && s.phase == Dispatching(now)
      modifies Repr
      ensures Valid() && fresh(Repr - old(Repr))
      ensures var r := ReadyEvent(s.lists, now); r.Found? && u == DispatchOne(s, r.item, r.rest, now, requests)
      ensures verdict.Broken? <==> u.phase.Aborted?
      ensures if u.phase.Aborted? then !next.Taken? && Abs() == u else Answered(next, u, now)
    {
      OpenReady(s, now);
      DispatchItem(sItem.wi, now, requests);
      u := Abs();
      next := NoneReady;
      if !verdict.Broken? {
        next := TakeReady(now);
      }
    }

    /** One turn of the dispatch loop. */
    method DispatchTurn(sItem: Outcome, now: Clocks, t: nat, ghost run: nat -> State, ghost from: nat, ghost end: nat)
      returns (next: Outcome)
      requires Valid() && sItem.Taken? && Answered(sItem, run(t), now)
      requires IsRun(run, env, from) && from <= t && InPass(run, t, now, end)
      modifies Repr
      ensures Valid() && fresh(Repr - old(Repr))
      ensures if verdict.Broken? then !next.Taken? && Abs() == run(t + 1)
              else Answered(next, run(t + 1), now) && InPass(run, t + 1, now, end)
    {
      FoundIsReady(sItem, run(t), now);
      DispatchStep(run, env, from, t, now, end);
      ghost var u;
      next, u := DispatchNext(sItem, now, env(t).requests, run(t));
    }

    lemma FoundIsReady(sItem: Outcome, s: State, now: Clocks)
      requires Valid() && sItem.Taken? && Answered(sItem, s, now)
      ensures ReadyEvent(s.lists, now).Found?
    {
      OpenReady(s, now);
    }

    /** Nothing more is ready, or the head of a list is overdue. */
    method EndPass(r: Outcome, now: Clocks, ghost s: State)
      requires Valid() && !r.Taken? && Answered(r, s, now) && s.phase == Dispatching(now)
      modifies this
      ensures Valid() && Repr == old(Repr)
      ensures match ReadyEvent(s.lists, now)
              case Nothing => Abs() == s.(phase := Informing(now))
              case Overdue(q) => Abs() == s.(phase := Aborted(Missed(q)))
              case Found(x, rest) => false
    {
      OpenReady(s, now);
      assert Opened(this, 0);
      if r.Behind? {
        Fail(Missed(r.q));
      } else {
        phase := Informing(now);
      }
    }

    /** Process any scheduled events that are ready to occur. */
    method Dispatch(now: Clocks, from: nat) returns (t: nat)
      requires Valid() && phase == Dispatching(now) && Ends(Abs(), now, env, from)
      modifies Repr
      ensures Valid() && fresh(Repr - old(Repr)) && from <= t
      ensures Abs() == After(old(Abs()), env, from, t)
      ensures phase.Aborted? || phase == Informing(now)
    {
      ghost var run := RunFrom(Abs(), env, from);
      ghost var end := EnterPass(run, env, from, now);
      t := DispatchToEnd(now, from, run, end);
      RunIsAfter(run, env, from, from, t);
    }

    method DispatchToEnd(now: Clocks, from: nat, ghost run: nat -> State, ghost end: nat) returns (t: nat)
      requires Valid() && Abs() == run(from) && IsRun(run, env, from) && InPass(run, from, now, end)
      modifies Repr
      ensures Valid() && fresh(Repr - old(Repr)) && from <= t && Abs() == run(t)
      ensures phase.Aborted? || phase == Informing(now)
    {
      var sItem := TakeReady(now);
      t, sItem := DispatchAll(sItem, now, from, run, end);
      if !verdict.Broken? {
        FinishPass(sItem, now, t, run, from);
        t := t + 1;
      }
    }

    /** The last step of the pass. */
    method FinishPass(sItem: Outcome, now: Clocks, ghost t: nat, ghost run: nat -> State, ghost from: nat)
      requires Valid() && !sItem.Taken? && Answered(sItem, run(t), now) && IsRun(run, env, from) && from <= t
      requires run(t).phase == Dispatching(now)
      modifies this
      ensures Valid() && Repr == old(Repr) && Abs() == run(t + 1)
      ensures phase.Aborted? || phase == Informing(now)
    {
      LastDispatchStep(run, env, from, t, now);
      EndPass(sItem, now, run(t));
    }

    /** The dispatch loop. */
    method DispatchAll(first: Outcome, now: Clocks, from: nat, ghost run: nat -> State, ghost end: nat)
      returns (t: nat, sItem: Outcome)
      requires Valid() && !verdict.Broken? && Answered(first, run(from), now) && IsRun(run, env, from)
      requires InPass(run, from, now, end)
      modifies Repr
      ensures Valid() && fresh(Repr - old(Repr)) && from <= t
      ensures if verdict.Broken? then Abs() == run(t)
              else !sItem.Taken? && Answered(sItem, run(t), now) && InPass(run, t, now, end)
    {
      t, sItem := from, first;
      while sItem.Taken?
        invariant Valid() && fresh(Repr - old(Repr)) && from <= t
        invariant if verdict.Broken? then !sItem.Taken? && Abs() == run(t)
                  else Answered(sItem, run(t), now) && InPass(run, t, now, end)
        decreases if sItem.Taken? then end - t else -1
      {
        sItem := DispatchTurn(sItem, now, t, run, from, end);
        t := t + 1;
      }
    }

    // ----- running the performance model

    /** The time of the next event on list `q`. */
    method NextEventOn(q: Queue, now: Clocks) returns (n: u64)
      requires Valid()
      ensures n == NextEvent(Abs().lists, q, now)
    {
      assert Opened(this, 0) && Within(schedule, 0) && schedule.ListOk(q);
      schedule.GetIsOn();
      var list := schedule.ListFor(q);
      list.HeadIsFirst();
      var head := list.head;
      if head == null {
        return MAX;
      } else if head.trigger == Now {
        return now.Of(q);
      }
      return head.actionTime;
    }

    /** The times of the next events, at which the performance model is to stop. */
    method NextStops(now: Clocks) returns (stop: Clocks)
      requires Valid()
      ensures stop == StopTimes(Abs().lists, now)
    {
      var nNanosecond := NextEventOn(NanosecondQ, now);
      var nCycle := NextEventOn(CycleQ, now);
      var nInst := NextEventOn(InstQ, now);
      var nPacket := NextEventOn(PacketQ, now);
      var nMacroInst := NextEventOn(MacroInstQ, now);
      stop := Clocks(nNanosecond, nCycle, nInst, nMacroInst, nPacket);
    }

    /** Prepare to run the performance model, unless it is stopped or exiting. */
    method Decide(now: Clocks) returns (go: bool, stop: Clocks)
      requires Valid() && !phase.Aborted?
      modifies this
      ensures Valid() && Repr == old(Repr)
      ensures Abs() == LeaveInforming(old(Abs()), now)
      ensures if go then phase == Starting(stop) else phase == LoopTop || phase.Aborted?
    {
      assert Opened(this, 0);
      go, stop := false, now;
      if pmStopped || pmExiting {
        phase := LoopTop;
        return;
      }
      stop := NextStops(now);
      LaterByCases(stop, now);
      if stop.cycle != now.cycle && stop.macroInst != now.macroInst && stop.inst != now.inst
         && stop.packet != now.packet && stop.nanosecond != now.nanosecond {
        go, phase := true, Starting(stop);
      } else {
        Fail(NotLater);
      }
    }

    /** After a pass: hear what the workbench wants, then decide. */
    method Inform(now: Clocks, requests: seq<Request>) returns (go: bool, stop: Clocks)
      requires Valid() && phase == Informing(now)
      modifies Repr
      ensures Valid() && fresh(Repr - old(Repr))
      ensures Abs() == LeaveInforming(SchedulerRun.EnqueueAll(old(Abs()), requests), now)
      ensures if go then phase == Starting(stop) else phase == LoopTop || phase.Aborted?
    {
      assert Opened(this, 0);
      EnqueueAll(requests);
      go, stop := false, now;
      if !verdict.Broken? {
        go, stop := Decide(now);
      }
    }

    /** One iteration of the clock loop. */
    method ClockOnce(e: Inputs)
      requires Valid() && phase.Executing?
      modifies Repr
      ensures Valid() && fresh(Repr - old(Repr))
      ensures Abs() == ClockOne(old(Abs()), e)
    {
      EnqueueAllFrame(Abs(), e.requests);
      EnqueueAll(e.requests);
      if !verdict.Broken? {
        Tick(e.clocks, e.markers);
      }
    }

    /** The counters after a step of the simulated chip. */
    method Tick(clocks: Clocks, markers: u64)
      requires Valid()
      modifies Repr
      ensures Valid() && Repr == old(Repr)
      ensures Abs() == old(Abs()).(clocks := clocks.(cycle := Add(old(Abs()).clocks.cycle, 1)), markers := markers)
    {
      assert Opened(this, 0);
      system.clocks := clocks.(cycle := Add(system.clocks.cycle, 1));
      system.markers := markers;
      assert Intact();
    }

    /** The clock loop has ended: a committed marker stops the performance model. */
    method FinishExecute(stopMarker: u64)
      requires Valid() && phase.Executing? && phase.stopMarker == stopMarker
      modifies Repr
      ensures Valid() && fresh(Repr - old(Repr))
      ensures Abs() == LeaveExecuting(old(Abs()))
    {
      LeaveExecutingFrame(Abs());
      SetPhase(LoopTop);
      if system.markers >= stopMarker {
        SetWatch();
        AddAndBreak(Stop, Now, 0);
      }
    }

    /** The performance model may take another step. */
    method MayClock(stop: Clocks, stopMarker: u64) returns (more: bool)
      requires Valid() && phase == Executing(stop, stopMarker)
      ensures more == CanClock(Abs())
    {
      assert Opened(this, 0);
      more := !system.sysBreak && system.clocks.cycle < stop.cycle && system.clocks.inst < stop.inst
              && system.clocks.macroInst < stop.macroInst && system.markers < stopMarker;
    }

    /** One iteration of the clock loop and the test for the next one. */
    method ClockNext(stop: Clocks, stopMarker: u64, t: nat, ghost run: nat -> State, ghost start: nat)
      returns (more: bool)
      requires Valid() && phase == Executing(stop, stopMarker) && Abs() == run(t)
      requires IsRun(run, env, start) && start <= t && InClock(run, t, stop, stopMarker, true)
      modifies Repr
      ensures Valid() && fresh(Repr - old(Repr)) && Abs() == run(t + 1)
      ensures if verdict.Broken? then !more
              else phase == Executing(stop, stopMarker) && InClock(run, t + 1, stop, stopMarker, more)
                   && run(t + 1).clocks.cycle == run(t).clocks.cycle + 1
    {
      more := false;
      ClockStep(run, env, start, t);
      ClockOnce(env(t));
      if !verdict.Broken? {
        more := MayClock(stop, stopMarker);
      }
    }

    /** The clock loop: run until a stop time, a marker or a break. */
    method RunClock(stop: Clocks, stopMarker: u64, from: nat, ghost run: nat -> State, ghost start: nat)
      returns (t: nat)
      requires Valid() && phase == Executing(stop, stopMarker) && Abs() == run(from)
      requires IsRun(run, env, start) && start <= from
      modifies Repr
      ensures Valid() && fresh(Repr - old(Repr)) && from <= t && Abs() == run(t)
      ensures verdict.Broken? || (phase == Executing(stop, stopMarker) && InClock(run, t, stop, stopMarker, false))
    {
      t := from;
      var more := MayClock(stop, stopMarker);
      while more
        invariant Valid() && fresh(Repr - old(Repr)) && from <= t && Abs() == run(t)
        invariant if verdict.Broken? then !more
                  else phase == Executing(stop, stopMarker) && InClock(run, t, stop, stopMarker, more)
        decreases if more then stop.cycle - run(t).clocks.cycle else -1
      {
        more := ClockNext(stop, stopMarker, t, run, start);
        t := t + 1;
      }
    }

    /** Warm up and enter the clock loop. */
    method EnterClock(stop: Clocks, stopMarker: u64, requests: seq<Request>)
      requires Valid() && phase == Starting(stop)
      modifies Repr
      ensures Valid() && fresh(Repr - old(Repr))
      ensures Abs() == EnterExecuting(SchedulerRun.EnqueueAll(old(Abs()), requests), stop, stopMarker)
    {
      EnqueueAll(requests);
      if !verdict.Broken? {
        SetPhase(Executing(stop, stopMarker));
      }
    }

    method Execute(stop: Clocks, from: nat, ghost run: nat -> State, ghost start: nat) returns (t: nat)
      requires Valid() && phase == Starting(stop) && IsRun(run, env, start) && start <= from && Abs() == run(from)
      modifies Repr
      ensures Valid() && fresh(Repr - old(Repr)) && from < t
      ensures Abs() == run(t)
      ensures phase.Aborted? || phase == LoopTop
    {
      var stopMarker := Add(system.markers, 1);
      NextOf(run, env, start, from);
      EnterClock(stop, stopMarker, env(from).requests);
      t := from + 1;
      if !verdict.Broken? {
        t := ClockAndFinish(stop, stopMarker, t, run, start);
      }
    }

    /** The clock loop and what follows it. */
    method ClockAndFinish(stop: Clocks, stopMarker: u64, from: nat, ghost run: nat -> State, ghost start: nat)
      returns (t: nat)
      requires Valid() && phase == Executing(stop, stopMarker) && IsRun(run, env, start) && start <= from
      requires Abs() == run(from)
      modifies Repr
      ensures Valid() && fresh(Repr - old(Repr)) && from <= t
      ensures Abs() == run(t)
      ensures phase.Aborted? || phase == LoopTop
    {
      t := RunClock(stop, stopMarker, from, run, start);
      if !verdict.Broken? {
        LeaveClock(stop, stopMarker, t, run, start);
        t := t + 1;
      }
    }

    method LeaveClock(ghost stop: Clocks, stopMarker: u64, ghost t: nat, ghost run: nat -> State, ghost start: nat)
      requires Valid() && phase == Executing(stop, stopMarker) && Abs() == run(t)
      requires IsRun(run, env, start) && start <= t && InClock(run, t, stop, stopMarker, false)
      modifies Repr
      ensures Valid() && fresh(Repr - old(Repr)) && Abs() == run(t + 1)
      ensures phase == LoopTop
    {
      ClockStep(run, env, start, t);
      LeaveExecutingFrame(run(t));
      FinishExecute(stopMarker);
    }

    // ----- the scheduler loop

    /** Clear the break flag; scheduled events can set it again. */
    method BeginPass(now: Clocks)
      requires Valid() && !phase.Aborted?
      modifies Repr
      ensures Valid() && Repr == old(Repr)
      ensures var s := old(Abs());
              Abs() == SchedulerRun.StartPass(s, now)
    {
      assert Opened(this, 0);
      system.sysBreak := false;
      assert Intact();
      phase, log := Dispatching(now), log.(passStart := schedule.Abs(), passPlaced := |log.placed|, passLog := []);
    }

    /** The pass itself. */
    method Pass(now: Clocks, from: nat, ghost run: nat -> State, ghost start: nat, ghost end: nat) returns (t: nat)
      requires Valid() && IsRun(run, env, start) && start <= from && InDrain(run, from, Abs(), now, end)
      requires workList.contents == []
      modifies Repr
      ensures Valid() && fresh(Repr - old(Repr)) && from < t
      ensures Abs() == run(t)
      ensures phase.Aborted? || phase == Informing(now)
    {
      PassStep(run, env, start, from, Abs(), now, end);
      BeginPass(now);
      t := Dispatch(now, from + 1);
      RunIsAfter(run, env, start, from + 1, t);
    }

    /** What follows a pass. */
    method Proceed(now: Clocks, from: nat, ghost run: nat -> State, ghost start: nat) returns (t: nat)
      requires Valid() && phase == Informing(now) && IsRun(run, env, start) && start <= from && Abs() == run(from)
      modifies Repr
      ensures Valid() && fresh(Repr - old(Repr)) && from < t
      ensures Abs() == run(t)
      ensures phase.Aborted? || phase == LoopTop
    {
      NextOf(run, env, start, from);
      var go, stop := Inform(now, env(from).requests);
      t := from + 1;
      if go {
        t := Execute(stop, t, run, start);
      }
    }

    /**
      One iteration of the scheduler loop.  The program repeats it until the controller is exiting.  It is asked only
      for iterations that do get through their pass; `SchedulerIteration.GetsThroughIff` says which.
     */
    method LoopIteration(from: nat) returns (t: nat)
      requires Valid() && phase == LoopTop && GetsThrough(Abs(), env, from)
      modifies Repr
      ensures Valid() && fresh(Repr - old(Repr)) && from < t
      ensures Abs() == After(old(Abs()), env, from, t)
      ensures phase.Aborted? || phase == LoopTop || phase == Exited
    {
      ghost var run := RunFrom(Abs(), env, from);
      ghost var end: nat :| from < end && IsThrough(After(Abs(), env, from, end).phase);
      RunIsAfter(run, env, from, from, end);
      NextOf(run, env, from, from);
      t := from + 1;
      if pmExiting {
        SetPhase(Exited);
      } else {
        t := Turn(t, run, from, end);
      }
      RunIsAfter(run, env, from, from, t);
    }

    /** Drain the worklist, go through a pass and do what follows it. */
    method Turn(from: nat, ghost run: nat -> State, ghost start: nat, ghost end: nat) returns (t: nat)
      requires Valid() && phase == LoopTop && IsRun(run, env, start) && start <= from <= end
      requires run(from) == Abs().(phase := Draining(system.clocks)) && IsThrough(run(end).phase)
      modifies Repr
      ensures Valid() && fresh(Repr - old(Repr)) && from <= t
      ensures Abs() == run(t)
      ensures phase.Aborted? || phase == LoopTop
    {
      var now := system.clocks;
      SetPhase(Draining(now));
      t := Drain(now, from, run, start, end);
      if !verdict.Broken? {
        t := Pass(now, t, run, start, end);
      }
      if !verdict.Broken? {
        t := Proceed(now, t, run, start);
      }
    }

    /** The next item is the STOP queued for a committed marker. */
    ghost method SetWatch()
      requires Valid()
      modifies this
      ensures Valid() && Repr == old(Repr) && Abs() == old(Abs()).(log := old(log).(watch := Some(old(nextId))))
    {
      assert Opened(this, 0);
      log := log.(watch := Some(nextId));
    }

    ghost method SetPhase(p: Phase)
      requires Valid() && !phase.Aborted? && !p.Aborted?
      modifies this
      ensures Valid() && Repr == old(Repr) && Abs() == old(Abs()).(phase := p)
    {
      assert Opened(this, 0);
      phase := p;
    }
  }
}
