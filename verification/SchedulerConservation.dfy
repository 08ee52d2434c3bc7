/**
  Work items are conserved: over every run each item ever created is in exactly one place.
 */
module SchedulerConservation {
  import opened UInt64
  import opened WorkItems
  import opened ScheduleSpec
  import opened SchedulerRun
  import opened SchedulerShape

  ghost function ListCount(l: Lists, id: nat): nat
  {
    Count(l.cycle, id) + Count(l.nanosecond, id) + Count(l.inst, id) + Count(l.macroInst, id) + Count(l.packet, id)
  }

  /** The dispatched items that are not re-armed, in order of dispatch. */
  ghost function OneShots(fired: seq<Stamp>): seq<Item>
  {
    if fired == [] then []
    else
      var last := fired[|fired| - 1].item;
      OneShots(fired[..|fired| - 1]) + if Periodic(last.trigger) then [] else [last]
  }

  function One(b: bool): nat
  {
    if b then 1 else 0
  }

  /** How often item `id` is on the worklist, on the lists, dispatched for good, or cleared. */
  ghost function Places(s: State, id: nat): nat
  {
    Count(s.work, id) + ListCount(s.lists, id) + Count(OneShots(s.log.fired), id) + Count(s.log.cleared, id)
  }

  /** Item `id` is in exactly one place if it was created, and in none otherwise. */
  ghost predicate Conserved(s: State, id: nat)
  {
    Running(s) ==> Places(s, id) == One(id < s.nextId)
  }

  ghost predicate ConservedAll(s: State)
  {
    forall id :: Conserved(s, id)
  }

  lemma ListCountSet(l: Lists, q: Queue, t: seq<Item>, id: nat)
    ensures ListCount(l.Set(q, t), id) + Count(l.Get(q), id) == ListCount(l, id) + Count(t, id)
  {
    match q
    case CycleQ =>
    case NanosecondQ =>
    case InstQ =>
    case MacroInstQ =>
    case PacketQ =>
  }

  lemma EnqueueCount(s: State, r: Request, id: nat)
    ensures var t := Enqueue(s, r);
            Running(s) && Running(t) ==>
              Count(t.work, id) == Count(s.work, id) + One(id == s.nextId) && t.nextId == s.nextId + 1
  {
    match r
    case StartRequest => CountConcat(s.work, [Item(s.nextId, Start, Now, 0, 0)], id);
    case ExitCondition => CountConcat(s.work, [Item(s.nextId, Exit, Now, 0, 0)], id);
    case CommandRequest(c, t, n) => CountConcat(s.work, [Item(s.nextId, c, t, n, n)], id);
  }

  /** The command interface creates items on the worklist and nowhere else. */
  lemma {:induction false} EnqueueAllCount(s: State, rs: seq<Request>, id: nat)
    ensures var t := EnqueueAll(s, rs);
            Running(t) ==>
              Running(s) && Count(t.work, id) == Count(s.work, id) + One(s.nextId <= id < t.nextId)
    decreases rs
  {
    if rs != [] {
      EnqueueCount(s, rs[0], id);
      EnqueueAllCount(Enqueue(s, rs[0]), rs[1..], id);
      EnqueueAllFrame(Enqueue(s, rs[0]), rs[1..]);
    }
  }

  lemma EnqueueAllConserves(s: State, rs: seq<Request>, id: nat)
    requires Conserved(s, id)
    ensures Conserved(EnqueueAll(s, rs), id)
  {
    EnqueueAllFrame(s, rs);
    EnqueueAllCount(s, rs, id);
  }

  lemma PlaceCount(l: Lists, x: Item, now: Clocks, id: nat)
    requires Place(l, x, now).Ok?
    ensures ListCount(Place(l, x, now).value, id) == ListCount(l, id) + One(x.id == id)
  {
    var y := Rearm(x, now).value;
    var q := Route(y.trigger);
    ListCountSet(l, q, InsertOrdered(l.Get(q), y), id);
    CountInsert(l.Get(q), y, id);
  }

  lemma ClearCount(l: Lists, q: Queue, id: nat)
    ensures ListCount(l.Set(q, WithoutProgress(l.Get(q))), id) + Count(OnlyProgress(l.Get(q)), id) == ListCount(l, id)
  {
    ListCountSet(l, q, WithoutProgress(l.Get(q)), id);
    CountClear(l.Get(q), id);
  }

  lemma DrainConserves(s: State, now: Clocks, id: nat)
    requires Running(s) && Conserved(s, id) && s.work != []
    ensures Conserved(DrainOne(s, now), id)
  {
    var x := s.work[0];
    match Clears(x)
    case Some(q) =>
      ClearCount(s.lists, q, id);
      var gone := OnlyProgress(s.lists.Get(q));
      CountConcat(s.log.cleared, gone, id);
      CountConcat(s.log.cleared + gone, [x], id);
    case None =>
      PlaceItemConserves(TakenOff(s, now), x, now, id);
  }

  lemma FoundCount(l: Lists, now: Clocks, id: nat)
    requires Valid(l) && ReadyEvent(l, now).Found?
    ensures var r := ReadyEvent(l, now); ListCount(l, id) == ListCount(r.rest, id) + One(r.item.id == id)
  {
    FoundBelongs(l, now);
    var r := ReadyEvent(l, now);
    var q: Queue :| Belongs(r.item, q) && l.Get(q) != [] && l.Get(q)[0] == r.item && IsReady(r.item, q, now)
                    && r.rest == l.Set(q, l.Get(q)[1..]);
    ListCountSet(l, q, l.Get(q)[1..], id);
  }

  lemma OneShotsFire(fired: seq<Stamp>, st: Stamp, id: nat)
    ensures Count(OneShots(fired + [st]), id)
            == Count(OneShots(fired), id) + One(!Periodic(st.item.trigger) && st.item.id == id)
  {
    assert (fired + [st])[..|fired + [st]| - 1] == fired;
    CountConcat(OneShots(fired), if Periodic(st.item.trigger) then [] else [st.item], id);
  }

  /** Firing an item that has been taken off the lists puts it back in one place. */
  lemma FireConserves(s: State, x: Item, now: Clocks, id: nat)
    requires Running(s) && Places(s, id) + One(x.id == id) == One(id < s.nextId)
    ensures var t := Fire(s, x, now);
            Conserved(if Periodic(x.trigger) then PlaceItem(t, x, now) else t, id)
  {
    OneShotsFire(s.log.fired, Stamp(x, now), id);
    FireFrame(s, x, now);
    if Periodic(x.trigger) {
      PlaceItemConserves(Fire(s, x, now), x, now, id);
    }
  }

  lemma PlaceItemConserves(s: State, x: Item, now: Clocks, id: nat)
    requires Running(s) && Places(s, id) + One(x.id == id) == One(id < s.nextId)
    ensures Conserved(PlaceItem(s, x, now), id)
  {
    PlaceItemFrame(s, x, now);
    if Place(s.lists, x, now).Ok? {
      PlaceCount(s.lists, x, now, id);
    }
  }

  /** A dispatch moves a one-shot item to the dispatched ones and puts a periodic one back. */
  lemma DispatchConserves(s: State, now: Clocks, requests: seq<Request>, id: nat)
    requires Running(s) && Conserved(s, id) && Shape(s) && ReadyEvent(s.lists, now).Found?
    ensures var r := ReadyEvent(s.lists, now);
            Conserved(DispatchOne(s, r.item, r.rest, now, requests), id)
  {
    var r := ReadyEvent(s.lists, now);
    FoundCount(s.lists, now, id);
    EnqueueAllFrame(s.(lists := r.rest), requests);
    EnqueueAllCount(s.(lists := r.rest), requests, id);
    var s1 := EnqueueAll(s.(lists := r.rest), requests);
    if Running(s1) {
      FireConserves(s1, r.item, now, id);
    }
  }

  lemma ClockConserves(s: State, e: Inputs, id: nat)
    requires Conserved(s, id)
    ensures Conserved(ClockOne(s, e), id)
  {
    EnqueueAllConserves(s, e.requests, id);
  }

  lemma LeaveConserves(s: State, id: nat)
    requires s.phase.Executing? && Conserved(s, id)
    ensures Conserved(LeaveExecuting(s), id)
  {
    LeaveExecutingFrame(s);
    CountConcat(s.work, [Item(s.nextId, Stop, Now, 0, 0)], id);
  }

  lemma InformConserves(s: State, now: Clocks, e: Inputs, id: nat)
    requires s.phase == Informing(now) && Conserved(s, id)
    ensures Conserved(Step(s, e), id)
  {
    EnqueueAllConserves(s, e.requests, id);
  }

  lemma DispatchingConserves(s: State, now: Clocks, e: Inputs, id: nat)
    requires s.phase == Dispatching(now) && Shape(s) && Conserved(s, id)
    ensures Conserved(Step(s, e), id)
  {
    if ReadyEvent(s.lists, now).Found? {
      DispatchConserves(s, now, e.requests, id);
    }
  }

  lemma StartConserves(s: State, stop: Clocks, e: Inputs, id: nat)
    requires s.phase == Starting(stop) && Conserved(s, id)
    ensures Conserved(Step(s, e), id)
  {
    EnqueueAllConserves(s, e.requests, id);
  }

  lemma DrainingConserves(s: State, now: Clocks, e: Inputs, id: nat)
    requires s.phase == Draining(now) && Conserved(s, id)
    ensures Conserved(Step(s, e), id)
  {
    if s.work != [] {
      DrainConserves(s, now, id);
    }
  }

  lemma ExecuteConserves(s: State, e: Inputs, id: nat)
    requires s.phase.Executing? && Conserved(s, id)
    ensures Conserved(Step(s, e), id)
  {
    if CanClock(s) {
      ClockConserves(s, e, id);
    } else {
      LeaveConserves(s, id);
    }
  }

  lemma StepConserves(s: State, e: Inputs, id: nat)
    requires Shape(s) && Conserved(s, id)
    ensures Conserved(Step(s, e), id)
  {
    match s.phase
    case Draining(now) => DrainingConserves(s, now, e, id);
    case Dispatching(now) => DispatchingConserves(s, now, e, id);
    case Informing(now) => InformConserves(s, now, e, id);
    case Starting(stop) => StartConserves(s, stop, e, id);
    case Executing(stop, m) => ExecuteConserves(s, e, id);
    case _ =>
  }

  lemma {:induction false} RunsConserve(s: State, env: nat -> Inputs, from: nat, end: nat, id: nat)
    requires Shape(s) && Timing(s) && Conserved(s, id)
    ensures Conserved(After(s, env, from, end), id)
    decreases end
  {
    if from < end {
      RunsConserve(s, env, from, end - 1, id);
      RunsKeepTiming(s, env, from, end - 1);
      StepConserves(After(s, env, from, end - 1), env(end - 1), id);
    }
  }

  lemma RunsConserveAll(s: State, env: nat -> Inputs, from: nat, end: nat)
    requires Shape(s) && Timing(s) && ConservedAll(s)
    ensures ConservedAll(After(s, env, from, end))
  {
    var t := After(s, env, from, end);
    forall id: nat {:trigger Conserved(t, id)}
      ensures Conserved(t, id)
    {
      RunsConserve(s, env, from, end, id);
    }
  }

  /** What is known of every state of a run already. */
  lemma KnownAlong(run: nat -> State, env: nat -> Inputs, from: nat, n: nat)
    requires IsRun(run, env, from) && from <= n && Shape(run(from)) && Timing(run(from)) && ConservedAll(run(from))
    ensures Shape(run(n)) && Timing(run(n)) && ConservedAll(run(n))
  {
    RunIsAfter(run, env, from, from, n);
    RunsKeepTiming(run(from), env, from, n);
    RunsConserveAll(run(from), env, from, n);
  }

  lemma InitialConserves(clocks: Clocks, markers: u64, brk: bool, requests: seq<Request>)
    ensures ConservedAll(Initial(clocks, markers, brk, requests))
  {
    var s := Initial(clocks, markers, brk, requests);
    forall id: nat {:trigger Conserved(s, id)}
      ensures Conserved(s, id)
    {
      EnqueueAllConserves(State(LoopTop, [], EMPTY, clocks, markers, true, false, brk, 0, NO_HISTORY), requests, id);
    }
  }

  /**
    Conservation over every run: in every state that is reached without an assertion failing, each
    item created so far is in exactly one place: the worklist, one of the five lists, the one-shot
    items dispatched, or the items cleared.
   */
  lemma EveryItemInExactlyOnePlace(clocks: Clocks, markers: u64, brk: bool, requests: seq<Request>,
                                   env: nat -> Inputs, n: nat, id: nat)
    ensures Conserved(After(Initial(clocks, markers, brk, requests), env, 0, n), id)
  {
    InitialTiming(clocks, markers, brk, requests);
    EnqueueAllConserves(State(LoopTop, [], EMPTY, clocks, markers, true, false, brk, 0, NO_HISTORY), requests, id);
    RunsConserve(Initial(clocks, markers, brk, requests), env, 0, n, id);
  }

  lemma {:induction false} OneShotOccurs(fired: seq<Stamp>, i: nat)
    requires i < |fired| && !Periodic(fired[i].item.trigger)
    ensures Count(OneShots(fired), fired[i].item.id) >= 1
    decreases |fired|
  {
    var n := |fired| - 1;
    OneShotsFire(fired[..n], fired[n], fired[i].item.id);
    assert fired[..n] + [fired[n]] == fired;
    if i < n {
      OneShotOccurs(fired[..n], i);
    }
  }

  lemma {:induction false} OneShotOccursTwice(fired: seq<Stamp>, i: nat, j: nat)
    requires i < j < |fired| && !Periodic(fired[i].item.trigger) && !Periodic(fired[j].item.trigger)
    requires fired[i].item.id == fired[j].item.id
    ensures Count(OneShots(fired), fired[i].item.id) >= 2
    decreases |fired|
  {
    var n := |fired| - 1;
    OneShotsFire(fired[..n], fired[n], fired[i].item.id);
    assert fired[..n] + [fired[n]] == fired;
    if j < n {
      OneShotOccursTwice(fired[..n], i, j);
    } else {
      OneShotOccurs(fired[..n], i);
    }
  }

  /** No one-shot item is ever dispatched twice. */
  lemma OneShotFiresAtMostOnce(s: State, i: nat, j: nat)
    requires Running(s) && i < |s.log.fired| && j < |s.log.fired|
    requires Conserved(s, s.log.fired[i].item.id)
    requires !Periodic(s.log.fired[i].item.trigger) && !Periodic(s.log.fired[j].item.trigger)
    requires s.log.fired[i].item.id == s.log.fired[j].item.id
    ensures i == j
  {
    if i < j {
      OneShotOccursTwice(s.log.fired, i, j);
    } else if j < i {
      OneShotOccursTwice(s.log.fired, j, i);
    }
  }
}
