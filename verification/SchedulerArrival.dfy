/**
  Items with equal times: every list, and every pass, keeps them in the order in which they were put on the list.
 */
module SchedulerArrival {
  import opened UInt64
  import opened WorkItems
  import opened ScheduleSpec
  import opened SchedulerRun
  import opened SchedulerShape
  import opened SchedulerConservation
  import opened SchedulerExactness
  import opened SchedulerOrder

  /** Where in a history of placements an item was placed last; -1 if nowhere. */
  function Last(placed: seq<nat>, id: nat): (k: int)
    ensures -1 <= k < |placed|
    ensures k >= 0 ==> placed[k] == id
  {
    if placed == [] then -1
    else if placed[|placed| - 1] == id then |placed| - 1
    else Last(placed[..|placed| - 1], id)
  }

  lemma LastSnoc(placed: seq<nat>, e: nat, id: nat)
    ensures Last(placed + [e], id) == if e == id then |placed| else Last(placed, id)
  {
    assert (placed + [e])[..|placed|] == placed;
  }

  /** The items of a list have all been placed, and those with equal times in list order. */
  ghost predicate Stable(s: seq<Item>, placed: seq<nat>)
  {
    && (forall i :: 0 <= i < |s| ==> Last(placed, s[i].id) >= 0)
    && forall i, j :: 0 <= i < j < |s| && s[i].time == s[j].time ==> Last(placed, s[i].id) < Last(placed, s[j].id)
  }

  ghost predicate AllStable(l: Lists, placed: seq<nat>)
  {
    forall q: Queue :: Stable(l.Get(q), placed)
  }

  /** The lists are stable, and so were those that the present pass began with. */
  ghost predicate InArrivalOrder(s: State)
  {
    Running(s) ==> AllStable(s.lists, s.log.placed) && StartStable(s)
  }

  ghost predicate StartStable(s: State)
  {
    s.phase.Dispatching? || s.phase.Informing? ==>
      && s.log.passPlaced <= |s.log.placed|
      && Valid(s.log.passStart) && AllStable(s.log.passStart, s.log.placed[..s.log.passPlaced])
  }

  // ----- the list operations keep lists stable

  /** Item `id` is not in the list. */
  ghost predicate Absent(s: seq<Item>, id: nat)
  {
    forall i :: 0 <= i < |s| ==> s[i].id != id
  }

  lemma StableLater(s: seq<Item>, placed: seq<nat>, id: nat)
    requires Stable(s, placed) && Absent(s, id)
    ensures Stable(s, placed + [id])
  {
    forall i | 0 <= i < |s| ensures Last(placed + [id], s[i].id) == Last(placed, s[i].id) {
      LastSnoc(placed, id, s[i].id);
    }
  }

  lemma InsertStable(s: seq<Item>, x: Item, placed: seq<nat>)
    requires Sorted(s) && Stable(s, placed) && Absent(s, x.id)
    ensures Stable(InsertOrdered(s, x), placed + [x.id])
  {
    var k := InsertIsStable(s, x);
    StableLater(s, placed, x.id);
    LastSnoc(placed, x.id, x.id);
    forall i | 0 <= i < |s| ensures Last(placed + [x.id], s[i].id) < |placed| {
      LastSnoc(placed, x.id, s[i].id);
    }
    StableMiddle(s[..k], x, s[k..], placed + [x.id]);
  }

  /** An item placed after all others of its time goes between those due no later and those due later. */
  lemma StableMiddle(a: seq<Item>, x: Item, b: seq<Item>, placed: seq<nat>)
    requires Stable(a, placed) && Stable(b, placed) && Last(placed, x.id) >= 0
    requires forall i :: 0 <= i < |a| ==> a[i].time <= x.time && Last(placed, a[i].id) < Last(placed, x.id)
    requires forall i :: 0 <= i < |b| ==> x.time < b[i].time
    ensures Stable(a + [x] + b, placed)
  {
  }

  lemma TailStable(s: seq<Item>, placed: seq<nat>)
    requires s != [] && Stable(s, placed)
    ensures Stable(s[1..], placed)
  {
  }

  lemma ConsStable(x: Item, t: seq<Item>, placed: seq<nat>)
    requires Stable(t, placed) && Last(placed, x.id) >= 0
    requires forall y :: y in t && y.time == x.time ==> Last(placed, x.id) < Last(placed, y.id)
    ensures Stable([x] + t, placed)
  {
  }

  lemma HeadFirst(s: seq<Item>, y: Item, placed: seq<nat>)
    requires s != [] && Stable(s, placed) && y in s[1..] && y.time == s[0].time
    ensures Last(placed, s[0].id) < Last(placed, y.id)
  {
    var j :| 0 <= j < |s[1..]| && s[1..][j] == y;
    assert s[j + 1] == y;
  }

  lemma {:induction false} FilterStable(s: seq<Item>, keep: Item -> bool, placed: seq<nat>)
    requires Stable(s, placed)
    ensures Stable(Filter(s, keep), placed)
  {
    if s != [] {
      var rest := Filter(s[1..], keep);
      TailStable(s, placed);
      FilterStable(s[1..], keep, placed);
      if keep(s[0]) {
        FilterElements(s[1..], keep);
        forall y | y in rest && y.time == s[0].time ensures Last(placed, s[0].id) < Last(placed, y.id) {
          HeadFirst(s, y, placed);
        }
        ConsStable(s[0], rest, placed);
      }
    }
  }

  // ----- identities

  lemma NotCounted(l: Lists, id: nat, q: Queue)
    requires ListCount(l, id) == 0
    ensures Absent(l.Get(q), id)
  {
    CountPositive(l.Get(q), id);
    ListCountSet(l, q, [], id);
  }

  lemma PlaceStable(l: Lists, x: Item, now: Clocks, placed: seq<nat>)
    requires Valid(l) && AllStable(l, placed) && ListCount(l, x.id) == 0 && Place(l, x, now).Ok?
    ensures AllStable(Place(l, x, now).value, placed + [x.id])
  {
    var y := Rearm(x, now).value;
    var l' := Place(l, x, now).value;
    forall q: Queue
      ensures Stable(l'.Get(q), placed + [x.id])
    {
      NotCounted(l, x.id, q);
      assert ListValid(l.Get(q), q);
      if q == Route(y.trigger) {
        InsertStable(l.Get(q), y, placed);
      } else {
        StableLater(l.Get(q), placed, x.id);
      }
    }
  }

  // ----- steps

  lemma PlaceItemArrives(s: State, x: Item, now: Clocks)
    requires InArrivalOrder(s) && Running(s) && Shape(s) && ListCount(s.lists, x.id) == 0
    ensures InArrivalOrder(PlaceItem(s, x, now))
  {
    PlaceItemFrame(s, x, now);
    if Place(s.lists, x, now).Ok? {
      PlaceStable(s.lists, x, now, s.log.placed);
      assert s.log.passPlaced <= |s.log.placed| ==>
        (s.log.placed + [x.id])[..s.log.passPlaced] == s.log.placed[..s.log.passPlaced];
    }
  }

  /** An item at the head of the worklist is on no list. */
  lemma QueuedIsNotListed(s: State)
    requires Running(s) && s.work != [] && Conserved(s, s.work[0].id)
    ensures ListCount(s.lists, s.work[0].id) == 0
  {
  }

  lemma ClearArrives(s: State, now: Clocks)
    requires s.phase == Draining(now) && s.work != [] && Clears(s.work[0]).Some? && InArrivalOrder(s)
    ensures InArrivalOrder(DrainOne(s, now))
  {
    var q := Clears(s.work[0]).value;
    FilterStable(s.lists.Get(q), (y: Item) => !IsProgress(y), s.log.placed);
  }

  lemma DrainArrives(s: State, now: Clocks)
    requires s.phase == Draining(now) && s.work != [] && InArrivalOrder(s) && Shape(s) && ConservedAll(s)
    ensures InArrivalOrder(DrainOne(s, now))
  {
    var x := s.work[0];
    assert Conserved(s, x.id);
    QueuedIsNotListed(s);
    if Clears(x).Some? {
      ClearArrives(s, now);
    } else {
      var u := TakenOff(s, now);
      PlaceItemArrives(u, x, now);
    }
  }

  /** Of an item on the lists there is one, so none is left when it is taken off. */
  lemma TakenIsNotListed(s: State, now: Clocks)
    requires Running(s) && Shape(s) && ReadyEvent(s.lists, now).Found?
    requires Conserved(s, ReadyEvent(s.lists, now).item.id)
    ensures var r := ReadyEvent(s.lists, now); ListCount(r.rest, r.item.id) == 0
  {
    FoundCount(s.lists, now, ReadyEvent(s.lists, now).item.id);
  }

  lemma TakeStable(l: Lists, now: Clocks, placed: seq<nat>)
    requires Valid(l) && AllStable(l, placed) && ReadyEvent(l, now).Found?
    ensures AllStable(ReadyEvent(l, now).rest, placed) && Valid(ReadyEvent(l, now).rest)
  {
    FoundBelongs(l, now);
    ReadyIsFirstDue(l, now);
    var r := ReadyEvent(l, now);
    var q: Queue :| Belongs(r.item, q) && l.Get(q) != [] && l.Get(q)[0] == r.item && IsReady(r.item, q, now)
                    && r.rest == l.Set(q, l.Get(q)[1..]);
    TailStable(l.Get(q), placed);
  }

  lemma DispatchArrives(s: State, now: Clocks, requests: seq<Request>)
    requires s.phase == Dispatching(now) && Shape(s) && ConservedAll(s) && InArrivalOrder(s)
    requires ReadyEvent(s.lists, now).Found?
    ensures var r := ReadyEvent(s.lists, now); InArrivalOrder(DispatchOne(s, r.item, r.rest, now, requests))
  {
    var r := ReadyEvent(s.lists, now);
    assert Conserved(s, r.item.id);
    TakenIsNotListed(s, now);
    TakeStable(s.lists, now, s.log.placed);
    var u := s.(lists := r.rest);
    EnqueueAllFrame(u, requests);
    EnqueueAllFault(u, requests);
    var s1 := EnqueueAll(u, requests);
    if Running(s1) {
      FireArrives(s1, r.item, now);
    }
  }

  lemma FireArrives(s: State, x: Item, now: Clocks)
    requires Running(s) && InArrivalOrder(s) && Valid(s.lists) && ListCount(s.lists, x.id) == 0
    ensures InArrivalOrder(Fire(s, x, now)) && InArrivalOrder(PlaceItem(Fire(s, x, now), x, now))
  {
    FireFrame(s, x, now);
    var t := Fire(s, x, now);
    PlaceItemFrame(t, x, now);
    if Place(t.lists, x, now).Ok? {
      PlaceStable(t.lists, x, now, t.log.placed);
      assert s.log.passPlaced <= |s.log.placed| ==>
        (s.log.placed + [x.id])[..s.log.passPlaced] == s.log.placed[..s.log.passPlaced];
    }
  }

  lemma StartArrives(s: State, now: Clocks)
    requires Running(s) && Shape(s) && InArrivalOrder(s)
    ensures InArrivalOrder(StartPass(s, now))
  {
    assert s.log.placed[..|s.log.placed|] == s.log.placed;
  }

  /** The order is a matter of the lists and the placements alone. */
  lemma SameArrival(s: State, t: State)
    requires InArrivalOrder(s) && (Running(t) ==> Running(s) && t.lists == s.lists && t.log.placed == s.log.placed)
    requires t.log.passStart == s.log.passStart && t.log.passPlaced == s.log.passPlaced
    requires t.phase.Dispatching? || t.phase.Informing? ==> s.phase.Dispatching? || s.phase.Informing?
    ensures InArrivalOrder(t)
  {
  }

  lemma OtherArrives(s: State, e: Inputs)
    requires InArrivalOrder(s) && !s.phase.Draining? && !s.phase.Dispatching?
    ensures InArrivalOrder(Step(s, e))
  {
    QuietStep(s, e);
    SameArrival(s, Step(s, e));
  }

  lemma StepArrives(s: State, e: Inputs)
    requires Shape(s) && ConservedAll(s) && InArrivalOrder(s)
    ensures InArrivalOrder(Step(s, e))
  {
    match s.phase
    case Draining(now) =>
      if s.work != [] {
        DrainArrives(s, now);
      } else {
        StartArrives(s, now);
      }
    case Dispatching(now) =>
      if ReadyEvent(s.lists, now).Found? {
        DispatchArrives(s, now, e.requests);
      }
    case _ => OtherArrives(s, e);
  }

  lemma NextArrives(run: nat -> State, env: nat -> Inputs, from: nat, n: nat)
    requires IsRun(run, env, from) && from < n && Shape(run(n - 1)) && Timing(run(n - 1))
    requires ConservedAll(run(n - 1)) && InArrivalOrder(run(n - 1))
    ensures InArrivalOrder(run(n))
  {
    NextOf(run, env, from, n - 1);
    StepArrives(run(n - 1), env(n - 1));
  }

  lemma {:induction false} ArriveAlong(run: nat -> State, env: nat -> Inputs, from: nat, n: nat)
    requires IsRun(run, env, from) && from <= n && Shape(run(from)) && Timing(run(from))
    requires ConservedAll(run(from)) && InArrivalOrder(run(from))
    ensures InArrivalOrder(run(n))
    decreases n
  {
    if from < n {
      ArriveAlong(run, env, from, n - 1);
      KnownAlong(run, env, from, n - 1);
      NextArrives(run, env, from, n);
    }
  }

  lemma RunsArrive(s: State, env: nat -> Inputs, from: nat, end: nat)
    requires Shape(s) && Timing(s) && ConservedAll(s) && InArrivalOrder(s)
    ensures InArrivalOrder(After(s, env, from, end))
  {
    if from < end {
      var run := RunFrom(s, env, from);
      ArriveAlong(run, env, from, end);
      RunIsAfter(run, env, from, from, end);
    }
  }

  lemma ReachedArrive(clocks: Clocks, markers: u64, brk: bool, requests: seq<Request>, env: nat -> Inputs, n: nat)
    ensures InArrivalOrder(After(Initial(clocks, markers, brk, requests), env, 0, n))
  {
    var base := State(LoopTop, [], EMPTY, clocks, markers, true, false, brk, 0, NO_HISTORY);
    EnqueueAllFrame(base, requests);
    EnqueueAllFault(base, requests);
    InitialTiming(clocks, markers, brk, requests);
    InitialConserves(clocks, markers, brk, requests);
    RunsArrive(Initial(clocks, markers, brk, requests), env, 0, n);
  }

  // ----- theorems

  /**
    Over every run, of two items of one list with equal times the earlier one on the list was put there first, be it
    from the worklist or by re-arming.
   */
  lemma ListsKeepArrivalOrder(clocks: Clocks, markers: u64, brk: bool, requests: seq<Request>, env: nat -> Inputs,
                              n: nat, q: Queue, i: nat, j: nat)
    requires var l := After(Initial(clocks, markers, brk, requests), env, 0, n).lists.Get(q);
             i < j < |l| && l[i].time == l[j].time
    requires Running(After(Initial(clocks, markers, brk, requests), env, 0, n))
    ensures var s := After(Initial(clocks, markers, brk, requests), env, 0, n);
            0 <= Last(s.log.placed, s.lists.Get(q)[i].id) < Last(s.log.placed, s.lists.Get(q)[j].id)
  {
    ReachedArrive(clocks, markers, brk, requests, env, n);
  }

  /** As for lists, but for a sequence with items of several lists. */
  ghost predicate StableByList(s: seq<Item>, placed: seq<nat>)
  {
    forall i, j :: 0 <= i < j < |s| && OneList(s[i], s[j]) && s[i].time == s[j].time ==>
      0 <= Last(placed, s[i].id) < Last(placed, s[j].id)
  }

  predicate OneList(x: Item, y: Item)
  {
    x.trigger != Never && y.trigger != Never && Route(x.trigger) == Route(y.trigger)
  }

  ghost predicate FromLists(s: seq<Item>, k: nat)
  {
    forall i :: 0 <= i < |s| ==> s[i].trigger != Never && Rank(Route(s[i].trigger)) >= k
  }

  /** The due items of one list, followed by those of later ones. */
  lemma ConcatStable(a: seq<Item>, b: seq<Item>, k: nat, placed: seq<nat>)
    requires k < 5 && Stable(a, placed) && StableByList(b, placed) && FromLists(b, k + 1)
    requires forall i :: 0 <= i < |a| ==> a[i].trigger != Never && Route(a[i].trigger) == Order(k)
    ensures StableByList(a + b, placed) && FromLists(a + b, k)
  {
    forall i, j | 0 <= i < j < |a + b| && OneList((a + b)[i], (a + b)[j]) && (a + b)[i].time == (a + b)[j].time
      ensures 0 <= Last(placed, (a + b)[i].id) < Last(placed, (a + b)[j].id)
    {
      if j < |a| {
        assert (a + b)[i] == a[i] && (a + b)[j] == a[j];
      } else if i >= |a| {
        assert (a + b)[i] == b[i - |a|] && (a + b)[j] == b[j - |a|];
      }
    }
  }

  lemma DueOnStable(l: Lists, now: Clocks, q: Queue, placed: seq<nat>)
    requires Valid(l) && AllStable(l, placed)
    ensures Stable(DueOn(l, q, now), placed)
    ensures var d := DueOn(l, q, now);
            forall i :: 0 <= i < |d| ==> d[i].trigger != Never && Route(d[i].trigger) == q
  {
    assert ListValid(l.Get(q), q);
    FilterStable(l.Get(q), (x: Item) => Due(x, q, now), placed);
    FilterElements(l.Get(q), (x: Item) => Due(x, q, now));
    var d := DueOn(l, q, now);
    forall i | 0 <= i < |d| ensures d[i].trigger != Never && Route(d[i].trigger) == q {
      assert d[i] in d;
    }
  }

  lemma {:induction false} DueStable(l: Lists, now: Clocks, k: nat, placed: seq<nat>)
    requires k <= 5 && Valid(l) && AllStable(l, placed)
    ensures StableByList(DueFrom(l, now, k), placed) && FromLists(DueFrom(l, now, k), k)
    decreases 5 - k
  {
    if k < 5 {
      DueStable(l, now, k + 1, placed);
      DueOnStable(l, now, Order(k), placed);
      ConcatStable(DueOn(l, Order(k), now), DueFrom(l, now, k + 1), k, placed);
    }
  }

  /**
    Over every run, a pass that is over has dispatched the items of one list with equal times, immediate items among
    them, in the order in which they had been put on the list.
   */
  lemma EqualTimesInArrivalOrder(clocks: Clocks, markers: u64, brk: bool, requests: seq<Request>, env: nat -> Inputs,
                                 n: nat, i: nat, j: nat)
    requires var s := After(Initial(clocks, markers, brk, requests), env, 0, n);
             && s.phase.Informing? && i < j < |s.log.passLog|
             && OneList(s.log.passLog[i], s.log.passLog[j]) && s.log.passLog[i].time == s.log.passLog[j].time
    ensures var s := After(Initial(clocks, markers, brk, requests), env, 0, n);
            && s.log.passPlaced <= |s.log.placed|
            && var before := s.log.placed[..s.log.passPlaced];
               0 <= Last(before, s.log.passLog[i].id) < Last(before, s.log.passLog[j].id)
  {
    var s := After(Initial(clocks, markers, brk, requests), env, 0, n);
    ReachedArrive(clocks, markers, brk, requests, env, n);
    PassDispatchesTheDueItemsInOrder(clocks, markers, brk, requests, env, n);
    DueStable(s.log.passStart, s.phase.now, 0, s.log.placed[..s.log.passPlaced]);
  }
}
