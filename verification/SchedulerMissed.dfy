/**
  When the assertion on the cycle list fails: what one look at the lists finds, and what a pass owes the items that are
  late.
 */
module SchedulerMissed {
  import opened UInt64
  import opened WorkItems
  import opened ScheduleSpec
  import opened SchedulerRun
  import opened SchedulerShape
  import opened SchedulerConservation
  import opened SchedulerExactness
  import opened SchedulerOrder

  /** Re-arming the item puts it behind its counter. */
  predicate WrapsBehind(x: Item, now: Clocks)
  {
    && Periodic(x.trigger) && x.period > 0
    && AlignAfter(now.Of(Route(x.trigger)), Slack(Route(x.trigger)), x.period) < now.Of(Route(x.trigger))
  }

  // ----- one look at the lists

  /** Lists that are examined before that of the item found have nothing due. */
  lemma {:induction false} FoundFromFirst(l: Lists, now: Clocks, k: nat)
    requires Valid(l) && k <= 5
    ensures match ReadyFrom(l, now, k)
            case Found(x, rest) => FirstFound(l, now, x, k)
            case _ => true
    decreases 5 - k
  {
    if k < 5 {
      var q := Order(k);
      var s := l.Get(q);
      assert ListValid(s, q);
      if s == [] || (!IsReady(s[0], q, now) && IsWaiting(s[0], q, now)) {
        HeadNotDue(s, q, now);
        FoundFromFirst(l, now, k + 1);
        match ReadyFrom(l, now, k + 1) {
          case Found(x, rest) => SkipFirst(l, now, x, k);
          case _ =>
        }
      } else {
        assert Belongs(s[0], q) && Rank(q) == k;
      }
    }
  }

  lemma SkipFirst(l: Lists, now: Clocks, x: Item, k: nat)
    requires k < 5 && FirstFound(l, now, x, k + 1) && forall y :: y in l.Get(Order(k)) ==> !Due(y, Order(k), now)
    ensures FirstFound(l, now, x, k)
  {
  }

  ghost predicate FirstFound(l: Lists, now: Clocks, x: Item, k: nat)
  {
    && x.trigger != Never && Rank(Route(x.trigger)) >= k
    && forall i, y :: k <= i < Rank(Route(x.trigger)) && y in l.Get(Order(i)) ==> !Due(y, Order(i), now)
  }

  ghost predicate NothingBefore(l: Lists, now: Clocks, q: Queue)
  {
    forall p: Queue, y :: Rank(p) < Rank(q) && y in l.Get(p) ==> !Due(y, p, now)
  }

  /** What is found is the head of list `q`, and nothing is due on the lists before. */
  ghost predicate IsHead(l: Lists, now: Clocks, q: Queue, x: Item, rest: Lists)
  {
    && Belongs(x, q) && l.Get(q) != [] && l.Get(q)[0] == x && IsReady(x, q, now)
    && rest == l.Set(q, l.Get(q)[1..]) && NothingBefore(l, now, q)
  }

  lemma Look(l: Lists, now: Clocks) returns (q: Queue)
    requires Valid(l) && ReadyEvent(l, now).Found?
    ensures var r := ReadyEvent(l, now); IsHead(l, now, q, r.item, r.rest)
  {
    var r := ReadyEvent(l, now);
    FoundBelongs(l, now);
    q :| Belongs(r.item, q) && l.Get(q) != [] && l.Get(q)[0] == r.item && IsReady(r.item, q, now)
         && r.rest == l.Set(q, l.Get(q)[1..]);
    LookedBefore(l, now, q);
  }

  lemma LookedBefore(l: Lists, now: Clocks, q: Queue)
    requires Valid(l) && ReadyEvent(l, now).Found? && Belongs(ReadyEvent(l, now).item, q)
    ensures NothingBefore(l, now, q)
  {
    FoundFromFirst(l, now, 0);
    forall p: Queue, y | Rank(p) < Rank(q) && y in l.Get(p) ensures !Due(y, p, now) {
      assert Order(Rank(p)) == p;
    }
  }

  /** With the nanosecond list overdue, the cycle list has nothing due. */
  lemma OverdueFrom(l: Lists, now: Clocks)
    requires Valid(l) && ReadyEvent(l, now) == Overdue(NanosecondQ)
    ensures !Late(l, CycleQ, now)
  {
    var s := l.Get(CycleQ);
    assert ListValid(s, CycleQ);
    assert Order(0) == CycleQ;
    assert s == [] || (!IsReady(s[0], CycleQ, now) && IsWaiting(s[0], CycleQ, now));
    HeadNotDue(s, CycleQ, now);
  }

  // ----- the requests of one step

  /** No request is refused by the assertion that an immediate item has no time. */
  predicate Harmless(rs: seq<Request>)
  {
    forall i :: 0 <= i < |rs| && rs[i].CommandRequest? && rs[i].trigger == Now ==> rs[i].n == 0
  }

  lemma {:induction false} HarmlessKeeps(s: State, rs: seq<Request>)
    requires Running(s) && Harmless(rs)
    ensures EnqueueAll(s, rs).phase == s.phase
    decreases rs
  {
    if rs != [] {
      assert rs[0].CommandRequest? && rs[0].trigger == Now ==> rs[0].n == 0;
      assert Running(Enqueue(s, rs[0])) && Enqueue(s, rs[0]).phase == s.phase;
      HarmlessKeeps(Enqueue(s, rs[0]), rs[1..]);
    }
  }

  /** The item has been dispatched, and re-armed if it is periodic; that may have failed. */
  ghost predicate Dispatched(s: State, t: State, x: Item, rest: Lists, now: Clocks)
  {
    t.log.passLog == s.log.passLog + [x]
    && match Redo(x, rest, now)
       case Ok(l) => t.phase == s.phase && t.lists == l
       case Failed(f) => t.phase == Aborted(f)
  }

  lemma DispatchFate(s: State, x: Item, rest: Lists, now: Clocks, requests: seq<Request>)
    requires s.phase == Dispatching(now)
    ensures var t := DispatchOne(s, x, rest, now, requests);
            && t.log.passStart == s.log.passStart
            && (Dispatched(s, t, x, rest, now) || (t.phase == Aborted(NowWithTime) && !Harmless(requests)))
  {
    var u := s.(lists := rest);
    EnqueueAllFrame(u, requests);
    EnqueueAllFault(u, requests);
    if Harmless(requests) {
      HarmlessKeeps(u, requests);
    }
    var s1 := EnqueueAll(u, requests);
    FireFrame(s1, x, now);
    PlaceItemFrame(Fire(s1, x, now), x, now);
  }

  // ----- the cycle list: missed or not

  /** The pass began with a timed cycle item behind the counter, or has re-armed one behind it. */
  ghost predicate PassOffence(log: History, now: Clocks)
  {
    Late(log.passStart, CycleQ, now) || exists x :: x in log.passLog && x.trigger == CyclePeriod && WrapsBehind(x, now)
  }

  /** While a pass dispatches, an item is behind exactly if there was an offence in this pass. */
  ghost predicate OffenceShows(s: State)
  {
    s.phase.Dispatching? ==> (Late(s.lists, CycleQ, s.phase.now) <==> PassOffence(s.log, s.phase.now))
  }

  /** One dispatch puts an item behind exactly if it re-arms it there. */
  lemma RedoBehind(l: Lists, now: Clocks)
    requires Valid(l) && ReadyEvent(l, now).Found? && !Late(l, CycleQ, now)
    ensures var r := ReadyEvent(l, now);
            match Redo(r.item, r.rest, now)
            case Ok(l') => Late(l', CycleQ, now) <==> r.item.trigger == CyclePeriod && WrapsBehind(r.item, now)
            case Failed(f) => !(r.item.trigger == CyclePeriod && WrapsBehind(r.item, now))
  {
    var r := ReadyEvent(l, now);
    var q := Look(l, now);
    assert forall y :: y in r.rest.cycle ==> y in l.cycle;
    assert !Late(r.rest, CycleQ, now);
    if Periodic(r.item.trigger) && Redo(r.item, r.rest, now).Ok? {
      PlaceOnCycleList(r.rest, r.item, now);
      if r.item.trigger == CyclePeriod {
        assert Rearm(r.item, now).value in Redo(r.item, r.rest, now).value.cycle;
      }
    }
  }

  lemma OffenceGrows(log: History, log': History, x: Item, now: Clocks)
    requires log'.passStart == log.passStart && log'.passLog == log.passLog + [x]
    ensures PassOffence(log', now) <==> PassOffence(log, now) || (x.trigger == CyclePeriod && WrapsBehind(x, now))
  {
    assert forall y :: y in log'.passLog <==> y in log.passLog || y == x;
  }

  lemma DispatchOffence(s: State, now: Clocks, e: Inputs)
    requires s.phase == Dispatching(now) && Shape(s) && OffenceShows(s) && ReadyEvent(s.lists, now).Found?
    ensures var t := Step(s, e);
            && OffenceShows(t)
            && (t.phase.Aborted? && t.phase != Aborted(NowWithTime) ==>
                  !t.phase.fault.Missed? && !PassOffence(t.log, now))
  {
    var r := ReadyEvent(s.lists, now);
    var t := Step(s, e);
    DispatchFate(s, r.item, r.rest, now, e.requests);
    if Dispatched(s, t, r.item, r.rest, now) {
      OffenceGrows(s.log, t.log, r.item, now);
      if Late(s.lists, CycleQ, now) {
        LateStep(s, now, e);
        RedoFault(r.item, r.rest, now);
      } else {
        RedoBehind(s.lists, now);
        RedoFault(r.item, r.rest, now);
      }
    }
  }

  lemma RedoFault(x: Item, rest: Lists, now: Clocks)
    ensures match Redo(x, rest, now)
            case Ok(l) => true
            case Failed(f) => !f.Missed? && f != NowWithTime
  {
  }

  lemma StepOffence(s: State, e: Inputs)
    requires Shape(s) && OffenceShows(s)
    ensures OffenceShows(Step(s, e))
  {
    match s.phase
    case Draining(now) =>
      if s.work != [] {
        DrainOrdered(s, now);
        DrainKeepsPhase(s, now);
      }
    case Dispatching(now) =>
      if ReadyEvent(s.lists, now).Found? {
        DispatchOffence(s, now, e);
      }
    case _ => QuietStep(s, e);
  }

  lemma DrainKeepsPhase(s: State, now: Clocks)
    requires s.phase == Draining(now) && s.work != []
    ensures var t := DrainOne(s, now); t.phase == s.phase || t.phase.Aborted?
  {
  }

  lemma NextOffence(run: nat -> State, env: nat -> Inputs, from: nat, n: nat)
    requires IsRun(run, env, from) && from < n && Shape(run(n - 1)) && Timing(run(n - 1)) && OffenceShows(run(n - 1))
    ensures OffenceShows(run(n))
  {
    NextOf(run, env, from, n - 1);
    StepOffence(run(n - 1), env(n - 1));
  }

  lemma {:induction false} OffenceAlong(run: nat -> State, env: nat -> Inputs, from: nat, n: nat)
    requires IsRun(run, env, from) && from <= n && Shape(run(from)) && Timing(run(from)) && OffenceShows(run(from))
    ensures OffenceShows(run(n))
    decreases n
  {
    if from < n {
      OffenceAlong(run, env, from, n - 1);
      StandingAlong(run, env, from, n - 1);
      NextOffence(run, env, from, n);
    }
  }

  lemma RunsOffence(s: State, env: nat -> Inputs, from: nat, end: nat)
    requires Shape(s) && Timing(s) && OffenceShows(s)
    ensures OffenceShows(After(s, env, from, end))
  {
    if from < end {
      var run := RunFrom(s, env, from);
      OffenceAlong(run, env, from, end);
      RunIsAfter(run, env, from, from, end);
    }
  }

  lemma NothingFate(s: State, now: Clocks)
    requires s.phase == Dispatching(now) && Shape(s) && OffenceShows(s) && ReadyEvent(s.lists, now) == Nothing
    ensures !PassOffence(s.log, now)
  {
    NothingReadyNothingDue(s.lists, now);
    assert forall x :: x in s.lists.cycle ==> x in s.lists.Get(CycleQ);
  }

  lemma OverdueFate(s: State, now: Clocks)
    requires s.phase == Dispatching(now) && Shape(s) && OffenceShows(s) && ReadyEvent(s.lists, now).Overdue?
    ensures PassOffence(s.log, now) <==> ReadyEvent(s.lists, now).q == CycleQ
  {
    ReadyIsFirstDue(s.lists, now);
    if ReadyEvent(s.lists, now).q == NanosecondQ {
      OverdueFrom(s.lists, now);
    } else {
      assert s.lists.Get(CycleQ)[0] in s.lists.cycle;
    }
  }

  /** The last step of a pass. */
  lemma EndOffence(s: State, now: Clocks, e: Inputs, t: State)
    requires s.phase == Dispatching(now) && Shape(s) && OffenceShows(s)
    requires t == Step(s, e) && !t.phase.Dispatching? && t.phase != Aborted(NowWithTime)
    ensures t.phase == Aborted(Missed(CycleQ)) <==> PassOffence(t.log, now)
  {
    match ReadyEvent(s.lists, now)
    case Nothing => NothingFate(s, now);
    case Overdue(q) => OverdueFate(s, now);
    case Found(x, rest) =>
      DispatchOffence(s, now, e);
      DispatchFate(s, x, rest, now, e.requests);
  }

  /** What is known of the states of a run. */
  lemma RunOffence(clocks: Clocks, markers: u64, brk: bool, requests: seq<Request>, env: nat -> Inputs,
                   n: nat, s: State)
    requires s == After(Initial(clocks, markers, brk, requests), env, 0, n)
    ensures Shape(s) && Timing(s) && OffenceShows(s)
  {
    InitialTiming(clocks, markers, brk, requests);
    RunsKeepTiming(Initial(clocks, markers, brk, requests), env, 0, n);
    InitialOffence(clocks, markers, brk, requests);
    RunsOffence(Initial(clocks, markers, brk, requests), env, 0, n);
  }

  /**
    Over every run, and for every way in which a pass can end but the refusal of a request: the assertion that no cycle
    item has been missed fails exactly if the pass began with a timed item behind the cycle counter or the re-arming of
    a cycle period wrapped to before it.
   */
  lemma PassMissesIffOffence(clocks: Clocks, markers: u64, brk: bool, requests: seq<Request>,
                             env: nat -> Inputs, n: nat)
    requires var s0 := Initial(clocks, markers, brk, requests);
             && After(s0, env, 0, n).phase.Dispatching? && !After(s0, env, 0, n + 1).phase.Dispatching?
             && After(s0, env, 0, n + 1).phase != Aborted(NowWithTime)
    ensures var s0 := Initial(clocks, markers, brk, requests);
            var t := After(s0, env, 0, n + 1);
            t.phase == Aborted(Missed(CycleQ)) <==> PassOffence(t.log, After(s0, env, 0, n).phase.now)
  {
    var s0 := Initial(clocks, markers, brk, requests);
    var s := After(s0, env, 0, n);
    RunOffence(clocks, markers, brk, requests, env, n, s);
    EndOffence(s, s.phase.now, env(n), After(s0, env, 0, n + 1));
  }

  lemma InitialOffence(clocks: Clocks, markers: u64, brk: bool, requests: seq<Request>)
    ensures OffenceShows(Initial(clocks, markers, brk, requests))
  {
    EnqueueAllFault(State(LoopTop, [], EMPTY, clocks, markers, true, false, brk, 0, NO_HISTORY), requests);
  }

  predicate MissedOrRefused(f: Phase)
  {
    f == Aborted(Missed(CycleQ)) || f == Aborted(NowWithTime)
  }

  lemma RunBehind(clocks: Clocks, markers: u64, brk: bool, requests: seq<Request>, env: nat -> Inputs, n: nat, s: State)
    requires s == After(Initial(clocks, markers, brk, requests), env, 0, n)
    requires s.phase.Dispatching? && PassOffence(s.log, s.phase.now)
    ensures Shape(s) && Late(s.lists, CycleQ, s.phase.now)
  {
    RunOffence(clocks, markers, brk, requests, env, n, s);
  }

  /** And a pass with an offence does end: it goes on at most once for each item of the cycle list. */
  lemma OffenceEndsPass(clocks: Clocks, markers: u64, brk: bool, requests: seq<Request>, env: nat -> Inputs,
                        n: nat, s: State)
    requires s == After(Initial(clocks, markers, brk, requests), env, 0, n)
    requires s.phase.Dispatching? && PassOffence(s.log, s.phase.now)
    ensures MissedOrRefused(After(Initial(clocks, markers, brk, requests), env, 0, n + |s.lists.cycle|).phase)
  {
    RunBehind(clocks, markers, brk, requests, env, n, s);
    var s0 := Initial(clocks, markers, brk, requests);
    OffenceEnds(s0, env, n, s, n + |s.lists.cycle|);
  }

  lemma OffenceEnds(s0: State, env: nat -> Inputs, n: nat, s: State, end: nat)
    requires s == After(s0, env, 0, n) && s.phase.Dispatching? && Shape(s) && Late(s.lists, CycleQ, s.phase.now)
    requires end == n + |s.lists.cycle|
    ensures MissedOrRefused(After(s0, env, 0, end).phase)
  {
    LateItemDoomsPass(s, s.phase.now, env, n, end);
    AfterCompose(s0, env, 0, n, end);
  }

  /**
    Over every run, a one-shot cycle item that was drained after its cycle and has not been cleared is behind whenever
    a pass dispatches, so that the pass ends in the assertion.
   */
  lemma LateDrainedIsBehind(clocks: Clocks, markers: u64, brk: bool, requests: seq<Request>, env: nat -> Inputs,
                            n: nat, st: Stamp)
    requires var s := After(Initial(clocks, markers, brk, requests), env, 0, n);
             s.phase.Dispatching? && st in s.log.drained && DrainedLate(st) && st.item !in s.log.cleared
    ensures var s := After(Initial(clocks, markers, brk, requests), env, 0, n);
            Late(s.lists, CycleQ, s.phase.now) && PassOffence(s.log, s.phase.now)
  {
    var s0 := Initial(clocks, markers, brk, requests);
    InitialTiming(clocks, markers, brk, requests);
    InitialExact(clocks, markers, brk, requests);
    RunsExact(s0, env, 0, n);
    RunOffence(clocks, markers, brk, requests, env, n, After(s0, env, 0, n));
    LateStays(After(s0, env, 0, n), st);
  }

  lemma LateStays(s: State, st: Stamp)
    requires s.phase.Dispatching? && Timing(s) && AllOnTime(s) && AllAccounted(s)
    requires st in s.log.drained && DrainedLate(st) && st.item !in s.log.cleared
    ensures Late(s.lists, CycleQ, s.phase.now)
  {
    assert Accounted(s, st);
    assert forall i :: 0 <= i < |s.log.fired| ==> OnTime(s.log.fired[i]);
  }
}
