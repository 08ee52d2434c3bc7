/**
  The warm-up manager: the loops that drain the feeders, count what they bring, and walk the lists of callbacks.
 */
module WarmupManager {
  import opened Basics
  import opened LineFilter
  import opened Warmup
  import opened WarmupClients
  import WarmupEvents

  const MAX_MEM_REFS := 20

  /** What a feeder fills in for one answer; references beyond the room there is are dropped. */
  class WarmupInfo {
    var loads: array<MemRef>
    var stores: array<MemRef>
    var nLoads: nat
    var nStores: nat

    ghost predicate Valid()
      reads this
    {
      && loads != stores && loads.Length == stores.Length == MAX_MEM_REFS
      && nLoads <= MAX_MEM_REFS && nStores <= MAX_MEM_REFS
    }

    constructor ()
      ensures Valid() && fresh(loads) && fresh(stores) && nLoads == nStores == 0
    {
      loads := new MemRef[MAX_MEM_REFS](i => MemRef(0, 0, 0));
      stores := new MemRef[MAX_MEM_REFS](i => MemRef(0, 0, 0));
      nLoads, nStores := 0, 0;
    }

    method NoteLoad(r: MemRef)
      requires Valid()
      modifies this`nLoads, loads
      ensures Valid() && loads[..nLoads] == Noted(old(loads[..nLoads]), r)
    {
      if nLoads < MAX_MEM_REFS {
        loads[nLoads] := r;
        nLoads := nLoads + 1;
      }
    }

    method NoteStore(r: MemRef)
      requires Valid()
      modifies this`nStores, stores
      ensures Valid() && stores[..nStores] == Noted(old(stores[..nStores]), r)
    {
      if nStores < MAX_MEM_REFS {
        stores[nStores] := r;
        nStores := nStores + 1;
      }
    }
  }

  function Noted(refs: seq<MemRef>, r: MemRef): seq<MemRef>
  {
    if |refs| < MAX_MEM_REFS then refs + [r] else refs
  }

  function NotedAll(refs: seq<MemRef>): seq<MemRef>
  {
    if refs == [] then [] else Noted(NotedAll(refs[..|refs| - 1]), refs[|refs| - 1])
  }

  /** Of any number of references noted the first twenty are kept. */
  lemma {:induction false} FirstAreKept(refs: seq<MemRef>)
    ensures NotedAll(refs) == refs[..if |refs| < 20 then |refs| else 20]
  {
    if refs != [] {
      FirstAreKept(refs[..|refs| - 1]);
    }
  }

  class HwContext {
    const own: Listeners
    /** What the feeder has still to answer. */
    var queue: seq<Info>
    var nDataInits: nat
    var nIFetchInits: nat
    var nCtrlInits: nat
    var nEmptyInits: nat

    ghost function Counters(): Counts
      reads this
    {
      Counts(nDataInits, nIFetchInits, nCtrlInits, nEmptyInits)
    }

    constructor (answers: seq<Info>, own: Listeners)
      ensures queue == answers && this.own == own && Counters() == NO_COUNTS
    {
      queue, this.own := answers, own;
      nDataInits, nIFetchInits, nCtrlInits, nEmptyInits := 0, 0, 0, 0;
    }

    /** The feeder's next answer, if there is one. */
    method WarmUp() returns (found: bool, info: Info)
      modifies this`queue
      ensures found == (old(queue) != [])
      ensures if found then old(queue) == [info] + queue else queue == []
    {
      found, info := false, Info(None, false, None, [], []);
      if queue != [] {
        found, info := true, queue[0];
        queue := queue[1..];
      }
    }
  }

  lemma CallEachConcat(p: seq<nat>, q: seq<nat>, e: Event)
    ensures CallEach(p + q, e) == CallEach(p, e) + CallEach(q, e)
  {
  }

  /** A marker: mentioning it opens `BatchesFor` for some queues. */
  ghost predicate BatchesOpened(queues: Queues, n: int)
  {
    true
  }

  /** The number of rounds that bring something, kept closed. */
  ghost function RoundsFor(queues: Queues): nat
  {
    assert ClosedRounds(Longest(BatchesOf(queues)), queues);
    var n: nat :| ClosedRounds(n, queues);
    n
  }

  ghost predicate ClosedRounds(n: nat, queues: Queues)
  {
    forall k :: BatchesOpened(queues, k) ==> n == Longest(BatchesOf(queues))
  }

  /** What a context has left to answer, and its counters. */
  datatype Standing = Standing(left: seq<Info>, counts: Counts)

  /** After t answers of a queue, or all there are; they are counted if warm-up is enabled. */
  ghost function StandingAfter(queue: seq<Info>, from: Counts, enable: bool, t: nat): Standing
  {
    var n := if t < |queue| then t else |queue|;
    Standing(queue[n..], if enable then TallyFrom(from, queue, n) else from)
  }

  /** A marker: mentioning it opens `StandingAt` for a queue. */
  ghost predicate StandingOpened(queue: seq<Info>, t: nat, n: int)
  {
    true
  }

  ghost predicate ClosedStanding(s: Standing, queue: seq<Info>, from: Counts, enable: bool, t: nat)
  {
    forall k :: StandingOpened(queue, t, k) ==> s == StandingAfter(queue, from, enable, t)
  }

  /** `StandingAfter`, kept closed until the context answers. */
  ghost function StandingAt(queue: seq<Info>, from: Counts, enable: bool, t: nat): Standing
  {
    assert ClosedStanding(StandingAfter(queue, from, enable, t), queue, from, enable, t);
    var s: Standing :| ClosedStanding(s, queue, from, enable, t);
    s
  }

  /** `BatchesOf`, kept closed until an answer is taken. */
  ghost function BatchesFor(queues: Queues): (b: Batches)
    ensures |b| == |queues|
  {
    assert ClosedBatches(BatchesOf(queues), queues);
    var b: Batches :| ClosedBatches(b, queues);
    b
  }

  ghost predicate ClosedBatches(b: Batches, queues: Queues)
  {
    |b| == |queues| && forall n :: BatchesOpened(queues, n) ==> b == BatchesOf(queues)
  }

  /** A marker: mentioning it opens `Manager.After`. */
  ghost predicate AfterOpened(before: seq<Event>, b: Batches, t: nat, n: int)
  {
    true
  }

  /** A marker: mentioning it opens `Manager.SoFar`. */
  ghost predicate WithinOpened(start: seq<Event>, b: Batches, t: nat, h: nat, n: int)
  {
    true
  }

  /** A marker: mentioning it opens `OutcomeFor` for a sequence of events. */
  ghost predicate OutcomeOpened(events: seq<Event>, n: int)
  {
    true
  }

  ghost predicate Closed(o: Outcome, s: Setup, events: seq<Event>)
  {
    forall n :: OutcomeOpened(events, n) ==> o == OutcomeOf(s, events)
  }

  /** `OutcomeOf`, kept closed until it is needed. */
  ghost function OutcomeFor(s: Setup, events: seq<Event>): Outcome
  {
    assert Closed(OutcomeOf(s, events), s, events);
    var o: Outcome :| Closed(o, s, events);
    o
  }

  lemma OutcomeForIs(s: Setup, events: seq<Event>)
    ensures OutcomeFor(s, events) == OutcomeOf(s, events)
  {
    assert OutcomeOpened(events, 0);
  }

  lemma OutcomeForOne(s: Setup, earlier: seq<Event>, e: Event)
    ensures OutcomeFor(s, earlier + [e]) == PassAll(s, OutcomeFor(s, earlier), CallEach(Receivers(s, e), e))
  {
    assert OutcomeOpened(earlier, 0) && OutcomeOpened(earlier + [e], 0);
    OutcomeOfOne(s, earlier, e);
  }

  lemma {:induction false} NothingLeft(b: Batches, t: nat, h: nat)
    requires h <= |b| && LongestOf(b, h) <= t
    ensures RoundEvents(b, t, h) == []
  {
    if h > 0 {
      NothingLeft(b, t, h - 1);
    }
  }

  /** What one warm-up starts from: the queues, the counters, the events of each answer, and the rounds it takes. */
  datatype Plan = Plan(queues: Queues, counts: seq<Counts>, batches: Batches, rounds: nat)

  class Manager {
    const all: Listeners
    const hwcs: seq<HwContext>
    /** The registrations for fetches; the lists for fetches hold their numbers. */
    const pool: seq<FetchCallback>
    /** Whether warm-up is enabled at all. */
    const enable: bool
    const trace: Trace
    /** All events announced so far, what they led to, and what is registered, as values. */
    ghost var announced: seq<Event>
    ghost var outcome: Outcome
    ghost const setup: Setup

    ghost predicate InPool(list: seq<nat>)
    {
      forall k :: 0 <= k < |list| ==> list[k] < |pool|
    }

    ghost predicate ListsFit()
    {
      && setup.all == all && |setup.own| == |hwcs| && InPool(all(IFetches))
      && forall h :: 0 <= h < |hwcs| ==> setup.own[h] == hwcs[h].own && InPool(hwcs[h].own(IFetches))
    }

    ghost predicate PoolFits()
    {
      && |setup.fetchClients| == |pool|
      && (forall r :: 0 <= r < |pool| ==>
            pool[r].Valid() && setup.fetchClients[r] == FetchClient(pool[r].client, pool[r].lineBytes))
      && forall q, r :: 0 <= q < r < |pool| ==> pool[q] != pool[r]
    }

    ghost predicate Distinct()
    {
      forall g, h :: 0 <= g < h < |hwcs| ==> hwcs[g] != hwcs[h]
    }

    /** The calls made and the lines remembered are those of an outcome. */
    ghost predicate Shows(o: Outcome)
      reads trace, pool
    {
      trace.calls == o.calls && |o.lines| == |pool| && forall r :: 0 <= r < |pool| ==> pool[r].lastVA == o.lines[r]
    }

    ghost predicate Valid()
      reads this, trace, pool
    {
      ListsFit() && PoolFits() && Shows(outcome) && outcome == OutcomeFor(setup, announced)
    }

    /** The context has given t answers of a queue, or all there are, and counted them. */
    ghost predicate ContextAt(c: HwContext, queue: seq<Info>, from: Counts, t: nat)
      reads c
    {
      Standing(c.queue, c.Counters()) == StandingAt(queue, from, enable, t)
    }

    /** A manager that has not warmed up yet. */
    constructor (all: Listeners, hwcs: seq<HwContext>, pool: seq<FetchCallback>, enable: bool)
      requires forall k :: 0 <= k < |all(IFetches)| ==> all(IFetches)[k] < |pool|
      requires forall h :: 0 <= h < |hwcs| ==>
        forall k :: 0 <= k < |hwcs[h].own(IFetches)| ==> hwcs[h].own(IFetches)[k] < |pool|
      requires forall r :: 0 <= r < |pool| ==> pool[r].Valid() && pool[r].lastVA == 0
      requires forall q, r :: 0 <= q < r < |pool| ==> pool[q] != pool[r]
      ensures this.all == all && this.hwcs == hwcs && this.pool == pool && this.enable == enable
      ensures Valid() && announced == [] && trace.calls == [] && fresh(trace)
    {
      this.all, this.hwcs, this.pool, this.enable, announced := all, hwcs, pool, enable, [];
      setup := Setup(all, seq(|hwcs|, h requires 0 <= h < |hwcs| => hwcs[h].own),
                     seq(|pool|, r requires 0 <= r < |pool| => FetchClient(pool[r].client, pool[r].lineBytes)));
      trace := new Trace();
      new;
      outcome := Unused(setup);
      assert OutcomeOpened(announced, 0);
    }

    /** One entry of a list: a client, or for fetches a registration that compares lines. */
    method CallEntry(n: nat, e: Event)
      requires PoolFits() && Shows(outcome) && (e.IFetch? ==> n < |pool|)
      modifies this`outcome, trace, pool
      ensures Shows(outcome) && outcome == PassOne(setup, old(outcome), Call(n, e))
    {
      if e.IFetch? {
        assert Registered(setup, outcome, n);
        pool[n].CallIfNewLine(e, trace);
      } else {
        trace.calls := trace.calls + [Call(n, e)];
      }
      outcome := PassOne(setup, outcome, Call(n, e));
    }

    method CallAll(list: seq<nat>, e: Event)
      requires PoolFits() && Shows(outcome) && (e.IFetch? ==> InPool(list))
      modifies this`outcome, trace, pool
      ensures Shows(outcome) && outcome == PassAll(setup, old(outcome), CallEach(list, e))
    {
      var k := 0;
      while k < |list|
        invariant 0 <= k <= |list| && Shows(outcome) && outcome == PassTo(setup, old(outcome), CallEach(list, e), k)
      {
        CallEntry(list[k], e);
        k := k + 1;
      }
    }

    /** The global callbacks for an event, then those of its context. */
    method Announce(e: Event, own: seq<nat>)
      requires Valid() && own == OwnReceivers(setup, e) && (e.IFetch? ==> InPool(own))
      modifies this, trace, pool
      ensures Valid() && announced == old(announced) + [e]
    {
      ghost var before := outcome;
      CallAll(all(KindOf(e)), e);
      CallAll(own, e);
      CallEachConcat(all(KindOf(e)), own, e);
      PassConcat(setup, before, CallEach(all(KindOf(e)), e), CallEach(own, e));
      OutcomeForOne(setup, announced, e);
      announced := announced + [e];
    }

    /** The loads, or the stores, of an answer. */
    method AnnounceRefs(c: HwContext, h: nat, i: Info, isLoad: bool) returns (hadData: bool)
      requires Valid() && h < |hwcs| && c == hwcs[h]
      modifies this, trace, pool, c`nDataInits
      ensures Valid()
      ensures var n := |if isLoad then i.loads else i.stores|;
              && announced == old(announced) + Refs(h, i, isLoad, n)
              && c.nDataInits == old(c.nDataInits) + n && hadData == (n > 0)
    {
      var refs := if isLoad then i.loads else i.stores;
      var n := 0;
      hadData := false;
      while n < |refs|
        invariant 0 <= n <= |refs| && hadData == (n > 0) && c.nDataInits == old(c.nDataInits) + n
        invariant Valid() && announced == old(announced) + Refs(h, i, isLoad, n)
      {
        c.nDataInits := c.nDataInits + 1;
        Announce(Data(h, isLoad, refs[n], i.inst, i.ifetch), c.own(DataRefs));
        hadData := true;
        n := n + 1;
      }
    }

    /** A control transfer and a fetch. */
    method AnnounceHead(c: HwContext, h: nat, i: Info) returns (hadData: bool)
      requires Valid() && h < |hwcs| && c == hwcs[h]
      modifies this, trace, pool, c`nCtrlInits, c`nIFetchInits
      ensures Valid() && announced == old(announced) + Head(h, i)
      ensures c.nCtrlInits == old(c.nCtrlInits) + (if i.isCtrlTransfer then 1 else 0)
      ensures c.nIFetchInits == old(c.nIFetchInits) + if i.ifetch.Some? then 1 else 0
      ensures hadData == (i.isCtrlTransfer || i.ifetch.Some?)
    {
      hadData := false;
      if i.isCtrlTransfer {
        c.nCtrlInits := c.nCtrlInits + 1;
        Announce(Instr(h, i.inst), c.own(Instrs));
        hadData := true;
      }
      if i.ifetch.Some? {
        c.nIFetchInits := c.nIFetchInits + 1;
        Announce(IFetch(h, i.ifetch.value.0, i.ifetch.value.1), c.own(IFetches));
        hadData := true;
      }
    }

    /** All that one answer brings. */
    method Distribute(c: HwContext, h: nat, i: Info)
      requires Valid() && h < |hwcs| && c == hwcs[h]
      modifies this, trace, pool, c`nDataInits, c`nCtrlInits, c`nIFetchInits, c`nEmptyInits
      ensures Valid() && announced == old(announced) + InfoEvents(h, i)
      ensures c.Counters() == Counted(old(c.Counters()), i)
    {
      ghost var earlier := announced;
      var hadHead := AnnounceHead(c, h, i);
      var hadLoads := AnnounceRefs(c, h, i, true);
      var hadStores := AnnounceRefs(c, h, i, false);
      if !(hadHead || hadLoads || hadStores) {
        c.nEmptyInits := c.nEmptyInits + 1;
      }
      ghost var loads, stores := Refs(h, i, true, |i.loads|), Refs(h, i, false, |i.stores|);
      Regroup(earlier, Head(h, i), loads);
      Regroup(earlier, Head(h, i) + loads, stores);
    }

    /** One context in one round. */
    method Visit(c: HwContext, h: nat, ghost queue: seq<Info>, ghost from: Counts, ghost t: nat) returns (found: bool)
      requires Valid() && h < |hwcs| && c == hwcs[h] && ContextAt(c, queue, from, t)
      modifies this, trace, pool, c
      ensures Valid() && found == (t < |queue|) && ContextAt(c, queue, from, t + 1)
      ensures announced == if enable && found then old(announced) + InfoEvents(h, queue[t]) else old(announced)
    {
      assert StandingOpened(queue, t, 0) && StandingOpened(queue, t + 1, 0);
      var info;
      found, info := c.WarmUp();
      if found {
        assert info == queue[t] && c.queue == queue[t + 1..];
        if enable {
          Distribute(c, h, info);
        }
      }
    }

    ghost predicate Planned(p: Plan)
    {
      && |p.queues| == |p.counts| == |p.batches| == |hwcs|
      && p.batches == BatchesFor(p.queues) && p.rounds == RoundsFor(p.queues)
    }

    /** The contexts before h have answered in round t. */
    ghost predicate Midway(p: Plan, t: nat, h: nat)
      requires |p.queues| == |p.counts| == |hwcs|
      reads hwcs
    {
      forall g :: 0 <= g < |hwcs| ==> ContextAt(hwcs[g], p.queues[g], p.counts[g], if g < h then t + 1 else t)
    }

    method VisitNext(ghost p: Plan, h: nat, ghost t: nat) returns (found: bool)
      requires Valid() && Distinct() && h < |hwcs| && Planned(p) && Midway(p, t, h)
      modifies this, trace, pool, hwcs
      ensures Valid() && Midway(p, t, h + 1) && found == (t < |p.batches[h]|)
      ensures announced == if enable && found then old(announced) + p.batches[h][t] else old(announced)
    {
      assert BatchesOpened(p.queues, 0);
      found := Visit(hwcs[h], h, p.queues[h], p.counts[h], t);
    }

    /** The events after the contexts before h have answered in round t, and whether any had anything left. */
    ghost function Within(start: seq<Event>, b: Batches, t: nat, h: nat): (seq<Event>, bool)
      requires h <= |b|
    {
      var more := LongestOf(b, h) > t;
      (if enable && more then start + RoundEvents(b, t, h) else start, more)
    }

    /** `Within`, kept closed. */
    ghost function SoFar(start: seq<Event>, b: Batches, t: nat, h: nat): (seq<Event>, bool)
      requires h <= |b|
    {
      assert IsSoFar(Within(start, b, t, h), start, b, t, h);
      var r: (seq<Event>, bool) :| IsSoFar(r, start, b, t, h);
      r
    }

    ghost predicate IsSoFar(r: (seq<Event>, bool), start: seq<Event>, b: Batches, t: nat, h: nat)
      requires h <= |b|
    {
      forall n :: WithinOpened(start, b, t, h, n) ==> r == Within(start, b, t, h)
    }

    lemma RoundBegins(start: seq<Event>, b: Batches, t: nat)
      ensures SoFar(start, b, t, 0) == (start, false)
    {
      assert WithinOpened(start, b, t, 0, 0);
    }

    lemma RoundNext(start: seq<Event>, b: Batches, t: nat, h: nat)
      requires h < |b|
      ensures SoFar(start, b, t, h + 1)
           == if t < |b[h]| then (if enable then SoFar(start, b, t, h).0 + b[h][t] else start, true)
              else SoFar(start, b, t, h)
      ensures !enable ==> SoFar(start, b, t, h).0 == start
    {
      assert WithinOpened(start, b, t, h, 0) && WithinOpened(start, b, t, h + 1, 0);
      if t < |b[h]| {
        WithinAnswer(start, b, t, h);
      } else {
        assert RoundEvents(b, t, h + 1) == RoundEvents(b, t, h);
      }
    }

    lemma WithinAnswer(start: seq<Event>, b: Batches, t: nat, h: nat)
      requires h < |b| && t < |b[h]|
      ensures Within(start, b, t, h + 1) == (if enable then Within(start, b, t, h).0 + b[h][t] else start, true)
    {
      var before, events := RoundEvents(b, t, h), b[h][t];
      assert RoundEvents(b, t, h + 1) == before + events;
      if LongestOf(b, h) <= t {
        NothingLeft(b, t, h);
        assert before + events == events;
      } else {
        assert start + (before + events) == (start + before) + events;
      }
    }

    lemma PlannedRounds(p: Plan)
      requires Planned(p)
      ensures p.batches == BatchesOf(p.queues) && p.rounds == Longest(p.batches)
    {
      assert BatchesOpened(p.queues, 0);
    }

    lemma RoundEnds(start: seq<Event>, p: Plan, t: nat)
      requires Planned(p)
      ensures SoFar(start, p.batches, t, |p.batches|)
           == (if enable && p.rounds > t then start + RoundEvents(p.batches, t, |p.batches|) else start, p.rounds > t)
    {
      assert WithinOpened(start, p.batches, t, |p.batches|, 0);
      PlannedRounds(p);
    }

    /** One context in one round, and whether it or one before it had anything left. */
    method VisitAndNote(ghost p: Plan, h: nat, ghost t: nat, more: bool, ghost start: seq<Event>)
      returns (warmUpMore: bool)
      requires Valid() && Distinct() && h < |hwcs| && Planned(p) && Midway(p, t, h)
      requires (announced, more) == SoFar(start, p.batches, t, h)
      modifies this, trace, pool, hwcs
      ensures Valid() && Midway(p, t, h + 1)
      ensures (announced, warmUpMore) == SoFar(start, p.batches, t, h + 1)
    {
      warmUpMore := more;
      RoundNext(start, p.batches, t, h);
      var found := VisitNext(p, h, t);
      if found {
        warmUpMore := true;
      }
    }

    /** One round over all contexts. */
    method Round(ghost p: Plan, ghost t: nat) returns (warmUpMore: bool)
      requires Valid() && Distinct() && Planned(p) && Midway(p, t, 0)
      modifies this, trace, pool, hwcs
      ensures Valid() && Midway(p, t, |hwcs|) && warmUpMore == (p.rounds > t)
      ensures announced
           == if enable && warmUpMore then old(announced) + RoundEvents(p.batches, t, |p.batches|) else old(announced)
    {
      warmUpMore := false;
      var h := 0;
      RoundBegins(announced, p.batches, t);
      while h < |hwcs|
        invariant 0 <= h <= |hwcs| && Valid() && Midway(p, t, h)
        invariant (announced, warmUpMore) == SoFar(old(announced), p.batches, t, h)
      {
        warmUpMore := VisitAndNote(p, h, t, warmUpMore, old(announced));
        h := h + 1;
      }
      RoundEnds(old(announced), p, t);
    }

    /** The events after t rounds. */
    ghost function AfterRounds(before: seq<Event>, b: Batches, t: nat): seq<Event>
    {
      if enable then before + Rounds(b, t) else before + [Start]
    }

    /** `AfterRounds`, kept closed. */
    ghost function After(before: seq<Event>, b: Batches, t: nat): seq<Event>
    {
      var events: seq<Event> :| forall n :: AfterOpened(before, b, t, n) ==> events == AfterRounds(before, b, t);
      events
    }

    lemma AfterNone(before: seq<Event>, b: Batches)
      ensures After(before, b, 0) == before + [Start]
    {
      assert AfterOpened(before, b, 0, 0);
    }

    lemma AfterNext(before: seq<Event>, b: Batches, t: nat)
      ensures After(before, b, t + 1)
           == if enable then After(before, b, t) + RoundEvents(b, t, |b|) + [Tick] else After(before, b, t)
    {
      assert AfterOpened(before, b, t, 0) && AfterOpened(before, b, t + 1, 0);
      if enable {
        assert (before + Rounds(b, t)) + RoundEvents(b, t, |b|) + [Tick] == before + Rounds(b, t + 1);
      }
    }

    /** One round and, if it brought anything, its tick. */
    method RoundAndTick(ghost p: Plan, ghost before: seq<Event>, ghost t: nat) returns (warmUpMore: bool)
      requires Valid() && Distinct() && Planned(p) && Midway(p, t, 0) && announced == After(before, p.batches, t)
      modifies this, trace, pool, hwcs
      ensures Valid() && warmUpMore == (p.rounds > t) && Midway(p, if warmUpMore then t + 1 else t, 0)
      ensures announced == After(before, p.batches, if warmUpMore then t + 1 else t)
    {
      warmUpMore := Round(p, t);
      if warmUpMore {
        AfterNext(before, p.batches, t);
        if enable {
          Announce(Tick, []);
        }
      } else {
        AllTaken(p, t);
      }
    }

    /** Rounds until one finds no feeder with anything left, a tick after each that does. */
    method Drain(ghost p: Plan, ghost before: seq<Event>)
      requires Valid() && Distinct() && Planned(p) && Midway(p, 0, 0) && announced == before + [Start]
      modifies this, trace, pool, hwcs
      ensures Valid() && Midway(p, p.rounds, 0)
      ensures announced == After(before, p.batches, p.rounds)
    {
      ghost var t := 0;
      var warmUpMore := true;
      AfterNone(before, p.batches);
      while warmUpMore
        invariant t <= p.rounds && Valid() && Midway(p, t, 0) && (!warmUpMore ==> t == p.rounds)
        invariant announced == After(before, p.batches, t)
        decreases p.rounds - t, warmUpMore
      {
        warmUpMore := RoundAndTick(p, before, t);
        if warmUpMore {
          t := t + 1;
        }
      }
    }

    ghost function QueuesNow(): (q: Queues)
      reads hwcs
      ensures |q| == |hwcs| && forall h :: 0 <= h < |hwcs| ==> q[h] == hwcs[h].queue
    {
      seq(|hwcs|, h requires 0 <= h < |hwcs| reads hwcs => hwcs[h].queue)
    }

    ghost function CountsNow(): (c: seq<Counts>)
      reads hwcs
      ensures |c| == |hwcs| && forall h :: 0 <= h < |hwcs| ==> c[h] == hwcs[h].Counters()
    {
      seq(|hwcs|, h requires 0 <= h < |hwcs| reads hwcs => hwcs[h].Counters())
    }

    /** The events that one warm-up announces. */
    ghost function ToAnnounce(queues: Queues): seq<Event>
    {
      if enable then Lifetime(queues) else [Start, End]
    }

    lemma NoneTaken(c: HwContext)
      ensures ContextAt(c, c.queue, c.Counters(), 0)
    {
      assert StandingOpened(c.queue, 0, 0);
    }

    ghost function PlanNow(): (p: Plan)
      reads hwcs
      ensures Planned(p) && p.queues == QueuesNow() && p.counts == CountsNow() && Midway(p, 0, 0)
    {
      assert forall h :: 0 <= h < |hwcs| ==> ContextAt(hwcs[h], QueuesNow()[h], CountsNow()[h], 0) by {
        forall h | 0 <= h < |hwcs| ensures ContextAt(hwcs[h], QueuesNow()[h], CountsNow()[h], 0) {
          NoneTaken(hwcs[h]);
        }
      }
      Plan(QueuesNow(), CountsNow(), BatchesFor(QueuesNow()), RoundsFor(QueuesNow()))
    }

    lemma AfterAll(before: seq<Event>, p: Plan)
      requires Planned(p)
      ensures After(before, p.batches, p.rounds) + [End] == before + ToAnnounce(p.queues)
    {
      assert BatchesOpened(p.queues, 0) && AfterOpened(before, p.batches, p.rounds, 0);
      if enable {
        assert (before + Rounds(p.batches, p.rounds)) + [End] == before + Lifetime(p.queues);
      }
    }

    /**
      A whole warm-up, the first or a later one: the clients hear of what the queues hold, after all they heard before,
      and the counters go on from where they were. Every queue is empty afterwards.
     */
    method DoWarmUp()
      requires Valid() && Distinct()
      modifies this, trace, pool, hwcs
      ensures Valid() && announced == old(announced) + ToAnnounce(old(QueuesNow()))
      ensures var news := announced[|old(announced)|..];
              if enable then WarmupEvents.IsWarmUp(news, old(QueuesNow())) else news == [Start, End]
      ensures trace.calls == ClientCalls(setup, announced)
      ensures AllDrained(old(QueuesNow()), old(CountsNow()))
    {
      ghost var before := announced;
      ghost var p := PlanNow();
      Announce(Start, []);
      Drain(p, before);
      Announce(End, []);
      AllTaken(p, p.rounds);
      AfterAll(before, p);
      WarmupEvents.Announced(before, p.queues);
      ValidShows();
    }

    /** What a valid manager's clients have heard and its registrations remember. */
    lemma ValidShows()
      requires Valid()
      ensures trace.calls == ClientCalls(setup, announced)
      ensures outcome == OutcomeOf(setup, announced) && |outcome.lines| == |pool|
      ensures forall r :: 0 <= r < |pool| ==> pool[r].lastVA == outcome.lines[r]
    {
      OutcomeForIs(setup, announced);
    }

    /** The context has given all its answers. */
    ghost predicate Drained(c: HwContext, queue: seq<Info>, from: Counts)
      reads c
    {
      c.queue == [] && c.Counters() == if enable then Plus(from, Tally(queue, |queue|)) else from
    }

    ghost predicate AllDrained(queues: Queues, counts: seq<Counts>)
      requires |queues| == |counts| == |hwcs|
      reads hwcs
    {
      forall h :: 0 <= h < |hwcs| ==> Drained(hwcs[h], queues[h], counts[h])
    }

    lemma Taken(c: HwContext, queue: seq<Info>, from: Counts, t: nat)
      requires t >= |queue| && (ContextAt(c, queue, from, t) || ContextAt(c, queue, from, t + 1))
      ensures ContextAt(c, queue, from, t) && Drained(c, queue, from)
    {
      assert StandingOpened(queue, t, 0) && StandingOpened(queue, t + 1, 0);
      TallyAdds(from, queue, |queue|);
    }

    lemma AllTaken(p: Plan, t: nat)
      requires Planned(p) && t >= p.rounds && (Midway(p, t, 0) || Midway(p, t, |hwcs|))
      ensures Midway(p, t, 0) && AllDrained(p.queues, p.counts)
    {
      forall h | 0 <= h < |hwcs|
        ensures ContextAt(hwcs[h], p.queues[h], p.counts[h], t) && Drained(hwcs[h], p.queues[h], p.counts[h])
      {
        BatchLength(p, h, t);
        Taken(hwcs[h], p.queues[h], p.counts[h], t);
      }
    }

    lemma BatchLength(p: Plan, h: nat, t: nat)
      requires Planned(p) && h < |hwcs| && t >= p.rounds
      ensures t >= |p.queues[h]|
    {
      PlannedRounds(p);
      LongestIsLongest(p.batches, |p.batches|);
      assert |p.batches[h]| == |p.queues[h]|;
    }
  }
}
