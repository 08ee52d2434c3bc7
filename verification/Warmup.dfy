/**
  Warming up the simulated machine: the feeders of all hardware contexts are drained round by round, and what they
  supply is passed to the callbacks registered for it.
 */
module Warmup {
  import opened Basics
  import opened UInt64

  datatype MemRef = MemRef(va: nat, pa: nat, bytes: nat)

  /** One positive answer of a feeder. */
  datatype Info = Info(inst: Option<nat>, isCtrlTransfer: bool, ifetch: Option<(u64, u64)>,
                       loads: seq<MemRef>, stores: seq<MemRef>)

  datatype Kind = Phases | Ticks | Instrs | IFetches | DataRefs

  datatype Event =
    | Start
    | End
    | Tick
    | Instr(hwc: nat, inst: Option<nat>)
    | IFetch(hwc: nat, va: u64, pa: u64)
    | Data(hwc: nat, isLoad: bool, ref: MemRef, maybeInst: Option<nat>, instrAddr: Option<(u64, u64)>)

  function KindOf(e: Event): Kind
  {
    match e
    case Start => Phases
    case End => Phases
    case Tick => Ticks
    case Instr(_, _) => Instrs
    case IFetch(_, _, _) => IFetches
    case Data(_, _, _, _, _) => DataRefs
  }

  predicate FromContext(e: Event, h: nat)
  {
    match e
    case Instr(x, _) => x == h
    case IFetch(x, _, _) => x == h
    case Data(x, _, _, _, _) => x == h
    case _ => false
  }

  /** A registration for fetches: the client behind it and the size of its cache lines. */
  datatype FetchClient = FetchClient(client: nat, lineBytes: nat)

  /**
    For each kind of event the entries of a list of callbacks, in the order of registration: numbers of clients, and
    for fetches numbers of registrations.
   */
  type Listeners = Kind -> seq<nat>

  /** The global lists, those of each context, and the registrations for fetches. */
  datatype Setup = Setup(all: Listeners, own: seq<Listeners>, fetchClients: seq<FetchClient>)

  /** What the feeders will answer, context by context. */
  type Queues = seq<seq<Info>>

  // ----- what a warm-up consists of

  function Refs(h: nat, i: Info, isLoad: bool, n: nat): seq<Event>
    requires n <= |if isLoad then i.loads else i.stores|
  {
    if n == 0 then []
    else Refs(h, i, isLoad, n - 1) + [Data(h, isLoad, (if isLoad then i.loads else i.stores)[n - 1], i.inst, i.ifetch)]
  }

  function Head(h: nat, i: Info): seq<Event>
  {
    if i.ifetch.Some? then
      var fetch := IFetch(h, i.ifetch.value.0, i.ifetch.value.1);
      if i.isCtrlTransfer then [Instr(h, i.inst), fetch] else [fetch]
    else if i.isCtrlTransfer then [Instr(h, i.inst)]
    else []
  }

  /** A control transfer, a fetch, then the loads and the stores. */
  function InfoEvents(h: nat, i: Info): seq<Event>
  {
    Head(h, i) + Refs(h, i, true, |i.loads|) + Refs(h, i, false, |i.stores|)
  }

  /** The events of each answer of a queue. */
  function Batch(h: nat, queue: seq<Info>): (b: seq<seq<Event>>)
    ensures |b| == |queue| && forall t :: 0 <= t < |b| ==> b[t] == InfoEvents(h, queue[t])
  {
    seq(|queue|, t requires 0 <= t < |queue| => InfoEvents(h, queue[t]))
  }

  /** By context and answer. */
  type Batches = seq<seq<seq<Event>>>

  function BatchesOf(queues: Queues): (b: Batches)
    ensures |b| == |queues| && forall h :: 0 <= h < |b| ==> b[h] == Batch(h, queues[h])
  {
    seq(|queues|, h requires 0 <= h < |queues| => Batch(h, queues[h]))
  }

  /** Round t as far as the contexts before h. */
  function RoundEvents(b: Batches, t: nat, h: nat): seq<Event>
    requires h <= |b|
  {
    if h == 0 then []
    else if t < |b[h - 1]| then RoundEvents(b, t, h - 1) + b[h - 1][t]
    else RoundEvents(b, t, h - 1)
  }

  /** The start and the first t rounds, each followed by a tick. */
  function Rounds(b: Batches, t: nat): seq<Event>
  {
    if t == 0 then [Start] else Rounds(b, t - 1) + RoundEvents(b, t - 1, |b|) + [Tick]
  }

  function LongestOf(b: Batches, n: nat): nat
    requires n <= |b|
  {
    if n == 0 then 0
    else
      var m := LongestOf(b, n - 1);
      if |b[n - 1]| > m then |b[n - 1]| else m
  }

  function Longest(b: Batches): nat
  {
    LongestOf(b, |b|)
  }

  lemma {:induction false} LongestIsLongest(b: Batches, n: nat)
    requires n <= |b|
    ensures forall h :: 0 <= h < n ==> |b[h]| <= LongestOf(b, n)
    ensures LongestOf(b, n) > 0 ==> exists h :: 0 <= h < n && |b[h]| == LongestOf(b, n)
  {
    if n > 0 {
      LongestIsLongest(b, n - 1);
    }
  }

  /** All events of one warm-up. */
  function Lifetime(queues: Queues): seq<Event>
  {
    var b := BatchesOf(queues);
    Rounds(b, Longest(b)) + [End]
  }

  // ----- who hears of it

  /** An entry of a list that is called for an event. */
  datatype Call = Call(callback: nat, event: Event)

  /** The context's own list for an event. */
  function OwnReceivers(s: Setup, e: Event): seq<nat>
  {
    match e
    case Instr(h, _) => if h < |s.own| then s.own[h](Instrs) else []
    case IFetch(h, _, _) => if h < |s.own| then s.own[h](IFetches) else []
    case Data(h, _, _, _, _) => if h < |s.own| then s.own[h](DataRefs) else []
    case _ => []
  }

  /** The global list first, then that of the context. */
  function Receivers(s: Setup, e: Event): seq<nat>
  {
    s.all(KindOf(e)) + OwnReceivers(s, e)
  }

  function CallEach(list: seq<nat>, e: Event): (calls: seq<Call>)
    ensures |calls| == |list| && forall k :: 0 <= k < |list| ==> calls[k] == Call(list[k], e)
  {
    seq(|list|, k requires 0 <= k < |list| => Call(list[k], e))
  }

  function DeliverTo(r: Event -> seq<nat>, events: seq<Event>, n: nat): seq<Call>
    requires n <= |events|
  {
    if n == 0 then [] else DeliverTo(r, events, n - 1) + CallEach(r(events[n - 1]), events[n - 1])
  }

  function ReceiversOf(s: Setup): Event -> seq<nat>
  {
    e => Receivers(s, e)
  }

  /** The calls of entries that a sequence of events leads to. */
  function Deliver(s: Setup, events: seq<Event>): seq<Call>
  {
    DeliverTo(ReceiversOf(s), events, |events|)
  }

  lemma {:induction false} DeliverToPrefix(r: Event -> seq<nat>, events: seq<Event>, e: Event, n: nat)
    requires n <= |events|
    ensures DeliverTo(r, events + [e], n) == DeliverTo(r, events, n)
  {
    if n > 0 {
      DeliverToPrefix(r, events, e, n - 1);
    }
  }

  lemma DeliverOne(s: Setup, earlier: seq<Event>, e: Event)
    ensures Deliver(s, earlier + [e]) == Deliver(s, earlier) + CallEach(Receivers(s, e), e)
  {
    DeliverToPrefix(ReceiversOf(s), earlier, e, |earlier|);
  }

  function HeardTo(k: Kind, c: nat, calls: seq<Call>, n: nat): seq<Event>
    requires n <= |calls|
  {
    if n == 0 then []
    else if calls[n - 1].callback == c && KindOf(calls[n - 1].event) == k then
      HeardTo(k, c, calls, n - 1) + [calls[n - 1].event]
    else HeardTo(k, c, calls, n - 1)
  }

  /** The events of a kind that number c is called with, in order. */
  function HeardBy(k: Kind, c: nat, calls: seq<Call>): seq<Event>
  {
    HeardTo(k, c, calls, |calls|)
  }

  lemma {:induction false} HeardToConcat(k: Kind, c: nat, p: seq<Call>, q: seq<Call>, n: nat)
    requires n <= |p| + |q|
    ensures HeardTo(k, c, p + q, n)
         == if n <= |p| then HeardTo(k, c, p, n) else HeardBy(k, c, p) + HeardTo(k, c, q, n - |p|)
  {
    if n > 0 {
      HeardToConcat(k, c, p, q, n - 1);
    }
  }

  lemma HeardConcat(k: Kind, c: nat, p: seq<Call>, q: seq<Call>)
    ensures HeardBy(k, c, p + q) == HeardBy(k, c, p) + HeardBy(k, c, q)
  {
    HeardToConcat(k, c, p, q, |p| + |q|);
  }

  function OccurrencesTo(list: seq<nat>, c: nat, n: nat): nat
    requires n <= |list|
  {
    if n == 0 then 0 else OccurrencesTo(list, c, n - 1) + (if list[n - 1] == c then 1 else 0)
  }

  function Occurrences(list: seq<nat>, c: nat): nat
  {
    OccurrencesTo(list, c, |list|)
  }

  lemma {:induction false} OccurrencesToConcat(p: seq<nat>, q: seq<nat>, c: nat, n: nat)
    requires n <= |p| + |q|
    ensures OccurrencesTo(p + q, c, n)
         == if n <= |p| then OccurrencesTo(p, c, n) else Occurrences(p, c) + OccurrencesTo(q, c, n - |p|)
  {
    if n > 0 {
      OccurrencesToConcat(p, q, c, n - 1);
    }
  }

  lemma OccurrencesConcat(p: seq<nat>, q: seq<nat>, c: nat)
    ensures Occurrences(p + q, c) == Occurrences(p, c) + Occurrences(q, c)
  {
    OccurrencesToConcat(p, q, c, |p| + |q|);
  }

  lemma {:induction false} HeardOnce(k: Kind, c: nat, list: seq<nat>, e: Event, n: nat)
    requires n <= |list| && (KindOf(e) == k ==> OccurrencesTo(list, c, n) <= 1)
    ensures HeardTo(k, c, CallEach(list, e), n) == if KindOf(e) == k && OccurrencesTo(list, c, n) == 1 then [e] else []
  {
    if n > 0 {
      HeardOnce(k, c, list, e, n - 1);
    }
  }

  function FilterTo(p: Event -> bool, events: seq<Event>, n: nat): seq<Event>
    requires n <= |events|
  {
    if n == 0 then []
    else if p(events[n - 1]) then FilterTo(p, events, n - 1) + [events[n - 1]]
    else FilterTo(p, events, n - 1)
  }

  function Filter(p: Event -> bool, events: seq<Event>): seq<Event>
  {
    FilterTo(p, events, |events|)
  }

  lemma {:induction false} FilterToConcat(p: Event -> bool, u: seq<Event>, v: seq<Event>, n: nat)
    requires n <= |u| + |v|
    ensures FilterTo(p, u + v, n)
         == if n <= |u| then FilterTo(p, u, n) else FilterTo(p, u, |u|) + FilterTo(p, v, n - |u|)
  {
    if n > 0 {
      FilterToConcat(p, u, v, n - 1);
    }
  }

  lemma FilterConcat(p: Event -> bool, u: seq<Event>, v: seq<Event>)
    ensures Filter(p, u + v) == Filter(p, u) + Filter(p, v)
  {
    FilterToConcat(p, u, v, |u| + |v|);
  }

  lemma FilterThree(p: Event -> bool, u: seq<Event>, v: seq<Event>, w: seq<Event>)
    ensures Filter(p, u + v + w) == Filter(p, u) + Filter(p, v) + Filter(p, w)
  {
    FilterConcat(p, u + v, w);
    FilterConcat(p, u, v);
  }

  lemma HeardNext(k: Kind, c: nat, before: seq<Call>, list: seq<nat>, e: Event)
    requires KindOf(e) == k ==> Occurrences(list, c) <= 1
    ensures HeardBy(k, c, before + CallEach(list, e))
         == if KindOf(e) == k && Occurrences(list, c) == 1 then HeardBy(k, c, before) + [e] else HeardBy(k, c, before)
  {
    HeardOnce(k, c, list, e, |list|);
    HeardConcat(k, c, before, CallEach(list, e));
  }

  /** Number c is in the list once for an event of the kind with the property, and not for others of the kind. */
  ghost predicate ListedFor(list: seq<nat>, k: Kind, c: nat, p: Event -> bool, e: Event)
  {
    if KindOf(e) == k then Occurrences(list, c) == if p(e) then 1 else 0 else !p(e)
  }

  lemma {:induction false} HearsTo(r: Event -> seq<nat>, k: Kind, c: nat, p: Event -> bool, events: seq<Event>, n: nat)
    requires n <= |events| && forall i :: 0 <= i < n ==> ListedFor(r(events[i]), k, c, p, events[i])
    ensures HeardBy(k, c, DeliverTo(r, events, n)) == FilterTo(p, events, n)
  {
    if n > 0 {
      var e := events[n - 1];
      HearsTo(r, k, c, p, events, n - 1);
      assert ListedFor(r(e), k, c, p, e);
      HeardNext(k, c, DeliverTo(r, events, n - 1), r(e), e);
    }
  }

  /** Listed once among the global entries for a kind, and among no context's. */
  ghost predicate GloballyFor(s: Setup, c: nat, k: Kind)
  {
    Occurrences(s.all(k), c) == 1 && forall h :: 0 <= h < |s.own| ==> Occurrences(s.own[h](k), c) == 0
  }

  /** Listed once for a kind among the entries of one context, and neither globally nor for another context. */
  ghost predicate OnlyFor(s: Setup, c: nat, k: Kind, h: nat)
  {
    && h < |s.own| && k in {Instrs, IFetches, DataRefs} && Occurrences(s.all(k), c) == 0
    && forall g :: 0 <= g < |s.own| ==> Occurrences(s.own[g](k), c) == if g == h then 1 else 0
  }

  function OfKind(k: Kind): Event -> bool
  {
    e => KindOf(e) == k
  }

  function OfKindFrom(k: Kind, h: nat): Event -> bool
  {
    e => KindOf(e) == k && FromContext(e, h)
  }

  lemma GlobalOccurrences(s: Setup, c: nat, k: Kind, e: Event)
    requires GloballyFor(s, c, k)
    ensures ListedFor(Receivers(s, e), k, c, OfKind(k), e)
  {
    OccurrencesConcat(s.all(KindOf(e)), OwnReceivers(s, e), c);
  }

  lemma OwnOccurrences(s: Setup, c: nat, k: Kind, h: nat, e: Event)
    requires OnlyFor(s, c, k, h)
    ensures ListedFor(Receivers(s, e), k, c, OfKindFrom(k, h), e)
  {
    OccurrencesConcat(s.all(KindOf(e)), OwnReceivers(s, e), c);
  }

  /** A global entry is called with every event of its kind, once and in order. */
  lemma GlobalEntryHearsAll(s: Setup, c: nat, k: Kind, events: seq<Event>)
    requires GloballyFor(s, c, k)
    ensures HeardBy(k, c, Deliver(s, events)) == Filter(OfKind(k), events)
  {
    forall i | 0 <= i < |events| ensures ListedFor(ReceiversOf(s)(events[i]), k, c, OfKind(k), events[i]) {
      GlobalOccurrences(s, c, k, events[i]);
    }
    HearsTo(ReceiversOf(s), k, c, OfKind(k), events, |events|);
  }

  /** An entry of a context is called with every event of its kind from the context, once and in order. */
  lemma OwnEntryHearsItsContext(s: Setup, c: nat, k: Kind, h: nat, events: seq<Event>)
    requires OnlyFor(s, c, k, h)
    ensures HeardBy(k, c, Deliver(s, events)) == Filter(OfKindFrom(k, h), events)
  {
    forall i | 0 <= i < |events| ensures ListedFor(ReceiversOf(s)(events[i]), k, c, OfKindFrom(k, h), events[i]) {
      OwnOccurrences(s, c, k, h, events[i]);
    }
    HearsTo(ReceiversOf(s), k, c, OfKindFrom(k, h), events, |events|);
  }

  // ----- round by round, each queue in order

  /** The events of the first t answers of a queue, or of all there are. */
  function Front(b: seq<seq<Event>>, t: nat): seq<Event>
  {
    if t == 0 then [] else if t <= |b| then Front(b, t - 1) + b[t - 1] else Front(b, t - 1)
  }

  lemma {:induction false} FrontBeyond(b: seq<seq<Event>>, t: nat)
    requires t >= |b|
    ensures Front(b, t) == Front(b, |b|)
    decreases t
  {
    if t > |b| {
      FrontBeyond(b, t - 1);
    }
  }

  function QueueEvents(h: nat, queue: seq<Info>): seq<Event>
  {
    Front(Batch(h, queue), |queue|)
  }

  ghost predicate AllFrom(events: seq<Event>, h: nat)
  {
    forall k :: 0 <= k < |events| ==> FromContext(events[k], h)
  }

  /** Every event of a batch is from the batch's context. */
  ghost predicate Sourced(b: Batches)
  {
    forall h, t :: 0 <= h < |b| && 0 <= t < |b[h]| ==> AllFrom(b[h][t], h)
  }

  lemma {:induction false} FilterToSame(p: Event -> bool, q: Event -> bool, events: seq<Event>, n: nat)
    requires n <= |events| && forall k :: 0 <= k < |events| ==> p(events[k]) == q(events[k])
    ensures FilterTo(p, events, n) == FilterTo(q, events, n)
  {
    if n > 0 {
      FilterToSame(p, q, events, n - 1);
    }
  }

  lemma FilterSame(p: Event -> bool, q: Event -> bool, events: seq<Event>)
    requires forall k :: 0 <= k < |events| ==> p(events[k]) == q(events[k])
    ensures Filter(p, events) == Filter(q, events)
  {
    FilterToSame(p, q, events, |events|);
  }

  lemma {:induction false} FilterToConstant(p: Event -> bool, events: seq<Event>, n: nat, all: bool)
    requires n <= |events| && forall k :: 0 <= k < |events| ==> p(events[k]) == all
    ensures FilterTo(p, events, n) == if all then events[..n] else []
  {
    if n > 0 {
      FilterToConstant(p, events, n - 1, all);
    }
  }

  lemma FilterNone(p: Event -> bool, events: seq<Event>)
    requires forall k :: 0 <= k < |events| ==> !p(events[k])
    ensures Filter(p, events) == []
  {
    FilterToConstant(p, events, |events|, false);
  }

  lemma FilterAll(p: Event -> bool, events: seq<Event>)
    requires forall k :: 0 <= k < |events| ==> p(events[k])
    ensures Filter(p, events) == events
  {
    FilterToConstant(p, events, |events|, true);
  }

  lemma {:induction false} RefsFrom(h: nat, i: Info, isLoad: bool, n: nat)
    requires n <= |if isLoad then i.loads else i.stores|
    ensures |Refs(h, i, isLoad, n)| == n
    ensures forall k :: 0 <= k < n ==> Refs(h, i, isLoad, n)[k].Data? && Refs(h, i, isLoad, n)[k].hwc == h
  {
    if n > 0 {
      RefsFrom(h, i, isLoad, n - 1);
    }
  }

  lemma InfoEventsFrom(h: nat, i: Info)
    ensures AllFrom(InfoEvents(h, i), h)
    ensures |InfoEvents(h, i)| == (if i.isCtrlTransfer then 1 else 0) + (if i.ifetch.Some? then 1 else 0)
                                  + |i.loads| + |i.stores|
  {
    RefsFrom(h, i, true, |i.loads|);
    RefsFrom(h, i, false, |i.stores|);
  }

  lemma BatchesAreSourced(queues: Queues)
    ensures Sourced(BatchesOf(queues))
  {
    var b := BatchesOf(queues);
    forall h, t | 0 <= h < |b| && 0 <= t < |b[h]| ensures AllFrom(b[h][t], h) {
      InfoEventsFrom(h, queues[h][t]);
    }
  }

  /** Of one answer, another context's callbacks get nothing and the own ones all of the kind. */
  lemma ProjectBatch(k: Kind, h: nat, g: nat, events: seq<Event>)
    requires AllFrom(events, g)
    ensures Filter(OfKindFrom(k, h), events) == if g == h then Filter(OfKind(k), events) else []
  {
    if g == h {
      FilterSame(OfKindFrom(k, h), OfKind(k), events);
    } else {
      FilterNone(OfKindFrom(k, h), events);
    }
  }

  lemma FilterStep(p: Event -> bool, before: seq<Event>, next: seq<Event>)
    ensures Filter(p, before) == [] ==> Filter(p, before + next) == Filter(p, next)
    ensures Filter(p, next) == [] ==> Filter(p, before + next) == Filter(p, before)
  {
    FilterConcat(p, before, next);
  }

  lemma {:induction false} ProjectRound(k: Kind, h: nat, b: Batches, t: nat, n: nat)
    requires n <= |b| && h < |b| && Sourced(b)
    ensures Filter(OfKindFrom(k, h), RoundEvents(b, t, n))
         == if h < n && t < |b[h]| then Filter(OfKind(k), b[h][t]) else []
    decreases n
  {
    if n > 0 {
      ProjectRound(k, h, b, t, n - 1);
      if t < |b[n - 1]| {
        FilterStep(OfKindFrom(k, h), RoundEvents(b, t, n - 1), b[n - 1][t]);
        ProjectBatch(k, h, n - 1, b[n - 1][t]);
      }
    }
  }

  /** What the rounds bring from one context is the front of its queue, in order. */
  lemma {:induction false} ProjectRounds(k: Kind, h: nat, b: Batches, t: nat)
    requires h < |b| && Sourced(b)
    ensures Filter(OfKindFrom(k, h), Rounds(b, t)) == Filter(OfKind(k), Front(b[h], t))
    decreases t
  {
    if t == 0 {
      FilterNone(OfKindFrom(k, h), [Start]);
    } else {
      ProjectRounds(k, h, b, t - 1);
      ProjectNext(k, h, b, t);
    }
  }

  lemma ProjectNext(k: Kind, h: nat, b: Batches, t: nat)
    requires h < |b| && Sourced(b) && t > 0
    requires Filter(OfKindFrom(k, h), Rounds(b, t - 1)) == Filter(OfKind(k), Front(b[h], t - 1))
    ensures Filter(OfKindFrom(k, h), Rounds(b, t)) == Filter(OfKind(k), Front(b[h], t))
  {
    var earlier, round := Rounds(b, t - 1), RoundEvents(b, t - 1, |b|);
    ProjectRound(k, h, b, t - 1, |b|);
    if t <= |b[h]| {
      RoundAdds(OfKindFrom(k, h), OfKind(k), earlier, round, Front(b[h], t - 1), b[h][t - 1]);
    } else {
      RoundSkips(OfKindFrom(k, h), earlier, round);
    }
  }

  lemma RoundAdds(p: Event -> bool, q: Event -> bool, earlier: seq<Event>, round: seq<Event>, front: seq<Event>,
                  next: seq<Event>)
    requires !p(Tick) && Filter(p, earlier) == Filter(q, front) && Filter(p, round) == Filter(q, next)
    ensures Filter(p, earlier + round + [Tick]) == Filter(q, front + next)
  {
    FilterTick(p, earlier + round);
    FilterConcat(p, earlier, round);
    FilterConcat(q, front, next);
  }

  lemma RoundSkips(p: Event -> bool, earlier: seq<Event>, round: seq<Event>)
    requires !p(Tick) && Filter(p, round) == []
    ensures Filter(p, earlier + round + [Tick]) == Filter(p, earlier)
  {
    FilterTick(p, earlier + round);
    FilterStep(p, earlier, round);
  }

  lemma FilterTick(p: Event -> bool, earlier: seq<Event>)
    ensures Filter(p, earlier + [Tick]) == if p(Tick) then Filter(p, earlier) + [Tick] else Filter(p, earlier)
  {
    var all := earlier + [Tick];
    assert FilterTo(p, all, |earlier|) == Filter(p, earlier) by {
      FilterToConcat(p, earlier, [Tick], |earlier|);
    }
  }

  /** What one warm-up brings from a context is what its queue held, in order. */
  lemma ProjectLifetime(k: Kind, h: nat, queues: Queues)
    requires h < |queues|
    ensures Filter(OfKindFrom(k, h), Lifetime(queues)) == Filter(OfKind(k), QueueEvents(h, queues[h]))
  {
    var b, p := BatchesOf(queues), OfKindFrom(k, h);
    BatchesAreSourced(queues);
    LongestIsLongest(b, |b|);
    ProjectRounds(k, h, b, Longest(b));
    FrontBeyond(b[h], Longest(b));
    ProjectEnd(p, Rounds(b, Longest(b)));
  }

  lemma ProjectEnd(p: Event -> bool, events: seq<Event>)
    requires !p(End)
    ensures Filter(p, events + [End]) == Filter(p, events)
  {
    FilterNone(p, [End]);
    FilterStep(p, events, [End]);
  }

  lemma {:induction false} NoTickInRound(b: Batches, t: nat, n: nat)
    requires n <= |b| && Sourced(b)
    ensures Filter(OfKind(Ticks), RoundEvents(b, t, n)) == []
    decreases n
  {
    if n > 0 {
      NoTickInRound(b, t, n - 1);
      if t < |b[n - 1]| {
        FilterStep(OfKind(Ticks), RoundEvents(b, t, n - 1), b[n - 1][t]);
        FilterNone(OfKind(Ticks), b[n - 1][t]);
      }
    }
  }

  lemma {:induction false} OneTickARound(b: Batches, t: nat)
    requires Sourced(b)
    ensures |Filter(OfKind(Ticks), Rounds(b, t))| == t
    decreases t
  {
    if t == 0 {
      FilterNone(OfKind(Ticks), [Start]);
    } else {
      OneTickARound(b, t - 1);
      NoTickInRound(b, t - 1, |b|);
      FilterStep(OfKind(Ticks), Rounds(b, t - 1), RoundEvents(b, t - 1, |b|));
      FilterTick(OfKind(Ticks), Rounds(b, t - 1) + RoundEvents(b, t - 1, |b|));
    }
  }

  /** A warm-up has as many ticks as the longest queue has answers. */
  lemma TicksAreLongest(queues: Queues)
    ensures |Filter(OfKind(Ticks), Lifetime(queues))| == Longest(BatchesOf(queues))
  {
    var b := BatchesOf(queues);
    BatchesAreSourced(queues);
    OneTickARound(b, Longest(b));
    ProjectEnd(OfKind(Ticks), Rounds(b, Longest(b)));
  }

  // ----- counting

  datatype Counts = Counts(data: nat, ifetch: nat, ctrl: nat, empty: nat)

  /** The counters after one more answer. */
  function Counted(c: Counts, i: Info): Counts
  {
    Counts(c.data + |i.loads| + |i.stores|, c.ifetch + (if i.ifetch.Some? then 1 else 0),
           c.ctrl + (if i.isCtrlTransfer then 1 else 0),
           c.empty + (if !i.isCtrlTransfer && i.ifetch.None? && i.loads == [] && i.stores == [] then 1 else 0))
  }

  function TallyFrom(c: Counts, queue: seq<Info>, t: nat): Counts
    requires t <= |queue|
  {
    if t == 0 then c else Counted(TallyFrom(c, queue, t - 1), queue[t - 1])
  }

  const NO_COUNTS := Counts(0, 0, 0, 0)

  /** The counters after the first t answers of a queue, from zero. */
  function Tally(queue: seq<Info>, t: nat): Counts
    requires t <= |queue|
  {
    TallyFrom(NO_COUNTS, queue, t)
  }

  function Plus(c: Counts, d: Counts): Counts
  {
    Counts(c.data + d.data, c.ifetch + d.ifetch, c.ctrl + d.ctrl, c.empty + d.empty)
  }

  /** Counters go on from where they were. */
  lemma {:induction false} TallyAdds(c: Counts, queue: seq<Info>, t: nat)
    requires t <= |queue|
    ensures TallyFrom(c, queue, t) == Plus(c, Tally(queue, t))
  {
    if t > 0 {
      TallyAdds(c, queue, t - 1);
    }
  }

  /** The number of answers that bring at least one event. */
  function NonEmpty(h: nat, queue: seq<Info>, t: nat): nat
    requires t <= |queue|
  {
    if t == 0 then 0 else NonEmpty(h, queue, t - 1) + (if InfoEvents(h, queue[t - 1]) != [] then 1 else 0)
  }

  /** How many events of a kind an answer brings. */
  function Amount(i: Info, k: Kind): nat
  {
    match k
    case DataRefs => |i.loads| + |i.stores|
    case IFetches => if i.ifetch.Some? then 1 else 0
    case Instrs => if i.isCtrlTransfer then 1 else 0
    case _ => 0
  }

  lemma CountHead(h: nat, i: Info, k: Kind)
    requires k in {DataRefs, IFetches, Instrs}
    ensures |Filter(OfKind(k), Head(h, i))| == if k == DataRefs then 0 else Amount(i, k)
  {
    var p, head := OfKind(k), Head(h, i);
    assert FilterTo(p, head, 0) == [];
    if |head| == 2 {
      assert FilterTo(p, head, 1) == if k == Instrs then [head[0]] else [];
    }
  }

  lemma CountInfo(h: nat, i: Info, k: Kind)
    requires k in {DataRefs, IFetches, Instrs}
    ensures |Filter(OfKind(k), InfoEvents(h, i))| == Amount(i, k)
  {
    var loads, stores := Refs(h, i, true, |i.loads|), Refs(h, i, false, |i.stores|);
    RefsFrom(h, i, true, |i.loads|);
    RefsFrom(h, i, false, |i.stores|);
    FilterThree(OfKind(k), Head(h, i), loads, stores);
    CountHead(h, i, k);
    CountUniform(k, loads);
    CountUniform(k, stores);
  }

  lemma CountUniform(k: Kind, refs: seq<Event>)
    requires forall i :: 0 <= i < |refs| ==> refs[i].Data?
    ensures |Filter(OfKind(k), refs)| == if k == DataRefs then |refs| else 0
  {
    if k == DataRefs {
      FilterAll(OfKind(k), refs);
    } else {
      FilterNone(OfKind(k), refs);
    }
  }

  function Sum(queue: seq<Info>, t: nat, k: Kind): nat
    requires t <= |queue|
  {
    if t == 0 then 0 else Sum(queue, t - 1, k) + Amount(queue[t - 1], k)
  }

  lemma {:induction false} CountKind(b: seq<seq<Event>>, queue: seq<Info>, t: nat, k: Kind)
    requires t <= |queue| == |b| && forall i :: 0 <= i < |queue| ==> |Filter(OfKind(k), b[i])| == Amount(queue[i], k)
    ensures |Filter(OfKind(k), Front(b, t))| == Sum(queue, t, k)
    decreases t
  {
    if t > 0 {
      CountKind(b, queue, t - 1, k);
      FilterConcat(OfKind(k), Front(b, t - 1), b[t - 1]);
    }
  }

  lemma CountQueue(h: nat, queue: seq<Info>, k: Kind)
    requires k in {DataRefs, IFetches, Instrs}
    ensures |Filter(OfKind(k), QueueEvents(h, queue))| == Sum(queue, |queue|, k)
  {
    var b := Batch(h, queue);
    forall i | 0 <= i < |queue| ensures |Filter(OfKind(k), b[i])| == Amount(queue[i], k) {
      CountInfo(h, queue[i], k);
    }
    CountKind(b, queue, |queue|, k);
  }

  lemma {:induction false} TallySums(queue: seq<Info>, t: nat)
    requires t <= |queue|
    ensures var c := Tally(queue, t);
            c.data == Sum(queue, t, DataRefs) && c.ifetch == Sum(queue, t, IFetches) && c.ctrl == Sum(queue, t, Instrs)
    decreases t
  {
    if t > 0 {
      TallySums(queue, t - 1);
    }
  }

  lemma {:induction false} EmptyAndNonEmpty(h: nat, queue: seq<Info>, t: nat)
    requires t <= |queue|
    ensures Tally(queue, t).empty + NonEmpty(h, queue, t) == t
    decreases t
  {
    if t > 0 {
      EmptyAndNonEmpty(h, queue, t - 1);
      InfoEventsFrom(h, queue[t - 1]);
    }
  }

  /**
    The counters are the numbers of events of each kind from the context's queue, and the empty answers with those
    that bring something make up the queue.
   */
  lemma CountsAreEvents(h: nat, queue: seq<Info>)
    ensures var e, c := QueueEvents(h, queue), Tally(queue, |queue|);
            c.data == |Filter(OfKind(DataRefs), e)| && c.ifetch == |Filter(OfKind(IFetches), e)|
            && c.ctrl == |Filter(OfKind(Instrs), e)| && c.empty + NonEmpty(h, queue, |queue|) == |queue|
  {
    CountQueue(h, queue, DataRefs);
    CountQueue(h, queue, IFetches);
    CountQueue(h, queue, Instrs);
    TallySums(queue, |queue|);
    EmptyAndNonEmpty(h, queue, |queue|);
  }
}
