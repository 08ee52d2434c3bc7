/**
  What a warm-up announces, told from the answers of the feeders: where in the lifetime each answer's events stand, what
  the clients of one context hear, and whom an event reaches.
 */
module WarmupEvents {
  import opened Basics
  import opened Warmup
  import opened WarmupClients
  import opened LineFilter
  import opened UInt64

  // ----- one answer

  /** How many events of a kind an answer has. */
  function Share(k: Kind, i: Info): nat
  {
    match k
    case Instrs => if i.isCtrlTransfer then 1 else 0
    case IFetches => if i.ifetch.Some? then 1 else 0
    case DataRefs => |i.loads| + |i.stores|
    case Phases => 0
    case Ticks => 0
  }

  /** First the loads, then the stores, each with the instruction and the fetch of the answer. */
  ghost predicate AreRefs(events: seq<Event>, h: nat, i: Info)
  {
    && |events| == |i.loads| + |i.stores|
    && (forall k :: 0 <= k < |i.loads| ==> events[k] == Data(h, true, i.loads[k], i.inst, i.ifetch))
    && (forall k :: 0 <= k < |i.stores| ==> events[|i.loads| + k] == Data(h, false, i.stores[k], i.inst, i.ifetch))
  }

  /** The answer's events of a kind. */
  ghost predicate IsShare(k: Kind, events: seq<Event>, h: nat, i: Info)
  {
    match k
    case Instrs => events == if i.isCtrlTransfer then [Instr(h, i.inst)] else []
    case IFetches => events == if i.ifetch.Some? then [IFetch(h, i.ifetch.value.0, i.ifetch.value.1)] else []
    case DataRefs => AreRefs(events, h, i)
    case Phases => events == []
    case Ticks => events == []
  }

  function Whole(i: Info): nat
  {
    Share(Instrs, i) + Share(IFetches, i) + Share(DataRefs, i)
  }

  /** A control transfer, then a fetch, then the references. */
  ghost predicate IsAnswer(events: seq<Event>, h: nat, i: Info)
  {
    var m := Share(Instrs, i);
    var n := m + Share(IFetches, i);
    && |events| == Whole(i) && IsShare(Instrs, events[..m], h, i) && IsShare(IFetches, events[m..n], h, i)
    && AreRefs(events[n..], h, i)
  }

  lemma {:induction false} RefIs(h: nat, i: Info, isLoad: bool, n: nat)
    requires n <= |if isLoad then i.loads else i.stores|
    ensures var refs := if isLoad then i.loads else i.stores;
            |Refs(h, i, isLoad, n)| == n
            && forall k :: 0 <= k < n ==> Refs(h, i, isLoad, n)[k] == Data(h, isLoad, refs[k], i.inst, i.ifetch)
  {
    if n > 0 {
      RefIs(h, i, isLoad, n - 1);
    }
  }

  lemma BothRefs(h: nat, i: Info) returns (refs: seq<Event>)
    ensures InfoEvents(h, i) == Head(h, i) + refs
    ensures AreRefs(refs, h, i) && forall k :: 0 <= k < |refs| ==> refs[k].Data?
  {
    refs := Refs(h, i, true, |i.loads|) + Refs(h, i, false, |i.stores|);
    RefIs(h, i, true, |i.loads|);
    RefIs(h, i, false, |i.stores|);
  }

  lemma HeadReads(h: nat, i: Info)
    ensures var m := Share(Instrs, i);
            var n := m + Share(IFetches, i);
            |Head(h, i)| == n && IsShare(Instrs, Head(h, i)[..m], h, i) && IsShare(IFetches, Head(h, i)[m..], h, i)
  {
  }

  lemma AnswerReads(h: nat, i: Info)
    ensures IsAnswer(InfoEvents(h, i), h, i)
  {
    var refs := BothRefs(h, i);
    HeadReads(h, i);
    Parts(Head(h, i), refs, Share(Instrs, i));
  }

  lemma Parts(head: seq<Event>, refs: seq<Event>, m: nat)
    requires m <= |head|
    ensures var all, n := head + refs, |head|; all[..m] == head[..m] && all[m..n] == head[m..] && all[n..] == refs
  {
  }

  /** Of one kind, what the answer has of it. */
  lemma AnswerReadsOf(k: Kind, h: nat, i: Info)
    ensures var events := Filter(OfKind(k), InfoEvents(h, i)); |events| == Share(k, i) && IsShare(k, events, h, i)
  {
    var refs := BothRefs(h, i);
    FilterConcat(OfKind(k), Head(h, i), refs);
    HeadOfKind(k, h, i);
    if k == DataRefs {
      FilterAll(OfKind(k), refs);
      assert [] + refs == refs;
    } else {
      FilterNone(OfKind(k), refs);
    }
  }

  lemma HeadOfKind(k: Kind, h: nat, i: Info)
    ensures var events := Filter(OfKind(k), Head(h, i));
            if k == DataRefs then events == [] else IsShare(k, events, h, i)
  {
    var p, head := OfKind(k), Head(h, i);
    assert FilterTo(p, head, 0) == [];
    if |head| == 2 {
      assert FilterTo(p, head, 1) == if k == Instrs then [head[0]] else [];
    }
  }

  // ----- parts of a sequence of events

  ghost predicate Has(events: seq<Event>, at: nat, part: seq<Event>)
  {
    at + |part| <= |events| && events[at..at + |part|] == part
  }

  lemma HasStays(events: seq<Event>, more: seq<Event>, at: nat, part: seq<Event>)
    requires Has(events, at, part)
    ensures Has(events + more, at, part)
  {
    assert (events + more)[at..at + |part|] == events[at..at + |part|];
  }

  lemma HasLast(events: seq<Event>, part: seq<Event>)
    ensures Has(events + part, |events|, part)
  {
  }

  lemma HasWithin(events: seq<Event>, at: nat, part: seq<Event>, from: nat, piece: seq<Event>)
    requires Has(events, at, part) && Has(part, from, piece)
    ensures Has(events, at + from, piece)
  {
    assert forall k :: 0 <= k < |part| ==> events[at + k] == part[k];
    assert forall k :: 0 <= k < |piece| ==> events[at + (from + k)] == part[from + k] == piece[k];
  }

  lemma {:induction false} FrontHas(b: seq<seq<Event>>, n: nat, t: nat)
    requires t < n <= |b|
    ensures Has(Front(b, n), |Front(b, t)|, b[t])
  {
    if t == n - 1 {
      HasLast(Front(b, t), b[t]);
    } else {
      FrontHas(b, n - 1, t);
      HasStays(Front(b, n - 1), b[n - 1], |Front(b, t)|, b[t]);
    }
  }

  // ----- the events of one context

  /** How many events of a kind the first t answers have. */
  function Before(k: Kind, queue: seq<Info>, t: nat): nat
    requires t <= |queue|
  {
    if t == 0 then 0 else Before(k, queue, t - 1) + Share(k, queue[t - 1])
  }

  /** What answer t has of a kind stands behind what the earlier answers have. */
  ghost predicate ShareInPlace(k: Kind, events: seq<Event>, h: nat, queue: seq<Info>, t: nat)
    requires t < |queue|
  {
    exists part :: Has(events, Before(k, queue, t), part) && IsShare(k, part, h, queue[t])
  }

  /** The events of a kind of all answers, one answer behind the other, and nothing else. */
  ghost predicate AnswersIn(k: Kind, events: seq<Event>, h: nat, queue: seq<Info>)
  {
    && |events| == Before(k, queue, |queue|)
    && forall t :: 0 <= t < |queue| ==> ShareInPlace(k, events, h, queue, t)
  }

  /** What each answer has of a kind. */
  function SharesOf(k: Kind, b: seq<seq<Event>>): (c: seq<seq<Event>>)
    ensures |c| == |b| && forall t :: 0 <= t < |b| ==> c[t] == Filter(OfKind(k), b[t])
  {
    seq(|b|, t requires 0 <= t < |b| => Filter(OfKind(k), b[t]))
  }

  lemma {:induction false} FilterFront(k: Kind, b: seq<seq<Event>>, c: seq<seq<Event>>, n: nat)
    requires n <= |b| == |c| && forall t :: 0 <= t < |b| ==> c[t] == Filter(OfKind(k), b[t])
    ensures Filter(OfKind(k), Front(b, n)) == Front(c, n)
  {
    if n > 0 {
      FilterFront(k, b, c, n - 1);
      FilterConcat(OfKind(k), Front(b, n - 1), b[n - 1]);
    }
  }

  lemma {:induction false} BeforeIs(k: Kind, queue: seq<Info>, c: seq<seq<Event>>, t: nat)
    requires t <= |queue| == |c| && forall i :: 0 <= i < |queue| ==> |c[i]| == Share(k, queue[i])
    ensures |Front(c, t)| == Before(k, queue, t)
  {
    if t > 0 {
      BeforeIs(k, queue, c, t - 1);
    }
  }

  /** Of a queue, the events of each kind are those of its answers in order. */
  lemma QueueReads(k: Kind, h: nat, queue: seq<Info>)
    ensures AnswersIn(k, Filter(OfKind(k), QueueEvents(h, queue)), h, queue)
  {
    var b := Batch(h, queue);
    var c, n := SharesOf(k, b), |queue|;
    FilterFront(k, b, c, n);
    forall t | 0 <= t < n ensures |c[t]| == Share(k, queue[t]) && IsShare(k, c[t], h, queue[t]) {
      AnswerReadsOf(k, h, queue[t]);
    }
    BeforeIs(k, queue, c, n);
    forall t | 0 <= t < n ensures ShareInPlace(k, Front(c, n), h, queue, t) {
      FrontHas(c, n, t);
      BeforeIs(k, queue, c, t);
    }
  }

  /** A client of one context hears the loads and stores, or the instructions, of that context's answers. */
  lemma ContextClientHearsAnswers(s: Setup, c: nat, k: Kind, h: nat, queues: Queues)
    requires OnlyFor(s, c, k, h) && k != IFetches && h < |queues|
    ensures AnswersIn(k, HeardBy(k, c, ClientCalls(s, Lifetime(queues))), h, queues[h])
  {
    ContextClientHearsItsQueue(s, c, k, h, queues);
    QueueReads(k, h, queues[h]);
  }

  /** A fetch client of one context hears what its line size lets through of the answers' fetches. */
  lemma ContextFetchClientHearsAnswers(s: Setup, r: nat, c: nat, h: nat, queues: Queues) returns (fetches: seq<Event>)
    requires OnlyFor(s, r, IFetches, h) && OnlyRegistration(s, r, c) && h < |queues|
    ensures AnswersIn(IFetches, fetches, h, queues[h])
    ensures HeardBy(IFetches, c, ClientCalls(s, Lifetime(queues))) == PassedOn(fetches, s.fetchClients[r].lineBytes)
  {
    fetches := Filter(OfKind(IFetches), QueueEvents(h, queues[h]));
    ContextFetchClientHears(s, r, c, h, queues);
    QueueReads(IFetches, h, queues[h]);
  }

  // ----- the whole lifetime

  /** How many events the contexts before h bring in round t. */
  function RoundSize(queues: Queues, t: nat, h: nat): nat
    requires h <= |queues|
  {
    if h == 0 then 0
    else RoundSize(queues, t, h - 1) + if t < |queues[h - 1]| then Whole(queues[h - 1][t]) else 0
  }

  /** Where round t begins: behind the start, the earlier rounds and a tick for each. */
  function RoundAt(queues: Queues, t: nat): nat
  {
    if t == 0 then 1 else RoundAt(queues, t - 1) + RoundSize(queues, t - 1, |queues|) + 1
  }

  /** Answer t of context h stands in round t behind those of the contexts before. */
  ghost predicate AnswerInPlace(events: seq<Event>, queues: Queues, h: nat, t: nat)
    requires h < |queues| && t < |queues[h]|
  {
    exists part :: Has(events, RoundAt(queues, t) + RoundSize(queues, t, h), part) && IsAnswer(part, h, queues[h][t])
  }

  /** Round t ends in a tick. */
  ghost predicate TickInPlace(events: seq<Event>, queues: Queues, t: nat)
  {
    var end := RoundAt(queues, t) + RoundSize(queues, t, |queues|);
    end < |events| && events[end] == Tick
  }

  /** The length of the longest queue. */
  ghost predicate IsLongest(queues: Queues, n: nat)
  {
    && (forall h :: 0 <= h < |queues| ==> |queues[h]| <= n)
    && (n > 0 ==> exists h :: 0 <= h < |queues| && |queues[h]| == n)
  }

  /**
    The start, then n rounds, in each context by context what the feeders answer and a tick at its end, and the end;
    and nothing else.
   */
  ghost predicate IsLifetime(events: seq<Event>, queues: Queues, n: nat)
  {
    && |events| == RoundAt(queues, n) + 1 && events[0] == Start && events[RoundAt(queues, n)] == End
    && (forall t :: 0 <= t < n ==> TickInPlace(events, queues, t))
    && forall h, t :: 0 <= h < |queues| && 0 <= t < |queues[h]| ==> AnswerInPlace(events, queues, h, t)
  }

  lemma {:induction false} RoundHas(b: Batches, t: nat, n: nat, h: nat)
    requires h < n <= |b| && t < |b[h]|
    ensures Has(RoundEvents(b, t, n), |RoundEvents(b, t, h)|, b[h][t])
  {
    if h == n - 1 {
      HasLast(RoundEvents(b, t, h), b[h][t]);
    } else {
      RoundHas(b, t, n - 1, h);
      if t < |b[n - 1]| {
        HasStays(RoundEvents(b, t, n - 1), b[n - 1][t], |RoundEvents(b, t, h)|, b[h][t]);
      }
    }
  }

  lemma {:induction false} RoundsHave(b: Batches, n: nat, t: nat)
    requires t < n
    ensures Has(Rounds(b, n), |Rounds(b, t)|, RoundEvents(b, t, |b|) + [Tick])
    decreases n
  {
    var round := RoundEvents(b, n - 1, |b|) + [Tick];
    assert Rounds(b, n) == Rounds(b, n - 1) + round;
    if t == n - 1 {
      HasLast(Rounds(b, t), round);
    } else {
      RoundsHave(b, n - 1, t);
      HasStays(Rounds(b, n - 1), round, |Rounds(b, t)|, RoundEvents(b, t, |b|) + [Tick]);
    }
  }

  /** The batches are as long as the answers tell. */
  ghost predicate Sized(b: Batches, queues: Queues)
  {
    && |b| == |queues| && (forall h :: 0 <= h < |b| ==> |b[h]| == |queues[h]|)
    && forall h, t :: 0 <= h < |b| && 0 <= t < |b[h]| ==> |b[h][t]| == Whole(queues[h][t])
  }

  lemma {:induction false} RoundSizeIs(b: Batches, queues: Queues, t: nat, h: nat)
    requires Sized(b, queues) && h <= |b|
    ensures |RoundEvents(b, t, h)| == RoundSize(queues, t, h)
  {
    if h > 0 {
      RoundSizeIs(b, queues, t, h - 1);
    }
  }

  lemma {:induction false} RoundAtIs(b: Batches, queues: Queues, t: nat)
    requires Sized(b, queues)
    ensures |Rounds(b, t)| == RoundAt(queues, t)
  {
    if t > 0 {
      RoundAtIs(b, queues, t - 1);
      RoundSizeIs(b, queues, t - 1, |b|);
    }
  }

  lemma {:induction false} RoundsBegin(b: Batches, n: nat)
    ensures Rounds(b, n) != [] && Rounds(b, n)[0] == Start
  {
    if n > 0 {
      RoundsBegin(b, n - 1);
    }
  }

  lemma RoundInLifetime(b: Batches, queues: Queues, n: nat, t: nat)
    requires Sized(b, queues) && t < n
    ensures Has(Rounds(b, n) + [End], RoundAt(queues, t), RoundEvents(b, t, |b|) + [Tick])
  {
    RoundsHave(b, n, t);
    RoundAtIs(b, queues, t);
    HasStays(Rounds(b, n), [End], RoundAt(queues, t), RoundEvents(b, t, |b|) + [Tick]);
  }

  lemma TickPlaced(b: Batches, queues: Queues, n: nat, t: nat)
    requires Sized(b, queues) && t < n
    ensures TickInPlace(Rounds(b, n) + [End], queues, t)
  {
    var events, round := Rounds(b, n) + [End], RoundEvents(b, t, |b|);
    RoundInLifetime(b, queues, n, t);
    RoundSizeIs(b, queues, t, |b|);
    HasLast(round, [Tick]);
    HasWithin(events, RoundAt(queues, t), round + [Tick], |round|, [Tick]);
    HasElement(events, RoundAt(queues, t) + |round|, Tick);
  }

  lemma HasElement(events: seq<Event>, at: nat, e: Event)
    requires Has(events, at, [e])
    ensures at < |events| && events[at] == e
  {
    assert events[at..at + 1][0] == e;
  }

  lemma AnswerPlaced(b: Batches, queues: Queues, n: nat, h: nat, t: nat)
    requires Sized(b, queues) && h < |b| && t < |b[h]| && t < n && IsAnswer(b[h][t], h, queues[h][t])
    ensures AnswerInPlace(Rounds(b, n) + [End], queues, h, t)
  {
    var events, round := Rounds(b, n) + [End], RoundEvents(b, t, |b|);
    RoundInLifetime(b, queues, n, t);
    RoundHas(b, t, |b|, h);
    RoundSizeIs(b, queues, t, h);
    HasStays(round, [Tick], RoundSize(queues, t, h), b[h][t]);
    HasWithin(events, RoundAt(queues, t), round + [Tick], RoundSize(queues, t, h), b[h][t]);
  }

  lemma BatchesAreAnswers(queues: Queues)
    ensures var b := BatchesOf(queues);
            Sized(b, queues)
            && forall h, t :: 0 <= h < |b| && 0 <= t < |b[h]| ==> IsAnswer(b[h][t], h, queues[h][t])
  {
    var b := BatchesOf(queues);
    forall h, t | 0 <= h < |b| && 0 <= t < |b[h]|
      ensures IsAnswer(b[h][t], h, queues[h][t]) && |b[h][t]| == Whole(queues[h][t])
    {
      AnswerReads(h, queues[h][t]);
    }
  }

  lemma LongestReads(queues: Queues)
    ensures IsLongest(queues, Longest(BatchesOf(queues)))
  {
    var b := BatchesOf(queues);
    LongestIsLongest(b, |b|);
    if Longest(b) > 0 {
      var h :| 0 <= h < |b| && |b[h]| == Longest(b);
      assert |queues[h]| == Longest(b);
    }
  }

  /** A warm-up has as many rounds as the longest queue has answers, and each answer's events in their place. */
  lemma LifetimeReads(queues: Queues) returns (n: nat)
    ensures IsLongest(queues, n) && IsLifetime(Lifetime(queues), queues, n)
  {
    var b := BatchesOf(queues);
    n := Longest(b);
    LongestReads(queues);
    BatchesAreAnswers(queues);
    RoundsBegin(b, n);
    RoundAtIs(b, queues, n);
    forall t | 0 <= t < n {
      TickPlaced(b, queues, n, t);
    }
    forall h, t | 0 <= h < |queues| && 0 <= t < |queues[h]| ensures AnswerInPlace(Lifetime(queues), queues, h, t) {
      assert |b[h]| == |queues[h]| <= n;
      AnswerPlaced(b, queues, n, h, t);
    }
  }

  ghost predicate IsWarmUp(events: seq<Event>, queues: Queues)
  {
    exists n :: IsLongest(queues, n) && IsLifetime(events, queues, n)
  }

  /** What a manager adds to the events of earlier warm-ups. */
  lemma Announced(earlier: seq<Event>, queues: Queues)
    ensures IsWarmUp((earlier + Lifetime(queues))[|earlier|..], queues)
  {
    var n := LifetimeReads(queues);
    assert (earlier + Lifetime(queues))[|earlier|..] == Lifetime(queues);
  }

  // ----- whom an event reaches

  /** Every entry of the one list is called with the event, then every entry of the other. */
  ghost predicate CalledInOrder(calls: seq<Call>, first: seq<nat>, second: seq<nat>, e: Event)
  {
    && |calls| == |first| + |second|
    && (forall k :: 0 <= k < |first| ==> calls[k] == Call(first[k], e))
    && (forall k :: 0 <= k < |second| ==> calls[|first| + k] == Call(second[k], e))
  }

  function OwnList(s: Setup, h: nat, k: Kind): seq<nat>
  {
    if h < |s.own| then s.own[h](k) else []
  }

  lemma OneDelivered(s: Setup, e: Event, first: seq<nat>, second: seq<nat>)
    requires Receivers(s, e) == first + second
    ensures CalledInOrder(Deliver(s, [e]), first, second, e)
  {
    var none: seq<Event> := [];
    assert none + [e] == [e] && Deliver(s, none) == [];
    DeliverOne(s, none, e);
    assert Deliver(s, [e]) == CallEach(first + second, e);
  }

  /** Instructions, fetches and references go to the global list of their kind and then to that of their context; */
  lemma InstrReaches(s: Setup, h: nat, inst: Option<nat>)
    ensures var e := Instr(h, inst); CalledInOrder(Deliver(s, [e]), s.all(Instrs), OwnList(s, h, Instrs), e)
  {
    OneDelivered(s, Instr(h, inst), s.all(Instrs), OwnList(s, h, Instrs));
  }

  lemma FetchReaches(s: Setup, h: nat, va: u64, pa: u64)
    ensures var e := IFetch(h, va, pa); CalledInOrder(Deliver(s, [e]), s.all(IFetches), OwnList(s, h, IFetches), e)
  {
    OneDelivered(s, IFetch(h, va, pa), s.all(IFetches), OwnList(s, h, IFetches));
  }

  lemma DataReaches(s: Setup, h: nat, isLoad: bool, ref: MemRef, inst: Option<nat>, fetch: Option<(u64, u64)>)
    ensures var e := Data(h, isLoad, ref, inst, fetch);
            CalledInOrder(Deliver(s, [e]), s.all(DataRefs), OwnList(s, h, DataRefs), e)
  {
    OneDelivered(s, Data(h, isLoad, ref, inst, fetch), s.all(DataRefs), OwnList(s, h, DataRefs));
  }

  /** the start, the ticks and the end to global lists alone. */
  lemma GlobalEventReaches(s: Setup)
    ensures CalledInOrder(Deliver(s, [Start]), s.all(Phases), [], Start)
    ensures CalledInOrder(Deliver(s, [Tick]), s.all(Ticks), [], Tick)
    ensures CalledInOrder(Deliver(s, [End]), s.all(Phases), [], End)
  {
    OneDelivered(s, Start, s.all(Phases), []);
    OneDelivered(s, Tick, s.all(Ticks), []);
    OneDelivered(s, End, s.all(Phases), []);
  }

  // ----- lines

  lemma SameLine(a: nat, b: nat, n: nat)
    requires n > 0
    ensures Line(a, n) == Line(b, n) <==> a / n == b / n
  {
    assert a - a % n == n * (a / n) && b - b % n == n * (b / n);
    if a / n != b / n {
      Distinct(a / n, b / n, n);
    }
  }

  lemma Distinct(p: nat, q: nat, n: nat)
    requires n > 0 && p != q
    ensures n * p != n * q
  {
    if p < q {
      assert n * q == n * p + n * (q - p);
    } else {
      assert n * p == n * q + n * (p - q);
    }
  }

  /** A fetch is passed on exactly when its address is not on the line of the fetch before it, or of 0 at first. */
  lemma FetchPassesOn(fetches: seq<Event>, h: nat, va: u64, pa: u64, lineBytes: nat)
    requires lineBytes > 0 && (fetches != [] ==> fetches[|fetches| - 1].IFetch?)
    ensures var e, last := IFetch(h, va, pa), if fetches == [] then 0 else fetches[|fetches| - 1].va;
            PassedOn(fetches + [e], lineBytes)
            == if va / lineBytes == last / lineBytes then PassedOn(fetches, lineBytes)
               else PassedOn(fetches, lineBytes) + [e]
    ensures PassedOn([], lineBytes) == []
  {
    var last: nat := if fetches == [] then 0 else fetches[|fetches| - 1].va;
    SameLine(va, last, lineBytes);
    PassedOnNext(fetches, IFetch(h, va, pa), lineBytes);
  }
}
