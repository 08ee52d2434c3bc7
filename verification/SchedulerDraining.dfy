/**
  What draining one item and a whole pass do, told list by list and trigger by trigger.
 */
module SchedulerDraining {
  import opened Basics
  import opened UInt64
  import opened WorkItems
  import opened ScheduleSpec
  import opened SchedulerRun
  import opened SchedulerShape
  import opened SchedulerOrder

  // ----- the command interface

  /** The item that a request puts on the worklist. */
  predicate Asked(x: Item, r: Request, id: nat)
  {
    match r
    case StartRequest => x == Item(id, Start, Now, 0, 0)
    case ExitCondition => x == Item(id, Exit, Now, 0, 0)
    case CommandRequest(c, t, n) => x == Item(id, c, t, n, n)
  }

  predicate Refused(r: Request)
  {
    r.CommandRequest? && r.trigger == Now && r.n != 0
  }

  lemma {:induction false} EnqueueAllSnoc(s: State, rs: seq<Request>, r: Request)
    ensures EnqueueAll(s, rs + [r]) == Enqueue(EnqueueAll(s, rs), r)
    decreases |rs|
  {
    if rs == [] {
      assert rs + [r] == [r] && [r][1..] == rs;
    } else {
      assert (rs + [r])[1..] == rs[1..] + [r];
      EnqueueAllSnoc(Enqueue(s, rs[0]), rs[1..], r);
    }
  }

  /** Some request of the first n is one that the constructor of items refuses. */
  predicate AnyRefused(rs: seq<Request>, n: nat)
    requires n <= |rs|
  {
    exists k :: 0 <= k < n && Refused(rs[k])
  }

  /** The worklist after the first n requests: their items behind those it had, in order. */
  ghost predicate ItemsAsked(before: seq<Item>, id: nat, rs: seq<Request>, n: nat, work: seq<Item>)
    requires n <= |rs|
  {
    && |work| == |before| + n && work[..|before|] == before
    && forall k :: 0 <= k < n ==> Asked(work[|before| + k], rs[k], id + k)
  }

  /** A break unless all are exit conditions, and no longer stopped after a start. */
  ghost predicate FlagsAsked(s: State, rs: seq<Request>, n: nat, t: State)
    requires n <= |rs|
  {
    && t.brk == (s.brk || exists k :: 0 <= k < n && rs[k] != ExitCondition)
    && t.stopped == (s.stopped && StartRequest !in rs[..n])
    && t.phase == s.phase && t.lists == s.lists && t.exiting == s.exiting
  }

  /** What the first n requests lead to. */
  ghost predicate HasAsked(s: State, rs: seq<Request>, n: nat, t: State)
    requires n <= |rs|
  {
    ItemsAsked(s.work, s.nextId, rs, n, t.work) && t.nextId == s.nextId + n && FlagsAsked(s, rs, n, t)
  }

  lemma NextItem(before: seq<Item>, id: nat, rs: seq<Request>, n: nat, work: seq<Item>, x: Item)
    requires n < |rs| && ItemsAsked(before, id, rs, n, work) && Asked(x, rs[n], id + n)
    ensures ItemsAsked(before, id, rs, n + 1, work + [x])
  {
    assert (work + [x])[..|before|] == work[..|before|];
  }

  lemma NextFlags(s: State, rs: seq<Request>, n: nat, t: State)
    requires n < |rs| && FlagsAsked(s, rs, n, t) && !t.phase.Aborted? && !Refused(rs[n])
    ensures FlagsAsked(s, rs, n + 1, Enqueue(t, rs[n]))
  {
    assert rs[..n + 1] == rs[..n] + [rs[n]];
  }

  lemma OneAsked(t: State, r: Request) returns (x: Item)
    requires !t.phase.Aborted? && !Refused(r)
    ensures Asked(x, r, t.nextId) && Enqueue(t, r).work == t.work + [x] && Enqueue(t, r).nextId == t.nextId + 1
  {
    x := Enqueue(t, r).work[|t.work|];
  }

  lemma NextAsked(s: State, rs: seq<Request>, n: nat, t: State)
    requires n < |rs| && HasAsked(s, rs, n, t) && !t.phase.Aborted? && !Refused(rs[n])
    ensures HasAsked(s, rs, n + 1, Enqueue(t, rs[n]))
  {
    var x := OneAsked(t, rs[n]);
    NextItem(s.work, s.nextId, rs, n, t.work, x);
    NextFlags(s, rs, n, t);
  }

  /** Over any requests, none of which is refused; a refused one stops the run. */
  lemma {:induction false} RequestsAreAsked(s: State, rs: seq<Request>, n: nat)
    requires n <= |rs| && !s.phase.Aborted?
    ensures var t := EnqueueAll(s, rs[..n]);
            if AnyRefused(rs, n) then t.phase == Aborted(NowWithTime) else HasAsked(s, rs, n, t)
  {
    if n == 0 {
      assert rs[..0] == [];
    } else {
      RequestsAreAsked(s, rs, n - 1);
      var t := EnqueueAll(s, rs[..n - 1]);
      assert rs[..n] == rs[..n - 1] + [rs[n - 1]];
      EnqueueAllSnoc(s, rs[..n - 1], rs[n - 1]);
      if AnyRefused(rs, n - 1) {
        assert AnyRefused(rs, n);
      } else if Refused(rs[n - 1]) {
        assert AnyRefused(rs, n);
      } else {
        NextAsked(s, rs, n - 1, t);
      }
    }
  }

  // ----- draining

  /** The items of a list that do not report progress. */
  ghost function Silent(s: seq<Item>): seq<Item>
  {
    Filter(s, (x: Item) => !x.command.Progress?)
  }

  lemma SilentIsLeft(s: seq<Item>)
    ensures WithoutProgress(s) == Silent(s)
  {
    FilterSame(s, (x: Item) => !IsProgress(x), (x: Item) => !x.command.Progress?);
  }

  /** A command to clear progress takes the progress items off the list it names, touches no other and is used up. */
  lemma ClearCommandClears(s: State, now: Clocks, kind: ProgressKind, e: Inputs)
    requires s.phase == Draining(now) && s.work != [] && s.work[0].command == Progress(kind) && kind != Report
    ensures var t, l := Step(s, e), s.lists;
            && t.phase == s.phase && t.work == s.work[1..]
            && t.log.placed == s.log.placed && t.log.drained == s.log.drained
            && match kind
               case ClearNanosecond => t.lists == l.(nanosecond := Silent(l.nanosecond))
               case ClearCycle => t.lists == l.(cycle := Silent(l.cycle))
               case ClearInst => t.lists == l.(inst := Silent(l.inst))
               case ClearMacroInst => t.lists == l.(macroInst := Silent(l.macroInst))
               case ClearPacket => t.lists == l.(packet := Silent(l.packet))
               case Report => true
  {
    SilentIsLeft(s.lists.nanosecond);
    SilentIsLeft(s.lists.cycle);
    SilentIsLeft(s.lists.inst);
    SilentIsLeft(s.lists.macroInst);
    SilentIsLeft(s.lists.packet);
  }

  /** Any other item is put on the schedule, unless an assertion fails. */
  lemma OtherCommandIsPlaced(s: State, now: Clocks, x: Item, e: Inputs)
    requires s.phase == Draining(now) && s.work != [] && s.work[0] == x
    requires x.command.Progress? ==> x.command.kind == Report
    ensures var t := Step(s, e);
            match Place(s.lists, x, now)
            case Ok(l) => t.phase == s.phase && t.lists == l && t.work == s.work[1..]
                          && t.log.placed == s.log.placed + [x.id] && t.log.drained == s.log.drained + [Stamp(x, now)]
            case Failed(f) => t.phase == Aborted(f)
  {
  }

  /** A periodic item at its next time, unless its period is zero or its next time the present. */
  function AtNextTime(x: Item, counter: u64, slack: nat): Result<Item>
  {
    if x.period == 0 then Failed(ZeroPeriod)
    else
      var next := AlignAfter(counter, slack, x.period);
      if next == counter then Failed(RearmedToNow) else Ok(x.(time := next))
  }

  /** With the next time by its own counter, it goes to its place by time on the list that its trigger names. */
  lemma PlacedByTrigger(l: Lists, x: Item, now: Clocks)
    ensures match x.trigger
            case Never => Place(l, x, now) == Failed(NeverScheduled)
            case Now => Place(l, x, now) == Ok(l.(cycle := InsertOrdered(l.cycle, x)))
            case CycleOnce => Place(l, x, now) == Ok(l.(cycle := InsertOrdered(l.cycle, x)))
            case NanosecondOnce => Place(l, x, now) == Ok(l.(nanosecond := InsertOrdered(l.nanosecond, x)))
            case InstOnce => Place(l, x, now) == Ok(l.(inst := InsertOrdered(l.inst, x)))
            case MacroInstOnce => Place(l, x, now) == Ok(l.(macroInst := InsertOrdered(l.macroInst, x)))
            case PacketOnce => Place(l, x, now) == Ok(l.(packet := InsertOrdered(l.packet, x)))
            case _ => true
    ensures x.trigger == CyclePeriod ==>
              match AtNextTime(x, now.cycle, 1)
              case Ok(y) => Place(l, x, now) == Ok(l.(cycle := InsertOrdered(l.cycle, y)))
              case Failed(f) => Place(l, x, now) == Failed(f)
    ensures x.trigger == NanosecondPeriod ==>
              match AtNextTime(x, now.nanosecond, 0)
              case Ok(y) => Place(l, x, now) == Ok(l.(nanosecond := InsertOrdered(l.nanosecond, y)))
              case Failed(f) => Place(l, x, now) == Failed(f)
    ensures x.trigger == InstPeriod ==>
              match AtNextTime(x, now.inst, 1)
              case Ok(y) => Place(l, x, now) == Ok(l.(inst := InsertOrdered(l.inst, y)))
              case Failed(f) => Place(l, x, now) == Failed(f)
    ensures x.trigger == MacroInstPeriod ==>
              match AtNextTime(x, now.macroInst, 1)
              case Ok(y) => Place(l, x, now) == Ok(l.(macroInst := InsertOrdered(l.macroInst, y)))
              case Failed(f) => Place(l, x, now) == Failed(f)
  {
  }

  // ----- what a dispatch does

  /** The state once item x has been dispatched and, if periodic, been put on its list again. */
  function Dispatched(s: State, x: Item, now: Clocks): State
  {
    if Periodic(x.trigger) then PlaceItem(Fire(s, x, now), x, now) else Fire(s, x, now)
  }

  lemma ActionTakes(s: State, x: Item, now: Clocks)
    requires !s.phase.Aborted? && !Dispatched(s, x, now).phase.Aborted?
    ensures var t := Dispatched(s, x, now);
            && t.log.fired == s.log.fired + [Stamp(x, now)] && t.work == s.work
            && t.exiting == (s.exiting || x.command == Exit)
            && t.stopped == if x.command == Start then false else if x.command == Stop then true else s.stopped
    ensures if x.trigger in {CyclePeriod, NanosecondPeriod, InstPeriod, MacroInstPeriod}
            then Place(s.lists, x, now) == Ok(Dispatched(s, x, now).lists) else Dispatched(s, x, now).lists == s.lists
  {
    FireFrame(s, x, now);
    PlaceItemFrame(Fire(s, x, now), x, now);
  }

  lemma DispatchIs(s: State, now: Clocks, x: Item, rest: Lists, e: Inputs)
    requires s.phase == Dispatching(now) && ReadyEvent(s.lists, now) == Found(x, rest)
    requires !Step(s, e).phase.Aborted?
    ensures var s1 := EnqueueAll(s.(lists := rest), e.requests);
            !s1.phase.Aborted? && Step(s, e) == Dispatched(s1, x, now)
  {
  }

  lemma DispatchAsks(s: State, rest: Lists, rs: seq<Request>)
    requires !s.phase.Aborted? && !EnqueueAll(s.(lists := rest), rs).phase.Aborted?
    ensures var t := EnqueueAll(s.(lists := rest), rs);
            && ItemsAsked(s.work, s.nextId, rs, |rs|, t.work) && t.exiting == s.exiting
            && t.stopped == (s.stopped && StartRequest !in rs) && t.lists == rest && t.log.fired == s.log.fired
  {
    assert rs[..|rs|] == rs;
    RequestsAreAsked(s.(lists := rest), rs, |rs|);
    EnqueueAllFrame(s.(lists := rest), rs);
  }

  /** After the requests of the dispatched event, a start, a stop or an exit takes effect; no other command does. */
  lemma DispatchActs(s: State, now: Clocks, x: Item, rest: Lists, e: Inputs)
    requires s.phase == Dispatching(now) && ReadyEvent(s.lists, now) == Found(x, rest)
    requires !Step(s, e).phase.Aborted?
    ensures var t := Step(s, e);
            && t.log.fired == s.log.fired + [Stamp(x, now)]
            && ItemsAsked(s.work, s.nextId, e.requests, |e.requests|, t.work)
            && t.exiting == (s.exiting || x.command == Exit)
            && t.stopped == if x.command == Start then false else if x.command == Stop then true
                            else s.stopped && StartRequest !in e.requests
    ensures if x.trigger in {CyclePeriod, NanosecondPeriod, InstPeriod, MacroInstPeriod}
            then Place(rest, x, now) == Ok(Step(s, e).lists) else Step(s, e).lists == rest
  {
    DispatchIs(s, now, x, rest, e);
    DispatchAsks(s, rest, e.requests);
    ActionTakes(EnqueueAll(s.(lists := rest), e.requests), x, now);
  }

  // ----- what a pass dispatches

  /** The items of a list that are due at a counter. */
  ghost function DueAt(s: seq<Item>, counter: u64): seq<Item>
  {
    Filter(s, (x: Item) => x.trigger == Now || x.time <= counter)
  }

  lemma DueIsAt(l: Lists, q: Queue, now: Clocks)
    ensures DueOn(l, q, now) == DueAt(l.Get(q), now.Of(q))
  {
    FilterSame(l.Get(q), (x: Item) => Due(x, q, now), (x: Item) => x.trigger == Now || x.time <= now.Of(q));
  }

  lemma DueListByList(l: Lists, now: Clocks)
    ensures DueAll(l, now) == DueAt(l.cycle, now.cycle) + (DueAt(l.nanosecond, now.nanosecond)
              + (DueAt(l.inst, now.inst) + (DueAt(l.macroInst, now.macroInst) + DueAt(l.packet, now.packet))))
  {
    DueIsAt(l, CycleQ, now);
    DueIsAt(l, NanosecondQ, now);
    DueIsAt(l, InstQ, now);
    DueIsAt(l, MacroInstQ, now);
    DueIsAt(l, PacketQ, now);
    assert DueFrom(l, now, 5) == [];
    assert DueFrom(l, now, 4) == DueOn(l, PacketQ, now) + [] == DueOn(l, PacketQ, now);
    assert DueFrom(l, now, 3) == DueOn(l, MacroInstQ, now) + DueFrom(l, now, 4);
    assert DueFrom(l, now, 2) == DueOn(l, InstQ, now) + DueFrom(l, now, 3);
    assert DueFrom(l, now, 1) == DueOn(l, NanosecondQ, now) + DueFrom(l, now, 2);
  }

  /**
    Over every run, a pass that is over has dispatched the due items of the cycle list, the nanosecond list, the
    instruction list, the macro-instruction list and the packet list, each by its own counter and in that order.
   */
  lemma PassDispatchesListByList(clocks: Clocks, markers: u64, brk: bool, requests: seq<Request>,
                                 env: nat -> Inputs, n: nat)
    requires After(Initial(clocks, markers, brk, requests), env, 0, n).phase.Informing?
    ensures var s := After(Initial(clocks, markers, brk, requests), env, 0, n);
            var l, now := s.log.passStart, s.phase.now;
            s.log.passLog == DueAt(l.cycle, now.cycle) + (DueAt(l.nanosecond, now.nanosecond)
              + (DueAt(l.inst, now.inst) + (DueAt(l.macroInst, now.macroInst) + DueAt(l.packet, now.packet))))
  {
    var s := After(Initial(clocks, markers, brk, requests), env, 0, n);
    PassDispatchesTheDueItemsInOrder(clocks, markers, brk, requests, env, n);
    DueListByList(s.log.passStart, s.phase.now);
  }
}
