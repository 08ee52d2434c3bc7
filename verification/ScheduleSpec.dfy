/**
  The five time-ordered lists of the schedule as values: placing an item, finding the next ready item,
  and the due items of one scheduler pass.
 */
module ScheduleSpec {
  import opened UInt64
  import opened WorkItems

  datatype Result<T> = Ok(value: T) | Failed(fault: Fault)

  /** The assertions of the controller that can stop a run. */
  datatype Fault =
    | NowWithTime                 // a NOW item was created with a non-zero time
    | NeverScheduled              // a NEVER item reached the schedule
    | ZeroPeriod                  // division by a period of zero
    | RearmedToNow                // a periodic item was re-armed for the current time
    | Missed(q: Queue)            // the head of a list lies in the past
    | NotLater                    // the next event is not later than the counters

  datatype Queue = CycleQ | NanosecondQ | InstQ | MacroInstQ | PacketQ

  /** The counters sampled at the top of a pass. */
  datatype Clocks = Clocks(nanosecond: u64, cycle: u64, inst: u64, macroInst: u64, packet: u64)
  {
    function Of(q: Queue): u64
    {
      match q
      case CycleQ => cycle
      case NanosecondQ => nanosecond
      case InstQ => inst
      case MacroInstQ => macroInst
      case PacketQ => packet
    }
  }

  datatype Lists = Lists(cycle: seq<Item>, nanosecond: seq<Item>, inst: seq<Item>,
                         macroInst: seq<Item>, packet: seq<Item>)
  {
    function Get(q: Queue): seq<Item>
    {
      match q
      case CycleQ => cycle
      case NanosecondQ => nanosecond
      case InstQ => inst
      case MacroInstQ => macroInst
      case PacketQ => packet
    }

    function Set(q: Queue, s: seq<Item>): (l: Lists)
      ensures l.Get(q) == s
      ensures forall r :: r != q ==> l.Get(r) == Get(r)
    {
      match q
      case CycleQ => this.(cycle := s)
      case NanosecondQ => this.(nanosecond := s)
      case InstQ => this.(inst := s)
      case MacroInstQ => this.(macroInst := s)
      case PacketQ => this.(packet := s)
    }
  }

  const EMPTY: Lists := Lists([], [], [], [], [])

  /** The order in which the lists are examined. */
  function Order(k: nat): Queue
    requires k < 5
  {
    if k == 0 then CycleQ
    else if k == 1 then NanosecondQ
    else if k == 2 then InstQ
    else if k == 3 then MacroInstQ
    else PacketQ
  }

  /** The list an item belongs on. */
  function Route(t: Trigger): Queue
    requires t != Never
  {
    match t
    case Now | CycleOnce | CyclePeriod => CycleQ
    case NanosecondOnce | NanosecondPeriod => NanosecondQ
    case InstOnce | InstPeriod => InstQ
    case MacroInstOnce | MacroInstPeriod => MacroInstQ
    case PacketOnce => PacketQ
  }

  function Slack(q: Queue): nat
  {
    if q == NanosecondQ then 0 else 1
  }

  /** An item as it is put on its list: periodic items get their next time. */
  function Rearm(x: Item, now: Clocks): Result<Item>
  {
    if x.trigger == Never then Failed(NeverScheduled)
    else if !Periodic(x.trigger) then Ok(x)
    else if x.period == 0 then Failed(ZeroPeriod)
    else
      var q := Route(x.trigger);
      var t := AlignAfter(now.Of(q), Slack(q), x.period);
      if t == now.Of(q) then Failed(RearmedToNow) else Ok(x.(time := t))
  }

  function Place(l: Lists, x: Item, now: Clocks): Result<Lists>
  {
    match Rearm(x, now)
    case Failed(f) => Failed(f)
    case Ok(y) =>
      var q := Route(y.trigger);
      Ok(l.Set(q, InsertOrdered(l.Get(q), y)))
  }

  // ----- the next ready item

  datatype Ready = Found(item: Item, rest: Lists) | Nothing | Overdue(q: Queue)

  /** The item at the head of list `q` is ready. */
  predicate IsReady(x: Item, q: Queue, now: Clocks)
  {
    match q
    case CycleQ => x.trigger == Now || ((x.trigger == CycleOnce || x.trigger == CyclePeriod) && x.time == now.cycle)
    case NanosecondQ =>
      x.trigger == Now || ((x.trigger == NanosecondOnce || x.trigger == NanosecondPeriod) && x.time == now.nanosecond)
    case InstQ => (x.trigger == InstOnce || x.trigger == InstPeriod) && x.time <= now.inst
    case MacroInstQ => (x.trigger == MacroInstOnce || x.trigger == MacroInstPeriod) && x.time <= now.macroInst
    case PacketQ => x.trigger == PacketOnce && x.time <= now.packet
  }

  /** What is asserted of a head that is not ready. */
  predicate IsWaiting(x: Item, q: Queue, now: Clocks)
  {
    x.trigger != Now && x.trigger != Never && Route(x.trigger) == q && x.time > now.Of(q)
  }

  function ReadyEvent(l: Lists, now: Clocks): Ready
  {
    ReadyFrom(l, now, 0)
  }

  function ReadyFrom(l: Lists, now: Clocks, k: nat): Ready
    requires k <= 5
    decreases 5 - k
  {
    if k == 5 then Nothing
    else
      var q := Order(k);
      var s := l.Get(q);
      if s == [] then ReadyFrom(l, now, k + 1)
      else if IsReady(s[0], q, now) then Found(s[0], l.Set(q, s[1..]))
      else if IsWaiting(s[0], q, now) then ReadyFrom(l, now, k + 1)
      else Overdue(q)
  }

  /** The time of the next event on a list, as handed to the performance model. */
  function NextEvent(l: Lists, q: Queue, now: Clocks): u64
  {
    var s := l.Get(q);
    if s == [] then MAX
    else if s[0].trigger == Now then now.Of(q)
    else s[0].time
  }

  // ----- well-formed schedules

  /** An item may sit on list `q`. */
  predicate Belongs(x: Item, q: Queue)
  {
    WellFormed(x) && x.trigger != Never && Route(x.trigger) == q && (Periodic(x.trigger) ==> x.period > 0)
  }

  ghost predicate ListValid(s: seq<Item>, q: Queue)
  {
    Sorted(s) && forall x :: x in s ==> Belongs(x, q)
  }

  ghost predicate Valid(l: Lists)
  {
    forall q: Queue :: ListValid(l.Get(q), q)
  }

  lemma PlaceValid(l: Lists, x: Item, now: Clocks)
    requires Valid(l) && WellFormed(x) && Place(l, x, now).Ok?
    ensures Valid(Place(l, x, now).value)
  {
    var y := Rearm(x, now).value;
    InsertValid(l.Get(Route(y.trigger)), y, Route(y.trigger));
  }

  lemma InsertValid(s: seq<Item>, x: Item, q: Queue)
    requires ListValid(s, q) && Belongs(x, q)
    ensures ListValid(InsertOrdered(s, x), q)
  {
    var k := InsertIsStable(s, x);
    InsertElements(s, x);
  }

  // ----- due items

  /** The item should be dispatched no later than the pass with these counters. */
  predicate Due(x: Item, q: Queue, now: Clocks)
  {
    x.trigger == Now || x.time <= now.Of(q)
  }

  ghost function DueOn(l: Lists, q: Queue, now: Clocks): seq<Item>
  {
    Filter(l.Get(q), (x: Item) => Due(x, q, now))
  }

  /** The due items list by list in the order of examination, each list in its own order. */
  ghost function DueAll(l: Lists, now: Clocks): seq<Item>
  {
    DueFrom(l, now, 0)
  }

  ghost function DueFrom(l: Lists, now: Clocks, k: nat): seq<Item>
    requires k <= 5
    decreases 5 - k
  {
    if k == 5 then [] else DueOn(l, Order(k), now) + DueFrom(l, now, k + 1)
  }

  /** In a sorted list with a head that is not due, nothing is due. */
  lemma HeadNotDue(s: seq<Item>, q: Queue, now: Clocks)
    requires ListValid(s, q)
    requires s != [] ==> !Due(s[0], q, now)
    ensures Filter(s, (x: Item) => Due(x, q, now)) == []
    ensures forall x :: x in s ==> !Due(x, q, now)
  {
    forall x | x in s
      ensures !Due(x, q, now)
    {
      var i :| 0 <= i < |s| && s[i] == x;
      assert s[0].time <= s[i].time;
    }
    FilterNone(s, (x: Item) => Due(x, q, now));
  }

  /**
    The outcome of looking for a ready item, in terms of the due items: the item found is the first of
    them; nothing is found exactly when none is due; and the only due items that are not found are
    cycle and nanosecond items whose time has passed.
   */
  lemma ReadyIsFirstDue(l: Lists, now: Clocks)
    requires Valid(l)
    ensures match ReadyEvent(l, now)
            case Nothing => DueAll(l, now) == []
            case Found(x, rest) => Valid(rest) && DueAll(l, now) == [x] + DueAll(rest, now)
            case Overdue(q) => (q == CycleQ || q == NanosecondQ) && HeadMissed(l, q, now)
  {
    ReadyFromFirstDue(l, now, 0);
  }

  ghost predicate FirstDueFrom(l: Lists, now: Clocks, k: nat, r: Ready)
    requires k <= 5
  {
    match r
    case Nothing => DueFrom(l, now, k) == []
    case Found(x, rest) =>
      Valid(rest) && DueFrom(l, now, k) == [x] + DueFrom(rest, now, k)
      && forall i :: 0 <= i < k ==> rest.Get(Order(i)) == l.Get(Order(i))
    case Overdue(q) => (q == CycleQ || q == NanosecondQ) && HeadMissed(l, q, now)
  }

  /** The head of list `q` is a timed item whose time has passed. */
  predicate HeadMissed(l: Lists, q: Queue, now: Clocks)
  {
    l.Get(q) != [] && l.Get(q)[0].trigger != Now && l.Get(q)[0].time < now.Of(q)
  }

  lemma {:induction false} ReadyFromFirstDue(l: Lists, now: Clocks, k: nat)
    requires Valid(l) && k <= 5
    ensures FirstDueFrom(l, now, k, ReadyFrom(l, now, k))
    decreases 5 - k
  {
    if k < 5 {
      var q := Order(k);
      var s := l.Get(q);
      assert ListValid(s, q);
      if s == [] || (!IsReady(s[0], q, now) && IsWaiting(s[0], q, now)) {
        HeadNotDue(s, q, now);
        ReadyFromFirstDue(l, now, k + 1);
        SkipList(l, now, k, ReadyFrom(l, now, k + 1));
      } else if IsReady(s[0], q, now) {
        FoundIsFirstDue(l, now, k);
      } else {
        assert Belongs(s[0], q);
      }
    }
  }

  lemma SkipList(l: Lists, now: Clocks, k: nat, r: Ready)
    requires k < 5 && DueOn(l, Order(k), now) == [] && FirstDueFrom(l, now, k + 1, r)
    ensures FirstDueFrom(l, now, k, r)
  {
    match r
    case Found(x, rest) => assert DueOn(rest, Order(k), now) == [];
    case _ =>
  }

  lemma FoundIsFirstDue(l: Lists, now: Clocks, k: nat)
    requires Valid(l) && k < 5
    requires l.Get(Order(k)) != [] && IsReady(l.Get(Order(k))[0], Order(k), now)
    ensures var s := l.Get(Order(k));
            var rest := l.Set(Order(k), s[1..]);
            FirstDueFrom(l, now, k, Found(s[0], rest))
  {
    var q, s := Order(k), l.Get(Order(k));
    var rest := l.Set(q, s[1..]);
    assert ListValid(s[1..], q);
    FoundIsDue(l, rest, now, k);
    assert forall i :: 0 <= i < k ==> Order(i) != q;
  }

  lemma FoundIsDue(l: Lists, rest: Lists, now: Clocks, k: nat)
    requires k < 5 && l.Get(Order(k)) != [] && Due(l.Get(Order(k))[0], Order(k), now)
    requires rest == l.Set(Order(k), l.Get(Order(k))[1..])
    ensures DueFrom(l, now, k) == [l.Get(Order(k))[0]] + DueFrom(rest, now, k)
  {
    var q := Order(k);
    DueHead(l.Get(q), q, now);
    DueFromUnchanged(l, rest, now, k + 1);
    ConsConcat(l.Get(q)[0], DueOn(rest, q, now), DueFrom(rest, now, k + 1));
  }

  lemma DueHead(s: seq<Item>, q: Queue, now: Clocks)
    requires s != [] && Due(s[0], q, now)
    ensures Filter(s, (x: Item) => Due(x, q, now)) == [s[0]] + Filter(s[1..], (x: Item) => Due(x, q, now))
  {
  }

  lemma ConsConcat(x: Item, s: seq<Item>, t: seq<Item>)
    ensures ([x] + s) + t == [x] + (s + t)
  {
  }

  lemma {:induction false} DueFromUnchanged(l: Lists, l': Lists, now: Clocks, k: nat)
    requires k <= 5
    requires forall i :: k <= i < 5 ==> l.Get(Order(i)) == l'.Get(Order(i))
    ensures DueFrom(l, now, k) == DueFrom(l', now, k)
    decreases 5 - k
  {
    if k < 5 {
      DueFromUnchanged(l, l', now, k + 1);
    }
  }

  /** The period of a periodic item can be added to the counter without wrap-around. */
  predicate PeriodFits(x: Item, now: Clocks)
  {
    Periodic(x.trigger) ==> Fits(now.Of(Route(x.trigger)), Slack(Route(x.trigger)), x.period)
  }

  /** Re-arming moves a periodic item strictly into the future exactly when nothing wraps. */
  lemma RearmIsFutureIffFits(x: Item, now: Clocks)
    requires Periodic(x.trigger) && x.period > 0
    ensures PeriodFits(x, now) <==>
            Rearm(x, now).Ok? && !Due(Rearm(x, now).value, Route(x.trigger), now)
  {
    var q := Route(x.trigger);
    AlignIsFutureIffFits(now.Of(q), Slack(q), x.period);
  }

  /** An item placed strictly in the future leaves the due items as they are. */
  lemma PlaceKeepsDue(l: Lists, x: Item, now: Clocks)
    requires Periodic(x.trigger) && x.period > 0 && PeriodFits(x, now)
    ensures Place(l, x, now).Ok? && DueAll(Place(l, x, now).value, now) == DueAll(l, now)
  {
    RearmIsFutureIffFits(x, now);
    var y := Rearm(x, now).value;
    var q := Route(y.trigger);
    FilterInsertDropped(l.Get(q), y, (z: Item) => Due(z, q, now));
    DueFromSame(l, Place(l, x, now).value, now, 0);
  }

  lemma {:induction false} DueFromSame(l: Lists, l': Lists, now: Clocks, k: nat)
    requires k <= 5
    requires forall q: Queue :: DueOn(l, q, now) == DueOn(l', q, now)
    ensures DueFrom(l, now, k) == DueFrom(l', now, k)
    decreases 5 - k
  {
    if k < 5 {
      DueFromSame(l, l', now, k + 1);
    }
  }
}
