/**
  The schedule as the controller has it: five worklists that are updated in place.
 */
module Schedules {
  import opened UInt64
  import opened WorkItems
  import opened ScheduleSpec
  import opened Worklists

  /** The outcome of looking for a ready item. */
  datatype Outcome = Taken(wi: WorkItem) | NoneReady | Behind(q: Queue)

  datatype Verdict = Fine | Broken(fault: Fault)

  /** A marker: mentioning it for a schedule makes its validity known in detail. */
  ghost predicate Within(schedule: Schedule, n: int)
  {
    true
  }

  class Schedule {
    const cycleList: WorkList
    const nanosecondList: WorkList
    const instList: WorkList
    const macroInstList: WorkList
    const packetList: WorkList
    ghost var Repr: set<object>

    function ListFor(q: Queue): WorkList
    {
      match q
      case CycleQ => cycleList
      case NanosecondQ => nanosecondList
      case InstQ => instList
      case MacroInstQ => macroInstList
      case PacketQ => packetList
    }

    /** List `q` is well linked and inside the representation. */
    ghost predicate ListOk(q: Queue)
      reads this, Repr
    {
      && ListFor(q) in Repr && ListFor(q).Repr <= Repr && this !in ListFor(q).Repr
      && ListFor(q).Valid()
    }

    /** The five lists are well linked and share nothing, so no item is on two of them. */
    ghost predicate Intact()
      reads this, Repr
    {
      && this in Repr
      && (forall q: Queue :: ListOk(q))
      && (forall q, r: Queue :: q != r ==>
            ListFor(q) in Repr && ListFor(r) in Repr && ListFor(q).Repr !! ListFor(r).Repr)
    }

    /** The same, spelled out for the solver only where `Within` is mentioned for this schedule. */
    ghost predicate Valid()
      reads this, Repr
      ensures Valid() ==> this in Repr
    {
      this in Repr && forall n :: Within(this, n) ==> Intact()
    }

    ghost function On(q: Queue): seq<Item>
      reads ListFor(q)
    {
      ListFor(q).contents
    }

    ghost function Abs(): Lists
      requires Valid()
      reads this, Repr
    {
      assert Within(this, 0) && forall q: Queue :: ListOk(q);
      Lists(On(CycleQ), On(NanosecondQ), On(InstQ), On(MacroInstQ), On(PacketQ))
    }

    constructor ()
      ensures Valid() && fresh(Repr) && Abs() == EMPTY
    {
      cycleList := new WorkList();
      nanosecondList := new WorkList();
      instList := new WorkList();
      macroInstList := new WorkList();
      packetList := new WorkList();
      Repr := {this, cycleList, nanosecondList, instList, macroInstList, packetList};
      new;
      StartsEmpty();
    }

    /** Five different empty lists make an empty schedule. */
    lemma StartsEmpty()
      requires Repr == {this, cycleList, nanosecondList, instList, macroInstList, packetList}
      requires forall q: Queue :: ListFor(q).IsNew()
      requires forall q, r: Queue :: q != r ==> ListFor(q) != ListFor(r)
      ensures Valid() && Abs() == EMPTY
    {
      forall q: Queue
        ensures ListFor(q) in Repr
      {
        match q
        case CycleQ =>
        case NanosecondQ =>
        case InstQ =>
        case MacroInstQ =>
        case PacketQ =>
      }
      forall q: Queue
        ensures ListOk(q) && On(q) == []
      {
        ListFor(q).NewIsEmpty();
      }
    }

    /** The other lists are inside the representation and away from list `q`. */
    lemma Apart(q: Queue)
      requires Valid()
      ensures forall r: Queue, o: object :: r != q && o in ListFor(r).Repr ==>
                o !in ListFor(q).Repr && o in Repr && o != this
    {
      assert Within(this, 0);
      forall r: Queue, o: object | r != q && o in ListFor(r).Repr
        ensures o !in ListFor(q).Repr && o in Repr && o != this
      {
        assert ListOk(r);
      }
    }

    /** A change confined to list `q` keeps the schedule valid and the other lists as they were. */
    twostate lemma OneListChanged(q: Queue)
      requires old(Valid()) && this in Repr && ListOk(q)
      requires forall r: Queue, o: object :: r != q && o in old(ListFor(r).Repr) ==>
                 unchanged(o) && o !in ListFor(q).Repr && o in Repr
      ensures Valid() && forall r: Queue :: r != q ==> On(r) == old(On(r))
    {
      assert Within(this, 0);
      forall r: Queue | r != q
        ensures ListOk(r) && On(r) == old(On(r)) && ListFor(r).Repr == old(ListFor(r).Repr)
      {
        assert old(ListOk(r));
      }
    }

    /** Take the head off list `q`. */
    method TakeHead(q: Queue) returns (wi: WorkItem)
      requires Valid() && On(q) != []
      modifies Repr
      ensures Valid() && Repr == old(Repr) - {wi} && wi in old(Repr)
      ensures wi.Value() == old(On(q))[0] && wi.next == null
      ensures On(q) == old(On(q))[1..] && forall r: Queue :: r != q ==> On(r) == old(On(r))
    {
      assert Within(this, 0) && ListOk(q);
      Apart(q);
      wi := ListFor(q).Remove();
      Repr := Repr - {wi};
      OneListChanged(q);
    }

    /** Insert an item into list `q`. */
    method InsertInto(q: Queue, wi: WorkItem)
      requires Valid() && wi !in Repr && wi.next == null && WellFormed(wi.Value())
      modifies Repr, wi
      ensures Valid() && Repr == old(Repr) + {wi}
      ensures On(q) == InsertOrdered(old(On(q)), old(wi.Value())) && forall r: Queue :: r != q ==> On(r) == old(On(r))
    {
      assert Within(this, 0) && ListOk(q);
      Apart(q);
      ListFor(q).InsertOrdered(wi);
      Repr := Repr + {wi};
      OneListChanged(q);
    }

    /** Clear the progress items of list `q`. */
    method ClearProgress(q: Queue)
      requires Valid()
      modifies Repr
      ensures Valid() && Repr == old(Repr)
      ensures On(q) == WithoutProgress(old(On(q))) && forall r: Queue :: r != q ==> On(r) == old(On(r))
    {
      assert Within(this, 0) && ListOk(q);
      Apart(q);
      ListFor(q).ClearProgress();
      OneListChanged(q);
    }

    lemma GetIsOn()
      requires Valid()
      ensures forall q: Queue :: Abs().Get(q) == On(q)
    {
    }

    /** The abstract lists, when only list `q` is new. */
    lemma SetOne(q: Queue, l: Lists, s: seq<Item>)
      requires Valid() && On(q) == s && forall r: Queue :: r != q ==> On(r) == l.Get(r)
      ensures Abs() == l.Set(q, s)
    {
      match q
      case CycleQ =>
      case NanosecondQ =>
      case InstQ =>
      case MacroInstQ =>
      case PacketQ =>
    }

    /** Look at the head of one list; take it off if it is ready, and check it if it is not. */
    method Examine(q: Queue, now: Clocks) returns (r: Outcome)
      requires Valid()
      modifies Repr
      ensures Valid()
      ensures !r.Taken? ==> Repr == old(Repr) && Abs() == old(Abs())
      ensures var s := old(Abs()).Get(q);
              match r
              case NoneReady => s == [] || (!IsReady(s[0], q, now) && IsWaiting(s[0], q, now))
              case Behind(p) => p == q && s != [] && !IsReady(s[0], q, now) && !IsWaiting(s[0], q, now)
              case Taken(wi) => s != [] && wi.Value() == s[0] && IsReady(s[0], q, now)
                                && Abs() == old(Abs()).Set(q, s[1..])
                                && wi in old(Repr) && Repr == old(Repr) - {wi} && wi.next == null
    {
      var list := ListFor(q);
      assert Within(this, 0) && ListOk(q);
      GetIsOn();
      list.HeadIsFirst();
      var head := list.head;
      if head == null {
        return NoneReady;
      }
      if IsReady(head.Value(), q, now) {
        ghost var l := Abs();
        var ht := TakeHead(q);
        SetOne(q, l, l.Get(q)[1..]);
        return Taken(ht);
      }
      if IsWaiting(head.Value(), q, now) {
        return NoneReady;
      }
      return Behind(q);
    }

    /** The next event item that should be handled, if one is ready. */
    method ReadyEvent(now: Clocks) returns (r: Outcome)
      requires Valid()
      modifies Repr
      ensures Valid()
      ensures !r.Taken? ==> Repr == old(Repr) && Abs() == old(Abs())
      ensures match ScheduleSpec.ReadyEvent(old(Abs()), now)
              case Nothing => r == NoneReady
              case Overdue(q) => r == Behind(q)
              case Found(x, rest) => r.Taken? && r.wi.Value() == x && Abs() == rest
                                     && r.wi in old(Repr) && Repr == old(Repr) - {r.wi} && r.wi.next == null
    {
      ghost var l := Abs();
      r := Examine(CycleQ, now);
      if !r.NoneReady? { return; }
      assert ReadyFrom(l, now, 0) == ReadyFrom(l, now, 1);
      r := Examine(NanosecondQ, now);
      if !r.NoneReady? { return; }
      assert ReadyFrom(l, now, 1) == ReadyFrom(l, now, 2);
      r := Examine(InstQ, now);
      if !r.NoneReady? { return; }
      assert ReadyFrom(l, now, 2) == ReadyFrom(l, now, 3);
      r := Examine(MacroInstQ, now);
      if !r.NoneReady? { return; }
      assert ReadyFrom(l, now, 3) == ReadyFrom(l, now, 4);
      r := Examine(PacketQ, now);
      if !r.NoneReady? { return; }
      assert ReadyFrom(l, now, 4) == ReadyFrom(l, now, 5);
    }

    /** Set the next time of a periodic item, aligned to its period. */
    method SetNextTime(item: WorkItem, now: Clocks) returns (v: Verdict)
      requires item.trigger != Never
      modifies item`actionTime
      ensures match Rearm(old(item.Value()), now)
              case Ok(y) => v == Fine && item.Value() == y
              case Failed(f) => v == Broken(f)
    {
      var trig := item.trigger;
      if Periodic(trig) && item.period == 0 {
        return Broken(ZeroPeriod);
      }
      if trig == CyclePeriod {
        item.actionTime := AlignAfter(now.cycle, 1, item.period);
        if item.actionTime == now.cycle { return Broken(RearmedToNow); }
      } else if trig == InstPeriod {
        item.actionTime := AlignAfter(now.inst, 1, item.period);
        if item.actionTime == now.inst { return Broken(RearmedToNow); }
      } else if trig == MacroInstPeriod {
        item.actionTime := AlignAfter(now.macroInst, 1, item.period);
        if item.actionTime == now.macroInst { return Broken(RearmedToNow); }
      } else if trig == NanosecondPeriod {
        item.actionTime := AlignAfter(now.nanosecond, 0, item.period);
        if item.actionTime == now.nanosecond { return Broken(RearmedToNow); }
      }
      return Fine;
    }

    /** Schedule `item` as specified by its trigger. */
    method ScheduleItem(item: WorkItem, now: Clocks) returns (v: Verdict)
      requires Valid() && item !in Repr && item.next == null && WellFormed(item.Value())
      modifies Repr, item
      ensures Valid() && Repr == if v == Fine then old(Repr) + {item} else old(Repr)
      ensures match Place(old(Abs()), old(item.Value()), now)
              case Ok(l) => v == Fine && Abs() == l
              case Failed(f) => v == Broken(f) && Abs() == old(Abs())
    {
      ghost var l := Abs();
      if item.trigger == Never {
        return Broken(NeverScheduled);
      }
      v := SetNextTime(item, now);
      assert Valid() && Abs() == l;
      if v.Broken? {
        return;
      }
      var q := Route(item.trigger);
      GetIsOn();
      ghost var y := item.Value();
      InsertInto(q, item);
      SetOne(q, l, InsertOrdered(l.Get(q), y));
    }
  }
}
