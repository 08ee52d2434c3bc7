/**
  How a pass ends: with nothing left to dispatch, with a failed assertion, or never.  The lists it begins with tell
  which.
 */
module SchedulerFate {
  import opened UInt64
  import opened WorkItems
  import opened ScheduleSpec
  import opened SchedulerRun
  import opened SchedulerShape
  import opened SchedulerExactness
  import opened SchedulerOrder
  import opened SchedulerMissed
  import opened SchedulerSaturated

  // ----- the items that decide

  /** The item cannot leave the cycle or the nanosecond list without a failed assertion. */
  predicate Doom(x: Item, q: Queue, now: Clocks)
  {
    x.trigger != Now && (x.time < now.Of(q) || IsStuck(x, q, now))
  }

  /** Of the cycle or the nanosecond list, some item is behind its counter or due and about to wrap. */
  ghost predicate Doomed(l: Lists, now: Clocks)
  {
    exists q: Queue, x :: Rank(q) <= 1 && x in l.Get(q) && Doom(x, q, now)
  }

  ghost predicate StuckOn(l: Lists, q: Queue, now: Clocks)
  {
    exists x :: x in l.Get(q) && IsStuck(x, q, now)
  }

  /** If no item is doomed, the first list with a stuck one. */
  ghost function StuckQ(l: Lists, now: Clocks): Queue
  {
    if StuckOn(l, InstQ, now) then InstQ else MacroInstQ
  }

  datatype Fate = Dying | Completes | Loops

  /** The stuck items of a list with this counter wrap behind it for ever, and none to the present. */
  predicate Winds(s: seq<Item>, counter: u64)
  {
    counter != 0 && (counter == MAX ==> GoesRound(s, MAX))
  }

  /**
    What a pass with these lists is in for.  An item that wraps behind an instruction or macro-instruction counter is
    dispatched again and again; one that wraps to the present fails the assertion that nothing is re-armed for it.
   */
  ghost function FateOf(l: Lists, now: Clocks): Fate
  {
    if Doomed(l, now) then Dying
    else if !Stuck(l, now) then Completes
    else if Winds(l.Get(StuckQ(l, now)), now.Of(StuckQ(l, now))) then Loops
    else Dying
  }

  /** The stuck items are on a list whose counter is at its maximum. */
  ghost predicate Saturated(l: Lists, now: Clocks)
  {
    !Doomed(l, now) && Stuck(l, now) && now.Of(StuckQ(l, now)) == MAX
  }

  lemma StuckSomewhere(l: Lists, now: Clocks)
    ensures Stuck(l, now) <==> exists q: Queue :: StuckOn(l, q, now)
  {
    if Stuck(l, now) {
      var q: Queue, x :| x in l.Get(q) && IsStuck(x, q, now);
      assert StuckOn(l, q, now);
    }
    if q: Queue :| StuckOn(l, q, now) {
      var x :| x in l.Get(q) && IsStuck(x, q, now);
    }
  }

  /** Which stuck items are not put behind their counter. */
  lemma StuckWraps(x: Item, q: Queue, now: Clocks)
    requires Belongs(x, q) && IsStuck(x, q, now)
    ensures WrapsBehind(x, now) <==> !(q != NanosecondQ && x.period == MAX && (now.Of(q) == 0 || now.Of(q) == MAX))
    ensures WrapsBehind(x, now) <==> Rearm(x, now).Ok?
  {
    AlignIsFutureIffFits(now.Of(q), Slack(q), x.period);
    AlignIsPresentIff(now.Of(q), Slack(q), x.period);
  }

  // ----- one dispatch, seen from the lists

  /** The lists after a dispatch that succeeds. */
  ghost predicate Redone(l: Lists, now: Clocks, q: Queue, x: Item, rest: Lists, l': Lists)
  {
    IsHead(l, now, q, x, rest) && Redo(x, rest, now) == Ok(l')
  }

  /** A new item on the lists is the one dispatched, re-armed; the others stay. */
  lemma RedoneElements(l: Lists, now: Clocks, q: Queue, x: Item, rest: Lists, l': Lists)
    requires Redone(l, now, q, x, rest, l')
    ensures forall p: Queue :: p != q ==> l'.Get(p) == l.Get(p)
    ensures forall y :: y in l.Get(q) && y != x ==> y in l'.Get(q)
    ensures forall y :: y in l'.Get(q) ==> y in l.Get(q) || (Periodic(x.trigger) && y == Rearm(x, now).value)
    ensures Periodic(x.trigger) ==> Rearm(x, now).Ok? && Rearm(x, now).value in l'.Get(q)
  {
    assert forall y :: y in l.Get(q) && y != x ==> y in l.Get(q)[1..];
    if Periodic(x.trigger) {
      InsertElements(l.Get(q)[1..], Rearm(x, now).value);
    }
  }

  /** A dispatched item was due; re-armed it is due again exactly if it was stuck. */
  lemma RedoneDue(l: Lists, now: Clocks, q: Queue, x: Item, rest: Lists, l': Lists)
    requires Redone(l, now, q, x, rest, l')
    ensures x in l.Get(q) && Due(x, q, now)
    ensures Periodic(x.trigger) ==>
              var y := Rearm(x, now).value;
              && Rearm(x, now).Ok? && y.trigger == x.trigger && y.period == x.period
              && (IsStuck(x, q, now) <==> Due(y, q, now)) && (IsStuck(x, q, now) <==> WrapsBehind(x, now))
  {
    if Periodic(x.trigger) {
      RearmIsFutureIffFits(x, now);
    }
  }

  lemma StuckKept(l: Lists, now: Clocks, q: Queue, x: Item, rest: Lists, l': Lists, p: Queue)
    requires Redone(l, now, q, x, rest, l')
    ensures StuckOn(l', p, now) <==> StuckOn(l, p, now)
  {
    RedoneElements(l, now, q, x, rest, l');
    RedoneDue(l, now, q, x, rest, l');
    if StuckOn(l, p, now) {
      var d :| d in l.Get(p) && IsStuck(d, p, now);
      assert p == q && d == x ==> IsStuck(Rearm(x, now).value, q, now);
      assert !(p == q && d == x) ==> d in l'.Get(p);
    }
  }

  lemma DoomKept(l: Lists, now: Clocks, q: Queue, x: Item, rest: Lists, l': Lists)
    requires Redone(l, now, q, x, rest, l') && Doomed(l, now)
    ensures Doomed(l', now)
  {
    RedoneElements(l, now, q, x, rest, l');
    RedoneDue(l, now, q, x, rest, l');
    var p: Queue, d :| Rank(p) <= 1 && d in l.Get(p) && Doom(d, p, now);
    assert Due(d, p, now) && Rank(q) <= Rank(p);
    if WrapsBehind(x, now) {
      assert Doom(Rearm(x, now).value, q, now);
    } else {
      assert p == q ==> d != x;
      assert d in l'.Get(p);
    }
  }

  lemma UndoomedKept(l: Lists, now: Clocks, q: Queue, x: Item, rest: Lists, l': Lists)
    requires Redone(l, now, q, x, rest, l') && !Doomed(l, now)
    ensures !Doomed(l', now)
  {
    RedoneElements(l, now, q, x, rest, l');
    RedoneDue(l, now, q, x, rest, l');
    assert Rank(q) <= 1 ==> !Doom(x, q, now);
    if p: Queue, y :| Rank(p) <= 1 && y in l'.Get(p) && Doom(y, p, now) {
      assert false;
    }
  }

  /** A dispatch from a list whose counter is at its maximum. */
  lemma RoundStays(l: Lists, now: Clocks, q: Queue, x: Item, rest: Lists, l': Lists)
    requires Valid(l) && Redone(l, now, q, x, rest, l') && Rank(q) > 1 && now.Of(q) == MAX
    ensures GoesRound(l'.Get(q), MAX) <==> GoesRound(l.Get(q), MAX)
    ensures !GoesRound(l.Get(q), MAX) ==> Ahead(l'.Get(q)) < Ahead(l.Get(q))
  {
    assert ListValid(l.Get(q), q);
    if Periodic(x.trigger) {
      AlignIsPresentIff(now.Of(q), Slack(q), x.period);
      SaturatedAlign(x.period);
      SaturatedDispatch(l.Get(q), Rearm(x, now).value);
    } else {
      SaturatedDispatch(l.Get(q), x);
    }
  }

  lemma WindsKept(l: Lists, now: Clocks, q: Queue, x: Item, rest: Lists, l': Lists, p: Queue)
    requires Valid(l) && Redone(l, now, q, x, rest, l') && Rank(p) > 1
    ensures Winds(l'.Get(p), now.Of(p)) <==> Winds(l.Get(p), now.Of(p))
  {
    if q == p && now.Of(p) == MAX {
      RoundStays(l, now, q, x, rest, l');
    } else if q != p {
      RedoneElements(l, now, q, x, rest, l');
    }
  }

  lemma SortKept(l: Lists, now: Clocks, q: Queue, x: Item, rest: Lists, l': Lists)
    requires Redone(l, now, q, x, rest, l')
    ensures Doomed(l', now) == Doomed(l, now) && Stuck(l', now) == Stuck(l, now) && StuckQ(l', now) == StuckQ(l, now)
  {
    forall p: Queue ensures StuckOn(l', p, now) <==> StuckOn(l, p, now) {
      StuckKept(l, now, q, x, rest, l', p);
    }
    StuckSomewhere(l, now);
    StuckSomewhere(l', now);
    if Doomed(l, now) {
      DoomKept(l, now, q, x, rest, l');
    } else {
      UndoomedKept(l, now, q, x, rest, l');
    }
  }

  /** What a pass is in for does not change while it dispatches. */
  lemma FateKept(l: Lists, now: Clocks, q: Queue, x: Item, rest: Lists, l': Lists)
    requires Valid(l) && Redone(l, now, q, x, rest, l')
    ensures FateOf(l', now) == FateOf(l, now) && Saturated(l', now) == Saturated(l, now)
  {
    SortKept(l, now, q, x, rest, l');
    WindsKept(l, now, q, x, rest, l', StuckQ(l, now));
  }

  /** A stuck item at the head of an instruction or macro-instruction list decides the fate. */
  lemma HeadDecides(l: Lists, now: Clocks, q: Queue, x: Item, rest: Lists)
    requires IsHead(l, now, q, x, rest) && IsStuck(x, q, now) && Rank(q) > 1
    ensures !Doomed(l, now) && Stuck(l, now) && StuckQ(l, now) == q
  {
    assert x in l.Get(q) && StuckOn(l, q, now);
    assert q != InstQ ==> !StuckOn(l, InstQ, now);
  }

  /** Only a doomed pass, or one that meets the present, fails to re-arm an item. */
  lemma FailureIsFate(l: Lists, now: Clocks, q: Queue, x: Item, rest: Lists)
    requires IsHead(l, now, q, x, rest) && Redo(x, rest, now).Failed?
    ensures FateOf(l, now) == Dying
  {
    RearmIsFutureIffFits(x, now);
    assert x in l.Get(q) && IsStuck(x, q, now);
    StuckWraps(x, q, now);
    if Rank(q) > 1 {
      HeadDecides(l, now, q, x, rest);
    } else {
      assert Doom(x, q, now);
    }
  }

  /** The end of a pass, or the assertion on the head of a list. */
  lemma NothingIsFate(l: Lists, now: Clocks)
    requires Valid(l)
    ensures match ReadyEvent(l, now)
            case Nothing => FateOf(l, now) == Completes
            case Overdue(q) => FateOf(l, now) == Dying
            case Found(x, rest) => true
  {
    match ReadyEvent(l, now)
    case Nothing =>
      NothingReadyNothingDue(l, now);
      assert !Stuck(l, now) && !Doomed(l, now);
    case Overdue(q) =>
      ReadyIsFirstDue(l, now);
      assert l.Get(q)[0] in l.Get(q) && Doom(l.Get(q)[0], q, now);
    case Found(x, rest) =>
  }

  // ----- every dispatch of a pass that is not fated to loop brings its end nearer

  /**
    With the cycle list late only immediate items go before the end, with the nanosecond list late only cycle items.
   */
  ghost function StageOf(l: Lists, now: Clocks): nat
  {
    if Late(l, CycleQ, now) then 0 else if Late(l, NanosecondQ, now) then 1 else 2
  }

  /** What is due on the lists examined before `q`, the instruction or the macro-instruction list. */
  ghost function DueBefore(l: Lists, now: Clocks, q: Queue): nat
  {
    |DueOn(l, CycleQ, now)| + |DueOn(l, NanosecondQ, now)| + if q == InstQ then 0 else |DueOn(l, InstQ, now)|
  }

  ghost function DueIn(l: Lists, now: Clocks, stage: nat): nat
  {
    if stage == 0 then |l.cycle|
    else if stage == 1 then |DueOn(l, CycleQ, now)|
    else if Saturated(l, now) then DueBefore(l, now, StuckQ(l, now)) + Ahead(l.Get(StuckQ(l, now)))
    else |DueAll(l, now)|
  }

  ghost predicate Nearer(l': Lists, l: Lists, now: Clocks)
  {
    || StageOf(l', now) < StageOf(l, now)
    || (StageOf(l', now) == StageOf(l, now) && DueIn(l', now, StageOf(l, now)) < DueIn(l, now, StageOf(l, now)))
  }

  /** A head that is ready is not behind its counter on the nanosecond list, nor on the cycle list unless immediate. */
  lemma ReadyIsNotLate(l: Lists, now: Clocks, q: Queue, x: Item, rest: Lists)
    requires Valid(l) && IsHead(l, now, q, x, rest) && Rank(q) <= 1
    ensures Late(l, q, now) ==> q == CycleQ && x.trigger == Now
  {
    assert ListValid(l.Get(q), q);
  }

  lemma LateBefore(l: Lists, now: Clocks, q: Queue, p: Queue)
    requires NothingBefore(l, now, q) && Late(l, p, now)
    ensures Rank(q) <= Rank(p)
  {
    var x :| x in l.Get(p) && x.trigger != Now && x.time < now.Of(p);
    assert Due(x, p, now);
  }

  /** The cycle list is late: an immediate item goes. */
  lemma ImmediateGoes(l: Lists, now: Clocks, q: Queue, x: Item, rest: Lists, l': Lists)
    requires Valid(l) && Redone(l, now, q, x, rest, l') && Late(l, CycleQ, now)
    ensures StageOf(l', now) == 0 && |l'.cycle| < |l.cycle|
  {
    LateBefore(l, now, q, CycleQ);
    ReadyIsNotLate(l, now, q, x, rest);
    var y :| y in l.Get(CycleQ) && y.trigger != Now && y.time < now.Of(CycleQ);
    assert y in l'.Get(CycleQ);
  }

  /** A dispatch that puts nothing behind leaves one due item fewer on its list. */
  lemma DueShrinks(l: Lists, now: Clocks, q: Queue, x: Item, rest: Lists, l': Lists)
    requires Valid(l) && Redone(l, now, q, x, rest, l') && !WrapsBehind(x, now)
    ensures |DueOn(l', q, now)| + 1 == |DueOn(l, q, now)|
  {
    RedoneDue(l, now, q, x, rest, l');
    var due := (y: Item) => Due(y, q, now);
    assert Filter(l.Get(q), due) == [x] + Filter(l.Get(q)[1..], due);
    if Periodic(x.trigger) {
      FilterInsertDropped(l.Get(q)[1..], Rearm(x, now).value, due);
    }
  }

  lemma AllShrinks(l: Lists, now: Clocks, q: Queue, x: Item, rest: Lists, l': Lists)
    requires Valid(l) && ReadyEvent(l, now) == Found(x, rest) && Redone(l, now, q, x, rest, l') && !WrapsBehind(x, now)
    ensures |DueAll(l', now)| < |DueAll(l, now)|
  {
    ReadyIsFirstDue(l, now);
    RedoneDue(l, now, q, x, rest, l');
    if Periodic(x.trigger) {
      PlaceKeepsDue(rest, x, now);
    }
  }

  /** One that wraps behind on one of the first two lists makes its list late, */
  lemma WrapIsNearer(l: Lists, now: Clocks, q: Queue, x: Item, rest: Lists, l': Lists)
    requires Valid(l) && Redone(l, now, q, x, rest, l') && Rank(q) <= 1 && WrapsBehind(x, now) && !Late(l, CycleQ, now)
    ensures StageOf(l', now) < StageOf(l, now)
  {
    RedoneElements(l, now, q, x, rest, l');
    ReadyIsNotLate(l, now, q, x, rest);
    assert Late(l', q, now);
  }

  /** and one that does not leaves the late nanosecond list late. */
  lemma LateShrinks(l: Lists, now: Clocks, q: Queue, x: Item, rest: Lists, l': Lists)
    requires Valid(l) && Redone(l, now, q, x, rest, l') && !WrapsBehind(x, now)
    requires Late(l, NanosecondQ, now) && !Late(l, CycleQ, now)
    ensures StageOf(l', now) <= 1 && |DueOn(l', CycleQ, now)| < |DueOn(l, CycleQ, now)|
  {
    LateBefore(l, now, q, NanosecondQ);
    ReadyIsNotLate(l, now, q, x, rest);
    assert q == CycleQ;
    DueShrinks(l, now, q, x, rest, l');
    RedoneElements(l, now, q, x, rest, l');
  }

  /** With the counter of the stuck items at its maximum an item of the largest period comes up in the end. */
  lemma SaturatedShrinks(l: Lists, now: Clocks, q: Queue, x: Item, rest: Lists, l': Lists, p: Queue)
    requires Valid(l) && Redone(l, now, q, x, rest, l') && p == StuckQ(l, now)
    requires Saturated(l, now) && FateOf(l, now) != Loops
    ensures DueBefore(l', now, p) + Ahead(l'.Get(p)) < DueBefore(l, now, p) + Ahead(l.Get(p))
  {
    if q == p {
      RoundStays(l, now, q, x, rest, l');
      OthersDue(l, now, q, x, rest, l');
    } else {
      EarlierGoes(l, now, q, x, rest, l', p);
      DueShrinks(l, now, q, x, rest, l');
      OthersDue(l, now, q, x, rest, l');
    }
  }

  lemma OthersDue(l: Lists, now: Clocks, q: Queue, x: Item, rest: Lists, l': Lists)
    requires Redone(l, now, q, x, rest, l')
    ensures forall p: Queue :: p != q ==> l'.Get(p) == l.Get(p) && DueOn(l', p, now) == DueOn(l, p, now)
  {
    RedoneElements(l, now, q, x, rest, l');
  }

  /** Until then an item of an earlier list goes, and it does not wrap. */
  lemma EarlierGoes(l: Lists, now: Clocks, q: Queue, x: Item, rest: Lists, l': Lists, p: Queue)
    requires Valid(l) && Redone(l, now, q, x, rest, l') && Saturated(l, now) && p == StuckQ(l, now) && q != p
    ensures Rank(q) < Rank(p) && !WrapsBehind(x, now)
  {
    StuckIsOn(l, now);
    RedoneDue(l, now, q, x, rest, l');
    assert IsStuck(x, q, now) ==> StuckOn(l, q, now) && (Rank(q) <= 1 ==> Doom(x, q, now));
  }

  lemma StuckIsOn(l: Lists, now: Clocks)
    requires Stuck(l, now) && !Doomed(l, now) && Valid(l)
    ensures StuckOn(l, StuckQ(l, now), now)
  {
    var q: Queue, x :| x in l.Get(q) && IsStuck(x, q, now);
    assert ListValid(l.Get(q), q);
    assert StuckOn(l, q, now) && (Rank(q) <= 1 ==> Doom(x, q, now));
  }

  lemma SaturatedIsNearer(l: Lists, now: Clocks, q: Queue, x: Item, rest: Lists, l': Lists)
    requires Valid(l) && Redone(l, now, q, x, rest, l') && Saturated(l, now) && FateOf(l, now) != Loops
    ensures Nearer(l', l, now)
  {
    SortKept(l, now, q, x, rest, l');
    SaturatedShrinks(l, now, q, x, rest, l', StuckQ(l, now));
    NotLate(l, now);
    NotLate(l', now);
  }

  lemma NotLate(l: Lists, now: Clocks)
    requires !Doomed(l, now)
    ensures StageOf(l, now) == 2
  {
    assert forall q: Queue, x: Item :: x.trigger != Now && x.time < now.Of(q) ==> Doom(x, q, now);
  }

  lemma DispatchIsNearer(l: Lists, now: Clocks, q: Queue, x: Item, rest: Lists, l': Lists)
    requires Valid(l) && ReadyEvent(l, now) == Found(x, rest) && Redone(l, now, q, x, rest, l')
    requires FateOf(l, now) != Loops
    ensures Nearer(l', l, now)
  {
    FateKept(l, now, q, x, rest, l');
    if Late(l, CycleQ, now) {
      ImmediateGoes(l, now, q, x, rest, l');
    } else if Saturated(l, now) {
      SaturatedIsNearer(l, now, q, x, rest, l');
    } else if WrapsBehind(x, now) {
      WrapsEarly(l, now, q, x, rest, l');
      WrapIsNearer(l, now, q, x, rest, l');
    } else if Late(l, NanosecondQ, now) {
      LateShrinks(l, now, q, x, rest, l');
    } else {
      AllShrinks(l, now, q, x, rest, l');
    }
  }

  lemma WrapsEarly(l: Lists, now: Clocks, q: Queue, x: Item, rest: Lists, l': Lists)
    requires Redone(l, now, q, x, rest, l') && WrapsBehind(x, now) && FateOf(l, now) != Loops && !Saturated(l, now)
    ensures Rank(q) <= 1
  {
    RedoneDue(l, now, q, x, rest, l');
    if Rank(q) > 1 {
      HeadDecides(l, now, q, x, rest);
    }
  }

  // ----- steps

  /** A state of a pass that is told what it is in for. */
  ghost predicate InFate(s: State, now: Clocks, f: Fate)
  {
    s.phase == Dispatching(now) && Shape(s) && FateOf(s.lists, now) == f
  }

  /** A refused request apart, a pass with this fate ends in this phase. */
  predicate EndsAs(f: Fate, p: Phase, now: Clocks)
  {
    || p == Aborted(NowWithTime)
    || match f
       case Dying => p.Aborted?
       case Completes => p == Informing(now)
       case Loops => false
  }

  lemma NextFate(s: State, now: Clocks, e: Inputs, t: State, f: Fate)
    requires InFate(s, now, f) && t == Step(s, e)
    ensures t.phase == Dispatching(now) ==> InFate(t, now, f) && (f != Loops ==> Nearer(t.lists, s.lists, now))
    ensures t.phase != Dispatching(now) ==> EndsAs(f, t.phase, now)
    ensures f == Loops && Harmless(e.requests) ==> t.phase == Dispatching(now)
  {
    StepShape(s, e);
    NothingIsFate(s.lists, now);
    if ReadyEvent(s.lists, now).Found? {
      var x, rest := ReadyEvent(s.lists, now).item, ReadyEvent(s.lists, now).rest;
      var q := Look(s.lists, now);
      DispatchFate(s, x, rest, now, e.requests);
      if Redo(x, rest, now).Ok? {
        FateKept(s.lists, now, q, x, rest, Redo(x, rest, now).value);
        if f != Loops {
          DispatchIsNearer(s.lists, now, q, x, rest, Redo(x, rest, now).value);
        }
      } else {
        FailureIsFate(s.lists, now, q, x, rest);
      }
    }
  }

  // ----- the end of a pass

  /** The pass that dispatches in state `s` takes steps `k` up to `end` and no more. */
  ghost predicate PassEnds(s: State, now: Clocks, env: nat -> Inputs, k: nat, end: nat)
    decreases end - k
  {
    k < end
    && var t := Step(s, env(k));
       if end == k + 1 then t.phase != Dispatching(now)
       else t.phase == Dispatching(now) && PassEnds(t, now, env, k + 1, end)
  }

  ghost predicate Ends(s: State, now: Clocks, env: nat -> Inputs, k: nat)
  {
    exists end :: PassEnds(s, now, env, k, end)
  }

  lemma EndsLater(s: State, now: Clocks, env: nat -> Inputs, k: nat)
    requires Step(s, env(k)).phase == Dispatching(now) && Ends(Step(s, env(k)), now, env, k + 1)
    ensures Ends(s, now, env, k)
  {
    var end :| PassEnds(Step(s, env(k)), now, env, k + 1, end);
    assert PassEnds(s, now, env, k, end);
  }

  lemma EndsNow(s: State, now: Clocks, env: nat -> Inputs, k: nat)
    requires Step(s, env(k)).phase != Dispatching(now)
    ensures Ends(s, now, env, k)
  {
    assert PassEnds(s, now, env, k, k + 1);
  }

  /** If a pass ends, it ends as the lists it begins with say; */
  lemma {:induction false} PassEndsAsFated(s: State, now: Clocks, env: nat -> Inputs, k: nat, end: nat, f: Fate)
    requires InFate(s, now, f) && PassEnds(s, now, env, k, end)
    ensures EndsAs(f, After(s, env, k, end).phase, now)
    decreases end - k
  {
    var t := Step(s, env(k));
    AfterFirst(s, env, k, end);
    NextFate(s, now, env(k), t, f);
    if k + 1 < end {
      PassEndsAsFated(t, now, env, k + 1, end, f);
    }
  }

  lemma {:induction false} EndComes(s: State, now: Clocks, env: nat -> Inputs, k: nat, f: Fate)
    requires InFate(s, now, f) && f != Loops
    ensures Ends(s, now, env, k)
    decreases StageOf(s.lists, now), DueIn(s.lists, now, StageOf(s.lists, now))
  {
    var t := Step(s, env(k));
    NextFate(s, now, env(k), t, f);
    if t.phase == Dispatching(now) {
      EndComes(t, now, env, k + 1, f);
      EndsLater(s, now, env, k);
    } else {
      EndsNow(s, now, env, k);
    }
  }

  lemma {:induction false} RefusalKeeps(s: State, rs: seq<Request>)
    requires Running(s) && !Harmless(rs)
    ensures !Running(EnqueueAll(s, rs))
    decreases rs
  {
    if Running(Enqueue(s, rs[0])) {
      assert !Harmless(rs[1..]) by {
        var i :| 0 <= i < |rs| && rs[i].CommandRequest? && rs[i].trigger == Now && rs[i].n != 0;
        assert rs[1..][i - 1] == rs[i];
      }
      RefusalKeeps(Enqueue(s, rs[0]), rs[1..]);
    } else {
      AbortedStays(Enqueue(s, rs[0]), rs[1..]);
    }
  }

  /** A refused request ends any pass. */
  lemma RefusalEnds(s: State, now: Clocks, e: Inputs)
    requires s.phase == Dispatching(now) && !Harmless(e.requests)
    ensures Step(s, e).phase != Dispatching(now)
  {
    if ReadyEvent(s.lists, now).Found? {
      RefusalKeeps(s.(lists := ReadyEvent(s.lists, now).rest), e.requests);
    }
  }

  lemma {:induction false} RefusedEnds(s: State, now: Clocks, env: nat -> Inputs, k: nat, i: nat)
    requires s.phase == Dispatching(now) && k <= i && !Harmless(env(i).requests)
    ensures Ends(s, now, env, k)
    decreases i - k
  {
    if Step(s, env(k)).phase != Dispatching(now) {
      EndsNow(s, now, env, k);
    } else {
      if k == i {
        RefusalEnds(s, now, env(k));
      }
      RefusedEnds(Step(s, env(k)), now, env, k + 1, i);
      EndsLater(s, now, env, k);
    }
  }

  ghost predicate HarmlessFrom(env: nat -> Inputs, k: nat)
  {
    forall i: nat :: k <= i ==> Harmless(env(i).requests)
  }

  /** otherwise it dispatches for ever. */
  lemma {:induction false} LoopsForEver(s: State, now: Clocks, env: nat -> Inputs, k: nat, end: nat)
    requires InFate(s, now, Loops) && HarmlessFrom(env, k) && k <= end
    ensures After(s, env, k, end).phase == Dispatching(now)
    decreases end - k
  {
    if k < end {
      NextFate(s, now, env(k), Step(s, env(k)), Loops);
      AfterFirst(s, env, k, end);
      LoopsForEver(Step(s, env(k)), now, env, k + 1, end);
    }
  }

  /** and it ends exactly if the lists do not say that it loops, or a request is refused. */
  lemma PassEndsIffFated(s: State, now: Clocks, env: nat -> Inputs, k: nat)
    requires s.phase == Dispatching(now) && Shape(s)
    ensures Ends(s, now, env, k) <==> FateOf(s.lists, now) != Loops || !HarmlessFrom(env, k)
  {
    if FateOf(s.lists, now) != Loops {
      EndComes(s, now, env, k, FateOf(s.lists, now));
    } else if !HarmlessFrom(env, k) {
      var i: nat :| k <= i && !Harmless(env(i).requests);
      RefusedEnds(s, now, env, k, i);
    } else {
      LoopHasNoEnd(s, now, env, k);
    }
  }

  lemma LoopHasNoEnd(s: State, now: Clocks, env: nat -> Inputs, k: nat)
    requires InFate(s, now, Loops) && HarmlessFrom(env, k)
    ensures !Ends(s, now, env, k)
  {
    if end :| PassEnds(s, now, env, k, end) {
      LoopsForEver(s, now, env, k, end);
      EndIsOver(s, now, env, k, end);
    }
  }

  lemma {:induction false} EndIsOver(s: State, now: Clocks, env: nat -> Inputs, k: nat, end: nat)
    requires PassEnds(s, now, env, k, end)
    ensures After(s, env, k, end).phase != Dispatching(now)
    decreases end - k
  {
    AfterFirst(s, env, k, end);
    if k + 1 < end {
      EndIsOver(Step(s, env(k)), now, env, k + 1, end);
    }
  }

  /** In particular an item that is doomed ends the pass in a failed assertion, whatever the surroundings do. */
  lemma DoomedPassDies(s: State, now: Clocks, env: nat -> Inputs, k: nat)
    requires s.phase == Dispatching(now) && Shape(s) && Doomed(s.lists, now)
    ensures exists end :: PassEnds(s, now, env, k, end) && After(s, env, k, end).phase.Aborted?
  {
    EndComes(s, now, env, k, Dying);
    var end :| PassEnds(s, now, env, k, end);
    PassEndsAsFated(s, now, env, k, end, Dying);
  }
}
