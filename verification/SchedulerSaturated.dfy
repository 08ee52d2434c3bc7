/**
  A list whose counter is at its maximum.  Every item of it is due, a periodic item gets its own period as its next
  time, and only the largest period gives the present, which fails an assertion.
 */
module SchedulerSaturated {
  import opened UInt64
  import opened WorkItems
  import opened ScheduleSpec

  predicate Largest(x: Item)
  {
    Periodic(x.trigger) && x.period == MAX
  }

  /**
    The list goes round without an item of the largest period ever being dispatched: a shorter period, of which `least`
    is the least one met so far, puts its item ahead of the first of them.
   */
  predicate GoesRound(s: seq<Item>, least: u64)
  {
    if s == [] then least < MAX
    else if Largest(s[0]) then least < s[0].time
    else GoesRound(s[1..], if Periodic(s[0].trigger) && s[0].period < least then s[0].period else least)
  }

  /** How many items are dispatched before the first of the largest period, if no others are put ahead of it. */
  function Ahead(s: seq<Item>): nat
  {
    if s == [] || Largest(s[0]) then 0 else 1 + Ahead(s[1..])
  }

  lemma SaturatedAlign(period: u64)
    requires 0 < period < MAX
    ensures AlignAfter(MAX, 1, period) == period
  {
    DivModUnique(MAX + 1 + period, MODULUS, 1, period);
    DivModUnique(period, period, 1, 0);
  }

  /** A periodic item goes from the head to the place its period gives it; that changes nothing. */
  lemma {:induction false} RoundKept(s: seq<Item>, y: Item, least: u64)
    requires Periodic(y.trigger) && y.time == y.period < MAX
    ensures GoesRound(InsertOrdered(s, y), least) <==> GoesRound(s, if y.period < least then y.period else least)
  {
    if s == [] || s[0].time > y.time {
      assert ([y] + s)[1..] == s;
    } else {
      var t := InsertOrdered(s[1..], y);
      assert ([s[0]] + t)[1..] == t;
      if !Largest(s[0]) {
        RoundKept(s[1..], y, if Periodic(s[0].trigger) && s[0].period < least then s[0].period else least);
      }
    }
  }

  /** What is sorted behind a period does not come before it. */
  lemma {:induction false} LaterGoesRound(s: seq<Item>, least: u64)
    requires Sorted(s) && least < MAX && (s != [] ==> least < s[0].time)
    ensures GoesRound(s, least)
  {
    if s != [] && !Largest(s[0]) {
      assert |s| > 1 ==> s[0].time <= s[1].time;
      LaterGoesRound(s[1..], if Periodic(s[0].trigger) && s[0].period < least then s[0].period else least);
    }
  }

  /** If the list does not go round, an item re-armed goes behind the first of the largest period. */
  lemma {:induction false} GoesBehind(s: seq<Item>, y: Item, least: u64)
    requires Sorted(s) && !GoesRound(s, least) && least <= y.time < MAX
    ensures Ahead(InsertOrdered(s, y)) == Ahead(s)
  {
    if s == [] || s[0].time > y.time {
      LaterGoesRound(s, least);
    } else {
      var t := InsertOrdered(s[1..], y);
      assert ([s[0]] + t)[1..] == t;
      if !Largest(s[0]) {
        GoesBehind(s[1..], y, if Periodic(s[0].trigger) && s[0].period < least then s[0].period else least);
      }
    }
  }

  /** One dispatch from the list. */
  lemma SaturatedDispatch(s: seq<Item>, y: Item)
    requires s != [] && Sorted(s) && !Largest(s[0])
    requires Periodic(s[0].trigger) ==> y == s[0].(time := s[0].period)
    ensures var t := if Periodic(s[0].trigger) then InsertOrdered(s[1..], y) else s[1..];
            && (GoesRound(t, MAX) <==> GoesRound(s, MAX))
            && (!GoesRound(s, MAX) ==> Ahead(t) < Ahead(s))
  {
    if Periodic(s[0].trigger) {
      RoundKept(s[1..], y, MAX);
      if !GoesRound(s, MAX) {
        GoesBehind(s[1..], y, y.period);
      }
    }
  }
}
