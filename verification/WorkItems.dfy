/**
  Work items and the pure specification of the intrusive worklist operations: what each of them does
  to the sequence of items a list holds.
 */
module WorkItems {
  import opened UInt64

  datatype Trigger =
    | NanosecondOnce | NanosecondPeriod
    | CycleOnce | CyclePeriod
    | InstOnce | InstPeriod
    | MacroInstOnce | MacroInstPeriod
    | Now | Never | PacketOnce

  /** The five kinds of progress item that clear a list, and all the others. */
  datatype ProgressKind = ClearNanosecond | ClearCycle | ClearInst | ClearMacroInst | ClearPacket | Report

  /** What an item does when it is dispatched, as far as the scheduler can tell. */
  datatype Command = Start | Stop | Exit | Progress(kind: ProgressKind) | Other

  /**
    The value of a work item.  `id` stands for the identity of the heap object; ids are handed out in
    order of creation.
   */
  datatype Item = Item(id: nat, command: Command, trigger: Trigger, time: u64, period: u64)

  predicate Periodic(t: Trigger)
  {
    t == CyclePeriod || t == InstPeriod || t == MacroInstPeriod || t == NanosecondPeriod
  }

  /** What the constructor of a work item asserts. */
  predicate WellFormed(x: Item)
  {
    x.trigger == Now ==> x.time == 0
  }

  predicate Sorted(s: seq<Item>)
  {
    forall i, j :: 0 <= i < j < |s| ==> s[i].time <= s[j].time
  }

  // ----- ordered insertion

  function InsertOrdered(s: seq<Item>, x: Item): seq<Item>
  {
    if s == [] || s[0].time > x.time then [x] + s
    else [s[0]] + InsertOrdered(s[1..], x)
  }

  /** `k` is the position at which a stable sorted insertion of `x` puts it. */
  predicate StablePosition(s: seq<Item>, x: Item, k: nat)
  {
    k <= |s|
    && (forall i :: 0 <= i < k ==> s[i].time <= x.time)
    && (forall i :: k <= i < |s| ==> x.time < s[i].time)
  }

  /** The insertion point found by a scan of a list that need not be sorted. */
  lemma {:induction false} InsertAt(s: seq<Item>, x: Item, k: nat)
    requires k <= |s|
    requires forall i :: 0 <= i < k ==> s[i].time <= x.time
    requires k < |s| ==> x.time < s[k].time
    ensures InsertOrdered(s, x) == s[..k] + [x] + s[k..]
  {
    if k > 0 {
      InsertAt(s[1..], x, k - 1);
      assert s[..k] == [s[0]] + s[1..][..k - 1];
      assert s[k..] == s[1..][k - 1..];
    }
  }

  lemma {:induction false} PositionExists(s: seq<Item>, x: Item) returns (k: nat)
    requires Sorted(s)
    ensures StablePosition(s, x, k)
  {
    if s == [] || s[0].time > x.time {
      k := 0;
    } else {
      k := PositionExists(s[1..], x);
      k := k + 1;
    }
  }

  /**
    On a sorted list, insertion puts `x` behind every item that is due no later and ahead of every
    item that is due later, moves nothing else, and leaves the list sorted.
   */
  lemma InsertIsStable(s: seq<Item>, x: Item) returns (k: nat)
    requires Sorted(s)
    ensures StablePosition(s, x, k)
    ensures InsertOrdered(s, x) == s[..k] + [x] + s[k..]
    ensures Sorted(InsertOrdered(s, x))
  {
    k := PositionExists(s, x);
    InsertAt(s, x, k);
  }

  /** Insertion, seen element by element. */
  lemma {:induction false} InsertElements(s: seq<Item>, x: Item)
    ensures |InsertOrdered(s, x)| == |s| + 1
    ensures forall y :: y in InsertOrdered(s, x) <==> y == x || y in s
  {
    if s != [] && s[0].time <= x.time {
      InsertElements(s[1..], x);
    }
  }

  // ----- filters

  /** The items of `s` that satisfy `keep`, in order. */
  ghost function Filter(s: seq<Item>, keep: Item -> bool): seq<Item>
  {
    if s == [] then []
    else (if keep(s[0]) then [s[0]] else []) + Filter(s[1..], keep)
  }

  lemma {:induction false} FilterElements(s: seq<Item>, keep: Item -> bool)
    ensures forall y :: y in Filter(s, keep) <==> y in s && keep(y)
    ensures |Filter(s, keep)| <= |s|
  {
    if s != [] {
      FilterElements(s[1..], keep);
    }
  }

  lemma {:induction false} FilterNone(s: seq<Item>, keep: Item -> bool)
    requires forall x :: x in s ==> !keep(x)
    ensures Filter(s, keep) == []
  {
    if s != [] {
      assert s[0] in s;
      FilterNone(s[1..], keep);
    }
  }

  lemma {:induction false} FilterSame(s: seq<Item>, p: Item -> bool, q: Item -> bool)
    requires forall x: Item :: p(x) == q(x)
    ensures Filter(s, p) == Filter(s, q)
  {
    if s != [] {
      FilterSame(s[1..], p, q);
    }
  }

  lemma {:induction false} FilterSorted(s: seq<Item>, keep: Item -> bool)
    requires Sorted(s)
    ensures Sorted(Filter(s, keep))
  {
    if s != [] {
      var rest := Filter(s[1..], keep);
      FilterSorted(s[1..], keep);
      FilterElements(s[1..], keep);
      forall i | 0 <= i < |rest|
        ensures s[0].time <= rest[i].time
      {
        assert rest[i] in s[1..];
        var j :| 0 <= j < |s[1..]| && s[1..][j] == rest[i];
        assert s[j + 1] == rest[i];
      }
    }
  }

  /** Inserting an item that the filter drops leaves the filtered list alone. */
  lemma {:induction false} FilterInsertDropped(s: seq<Item>, x: Item, keep: Item -> bool)
    requires !keep(x)
    ensures Filter(InsertOrdered(s, x), keep) == Filter(s, keep)
  {
    if s == [] || s[0].time > x.time {
      assert ([x] + s)[1..] == s;
    } else {
      FilterInsertDropped(s[1..], x, keep);
      assert InsertOrdered(s, x)[1..] == InsertOrdered(s[1..], x);
    }
  }

  lemma {:induction false} FilterSnoc(s: seq<Item>, x: Item, keep: Item -> bool)
    ensures Filter(s + [x], keep) == Filter(s, keep) + if keep(x) then [x] else []
  {
    if s == [] {
      assert s + [x] == [x] && [x][1..] == [];
    } else {
      assert (s + [x])[1..] == s[1..] + [x];
      FilterSnoc(s[1..], x, keep);
    }
  }

  predicate IsProgress(x: Item)
  {
    x.command.Progress?
  }

  /** What clearing progress items leaves behind, and what it takes away. */
  ghost function WithoutProgress(s: seq<Item>): seq<Item>
  {
    Filter(s, (x: Item) => !IsProgress(x))
  }

  ghost function OnlyProgress(s: seq<Item>): seq<Item>
  {
    Filter(s, (x: Item) => IsProgress(x))
  }

  /** The first `i` items of `s` have been looked at; `j` of them were kept and `c` is what is left. */
  ghost predicate ClearedTo(c: seq<Item>, s: seq<Item>, i: nat, j: nat)
  {
    i <= |s| && j <= |c| && c[..j] == WithoutProgress(s[..i]) && c[j..] == s[i..]
  }

  lemma StillToLookAt(c: seq<Item>, s: seq<Item>, i: nat, j: nat)
    requires ClearedTo(c, s, i, j)
    ensures |c| - j == |s| - i
  {
    assert |c[j..]| == |s[i..]|;
  }

  lemma ClearStep(c: seq<Item>, s: seq<Item>, i: nat, j: nat)
    requires ClearedTo(c, s, i, j) && i < |s|
    ensures j < |c| && c[j] == s[i]
    ensures IsProgress(s[i]) ==> ClearedTo(c[..j] + c[j + 1..], s, i + 1, j)
    ensures !IsProgress(s[i]) ==> ClearedTo(c, s, i + 1, j + 1)
  {
    assert |c[j..]| == |s[i..]| && c[j..][0] == s[i..][0];
    assert c[j + 1..] == c[j..][1..] && s[i + 1..] == s[i..][1..];
    assert s[..i + 1] == s[..i] + [s[i]];
    FilterSnoc(s[..i], s[i], (x: Item) => !IsProgress(x));
    if IsProgress(s[i]) {
      var d := c[..j] + c[j + 1..];
      assert d[..j] == c[..j] && d[j..] == c[j + 1..];
    } else {
      assert c[..j + 1] == c[..j] + [c[j]];
    }
  }

  lemma ClearedAll(c: seq<Item>, s: seq<Item>, j: nat)
    requires ClearedTo(c, s, |s|, j)
    ensures c == WithoutProgress(s) && j == |c|
  {
    assert |c[j..]| == |s[|s|..]| == 0;
    assert c[..j] == c && s[..|s|] == s;
  }

  // ----- identities

  /** How many items of a list have identity `id`. */
  ghost function Count(s: seq<Item>, id: nat): nat
  {
    if s == [] then 0 else (if s[0].id == id then 1 else 0) + Count(s[1..], id)
  }

  lemma {:induction false} CountConcat(s: seq<Item>, t: seq<Item>, id: nat)
    ensures Count(s + t, id) == Count(s, id) + Count(t, id)
  {
    if s == [] {
      assert s + t == t;
    } else {
      assert (s + t)[1..] == s[1..] + t;
      CountConcat(s[1..], t, id);
    }
  }

  lemma {:induction false} CountInsert(s: seq<Item>, x: Item, id: nat)
    ensures Count(InsertOrdered(s, x), id) == Count(s, id) + if x.id == id then 1 else 0
  {
    if s == [] || s[0].time > x.time {
      assert ([x] + s)[1..] == s;
    } else {
      CountInsert(s[1..], x, id);
      assert InsertOrdered(s, x)[1..] == InsertOrdered(s[1..], x);
    }
  }

  lemma {:induction false} CountClear(s: seq<Item>, id: nat)
    ensures Count(s, id) == Count(WithoutProgress(s), id) + Count(OnlyProgress(s), id)
  {
    if s != [] {
      CountClear(s[1..], id);
      CountConcat(if IsProgress(s[0]) then [] else [s[0]], WithoutProgress(s[1..]), id);
      CountConcat(if IsProgress(s[0]) then [s[0]] else [], OnlyProgress(s[1..]), id);
    }
  }

  lemma {:induction false} CountPositive(s: seq<Item>, id: nat)
    ensures Count(s, id) > 0 <==> exists x :: x in s && x.id == id
  {
    if s != [] {
      CountPositive(s[1..], id);
      if s[0].id == id {
        assert s[0] in s;
      }
    }
  }
}
