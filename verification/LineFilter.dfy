/**
  Fetch callbacks that hear of a cache line only when it is entered: the mask that cuts an address down to its line,
  and the filter that compares lines.
 */
module LineFilter {
  import UInt64
  import opened Warmup

  const WORD: nat := 0x1_0000_0000_0000_0000

  // ----- words and their bits

  /** The bitwise and of two numbers. */
  function And(a: nat, b: nat): nat
  {
    if a == 0 || b == 0 then 0 else 2 * And(a / 2, b / 2) + (if a % 2 == 1 && b % 2 == 1 then 1 else 0)
  }

  /** The bitwise complement of a 64-bit word. */
  function Not64(a: nat): nat
    requires a < WORD
  {
    WORD - 1 - a
  }

  function Pow2(k: nat): (p: nat)
    ensures p > 0
  {
    if k == 0 then 1 else 2 * Pow2(k - 1)
  }

  lemma {:induction false} AndSelf(a: nat)
    ensures And(a, a) == a
    decreases a
  {
    if a > 0 {
      AndSelf(a / 2);
    }
  }

  lemma {:induction false} AndAllOnes(a: nat, w: nat)
    requires a < Pow2(w)
    ensures And(a, Pow2(w) - 1) == a
    decreases w
  {
    if w > 0 && a > 0 {
      AndAllOnes(a / 2, w - 1);
      assert (Pow2(w) - 1) / 2 == Pow2(w - 1) - 1 && (Pow2(w) - 1) % 2 == 1;
    }
  }

  /** Rounding half the number down to half the multiple, and putting the last bit's place back. */
  lemma HalfRounds(a: nat, p: nat)
    requires p > 0
    ensures 2 * (a / 2 - (a / 2) % p) == a - a % (2 * p)
  {
    var q, r := (a / 2) / p, (a / 2) % p;
    assert a / 2 == p * q + r;
    var s := 2 * r + a % 2;
    assert a == q * (2 * p) + s by {
      assert a == 2 * (a / 2) + a % 2;
      assert 2 * (p * q) == q * (2 * p);
    }
    assert 0 <= s < 2 * p;
    UInt64.DivModUnique(a, 2 * p, q, s);
  }

  lemma AndEven(a: nat, m: nat)
    ensures And(a, 2 * m) == 2 * And(a / 2, m)
  {
  }

  /** A mask of w - k ones followed by k zeros rounds down to a multiple of 2^k. */
  lemma {:induction false} MaskRounds(a: nat, w: nat, k: nat)
    requires k <= w && a < Pow2(w)
    ensures Pow2(k) <= Pow2(w) && And(a, Pow2(w) - Pow2(k)) == a - a % Pow2(k)
    decreases w
  {
    if k == 0 {
      AndAllOnes(a, w);
      assert a % 1 == 0;
    } else {
      MaskRounds(a / 2, w - 1, k - 1);
      HalfRounds(a, Pow2(k - 1));
      AndEven(a, Pow2(w - 1) - Pow2(k - 1));
    }
  }

  lemma {:induction false} PowerPasses(k: nat)
    ensures And(Pow2(k), Pow2(k) - 1) == 0
  {
    if k > 0 {
      PowerPasses(k - 1);
      var n := Pow2(k);
      assert n % 2 == 0 && n / 2 == Pow2(k - 1) && (n - 1) / 2 == Pow2(k - 1) - 1;
    }
  }

  lemma OddFails(n: nat)
    requires n > 1 && n % 2 == 1
    ensures And(n, n - 1) != 0
  {
    assert (n - 1) / 2 == n / 2;
    AndSelf(n / 2);
  }

  lemma {:induction false} PassesIsPower(n: nat) returns (k: nat)
    requires n > 0 && And(n, n - 1) == 0
    ensures n == Pow2(k)
    decreases n
  {
    if n == 1 {
      k := 0;
    } else if n % 2 == 0 {
      assert (n - 1) / 2 == n / 2 - 1;
      assert And(n, n - 1) == 2 * And(n / 2, n / 2 - 1);
      k := PassesIsPower(n / 2);
      k := k + 1;
    } else {
      OddFails(n);
      assert false;
    }
  }

  /** The test for a power of two: no bit survives the and with the predecessor. */
  lemma PowerTest(n: nat)
    requires n > 0
    ensures And(n, n - 1) == 0 <==> exists k: nat :: n == Pow2(k)
  {
    if And(n, n - 1) == 0 {
      var k := PassesIsPower(n);
    }
    if k: nat :| n == Pow2(k) {
      PowerPasses(k);
    }
  }

  predicate IsPowerOfTwo(n: nat)
  {
    n != 0 && And(n, n - 1) == 0
  }

  /** The line of an address for a line size. */
  function Line(va: nat, lineBytes: nat): nat
    requires lineBytes > 0
  {
    va - va % lineBytes
  }

  lemma {:induction false} PowMonotone(k: nat, w: nat)
    requires k <= w
    ensures Pow2(k) <= Pow2(w)
    decreases w
  {
    if k < w {
      PowMonotone(k, w - 1);
    }
  }

  lemma WordIsPower()
    ensures Pow2(64) == WORD
  {
    assert Pow2(8) == 256;
    assert Pow2(16) == 256 * Pow2(8);
    assert Pow2(24) == 256 * Pow2(16);
    assert Pow2(32) == 256 * Pow2(24);
    assert Pow2(40) == 256 * Pow2(32);
    assert Pow2(48) == 256 * Pow2(40);
    assert Pow2(56) == 256 * Pow2(48);
    assert Pow2(64) == 256 * Pow2(56);
  }

  /** The mask made from a line size takes every address to its line. */
  lemma MaskIsLine(va: nat, lineBytes: nat)
    requires va < WORD && lineBytes < WORD && IsPowerOfTwo(lineBytes)
    ensures And(va, Not64(lineBytes - 1)) == Line(va, lineBytes)
  {
    PowerTest(lineBytes);
    var k: nat :| lineBytes == Pow2(k);
    WordIsPower();
    if k > 64 {
      PowMonotone(64, k);
    }
    MaskRounds(va, 64, k);
  }

  // ----- the filter

  function AddressOf(e: Event): nat
  {
    if e.IFetch? then e.va else 0
  }

  /** The line before the fetch numbered i: that of the fetch before it, and line 0 before the first. */
  function LineBefore(fetches: seq<Event>, i: nat, lineBytes: nat): nat
    requires i <= |fetches| && lineBytes > 0
  {
    if i == 0 then 0 else Line(AddressOf(fetches[i - 1]), lineBytes)
  }

  predicate EntersLine(fetches: seq<Event>, i: nat, lineBytes: nat)
    requires i < |fetches| && lineBytes > 0
  {
    Line(AddressOf(fetches[i]), lineBytes) != LineBefore(fetches, i, lineBytes)
  }

  /** Of the first n fetches those that enter a line. */
  function Entering(fetches: seq<Event>, n: nat, lineBytes: nat): seq<Event>
    requires n <= |fetches| && lineBytes > 0
  {
    if n == 0 then []
    else if EntersLine(fetches, n - 1, lineBytes) then Entering(fetches, n - 1, lineBytes) + [fetches[n - 1]]
    else Entering(fetches, n - 1, lineBytes)
  }

  /** All fetches that enter a line. */
  function PassedOn(fetches: seq<Event>, lineBytes: nat): seq<Event>
    requires lineBytes > 0
  {
    Entering(fetches, |fetches|, lineBytes)
  }

  /** The last fetch passed on is on the line of the last fetch. */
  lemma {:induction false} LastEnteredLine(fetches: seq<Event>, n: nat, lineBytes: nat)
    requires n <= |fetches| && lineBytes > 0
    ensures var e := Entering(fetches, n, lineBytes);
            LineBefore(fetches, n, lineBytes) == if e == [] then 0 else Line(AddressOf(e[|e| - 1]), lineBytes)
  {
    if n > 0 {
      LastEnteredLine(fetches, n - 1, lineBytes);
    }
  }

  /** Consecutive fetches passed on are never on one line, and the first is not on line 0. */
  lemma {:induction false} NeighboursDiffer(fetches: seq<Event>, n: nat, lineBytes: nat, i: nat)
    requires n <= |fetches| && lineBytes > 0 && i < |Entering(fetches, n, lineBytes)|
    ensures var e := Entering(fetches, n, lineBytes);
            Line(AddressOf(e[i]), lineBytes) != if i == 0 then 0 else Line(AddressOf(e[i - 1]), lineBytes)
  {
    LastEnteredLine(fetches, n - 1, lineBytes);
    if i < |Entering(fetches, n - 1, lineBytes)| {
      NeighboursDiffer(fetches, n - 1, lineBytes, i);
    }
  }

  lemma {:induction false} EnteringPrefix(fetches: seq<Event>, e: Event, n: nat, lineBytes: nat)
    requires n <= |fetches| && lineBytes > 0
    ensures Entering(fetches + [e], n, lineBytes) == Entering(fetches, n, lineBytes)
  {
    if n > 0 {
      EnteringPrefix(fetches, e, n - 1, lineBytes);
    }
  }

  /** One more fetch is passed on if it leaves the line of the last one. */
  lemma PassedOnNext(fetches: seq<Event>, e: Event, lineBytes: nat)
    requires lineBytes > 0
    ensures var before, line := LineBefore(fetches, |fetches|, lineBytes), Line(AddressOf(e), lineBytes);
            PassedOn(fetches + [e], lineBytes)
            == if line != before then PassedOn(fetches, lineBytes) + [e] else PassedOn(fetches, lineBytes)
    ensures LineBefore(fetches + [e], |fetches| + 1, lineBytes) == Line(AddressOf(e), lineBytes)
  {
    EnteringPrefix(fetches, e, |fetches|, lineBytes);
  }

  /** The calls that the clients have got. */
  class Trace {
    var calls: seq<Call>

    constructor ()
      ensures calls == []
    {
      calls := [];
    }
  }

  /** A registration for fetches. */
  class FetchCallback {
    const client: nat
    const lineBytes: nat
    const lineMask: nat
    var lastVA: nat

    ghost predicate Valid()
    {
      IsPowerOfTwo(lineBytes) && lineBytes < WORD && lineMask == Not64(lineBytes - 1)
    }

    /** Both conditions on the line size are asserted by the code. */
    constructor (client: nat, lineBytes: nat)
      requires lineBytes < 0x1_0000_0000
      requires And(lineBytes, if lineBytes == 0 then 0 else lineBytes - 1) == 0 && lineBytes != 0
      ensures Valid() && this.client == client && this.lineBytes == lineBytes && lastVA == 0
    {
      this.client, this.lineBytes, lastVA := client, lineBytes, 0;
      lineMask := Not64(lineBytes - 1);
    }

    /** Pass the fetch on to the client if its line is not the one before. */
    method CallIfNewLine(e: Event, trace: Trace)
      requires Valid() && e.IFetch?
      modifies this`lastVA, trace
      ensures lastVA == Line(e.va, lineBytes)
      ensures trace.calls
           == if Line(e.va, lineBytes) != old(lastVA) then old(trace.calls) + [Call(client, e)] else old(trace.calls)
    {
      MaskIsLine(e.va, lineBytes);
      var nextVA := And(e.va, lineMask);
      if nextVA != lastVA {
        lastVA := nextVA;
        trace.calls := trace.calls + [Call(client, e)];
      }
    }
  }
}
