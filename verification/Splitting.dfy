/**
  Splitting a string at separator characters: the iterator of the utility library and the mathematical
  split it walks through.
 */
module Splitting {
  /** `string::npos`, the position that encodes the end iterator. */
  const NPOS: int := 0xFFFF_FFFF_FFFF_FFFF

  /** The position of the first separator at or after `from`, or the length of the string. */
  function FindSeparator(s: string, seps: set<char>, from: nat): (k: nat)
    requires from <= |s|
    ensures from <= k <= |s| && (k < |s| ==> s[k] in seps) && forall i :: from <= i < k ==> s[i] !in seps
    decreases |s| - from
  {
    if from == |s| || s[from] in seps then from else FindSeparator(s, seps, from + 1)
  }

  /** Maximal separator-free pieces; a string without separators is one piece. */
  function Split(s: string, seps: set<char>): seq<string>
    decreases |s|
  {
    var k := FindSeparator(s, seps, 0);
    if k == |s| then [s] else [s[..k]] + Split(s[k + 1..], seps)
  }

  /** What the iterator yields: nothing for the empty string, one empty piece for a lone separator. */
  function Pieces(s: string, seps: set<char>): seq<string>
  {
    if s == "" then []
    else if |s| == 1 && s[0] in seps then [""]
    else Split(s, seps)
  }

  function Join(p: seq<string>, c: char): string
  {
    if p == [] then "" else if |p| == 1 then p[0] else p[0] + [c] + Join(p[1..], c)
  }

  ghost predicate SeparatorFree(s: string, seps: set<char>)
  {
    forall i :: 0 <= i < |s| ==> s[i] !in seps
  }

  function CountSeparators(s: string, seps: set<char>): nat
  {
    if s == "" then 0 else (if s[0] in seps then 1 else 0) + CountSeparators(s[1..], seps)
  }

  lemma {:induction false} CountSkips(s: string, seps: set<char>, k: nat)
    requires k <= |s| && forall i :: 0 <= i < k ==> s[i] !in seps
    ensures CountSeparators(s, seps) == CountSeparators(s[k..], seps)
  {
    if k == 0 {
      assert s[0..] == s;
    } else {
      CountSkips(s[1..], seps, k - 1);
      assert s[1..][k - 1..] == s[k..];
    }
  }

  /** The split has one piece more than there are separators, and no piece contains one. */
  lemma {:induction false} SplitPieces(s: string, seps: set<char>)
    ensures |Split(s, seps)| == CountSeparators(s, seps) + 1
    ensures forall x :: x in Split(s, seps) ==> SeparatorFree(x, seps)
    decreases |s|
  {
    var k := FindSeparator(s, seps, 0);
    CountSkips(s, seps, k);
    if k < |s| {
      SplitPieces(s[k + 1..], seps);
      assert s[k..][1..] == s[k + 1..];
    }
  }

  /** For a single separator character the pieces rejoin to the string. */
  lemma {:induction false} SplitRejoins(s: string, c: char)
    ensures Join(Split(s, {c}), c) == s
    decreases |s|
  {
    var k := FindSeparator(s, {c}, 0);
    if k < |s| {
      SplitRejoins(s[k + 1..], c);
      assert Split(s, {c})[1..] == Split(s[k + 1..], {c});
      assert s == s[..k] + [c] + s[k + 1..];
    }
  }

  lemma SplitOnce(x: string, rest: string, c: char)
    requires SeparatorFree(x, {c})
    ensures Split(x + [c] + rest, {c}) == [x] + Split(rest, {c})
  {
    var s := x + [c] + rest;
    assert s[|x|] == c && forall i :: 0 <= i < |x| ==> s[i] == x[i];
    assert FindSeparator(s, {c}, 0) == |x|;
    assert s[..|x|] == x && s[|x| + 1..] == rest;
  }

  /** Conversely, separator-free pieces are recovered from the joined string. */
  lemma {:induction false} JoinSplits(p: seq<string>, c: char)
    requires p != [] && forall x :: x in p ==> SeparatorFree(x, {c})
    ensures Split(Join(p, c), {c}) == p
    decreases |p|
  {
    assert p[0] in p;
    if |p| == 1 {
      assert FindSeparator(p[0], {c}, 0) == |p[0]|;
    } else {
      SplitOnce(p[0], Join(p[1..], c), c);
      JoinSplits(p[1..], c);
    }
  }

  // ----- the iterator

  /** The pieces still to come when the iterator is asked for the one at position `b`. */
  function PiecesFrom(s: string, seps: set<char>, b: nat): seq<string>
  {
    if b == 0 then Pieces(s, seps)
    else if b < |s| then Split(s[b..], seps)
    else if b == |s| && |s| > 1 && s[|s| - 1] in seps then [""]
    else []
  }

  lemma {:induction false} FindShift(s: string, seps: set<char>, from: nat, at: nat)
    requires from <= at <= |s|
    ensures FindSeparator(s[from..], seps, at - from) + from == FindSeparator(s, seps, at)
    decreases |s| - at
  {
    if at < |s| {
      assert s[from..][at - from] == s[at];
      if s[at] !in seps {
        FindShift(s, seps, from, at + 1);
      }
    }
  }

  /** Splitting a suffix cuts the string itself at its next separator. */
  lemma {:induction false} SplitSuffix(s: string, seps: set<char>, b: nat)
    requires b <= |s|
    ensures var k := FindSeparator(s, seps, b);
            Split(s[b..], seps) == if k < |s| then [s[b..k]] + Split(s[k + 1..], seps) else [s[b..k]]
  {
    var k := FindSeparator(s, seps, b);
    FindShift(s, seps, b, b);
    var rest := s[b..];
    assert rest[..k - b] == s[b..k];
    if k < |s| {
      assert rest[k - b + 1..] == s[k + 1..];
      assert Split(rest, seps) == [rest[..k - b]] + Split(rest[k - b + 1..], seps);
    } else {
      assert rest == s[b..k] && Split(rest, seps) == [rest];
    }
  }

  lemma {:induction false} SplitFrom(s: string, seps: set<char>, b: nat)
    requires b < |s| && (b == 0 ==> s[0] !in seps)
    ensures var k := FindSeparator(s, seps, b);
            PiecesFrom(s, seps, b) == [s[b..k]] + PiecesFrom(s, seps, if k < |s| then k + 1 else |s|)
  {
    var k := FindSeparator(s, seps, b);
    SplitSuffix(s, seps, b);
    assert s[0..] == s;
    if k == |s| {
      assert s[|s| - 1] !in seps;
    } else if k + 1 == |s| {
      SplitSuffix(s, seps, |s|);
      assert s[|s|..|s|] == "";
    }
  }

  lemma {:induction false} StartsWithSeparator(s: string, seps: set<char>)
    requires s != "" && s[0] in seps
    ensures PiecesFrom(s, seps, 0) == [""] + PiecesFrom(s, seps, 1)
  {
    assert FindSeparator(s, seps, 0) == 0 && s[..0] == "";
    if |s| > 1 {
      assert Split(s, seps) == [""] + Split(s[1..], seps);
    }
  }

  lemma NearEnd(s: string, seps: set<char>, b: nat)
    requires b >= |s|
    ensures PiecesFrom(s, seps, b) == if b == |s| && |s| > 1 && s[|s| - 1] in seps then [""] else []
    ensures PiecesFrom(s, seps, |s| + 1) == []
  {
  }

  class SplitIterator {
    const str: string
    const separators: set<char>
    var begin: int
    var currentSubstr: string

    ghost predicate Valid()
      reads this
    {
      |str| + 1 < NPOS && (0 <= begin <= |str| + 1 || begin == NPOS)
    }

    ghost function Remaining(): seq<string>
      reads this
      requires Valid()
    {
      PiecesFrom(str, separators, begin)
    }

    /** The current piece and all later ones; none at the end. */
    ghost function ToCome(): seq<string>
      reads this
      requires Valid()
    {
      if begin == NPOS then [] else [currentSubstr] + Remaining()
    }

    /** A fresh iterator moves to the first piece at once. */
    constructor (s: string, seps: set<char>)
      requires |s| + 1 < NPOS
      ensures Valid() && str == s && separators == seps && ToCome() == Pieces(s, seps)
    {
      str, separators, begin, currentSubstr := s, seps, 0, "";
      new;
      Next();
    }

    /** Advance to the next piece, or become the end iterator. */
    method Next()
      requires Valid() && begin != NPOS
      modifies this
      ensures Valid() && begin > old(begin) && ToCome() == old(Remaining())
    {
      if begin == 0 && |str| != 0 && str[0] in separators {
        currentSubstr := "";
        begin := 1;
        StartsWithSeparator(str, separators);
      } else if begin >= |str| {
        NearEnd(str, separators, begin);
        if |str| > 1 && begin == |str| && str[|str| - 1] in separators {
          currentSubstr := "";
          begin := |str| + 1;
        } else {
          begin := NPOS;
        }
      } else {
        var oldBegin := begin;
        var separatorIdx := FindSeparator(str, separators, begin);
        SplitFrom(str, separators, begin);
        if separatorIdx != |str| {
          begin := separatorIdx + 1;
        } else {
          begin := |str|;
        }
        currentSubstr := str[oldBegin..separatorIdx];
      }
    }
  }

  /** The usual loop over all pieces. */
  method CollectPieces(s: string, seps: set<char>) returns (pieces: seq<string>)
    requires |s| + 1 < NPOS
    ensures pieces == Pieces(s, seps)
  {
    pieces := [];
    var it := new SplitIterator(s, seps);
    ghost var all := it.ToCome();
    while it.begin != NPOS
      invariant it.Valid() && fresh(it) && it.str == s && it.separators == seps
      invariant |pieces| <= |all| && pieces == all[..|pieces|] && it.ToCome() == all[|pieces|..]
      decreases NPOS - it.begin
    {
      ghost var rest := all[|pieces|..];
      assert rest[0] == it.currentSubstr && rest[1..] == all[|pieces| + 1..] == it.Remaining();
      pieces := pieces + [it.currentSubstr];
      it.Next();
    }
    assert all[|pieces|..] == [];
  }
}
