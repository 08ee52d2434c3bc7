/**
  Where a canonical path leads: to the directory of the original, as long as no parent component meets an empty entry
  on the stack; and which results come out as the empty string or as a lone slash.
 */
module PathMeaning {
  import opened Basics
  import opened Splitting
  import opened Paths

  // ----- empty entries

  function Empties(names: seq<string>): nat
  {
    multiset(names)[""]
  }

  /** Entries that name something. */
  function Named(names: seq<string>): int
  {
    |names| - Empties(names)
  }

  /** The stack after one component, if the walk goes on. */
  function Push(stack: seq<string>, d: string, absolute: bool): seq<string>
  {
    if d == "." then stack
    else if d == ".." then (if Pops(stack, absolute) then stack[..|stack| - 1] else stack)
    else stack + [d]
  }

  /** A parent component takes an entry off: on an absolute path all but the first. */
  predicate Pops(stack: seq<string>, absolute: bool)
  {
    |stack| > if absolute then 1 else 0
  }

  lemma WalkStep(stack: seq<string>, dirs: seq<string>, absolute: bool)
    requires dirs != []
    ensures Walk(stack, dirs, absolute)
         == if dirs[0] == ".." && stack == [] && !absolute then None
            else Walk(Push(stack, dirs[0], absolute), dirs[1..], absolute)
  {
  }

  /** One if the component is a parent that takes an empty entry off. */
  function Takes(stack: seq<string>, d: string, absolute: bool): nat
  {
    if d == ".." && Pops(stack, absolute) && stack[|stack| - 1] == "" then 1 else 0
  }

  /** How many empty entries parent components take off the stack. */
  function Taken(stack: seq<string>, dirs: seq<string>, absolute: bool): nat
    decreases |dirs|
  {
    if dirs == [] then 0
    else Takes(stack, dirs[0], absolute) + Taken(Push(stack, dirs[0], absolute), dirs[1..], absolute)
  }

  lemma PushCounts(stack: seq<string>, d: string, absolute: bool)
    ensures Empties(Push(stack, d, absolute)) + Takes(stack, d, absolute) == Empties(stack) + Empties([d])
    ensures d == ".." && Pops(stack, absolute) ==>
              Named(Push(stack, d, absolute)) == Named(stack) - 1 + Takes(stack, d, absolute)
  {
    if d == ".." && Pops(stack, absolute) {
      assert stack == stack[..|stack| - 1] + [stack[|stack| - 1]];
    }
  }

  /** Empty components end up on the stack or are taken off. */
  lemma {:induction false} WalkCounts(stack: seq<string>, dirs: seq<string>, absolute: bool)
    requires Walk(stack, dirs, absolute).Some?
    ensures Empties(Walk(stack, dirs, absolute).value) + Taken(stack, dirs, absolute) == Empties(stack) + Empties(dirs)
    decreases |dirs|
  {
    if dirs != [] {
      WalkStep(stack, dirs, absolute);
      WalkCounts(Push(stack, dirs[0], absolute), dirs[1..], absolute);
      PushCounts(stack, dirs[0], absolute);
      assert dirs == [dirs[0]] + dirs[1..];
    }
  }

  // ----- the same directory

  /** An absolute walk stands on an empty first entry and starts from the root. */
  ghost predicate Grounded(stack: seq<string>, absolute: bool, base: seq<string>)
  {
    AllProper(stack) && (absolute ==> base == [] && stack != [] && stack[0] == "")
  }

  lemma ResolveSnoc(base: seq<string>, stack: seq<string>, d: string)
    ensures Resolve(base, stack + [d]) == Enter(Resolve(base, stack), d)
  {
    ResolveConcat(base, stack, [d]);
    assert [d][1..] == [];
  }

  lemma PopResolves(base: seq<string>, stack: seq<string>)
    requires stack != [] && Proper(stack[|stack| - 1]) && stack[|stack| - 1] != ""
    ensures Resolve(base, stack[..|stack| - 1]) == Enter(Resolve(base, stack), "..")
  {
    var l := |stack| - 1;
    var r := Resolve(base, stack[..l]);
    assert stack == stack[..l] + [stack[l]];
    ResolveSnoc(base, stack[..l], stack[l]);
    assert (r + [stack[l]])[..|r|] == r;
  }

  /** One component changes what the stack stands for as it changes the directory. */
  lemma PushResolves(stack: seq<string>, d: string, absolute: bool, base: seq<string>)
    requires Grounded(stack, absolute, base) && SeparatorFree(d, SLASH) && Takes(stack, d, absolute) == 0
    requires d == ".." && stack == [] ==> absolute
    ensures Grounded(Push(stack, d, absolute), absolute, base)
    ensures Resolve(base, Push(stack, d, absolute)) == Enter(Resolve(base, stack), d)
  {
    if d == ".." {
      if Pops(stack, absolute) {
        PopResolves(base, stack);
      } else {
        assert stack == [""] && [""][1..] == [];
      }
    } else if d != "." {
      ResolveSnoc(base, stack, d);
    }
  }

  lemma {:induction false} WalkResolves(stack: seq<string>, dirs: seq<string>, absolute: bool, base: seq<string>)
    requires Grounded(stack, absolute, base) && forall i :: 0 <= i < |dirs| ==> SeparatorFree(dirs[i], SLASH)
    requires Walk(stack, dirs, absolute).Some? && Taken(stack, dirs, absolute) == 0
    ensures Resolve(base, Walk(stack, dirs, absolute).value) == Resolve(Resolve(base, stack), dirs)
    decreases |dirs|
  {
    if dirs != [] {
      WalkStep(stack, dirs, absolute);
      PushResolves(stack, dirs[0], absolute, base);
      WalkResolves(Push(stack, dirs[0], absolute), dirs[1..], absolute, base);
    }
  }

  /** What is left on the stack of a path. */
  function Left(path: string): Option<seq<string>>
  {
    Walk([], Pieces(path, SLASH), IsAbsolutePath(path))
  }

  /** Printed with a slash in front. */
  predicate PrintsAbsolute(stack: seq<string>)
  {
    |stack| > 1 && stack[0] == ""
  }

  /** An empty component comes when as many parents as names have been taken, `n` of them before. */
  ghost predicate EmptyAtStart(dirs: seq<string>, n: nat)
  {
    exists i :: 0 <= i < |dirs| && dirs[i] == "" && n + Depth(dirs[..i]) == 0
  }

  /**
    No parent component takes an empty entry off, and no relative path goes on to more than one entry from an empty
    component where it started.
   */
  ghost predicate Regular(path: string)
  {
    var dirs := Pieces(path, SLASH);
    && Taken([], dirs, IsAbsolutePath(path)) == 0
    && (!IsAbsolutePath(path) ==> !(EmptyAtStart(dirs, 0) && Depth(dirs) > 1))
  }

  lemma EmptyAtStartFirst(dirs: seq<string>, n: nat)
    requires dirs != [] && n + Depth([dirs[0]]) >= 0
    ensures EmptyAtStart(dirs, n) <==> (dirs[0] == "" && n == 0) || EmptyAtStart(dirs[1..], n + Depth([dirs[0]]))
  {
    var rest, m := dirs[1..], n + Depth([dirs[0]]);
    if EmptyAtStart(dirs, n) {
      var i :| 0 <= i < |dirs| && dirs[i] == "" && n + Depth(dirs[..i]) == 0;
      if i > 0 {
        PrefixDepth(dirs, i);
        assert rest[i - 1] == "" && m + Depth(rest[..i - 1]) == 0;
      }
    }
    if dirs[0] == "" && n == 0 {
      assert dirs[..0] == [];
    }
    if EmptyAtStart(rest, m) {
      var i :| 0 <= i < |rest| && rest[i] == "" && m + Depth(rest[..i]) == 0;
      PrefixDepth(dirs, i + 1);
      assert dirs[i + 1] == "";
    }
  }

  lemma PrefixDepth(dirs: seq<string>, i: nat)
    requires 0 < i <= |dirs|
    ensures Depth(dirs[..i]) == Depth([dirs[0]]) + Depth(dirs[1..][..i - 1])
  {
    assert dirs[..i] == [dirs[0]] + dirs[1..][..i - 1];
    DepthCons(dirs[0], dirs[1..][..i - 1]);
  }

  lemma OneDepth(d: string)
    ensures Depth([d]) == if d == "." then 0 else if d == ".." then -1 else 1
  {
    assert [d][..0] == [];
  }

  /** A relative walk has as many entries as the depth says, and an empty one at the bottom if it was put there. */
  lemma {:induction false} BottomEntry(stack: seq<string>, dirs: seq<string>)
    requires Walk(stack, dirs, false).Some? && Taken(stack, dirs, false) == 0
    ensures var w := Walk(stack, dirs, false).value;
            && |w| == |stack| + Depth(dirs)
            && (w != [] && w[0] == "" <==> (stack != [] && stack[0] == "") || EmptyAtStart(dirs, |stack|))
    decreases |dirs|
  {
    if dirs != [] {
      WalkStep(stack, dirs, false);
      OneDepth(dirs[0]);
      PrefixDepth(dirs, |dirs|);
      assert dirs[..|dirs|] == dirs && dirs[1..][..|dirs| - 1] == dirs[1..];
      BottomEntry(Push(stack, dirs[0], false), dirs[1..]);
      EmptyAtStartFirst(dirs, |stack|);
    }
  }

  lemma PrintsAbsoluteIff(path: string)
    requires !IsAbsolutePath(path) && Left(path).Some? && Taken([], Pieces(path, SLASH), false) == 0
    ensures PrintsAbsolute(Left(path).value) <==> EmptyAtStart(Pieces(path, SLASH), 0) && Depth(Pieces(path, SLASH)) > 1
  {
    BottomEntry([], Pieces(path, SLASH));
  }

  lemma {:induction false} AbsoluteKeepsFirst(stack: seq<string>, dirs: seq<string>)
    requires stack != [] && stack[0] == ""
    ensures var w := Walk(stack, dirs, true); w.Some? && w.value != [] && w.value[0] == ""
    decreases |dirs|
  {
    if dirs != [] {
      WalkStep(stack, dirs, true);
      AbsoluteKeepsFirst(Push(stack, dirs[0], true), dirs[1..]);
    }
  }

  lemma AbsoluteWalk(path: string)
    requires IsAbsolutePath(path)
    ensures var dirs := Pieces(path, SLASH);
            && dirs != [] && dirs[0] == "" && Left(path) == Walk([""], dirs[1..], true)
            && Taken([], dirs, true) == Taken([""], dirs[1..], true)
            && Left(path).Some? && Left(path).value != [] && Left(path).value[0] == ""
  {
    var dirs := Pieces(path, SLASH);
    AbsoluteStartsEmpty(path);
    assert [] + [""] == [""] && Push([], "", true) == [""];
    WalkStep([], dirs, true);
    AbsoluteKeepsFirst([""], dirs[1..]);
  }

  lemma StackIsProper(path: string)
    requires Left(path).Some?
    ensures AllProper(Left(path).value)
  {
    PiecesAreSlashFree(path);
    WalkKeepsProper([], Pieces(path, SLASH), IsAbsolutePath(path));
  }

  /** The empty entry an absolute walk stands on names the root. */
  lemma GroundIsRoot(dirs: seq<string>)
    requires dirs != [] && dirs[0] == ""
    ensures Resolve([], [""]) == [] && Resolve([], dirs) == Resolve([], dirs[1..])
  {
    assert [""][1..] == [];
  }

  /** How the printed stack reads. */
  lemma PrintedReads(stack: seq<string>, base: seq<string>)
    requires AllProper(stack)
    ensures var c := Join(stack, '/');
            && IsAbsolutePath(c) == PrintsAbsolute(stack)
            && Destination(base, c) == Resolve(if PrintsAbsolute(stack) then [] else base, stack)
            && (c == "" <==> stack == [] || stack == [""]) && (c == "/" <==> stack == ["", ""])
  {
    PiecesOfJoin(stack);
    assert [""][1..] == [] && ["", ""][1..] == [""];
    if stack != [] && stack[0] != "" {
      assert SeparatorFree(stack[0], SLASH) && Join(stack, '/')[0] == stack[0][0];
    } else if |stack| > 1 {
      assert Join(stack, '/') == "" + ['/'] + Join(stack[1..], '/');
    }
  }

  /**
    From every directory the canonical path of a regular one leads where the original leads, and is absolute if the
    original is. The root is the exception: it is printed as the empty string, which no longer names it.
   */
  lemma SameDirectory(path: string, base: seq<string>)
    requires Regular(path) && Canonical(path).Some?
    ensures var c := Canonical(path).value;
            if IsAbsolutePath(path) && c == "" then Destination(base, path) == []
            else Destination(base, c) == Destination(base, path) && IsAbsolutePath(c) == IsAbsolutePath(path)
  {
    var dirs := Pieces(path, SLASH);
    var w := Left(path).value;
    PiecesAreSlashFree(path);
    StackIsProper(path);
    PrintedReads(w, base);
    if IsAbsolutePath(path) {
      AbsoluteWalk(path);
      GroundIsRoot(dirs);
      WalkResolves([""], dirs[1..], true, []);
    } else {
      PrintsAbsoluteIff(path);
      WalkResolves([], dirs, false, base);
    }
  }

  // ----- from far below the root every empty entry taken off shows

  lemma {:induction false} ResolveDepth(dir: seq<string>, names: seq<string>)
    requires AllProper(names)
    ensures |Resolve(dir, names)| == |dir| + Named(names)
    decreases |names|
  {
    if names != [] {
      assert Proper(names[0]);
      ResolveDepth(Enter(dir, names[0]), names[1..]);
      assert names == [names[0]] + names[1..];
    }
  }

  lemma EnterDepth(stack: seq<string>, d: string, dir: seq<string>)
    requires dir != [] && (d == ".." ==> stack != [])
    ensures |Enter(dir, d)| - |dir| == Named(Push(stack, d, false)) - Named(stack) - Takes(stack, d, false)
    ensures |Enter(dir, d)| >= |dir| - 1
  {
    PushCounts(stack, d, false);
  }

  lemma {:induction false} DeepWalk(stack: seq<string>, dirs: seq<string>, dir: seq<string>)
    requires Walk(stack, dirs, false).Some? && |dir| >= |dirs|
    ensures |Resolve(dir, dirs)| - |dir|
         == Named(Walk(stack, dirs, false).value) - Named(stack) - Taken(stack, dirs, false)
    decreases |dirs|
  {
    if dirs != [] {
      WalkStep(stack, dirs, false);
      EnterDepth(stack, dirs[0], dir);
      DeepWalk(Push(stack, dirs[0], false), dirs[1..], Enter(dir, dirs[0]));
    }
  }

  function Deep(n: nat): (dir: seq<string>)
    ensures |dir| == n
  {
    seq(n, k => "x")
  }

  lemma {:induction false} ShrinksAtMost(dir: seq<string>, components: seq<string>)
    ensures |Resolve(dir, components)| >= |dir| - |components|
    decreases |components|
  {
    if components != [] {
      ShrinksAtMost(Enter(dir, components[0]), components[1..]);
    }
  }

  /** From a directory deep enough the canonical path of an irregular one leads to another depth. */
  lemma IrregularShows(path: string)
    requires !IsAbsolutePath(path) && Canonical(path).Some? && !Regular(path)
    ensures var base := Deep(|Pieces(path, SLASH)| + |Left(path).value| + 1);
            Destination(base, Canonical(path).value) != Destination(base, path)
  {
    var dirs, w := Pieces(path, SLASH), Left(path).value;
    var base := Deep(|dirs| + |w| + 1);
    StackIsProper(path);
    PrintedReads(w, base);
    if PrintsAbsolute(w) {
      ResolveDepth([], w);
      ShrinksAtMost(base, dirs);
    } else {
      ResolveDepth(base, w);
      DeepWalk([], dirs, base);
      if Taken([], dirs, false) == 0 {
        PrintsAbsoluteIff(path);
      }
    }
  }

  /** A relative path and its canonical form lead to the same directory from everywhere exactly if it is regular. */
  lemma SameDirectoryIffRegular(path: string)
    requires !IsAbsolutePath(path) && Canonical(path).Some?
    ensures (forall base :: Destination(base, Canonical(path).value) == Destination(base, path)) <==> Regular(path)
  {
    if Regular(path) {
      forall base ensures Destination(base, Canonical(path).value) == Destination(base, path) {
        SameDirectory(path, base);
      }
    } else {
      IrregularShows(path);
    }
  }

  // ----- absolute paths: exactly when

  /** `a` is `b` with some entries left out. */
  ghost predicate Within(a: seq<string>, b: seq<string>)
    decreases |b|
  {
    || a == []
    || (b != [] && Within(a, b[..|b| - 1]))
    || (b != [] && a[|a| - 1] == b[|b| - 1] && Within(a[..|a| - 1], b[..|b| - 1]))
  }

  lemma {:induction false} WithinIsShorter(a: seq<string>, b: seq<string>)
    requires Within(a, b)
    ensures |a| <= |b| && (|a| == |b| ==> a == b)
    decreases |b|
  {
    if a != [] {
      if Within(a, b[..|b| - 1]) {
        WithinIsShorter(a, b[..|b| - 1]);
      } else {
        WithinIsShorter(a[..|a| - 1], b[..|b| - 1]);
        assert a == a[..|a| - 1] + [a[|a| - 1]] && b == b[..|b| - 1] + [b[|b| - 1]];
      }
    }
  }

  lemma {:induction false} ShorterWithin(a: seq<string>, b: seq<string>)
    requires a != [] && Within(a, b)
    ensures b != [] && Within(a[..|a| - 1], b) && Within(a[..|a| - 1], b[..|b| - 1])
    decreases |b|
  {
    if Within(a, b[..|b| - 1]) {
      ShorterWithin(a, b[..|b| - 1]);
    }
  }

  lemma LongerWithin(a: seq<string>, b: seq<string>, x: string)
    requires Within(a, b)
    ensures Within(a + [x], b + [x])
  {
    assert (a + [x])[..|a|] == a && (b + [x])[..|b|] == b;
  }

  /** Going the same way keeps the one within the other; the root stops the shorter one first. */
  lemma EnterWithin(dir: seq<string>, names: seq<string>, d: string)
    requires Within(dir, names)
    ensures Within(Enter(dir, d), Enter(names, d))
  {
    if d == ".." {
      if dir != [] {
        ShorterWithin(dir, names);
      }
    } else if d != "" && d != "." {
      LongerWithin(dir, names, d);
    }
  }

  /** One if the component takes an empty entry off while the directory is not the root. */
  function EmptyBelow(stack: seq<string>, dir: seq<string>, d: string): nat
  {
    if Takes(stack, d, true) == 1 && dir != [] then 1 else 0
  }

  /** One if it takes a name off while the directory is the root. */
  function NameAtRoot(stack: seq<string>, dir: seq<string>, d: string): nat
  {
    if d == ".." && Pops(stack, true) && stack[|stack| - 1] != "" && dir == [] then 1 else 0
  }

  function EmptiesBelow(stack: seq<string>, dir: seq<string>, dirs: seq<string>): nat
    decreases |dirs|
  {
    if dirs == [] then 0
    else EmptyBelow(stack, dir, dirs[0]) + EmptiesBelow(Push(stack, dirs[0], true), Enter(dir, dirs[0]), dirs[1..])
  }

  function NamesAtRoot(stack: seq<string>, dir: seq<string>, dirs: seq<string>): nat
    decreases |dirs|
  {
    if dirs == [] then 0
    else NameAtRoot(stack, dir, dirs[0]) + NamesAtRoot(Push(stack, dirs[0], true), Enter(dir, dirs[0]), dirs[1..])
  }

  /** The parents that take an empty entry below the root are as many as those that take a name at the root. */
  predicate Balanced(path: string)
  {
    var dirs := Pieces(path, SLASH);
    EmptiesBelow([], [], dirs) == NamesAtRoot([], [], dirs)
  }

  /** What a component does to the names on the stack: an empty entry taken off leaves them as they are. */
  lemma PushNames(stack: seq<string>, d: string)
    requires Grounded(stack, true, []) && SeparatorFree(d, SLASH)
    ensures Grounded(Push(stack, d, true), true, [])
    ensures Resolve([], Push(stack, d, true))
         == if Takes(stack, d, true) == 1 then Resolve([], stack) else Enter(Resolve([], stack), d)
  {
    if Takes(stack, d, true) == 1 {
      var l := |stack| - 1;
      assert stack == stack[..l] + [stack[l]];
      ResolveSnoc([], stack[..l], stack[l]);
    } else {
      PushResolves(stack, d, true, []);
    }
  }

  /** A walk whose top entry names something has names, and one with nothing to take off has none. */
  lemma TopNames(stack: seq<string>)
    requires Grounded(stack, true, [])
    ensures stack[|stack| - 1] != "" ==> Resolve([], stack) != []
    ensures |stack| == 1 ==> Resolve([], stack) == []
  {
    var l := |stack| - 1;
    assert stack == stack[..l] + [stack[l]];
    ResolveSnoc([], stack[..l], stack[l]);
    if l == 0 {
      GroundIsRoot(stack);
      assert stack == [""];
    }
  }

  lemma BalanceStep(stack: seq<string>, dir: seq<string>, d: string)
    requires Grounded(stack, true, []) && SeparatorFree(d, SLASH) && Within(dir, Resolve([], stack))
    ensures var next := Push(stack, d, true);
            && Grounded(next, true, []) && Within(Enter(dir, d), Resolve([], next))
            && |Resolve([], next)| - |Enter(dir, d)|
            == |Resolve([], stack)| - |dir| + EmptyBelow(stack, dir, d) - NameAtRoot(stack, dir, d)
  {
    var names := Resolve([], stack);
    PushNames(stack, d);
    TopNames(stack);
    WithinIsShorter(dir, names);
    if Takes(stack, d, true) == 1 {
      if dir != [] {
        ShorterWithin(dir, names);
      }
    } else {
      EnterWithin(dir, names, d);
    }
  }

  lemma {:induction false} BalanceOfWalk(stack: seq<string>, dir: seq<string>, dirs: seq<string>)
    requires Grounded(stack, true, []) && Within(dir, Resolve([], stack))
    requires forall i :: 0 <= i < |dirs| ==> SeparatorFree(dirs[i], SLASH)
    ensures var w := Walk(stack, dirs, true);
            && w.Some? && Within(Resolve(dir, dirs), Resolve([], w.value))
            && |Resolve([], w.value)| - |Resolve(dir, dirs)|
            == |Resolve([], stack)| - |dir| + EmptiesBelow(stack, dir, dirs) - NamesAtRoot(stack, dir, dirs)
    decreases |dirs|
  {
    if dirs != [] {
      WalkStep(stack, dirs, true);
      BalanceStep(stack, dir, dirs[0]);
      BalanceOfWalk(Push(stack, dirs[0], true), Enter(dir, dirs[0]), dirs[1..]);
    }
  }

  lemma BalanceFromRoot(path: string)
    requires IsAbsolutePath(path)
    ensures Left(path).Some?
    ensures Resolve([], Left(path).value) == Resolve([], Pieces(path, SLASH)) <==> Balanced(path)
    ensures |Resolve([], Pieces(path, SLASH))| <= |Resolve([], Left(path).value)|
  {
    var dirs := Pieces(path, SLASH);
    AbsoluteWalk(path);
    PiecesAreSlashFree(path);
    GroundIsRoot(dirs);
    assert [] + [""] == [""] && Push([], "", true) == [""];
    BalanceOfWalk([""], [], dirs[1..]);
    WithinIsShorter(Resolve([], dirs), Resolve([], Left(path).value));
  }

  /**
    An absolute path and its canonical form lead to the same directory exactly if it is balanced, or the root is printed
    as the empty string, which no longer names it.
   */
  lemma AbsoluteIffBalanced(path: string, base: seq<string>)
    requires IsAbsolutePath(path)
    ensures Canonical(path).Some?
    ensures var c := Canonical(path).value;
            if c == "" then Destination(base, path) == []
            else IsAbsolutePath(c) && (Destination(base, c) == Destination(base, path) <==> Balanced(path))
  {
    AbsoluteWalk(path);
    var w := Left(path).value;
    BalanceFromRoot(path);
    StackIsProper(path);
    PrintedReads(w, base);
    if w == [""] {
      GroundIsRoot(w);
    }
  }

  // ----- results that name nothing

  lemma {:induction false} NothingNamed(names: seq<string>)
    requires Named(names) == 0
    ensures names == seq(|names|, i => "")
    decreases |names|
  {
    if names != [] {
      assert names == [names[0]] + names[1..];
      NothingNamed(names[1..]);
    }
  }

  /** The names on the stack of a regular path are those of its directory, seen from the root. */
  lemma StackResolves(path: string)
    requires Regular(path) && Left(path).Some?
    ensures Resolve([], Left(path).value) == Destination([], path)
  {
    var dirs := Pieces(path, SLASH);
    PiecesAreSlashFree(path);
    if IsAbsolutePath(path) {
      AbsoluteWalk(path);
      GroundIsRoot(dirs);
      WalkResolves([""], dirs[1..], true, []);
    } else {
      WalkResolves([], dirs, false, []);
    }
  }

  /** The stack of a regular path holds its empty components and the names of its directory. */
  lemma StackHolds(path: string)
    requires Regular(path) && Left(path).Some?
    ensures AllProper(Left(path).value) && Empties(Left(path).value) == Empties(Pieces(path, SLASH))
    ensures Named(Left(path).value) == |Destination([], path)|
  {
    WalkCounts([], Pieces(path, SLASH), IsAbsolutePath(path));
    StackIsProper(path);
    ResolveDepth([], Left(path).value);
    StackResolves(path);
  }

  /** Which results are a lone slash, and which are empty. */
  lemma NamelessResults(path: string)
    requires Regular(path) && Canonical(path).Some?
    ensures Canonical(path) == Some("/")
       <==> IsAbsolutePath(path) && Destination([], path) == [] && Empties(Pieces(path, SLASH)) == 2
    ensures Canonical(path) == Some("") <==> Destination([], path) == [] && Empties(Pieces(path, SLASH)) <= 1
  {
    var w := Left(path).value;
    StackHolds(path);
    PrintedReads(w, []);
    if !IsAbsolutePath(path) {
      PrintsAbsoluteIff(path);
    }
    if Named(w) == 0 {
      NothingNamed(w);
      assert |w| == 2 ==> w == ["", ""];
      assert |w| == 1 ==> w == [""];
    }
  }

  // ----- paths without doubled slashes

  /** No empty component but the one before an absolute path's first slash and the one after a final slash. */
  ghost predicate SingleSlashes(path: string)
  {
    var dirs := Pieces(path, SLASH);
    forall i :: 0 <= i < |dirs| && dirs[i] == "" ==> (i == 0 && IsAbsolutePath(path)) || i == |dirs| - 1
  }

  predicate EndsInSlash(path: string)
  {
    var dirs := Pieces(path, SLASH); |dirs| > 1 && dirs[|dirs| - 1] == ""
  }

  lemma {:induction false} SingleTakesNone(stack: seq<string>, dirs: seq<string>, absolute: bool)
    requires absolute ==> stack != []
    requires forall i :: (if absolute then 1 else 0) <= i < |stack| ==> stack[i] != ""
    requires forall i :: 0 <= i < |dirs| - 1 ==> dirs[i] != ""
    ensures Taken(stack, dirs, absolute) == 0
    decreases |dirs|
  {
    if dirs != [] {
      WalkStep(stack, dirs, absolute);
      if dirs[0] != "" {
        SingleTakesNone(Push(stack, dirs[0], absolute), dirs[1..], absolute);
      } else {
        assert dirs[1..] == [];
      }
    }
  }

  lemma SingleIsRegular(path: string)
    requires SingleSlashes(path)
    ensures Regular(path)
  {
    var dirs := Pieces(path, SLASH);
    if IsAbsolutePath(path) {
      AbsoluteWalk(path);
      SingleTakesNone([""], dirs[1..], true);
    } else {
      FirstPieceNotEmpty(path);
      SingleTakesNone([], dirs, false);
      LastIsNotAhead(dirs);
    }
  }

  lemma LastIsNotAhead(dirs: seq<string>)
    requires forall i :: 0 <= i < |dirs| - 1 ==> dirs[i] != ""
    ensures !(EmptyAtStart(dirs, 0) && Depth(dirs) > 1)
  {
    if i :| 0 <= i < |dirs| && dirs[i] == "" && 0 + Depth(dirs[..i]) == 0 {
      assert i == |dirs| - 1;
    }
  }

  lemma SingleEmpties(path: string)
    requires SingleSlashes(path)
    ensures Empties(Pieces(path, SLASH)) == (if IsAbsolutePath(path) then 1 else 0) + if EndsInSlash(path) then 1 else 0
  {
    var dirs := Pieces(path, SLASH);
    if IsAbsolutePath(path) {
      AbsoluteStartsEmpty(path);
      assert dirs == [dirs[0]] + dirs[1..];
      LastCounts(dirs[1..]);
    } else {
      FirstPieceNotEmpty(path);
      LastCounts(dirs);
    }
  }

  lemma LastCounts(names: seq<string>)
    requires forall i :: 0 <= i < |names| - 1 ==> names[i] != ""
    ensures Empties(names) == if names != [] && names[|names| - 1] == "" then 1 else 0
  {
    if names != [] {
      var l := |names| - 1;
      assert names == names[..l] + [names[l]];
      assert "" !in names[..l];
    }
  }

  /**
    Without doubled slashes: a lone slash comes of absolute paths to the root that end in a slash, and of no others;
   */
  lemma SlashResult(path: string)
    requires SingleSlashes(path)
    ensures Canonical(path) == Some("/") <==> IsAbsolutePath(path) && EndsInSlash(path) && Destination([], path) == []
  {
    SingleIsRegular(path);
    SingleEmpties(path);
    if IsAbsolutePath(path) {
      AbsoluteWalk(path);
    }
    if Canonical(path).Some? {
      NamelessResults(path);
    }
  }

  /** and the empty string of the other paths to the root, and of relative ones that end where they start. */
  lemma EmptyResult(path: string)
    requires SingleSlashes(path) && Canonical(path).Some?
    ensures Canonical(path) == Some("") <==> Destination([], path) == [] && !(IsAbsolutePath(path) && EndsInSlash(path))
  {
    SingleIsRegular(path);
    SingleEmpties(path);
    NamelessResults(path);
  }

  // ----- canonicalising twice

  /**
    For a regular path, canonicalising the result changes nothing unless the path is a root with one slash too many.
   */
  lemma TwiceIffNotSlash(path: string)
    requires Regular(path) && Canonical(path).Some?
    ensures Canonical(Canonical(path).value) == Canonical(path)
       <==> !(IsAbsolutePath(path) && Destination([], path) == [] && Empties(Pieces(path, SLASH)) == 2)
  {
    NamelessResults(path);
    CanonicalTwice(path);
  }

  /** With no empty component but the one before the first slash it never does. */
  lemma CanonicalIsIdempotent(path: string)
    requires Canonical(path).Some?
    requires forall i :: 0 < i < |Pieces(path, SLASH)| ==> Pieces(path, SLASH)[i] != ""
    ensures Canonical(Canonical(path).value) == Canonical(path)
  {
    if !IsAbsolutePath(path) {
      FirstPieceNotEmpty(path);
    }
    SingleIsRegular(path);
    SingleEmpties(path);
    TwiceIffNotSlash(path);
  }

  // ----- doubled slashes

  /** Doubled slashes mislead the stack: a parent component removes the empty entry instead of a name, */
  lemma ParentRemovesEmptyEntry(base: seq<string>)
    ensures Canonical("a//..") == Some("a") && Destination(base, "a//..") == base
  {
    EmptyEntryPieces();
    EmptyEntryWalk();
    EmptyEntryResolves(base);
  }

  lemma EmptyEntryPieces()
    ensures Pieces("a//..", SLASH) == ["a", "", ".."]
  {
    var p := ["a", "", ".."];
    assert p[1..] == ["", ".."] && p[1..][1..] == [".."];
    assert Join(["", ".."], '/') == "/..";
    assert Join(p, '/') == "a//..";
    PiecesOfJoin(p);
  }

  lemma EmptyEntryWalk()
    ensures Walk([], ["a", "", ".."], false) == Some(["a"])
  {
    var p := ["a", "", ".."];
    assert p[1..] == ["", ".."] && p[1..][1..] == [".."] && [".."][1..] == [];
    assert [] + ["a"] == ["a"] && ["a"] + [""] == ["a", ""] && ["a", ""][..1] == ["a"];
    assert Walk(["a", ""], [".."], false) == Walk(["a"], [], false);
    assert Walk([], p, false) == Walk(["a"], p[1..], false) == Walk(["a", ""], [".."], false);
  }

  lemma EmptyEntryResolves(base: seq<string>)
    ensures Resolve(base, ["a", "", ".."]) == base
  {
    var p := ["a", "", ".."];
    assert p[1..] == ["", ".."] && p[1..][1..] == [".."] && [".."][1..] == [];
    assert Resolve(base, p) == Resolve(base + ["a"], p[1..]) == Resolve(base + ["a"], [".."]);
    assert (base + ["a"])[..|base|] == base;
  }

  /** and a relative path can turn absolute. */
  lemma RelativeTurnsAbsolute()
    ensures Canonical(".//b") == Some("/b")
  {
    var q := [".", "", "b"];
    assert q[1..] == ["", "b"] && q[1..][1..] == ["b"] && ["b"][1..] == [];
    assert Join(q, '/') == ".//b";
    PiecesOfJoin(q);
    assert [] + [""] == [""] && [""] + ["b"] == ["", "b"] && ["", "b"][1..] == ["b"];
    assert Walk([""], ["b"], false) == Walk(["", "b"], [], false);
    assert Walk([], q, false) == Walk([], q[1..], false) == Walk([""], ["b"], false);
    assert Join(["", "b"], '/') == "/b";
  }

  /**
    An empty component also counts as a name that a parent can take off, so that going above the start is not
    noticed.
   */
  lemma AboveStartUnnoticed()
    ensures Canonical("a//../..") == Some("")
  {
    AboveStartPieces();
    AboveStartWalk();
  }

  lemma AboveStartPieces()
    ensures Pieces("a//../..", SLASH) == ["a", "", "..", ".."]
  {
    var p := ["a", "", "..", ".."];
    assert p[1..] == ["", "..", ".."] && p[1..][1..] == ["..", ".."] && ["..", ".."][1..] == [".."];
    assert Join(["", "..", ".."], '/') == "/../..";
    assert Join(p, '/') == "a//../..";
    PiecesOfJoin(p);
  }

  lemma AboveStartWalk()
    ensures Walk([], ["a", "", "..", ".."], false) == Some([])
  {
    var none: seq<string> := [];
    assert ["a", "", "..", ".."][1..] == ["", "..", ".."] && ["", "..", ".."][1..] == ["..", ".."];
    assert ["..", ".."][1..] == [".."] && [".."][1..] == none && ["a"] + [""] == ["a", ""];
    assert Walk(["a", ""], ["..", ".."], false) == Some([]) by {
      assert ["a", ""][..1] == ["a"] && ["a"][..0] == none;
      assert Walk(["a"], [".."], false) == Walk([], [], false);
    }
    assert Walk(["a"], ["", "..", ".."], false) == Walk(["a", ""], ["..", ".."], false);
  }
}
