/**
  Joining paths, and the relative path that leads from one absolute directory to another.
 */
module RelativePaths {
  import opened Basics
  import opened Splitting
  import opened Paths

  function FileJoin(name1: string, name2: string): string
  {
    if IsAbsolutePath(name2) || name1 == "" then name2
    else if name1[|name1| - 1] == '/' then name1 + name2
    else name1 + "/" + name2
  }

  function NonEmpty(p: seq<string>): seq<string>
  {
    if p == [] then [] else if p[0] == "" then NonEmpty(p[1..]) else [p[0]] + NonEmpty(p[1..])
  }

  /** The names along a path. */
  function Names(path: string): seq<string>
  {
    NonEmpty(Pieces(path, SLASH))
  }

  function CommonLength(p: seq<string>, q: seq<string>): (n: nat)
    ensures n <= |p| && n <= |q|
  {
    if p != [] && q != [] && p[0] == q[0] then 1 + CommonLength(p[1..], q[1..]) else 0
  }

  lemma {:induction false} CommonPrefixAgrees(p: seq<string>, q: seq<string>)
    ensures var n := CommonLength(p, q); p[..n] == q[..n] && (n < |p| && n < |q| ==> p[n] != q[n])
  {
    var n := CommonLength(p, q);
    if n > 0 {
      CommonPrefixAgrees(p[1..], q[1..]);
      assert p[..n] == [p[0]] + p[1..][..n - 1] && q[..n] == [q[0]] + q[1..][..n - 1];
    }
  }

  function Ups(n: nat): (u: seq<string>)
    ensures |u| == n && forall i :: 0 <= i < n ==> u[i] == ".."
  {
    seq(n, i => "..")
  }

  /** Up to the common ancestor, then down to the destination. */
  function Relative(p: seq<string>, q: seq<string>): seq<string>
  {
    var n := CommonLength(p, q);
    Ups(|p| - n) + q[n..]
  }

  lemma KeepName(names: seq<string>, rest: seq<string>)
    requires rest != []
    ensures names + NonEmpty(rest) == (if rest[0] != "" then names + [rest[0]] else names) + NonEmpty(rest[1..])
  {
    Regroup(names, [rest[0]], NonEmpty(rest[1..]));
  }

  // ----- the computation

  method NonEmptyPieces(path: string) returns (names: seq<string>)
    requires |path| + 1 < NPOS
    ensures names == Names(path)
  {
    names := [];
    var it := new SplitIterator(path, SLASH);
    ghost var rest := it.ToCome();
    while it.begin != NPOS
      invariant it.Valid() && fresh(it) && it.str == path && it.separators == SLASH
      invariant rest == it.ToCome() && names + NonEmpty(rest) == Names(path)
      decreases NPOS - it.begin
    {
      var piece := it.currentSubstr;
      assert rest[0] == piece && rest[1..] == it.Remaining();
      KeepName(names, rest);
      if piece != "" {
        names := names + [piece];
      }
      it.Next();
      rest := it.ToCome();
    }
  }

  ghost predicate AllNames(p: seq<string>)
  {
    forall i :: 0 <= i < |p| ==> p[i] != "" && SeparatorFree(p[i], SLASH)
  }

  lemma JoinEndsInName(p: seq<string>, x: string)
    requires x != "" && SeparatorFree(x, SLASH)
    ensures var s := Join(p + [x], '/'); s != "" && s[|s| - 1] != '/'
  {
    JoinSnoc(p, x, '/');
    var s := Join(p + [x], '/');
    assert s[|s| - |x|..] == x;
    assert s[|s| - 1] == x[|x| - 1];
  }

  lemma JoinAppends(p: seq<string>, x: string)
    requires AllNames([x]) && AllNames(p)
    ensures FileJoin(Join(p, '/'), x) == Join(p + [x], '/')
  {
    assert [x][0] == x && !IsAbsolutePath(x);
    JoinSnoc(p, x, '/');
    if p == [] {
      assert Join(p, '/') == "";
    } else {
      JoinOfNames(p);
    }
  }

  lemma JoinOfNames(p: seq<string>)
    requires p != [] && AllNames(p)
    ensures var s := Join(p, '/'); s != "" && s[|s| - 1] != '/'
  {
    var l := |p| - 1;
    assert p == p[..l] + [p[l]];
    JoinEndsInName(p[..l], p[l]);
  }

  lemma PieceNames(path: string)
    ensures AllNames(Names(path))
  {
    PiecesAreSlashFree(path);
    NonEmptyNames(Pieces(path, SLASH));
  }

  lemma {:induction false} NonEmptyNames(p: seq<string>)
    requires forall i :: 0 <= i < |p| ==> SeparatorFree(p[i], SLASH)
    ensures AllNames(NonEmpty(p)) && forall x :: x in NonEmpty(p) ==> x in p
  {
    if p != [] {
      NonEmptyNames(p[1..]);
    }
  }

  method StripCommonPrefix(p: seq<string>, q: seq<string>) returns (path1List: seq<string>, path2List: seq<string>)
    ensures var n := CommonLength(p, q); path1List == p[n..] && path2List == q[n..]
  {
    path1List, path2List := p, q;
    ghost var common := 0;
    while path1List != [] && path2List != [] && path1List[0] == path2List[0]
      invariant common <= |p| && common <= |q| && path1List == p[common..] && path2List == q[common..]
      invariant CommonLength(p, q) == common + CommonLength(path1List, path2List)
    {
      assert p[common..][1..] == p[common + 1..] && q[common..][1..] == q[common + 1..];
      path1List := path1List[1..];
      path2List := path2List[1..];
      common := common + 1;
    }
  }

  method CdUp(path1List: seq<string>) returns (result: string)
    ensures result == Join(Ups(|path1List|), '/')
  {
    result := "";
    var i := |path1List|;
    while i > 0
      invariant 0 <= i <= |path1List| && result == Join(Ups(|path1List| - i), '/')
      decreases i
    {
      JoinAppends(Ups(|path1List| - i), "..");
      assert Ups(|path1List| - i) + [".."] == Ups(|path1List| - (i - 1));
      result := FileJoin(result, "..");
      i := i - 1;
    }
  }

  method CdDown(start: string, path2List: seq<string>, ghost ups: seq<string>) returns (result: string)
    requires AllNames(ups) && AllNames(path2List) && start == Join(ups, '/')
    ensures result == Join(ups + path2List, '/')
  {
    result := start;
    var i := 0;
    assert ups + path2List[..0] == ups;
    while i < |path2List|
      invariant 0 <= i <= |path2List| && result == Join(ups + path2List[..i], '/')
    {
      JoinAppends(ups + path2List[..i], path2List[i]);
      assert (ups + path2List[..i]) + [path2List[i]] == ups + path2List[..i + 1];
      result := FileJoin(result, path2List[i]);
      i := i + 1;
    }
    assert path2List[..i] == path2List;
  }

  /** Unless both paths are absolute the second comes back unchanged. */
  method FileRelativePath(path1: string, path2: string) returns (result: string)
    requires |path1| + 1 < NPOS && |path2| + 1 < NPOS
    ensures result == if IsAbsolutePath(path1) && IsAbsolutePath(path2)
                      then Join(Relative(Names(path1), Names(path2)), '/') else path2
  {
    if path1 == "" || path1[0] != '/' {
      return path2;
    }
    if path2 == "" || path2[0] != '/' {
      return path2;
    }
    var path1List := NonEmptyPieces(path1);
    var path2List := NonEmptyPieces(path2);
    PieceNames(path2);
    path1List, path2List := StripCommonPrefix(path1List, path2List);
    result := CdUp(path1List);
    result := CdDown(result, path2List, Ups(|path1List|));
  }

  // ----- the round trip

  lemma {:induction false} NonEmptyConcat(p: seq<string>, q: seq<string>)
    ensures NonEmpty(p + q) == NonEmpty(p) + NonEmpty(q)
  {
    if p == [] {
      assert p + q == q;
    } else {
      NonEmptyConcat(p[1..], q);
      assert (p + q)[1..] == p[1..] + q;
      if p[0] != "" {
        Regroup([p[0]], NonEmpty(p[1..]), NonEmpty(q));
      }
    }
  }

  lemma {:induction false} NonEmptyOfNames(p: seq<string>)
    requires AllNames(p)
    ensures NonEmpty(p) == p
  {
    if p != [] {
      NonEmptyOfNames(p[1..]);
    }
  }

  /** Parents taken one by one remove the last names, down to the entry that marks the root. */
  lemma {:induction false} WalkUps(stack: seq<string>, n: nat, rest: seq<string>)
    requires n < |stack|
    ensures Walk(stack, Ups(n) + rest, true) == Walk(stack[..|stack| - n], rest, true)
  {
    if n == 0 {
      assert Ups(0) + rest == rest && stack[..|stack|] == stack;
    } else {
      assert (Ups(n) + rest)[1..] == Ups(n - 1) + rest;
      var shorter := stack[..|stack| - 1];
      WalkUps(shorter, n - 1, rest);
      assert shorter[..|shorter| - (n - 1)] == stack[..|stack| - n];
    }
  }

  lemma {:induction false} WalkDown(stack: seq<string>, names: seq<string>, rest: seq<string>)
    requires forall i :: 0 <= i < |names| ==> Proper(names[i])
    ensures Walk(stack, names + rest, true) == Walk(stack + names, rest, true)
    decreases |names|
  {
    if names == [] {
      assert names + rest == rest && stack + names == stack;
    } else {
      assert (names + rest)[1..] == names[1..] + rest;
      WalkDown(stack + [names[0]], names[1..], rest);
      assert (stack + [names[0]]) + names[1..] == stack + names;
    }
  }

  ghost predicate ProperNames(p: seq<string>)
  {
    AllNames(p) && forall i :: 0 <= i < |p| ==> Proper(p[i])
  }

  /** An absolute path without empty components after its first slash is a slash followed by its names. */
  lemma AbsoluteIsItsNames(path: string)
    requires IsAbsolutePath(path)
    requires forall i :: 1 <= i < |Pieces(path, SLASH)| ==> Pieces(path, SLASH)[i] != ""
    ensures Pieces(path, SLASH) == [""] + Names(path)
    ensures path == (if Names(path) == [] then "/" else Join([""] + Names(path), '/'))
  {
    AbsoluteStartsEmpty(path);
    PiecesAreSlashFree(path);
    var p := Pieces(path, SLASH);
    NonEmptyOfNames(p[1..]);
    assert Names(path) == p[1..] && p == [""] + p[1..];
    if path != "/" {
      SplitRejoins(path, '/');
    }
  }

  lemma JoinedText(a: seq<string>, r: string)
    requires AllNames(a) && !IsAbsolutePath(r)
    ensures FileJoin(if a == [] then "/" else Join([""] + a, '/'), r) == Join([""] + a, '/') + "/" + r
  {
    if a != [] {
      var l := |a| - 1;
      assert [""] + a == ([""] + a[..l]) + [a[l]];
      JoinEndsInName([""] + a[..l], a[l]);
    }
  }

  lemma JoinedPieces(a: seq<string>, rel: seq<string>)
    requires AllNames(a) && AllNames(rel)
    ensures Pieces(FileJoin(if a == [] then "/" else Join([""] + a, '/'), Join(rel, '/')), SLASH)
            == ([""] + a) + (if rel == [] && a != [] then [""] else rel)
  {
    var r := Join(rel, '/');
    var tail := if rel == [] then [""] else rel;
    assert !IsAbsolutePath(r) by {
      if rel != [] {
        assert r[0] == rel[0][0];
      }
    }
    JoinedText(a, r);
    JoinConcat([""] + a, tail);
    PiecesOfJoin(([""] + a) + tail);
    if a == [] && rel == [] {
      assert ([""] + a) + tail == ["", ""] && ([""] + a) + rel == [""];
    } else {
      assert (([""] + a) + tail)[0] == "" && |([""] + a) + tail| >= 2;
      assert ([""] + a) + tail != ["", ""] by {
        assert (([""] + a) + tail)[1] == if a == [] then rel[0] else a[0];
      }
    }
  }

  lemma {:induction false} JoinConcat(p: seq<string>, q: seq<string>)
    requires p != [] && q != []
    ensures Join(p + q, '/') == Join(p, '/') + ['/'] + Join(q, '/')
    decreases |p|
  {
    assert (p + q)[1..] == p[1..] + q;
    if |p| == 1 {
      assert p[1..] + q == q;
    } else {
      JoinConcat(p[1..], q);
      assert p[0] + ['/'] + (Join(p[1..], '/') + ['/'] + Join(q, '/'))
          == (p[0] + ['/'] + Join(p[1..], '/')) + ['/'] + Join(q, '/');
    }
  }

  lemma JoinWithRoot(names: seq<string>, extra: seq<string>)
    requires ProperNames(names) && (extra == [] || extra == [""])
    ensures Names(Join([""] + names + extra, '/')) == names
  {
    var all := [""] + names + extra;
    PiecesOfJoin(all);
    NonEmptyOfNames(names);
    NonEmptyConcat([""] + names, extra);
    NonEmptyConcat([""], names);
    assert NonEmpty([""]) == [] && NonEmpty(extra) == [];
    assert names == [] ==> NonEmpty(Pieces(Join(all, '/'), SLASH)) == [];
  }

  lemma WalkFromRoot(root: seq<string>, rest: seq<string>)
    requires forall i :: 0 <= i < |root| ==> Proper(root[i])
    ensures Walk([], root + rest, true) == Walk(root, rest, true)
  {
    WalkDown([], root, rest);
    assert [] + root == root;
  }

  lemma WalkBackAndForth(a: seq<string>, k: nat, down: seq<string>)
    requires AllProper(a) && AllProper(down) && k <= |a|
    ensures Walk([], ([""] + a) + (Ups(k) + down), true) == Some(([""] + a[..|a| - k]) + down)
  {
    var root, near := [""] + a, [""] + a[..|a| - k];
    WalkFromRoot(root, Ups(k) + down);
    assert root[..|root| - k] == near;
    WalkUps(root, k, down);
    WalkProper(near, down, true);
  }

  lemma WalkRelative(a: seq<string>, b: seq<string>, extra: seq<string>)
    requires ProperNames(a) && ProperNames(b) && (extra == [] || extra == [""])
    ensures Walk([], ([""] + a) + (Relative(a, b) + extra), true) == Some(([""] + b) + extra)
  {
    var n := CommonLength(a, b);
    CommonPrefixAgrees(a, b);
    Regroup(Ups(|a| - n), b[n..], extra);
    WalkAcross(a, b, n, b[n..] + extra);
    RejoinAt(b, n, extra);
  }

  /** Back to a common ancestor and on from there. */
  lemma WalkAcross(a: seq<string>, b: seq<string>, n: nat, down: seq<string>)
    requires AllProper(a) && AllProper(down) && n <= |a| && n <= |b| && a[..n] == b[..n]
    ensures Walk([], ([""] + a) + (Ups(|a| - n) + down), true) == Some(([""] + b[..n]) + down)
  {
    WalkBackAndForth(a, |a| - n, down);
    assert |a| - (|a| - n) == n;
  }

  lemma RejoinAt(b: seq<string>, n: nat, extra: seq<string>)
    requires n <= |b|
    ensures ([""] + b[..n]) + (b[n..] + extra) == ([""] + b) + extra
  {
  }

  lemma FollowedPieces(path: string, rel: seq<string>)
    requires IsAbsolutePath(path) && AllNames(rel)
    requires forall i :: 1 <= i < |Pieces(path, SLASH)| ==> Pieces(path, SLASH)[i] != ""
    ensures var extra := if rel == [] && Names(path) != [] then [""] else [];
            Pieces(FileJoin(path, Join(rel, '/')), SLASH) == ([""] + Names(path)) + (rel + extra)
    ensures IsAbsolutePath(FileJoin(path, Join(rel, '/')))
  {
    var a := Names(path);
    PieceNames(path);
    AbsoluteIsItsNames(path);
    JoinedPieces(a, rel);
    if rel == [] && a != [] {
      assert rel + [""] == [""];
    } else {
      assert rel + [] == rel;
    }
  }

  /** Following the relative path from the first directory ends at the names of the second. */
  lemma RelativeRoundTrip(path1: string, path2: string)
    requires IsAbsolutePath(path1) && IsAbsolutePath(path2)
    requires forall i :: 1 <= i < |Pieces(path1, SLASH)| ==> Pieces(path1, SLASH)[i] != ""
    requires ProperNames(Names(path1)) && ProperNames(Names(path2))
    ensures var rel := Join(Relative(Names(path1), Names(path2)), '/');
            var back := Canonical(FileJoin(path1, rel));
            back.Some? && Names(back.value) == Names(path2)
  {
    var a, b := Names(path1), Names(path2);
    var rel := Relative(a, b);
    var extra := if rel == [] && a != [] then [""] else [];
    FollowedPieces(path1, rel);
    WalkRelative(a, b, extra);
    JoinWithRoot(b, extra);
  }

  // ----- no shorter way up

  function CountUps(p: seq<string>): nat
  {
    if p == [] then 0 else (if p[0] == ".." then 1 else 0) + CountUps(p[1..])
  }

  lemma {:induction false} CountUpsOfRelative(n: nat, down: seq<string>)
    requires forall i :: 0 <= i < |down| ==> down[i] != ".."
    ensures CountUps(Ups(n) + down) == n
    decreases n + |down|
  {
    if n > 0 {
      assert (Ups(n) + down)[1..] == Ups(n - 1) + down;
      CountUpsOfRelative(n - 1, down);
    } else if down != [] {
      assert Ups(0) + down == down && Ups(0) + down[1..] == down[1..];
      CountUpsOfRelative(0, down[1..]);
    }
  }

  /** Each parent taken can undo one name at most. */
  lemma {:induction false} PrefixSurvives(dir: seq<string>, way: seq<string>)
    requires CountUps(way) <= |dir|
    ensures dir[..|dir| - CountUps(way)] <= Resolve(dir, way)
    decreases |way|
  {
    if way != [] {
      var next := Enter(dir, way[0]);
      PrefixSurvives(next, way[1..]);
      if way[0] == ".." {
        assert next[..|next| - CountUps(way[1..])] == dir[..|dir| - CountUps(way)];
      } else {
        var keep := |dir| - CountUps(way[1..]);
        assert next[..keep] == dir[..keep] && dir[..keep] <= next[..|next| - CountUps(way[1..])];
      }
    }
  }

  lemma RelativeArrives(p: seq<string>, q: seq<string>)
    requires ProperNames(p) && ProperNames(q)
    ensures Resolve(p, Relative(p, q)) == q && CountUps(Relative(p, q)) == |p| - CommonLength(p, q)
  {
    var n := CommonLength(p, q);
    CommonPrefixAgrees(p, q);
    ArrivesAcross(p, q, n);
    CountUpsOfRelative(|p| - n, q[n..]);
  }

  lemma ArrivesAcross(p: seq<string>, q: seq<string>, n: nat)
    requires ProperNames(q) && n <= |p| && n <= |q| && p[..n] == q[..n]
    ensures Resolve(p, Ups(|p| - n) + q[n..]) == q
  {
    ResolveUps(p, |p| - n, q[n..]);
    assert |p| - (|p| - n) == n;
    ResolveNames(q[..n], q[n..]);
    assert q[..n] + q[n..] == q;
  }

  /** The relative path arrives, and no list of components that arrives takes fewer parents. */
  lemma RelativeIsShortestUp(p: seq<string>, q: seq<string>, way: seq<string>)
    requires ProperNames(p) && ProperNames(q) && Resolve(p, way) == q
    ensures Resolve(p, Relative(p, q)) == q && CountUps(Relative(p, q)) <= CountUps(way)
  {
    RelativeArrives(p, q);
    if CountUps(way) <= |p| {
      PrefixSurvives(p, way);
      CommonLengthIsMaximal(p, q, |p| - CountUps(way));
    }
  }

  lemma {:induction false} CommonLengthIsMaximal(p: seq<string>, q: seq<string>, keep: nat)
    requires keep <= |p| && p[..keep] <= q
    ensures keep <= CommonLength(p, q)
  {
    if keep > 0 {
      assert p[..keep][0] == p[0] && p[1..][..keep - 1] == p[..keep][1..];
      CommonLengthIsMaximal(p[1..], q[1..], keep - 1);
    }
  }

  lemma {:induction false} ResolveUps(dir: seq<string>, n: nat, rest: seq<string>)
    requires n <= |dir|
    ensures Resolve(dir, Ups(n) + rest) == Resolve(dir[..|dir| - n], rest)
  {
    if n == 0 {
      assert Ups(0) + rest == rest && dir[..|dir|] == dir;
    } else {
      assert (Ups(n) + rest)[1..] == Ups(n - 1) + rest;
      var up := dir[..|dir| - 1];
      ResolveUps(up, n - 1, rest);
      assert up[..|up| - (n - 1)] == dir[..|dir| - n];
    }
  }
}
