/**
  Path algebra of the utility library: canonicalisation with a component stack, joining, and the relative path
  between two absolute directories.

  The meaning of a path is the directory it leads to. Directories are lists of names from the root; a path is
  resolved component by component, with ".." clamped at the root (`Resolve`).
 */
module Paths {
  import opened Basics
  import opened Splitting

  const SLASH: set<char> := {'/'}

  /** Indexing an empty string at 0 reads its terminator, which is no slash. */
  predicate IsAbsolutePath(path: string)
  {
    path != "" && path[0] == '/'
  }

  /** A leading `~user` is replaced by what the home lookup gives; the lookup leaves an unknown user alone. */
  function ExpandTildeUser(original: string, home: string -> string): string
  {
    if original != "" && original[0] == '~' then
      var slashIdx := FindSeparator(original, SLASH, 0);
      home(original[..slashIdx]) + original[slashIdx..]
    else original
  }

  // ----- what a path means

  /** One component taken from a directory: up is clamped at the root. */
  function Enter(dir: seq<string>, component: string): seq<string>
  {
    if component == "" || component == "." then dir
    else if component == ".." then (if dir == [] then [] else dir[..|dir| - 1])
    else dir + [component]
  }

  function Resolve(dir: seq<string>, components: seq<string>): seq<string>
    decreases |components|
  {
    if components == [] then dir else Resolve(Enter(dir, components[0]), components[1..])
  }

  /** The directory a path leads to, seen from the directory `base`. */
  function Destination(base: seq<string>, path: string): seq<string>
  {
    Resolve(if IsAbsolutePath(path) then [] else base, Pieces(path, SLASH))
  }

  lemma {:induction false} ResolveConcat(dir: seq<string>, p: seq<string>, q: seq<string>)
    ensures Resolve(dir, p + q) == Resolve(Resolve(dir, p), q)
    decreases |p|
  {
    if p == [] {
      assert p + q == q;
    } else {
      assert (p + q)[1..] == p[1..] + q;
      ResolveConcat(Enter(dir, p[0]), p[1..], q);
    }
  }

  // ----- the component stack

  ghost predicate Proper(name: string)
  {
    name != "." && name != ".."
  }

  ghost predicate AllProper(names: seq<string>)
  {
    forall i :: 0 <= i < |names| ==> Proper(names[i]) && SeparatorFree(names[i], SLASH)
  }

  ghost predicate AllNamed(names: seq<string>)
  {
    AllProper(names) && forall i :: 0 <= i < |names| ==> names[i] != ""
  }

  /** The stack after the remaining components; None when a relative path backs out of its start. */
  function Walk(stack: seq<string>, dirs: seq<string>, absolute: bool): Option<seq<string>>
    decreases |dirs|
  {
    if dirs == [] then Some(stack)
    else if dirs[0] == "." then Walk(stack, dirs[1..], absolute)
    else if dirs[0] == ".." then
      if absolute then Walk(if |stack| > 1 then stack[..|stack| - 1] else stack, dirs[1..], absolute)
      else if |stack| == 0 then None
      else Walk(stack[..|stack| - 1], dirs[1..], absolute)
    else Walk(stack + [dirs[0]], dirs[1..], absolute)
  }

  function Canonical(path: string): Option<string>
  {
    match Walk([], Pieces(path, SLASH), IsAbsolutePath(path))
    case None => None
    case Some(stack) => Some(Join(stack, '/'))
  }

  lemma {:induction false} JoinSnoc(p: seq<string>, x: string, c: char)
    ensures Join(p + [x], c) == if p == [] then x else Join(p, c) + [c] + x
  {
    if |p| > 1 {
      assert (p + [x])[1..] == p[1..] + [x];
      JoinSnoc(p[1..], x, c);
      assert p[0] + [c] + (Join(p[1..], c) + [c] + x) == (p[0] + [c] + Join(p[1..], c)) + [c] + x;
    }
  }

  lemma JoinNext(p: seq<string>, i: nat)
    requires i < |p|
    ensures Join(p[..i + 1], '/') == if i == 0 then p[0] else (Join(p[..i], '/') + "/") + p[i]
  {
    JoinSnoc(p[..i], p[i], '/');
    assert p[..i] + [p[i]] == p[..i + 1];
  }

  /** The stack back as text, component by component. */
  method Print(path: seq<string>, isUnderflow: bool) returns (canonical: string)
    requires isUnderflow ==> path == []
    ensures canonical == Join(path, '/')
  {
    canonical := "";
    var isFirst := true;
    var i := 0;
    while i < |path|
      invariant 0 <= i <= |path| && isFirst == (i == 0) && canonical == Join(path[..i], '/')
    {
      JoinNext(path, i);
      if !isFirst {
        canonical := canonical + "/";
      }
      if !isUnderflow {
        canonical := canonical + path[i];
      }
      assert canonical == Join(path[..i + 1], '/');
      isFirst := false;
      i := i + 1;
    }
    assert path[..i] == path;
  }

  /**
    `exited` is the call of exit() that a caller asks for with `fail`. Without it a path that backs out of its
    start yields the empty string and false.
   */
  method CanonicalFilename(original: string, fail: bool, home: string -> string)
    returns (canonical: string, ok: bool, exited: bool)
    requires |ExpandTildeUser(original, home)| + 1 < NPOS
    ensures var c := Canonical(ExpandTildeUser(original, home));
            ok == c.Some? && exited == (fail && c.None?) && canonical == if c.Some? then c.value else ""
  {
    canonical := ExpandTildeUser(original, home);
    exited := false;
    ghost var all := Pieces(canonical, SLASH);
    ghost var absolute := IsAbsolutePath(canonical);
    var path: seq<string> := [];
    var isUnderflow := false;
    var it := new SplitIterator(canonical, SLASH);
    ghost var rest := it.ToCome();
    while it.begin != NPOS && !isUnderflow
      invariant it.Valid() && fresh(it) && it.str == canonical && it.separators == SLASH
      invariant rest == it.ToCome()
      invariant !isUnderflow ==> Walk([], all, absolute) == Walk(path, rest, absolute)
      invariant isUnderflow ==> Walk([], all, absolute) == None && path == [] && !fail
      decreases !isUnderflow, NPOS - it.begin
    {
      var dir := it.currentSubstr;
      assert rest[0] == dir && rest[1..] == it.Remaining();
      if dir == "." {
      } else if dir == ".." {
        if IsAbsolutePath(canonical) {
          if |path| > 1 {
            path := path[..|path| - 1];
          }
        } else if |path| == 0 {
          if fail {
            return "", false, true;
          }
          isUnderflow := true;
        } else {
          path := path[..|path| - 1];
        }
      } else {
        path := path + [dir];
      }
      if !isUnderflow {
        it.Next();
        rest := it.ToCome();
      }
    }

    canonical := Print(path, isUnderflow);
    ok := !isUnderflow;
  }

  // ----- the result holds no "." and no ".."

  lemma PiecesAreSlashFree(path: string)
    ensures forall i :: 0 <= i < |Pieces(path, SLASH)| ==> SeparatorFree(Pieces(path, SLASH)[i], SLASH)
  {
    SplitPieces(path, SLASH);
  }

  lemma {:induction false} WalkKeepsProper(stack: seq<string>, dirs: seq<string>, absolute: bool)
    requires AllProper(stack) && forall i :: 0 <= i < |dirs| ==> SeparatorFree(dirs[i], SLASH)
    ensures var w := Walk(stack, dirs, absolute); w.Some? ==> AllProper(w.value)
    decreases |dirs|
  {
    if dirs != [] {
      var d := dirs[0];
      if d == "." {
        WalkKeepsProper(stack, dirs[1..], absolute);
      } else if d == ".." {
        if stack != [] {
          WalkKeepsProper(stack[..|stack| - 1], dirs[1..], absolute);
        }
        WalkKeepsProper(stack, dirs[1..], absolute);
      } else {
        WalkKeepsProper(stack + [d], dirs[1..], absolute);
      }
    }
  }

  /** The pieces of a joined list are the list again, but for the two lists that join to nothing and to a slash. */
  lemma {:induction false} PiecesOfJoin(p: seq<string>)
    requires forall i :: 0 <= i < |p| ==> SeparatorFree(p[i], SLASH)
    ensures Pieces(Join(p, '/'), SLASH) == if p == [""] then [] else if p == ["", ""] then [""] else p
  {
    if p != [] {
      JoinSplits(p, '/');
      var s := Join(p, '/');
      if s == "" {
        assert Split("", SLASH) == [""];
      } else if |s| == 1 && s[0] in SLASH {
        assert s == "/" && Join(["", ""], '/') == "" + ['/'] + Join(["", ""][1..], '/');
        assert ["", ""][1..] == [""];
        JoinSplits(["", ""], '/');
      }
    }
  }

  lemma CanonicalIsClean(path: string)
    requires Canonical(path).Some?
    ensures forall x :: x in Pieces(Canonical(path).value, SLASH) ==> x != "." && x != ".."
  {
    PiecesAreSlashFree(path);
    WalkKeepsProper([], Pieces(path, SLASH), IsAbsolutePath(path));
    PiecesOfJoin(Walk([], Pieces(path, SLASH), IsAbsolutePath(path)).value);
  }

  // ----- canonicalising twice

  lemma {:induction false} WalkProper(stack: seq<string>, dirs: seq<string>, absolute: bool)
    requires AllProper(dirs)
    ensures Walk(stack, dirs, absolute) == Some(stack + dirs)
    decreases |dirs|
  {
    if dirs == [] {
      assert stack + dirs == stack;
    } else {
      assert Proper(dirs[0]);
      WalkProper(stack + [dirs[0]], dirs[1..], absolute);
      assert (stack + [dirs[0]]) + dirs[1..] == stack + dirs;
    }
  }

  /**
    Canonicalising a canonical path changes nothing, with one exception: the result "/" (as for "/a/../") becomes
    empty. A result that begins with a tilde is looked up again and is not meant here.
   */
  lemma CanonicalTwice(path: string)
    requires Canonical(path).Some?
    ensures var c := Canonical(path).value; Canonical(c) == Some(if c == "/" then "" else c)
  {
    PiecesAreSlashFree(path);
    WalkKeepsProper([], Pieces(path, SLASH), IsAbsolutePath(path));
    var p := Walk([], Pieces(path, SLASH), IsAbsolutePath(path)).value;
    var c := Join(p, '/');
    PiecesOfJoin(p);
    var q := Pieces(c, SLASH);
    assert AllProper(q);
    WalkProper([], q, IsAbsolutePath(c));
    assert [] + q == q;
    if p == ["", ""] {
      assert p[1..] == [""] && c == "/";
    }
    if c == "/" {
      assert Pieces("/", SLASH) == [""];
    }
  }

  // ----- failing

  /** Names pushed less parents taken; like the stack it takes an empty component for a name. */
  function Depth(dirs: seq<string>): int
  {
    if dirs == [] then 0
    else Depth(dirs[..|dirs| - 1]) + (var d := dirs[|dirs| - 1]; if d == "." then 0 else if d == ".." then -1 else 1)
  }

  ghost predicate DipsBelow(dirs: seq<string>, n: nat)
  {
    exists k :: 0 <= k <= |dirs| && n + Depth(dirs[..k]) < 0
  }

  lemma {:induction false} DepthCons(d: string, dirs: seq<string>)
    ensures Depth([d] + dirs) == Depth([d]) + Depth(dirs)
    decreases |dirs|
  {
    if dirs == [] {
      assert [d] + dirs == [d];
    } else {
      var l := |dirs| - 1;
      assert ([d] + dirs)[..|[d] + dirs| - 1] == [d] + dirs[..l];
      DepthCons(d, dirs[..l]);
    }
  }

  lemma DipsInTail(dirs: seq<string>, n: nat)
    requires dirs != [] && n + Depth([dirs[0]]) >= 0 && DipsBelow(dirs, n)
    ensures DipsBelow(dirs[1..], n + Depth([dirs[0]]))
  {
    var k :| 0 <= k <= |dirs| && n + Depth(dirs[..k]) < 0;
    assert k > 0;
    var rest := dirs[1..][..k - 1];
    assert dirs[..k] == [dirs[0]] + rest;
    DepthCons(dirs[0], rest);
  }

  lemma TailDips(dirs: seq<string>, n: nat)
    requires dirs != [] && n + Depth([dirs[0]]) >= 0 && DipsBelow(dirs[1..], n + Depth([dirs[0]]))
    ensures DipsBelow(dirs, n)
  {
    var k :| 0 <= k <= |dirs[1..]| && n + Depth([dirs[0]]) + Depth(dirs[1..][..k]) < 0;
    var rest := dirs[1..][..k];
    assert dirs[..k + 1] == [dirs[0]] + rest;
    DepthCons(dirs[0], rest);
  }

  lemma {:induction false} WalkUnderflows(stack: seq<string>, dirs: seq<string>)
    ensures Walk(stack, dirs, false) == None <==> DipsBelow(dirs, |stack|)
    decreases |dirs|
  {
    if dirs != [] {
      var d := dirs[0];
      assert [d][..0] == [] && Depth([d]) == if d == "." then 0 else if d == ".." then -1 else 1;
      if d == ".." && stack == [] {
        assert dirs[..1] == [d];
      } else {
        if DipsBelow(dirs, |stack|) {
          DipsInTail(dirs, |stack|);
        }
        if DipsBelow(dirs[1..], |stack| + Depth([d])) {
          TailDips(dirs, |stack|);
        }
        WalkUnderflows(if d == "." then stack else if d == ".." then stack[..|stack| - 1] else stack + [d], dirs[1..]);
      }
    }
  }

  lemma {:induction false} AbsoluteNeverUnderflows(stack: seq<string>, dirs: seq<string>)
    ensures Walk(stack, dirs, true).Some?
    decreases |dirs|
  {
    if dirs != [] {
      var d := dirs[0];
      AbsoluteNeverUnderflows(if d == "." then stack
                              else if d == ".." then (if |stack| > 1 then stack[..|stack| - 1] else stack)
                              else stack + [d], dirs[1..]);
    }
  }

  /**
    Only a relative path fails, and it fails exactly when some prefix takes more parents than it has names, where empty
    components count as names.
   */
  lemma FailsIffAboveStart(path: string)
    ensures Canonical(path) == None <==> !IsAbsolutePath(path) && DipsBelow(Pieces(path, SLASH), 0)
  {
    if IsAbsolutePath(path) {
      AbsoluteNeverUnderflows([], Pieces(path, SLASH));
    } else {
      WalkUnderflows([], Pieces(path, SLASH));
    }
  }

  lemma {:induction false} ResolveNames(dir: seq<string>, names: seq<string>)
    requires AllNamed(names)
    ensures Resolve(dir, names) == dir + names
    decreases |names|
  {
    if names == [] {
      assert dir + names == dir;
    } else {
      assert Proper(names[0]) && names[0] != "";
      ResolveNames(dir + [names[0]], names[1..]);
      assert (dir + [names[0]]) + names[1..] == dir + names;
    }
  }

  lemma AbsoluteStartsEmpty(path: string)
    requires IsAbsolutePath(path)
    ensures Pieces(path, SLASH) != [] && Pieces(path, SLASH)[0] == ""
  {
    assert FindSeparator(path, SLASH, 0) == 0;
  }

  lemma FirstPieceNotEmpty(path: string)
    requires !IsAbsolutePath(path)
    ensures Pieces(path, SLASH) == [] || Pieces(path, SLASH)[0] != ""
  {
    if path != "" {
      assert FindSeparator(path, SLASH, 0) > 0;
    }
  }
}
