/**
  Where the results of joining and expanding paths lead: the directory a joined path comes to, home directories, and
  paths placed under a base directory.
 */
module PathPlacing {
  import opened Splitting
  import opened Paths
  import opened RelativePaths

  // ----- following one path after another

  /** The special cases of the iterator make no difference to where a path leads. */
  lemma PiecesLead(dir: seq<string>, s: string)
    ensures Resolve(dir, Pieces(s, SLASH)) == Resolve(dir, Split(s, SLASH))
  {
    if s == "" {
      assert Split(s, SLASH) == [""];
    } else if |s| == 1 && s[0] in SLASH {
      assert s[1..] == "" && Split("", SLASH) == [""];
      assert Split(s, SLASH) == [""] + [""];
      ResolveConcat(dir, [""], [""]);
    }
  }

  lemma Leads(base: seq<string>, path: string)
    ensures Destination(base, path) == Resolve(if path != "" && path[0] == '/' then [] else base, Split(path, SLASH))
  {
    PiecesLead(if IsAbsolutePath(path) then [] else base, path);
  }

  lemma {:induction false} SplitAcross(a: string, b: string)
    ensures Split((a + "/") + b, SLASH) == Split(a, SLASH) + Split(b, SLASH)
    decreases |a|
  {
    var k := FindSeparator(a, SLASH, 0);
    if k == |a| {
      SplitOnce(a, b, '/');
    } else {
      var x, rest := a[..k], a[k + 1..];
      SplitAcross(rest, b);
      SplitOnce(x, (rest + "/") + b, '/');
      AcrossText(a, b, k);
      Together(x, Split(rest, SLASH), Split(b, SLASH));
    }
  }

  lemma AcrossText(a: string, b: string, k: nat)
    requires k < |a| && a[k] == '/'
    ensures (a + "/") + b == (a[..k] + "/") + ((a[k + 1..] + "/") + b)
  {
    assert a == (a[..k] + "/") + a[k + 1..];
  }

  lemma Together(x: string, p: seq<string>, q: seq<string>)
    ensures [x] + (p + q) == ([x] + p) + q
  {
  }

  /** A slash between two paths: first the one, then the other from there. */
  lemma SlashLeads(base: seq<string>, a: string, b: string)
    requires a != "" && (b == "" || b[0] != '/')
    ensures Destination(base, (a + "/") + b) == Destination(Destination(base, a), b)
  {
    var start := if a[0] == '/' then [] else base;
    assert ((a + "/") + b)[0] == a[0];
    Leads(base, (a + "/") + b);
    Leads(base, a);
    SplitAcross(a, b);
    ResolveConcat(start, Split(a, SLASH), Split(b, SLASH));
    Leads(Resolve(start, Split(a, SLASH)), b);
  }

  lemma EmptyLeads(base: seq<string>)
    ensures Destination(base, "") == base
  {
  }

  lemma RootLeads(base: seq<string>, b: string)
    requires b == "" || b[0] != '/'
    ensures Destination(base, "/" + b) == Destination([], b)
  {
    assert ("" + "/") + b == "/" + b;
    SplitAcross("", b);
    assert Split("", SLASH) == [""];
    Leads(base, "/" + b);
    ResolveConcat([], [""], Split(b, SLASH));
    Leads([], b);
  }

  /** Behind a slash at the end. */
  lemma ClosedLeads(base: seq<string>, a: string, b: string)
    requires a != "" && a[|a| - 1] == '/' && (b == "" || b[0] != '/')
    ensures Destination(base, a + b) == Destination(Destination(base, a), b)
  {
    var front := a[..|a| - 1];
    assert a == front + "/" == (front + "/") + "";
    if front == "" {
      assert a == "/" == "/" + "";
      RootLeads(base, b);
      RootLeads(base, "");
      EmptyLeads([]);
    } else {
      SlashLeads(base, front, b);
      SlashLeads(base, front, "");
      EmptyLeads(Destination(base, front));
    }
  }

  /** A joined path leads where the second leads from where the first one leads; an absolute one drops the first. */
  lemma JoinLeads(base: seq<string>, name1: string, name2: string)
    ensures Destination(base, FileJoin(name1, name2))
         == if name2 != "" && name2[0] == '/' then Destination(base, name2)
            else Destination(Destination(base, name1), name2)
    ensures name2 != "" && name2[0] == '/' ==> FileJoin(name1, name2) == name2
  {
    if name2 == "" || name2[0] != '/' {
      if name1 == "" {
        EmptyLeads(base);
      } else if name1[|name1| - 1] == '/' {
        ClosedLeads(base, name1, name2);
      } else {
        SlashLeads(base, name1, name2);
      }
    }
  }

  // ----- home directories and the base directory

  /** A tilde with the user's name, and the rest of the path from the first slash on. */
  ghost predicate Homed(path: string, user: string, rest: string)
  {
    path == user + rest && user != "" && user[0] == '~' && '/' !in user && (rest == "" || rest[0] == '/')
  }

  lemma HomedIsUnique(path: string, user: string, rest: string)
    requires Homed(path, user, rest)
    ensures var k := FindSeparator(path, SLASH, 0); path[..k] == user && path[k..] == rest
  {
    var k := FindSeparator(path, SLASH, 0);
    assert forall i :: 0 <= i < |user| ==> path[i] == user[i];
    assert forall i :: 0 <= i < |rest| ==> path[|user| + i] == rest[i];
    assert |user| < |path| ==> path[|user|] == rest[0];
    assert k == |user|;
  }

  /** The home directory takes the place of the tilde and the name, the rest stays; other paths stay as they are. */
  lemma TildeIsHome(path: string, home: string -> string)
    ensures forall user, rest :: Homed(path, user, rest) ==> ExpandTildeUser(path, home) == home(user) + rest
    ensures path == "" || path[0] != '~' ==> ExpandTildeUser(path, home) == path
    ensures path != "" && path[0] == '~' ==> exists user, rest :: Homed(path, user, rest)
  {
    forall user, rest | Homed(path, user, rest) ensures ExpandTildeUser(path, home) == home(user) + rest {
      HomedIsUnique(path, user, rest);
    }
    if path != "" && path[0] == '~' {
      var k := FindSeparator(path, SLASH, 0);
      assert Homed(path, path[..k], path[k..]);
    }
  }

  /**
    Under a base directory: an absolute path is left alone, and so is every path without a base directory; any other
    leads, from every directory, to where it leads from the base directory.
   */
  ghost predicate Under(path: string, baseDir: string, result: string)
  {
    if baseDir == "" || (path != "" && path[0] == '/') then result == path
    else forall from :: Destination(from, result) == Destination(Destination(from, baseDir), path)
  }

  /** What comes of one path: its home directory is looked up first. */
  ghost predicate ComesOut(path: string, baseDir: string, home: string -> string, result: string)
  {
    if path != "" && path[0] == '~' then
      forall user, rest :: Homed(path, user, rest) ==> Under(home(user) + rest, baseDir, result)
    else Under(path, baseDir, result)
  }

  ghost predicate AllComeOut(paths: seq<string>, baseDir: string, home: string -> string, results: seq<string>)
  {
    |results| == |paths| && forall k :: 0 <= k < |paths| ==> ComesOut(paths[k], baseDir, home, results[k])
  }

  /** Putting the base directory in front. */
  lemma PrefixIsUnder(path: string, baseDir: string)
    requires baseDir != "" && (path == "" || path[0] != '/')
    ensures Under(path, baseDir, (baseDir + "/") + path)
  {
    forall from ensures Destination(from, (baseDir + "/") + path) == Destination(Destination(from, baseDir), path) {
      SlashLeads(from, baseDir, path);
    }
  }

  lemma ExpandedComesOut(path: string, baseDir: string, home: string -> string, result: string)
    requires Under(ExpandTildeUser(path, home), baseDir, result)
    ensures ComesOut(path, baseDir, home, result)
  {
    TildeIsHome(path, home);
  }
}
