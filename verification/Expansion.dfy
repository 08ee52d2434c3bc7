/**
  Path expressions of the workspace: variables are replaced until none is left, braces are expanded to every choice of
  their options, and relative results are placed under a base directory.
 */
module Expansion {
  import opened Basics
  import opened Splitting
  import opened Paths
  import opened PathPlacing

  const OPENERS: set<char> := {'{', '('}
  const CLOSERS: set<char> := {'}', ')'}

  // ----- variables

  /** A path expression in pieces: plain text, and references such as ${name} or $(name). */
  datatype Token = Text(text: string) | Ref(open: char, name: string, close: char)

  ghost predicate WellFormed(t: Token)
  {
    match t
    case Text(s) => '$' !in s
    case Ref(o, n, c) => o in OPENERS && c in CLOSERS && n != "" && '$' !in n && SeparatorFree(n, CLOSERS)
  }

  ghost predicate AllWellFormed(tokens: seq<Token>)
  {
    forall k :: 0 <= k < |tokens| ==> WellFormed(tokens[k])
  }

  function RenderOne(t: Token): string
  {
    match t
    case Text(s) => s
    case Ref(o, n, c) => ['$', o] + n + [c]
  }

  function Render(tokens: seq<Token>): string
  {
    if tokens == [] then "" else RenderOne(tokens[0]) + Render(tokens[1..])
  }

  /**
    The definitions; `live` holds those that matter, and `rank` witnesses that none of them refers to itself, directly
    or through others.
   */
  datatype Vars = Vars(defs: map<string, seq<Token>>, live: set<string>, rank: string -> nat)

  ghost predicate Below(tokens: seq<Token>, vars: Vars, level: nat)
  {
    forall k :: 0 <= k < |tokens| && tokens[k].Ref? && tokens[k].name in vars.defs ==>
      tokens[k].name in vars.live && vars.rank(tokens[k].name) < level
  }

  ghost predicate Acyclic(vars: Vars)
  {
    forall n :: n in vars.live ==>
      n in vars.defs && AllWellFormed(vars.defs[n]) && Below(vars.defs[n], vars, vars.rank(n))
  }

  function Undefined(name: string): string
  {
    "__" + name + "_undefined__"
  }

  /** The meaning of an expression: every reference stands for the meaning of its definition. */
  ghost function Meaning(tokens: seq<Token>, vars: Vars, level: nat): string
    requires Acyclic(vars) && Below(tokens, vars, level)
    decreases level, |tokens|
  {
    if tokens == [] then ""
    else
      (match tokens[0]
       case Text(s) => s
       case Ref(_, n, _) => if n in vars.defs then Meaning(vars.defs[n], vars, vars.rank(n)) else Undefined(n))
      + Meaning(tokens[1..], vars, level)
  }

  /** How many replacements an expression needs. */
  ghost function Weight(tokens: seq<Token>, vars: Vars, level: nat): nat
    requires Acyclic(vars) && Below(tokens, vars, level)
    decreases level, |tokens|
  {
    if tokens == [] then 0
    else
      (match tokens[0]
       case Text(_) => 0
       case Ref(_, n, _) => 1 + if n in vars.defs then Weight(vars.defs[n], vars, vars.rank(n)) else 0)
      + Weight(tokens[1..], vars, level)
  }

  lemma {:induction false} SameAtAnyLevel(tokens: seq<Token>, vars: Vars, l: nat, m: nat)
    requires Acyclic(vars) && Below(tokens, vars, l) && Below(tokens, vars, m)
    ensures Meaning(tokens, vars, l) == Meaning(tokens, vars, m) && Weight(tokens, vars, l) == Weight(tokens, vars, m)
    decreases |tokens|
  {
    if tokens != [] {
      SameAtAnyLevel(tokens[1..], vars, l, m);
    }
  }

  lemma BelowConcat(p: seq<Token>, q: seq<Token>, vars: Vars, level: nat)
    ensures Below(p + q, vars, level) <==> Below(p, vars, level) && Below(q, vars, level)
  {
    assert forall k :: 0 <= k < |p| ==> (p + q)[k] == p[k];
    assert forall k :: 0 <= k < |q| ==> (p + q)[|p| + k] == q[k];
  }

  lemma {:induction false} MeaningConcat(p: seq<Token>, q: seq<Token>, vars: Vars, level: nat)
    requires Acyclic(vars) && Below(p, vars, level) && Below(q, vars, level) && Below(p + q, vars, level)
    ensures Meaning(p + q, vars, level) == Meaning(p, vars, level) + Meaning(q, vars, level)
    decreases |p|
  {
    if p == [] {
      assert p + q == q;
    } else {
      assert (p + q)[1..] == p[1..] + q;
      MeaningConcat(p[1..], q, vars, level);
      var head := match p[0]
        case Text(s) => s
        case Ref(_, n, _) => if n in vars.defs then Meaning(vars.defs[n], vars, vars.rank(n)) else Undefined(n);
      Regroup(head, Meaning(p[1..], vars, level), Meaning(q, vars, level));
    }
  }

  lemma {:induction false} WeightConcat(p: seq<Token>, q: seq<Token>, vars: Vars, level: nat)
    requires Acyclic(vars) && Below(p, vars, level) && Below(q, vars, level) && Below(p + q, vars, level)
    ensures Weight(p + q, vars, level) == Weight(p, vars, level) + Weight(q, vars, level)
    decreases |p|
  {
    if p == [] {
      assert p + q == q;
    } else {
      assert (p + q)[1..] == p[1..] + q;
      WeightConcat(p[1..], q, vars, level);
    }
  }

  lemma Concat(p: seq<Token>, q: seq<Token>, vars: Vars, level: nat)
    requires Acyclic(vars) && Below(p, vars, level) && Below(q, vars, level)
    ensures Below(p + q, vars, level)
    ensures Meaning(p + q, vars, level) == Meaning(p, vars, level) + Meaning(q, vars, level)
    ensures Weight(p + q, vars, level) == Weight(p, vars, level) + Weight(q, vars, level)
  {
    BelowConcat(p, q, vars, level);
    MeaningConcat(p, q, vars, level);
    WeightConcat(p, q, vars, level);
  }

  lemma {:induction false} RenderConcat(p: seq<Token>, q: seq<Token>)
    ensures Render(p + q) == Render(p) + Render(q)
  {
    if p == [] {
      assert p + q == q;
    } else {
      assert (p + q)[1..] == p[1..] + q;
      RenderConcat(p[1..], q);
      Regroup(RenderOne(p[0]), Render(p[1..]), Render(q));
    }
  }

  /** The tokens a reference is replaced by. */
  ghost function Replacement(name: string, vars: Vars): seq<Token>
  {
    if name in vars.defs then vars.defs[name] else [Text(Undefined(name))]
  }

  /** Replacing one reference keeps the meaning and makes the expression lighter. */
  lemma ReplaceOne(p: seq<Token>, t: Token, q: seq<Token>, vars: Vars, level: nat)
    requires Acyclic(vars) && t.Ref? && AllWellFormed((p + [t]) + q) && Below((p + [t]) + q, vars, level)
    ensures var r := (p + Replacement(t.name, vars)) + q;
            AllWellFormed(r) && Below(r, vars, level)
            && Meaning(r, vars, level) == Meaning((p + [t]) + q, vars, level)
            && Weight(r, vars, level) < Weight((p + [t]) + q, vars, level)
  {
    var value := Replacement(t.name, vars);
    BelowConcat(p + [t], q, vars, level);
    BelowConcat(p, [t], vars, level);
    WellFormedConcat(p + [t], q);
    WellFormedConcat(p, [t]);
    assert [t][0] == t;
    ReplacementIsLighter(t, vars, level);
    Concat(p, [t], vars, level);
    Concat(p + [t], q, vars, level);
    Concat(p, value, vars, level);
    Concat(p + value, q, vars, level);
    WellFormedConcat(p, value);
    WellFormedConcat(p + value, q);
  }

  lemma WellFormedConcat(p: seq<Token>, q: seq<Token>)
    ensures AllWellFormed(p + q) <==> AllWellFormed(p) && AllWellFormed(q)
  {
    assert forall k :: 0 <= k < |p| ==> (p + q)[k] == p[k];
    assert forall k :: 0 <= k < |q| ==> (p + q)[|p| + k] == q[k];
  }

  lemma ReplacementIsLighter(t: Token, vars: Vars, level: nat)
    requires Acyclic(vars) && t.Ref? && WellFormed(t) && Below([t], vars, level)
    ensures var v := Replacement(t.name, vars);
            AllWellFormed(v) && Below(v, vars, level) && Meaning(v, vars, level) == Meaning([t], vars, level)
            && Weight(v, vars, level) < Weight([t], vars, level)
  {
    var n := t.name;
    assert [t][0] == t && [t][1..] == [];
    if n in vars.defs {
      assert vars.rank(n) < level;
      SameAtAnyLevel(vars.defs[n], vars, vars.rank(n), level);
      assert Meaning([t], vars, level) == Meaning(vars.defs[n], vars, vars.rank(n)) + "";
    } else {
      var v := [Text(Undefined(n))];
      assert v[0].text == Undefined(n) && v[1..] == [];
      assert forall k :: 0 <= k < |Undefined(n)| ==> Undefined(n)[k] != '$';
    }
  }

  // ----- finding the leftmost reference

  /** The pattern matches at position i: dollar, opener, a name without closers, closer. */
  predicate MatchesAt(s: string, i: nat)
  {
    i + 2 < |s| && s[i] == '$' && s[i + 1] in OPENERS && i + 2 < FindSeparator(s, CLOSERS, i + 2) < |s|
  }

  function FindRef(s: string, from: nat): (i: nat)
    requires from <= |s|
    ensures from <= i <= |s| && (i < |s| ==> MatchesAt(s, i)) && forall k :: from <= k < i ==> !MatchesAt(s, k)
    decreases |s| - from
  {
    if from == |s| || MatchesAt(s, from) then from else FindRef(s, from + 1)
  }

  ghost predicate AllText(tokens: seq<Token>)
  {
    forall k :: 0 <= k < |tokens| ==> tokens[k].Text?
  }

  lemma {:induction false} TextMeansItself(tokens: seq<Token>, vars: Vars, level: nat)
    requires AllWellFormed(tokens) && AllText(tokens) && Acyclic(vars) && Below(tokens, vars, level)
    ensures '$' !in Render(tokens) && Meaning(tokens, vars, level) == Render(tokens)
    decreases |tokens|
  {
    if tokens != [] {
      assert WellFormed(tokens[0]);
      TextMeansItself(tokens[1..], vars, level);
    }
  }

  lemma {:induction false} TextHasNoDollar(tokens: seq<Token>)
    requires AllWellFormed(tokens) && AllText(tokens)
    ensures '$' !in Render(tokens)
  {
    if tokens != [] {
      assert WellFormed(tokens[0]);
      TextHasNoDollar(tokens[1..]);
    }
  }

  lemma FindIs(s: string, i: nat, j: nat)
    requires i + 2 < j < |s| && '$' !in s[..i] && s[i] == '$' && s[i + 1] in OPENERS
    requires s[j] in CLOSERS && forall k :: i + 2 <= k < j ==> s[k] !in CLOSERS
    ensures FindRef(s, 0) == i && FindSeparator(s, CLOSERS, i + 2) == j
  {
    var f := FindRef(s, 0);
    assert forall k :: 0 <= k < i ==> s[..i][k] == s[k];
    assert MatchesAt(s, i);
  }

  /** A reference is found between text without a dollar before it and anything after it. */
  lemma FoundBetween(a: string, t: Token, c: string)
    requires t.Ref? && WellFormed(t) && '$' !in a
    ensures var s := (a + RenderOne(t)) + c;
            var i := |a|;
            var j := i + 2 + |t.name|;
            j < |s| && FindRef(s, 0) == i && FindSeparator(s, CLOSERS, i + 2) == j
            && s[i + 2..j] == t.name && s[..i] == a && s[j + 1..] == c
  {
    var s := (a + RenderOne(t)) + c;
    PartsBetween(a, t, c);
    FindIs(s, |a|, |a| + 2 + |t.name|);
  }

  lemma PartsBetween(a: string, t: Token, c: string)
    requires t.Ref?
    ensures var s := (a + RenderOne(t)) + c;
            var i := |a|;
            var j := i + 2 + |t.name|;
            && j < |s| && s[..i] == a && s[j + 1..] == c && s[i + 2..j] == t.name
            && s[i] == '$' && s[i + 1] == t.open && s[j] == t.close
            && forall k :: i + 2 <= k < j ==> s[k] == t.name[k - (i + 2)]
  {
  }

  lemma RenderThree(p: seq<Token>, v: seq<Token>, q: seq<Token>)
    ensures Render((p + v) + q) == (Render(p) + Render(v)) + Render(q)
  {
    RenderConcat(p + v, q);
    RenderConcat(p, v);
  }

  lemma RenderSingle(t: Token)
    ensures Render([t]) == RenderOne(t)
  {
    assert [t][1..] == [] && RenderOne(t) + "" == RenderOne(t);
  }

  function GetConfVar(config: map<string, string>, name: string): string
  {
    if name in config then config[name] else Undefined(name)
  }

  /** The configuration holds the definitions that matter as text. */
  ghost predicate Configured(config: map<string, string>, vars: Vars)
  {
    Acyclic(vars) && config.Keys == vars.defs.Keys && forall n :: n in vars.live ==> config[n] == Render(vars.defs[n])
  }

  lemma ReplacementText(config: map<string, string>, vars: Vars, name: string)
    requires Configured(config, vars) && (name in config ==> name in vars.live)
    ensures Render(Replacement(name, vars)) == GetConfVar(config, name)
  {
    if name !in config {
      var v := [Text(Undefined(name))];
      assert v[1..] == [];
    }
  }

  ghost function FirstRef(tokens: seq<Token>): (r: nat)
    ensures r <= |tokens| && AllText(tokens[..r]) && (r < |tokens| ==> tokens[r].Ref?)
  {
    if tokens == [] || tokens[0].Ref? then 0
    else
      var r := 1 + FirstRef(tokens[1..]);
      assert tokens[..r] == [tokens[0]] + tokens[1..][..r - 1];
      r
  }

  /** The match at position i replaced. */
  function Substitute(path: string, i: nat, value: string): string
    requires i < |path| && MatchesAt(path, i)
  {
    path[..i] + value + path[FindSeparator(path, CLOSERS, i + 2) + 1..]
  }

  function MatchedName(path: string, i: nat): string
    requires i < |path| && MatchesAt(path, i)
  {
    path[i + 2..FindSeparator(path, CLOSERS, i + 2)]
  }

  lemma {:induction false} DollarMeansRef(tokens: seq<Token>)
    requires AllWellFormed(tokens) && '$' in Render(tokens)
    ensures FirstRef(tokens) < |tokens|
  {
    if tokens != [] && tokens[0].Text? {
      assert WellFormed(tokens[0]);
      DollarMeansRef(tokens[1..]);
    }
  }

  /** The first reference has plain text before it. */
  lemma SplitAtRef(tokens: seq<Token>) returns (p: seq<Token>, t: Token, q: seq<Token>)
    requires AllWellFormed(tokens) && '$' in Render(tokens)
    ensures tokens == (p + [t]) + q && '$' !in Render(p) && t.Ref? && WellFormed(t)
  {
    DollarMeansRef(tokens);
    var r := FirstRef(tokens);
    p, t, q := tokens[..r], tokens[r], tokens[r + 1..];
    TextHasNoDollar(p);
  }

  /** Replacing the match replaces the first reference. */
  lemma ReplacedText(p: seq<Token>, t: Token, q: seq<Token>, config: map<string, string>, vars: Vars)
    requires '$' !in Render(p) && t.Ref? && WellFormed(t)
    requires Render(Replacement(t.name, vars)) == GetConfVar(config, t.name)
    ensures var path := Render((p + [t]) + q);
            var i := FindRef(path, 0);
            i < |path| && Render((p + Replacement(t.name, vars)) + q)
                          == Substitute(path, i, GetConfVar(config, MatchedName(path, i)))
  {
    RenderThree(p, [t], q);
    RenderSingle(t);
    RenderThree(p, Replacement(t.name, vars), q);
    SubstituteBetween(Render(p), t, Render(q), GetConfVar(config, t.name));
  }

  lemma SubstituteBetween(a: string, t: Token, c: string, value: string)
    requires t.Ref? && WellFormed(t) && '$' !in a
    ensures var s := (a + RenderOne(t)) + c;
            && |a| < |s| && FindRef(s, 0) == |a| && MatchedName(s, |a|) == t.name
            && Substitute(s, |a|, value) == (a + value) + c
  {
    FoundBetween(a, t, c);
  }

  /** The leftmost match replaced, over and over. */
  method ExpandVariables(original: string, config: map<string, string>, ghost tokens: seq<Token>, ghost vars: Vars,
                         ghost level: nat) returns (path: string)
    requires Configured(config, vars) && AllWellFormed(tokens) && Below(tokens, vars, level)
    requires original == Render(tokens)
    ensures path == Meaning(tokens, vars, level) && '$' !in path
  {
    path := original;
    ghost var now := tokens;
    var i := FindRef(path, 0);
    while i < |path|
      invariant AllWellFormed(now) && Below(now, vars, level) && path == Render(now) && i == FindRef(path, 0)
      invariant Meaning(now, vars, level) == Meaning(tokens, vars, level)
      decreases Weight(now, vars, level)
    {
      assert path[i] in path;
      ghost var p, t, q := SplitAtRef(now);
      assert now[|p|] == t;
      ReplacementText(config, vars, t.name);
      ReplacedText(p, t, q, config, vars);
      ReplaceOne(p, t, q, vars, level);
      now := (p + Replacement(t.name, vars)) + q;
      path := Substitute(path, i, GetConfVar(config, MatchedName(path, i)));
      i := FindRef(path, 0);
    }
    NoneLeft(path, now, vars, level);
  }

  lemma NoneLeft(path: string, now: seq<Token>, vars: Vars, level: nat)
    requires Acyclic(vars) && AllWellFormed(now) && Below(now, vars, level)
    requires path == Render(now) && FindRef(path, 0) == |path|
    ensures path == Meaning(now, vars, level) && '$' !in path
  {
    if '$' in path {
      var p, t, q := SplitAtRef(now);
      RenderThree(p, [t], q);
      RenderSingle(t);
      FoundBetween(Render(p), t, Render(q));
    } else {
      NoDollarIsText(now);
      TextMeansItself(now, vars, level);
    }
  }

  lemma {:induction false} NoDollarIsText(tokens: seq<Token>)
    ensures AllText(tokens) || '$' in Render(tokens)
  {
    if tokens != [] {
      if tokens[0].Ref? {
        assert Render(tokens)[0] == '$';
      }
      NoDollarIsText(tokens[1..]);
    }
  }

  // ----- braces

  const LBRACE: set<char> := {'{'}
  const RBRACE: set<char> := {'}'}
  const COMMA: set<char> := {','}

  function Count(s: string): nat
  {
    if s == "" then 0 else (if s[0] == '{' then 1 else 0) + Count(s[1..])
  }

  lemma {:induction false} CountConcat(s: string, t: string)
    ensures Count(s + t) == Count(s) + Count(t)
  {
    if s == "" {
      assert s + t == t;
    } else {
      assert (s + t)[1..] == s[1..] + t;
      CountConcat(s[1..], t);
    }
  }

  /** The first brace and the first closing brace after it. */
  function Opening(s: string): nat
  {
    FindSeparator(s, LBRACE, 0)
  }

  function Closing(s: string): nat
    requires Opening(s) < |s|
  {
    FindSeparator(s, RBRACE, Opening(s) + 1)
  }

  predicate HasGroup(s: string)
  {
    Opening(s) < |s| && Closing(s) < |s|
  }

  function GroupText(s: string): string
    requires HasGroup(s)
  {
    s[Opening(s) + 1..Closing(s)]
  }

  /** The group replaced by one of its options. */
  function Choose(s: string, option: string): string
    requires HasGroup(s)
  {
    s[..Opening(s)] + option + s[Closing(s) + 1..]
  }

  /** A piece of a group has no more opening braces than the group, and replacing the group removes one. */
  lemma ChoiceHasFewer(s: string, k: nat)
    requires HasGroup(s) && k < |Pieces(GroupText(s), COMMA)|
    ensures Count(Choose(s, Pieces(GroupText(s), COMMA)[k])) < Count(s)
    ensures |Choose(s, Pieces(GroupText(s), COMMA)[k])| < |s|
    ensures '$' !in s ==> '$' !in Choose(s, Pieces(GroupText(s), COMMA)[k])
  {
    var a, g, c := s[..Opening(s)], GroupText(s), s[Closing(s) + 1..];
    var o := Pieces(g, COMMA)[k];
    assert s == (a + ("{" + g + "}")) + c;
    CountConcat(a + ("{" + g + "}"), c);
    CountConcat(a, "{" + g + "}");
    CountConcat("{" + g, "}");
    CountConcat("{", g);
    CountConcat(a + o, c);
    CountConcat(a, o);
    if g != "" && !(|g| == 1 && g[0] in COMMA) {
      PieceIsPart(g, k);
    }
    assert Count("{") == 1 && "{"[1..] == "";
    if '$' !in s {
      assert forall i :: 0 <= i < |g| ==> g[i] == s[Opening(s) + 1 + i];
    }
  }

  lemma {:induction false} PieceIsPart(g: string, k: nat)
    requires k < |Split(g, COMMA)|
    ensures var o := Split(g, COMMA)[k];
            Count(o) <= Count(g) && |o| <= |g| && ('$' !in g ==> '$' !in o)
    decreases |g|
  {
    var e := FindSeparator(g, COMMA, 0);
    if e < |g| {
      var first, rest := g[..e], g[e + 1..];
      CutAt(g, e);
      assert Split(g, COMMA) == [first] + Split(rest, COMMA);
      if k > 0 {
        PieceIsPart(rest, k - 1);
        assert Split(g, COMMA)[k] == Split(rest, COMMA)[k - 1];
      }
    }
  }

  lemma CutAt(g: string, e: nat)
    requires e < |g|
    ensures Count(g[..e]) + Count(g[e + 1..]) <= Count(g)
    ensures '$' !in g ==> '$' !in g[..e] && '$' !in g[e + 1..]
  {
    var first, rest := g[..e], g[e + 1..];
    assert g == first + ([g[e]] + rest);
    CountConcat(first, [g[e]] + rest);
    CountConcat([g[e]], rest);
  }

  function Choices(s: string): (c: seq<string>)
    requires HasGroup(s)
    ensures forall k :: 0 <= k < |c| ==> Count(c[k]) < Count(s) && |c[k]| < |s| && ('$' !in s ==> '$' !in c[k])
  {
    var options := Pieces(GroupText(s), COMMA);
    var c := seq(|options|, k requires 0 <= k < |options| => Choose(s, options[k]));
    assert forall k :: 0 <= k < |c| ==> Count(c[k]) < Count(s) && |c[k]| < |s| && ('$' !in s ==> '$' !in c[k]) by {
      forall k | 0 <= k < |c| ensures Count(c[k]) < Count(s) && |c[k]| < |s| && ('$' !in s ==> '$' !in c[k]) {
        ChoiceHasFewer(s, k);
      }
    }
    c
  }

  function Flatten(ss: seq<seq<string>>): seq<string>
  {
    if ss == [] then [] else ss[0] + Flatten(ss[1..])
  }

  /** All choices, the options of the first group varying slowest. */
  function ExpandBraces(s: string): seq<string>
    decreases Count(s)
  {
    if !HasGroup(s) then [s]
    else
      var c := Choices(s);
      Flatten(seq(|c|, k requires 0 <= k < |c| => ExpandBraces(c[k])))
  }

  // ----- braces that do not nest: the cartesian product

  datatype Part = Lit(text: string) | Group(content: string)

  ghost predicate Flat(parts: seq<Part>)
  {
    forall k :: 0 <= k < |parts| ==>
      match parts[k] case Lit(t) => '{' !in t case Group(c) => '{' !in c && '}' !in c
  }

  function RenderParts(parts: seq<Part>): string
  {
    if parts == [] then ""
    else (match parts[0] case Lit(t) => t case Group(c) => "{" + c + "}") + RenderParts(parts[1..])
  }

  function Prefixed(p: string, ss: seq<string>): (r: seq<string>)
    ensures |r| == |ss| && forall k :: 0 <= k < |r| ==> r[k] == p + ss[k]
  {
    seq(|ss|, k requires 0 <= k < |ss| => p + ss[k])
  }

  /** Every option of the first group with every result of the rest. */
  function Product(parts: seq<Part>): seq<string>
  {
    if parts == [] then [""]
    else
      match parts[0]
      case Lit(t) => Prefixed(t, Product(parts[1..]))
      case Group(c) => Combine(Pieces(c, COMMA), Product(parts[1..]))
  }

  function Combine(options: seq<string>, rest: seq<string>): seq<string>
  {
    if options == [] then [] else Prefixed(options[0], rest) + Combine(options[1..], rest)
  }

  lemma {:induction false} CountZero(s: string)
    ensures Count(s) == 0 <==> '{' !in s
  {
    if s != "" {
      CountZero(s[1..]);
    }
  }

  lemma PrefixedTwice(p: string, q: string, ss: seq<string>)
    ensures Prefixed(p, Prefixed(q, ss)) == Prefixed(p + q, ss)
  {
    forall k | 0 <= k < |ss| ensures Prefixed(p, Prefixed(q, ss))[k] == Prefixed(p + q, ss)[k] {
      Regroup(p, q, ss[k]);
    }
  }

  lemma PrefixedConcat(p: string, ss: seq<string>, tt: seq<string>)
    ensures Prefixed(p, ss + tt) == Prefixed(p, ss) + Prefixed(p, tt)
  {
  }

  lemma {:induction false} FlattenCombine(pre: string, options: seq<string>, rest: seq<string>,
                                          results: seq<seq<string>>)
    requires |results| == |options|
    requires forall k :: 0 <= k < |results| ==> results[k] == Prefixed(pre + options[k], rest)
    ensures Flatten(results) == Prefixed(pre, Combine(options, rest))
    decreases |options|
  {
    if options != [] {
      FlattenCombine(pre, options[1..], rest, results[1..]);
      PrefixedTwice(pre, options[0], rest);
      PrefixedConcat(pre, Prefixed(options[0], rest), Combine(options[1..], rest));
    }
  }

  /** The first group of a text: what comes before it has no brace. */
  lemma GroupFound(pre: string, c: string, rest: string)
    requires '{' !in pre && '}' !in c
    ensures var s := (pre + ("{" + c + "}")) + rest;
            HasGroup(s) && GroupText(s) == c && forall o :: Choose(s, o) == (pre + o) + rest
  {
    var s := (pre + ("{" + c + "}")) + rest;
    var i, j := |pre|, |pre| + 1 + |c|;
    assert forall k :: 0 <= k < i ==> s[k] == pre[k];
    assert s[i] == '{' && s[j] == '}';
    assert forall k :: i < k < j ==> s[k] == c[k - i - 1];
    assert Opening(s) == i && Closing(s) == j;
    assert s[..i] == pre && s[i + 1..j] == c && s[j + 1..] == rest;
  }

  lemma OptionsAreFlat(c: string)
    requires '{' !in c
    ensures forall k :: 0 <= k < |Pieces(c, COMMA)| ==> '{' !in Pieces(c, COMMA)[k]
  {
    var options := Pieces(c, COMMA);
    forall k | 0 <= k < |options| ensures '{' !in options[k] {
      if options == Split(c, COMMA) {
        CountZero(c);
        PieceIsPart(c, k);
        CountZero(options[k]);
      }
    }
  }

  /** Expanding groups that do not nest gives the cartesian product of their options, leftmost slowest. */
  lemma {:induction false} ExpansionIsProduct(pre: string, parts: seq<Part>)
    requires '{' !in pre && Flat(parts)
    ensures ExpandBraces(pre + RenderParts(parts)) == Prefixed(pre, Product(parts))
    decreases |parts|, 0
  {
    if parts == [] {
      assert pre + "" == pre && !HasGroup(pre);
    } else {
      var tail, rest := RenderParts(parts[1..]), Product(parts[1..]);
      match parts[0]
      case Lit(t) =>
        assert parts[0] == Lit(t);
        Regroup(pre, t, tail);
        ExpansionIsProduct(pre + t, parts[1..]);
        PrefixedTwice(pre, t, rest);
      case Group(c) =>
        assert parts[0] == Group(c);
        Regroup(pre, "{" + c + "}", tail);
        GroupExpands(pre, c, parts[1..]);
    }
  }

  lemma {:induction false} GroupExpands(pre: string, c: string, parts: seq<Part>)
    requires '{' !in pre && '{' !in c && '}' !in c && Flat(parts)
    ensures ExpandBraces((pre + ("{" + c + "}")) + RenderParts(parts))
         == Prefixed(pre, Combine(Pieces(c, COMMA), Product(parts)))
    decreases |parts|, 1
  {
    var s := (pre + ("{" + c + "}")) + RenderParts(parts);
    GroupFound(pre, c, RenderParts(parts));
    OptionsAreFlat(c);
    var options, choices := Pieces(c, COMMA), Choices(s);
    var results := seq(|choices|, k requires 0 <= k < |choices| => ExpandBraces(choices[k]));
    forall k | 0 <= k < |options| ensures results[k] == Prefixed(pre + options[k], Product(parts)) {
      assert '{' !in pre + options[k];
      assert choices[k] == (pre + options[k]) + RenderParts(parts);
      ExpansionIsProduct(pre + options[k], parts);
    }
    FlattenCombine(pre, options, Product(parts), results);
  }

  // ----- home directories and the base directory

  /** A home directory is not itself written with a tilde. */
  ghost predicate Settled(home: string -> string)
  {
    forall u :: home(u) == u || home(u) == "" || home(u)[0] != '~'
  }

  function Finish(path: string, baseDir: string, home: string -> string): string
  {
    var p := ExpandTildeUser(path, home);
    if baseDir != "" && !IsAbsolutePath(p) then baseDir + "/" + p else p
  }

  function FinishAll(paths: seq<string>, baseDir: string, home: string -> string): (r: seq<string>)
    ensures |r| == |paths| && forall k :: 0 <= k < |r| ==> r[k] == Finish(paths[k], baseDir, home)
  {
    seq(|paths|, k requires 0 <= k < |paths| => Finish(paths[k], baseDir, home))
  }

  /** Where the result leads. */
  lemma FinishComesOut(path: string, baseDir: string, home: string -> string)
    ensures ComesOut(path, baseDir, home, Finish(path, baseDir, home))
  {
    var p := ExpandTildeUser(path, home);
    if baseDir != "" && !IsAbsolutePath(p) {
      PrefixIsUnder(p, baseDir);
    }
    ExpandedComesOut(path, baseDir, home, Finish(path, baseDir, home));
  }

  lemma FinishAllComeOut(paths: seq<string>, baseDir: string, home: string -> string)
    ensures AllComeOut(paths, baseDir, home, FinishAll(paths, baseDir, home))
  {
    forall k | 0 <= k < |paths| {
      FinishComesOut(paths[k], baseDir, home);
    }
  }

  /** Results that come back from the recursion are looked up again, but the base directory is put in front once. */
  lemma FinishTwice(path: string, baseDir: string, home: string -> string)
    requires Settled(home)
    ensures Finish(Finish(path, "", home), baseDir, home) == Finish(path, baseDir, home)
  {
    if path != "" && path[0] == '~' {
      var i := FindSeparator(path, SLASH, 0);
      var user, rest := path[..i], path[i..];
      assert path == user + rest;
      assert home(user) == user || home(user) == "" || home(user)[0] != '~';
      if home(user) == "" && rest != "" {
        assert ("" + rest)[0] == rest[0] == '/';
      } else if home(user) != "" {
        assert (home(user) + rest)[0] == home(user)[0];
      }
    }
  }

  lemma FinishAllTwice(paths: seq<string>, baseDir: string, home: string -> string)
    requires Settled(home)
    ensures FinishAll(FinishAll(paths, "", home), baseDir, home) == FinishAll(paths, baseDir, home)
  {
    forall k | 0 <= k < |paths| {
      FinishTwice(paths[k], baseDir, home);
    }
  }

  lemma FinishAllConcat(p: seq<string>, q: seq<string>, baseDir: string, home: string -> string)
    ensures FinishAll(p + q, baseDir, home) == FinishAll(p, baseDir, home) + FinishAll(q, baseDir, home)
  {
  }

  // ----- the whole expansion

  ghost predicate Expression(path: string, expr: seq<Token>, vars: Vars, level: nat, bound: nat)
  {
    Acyclic(vars) && AllWellFormed(expr) && Below(expr, vars, level) && Render(expr) == path
    && |Meaning(expr, vars, level)| + 1 < NPOS && Count(Meaning(expr, vars, level)) < bound
  }

  ghost predicate Expressions(pathList: seq<string>, exprs: seq<seq<Token>>, vars: Vars, level: nat, bound: nat)
  {
    |exprs| == |pathList| && forall k :: 0 <= k < |exprs| ==> Expression(pathList[k], exprs[k], vars, level, bound)
  }

  /** The meanings of the expressions with all braces expanded, in order. */
  ghost function AllExpanded(exprs: seq<seq<Token>>, vars: Vars, level: nat): seq<string>
    requires Acyclic(vars) && forall k :: 0 <= k < |exprs| ==> Below(exprs[k], vars, level)
  {
    if exprs == [] then []
    else
      var l := |exprs| - 1;
      AllExpanded(exprs[..l], vars, level) + ExpandBraces(Meaning(exprs[l], vars, level))
  }

  method LocalPaths(path: string) returns (localPathList: seq<string>)
    requires HasGroup(path) && |path| + 1 < NPOS
    ensures localPathList == Choices(path)
  {
    var options := CollectPieces(GroupText(path), COMMA);
    localPathList := [];
    var k := 0;
    while k < |options|
      invariant 0 <= k <= |options| && localPathList == Choices(path)[..k]
    {
      localPathList := localPathList + [Choose(path, options[k])];
      k := k + 1;
    }
    assert Choices(path)[..k] == Choices(path);
  }

  /** The literal expressions that stand for paths without a dollar. */
  ghost function Literals(paths: seq<string>): (e: seq<seq<Token>>)
    ensures |e| == |paths| && forall k :: 0 <= k < |e| ==> e[k] == [Text(paths[k])]
  {
    seq(|paths|, k requires 0 <= k < |paths| => [Text(paths[k])])
  }

  lemma LiteralMeans(path: string, vars: Vars, level: nat)
    requires Acyclic(vars) && '$' !in path
    ensures var e := [Text(path)];
            AllWellFormed(e) && Below(e, vars, level) && Render(e) == path && Meaning(e, vars, level) == path
  {
    var e := [Text(path)];
    assert e[1..] == [] && path + "" == path;
  }

  lemma {:induction false} LiteralsExpand(paths: seq<string>, vars: Vars, level: nat)
    requires Acyclic(vars) && forall k :: 0 <= k < |paths| ==> '$' !in paths[k]
    ensures var e := Literals(paths);
            (forall k :: 0 <= k < |e| ==> Below(e[k], vars, level))
            && AllExpanded(e, vars, level)
            == Flatten(seq(|paths|, k requires 0 <= k < |paths| => ExpandBraces(paths[k])))
  {
    var e := Literals(paths);
    var results := seq(|paths|, k requires 0 <= k < |paths| => ExpandBraces(paths[k]));
    forall k | 0 <= k < |e| ensures Below(e[k], vars, level) {
      LiteralMeans(paths[k], vars, level);
    }
    if paths != [] {
      var l := |paths| - 1;
      var shorter := paths[..l];
      LiteralsExpand(shorter, vars, level);
      LiteralMeans(paths[l], vars, level);
      assert e[..l] == Literals(shorter);
      var front := seq(l, k requires 0 <= k < l => ExpandBraces(shorter[k]));
      assert results == front + [ExpandBraces(paths[l])];
      FlattenSnoc(front, ExpandBraces(paths[l]));
    }
  }

  lemma {:induction false} FlattenSnoc(ss: seq<seq<string>>, t: seq<string>)
    ensures Flatten(ss + [t]) == Flatten(ss) + t
  {
    if ss == [] {
      assert ss + [t] == [t] && [t][1..] == [] && t + [] == t;
    } else {
      assert (ss + [t])[1..] == ss[1..] + [t];
      FlattenSnoc(ss[1..], t);
      assert ss[0] + (Flatten(ss[1..]) + t) == (ss[0] + Flatten(ss[1..])) + t;
    }
  }

  /** What the recursive call gives for the choices of one path. */
  lemma ChoicesExpand(path: string, vars: Vars, level: nat, bound: nat)
    requires Acyclic(vars) && '$' !in path && HasGroup(path) && Count(path) < bound && |path| + 1 < NPOS
    ensures var c := Choices(path);
            Expressions(c, Literals(c), vars, level, Count(path))
            && AllExpanded(Literals(c), vars, level) == ExpandBraces(path)
  {
    var c := Choices(path);
    forall k | 0 <= k < |c|
      ensures Expression(c[k], Literals(c)[k], vars, level, Count(path))
    {
      LiteralMeans(c[k], vars, level);
    }
    LiteralsExpand(c, vars, level);
  }

  lemma AllExpandedSnoc(exprs: seq<seq<Token>>, k: nat, vars: Vars, level: nat)
    requires Acyclic(vars) && k < |exprs| && forall i :: 0 <= i < |exprs| ==> Below(exprs[i], vars, level)
    ensures AllExpanded(exprs[..k + 1], vars, level)
         == AllExpanded(exprs[..k], vars, level) + ExpandBraces(Meaning(exprs[k], vars, level))
  {
    var shorter := exprs[..k + 1];
    assert shorter[..k] == exprs[..k] && shorter[k] == exprs[k];
  }

  /** One path of the first round: its results are collected after `before`. */
  method ExpandOne(original: string, before: seq<string>, config: map<string, string>, home: string -> string,
                   ghost baseDir: string, ghost tokens: seq<Token>, ghost vars: Vars, ghost level: nat,
                   ghost bound: nat) returns (out: seq<string>)
    requires Configured(config, vars) && Settled(home) && Expression(original, tokens, vars, level, bound)
    ensures FinishAll(out, baseDir, home)
         == FinishAll(before, baseDir, home) + FinishAll(ExpandBraces(Meaning(tokens, vars, level)), baseDir, home)
    decreases bound, 0
  {
    var path := ExpandVariables(original, config, tokens, vars, level);
    if HasGroup(path) {
      var localPathList := LocalPaths(path);
      ChoicesExpand(path, vars, level, bound);
      out := ExpandPath(localPathList, "", before, config, home, Literals(localPathList), vars, level, Count(path));
      FinishAllTwice(ExpandBraces(path), baseDir, home);
      FinishAllConcat(before, FinishAll(ExpandBraces(path), "", home), baseDir, home);
    } else {
      out := before + [path];
      FinishAllConcat(before, [path], baseDir, home);
    }
  }

  /** The second round: home directories, and the base directory before relative paths. */
  method Place(paths: seq<string>, baseDir: string, home: string -> string) returns (out: seq<string>)
    ensures out == FinishAll(paths, baseDir, home) && AllComeOut(paths, baseDir, home, out)
  {
    FinishAllComeOut(paths, baseDir, home);
    out := [];
    var k := 0;
    ghost var placed := FinishAll(paths, baseDir, home);
    while k < |paths|
      invariant 0 <= k <= |paths| && out == placed[..k]
    {
      var path := PlaceOne(paths[k], baseDir, home);
      out := out + [path];
      k := k + 1;
    }
  }

  method PlaceOne(original: string, baseDir: string, home: string -> string) returns (path: string)
    ensures path == Finish(original, baseDir, home)
  {
    path := ExpandTildeUser(original, home);
    if baseDir != "" && !IsAbsolutePath(path) {
      path := baseDir + "/" + path;
    }
  }

  /** Variables, then braces, then home directories and the base directory; `before` is what was collected so far. */
  method ExpandPath(pathList: seq<string>, baseDir: string, before: seq<string>, config: map<string, string>,
                    home: string -> string, ghost exprs: seq<seq<Token>>, ghost vars: Vars, ghost level: nat,
                    ghost bound: nat) returns (expanded: seq<string>)
    requires Configured(config, vars) && Settled(home) && Expressions(pathList, exprs, vars, level, bound)
    ensures expanded == before + FinishAll(AllExpanded(exprs, vars, level), baseDir, home)
    ensures AllComeOut(AllExpanded(exprs, vars, level), baseDir, home, expanded[|before|..])
    decreases bound, 1
  {
    var round1: seq<string> := [];
    var k := 0;
    while k < |pathList|
      invariant 0 <= k <= |pathList|
      invariant FinishAll(round1, baseDir, home) == FinishAll(AllExpanded(exprs[..k], vars, level), baseDir, home)
    {
      round1 := ExpandOne(pathList[k], round1, config, home, baseDir, exprs[k], vars, level, bound);
      AllExpandedSnoc(exprs, k, vars, level);
      ghost var next := ExpandBraces(Meaning(exprs[k], vars, level));
      FinishAllConcat(AllExpanded(exprs[..k], vars, level), next, baseDir, home);
      k := k + 1;
    }
    assert exprs[..k] == exprs;
    var round2 := Place(round1, baseDir, home);
    FinishAllComeOut(AllExpanded(exprs, vars, level), baseDir, home);
    expanded := before + round2;
    assert expanded[|before|..] == round2;
  }

  lemma SingleExpands(tokens: seq<Token>, vars: Vars, level: nat)
    requires Acyclic(vars) && Below(tokens, vars, level)
    ensures AllExpanded([tokens], vars, level) == ExpandBraces(Meaning(tokens, vars, level))
  {
    var exprs := [tokens];
    AllExpandedSnoc(exprs, 0, vars, level);
    assert exprs[..0] == [] && exprs[..1] == exprs;
  }

  /**
    A path whose variables come to text with groups that do not nest expands to the product of the groups' options,
    each result once under the base directory.
   */
  lemma ExpandedIsProduct(tokens: seq<Token>, parts: seq<Part>, vars: Vars, level: nat, baseDir: string,
                          home: string -> string)
    requires Acyclic(vars) && Below(tokens, vars, level) && Flat(parts)
    requires Meaning(tokens, vars, level) == RenderParts(parts)
    ensures FinishAll(AllExpanded([tokens], vars, level), baseDir, home) == FinishAll(Product(parts), baseDir, home)
  {
    SingleExpands(tokens, vars, level);
    WholeIsProduct(parts);
  }

  lemma WholeIsProduct(parts: seq<Part>)
    requires Flat(parts)
    ensures ExpandBraces(RenderParts(parts)) == Product(parts)
  {
    ExpansionIsProduct("", parts);
    assert "" + RenderParts(parts) == RenderParts(parts);
    NoPrefix(Product(parts));
  }

  lemma NoPrefix(ss: seq<string>)
    ensures Prefixed("", ss) == ss
  {
    forall k | 0 <= k < |ss| ensures Prefixed("", ss)[k] == ss[k] {
      assert "" + ss[k] == ss[k];
    }
  }

  lemma OneGroupExpands(pre: string, c: string, post: string)
    requires '{' !in pre && '{' !in post && '{' !in c && '}' !in c
    ensures ExpandBraces((pre + ("{" + c + "}")) + post) == Prefixed(pre, Combine(Pieces(c, COMMA), [post]))
  {
    var none: seq<Part> := [];
    var parts := [Lit(post)];
    assert parts[1..] == none && RenderParts(none) == "" && Product(none) == [""];
    assert RenderParts(parts) == post + "" == post;
    assert Product(parts) == Prefixed(post, [""]);
    assert Prefixed(post, [""])[0] == post + "";
    assert Prefixed(post, [""]) == [post];
    GroupExpands(pre, c, parts);
  }

  /** An empty group yields nothing at all; a lone comma yields one empty option. */
  lemma DegenerateGroups(pre: string, post: string)
    requires '{' !in pre && '{' !in post
    ensures ExpandBraces((pre + ("{" + "" + "}")) + post) == []
    ensures ExpandBraces((pre + ("{" + "," + "}")) + post) == [pre + post]
  {
    OneGroupExpands(pre, "", post);
    OneGroupExpands(pre, ",", post);
    var options := Pieces(",", COMMA);
    assert options == [""] && options[1..] == [] && "" + post == post;
    assert Combine(options, [post]) == [post];
  }
}
