/**
  When the replacement of variables ends: exactly if no set of names that keeps referring to itself is referred to.
 */
module ExpansionLoop {
  import opened Splitting
  import opened Expansion

  type Defs = map<string, seq<Token>>

  ghost predicate Refers(tokens: seq<Token>, names: set<string>)
  {
    exists k :: 0 <= k < |tokens| && tokens[k].Ref? && tokens[k].name in names
  }

  /** The definition of every one of the names refers to one of them. */
  ghost predicate Endless(names: set<string>, defs: Defs)
  {
    forall n :: n in names ==> n in defs && Refers(defs[n], names)
  }

  ghost predicate Covered(tokens: seq<Token>, config: map<string, string>, defs: Defs)
  {
    AllWellFormed(tokens)
    && forall k :: 0 <= k < |tokens| && tokens[k].Ref? && tokens[k].name in config ==> tokens[k].name in defs
  }

  /** Definitions of the configuration, among them all that these refer to. */
  ghost predicate Written(config: map<string, string>, defs: Defs)
  {
    forall n :: n in defs ==> n in config && config[n] == Render(defs[n]) && Covered(defs[n], config, defs)
  }

  /** A reference is left to replace. */
  predicate GoesOn(path: string)
  {
    FindRef(path, 0) < |path|
  }

  /** The leftmost match replaced; the loop stops when nothing matches. */
  function NextPath(path: string, config: map<string, string>): string
  {
    if GoesOn(path) then
      Substitute(path, FindRef(path, 0), GetConfVar(config, MatchedName(path, FindRef(path, 0))))
    else path
  }

  function NextFor(config: map<string, string>): string -> string
  {
    path => NextPath(path, config)
  }

  function Iterate(next: string -> string, path: string, n: nat): string
  {
    if n == 0 then path else next(Iterate(next, path, n - 1))
  }

  lemma {:induction false} IterateFirst(next: string -> string, path: string, n: nat)
    ensures Iterate(next, path, n + 1) == Iterate(next, next(path), n)
  {
    if n > 0 {
      IterateFirst(next, path, n - 1);
    }
  }

  /** The path after n rounds of the loop. */
  function Rounds(path: string, config: map<string, string>, n: nat): string
  {
    Iterate(NextFor(config), path, n)
  }

  // ----- one round, seen from the tokens

  function AsVars(defs: Defs): Vars
  {
    Vars(defs, {}, n => 0)
  }

  ghost function Value(name: string, defs: Defs): seq<Token>
  {
    Replacement(name, AsVars(defs))
  }

  lemma ValueText(t: Token, config: map<string, string>, defs: Defs)
    requires Written(config, defs) && t.Ref? && WellFormed(t) && (t.name in config ==> t.name in defs)
    ensures Render(Value(t.name, defs)) == GetConfVar(config, t.name) && Covered(Value(t.name, defs), config, defs)
  {
    if t.name !in defs {
      var v := [Text(Undefined(t.name))];
      assert v[1..] == [];
      assert forall k :: 0 <= k < |Undefined(t.name)| ==> Undefined(t.name)[k] != '$';
    }
  }

  lemma CoveredConcat(p: seq<Token>, q: seq<Token>, config: map<string, string>, defs: Defs)
    ensures Covered(p + q, config, defs) <==> Covered(p, config, defs) && Covered(q, config, defs)
  {
    WellFormedConcat(p, q);
    assert forall k :: 0 <= k < |p| ==> (p + q)[k] == p[k];
    assert forall k :: 0 <= k < |q| ==> (p + q)[|p| + k] == q[k];
  }

  lemma RefersConcat(p: seq<Token>, q: seq<Token>, names: set<string>)
    ensures Refers(p + q, names) <==> Refers(p, names) || Refers(q, names)
  {
    assert forall k :: 0 <= k < |p| ==> (p + q)[k] == p[k];
    assert forall k :: 0 <= k < |q| ==> (p + q)[|p| + k] == q[k];
    if Refers(p + q, names) {
      var k :| 0 <= k < |p + q| && (p + q)[k].Ref? && (p + q)[k].name in names;
      assert k < |p| || q[k - |p|].name in names;
    }
  }

  lemma RefShows(tokens: seq<Token>, k: nat)
    requires k < |tokens| && tokens[k].Ref?
    ensures '$' in Render(tokens)
  {
    var p, q := tokens[..k], tokens[k + 1..];
    assert tokens == (p + [tokens[k]]) + q;
    RenderThree(p, [tokens[k]], q);
    RenderSingle(tokens[k]);
    assert RenderOne(tokens[k])[0] == '$';
  }

  /** As long as a reference is left, the loop replaces the first one. */
  lemma Round(tokens: seq<Token>, config: map<string, string>, defs: Defs)
    returns (p: seq<Token>, t: Token, q: seq<Token>)
    requires Written(config, defs) && Covered(tokens, config, defs) && '$' in Render(tokens)
    ensures tokens == (p + [t]) + q && t.Ref? && WellFormed(t) && '$' !in Render(p)
    ensures t.name in config ==> t.name in defs
    ensures Covered((p + Value(t.name, defs)) + q, config, defs)
    ensures GoesOn(Render(tokens)) && Render((p + Value(t.name, defs)) + q) == NextFor(config)(Render(tokens))
  {
    p, t, q := SplitAtRef(tokens);
    CoveredConcat(p + [t], q, config, defs);
    CoveredConcat(p, [t], config, defs);
    assert [t][0] == t;
    ValueText(t, config, defs);
    ReplacedText(p, t, q, config, AsVars(defs));
    CoveredConcat(p, Value(t.name, defs), config, defs);
    CoveredConcat(p + Value(t.name, defs), q, config, defs);
  }

  // ----- references that never go away

  /** If the replaced reference is to one of the names, its value refers to one again. */
  lemma RefersStays(p: seq<Token>, t: Token, q: seq<Token>, names: set<string>, defs: Defs)
    requires Endless(names, defs) && t.Ref? && Refers((p + [t]) + q, names)
    ensures Refers((p + Value(t.name, defs)) + q, names)
  {
    RefersConcat(p + [t], q, names);
    RefersConcat(p, [t], names);
    RefersConcat(p + Value(t.name, defs), q, names);
    RefersConcat(p, Value(t.name, defs), names);
  }

  /** The path is the text of an expression that refers to one of the names. */
  ghost predicate Alive(path: string, names: set<string>, config: map<string, string>, defs: Defs)
  {
    exists tokens: seq<Token> :: Render(tokens) == path && Covered(tokens, config, defs) && Refers(tokens, names)
  }

  lemma AliveAs(tokens: seq<Token>, path: string, names: set<string>, config: map<string, string>, defs: Defs)
    requires Render(tokens) == path && Covered(tokens, config, defs) && Refers(tokens, names)
    ensures Alive(path, names, config, defs)
  {
  }

  lemma NextRefers(tokens: seq<Token>, names: set<string>, config: map<string, string>, defs: Defs)
    returns (now: seq<Token>)
    requires Written(config, defs) && Covered(tokens, config, defs) && Endless(names, defs) && Refers(tokens, names)
    ensures Covered(now, config, defs) && Refers(now, names)
    ensures GoesOn(Render(tokens)) && Render(now) == NextFor(config)(Render(tokens))
  {
    var k :| 0 <= k < |tokens| && tokens[k].Ref? && tokens[k].name in names;
    RefShows(tokens, k);
    var p, t, q := Round(tokens, config, defs);
    RefersStays(p, t, q, names, defs);
    now := (p + Value(t.name, defs)) + q;
  }

  lemma AliveGoesOn(path: string, names: set<string>, config: map<string, string>, defs: Defs)
    requires Written(config, defs) && Endless(names, defs) && Alive(path, names, config, defs)
    ensures GoesOn(path) && Alive(NextFor(config)(path), names, config, defs)
  {
    var tokens: seq<Token> :| Render(tokens) == path && Covered(tokens, config, defs) && Refers(tokens, names);
    var now := NextRefers(tokens, names, config, defs);
    AliveAs(now, NextFor(config)(path), names, config, defs);
  }

  lemma {:induction false} IterateKeeps(next: string -> string, alive: string -> bool, path: string, n: nat)
    requires alive(path) && forall p :: alive(p) ==> alive(next(p))
    ensures alive(Iterate(next, path, n))
  {
    if n > 0 {
      IterateKeeps(next, alive, path, n - 1);
    }
  }

  /**
    If the expression refers to a name of an endless set, a reference is left after any number of rounds: the loop
    never ends.
   */
  lemma ReferenceNeverEnds(tokens: seq<Token>, names: set<string>, config: map<string, string>, defs: Defs, n: nat)
    requires Written(config, defs) && Covered(tokens, config, defs) && Endless(names, defs) && Refers(tokens, names)
    ensures GoesOn(Rounds(Render(tokens), config, n))
  {
    AliveAs(tokens, Render(tokens), names, config, defs);
    AliveStays(Render(tokens), names, config, defs, n);
    AliveGoesOn(Rounds(Render(tokens), config, n), names, config, defs);
  }

  lemma AliveStays(path: string, names: set<string>, config: map<string, string>, defs: Defs, n: nat)
    requires Written(config, defs) && Endless(names, defs) && Alive(path, names, config, defs)
    ensures Alive(Rounds(path, config, n), names, config, defs)
  {
    var next, alive := NextFor(config), p => Alive(p, names, config, defs);
    forall p | alive(p) ensures alive(next(p)) {
      AliveGoesOn(p, names, config, defs);
    }
    IterateKeeps(next, alive, path, n);
  }

  // ----- two names that refer to each other

  /** A reference with text around it. */
  function Around(before: string, name: string, after: string): seq<Token>
  {
    [Text(before), Ref('{', name, '}'), Text(after)]
  }

  function AroundText(before: string, name: string, after: string): string
  {
    (before + (['$', '{'] + name + ['}'])) + after
  }

  lemma AroundIs(before: string, name: string, after: string)
    ensures Render(Around(before, name, after)) == AroundText(before, name, after)
  {
    var t := Around(before, name, after);
    assert t == ([t[0]] + [t[1]]) + [t[2]];
    RenderThree([t[0]], [t[1]], [t[2]]);
    RenderSingle(t[0]);
    RenderSingle(t[1]);
    RenderSingle(t[2]);
  }

  ghost predicate Plain(before: string, name: string, after: string)
  {
    WellFormed(Text(before)) && WellFormed(Ref('{', name, '}')) && WellFormed(Text(after))
  }

  lemma AroundRefers(before: string, name: string, after: string, names: set<string>)
    requires Plain(before, name, after) && name in names
    ensures AllWellFormed(Around(before, name, after)) && Refers(Around(before, name, after), names)
  {
    assert Around(before, name, after)[1].Ref?;
  }

  /** Two definitions that refer to each other, whatever text is around the references. */
  lemma MutualIsEndless(config: map<string, string>, defs: Defs, a: string, b: string,
                        u: string, v: string, w: string, x: string)
    requires Plain(u, b, v) && Plain(w, a, x) && a in config && b in config
    requires config[a] == AroundText(u, b, v) && config[b] == AroundText(w, a, x)
    requires defs == map[a := Around(u, b, v), b := Around(w, a, x)]
    ensures Written(config, defs) && Endless({a, b}, defs)
  {
    AroundIs(u, b, v);
    AroundIs(w, a, x);
    AroundRefers(u, b, v, {a, b});
    AroundRefers(w, a, x, {a, b});
  }

  /** An expression that refers to one of them is never done. */
  lemma MutualNeverEnds(config: map<string, string>, a: string, b: string, u: string, v: string, w: string, x: string,
                        y: string, z: string, n: nat)
    requires Plain(u, b, v) && Plain(w, a, x) && Plain(y, a, z) && a in config && b in config
    requires config[a] == AroundText(u, b, v) && config[b] == AroundText(w, a, x)
    ensures GoesOn(Rounds(AroundText(y, a, z), config, n))
  {
    var defs := map[a := Around(u, b, v), b := Around(w, a, x)];
    MutualIsEndless(config, defs, a, b, u, v, w, x);
    AroundIs(y, a, z);
    AroundRefers(y, a, z, {a, b});
    ReferenceNeverEnds(Around(y, a, z), {a, b}, config, defs, n);
  }

  /** For example a home directory by the user's name, and that name by the home directory. */
  lemma HomeAndUserNeverEnd(config: map<string, string>, n: nat)
    requires config == map["home" := "/u/${user}", "user" := "${home}/me"]
    ensures GoesOn(Rounds("${home}/src", config, n))
  {
    assert AroundText("/u/", "user", "") == "/u/${user}";
    assert AroundText("", "home", "/me") == "${home}/me";
    assert AroundText("", "home", "/src") == "${home}/src";
    MutualNeverEnds(config, "home", "user", "/u/", "", "", "/me", "", "/src", n);
  }

  // ----- names that come to an end

  ghost predicate Grows(chain: nat -> set<string>, all: set<string>, k: nat)
  {
    chain(k) <= chain(k + 1) <= all
  }

  /** A growing chain of sets within a finite one stops growing. */
  lemma {:induction false} ChainEnds(chain: nat -> set<string>, all: set<string>, i: nat) returns (j: nat)
    requires forall k: nat :: Grows(chain, all, k)
    ensures chain(j) == chain(j + 1)
    decreases |all - chain(i)|
  {
    assert Grows(chain, all, i);
    if chain(i) == chain(i + 1) {
      j := i;
    } else {
      FewerLeft(all, chain(i), chain(i + 1));
      j := ChainEnds(chain, all, i + 1);
    }
  }

  lemma {:induction false} ChainGrows(chain: nat -> set<string>, all: set<string>, i: nat, j: nat)
    requires i <= j && forall k: nat :: Grows(chain, all, k)
    ensures chain(i) <= chain(j) <= all
    decreases j
  {
    assert Grows(chain, all, j);
    if i < j {
      ChainGrows(chain, all, i, j - 1);
      assert Grows(chain, all, j - 1);
    }
  }

  /** The first stage, up to j, at which the chain holds a name. */
  ghost function First(chain: nat -> set<string>, n: string, j: nat): nat
  {
    if j == 0 then 0 else if n in chain(j - 1) then First(chain, n, j - 1) else j
  }

  lemma {:induction false} FirstIs(chain: nat -> set<string>, all: set<string>, n: string, i: nat, j: nat)
    requires i <= j && n in chain(i) && forall k: nat :: Grows(chain, all, k)
    ensures var f := First(chain, n, j); f <= i && n in chain(f) && (f > 0 ==> n !in chain(f - 1))
    decreases j
  {
    if j > 0 {
      if n in chain(j - 1) {
        FirstIs(chain, all, n, if i < j then i else j - 1, j - 1);
      } else if i < j {
        ChainGrows(chain, all, i, j - 1);
      }
    }
  }

  lemma FewerLeft(all: set<string>, a: set<string>, b: set<string>)
    requires a < b <= all
    ensures |all - b| < |all - a|
  {
    var x :| x in b && x !in a;
    assert x in all - a && x !in all - b;
    assert all - b <= all - a;
    Shrinks(all - b, all - a);
  }

  lemma {:induction false} Shrinks(a: set<string>, b: set<string>)
    requires a < b
    ensures |a| < |b|
    decreases b
  {
    var x :| x in b && x !in a;
    SubsetSize(a, b - {x});
    assert |b - {x}| == |b| - 1;
  }

  lemma {:induction false} SubsetSize(a: set<string>, b: set<string>)
    requires a <= b
    ensures |a| <= |b|
    decreases a
  {
    if x :| x in a {
      SubsetSize(a - {x}, b - {x});
      assert |a - {x}| == |a| - 1 && |b - {x}| == |b| - 1;
    }
  }

  /** The names that come to an end within i definitions. */
  ghost function Ending(defs: Defs, i: nat): set<string>
  {
    if i == 0 then {} else set n | n in defs && !Refers(defs[n], defs.Keys - Ending(defs, i - 1))
  }

  lemma {:induction false} EndingGrows(defs: Defs, i: nat)
    ensures Ending(defs, i) <= Ending(defs, i + 1) <= defs.Keys
  {
    if i > 0 {
      EndingGrows(defs, i - 1);
      forall n | n in Ending(defs, i) ensures n in Ending(defs, i + 1) {
        assert !Refers(defs[n], defs.Keys - Ending(defs, i - 1));
      }
    }
  }

  ghost function Stages(defs: Defs): nat -> set<string>
  {
    (i: nat) => Ending(defs, i)
  }

  lemma StagesGrow(defs: Defs)
    ensures forall k: nat :: Grows(Stages(defs), defs.Keys, k)
  {
    forall k: nat ensures Grows(Stages(defs), defs.Keys, k) {
      EndingGrows(defs, k);
    }
  }

  /** Once no name is added any more, those that do not come to an end are endless. */
  lemma RestIsEndless(defs: Defs, j: nat)
    requires Ending(defs, j) == Ending(defs, j + 1)
    ensures Endless(defs.Keys - Ending(defs, j), defs)
  {
  }

  /** The definitions that come to an end, ranked by their stages. */
  ghost function Ranked(config: map<string, string>, defs: Defs, j: nat): Vars
  {
    Vars(map n | n in config :: if n in defs then defs[n] else [], Stages(defs)(j), n => First(Stages(defs), n, j))
  }

  lemma EndingIsBelow(tokens: seq<Token>, config: map<string, string>, defs: Defs, i: nat, j: nat)
    requires Covered(tokens, config, defs) && !Refers(tokens, defs.Keys - Stages(defs)(i)) && i <= j
    ensures Below(tokens, Ranked(config, defs, j), i + 1)
  {
    var vars := Ranked(config, defs, j);
    StagesGrow(defs);
    ChainGrows(Stages(defs), defs.Keys, i, j);
    forall k | 0 <= k < |tokens| && tokens[k].Ref? && tokens[k].name in vars.defs
      ensures tokens[k].name in vars.live && vars.rank(tokens[k].name) < i + 1
    {
      FirstIs(Stages(defs), defs.Keys, tokens[k].name, i, j);
    }
  }

  lemma EndingAt(n: string, defs: Defs, j: nat)
    requires n in Stages(defs)(j)
    ensures var i := First(Stages(defs), n, j);
            0 < i <= j && n in defs && !Refers(defs[n], defs.Keys - Stages(defs)(i - 1))
  {
    StagesGrow(defs);
    FirstIs(Stages(defs), defs.Keys, n, j, j);
  }

  lemma IsWritten(n: string, config: map<string, string>, defs: Defs)
    requires Written(config, defs) && n in defs
    ensures n in config && Covered(defs[n], config, defs) && config[n] == Render(defs[n])
  {
  }

  lemma EndingIsLive(n: string, config: map<string, string>, defs: Defs, j: nat)
    requires n in defs && n in Stages(defs)(j) && Covered(defs[n], config, defs)
    ensures Below(defs[n], Ranked(config, defs, j), First(Stages(defs), n, j))
  {
    EndingAt(n, defs, j);
    EndingIsBelow(defs[n], config, defs, First(Stages(defs), n, j) - 1, j);
  }

  lemma RankedIsConfigured(config: map<string, string>, defs: Defs, j: nat)
    requires Written(config, defs)
    ensures Configured(config, Ranked(config, defs, j))
  {
    var vars := Ranked(config, defs, j);
    forall n | n in vars.live
      ensures n in vars.defs && n in config && AllWellFormed(vars.defs[n]) && Below(vars.defs[n], vars, vars.rank(n))
      ensures config[n] == Render(vars.defs[n])
    {
      EndingAt(n, defs, j);
      IsWritten(n, config, defs);
      EndingIsLive(n, config, defs, j);
    }
  }

  /** An expression that refers to no endless set has a meaning. */
  lemma EndingHasMeaning(tokens: seq<Token>, config: map<string, string>, defs: Defs)
    returns (vars: Vars, level: nat)
    requires Written(config, defs) && Covered(tokens, config, defs)
    requires forall names :: Endless(names, defs) ==> !Refers(tokens, names)
    ensures Configured(config, vars) && Below(tokens, vars, level)
  {
    StagesGrow(defs);
    var j := ChainEnds(Stages(defs), defs.Keys, 0);
    RestIsEndless(defs, j);
    EndingIsBelow(tokens, config, defs, j, j);
    RankedIsConfigured(config, defs, j);
    vars, level := Ranked(config, defs, j), j + 1;
  }

  // ----- the end of the loop

  /** With a meaning, the loop comes to it after at most as many rounds as the expression has weight. */
  lemma {:induction false} MeaningIsReached(tokens: seq<Token>, config: map<string, string>, vars: Vars, level: nat)
    returns (n: nat)
    requires Configured(config, vars) && AllWellFormed(tokens) && Below(tokens, vars, level)
    ensures Iterate(NextFor(config), Render(tokens), n) == Meaning(tokens, vars, level)
    ensures n <= Weight(tokens, vars, level)
    ensures '$' !in Meaning(tokens, vars, level)
    decreases Weight(tokens, vars, level)
  {
    if '$' in Render(tokens) {
      var now := LighterNext(tokens, config, vars, level);
      n := MeaningIsReached(now, config, vars, level);
      IterateFirst(NextFor(config), Render(tokens), n);
      n := n + 1;
    } else {
      OverWithMeaning(tokens, vars, level);
      n := 0;
    }
  }

  lemma OverWithMeaning(tokens: seq<Token>, vars: Vars, level: nat)
    requires Acyclic(vars) && AllWellFormed(tokens) && Below(tokens, vars, level) && '$' !in Render(tokens)
    ensures Render(tokens) == Meaning(tokens, vars, level)
  {
    NoDollarIsText(tokens);
    TextMeansItself(tokens, vars, level);
  }

  lemma NoDollarIsOver(path: string)
    requires '$' !in path
    ensures !GoesOn(path)
  {
  }

  /** One round keeps the meaning and makes the expression lighter. */
  lemma LighterNext(tokens: seq<Token>, config: map<string, string>, vars: Vars, level: nat) returns (now: seq<Token>)
    requires Configured(config, vars) && AllWellFormed(tokens) && Below(tokens, vars, level) && '$' in Render(tokens)
    ensures AllWellFormed(now) && Below(now, vars, level) && Render(now) == NextFor(config)(Render(tokens))
    ensures Meaning(now, vars, level) == Meaning(tokens, vars, level)
    ensures Weight(now, vars, level) < Weight(tokens, vars, level)
  {
    var p, t, q := SplitAtRef(tokens);
    assert tokens[|p|] == t;
    ReplacementText(config, vars, t.name);
    ReplacedText(p, t, q, config, vars);
    ReplaceOne(p, t, q, vars, level);
    now := (p + Replacement(t.name, vars)) + q;
  }

  /** The loop ends exactly if the expression refers to no endless set of names. */
  lemma EndsIffNothingEndless(tokens: seq<Token>, config: map<string, string>, defs: Defs)
    requires Written(config, defs) && Covered(tokens, config, defs)
    ensures (exists n: nat :: !GoesOn(Rounds(Render(tokens), config, n)))
       <==> forall names :: Endless(names, defs) ==> !Refers(tokens, names)
  {
    if names :| Endless(names, defs) && Refers(tokens, names) {
      forall n: nat ensures GoesOn(Rounds(Render(tokens), config, n)) {
        ReferenceNeverEnds(tokens, names, config, defs, n);
      }
    } else {
      var vars, level := EndingHasMeaning(tokens, config, defs);
      var n := MeaningIsReached(tokens, config, vars, level);
      NoDollarIsOver(Rounds(Render(tokens), config, n));
    }
  }
}
