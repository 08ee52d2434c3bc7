/**
  Which list a word ends up on, told from the words that are met: the partition of the command line and of the files it
  names, without the program that makes it.
 */
module ArgumentReading {
  import Basics
  import opened Arguments

  /** A word as it is met: in a mode, and taken or not by the word before it.  A gap is a missing word or file. */
  datatype Met = Met(word: string, mode: Mode, taken: bool) | Gap

  /** The first word, and the one it takes. */
  function FirstMet(words: seq<string>, m: Mode): (met: seq<Met>)
    requires words != []
    ensures met != [] && met[0] == Met(words[0], m, false)
  {
    if Consumed(words, m) == 1 then [Met(words[0], m, false)]
    else if |words| == 1 then [Met(words[0], m, false), Gap]
    else [Met(words[0], m, false), Met(words[1], m, true)]
  }

  /** The mode after the first n of the words met. */
  function ModeAt(m: Mode, met: seq<Met>, n: nat): Mode
    requires n <= |met|
  {
    if n == 0 then m
    else if met[n - 1].Met? && !met[n - 1].taken then ModeAfter(met[n - 1].word, ModeAt(m, met, n - 1))
    else ModeAt(m, met, n - 1)
  }

  /** The words in the order in which they are met, those of a file in place of the option that names it. */
  function Reading(words: seq<string>, m: Mode, env: Env, level: nat): (met: seq<Met>)
    requires Acyclic(env) && Below(words, env, level)
    ensures met != [] && met[0].Met? ==> !met[0].taken
    decreases level, |words|
  {
    if words == [] then []
    else if words[0] == "-cfg" then
      if |words| == 1 || words[1] !in env.files || |env.files[words[1]]| >= 4096 then [Gap]
      else
        BelowTail(words, env, level, 2);
        var file := Reading(env.files[words[1]], m, env, env.rank(words[1]));
        file + Reading(words[2..], ModeAt(m, file, |file|), env, level)
    else
      var first := FirstMet(words, m);
      if |first| > |words| then first
      else
        BelowTail(words, env, level, |first|);
        first + Reading(words[|first|..], ModeAt(m, first, |first|), env, level)
  }

  // ----- the three lists

  predicate IsModeWord(w: string)
  {
    w in {"--", "--feeder", "--system"}
  }

  predicate IsWorkbenchOption(w: string)
  {
    w in {"-h", "-listmasks", "-listparams", "-batch", "-awb", "-t", "-p", "-w", "-rps", "-listnames", "-d", "-tr",
          "-tm", "-tms", "-ppc", "-cf", "-wb", "-s", "-param"}
  }

  /** The words met in a mode that nothing takes and that are no mode words. */
  predicate Plain(x: Met, m: Mode)
  {
    x.Met? && x.mode == m && !x.taken && !IsModeWord(x.word)
  }

  function OnSystem(met: seq<Met>, n: nat): seq<string>
    requires n <= |met|
  {
    if n == 0 then []
    else if Plain(met[n - 1], SystemMode) then OnSystem(met, n - 1) + [met[n - 1].word]
    else OnSystem(met, n - 1)
  }

  function OnWorkbench(met: seq<Met>, n: nat): seq<string>
    requires n <= |met|
  {
    if n == 0 then []
    else if Plain(met[n - 1], WorkbenchMode) && !IsWorkbenchOption(met[n - 1].word) then
      OnWorkbench(met, n - 1) + [met[n - 1].word]
    else OnWorkbench(met, n - 1)
  }

  /** After "-repeat k" the last word of the list is there k times more. */
  function FeederNext(list: seq<string>, x: Met, env: Env): seq<string>
  {
    if Plain(x, FeederMode) && x.word != "-repeat" then list + [x.word]
    else if x.Met? && x.mode == FeederMode && x.taken && list != [] && env.atoi(x.word) > 0 then
      list + seq(env.atoi(x.word), i => list[|list| - 1])
    else list
  }

  function OnFeeder(before: seq<string>, met: seq<Met>, env: Env, n: nat): seq<string>
    requires n <= |met|
  {
    if n == 0 then before else FeederNext(OnFeeder(before, met, env, n - 1), met[n - 1], env)
  }

  /** The run survives word n: no gap, no option that ends it, no operand refused, and nothing repeated of nothing. */
  predicate Survives(before: seq<string>, met: seq<Met>, env: Env, n: nat)
    requires n < |met|
  {
    && met[n].Met?
    && (Plain(met[n], WorkbenchMode) ==> met[n].word !in {"-h", "-listmasks", "-listparams", "-batch", "-awb"})
    && (met[n].taken && met[n].mode == WorkbenchMode && n > 0 && met[n - 1].Met? ==>
          !env.refuses(met[n - 1].word, met[n].word))
    && (met[n].taken && met[n].mode == FeederMode ==>
          OnFeeder(before, met, env, n) != [] || env.atoi(met[n].word) <= 0)
  }

  ghost predicate AllSurvive(before: seq<string>, met: seq<Met>, env: Env)
  {
    forall n :: 0 <= n < |met| ==> Survives(before, met, env, n)
  }

  // ----- one reading after another

  lemma {:induction false} ModeConcat(m: Mode, p: seq<Met>, q: seq<Met>, n: nat)
    requires n <= |p| + |q|
    ensures ModeAt(m, p + q, n) == if n <= |p| then ModeAt(m, p, n) else ModeAt(ModeAt(m, p, |p|), q, n - |p|)
  {
    if n > 0 {
      ModeConcat(m, p, q, n - 1);
    }
  }

  lemma {:induction false} SystemConcat(p: seq<Met>, q: seq<Met>, n: nat)
    requires n <= |p| + |q|
    ensures n <= |p| ==> OnSystem(p + q, n) == OnSystem(p, n)
    ensures n >= |p| ==> OnSystem(p + q, n) == OnSystem(p, |p|) + OnSystem(q, n - |p|)
  {
    if n > 0 {
      SystemConcat(p, q, n - 1);
    }
  }

  lemma {:induction false} WorkbenchConcat(p: seq<Met>, q: seq<Met>, n: nat)
    requires n <= |p| + |q|
    ensures n <= |p| ==> OnWorkbench(p + q, n) == OnWorkbench(p, n)
    ensures n >= |p| ==> OnWorkbench(p + q, n) == OnWorkbench(p, |p|) + OnWorkbench(q, n - |p|)
  {
    if n > 0 {
      WorkbenchConcat(p, q, n - 1);
    }
  }

  lemma {:induction false} FeederConcat(before: seq<string>, p: seq<Met>, q: seq<Met>, env: Env, n: nat)
    requires n <= |p| + |q|
    ensures OnFeeder(before, p + q, env, n)
         == if n <= |p| then OnFeeder(before, p, env, n) else OnFeeder(OnFeeder(before, p, env, |p|), q, env, n - |p|)
  {
    if n > 0 {
      FeederConcat(before, p, q, env, n - 1);
    }
  }

  lemma SurviveEarlier(before: seq<string>, p: seq<Met>, q: seq<Met>, env: Env, n: nat)
    requires n < |p|
    ensures Survives(before, p + q, env, n) <==> Survives(before, p, env, n)
  {
    FeederConcat(before, p, q, env, n);
  }

  lemma SurviveLater(before: seq<string>, p: seq<Met>, q: seq<Met>, env: Env, n: nat)
    requires n < |q| && (q[0].Met? ==> !q[0].taken)
    ensures Survives(before, p + q, env, |p| + n) <==> Survives(OnFeeder(before, p, env, |p|), q, env, n)
  {
    FeederConcat(before, p, q, env, |p| + n);
    assert (p + q)[|p| + n] == q[n] && (n > 0 ==> (p + q)[|p| + n - 1] == q[n - 1]);
  }

  lemma SurviveConcat(before: seq<string>, p: seq<Met>, q: seq<Met>, env: Env)
    requires q != [] && q[0].Met? ==> !q[0].taken
    ensures AllSurvive(before, p + q, env)
       <==> AllSurvive(before, p, env) && AllSurvive(OnFeeder(before, p, env, |p|), q, env)
  {
    if AllSurvive(before, p + q, env) {
      forall n | 0 <= n < |p| ensures Survives(before, p, env, n) {
        SurviveEarlier(before, p, q, env, n);
      }
      forall n | 0 <= n < |q| ensures Survives(OnFeeder(before, p, env, |p|), q, env, n) {
        SurviveLater(before, p, q, env, n);
      }
    } else {
      var n :| 0 <= n < |p + q| && !Survives(before, p + q, env, n);
      if n < |p| {
        SurviveEarlier(before, p, q, env, n);
      } else {
        SurviveLater(before, p, q, env, n - |p|);
      }
    }
  }

  // ----- the partition

  /** The lists and the mode are those of the reading after a run from state `st`. */
  ghost predicate Grown(met: seq<Met>, st: State, env: Env, end: State)
    requires st.Parts? && end.Parts?
  {
    && end.awb == st.awb + OnWorkbench(met, |met|) && end.sys == st.sys + OnSystem(met, |met|)
    && end.fd == OnFeeder(st.fd, met, env, |met|) && ModeOf(end) == ModeAt(ModeOf(st), met, |met|)
  }

  /** What the reading says of a run from state `st`. */
  ghost predicate Tells(met: seq<Met>, st: State, env: Env, end: State)
    requires st.Parts?
  {
    (end.Parts? <==> AllSurvive(st.fd, met, env)) && (end.Parts? ==> Grown(met, st, env, end))
  }

  lemma GrownConcat(p: seq<Met>, q: seq<Met>, st: State, env: Env, mid: State, end: State)
    requires st.Parts? && mid.Parts? && end.Parts? && Grown(p, st, env, mid) && Grown(q, mid, env, end)
    ensures Grown(p + q, st, env, end)
  {
    ModeConcat(ModeOf(st), p, q, |p + q|);
    FeederConcat(st.fd, p, q, env, |p + q|);
    PlainConcat(st, p, q);
  }

  lemma PlainConcat(st: State, p: seq<Met>, q: seq<Met>)
    requires st.Parts?
    ensures st.awb + OnWorkbench(p + q, |p + q|) == (st.awb + OnWorkbench(p, |p|)) + OnWorkbench(q, |q|)
    ensures st.sys + OnSystem(p + q, |p + q|) == (st.sys + OnSystem(p, |p|)) + OnSystem(q, |q|)
  {
    SystemConcat(p, q, |p + q|);
    WorkbenchConcat(p, q, |p + q|);
    Behind(st.awb, OnWorkbench(p, |p|), OnWorkbench(q, |q|), OnWorkbench(p + q, |p + q|));
    Behind(st.sys, OnSystem(p, |p|), OnSystem(q, |q|), OnSystem(p + q, |p + q|));
  }

  lemma Behind(a: seq<string>, b: seq<string>, c: seq<string>, d: seq<string>)
    requires d == b + c
    ensures a + d == (a + b) + c
  {
    Basics.Regroup(a, b, c);
  }

  lemma TellsConcat(p: seq<Met>, q: seq<Met>, st: State, env: Env, mid: State, end: State)
    requires st.Parts? && Tells(p, st, env, mid) && (q != [] && q[0].Met? ==> !q[0].taken)
    requires if mid.Parts? then Tells(q, mid, env, end) else end == Stopped
    ensures Tells(p + q, st, env, end)
  {
    SurviveConcat(st.fd, p, q, env);
    if mid.Parts? && end.Parts? {
      GrownConcat(p, q, st, env, mid, end);
    }
  }

  /** What becomes of the first word. */
  function Outcome(a: Action): State
    requires !a.Include?
  {
    match a case Halt => Stopped case Advance(n, next) => next
  }

  lemma FirstTells(words: seq<string>, st: State, env: Env)
    requires words != [] && st.Parts? && words[0] != "-cfg"
    ensures var met, a := FirstMet(words, ModeOf(st)), Act(words, st, env);
            Tells(met, st, env, Outcome(a)) && (a.Advance? ==> a.count == |met|)
  {
    match ModeOf(st)
    case WorkbenchMode => WorkbenchTells(words, st, env);
    case SystemMode => SystemTells(words, st, env);
    case FeederMode => FeederTells(words, st, env);
  }

  lemma SystemTells(words: seq<string>, st: State, env: Env)
    requires words != [] && st.Parts? && words[0] != "-cfg" && ModeOf(st) == SystemMode
    ensures var met, a := FirstMet(words, ModeOf(st)), Act(words, st, env);
            Tells(met, st, env, Outcome(a)) && (a.Advance? ==> a.count == |met|)
  {
    OneMet(Met(words[0], SystemMode, false), st.fd, env);
  }

  /** The lists of one word. */
  lemma OneMet(x: Met, before: seq<string>, env: Env)
    ensures OnSystem([x], 1) == if Plain(x, SystemMode) then [x.word] else []
    ensures OnWorkbench([x], 1) == if Plain(x, WorkbenchMode) && !IsWorkbenchOption(x.word) then [x.word] else []
    ensures OnFeeder(before, [x], env, 0) == before
    ensures x.Met? && !x.taken ==>
              OnFeeder(before, [x], env, 1)
              == if Plain(x, FeederMode) && x.word != "-repeat" then before + [x.word] else before
    ensures x.Met? && !x.taken ==> forall m :: ModeAt(m, [x], 1) == ModeAfter(x.word, m)
    ensures AllSurvive(before, [x], env) <==> Survives(before, [x], env, 0)
  {
    assert OnSystem([x], 0) == [] && OnWorkbench([x], 0) == [];
    assert forall m :: ModeAt(m, [x], 0) == m;
  }

  lemma WorkbenchTells(words: seq<string>, st: State, env: Env)
    requires words != [] && st.Parts? && words[0] != "-cfg" && ModeOf(st) == WorkbenchMode
    ensures var met, a := FirstMet(words, ModeOf(st)), Act(words, st, env);
            Tells(met, st, env, Outcome(a)) && (a.Advance? ==> a.count == |met|)
  {
    var x := Met(words[0], WorkbenchMode, false);
    OneMet(x, st.fd, env);
    if Consumed(words, WorkbenchMode) == 2 {
      var y := if |words| == 1 then Gap else Met(words[1], WorkbenchMode, true);
      TwoMet(x, y, st.fd, env);
    }
  }

  lemma TwoMet(x: Met, y: Met, before: seq<string>, env: Env)
    requires x.Met? && !x.taken && (y.Met? ==> y.taken)
    ensures OnSystem([x, y], 2) == OnSystem([x], 1) && OnWorkbench([x, y], 2) == OnWorkbench([x], 1)
    ensures OnFeeder(before, [x, y], env, 1) == OnFeeder(before, [x], env, 1)
    ensures OnFeeder(before, [x, y], env, 0) == before
    ensures forall m :: ModeAt(m, [x, y], 2) == ModeAt(m, [x], 1)
    ensures Survives(before, [x, y], env, 0) == Survives(before, [x], env, 0)
    ensures AllSurvive(before, [x, y], env) == (Survives(before, [x, y], env, 0) && Survives(before, [x, y], env, 1))
  {
    assert [x, y] == [x] + [y];
    SystemConcat([x], [y], 1);
    WorkbenchConcat([x], [y], 1);
    FeederConcat(before, [x], [y], env, 1);
    forall m ensures ModeAt(m, [x, y], 2) == ModeAt(m, [x], 1) {
      ModeConcat(m, [x], [y], 1);
    }
  }

  lemma FeederTells(words: seq<string>, st: State, env: Env)
    requires words != [] && st.Parts? && words[0] != "-cfg" && ModeOf(st) == FeederMode
    ensures var met, a := FirstMet(words, ModeOf(st)), Act(words, st, env);
            Tells(met, st, env, Outcome(a)) && (a.Advance? ==> a.count == |met|)
  {
    var x := Met(words[0], FeederMode, false);
    OneMet(x, st.fd, env);
    if words[0] == "-repeat" {
      var y := if |words| == 1 then Gap else Met(words[1], FeederMode, true);
      TwoMet(x, y, st.fd, env);
      if |words| > 1 && st.fd != [] {
        var last, n := st.fd[|st.fd| - 1], env.atoi(words[1]);
        assert n > 0 ==> Copies(last, n) == seq(n, i => last);
      }
    }
  }

  /**
    For all words, with files to any depth and in any mode to begin with: the run goes on exactly if it survives every
    word met, and then each list is grown by its own words of the reading.
   */
  lemma {:induction false} PartitionIsReading(words: seq<string>, st: State, env: Env, level: nat)
    requires Acyclic(env) && Below(words, env, level) && st.Parts?
    ensures Tells(Reading(words, ModeOf(st), env, level), st, env, Run(words, st, env, level))
    decreases level, |words|
  {
    if words != [] {
      if words[0] == "-cfg" {
        FileIsReading(words, st, env, level);
      } else {
        WordIsReading(words, st, env, level);
      }
    }
  }

  lemma FileIsReading(words: seq<string>, st: State, env: Env, level: nat)
    requires Acyclic(env) && Below(words, env, level) && st.Parts? && words != [] && words[0] == "-cfg"
    ensures Tells(Reading(words, ModeOf(st), env, level), st, env, Run(words, st, env, level))
    decreases level, |words|, 0
  {
    if |words| == 1 || words[1] !in env.files || |env.files[words[1]]| >= MAXARGS {
      assert !Survives(st.fd, [Gap], env, 0);
    } else {
      var f := words[1];
      var file, mid := Reading(env.files[f], ModeOf(st), env, env.rank(f)), Run(env.files[f], st, env, env.rank(f));
      BelowTail(words, env, level, 2);
      PartitionIsReading(env.files[f], st, env, env.rank(f));
      var rest := Reading(words[2..], ModeAt(ModeOf(st), file, |file|), env, level);
      if mid.Parts? {
        PartitionIsReading(words[2..], mid, env, level);
      }
      TellsConcat(file, rest, st, env, mid, Run(words[2..], mid, env, level));
    }
  }

  lemma WordIsReading(words: seq<string>, st: State, env: Env, level: nat)
    requires Acyclic(env) && Below(words, env, level) && st.Parts? && words != [] && words[0] != "-cfg"
    ensures Tells(Reading(words, ModeOf(st), env, level), st, env, Run(words, st, env, level))
    decreases level, |words|, 0
  {
    var first, a := FirstMet(words, ModeOf(st)), Act(words, st, env);
    FirstTells(words, st, env);
    if |first| <= |words| {
      BelowTail(words, env, level, |first|);
      var rest := Reading(words[|first|..], ModeAt(ModeOf(st), first, |first|), env, level);
      var mid := Outcome(a);
      var end := Run(words, st, env, level);
      if a.Advance? {
        PartitionIsReading(words[|first|..], mid, env, level);
      }
      TellsConcat(first, rest, st, env, mid, end);
    }
  }

  // ----- what a reading is

  /** The mode that a word leads to. */
  ghost predicate LeadsTo(x: Met, m: Mode)
  {
    if x.Gap? || x.taken then true
    else if x.word == "--" then m == WorkbenchMode
    else if x.word == "--feeder" then m == FeederMode
    else if x.word == "--system" then m == SystemMode
    else m == x.mode
  }

  /** A word that the other takes. */
  predicate TakesNext(x: Met, next: string)
  {
    x.Met? && !x.taken && match x.mode
                          case WorkbenchMode =>
                            || x.word in {"-tm", "-tms", "-ppc", "-cf", "-wb", "-s", "-param"}
                            || (x.word == "-tr" && next != "" && next[0] == '/')
                          case FeederMode => x.word == "-repeat"
                          case SystemMode => false
  }

  /** Every word is met in the mode that the words before it lead to. */
  ghost predicate InMode(met: seq<Met>, m: Mode)
  {
    forall i :: 0 <= i < |met| && met[i].Met? ==> met[i].mode == ModeAt(m, met, i)
  }

  lemma InModeConcat(p: seq<Met>, q: seq<Met>, m: Mode)
    requires InMode(p, m) && InMode(q, ModeAt(m, p, |p|))
    ensures InMode(p + q, m)
  {
    forall i | 0 <= i < |p + q| && (p + q)[i].Met? ensures (p + q)[i].mode == ModeAt(m, p + q, i) {
      ModeConcat(m, p, q, i);
    }
  }

  lemma {:induction false} ReadingModes(words: seq<string>, m: Mode, env: Env, level: nat)
    requires Acyclic(env) && Below(words, env, level)
    ensures InMode(Reading(words, m, env, level), m)
    decreases level, |words|
  {
    if words != [] {
      if words[0] == "-cfg" {
        FileModes(words, m, env, level);
      } else {
        WordModes(words, m, env, level);
      }
    }
  }

  lemma FileModes(words: seq<string>, m: Mode, env: Env, level: nat)
    requires Acyclic(env) && Below(words, env, level) && words != [] && words[0] == "-cfg"
    ensures InMode(Reading(words, m, env, level), m)
    decreases level, |words|, 0
  {
    if |words| > 1 && words[1] in env.files && |env.files[words[1]]| < MAXARGS {
      BelowTail(words, env, level, 2);
      var file := Reading(env.files[words[1]], m, env, env.rank(words[1]));
      ReadingModes(env.files[words[1]], m, env, env.rank(words[1]));
      ReadingModes(words[2..], ModeAt(m, file, |file|), env, level);
      InModeConcat(file, Reading(words[2..], ModeAt(m, file, |file|), env, level), m);
    }
  }

  lemma WordModes(words: seq<string>, m: Mode, env: Env, level: nat)
    requires Acyclic(env) && Below(words, env, level) && words != [] && words[0] != "-cfg"
    ensures InMode(Reading(words, m, env, level), m)
    decreases level, |words|, 0
  {
    var first := FirstMet(words, m);
    FirstModes(words, m);
    if |first| <= |words| {
      BelowTail(words, env, level, |first|);
      ReadingModes(words[|first|..], ModeAt(m, first, |first|), env, level);
      InModeConcat(first, Reading(words[|first|..], ModeAt(m, first, |first|), env, level), m);
    }
  }

  lemma FirstModes(words: seq<string>, m: Mode)
    requires words != []
    ensures InMode(FirstMet(words, m), m)
  {
    var met := FirstMet(words, m);
    assert ModeAt(m, met, 0) == m;
    if |met| == 2 {
      assert ModeAt(m, met, 1) == ModeAfter(words[0], m) == m;
    }
  }

  /** The modes of a reading: it begins in the mode given, and only mode words that nothing takes change it. */
  lemma ReadingBegins(words: seq<string>, m: Mode, env: Env, level: nat)
    requires Acyclic(env) && Below(words, env, level)
    ensures var met := Reading(words, m, env, level);
            && (met != [] && met[0].Met? ==> met[0].mode == m && !met[0].taken)
            && forall i :: 0 < i < |met| && met[i - 1].Met? && met[i].Met? ==>
                 if met[i - 1].taken then met[i].mode == met[i - 1].mode else LeadsTo(met[i - 1], met[i].mode)
  {
    var met := Reading(words, m, env, level);
    ReadingModes(words, m, env, level);
    forall i | 0 < i < |met| && met[i - 1].Met? && met[i].Met?
      ensures if met[i - 1].taken then met[i].mode == met[i - 1].mode else LeadsTo(met[i - 1], met[i].mode)
    {
      assert ModeAt(m, met, i - 1) == met[i - 1].mode && ModeAt(m, met, i) == met[i].mode;
    }
  }

  /** A list without files is met word by word, up to a missing one, and a word is taken exactly as the options say. */
  lemma {:induction false} FlatReading(words: seq<string>, m: Mode, env: Env, level: nat)
    requires Acyclic(env) && Below(words, env, level) && "-cfg" !in words
    ensures var met := Reading(words, m, env, level);
            && (forall i :: 0 <= i < |met| && met[i].Met? ==>
                  && i < |words| && met[i].word == words[i]
                  && (met[i].taken <==> i > 0 && TakesNext(met[i - 1], words[i])))
            && (forall i :: 0 <= i < |met| && met[i].Gap? ==> i == |words| && i > 0 && TakesNext(met[i - 1], ""))
            && |met| >= |words|
    decreases |words|
  {
    if words != [] {
      assert words[0] in words;
      var first := FirstMet(words, m);
      if |first| <= |words| {
        BelowTail(words, env, level, |first|);
        var mode := ModeAt(m, first, |first|);
        FlatReading(words[|first|..], mode, env, level);
        FlatFirst(words, m, first, Reading(words[|first|..], mode, env, level));
      }
    }
  }

  lemma FirstTakes(words: seq<string>, m: Mode)
    requires words != []
    ensures |FirstMet(words, m)| == 2
       <==> TakesNext(Met(words[0], m, false), if |words| > 1 then words[1] else "")
  {
  }

  lemma FlatFirst(words: seq<string>, m: Mode, first: seq<Met>, rest: seq<Met>)
    requires words != [] && first == FirstMet(words, m) && |first| <= |words|
    requires forall i :: 0 <= i < |rest| && rest[i].Met? ==>
               && i < |words| - |first| && rest[i].word == words[|first|..][i]
               && (rest[i].taken <==> i > 0 && TakesNext(rest[i - 1], words[|first|..][i]))
    requires forall i :: 0 <= i < |rest| && rest[i].Gap? ==>
               i == |words| - |first| && i > 0 && TakesNext(rest[i - 1], "")
    requires |rest| >= |words| - |first| && (rest != [] && rest[0].Met? ==> !rest[0].taken)
    ensures var met := first + rest;
            && (forall i :: 0 <= i < |met| && met[i].Met? ==>
                  && i < |words| && met[i].word == words[i]
                  && (met[i].taken <==> i > 0 && TakesNext(met[i - 1], words[i])))
            && (forall i :: 0 <= i < |met| && met[i].Gap? ==> i == |words| && i > 0 && TakesNext(met[i - 1], ""))
            && |met| >= |words|
  {
    var met := first + rest;
    FirstTakes(words, m);
    forall i | 0 <= i < |met| && met[i].Met?
      ensures i < |words| && met[i].word == words[i] && (met[i].taken <==> i > 0 && TakesNext(met[i - 1], words[i]))
    {
      if i > |first| {
        var k := i - |first|;
        assert met[i] == rest[k] && met[i - 1] == rest[k - 1] && words[|first|..][k] == words[i];
        assert rest[k].taken <==> k > 0 && TakesNext(rest[k - 1], words[|first|..][k]);
      } else if i == |first| {
        assert met[i] == rest[0] && met[i - 1] == first[|first| - 1];
        assert words[|first|..][0] == words[i];
        assert !rest[0].taken && !TakesNext(first[|first| - 1], words[i]);
      } else {
        assert met[i] == first[i] && (i > 0 ==> met[i - 1] == first[0]);
      }
    }
  }
}
