/**
  Partitioning the command line into the workbench's, the system's and the feeder's words. A configuration file named
  by -cfg is partitioned in place by the same routine, in the mode its position has.
 */
module Arguments {
  /** A file of this many words or more does not fit the reader's list. */
  const MAXARGS := 4096

  /**
    What the partitioning meets: the words of each configuration file, the value of a number, and the operands an
    option refuses. `rank` witnesses that no file names itself, directly or through others.
   */
  datatype Env = Env(files: map<string, seq<string>>, rank: string -> nat, atoi: string -> int,
                     refuses: (string, string) -> bool)

  /** The words right after an option. */
  function Operands(words: seq<string>, option: string): set<string>
  {
    if |words| < 2 then {}
    else (if words[0] == option then {words[1]} else {}) + Operands(words[1..], option)
  }

  lemma {:induction false} OperandsTail(words: seq<string>, option: string, n: nat)
    requires n <= |words|
    ensures Operands(words[n..], option) <= Operands(words, option)
  {
    if n == 0 {
      assert words[0..] == words;
    } else {
      OperandsTail(words[1..], option, n - 1);
      assert words[1..][n - 1..] == words[n..];
    }
  }

  lemma {:induction false} NoOperands(words: seq<string>, option: string)
    requires option !in words
    ensures Operands(words, option) == {}
  {
    if |words| >= 2 {
      NoOperands(words[1..], option);
    }
  }

  /** The words of a list name files of lower rank only. */
  ghost predicate Below(words: seq<string>, env: Env, level: nat)
  {
    forall f :: f in Operands(words, "-cfg") && f in env.files ==> env.rank(f) < level
  }

  lemma BelowTail(words: seq<string>, env: Env, level: nat, n: nat)
    requires n <= |words| && Below(words, env, level)
    ensures Below(words[n..], env, level)
  {
    OperandsTail(words, "-cfg", n);
  }

  ghost predicate Acyclic(env: Env)
  {
    forall f :: f in env.files ==> Below(env.files[f], env, env.rank(f))
  }

  /** Stopped: the run has exited, failed an assertion, or read a word that is not there. */
  datatype State = Stopped
                 | Parts(awb: seq<string>, sys: seq<string>, fd: seq<string>, feederArgs: bool, systemArgs: bool)

  datatype Option = NoOption | Exits | Takes(operands: nat)

  /** What the workbench makes of a word, given the words from it on. */
  function Recognise(words: seq<string>): Option
    requires words != []
  {
    var w := words[0];
    if w in {"-h", "-listmasks", "-listparams", "-batch", "-awb"} then Exits
    else if w in {"-t", "-p", "-w", "-rps", "-listnames", "-d"} then Takes(0)
    else if w == "-tr" then Takes(if |words| > 1 && words[1] != "" && words[1][0] == '/' then 1 else 0)
    else if w in {"-tm", "-tms", "-ppc", "-cf", "-wb", "-s", "-param"} then Takes(1)
    else NoOption
  }

  function Copies(w: string, n: int): (c: seq<string>)
    ensures |c| == if n > 0 then n else 0
    ensures forall i :: 0 <= i < |c| ==> c[i] == w
  {
    if n <= 0 then [] else seq(n, i => w)
  }

  /** What one word leads to: the end of the run, a file, or some words consumed. */
  datatype Action = Halt | Include(file: string) | Advance(count: nat, state: State)

  function Act(words: seq<string>, st: State, env: Env): (a: Action)
    requires words != [] && st.Parts?
    ensures a.Advance? ==> 1 <= a.count <= |words| && a.state.Parts?
    ensures a.Include?
       <==> words[0] == "-cfg" && |words| > 1 && words[1] in env.files && |env.files[words[1]]| < MAXARGS
    ensures a.Include? ==> a.file == words[1]
  {
    var w := words[0];
    if w == "--" then Advance(1, st.(feederArgs := false, systemArgs := false))
    else if w == "--feeder" then Advance(1, st.(feederArgs := true, systemArgs := false))
    else if w == "--system" then Advance(1, st.(feederArgs := false, systemArgs := true))
    else if w == "-cfg" then
      if |words| == 1 || words[1] !in env.files || |env.files[words[1]]| >= MAXARGS then Halt else Include(words[1])
    else if st.feederArgs then
      if w == "-repeat" then
        if |words| == 1 || (env.atoi(words[1]) > 0 && st.fd == []) then Halt
        else if st.fd == [] then Advance(2, st)
        else Advance(2, st.(fd := st.fd + Copies(st.fd[|st.fd| - 1], env.atoi(words[1]))))
      else Advance(1, st.(fd := st.fd + [w]))
    else if st.systemArgs then Advance(1, st.(sys := st.sys + [w]))
    else
      match Recognise(words)
      case Exits => Halt
      case NoOption => Advance(1, st.(awb := st.awb + [w]))
      case Takes(n) => if n >= |words| || (n == 1 && env.refuses(w, words[1])) then Halt else Advance(1 + n, st)
  }

  /** The partition after the words. */
  function Run(words: seq<string>, st: State, env: Env, level: nat): State
    requires Acyclic(env) && Below(words, env, level)
    decreases level, |words|
  {
    if st.Stopped? || words == [] then st
    else
      match Act(words, st, env)
      case Halt => Stopped
      case Include(f) =>
        BelowTail(words, env, level, 2);
        Run(words[2..], Run(env.files[f], st, env, env.rank(f)), env, level)
      case Advance(n, next) =>
        BelowTail(words, env, level, n);
        Run(words[n..], next, env, level)
  }

  // ----- inline expansion

  datatype Mode = WorkbenchMode | SystemMode | FeederMode

  function ModeOf(st: State): Mode
    requires st.Parts?
  {
    if st.feederArgs then FeederMode else if st.systemArgs then SystemMode else WorkbenchMode
  }

  /** Words whose meaning in a mode can depend on the word that follows. */
  predicate TakesOperand(w: string, m: Mode)
  {
    match m
    case WorkbenchMode => w in {"-tm", "-tms", "-ppc", "-cf", "-wb", "-s", "-param", "-tr"}
    case SystemMode => false
    case FeederMode => w == "-repeat"
  }

  /** How many words the first one takes, if the run goes on. */
  function Consumed(words: seq<string>, m: Mode): (n: nat)
    requires words != []
    ensures 1 <= n <= 2 && (n == 2 ==> TakesOperand(words[0], m))
  {
    match m
    case WorkbenchMode => (match Recognise(words) case Takes(n) => 1 + n case _ => 1)
    case SystemMode => 1
    case FeederMode => if words[0] == "-repeat" then 2 else 1
  }

  function ModeAfter(w: string, m: Mode): Mode
  {
    if w == "--" then WorkbenchMode
    else if w == "--feeder" then FeederMode
    else if w == "--system" then SystemMode
    else m
  }

  datatype Verdict = Untidy | Tidy(mode: Mode)

  /**
    The words are tidy in a mode: no option that takes an operand in the mode it is met in stands at the end of a list
    or in front of a -cfg, and every file named by -cfg can be read and is tidy in the mode of its place. Then the
    result is the mode after them.
   */
  function Tidiness(words: seq<string>, m: Mode, env: Env, level: nat): Verdict
    requires Acyclic(env) && Below(words, env, level)
    decreases level, |words|
  {
    if words == [] then Tidy(m)
    else if words[0] == "-cfg" then
      if |words| > 1 && words[1] in env.files && |env.files[words[1]]| < MAXARGS then
        var file := Tidiness(env.files[words[1]], m, env, env.rank(words[1]));
        if file.Untidy? then Untidy
        else
          BelowTail(words, env, level, 2);
          Tidiness(words[2..], file.mode, env, level)
      else Untidy
    else if TakesOperand(words[0], m) && (|words| == 1 || words[1] == "-cfg") then Untidy
    else
      BelowTail(words, env, level, Consumed(words, m));
      Tidiness(words[Consumed(words, m)..], ModeAfter(words[0], m), env, level)
  }

  /** Each "-cfg file" replaced by the words of the file, themselves spliced. */
  function Splice(words: seq<string>, env: Env, level: nat): seq<string>
    requires Acyclic(env) && Below(words, env, level)
    decreases level, |words|
  {
    if words == [] then []
    else if words[0] == "-cfg" && |words| > 1 && words[1] in env.files then
      BelowTail(words, env, level, 2);
      Splice(env.files[words[1]], env, env.rank(words[1])) + Splice(words[2..], env, level)
    else
      BelowTail(words, env, level, 1);
      [words[0]] + Splice(words[1..], env, level)
  }

  lemma NoFilesBelow(words: seq<string>, env: Env)
    requires "-cfg" !in words
    ensures forall level: nat :: Below(words, env, level)
  {
    NoOperands(words, "-cfg");
  }

  /** What a word takes with it, and what it leads to, depends on it and its operand alone. */
  lemma ActLooksNoFurther(x: seq<string>, y: seq<string>, st: State, env: Env)
    requires x != [] && y != [] && st.Parts? && x[0] == y[0] != "-cfg"
    requires TakesOperand(x[0], ModeOf(st)) ==> |x| > 1 && |y| > 1 && x[1] == y[1]
    ensures Act(x, st, env) == Act(y, st, env)
    ensures var a := Act(x, st, env);
            a.Advance? ==> a.count == Consumed(x, ModeOf(st)) && ModeOf(a.state) == ModeAfter(x[0], ModeOf(st))
  {
  }

  lemma ConsumedSame(x: seq<string>, y: seq<string>, m: Mode)
    requires x != [] && y != [] && x[0] == y[0] && (TakesOperand(x[0], m) ==> |x| > 1 && |y| > 1 && x[1] == y[1])
    ensures Consumed(x, m) == Consumed(y, m)
  {
  }

  /** A word in front of the rest, with what it takes. */
  lemma TidyWord(words: seq<string>, m: Mode, env: Env, level: nat)
    requires Acyclic(env) && Below(words, env, level) && Tidiness(words, m, env, level).Tidy?
    requires words != [] && words[0] != "-cfg"
    ensures var n := Consumed(words, m);
            && n <= |words| && Below(words[n..], env, level)
            && Tidiness(words, m, env, level) == Tidiness(words[n..], ModeAfter(words[0], m), env, level)
    ensures TakesOperand(words[0], m) ==> |words| > 1 && words[1] != "-cfg"
  {
    BelowTail(words, env, level, Consumed(words, m));
  }

  /** The spliced list, word by word: what the first one takes is the same. */
  lemma SpliceWord(words: seq<string>, m: Mode, env: Env, level: nat)
    requires Acyclic(env) && Below(words, env, level) && Tidiness(words, m, env, level).Tidy?
    requires words != [] && words[0] != "-cfg"
    ensures var flat, n := Splice(words, env, level), Consumed(words, m);
            && flat != [] && flat[0] == words[0] && n <= |flat| && n <= |words| && Below(words[n..], env, level)
            && flat[n..] == Splice(words[n..], env, level)
            && (TakesOperand(words[0], m) ==> |flat| > 1 && |words| > 1 && flat[1] == words[1])
            && (n == 2 ==> flat[1] == words[1] != "-cfg") && Consumed(flat, m) == n
  {
    TidyWord(words, m, env, level);
    BelowTail(words, env, level, 1);
    var flat := Splice(words, env, level);
    assert flat[1..] == Splice(words[1..], env, level);
    if TakesOperand(words[0], m) {
      BelowTail(words, env, level, 2);
      assert words[1..][1..] == words[2..];
      assert Splice(words[1..], env, level) == [words[1]] + Splice(words[2..], env, level);
      assert flat[1] == words[1] && flat[2..] == Splice(words[2..], env, level);
    }
    ConsumedSame(words, flat, m);
  }

  /** The mode after a tidy list does not depend on what follows it. */
  lemma {:induction false} TidyConcat(u: seq<string>, v: seq<string>, m: Mode, env: Env, l: nat, level: nat)
    requires Acyclic(env) && "-cfg" !in u && "-cfg" !in v && Below(u, env, l) && Tidiness(u, m, env, l).Tidy?
    requires Below(v, env, level) && Below(u + v, env, level)
    ensures Tidiness(u + v, m, env, level) == Tidiness(v, Tidiness(u, m, env, l).mode, env, level)
    decreases |u|
  {
    if u == [] {
      assert u + v == v;
    } else {
      var n := Consumed(u, m);
      assert u[0] in u;
      TidyWord(u, m, env, l);
      ConsumedSame(u, u + v, m);
      assert (u + v)[n..] == u[n..] + v;
      BelowTail(u + v, env, level, n);
      TidyConcat(u[n..], v, ModeAfter(u[0], m), env, l, level);
    }
  }

  /** Splicing tidy words leaves a list without -cfg that is tidy in the same modes. */
  lemma {:induction false} SpliceIsTidy(words: seq<string>, m: Mode, env: Env, level: nat)
    requires Acyclic(env) && Below(words, env, level) && Tidiness(words, m, env, level).Tidy?
    ensures var flat := Splice(words, env, level);
            && "-cfg" !in flat && Below(flat, env, level)
            && Tidiness(flat, m, env, level) == Tidiness(words, m, env, level)
    decreases level, |words|
  {
    var flat := Splice(words, env, level);
    if words != [] {
      if words[0] == "-cfg" {
        var f := words[1];
        var file := Tidiness(env.files[f], m, env, env.rank(f));
        BelowTail(words, env, level, 2);
        SpliceIsTidy(env.files[f], m, env, env.rank(f));
        SpliceIsTidy(words[2..], file.mode, env, level);
        NoFilesBelow(flat, env);
        TidyConcat(Splice(env.files[f], env, env.rank(f)), Splice(words[2..], env, level), m, env, env.rank(f), level);
      } else {
        SplicedTail(words, m, env, level);
      }
    }
  }

  lemma SplicedTail(words: seq<string>, m: Mode, env: Env, level: nat)
    requires Acyclic(env) && Below(words, env, level) && Tidiness(words, m, env, level).Tidy?
    requires words != [] && words[0] != "-cfg"
    ensures var flat := Splice(words, env, level);
            && "-cfg" !in flat && Below(flat, env, level)
            && Tidiness(flat, m, env, level) == Tidiness(words, m, env, level)
    decreases level, |words|, 0
  {
    var flat, n := Splice(words, env, level), Consumed(words, m);
    TidyWord(words, m, env, level);
    SpliceWord(words, m, env, level);
    SpliceIsTidy(words[n..], ModeAfter(words[0], m), env, level);
    assert flat == flat[..n] + flat[n..];
    assert flat[..n] == if n == 2 then [words[0], words[1]] else [words[0]];
    NoFilesBelow(flat, env);
  }

  /** The level only bounds the nesting; it does not change the outcome. */
  lemma {:induction false} RunLevel(words: seq<string>, st: State, env: Env, l: nat, m: nat)
    requires Acyclic(env) && Below(words, env, l) && Below(words, env, m)
    ensures Run(words, st, env, l) == Run(words, st, env, m)
    decreases |words|
  {
    if st.Parts? && words != [] {
      match Act(words, st, env)
      case Halt =>
      case Include(f) =>
        BelowTail(words, env, l, 2);
        BelowTail(words, env, m, 2);
        RunLevel(words[2..], Run(env.files[f], st, env, env.rank(f)), env, l, m);
      case Advance(n, next) =>
        BelowTail(words, env, l, n);
        BelowTail(words, env, m, n);
        RunLevel(words[n..], next, env, l, m);
    }
  }

  /** A run ends in the mode that the words lead to. */
  ghost predicate EndsIn(st: State, m: Mode)
  {
    st.Parts? ==> ModeOf(st) == m
  }

  /** A word that takes `n` words hands the state to those behind them. */
  lemma RunActs(words: seq<string>, st: State, env: Env, level: nat, n: nat, next: State)
    requires Acyclic(env) && Below(words, env, level) && words != [] && st.Parts?
    requires Act(words, st, env) == Advance(n, next) && Below(words[n..], env, level)
    ensures Run(words, st, env, level) == Run(words[n..], next, env, level)
  {
  }

  /** A tidy list without -cfg does what it does whatever follows it. */
  lemma {:induction false} RunConcat(u: seq<string>, v: seq<string>, st: State, env: Env, l: nat, level: nat)
    requires Acyclic(env) && "-cfg" !in u && "-cfg" !in v && Below(u, env, l) && Below(v, env, level)
    requires Below(u + v, env, level)
    requires st.Parts? && Tidiness(u, ModeOf(st), env, l).Tidy?
    ensures Run(u + v, st, env, level) == Run(v, Run(u, st, env, l), env, level)
    ensures EndsIn(Run(u, st, env, l), Tidiness(u, ModeOf(st), env, l).mode)
    decreases |u|
  {
    if u == [] {
      assert u + v == v;
    } else {
      assert u[0] in u;
      TidyWord(u, ModeOf(st), env, l);
      ActLooksNoFurther(u, u + v, st, env);
      match Act(u, st, env)
      case Halt =>
      case Advance(n, next) =>
        assert (u + v)[n..] == u[n..] + v;
        BelowTail(u + v, env, level, n);
        BelowTail(u, env, l, n);
        RunActs(u, st, env, l, n, next);
        RunActs(u + v, st, env, level, n, next);
        RunConcat(u[n..], v, next, env, l, level);
    }
  }

  /**
    A -cfg option is inline expansion: the partition and the mode flags are those of the words with each file's
    words in place of the option.
   */
  lemma {:induction false} ConfigFileIsInlineExpansion(words: seq<string>, st: State, env: Env, level: nat)
    requires Acyclic(env) && Below(words, env, level) && st.Parts? && Tidiness(words, ModeOf(st), env, level).Tidy?
    ensures "-cfg" !in Splice(words, env, level) && Below(Splice(words, env, level), env, level)
    ensures Run(words, st, env, level) == Run(Splice(words, env, level), st, env, level)
    ensures EndsIn(Run(words, st, env, level), Tidiness(words, ModeOf(st), env, level).mode)
    decreases level, |words|
  {
    SpliceIsTidy(words, ModeOf(st), env, level);
    if words != [] {
      if words[0] == "-cfg" {
        FileExpands(words, st, env, level);
      } else {
        WordExpands(words, st, env, level);
      }
    }
  }

  lemma FileExpands(words: seq<string>, st: State, env: Env, level: nat)
    requires Acyclic(env) && Below(words, env, level) && st.Parts? && Tidiness(words, ModeOf(st), env, level).Tidy?
    requires words != [] && words[0] == "-cfg" && Below(Splice(words, env, level), env, level)
    ensures Run(words, st, env, level) == Run(Splice(words, env, level), st, env, level)
    ensures EndsIn(Run(words, st, env, level), Tidiness(words, ModeOf(st), env, level).mode)
    decreases level, |words|, 0
  {
    var f := words[1];
    BelowTail(words, env, level, 2);
    var file, rest := Splice(env.files[f], env, env.rank(f)), Splice(words[2..], env, level);
    var mid := Run(env.files[f], st, env, env.rank(f));
    SpliceIsTidy(env.files[f], ModeOf(st), env, env.rank(f));
    SpliceIsTidy(words[2..], Tidiness(env.files[f], ModeOf(st), env, env.rank(f)).mode, env, level);
    ConfigFileIsInlineExpansion(env.files[f], st, env, env.rank(f));
    RunConcat(file, rest, st, env, env.rank(f), level);
    if mid.Parts? {
      ConfigFileIsInlineExpansion(words[2..], mid, env, level);
    }
  }

  lemma WordExpands(words: seq<string>, st: State, env: Env, level: nat)
    requires Acyclic(env) && Below(words, env, level) && st.Parts? && Tidiness(words, ModeOf(st), env, level).Tidy?
    requires words != [] && words[0] != "-cfg" && Below(Splice(words, env, level), env, level)
    ensures Run(words, st, env, level) == Run(Splice(words, env, level), st, env, level)
    ensures EndsIn(Run(words, st, env, level), Tidiness(words, ModeOf(st), env, level).mode)
    decreases level, |words|, 0
  {
    var flat := Splice(words, env, level);
    TidyWord(words, ModeOf(st), env, level);
    SpliceWord(words, ModeOf(st), env, level);
    ActLooksNoFurther(words, flat, st, env);
    match Act(words, st, env)
    case Halt =>
    case Advance(n, next) =>
      BelowTail(flat, env, level, n);
      ConfigFileIsInlineExpansion(words[n..], next, env, level);
  }

  // ----- the argument lists

  /** Every -repeat of the command line and of the files has a count that is no less than zero. */
  ghost predicate CountsNotNegative(words: seq<string>, env: Env)
  {
    forall w :: w in Operands(words, "-repeat") ==> env.atoi(w) >= 0
  }

  lemma OperandAt(words: seq<string>, option: string, i: nat)
    requires i + 1 < |words| && words[i] == option
    ensures words[i + 1] in Operands(words, option)
  {
    OperandsTail(words, option, i);
    assert words[i..][0] == option && words[i..][1] == words[i + 1];
  }

  ghost predicate RepeatsGrow(env: Env)
  {
    Acyclic(env) && forall f :: f in env.files ==> CountsNotNegative(env.files[f], env)
  }

  /** An argument list: `argc` of its slots are used, and one slot is kept for the terminator. */
  class ArgVector {
    var slots: seq<string>
    var argc: nat
    var argcMax: nat

    ghost function Contents(): seq<string>
      reads this
    {
      if argc <= |slots| then slots[..argc] else slots
    }

    /** So many words can still be pushed. */
    ghost predicate Fits(words: nat)
      reads this
    {
      argc + words <= argcMax && |slots| == argcMax + 1
    }

    constructor (capacity: nat)
      ensures Fits(capacity) && Contents() == []
    {
      slots, argc, argcMax := seq(capacity + 1, i => ""), 0, capacity;
    }

    method Push(w: string, ghost words: nat)
      requires Fits(words + 1)
      modifies this
      ensures Fits(words) && Contents() == old(Contents()) + [w]
    {
      slots := slots[argc := w];
      argc := argc + 1;
    }

    method Grow(n: nat, ghost words: nat)
      requires Fits(words)
      modifies this
      ensures Fits(words + n) && Contents() == old(Contents())
    {
      argcMax := argcMax + n;
      slots := slots + seq(n, i => "");
    }
  }

  ghost function WordsLeft(words: seq<string>, i: nat): (r: nat)
  {
    if i < |words| then |words| - i else 0
  }

  ghost function WordsFrom(words: seq<string>, i: nat): seq<string>
  {
    if i < |words| then words[i..] else []
  }

  /** A marker: mentioning it makes what `Ready` says of a list known in detail. */
  ghost predicate ReadyOpened(words: seq<string>, n: int)
  {
    true
  }

  /** The list can be partitioned: its files nest, and repeat counts are no less than zero. */
  ghost predicate Ready(words: seq<string>, env: Env, level: nat)
  {
    forall n :: ReadyOpened(words, n) ==> RepeatsGrow(env) && Below(words, env, level) && CountsNotNegative(words, env)
  }

  lemma ReadyRepeat(words: seq<string>, i: nat, env: Env, level: nat)
    requires Ready(words, env, level) && i + 1 < |words| && words[i] == "-repeat"
    ensures env.atoi(words[i + 1]) >= 0
  {
    assert ReadyOpened(words, 0);
    OperandAt(words, "-repeat", i);
  }

  lemma ReadyFile(words: seq<string>, i: nat, env: Env, level: nat)
    requires Ready(words, env, level) && i + 1 < |words| && words[i] == "-cfg"
    ensures var f := words[i + 1];
            f in env.files ==> env.rank(f) < level && Ready(env.files[f], env, env.rank(f))
  {
    assert ReadyOpened(words, 0);
    OperandAt(words, "-cfg", i);
  }

  /** A marker: mentioning it makes what `End` says of a list known in detail. */
  ghost predicate EndOpened(words: seq<string>, n: int)
  {
    true
  }

  /** What `Run` makes of the words, kept closed until it is needed. */
  ghost function End(words: seq<string>, st: State, env: Env, level: nat): State
  {
    var e: State :| forall n :: EndOpened(words, n) ==>
      (Acyclic(env) && Below(words, env, level) ==> e == Run(words, st, env, level));
    e
  }

  lemma EndIsRun(words: seq<string>, st: State, env: Env, level: nat)
    requires Acyclic(env) && Below(words, env, level)
    ensures End(words, st, env, level) == Run(words, st, env, level)
  {
    assert EndOpened(words, 0);
  }

  lemma EndReached(argv: seq<string>, i: nat, t: State, env: Env, level: nat)
    requires Ready(argv, env, level) && (t.Stopped? || i >= |argv|)
    ensures End(WordsFrom(argv, i), t, env, level) == t
  {
    assert ReadyOpened(argv, 0);
    if i < |argv| {
      BelowTail(argv, env, level, i);
    }
    EndIsRun(WordsFrom(argv, i), t, env, level);
  }

  lemma ReadyFrom(argv: seq<string>, i: nat, env: Env, level: nat)
    requires Ready(argv, env, level)
    ensures Acyclic(env) && Below(WordsFrom(argv, i), env, level)
  {
    assert ReadyOpened(argv, 0);
    if i < |argv| {
      BelowTail(argv, env, level, i);
    }
  }

  /** A word that is not -cfg leads on by its action, */
  lemma WordLeads(argv: seq<string>, i: nat, s: State, next: nat, t: State, env: Env, level: nat)
    requires i < |argv| && argv[i] != "-cfg" && s.Parts? && Ready(argv, env, level) && next >= i
    requires Act(argv[i..], s, env) == if t.Parts? then Advance(next - i + 1, t) else Halt
    ensures End(argv[i..], s, env, level) == End(WordsFrom(argv, next + 1), t, env, level)
  {
    ReadyFrom(argv, i, env, level);
    ReadyFrom(argv, next + 1, env, level);
    assert WordsFrom(argv, i) == argv[i..];
    EndIsRun(argv[i..], s, env, level);
    EndIsRun(WordsFrom(argv, next + 1), t, env, level);
    if t.Parts? {
      assert argv[i..][next - i + 1..] == WordsFrom(argv, next + 1);
      RunActs(argv[i..], s, env, level, next - i + 1, t);
    } else {
      RunHalts(argv[i..], s, env, level);
    }
  }

  lemma RunHalts(words: seq<string>, st: State, env: Env, level: nat)
    requires Acyclic(env) && Below(words, env, level) && words != [] && st.Parts? && Act(words, st, env) == Halt
    ensures Run(words, st, env, level) == Stopped
  {
  }

  /** What a file makes of a state; one that cannot be read or is too long stops the run. */
  ghost function FileEnd(name: string, s: State, env: Env): State
  {
    if name in env.files && |env.files[name]| < MAXARGS then End(env.files[name], s, env, env.rank(name)) else Stopped
  }

  /** and a -cfg by the words of the file. */
  lemma FileLeads(argv: seq<string>, i: nat, s: State, env: Env, level: nat)
    requires i < |argv| && argv[i] == "-cfg" && s.Parts? && Ready(argv, env, level)
    ensures var t := if i + 1 < |argv| then FileEnd(argv[i + 1], s, env) else Stopped;
            End(argv[i..], s, env, level) == End(WordsFrom(argv, i + 2), t, env, level)
  {
    assert ReadyOpened(argv, 0);
    var t := if i + 1 < |argv| then FileEnd(argv[i + 1], s, env) else Stopped;
    var words := argv[i..];
    BelowTail(argv, env, level, i);
    EndIsRun(words, s, env, level);
    if i + 1 < |argv| {
      assert words[1] == argv[i + 1] && words[2..] == WordsFrom(argv, i + 2);
      BelowTail(words, env, level, 2);
      EndIsRun(words[2..], t, env, level);
      if words[1] in env.files {
        EndIsRun(env.files[words[1]], s, env, env.rank(words[1]));
      }
    } else {
      EndIsRun(WordsFrom(argv, i + 2), t, env, level);
    }
  }

  class ArgumentLists {
    const awb: ArgVector
    const sys: ArgVector
    const fd: ArgVector
    var feederArgs: bool
    var systemArgs: bool

    /**
      Capacity: in each list the used slots and the words still to come, over all files being read, do not exceed the
      number of slots.
     */
    ghost predicate Room(pending: nat)
      reads this, awb, sys, fd
    {
      awb.Fits(pending) && sys.Fits(pending) && fd.Fits(pending)
    }

    ghost predicate Separate()
    {
      awb != sys && awb != fd && sys != fd
    }

    ghost function Abs(): State
      reads this, awb, sys, fd
    {
      Parts(awb.Contents(), sys.Contents(), fd.Contents(), feederArgs, systemArgs)
    }

    constructor (capacity: nat)
      ensures Separate() && Room(capacity) && fresh({awb, sys, fd}) && Abs() == Parts([], [], [], false, false)
    {
      awb := new ArgVector(capacity);
      sys := new ArgVector(capacity);
      fd := new ArgVector(capacity);
      feederArgs, systemArgs := false, false;
    }

    /** Copy the last word of the feeder's list, in slots made for the copies. */
    method Repeat(repeatCount: nat, ghost pending: nat)
      requires Separate() && Room(pending) && (repeatCount > 0 ==> fd.argc > 0)
      modifies fd
      ensures Room(pending)
      ensures var was := old(Abs());
              Abs() == if was.fd == [] then was else was.(fd := was.fd + Copies(was.fd[|was.fd| - 1], repeatCount))
    {
      ghost var was := fd.Contents();
      fd.Grow(repeatCount, pending);
      var cnt := repeatCount;
      while cnt > 0
        invariant 0 <= cnt <= repeatCount && fd.Fits(pending + cnt)
        invariant was == [] ==> cnt == 0 && fd.Contents() == []
        invariant was != [] ==> fd.argc > 0 && fd.Contents() == was + Copies(was[|was| - 1], repeatCount - cnt)
        decreases cnt
      {
        ghost var now := fd.Contents();
        assert fd.slots[fd.argc - 1] == now[|now| - 1] == was[|was| - 1];
        fd.Push(fd.slots[fd.argc - 1], pending + cnt - 1);
        cnt := cnt - 1;
        assert Copies(was[|was| - 1], repeatCount - cnt)
            == Copies(was[|was| - 1], repeatCount - cnt - 1) + [was[|was| - 1]];
      }
    }

    /** A word in the feeder's mode. */
    method FeederArg(argv: seq<string>, i: nat, env: Env, ghost level: nat, ghost pending: nat)
      returns (next: nat, ok: bool)
      requires Separate() && i < |argv| && Room(pending + |argv| - i) && Ready(argv, env, level)
      requires feederArgs && argv[i] !in {"--", "--feeder", "--system", "-cfg"}
      modifies this, awb, sys, fd
      ensures next >= i
      ensures ok ==> Room(pending + WordsLeft(argv, next + 1))
      ensures Act(argv[i..], old(Abs()), env) == if ok then Advance(next - i + 1, Abs()) else Halt
    {
      next, ok := i, true;
      assert argv[i..][0] == argv[i];
      if argv[i] == "-repeat" {
        if i + 1 == |argv| {
          return i, false;
        }
        next := i + 1;
        assert argv[i..][1] == argv[next];
        ReadyRepeat(argv, i, env, level);
        var repeatCount := env.atoi(argv[next]);
        if repeatCount > 0 && fd.argc == 0 {
          return next, false;
        }
        Repeat(repeatCount, pending + WordsLeft(argv, next + 1));
      } else {
        fd.Push(argv[i], pending + |argv| - i - 1);
      }
    }

    /** A word in the workbench's mode. */
    method WorkbenchArg(argv: seq<string>, i: nat, env: Env, ghost pending: nat) returns (next: nat, ok: bool)
      requires Separate() && i < |argv| && Room(pending + |argv| - i)
      requires !feederArgs && !systemArgs && argv[i] !in {"--", "--feeder", "--system", "-cfg"}
      modifies this, awb, sys, fd
      ensures next >= i
      ensures ok ==> Room(pending + WordsLeft(argv, next + 1))
      ensures Act(argv[i..], old(Abs()), env) == if ok then Advance(next - i + 1, Abs()) else Halt
    {
      next, ok := i, true;
      var words := argv[i..];
      assert words[0] == argv[i];
      match Recognise(words)
      case Exits => return i, false;
      case NoOption => awb.Push(argv[i], pending + |argv| - i - 1);
      case Takes(incr) =>
        if i + incr >= |argv| || (incr == 1 && env.refuses(argv[i], argv[i + 1])) {
          return i, false;
        }
        next := i + incr;
    }

    /** A word other than -cfg, in whatever mode. */
    method PlainAction(argv: seq<string>, i: nat, env: Env, ghost level: nat, ghost pending: nat)
      returns (next: nat, ok: bool)
      requires Separate() && i < |argv| && Room(pending + |argv| - i) && Ready(argv, env, level) && argv[i] != "-cfg"
      modifies this, awb, sys, fd
      ensures next >= i
      ensures ok ==> Room(pending + WordsLeft(argv, next + 1))
      ensures Act(argv[i..], old(Abs()), env) == if ok then Advance(next - i + 1, Abs()) else Halt
    {
      next, ok := i, true;
      assert argv[i..][0] == argv[i];
      if argv[i] == "--" {
        feederArgs, systemArgs := false, false;
      } else if argv[i] == "--feeder" {
        feederArgs, systemArgs := true, false;
      } else if argv[i] == "--system" {
        feederArgs, systemArgs := false, true;
      } else if feederArgs {
        next, ok := FeederArg(argv, i, env, level, pending);
      } else if systemArgs {
        sys.Push(argv[i], pending + |argv| - i - 1);
      } else {
        next, ok := WorkbenchArg(argv, i, env, pending);
      }
    }

    method PlainArg(argv: seq<string>, i: nat, env: Env, ghost level: nat, ghost pending: nat, ghost was: State)
      returns (next: nat, ok: bool, ghost now: State)
      requires Separate() && i < |argv| && Room(pending + |argv| - i) && was == Abs() && argv[i] != "-cfg"
      requires Ready(argv, env, level)
      modifies this, awb, sys, fd
      ensures next >= i
      ensures ok ==> Room(pending + WordsLeft(argv, next + 1))
      ensures now == if ok then Abs() else Stopped
      ensures End(argv[i..], was, env, level) == End(WordsFrom(argv, next + 1), now, env, level)
    {
      next, ok := PlainAction(argv, i, env, level, pending);
      now := if ok then Abs() else Stopped;
      WordLeads(argv, i, was, next, now, env, level);
    }

    /** One word, which may take further words with it: `next` is the last one consumed. */
    method PartitionOneArg(argv: seq<string>, i: nat, env: Env, level: nat, ghost pending: nat, ghost was: State)
      returns (next: nat, ok: bool, ghost now: State)
      requires Separate() && i < |argv| && Room(pending + |argv| - i) && was == Abs()
      requires Ready(argv, env, level)
      modifies this, awb, sys, fd
      ensures next >= i
      ensures ok ==> Room(pending + WordsLeft(argv, next + 1))
      ensures now == if ok then Abs() else Stopped
      ensures End(argv[i..], was, env, level) == End(WordsFrom(argv, next + 1), now, env, level)
      decreases level, |argv| + 1, 0
    {
      if argv[i] == "-cfg" {
        next, ok, now := ConfigArg(argv, i, env, level, pending, was);
      } else {
        next, ok, now := PlainArg(argv, i, env, level, pending, was);
      }
    }

    method ConfigArg(argv: seq<string>, i: nat, env: Env, level: nat, ghost pending: nat, ghost was: State)
      returns (next: nat, ok: bool, ghost now: State)
      requires Separate() && i < |argv| && Room(pending + |argv| - i) && was == Abs() && argv[i] == "-cfg"
      requires Ready(argv, env, level)
      modifies this, awb, sys, fd
      ensures next >= i
      ensures ok ==> Room(pending + WordsLeft(argv, next + 1))
      ensures now == if ok then Abs() else Stopped
      ensures End(argv[i..], was, env, level) == End(WordsFrom(argv, next + 1), now, env, level)
      decreases level, 0, 1
    {
      next := i + 1;
      if i + 1 == |argv| {
        ok, now := false, Stopped;
      } else {
        ReadyFile(argv, i, env, level);
        ok, now := ParseConfigFile(argv[next], env, level, pending + WordsLeft(argv, next + 1), was);
      }
      FileLeads(argv, i, was, env, level);
    }

    /** The words of a file, in lists grown for them. */
    method ParseConfigFile(name: string, env: Env, ghost level: nat, ghost pending: nat, ghost was: State)
      returns (ok: bool, ghost end: State)
      requires Separate() && Room(pending) && was == Abs()
      requires name in env.files ==> env.rank(name) < level && Ready(env.files[name], env, env.rank(name))
      modifies this, awb, sys, fd
      ensures (ok ==> Room(pending))
      ensures end == (if ok then Abs() else Stopped) && end == FileEnd(name, was, env)
      decreases level, 0, 0
    {
      if name !in env.files || |env.files[name]| >= MAXARGS {
        return false, Stopped;
      }
      var words := env.files[name];
      awb.Grow(|words|, pending);
      sys.Grow(|words|, pending);
      fd.Grow(|words|, pending);
      ok, end := PartitionAll(words, 0, env, env.rank(name), pending, was);
      assert words[0..] == words;
    }

    /** The loop over all words from `start`, on the command line and in a file alike. */
    method PartitionAll(argv: seq<string>, start: nat, env: Env, level: nat, ghost pending: nat, ghost was: State)
      returns (ok: bool, ghost end: State)
      requires Separate() && start <= |argv| && Room(pending + |argv| - start) && was == Abs()
      requires Ready(argv, env, level)
      modifies this, awb, sys, fd
      ensures (ok ==> Room(pending))
      ensures end == (if ok then Abs() else Stopped) && end == End(argv[start..], was, env, level)
      decreases level, |argv| + 1, 1
    {
      ok := true;
      var i := start;
      end := was;
      assert WordsFrom(argv, start) == argv[start..];
      while i < |argv| && ok
        invariant start <= i
        invariant if ok then Room(pending + WordsLeft(argv, i)) && end == Abs() else end == Stopped
        invariant End(argv[start..], was, env, level) == End(WordsFrom(argv, i), end, env, level)
        decreases |argv| - i, ok
      {
        assert WordsFrom(argv, i) == argv[i..];
        i, ok, end := PartitionOneArg(argv, i, env, level, pending, end);
        i := i + 1;
      }
      EndReached(argv, i, end, env, level);
    }
  }

  /** The command line: the word in front is the program's name. The lists have a slot for every word. */
  method PartitionArgs(argv: seq<string>, env: Env, level: nat) returns (lists: ArgumentLists, ok: bool)
    requires argv != [] && RepeatsGrow(env) && Below(argv, env, level) && CountsNotNegative(argv, env)
    ensures var end := (BelowTail(argv, env, level, 1); Run(argv[1..], Parts([], [], [], false, false), env, level));
            if ok then lists.Room(0) && end == lists.Abs() else end == Stopped
  {
    lists := new ArgumentLists(|argv|);
    ghost var end;
    ok, end := lists.PartitionAll(argv, 1, env, level, 0, lists.Abs());
    assert ReadyOpened(argv, 0);
    EndIsRun(argv[1..], Parts([], [], [], false, false), env, level);
  }
}
