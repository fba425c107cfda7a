/**
 The main results about NSH scripts: every script keeps the parser's stacks in
 order; a structured script does what its structure says, exactly; and when
 that is what the POSIX shell would do.
 */
module NshTheorems {
  import opened NshControl
  import opened NshProgram
  import opened NshLines
  import opened NshSkipping
  import opened NshSimulation
  import opened NshPosix

  // ------------------------------------------------------------ arbitrary scripts

  /**
   Whatever the script, well formed or not, after any number of lines both
   indices are below CONFIG_NSH_NESTDEPTH, the bottom slots are NORMAL, the
   loop slots between the bottom and the top are DO, and neither guard marked
   "Shouldn't happen" can fire on the next command.
   */
  lemma {:induction false} StacksStayInOrder(script: seq<Command>, env: Env, s: State, n: nat, words: Command)
    requires s.st.Ok()
    ensures
      var r := Run(script, env, s, n);
      && |r.st.loops| == |r.st.ifs| == |s.st.ifs|
      && r.st.lpndx < |s.st.ifs| && r.st.iendx < |s.st.ifs|
      && r.st.loops[0].state == LoopNormal && r.st.ifs[0] == IDLE_IF
      && (forall k :: 0 < k < r.st.lpndx ==> r.st.loops[k].state == LoopDo)
      && ParseLoop(r, words).verdict != Internal
      && ParseItef(ParseLoop(r, words).s, ParseLoop(r, words).words).verdict != Internal
  {}

  // ------------------------------------------------------------- structured scripts

  ghost function HistoryOf(script: seq<Command>, env: Env, s: State): History
    requires s.st.Ok()
  {
    imap i: nat :: Run(script, env, s, i)
  }

  lemma {:induction false} HistoryAt(script: seq<Command>, env: Env, s: State, i: nat)
    requires s.st.Ok()
    ensures At(HistoryOf(script, env, s), i) == Run(script, env, s, i)
  {}

  lemma {:induction false} RunGoesOn(script: seq<Command>, env: Env, s: State, i: nat)
    requires s.st.Ok() && !Halted(script, Run(script, env, s, i))
    ensures Run(script, env, s, i + 1) == Step(script, env, Run(script, env, s, i))
  {}

  lemma {:induction false} HistoryFollows(script: seq<Command>, env: Env, s: State)
    requires s.st.Ok()
    ensures Follows(HistoryOf(script, env, s), script, env)
  {
    forall i: nat | Reading(script, At(HistoryOf(script, env, s), i))
      ensures At(HistoryOf(script, env, s), i + 1) == Step(script, env, At(HistoryOf(script, env, s), i))
    {
      HistoryAt(script, env, s, i);
      HistoryAt(script, env, s, i + 1);
      RunGoesOn(script, env, s, i);
    }
  }

  lemma {:induction false} HaltedStaysOnce(script: seq<Command>, env: Env, s: State, n: nat)
    requires s.st.Ok() && Halted(script, Run(script, env, s, n))
    ensures Run(script, env, s, n + 1) == Run(script, env, s, n)
  {}

  /** A halted machine stays as it is. */
  lemma {:induction false} HaltedStays(script: seq<Command>, env: Env, s: State, m: nat, n: nat)
    requires s.st.Ok() && m <= n && Halted(script, Run(script, env, s, m))
    ensures Run(script, env, s, n) == Run(script, env, s, m)
    decreases n - m
  {
    if m < n {
      HaltedStaysOnce(script, env, s, m);
      HaltedStays(script, env, s, m + 1, n);
    }
  }

  /** The state in which a script is opened: both stacks empty, at its first line. */
  ghost predicate Opened(s: State) {
    && s.st.Ok() && s.st.lpndx == 0 && s.st.iendx == 0
    && s.pos == 0 && s.seekable && !s.stopped
  }

  /** A program whose nesting and breaks NSH supports at the top level. */
  ghost predicate Supported(p: Prog, depth: nat) {
    Fits(p, depth, 0, 0) && BreaksOk(p, false, 0, 0)
  }

  /** The machine has run the whole program and has come to the end, or stopped, as `r` says. */
  ghost predicate Finished(p: Prog, s: State, t: State, r: Result) {
    && t.trace == r.trace && t.fail == r.fail
    && t.stopped == (r.out == Stopped)
    && (r.out == Normal ==> t.pos == |Flat(p)| && Same(s.st, t.st))
  }

  lemma {:induction false} LandsFinished(p: Prog, s: State, t: State, r: Result)
    requires Opened(s) && Lands(Flat(p), s, t, |Flat(p)|, r)
    ensures r.out != OutOfFuel ==> Halted(Flat(p), t) && Finished(p, s, t, r)
  {}

  /**
   The flat machine follows the structured semantics: the same commands in the
   same order, the same exit status, both stacks restored; and where the
   semantics needs more than `fuel` loop tests the machine is still running
   after `fuel` lines.
   */
  lemma {:induction false} MachineFollowsSemantics(p: Prog, env: Env, s: State, fuel: nat) returns (n: nat)
    requires Opened(s) && Supported(p, |s.st.ifs|)
    ensures
      var r := Exec(env, p, s.trace, s.fail, false, fuel);
      var t := Run(Flat(p), env, s, n);
      if r.out == OutOfFuel then n >= fuel && !Halted(Flat(p), t)
      else Halted(Flat(p), t) && Finished(p, s, t, r)
  {
    var script := Flat(p);
    var run := HistoryOf(script, env, s);
    HistoryFollows(script, env, s);
    assert At(run, 0) == s;
    assert CodeAt(script, 0, Flat(p));
    n := RunCode(run, script, env, p, 0, fuel);
    HistoryAt(script, env, s, n);
    LandsFinished(p, s, At(run, n), Exec(env, p, s.trace, s.fail, false, fuel));
  }

  /** Every run of the machine that ends is one of the structured semantics. */
  lemma {:induction false} SemanticsFollowsMachine(p: Prog, env: Env, s: State, n: nat)
    requires Opened(s) && Supported(p, |s.st.ifs|)
    requires Halted(Flat(p), Run(Flat(p), env, s, n))
    ensures
      var r := Exec(env, p, s.trace, s.fail, false, n + 1);
      r.out != OutOfFuel && Finished(p, s, Run(Flat(p), env, s, n), r)
  {
    var m := MachineFollowsSemantics(p, env, s, n + 1);
    if m <= n {
      if Halted(Flat(p), Run(Flat(p), env, s, m)) { HaltedStays(Flat(p), env, s, m, n); }
    } else {
      HaltedStays(Flat(p), env, s, n, m);
    }
  }

  /** Loops end in the one exactly when they end in the other. */
  lemma {:induction false} SameTermination(p: Prog, env: Env, s: State)
    requires Opened(s) && Supported(p, |s.st.ifs|)
    ensures (exists n: nat :: Halted(Flat(p), Run(Flat(p), env, s, n)))
            <==> (exists fuel: nat :: Exec(env, p, s.trace, s.fail, false, fuel).out != OutOfFuel)
  {
    if n: nat :| Halted(Flat(p), Run(Flat(p), env, s, n)) {
      SemanticsFollowsMachine(p, env, s, n);
    }
    if fuel: nat :| Exec(env, p, s.trace, s.fail, false, fuel).out != OutOfFuel {
      var n := MachineFollowsSemantics(p, env, s, fuel);
    }
  }

  /**
   A script whose loops are sheltered and whose breaks stand directly in their
   loops does what the POSIX shell does, whatever the commands return.
   */
  lemma {:induction false} ScriptIsPosix(p: Prog, env: Env, s: State, fuel: nat) returns (n: nat)
    requires Opened(s) && Supported(p, |s.st.ifs|)
    requires Sheltered(p, false, false) && PlainBreaks(p, false)
    ensures
      var r := Posix(env, p, s.trace, s.fail, false, fuel);
      var t := Run(Flat(p), env, s, n);
      if r.out == OutOfFuel then n >= fuel && !Halted(Flat(p), t)
      else Halted(Flat(p), t) && Finished(p, s, t, r)
  {
    NshIsPosix(env, p, s.trace, s.fail, s.fail, false, false, fuel);
    n := MachineFollowsSemantics(p, env, s, fuel);
  }

  // ---------------------------------------------------------------- passing over

  /**
   Code that is not enabled, of whatever shape, runs nothing, never jumps, keeps
   the exit status and restores both stacks.  In a loop body that is passed
   over, as against a branch that is not taken, its loops must be under an `if`.
   */
  lemma {:induction false} PassedOver(run: History, script: seq<Command>, env: Env, p: Prog, i: nat)
    requires Enters(run, script, env, p, i) && !At(run, i).st.CmdEnabled()
    requires At(run, i).st.ItefEnabled() ==> !HasBareLoop(p)
    ensures Quiet(At(run, i), At(run, i + |Flat(p)|), |Flat(p)|)
    ensures Same(At(run, i).st, At(run, i + |Flat(p)|).st)
    decreases p
  {
    if !At(run, i).st.ItefEnabled() {
      DeadCode(run, script, env, p, i);
      return;
    }
    match p
    case Empty => SameRefl(At(run, i).st);
    case Simple(argv) => DeadLine(run, script, env, argv, i);
    case Break => DeadLine(run, script, env, [KwBreak], i);
    case Seq(a, b) => PassedOverSeq(run, script, env, p, i);
    case If(_, _, _, _, _) =>
      IfLayout(script, At(run, i).pos, p);
      DeadIf(run, script, env, p, i);
  }

  lemma {:induction false} PassedOverSeq(run: History, script: seq<Command>, env: Env, p: Prog, i: nat)
    requires Enters(run, script, env, p, i) && !At(run, i).st.CmdEnabled()
    requires p.Seq? && !HasBareLoop(p)
    ensures Quiet(At(run, i), At(run, i + |Flat(p)|), |Flat(p)|)
    ensures Same(At(run, i).st, At(run, i + |Flat(p)|).st)
    decreases p, 0
  {
    CodeSplit(script, At(run, i).pos, Flat(p.first), Flat(p.second));
    PassedOver(run, script, env, p.first, i);
    var j := i + |Flat(p.first)|;
    SameSlots(At(run, i).st, At(run, j).st);
    PassedOver(run, script, env, p.second, j);
    SameTrans(At(run, i).st, At(run, j).st, At(run, j + |Flat(p.second)|).st);
  }

  // ------------------------------------------------------ `break` under two ifs

  /** The lines of `if c; then; break; fi` stand at `pos`. */
  ghost predicate IfBreakAt(script: seq<Command>, pos: nat, inverted: bool, c: Command) {
    && pos + 3 < |script|
    && script[pos] == IfLine(inverted, c) && script[pos + 1] == [KwThen]
    && script[pos + 2] == [KwBreak] && script[pos + 3] == [KwFi]
  }

  /** The first three of the lines: the if stack is back at the header of the loop. */
  lemma {:induction false} IfThenBreak(run: History, script: seq<Command>, env: Env, i: nat, inverted: bool, c: Command)
    requires Follows(run, script, env) && Idle(At(run, i)) && Running(At(run, i).st)
    requires At(run, i).st.lpndx > 0 && At(run, i).st.Loop().state == LoopDo
    requires At(run, i).st.iendx + 1 < |At(run, i).st.ifs|
    requires IsCommand(c) && IfBreakAt(script, At(run, i).pos, inverted, c)
    requires TakesThen(inverted, env.fails(At(run, i).trace + [c]))
    ensures
      var (s, t) := (At(run, i), At(run, i + 3));
      && Idle(t) && t.pos == s.pos + 3 && t.trace == s.trace + [c] && |t.st.ifs| == |s.st.ifs|
      && t.st.lpndx == s.st.lpndx && t.st.iendx == s.st.Loop().iendx == t.st.Loop().iendx
      && Passing(t.st) && t.st.If() == s.st.ifs[s.st.Loop().iendx]
  {
    IfRuns(run, script, env, i, inverted, c);
    ThenLine(run, script, env, i + 1);
    BreakRuns(run, script, env, i + 2);
  }

  /**
   Any `if c; then; break; fi` in a loop body whose condition holds: afterwards the if
   stack is where it was at the header of the loop exactly when the loop is under no
   `if`, and then `fi` is an error, which ends the script unless failures are ignored.
   Otherwise `fi` closes the `if` around the loop without complaint.
   */
  lemma {:induction false} BreakUnderIfLosesIff(run: History, script: seq<Command>, env: Env, i: nat,
                                                inverted: bool, c: Command)
    requires Follows(run, script, env) && Idle(At(run, i)) && Running(At(run, i).st)
    requires At(run, i).st.lpndx > 0 && At(run, i).st.Loop().state == LoopDo
    requires At(run, i).st.iendx + 1 < |At(run, i).st.ifs|
    requires IsCommand(c) && IfBreakAt(script, At(run, i).pos, inverted, c)
    requires TakesThen(inverted, env.fails(At(run, i).trace + [c]))
    requires At(run, i).st.Loop().iendx > 0 ==> At(run, i).st.ifs[At(run, i).st.Loop().iendx].state != ItefNormal
    ensures
      var (base, t) := (At(run, i).st.Loop().iendx, At(run, i + 4));
      && t.trace == At(run, i).trace + [c]
      && (t.st.iendx == base <==> base == 0)
      && (base > 0 ==> t.st.iendx == base - 1 && !t.stopped)
      && (base == 0 ==> t.fail && t.stopped == !env.ignore)
  {
    IfThenBreak(run, script, env, i, inverted, c);
    var t := At(run, i + 3);
    if t.st.iendx == 0 {
      StrayLine(run, script, env, i + 3);
    } else {
      FiLine(run, script, env, i + 3);
    }
  }

  /** if x; then; while a; do; if b; then; break; fi; done; else; z; fi */
  function NestedBreak(x: Command, a: Command, b: Command, z: Command): Prog {
    If(false, x, Loop(false, a, If(false, b, Break, false, Empty)), true, Simple(z))
  }

  lemma {:induction false} NestedBreakLines(x: Command, a: Command, b: Command, z: Command)
    ensures Flat(NestedBreak(x, a, b, z)) ==
            [IfLine(false, x), [KwThen], LoopLine(false, a), [KwDo], IfLine(false, b), [KwThen],
             [KwBreak], [KwFi], [KwDone], [KwElse], z, [KwFi]]
  {
    var inner := If(false, b, Break, false, Empty);
    var loop := Loop(false, a, inner);
    assert Flat(inner) == [IfLine(false, b), [KwThen], [KwBreak], [KwFi]];
    assert Flat(loop) == [LoopLine(false, a), [KwDo]] + Flat(inner) + [[KwDone]];
    assert Flat(Simple(z)) == [z];
  }

  lemma {:induction false} NestedBreakPosix(env: Env, x: Command, a: Command, b: Command, z: Command,
                                            h: seq<Command>, fail: bool)
    requires !env.fails(h + [x]) && !env.fails(h + [x] + [a]) && !env.fails(h + [x] + [a] + [b])
    ensures Posix(env, NestedBreak(x, a, b, z), h, fail, false, 1).trace == h + [x] + [a] + [b]
  {
    var inner := If(false, b, Break, false, Empty);
    assert Posix(env, inner, h + [x] + [a], false, true, 0) == Result(h + [x] + [a] + [b], false, Broke);
    assert Posix(env, Loop(false, a, inner), h + [x], false, false, 1)
        == Result(h + [x] + [a] + [b], false, Normal);
  }

  /** The outer `if` and the loop header of the nested example. */
  lemma {:induction false} NestedBreakStart(run: History, script: seq<Command>, env: Env,
                                            x: Command, a: Command, b: Command, z: Command)
    requires Follows(run, script, env) && Opened(At(run, 0)) && |At(run, 0).st.ifs| > 2
    requires IsCommand(x) && IsCommand(a)
    requires script == Flat(NestedBreak(x, a, b, z))
    requires !env.fails(At(run, 0).trace + [x]) && !env.fails(At(run, 0).trace + [x] + [a])
    ensures
      var t := At(run, 4);
      && Idle(t) && t.pos == 4 && t.trace == At(run, 0).trace + [x] + [a]
      && t.st.lpndx == 1 && t.st.Loop().state == LoopDo && t.st.Loop().enable && t.st.Loop().iendx == 1
      && t.st.iendx == 1 && t.st.If() == IfEntry(ItefThen, false, false, false) && |t.st.ifs| > 2
  {
    NestedBreakLines(x, a, b, z);
    IfRuns(run, script, env, 0, false, x);
    ThenLine(run, script, env, 1);
    HeaderRuns(run, script, env, 2, false, a);
    DoLine(run, script, env, 3);
  }

  /** The inner `if` and its `break`. */
  lemma {:induction false} NestedBreakMiddle(run: History, script: seq<Command>, env: Env,
                                             x: Command, a: Command, b: Command, z: Command)
    requires Follows(run, script, env) && IsCommand(b)
    requires script == Flat(NestedBreak(x, a, b, z))
    requires
      var t := At(run, 4);
      && Idle(t) && t.pos == 4 && !env.fails(t.trace + [b])
      && t.st.lpndx == 1 && t.st.Loop().state == LoopDo && t.st.Loop().enable && t.st.Loop().iendx == 1
      && t.st.iendx == 1 && t.st.If() == IfEntry(ItefThen, false, false, false) && |t.st.ifs| > 2
    ensures
      var t := At(run, 7);
      && Idle(t) && t.pos == 7 && t.trace == At(run, 4).trace + [b]
      && t.st.lpndx == 1 && t.st.Loop().state == LoopDo && !t.st.Loop().enable
      && t.st.iendx == 1 && t.st.If().state == ItefThen
  {
    NestedBreakLines(x, a, b, z);
    IfRuns(run, script, env, 4, false, b);
    ThenLine(run, script, env, 5);
    BreakRuns(run, script, env, 6);
  }

  /**
   A `break` under an `if` in a loop that is itself under an `if`: the `else`
   branch runs although the `then` branch was taken.
   */
  lemma {:induction false} BothBranchesRun(run: History, script: seq<Command>, env: Env,
                                           x: Command, a: Command, b: Command, z: Command)
    requires Follows(run, script, env) && Opened(At(run, 0)) && |At(run, 0).st.ifs| > 2
    requires IsCommand(x) && IsCommand(a) && IsCommand(b) && IsCommand(z)
    requires script == Flat(NestedBreak(x, a, b, z)) && env.ignore
    requires !env.fails(At(run, 0).trace + [x]) && !env.fails(At(run, 0).trace + [x] + [a])
    requires !env.fails(At(run, 0).trace + [x] + [a] + [b])
    ensures At(run, 11).trace == At(run, 0).trace + [x] + [a] + [b] + [z]
    ensures Posix(env, NestedBreak(x, a, b, z), At(run, 0).trace, At(run, 0).fail, false, 1).trace
            == At(run, 0).trace + [x] + [a] + [b]
  {
    NestedBreakPosix(env, x, a, b, z, At(run, 0).trace, At(run, 0).fail);
    NestedBreakStart(run, script, env, x, a, b, z);
    NestedBreakMiddle(run, script, env, x, a, b, z);
    NestedBreakLines(x, a, b, z);
    FiLine(run, script, env, 7);
    DoneLine(run, script, env, 8);
    StrayLine(run, script, env, 9);
    CommandRuns(run, script, env, 10);
  }
}
