/**
 The exit status of a script and what `$?` shows of it.  The status is said from outside
 the parser: from the commands executed so far and what became of them.
 */
module NshStatus {
  import opened NshControl
  import opened NshEnvironment

  /** A loop header or an `if` waits for the status of its condition. */
  predicate Awaits(st: Stacks) requires st.Indexed() {
    st.AwaitsLoopCondition() || st.If().state == ItefIf
  }

  /** The line is an error where it stands. */
  predicate Rejected(s: State, line: Command) requires s.st.Ok() {
    var l := ParseLoop(s, line);
    l.verdict != Accepted || ParseItef(l.s, l.words).verdict != Accepted
  }

  /** The line carries out a `break`. */
  predicate Breaks(s: State, line: Command) requires s.st.Ok() {
    var l := ParseLoop(s, line);
    var i := ParseItef(l.s, l.words);
    !Rejected(s, line) && i.words != [] && i.words[0].KwBreak? && i.s.st.CmdEnabled()
  }

  /** What a line does to the status. */
  datatype Effect = Fails | Clears | Keeps

  /**
   What `line`, read in `s` and leaving the machine in `t`, does to the status: an error fails
   the script, a command fails it or clears it as it fails or not, and `break` clears it.  What
   was the condition of a loop or an `if` clears it, error or not.
   */
  ghost function EffectOf(env: Env, s: State, t: State, line: Command): Effect
    requires s.st.Ok() && t.st.Ok()
  {
    if Rejected(s, line) then if Awaits(t.st) then Clears else Fails
    else if |t.trace| > |s.trace| then if env.fails(t.trace) && !Awaits(t.st) then Fails else Clears
    else if Breaks(s, line) then Clears
    else Keeps
  }

  predicate After(e: Effect, failed: bool) { match e case Fails => true case Clears => false case Keeps => failed }

  /** `t` is the state after `r`, which stays when the script has ended. */
  ghost predicate Next(script: seq<Command>, env: Env, r: State, t: State) {
    r.st.Ok() && t == if Halted(script, r) then r else Step(script, env, r)
  }

  /** `e` is what that step does to the status. */
  ghost predicate HasEffect(script: seq<Command>, env: Env, r: State, t: State, e: Effect) {
    && r.st.Ok() && t.st.Ok()
    && e == if Halted(script, r) then Keeps else EffectOf(env, Read(r), t, script[r.pos])
  }

  /** The states of a run, with the effects of its steps. */
  ghost predicate IsRun(script: seq<Command>, env: Env, run: seq<State>, es: seq<Effect>)
    decreases |es|
  {
    && |run| == |es| + 1
    && (es != [] ==>
          var n := |es|;
          && Next(script, env, run[n - 1], run[n]) && HasEffect(script, env, run[n - 1], run[n], es[n - 1])
          && IsRun(script, env, run[..n], es[..n - 1]))
  }

  /** The status after the effects: that of the last one that does not keep it. */
  predicate Last(es: seq<Effect>, first: bool) {
    if es == [] then first else After(es[|es| - 1], Last(es[..|es| - 1], first))
  }

  lemma {:induction false} SaveStatus(s: State, failed: bool)
    requires s.st.Ok()
    ensures SaveResult(s, failed).s.fail == (failed && !Awaits(s.st))
    ensures Awaits(SaveResult(s, failed).s.st) == Awaits(s.st) && SaveResult(s, failed).s.trace == s.trace
  {}

  /** The words that are left of an accepted line, executed in the state `u` that its keywords made. */
  lemma {:induction false} ExecuteStatus(env: Env, u: State, words: Command)
    requires u.st.Ok() && words != []
    ensures
      var t := Execute(env, u, words).s;
      if words[0].KwBreak? then t.trace == u.trace && !t.fail
      else |t.trace| > |u.trace| && t.fail == (env.fails(t.trace) && !Awaits(t.st))
  {
    if words[0].KwBreak? {
      SaveStatus(u.(st := u.st.Break()), false);
    } else {
      var h := u.trace + [words];
      SaveStatus(u.(trace := h), env.fails(h));
    }
  }

  /** One line. */
  lemma {:induction false} CommandStatus(env: Env, s: State, line: Command)
    requires s.st.Ok()
    ensures ParseCommand(env, s, line).s.fail == After(EffectOf(env, s, ParseCommand(env, s, line).s, line), s.fail)
  {
    var l := ParseLoop(s, line);
    StatusOf(env, s, line, l, ParseItef(l.s, l.words), ParseCommand(env, s, line).s);
  }

  lemma {:induction false} StatusOf(env: Env, s: State, line: Command, l: Parsed, i: Parsed, t: State)
    requires s.st.Ok() && l == ParseLoop(s, line) && i == ParseItef(l.s, l.words)
    requires l.s.trace == i.s.trace == s.trace && l.s.fail == i.s.fail == s.fail
    requires t == ParseCommand(env, s, line).s
    ensures t.fail == After(EffectOf(env, s, t, line), s.fail)
  {
    if l.verdict != Accepted {
      SaveStatus(l.s, true);
    } else if i.verdict != Accepted {
      SaveStatus(i.s, true);
    } else if i.words != [] && i.s.st.CmdEnabled() {
      ExecuteStatus(env, i.s, i.words);
      assert t == Execute(env, i.s, i.words).s;
    } else {
      assert t == i.s;
    }
  }

  lemma {:induction false} StatusNext(script: seq<Command>, env: Env, r: State, t: State, e: Effect)
    requires Next(script, env, r, t) && HasEffect(script, env, r, t, e)
    ensures t.fail == After(e, r.fail)
  {
    if !Halted(script, r) { CommandStatus(env, Read(r), script[r.pos]); }
  }

  /** The status kept by the parser is the one said from outside, over every run of every script. */
  lemma {:induction false} StatusIs(script: seq<Command>, env: Env, run: seq<State>, es: seq<Effect>)
    requires IsRun(script, env, run, es)
    ensures run[|es|].fail == Last(es, run[0].fail)
    decreases |es|
  {
    if es != [] {
      var n := |es|;
      StatusNext(script, env, run[n - 1], run[n], es[n - 1]);
      StatusIs(script, env, run[..n], es[..n - 1]);
    }
  }

  /** Every number of lines is such a run. */
  lemma {:induction false} RunsHaveEffects(script: seq<Command>, env: Env, s: State, n: nat)
    returns (run: seq<State>, es: seq<Effect>)
    requires s.st.Ok()
    ensures IsRun(script, env, run, es) && |es| == n
    ensures run[0] == s && run[n] == Run(script, env, s, n)
    decreases n
  {
    if n == 0 {
      run, es := [s], [];
    } else {
      var before, effects := RunsHaveEffects(script, env, s, n - 1);
      RunNext(script, env, s, n);
      var e := OneMore(script, env, before, effects, Run(script, env, s, n));
      run, es := before + [Run(script, env, s, n)], effects + [e];
    }
  }

  lemma {:induction false} RunNext(script: seq<Command>, env: Env, s: State, n: nat)
    requires s.st.Ok() && n > 0
    ensures Next(script, env, Run(script, env, s, n - 1), Run(script, env, s, n))
  {}

  lemma {:induction false} OneMore(script: seq<Command>, env: Env, run: seq<State>, es: seq<Effect>, t: State)
    returns (e: Effect)
    requires IsRun(script, env, run, es) && Next(script, env, run[|es|], t)
    ensures IsRun(script, env, run + [t], es + [e])
  {
    var r := run[|es|];
    e := if Halted(script, r) then Keeps else EffectOf(env, Read(r), t, script[r.pos]);
    assert (run + [t])[..|es| + 1] == run && (es + [e])[..|es|] == es;
  }

  /**
   `$?` after any number of lines of any script, whatever the variables are: `1` if the last
   line that did something to the status failed it, `0` if it cleared it.
   */
  lemma {:induction false} DollarShowsStatus(script: seq<Command>, env: Env, run: seq<State>, es: seq<Effect>,
                                             names: Names, pid: string)
    requires IsRun(script, env, run, es)
    ensures Expand(names, "?", run[|es|].fail, pid) == if Last(es, run[0].fail) then "1" else "0"
    ensures Expand(names, "!", run[|es|].fail, pid) == pid
  {
    StatusIs(script, env, run, es);
  }
}
