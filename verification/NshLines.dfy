/**
 What each kind of line does to the parser, one lemma for each, in the
 situations a structured program can bring about.
 */
module NshLines {
  import opened NshControl
  import opened NshProgram

  /** The states of a machine, one for each moment. */
  type History = imap<nat, State>

  const BLANK := State(Stacks([], 0, [], 0), false, false, false, 0, 0, [], true)

  ghost function At(run: History, i: nat): State {
    if i in run then run[i] else BLANK
  }

  /** The machine is about to read a line. */
  ghost predicate Reading(script: seq<Command>, s: State) {
    s.st.Ok() && !Halted(script, s)
  }

  /** `run` goes on by reading and parsing one line after the other. */
  ghost predicate Follows(run: History, script: seq<Command>, env: Env) {
    forall i: nat {:trigger Moment(run, i)} ::
      Moment(run, i) && Reading(script, At(run, i)) ==> At(run, i + 1) == Step(script, env, At(run, i))
  }

  ghost predicate Moment(run: History, i: nat) { true }

  /** The state after a line that stops at nothing but possibly moves the file position. */
  ghost predicate Passes(s: State, t: State) {
    && t.st.Ok() && !t.stopped
    && t.pos == s.pos + 1
    && t.seekable == s.seekable
  }

  /** Nothing ran. */
  ghost predicate Silent(s: State, t: State) {
    Passes(s, t) && t.trace == s.trace && t.fail == s.fail
  }

  /** An `if` in its branch or the bottom slot, with commands enabled. */
  predicate Open(e: IfEntry) {
    && e.state != ItefIf && !e.disabled
    && (e.state == ItefThen ==> !e.ifcond)
    && (e.state == ItefElse ==> e.ifcond)
  }

  /** A command that is no keyword reaches the enabled test unchanged. */
  lemma {:induction false} NoKeyword(s: State, words: Command)
    requires s.st.Ok() && words != [] && (words[0].Plain? || words[0].KwBreak?)
    requires s.st.If().state != ItefIf && !s.st.AwaitsLoopCondition()
    ensures ParseLoop(s, words) == ParseItef(s, words) == Parsed(s, words, Accepted)
  {}

  // ---------------------------------------------------------------- commands

  lemma {:induction false} CommandRuns(run: History, script: seq<Command>, env: Env, i: nat)
    requires Follows(run, script, env) && Reading(script, At(run, i))
    requires IsCommand(script[At(run, i).pos])
    requires At(run, i).st.CmdEnabled() && At(run, i).st.If().state != ItefIf && !At(run, i).st.AwaitsLoopCondition()
    ensures
      var h := At(run, i).trace + [script[At(run, i).pos]];
      var t := At(run, i + 1);
      && t.st == At(run, i).st && t.trace == h && t.fail == env.fails(h)
      && t.pos == At(run, i).pos + 1 && t.seekable == At(run, i).seekable
      && t.stopped == (env.fails(h) && !env.ignore)
  {
    assert Moment(run, i);
    NoKeyword(Read(At(run, i)), script[At(run, i).pos]);
  }

  lemma {:induction false} CommandSkipped(run: History, script: seq<Command>, env: Env, i: nat)
    requires Follows(run, script, env) && Reading(script, At(run, i))
    requires IsCommand(script[At(run, i).pos]) || script[At(run, i).pos] == [KwBreak]
    requires !At(run, i).st.CmdEnabled() && At(run, i).st.If().state != ItefIf && !At(run, i).st.AwaitsLoopCondition()
    ensures Silent(At(run, i), At(run, i + 1)) && At(run, i + 1).st == At(run, i).st
  {
    assert Moment(run, i);
    NoKeyword(Read(At(run, i)), script[At(run, i).pos]);
  }

  lemma {:induction false} BreakRuns(run: History, script: seq<Command>, env: Env, i: nat)
    requires Follows(run, script, env) && Reading(script, At(run, i))
    requires script[At(run, i).pos] == [KwBreak]
    requires At(run, i).st.CmdEnabled() && At(run, i).st.If().state != ItefIf && !At(run, i).st.AwaitsLoopCondition()
    requires At(run, i).st.lpndx > 0 ==> At(run, i).st.ifs[At(run, i).st.Loop().iendx].state != ItefIf
    ensures Passes(At(run, i), At(run, i + 1)) && At(run, i + 1).trace == At(run, i).trace && !At(run, i + 1).fail
    ensures At(run, i + 1).st == At(run, i).st.Break()
  {
    assert Moment(run, i);
    NoKeyword(Read(At(run, i)), script[At(run, i).pos]);
  }

  // ----------------------------------------------------------------- if lines

  lemma {:induction false} IfOpens(s: State, inv: bool, c: Command)
    requires s.st.Ok() && IsCommand(c)
    requires s.st.If().state != ItefIf && !s.st.AwaitsLoopCondition()
    requires s.st.iendx + 1 < |s.st.ifs|
    ensures ParseLoop(s, IfLine(inv, c)) == Parsed(s, IfLine(inv, c), Accepted)
    ensures
      var pushed := s.(st := s.st.PushIf(IfEntry(ItefIf, !s.st.CmdEnabled(), false, inv)));
      && ParseItef(s, IfLine(inv, c)) == Parsed(pushed, c, Accepted)
      && pushed.st.CmdEnabled() == s.st.CmdEnabled()
  {
    var w := IfLine(inv, c);
    assert w[1..] == (if inv then [KwBang] + c else c);
    if inv { assert w[2..] == c; }
  }

  lemma {:induction false} IfRuns(run: History, script: seq<Command>, env: Env, i: nat,
                                  inv: bool, c: Command)
    requires Follows(run, script, env) && Reading(script, At(run, i))
    requires script[At(run, i).pos] == IfLine(inv, c) && IsCommand(c)
    requires At(run, i).st.CmdEnabled() && At(run, i).st.If().state != ItefIf && !At(run, i).st.AwaitsLoopCondition()
    requires At(run, i).st.iendx + 1 < |At(run, i).st.ifs|
    ensures
      var h := At(run, i).trace + [c];
      var t := At(run, i + 1);
      && Passes(At(run, i), t) && t.trace == h && !t.fail
      && t.st == At(run, i).st.PushIf(IfEntry(ItefIf, false, inv != env.fails(h), inv))
  {
    assert Moment(run, i);
    IfOpens(Read(At(run, i)), inv, c);
  }

  lemma {:induction false} IfSkipped(run: History, script: seq<Command>, env: Env, i: nat,
                                     inv: bool, c: Command)
    requires Follows(run, script, env) && Reading(script, At(run, i))
    requires script[At(run, i).pos] == IfLine(inv, c) && IsCommand(c)
    requires !At(run, i).st.CmdEnabled() && At(run, i).st.If().state != ItefIf && !At(run, i).st.AwaitsLoopCondition()
    requires At(run, i).st.iendx + 1 < |At(run, i).st.ifs|
    ensures Silent(At(run, i), At(run, i + 1))
    ensures At(run, i + 1).st == At(run, i).st.PushIf(IfEntry(ItefIf, true, false, inv))
  {
    assert Moment(run, i);
    IfOpens(Read(At(run, i)), inv, c);
  }

  lemma {:induction false} ThenLine(run: History, script: seq<Command>, env: Env, i: nat)
    requires Follows(run, script, env) && Reading(script, At(run, i))
    requires script[At(run, i).pos] == [KwThen]
    requires At(run, i).st.If().state == ItefIf && !At(run, i).st.AwaitsLoopCondition()
    ensures Silent(At(run, i), At(run, i + 1))
    ensures At(run, i + 1).st == At(run, i).st.WithIf(At(run, i).st.If().(state := ItefThen))
  {
    assert Moment(run, i);
  }

  lemma {:induction false} ElseLine(run: History, script: seq<Command>, env: Env, i: nat)
    requires Follows(run, script, env) && Reading(script, At(run, i))
    requires script[At(run, i).pos] == [KwElse]
    requires At(run, i).st.If().state == ItefThen && !At(run, i).st.AwaitsLoopCondition()
    ensures Silent(At(run, i), At(run, i + 1))
    ensures At(run, i + 1).st == At(run, i).st.WithIf(At(run, i).st.If().(state := ItefElse))
  {
    assert Moment(run, i);
  }

  lemma {:induction false} FiLine(run: History, script: seq<Command>, env: Env, i: nat)
    requires Follows(run, script, env) && Reading(script, At(run, i))
    requires script[At(run, i).pos] == [KwFi]
    requires At(run, i).st.If().state == ItefThen || At(run, i).st.If().state == ItefElse
    requires !At(run, i).st.AwaitsLoopCondition()
    ensures At(run, i).st.iendx > 0
    ensures Silent(At(run, i), At(run, i + 1)) && At(run, i + 1).st == At(run, i).st.(iendx := At(run, i).st.iendx - 1)
  {
    assert Moment(run, i);
  }

  lemma {:induction false} StrayRejected(s: State, words: Command)
    requires s.st.Ok() && (words == [KwElse] || words == [KwFi])
    requires s.st.iendx == 0 && !s.st.AwaitsLoopCondition()
    ensures ParseLoop(s, words) == Parsed(s, words, Accepted)
    ensures ParseItef(s, words) == Parsed(s, [], BadContext)
  {
    assert s.st.ifs[0 := IDLE_IF] == s.st.ifs;
  }

  /** An `else` or `fi` at the bottom of the if stack. */
  lemma {:induction false} StrayLine(run: History, script: seq<Command>, env: Env, i: nat)
    requires Follows(run, script, env) && Reading(script, At(run, i))
    requires script[At(run, i).pos] == [KwElse] || script[At(run, i).pos] == [KwFi]
    requires At(run, i).st.iendx == 0 && !At(run, i).st.AwaitsLoopCondition()
    ensures
      var t := At(run, i + 1);
      && t.st == At(run, i).st && t.trace == At(run, i).trace && t.fail
      && t.pos == At(run, i).pos + 1 && t.seekable == At(run, i).seekable
      && t.stopped == !env.ignore
  {
    assert Moment(run, i);
    StrayRejected(Read(At(run, i)), script[At(run, i).pos]);
  }

  // --------------------------------------------------------------- loop lines

  lemma {:induction false} HeaderOpens(s: State, until: bool, c: Command)
    requires s.st.Ok() && IsCommand(c)
    requires s.st.If().state != ItefIf && !s.st.AwaitsLoopCondition()
    requires s.seekable && s.st.lpndx + 1 < |s.st.loops|
    ensures
      var entry := LoopEntry(if until then LoopUntil else LoopWhile, s.st.CmdEnabled(), s.st.iendx, s.foffs);
      var pushed := s.(jump := false, st := s.st.PushLoop(entry));
      && ParseLoop(s, LoopLine(until, c)) == Parsed(pushed, c, Accepted)
      && ParseItef(pushed, c) == Parsed(pushed, c, Accepted)
      && pushed.st.CmdEnabled() == s.st.ItefEnabled()
  {
    assert LoopLine(until, c)[1..] == c;
  }

  /** A loop header runs whenever the if stack allows it, even in a disabled loop body. */
  lemma {:induction false} HeaderRuns(run: History, script: seq<Command>, env: Env, i: nat,
                                      until: bool, c: Command)
    requires Follows(run, script, env) && Reading(script, At(run, i))
    requires script[At(run, i).pos] == LoopLine(until, c) && IsCommand(c)
    requires At(run, i).st.ItefEnabled() && At(run, i).st.If().state != ItefIf && !At(run, i).st.AwaitsLoopCondition()
    requires At(run, i).seekable && At(run, i).st.lpndx + 1 < |At(run, i).st.loops|
    ensures
      var h := At(run, i).trace + [c];
      var t := At(run, i + 1);
      && Passes(At(run, i), t) && t.trace == h && !t.fail
      && t.st == At(run, i).st.PushLoop(LoopEntry(if until then LoopUntil else LoopWhile,
                                         Continues(until, env.fails(h)), At(run, i).st.iendx, At(run, i).pos))
  {
    assert Moment(run, i);
    HeaderOpens(Read(At(run, i)), until, c);
  }

  lemma {:induction false} HeaderSkipped(run: History, script: seq<Command>, env: Env, i: nat,
                                         until: bool, c: Command)
    requires Follows(run, script, env) && Reading(script, At(run, i))
    requires script[At(run, i).pos] == LoopLine(until, c) && IsCommand(c)
    requires !At(run, i).st.ItefEnabled() && At(run, i).st.If().state != ItefIf && !At(run, i).st.AwaitsLoopCondition()
    requires At(run, i).seekable && At(run, i).st.lpndx + 1 < |At(run, i).st.loops|
    ensures Silent(At(run, i), At(run, i + 1))
    ensures At(run, i + 1).st == At(run, i).st.PushLoop(LoopEntry(if until then LoopUntil else LoopWhile,
                                                  false, At(run, i).st.iendx, At(run, i).pos))
  {
    assert Moment(run, i);
    HeaderOpens(Read(At(run, i)), until, c);
  }

  lemma {:induction false} DoLine(run: History, script: seq<Command>, env: Env, i: nat)
    requires Follows(run, script, env) && Reading(script, At(run, i))
    requires script[At(run, i).pos] == [KwDo]
    requires At(run, i).st.AwaitsLoopCondition() && At(run, i).st.If().state != ItefIf
    ensures Silent(At(run, i), At(run, i + 1))
    ensures At(run, i + 1).st == At(run, i).st.WithLoop(At(run, i).st.Loop().(state := LoopDo))
  {
    assert Moment(run, i);
  }

  /** `done` seeks to the loop header when the loop is enabled and falls through otherwise. */
  lemma {:induction false} DoneLine(run: History, script: seq<Command>, env: Env, i: nat)
    requires Follows(run, script, env) && Reading(script, At(run, i))
    requires script[At(run, i).pos] == [KwDone]
    requires At(run, i).st.Loop().state == LoopDo && At(run, i).st.If().state != ItefIf
    ensures At(run, i).st.lpndx > 0
    ensures
      var t := At(run, i + 1);
      && t.st.Ok() && !t.stopped && t.seekable == At(run, i).seekable
      && t.trace == At(run, i).trace && t.fail == At(run, i).fail
      && t.st == At(run, i).st.PopLoop()
      && t.pos == (if At(run, i).st.Loop().enable then At(run, i).st.Loop().top else At(run, i).pos + 1)
      && t.jump == At(run, i).st.Loop().enable
  {
    assert Moment(run, i);
  }
}
