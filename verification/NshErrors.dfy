/**
 Which lines the parser rejects, in any state whatever, and what a rejected line does.
 */
module NshErrors {
  import opened NshControl

  /** The words name a command. */
  predicate HasCommand(words: Command) { words != [] && words[0] != EmptyWord }

  predicate IsHeader(w: Word) { w.KwWhile? || w.KwUntil? }

  /** The words behind an `if`, or behind its `!`. */
  function Condition(line: Command): Command requires line != [] {
    if |line| > 1 && line[1].KwBang? then line[2..] else line[1..]
  }

  /** Where a line may stand as far as loops are concerned. */
  predicate LoopAllows(s: State, line: Command) requires s.st.Ok() {
    line != [] ==>
      match line[0]
      case KwWhile => HasCommand(line[1..]) && MayOpenLoop(s)
      case KwUntil => HasCommand(line[1..]) && MayOpenLoop(s)
      case KwDo => s.st.AwaitsLoopCondition()
      case KwDone => |line| == 1 && s.st.lpndx > 0 && !s.st.AwaitsLoopCondition()
      case _ => !s.st.AwaitsLoopCondition()
  }

  predicate MayOpenLoop(s: State) requires s.st.Ok() {
    && s.seekable && s.st.lpndx + 1 < |s.st.loops|
    && s.st.If().state != ItefIf && !s.st.AwaitsLoopCondition()
  }

  /** Where a line may stand as far as ifs are concerned. */
  predicate IfAllows(s: State, line: Command) requires s.st.Ok() {
    line != [] ==>
      match line[0]
      case KwIf =>
        && HasCommand(Condition(line))
        && s.st.iendx + 1 < |s.st.ifs| && s.st.If().state != ItefIf
      case KwThen => s.st.If().state == ItefIf
      case KwElse => s.st.If().state == ItefThen
      case KwFi => |line| == 1 && s.st.iendx > 0 && s.st.If().state in {ItefThen, ItefElse}
      case _ => s.st.If().state != ItefIf
  }

  lemma {:induction false} LoopRejectsIff(s: State, line: Command)
    requires s.st.Ok()
    ensures ParseLoop(s, line).verdict == Accepted <==> LoopAllows(s, line)
    ensures ParseLoop(s, line).verdict == BadArgument <==>
            line != [] && if IsHeader(line[0]) then !HasCommand(line[1..]) else line[0].KwDone? && |line| > 1
    ensures ParseLoop(s, line).verdict == TooDeep <==>
            && line != [] && IsHeader(line[0]) && HasCommand(line[1..]) && s.seekable
            && s.st.If().state != ItefIf && !s.st.AwaitsLoopCondition() && s.st.lpndx + 1 == |s.st.loops|
  {}

  lemma {:induction false} IfRejectsIff(s: State, line: Command)
    requires s.st.Ok()
    ensures ParseItef(s, line).verdict == Accepted <==> IfAllows(s, line)
    ensures ParseItef(s, line).verdict == BadArgument <==>
            line != [] && if line[0].KwIf? then !HasCommand(Condition(line)) else line[0].KwFi? && |line| > 1
    ensures ParseItef(s, line).verdict == TooDeep <==>
            && line != [] && line[0].KwIf? && HasCommand(Condition(line))
            && s.st.If().state != ItefIf && s.st.iendx + 1 == |s.st.ifs|
  {}

  /**
   A line that the loops do not allow runs nothing and never jumps: all loops are forgotten,
   the if stack keeps its height, and the script fails, unless an `if` waits for its condition,
   which then is the error.
   */
  lemma {:induction false} LoopErrorForgets(env: Env, s: State, line: Command)
    requires s.st.Ok() && !LoopAllows(s, line)
    ensures
      var r := ParseCommand(env, s, line);
      && r.s.trace == s.trace && r.s.pos == s.pos && !r.s.jump
      && r.s.st.lpndx == 0 && r.s.st.iendx == s.st.iendx
      && r.ok == (s.st.If().state == ItefIf) && r.s.fail == !r.ok
  {
    LoopRejectsIff(s, line);
    var l := ParseLoop(s, line);
    assert l.s == s.(jump := false, st := s.st.ResetLoops());
  }

  /**
   A line that the ifs do not allow, with nothing for loops on it, runs nothing either: the if
   stack is emptied, the loops stay, and the script fails.
   */
  lemma {:induction false} IfErrorForgets(env: Env, s: State, line: Command)
    requires s.st.Ok() && !IfAllows(s, line) && ParseLoop(s, line) == Parsed(s, line, Accepted)
    requires !s.st.AwaitsLoopCondition()
    ensures
      var r := ParseCommand(env, s, line);
      r == Saved(s.(st := s.st.(iendx := 0), fail := true), false)
  {
    ItefRejected(s, line);
    assert s.st.ifs[0 := IDLE_IF] == s.st.ifs;
  }

  lemma {:induction false} ItefRejected(s: State, line: Command)
    requires s.st.Ok() && !IfAllows(s, line)
    ensures ParseItef(s, line).verdict != Accepted && ParseItef(s, line).s == s.(st := s.st.ResetIfs())
  {
    IfRejectsIff(s, line);
  }
}
