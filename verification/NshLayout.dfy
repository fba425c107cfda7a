/**
 Programs as they are written: the first command of a branch or of a loop body may stand
 behind its `then`, `else` or `do`, on the same line.
 */
module NshLayout {
  import opened Basics
  import opened NshControl
  import opened NshProgram
  import opened NshSkipping

  /** A structured program with the command, if any, behind each keyword. */
  datatype Code =
    | Nothing
    | Line(words: Command)
    | Both(first: Code, second: Code)
    | Branch(inverted: bool, cond: Command, thenCmd: Option<Command>, thn: Code,
             hasElse: bool, elseCmd: Option<Command>, els: Code)
    | Cycle(until: bool, cond: Command, doCmd: Option<Command>, body: Code)

  function Words(o: Option<Command>): Command { if o.None? then [] else o.value }

  /** A command or `break`. */
  predicate Runnable(words: Command) { IsCommand(words) || words == [KwBreak] }

  predicate MayFollow(o: Option<Command>) { o.Some? ==> Runnable(o.value) }

  /** Every word that stands for a command is one; nothing is asked of nesting or breaks. */
  predicate Commands(p: Code) {
    match p
    case Nothing => true
    case Line(words) => Runnable(words)
    case Both(a, b) => Commands(a) && Commands(b)
    case Branch(_, c, t, thn, _, e, els) =>
      IsCommand(c) && MayFollow(t) && Commands(thn) && MayFollow(e) && Commands(els)
    case Cycle(_, c, d, body) => IsCommand(c) && MayFollow(d) && Commands(body)
  }

  function ElsePart(hasElse: bool, elseCmd: Option<Command>, els: seq<Command>): seq<Command> {
    if hasElse then [[KwElse] + Words(elseCmd)] + els else []
  }

  function Lines(p: Code): seq<Command> {
    match p
    case Nothing => []
    case Line(words) => [words]
    case Both(a, b) => Lines(a) + Lines(b)
    case Branch(inv, c, t, thn, he, e, els) =>
      Bracket(IfLine(inv, c), [KwThen] + Words(t), Lines(thn) + ElsePart(he, e, Lines(els)), [KwFi])
    case Cycle(u, c, d, body) =>
      Bracket(LoopLine(u, c), [KwDo] + Words(d), Lines(body), [KwDone])
  }

  /** A program with every keyword on a line of its own. */
  function Spread(p: Prog): Code {
    match p
    case Empty => Nothing
    case Simple(argv) => Line(argv)
    case Break => Line([KwBreak])
    case Seq(a, b) => Both(Spread(a), Spread(b))
    case If(inv, c, t, he, e) => Branch(inv, c, None, Spread(t), he, None, Spread(e))
    case Loop(u, c, body) => Cycle(u, c, None, Spread(body))
  }

  lemma {:induction false} SpreadLines(p: Prog)
    ensures Lines(Spread(p)) == Flat(p)
  {
    match p
    case Empty =>
    case Simple(_) =>
    case Break =>
    case Seq(a, b) =>
      SpreadLines(a);
      SpreadLines(b);
    case If(_, _, t, _, e) =>
      SpreadLines(t);
      SpreadLines(e);
      assert [KwThen] + Words(None) == [KwThen] && [KwElse] + Words(None) == [KwElse];
    case Loop(_, _, body) =>
      SpreadLines(body);
      assert [KwDo] + Words(None) == [KwDo];
  }

  lemma {:induction false} SpreadCommands(p: Prog, depth: nat, loops: nat, ifs: nat)
    requires Fits(p, depth, loops, ifs)
    ensures Commands(Spread(p))
  {
    match p
    case Empty =>
    case Simple(_) =>
    case Break =>
    case Seq(a, b) =>
      SpreadCommands(a, depth, loops, ifs);
      SpreadCommands(b, depth, loops, ifs);
    case If(_, _, t, _, e) =>
      SpreadCommands(t, depth, loops, ifs + 1);
      SpreadCommands(e, depth, loops, ifs + 1);
    case Loop(_, _, body) => SpreadCommands(body, depth, loops + 1, ifs);
  }

  // ----------------------------------------------------------------- where the lines are

  /** The line of the `fi` that closes an `if` starting at `pos`. */
  function FiLineOf(p: Code, pos: nat): nat requires p.Branch? {
    pos + 2 + |Lines(p.thn)| + (if p.hasElse then 1 + |Lines(p.els)| else 0)
  }

  ghost predicate BranchAt(script: seq<Command>, pos: nat, p: Code) requires p.Branch? {
    && FiLineOf(p, pos) < |script|
    && script[pos] == IfLine(p.inverted, p.cond) && script[pos + 1] == [KwThen] + Words(p.thenCmd)
    && CodeAt(script, pos + 2, Lines(p.thn))
    && (p.hasElse ==>
          var q := pos + 2 + |Lines(p.thn)|;
          script[q] == [KwElse] + Words(p.elseCmd) && CodeAt(script, q + 1, Lines(p.els)))
    && script[FiLineOf(p, pos)] == [KwFi]
  }

  lemma {:induction false} BranchLines(script: seq<Command>, pos: nat, p: Code, t: seq<Command>, e: seq<Command>)
    requires p.Branch? && t == Lines(p.thn) && e == Lines(p.els)
    requires CodeAt(script, pos, Bracket(IfLine(p.inverted, p.cond), [KwThen] + Words(p.thenCmd),
                                         t + ElsePart(p.hasElse, p.elseCmd, e), [KwFi]))
    ensures BranchAt(script, pos, p)
  {
    IfLines(script, pos, IfLine(p.inverted, p.cond), [KwThen] + Words(p.thenCmd), t,
            p.hasElse, [KwElse] + Words(p.elseCmd), e);
  }

  lemma {:induction false} BranchLayout(script: seq<Command>, pos: nat, p: Code)
    requires p.Branch? && CodeAt(script, pos, Lines(p))
    ensures BranchAt(script, pos, p) && pos + |Lines(p)| == FiLineOf(p, pos) + 1
  {
    BranchLines(script, pos, p, Lines(p.thn), Lines(p.els));
  }

  ghost predicate CycleAt(script: seq<Command>, pos: nat, p: Code) requires p.Cycle? {
    && pos + 2 + |Lines(p.body)| < |script|
    && script[pos] == LoopLine(p.until, p.cond) && script[pos + 1] == [KwDo] + Words(p.doCmd)
    && CodeAt(script, pos + 2, Lines(p.body))
    && script[pos + 2 + |Lines(p.body)|] == [KwDone]
  }

  lemma {:induction false} CycleLayout(script: seq<Command>, pos: nat, p: Code)
    requires p.Cycle? && CodeAt(script, pos, Lines(p))
    ensures CycleAt(script, pos, p) && |Lines(p)| == |Lines(p.body)| + 3
  {
    BracketLayout(script, pos, LoopLine(p.until, p.cond), [KwDo] + Words(p.doCmd), Lines(p.body), [KwDone]);
  }

  // ---------------------------------------------------------- a keyword and what follows

  /** Words that a keyword line may end with: for `do` anything but a loop keyword. */
  predicate StandsBehind(k: Word, words: Command) {
    && words != []
    && !words[0].KwWhile? && !words[0].KwUntil? && !words[0].KwDo? && !words[0].KwDone?
    && (k.KwDo? || !(words[0].KwIf? || words[0].KwThen? || words[0].KwElse? || words[0].KwFi?))
  }

  /** The line of the keyword alone is accepted. */
  predicate Accepts(s: State, k: Word) requires s.st.Ok() {
    && ParseLoop(s, [k]).verdict == Accepted
    && ParseItef(ParseLoop(s, [k]).s, ParseLoop(s, [k]).words).verdict == Accepted
  }

  lemma {:induction false} BehindDo(env: Env, s: State, words: Command)
    requires s.st.Ok() && s.st.AwaitsLoopCondition() && StandsBehind(KwDo, words)
    ensures
      var u := s.(st := s.st.WithLoop(s.st.Loop().(state := LoopDo)));
      && ParseCommand(env, s, [KwDo]) == Saved(u, true)
      && ParseCommand(env, s, [KwDo] + words) == ParseCommand(env, u, words)
  {
    var u := s.(st := s.st.WithLoop(s.st.Loop().(state := LoopDo)));
    var line := [KwDo] + words;
    assert line[1..] == words && [KwDo][1..] == [];
    assert ParseLoop(s, line) == Parsed(u, words, Accepted);
    assert ParseLoop(u, words) == Parsed(u, words, Accepted);
  }

  /** The if stack after a `then` or `else` that is accepted. */
  function Turned(s: State, k: Word): State requires s.st.Ok() {
    s.(st := s.st.WithIf(s.st.If().(state := if k.KwThen? then ItefThen else ItefElse)))
  }

  lemma {:induction false} BehindThen(env: Env, s: State, k: Word, words: Command)
    requires s.st.Ok() && !s.st.AwaitsLoopCondition() && StandsBehind(k, words)
    requires (k.KwThen? && s.st.If().state == ItefIf) || (k.KwElse? && s.st.If().state == ItefThen)
    ensures ParseCommand(env, s, [k]) == Saved(Turned(s, k), true)
    ensures Turned(s, k).st.Ok()
    ensures ParseCommand(env, s, [k] + words) == ParseCommand(env, Turned(s, k), words)
  {
    var u := Turned(s, k);
    var line := [k] + words;
    assert line[1..] == words && [k][1..] == [];
    assert ParseLoop(s, line) == Parsed(s, line, Accepted);
    assert ParseItef(s, line) == Parsed(u, words, Accepted);
    assert ParseLoop(u, words) == ParseItef(u, words) == Parsed(u, words, Accepted);
  }

  /** When the keyword alone is accepted. */
  lemma {:induction false} AcceptsWhen(s: State, k: Word)
    requires s.st.Ok() && (k.KwDo? || k.KwThen? || k.KwElse?)
    ensures Accepts(s, k) <==>
            match k
            case KwDo => s.st.AwaitsLoopCondition()
            case KwThen => s.st.If().state == ItefIf && !s.st.AwaitsLoopCondition()
            case _ => s.st.If().state == ItefThen && !s.st.AwaitsLoopCondition()
  {
    assert [k][1..] == [];
  }

  /**
   Wherever a `do`, `then` or `else` alone on its line is accepted, one with more words on
   its line does what the keyword alone and then those words do: the same commands, status
   and stacks.
   */
  lemma {:induction false} SameLine(env: Env, s: State, k: Word, words: Command)
    requires s.st.Ok() && (k.KwDo? || k.KwThen? || k.KwElse?) && StandsBehind(k, words) && Accepts(s, k)
    ensures
      var first := ParseCommand(env, s, [k]);
      first.ok && ParseCommand(env, s, [k] + words) == ParseCommand(env, first.s, words)
  {
    AcceptsWhen(s, k);
    if k.KwDo? { BehindDo(env, s, words); } else { BehindThen(env, s, k, words); }
  }
}
