/**
 The control-flow state of the NSH parser and what one command does to it.

 NSH builds no syntax tree.  It keeps a stack of loop entries and a stack of
 if entries, looks at one command at a time, and decides from the two top
 entries whether the command runs.  `done` seeks the script file back to the
 loop header.

 A script is a sequence of commands, one to a line; a command is the sequence
 of its words.  What a command does outside the parser is an oracle: its exit
 status is a function of the commands executed so far.
 */
module NshControl {

  /** A word of a command, with the words the parser compares against singled out. */
  datatype Word =
    | KwWhile | KwUntil | KwDo | KwDone
    | KwIf | KwBang | KwThen | KwElse | KwFi
    | KwBreak
    | EmptyWord
    | Plain(text: string)

  type Command = seq<Word>

  datatype LoopState = LoopNormal | LoopWhile | LoopUntil | LoopDo
  datatype IfState = ItefNormal | ItefIf | ItefThen | ItefElse

  /** One slot of np_lpstate.  `iendx` is the if index at the loop header. */
  datatype LoopEntry = LoopEntry(state: LoopState, enable: bool, iendx: nat, top: nat)

  /** One slot of np_iestate.  `ifcond` is true when the condition failed. */
  datatype IfEntry = IfEntry(state: IfState, disabled: bool, ifcond: bool, inverted: bool)

  const IDLE_IF := IfEntry(ItefNormal, false, false, false)

  /** The bottom slot is NORMAL, the slots between it and the top are DO. */
  predicate LoopsOk(loops: seq<LoopEntry>, lpndx: nat, depth: nat)
    requires lpndx < |loops|
  {
    && loops[0].state == LoopNormal
    && (forall k :: 0 < k < lpndx ==> loops[k].state == LoopDo)
    && (lpndx > 0 ==> loops[lpndx].state != LoopNormal)
    && (forall k :: 0 <= k < |loops| ==> loops[k].iendx < depth)
  }

  /**
   The two stacks: arrays of CONFIG_NSH_NESTDEPTH slots with the index of the
   top slot.  Slots above the top keep their old contents.
   */
  datatype Stacks = Stacks(loops: seq<LoopEntry>, lpndx: nat, ifs: seq<IfEntry>, iendx: nat) {

    predicate Indexed() {
      && lpndx < |loops| == |ifs|
      && iendx < |ifs|
    }

    /** What every command keeps, whatever it is. */
    predicate Ok() {
      && Indexed()
      && LoopsOk(loops, lpndx, |ifs|)
      && ifs[0] == IDLE_IF
    }

    function Loop(): LoopEntry requires Indexed() { loops[lpndx] }

    function If(): IfEntry requires Indexed() { ifs[iendx] }

    predicate AwaitsLoopCondition() requires Indexed() {
      Loop().state == LoopWhile || Loop().state == LoopUntil
    }

    predicate LoopEnabled() requires Indexed() { Loop().state == LoopDo ==> Loop().enable }

    predicate ItefEnabled() requires Indexed() {
      && !If().disabled
      && (If().state == ItefThen ==> !If().ifcond)
      && (If().state == ItefElse ==> If().ifcond)
    }

    predicate CmdEnabled() requires Indexed() { LoopEnabled() && ItefEnabled() }

    function WithLoop(e: LoopEntry): (r: Stacks)
      requires Indexed()
      ensures Ok() && lpndx > 0 && e.state != LoopNormal && e.iendx < |ifs| ==> r.Ok()
    {
      this.(loops := loops[lpndx := e])
    }

    function WithIf(e: IfEntry): (r: Stacks)
      requires Indexed()
      ensures Ok() && iendx > 0 ==> r.Ok()
    {
      this.(ifs := ifs[iendx := e])
    }

    function PushLoop(e: LoopEntry): (r: Stacks)
      requires Indexed() && lpndx + 1 < |loops|
      ensures Ok() && !AwaitsLoopCondition() && e.state != LoopNormal && e.iendx < |ifs| ==> r.Ok()
    {
      this.(loops := loops[lpndx + 1 := e], lpndx := lpndx + 1)
    }

    function PopLoop(): (r: Stacks)
      requires Indexed() && lpndx > 0
      ensures Ok() ==> r.Ok()
    {
      this.(loops := loops[lpndx := loops[lpndx].(state := LoopNormal, enable := true)],
            lpndx := lpndx - 1)
    }

    function PushIf(e: IfEntry): (r: Stacks)
      requires Indexed() && iendx + 1 < |ifs|
      ensures Ok() ==> r.Ok()
    {
      this.(ifs := ifs[iendx + 1 := e], iendx := iendx + 1)
    }

    function ResetLoops(): (r: Stacks)
      requires Indexed()
      ensures Ok() ==> r.Ok()
    {
      this.(lpndx := 0, loops := loops[0 := LoopEntry(LoopNormal, true, loops[0].iendx, 0)])
    }

    function ResetIfs(): (r: Stacks)
      requires Indexed()
      ensures Ok() ==> r.Ok()
    {
      this.(iendx := 0, ifs := ifs[0 := IDLE_IF])
    }

    /** The `break` command: a no-op unless the innermost loop is past its `do`. */
    function Break(): (r: Stacks)
      requires Ok()
      ensures r.Ok()
    {
      if Loop().state == LoopDo then
        WithLoop(Loop().(enable := false)).(iendx := Loop().iendx)
      else this
    }
  }

  /** The stacks are in order and have as many slots as before. */
  predicate Keeps(before: Stacks, after: Stacks) {
    after.Ok() && |after.ifs| == |before.ifs|
  }

  /**
   The parser state.  `foffs` is the offset of the command being parsed, `pos`
   the position of the script file, `seekable` that a script file is open and
   its offset is known.  `trace` records every command executed.
   */
  datatype State = State(
    st: Stacks, fail: bool, jump: bool, seekable: bool,
    foffs: nat, pos: nat, trace: seq<Command>, stopped: bool)

  /**
   Everything outside the parser.  `fails(h)` says whether the last command of
   the history `h` failed; `ignore` is NSH_PFLAG_IGNORE.
   */
  datatype Env = Env(fails: seq<Command> -> bool, ignore: bool)

  /** Why a keyword was rejected; `Internal` is the guard marked "Shouldn't happen". */
  datatype Verdict = Accepted | BadArgument | BadContext | TooDeep | Internal

  datatype Parsed = Parsed(s: State, words: Command, verdict: Verdict)

  /** Keywords run nothing. */
  predicate RunsNothing(s: State, r: Parsed) { r.s.trace == s.trace && r.s.fail == s.fail }

  datatype Saved = Saved(s: State, ok: bool)

  /**
   Record the status of a command: as the condition a loop header or an `if`
   is waiting for, or as the status of the script.
   */
  function SaveResult(s: State, failed: bool): (r: Saved)
    requires s.st.Ok()
    ensures Keeps(s.st, r.s.st)
  {
    var st := s.st;
    if st.Loop().state == LoopWhile then
      Saved(s.(st := st.WithLoop(st.Loop().(enable := !failed)), fail := false), true)
    else if st.Loop().state == LoopUntil then
      Saved(s.(st := st.WithLoop(st.Loop().(enable := failed)), fail := false), true)
    else if st.If().state == ItefIf then
      Saved(s.(st := st.WithIf(st.If().(ifcond := st.If().inverted != failed)), fail := false), true)
    else
      Saved(s.(fail := failed), !failed)
  }

  predicate NoCommand(words: Command) { words == [] || words[0].EmptyWord? }

  function LoopReject(s: State, words: Command, v: Verdict): (r: Parsed)
    requires s.st.Indexed()
    ensures RunsNothing(s, r)
    ensures s.st.Ok() ==> Keeps(s.st, r.s.st)
  {
    Parsed(s.(jump := false, st := s.st.ResetLoops()), words, v)
  }

  function ParseLoopHeader(s: State, words: Command): (r: Parsed)
    requires s.st.Ok() && words != []
    ensures RunsNothing(s, r)
    ensures Keeps(s.st, r.s.st) && r.verdict != Internal
  {
    var rest := words[1..];
    if NoCommand(rest) then LoopReject(s, rest, BadArgument)
    else if s.st.If().state == ItefIf || s.st.AwaitsLoopCondition() || !s.seekable then
      LoopReject(s, rest, BadContext)
    else if s.st.lpndx >= |s.st.loops| - 1 then LoopReject(s, rest, TooDeep)
    else
      var entry := LoopEntry(if words[0].KwWhile? then LoopWhile else LoopUntil,
                             s.st.CmdEnabled(), s.st.iendx, s.foffs);
      Parsed(s.(jump := false, st := s.st.PushLoop(entry)), rest, Accepted)
  }

  function ParseDone(s: State, words: Command): (r: Parsed)
    requires s.st.Indexed() && words != []
    ensures RunsNothing(s, r)
    ensures s.st.Ok() ==> Keeps(s.st, r.s.st) && r.verdict != Internal
  {
    var rest := words[1..];
    if rest != [] then LoopReject(s, rest, BadArgument)
    else if s.st.Loop().state != LoopDo then LoopReject(s, rest, BadContext)
    else if s.st.lpndx < 1 then LoopReject(s, rest, Internal)
    else
      var popped := s.(st := s.st.PopLoop());
      Parsed(if s.st.Loop().enable then popped.(pos := s.st.Loop().top, jump := true) else popped,
             rest, Accepted)
  }

  /** Handle a leading `while`, `until`, `do` or `done`. */
  function ParseLoop(s: State, words: Command): (r: Parsed)
    requires s.st.Ok()
    ensures RunsNothing(s, r)
    ensures Keeps(s.st, r.s.st) && r.verdict != Internal
  {
    if words == [] then Parsed(s, words, Accepted)
    else if words[0].KwWhile? || words[0].KwUntil? then ParseLoopHeader(s, words)
    else if words[0].KwDo? then
      if !s.st.AwaitsLoopCondition() then LoopReject(s, words[1..], BadContext)
      else Parsed(s.(st := s.st.WithLoop(s.st.Loop().(state := LoopDo))), words[1..], Accepted)
    else if words[0].KwDone? then ParseDone(s, words)
    else if s.st.AwaitsLoopCondition() then LoopReject(s, words, BadContext)
    else Parsed(s, words, Accepted)
  }

  function ItefReject(s: State, words: Command, v: Verdict): (r: Parsed)
    requires s.st.Indexed()
    ensures RunsNothing(s, r)
    ensures s.st.Ok() ==> Keeps(s.st, r.s.st)
  {
    Parsed(s.(st := s.st.ResetIfs()), words, v)
  }

  function ParseIf(s: State, words: Command): (r: Parsed)
    requires s.st.Ok() && words != []
    ensures RunsNothing(s, r)
    ensures Keeps(s.st, r.s.st) && r.verdict != Internal
  {
    var inverted := |words| > 1 && words[1].KwBang?;
    var cond := if inverted then words[2..] else words[1..];
    if NoCommand(cond) then ItefReject(s, cond, BadArgument)
    else if s.st.If().state == ItefIf then ItefReject(s, cond, BadContext)
    else if s.st.iendx >= |s.st.ifs| - 1 then ItefReject(s, cond, TooDeep)
    else
      var entry := IfEntry(ItefIf, !s.st.CmdEnabled(), false, inverted);
      Parsed(s.(st := s.st.PushIf(entry)), cond, Accepted)
  }

  function ParseFi(s: State, words: Command): (r: Parsed)
    requires s.st.Indexed() && words != []
    ensures RunsNothing(s, r)
    ensures s.st.Ok() ==> Keeps(s.st, r.s.st) && r.verdict != Internal
  {
    var rest := words[1..];
    if rest != [] then ItefReject(s, rest, BadArgument)
    else if s.st.If().state != ItefThen && s.st.If().state != ItefElse then
      ItefReject(s, rest, BadContext)
    else if s.st.iendx < 1 then ItefReject(s, rest, Internal)
    else Parsed(s.(st := s.st.(iendx := s.st.iendx - 1)), rest, Accepted)
  }

  /** Handle a leading `if`, `then`, `else` or `fi`. */
  function ParseItef(s: State, words: Command): (r: Parsed)
    requires s.st.Ok()
    ensures RunsNothing(s, r)
    ensures Keeps(s.st, r.s.st) && r.verdict != Internal
  {
    if words == [] then Parsed(s, words, Accepted)
    else if words[0].KwIf? then ParseIf(s, words)
    else if words[0].KwThen? then
      if s.st.If().state != ItefIf then ItefReject(s, words[1..], BadContext)
      else Parsed(s.(st := s.st.WithIf(s.st.If().(state := ItefThen))), words[1..], Accepted)
    else if words[0].KwElse? then
      if s.st.If().state != ItefThen then ItefReject(s, words[1..], BadContext)
      else Parsed(s.(st := s.st.WithIf(s.st.If().(state := ItefElse))), words[1..], Accepted)
    else if words[0].KwFi? then ParseFi(s, words)
    else if s.st.If().state == ItefIf then ItefReject(s, words, BadContext)
    else Parsed(s, words, Accepted)
  }

  /** Execute the words left after the keywords and record the result. */
  function Execute(env: Env, s: State, words: Command): (r: Saved)
    requires s.st.Ok() && words != []
    ensures Keeps(s.st, r.s.st)
  {
    if words[0].KwBreak? then SaveResult(s.(st := s.st.Break()), false)
    else
      var history := s.trace + [words];
      SaveResult(s.(trace := history), env.fails(history))
  }

  /** One command: keywords first, then the command itself if it is enabled. */
  function ParseCommand(env: Env, s: State, words: Command): (r: Saved)
    requires s.st.Ok()
    ensures Keeps(s.st, r.s.st)
  {
    var l := ParseLoop(s, words);
    if l.verdict != Accepted then SaveResult(l.s, true)
    else
      var i := ParseItef(l.s, l.words);
      if i.verdict != Accepted then SaveResult(i.s, true)
      else if i.words == [] || !i.s.st.CmdEnabled() then Saved(i.s, true)
      else Execute(env, i.s, i.words)
  }

  /** The script has been read to its end, or a failure ended it. */
  predicate Halted(script: seq<Command>, s: State) {
    s.stopped || s.pos >= |script|
  }

  /** The state in which the line at `pos` is parsed. */
  function Read(s: State): State {
    s.(foffs := s.pos, pos := s.pos + 1, jump := false)
  }

  /** A line that failed ends the script unless failures are ignored. */
  function Conclude(env: Env, r: Saved): State {
    r.s.(stopped := !r.ok && !env.ignore)
  }

  /** Read one line of the script and parse it: one pass of the loop of nsh_script. */
  function Step(script: seq<Command>, env: Env, s: State): (r: State)
    requires s.st.Ok() && !Halted(script, s)
    ensures Keeps(s.st, r.st)
  {
    Conclude(env, ParseCommand(env, Read(s), script[s.pos]))
  }

  /** The state after `n` lines, or after fewer when the script has ended. */
  function Run(script: seq<Command>, env: Env, s: State, n: nat): (r: State)
    requires s.st.Ok()
    ensures Keeps(s.st, r.st)
    decreases n
  {
    if n == 0 then s
    else
      var r := Run(script, env, s, n - 1);
      if Halted(script, r) then r else Step(script, env, r)
  }
}
