/**
 Every structured script, however deeply nested and wherever its breaks stand.

 `Act` is a semantics by the structure of the program: a loop is a recursion, so there
 is no loop stack, no script file and no seek in it.  The if stack stays, because `break`
 may leave it shorter than the nesting of the program: an `else` or `fi` then meets
 whichever `if` is on top, or none, and complains.  Nesting beyond the depth of the
 stacks is part of it too: the lines of the compound command that does not fit are
 rejected one by one, and a loop that does not fit takes the loops around it down with it.
 A command behind a `then`, `else` or `do` is rejected with its line.
 */
module NshStructure {
  import opened Basics
  import opened NshControl
  import opened NshProgram
  import opened NshLines
  import opened NshSkipping
  import opened NshLayout
  import opened NshTheorems

  /** No `if` waits for its condition, in any slot. */
  predicate Settled(ifs: seq<IfEntry>) {
    forall k :: 0 <= k < |ifs| ==> ifs[k].state != ItefIf
  }

  /**
   The if stack, the number of open loops, whether the innermost one is enabled and the
   height of the if stack at its header, the commands executed and the exit status.
   */
  datatype Config = Config(ifs: seq<IfEntry>, top: nat, loops: nat, on: bool, base: nat,
                           trace: seq<Command>, fail: bool) {
    predicate Ok() {
      && top < |ifs| && loops < |ifs| && base < |ifs|
      && (loops == 0 ==> on && base == 0)
      && ifs[0] == IDLE_IF && Settled(ifs)
    }

    predicate BranchEnabled() requires top < |ifs| {
      && !ifs[top].disabled
      && (ifs[top].state == ItefThen ==> !ifs[top].ifcond)
      && (ifs[top].state == ItefElse ==> ifs[top].ifcond)
    }

    predicate Enabled() requires top < |ifs| { on && BranchEnabled() }

    /** After `break`: the innermost loop is off and the if stack is cut back to its header. */
    function Broken(): Config {
      if loops == 0 then this.(fail := false) else this.(fail := false, on := false, top := base)
    }

    /** After the header of an `if` and its `then`. */
    function Opened(env: Env, inverted: bool, cond: Command): Config
      requires top + 1 < |ifs|
    {
      var h := trace + [cond];
      if Enabled() then
        this.(top := top + 1, ifs := ifs[top + 1 := IfEntry(ItefThen, false, inverted != env.fails(h), inverted)],
              trace := h, fail := false)
      else
        this.(top := top + 1, ifs := ifs[top + 1 := IfEntry(ItefThen, true, false, inverted)])
    }

    /** After the header of a loop and its `do`: the condition runs unless a branch forbids it. */
    function Entered(env: Env, until: bool, cond: Command): Config
      requires top < |ifs|
    {
      var h := trace + [cond];
      if BranchEnabled() then
        this.(loops := loops + 1, on := Continues(until, env.fails(h)), base := top, trace := h, fail := false)
      else
        this.(loops := loops + 1, on := false, base := top)
    }

    /** After `done`: `outer` was the situation at the header. */
    function Left(outer: Config): Config {
      this.(loops := outer.loops, on := outer.on, base := outer.base)
    }
  }

  datatype Ending = Ending(c: Config, out: Outcome)

  /** An error ends the script unless failures are ignored. */
  function Error(env: Env, c: Config): Ending {
    Ending(c.(fail := true), if env.ignore then Normal else Stopped)
  }

  /** A misplaced `if`, `then`, `else` or `fi` empties the if stack. */
  function IfError(env: Env, c: Config): Ending { Error(env, c.(top := 0)) }

  /** A misplaced `while`, `until`, `do` or `done` forgets every open loop. */
  function LoopError(env: Env, c: Config): Ending {
    Error(env, c.(loops := 0, on := true, base := 0))
  }

  /**
   The stacks stay in order, and the enclosing loops open unless they are all forgotten.
   A `break` is an effect, not an outcome.
   */
  predicate Sound(c: Config, r: Ending) {
    && r.out != Broke
    && (r.out == Normal ==>
          r.c.Ok() && |r.c.ifs| == |c.ifs| && (r.c.loops == c.loops || r.c.loops == 0))
  }

  /** A command or `break`, if it is enabled. */
  function Once(env: Env, c: Config, words: Command): (r: Ending)
    requires c.Ok()
    ensures Sound(c, r)
  {
    if !c.Enabled() then Ending(c, Normal)
    else if words == [KwBreak] then Ending(c.Broken(), Normal)
    else
      var h := c.trace + [words];
      Ending(c.(trace := h, fail := env.fails(h)), if env.fails(h) && !env.ignore then Stopped else Normal)
  }

  /** What stands behind a keyword, if anything does. */
  function Behind(env: Env, c: Config, o: Option<Command>): (r: Ending)
    requires c.Ok()
    ensures Sound(c, r)
  {
    if o.None? then Ending(c, Normal) else Once(env, c, o.value)
  }

  /** The header and the `then` of an `if`. */
  function OpenIf(env: Env, c: Config, inverted: bool, cond: Command, o: Option<Command>): (r: Ending)
    requires c.Ok()
    ensures Sound(c, r)
  {
    if c.top + 1 >= |c.ifs| then IfError(env, c) else Behind(env, c.Opened(env, inverted, cond), o)
  }

  function Else(env: Env, c: Config, o: Option<Command>): (r: Ending)
    requires c.Ok()
    ensures Sound(c, r)
  {
    if c.ifs[c.top].state == ItefThen then
      Behind(env, c.(ifs := c.ifs[c.top := c.ifs[c.top].(state := ItefElse)]), o)
    else IfError(env, c)
  }

  function Fi(env: Env, c: Config): (r: Ending)
    requires c.Ok()
    ensures Sound(c, r)
  {
    if c.ifs[c.top].state == ItefNormal then IfError(env, c) else Ending(c.(top := c.top - 1), Normal)
  }

  /** The header and the `do` of a loop. */
  function OpenLoop(env: Env, c: Config, until: bool, cond: Command, o: Option<Command>): (r: Ending)
    requires c.Ok()
    ensures Sound(c.(loops := c.loops + 1), r)
  {
    if c.loops + 1 >= |c.ifs| then LoopError(env, c) else Behind(env, c.Entered(env, until, cond), o)
  }

  /** What the lines of `p` do from `c`; `fuel` bounds the number of loop tests. */
  function Act(env: Env, p: Code, c: Config, fuel: nat): (r: Ending)
    requires c.Ok()
    ensures Sound(c, r)
    decreases fuel, p, 4
  {
    match p
    case Nothing => Ending(c, Normal)
    case Line(words) => Once(env, c, words)
    case Both(a, b) =>
      var r := Act(env, a, c, fuel);
      if r.out == Normal then Act(env, b, r.c, fuel) else r
    case Branch(inv, cond, o, _, _, _, _) =>
      var r := OpenIf(env, c, inv, cond, o);
      if r.out == Normal then AfterThen(env, p, r.c, fuel) else r
    case Cycle(u, cond, o, body) =>
      if fuel == 0 then Ending(c, OutOfFuel)
      else
        var r := OpenLoop(env, c, u, cond, o);
        if r.out == Normal then AfterDo(env, p, c, r.c, fuel) else r
  }

  /** The lines of a loop after its `do`; `outer` was the situation at its header. */
  function AfterDo(env: Env, p: Code, outer: Config, c: Config, fuel: nat): (r: Ending)
    requires outer.Ok() && c.Ok() && |c.ifs| == |outer.ifs|
    requires p.Cycle? && fuel > 0 && (c.loops == outer.loops + 1 || c.loops == 0)
    ensures Sound(outer, r)
    decreases fuel, p, 1
  {
    var r := Act(env, p.body, c, fuel - 1);
    if r.out == Normal then Done(env, p, outer, r.c, fuel) else r
  }

  /** The `done` of a loop: back to its header, or on. */
  function Done(env: Env, p: Code, outer: Config, c: Config, fuel: nat): (r: Ending)
    requires outer.Ok() && c.Ok() && |c.ifs| == |outer.ifs|
    requires p.Cycle? && fuel > 0 && (c.loops == outer.loops + 1 || c.loops == 0)
    ensures Sound(outer, r)
    decreases fuel, p, 0
  {
    if c.loops == 0 then LoopError(env, c)
    else if c.on then Act(env, p, c.Left(outer), fuel - 1)
    else Ending(c.Left(outer), Normal)
  }

  /** The lines of an `if` after its `then`. */
  function AfterThen(env: Env, p: Code, c: Config, fuel: nat): (r: Ending)
    requires c.Ok() && p.Branch?
    ensures Sound(c, r)
    decreases fuel, p, 2
  {
    var r := Act(env, p.thn, c, fuel);
    if r.out == Normal then BeforeFi(env, p, r.c, fuel) else r
  }

  /** The lines of an `if` after its `then` branch. */
  function BeforeFi(env: Env, p: Code, c: Config, fuel: nat): (r: Ending)
    requires c.Ok() && p.Branch?
    ensures Sound(c, r)
    decreases fuel, p, 1
  {
    if !p.hasElse then Fi(env, c)
    else
      var r := Else(env, c, p.elseCmd);
      if r.out == Normal then AfterElse(env, p, r.c, fuel) else r
  }

  /** The lines of an `if` after its `else`. */
  function AfterElse(env: Env, p: Code, c: Config, fuel: nat): (r: Ending)
    requires c.Ok() && p.Branch?
    ensures Sound(c, r)
    decreases fuel, p, 0
  {
    var r := Act(env, p.els, c, fuel);
    if r.out == Normal then Fi(env, r.c) else r
  }

  // ------------------------------------------------------------- the flat machine

  /** The machine is between two commands. */
  ghost predicate Ready(s: State) {
    && s.st.Ok() && !s.stopped && s.seekable
    && !s.st.AwaitsLoopCondition() && Settled(s.st.ifs)
  }

  function View(s: State): Config requires s.st.Indexed() {
    var inner := s.st.lpndx > 0;
    Config(s.st.ifs, s.st.iendx, s.st.lpndx, inner ==> s.st.Loop().enable,
           if inner then s.st.Loop().iendx else 0, s.trace, s.fail)
  }

  lemma {:induction false} ViewOk(s: State)
    requires Ready(s)
    ensures View(s).Ok() && Idle(s)
    ensures View(s).Enabled() == s.st.CmdEnabled() && View(s).BranchEnabled() == s.st.ItefEnabled()
  {}

  /** The loops below the innermost one are the same, and it starts at the same line. */
  ghost predicate Beneath(a: Stacks, b: Stacks) {
    && a.Indexed() && b.Indexed()
    && (a.lpndx == b.lpndx > 0 ==>
          a.Loop().top == b.Loop().top && SamePrefix(a.loops, b.loops, a.lpndx))
  }

  /** From `s` the machine has come to `t` over `len` lines, as `r` says. */
  ghost predicate Reached(script: seq<Command>, s: State, t: State, len: nat, r: Ending) {
    match r.out
    case Normal => Ready(t) && t.pos == s.pos + len && View(t) == r.c && Beneath(s.st, t.st)
    case OutOfFuel => Reading(script, t)
    case _ => t.stopped && t.trace == r.c.trace && t.fail == r.c.fail
  }

  lemma {:induction false} BeneathTrans(a: Stacks, b: Stacks, c: Stacks)
    requires Beneath(a, b) && Beneath(b, c)
    requires b.lpndx == a.lpndx || b.lpndx == 0 == c.lpndx
    ensures Beneath(a, c)
  {
    if a.lpndx == b.lpndx == c.lpndx {
      PrefixSlots(a.loops, b.loops, a.lpndx);
      PrefixSlots(b.loops, c.loops, a.lpndx);
      PrefixSlots(a.loops, c.loops, a.lpndx);
    }
  }

  lemma {:induction false} BeneathSame(a: Stacks, b: Stacks)
    requires a.Indexed() && b.Indexed() && (a.lpndx == b.lpndx > 0 ==>
               a.Loop().top == b.Loop().top && forall k :: 0 <= k < a.lpndx ==> a.loops[k] == b.loops[k])
    ensures Beneath(a, b)
  {
    if a.lpndx == b.lpndx { PrefixSlots(a.loops, b.loops, a.lpndx); }
  }

  // ------------------------------------------------------------------ single lines

  /** A line of the if family that the if stack does not allow. */
  predicate MisplacedIf(st: Stacks, line: Command) requires st.Indexed() {
    && line != []
    && match line[0]
       case KwThen => true
       case KwElse => st.If().state != ItefThen
       case KwFi => line == [KwFi] && st.If().state == ItefNormal
       case KwIf => st.iendx + 1 >= |st.ifs|
       case _ => false
  }

  /** A line of the loop family that the loop stack does not allow. */
  predicate MisplacedLoop(st: Stacks, line: Command) requires st.Indexed() {
    && line != []
    && match line[0]
       case KwDo => true
       case KwDone => line == [KwDone] && st.lpndx == 0
       case KwWhile => st.lpndx + 1 >= |st.loops|
       case KwUntil => st.lpndx + 1 >= |st.loops|
       case _ => false
  }

  lemma {:induction false} MisplacedIfParse(env: Env, s: State, line: Command)
    requires s.st.Ok() && !s.st.AwaitsLoopCondition() && Settled(s.st.ifs) && MisplacedIf(s.st, line)
    ensures ParseCommand(env, s, line) == Saved(s.(st := s.st.(iendx := 0), fail := true), false)
  {
    assert s.st.ifs[0 := IDLE_IF] == s.st.ifs;
    assert ParseLoop(s, line) == Parsed(s, line, Accepted);
    assert ParseItef(s, line).s == s.(st := s.st.(iendx := 0)) && ParseItef(s, line).verdict != Accepted;
  }

  lemma {:induction false} MisplacedLoopParse(env: Env, s: State, line: Command)
    requires s.st.Ok() && !s.st.AwaitsLoopCondition() && Settled(s.st.ifs) && MisplacedLoop(s.st, line)
    ensures ParseCommand(env, s, line)
         == Saved(s.(st := s.st.ResetLoops(), jump := false, fail := true), false)
  {
    assert ParseLoop(s, line).s == s.(st := s.st.ResetLoops(), jump := false);
    assert ParseLoop(s, line).verdict != Accepted;
  }

  /** One line was rejected. */
  ghost predicate Wrong(script: seq<Command>, env: Env, s: State, t: State, r: Ending) {
    Reached(script, s, t, 1, r) && r.out == (if env.ignore then Normal else Stopped)
  }

  lemma {:induction false} IfRejected(run: History, script: seq<Command>, env: Env, i: nat)
    requires Follows(run, script, env) && Ready(At(run, i)) && At(run, i).pos < |script|
    requires MisplacedIf(At(run, i).st, script[At(run, i).pos])
    ensures Wrong(script, env, At(run, i), At(run, i + 1), IfError(env, View(At(run, i))))
  {
    assert Moment(run, i);
    MisplacedIfParse(env, Read(At(run, i)), script[At(run, i).pos]);
    BeneathSame(At(run, i).st, At(run, i).st.(iendx := 0));
  }

  lemma {:induction false} LoopRejected(run: History, script: seq<Command>, env: Env, i: nat)
    requires Follows(run, script, env) && Ready(At(run, i)) && At(run, i).pos < |script|
    requires MisplacedLoop(At(run, i).st, script[At(run, i).pos])
    ensures Wrong(script, env, At(run, i), At(run, i + 1), LoopError(env, View(At(run, i))))
  {
    assert Moment(run, i);
    MisplacedLoopParse(env, Read(At(run, i)), script[At(run, i).pos]);
    BeneathSame(At(run, i).st, At(run, i).st.ResetLoops());
  }

  lemma {:induction false} OnceLine(run: History, script: seq<Command>, env: Env, i: nat)
    requires Follows(run, script, env) && Ready(At(run, i)) && At(run, i).pos < |script|
    requires Runnable(script[At(run, i).pos])
    ensures View(At(run, i)).Ok()
    ensures Reached(script, At(run, i), At(run, i + 1), 1, Once(env, View(At(run, i)), script[At(run, i).pos]))
  {
    var s := At(run, i);
    ViewOk(s);
    if !s.st.CmdEnabled() {
      CommandSkipped(run, script, env, i);
    } else if script[s.pos] == [KwBreak] {
      BreakRuns(run, script, env, i);
    } else {
      CommandRuns(run, script, env, i);
    }
    BeneathSame(s.st, At(run, i + 1).st);
  }

  /** The same for words that the rest of a line is. */
  lemma {:induction false} OnceParsed(script: seq<Command>, env: Env, s: State, words: Command)
    requires Ready(s) && Runnable(words)
    ensures View(s).Ok()
    ensures Reached(script, s, Conclude(env, ParseCommand(env, s, words)), 0, Once(env, View(s), words))
  {
    ViewOk(s);
    NoKeyword(s, words);
    BeneathSame(s.st, ParseCommand(env, s, words).s.st);
  }

  /** The machine is about to run `p`. */
  ghost predicate Starts(run: History, script: seq<Command>, env: Env, p: Code, i: nat) {
    && Follows(run, script, env)
    && Ready(At(run, i)) && Commands(p)
    && CodeAt(script, At(run, i).pos, Lines(p))
  }

  lemma {:induction false} Chain(script: seq<Command>, s: State, m: State, t: State,
                                 len: nat, more: nat, q: Ending, r: Ending)
    requires s.st.Indexed() && Reached(script, s, m, len, q) && q.out == Normal
    requires Reached(script, m, t, more, r) && Sound(View(s), q) && Sound(q.c, r)
    ensures Reached(script, s, t, len + more, r)
  {
    if r.out == Normal { BeneathTrans(s.st, m.st, t.st); }
  }

  /** A keyword that is accepted, `u` being the state behind it, and what stands there. */
  lemma {:induction false} KeywordMet(run: History, script: seq<Command>, env: Env, i: nat,
                                      k: Word, o: Option<Command>, u: State)
    requires Follows(run, script, env) && Reading(script, At(run, i))
    requires script[At(run, i).pos] == [k] + Words(o) && MayFollow(o) && Ready(u)
    requires ParseCommand(env, Read(At(run, i)), [k]) == Saved(u, true)
    requires o.Some? ==> ParseCommand(env, Read(At(run, i)), [k] + o.value) == ParseCommand(env, u, o.value)
    ensures View(u).Ok()
    ensures Reached(script, u, At(run, i + 1), 0, Behind(env, View(u), o))
  {
    assert Moment(run, i);
    ViewOk(u);
    if o.Some? {
      OnceParsed(script, env, u, o.value);
    } else {
      assert [k] + Words(o) == [k];
      BeneathSame(u.st, u.st);
    }
  }

  /** An accepted `then` or `else`. */
  lemma {:induction false} TurnMet(run: History, script: seq<Command>, env: Env, i: nat,
                                   k: Word, o: Option<Command>)
    requires Follows(run, script, env) && Reading(script, At(run, i)) && !At(run, i).st.AwaitsLoopCondition()
    requires script[At(run, i).pos] == [k] + Words(o) && MayFollow(o)
    requires || (k.KwThen? && At(run, i).st.If().state == ItefIf)
             || (k.KwElse? && At(run, i).st.If().state == ItefThen)
    requires Ready(Turned(Read(At(run, i)), k))
    ensures View(Turned(Read(At(run, i)), k)).Ok()
    ensures Reached(script, Turned(Read(At(run, i)), k), At(run, i + 1), 0,
                    Behind(env, View(Turned(Read(At(run, i)), k)), o))
  {
    BehindThen(env, Read(At(run, i)), k, if o.Some? then o.value else [KwBreak]);
    KeywordMet(run, script, env, i, k, o, Turned(Read(At(run, i)), k));
  }

  /** An accepted `do`. */
  lemma {:induction false} DoMet(run: History, script: seq<Command>, env: Env, i: nat, o: Option<Command>)
    requires Follows(run, script, env) && Reading(script, At(run, i)) && At(run, i).st.AwaitsLoopCondition()
    requires script[At(run, i).pos] == [KwDo] + Words(o) && MayFollow(o)
    requires Ready(Begun(Read(At(run, i))))
    ensures View(Begun(Read(At(run, i)))).Ok()
    ensures Reached(script, Begun(Read(At(run, i))), At(run, i + 1), 0,
                    Behind(env, View(Begun(Read(At(run, i)))), o))
  {
    BehindDo(env, Read(At(run, i)), if o.Some? then o.value else [KwBreak]);
    KeywordMet(run, script, env, i, KwDo, o, Begun(Read(At(run, i))));
  }

  /** The state behind the `do` of a loop. */
  function Begun(s: State): State requires s.st.Ok() {
    s.(st := s.st.WithLoop(s.st.Loop().(state := LoopDo)))
  }

  // ------------------------------------------------------------- the parts of an if

  /** The header of an `if`, and the state behind its `then`. */
  lemma {:induction false} IfHeader(run: History, script: seq<Command>, env: Env, i: nat, inv: bool, c: Command)
    requires Follows(run, script, env) && Ready(At(run, i)) && At(run, i).pos < |script|
    requires script[At(run, i).pos] == IfLine(inv, c) && IsCommand(c)
    requires At(run, i).st.iendx + 1 < |At(run, i).st.ifs|
    ensures At(run, i + 1).st.Ok() && At(run, i + 1).st.If().state == ItefIf
    ensures !At(run, i + 1).stopped && !At(run, i + 1).st.AwaitsLoopCondition()
    ensures At(run, i + 1).pos == At(run, i).pos + 1 && View(At(run, i)).Ok()
    ensures
      var (s, u) := (At(run, i), Turned(Read(At(run, i + 1)), KwThen));
      Reached(script, s, u, 2, Ending(View(s).Opened(env, inv, c), Normal))
  {
    var s := At(run, i);
    ViewOk(s);
    if s.st.CmdEnabled() {
      IfRuns(run, script, env, i, inv, c);
    } else {
      IfSkipped(run, script, env, i, inv, c);
    }
    var u := Turned(Read(At(run, i + 1)), KwThen);
    assert u.st.ifs == View(s).Opened(env, inv, c).ifs;
    BeneathSame(s.st, u.st);
  }

  lemma {:induction false} IfOpened(run: History, script: seq<Command>, env: Env, i: nat,
                                    inv: bool, c: Command, o: Option<Command>)
    requires Follows(run, script, env) && Ready(At(run, i)) && At(run, i).pos + 1 < |script|
    requires script[At(run, i).pos] == IfLine(inv, c) && IsCommand(c) && MayFollow(o)
    requires script[At(run, i).pos + 1] == [KwThen] + Words(o)
    requires At(run, i).st.iendx + 1 < |At(run, i).st.ifs|
    ensures View(At(run, i)).Ok()
    ensures Reached(script, At(run, i), At(run, i + 2), 2, OpenIf(env, View(At(run, i)), inv, c, o))
  {
    IfHeader(run, script, env, i, inv, c);
    var (s, h) := (At(run, i), At(run, i + 1));
    var u := Turned(Read(h), KwThen);
    TurnMet(run, script, env, i + 1, KwThen, o);
    Chain(script, s, u, At(run, i + 2), 2, 0, Ending(View(u), Normal), Behind(env, View(u), o));
  }

  /** Two lines rejected alike, with all that stands on them. */
  lemma {:induction false} IfOverflows(run: History, script: seq<Command>, env: Env, i: nat,
                                       inv: bool, c: Command, o: Option<Command>)
    returns (j: nat)
    requires Follows(run, script, env) && Ready(At(run, i)) && At(run, i).pos + 1 < |script|
    requires script[At(run, i).pos] == IfLine(inv, c)
    requires script[At(run, i).pos + 1] == [KwThen] + Words(o)
    requires At(run, i).st.iendx + 1 >= |At(run, i).st.ifs|
    ensures j > i && Reached(script, At(run, i), At(run, j), 2, IfError(env, View(At(run, i))))
  {
    IfRejected(run, script, env, i);
    if !env.ignore { return i + 1; }
    IfRejected(run, script, env, i + 1);
    BeneathTrans(At(run, i).st, At(run, i + 1).st, At(run, i + 2).st);
    return i + 2;
  }

  lemma {:induction false} ElseMet(run: History, script: seq<Command>, env: Env, i: nat, o: Option<Command>)
    requires Follows(run, script, env) && Ready(At(run, i)) && At(run, i).pos < |script|
    requires script[At(run, i).pos] == [KwElse] + Words(o) && MayFollow(o)
    ensures View(At(run, i)).Ok()
    ensures Reached(script, At(run, i), At(run, i + 1), 1, Else(env, View(At(run, i)), o))
  {
    var s := At(run, i);
    ViewOk(s);
    if s.st.If().state == ItefThen {
      var u := Turned(Read(s), KwElse);
      BeneathSame(s.st, u.st);
      TurnMet(run, script, env, i, KwElse, o);
      Chain(script, s, u, At(run, i + 1), 1, 0, Ending(View(u), Normal), Behind(env, View(u), o));
    } else {
      IfRejected(run, script, env, i);
    }
  }

  lemma {:induction false} FiMet(run: History, script: seq<Command>, env: Env, i: nat)
    requires Follows(run, script, env) && Ready(At(run, i)) && At(run, i).pos < |script|
    requires script[At(run, i).pos] == [KwFi]
    ensures View(At(run, i)).Ok()
    ensures Reached(script, At(run, i), At(run, i + 1), 1, Fi(env, View(At(run, i))))
  {
    var s := At(run, i);
    ViewOk(s);
    if s.st.If().state == ItefNormal {
      IfRejected(run, script, env, i);
    } else {
      FiLine(run, script, env, i);
      BeneathSame(s.st, At(run, i + 1).st);
    }
  }

  // ----------------------------------------------------------- the parts of a loop

  /** The loop just entered was opened at `s`. */
  ghost predicate Inside(s: State, t: State) {
    && s.st.Indexed() && t.st.Indexed()
    && (t.st.lpndx > 0 ==>
          && t.st.lpndx == s.st.lpndx + 1
          && t.st.Loop().top == s.pos && SamePrefix(s.st.loops, t.st.loops, t.st.lpndx))
  }

  lemma {:induction false} LoopHeader(run: History, script: seq<Command>, env: Env, i: nat, u: bool, c: Command)
    requires Follows(run, script, env) && Ready(At(run, i)) && At(run, i).pos < |script|
    requires script[At(run, i).pos] == LoopLine(u, c) && IsCommand(c)
    requires At(run, i).st.lpndx + 1 < |At(run, i).st.loops|
    ensures View(At(run, i)).Ok()
    ensures At(run, i + 1).st.Ok() && !At(run, i + 1).stopped && At(run, i + 1).st.AwaitsLoopCondition()
    ensures At(run, i + 1).pos == At(run, i).pos + 1
    ensures
      var (s, b) := (At(run, i), Begun(Read(At(run, i + 1))));
      Ready(b) && b.pos == s.pos + 2 && View(b) == View(s).Entered(env, u, c) && Inside(s, b)
  {
    var s := At(run, i);
    ViewOk(s);
    if s.st.ItefEnabled() {
      HeaderRuns(run, script, env, i, u, c);
    } else {
      HeaderSkipped(run, script, env, i, u, c);
    }
    PrefixSlots(s.st.loops, Begun(Read(At(run, i + 1))).st.loops, s.st.lpndx + 1);
  }

  /** The body of the loop that was opened at `s` is about to begin at `t`, or the script has stopped. */
  ghost predicate Enters(script: seq<Command>, s: State, t: State, r: Ending) {
    match r.out
    case Normal => Ready(t) && t.pos == s.pos + 2 && View(t) == r.c && Inside(s, t)
    case _ => Reached(script, s, t, 2, r)
  }

  lemma {:induction false} LoopOpened(run: History, script: seq<Command>, env: Env, i: nat,
                                      u: bool, c: Command, o: Option<Command>)
    requires Follows(run, script, env) && Ready(At(run, i)) && At(run, i).pos + 1 < |script|
    requires script[At(run, i).pos] == LoopLine(u, c) && IsCommand(c) && MayFollow(o)
    requires script[At(run, i).pos + 1] == [KwDo] + Words(o)
    requires At(run, i).st.lpndx + 1 < |At(run, i).st.loops|
    ensures View(At(run, i)).Ok()
    ensures Enters(script, At(run, i), At(run, i + 2), OpenLoop(env, View(At(run, i)), u, c, o))
  {
    LoopHeader(run, script, env, i, u, c);
    var h := At(run, i + 1);
    var b := Begun(Read(h));
    DoMet(run, script, env, i + 1, o);
    if Behind(env, View(b), o).out == Normal { InsideKept(At(run, i), b, At(run, i + 2)); }
  }

  /** A loop whose first two lines are rejected, with all that stands on them. */
  lemma {:induction false} LoopOverflows(run: History, script: seq<Command>, env: Env, i: nat,
                                         u: bool, c: Command, o: Option<Command>)
    returns (j: nat)
    requires Follows(run, script, env) && Ready(At(run, i)) && At(run, i).pos + 1 < |script|
    requires script[At(run, i).pos] == LoopLine(u, c)
    requires script[At(run, i).pos + 1] == [KwDo] + Words(o)
    requires At(run, i).st.lpndx + 1 >= |At(run, i).st.loops|
    ensures j > i && Enters(script, At(run, i), At(run, j), LoopError(env, View(At(run, i))))
  {
    LoopRejected(run, script, env, i);
    if !env.ignore { return i + 1; }
    LoopRejected(run, script, env, i + 1);
    return i + 2;
  }

  lemma {:induction false} InsideKept(s: State, m: State, t: State)
    requires Inside(s, m) && Beneath(m.st, t.st) && (t.st.lpndx == m.st.lpndx || t.st.lpndx == 0)
    ensures Inside(s, t)
  {
    if t.st.lpndx > 0 {
      PrefixSlots(s.st.loops, m.st.loops, m.st.lpndx);
      PrefixSlots(m.st.loops, t.st.loops, m.st.lpndx);
      PrefixSlots(s.st.loops, t.st.loops, m.st.lpndx);
    }
  }

  /** `done` goes back to the header of its own loop, or on to the next line. */
  lemma {:induction false} DoneMet(run: History, script: seq<Command>, env: Env, s: State, i: nat)
    requires Follows(run, script, env) && Ready(At(run, i)) && At(run, i).pos < |script|
    requires script[At(run, i).pos] == [KwDone]
    requires Ready(s) && Inside(s, At(run, i)) && At(run, i).st.lpndx > 0
    ensures
      var (d, t) := (At(run, i), At(run, i + 1));
      && Ready(t) && View(t) == View(d).Left(View(s)) && Beneath(s.st, t.st)
      && t.pos == (if View(d).on then s.pos else d.pos + 1)
  {
    var d := At(run, i);
    DoneLine(run, script, env, i);
    PrefixSlots(s.st.loops, d.st.loops, d.st.lpndx);
    BeneathSame(s.st, At(run, i + 1).st);
  }

  // --------------------------------------------------------------- whole programs

  /** A further round of a loop that started at `s`. */
  lemma {:induction false} Rounded(script: seq<Command>, s: State, m: State, t: State, len: nat, r: Ending)
    requires Ready(s) && Ready(m) && m.pos == s.pos && m.st.lpndx == s.st.lpndx && Beneath(s.st, m.st)
    requires Reached(script, m, t, len, r) && Sound(View(m), r)
    ensures Reached(script, s, t, len, r)
  {
    if r.out == Normal { BeneathTrans(s.st, m.st, t.st); }
  }

  /** The machine got to `t` at moment `j`, as `r` says, having read `fuel` lines if that ran out. */
  ghost predicate Arrives(run: History, script: seq<Command>, i: nat, j: nat, len: nat, r: Ending, fuel: nat) {
    && j >= i && Reached(script, At(run, i), At(run, j), len, r)
    && (r.out == OutOfFuel ==> j >= i + fuel)
  }

  /** The machine does what the structure of the program says. */
  lemma {:induction false} ActsAlong(run: History, script: seq<Command>, env: Env, p: Code, i: nat, fuel: nat)
    returns (j: nat)
    requires Starts(run, script, env, p, i)
    ensures View(At(run, i)).Ok()
    ensures Arrives(run, script, i, j, |Lines(p)|, Act(env, p, View(At(run, i)), fuel), fuel)
    decreases fuel, p, 5
  {
    ViewOk(At(run, i));
    match p
    case Nothing =>
      j := i;
      BeneathSame(At(run, i).st, At(run, i).st);
    case Line(words) =>
      CodeLine(script, At(run, i).pos, words);
      OnceLine(run, script, env, i);
      j := i + 1;
    case Both(_, _) => j := ActsSeq(run, script, env, p, i, fuel);
    case Branch(_, _, _, _, _, _, _) => j := ActsIf(run, script, env, p, i, fuel);
    case Cycle(_, _, _, _) => j := ActsLoop(run, script, env, p, i, fuel);
  }

  lemma {:induction false} ActsSeq(run: History, script: seq<Command>, env: Env, p: Code, i: nat, fuel: nat)
    returns (j: nat)
    requires Starts(run, script, env, p, i) && p.Both? && View(At(run, i)).Ok()
    ensures Arrives(run, script, i, j, |Lines(p)|, Act(env, p, View(At(run, i)), fuel), fuel)
    decreases fuel, p, 4
  {
    CodeSplit(script, At(run, i).pos, Lines(p.first), Lines(p.second));
    j := ActsAlong(run, script, env, p.first, i, fuel);
    var q := Act(env, p.first, View(At(run, i)), fuel);
    if q.out == Normal {
      var m := j;
      j := ActsAlong(run, script, env, p.second, m, fuel);
      Chain(script, At(run, i), At(run, m), At(run, j), |Lines(p.first)|, |Lines(p.second)|, q,
            Act(env, p.second, q.c, fuel));
    }
  }

  /** The header of an `if` and its `then`. */
  lemma {:induction false} ActsOpenIf(run: History, script: seq<Command>, env: Env, p: Code, i: nat)
    returns (j: nat)
    requires Starts(run, script, env, p, i) && p.Branch? && View(At(run, i)).Ok()
    requires BranchAt(script, At(run, i).pos, p)
    ensures j > i && Reached(script, At(run, i), At(run, j), 2,
                             OpenIf(env, View(At(run, i)), p.inverted, p.cond, p.thenCmd))
  {
    if At(run, i).st.iendx + 1 < |At(run, i).st.ifs| {
      IfOpened(run, script, env, i, p.inverted, p.cond, p.thenCmd);
      j := i + 2;
    } else {
      j := IfOverflows(run, script, env, i, p.inverted, p.cond, p.thenCmd);
    }
  }

  lemma {:induction false} ActsIf(run: History, script: seq<Command>, env: Env, p: Code, i: nat, fuel: nat)
    returns (j: nat)
    requires Starts(run, script, env, p, i) && p.Branch? && View(At(run, i)).Ok()
    ensures Arrives(run, script, i, j, |Lines(p)|, Act(env, p, View(At(run, i)), fuel), fuel)
    decreases fuel, p, 4
  {
    var pos := At(run, i).pos;
    BranchLayout(script, pos, p);
    j := ActsOpenIf(run, script, env, p, i);
    var q := OpenIf(env, View(At(run, i)), p.inverted, p.cond, p.thenCmd);
    if q.out == Normal {
      var k := j;
      j := ActsAfterThen(run, script, env, p, k, pos, fuel);
      Chain(script, At(run, i), At(run, k), At(run, j), 2, |Lines(p)| - 2, q, AfterThen(env, p, q.c, fuel));
    }
  }

  /** The machine is at line `pos` of the script. */
  ghost predicate ReadyAt(run: History, script: seq<Command>, env: Env, i: nat, pos: nat) {
    Follows(run, script, env) && Ready(At(run, i)) && At(run, i).pos == pos && View(At(run, i)).Ok()
  }

  lemma {:induction false} ActsAfterThen(run: History, script: seq<Command>, env: Env, p: Code, i: nat, pos: nat,
                                         fuel: nat)
    returns (j: nat)
    requires p.Branch? && Commands(p) && BranchAt(script, pos, p) && ReadyAt(run, script, env, i, pos + 2)
    ensures Arrives(run, script, i, j, FiLineOf(p, 0) - 1, AfterThen(env, p, View(At(run, i)), fuel), fuel)
    decreases fuel, p, 2
  {
    j := ActsAlong(run, script, env, p.thn, i, fuel);
    var q := Act(env, p.thn, View(At(run, i)), fuel);
    if q.out == Normal {
      var k := j;
      j := ActsBeforeFi(run, script, env, p, k, pos, fuel);
      Chain(script, At(run, i), At(run, k), At(run, j), |Lines(p.thn)|, FiLineOf(p, 0) - 1 - |Lines(p.thn)|, q,
            BeforeFi(env, p, q.c, fuel));
    }
  }

  lemma {:induction false} ActsBeforeFi(run: History, script: seq<Command>, env: Env, p: Code, i: nat, pos: nat,
                                        fuel: nat)
    returns (j: nat)
    requires p.Branch? && Commands(p) && BranchAt(script, pos, p)
    requires ReadyAt(run, script, env, i, pos + 2 + |Lines(p.thn)|)
    ensures Arrives(run, script, i, j, FiLineOf(p, 0) - 1 - |Lines(p.thn)|,
                    BeforeFi(env, p, View(At(run, i)), fuel), fuel)
    decreases fuel, p, 1
  {
    j := i + 1;
    if !p.hasElse {
      FiMet(run, script, env, i);
    } else {
      ElseMet(run, script, env, i, p.elseCmd);
      var q := Else(env, View(At(run, i)), p.elseCmd);
      if q.out == Normal {
        j := ActsAfterElse(run, script, env, p, i + 1, pos, fuel);
        Chain(script, At(run, i), At(run, i + 1), At(run, j), 1, |Lines(p.els)| + 1, q,
              AfterElse(env, p, q.c, fuel));
      }
    }
  }

  lemma {:induction false} ActsAfterElse(run: History, script: seq<Command>, env: Env, p: Code, i: nat, pos: nat,
                                         fuel: nat)
    returns (j: nat)
    requires p.Branch? && p.hasElse && Commands(p) && BranchAt(script, pos, p)
    requires ReadyAt(run, script, env, i, pos + 3 + |Lines(p.thn)|)
    ensures Arrives(run, script, i, j, |Lines(p.els)| + 1, AfterElse(env, p, View(At(run, i)), fuel), fuel)
    decreases fuel, p, 0
  {
    j := ActsAlong(run, script, env, p.els, i, fuel);
    var q := Act(env, p.els, View(At(run, i)), fuel);
    if q.out == Normal {
      FiMet(run, script, env, j);
      Chain(script, At(run, i), At(run, j), At(run, j + 1), |Lines(p.els)|, 1, q, Fi(env, q.c));
      j := j + 1;
    }
  }

  /** The header of a loop and its `do`. */
  lemma {:induction false} ActsOpenLoop(run: History, script: seq<Command>, env: Env, p: Code, i: nat)
    returns (j: nat)
    requires Starts(run, script, env, p, i) && p.Cycle? && View(At(run, i)).Ok()
    requires CycleAt(script, At(run, i).pos, p)
    ensures j > i && Enters(script, At(run, i), At(run, j),
                            OpenLoop(env, View(At(run, i)), p.until, p.cond, p.doCmd))
  {
    if At(run, i).st.lpndx + 1 < |At(run, i).st.loops| {
      LoopOpened(run, script, env, i, p.until, p.cond, p.doCmd);
      j := i + 2;
    } else {
      j := LoopOverflows(run, script, env, i, p.until, p.cond, p.doCmd);
    }
  }

  lemma {:induction false} ActsLoop(run: History, script: seq<Command>, env: Env, p: Code, i: nat, fuel: nat)
    returns (j: nat)
    requires Starts(run, script, env, p, i) && p.Cycle? && View(At(run, i)).Ok()
    ensures Arrives(run, script, i, j, |Lines(p)|, Act(env, p, View(At(run, i)), fuel), fuel)
    decreases fuel, p, 4
  {
    CycleLayout(script, At(run, i).pos, p);
    if fuel == 0 { return i; }
    j := ActsOpenLoop(run, script, env, p, i);
    if OpenLoop(env, View(At(run, i)), p.until, p.cond, p.doCmd).out == Normal {
      ViewOk(At(run, j));
      j := ActsAfterDo(run, script, env, p, i, j, fuel);
    }
  }

  /** The machine is in a loop that started at moment `i`, before the line `offset` lines below its header. */
  ghost predicate InLoop(run: History, script: seq<Command>, env: Env, p: Code, i: nat, d: nat, offset: nat) {
    && Starts(run, script, env, p, i) && p.Cycle? && View(At(run, i)).Ok()
    && CycleAt(script, At(run, i).pos, p) && |Lines(p)| == |Lines(p.body)| + 3
    && d > i && ReadyAt(run, script, env, d, At(run, i).pos + offset)
    && Inside(At(run, i), At(run, d)) && |At(run, d).st.ifs| == |At(run, i).st.ifs|
  }

  lemma {:induction false} ActsAfterDo(run: History, script: seq<Command>, env: Env, p: Code, i: nat, d: nat, fuel: nat)
    returns (j: nat)
    requires InLoop(run, script, env, p, i, d, 2) && fuel > 0
    ensures Arrives(run, script, i, j, |Lines(p)|, AfterDo(env, p, View(At(run, i)), View(At(run, d)), fuel), fuel)
    decreases fuel, p, 1
  {
    j := ActsAlong(run, script, env, p.body, d, fuel - 1);
    if Act(env, p.body, View(At(run, d)), fuel - 1).out == Normal {
      InsideKept(At(run, i), At(run, d), At(run, j));
      j := ActsDone(run, script, env, p, i, j, fuel);
    }
  }

  lemma {:induction false} ActsDone(run: History, script: seq<Command>, env: Env, p: Code, i: nat, d: nat, fuel: nat)
    returns (j: nat)
    requires p.Cycle? && InLoop(run, script, env, p, i, d, 2 + |Lines(p.body)|) && fuel > 0
    ensures Arrives(run, script, i, j, |Lines(p)|, Done(env, p, View(At(run, i)), View(At(run, d)), fuel), fuel)
    decreases fuel, p, 0
  {
    j := d + 1;
    if At(run, d).st.lpndx == 0 {
      LoopRejected(run, script, env, d);
    } else {
      DoneMet(run, script, env, At(run, i), d);
      if View(At(run, d)).on {
        j := ActsAlong(run, script, env, p, d + 1, fuel - 1);
        Rounded(script, At(run, i), At(run, d + 1), At(run, j), |Lines(p)|,
                Act(env, p, View(At(run, d + 1)), fuel - 1));
      }
    }
  }

  // ------------------------------------------------------------------- main results

  /** A script is opened and no slot of the if stack was left waiting for a condition. */
  ghost predicate Fresh(s: State) { Opened(s) && Settled(s.st.ifs) }

  /** The machine is done with the program, or stopped in it, as `r` says. */
  ghost predicate Ended(p: Code, t: State, r: Ending) {
    && t.trace == r.c.trace && t.fail == r.c.fail
    && t.stopped == (r.out == Stopped)
    && (r.out == Normal ==> t.pos == |Lines(p)| && t.st.lpndx == 0 && t.st.ifs == r.c.ifs && t.st.iendx == r.c.top)
  }

  /**
   For every structured program: the flat machine, with its loop stack and its seeking in
   the script, executes the same commands in the same order with the same exit status as
   `Act`, and ends with the same if stack and no loop open.  Where `Act` needs more than
   `fuel` loop tests the machine is still running after `fuel` lines.
   */
  lemma {:induction false} MachineFollowsStructure(p: Code, env: Env, s: State, fuel: nat) returns (n: nat)
    requires Fresh(s) && Commands(p)
    ensures View(s).Ok()
    ensures
      var r := Act(env, p, View(s), fuel);
      var t := Run(Lines(p), env, s, n);
      if r.out == OutOfFuel then n >= fuel && !Halted(Lines(p), t)
      else Halted(Lines(p), t) && Ended(p, t, r)
  {
    var script := Lines(p);
    var run := HistoryOf(script, env, s);
    HistoryFollows(script, env, s);
    HistoryAt(script, env, s, 0);
    assert CodeAt(script, 0, Lines(p));
    n := ActsAlong(run, script, env, p, 0, fuel);
    HistoryAt(script, env, s, n);
  }

  /** Every run of the machine that ends is one of `Act`. */
  lemma {:induction false} StructureFollowsMachine(p: Code, env: Env, s: State, n: nat)
    requires Fresh(s) && Commands(p) && Halted(Lines(p), Run(Lines(p), env, s, n))
    ensures View(s).Ok()
    ensures
      var r := Act(env, p, View(s), n + 1);
      r.out != OutOfFuel && Ended(p, Run(Lines(p), env, s, n), r)
  {
    var m := MachineFollowsStructure(p, env, s, n + 1);
    if m <= n {
      if Halted(Lines(p), Run(Lines(p), env, s, m)) { HaltedStays(Lines(p), env, s, m, n); }
    } else {
      HaltedStays(Lines(p), env, s, n, m);
    }
  }

  /** The machine ends exactly when the recursion does. */
  lemma {:induction false} EndsAlike(p: Code, env: Env, s: State)
    requires Fresh(s) && Commands(p) && View(s).Ok()
    ensures (exists n: nat :: Halted(Lines(p), Run(Lines(p), env, s, n)))
            <==> (exists fuel: nat :: Act(env, p, View(s), fuel).out != OutOfFuel)
  {
    if n: nat :| Halted(Lines(p), Run(Lines(p), env, s, n)) {
      StructureFollowsMachine(p, env, s, n);
    }
    if fuel: nat :| Act(env, p, View(s), fuel).out != OutOfFuel {
      var n := MachineFollowsStructure(p, env, s, fuel);
    }
  }

  /**
   On the programs whose breaks NSH can carry out, `Act` and `Exec` run the same commands
   with the same exit status and the same outcome, and both leave the if stack empty.
   */
  lemma {:induction false} ActIsExec(p: Prog, env: Env, s: State, fuel: nat, more: nat)
    requires Fresh(s) && Supported(p, |s.st.ifs|) && View(s).Ok()
    requires Act(env, Spread(p), View(s), fuel).out != OutOfFuel
    requires Exec(env, p, s.trace, s.fail, false, more).out != OutOfFuel
    ensures
      var (r, x) := (Act(env, Spread(p), View(s), fuel), Exec(env, p, s.trace, s.fail, false, more));
      && r.c.trace == x.trace && r.c.fail == x.fail
      && (r.out == Stopped <==> x.out == Stopped)
      && (r.out == x.out == Normal ==> r.c.top == 0)
  {
    SpreadCommands(p, |s.st.ifs|, 0, 0);
    SpreadLines(p);
    var n := MachineFollowsStructure(Spread(p), env, s, fuel);
    var m := MachineFollowsSemantics(p, env, s, more);
    if n <= m {
      HaltedStays(Flat(p), env, s, n, m);
    } else {
      HaltedStays(Flat(p), env, s, m, n);
    }
  }

  // --------------------------------------------------------------------- on one line or two

  lemma {:induction false} BothIs(env: Env, words: Command, p: Code, c: Config, fuel: nat)
    requires c.Ok()
    ensures
      var r := Once(env, c, words);
      Act(env, Both(Line(words), p), c, fuel) == if r.out == Normal then Act(env, p, r.c, fuel) else r
  {
    assert Act(env, Line(words), c, fuel) == Once(env, c, words);
  }

  /** A loop that fits does the same with its first command behind the `do` or on the next line. */
  lemma {:induction false} DoOnSameLine(env: Env, p: Code, words: Command, c: Config, fuel: nat)
    requires p.Cycle? && p.doCmd == Some(words) && c.Ok() && c.loops + 1 < |c.ifs|
    ensures Act(env, p, c, fuel) == Act(env, p.(doCmd := None, body := Both(Line(words), p.body)), c, fuel)
    decreases fuel
  {
    var q := p.(doCmd := None, body := Both(Line(words), p.body));
    if fuel > 0 {
      var o := c.Entered(env, p.until, p.cond);
      var r := Once(env, o, words);
      BothIs(env, words, p.body, o, fuel - 1);
      assert Act(env, q, c, fuel) == AfterDo(env, q, c, o, fuel);
      if r.out == Normal {
        assert Act(env, p, c, fuel) == AfterDo(env, p, c, r.c, fuel);
        var d := Act(env, p.body, r.c, fuel - 1);
        if d.out == Normal {
          if d.c.loops > 0 && d.c.on { DoOnSameLine(env, p, words, d.c.Left(c), fuel - 1); }
          assert Done(env, p, c, d.c, fuel) == Done(env, q, c, d.c, fuel);
        }
      }
    }
  }

  /** An `if` that fits does the same with its first command behind the `then` or on the next line. */
  lemma {:induction false} ThenOnSameLine(env: Env, p: Code, words: Command, c: Config, fuel: nat)
    requires p.Branch? && p.thenCmd == Some(words) && c.Ok() && c.top + 1 < |c.ifs|
    ensures Act(env, p, c, fuel) == Act(env, p.(thenCmd := None, thn := Both(Line(words), p.thn)), c, fuel)
  {
    var q := p.(thenCmd := None, thn := Both(Line(words), p.thn));
    var o := c.Opened(env, p.inverted, p.cond);
    var r := Once(env, o, words);
    BothIs(env, words, p.thn, o, fuel);
    assert Act(env, q, c, fuel) == AfterThen(env, q, o, fuel);
    if r.out == Normal {
      assert Act(env, p, c, fuel) == AfterThen(env, p, r.c, fuel);
      var d := Act(env, p.thn, r.c, fuel);
      if d.out == Normal { SameBeforeFi(env, p, q, d.c, fuel); }
    }
  }

  lemma {:induction false} SameBeforeFi(env: Env, p: Code, q: Code, c: Config, fuel: nat)
    requires p.Branch? && q.Branch? && c.Ok()
    requires p.hasElse == q.hasElse && p.elseCmd == q.elseCmd && p.els == q.els
    ensures BeforeFi(env, p, c, fuel) == BeforeFi(env, q, c, fuel)
  {}

  /**
   The same for `else`, where the `if` on top is in its `then` branch.  Where it is not, the
   line is an error: a command on it does not run, and one on the next line may.
   */
  lemma {:induction false} ElseOnSameLine(env: Env, p: Code, words: Command, c: Config, fuel: nat)
    requires p.Branch? && p.hasElse && p.elseCmd == Some(words) && c.Ok() && c.ifs[c.top].state == ItefThen
    ensures BeforeFi(env, p, c, fuel)
         == BeforeFi(env, p.(elseCmd := None, els := Both(Line(words), p.els)), c, fuel)
  {
    var q := p.(elseCmd := None, els := Both(Line(words), p.els));
    var o := c.(ifs := c.ifs[c.top := c.ifs[c.top].(state := ItefElse)]);
    assert Else(env, c, None) == Ending(o, Normal);
    var r := Once(env, o, words);
    assert Act(env, Line(words), o, fuel) == r;
    assert Act(env, q.els, o, fuel) == if r.out == Normal then Act(env, p.els, r.c, fuel) else r;
  }
}
