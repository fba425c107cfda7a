/**
 Code in a branch that is not taken: the flat machine passes over it without any effect.
 */
module NshSkipping {
  import opened NshControl
  import opened NshProgram
  import opened NshLines

  // ------------------------------------------------------ comparing the stacks

  /** The first `n` elements are the same. */
  predicate SamePrefix<T(==)>(x: seq<T>, y: seq<T>, n: nat)
    requires n <= |x| && n <= |y|
  {
    n == 0 || (x[n - 1] == y[n - 1] && SamePrefix(x, y, n - 1))
  }

  lemma {:induction false} PrefixSlots<T>(x: seq<T>, y: seq<T>, n: nat)
    requires n <= |x| && n <= |y|
    ensures SamePrefix(x, y, n) <==> forall k :: 0 <= k < n ==> x[k] == y[k]
  {
    if n > 0 { PrefixSlots(x, y, n - 1); }
  }

  /** The live parts of the two stacks are the same: slots above the tops may differ. */
  ghost predicate Same(a: Stacks, b: Stacks) {
    && a.Indexed() && b.Indexed()
    && a.lpndx == b.lpndx && a.iendx == b.iendx
    && |a.loops| == |b.loops|
    && SamePrefix(a.loops, b.loops, a.lpndx + 1)
    && SamePrefix(a.ifs, b.ifs, a.iendx + 1)
  }

  lemma {:induction false} SameSlots(a: Stacks, b: Stacks)
    requires a.Indexed() && b.Indexed() && |a.loops| == |b.loops|
    requires a.lpndx == b.lpndx && a.iendx == b.iendx
    ensures Same(a, b) <==>
            && (forall k :: 0 <= k <= a.lpndx ==> a.loops[k] == b.loops[k])
            && (forall k :: 0 <= k <= a.iendx ==> a.ifs[k] == b.ifs[k])
  {
    PrefixSlots(a.loops, b.loops, a.lpndx + 1);
    PrefixSlots(a.ifs, b.ifs, a.iendx + 1);
  }

  lemma {:induction false} SameRefl(a: Stacks)
    requires a.Indexed()
    ensures Same(a, a)
  {
    SameSlots(a, a);
  }

  lemma {:induction false} SameTrans(a: Stacks, b: Stacks, c: Stacks)
    requires Same(a, b) && Same(b, c)
    ensures Same(a, c)
  {
    SameSlots(a, b);
    SameSlots(b, c);
    SameSlots(a, c);
  }

  lemma {:induction false} IfReplaced(a: Stacks, d: Stacks, e: IfEntry, e': IfEntry)
    requires a.Indexed() && a.iendx + 1 < |a.ifs| && Same(a.PushIf(e), d)
    ensures Same(a.PushIf(e'), d.WithIf(e'))
  {
    SameSlots(a.PushIf(e), d);
    SameSlots(a.PushIf(e'), d.WithIf(e'));
  }

  lemma {:induction false} IfClosed(a: Stacks, d: Stacks, e: IfEntry)
    requires a.Indexed() && a.iendx + 1 < |a.ifs| && Same(a.PushIf(e), d)
    ensures Same(a, d.(iendx := d.iendx - 1))
  {
    SameSlots(a.PushIf(e), d);
    SameSlots(a, d.(iendx := d.iendx - 1));
  }

  lemma {:induction false} LoopReplaced(a: Stacks, d: Stacks, e: LoopEntry, e': LoopEntry)
    requires a.Indexed() && a.lpndx + 1 < |a.loops| && Same(a.PushLoop(e), d)
    ensures Same(a.PushLoop(e'), d.WithLoop(e'))
  {
    SameSlots(a.PushLoop(e), d);
    SameSlots(a.PushLoop(e'), d.WithLoop(e'));
  }

  lemma {:induction false} LoopClosed(a: Stacks, d: Stacks, e: LoopEntry)
    requires a.Indexed() && a.lpndx + 1 < |a.loops| && Same(a.PushLoop(e), d)
    ensures Same(a, d.PopLoop())
  {
    SameSlots(a.PushLoop(e), d);
    SameSlots(a, d.PopLoop());
  }

  // ------------------------------------------------------------ code in a script

  ghost predicate CodeAt(script: seq<Command>, pos: nat, code: seq<Command>) {
    pos + |code| <= |script| && script[pos..pos + |code|] == code
  }

  lemma {:induction false} CodeSplit(script: seq<Command>, pos: nat, a: seq<Command>, b: seq<Command>)
    requires CodeAt(script, pos, a + b)
    ensures CodeAt(script, pos, a) && CodeAt(script, pos + |a|, b)
  {
    assert script[pos..pos + |a|] == script[pos..pos + |a + b|][..|a|];
    assert script[pos + |a|..pos + |a| + |b|] == script[pos..pos + |a + b|][|a|..];
  }

  lemma {:induction false} CodeLine(script: seq<Command>, pos: nat, line: Command)
    requires CodeAt(script, pos, [line])
    ensures pos < |script| && script[pos] == line
  {
    assert script[pos] == script[pos..pos + 1][0];
  }

  lemma {:induction false} BracketLayout(script: seq<Command>, pos: nat,
                                         head: Command, second: Command, body: seq<Command>, last: Command)
    requires CodeAt(script, pos, Bracket(head, second, body, last))
    ensures pos + 2 + |body| < |script|
    ensures script[pos] == head && script[pos + 1] == second && script[pos + 2 + |body|] == last
    ensures CodeAt(script, pos + 2, body)
  {
    CodeSplit(script, pos, [head] + [second] + body, [last]);
    CodeSplit(script, pos, [head] + [second], body);
    CodeSplit(script, pos, [head], [second]);
    CodeLine(script, pos, head);
    CodeLine(script, pos + 1, second);
    CodeLine(script, pos + 2 + |body|, last);
  }

  /** The line of the `fi` that closes an `if` starting at `pos`. */
  function FiPos(p: Prog, pos: nat): nat requires p.If? {
    pos + 2 + |Flat(p.thn)| + (if p.hasElse then 1 + |Flat(p.els)| else 0)
  }

  /** The lines of an `if` stand at `pos`. */
  ghost predicate IfAt(script: seq<Command>, pos: nat, p: Prog) requires p.If? {
    && FiPos(p, pos) < |script|
    && script[pos] == IfLine(p.inverted, p.cond) && script[pos + 1] == [KwThen]
    && CodeAt(script, pos + 2, Flat(p.thn))
    && (p.hasElse ==>
          var q := pos + 2 + |Flat(p.thn)|;
          script[q] == [KwElse] && CodeAt(script, q + 1, Flat(p.els)))
    && script[FiPos(p, pos)] == [KwFi]
  }

  lemma {:induction false} ElseLayout(script: seq<Command>, pos: nat, line: Command, e: seq<Command>)
    requires CodeAt(script, pos, [line] + e)
    ensures pos < |script| && script[pos] == line && CodeAt(script, pos + 1, e)
  {
    CodeSplit(script, pos, [line], e);
    CodeLine(script, pos, line);
  }

  lemma {:induction false} IfLines(script: seq<Command>, pos: nat, head: Command, second: Command,
                                   t: seq<Command>, hasElse: bool, line: Command, e: seq<Command>)
    requires CodeAt(script, pos, Bracket(head, second, t + if hasElse then [line] + e else [], [KwFi]))
    ensures
      var q := pos + 2 + |t|;
      var fi := q + if hasElse then 1 + |e| else 0;
      && fi < |script| && script[pos] == head && script[pos + 1] == second && script[fi] == [KwFi]
      && CodeAt(script, pos + 2, t)
      && (hasElse ==> script[q] == line && CodeAt(script, q + 1, e))
  {
    var rest := if hasElse then [line] + e else [];
    BracketLayout(script, pos, head, second, t + rest, [KwFi]);
    CodeSplit(script, pos + 2, t, rest);
    if hasElse { ElseLayout(script, pos + 2 + |t|, line, e); }
  }

  lemma {:induction false} IfLayout(script: seq<Command>, pos: nat, p: Prog)
    requires p.If? && CodeAt(script, pos, Flat(p))
    ensures IfAt(script, pos, p) && pos + |Flat(p)| == FiPos(p, pos) + 1
  {
    IfLines(script, pos, IfLine(p.inverted, p.cond), [KwThen], Flat(p.thn), p.hasElse, [KwElse], Flat(p.els));
  }

  /** The lines of a loop stand at `pos`. */
  ghost predicate LoopAt(script: seq<Command>, pos: nat, p: Prog) requires p.Loop? {
    && pos + 2 + |Flat(p.body)| < |script|
    && script[pos] == LoopLine(p.until, p.cond) && script[pos + 1] == [KwDo]
    && CodeAt(script, pos + 2, Flat(p.body))
    && script[pos + 2 + |Flat(p.body)|] == [KwDone]
  }

  lemma {:induction false} LoopLayout(script: seq<Command>, pos: nat, p: Prog)
    requires p.Loop? && CodeAt(script, pos, Flat(p))
    ensures LoopAt(script, pos, p) && |Flat(p)| == |Flat(p.body)| + 3
  {
    BracketLayout(script, pos, LoopLine(p.until, p.cond), [KwDo], Flat(p.body), [KwDone]);
  }

  // --------------------------------------------------------------- disabled code

  /** A situation in which a program may start: no condition is awaited. */
  ghost predicate Idle(s: State) {
    && s.st.Ok() && !s.stopped && s.seekable
    && !s.st.AwaitsLoopCondition()
    && s.st.If().state != ItefIf
  }

  /** `len` lines went by from `s` to `t` and had no effect but on the stacks. */
  ghost predicate Quiet(s: State, t: State, len: nat) {
    && Idle(t)
    && t.pos == s.pos + len
    && t.trace == s.trace && t.fail == s.fail
  }

  /** The machine is about to run `p` and there is room for its nesting. */
  ghost predicate Enters(run: History, script: seq<Command>, env: Env, p: Prog, i: nat) {
    && Follows(run, script, env)
    && Idle(At(run, i))
    && Fits(p, |At(run, i).st.ifs|, At(run, i).st.lpndx, At(run, i).st.iendx)
    && CodeAt(script, At(run, i).pos, Flat(p))
  }

  /** The same, inside an `if` that was opened on the stacks `a` and whose entry is now `e`. */
  ghost predicate EntersBranch(run: History, script: seq<Command>, env: Env, p: Prog, a: Stacks, e: IfEntry, i: nat) {
    && Enters(run, script, env, p, i)
    && Under(a, e, At(run, i))
  }

  /** The machine is inside an `if` that was opened on the stacks `a` and whose entry is now `e`. */
  ghost predicate Under(a: Stacks, e: IfEntry, s: State) {
    a.Indexed() && a.iendx + 1 < |a.ifs| && Same(a.PushIf(e), s.st)
  }

  /**
   Skipping is total: in a branch that is not taken every program of whatever
   shape, with any loops and breaks, runs nothing, never jumps, keeps the exit
   status and restores both stacks.
   */
  lemma {:induction false} DeadCode(run: History, script: seq<Command>, env: Env, p: Prog, i: nat)
    requires Enters(run, script, env, p, i) && !At(run, i).st.ItefEnabled()
    ensures Quiet(At(run, i), At(run, i + |Flat(p)|), |Flat(p)|)
    ensures Same(At(run, i).st, At(run, i + |Flat(p)|).st)
    decreases p, 3
  {
    match p
    case Empty => SameRefl(At(run, i).st);
    case Simple(argv) => DeadLine(run, script, env, argv, i);
    case Break => DeadLine(run, script, env, [KwBreak], i);
    case Seq(a, b) => DeadSeq(run, script, env, a, b, i);
    case _ => DeadBlock(run, script, env, p, i);
  }

  lemma {:induction false} DeadBlock(run: History, script: seq<Command>, env: Env, p: Prog, i: nat)
    requires (p.If? || p.Loop?) && Enters(run, script, env, p, i) && !At(run, i).st.ItefEnabled()
    ensures Quiet(At(run, i), At(run, i + |Flat(p)|), |Flat(p)|)
    ensures Same(At(run, i).st, At(run, i + |Flat(p)|).st)
    decreases p, 2
  {
    if p.If? {
      IfLayout(script, At(run, i).pos, p);
      DeadIf(run, script, env, p, i);
    } else {
      LoopLayout(script, At(run, i).pos, p);
      DeadLoop(run, script, env, p, i);
    }
  }

  lemma {:induction false} DeadSeq(run: History, script: seq<Command>, env: Env, a: Prog, b: Prog, i: nat)
    requires Enters(run, script, env, Seq(a, b), i) && !At(run, i).st.ItefEnabled()
    ensures
      var n := |Flat(a)| + |Flat(b)|;
      Quiet(At(run, i), At(run, i + n), n) && Same(At(run, i).st, At(run, i + n).st)
    decreases Seq(a, b), 0
  {
    CodeSplit(script, At(run, i).pos, Flat(a), Flat(b));
    DeadCode(run, script, env, a, i);
    var j := i + |Flat(a)|;
    DeadCode(run, script, env, b, j);
    SameTrans(At(run, i).st, At(run, j).st, At(run, j + |Flat(b)|).st);
  }

  lemma {:induction false} DeadLine(run: History, script: seq<Command>, env: Env, line: Command, i: nat)
    requires Follows(run, script, env)
    requires Idle(At(run, i)) && !At(run, i).st.CmdEnabled()
    requires IsCommand(line) || line == [KwBreak]
    requires CodeAt(script, At(run, i).pos, [line])
    ensures Quiet(At(run, i), At(run, i + 1), 1) && Same(At(run, i).st, At(run, i + 1).st)
  {
    CodeLine(script, At(run, i).pos, line);
    CommandSkipped(run, script, env, i);
    SameRefl(At(run, i).st);
  }

  /** A branch of a disabled `if`. */
  lemma {:induction false} DeadBranch(run: History, script: seq<Command>, env: Env, p: Prog,
                                      a: Stacks, e: IfEntry, i: nat)
    requires EntersBranch(run, script, env, p, a, e, i) && !Open(e)
    ensures Quiet(At(run, i), At(run, i + |Flat(p)|), |Flat(p)|)
    ensures Same(a.PushIf(e), At(run, i + |Flat(p)|).st)
    decreases p, 4
  {
    DeadCode(run, script, env, p, i);
    SameTrans(a.PushIf(e), At(run, i).st, At(run, i + |Flat(p)|).st);
  }

  /** The `if` and `then` lines of a disabled `if`. */
  lemma {:induction false} DeadThen(run: History, script: seq<Command>, env: Env, p: Prog, i: nat)
    returns (e: IfEntry)
    requires Follows(run, script, env)
    requires Idle(At(run, i)) && !At(run, i).st.CmdEnabled() && At(run, i).st.iendx + 1 < |At(run, i).st.ifs|
    requires p.If? && IsCommand(p.cond) && IfAt(script, At(run, i).pos, p)
    ensures e.disabled && e.state == ItefThen
    ensures Quiet(At(run, i), At(run, i + 2), 2) && Same(At(run, i).st.PushIf(e), At(run, i + 2).st)
  {
    e := IfEntry(ItefIf, true, false, p.inverted);
    IfSkipped(run, script, env, i, p.inverted, p.cond);
    SameRefl(At(run, i + 1).st);
    IfReplaced(At(run, i).st, At(run, i + 1).st, e, e.(state := ItefThen));
    ThenLine(run, script, env, i + 1);
    e := e.(state := ItefThen);
  }

  /** The `else` part of a disabled `if`. */
  lemma {:induction false} DeadElse(run: History, script: seq<Command>, env: Env, p: Prog,
                                    a: Stacks, e: IfEntry, i: nat)
    requires Follows(run, script, env)
    requires Idle(At(run, i)) && Under(a, e, At(run, i))
    requires e.state == ItefThen && !Open(e.(state := ItefElse))
    requires Fits(p, |a.ifs|, a.lpndx, a.iendx + 1)
    requires At(run, i).pos < |script| && script[At(run, i).pos] == [KwElse]
    requires CodeAt(script, At(run, i).pos + 1, Flat(p))
    ensures Quiet(At(run, i), At(run, i + 1 + |Flat(p)|), 1 + |Flat(p)|)
    ensures Same(a.PushIf(e.(state := ItefElse)), At(run, i + 1 + |Flat(p)|).st)
    decreases p, 5
  {
    IfReplaced(a, At(run, i).st, e, e.(state := ItefElse));
    ElseLine(run, script, env, i);
    DeadBranch(run, script, env, p, a, e.(state := ItefElse), i + 1);
  }

  /** The `fi` of an `if` in one of its branches. */
  lemma {:induction false} CloseIf(run: History, script: seq<Command>, env: Env,
                                   a: Stacks, e: IfEntry, i: nat)
    requires Follows(run, script, env)
    requires Under(a, e, At(run, i)) && Idle(At(run, i)) && (e.state == ItefThen || e.state == ItefElse)
    requires At(run, i).pos < |script| && script[At(run, i).pos] == [KwFi]
    ensures Silent(At(run, i), At(run, i + 1)) && Same(a, At(run, i + 1).st)
  {
    IfClosed(a, At(run, i).st, e);
    FiLine(run, script, env, i);
  }

  lemma {:induction false} DeadIf(run: History, script: seq<Command>, env: Env, p: Prog, i: nat)
    requires Follows(run, script, env)
    requires Idle(At(run, i)) && !At(run, i).st.CmdEnabled()
    requires p.If? && Fits(p, |At(run, i).st.ifs|, At(run, i).st.lpndx, At(run, i).st.iendx)
    requires IfAt(script, At(run, i).pos, p)
    ensures
      var n := FiPos(p, 0) + 1;
      Quiet(At(run, i), At(run, i + n), n) && Same(At(run, i).st, At(run, i + n).st)
    decreases p, 1
  {
    var e := DeadThen(run, script, env, p, i);
    DeadBranch(run, script, env, p.thn, At(run, i).st, e, i + 2);
    DeadRest(run, script, env, p, At(run, i).st, e, i + 2 + |Flat(p.thn)|, At(run, i).pos);
  }

  /** What follows the `then` branch of a disabled `if` whose first line is at `pos`. */
  lemma {:induction false} DeadRest(run: History, script: seq<Command>, env: Env, p: Prog,
                                    a: Stacks, e: IfEntry, j: nat, pos: nat)
    requires Follows(run, script, env)
    requires p.If? && IfAt(script, pos, p) && At(run, j).pos == pos + 2 + |Flat(p.thn)|
    requires Idle(At(run, j)) && Under(a, e, At(run, j))
    requires a.Ok() && Fits(p, |a.ifs|, a.lpndx, a.iendx) && a.If().state != ItefIf && !a.AwaitsLoopCondition()
    requires e.state == ItefThen && e.disabled
    ensures
      var n := if p.hasElse then |Flat(p.els)| + 2 else 1;
      Quiet(At(run, j), At(run, j + n), n) && Same(a, At(run, j + n).st)
    decreases p, 0
  {
    if p.hasElse {
      DeadElse(run, script, env, p.els, a, e, j);
      CloseIf(run, script, env, a, e.(state := ItefElse), j + 1 + |Flat(p.els)|);
    } else {
      CloseIf(run, script, env, a, e, j);
    }
  }

  /** The header and `do` lines of a loop in a branch that is not taken. */
  lemma {:induction false} DeadHeader(run: History, script: seq<Command>, env: Env, p: Prog, i: nat)
    returns (e: LoopEntry)
    requires Follows(run, script, env)
    requires Idle(At(run, i)) && !At(run, i).st.ItefEnabled() && At(run, i).st.lpndx + 1 < |At(run, i).st.loops|
    requires p.Loop? && IsCommand(p.cond) && LoopAt(script, At(run, i).pos, p)
    ensures e.state == LoopDo && !e.enable && e.iendx == At(run, i).st.iendx
    ensures Quiet(At(run, i), At(run, i + 2), 2) && Same(At(run, i).st.PushLoop(e), At(run, i + 2).st)
  {
    var a := At(run, i).st;
    e := LoopEntry(if p.until then LoopUntil else LoopWhile, false, a.iendx, At(run, i).pos);
    HeaderSkipped(run, script, env, i, p.until, p.cond);
    SameRefl(At(run, i + 1).st);
    LoopReplaced(a, At(run, i + 1).st, e, e.(state := LoopDo));
    DoLine(run, script, env, i + 1);
    e := e.(state := LoopDo);
  }

  lemma {:induction false} DeadLoop(run: History, script: seq<Command>, env: Env, p: Prog, i: nat)
    requires Follows(run, script, env)
    requires Idle(At(run, i)) && !At(run, i).st.ItefEnabled()
    requires p.Loop? && Fits(p, |At(run, i).st.ifs|, At(run, i).st.lpndx, At(run, i).st.iendx)
    requires LoopAt(script, At(run, i).pos, p)
    ensures
      var n := |Flat(p.body)| + 3;
      Quiet(At(run, i), At(run, i + n), n) && Same(At(run, i).st, At(run, i + n).st)
    decreases p, 0
  {
    var a := At(run, i).st;
    var e := DeadHeader(run, script, env, p, i);
    DeadCode(run, script, env, p.body, i + 2);
    var j := i + 2 + |Flat(p.body)|;
    SameTrans(a.PushLoop(e), At(run, i + 2).st, At(run, j).st);
    LoopClosed(a, At(run, j).st, e);
    DoneLine(run, script, env, j);
  }
}
