/**
 The flat machine and the structured semantics describe the same runs.
 */
module NshSimulation {
  import opened NshControl
  import opened NshProgram
  import opened NshLines
  import opened NshSkipping

  // ------------------------------------------------------------------ situations

  /** The if depth at the header of the innermost loop. */
  ghost function Base(st: Stacks): nat requires st.Indexed() {
    if st.lpndx > 0 then st.Loop().iendx else 0
  }

  /** The `if` around the innermost loop is open, so that `break` can return to it. */
  ghost predicate Anchored(st: Stacks) requires st.Indexed() {
    st.lpndx > 0 ==> st.Loop().iendx <= st.iendx && Open(st.ifs[st.Loop().iendx])
  }

  /** Commands are enabled. */
  ghost predicate Running(st: Stacks) requires st.Indexed() {
    st.CmdEnabled() && Anchored(st)
  }

  /** The body of the innermost loop is being passed over. */
  ghost predicate Passing(st: Stacks) requires st.Indexed() {
    && st.lpndx > 0 && st.Loop().state == LoopDo && !st.Loop().enable
    && st.ItefEnabled()
    && st.Loop().iendx == st.iendx
  }

  lemma {:induction false} SameRunning(a: Stacks, b: Stacks)
    requires Same(a, b) && Running(a)
    ensures Running(b) && Base(a) == Base(b)
  {
    SameSlots(a, b);
  }

  /** The stacks inside a taken branch. */
  lemma {:induction false} RunningUnderIf(a: Stacks, e: IfEntry, s: State)
    requires Under(a, e, s) && Running(a) && Open(e)
    ensures Running(s.st) && Base(a) == Base(s.st) && s.st.lpndx == a.lpndx && s.st.iendx == a.iendx + 1
  {
    SameSlots(a.PushIf(e), s.st);
  }

  /** The stacks inside a loop body that runs or is passed over. */
  lemma {:induction false} InsideLoop(a: Stacks, e: LoopEntry, d: Stacks)
    requires a.Indexed() && a.lpndx + 1 < |a.loops| && Open(a.If())
    requires Same(a.PushLoop(e), d) && e.state == LoopDo && e.iendx == a.iendx
    ensures Base(d) == d.iendx == a.iendx && d.lpndx == a.lpndx + 1
    ensures if e.enable then Running(d) else Passing(d)
  {
    SameSlots(a.PushLoop(e), d);
  }

  lemma {:induction false} SameBreak(a: Stacks, b: Stacks, d: Stacks)
    requires a.Ok() && b.Ok() && Same(a, b) && a.lpndx > 0 && a.Loop().state == LoopDo
    requires Anchored(a) && Same(b.Break(), d)
    ensures Same(a.Break(), d)
  {
    SameSlots(a, b);
    SameSlots(b.Break(), d);
    SameSlots(a.Break(), d);
  }

  /** A `break` under an `if` leaves the stacks as one in front of the `if` would. */
  lemma {:induction false} BreakUnderIf(a: Stacks, e: IfEntry, b: Stacks, d: Stacks)
    requires a.Ok() && a.iendx + 1 < |a.ifs| && a.lpndx > 0 && a.Loop().state == LoopDo
    requires b.Ok() && Same(a.PushIf(e), b)
    requires Anchored(a) && Same(b.Break(), d)
    ensures Same(a.Break(), d)
  {
    SameSlots(a.PushIf(e), b);
    SameSlots(b.Break(), d);
    SameSlots(a.Break(), d);
  }

  /** After `break` the rest of the loop body is passed over. */
  lemma {:induction false} BrokenPasses(a: Stacks, d: Stacks)
    requires a.Ok() && a.lpndx > 0 && a.Loop().state == LoopDo && Anchored(a)
    requires Same(a.Break(), d)
    ensures Passing(d) && d.lpndx == a.lpndx && d.iendx == Base(a)
  {
    SameSlots(a.Break(), d);
  }

  // ------------------------------------------- programs under fewer ifs than before

  lemma {:induction false} FitsLower(p: Prog, depth: nat, loops: nat, ifs: nat, ifs': nat)
    requires Fits(p, depth, loops, ifs) && ifs' <= ifs
    ensures Fits(p, depth, loops, ifs')
    decreases p
  {
    match p
    case Empty =>
    case Simple(_) =>
    case Break =>
    case Seq(a, b) =>
      FitsLower(a, depth, loops, ifs, ifs');
      FitsLower(b, depth, loops, ifs, ifs');
    case If(_, _, t, _, e) =>
      FitsLower(t, depth, loops, ifs + 1, ifs' + 1);
      FitsLower(e, depth, loops, ifs + 1, ifs' + 1);
    case Loop(_, _, body) =>
      FitsLower(body, depth, loops + 1, ifs, ifs');
  }

  lemma {:induction false} BreaksLower(p: Prog, inLoop: bool, ifs: nat, base: nat, ifs': nat, base': nat)
    requires BreaksOk(p, inLoop, ifs, base)
    requires base <= ifs && ifs' <= ifs && base' <= base && (ifs == base ==> ifs' == base')
    ensures BreaksOk(p, inLoop, ifs', base')
    decreases p
  {
    match p
    case Empty =>
    case Simple(_) =>
    case Break =>
    case Seq(a, b) =>
      BreaksLower(a, inLoop, ifs, base, ifs', base');
      BreaksLower(b, inLoop, ifs, base, ifs', base');
    case If(_, _, t, _, e) =>
      BreaksLower(t, inLoop, ifs + 1, base, ifs' + 1, base');
      BreaksLower(e, inLoop, ifs + 1, base, ifs' + 1, base');
    case Loop(_, _, body) =>
      BreaksLower(body, true, ifs, ifs, ifs', ifs');
  }

  // --------------------------------------------------------------- the simulation

  /** `t` is where and as `r` says, with `len` lines behind it. */
  ghost predicate Arrives(s: State, t: State, len: nat, r: Result) {
    && Idle(t)
    && t.pos == s.pos + len
    && t.trace == r.trace && t.fail == r.fail
  }

  /** The machine in state `t` agrees with the result `r` of a program of `len` lines started in `s`. */
  ghost predicate Lands(script: seq<Command>, s: State, t: State, len: nat, r: Result) {
    match r.out
    case Normal => Arrives(s, t, len, r) && Same(s.st, t.st)
    case Broke => Arrives(s, t, len, r) && s.st.Ok() && s.st.lpndx > 0 && Same(s.st.Break(), t.st)
    case Stopped => t.stopped && t.trace == r.trace && t.fail == r.fail
    case OutOfFuel => !Halted(script, t)
  }

  /** The same for moments of a run: out of fuel means at least `fuel` lines later. */
  ghost predicate Reaches(run: History, script: seq<Command>, i: nat, j: nat, len: nat, r: Result, fuel: nat) {
    && i <= j
    && Lands(script, At(run, i), At(run, j), len, r)
    && (r.out == OutOfFuel ==> i + fuel <= j)
  }

  ghost predicate StartsRunning(run: History, script: seq<Command>, env: Env, p: Prog, i: nat) {
    && Enters(run, script, env, p, i)
    && var st := At(run, i).st;
    && Running(st)
    && BreaksOk(p, st.lpndx > 0, st.iendx, Base(st))
  }

  ghost predicate StartsPassing(run: History, script: seq<Command>, env: Env, p: Prog, i: nat) {
    && Enters(run, script, env, p, i)
    && var st := At(run, i).st;
    && Passing(st)
    && BreaksOk(p, true, st.iendx, st.iendx)
  }

  ghost predicate StartsLoop(run: History, script: seq<Command>, env: Env, p: Prog, i: nat) {
    && Enters(run, script, env, p, i) && p.Loop?
    && var st := At(run, i).st;
    && st.ItefEnabled()
    && BreaksOk(p.body, true, st.iendx, st.iendx)
  }

  ghost function ExecAt(env: Env, p: Prog, s: State, fuel: nat): Result {
    Exec(env, p, s.trace, s.fail, s.st.lpndx > 0, fuel)
  }

  /** A `break` that is carried out stands directly in its loop or in a loop under no `if`. */
  ghost predicate BrokeOk(st: Stacks, r: Result) requires st.Indexed() {
    r.out == Broke ==> st.iendx == Base(st) || Base(st) == 0
  }

  lemma {:induction false} RunSimple(run: History, script: seq<Command>, env: Env, p: Prog, i: nat, fuel: nat)
    requires StartsRunning(run, script, env, p, i) && (p.Simple? || p.Break?)
    ensures Reaches(run, script, i, i + 1, 1, ExecAt(env, p, At(run, i), fuel), fuel)
    ensures BrokeOk(At(run, i).st, ExecAt(env, p, At(run, i), fuel))
  {
    SameRefl(At(run, i).st);
    if p.Simple? {
      CodeLine(script, At(run, i).pos, p.argv);
      CommandRuns(run, script, env, i);
    } else {
      CodeLine(script, At(run, i).pos, [KwBreak]);
      BreakRuns(run, script, env, i);
      SameRefl(At(run, i + 1).st);
    }
  }

  /** Going on from `t`, whose stacks are those of `s`. */
  lemma {:induction false} LandsLater(script: seq<Command>, s: State, t: State, u: State, m: nat, n: nat, r: Result)
    requires s.st.Ok() && t.st.Ok() && Running(s.st) && !s.st.AwaitsLoopCondition()
    requires Same(s.st, t.st) && t.pos == s.pos + m
    requires Lands(script, t, u, n, r)
    ensures Lands(script, s, u, m + n, r)
  {
    if r.out == Normal {
      SameTrans(s.st, t.st, u.st);
    } else if r.out == Broke {
      SameBreak(s.st, t.st, u.st);
    }
  }

  /** The code behind a `break` in the same sequence. */
  lemma {:induction false} StartsPassingRest(run: History, script: seq<Command>, env: Env, p: Prog, i: nat, j: nat)
    requires p.Seq? && StartsRunning(run, script, env, p, i)
    requires At(run, i).st.lpndx > 0 && At(run, i).st.Loop().state == LoopDo
    requires Base(At(run, i).st) == At(run, i).st.iendx || Base(At(run, i).st) == 0
    requires Idle(At(run, j)) && At(run, j).pos == At(run, i).pos + |Flat(p.first)|
    requires Same(At(run, i).st.Break(), At(run, j).st)
    requires CodeAt(script, At(run, j).pos, Flat(p.second))
    ensures StartsPassing(run, script, env, p.second, j)
  {
    var s, t := At(run, i), At(run, j);
    BrokenPasses(s.st, t.st);
    FitsLower(p.second, |s.st.ifs|, s.st.lpndx, s.st.iendx, Base(s.st));
    BreaksLower(p.second, true, s.st.iendx, Base(s.st), Base(s.st), Base(s.st));
  }

  /** The second part of a sequence after the first has ended at moment `k`. */
  lemma {:induction false} RunSecond(run: History, script: seq<Command>, env: Env, p: Prog, i: nat, k: nat, fuel: nat)
    returns (j: nat)
    requires p.Seq? && StartsRunning(run, script, env, p, i) && i <= k
    requires Idle(At(run, k)) && At(run, k).pos == At(run, i).pos + |Flat(p.first)|
    requires Same(At(run, i).st, At(run, k).st) && CodeAt(script, At(run, k).pos, Flat(p.second))
    ensures Reaches(run, script, i, j, |Flat(p)|, ExecAt(env, p.second, At(run, k), fuel), fuel)
    ensures BrokeOk(At(run, i).st, ExecAt(env, p.second, At(run, k), fuel))
    decreases fuel, p, 0
  {
    var s, t := At(run, i), At(run, k);
    SameRunning(s.st, t.st);
    j := RunCode(run, script, env, p.second, k, fuel);
    LandsLater(script, s, t, At(run, j), |Flat(p.first)|, |Flat(p.second)|, ExecAt(env, p.second, t, fuel));
  }

  /** The second part of a sequence after a `break` in the first. */
  lemma {:induction false} PassSecond(run: History, script: seq<Command>, env: Env, p: Prog, i: nat, k: nat, fuel: nat)
    returns (j: nat)
    requires p.Seq? && StartsRunning(run, script, env, p, i) && i <= k
    requires At(run, i).st.lpndx > 0 && At(run, i).st.Loop().state == LoopDo
    requires Base(At(run, i).st) == At(run, i).st.iendx || Base(At(run, i).st) == 0
    requires Idle(At(run, k)) && At(run, k).pos == At(run, i).pos + |Flat(p.first)|
    requires Same(At(run, i).st.Break(), At(run, k).st) && CodeAt(script, At(run, k).pos, Flat(p.second))
    ensures
      var q := Pass(env, p.second, At(run, k).trace, At(run, k).fail, fuel);
      Reaches(run, script, i, j, |Flat(p)|, if q.out == Normal then q.(out := Broke) else q, fuel)
    decreases fuel, p, 0
  {
    StartsPassingRest(run, script, env, p, i, k);
    j := PassCode(run, script, env, p.second, k, fuel);
    var q := Pass(env, p.second, At(run, k).trace, At(run, k).fail, fuel);
    if q.out == Normal { SameTrans(At(run, i).st.Break(), At(run, k).st, At(run, j).st); }
  }

  lemma {:induction false} RunSeq(run: History, script: seq<Command>, env: Env, p: Prog, i: nat, fuel: nat)
    returns (j: nat)
    requires p.Seq? && StartsRunning(run, script, env, p, i)
    ensures Reaches(run, script, i, j, |Flat(p)|, ExecAt(env, p, At(run, i), fuel), fuel)
    ensures BrokeOk(At(run, i).st, ExecAt(env, p, At(run, i), fuel))
    decreases fuel, p, 1
  {
    CodeSplit(script, At(run, i).pos, Flat(p.first), Flat(p.second));
    j := RunCode(run, script, env, p.first, i, fuel);
    var r := ExecAt(env, p.first, At(run, i), fuel);
    if r.out == Normal {
      SameRunning(At(run, i).st, At(run, j).st);
      j := RunSecond(run, script, env, p, i, j, fuel);
    } else if r.out == Broke {
      j := PassSecond(run, script, env, p, i, j, fuel);
    }
  }

  lemma {:induction false} RunCode(run: History, script: seq<Command>, env: Env, p: Prog, i: nat, fuel: nat)
    returns (j: nat)
    requires StartsRunning(run, script, env, p, i)
    ensures Reaches(run, script, i, j, |Flat(p)|, ExecAt(env, p, At(run, i), fuel), fuel)
    ensures BrokeOk(At(run, i).st, ExecAt(env, p, At(run, i), fuel))
    decreases fuel, p, 4
  {
    match p
    case Empty =>
      SameRefl(At(run, i).st);
      j := i;
    case Simple(_) =>
      RunSimple(run, script, env, p, i, fuel);
      j := i + 1;
    case Break =>
      RunSimple(run, script, env, p, i, fuel);
      j := i + 1;
    case Seq(_, _) => j := RunSeq(run, script, env, p, i, fuel);
    case If(_, _, _, _, _) =>
      IfLayout(script, At(run, i).pos, p);
      j := RunIf(run, script, env, p, i, fuel);
    case Loop(_, _, _) =>
      LoopLayout(script, At(run, i).pos, p);
      j := RunLoop(run, script, env, p, i, fuel);
  }

  /** The `if` and `then` lines of an enabled `if`. */
  lemma {:induction false} OpenIf(run: History, script: seq<Command>, env: Env, p: Prog, i: nat)
    returns (e: IfEntry)
    requires Enters(run, script, env, p, i) && At(run, i).st.CmdEnabled()
    requires p.If? && IfAt(script, At(run, i).pos, p)
    ensures
      var (s, t) := (At(run, i), At(run, i + 2));
      var h := s.trace + [p.cond];
      && e == IfEntry(ItefThen, false, !TakesThen(p.inverted, env.fails(h)), p.inverted)
      && Idle(t) && Under(s.st, e, t)
      && t.pos == s.pos + 2 && t.trace == h && !t.fail
  {
    IfRuns(run, script, env, i, p.inverted, p.cond);
    e := At(run, i + 1).st.If();
    SameRefl(At(run, i + 1).st);
    IfReplaced(At(run, i).st, At(run, i + 1).st, e, e.(state := ItefThen));
    ThenLine(run, script, env, i + 1);
    e := e.(state := ItefThen);
  }

  /** From the end of a branch that ended normally past the `fi`. */
  lemma {:induction false} EndIf(run: History, script: seq<Command>, env: Env, p: Prog, i: nat,
                                 e: IfEntry, k: nat, r: Result, fuel: nat)
    requires p.If? && IfAt(script, At(run, i).pos, p) && i <= k
    requires Follows(run, script, env) && Idle(At(run, i)) && Under(At(run, i).st, e, At(run, k))
    requires e.state == ItefThen || e.state == ItefElse
    requires Arrives(At(run, i), At(run, k), FiPos(p, 0), r) && r.out == Normal
    ensures Reaches(run, script, i, k + 1, FiPos(p, 0) + 1, r, fuel)
  {
    CloseIf(run, script, env, At(run, i).st, e, k);
    SameSlots(At(run, i).st, At(run, k + 1).st);
  }

  /** From the end of a `then` branch that ended normally to the `fi`. */
  lemma {:induction false} SkipElse(run: History, script: seq<Command>, env: Env, p: Prog, i: nat,
                                    e: IfEntry, k: nat, r: Result, fuel: nat)
    returns (j: nat)
    requires p.If? && IfAt(script, At(run, i).pos, p) && i <= k
    requires Follows(run, script, env) && Idle(At(run, i)) && Under(At(run, i).st, e, At(run, k))
    requires Fits(p, |At(run, i).st.ifs|, At(run, i).st.lpndx, At(run, i).st.iendx)
    requires e.state == ItefThen && !e.ifcond
    requires Arrives(At(run, i), At(run, k), 2 + |Flat(p.thn)|, r) && r.out == Normal
    ensures Reaches(run, script, i, j, FiPos(p, 0) + 1, r, fuel)
  {
    if p.hasElse {
      DeadElse(run, script, env, p.els, At(run, i).st, e, k);
      j := k + 1 + |Flat(p.els)|;
      EndIf(run, script, env, p, i, e.(state := ItefElse), j, r, fuel);
      j := j + 1;
    } else {
      EndIf(run, script, env, p, i, e, k, r, fuel);
      j := k + 1;
    }
  }

  /** The `fi` of an `if` that was left by `break`. */
  lemma {:induction false} ComplainFi(run: History, script: seq<Command>, env: Env, p: Prog, i: nat,
                                      k: nat, r: Result, fuel: nat)
    requires p.If? && IfAt(script, At(run, i).pos, p) && i <= k
    requires Follows(run, script, env) && r.out == Broke
    requires Lands(script, At(run, i), At(run, k), FiPos(p, 0), r)
    requires Base(At(run, i).st) == 0 && At(run, i).st.Loop().state == LoopDo
    ensures Reaches(run, script, i, k + 1, FiPos(p, 0) + 1, Complain(env, r.trace), fuel)
  {
    StrayLine(run, script, env, k);
  }

  /** The `else` part and the `fi` of an `if` whose `then` branch was left by `break`. */
  lemma {:induction false} ComplainElse(run: History, script: seq<Command>, env: Env, p: Prog, i: nat,
                                        k: nat, r: Result, fuel: nat)
    returns (j: nat)
    requires p.If? && p.hasElse && IfAt(script, At(run, i).pos, p) && i <= k
    requires StartsRunning(run, script, env, p, i) && env.ignore
    requires r.out == Broke && Lands(script, At(run, i), At(run, k), 2 + |Flat(p.thn)|, r)
    requires Base(At(run, i).st) == 0
    ensures
      var q := Pass(env, p.els, r.trace, true, fuel);
      Reaches(run, script, i, j, FiPos(p, 0) + 1, if q.out == Normal then Complain(env, q.trace) else q, fuel)
    decreases fuel, p, 0
  {
    var s := At(run, i);
    StrayLine(run, script, env, k);
    var t := At(run, k + 1);
    BrokenPasses(s.st, t.st);
    FitsLower(p.els, |s.st.ifs|, s.st.lpndx, s.st.iendx + 1, 0);
    BreaksLower(p.els, true, s.st.iendx + 1, 0, 0, 0);
    j := PassCode(run, script, env, p.els, k + 1, fuel);
    var q := Pass(env, p.els, r.trace, true, fuel);
    if q.out == Normal {
      SameTrans(s.st.Break(), t.st, At(run, j).st);
      ComplainFi(run, script, env, p, i, j, q.(out := Broke), fuel);
      j := j + 1;
    }
  }

  /** The lines after a `then` branch that was left by `break`. */
  lemma {:induction false} BrokeThen(run: History, script: seq<Command>, env: Env, p: Prog, i: nat,
                                     k: nat, r: Result, fuel: nat)
    returns (j: nat)
    requires StartsRunning(run, script, env, p, i) && p.If? && IfAt(script, At(run, i).pos, p)
    requires i <= k && r.out == Broke && Lands(script, At(run, i), At(run, k), 2 + |Flat(p.thn)|, r)
    requires Base(At(run, i).st) == 0
    ensures
      var q := Pass(env, p.els, r.trace, true, fuel);
      Reaches(run, script, i, j, FiPos(p, 0) + 1,
              if !p.hasElse || !env.ignore || q.out == Normal
              then Complain(env, if p.hasElse && env.ignore then q.trace else r.trace) else q, fuel)
    decreases fuel, p, 1
  {
    if !p.hasElse {
      ComplainFi(run, script, env, p, i, k, r, fuel);
      j := k + 1;
    } else if env.ignore {
      j := ComplainElse(run, script, env, p, i, k, r, fuel);
    } else {
      StrayLine(run, script, env, k);
      j := k + 1;
    }
  }

  /** The taken `then` branch. */
  lemma {:induction false} RunThen(run: History, script: seq<Command>, env: Env, p: Prog, i: nat,
                                   e: IfEntry, fuel: nat)
    returns (j: nat)
    requires StartsRunning(run, script, env, p, i) && p.If? && IfAt(script, At(run, i).pos, p)
    requires StartsRunning(run, script, env, p.thn, i + 2)
    requires Under(At(run, i).st, e, At(run, i + 2)) && e.state == ItefThen && Open(e)
    requires At(run, i + 2).pos == At(run, i).pos + 2 && !At(run, i + 2).fail
    requires At(run, i + 2).trace == At(run, i).trace + [p.cond]
    requires TakesThen(p.inverted, env.fails(At(run, i + 2).trace))
    ensures Reaches(run, script, i, j, FiPos(p, 0) + 1, ExecAt(env, p, At(run, i), fuel), fuel)
    ensures BrokeOk(At(run, i).st, ExecAt(env, p, At(run, i), fuel))
    decreases fuel, p, 2
  {
    var s, t := At(run, i), At(run, i + 2);
    RunningUnderIf(s.st, e, t);
    j := RunCode(run, script, env, p.thn, i + 2, fuel);
    var r := ExecAt(env, p.thn, t, fuel);
    if r.out == Normal {
      SameTrans(s.st.PushIf(e), t.st, At(run, j).st);
      j := SkipElse(run, script, env, p, i, e, j, r, fuel);
    } else if r.out == Broke {
      BreakUnderIf(s.st, e, t.st, At(run, j).st);
      j := BrokeThen(run, script, env, p, i, j, r, fuel);
    }
  }

  /** The taken `else` branch, entered at moment `k`. */
  lemma {:induction false} RunElse(run: History, script: seq<Command>, env: Env, p: Prog, i: nat,
                                   e: IfEntry, k: nat, fuel: nat)
    returns (j: nat)
    requires StartsRunning(run, script, env, p, i) && p.If? && p.hasElse && IfAt(script, At(run, i).pos, p)
    requires StartsRunning(run, script, env, p.els, k) && i <= k
    requires Under(At(run, i).st, e, At(run, k)) && e.state == ItefElse && Open(e)
    requires At(run, k).pos == At(run, i).pos + 3 + |Flat(p.thn)|
    ensures
      var r := ExecAt(env, p.els, At(run, k), fuel);
      && Reaches(run, script, i, j, FiPos(p, 0) + 1, if r.out == Broke then Complain(env, r.trace) else r, fuel)
      && (r.out == Broke ==> Base(At(run, i).st) == 0)
    decreases fuel, p, 2
  {
    var s, t := At(run, i), At(run, k);
    RunningUnderIf(s.st, e, t);
    j := RunCode(run, script, env, p.els, k, fuel);
    var r := ExecAt(env, p.els, t, fuel);
    if r.out == Normal {
      SameTrans(s.st.PushIf(e), t.st, At(run, j).st);
      EndIf(run, script, env, p, i, e, j, r, fuel);
      j := j + 1;
    } else if r.out == Broke {
      BreakUnderIf(s.st, e, t.st, At(run, j).st);
      ComplainFi(run, script, env, p, i, j, r, fuel);
      j := j + 1;
    }
  }

  /** A `then` branch that is not taken, and the `else` line after it. */
  lemma {:induction false} SkipThen(run: History, script: seq<Command>, env: Env, p: Prog, i: nat, e: IfEntry)
    returns (k: nat)
    requires StartsRunning(run, script, env, p, i) && p.If? && p.hasElse && IfAt(script, At(run, i).pos, p)
    requires Follows(run, script, env) && Idle(At(run, i + 2)) && Under(At(run, i).st, e, At(run, i + 2))
    requires e.state == ItefThen && e.ifcond && !e.disabled
    requires At(run, i + 2).pos == At(run, i).pos + 2
    ensures k == i + 3 + |Flat(p.thn)|
    ensures Quiet(At(run, i + 2), At(run, k), 1 + |Flat(p.thn)|)
    ensures StartsRunning(run, script, env, p.els, k)
    ensures Under(At(run, i).st, e.(state := ItefElse), At(run, k))
  {
    DeadBranch(run, script, env, p.thn, At(run, i).st, e, i + 2);
    k := i + 2 + |Flat(p.thn)|;
    EnterElse(run, script, env, p, i, e, k);
    k := k + 1;
  }

  /** The `else` line after a `then` branch that was not taken. */
  lemma {:induction false} EnterElse(run: History, script: seq<Command>, env: Env, p: Prog, i: nat, e: IfEntry, k: nat)
    requires StartsRunning(run, script, env, p, i) && p.If? && p.hasElse && IfAt(script, At(run, i).pos, p)
    requires Idle(At(run, k)) && Under(At(run, i).st, e, At(run, k))
    requires e.state == ItefThen && e.ifcond && !e.disabled
    requires At(run, k).pos == At(run, i).pos + 2 + |Flat(p.thn)|
    ensures Quiet(At(run, k), At(run, k + 1), 1)
    ensures StartsRunning(run, script, env, p.els, k + 1)
    ensures Under(At(run, i).st, e.(state := ItefElse), At(run, k + 1))
  {
    FlipElse(run, script, env, At(run, i).st, e, k);
    StartsBranch(run, script, env, p, p.els, i, e.(state := ItefElse), k + 1);
  }

  lemma {:induction false} FlipElse(run: History, script: seq<Command>, env: Env, a: Stacks, e: IfEntry, k: nat)
    requires Follows(run, script, env) && Idle(At(run, k)) && Under(a, e, At(run, k)) && e.state == ItefThen
    requires At(run, k).pos < |script| && script[At(run, k).pos] == [KwElse]
    ensures Quiet(At(run, k), At(run, k + 1), 1) && Under(a, e.(state := ItefElse), At(run, k + 1))
  {
    IfReplaced(a, At(run, k).st, e, e.(state := ItefElse));
    ElseLine(run, script, env, k);
  }

  /** A branch `q` of the `if` at moment `i` that is about to run at moment `k`. */
  lemma {:induction false} StartsBranch(run: History, script: seq<Command>, env: Env, p: Prog, q: Prog, i: nat,
                                        e: IfEntry, k: nat)
    requires StartsRunning(run, script, env, p, i) && p.If? && (q == p.thn || q == p.els)
    requires Idle(At(run, k)) && Under(At(run, i).st, e, At(run, k)) && Open(e)
    requires CodeAt(script, At(run, k).pos, Flat(q))
    ensures StartsRunning(run, script, env, q, k)
  {
    RunningUnderIf(At(run, i).st, e, At(run, k));
  }

  lemma {:induction false} RunIf(run: History, script: seq<Command>, env: Env, p: Prog, i: nat, fuel: nat)
    returns (j: nat)
    requires StartsRunning(run, script, env, p, i)
    requires p.If? && IfAt(script, At(run, i).pos, p)
    ensures Reaches(run, script, i, j, FiPos(p, 0) + 1, ExecAt(env, p, At(run, i), fuel), fuel)
    ensures BrokeOk(At(run, i).st, ExecAt(env, p, At(run, i), fuel))
    decreases fuel, p, 3
  {
    var e := OpenIf(run, script, env, p, i);
    if !e.ifcond {
      RunningUnderIf(At(run, i).st, e, At(run, i + 2));
      j := RunThen(run, script, env, p, i, e, fuel);
    } else if p.hasElse {
      var k := SkipThen(run, script, env, p, i, e);
      j := RunElse(run, script, env, p, i, e.(state := ItefElse), k, fuel);
    } else {
      DeadBranch(run, script, env, p.thn, At(run, i).st, e, i + 2);
      j := i + 2 + |Flat(p.thn)|;
      EndIf(run, script, env, p, i, e, j, Result(At(run, i + 2).trace, false, Normal), fuel);
      j := j + 1;
    }
  }

  /** A loop header and its `do`: the body is about to run or to be passed over. */
  lemma {:induction false} OpenLoop(run: History, script: seq<Command>, env: Env, p: Prog, i: nat)
    returns (e: LoopEntry)
    requires StartsLoop(run, script, env, p, i) && LoopAt(script, At(run, i).pos, p)
    ensures
      var (s, t) := (At(run, i), At(run, i + 2));
      var h := s.trace + [p.cond];
      && e == LoopEntry(LoopDo, Continues(p.until, env.fails(h)), s.st.iendx, s.pos)
      && Idle(t) && Same(s.st.PushLoop(e), t.st)
      && t.pos == s.pos + 2 && t.trace == h && !t.fail
  {
    var s := At(run, i);
    HeaderRuns(run, script, env, i, p.until, p.cond);
    e := At(run, i + 1).st.Loop();
    SameRefl(At(run, i + 1).st);
    LoopReplaced(s.st, At(run, i + 1).st, e, e.(state := LoopDo));
    DoLine(run, script, env, i + 1);
    e := e.(state := LoopDo);
  }

  /** A `done`: back to the header when the loop is enabled, past the loop otherwise. */
  lemma {:induction false} CloseLoop(run: History, script: seq<Command>, env: Env, a: Stacks, e: LoopEntry, i: nat)
    requires Follows(run, script, env) && Idle(At(run, i))
    requires At(run, i).pos < |script| && script[At(run, i).pos] == [KwDone]
    requires a.Indexed() && a.lpndx + 1 < |a.loops| && Same(a.PushLoop(e), At(run, i).st)
    requires e.state == LoopDo && Open(a.If())
    ensures
      var (s, t) := (At(run, i), At(run, i + 1));
      && t.st.Ok() && !t.stopped && t.seekable
      && t.trace == s.trace && t.fail == s.fail
      && Same(a, t.st)
      && t.pos == (if e.enable then e.top else s.pos + 1)
  {
    LoopClosed(a, At(run, i).st, e);
    DoneLine(run, script, env, i);
  }

  lemma {:induction false} BreakInside(a: Stacks, e: LoopEntry, b: Stacks, d: Stacks)
    requires a.Indexed() && a.lpndx + 1 < |a.loops| && b.Ok() && Same(a.PushLoop(e), b)
    requires e.state == LoopDo && e.iendx == a.iendx && Same(b.Break(), d)
    ensures Same(a.PushLoop(e.(enable := false)), d)
  {
    SameSlots(a.PushLoop(e), b);
    SameSlots(b.Break(), d);
    SameSlots(a.PushLoop(e.(enable := false)), d);
  }

  /** The loop leaves its body for good at moment `k`, in front of the `done`. */
  lemma {:induction false} LeaveLoop(run: History, script: seq<Command>, env: Env, p: Prog, i: nat,
                                     e: LoopEntry, k: nat, r: Result, fuel: nat)
    requires StartsLoop(run, script, env, p, i) && LoopAt(script, At(run, i).pos, p) && i <= k
    requires e.state == LoopDo && !e.enable && Same(At(run, i).st.PushLoop(e), At(run, k).st)
    requires Arrives(At(run, i), At(run, k), 2 + |Flat(p.body)|, r) && r.out == Normal
    ensures Reaches(run, script, i, k + 1, |Flat(p.body)| + 3, r, fuel)
  {
    var a := At(run, i).st;
    CloseLoop(run, script, env, a, e, k);
    SameSlots(a, At(run, k + 1).st);
  }

  lemma {:induction false} RunLoop(run: History, script: seq<Command>, env: Env, p: Prog, i: nat, fuel: nat)
    returns (j: nat)
    requires StartsLoop(run, script, env, p, i) && LoopAt(script, At(run, i).pos, p)
    ensures Reaches(run, script, i, j, |Flat(p.body)| + 3, ExecAt(env, p, At(run, i), fuel), fuel)
    decreases fuel, p, 0
  {
    var s := At(run, i);
    if fuel == 0 { return i; }
    var e := OpenLoop(run, script, env, p, i);
    InsideLoop(s.st, e, At(run, i + 2).st);
    if e.enable {
      j := LoopBody(run, script, env, p, i, e, fuel);
    } else {
      j := PassBody(run, script, env, p, i, e, fuel);
    }
  }

  /** A loop body that is passed over and the `done` behind it. */
  lemma {:induction false} PassBody(run: History, script: seq<Command>, env: Env, p: Prog, i: nat,
                                    e: LoopEntry, fuel: nat)
    returns (j: nat)
    requires StartsLoop(run, script, env, p, i) && LoopAt(script, At(run, i).pos, p) && fuel > 0
    requires StartsPassing(run, script, env, p.body, i + 2) && At(run, i + 2).pos == At(run, i).pos + 2
    requires e.state == LoopDo && !e.enable && Same(At(run, i).st.PushLoop(e), At(run, i + 2).st)
    ensures
      var q := Pass(env, p.body, At(run, i + 2).trace, At(run, i + 2).fail, fuel - 1);
      Reaches(run, script, i, j, |Flat(p.body)| + 3, q, fuel)
    decreases fuel, p.body, 2
  {
    j := PassCode(run, script, env, p.body, i + 2, fuel - 1);
    var q := Pass(env, p.body, At(run, i + 2).trace, At(run, i + 2).fail, fuel - 1);
    if q.out == Normal {
      SameTrans(At(run, i).st.PushLoop(e), At(run, i + 2).st, At(run, j).st);
      LeaveLoop(run, script, env, p, i, e, j, q, fuel);
      j := j + 1;
    }
  }

  /** From the `done` of an enabled loop at moment `k` back to the header. */
  lemma {:induction false} LoopAgain(run: History, script: seq<Command>, env: Env, p: Prog, i: nat,
                                     e: LoopEntry, k: nat, fuel: nat)
    returns (j: nat)
    requires StartsLoop(run, script, env, p, i) && LoopAt(script, At(run, i).pos, p) && i <= k
    requires e.state == LoopDo && e.enable && e.top == At(run, i).pos
    requires Same(At(run, i).st.PushLoop(e), At(run, k).st) && Idle(At(run, k))
    requires At(run, k).pos == At(run, i).pos + 2 + |Flat(p.body)|
    ensures
      var r := Exec(env, p, At(run, k).trace, At(run, k).fail, At(run, i).st.lpndx > 0, fuel);
      Reaches(run, script, i, j, |Flat(p.body)| + 3, r, fuel + 1)
    decreases fuel, p, 1
  {
    var s, t := At(run, i), At(run, k + 1);
    CloseLoop(run, script, env, s.st, e, k);
    SameSlots(s.st, t.st);
    j := RunLoop(run, script, env, p, k + 1, fuel);
    if ExecAt(env, p, t, fuel).out == Normal {
      SameTrans(s.st, t.st, At(run, j).st);
    }
  }

  /** A pass through an enabled loop body and what follows it. */
  lemma {:induction false} LoopBody(run: History, script: seq<Command>, env: Env, p: Prog, i: nat,
                                    e: LoopEntry, fuel: nat)
    returns (j: nat)
    requires StartsLoop(run, script, env, p, i) && LoopAt(script, At(run, i).pos, p) && fuel > 0
    requires StartsRunning(run, script, env, p.body, i + 2)
    requires e.state == LoopDo && e.enable && e.iendx == At(run, i).st.iendx && e.top == At(run, i).pos
    requires Same(At(run, i).st.PushLoop(e), At(run, i + 2).st)
    requires At(run, i + 2).pos == At(run, i).pos + 2 && !At(run, i + 2).fail
    requires At(run, i + 2).trace == At(run, i).trace + [p.cond]
    requires Continues(p.until, env.fails(At(run, i + 2).trace))
    ensures Reaches(run, script, i, j, |Flat(p.body)| + 3, ExecAt(env, p, At(run, i), fuel), fuel)
    decreases fuel, p.body, 2
  {
    var s, t := At(run, i), At(run, i + 2);
    var k := RunCode(run, script, env, p.body, i + 2, fuel - 1);
    var r := ExecAt(env, p.body, t, fuel - 1);
    if r.out == Normal {
      SameTrans(s.st.PushLoop(e), t.st, At(run, k).st);
      j := LoopAgain(run, script, env, p, i, e, k, fuel - 1);
    } else if r.out == Broke {
      LeaveBroken(run, script, env, p, i, e, k, r, fuel);
      j := k + 1;
    } else {
      j := k;
    }
  }

  /** The `done` of a loop that was left by `break`. */
  lemma {:induction false} LeaveBroken(run: History, script: seq<Command>, env: Env, p: Prog, i: nat,
                                       e: LoopEntry, k: nat, r: Result, fuel: nat)
    requires StartsLoop(run, script, env, p, i) && LoopAt(script, At(run, i).pos, p) && i + 2 <= k
    requires e.state == LoopDo && e.iendx == At(run, i).st.iendx
    requires Same(At(run, i).st.PushLoop(e), At(run, i + 2).st) && At(run, i + 2).pos == At(run, i).pos + 2
    requires r.out == Broke && Lands(script, At(run, i + 2), At(run, k), |Flat(p.body)|, r)
    ensures Reaches(run, script, i, k + 1, |Flat(p.body)| + 3, r.(out := Normal), fuel)
  {
    BreakInside(At(run, i).st, e, At(run, i + 2).st, At(run, k).st);
    LeaveLoop(run, script, env, p, i, e.(enable := false), k, r.(out := Normal), fuel);
  }

  lemma {:induction false} PassCode(run: History, script: seq<Command>, env: Env, p: Prog, i: nat, fuel: nat)
    returns (j: nat)
    requires StartsPassing(run, script, env, p, i)
    ensures Reaches(run, script, i, j, |Flat(p)|, Pass(env, p, At(run, i).trace, At(run, i).fail, fuel), fuel)
    decreases fuel, p, 1
  {
    var s := At(run, i);
    match p
    case Empty =>
      SameRefl(s.st);
      j := i;
    case Simple(argv) =>
      DeadLine(run, script, env, argv, i);
      j := i + 1;
    case Break =>
      DeadLine(run, script, env, [KwBreak], i);
      j := i + 1;
    case Seq(a, b) => j := PassSeq(run, script, env, p, i, fuel);
    case If(_, _, _, _, _) =>
      PassIf(run, script, env, p, i);
      j := i + |Flat(p)|;
    case Loop(_, _, _) =>
      LoopLayout(script, s.pos, p);
      j := RunLoop(run, script, env, p, i, fuel);
  }

  /** An `if` in a loop body that is passed over. */
  lemma {:induction false} PassIf(run: History, script: seq<Command>, env: Env, p: Prog, i: nat)
    requires p.If? && StartsPassing(run, script, env, p, i)
    ensures Quiet(At(run, i), At(run, i + |Flat(p)|), |Flat(p)|)
    ensures Same(At(run, i).st, At(run, i + |Flat(p)|).st)
  {
    IfLayout(script, At(run, i).pos, p);
    DeadIf(run, script, env, p, i);
  }

  lemma {:induction false} PassSeq(run: History, script: seq<Command>, env: Env, p: Prog, i: nat, fuel: nat)
    returns (j: nat)
    requires p.Seq? && StartsPassing(run, script, env, p, i)
    ensures Reaches(run, script, i, j, |Flat(p)|, Pass(env, p, At(run, i).trace, At(run, i).fail, fuel), fuel)
    decreases fuel, p, 0
  {
    var s := At(run, i);
    CodeSplit(script, s.pos, Flat(p.first), Flat(p.second));
    j := PassCode(run, script, env, p.first, i, fuel);
    var t := At(run, j);
    if Pass(env, p.first, s.trace, s.fail, fuel).out == Normal {
      j := PassCode(run, script, env, p.second, j, fuel);
      if Pass(env, p.second, t.trace, t.fail, fuel).out == Normal {
        SameTrans(s.st, t.st, At(run, j).st);
      }
    }
  }
}
