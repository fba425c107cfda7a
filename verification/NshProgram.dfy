/**
 Structured NSH programs, their flattening to lines, and two semantics.

 `Exec` is what NSH does.  It differs from the POSIX shell in two places, both
 about code that is passed over without being run: a loop header met while a
 loop body is passed over still runs (`Pass`), and an `if` that was left by
 `break` makes its `else` and `fi` complain.  `Posix` is the semantics of
 section 2.9.4 of the POSIX.1-2017 Shell Command Language with NSH's rule for
 the exit status: evaluating a condition clears it.
 */
module NshProgram {
  import opened NshControl

  datatype Prog =
    | Empty
    | Simple(argv: Command)
    | Break
    | Seq(first: Prog, second: Prog)
    | If(inverted: bool, cond: Command, thn: Prog, hasElse: bool, els: Prog)
    | Loop(until: bool, cond: Command, body: Prog)

  function IfLine(inverted: bool, cond: Command): Command {
    if inverted then [KwIf, KwBang] + cond else [KwIf] + cond
  }

  function LoopLine(until: bool, cond: Command): Command {
    [if until then KwUntil else KwWhile] + cond
  }

  function ElseLines(hasElse: bool, els: seq<Command>): seq<Command> {
    if hasElse then [[KwElse]] + els else []
  }

  /** The lines of a compound command: two opening lines, a body and a closing line. */
  function Bracket(head: Command, second: Command, body: seq<Command>, last: Command): seq<Command> {
    [head] + [second] + body + [last]
  }

  /** The lines of a program, one keyword or command to a line. */
  function Flat(p: Prog): seq<Command> {
    match p
    case Empty => []
    case Simple(argv) => [argv]
    case Break => [[KwBreak]]
    case Seq(a, b) => Flat(a) + Flat(b)
    case If(inv, c, t, he, e) =>
      Bracket(IfLine(inv, c), [KwThen], Flat(t) + ElseLines(he, Flat(e)), [KwFi])
    case Loop(u, c, body) =>
      Bracket(LoopLine(u, c), [KwDo], Flat(body), [KwDone])
  }

  /** A command that is not a keyword. */
  predicate IsCommand(argv: Command) { argv != [] && argv[0].Plain? }

  /**
   The program nests no deeper than the stacks allow when `loops` loops and
   `ifs` ifs are already open, and its commands are commands.
   */
  predicate Fits(p: Prog, depth: nat, loops: nat, ifs: nat) {
    match p
    case Empty => true
    case Simple(argv) => IsCommand(argv)
    case Break => true
    case Seq(a, b) => Fits(a, depth, loops, ifs) && Fits(b, depth, loops, ifs)
    case If(_, c, t, he, e) =>
      IsCommand(c) && ifs + 1 < depth && Fits(t, depth, loops, ifs + 1) && Fits(e, depth, loops, ifs + 1)
    case Loop(_, c, body) =>
      IsCommand(c) && loops + 1 < depth && Fits(body, depth, loops + 1, ifs)
  }

  /**
   Every `break` stands where NSH can carry it out: outside any loop (where it
   does nothing), or under as many ifs as its loop header, or in a loop whose
   header is under no `if`.
   */
  predicate BreaksOk(p: Prog, inLoop: bool, ifs: nat, base: nat) {
    match p
    case Empty => true
    case Simple(_) => true
    case Break => !inLoop || ifs == base || base == 0
    case Seq(a, b) => BreaksOk(a, inLoop, ifs, base) && BreaksOk(b, inLoop, ifs, base)
    case If(_, _, t, he, e) => BreaksOk(t, inLoop, ifs + 1, base) && BreaksOk(e, inLoop, ifs + 1, base)
    case Loop(_, _, body) => BreaksOk(body, true, ifs, ifs)
  }

  datatype Outcome = Normal | Broke | Stopped | OutOfFuel

  /** What can be observed of a run: the commands executed and the exit status. */
  datatype Result = Result(trace: seq<Command>, fail: bool, out: Outcome)

  /** The status of a simple command; it ends the script unless failures are ignored. */
  function Report(env: Env, trace: seq<Command>, failed: bool): Result {
    Result(trace, failed, if failed && !env.ignore then Stopped else Normal)
  }

  /** An `else` or `fi` that finds its `if` already popped by `break`. */
  function Complain(env: Env, trace: seq<Command>): Result {
    Result(trace, true, if env.ignore then Broke else Stopped)
  }

  /** Whether the body of a loop runs after its condition. */
  predicate Continues(until: bool, failed: bool) { until == failed }

  /** Whether the `then` branch is taken after the condition. */
  predicate TakesThen(inverted: bool, failed: bool) { inverted == failed }

  /**
   NSH running a program whose commands are enabled.  `fuel` bounds the
   number of loop tests; `inLoop` says whether a loop encloses the program.
   */
  function Exec(env: Env, p: Prog, trace: seq<Command>, fail: bool, inLoop: bool, fuel: nat): (r: Result)
    ensures p.Loop? ==> r.out != Broke
    decreases fuel, p, 0
  {
    match p
    case Empty => Result(trace, fail, Normal)
    case Simple(argv) => Report(env, trace + [argv], env.fails(trace + [argv]))
    case Break => Result(trace, false, if inLoop then Broke else Normal)
    case Seq(a, b) =>
      var r := Exec(env, a, trace, fail, inLoop, fuel);
      if r.out == Normal then Exec(env, b, r.trace, r.fail, inLoop, fuel)
      else if r.out == Broke then
        var q := Pass(env, b, r.trace, r.fail, fuel);
        if q.out == Normal then q.(out := Broke) else q
      else r
    case If(inv, c, t, he, e) =>
      var h := trace + [c];
      if TakesThen(inv, env.fails(h)) then
        var r := Exec(env, t, h, false, inLoop, fuel);
        if r.out != Broke then r
        else if !he || !env.ignore then Complain(env, r.trace)
        else
          var q := Pass(env, e, r.trace, true, fuel);
          if q.out == Normal then Complain(env, q.trace) else q
      else if he then
        var r := Exec(env, e, h, false, inLoop, fuel);
        if r.out == Broke then Complain(env, r.trace) else r
      else Result(h, false, Normal)
    case Loop(u, c, body) =>
      if fuel == 0 then Result(trace, fail, OutOfFuel)
      else
        var h := trace + [c];
        if Continues(u, env.fails(h)) then
          var r := Exec(env, body, h, false, true, fuel - 1);
          if r.out == Normal then Exec(env, p, r.trace, r.fail, inLoop, fuel - 1)
          else if r.out == Broke then r.(out := Normal)
          else r
        else Pass(env, body, h, false, fuel - 1)
  }

  /**
   NSH passing over a program because the innermost loop body is disabled:
   nothing runs, except that a loop not under an `if` runs in full.
   */
  function Pass(env: Env, p: Prog, trace: seq<Command>, fail: bool, fuel: nat): (r: Result)
    ensures r.out != Broke
    decreases fuel, p, 1
  {
    match p
    case Seq(a, b) =>
      var r := Pass(env, a, trace, fail, fuel);
      if r.out == Normal then Pass(env, b, r.trace, r.fail, fuel) else r
    case Loop(_, _, _) => Exec(env, p, trace, fail, true, fuel)
    case _ => Result(trace, fail, Normal)
  }

  /** The reference semantics: code that is passed over has no effect. */
  function Posix(env: Env, p: Prog, trace: seq<Command>, fail: bool, inLoop: bool, fuel: nat): Result
    decreases fuel, p
  {
    match p
    case Empty => Result(trace, fail, Normal)
    case Simple(argv) => Report(env, trace + [argv], env.fails(trace + [argv]))
    case Break => Result(trace, false, if inLoop then Broke else Normal)
    case Seq(a, b) =>
      var r := Posix(env, a, trace, fail, inLoop, fuel);
      if r.out == Normal then Posix(env, b, r.trace, r.fail, inLoop, fuel) else r
    case If(inv, c, t, he, e) =>
      var h := trace + [c];
      if TakesThen(inv, env.fails(h)) then Posix(env, t, h, false, inLoop, fuel)
      else if he then Posix(env, e, h, false, inLoop, fuel)
      else Result(h, false, Normal)
    case Loop(u, c, body) =>
      if fuel == 0 then Result(trace, fail, OutOfFuel)
      else
        var h := trace + [c];
        if Continues(u, env.fails(h)) then
          var r := Posix(env, body, h, false, true, fuel - 1);
          if r.out == Normal then Posix(env, p, r.trace, r.fail, inLoop, fuel - 1)
          else if r.out == Broke then r.(out := Normal)
          else r
        else Result(h, false, Normal)
  }
}
