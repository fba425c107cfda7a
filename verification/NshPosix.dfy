/**
 When NSH and the POSIX shell agree, and exactly where they part.
 */
module NshPosix {
  import opened NshControl
  import opened NshProgram

  /** The program holds a loop that is not under an `if`. */
  predicate HasBareLoop(p: Prog) {
    match p
    case Seq(a, b) => HasBareLoop(a) || HasBareLoop(b)
    case Loop(_, _, _) => true
    case _ => false
  }

  /** The program holds a `break` of the loop around it. */
  predicate HasBreak(p: Prog) {
    match p
    case Break => true
    case Seq(a, b) => HasBreak(a) || HasBreak(b)
    case If(_, _, t, he, e) => HasBreak(t) || (he && HasBreak(e))
    case _ => false
  }

  /**
   No loop stands where NSH may pass over it without an `if` to protect it:
   directly in a loop body, or in an `if` of a loop body that can be left by
   `break`.  `exposed` says that the program itself stands in such a place.
   */
  predicate Sheltered(p: Prog, inLoop: bool, exposed: bool) {
    match p
    case Seq(a, b) => Sheltered(a, inLoop, exposed) && Sheltered(b, inLoop, exposed)
    case If(_, _, t, he, e) =>
      && Sheltered(t, inLoop, inLoop && HasBreak(p))
      && (he ==> Sheltered(e, inLoop, inLoop && HasBreak(p)))
    case Loop(_, _, body) => !exposed && Sheltered(body, true, true)
    case _ => true
  }

  /** No `break` of an enclosing loop stands under an `if` of that loop. */
  predicate PlainBreaks(p: Prog, inLoop: bool) {
    match p
    case Seq(a, b) => PlainBreaks(a, inLoop) && PlainBreaks(b, inLoop)
    case If(_, _, t, he, e) =>
      && (inLoop ==> !HasBreak(p))
      && PlainBreaks(t, inLoop) && (he ==> PlainBreaks(e, inLoop))
    case Loop(_, _, body) => PlainBreaks(body, true)
    case _ => true
  }

  // ------------------------------------------------------------- passing over code

  lemma {:induction false} ExecGrows(env: Env, p: Prog, trace: seq<Command>, fail: bool, inLoop: bool, fuel: nat)
    ensures |Exec(env, p, trace, fail, inLoop, fuel).trace| >= |trace|
    ensures p.Loop? && fuel > 0 ==> |Exec(env, p, trace, fail, inLoop, fuel).trace| > |trace|
    decreases fuel, p, 0
  {
    match p
    case Empty =>
    case Simple(_) =>
    case Break =>
    case Seq(a, b) =>
      var r := Exec(env, a, trace, fail, inLoop, fuel);
      ExecGrows(env, a, trace, fail, inLoop, fuel);
      ExecGrows(env, b, r.trace, r.fail, inLoop, fuel);
      PassGrows(env, b, r.trace, r.fail, fuel);
    case If(_, c, t, _, e) =>
      var h := trace + [c];
      ExecGrows(env, t, h, false, inLoop, fuel);
      ExecGrows(env, e, h, false, inLoop, fuel);
      PassGrows(env, e, Exec(env, t, h, false, inLoop, fuel).trace, true, fuel);
    case Loop(_, c, body) =>
      if fuel > 0 {
        var h := trace + [c];
        var r := Exec(env, body, h, false, true, fuel - 1);
        ExecGrows(env, body, h, false, true, fuel - 1);
        ExecGrows(env, p, r.trace, r.fail, inLoop, fuel - 1);
        PassGrows(env, body, h, false, fuel - 1);
      }
  }

  lemma {:induction false} PassGrows(env: Env, p: Prog, trace: seq<Command>, fail: bool, fuel: nat)
    ensures |Pass(env, p, trace, fail, fuel).trace| >= |trace|
    ensures HasBareLoop(p) && fuel > 0 ==> |Pass(env, p, trace, fail, fuel).trace| > |trace|
    decreases fuel, p, 1
  {
    match p
    case Empty =>
    case Simple(_) =>
    case Break =>
    case If(_, _, _, _, _) =>
    case Seq(a, b) =>
      var r := Pass(env, a, trace, fail, fuel);
      PassGrows(env, a, trace, fail, fuel);
      PassGrows(env, b, r.trace, r.fail, fuel);
      if !HasBareLoop(a) { PassKeeps(env, a, trace, fail, fuel); }
    case Loop(_, _, _) => ExecGrows(env, p, trace, fail, true, fuel);
  }

  lemma {:induction false} PassKeeps(env: Env, p: Prog, trace: seq<Command>, fail: bool, fuel: nat)
    requires !HasBareLoop(p)
    ensures Pass(env, p, trace, fail, fuel) == Result(trace, fail, Normal)
    decreases p
  {
    if p.Seq? {
      PassKeeps(env, p.first, trace, fail, fuel);
      PassKeeps(env, p.second, trace, fail, fuel);
    }
  }

  /**
   Code that NSH passes over has no effect exactly when every loop in it is
   under an `if`.
   */
  lemma {:induction false} PassIsSilentIff(env: Env, p: Prog, trace: seq<Command>, fail: bool, fuel: nat)
    requires fuel > 0
    ensures Pass(env, p, trace, fail, fuel) == Result(trace, fail, Normal) <==> !HasBareLoop(p)
  {
    if HasBareLoop(p) {
      PassGrows(env, p, trace, fail, fuel);
    } else {
      PassKeeps(env, p, trace, fail, fuel);
    }
  }

  /**
   A loop whose condition ends it at once behaves as in POSIX exactly when its
   body holds no loop outside an `if`.
   */
  lemma {:induction false} LoopExitIsPosixIff(env: Env, p: Prog, trace: seq<Command>, fail: bool, inLoop: bool,
                                              fuel: nat)
    requires p.Loop? && fuel > 1 && !Continues(p.until, env.fails(trace + [p.cond]))
    ensures Exec(env, p, trace, fail, inLoop, fuel) == Posix(env, p, trace, fail, inLoop, fuel)
            <==> !HasBareLoop(p.body)
  {
    PassIsSilentIff(env, p.body, trace + [p.cond], false, fuel - 1);
  }

  // -------------------------------------------------------------------- agreement

  lemma {:induction false} BrokeHasBreak(env: Env, p: Prog, trace: seq<Command>, fail: bool, inLoop: bool, fuel: nat)
    requires Exec(env, p, trace, fail, inLoop, fuel).out == Broke
    ensures inLoop && HasBreak(p)
    decreases p
  {
    match p
    case Break =>
    case Seq(a, b) =>
      var r := Exec(env, a, trace, fail, inLoop, fuel);
      if r.out == Broke {
        BrokeHasBreak(env, a, trace, fail, inLoop, fuel);
      } else {
        BrokeHasBreak(env, b, r.trace, r.fail, inLoop, fuel);
      }
    case If(inv, c, t, he, e) =>
      var h := trace + [c];
      if TakesThen(inv, env.fails(h)) {
        BrokeHasBreak(env, t, h, false, inLoop, fuel);
      } else {
        BrokeHasBreak(env, e, h, false, inLoop, fuel);
      }
  }

  lemma {:induction false} ExposedHasNoBareLoop(p: Prog, inLoop: bool)
    requires Sheltered(p, inLoop, true)
    ensures !HasBareLoop(p)
    decreases p
  {
    if p.Seq? {
      ExposedHasNoBareLoop(p.first, inLoop);
      ExposedHasNoBareLoop(p.second, inLoop);
    }
  }

  /** The two results agree, on the exit status too if `status` holds. */
  predicate Agrees(r: Result, q: Result, status: bool) {
    r.trace == q.trace && r.out == q.out && (status ==> r.fail == q.fail)
  }

  /**
   NSH and POSIX agree on the commands executed and on how the program ends
   when loops are sheltered and either failures are ignored or no `break` is
   under an `if`; in the latter case they agree on the exit status as well.
   */
  lemma {:induction false} NshIsPosix(env: Env, p: Prog, trace: seq<Command>, fail: bool, fail': bool,
                                      inLoop: bool, exposed: bool, fuel: nat)
    requires Sheltered(p, inLoop, exposed) && (inLoop && HasBreak(p) ==> exposed)
    requires env.ignore || PlainBreaks(p, inLoop)
    ensures Agrees(Exec(env, p, trace, fail, inLoop, fuel), Posix(env, p, trace, fail', inLoop, fuel),
                   PlainBreaks(p, inLoop) && fail == fail')
    decreases fuel, p
  {
    match p
    case Empty =>
    case Simple(_) =>
    case Break =>
    case Seq(a, b) => SeqIsPosix(env, p, trace, fail, fail', inLoop, exposed, fuel);
    case If(_, _, _, _, _) => IfIsPosix(env, p, trace, fail, fail', inLoop, fuel);
    case Loop(u, c, body) =>
      if fuel > 0 {
        var h := trace + [c];
        if Continues(u, env.fails(h)) {
          var r := Exec(env, body, h, false, true, fuel - 1);
          var q := Posix(env, body, h, false, true, fuel - 1);
          NshIsPosix(env, body, h, false, false, true, true, fuel - 1);
          NshIsPosix(env, p, r.trace, r.fail, q.fail, inLoop, exposed, fuel - 1);
        } else {
          ExposedHasNoBareLoop(body, true);
          PassKeeps(env, body, h, false, fuel - 1);
        }
      }
  }

  lemma {:induction false} SeqIsPosix(env: Env, p: Prog, trace: seq<Command>, fail: bool, fail': bool,
                                      inLoop: bool, exposed: bool, fuel: nat)
    requires p.Seq? && Sheltered(p, inLoop, exposed) && (inLoop && HasBreak(p) ==> exposed)
    requires env.ignore || PlainBreaks(p, inLoop)
    ensures Agrees(Exec(env, p, trace, fail, inLoop, fuel), Posix(env, p, trace, fail', inLoop, fuel),
                   PlainBreaks(p, inLoop) && fail == fail')
    decreases fuel, p, 0
  {
    var r := Exec(env, p.first, trace, fail, inLoop, fuel);
    var q := Posix(env, p.first, trace, fail', inLoop, fuel);
    NshIsPosix(env, p.first, trace, fail, fail', inLoop, exposed, fuel);
    if r.out == Normal {
      NshIsPosix(env, p.second, r.trace, r.fail, q.fail, inLoop, exposed, fuel);
    } else if r.out == Broke {
      BrokeHasBreak(env, p.first, trace, fail, inLoop, fuel);
      ExposedHasNoBareLoop(p.second, inLoop);
      PassKeeps(env, p.second, r.trace, r.fail, fuel);
    }
  }

  lemma {:induction false} IfIsPosix(env: Env, p: Prog, trace: seq<Command>, fail: bool, fail': bool,
                                     inLoop: bool, fuel: nat)
    requires p.If? && Sheltered(p, inLoop, false)
    requires env.ignore || PlainBreaks(p, inLoop)
    ensures Agrees(Exec(env, p, trace, fail, inLoop, fuel), Posix(env, p, trace, fail', inLoop, fuel),
                   PlainBreaks(p, inLoop) && fail == fail')
    decreases fuel, p, 0
  {
    var h := trace + [p.cond];
    var exposed := inLoop && HasBreak(p);
    if TakesThen(p.inverted, env.fails(h)) {
      var r := Exec(env, p.thn, h, false, inLoop, fuel);
      NshIsPosix(env, p.thn, h, false, false, inLoop, exposed, fuel);
      if r.out == Broke {
        BrokeHasBreak(env, p.thn, h, false, inLoop, fuel);
        if p.hasElse {
          ExposedHasNoBareLoop(p.els, inLoop);
          PassKeeps(env, p.els, r.trace, true, fuel);
        }
      }
    } else if p.hasElse {
      NshIsPosix(env, p.els, h, false, false, inLoop, exposed, fuel);
      if Exec(env, p.els, h, false, inLoop, fuel).out == Broke {
        BrokeHasBreak(env, p.els, h, false, inLoop, fuel);
      }
    }
  }

  // ------------------------------------------------------------- `break` under an `if`

  /** In every loop inside the program, breaks of that loop stand under no `if` of it. */
  predicate InnerPlain(p: Prog) {
    match p
    case Seq(a, b) => InnerPlain(a) && InnerPlain(b)
    case If(_, _, t, he, e) => InnerPlain(t) && (he ==> InnerPlain(e))
    case Loop(_, _, body) => PlainBreaks(body, true)
    case _ => true
  }

  /** `r` is what NSH makes of the POSIX result `q`: a `break` that is taken may be met with a complaint. */
  predicate Comparable(env: Env, r: Result, q: Result) {
    r == q || (q.out == Broke && r == Complain(env, q.trace))
  }

  lemma {:induction false} SeqCompares(env: Env, p: Prog, trace: seq<Command>, fail: bool, exposed: bool, fuel: nat)
    requires p.Seq? && Sheltered(p, true, exposed) && (HasBreak(p) ==> exposed) && InnerPlain(p)
    ensures Comparable(env, Exec(env, p, trace, fail, true, fuel), Posix(env, p, trace, fail, true, fuel))
    decreases p, 0
  {
    var r := Exec(env, p.first, trace, fail, true, fuel);
    BodyCompares(env, p.first, trace, fail, exposed, fuel);
    if r.out == Normal {
      BodyCompares(env, p.second, r.trace, r.fail, exposed, fuel);
    } else if r.out == Broke {
      BrokeHasBreak(env, p.first, trace, fail, true, fuel);
      ExposedHasNoBareLoop(p.second, true);
      PassKeeps(env, p.second, r.trace, r.fail, fuel);
    }
  }

  lemma {:induction false} BodyCompares(env: Env, p: Prog, trace: seq<Command>, fail: bool, exposed: bool, fuel: nat)
    requires Sheltered(p, true, exposed) && (HasBreak(p) ==> exposed) && InnerPlain(p)
    ensures Comparable(env, Exec(env, p, trace, fail, true, fuel), Posix(env, p, trace, fail, true, fuel))
    decreases p, 1
  {
    match p
    case Empty =>
    case Simple(_) =>
    case Break =>
    case Seq(_, _) => SeqCompares(env, p, trace, fail, exposed, fuel);
    case If(_, _, _, _, _) => IfBreaks(env, p, trace, fail, fuel);
    case Loop(_, _, _) => NshIsPosix(env, p, trace, fail, fail, true, exposed, fuel);
  }

  /** An `if` in a loop body: NSH does what POSIX does, but complains when POSIX leaves the loop from it. */
  lemma {:induction false} IfBreaks(env: Env, p: Prog, trace: seq<Command>, fail: bool, fuel: nat)
    requires p.If? && Sheltered(p, true, false) && InnerPlain(p)
    ensures
      var (r, q) := (Exec(env, p, trace, fail, true, fuel), Posix(env, p, trace, fail, true, fuel));
      r == if q.out == Broke then Complain(env, q.trace) else q
    decreases p, 0
  {
    var h := trace + [p.cond];
    if TakesThen(p.inverted, env.fails(h)) {
      var r := Exec(env, p.thn, h, false, true, fuel);
      BodyCompares(env, p.thn, h, false, HasBreak(p), fuel);
      if r.out == Broke && p.hasElse {
        BrokeHasBreak(env, p.thn, h, false, true, fuel);
        ExposedHasNoBareLoop(p.els, true);
        PassKeeps(env, p.els, r.trace, true, fuel);
      }
    } else if p.hasElse {
      BodyCompares(env, p.els, h, false, HasBreak(p), fuel);
    }
  }

  /**
   An `if` in a loop body does what it does in POSIX exactly when POSIX does not leave the
   loop from it.  When it does, NSH executes the same commands but reports a failure: the
   script ends there, or goes on behind the loop if failures are ignored.
   */
  lemma {:induction false} BreakUnderIfIff(env: Env, p: Prog, trace: seq<Command>, fail: bool, fuel: nat)
    requires p.If? && Sheltered(p, true, false) && InnerPlain(p)
    ensures
      var (r, q) := (Exec(env, p, trace, fail, true, fuel), Posix(env, p, trace, fail, true, fuel));
      && (Agrees(r, q, true) <==> q.out != Broke)
      && (q.out == Broke ==> r == Result(q.trace, true, if env.ignore then Broke else Stopped))
  {
    IfBreaks(env, p, trace, fail, fuel);
    PosixBreakSucceeds(env, p, trace, fail, fuel);
  }

  lemma {:induction false} PosixBreakSucceeds(env: Env, p: Prog, trace: seq<Command>, fail: bool, fuel: nat)
    ensures Posix(env, p, trace, fail, true, fuel).out == Broke ==> !Posix(env, p, trace, fail, true, fuel).fail
    decreases fuel, p
  {
    match p
    case Empty =>
    case Simple(_) =>
    case Break =>
    case Seq(a, b) =>
      var r := Posix(env, a, trace, fail, true, fuel);
      PosixBreakSucceeds(env, a, trace, fail, fuel);
      PosixBreakSucceeds(env, b, r.trace, r.fail, fuel);
    case If(_, c, t, _, e) =>
      PosixBreakSucceeds(env, t, trace + [c], false, fuel);
      PosixBreakSucceeds(env, e, trace + [c], false, fuel);
    case Loop(_, c, body) =>
      if fuel > 0 {
        var r := Posix(env, body, trace + [c], false, true, fuel - 1);
        PosixBreakSucceeds(env, p, r.trace, r.fail, fuel - 1);
      }
  }
}
