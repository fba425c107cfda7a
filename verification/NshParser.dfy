/**
 The parser as NSH has it: two fixed arrays and their indices, updated in
 place.  Every method is proved to do what the functions of NshControl say.
 */
module NshParser {
  import opened NshControl

  class Parser {
    const lpstate: array<LoopEntry>
    const iestate: array<IfEntry>
    var lpndx: nat
    var iendx: nat
    var fail: bool
    var jump: bool
    var seekable: bool
    var foffs: nat
    var pos: nat
    var trace: seq<Command>
    var stopped: bool

    ghost function View(): State
      reads this, lpstate, iestate
    {
      State(Stacks(lpstate[..], lpndx, iestate[..], iendx),
            fail, jump, seekable, foffs, pos, trace, stopped)
    }

    ghost predicate Valid()
      reads this, lpstate, iestate
    {
      View().st.Ok()
    }

    /** A parser of the given nesting depth, at the start of a script. */
    constructor (depth: nat)
      requires depth > 0
      ensures Valid() && fresh(lpstate) && fresh(iestate)
      ensures lpstate.Length == iestate.Length == depth
      ensures lpndx == 0 && iendx == 0 && pos == 0 && trace == [] && !fail && !stopped && seekable
    {
      lpstate := new LoopEntry[depth](_ => LoopEntry(LoopNormal, false, 0, 0));
      iestate := new IfEntry[depth](_ => IDLE_IF);
      lpndx, iendx, fail, jump, seekable := 0, 0, false, false, true;
      foffs, pos, trace, stopped := 0, 0, [], false;
    }

    predicate AwaitsLoopCondition()
      requires Valid()
      reads this, lpstate, iestate
      ensures AwaitsLoopCondition() == View().st.AwaitsLoopCondition()
    {
      lpstate[lpndx].state == LoopWhile || lpstate[lpndx].state == LoopUntil
    }

    method CmdEnabled() returns (enabled: bool)
      requires Valid()
      ensures enabled == View().st.CmdEnabled()
    {
      enabled := lpstate[lpndx].state != LoopDo || lpstate[lpndx].enable;
      if enabled {
        var e := iestate[iendx];
        enabled := !e.disabled;
        if enabled {
          match e.state
          case ItefThen => enabled := !e.ifcond;
          case ItefElse => enabled := e.ifcond;
          case _ =>
        }
      }
    }

    /** Overwrite the top loop slot. */
    method SetLoop(e: LoopEntry)
      requires View().st.Indexed()
      modifies lpstate
      ensures View() == old(View()).(st := old(View()).st.WithLoop(e))
    {
      ghost var before := lpstate[..];
      lpstate[lpndx] := e;
      assert lpstate[..] == before[lpndx := e];
    }

    /** Overwrite the top if slot. */
    method SetIf(e: IfEntry)
      requires View().st.Indexed()
      modifies iestate
      ensures View() == old(View()).(st := old(View()).st.WithIf(e))
    {
      ghost var before := iestate[..];
      iestate[iendx] := e;
      assert iestate[..] == before[iendx := e];
    }

    method PushLoop(e: LoopEntry)
      requires View().st.Indexed() && lpndx + 1 < lpstate.Length
      modifies this`lpndx, lpstate
      ensures View() == old(View()).(st := old(View()).st.PushLoop(e))
    {
      lpndx := lpndx + 1;
      ghost var before := lpstate[..];
      lpstate[lpndx] := e;
      assert lpstate[..] == before[lpndx := e];
    }

    method PopLoop()
      requires View().st.Indexed() && lpndx > 0
      modifies this`lpndx, lpstate
      ensures View() == old(View()).(st := old(View()).st.PopLoop())
    {
      SetLoop(lpstate[lpndx].(state := LoopNormal, enable := true));
      lpndx := lpndx - 1;
    }

    method PushIf(e: IfEntry)
      requires View().st.Indexed() && iendx + 1 < iestate.Length
      modifies this`iendx, iestate
      ensures View() == old(View()).(st := old(View()).st.PushIf(e))
    {
      iendx := iendx + 1;
      ghost var before := iestate[..];
      iestate[iendx] := e;
      assert iestate[..] == before[iendx := e];
    }

    /** nsh_saveresult */
    method SaveResult(failed: bool) returns (ok: bool)
      requires Valid()
      modifies this`fail, lpstate, iestate
      ensures Valid()
      ensures Saved(View(), ok) == NshControl.SaveResult(old(View()), failed)
    {
      var l, e := lpstate[lpndx], iestate[iendx];
      ghost var r := NshControl.SaveResult(View(), failed);
      if l.state == LoopWhile {
        SetLoop(l.(enable := !failed));
        fail, ok := false, true;
      } else if l.state == LoopUntil {
        SetLoop(l.(enable := failed));
        fail, ok := false, true;
      } else if e.state == ItefIf {
        SetIf(e.(ifcond := e.inverted != failed));
        fail, ok := false, true;
      } else {
        fail, ok := failed, !failed;
      }
      assert Saved(View(), ok) == r;
    }

    method RejectLoop()
      requires Valid()
      modifies this`jump, this`lpndx, lpstate
      ensures Valid()
      ensures View() == old(View()).(jump := false, st := old(View()).st.ResetLoops())
    {
      jump := false;
      lpndx := 0;
      SetLoop(LoopEntry(LoopNormal, true, lpstate[0].iendx, 0));
    }

    method RejectItef()
      requires Valid()
      modifies this`iendx, iestate
      ensures Valid()
      ensures View() == old(View()).(st := old(View()).st.ResetIfs())
    {
      iendx := 0;
      SetIf(IDLE_IF);
    }

    /** The `while` and `until` part of nsh_loop. */
    method ParseLoopHeader(words: Command) returns (rest: Command, verdict: Verdict)
      requires Valid() && words != []
      modifies this`jump, this`lpndx, lpstate
      ensures Valid()
      ensures Parsed(View(), rest, verdict) == NshControl.ParseLoopHeader(old(View()), words)
    {
      rest := words[1..];
      if NoCommand(rest) {
        RejectLoop();
        verdict := BadArgument;
      } else if iestate[iendx].state == ItefIf || AwaitsLoopCondition() || !seekable {
        RejectLoop();
        verdict := BadContext;
      } else if lpndx >= lpstate.Length - 1 {
        RejectLoop();
        verdict := TooDeep;
      } else {
        var enable := CmdEnabled();
        jump := false;
        PushLoop(LoopEntry(if words[0].KwWhile? then LoopWhile else LoopUntil, enable, iendx, foffs));
        verdict := Accepted;
      }
    }

    /** The `done` part of nsh_loop; the guard marked "Shouldn't happen" is not reached. */
    method ParseDone(words: Command) returns (rest: Command, verdict: Verdict)
      requires Valid() && words != []
      modifies this`jump, this`pos, this`lpndx, lpstate
      ensures Valid()
      ensures Parsed(View(), rest, verdict) == NshControl.ParseDone(old(View()), words)
    {
      rest := words[1..];
      if rest != [] {
        RejectLoop();
        verdict := BadArgument;
      } else if lpstate[lpndx].state != LoopDo {
        RejectLoop();
        verdict := BadContext;
      } else {
        assert lpndx >= 1;
        if lpstate[lpndx].enable {
          pos := lpstate[lpndx].top;
          jump := true;
        }
        PopLoop();
        verdict := Accepted;
      }
    }

    /** nsh_loop */
    method ParseLoop(words: Command) returns (rest: Command, verdict: Verdict)
      requires Valid()
      modifies this`jump, this`pos, this`lpndx, lpstate
      ensures Valid()
      ensures Parsed(View(), rest, verdict) == NshControl.ParseLoop(old(View()), words)
    {
      rest, verdict := words, Accepted;
      if words != [] {
        if words[0].KwWhile? || words[0].KwUntil? {
          rest, verdict := ParseLoopHeader(words);
        } else if words[0].KwDo? {
          rest := words[1..];
          if !AwaitsLoopCondition() {
            RejectLoop();
            verdict := BadContext;
          } else {
            SetLoop(lpstate[lpndx].(state := LoopDo));
          }
        } else if words[0].KwDone? {
          rest, verdict := ParseDone(words);
        } else if AwaitsLoopCondition() {
          RejectLoop();
          verdict := BadContext;
        }
      }
    }

    /** The `if` part of nsh_itef. */
    method ParseIf(words: Command) returns (rest: Command, verdict: Verdict)
      requires Valid() && words != []
      modifies this`iendx, iestate
      ensures Valid()
      ensures Parsed(View(), rest, verdict) == NshControl.ParseIf(old(View()), words)
    {
      var inverted := |words| > 1 && words[1].KwBang?;
      rest := if inverted then words[2..] else words[1..];
      if NoCommand(rest) {
        RejectItef();
        verdict := BadArgument;
      } else if iestate[iendx].state == ItefIf {
        RejectItef();
        verdict := BadContext;
      } else if iendx >= iestate.Length - 1 {
        RejectItef();
        verdict := TooDeep;
      } else {
        var enabled := CmdEnabled();
        PushIf(IfEntry(ItefIf, !enabled, false, inverted));
        verdict := Accepted;
      }
    }

    /** The `fi` part of nsh_itef; the guard marked "Shouldn't happen" is not reached. */
    method ParseFi(words: Command) returns (rest: Command, verdict: Verdict)
      requires Valid() && words != []
      modifies this`iendx, iestate
      ensures Valid()
      ensures Parsed(View(), rest, verdict) == NshControl.ParseFi(old(View()), words)
    {
      rest := words[1..];
      if rest != [] {
        RejectItef();
        verdict := BadArgument;
      } else if iestate[iendx].state != ItefThen && iestate[iendx].state != ItefElse {
        RejectItef();
        verdict := BadContext;
      } else {
        assert iendx >= 1;
        iendx := iendx - 1;
        verdict := Accepted;
      }
    }

    /** nsh_itef */
    method ParseItef(words: Command) returns (rest: Command, verdict: Verdict)
      requires Valid()
      modifies this`iendx, iestate
      ensures Valid()
      ensures Parsed(View(), rest, verdict) == NshControl.ParseItef(old(View()), words)
    {
      rest, verdict := words, Accepted;
      if words != [] {
        var e := iestate[iendx];
        if words[0].KwIf? {
          rest, verdict := ParseIf(words);
        } else if words[0].KwThen? || words[0].KwElse? {
          rest := words[1..];
          if e.state != (if words[0].KwThen? then ItefIf else ItefThen) {
            RejectItef();
            verdict := BadContext;
          } else {
            SetIf(e.(state := if words[0].KwThen? then ItefThen else ItefElse));
          }
        } else if words[0].KwFi? {
          rest, verdict := ParseFi(words);
        } else if e.state == ItefIf {
          RejectItef();
          verdict := BadContext;
        }
      }
    }

    /** cmd_break */
    method Break()
      requires Valid()
      modifies this`iendx, lpstate
      ensures Valid()
      ensures View() == old(View()).(st := old(View()).st.Break())
    {
      var e := lpstate[lpndx];
      if e.state == LoopDo {
        SetLoop(e.(enable := false));
        iendx := e.iendx;
      }
    }

    /** nsh_execute, with the command itself replaced by its status. */
    method Execute(env: Env, words: Command) returns (ok: bool)
      requires Valid() && words != []
      modifies this, lpstate, iestate
      ensures Valid()
      ensures Saved(View(), ok) == NshControl.Execute(env, old(View()), words)
    {
      if words[0].KwBreak? {
        Break();
        ok := SaveResult(false);
      } else {
        trace := trace + [words];
        ok := SaveResult(env.fails(trace));
      }
    }

    /** The control skeleton of nsh_parse_command. */
    method ParseCommand(env: Env, words: Command) returns (ok: bool)
      requires Valid()
      modifies this, lpstate, iestate
      ensures Valid()
      ensures Saved(View(), ok) == NshControl.ParseCommand(env, old(View()), words)
    {
      var rest, verdict := ParseLoop(words);
      if verdict != Accepted {
        ok := SaveResult(true);
        return;
      }
      rest, verdict := ParseItef(rest);
      if verdict != Accepted {
        ok := SaveResult(true);
        return;
      }
      var enabled := CmdEnabled();
      if rest == [] || !enabled { return true; }
      ok := Execute(env, rest);
    }

    twostate lemma Fetched()
      requires unchanged(lpstate) && unchanged(iestate)
      requires lpndx == old(lpndx) && iendx == old(iendx) && fail == old(fail)
      requires seekable == old(seekable) && trace == old(trace) && stopped == old(stopped)
      requires foffs == old(pos) && pos == old(pos) + 1 && !jump
      ensures View() == Read(old(View()))
    {}

    /** Fetch the next line and parse it. */
    method ReadLine(script: seq<Command>, env: Env) returns (ok: bool)
      requires Valid() && pos < |script|
      modifies this, lpstate, iestate
      ensures Valid()
      ensures Saved(View(), ok) == NshControl.ParseCommand(env, Read(old(View())), script[old(View()).pos])
    {
      foffs, pos, jump := pos, pos + 1, false;
      Fetched();
      ok := ParseCommand(env, script[foffs]);
    }

    /** One pass of the loop of nsh_script over a script of one command a line. */
    method Advance(script: seq<Command>, env: Env)
      requires Valid() && !Halted(script, View())
      modifies this, lpstate, iestate
      ensures Valid()
      ensures View() == Step(script, env, old(View()))
    {
      var ok := ReadLine(script, env);
      ghost var parsed := Saved(View(), ok);
      stopped := !ok && !env.ignore;
      assert View() == Conclude(env, parsed);
    }

    /**
     The loop of nsh_script, for at most `limit` lines: a script may loop for
     ever, so the number of lines is the caller's.
     */
    method RunScript(script: seq<Command>, env: Env, limit: nat)
      requires Valid()
      modifies this, lpstate, iestate
      ensures Valid()
      ensures View() == Run(script, env, old(View()), limit)
    {
      for i := 0 to limit
        invariant Valid()
        invariant View() == Run(script, env, old(View()), i)
      {
        if !stopped && pos < |script| {
          Advance(script, env);
        }
      }
    }
  }
}
