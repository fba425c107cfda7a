/**
 What becomes of an alias that is saved while a command runs.  Deleting an alias that
 the command has expanded only flags it, and the flag stays: an `alias` of the same name
 succeeds and gives it a value, but the end of the command deletes it all the same.
 */
module NshAliasFate {
  import opened Basics
  import opened NshAlias
  import opened NshAliasMarks
  import opened NshAliasValues

  /** Entry `i` is live and has this name, value and flag. */
  ghost predicate Live(t: Table, i: nat, name: string, value: Option<string>, rem: bool) {
    && i in t.alist && i < |t.atab|
    && t.atab[i].name == Some(name) && t.atab[i].value == value && t.atab[i].rem == rem
  }

  /** No live entry has the name. */
  ghost predicate Gone(t: Table, name: string) {
    forall j :: j in t.alist && j < |t.atab| ==> t.atab[j].name != Some(name)
  }

  /** Nothing in the script deletes the alias. */
  predicate Spares(s: Script, name: string) {
    match s
    case End => true
    case Expand(_, rest) => Spares(rest, name)
    case SaveAlias(n, _, c, rest) => (n == name ==> c.value) && Spares(rest, name)
    case Unalias(n, rest) => n != name && Spares(rest, name)
    case UnaliasAll(_) => false
    case Command(body, rest) => Spares(body, name) && Spares(rest, name)
  }

  // ------------------------------------------------------------------------- single events

  lemma {:induction false} DeleteOther(t: Table, j: nat, i: nat, name: string, value: Option<string>, rem: bool)
    requires Inv(t) && Live(t, i, name, value, rem) && j in t.alist && j != i
    ensures Live(Delete(t, j), i, name, value, rem)
  {
    DeleteLeaves(t, j, i);
  }

  lemma {:induction false} SaveOther(t: Table, n: string, v: string, c: Copies,
                                     i: nat, name: string, value: Option<string>, rem: bool)
    requires Inv(t) && Live(t, i, name, value, rem) && n != name
    ensures Live(Save(t, n, v, c).t, i, name, value, rem)
  {
    if n != "" {
      match Find(t.atab, t.alist, n)
      case Some(j) =>
        var e := t.atab[j].(value := Copy(v, c.value));
        if !c.value && !t.atab[j].exp { DeletedInPlace(t.(atab := t.atab[j := e]), j); }
      case None =>
        if t.afree != [] {
          assert t.afree[0] in t.afree;
          var e := Entry(Copy(n, c.name), Copy(v, c.value), false, false);
          Enlisted(t, e);
          if !(c.name && c.value) { EnlistUndone(t, e); }
        }
    }
  }

  lemma {:induction false} SaveSame(t: Table, v: string, c: Copies,
                                    i: nat, name: string, value: Option<string>, rem: bool)
    requires Inv(t) && Live(t, i, name, value, rem) && name != "" && c.value
    ensures Save(t, name, v, c).ok && Live(Save(t, name, v, c).t, i, name, Some(v), rem)
  {
    FindIs(t, name, i);
  }

  /** The value after one event. */
  function Now(s: Script, name: string, value: Option<string>): Option<string> {
    if s.SaveAlias? && s.name == name && name != "" then Copy(s.value, s.copies.value) else value
  }

  lemma {:induction false} HappenLive(outer: set<nat>, l: Level, s: Script,
                                      i: nat, name: string, value: Option<string>, rem: bool)
    requires LevelOk(outer, l) && Live(l.t, i, name, value, rem)
    requires !s.End? && !s.Command? && Spares(s, name)
    ensures Live(Happen(outer, l, s).t, i, name, Now(s, name, value), rem)
  {
    match s
    case Expand(_, _) =>
    case SaveAlias(n, v, c, _) =>
      if n != name {
        SaveOther(l.t, n, v, c, i, name, value, rem);
      } else if name != "" {
        SaveSame(l.t, v, c, i, name, value, rem);
      }
    case Unalias(n, _) =>
      var j := Find(l.t.atab, l.t.alist, n);
      if j.Some? { DeleteOther(l.t, j.value, i, name, value, rem); }
  }

  // ------------------------------------------------------------------ the end of a command

  lemma {:induction false} UnmarkOther(t: Table, j: nat, i: nat, name: string, value: Option<string>, rem: bool)
    requires Inv(t) && j < |t.atab| && t.atab[j].exp && Live(t, i, name, value, rem)
    requires j != i || !rem
    ensures Live(Unmark(t, j), i, name, value, rem)
  {
    MarkedIsLive(t, j);
    if t.atab[j].rem {
      DeletedInPlace(t.(atab := t.atab[j := t.atab[j].(exp := false)]), j);
    }
  }

  lemma {:induction false} UnmarkFlagged(t: Table, i: nat, name: string, value: Option<string>)
    requires Inv(t) && Live(t, i, name, value, true)
    ensures Gone(Unmark(t, i), name)
  {
    DeletedInPlace(t.(atab := t.atab[i := t.atab[i].(exp := false)]), i);
  }

  lemma {:induction false} UnmarkGone(t: Table, j: nat, name: string)
    requires Inv(t) && j < |t.atab| && t.atab[j].exp && Gone(t, name)
    ensures Gone(Unmark(t, j), name)
  {
    MarkedIsLive(t, j);
    if t.atab[j].rem {
      DeletedInPlace(t.(atab := t.atab[j := t.atab[j].(exp := false)]), j);
    }
  }

  /** What one pass over the marks leaves for the others. */
  lemma {:induction false} UnmarkStep(outer: set<nat>, l: Level)
    requires LevelOk(outer, l) && l.marks != []
    ensures l.marks[0] < |l.t.atab| && l.t.atab[l.marks[0]].exp
    ensures LevelOk(outer, Level(Unmark(l.t, l.marks[0]), l.marks[1..]))
  {
    var i := l.marks[0];
    assert i in l.marks;
    UnmarkKeeps(l.t, i);
    assert forall j :: j in l.marks <==> j == i || j in l.marks[1..];
  }

  lemma {:induction false} UnmarkAllGone(outer: set<nat>, l: Level, name: string)
    requires LevelOk(outer, l) && Gone(l.t, name)
    ensures Gone(UnmarkAll(l.t, l.marks), name)
    decreases |l.marks|
  {
    if l.marks != [] {
      UnmarkStep(outer, l);
      UnmarkGone(l.t, l.marks[0], name);
      UnmarkAllGone(outer, Level(Unmark(l.t, l.marks[0]), l.marks[1..]), name);
    }
  }

  /** The end of a command deletes exactly what it has marked and finds flagged. */
  lemma {:induction false} UnmarkAllLive(outer: set<nat>, l: Level,
                                         i: nat, name: string, value: Option<string>, rem: bool)
    requires LevelOk(outer, l) && Live(l.t, i, name, value, rem)
    ensures if rem && i in l.marks then Gone(UnmarkAll(l.t, l.marks), name)
            else Live(UnmarkAll(l.t, l.marks), i, name, value, rem)
    decreases |l.marks|
  {
    if l.marks != [] {
      var j := l.marks[0];
      UnmarkStep(outer, l);
      var l1 := Level(Unmark(l.t, j), l.marks[1..]);
      assert i in l.marks <==> i == j || i in l1.marks;
      if rem && i == j {
        UnmarkFlagged(l.t, i, name, value);
        UnmarkAllGone(outer, l1, name);
      } else {
        UnmarkOther(l.t, j, i, name, value, rem);
        UnmarkAllLive(outer, l1, i, name, value, rem);
      }
    }
  }

  // --------------------------------------------------------------------------- whole commands

  /** An alias that nothing deletes stays live, with the value saved last and its flag, at any depth of commands. */
  lemma {:induction false} PlayLive(outer: set<nat>, l: Level, s: Script,
                                    i: nat, name: string, value: Option<string>, rem: bool)
    requires LevelOk(outer, l) && Live(l.t, i, name, value, rem) && Spares(s, name)
    ensures Live(Play(outer, l, s).t, i, name, LastSaved(s, name, value), rem)
    decreases s, 0
  {
    if s.Command? {
      InnerLevel(outer, l);
      CommandLive(AllMarks(outer, l), l.t, s.body, i, name, value, rem);
      var t := RunCommand(AllMarks(outer, l), l.t, s.body);
      OuterLevel(outer, l, t);
      PlayLive(outer, l.(t := t), s.rest, i, name, LastSaved(s.body, name, value), rem);
    } else if !s.End? {
      HappenLive(outer, l, s, i, name, value, rem);
      PlayLive(outer, Happen(outer, l, s), s.rest, i, name, Now(s, name, value), rem);
    }
  }

  /** A command deletes no alias that was flagged before it began. */
  lemma {:induction false} CommandLive(outer: set<nat>, t: Table, body: Script,
                                       i: nat, name: string, value: Option<string>, rem: bool)
    requires LevelOk(outer, Level(t, [])) && Live(t, i, name, value, rem) && Spares(body, name)
    ensures Live(RunCommand(outer, t, body), i, name, LastSaved(body, name, value), rem)
    decreases body, 1
  {
    PlayLive(outer, Level(t, []), body, i, name, value, rem);
    var l := Play(outer, Level(t, []), body);
    assert rem ==> i in outer;
    UnmarkAllLive(outer, l, i, name, LastSaved(body, name, value), rem);
  }

  function Append(s: Script, more: Script): Script {
    match s
    case End => more
    case Expand(token, rest) => Expand(token, Append(rest, more))
    case SaveAlias(n, v, c, rest) => SaveAlias(n, v, c, Append(rest, more))
    case Unalias(n, rest) => Unalias(n, Append(rest, more))
    case UnaliasAll(rest) => UnaliasAll(Append(rest, more))
    case Command(body, rest) => Command(body, Append(rest, more))
  }

  lemma {:induction false} PlayAppend(outer: set<nat>, l: Level, s: Script, more: Script)
    requires LevelOk(outer, l)
    ensures Play(outer, l, Append(s, more)) == Play(outer, Play(outer, l, s), more)
    decreases s
  {
    if s.Command? {
      InnerLevel(outer, l);
      var t := RunCommand(AllMarks(outer, l), l.t, s.body);
      OuterLevel(outer, l, t);
      PlayAppend(outer, l.(t := t), s.rest, more);
    } else if !s.End? {
      PlayAppend(outer, Happen(outer, l, s), s.rest, more);
    }
  }

  /** The alias was deleted while marked by the command that is running. */
  ghost predicate Doomed(outer: set<nat>, t: Table, name: string)
    requires Listed(t)
  {
    match Find(t.atab, t.alist, name)
    case Some(i) => t.atab[i].rem && i !in outer
    case None => false
  }

  /** A save that succeeds makes the alias live, flagged exactly when it was before. */
  lemma {:induction false} SaveLive(outer: set<nat>, t: Table, name: string, value: string, c: Copies) returns (i: nat)
    requires Inv(t) && name != "" && Save(t, name, value, c).ok
    ensures i < |t.atab| && Live(Save(t, name, value, c).t, i, name, Some(value), t.atab[i].rem)
    ensures Doomed(outer, t, name) <==> t.atab[i].rem && i !in outer
  {
    match Find(t.atab, t.alist, name)
    case Some(j) =>
      i := j;
      SaveSame(t, value, c, i, name, t.atab[i].value, t.atab[i].rem);
    case None =>
      i := t.afree[0];
      assert i in t.afree;
      Enlisted(t, Entry(Some(name), Some(value), false, false));
  }

  /** The end of a command in which the alias was live and nothing has deleted it since. */
  lemma {:induction false} EndValue(outer: set<nat>, l: Level, i: nat, name: string, value: Option<string>, rem: bool)
    requires LevelOk(outer, l) && Live(l.t, i, name, value, rem)
    ensures Inv(UnmarkAll(l.t, l.marks))
    ensures Value(UnmarkAll(l.t, l.marks), name) == if rem && i !in outer then None else value
  {
    UnmarkLevel(outer, l);
    UnmarkAllLive(outer, l, i, name, value, rem);
    if !(rem && i in l.marks) { FindIs(UnmarkAll(l.t, l.marks), name, i); }
  }

  /**
   An alias that is saved with success inside a command, and not deleted after that, is
   there at the end of the command with the value saved last, exactly when it was not
   already deleted in the same command while the command had it marked.
   */
  lemma {:induction false} SavedSurvivesIff(outer: set<nat>, t: Table, before: Script,
                                            name: string, value: string, c: Copies, rest: Script)
    requires LevelOk(outer, Level(t, [])) && name != "" && Spares(rest, name)
    requires Save(Play(outer, Level(t, []), before).t, name, value, c).ok
    ensures
      var l := Play(outer, Level(t, []), before);
      var r := RunCommand(outer, t, Append(before, SaveAlias(name, value, c, rest)));
      && (Value(r, name).Some? <==> !Doomed(outer, l.t, name))
      && (Value(r, name).Some? ==> Value(r, name) == LastSaved(rest, name, Some(value)))
  {
    SparedHasValue(rest, name, Some(value));
    var l := Play(outer, Level(t, []), before);
    var event := SaveAlias(name, value, c, rest);
    PlayAppend(outer, Level(t, []), before, event);
    var i := SaveLive(outer, l.t, name, value, c);
    var l1 := Happen(outer, l, event);
    PlayLive(outer, l1, rest, i, name, Some(value), l.t.atab[i].rem);
    EndValue(outer, Play(outer, l1, rest), i, name, LastSaved(rest, name, Some(value)), l.t.atab[i].rem);
  }

  /** What was saved last has a value where every save of the name succeeds. */
  lemma {:induction false} SparedHasValue(s: Script, name: string, value: Option<string>)
    requires Spares(s, name) && value.Some?
    ensures LastSaved(s, name, value).Some?
  {
    match s
    case End =>
    case SaveAlias(_, _, _, rest) => SparedHasValue(rest, name, Now(s, name, value));
    case Command(body, rest) =>
      SparedHasValue(body, name, value);
      SparedHasValue(rest, name, LastSaved(body, name, value));
    case Expand(_, rest) => SparedHasValue(rest, name, value);
    case Unalias(_, rest) => SparedHasValue(rest, name, value);
  }

  /** Any alias that a command uses and then deletes: a save after that does not last. */
  lemma {:induction false} UsedAndDeleted(t: Table, name: string)
    requires Inv(t) && Quiet(t) && Value(t, name).Some?
    ensures LevelOk({}, Level(t, []))
    ensures Doomed({}, Play({}, Level(t, []), Expand(name, Unalias(name, End))).t, name)
  {
    var i := Find(t.atab, t.alist, name).value;
    MarkLevel({}, Level(t, []), i);
    PlayEvent({}, Level(t, []), Expand(name, Unalias(name, End)));
    DeletedWhenMarked({}, Mark(Level(t, []), i), i, name);
  }

  lemma {:induction false} PlayEvent(outer: set<nat>, l: Level, s: Script)
    requires LevelOk(outer, l) && !s.End? && !s.Command?
    ensures Play(outer, l, s) == Play(outer, Happen(outer, l, s), s.rest)
  {}

  lemma {:induction false} DeletedWhenMarked(outer: set<nat>, l: Level, i: nat, name: string)
    requires LevelOk(outer, l) && i in l.marks && i in l.t.alist && l.t.atab[i].name == Some(name)
    ensures Doomed(outer, Play(outer, l, Unalias(name, End)).t, name)
  {
    assert l.t.atab[i].exp;
    FindIs(l.t, name, i);
    DeleteKeeps(l.t, i);
    FindIs(Delete(l.t, i), name, i);
    PlayEvent(outer, l, Unalias(name, End));
  }
}
