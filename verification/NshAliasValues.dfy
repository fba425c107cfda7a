/**
 The value of an alias while it is being expanded.  Deleting a marked alias
 keeps its name and value; saving it again replaces the value at once.
 */
module NshAliasValues {
  import opened Basics
  import opened NshAlias
  import opened NshAliasMarks

  /** The value that the last save of the name in the script leaves, or `value` if there is none. */
  function LastSaved(s: Script, name: string, value: Option<string>): Option<string> {
    match s
    case End => value
    case SaveAlias(n, v, c, rest) =>
      LastSaved(rest, name, if n == name && n != "" then Copy(v, c.value) else value)
    case Command(body, rest) => LastSaved(rest, name, LastSaved(body, name, value))
    case Expand(_, rest) => LastSaved(rest, name, value)
    case Unalias(_, rest) => LastSaved(rest, name, value)
    case UnaliasAll(rest) => LastSaved(rest, name, value)
  }

  predicate Saves(s: Script, name: string) {
    match s
    case End => false
    case SaveAlias(n, _, _, rest) => (n == name && n != "") || Saves(rest, name)
    case Command(body, rest) => Saves(body, name) || Saves(rest, name)
    case Expand(_, rest) => Saves(rest, name)
    case Unalias(_, rest) => Saves(rest, name)
    case UnaliasAll(rest) => Saves(rest, name)
  }

  /** Entry `i` is marked and has this name and value. */
  ghost predicate Holds(t: Table, i: nat, name: string, value: Option<string>) {
    i < |t.atab| && t.atab[i].exp && t.atab[i].name == Some(name) && t.atab[i].value == value
  }

  lemma {:induction false} DeleteHolds(t: Table, j: nat, i: nat, name: string, value: Option<string>)
    requires Holds(t, i, name, value) && j < |t.atab|
    ensures Holds(Delete(t, j), i, name, value)
  {}

  lemma {:induction false} DeleteAllHolds(t: Table, list: seq<nat>, i: nat, name: string, value: Option<string>)
    requires Holds(t, i, name, value) && forall j :: j in list ==> j < |t.atab|
    ensures Holds(DeleteAll(t, list), i, name, value)
    decreases |list|
  {
    if list != [] {
      assert list[0] in list;
      assert forall j :: j in list[1..] ==> j in list;
      DeleteHolds(t, list[0], i, name, value);
      DeleteAllHolds(Delete(t, list[0]), list[1..], i, name, value);
    }
  }

  lemma {:induction false} UnmarkAllHolds(t: Table, marks: seq<nat>, i: nat, name: string, value: Option<string>)
    requires Holds(t, i, name, value) && i !in marks && forall j :: j in marks ==> j < |t.atab|
    ensures Holds(UnmarkAll(t, marks), i, name, value)
    decreases |marks|
  {
    if marks != [] {
      assert marks[0] in marks;
      assert forall j :: j in marks[1..] ==> j in marks;
      UnmarkAllHolds(Unmark(t, marks[0]), marks[1..], i, name, value);
    }
  }

  /** Saving another name leaves the entry alone; saving its own name replaces the value. */
  lemma {:induction false} SaveHolds(t: Table, n: string, v: string, c: Copies,
                                     i: nat, name: string, value: Option<string>)
    requires Inv(t) && Holds(t, i, name, value)
    ensures Holds(Save(t, n, v, c).t, i, name, if n == name && n != "" then Copy(v, c.value) else value)
  {
    MarkedIsLive(t, i);
    if n == name {
      FindIs(t, name, i);
    } else if t.afree != [] {
      assert t.afree[0] in t.afree;
      PartitionMeans(t, i);
    }
  }

  /** One event that is not a command. */
  lemma {:induction false} HappenHolds(outer: set<nat>, l: Level, s: Script,
                                       i: nat, name: string, value: Option<string>)
    requires LevelOk(outer, l) && Holds(l.t, i, name, value) && !s.End? && !s.Command?
    ensures
      var now := if s.SaveAlias? && s.name == name && name != "" then Copy(s.value, s.copies.value) else value;
      Holds(Happen(outer, l, s).t, i, name, now)
  {
    match s
    case Expand(token, _) =>
    case SaveAlias(n, v, c, _) => SaveHolds(l.t, n, v, c, i, name, value);
    case Unalias(n, _) =>
      var j := Find(l.t.atab, l.t.alist, n);
      if j.Some? { DeleteHolds(l.t, j.value, i, name, value); }
    case UnaliasAll(_) => DeleteAllHolds(l.t, l.t.alist, i, name, value);
  }

  /**
   Whatever happens while an alias is marked, at any depth of commands: it keeps its
   name, and its value is that of the last save of its name, or the old one.
   */
  lemma {:induction false} MarkedHolds(outer: set<nat>, l: Level, s: Script,
                                       i: nat, name: string, value: Option<string>)
    requires LevelOk(outer, l) && Holds(l.t, i, name, value)
    ensures Holds(Play(outer, l, s).t, i, name, LastSaved(s, name, value))
    decreases s, 0
  {
    if s.Command? {
      InnerLevel(outer, l);
      CommandHolds(AllMarks(outer, l), l.t, s.body, i, name, value);
      var t := RunCommand(AllMarks(outer, l), l.t, s.body);
      OuterLevel(outer, l, t);
      MarkedHolds(outer, l.(t := t), s.rest, i, name, LastSaved(s.body, name, value));
    } else if !s.End? {
      HappenHolds(outer, l, s, i, name, value);
      var now := if s.SaveAlias? && s.name == name && name != "" then Copy(s.value, s.copies.value) else value;
      MarkedHolds(outer, Happen(outer, l, s), s.rest, i, name, now);
    }
  }

  /** The same for a command inside the one that marked the alias, to its end. */
  lemma {:induction false} CommandHolds(outer: set<nat>, t: Table, body: Script,
                                        i: nat, name: string, value: Option<string>)
    requires LevelOk(outer, Level(t, [])) && i in outer && Holds(t, i, name, value)
    ensures Holds(RunCommand(outer, t, body), i, name, LastSaved(body, name, value))
    decreases body, 1
  {
    MarkedHolds(outer, Level(t, []), body, i, name, value);
    var l := Play(outer, Level(t, []), body);
    UnmarkAllHolds(l.t, l.marks, i, name, LastSaved(body, name, value));
  }

  lemma {:induction false} UnsavedKeeps(s: Script, name: string, value: Option<string>)
    requires !Saves(s, name)
    ensures LastSaved(s, name, value) == value
  {
    match s
    case End =>
    case SaveAlias(_, _, _, rest) => UnsavedKeeps(rest, name, value);
    case Command(body, rest) =>
      UnsavedKeeps(body, name, value);
      UnsavedKeeps(rest, name, value);
    case Expand(_, rest) => UnsavedKeeps(rest, name, value);
    case Unalias(_, rest) => UnsavedKeeps(rest, name, value);
    case UnaliasAll(rest) => UnsavedKeeps(rest, name, value);
  }

  lemma {:induction false} SavedForgets(s: Script, name: string, value: Option<string>, other: Option<string>)
    requires Saves(s, name)
    ensures LastSaved(s, name, value) == LastSaved(s, name, other)
  {
    match s
    case SaveAlias(n, v, c, rest) => if !(n == name && n != "") { SavedForgets(rest, name, value, other); }
    case Command(body, rest) =>
      if Saves(body, name) {
        SavedForgets(body, name, value, other);
      } else {
        UnsavedKeeps(body, name, value);
        UnsavedKeeps(body, name, other);
        SavedForgets(rest, name, value, other);
      }
    case Expand(_, rest) => SavedForgets(rest, name, value, other);
    case Unalias(_, rest) => SavedForgets(rest, name, value, other);
    case UnaliasAll(rest) => SavedForgets(rest, name, value, other);
  }

  /** The same situation with another value of the alias. */
  function WithValue(l: Level, i: nat, value: string): Level
    requires i < |l.t.atab|
  {
    l.(t := l.t.(atab := l.t.atab[i := l.t.atab[i].(value := Some(value))]))
  }

  lemma {:induction false} WithValueOk(outer: set<nat>, l: Level, i: nat, name: string, value: string)
    requires LevelOk(outer, l) && i < |l.t.atab| && l.t.atab[i].exp && l.t.atab[i].name == Some(name)
    ensures LevelOk(outer, WithValue(l, i, value)) && Holds(WithValue(l, i, value).t, i, name, Some(value))
  {
    MarkedIsLive(l.t, i);
    UpdateKeeps(l.t, i, l.t.atab[i].(value := Some(value)));
  }

  /** The alias had this value before and has it after. */
  ghost predicate Survives(outer: set<nat>, l: Level, s: Script, i: nat, name: string, value: string)
    requires i < |l.t.atab|
  {
    && LevelOk(outer, WithValue(l, i, value))
    && Holds(Play(outer, WithValue(l, i, value), s).t, i, name, Some(value))
  }

  lemma {:induction false} SurvivesLast(outer: set<nat>, l: Level, s: Script, i: nat, name: string, value: string)
    requires LevelOk(outer, l) && i < |l.t.atab| && l.t.atab[i].exp && l.t.atab[i].name == Some(name)
    ensures Survives(outer, l, s, i, name, value) <==> LastSaved(s, name, Some(value)) == Some(value)
  {
    WithValueOk(outer, l, i, name, value);
    MarkedHolds(outer, WithValue(l, i, value), s, i, name, Some(value));
  }

  /**
   Over everything that happens while an alias is marked: whatever its value is, it is
   there afterwards, exactly when the name is not saved meanwhile.
   */
  lemma {:induction false} ValueIsSafeIff(outer: set<nat>, l: Level, s: Script, i: nat, name: string)
    requires LevelOk(outer, l) && i < |l.t.atab| && l.t.atab[i].exp && l.t.atab[i].name == Some(name)
    ensures (forall value :: Survives(outer, l, s, i, name, value)) <==> !Saves(s, name)
  {
    if Saves(s, name) {
      SavedForgets(s, name, Some(""), Some("x"));
      SurvivesLast(outer, l, s, i, name, "");
      SurvivesLast(outer, l, s, i, name, "x");
    } else {
      forall value ensures Survives(outer, l, s, i, name, value) {
        UnsavedKeeps(s, name, Some(value));
        SurvivesLast(outer, l, s, i, name, value);
      }
    }
  }
}
