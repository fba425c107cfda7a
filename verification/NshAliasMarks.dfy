/**
 The marks on aliases while commands run.  A command marks every alias it
 expands, may run further commands, may add and delete aliases, and at its end
 takes back the marks it made.
 */
module NshAliasMarks {
  import opened Basics
  import opened NshAlias

  /** What happens while a command runs, `Command` being a command inside it. */
  datatype Script =
    | End
    | Expand(token: string, rest: Script)
    | SaveAlias(name: string, value: string, copies: Copies, rest: Script)
    | Unalias(name: string, rest: Script)
    | UnaliasAll(rest: Script)
    | Command(body: Script, rest: Script)

  /** The table, and the aliases marked by the command that is running. */
  datatype Level = Level(t: Table, marks: seq<nat>)

  // ----------------------------------------------------------------------- operations

  predicate NoDup(s: seq<nat>) { forall i, j :: 0 <= i < j < |s| ==> s[i] != s[j] }

  /** alias_removeall: the live list as it was, one deletion after the other. */
  function DeleteAll(t: Table, list: seq<nat>): (r: Table)
    requires forall i :: i in list ==> i < |t.atab|
    ensures |r.atab| == |t.atab|
    decreases |list|
  {
    if list == [] then t
    else
      assert list[0] in list;
      assert forall i :: i in list[1..] ==> i in list;
      DeleteAll(Delete(t, list[0]), list[1..])
  }

  /** nsh_aliasfind: an alias that is not marked and has a value. */
  function AliasFind(t: Table, token: string): (r: Option<nat>)
    requires Listed(t)
    ensures r.Some? ==> r.value in t.alist && r.value < |t.atab| && !t.atab[r.value].exp
  {
    match Find(t.atab, t.alist, token)
    case Some(i) => if !t.atab[i].exp && t.atab[i].value.Some? then Some(i) else None
    case None => None
  }

  /** An alias is expanded exactly when it is live, has a value and is not marked. */
  lemma {:induction false} ExpandsIff(t: Table, token: string, i: nat)
    requires Inv(t)
    ensures AliasFind(t, token) == Some(i) <==>
            i in t.alist && t.atab[i].name == Some(token) && t.atab[i].value.Some? && !t.atab[i].exp
  {
    if i in t.alist && t.atab[i].name == Some(token) { FindIs(t, token, i); }
  }

  /** nsh_alist_add, which does nothing when its list is full. */
  function Mark(l: Level, i: nat): Level
    requires i < |l.t.atab|
  {
    if |l.marks| < |l.t.atab| then
      Level(l.t.(atab := l.t.atab[i := l.t.atab[i].(exp := true)]), l.marks + [i])
    else l
  }

  /** One pass of nsh_alist_free. */
  function Unmark(t: Table, i: nat): (r: Table)
    requires i < |t.atab|
    ensures |r.atab| == |t.atab|
  {
    var t1 := t.(atab := t.atab[i := t.atab[i].(exp := false)]);
    if t.atab[i].rem then Delete(t1, i) else t1
  }

  function UnmarkAll(t: Table, marks: seq<nat>): (r: Table)
    requires forall i :: i in marks ==> i < |t.atab|
    ensures |r.atab| == |t.atab|
    decreases |marks|
  {
    if marks == [] then t
    else
      assert marks[0] in marks;
      assert forall i :: i in marks[1..] ==> i in marks;
      UnmarkAll(Unmark(t, marks[0]), marks[1..])
  }

  // ----------------------------------------------------------------- what each one keeps

  lemma {:induction false} MarkedIsLive(t: Table, i: nat)
    requires Inv(t) && i < |t.atab| && t.atab[i].exp
    ensures i in t.alist
  {
    PartitionMeans(t, i);
  }

  /** Deletion removes at most the alias itself from the live list. */
  lemma {:induction false} DeleteLeaves(t: Table, i: nat, j: nat)
    requires Inv(t) && i in t.alist && j in t.alist && j != i
    ensures j in Delete(t, i).alist
  {
    if !t.atab[i].exp { DeletedInPlace(t, i); }
  }

  lemma {:induction false} DeleteAllKeeps(t: Table, list: seq<nat>)
    requires Inv(t) && NoDup(list) && forall i :: i in list ==> i in t.alist
    ensures Inv(DeleteAll(t, list)) && SameMarks(t, DeleteAll(t, list))
    decreases |list|
  {
    if list != [] {
      var i := list[0];
      assert i in list;
      DeleteKeeps(t, i);
      forall j | j in list[1..] ensures j in Delete(t, i).alist {
        assert j in list && j != i;
        DeleteLeaves(t, i, j);
      }
      DeleteAllKeeps(Delete(t, i), list[1..]);
    }
  }

  lemma {:induction false} LiveNoDup(t: Table)
    requires Inv(t)
    ensures NoDup(t.alist)
  {
    forall i, j | 0 <= i < j < |t.alist| ensures t.alist[i] != t.alist[j] {
      var s := t.alist;
      PartitionMeans(t, s[i]);
      assert s == s[..i] + [s[i]] + s[i + 1..j] + [s[j]] + s[j + 1..];
      assert s[i] == s[j] ==> multiset(s)[s[i]] >= 2;
    }
  }

  lemma {:induction false} UnmarkKeeps(t: Table, i: nat)
    requires Inv(t) && i < |t.atab| && t.atab[i].exp
    ensures Inv(Unmark(t, i)) && !Unmark(t, i).atab[i].exp
    ensures forall j :: 0 <= j < |t.atab| && j != i ==> Unmark(t, i).atab[j].exp == t.atab[j].exp
  {
    MarkedIsLive(t, i);
    var e := t.atab[i].(exp := false);
    if t.atab[i].rem {
      // Blanking the entry hides that it was unmarked and unflagged first.
      var u := t.(atab := t.atab[i := e.(rem := false, value := Some(""))]);
      UpdateKeeps(t, i, e.(rem := false, value := Some("")));
      DeleteKeeps(u, i);
      assert t.atab[i := e][i := BLANK] == u.atab[i := BLANK];
    } else {
      UpdateKeeps(t, i, e);
    }
  }

  // --------------------------------------------------------------------- running commands

  /**
   The situation while a command runs: the aliases marked are those marked
   when it began, `outer`, and those it has marked itself, each once.
   */
  ghost predicate LevelOk(outer: set<nat>, l: Level) {
    && Inv(l.t)
    && NoDup(l.marks)
    && (forall i :: i in l.marks ==> i < |l.t.atab| && i !in outer)
    && (forall i :: 0 <= i < |l.t.atab| ==> (l.t.atab[i].exp <==> i in outer || i in l.marks))
  }

  lemma {:induction false} SameMarksLevel(outer: set<nat>, l: Level, t: Table)
    requires LevelOk(outer, l) && Inv(t) && SameMarks(l.t, t)
    ensures LevelOk(outer, Level(t, l.marks))
  {}

  lemma {:induction false} FitsIn(s: seq<nat>, bound: set<nat>)
    requires NoDup(s) && forall i :: i in s ==> i in bound
    ensures |s| <= |bound|
    decreases |s|
  {
    if s != [] {
      assert s[0] in s;
      forall i | i in s[1..] ensures i in bound - {s[0]} { assert i in s; }
      FitsIn(s[1..], bound - {s[0]});
    }
  }

  function Below(n: nat): (r: set<nat>)
    ensures |r| == n && forall i: nat :: i in r <==> i < n
  {
    if n == 0 then {}
    else
      var r := Below(n - 1);
      assert n - 1 !in r;
      r + {n - 1}
  }

  /** The list of marks is never full when an alias can be expanded. */
  lemma {:induction false} NeverFull(outer: set<nat>, l: Level, i: nat)
    requires LevelOk(outer, l) && i < |l.t.atab| && !l.t.atab[i].exp
    ensures |l.marks| < |l.t.atab|
  {
    FitsIn(l.marks + [i], Below(|l.t.atab|));
  }

  lemma {:induction false} MarkLevel(outer: set<nat>, l: Level, i: nat)
    requires LevelOk(outer, l) && i in l.t.alist && !l.t.atab[i].exp
    ensures LevelOk(outer, Mark(l, i)) && Mark(l, i).marks == l.marks + [i]
  {
    NeverFull(outer, l, i);
    UpdateKeeps(l.t, i, l.t.atab[i].(exp := true));
  }

  /** Taking back the marks of a command leaves those of the commands around it. */
  lemma {:induction false} UnmarkLevel(outer: set<nat>, l: Level)
    requires LevelOk(outer, l)
    ensures LevelOk(outer, Level(UnmarkAll(l.t, l.marks), []))
    decreases |l.marks|
  {
    if l.marks != [] {
      var i := l.marks[0];
      assert i in l.marks;
      UnmarkKeeps(l.t, i);
      var l1 := Level(Unmark(l.t, i), l.marks[1..]);
      assert forall j :: j in l.marks <==> j == i || j in l1.marks;
      UnmarkLevel(outer, l1);
    }
  }

  ghost function AllMarks(outer: set<nat>, l: Level): set<nat> { outer + (set i | i in l.marks) }

  lemma {:induction false} InnerLevel(outer: set<nat>, l: Level)
    requires LevelOk(outer, l)
    ensures LevelOk(AllMarks(outer, l), Level(l.t, []))
  {}

  lemma {:induction false} OuterLevel(outer: set<nat>, l: Level, t: Table)
    requires LevelOk(outer, l) && LevelOk(AllMarks(outer, l), Level(t, [])) && |t.atab| == |l.t.atab|
    ensures LevelOk(outer, l.(t := t))
  {}

  /** An event that is not a command of its own. */
  ghost function Happen(outer: set<nat>, l: Level, s: Script): (r: Level)
    requires LevelOk(outer, l)
    ensures LevelOk(outer, r) && |r.t.atab| == |l.t.atab|
  {
    match s
    case Expand(token, _) =>
      (match AliasFind(l.t, token)
       case Some(i) => MarkLevel(outer, l, i); Mark(l, i)
       case None => l)
    case SaveAlias(name, value, c, _) =>
      SaveKeeps(l.t, name, value, c);
      SameMarksLevel(outer, l, Save(l.t, name, value, c).t);
      l.(t := Save(l.t, name, value, c).t)
    case Unalias(name, _) =>
      (match Find(l.t.atab, l.t.alist, name)
       case Some(i) =>
         DeleteKeeps(l.t, i);
         SameMarksLevel(outer, l, Delete(l.t, i));
         l.(t := Delete(l.t, i))
       case None => l)
    case UnaliasAll(_) =>
      LiveNoDup(l.t);
      DeleteAllKeeps(l.t, l.t.alist);
      SameMarksLevel(outer, l, DeleteAll(l.t, l.t.alist));
      l.(t := DeleteAll(l.t, l.t.alist))
    case _ => l
  }

  /** A command in a table in which `outer` is marked, from its start to its end. */
  ghost function RunCommand(outer: set<nat>, t: Table, body: Script): (r: Table)
    requires LevelOk(outer, Level(t, []))
    ensures LevelOk(outer, Level(r, [])) && |r.atab| == |t.atab|
    decreases body, 1
  {
    var l := Play(outer, Level(t, []), body);
    UnmarkLevel(outer, l);
    UnmarkAll(l.t, l.marks)
  }

  /** What happens while a command runs.  Nothing in it loses or gains a mark. */
  ghost function Play(outer: set<nat>, l: Level, s: Script): (r: Level)
    requires LevelOk(outer, l)
    ensures LevelOk(outer, r) && |r.t.atab| == |l.t.atab|
    decreases s, 0
  {
    if s.End? then l
    else if s.Command? then
      InnerLevel(outer, l);
      var t := RunCommand(AllMarks(outer, l), l.t, s.body);
      OuterLevel(outer, l, t);
      Play(outer, l.(t := t), s.rest)
    else Play(outer, Happen(outer, l, s), s.rest)
  }

  function Marked(t: Table): set<nat> { set i | 0 <= i < |t.atab| && t.atab[i].exp }

  /**
   Whatever a command does, with commands inside commands to any depth: when it
   ends exactly the aliases are marked that were marked when it began, and the
   table is in order.
   */
  lemma {:induction false} CommandRestoresMarks(t: Table, body: Script)
    requires Inv(t)
    ensures
      var r := RunCommand(Marked(t), t, body);
      Inv(r) && Marked(r) == Marked(t)
  {
    var r := RunCommand(Marked(t), t, body);
    assert LevelOk(Marked(t), Level(r, []));
  }

  /** `unalias -a` outside a running command empties the table. */
  lemma {:induction false} UnaliasAllEmpties(t: Table)
    requires Inv(t) && Quiet(t)
    ensures DeleteAll(t, t.alist).alist == [] && Inv(DeleteAll(t, t.alist))
    decreases |t.alist|
  {
    LiveNoDup(t);
    DeleteAllKeeps(t, t.alist);
    if t.alist != [] {
      assert t.alist[0] in t.alist;
      DeleteKeeps(t, t.alist[0]);
      UnaliasAllEmpties(Delete(t, t.alist[0]));
    }
  }

  // -------------------------------------------------------------------------- the table

  /** The alias table of a session, updated in place. */
  class AliasTable {
    const atab: array<Entry>
    var alist: seq<nat>
    var afree: seq<nat>

    ghost function View(): Table
      reads this, atab
    {
      Table(atab[..], alist, afree)
    }

    constructor (size: nat)
      requires size > 0
      ensures fresh(atab) && atab.Length == size && alist == [] && afree == []
      ensures forall j :: 0 <= j < size ==> atab[j] == BLANK
    {
      atab := new Entry[size](_ => BLANK);
      alist, afree := [], [];
    }

    /** alias_init */
    method InitTable()
      modifies this
      ensures View() == Init(old(View()))
    {
      if alist != [] || afree != [] { return; }
      alist, afree := [], [];
      for i := 0 to atab.Length
        invariant alist == [] && afree == Upto(i)
      {
        afree := afree + [i];
      }
    }

    /** alias_find */
    method FindAlias(name: string) returns (r: Option<nat>)
      requires Listed(View())
      ensures r == Find(View().atab, alist, name)
    {
      var rest: seq<nat> := alist;
      while rest != []
        invariant forall i :: i in rest ==> i < atab.Length
        invariant Find(View().atab, alist, name) == Find(View().atab, rest, name)
        decreases |rest|
      {
        assert rest[0] in rest;
        if atab[rest[0]].name == Some(name) { return Some(rest[0]); }
        assert forall i :: i in rest[1..] ==> i in rest;
        rest := rest[1..];
      }
      r := None;
    }

    method Put(i: nat, e: Entry)
      requires i < atab.Length
      modifies atab
      ensures View() == old(View()).(atab := old(View()).atab[i := e])
    {
      ghost var before := atab[..];
      atab[i] := e;
      assert atab[..] == before[i := e];
    }

    /** alias_delete */
    method DeleteAlias(i: nat)
      requires i < atab.Length
      modifies this, atab
      ensures View() == Delete(old(View()), i)
    {
      if atab[i].exp {
        Put(i, atab[i].(rem := true));
      } else {
        Put(i, BLANK);
        alist := Remove(alist, i);
        afree := [i] + afree;
      }
    }

    /** alias_save */
    method SaveEntry(name: string, value: string, c: Copies) returns (ok: bool)
      requires Listed(View())
      modifies this, atab
      ensures Outcome(View(), ok) == Save(old(View()), name, value, c)
    {
      if name == "" { return false; }
      var found := FindAlias(name);
      var i: nat;
      if found.Some? {
        i := found.value;
        Put(i, atab[i].(value := Copy(value, c.value)));
      } else if afree != [] {
        i := afree[0];
        assert i in afree;
        Put(i, atab[i].(name := Copy(name, c.name), value := Copy(value, c.value)));
        alist, afree := alist + [i], afree[1..];
      } else {
        return false;
      }
      ok := atab[i].name.Some? && atab[i].value.Some?;
      if !ok { DeleteAlias(i); }
    }

    /** alias_removeall */
    method RemoveAll()
      requires Listed(View())
      modifies this, atab
      ensures View() == DeleteAll(old(View()), old(alist))
    {
      ghost var whole := DeleteAll(View(), alist);
      var rest: seq<nat> := alist;
      while rest != []
        invariant forall i :: i in rest ==> i < atab.Length
        invariant DeleteAll(View(), rest) == whole
        decreases |rest|
      {
        assert rest[0] in rest;
        var next := rest[1..];
        assert forall i :: i in next ==> i in rest;
        DeleteAlias(rest[0]);
        rest := next;
      }
    }

    /** nsh_aliasfind */
    method FindToExpand(token: string) returns (r: Option<nat>)
      requires Inv(View())
      modifies this
      ensures View() == old(View()) && r == AliasFind(View(), token)
    {
      InitOnce(View());
      InitTable();
      r := FindAlias(token);
      if r.Some? && (atab[r.value].exp || atab[r.value].value.None?) { r := None; }
    }

    /** nsh_alist_add */
    method AddMark(marks: seq<nat>, i: nat) returns (marks': seq<nat>)
      requires i < atab.Length
      modifies atab
      ensures Level(View(), marks') == Mark(Level(old(View()), marks), i)
    {
      marks' := marks;
      if |marks| < atab.Length {
        Put(i, atab[i].(exp := true));
        marks' := marks + [i];
      }
    }

    /** nsh_alist_free */
    method FreeMarks(marks: seq<nat>)
      requires forall i :: i in marks ==> i < atab.Length
      modifies this, atab
      ensures View() == UnmarkAll(old(View()), marks)
    {
      ghost var whole := UnmarkAll(View(), marks);
      var rest: seq<nat> := marks;
      while rest != []
        invariant forall i :: i in rest ==> i < atab.Length
        invariant UnmarkAll(View(), rest) == whole
        decreases |rest|
      {
        var i := rest[0];
        assert i in rest;
        assert forall j :: j in rest[1..] ==> j in rest;
        Put(i, atab[i].(exp := false));
        if atab[i].rem { DeleteAlias(i); }
        rest := rest[1..];
      }
    }
  }
}
