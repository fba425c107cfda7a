/**
 The alias table: a fixed array of entries on two lists, the live one and the
 free one, and the marks that keep an alias from being expanded twice in one
 command.  A marked alias is not deleted at once; it is flagged and deleted
 when the command that marked it ends.
 */
module NshAlias {
  import opened Basics

  datatype Entry = Entry(name: Option<string>, value: Option<string>, exp: bool, rem: bool)

  const BLANK := Entry(None, None, false, false)

  /** The entries, and the two lists as sequences of indices. */
  datatype Table = Table(atab: seq<Entry>, alist: seq<nat>, afree: seq<nat>)

  // --------------------------------------------------------------------------- lists

  function Upto(n: nat): (s: seq<nat>)
    ensures |s| == n
  {
    if n == 0 then [] else Upto(n - 1) + [n - 1]
  }

  lemma {:induction false} UptoCount(n: nat, i: nat)
    ensures multiset(Upto(n))[i] == if i < n then 1 else 0
  {
    if n > 0 { UptoCount(n - 1, i); }
  }

  /** sq_rem */
  function Remove(s: seq<nat>, i: nat): seq<nat> {
    if s == [] then [] else if s[0] == i then s[1..] else [s[0]] + Remove(s[1..], i)
  }

  lemma {:induction false} RemoveCounts(s: seq<nat>, i: nat)
    requires i in s
    ensures multiset(s) == multiset(Remove(s, i)) + multiset{i}
  {
    assert s == [s[0]] + s[1..];
    if s[0] != i { RemoveCounts(s[1..], i); }
  }

  // ----------------------------------------------------------------------- invariants

  /** Every entry is on exactly one of the lists. */
  ghost predicate Partition(t: Table) {
    multiset(t.alist) + multiset(t.afree) == multiset(Upto(|t.atab|))
  }

  lemma {:induction false} PartitionMeans(t: Table, i: nat)
    requires Partition(t)
    ensures i in t.alist || i in t.afree <==> i < |t.atab|
    ensures !(i in t.alist && i in t.afree)
    ensures multiset(t.alist)[i] <= 1
  {
    UptoCount(|t.atab|, i);
    assert (multiset(t.alist) + multiset(t.afree))[i] == multiset(t.alist)[i] + multiset(t.afree)[i];
    assert i in t.alist <==> multiset(t.alist)[i] > 0;
    assert i in t.afree <==> multiset(t.afree)[i] > 0;
  }

  /** A live entry has a name; it lacks a value or is flagged only while it is marked. */
  predicate LiveOk(e: Entry) {
    && e.name.Some?
    && (e.rem ==> e.exp)
    && (e.value.None? ==> e.rem)
  }

  ghost predicate Listed(t: Table) {
    && Partition(t)
    && (forall i :: i in t.alist ==> i < |t.atab|)
    && (forall i :: i in t.afree ==> i < |t.atab|)
  }

  ghost predicate Inv(t: Table) {
    && |t.atab| > 0
    && Listed(t)
    && (forall i :: i in t.alist ==> LiveOk(t.atab[i]))
    && (forall i :: i in t.afree ==> t.atab[i] == BLANK)
    && (forall i, j :: i in t.alist && j in t.alist && i != j ==> t.atab[i].name != t.atab[j].name)
  }

  // ------------------------------------------------------------------------ operations

  /** alias_init */
  function Init(t: Table): Table {
    if t.alist != [] || t.afree != [] then t else t.(alist := [], afree := Upto(|t.atab|))
  }

  /** alias_find: walk the live list. */
  function Find(atab: seq<Entry>, list: seq<nat>, name: string): (r: Option<nat>)
    requires forall i :: i in list ==> i < |atab|
    ensures r.Some? ==> r.value in list && atab[r.value].name == Some(name)
    ensures r.None? ==> forall i :: i in list ==> atab[i].name != Some(name)
  {
    if list == [] then None
    else
      assert list[0] in list;
      assert forall i :: i in list[1..] ==> i in list;
      if atab[list[0]].name == Some(name) then Some(list[0]) else Find(atab, list[1..], name)
  }

  /** alias_delete */
  function Delete(t: Table, i: nat): Table
    requires i < |t.atab|
  {
    if t.atab[i].exp then t.(atab := t.atab[i := t.atab[i].(rem := true)])
    else Table(t.atab[i := BLANK], Remove(t.alist, i), [i] + t.afree)
  }

  lemma {:induction false} DeletedInPlace(t: Table, i: nat)
    requires Partition(t) && i in t.alist && i < |t.atab| && !t.atab[i].exp
    ensures Partition(Delete(t, i))
    ensures forall j :: j in Delete(t, i).alist <==> j in t.alist && j != i
    ensures forall j :: j in Delete(t, i).afree <==> j in t.afree || j == i
  {
    var d := Delete(t, i);
    RemoveCounts(t.alist, i);
    PartitionMeans(t, i);
    forall j: nat ensures j in d.alist <==> j in t.alist && j != i {
      assert j in d.alist <==> multiset(d.alist)[j] > 0;
      assert j in t.alist <==> multiset(t.alist)[j] > 0;
    }
  }

  /** The same entries are marked. */
  predicate SameMarks(t: Table, t': Table) {
    |t.atab| == |t'.atab| && forall j :: 0 <= j < |t.atab| ==> t'.atab[j].exp == t.atab[j].exp
  }

  /** Changing a live entry without renaming it. */
  lemma {:induction false} UpdateKeeps(t: Table, i: nat, e: Entry)
    requires Inv(t) && i in t.alist && LiveOk(e) && e.name == t.atab[i].name
    ensures Inv(t.(atab := t.atab[i := e]))
  {
    PartitionMeans(t, i);
  }

  /** Deleting a live alias keeps the invariant, marked or not. */
  lemma {:induction false} DeleteKeeps(t: Table, i: nat)
    requires Inv(t) && i in t.alist
    ensures Inv(Delete(t, i)) && SameMarks(t, Delete(t, i))
  {
    if t.atab[i].exp {
      UpdateKeeps(t, i, t.atab[i].(rem := true));
    } else {
      DeletedInPlace(t, i);
    }
  }

  /** alias_save; the two flags say whether the copies of name and value can be allocated. */
  datatype Copies = Copies(name: bool, value: bool)

  function Copy(s: string, granted: bool): Option<string> {
    if granted then Some(s) else None
  }

  /** A table and whether the operation succeeded. */
  datatype Outcome = Outcome(t: Table, ok: bool)

  function Save(t: Table, name: string, value: string, c: Copies): (r: Outcome)
    requires Listed(t)
  {
    if name == "" then Outcome(t, false)
    else match Find(t.atab, t.alist, name)
      case Some(i) =>
        var t1 := t.(atab := t.atab[i := t.atab[i].(value := Copy(value, c.value))]);
        if c.value && t.atab[i].name.Some? then Outcome(t1, true) else Outcome(Delete(t1, i), false)
      case None =>
        if t.afree == [] then Outcome(t, false)
        else
          assert t.afree[0] in t.afree;
          var i := t.afree[0];
          var e := t.atab[i].(name := Copy(name, c.name), value := Copy(value, c.value));
          var t1 := Enlist(t, e);
          if c.name && c.value then Outcome(t1, true) else Outcome(Delete(t1, i), false)
  }

  /** Moving the first free entry to the end of the live list. */
  function Enlist(t: Table, e: Entry): Table
    requires t.afree != [] && t.afree[0] < |t.atab|
  {
    Table(t.atab[t.afree[0] := e], t.alist + [t.afree[0]], t.afree[1..])
  }

  lemma {:induction false} Enlisted(t: Table, e: Entry)
    requires Listed(t) && t.afree != []
    ensures t.afree[0] < |t.atab| && t.afree[0] !in t.alist && Partition(Enlist(t, e))
    ensures forall j :: j in Enlist(t, e).alist <==> j in t.alist || j == t.afree[0]
    ensures forall j :: j in Enlist(t, e).afree <==> j in t.afree && j != t.afree[0]
  {
    var i := t.afree[0];
    assert i in t.afree;
    var t1 := Enlist(t, e);
    assert t.afree == [i] + t1.afree;
    assert Partition(t1);
    PartitionMeans(t1, i);
    PartitionMeans(t, i);
    assert i in t1.alist;
  }

  lemma {:induction false} EnlistKeeps(t: Table, e: Entry)
    requires Inv(t) && t.afree != [] && t.afree[0] < |t.atab|
    requires LiveOk(e) && !e.exp && forall i :: i in t.alist ==> t.atab[i].name != e.name
    ensures Inv(Enlist(t, e)) && SameMarks(t, Enlist(t, e))
  {
    Enlisted(t, e);
    assert t.afree[0] in t.afree;
  }

  lemma {:induction false} RemoveLast(s: seq<nat>, i: nat)
    requires i !in s
    ensures Remove(s + [i], i) == s
  {
    if s != [] {
      assert (s + [i])[1..] == s[1..] + [i];
      RemoveLast(s[1..], i);
    }
  }

  /** An alias whose copies cannot be allocated leaves the table as it was. */
  lemma {:induction false} EnlistUndone(t: Table, e: Entry)
    requires Inv(t) && t.afree != [] && !e.exp
    ensures t.afree[0] < |t.atab| && Delete(Enlist(t, e), t.afree[0]) == t
  {
    var i := t.afree[0];
    Enlisted(t, e);
    assert i in t.afree;
    RemoveLast(t.alist, i);
    SetAndBlank(t.atab, i, e);
  }

  lemma {:induction false} SetAndBlank(atab: seq<Entry>, i: nat, e: Entry)
    requires i < |atab| && atab[i] == BLANK
    ensures atab[i := e][i := BLANK] == atab
  {}

  /** Saving an alias keeps the invariant and the marks, whatever can be allocated. */
  lemma {:induction false} SaveKeeps(t: Table, name: string, value: string, c: Copies)
    requires Inv(t)
    ensures Inv(Save(t, name, value, c).t) && SameMarks(t, Save(t, name, value, c).t)
  {
    if name != "" {
      match Find(t.atab, t.alist, name)
      case None =>
        if t.afree != [] {
          assert t.afree[0] in t.afree;
          var e := Entry(Copy(name, c.name), Copy(value, c.value), false, false);
          if c.name && c.value { EnlistKeeps(t, e); } else { EnlistUndone(t, e); }
        }
      case Some(i) => SaveOldKeeps(t, i, name, value, c);
    }
  }

  lemma {:induction false} SaveOldKeeps(t: Table, i: nat, name: string, value: string, c: Copies)
    requires Inv(t) && name != "" && Find(t.atab, t.alist, name) == Some(i)
    ensures Inv(Save(t, name, value, c).t) && SameMarks(t, Save(t, name, value, c).t)
  {
    var e := t.atab[i].(value := Copy(value, c.value));
    if c.value {
      UpdateKeeps(t, i, e);
    } else if e.exp {
      UpdateKeeps(t, i, e.(rem := true));
      assert t.atab[i := e][i := e.(rem := true)] == t.atab[i := e.(rem := true)];
    } else {
      DeleteKeeps(t, i);
      assert t.atab[i := e][i := BLANK] == t.atab[i := BLANK];
    }
  }

  // ------------------------------------------------------------- the table as a map

  /** No command is running that has expanded an alias. */
  predicate Quiet(t: Table) { forall j :: 0 <= j < |t.atab| ==> !t.atab[j].exp }

  /** What an alias stands for. */
  ghost function Value(t: Table, name: string): Option<string>
    requires Listed(t)
  {
    match Find(t.atab, t.alist, name)
    case Some(i) => t.atab[i].value
    case None => None
  }

  lemma {:induction false} FindIs(t: Table, name: string, i: nat)
    requires Inv(t) && i in t.alist && t.atab[i].name == Some(name)
    ensures Find(t.atab, t.alist, name) == Some(i)
  {}

  lemma {:induction false} Sizes(t: Table)
    requires Partition(t)
    ensures |t.alist| + |t.afree| == |t.atab|
  {
    assert |multiset(t.alist) + multiset(t.afree)| == |t.alist| + |t.afree|;
  }

  /** Deleting an unmarked alias takes its name off the map and no other. */
  lemma {:induction false} DeleteMeaning(t: Table, i: nat, other: string)
    requires Inv(t) && i in t.alist && !t.atab[i].exp
    ensures Inv(Delete(t, i))
    ensures Value(Delete(t, i), other) == if t.atab[i].name == Some(other) then None else Value(t, other)
  {
    DeleteKeeps(t, i);
    DeletedInPlace(t, i);
    if t.atab[i].name != Some(other) { OtherIsFound(t, Delete(t, i), i, other); }
  }

  lemma {:induction false} EnlistMeaning(t: Table, e: Entry, other: string)
    requires Inv(t) && t.afree != [] && t.afree[0] < |t.atab|
    requires LiveOk(e) && !e.exp && forall i :: i in t.alist ==> t.atab[i].name != e.name
    ensures Inv(Enlist(t, e))
    ensures Value(Enlist(t, e), other) == if e.name == Some(other) then e.value else Value(t, other)
  {
    EnlistKeeps(t, e);
    Enlisted(t, e);
    var t1 := Enlist(t, e);
    if e.name == Some(other) {
      FindIs(t1, other, t.afree[0]);
    } else {
      OtherIsFound(t, t1, t.afree[0], other);
    }
  }

  /** A name that neither table has at `i` is found in both at the same place, or in neither. */
  lemma {:induction false} OtherIsFound(t: Table, t1: Table, i: nat, other: string)
    requires Inv(t) && Inv(t1) && |t.atab| == |t1.atab|
    requires forall j :: j in t1.alist && j != i <==> j in t.alist && j != i
    requires forall j :: 0 <= j < |t.atab| && j != i ==> t.atab[j] == t1.atab[j]
    requires i in t.alist ==> t.atab[i].name != Some(other)
    requires i in t1.alist ==> t1.atab[i].name != Some(other)
    ensures Value(t1, other) == Value(t, other)
  {
    match Find(t.atab, t.alist, other)
    case Some(j) => FindIs(t1, other, j);
    case None =>
  }

  lemma {:induction false} UpdateMeaning(t: Table, i: nat, e: Entry, other: string)
    requires Inv(t) && i in t.alist && LiveOk(e) && e.name == t.atab[i].name
    ensures Inv(t.(atab := t.atab[i := e]))
    ensures Value(t.(atab := t.atab[i := e]), other)
         == if e.name == Some(other) then e.value else Value(t, other)
  {
    UpdateKeeps(t, i, e);
    var t1 := t.(atab := t.atab[i := e]);
    if e.name == Some(other) {
      FindIs(t1, other, i);
    } else {
      OtherIsFound(t, t1, i, other);
    }
  }

  /** Whether `alias name=value` can succeed. */
  ghost predicate CanSave(t: Table, name: string, c: Copies)
    requires Listed(t)
  {
    c.value && (Value(t, name).Some? || (c.name && |t.alist| < |t.atab|))
  }

  /**
   Outside a running command the table is a map of at most as many names as it
   has entries: a successful `alias` sets its name, a failed one leaves the
   name without a value, and no other name is touched.
   */
  lemma {:induction false} SaveMeaning(t: Table, name: string, value: string, c: Copies, other: string)
    requires Inv(t) && Quiet(t) && name != ""
    ensures
      var r := Save(t, name, value, c);
      && Inv(r.t)
      && r.ok == CanSave(t, name, c)
      && Value(r.t, other) == if other != name then Value(t, other) else if r.ok then Some(value) else None
  {
    Sizes(t);
    match Find(t.atab, t.alist, name)
    case None =>
      if t.afree != [] {
        assert t.afree[0] in t.afree;
        var e := Entry(Copy(name, c.name), Copy(value, c.value), false, false);
        if c.name && c.value { EnlistMeaning(t, e, other); } else { EnlistUndone(t, e); }
      }
    case Some(i) =>
      var e := t.atab[i].(value := Copy(value, c.value));
      if c.value {
        UpdateMeaning(t, i, e, other);
      } else {
        DeleteMeaning(t, i, other);
        assert t.atab[i := e][i := BLANK] == t.atab[i := BLANK];
      }
  }

  // ------------------------------------------------------------------- initialisation

  /** An initialised table is never initialised again. */
  lemma {:induction false} InitOnce(t: Table)
    requires Inv(t)
    ensures Init(t) == t
  {
    Sizes(t);
  }

  lemma {:induction false} InitFresh(t: Table)
    requires |t.atab| > 0 && t.alist == [] && t.afree == []
    requires forall j :: 0 <= j < |t.atab| ==> t.atab[j] == BLANK
    ensures Inv(Init(t)) && Quiet(Init(t))
  {
    forall i: nat ensures i in Upto(|t.atab|) <==> i < |t.atab| {
      UptoCount(|t.atab|, i);
      assert i in Upto(|t.atab|) <==> multiset(Upto(|t.atab|))[i] > 0;
    }
  }
}
