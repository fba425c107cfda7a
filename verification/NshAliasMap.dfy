/**
 Outside a running command the alias table is a map with room for as many names
 as it has entries, over every sequence of requests.
 */
module NshAliasMap {
  import opened Basics
  import opened NshAlias
  import opened NshAliasMarks

  /** What the commands `alias` and `unalias` ask of the table. */
  datatype Request = Put(name: string, value: string, copies: Copies) | Take(name: string) | TakeAll

  function Apply(t: Table, q: Request): (r: Table)
    requires Listed(t)
  {
    match q
    case Put(name, value, c) => Save(t, name, value, c).t
    case Take(name) => (match Find(t.atab, t.alist, name) case Some(i) => Delete(t, i) case None => t)
    case TakeAll => DeleteAll(t, t.alist)
  }

  /** The same for a map with room for `room` names; a put that fails leaves its name without a value. */
  function ApplyMap(m: map<string, string>, room: nat, q: Request): map<string, string> {
    match q
    case Put(name, value, c) =>
      if name == "" then m
      else if HasRoom(m, room, name, c) then m[name := value]
      else m - {name}
    case Take(name) => m - {name}
    case TakeAll => map[]
  }

  function At(m: map<string, string>, name: string): Option<string> {
    if name in m then Some(m[name]) else None
  }

  /** The table is in order, not in use, and stands for the map. */
  ghost predicate Represents(t: Table, m: map<string, string>) {
    && Inv(t) && Quiet(t)
    && |m| == |t.alist|
    && forall name :: Value(t, name) == At(m, name)
  }

  lemma {:induction false} SizeWith(m: map<string, string>, name: string, value: string)
    ensures |m[name := value]| == if name in m then |m| else |m| + 1
  {
    var n := m[name := value];
    assert n.Keys == m.Keys + {name};
    if name in m { assert n.Keys == m.Keys; }
  }

  lemma {:induction false} SizeWithout(m: map<string, string>, name: string)
    ensures |m - {name}| == if name in m then |m| - 1 else |m|
  {
    var n := m - {name};
    assert n.Keys == m.Keys - {name};
    if name !in m { assert n == m; }
  }

  lemma {:induction false} RemoveLength(s: seq<nat>, i: nat)
    requires i in s
    ensures |Remove(s, i)| == |s| - 1
  {
    if s[0] != i { RemoveLength(s[1..], i); }
  }

  /** In a table that is not in use every live alias has a value. */
  lemma {:induction false} FindHasValue(t: Table, name: string)
    requires Inv(t) && Quiet(t)
    ensures Find(t.atab, t.alist, name).Some? <==> Value(t, name).Some?
  {}

  lemma {:induction false} TakeRepresents(t: Table, m: map<string, string>, name: string)
    requires Represents(t, m)
    ensures Represents(Apply(t, Take(name)), ApplyMap(m, |t.atab|, Take(name)))
    ensures |Apply(t, Take(name)).atab| == |t.atab|
  {
    var r := Apply(t, Take(name));
    FindHasValue(t, name);
    SizeWithout(m, name);
    match Find(t.atab, t.alist, name)
    case None => assert m - {name} == m;
    case Some(i) =>
      RemoveLength(t.alist, i);
      DeleteKeeps(t, i);
      forall other ensures Value(r, other) == At(m - {name}, other) { DeleteMeaning(t, i, other); }
  }

  lemma {:induction false} SaveLength(t: Table, name: string, value: string, c: Copies)
    requires Inv(t) && Quiet(t) && name != ""
    ensures
      var (r, prior) := (Save(t, name, value, c), Find(t.atab, t.alist, name));
      |r.t.alist| == if r.ok then (if prior.Some? then |t.alist| else |t.alist| + 1)
                     else if prior.Some? then |t.alist| - 1 else |t.alist|
  {
    match Find(t.atab, t.alist, name)
    case Some(i) => RemoveLength(t.alist, i);
    case None =>
      if t.afree != [] {
        assert t.afree[0] in t.afree;
        if !(c.name && c.value) { EnlistUndone(t, Entry(Copy(name, c.name), Copy(value, c.value), false, false)); }
      }
  }

  /** Whether a put succeeds, said of the map. */
  predicate HasRoom(m: map<string, string>, room: nat, name: string, c: Copies) {
    c.value && (name in m || (c.name && |m| < room))
  }

  lemma {:induction false} PutDecides(t: Table, m: map<string, string>, name: string, value: string, c: Copies)
    requires Represents(t, m) && name != ""
    ensures Save(t, name, value, c).ok == HasRoom(m, |t.atab|, name, c)
    ensures Find(t.atab, t.alist, name).Some? <==> name in m
  {
    FindHasValue(t, name);
    SaveMeaning(t, name, value, c, name);
    assert Value(t, name) == At(m, name);
  }

  lemma {:induction false} PutValue(t: Table, m: map<string, string>, name: string, value: string, c: Copies,
                                    other: string)
    requires Represents(t, m) && name != ""
    ensures Inv(Save(t, name, value, c).t)
    ensures Value(Save(t, name, value, c).t, other) == At(ApplyMap(m, |t.atab|, Put(name, value, c)), other)
  {
    PutDecides(t, m, name, value, c);
    SaveMeaning(t, name, value, c, other);
    assert Value(t, other) == At(m, other);
  }

  lemma {:induction false} PutSize(t: Table, m: map<string, string>, name: string, value: string, c: Copies)
    requires Represents(t, m) && name != ""
    ensures |Save(t, name, value, c).t.alist| == |ApplyMap(m, |t.atab|, Put(name, value, c))|
  {
    PutDecides(t, m, name, value, c);
    SaveLength(t, name, value, c);
    SizeWith(m, name, value);
    SizeWithout(m, name);
  }

  lemma {:induction false} PutRepresents(t: Table, m: map<string, string>, name: string, value: string, c: Copies)
    requires Represents(t, m) && name != ""
    ensures Represents(Save(t, name, value, c).t, ApplyMap(m, |t.atab|, Put(name, value, c)))
    ensures |Save(t, name, value, c).t.atab| == |t.atab|
  {
    var r := Save(t, name, value, c).t;
    SaveKeeps(t, name, value, c);
    PutSize(t, m, name, value, c);
    forall other ensures Value(r, other) == At(ApplyMap(m, |t.atab|, Put(name, value, c)), other) {
      PutValue(t, m, name, value, c, other);
    }
  }

  lemma {:induction false} TakeAllRepresents(t: Table, m: map<string, string>)
    requires Represents(t, m)
    ensures Represents(Apply(t, TakeAll), map[]) && |Apply(t, TakeAll).atab| == |t.atab|
  {
    LiveNoDup(t);
    DeleteAllKeeps(t, t.alist);
    UnaliasAllEmpties(t);
  }

  lemma {:induction false} ApplyRepresents(t: Table, m: map<string, string>, q: Request)
    requires Represents(t, m)
    ensures Represents(Apply(t, q), ApplyMap(m, |t.atab|, q)) && |Apply(t, q).atab| == |t.atab|
  {
    match q
    case Put(name, value, c) => if name != "" { PutRepresents(t, m, name, value, c); }
    case Take(name) => TakeRepresents(t, m, name);
    case TakeAll => TakeAllRepresents(t, m);
  }

  lemma {:induction false} ApplyKeeps(t: Table, q: Request)
    requires Inv(t) && Quiet(t)
    ensures Inv(Apply(t, q)) && Quiet(Apply(t, q)) && |Apply(t, q).atab| == |t.atab|
  {
    match q
    case Put(name, value, c) => SaveKeeps(t, name, value, c);
    case Take(name) =>
      var i := Find(t.atab, t.alist, name);
      if i.Some? { DeleteKeeps(t, i.value); }
    case TakeAll =>
      LiveNoDup(t);
      DeleteAllKeeps(t, t.alist);
  }

  ghost function ApplyAll(t: Table, qs: seq<Request>): (r: Table)
    requires Inv(t) && Quiet(t)
    ensures Inv(r) && Quiet(r)
    decreases |qs|
  {
    if qs == [] then t
    else
      ApplyKeeps(t, qs[0]);
      ApplyAll(Apply(t, qs[0]), qs[1..])
  }

  function ApplyAllMap(m: map<string, string>, room: nat, qs: seq<Request>): map<string, string>
    decreases |qs|
  {
    if qs == [] then m else ApplyAllMap(ApplyMap(m, room, qs[0]), room, qs[1..])
  }

  /** After any requests, failing ones included, the table still stands for the map. */
  lemma {:induction false} TableRefinesMap(t: Table, m: map<string, string>, qs: seq<Request>)
    requires Represents(t, m)
    ensures Represents(ApplyAll(t, qs), ApplyAllMap(m, |t.atab|, qs))
    decreases |qs|
  {
    if qs != [] {
      ApplyRepresents(t, m, qs[0]);
      ApplyKeeps(t, qs[0]);
      TableRefinesMap(Apply(t, qs[0]), ApplyMap(m, |t.atab|, qs[0]), qs[1..]);
    }
  }

  /** A fresh table stands for the empty map. */
  lemma {:induction false} FreshIsEmpty(t: Table)
    requires |t.atab| > 0 && t.alist == [] && t.afree == []
    requires forall j :: 0 <= j < |t.atab| ==> t.atab[j] == BLANK
    ensures Represents(Init(t), map[])
  {
    InitFresh(t);
  }
}
