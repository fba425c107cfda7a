/**
 The NSH variables: all of them in one packed buffer of `name=value` strings,
 each ended by a NUL, searched and edited in place.  With names that hold no
 `=` the buffer refines an ordered map with unique keys; what other names do is
 stated as well.  Among them is one that stands in the buffer as a whole entry:
 the search then compares beyond the ends of both strings, and C does not say
 what happens.  The operations below report that case as `Overrun`.
 */
module NshVars {
  import opened Basics

  /** An entry: what stands before its first `=`, and what stands after. */
  datatype Var = Var(name: string, value: string)

  const NUL: char := '\0'

  /** A string that C can hold. */
  predicate NoNul(s: string) { NUL !in s }

  predicate IsName(s: string) { NoNul(s) && '=' !in s }

  function Text(v: Var): string { v.name + "=" + v.value }

  /** The entry that a text with a `=` makes. */
  function VarOf(text: string): (v: Var)
    requires '=' in text
    ensures Text(v) == text && '=' !in v.name
  {
    if text[0] == '=' then Var("", text[1..])
    else
      var v := VarOf(text[1..]);
      Var([text[0]] + v.name, v.value)
  }

  /** What nsh_cmpname looks for: the name and a `=` at the start of the entry. */
  predicate Matches(v: Var, name: string) { name + "=" <= Text(v) }

  lemma {:induction false} MatchesName(v: Var, name: string)
    requires '=' !in name && '=' !in v.name
    ensures Matches(v, name) <==> v.name == name
  {
    var (t, p) := (Text(v), name + "=");
    if v.name == name {
      assert t[..|name| + 1] == p;
    } else if |v.name| < |name| {
      assert t[|v.name|] == '=' != p[|v.name|];
    } else if |name| < |v.name| {
      assert t[|name|] != '=' == p[|name|];
    } else {
      assert t[..|name|] == v.name && p[..|name|] == name;
    }
  }

  /** A text is made of one name and one value only. */
  lemma {:induction false} VarOfText(v: Var)
    requires '=' !in v.name
    ensures '=' in Text(v) && VarOf(Text(v)) == v
  {
    var t := Text(v);
    assert t[|v.name|] == '=';
    var w := VarOf(t);
    assert Matches(w, v.name) by { assert t[..|v.name| + 1] == v.name + "="; }
    MatchesName(w, v.name);
    assert w.value == t[|v.name| + 1..] == v.value;
  }

  // --------------------------------------------------------------- the comparison

  /** What a call comes to, unless it compares beyond the ends of its strings. */
  datatype Reply<+T> = Returned(value: T) | Overrun

  datatype Compared = Same | Different | Endless

  /** The characters of a C string, with the NUL behind its end. */
  function CharAt(s: string, i: nat): char { if i < |s| then s[i] else NUL }

  /** The loop of nsh_cmpname meets a difference within both strings exactly when they differ. */
  lemma {:induction false} ComparisonEndsIff(name: string, text: string)
    requires NoNul(name) && NoNul(text)
    ensures (exists i :: 0 <= i <= |name| && i <= |text| && CharAt(name, i) != CharAt(text, i)) <==> name != text
    decreases |name|
  {
    if name == "" || text == "" || name[0] != text[0] {
      assert name != text ==> CharAt(name, 0) != CharAt(text, 0);
    } else {
      ComparisonEndsIff(name[1..], text[1..]);
      assert name == [name[0]] + name[1..] && text == [text[0]] + text[1..];
      if name != text {
        var i :| 0 <= i <= |name[1..]| && i <= |text[1..]| && CharAt(name[1..], i) != CharAt(text[1..], i);
        assert CharAt(name, i + 1) != CharAt(text, i + 1);
      }
    }
  }

  // -------------------------------------------------------------- the ordered map

  predicate Has(vs: seq<Var>, name: string) {
    exists k :: 0 <= k < |vs| && Matches(vs[k], name)
  }

  /** The text is one of the entries. */
  predicate Stored(vs: seq<Var>, text: string) {
    exists k :: 0 <= k < |vs| && Text(vs[k]) == text
  }

  /** The walk over the entries comes to one whose whole text is the name. */
  predicate RunsPast(vs: seq<Var>, name: string) {
    exists k :: 0 <= k < |vs| && Text(vs[k]) == name && forall j :: 0 <= j < k ==> !Matches(vs[j], name)
  }

  predicate Unique(vs: seq<Var>) {
    forall j, k :: 0 <= j < k < |vs| ==> vs[j].name != vs[k].name
  }

  predicate AllStorable(vs: seq<Var>) {
    forall k :: 0 <= k < |vs| ==> IsName(vs[k].name) && NoNul(vs[k].value)
  }

  function Lookup(vs: seq<Var>, name: string): Option<string> {
    if vs == [] then None
    else if Matches(vs[0], name) then Some(vs[0].value)
    else Lookup(vs[1..], name)
  }

  function Without(vs: seq<Var>, name: string): seq<Var> {
    if vs == [] then []
    else if Matches(vs[0], name) then vs[1..]
    else [vs[0]] + Without(vs[1..], name)
  }

  /** The variables as a map. */
  function AsMap(vs: seq<Var>): map<string, string> {
    if vs == [] then map[] else AsMap(vs[1..])[vs[0].name := vs[0].value]
  }

  // ------------------------------------------------------------------- the packing

  function Encode(vs: seq<Var>): string {
    if vs == [] then [] else Text(vs[0]) + [NUL] + Encode(vs[1..])
  }

  /** Where the k-th string starts. */
  function Offset(vs: seq<Var>, k: nat): nat
    requires k <= |vs|
  {
    |Encode(vs[..k])|
  }

  lemma {:induction false} EncodeConcat(xs: seq<Var>, ys: seq<Var>)
    ensures Encode(xs + ys) == Encode(xs) + Encode(ys)
  {
    if xs == [] {
      assert xs + ys == ys;
    } else {
      assert (xs + ys)[1..] == xs[1..] + ys;
      EncodeConcat(xs[1..], ys);
    }
  }

  /** The buffer around the k-th string. */
  lemma {:induction false} EncodeAround(vs: seq<Var>, k: nat)
    requires k < |vs|
    ensures Encode(vs) == Encode(vs[..k]) + (Text(vs[k]) + [NUL]) + Encode(vs[k + 1..])
    ensures Offset(vs, k + 1) == Offset(vs, k) + |Text(vs[k])| + 1 <= |Encode(vs)|
  {
    assert vs == vs[..k] + vs[k..];
    EncodeConcat(vs[..k], vs[k..]);
    assert vs[k..][1..] == vs[k + 1..];
    assert vs[..k + 1] == vs[..k] + [vs[k]];
    EncodeConcat(vs[..k], [vs[k]]);
    assert Encode([vs[k]]) == Text(vs[k]) + [NUL] + Encode([]);
  }

  /** The characters of the k-th string. */
  lemma {:induction false} EntryAt(vs: seq<Var>, k: nat, i: nat)
    requires k < |vs| && i <= |Text(vs[k])|
    ensures Offset(vs, k) + i < |Encode(vs)|
    ensures Encode(vs)[Offset(vs, k) + i] == if i < |Text(vs[k])| then Text(vs[k])[i] else NUL
  {
    EncodeAround(vs, k);
    var a, b := Encode(vs[..k]), Text(vs[k]) + [NUL];
    assert (a + b + Encode(vs[k + 1..]))[|a| + i] == b[i];
  }

  lemma {:induction false} EncodeWithout(vs: seq<Var>, k: nat)
    requires k < |vs|
    ensures Offset(vs, k) <= Offset(vs, k + 1) <= |Encode(vs)|
    ensures Encode(vs[..k] + vs[k + 1..]) == Encode(vs)[..Offset(vs, k)] + Encode(vs)[Offset(vs, k + 1)..]
  {
    EncodeConcat(vs[..k], vs[k + 1..]);
    EncodeAround(vs, k);
  }

  // ------------------------------------------------------ what the list operations do

  lemma {:induction false} WithoutIsRemoval(vs: seq<Var>, name: string, k: nat)
    requires k < |vs| && Matches(vs[k], name)
    requires forall j :: 0 <= j < k ==> !Matches(vs[j], name)
    ensures Without(vs, name) == vs[..k] + vs[k + 1..]
    ensures Lookup(vs, name) == Some(vs[k].value)
  {
    if k > 0 {
      WithoutIsRemoval(vs[1..], name, k - 1);
      assert vs[..k] + vs[k + 1..] == [vs[0]] + (vs[1..][..k - 1] + vs[1..][k..]);
    }
  }

  lemma {:induction false} WithoutAbsent(vs: seq<Var>, name: string)
    requires !Has(vs, name)
    ensures Without(vs, name) == vs && Lookup(vs, name) == None
  {
    if vs != [] {
      assert !Matches(vs[0], name);
      assert forall k :: 0 <= k < |vs[1..]| ==> vs[1..][k] == vs[k + 1];
      WithoutAbsent(vs[1..], name);
    }
  }

  lemma {:induction false} HasTail(vs: seq<Var>, name: string)
    requires vs != []
    ensures Has(vs, name) <==> Matches(vs[0], name) || Has(vs[1..], name)
  {
    if Has(vs, name) && !Matches(vs[0], name) {
      var k :| 0 <= k < |vs| && Matches(vs[k], name);
      assert Matches(vs[1..][k - 1], name);
    }
    if Has(vs[1..], name) {
      var k :| 0 <= k < |vs[1..]| && Matches(vs[1..][k], name);
      assert Matches(vs[k + 1], name);
    }
  }

  lemma {:induction false} UniqueTail(vs: seq<Var>)
    requires vs != [] && Unique(vs) && AllStorable(vs)
    ensures Unique(vs[1..]) && AllStorable(vs[1..]) && !Has(vs[1..], vs[0].name)
  {
    assert forall k :: 0 <= k < |vs[1..]| ==> vs[1..][k] == vs[k + 1];
    forall k | 0 <= k < |vs[1..]| ensures !Matches(vs[1..][k], vs[0].name) {
      MatchesName(vs[k + 1], vs[0].name);
    }
  }

  /** Looking a name up in the list is looking it up in the map. */
  lemma {:induction false} LookupIsMap(vs: seq<Var>, name: string)
    requires AllStorable(vs) && '=' !in name
    ensures name in AsMap(vs) <==> Has(vs, name)
    ensures Lookup(vs, name) == if name in AsMap(vs) then Some(AsMap(vs)[name]) else None
  {
    if vs != [] {
      HasTail(vs, name);
      MatchesName(vs[0], name);
      LookupIsMap(vs[1..], name);
    }
  }

  /** Removing a name removes it from the map and keeps the order of the others. */
  lemma {:induction false} WithoutIsMap(vs: seq<Var>, name: string)
    requires Unique(vs) && AllStorable(vs) && '=' !in name
    ensures AsMap(Without(vs, name)) == AsMap(vs) - {name}
    ensures !Has(Without(vs, name), name)
  {
    if vs != [] {
      UniqueTail(vs);
      MatchesName(vs[0], name);
      HasTail(vs, name);
      var rest := Without(vs[1..], name);
      WithoutIsMap(vs[1..], name);
      if Matches(vs[0], name) {
        LookupIsMap(vs[1..], name);
        assert AsMap(vs[1..]) == AsMap(vs) - {name};
      } else {
        HasTail([vs[0]] + rest, name);
        assert ([vs[0]] + rest)[1..] == rest;
      }
    }
  }

  lemma {:induction false} AppendIsMap(vs: seq<Var>, v: Var)
    requires AllStorable(vs) && '=' !in v.name && !Has(vs, v.name)
    ensures AsMap(vs + [v]) == AsMap(vs)[v.name := v.value]
  {
    if vs == [] {
      assert [v][1..] == [];
    } else {
      HasTail(vs, v.name);
      MatchesName(vs[0], v.name);
      assert (vs + [v])[1..] == vs[1..] + [v];
      AppendIsMap(vs[1..], v);
    }
  }

  lemma {:induction false} WithoutKeeps(vs: seq<Var>, name: string)
    requires AllStorable(vs)
    ensures AllStorable(Without(vs, name)) && (Unique(vs) ==> Unique(Without(vs, name)))
    ensures forall n :: Has(Without(vs, name), n) ==> Has(vs, n)
  {
    if Has(vs, name) {
      var k := FirstIndex(vs, name);
      WithoutIsRemoval(vs, name, k);
      RemovalKeeps(vs, k);
    } else {
      WithoutAbsent(vs, name);
    }
  }

  lemma {:induction false} RemovalKeeps(vs: seq<Var>, k: nat)
    requires AllStorable(vs) && k < |vs|
    ensures
      var w := vs[..k] + vs[k + 1..];
      AllStorable(w) && (Unique(vs) ==> Unique(w)) && forall n :: Has(w, n) ==> Has(vs, n)
  {
    var w := vs[..k] + vs[k + 1..];
    assert forall j :: 0 <= j < |w| ==> w[j] == vs[if j < k then j else j + 1];
    forall n | Has(w, n) ensures Has(vs, n) {
      var j :| 0 <= j < |w| && Matches(w[j], n);
      assert Matches(vs[if j < k then j else j + 1], n);
    }
  }

  function FirstIndex(vs: seq<Var>, name: string): (k: nat)
    requires Has(vs, name)
    ensures k < |vs| && Matches(vs[k], name) && forall j :: 0 <= j < k ==> !Matches(vs[j], name)
  {
    HasTail(vs, name);
    if Matches(vs[0], name) then 0 else FirstIndex(vs[1..], name) + 1
  }

  // --------------------------------------------------------------- runs of operations

  /** A request, with whether the allocation it needs succeeds. */
  datatype Request = SetVar(name: string, value: string, granted: bool) | UnsetVar(name: string, granted: bool)

  predicate Acceptable(q: Request) {
    NoNul(q.name) && (q.SetVar? ==> NoNul(q.value))
  }

  /** The text that a set stores. */
  function NewVar(name: string, value: string): Var {
    assert (name + "=" + value)[|name|] == '=';
    VarOf(name + "=" + value)
  }

  /** A set that cannot allocate has already removed the old value. */
  function Apply(vs: seq<Var>, q: Request): seq<Var> {
    match q
    case SetVar(n, v, ok) => if ok then Without(vs, n) + [NewVar(n, v)] else Without(vs, n)
    case UnsetVar(n, _) => Without(vs, n)
  }

  function ApplyMap(m: map<string, string>, q: Request): map<string, string> {
    match q
    case SetVar(n, v, ok) => if ok then m[n := v] else m - {n}
    case UnsetVar(n, _) => m - {n}
  }

  /** Every request leaves entries with a `=` and without NUL. */
  lemma {:induction false} ApplyKeeps(vs: seq<Var>, q: Request)
    requires AllStorable(vs) && Acceptable(q)
    ensures AllStorable(Apply(vs, q))
  {
    WithoutKeeps(vs, q.name);
    if q.SetVar? {
      PartsHaveNoNul(NewVar(q.name, q.value));
    }
  }

  lemma {:induction false} PartsHaveNoNul(v: Var)
    requires NoNul(Text(v))
    ensures NoNul(v.name) && NoNul(v.value)
  {
    assert forall i :: 0 <= i < |v.name| ==> v.name[i] == Text(v)[i];
    assert forall i :: 0 <= i < |v.value| ==> v.value[i] == Text(v)[|v.name| + 1 + i];
  }

  lemma {:induction false} ApplyIsMap(vs: seq<Var>, q: Request)
    requires Unique(vs) && AllStorable(vs) && Acceptable(q) && '=' !in q.name
    ensures Unique(Apply(vs, q)) && AllStorable(Apply(vs, q))
    ensures AsMap(Apply(vs, q)) == ApplyMap(AsMap(vs), q)
  {
    WithoutIsMap(vs, q.name);
    WithoutKeeps(vs, q.name);
    if q.SetVar? && q.granted {
      VarOfText(Var(q.name, q.value));
      UniqueAppend(Without(vs, q.name), Var(q.name, q.value));
      AppendIsMap(Without(vs, q.name), Var(q.name, q.value));
      assert (AsMap(vs) - {q.name})[q.name := q.value] == AsMap(vs)[q.name := q.value];
    }
  }

  lemma {:induction false} UniqueAppend(vs: seq<Var>, v: Var)
    requires Unique(vs) && AllStorable(vs) && '=' !in v.name && !Has(vs, v.name)
    ensures Unique(vs + [v])
  {
    forall k | 0 <= k < |vs| ensures vs[k].name != v.name { MatchesName(vs[k], v.name); }
  }

  function ApplyAll(vs: seq<Var>, qs: seq<Request>): seq<Var>
    decreases |qs|
  {
    if qs == [] then vs else ApplyAll(Apply(vs, qs[0]), qs[1..])
  }

  function ApplyAllMap(m: map<string, string>, qs: seq<Request>): map<string, string>
    decreases |qs|
  {
    if qs == [] then m else ApplyAllMap(ApplyMap(m, qs[0]), qs[1..])
  }

  /** After any requests, failing ones included, the list is still the map with unique keys. */
  lemma {:induction false} ListRefinesMap(vs: seq<Var>, qs: seq<Request>)
    requires Unique(vs) && AllStorable(vs)
    requires forall i :: 0 <= i < |qs| ==> Acceptable(qs[i]) && '=' !in qs[i].name
    ensures Unique(ApplyAll(vs, qs)) && AllStorable(ApplyAll(vs, qs))
    ensures AsMap(ApplyAll(vs, qs)) == ApplyAllMap(AsMap(vs), qs)
    decreases |qs|
  {
    if qs != [] {
      ApplyIsMap(vs, qs[0]);
      ListRefinesMap(Apply(vs, qs[0]), qs[1..]);
    }
  }

  // ------------------------------------------------------------- names that hold a `=`

  lemma {:induction false} NewVarOf(name: string, value: string)
    ensures '=' !in name ==> NewVar(name, value) == Var(name, value)
    ensures '=' in name ==>
              NewVar(name, value) == Var(VarOf(name).name, VarOf(name).value + "=" + value)
  {
    if '=' in name {
      var v := Var(VarOf(name).name, VarOf(name).value + "=" + value);
      assert Text(v) == name + "=" + value;
      VarOfText(v);
    } else {
      VarOfText(Var(name, value));
    }
  }

  /**
   What is read after a set: the value of the next entry that matches, if there is one,
   else what stands behind the first `=` of the new entry.
   */
  lemma {:induction false} SetIsRead(vs: seq<Var>, name: string, value: string)
    ensures
      var (w, read) := (Without(vs, name), Lookup(Apply(vs, SetVar(name, value, true)), name));
      && (Has(w, name) ==> read == Lookup(w, name))
      && (!Has(w, name) && '=' !in name ==> read == Some(value))
      && (!Has(w, name) && '=' in name ==> read == Some(VarOf(name).value + "=" + value))
  {
    var (w, v) := (Without(vs, name), NewVar(name, value));
    NewVarOf(name, value);
    assert Matches(v, name) by { assert Text(v)[..|name| + 1] == name + "="; }
    if Has(w, name) { LookupBefore(w, v, name); } else { LookupAppended(w, v, name); }
  }

  /**
   In every list: a name reads back whatever is stored under it exactly when it holds no
   `=` and no second entry matches it.
   */
  lemma {:induction false} ReadsBackIff(vs: seq<Var>, name: string)
    requires AllStorable(vs)
    ensures (forall value :: NoNul(value) ==> Lookup(Apply(vs, SetVar(name, value, true)), name) == Some(value))
            <==> '=' !in name && !Has(Without(vs, name), name)
  {
    var w := Without(vs, name);
    if '=' !in name && !Has(w, name) {
      forall value ensures Lookup(Apply(vs, SetVar(name, value, true)), name) == Some(value) {
        SetIsRead(vs, name, value);
      }
    } else {
      var value := if Has(w, name) && Lookup(w, name) == Some("") then "x" else "";
      SetIsRead(vs, name, value);
    }
  }

  /** A set keeps the names unique exactly when no entry but the one it replaces has the new name. */
  lemma {:induction false} StaysUniqueIff(vs: seq<Var>, name: string, value: string)
    requires Unique(vs) && AllStorable(vs)
    ensures Unique(Apply(vs, SetVar(name, value, true)))
            <==> '=' !in name || !Has(Without(vs, name), VarOf(name).name)
  {
    var (w, v) := (Without(vs, name), NewVar(name, value));
    NewVarOf(name, value);
    WithoutKeeps(vs, name);
    OneMatch(vs, name);
    if Has(w, v.name) {
      var k := FirstIndex(w, v.name);
      MatchesName(w[k], v.name);
      assert (w + [v])[k].name == (w + [v])[|w|].name;
    } else {
      UniqueAppend(w, v);
    }
  }

  /** `set a w`, `set a=b v` makes two entries of the name `a`. */
  lemma {:induction false} TwoEntries()
    ensures ApplyAll([], [SetVar("a", "w", true), SetVar("a=b", "v", true)]) == [Var("a", "w"), Var("a", "b=v")]
  {
    var (a, b, q) := (Var("a", "w"), Var("a", "b=v"), SetVar("a=b", "v", true));
    VarOfText(a);
    VarOfText(b);
    assert Text(a) == "a" + "=" + "w" == "a=w" && Text(b) == "a=b" + "=" + "v" == "a=b=v";
    assert Apply([], SetVar("a", "w", true)) == [a];
    assert Without([a], "a=b") == [a] + Without([], "a=b");
    assert Apply([a], q) == [a, b];
    assert ApplyAll([], [SetVar("a", "w", true), q]) == ApplyAll([a], [q]) == ApplyAll([a, b], []);
  }

  /** Then `set a u`, and `$a` is `b=v`. */
  lemma {:induction false} SecondEntry()
    ensures
      var vs := ApplyAll([], [SetVar("a", "w", true), SetVar("a=b", "v", true), SetVar("a", "u", true)]);
      Lookup(vs, "a") == Some("b=v")
  {
    var (a, b) := (Var("a", "w"), Var("a", "b=v"));
    var (p, q, r) := (SetVar("a", "w", true), SetVar("a=b", "v", true), SetVar("a", "u", true));
    TwoEntries();
    assert [p, q, r] == [p, q] + [r];
    ApplyMore([], [p, q], [r]);
    MatchesName(a, "a");
    MatchesName(b, "a");
    assert Without([a, b], "a") == [b];
    assert Matches([b][0], "a");
    SetIsRead([a, b], "a", "u");
    assert Lookup([b], "a") == Some("b=v");
    assert ApplyAll([a, b], [r]) == ApplyAll(Apply([a, b], r), []);
  }

  lemma {:induction false} ApplyMore(vs: seq<Var>, qs: seq<Request>, more: seq<Request>)
    ensures ApplyAll(vs, qs + more) == ApplyAll(ApplyAll(vs, qs), more)
    decreases |qs|
  {
    if qs == [] {
      assert qs + more == more;
    } else {
      assert (qs + more)[1..] == qs[1..] + more;
      ApplyMore(Apply(vs, qs[0]), qs[1..], more);
    }
  }

  // ------------------------------------------------------ names that are whole entries

  lemma {:induction false} NameIsNoEntry(vs: seq<Var>, name: string)
    requires '=' !in name
    ensures !Stored(vs, name) && !RunsPast(vs, name)
  {
    forall k | 0 <= k < |vs| ensures Text(vs[k]) != name { assert Text(vs[k])[|vs[k].name|] == '='; }
  }

  /** In a list with unique names the walk comes to every entry whose whole text is the name. */
  lemma {:induction false} RunsPastIff(vs: seq<Var>, name: string)
    requires Unique(vs) && AllStorable(vs)
    ensures RunsPast(vs, name) <==> Stored(vs, name)
  {
    if Stored(vs, name) {
      var k :| 0 <= k < |vs| && Text(vs[k]) == name;
      forall j | 0 <= j < k ensures !Matches(vs[j], name) {
        if Matches(vs[j], name) {
          var n := vs[k].name;
          assert n + "=" <= Text(vs[j]) by { assert Text(vs[j])[..|n| + 1] == name[..|n| + 1] == n + "="; }
          MatchesName(vs[j], n);
        }
      }
    }
  }

  /** `set a b`, then anything that looks for `a=b`. */
  lemma {:induction false} WholeEntry()
    ensures
      var vs := Apply([], SetVar("a", "b", true));
      vs == [Var("a", "b")] && RunsPast(vs, "a=b")
  {
    VarOfText(Var("a", "b"));
    assert Text(Var("a", "b")) == "a" + "=" + "b" == "a=b";
    assert Apply([], SetVar("a", "b", true)) == [Var("a", "b")];
    assert Text([Var("a", "b")][0]) == "a=b";
  }

  /** Entries that match the same name have the same name before the first `=`. */
  lemma {:induction false} MatchesSameName(v: Var, w: Var, name: string)
    requires '=' !in v.name && '=' !in w.name && Matches(v, name) && Matches(w, name)
    ensures v.name == w.name
  {
    if '=' in name {
      var n := VarOf(name).name;
      assert n + "=" <= name;
      assert n + "=" <= Text(v) by { assert Text(v)[..|n| + 1] == name[..|n| + 1]; }
      assert n + "=" <= Text(w) by { assert Text(w)[..|n| + 1] == name[..|n| + 1]; }
      MatchesName(v, n);
      MatchesName(w, n);
    } else {
      MatchesName(v, name);
      MatchesName(w, name);
    }
  }

  /** In a list with unique names no second entry matches. */
  lemma {:induction false} OneMatch(vs: seq<Var>, name: string)
    requires Unique(vs) && AllStorable(vs)
    ensures !Has(Without(vs, name), name)
  {
    if Has(vs, name) {
      var k := FirstIndex(vs, name);
      WithoutIsRemoval(vs, name, k);
      var w := vs[..k] + vs[k + 1..];
      forall j | 0 <= j < |w| ensures !Matches(w[j], name) {
        var i := if j < k then j else j + 1;
        assert w[j] == vs[i];
        if Matches(vs[i], name) { MatchesSameName(vs[k], vs[i], name); }
      }
    } else {
      WithoutAbsent(vs, name);
    }
  }

  lemma {:induction false} LookupBefore(vs: seq<Var>, v: Var, name: string)
    requires Has(vs, name)
    ensures Lookup(vs + [v], name) == Lookup(vs, name) && Lookup(vs, name).Some?
  {
    var k := FirstIndex(vs, name);
    assert forall j :: 0 <= j < |vs| ==> (vs + [v])[j] == vs[j];
    WithoutIsRemoval(vs + [v], name, k);
    WithoutIsRemoval(vs, name, k);
  }

  lemma {:induction false} LookupAppended(vs: seq<Var>, v: Var, name: string)
    requires !Has(vs, name) && Matches(v, name)
    ensures Lookup(vs + [v], name) == Some(v.value)
  {
    assert forall j :: 0 <= j < |vs| ==> (vs + [v])[j] == vs[j];
    assert (vs + [v])[|vs|] == v;
    WithoutIsRemoval(vs + [v], name, |vs|);
  }

  // ----------------------------------------------------------------------- the buffer

  /** The first variables were visited and every call of the callback returned zero. */
  ghost predicate Visited(vars: seq<Var>, visited: seq<string>, callback: (nat, string) -> int) {
    && |visited| <= |vars|
    && (forall j :: 0 <= j < |visited| ==> visited[j] == Text(vars[j]))
    && (forall j :: 0 <= j < |visited| ==> callback(j, visited[j]) == 0)
  }

  lemma {:induction false} VisitOne(vars: seq<Var>, visited: seq<string>, callback: (nat, string) -> int)
    requires Visited(vars, visited, callback) && |visited| < |vars|
    ensures
      var (n, text) := (|visited|, Text(vars[|visited|]));
      && (callback(n, text) == 0 ==> Visited(vars, visited + [text], callback))
      && (forall j :: 0 <= j < n ==> (visited + [text])[j] == Text(vars[j]) && callback(j, (visited + [text])[j]) == 0)
  {}

  class VarBuffer {
    var varp: array?<char>
    var varsz: nat
    ghost var vars: seq<Var>

    /** The buffer holds the packing of `vars`. */
    ghost predicate Packed()
      reads this, varp
    {
      && (varp == null ==> varsz == 0)
      && (varp != null ==> varsz <= varp.Length && varp[..varsz] == Encode(vars))
      && (varp == null ==> vars == [])
    }

    ghost predicate Valid()
      reads this, varp
    {
      Packed() && AllStorable(vars)
    }

    constructor ()
      ensures Valid() && vars == [] && varp == null
    {
      varp, varsz, vars := null, 0, [];
    }

    /** The k-th string is in the buffer, with its NUL. */
    lemma Peek(k: nat, i: nat)
      requires Packed() && k < |vars| && i <= |Text(vars[k])|
      ensures varp != null && Offset(vars, k) + i < varsz <= varp.Length
      ensures varp[Offset(vars, k) + i] == if i < |Text(vars[k])| then Text(vars[k])[i] else NUL
    {
      EntryAt(vars, k, i);
      assert varp[..varsz][Offset(vars, k) + i] == varp[Offset(vars, k) + i];
    }

    /**
     nsh_cmpname.  It reads only within the entry, up to its NUL.  Where that NUL is equal
     too the loop of the source goes on behind it: `Endless`.
     */
    method CompareName(name: string, ptr: nat, ghost k: nat) returns (r: Compared)
      requires Valid() && NoNul(name) && k < |vars| && ptr == Offset(vars, k)
      ensures r == Endless <==> Text(vars[k]) == name
      ensures r == Same <==> Matches(vars[k], name)
    {
      ghost var text := Text(vars[k]);
      assert NUL !in text;
      var i := 0;
      Peek(k, 0);
      while CharAt(name, i) == varp[ptr + i]
        invariant i <= |name| && i <= |text|
        invariant ptr + i < varsz && varp != null && varsz <= varp.Length
        invariant varp[ptr + i] == CharAt(text, i)
        invariant name[..i] == text[..i]
        decreases |text| - i
      {
        if i == |name| { return Endless; }
        assert i < |text|;
        Peek(k, i + 1);
        i := i + 1;
      }
      r := if CharAt(name, i) == NUL && varp[ptr + i] == '=' then Same else Different;
      if r == Same {
        assert text[..i + 1] == name + "=";
      } else if i < |text| {
        assert text[i] != (name + "=")[i];
      }
    }

    /** strlen of the string at `ptr`. */
    method Length(ptr: nat, ghost k: nat) returns (n: nat)
      requires Valid() && k < |vars| && ptr == Offset(vars, k)
      ensures n == |Text(vars[k])|
    {
      n := 0;
      Peek(k, 0);
      while varp[ptr + n] != NUL
        invariant n <= |Text(vars[k])|
        invariant varp != null && ptr + n < varsz <= varp.Length
        invariant varp[ptr + n] == if n < |Text(vars[k])| then Text(vars[k])[n] else NUL
        decreases |Text(vars[k])| - n
      {
        Peek(k, n + 1);
        n := n + 1;
      }
    }

    /** nsh_findvar: the offset of the string, or None. */
    method FindVar(name: string) returns (r: Reply<Option<nat>>, ghost k: nat)
      requires Valid() && NoNul(name)
      ensures r.Overrun? <==> RunsPast(vars, name)
      ensures r.Returned? ==> (r.value.None? <==> !Has(vars, name))
      ensures r.Returned? && r.value.Some? ==>
                && k < |vars| && r.value.value == Offset(vars, k) && Matches(vars[k], name)
                && forall j :: 0 <= j < k ==> !Matches(vars[j], name)
    {
      var ptr := 0;
      k := 0;
      assert vars[..0] == [] && vars[..|vars|] == vars;
      while ptr < varsz
        invariant k <= |vars| && ptr == Offset(vars, k)
        invariant forall j :: 0 <= j < k ==> !Matches(vars[j], name) && Text(vars[j]) != name
        invariant varsz == |Encode(vars)|
        decreases |vars| - k
      {
        var c := CompareName(name, ptr, k);
        if c == Endless { return Overrun, k; }
        if c == Same { return Returned(Some(ptr)), k; }
        EncodeAround(vars, k);
        var n := Length(ptr, k);
        ptr := ptr + n + 1;
        k := k + 1;
      }
      if k < |vars| { EncodeAround(vars, k); }
      r := Returned(None);
    }

    /** nsh_removevar: move the strings after this one down over it. */
    method RemoveVar(ptr: nat, ghost k: nat)
      requires Valid() && k < |vars| && ptr == Offset(vars, k)
      modifies this`varsz, this`vars, varp
      ensures Valid() && varp != null
      ensures vars == old(vars)[..k] + old(vars)[k + 1..]
    {
      EncodeAround(vars, k);
      EncodeWithout(vars, k);
      var len := Length(ptr, k);
      len := len + 1;
      ghost var text := varp[..varsz];
      MoveDown(varp, ptr, len, varsz);
      vars := vars[..k] + vars[k + 1..];
      varsz := varsz - len;
    }

    /** The value part of the string at `ptr`: what follows its first `=`. */
    method ReadValue(ptr: nat, ghost k: nat) returns (value: string)
      requires Valid() && k < |vars| && ptr == Offset(vars, k)
      ensures value == vars[k].value
    {
      ghost var name, text := vars[k].name, Text(vars[k]);
      var i := 0;
      Peek(k, 0);
      while varp[ptr + i] != '='
        invariant i <= |name|
        invariant varp != null && ptr + i < varsz <= varp.Length && varp[ptr + i] == text[i]
        decreases |name| - i
      {
        Peek(k, i + 1);
        i := i + 1;
      }
      assert i == |name|;
      Peek(k, i + 1);
      i := i + 1;
      value := [];
      while varp[ptr + i] != NUL
        invariant |name| < i <= |text| && value == text[|name| + 1..i]
        invariant varp != null && ptr + i < varsz <= varp.Length
        invariant varp[ptr + i] == if i < |text| then text[i] else NUL
        decreases |text| - i
      {
        value := value + [varp[ptr + i]];
        Peek(k, i + 1);
        i := i + 1;
      }
    }

    /** nsh_getvar */
    method GetVar(name: string) returns (r: Reply<Option<string>>)
      requires Valid() && NoNul(name)
      ensures r == if RunsPast(vars, name) then Overrun else Returned(Lookup(vars, name))
    {
      var p, k := FindVar(name);
      if p.Overrun? { return Overrun; }
      if p.value.None? {
        WithoutAbsent(vars, name);
        return Returned(None);
      }
      WithoutIsRemoval(vars, name, k);
      var value := ReadValue(p.value.value, k);
      r := Returned(Some(value));
    }

    /** Find a variable and, if it is there, remove it. */
    method Discard(name: string) returns (r: Reply<bool>)
      requires Valid() && NoNul(name)
      modifies this`varsz, this`vars, varp
      ensures Valid()
      ensures r == if RunsPast(old(vars), name) then Overrun else Returned(Has(old(vars), name))
      ensures vars == if r.Overrun? then old(vars) else Without(old(vars), name)
    {
      var p, k := FindVar(name);
      if p.Overrun? { return Overrun; }
      if p.value.Some? {
        WithoutIsRemoval(vars, name, k);
        RemoveVar(p.value.value, k);
      } else {
        WithoutAbsent(vars, name);
      }
      r := Returned(p.value.Some?);
    }

    /** realloc, and the new text behind the old contents. */
    method Grow(text: string) returns (grown: array<char>)
      requires Packed()
      ensures fresh(grown) && grown.Length == varsz + |text| && grown[..] == Encode(vars) + text
    {
      grown := new char[varsz + |text|];
      forall i | 0 <= i < varsz { grown[i] := varp[i]; }
      forall i | 0 <= i < |text| { grown[varsz + i] := text[i]; }
    }

    /** nsh_setvar; `granted` says whether the buffer can be reallocated. */
    method SetVar(name: string, value: string, granted: bool) returns (r: Reply<bool>)
      requires Valid() && NoNul(name) && NoNul(value)
      modifies this, varp
      ensures Valid()
      ensures r == if RunsPast(old(vars), name) then Overrun else Returned(granted)
      ensures vars == if r.Overrun? then old(vars) else Apply(old(vars), Request.SetVar(name, value, granted))
      ensures varp == old(varp) || fresh(varp)
    {
      ApplyKeeps(vars, Request.SetVar(name, value, granted));
      var found := Discard(name);
      if found.Overrun? { return Overrun; }
      if !granted { return Returned(false); }
      var text := name + "=" + value + [NUL];
      var grown := Grow(text);
      EncodeConcat(vars, [NewVar(name, value)]);
      assert Encode([NewVar(name, value)]) == text + Encode([]);
      varp, varsz := grown, varsz + |text|;
      vars := vars + [NewVar(name, value)];
      r := Returned(true);
    }

    /** nsh_unsetvar; `granted` says whether the buffer can be shrunk. */
    method UnsetVar(name: string, granted: bool) returns (r: Reply<bool>)
      requires Valid() && NoNul(name)
      modifies this, varp
      ensures Valid() && (r.Overrun? <==> RunsPast(old(vars), name))
      ensures r.Returned? ==> (r.value <==> granted || !Has(old(vars), name) || vars == [])
      ensures vars == if r.Overrun? then old(vars) else Apply(old(vars), Request.UnsetVar(name, granted))
      ensures varp == old(varp) || varp == null || fresh(varp)
    {
      var found := Discard(name);
      if found.Overrun? { return Overrun; }
      if !found.value { return Returned(true); }
      if varsz == 0 {
        assert |Encode(vars)| == 0;
        varp := null;
        return Returned(true);
      }
      if !granted { return Returned(false); }
      var shrunk := new char[varsz];
      forall i | 0 <= i < varsz { shrunk[i] := varp[i]; }
      assert shrunk[..varsz] == varp[..varsz];
      varp := shrunk;
      r := Returned(true);
    }

    /**
     nsh_foreach_var: every string once, in order, until the callback returns
     something else than zero.  `callback(j, text)` is what its j-th call returns.
     */
    method ForEach(callback: (nat, string) -> int) returns (ret: int, visited: seq<string>)
      requires Valid()
      ensures |visited| <= |vars|
      ensures forall j :: 0 <= j < |visited| ==> visited[j] == Text(vars[j])
      ensures forall j :: 0 <= j < |visited| - 1 ==> callback(j, visited[j]) == 0
      ensures ret == if visited == [] then 0 else callback(|visited| - 1, visited[|visited| - 1])
      ensures ret == 0 ==> |visited| == |vars|
    {
      var ptr := 0;
      ret, visited := 0, [];
      assert vars[..0] == [] && vars[..|vars|] == vars;
      while ptr < varsz
        invariant Visited(vars, visited, callback) && ptr == Offset(vars, |visited|)
        invariant varsz == |Encode(vars)| && ret == 0
        decreases |vars| - |visited|
      {
        ghost var k := |visited|;
        EncodeAround(vars, k);
        var n := Length(ptr, k);
        var text := ReadString(ptr, n, k);
        VisitOne(vars, visited, callback);
        ret := callback(|visited|, text);
        visited := visited + [text];
        if ret != 0 { return; }
        ptr := ptr + n + 1;
      }
      if |visited| < |vars| { EncodeAround(vars, |visited|); }
    }

    /** The string at `ptr`. */
    method ReadString(ptr: nat, n: nat, ghost k: nat) returns (text: string)
      requires Valid() && k < |vars| && ptr == Offset(vars, k) && n == |Text(vars[k])|
      ensures text == Text(vars[k])
    {
      Peek(k, n);
      text := varp[ptr..ptr + n];
      forall i | 0 <= i < n ensures text[i] == Text(vars[k])[i] {
        Peek(k, i);
      }
    }
  }

  /** Move the characters from `ptr + len` up to `end` down to `ptr`. */
  method MoveDown(a: array<char>, ptr: nat, len: nat, end: nat)
    requires ptr + len <= end <= a.Length
    modifies a
    ensures a[..end - len] == old(a[..end])[..ptr] + old(a[..end])[ptr + len..]
  {
    var dest, src := ptr, ptr + len;
    while src < end
      invariant ptr <= dest && src == dest + len <= end
      invariant forall j :: 0 <= j < ptr || dest <= j < a.Length ==> a[j] == old(a[j])
      invariant forall j :: ptr <= j < dest ==> a[j] == old(a[j + len])
    {
      a[dest] := a[src];
      dest, src := dest + 1, src + 1;
    }
    Moved(old(a[..]), a[..], ptr, len, end);
  }

  lemma {:induction false} Moved(s: seq<char>, t: seq<char>, ptr: nat, len: nat, end: nat)
    requires ptr + len <= end <= |s| == |t|
    requires forall j :: 0 <= j < ptr ==> t[j] == s[j]
    requires forall j :: ptr <= j < end - len ==> t[j] == s[j + len]
    ensures t[..end - len] == s[..end][..ptr] + s[..end][ptr + len..]
  {}
}
