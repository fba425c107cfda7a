/**
 NSH variables beside the environment of the process: the commands `set`, `unset` and
 `export`, and the expansion of `$name`.  When a name is in both, and when it never is.
 */
module NshEnvironment {
  import opened Basics
  import opened NshVars

  /** The two name spaces. */
  datatype Names = Names(vars: seq<Var>, env: map<string, string>) {

    /** No variable shadows the environment: an entry that matches a name is found before it. */
    ghost predicate Apart() {
      forall name :: name in env ==> !Has(vars, name)
    }

    /** The variable list is in order as well, and environment names hold no `=`. */
    ghost predicate Ok() {
      && Unique(vars) && AllStorable(vars) && Apart()
      && (forall name :: name in env ==> '=' !in name)
    }
  }

  // ------------------------------------------------------------------------ trimming

  function TrimLeft(s: string): string {
    if s != "" && IsSpace(s[0]) then TrimLeft(s[1..]) else s
  }

  function TrimRight(s: string): string {
    if s != "" && IsSpace(s[|s| - 1]) then TrimRight(s[..|s| - 1]) else s
  }

  function Trim(s: string): string { TrimRight(TrimLeft(s)) }

  predicate AllSpace(s: string) { forall k :: 0 <= k < |s| ==> IsSpace(s[k]) }

  lemma {:induction false} TrimLeftSplits(s: string) returns (front: string)
    ensures s == front + TrimLeft(s) && AllSpace(front)
    ensures TrimLeft(s) != "" ==> !IsSpace(TrimLeft(s)[0])
  {
    if s != "" && IsSpace(s[0]) {
      front := TrimLeftSplits(s[1..]);
      front := [s[0]] + front;
    } else {
      front := "";
    }
  }

  lemma {:induction false} TrimRightSplits(s: string) returns (back: string)
    ensures s == TrimRight(s) + back && AllSpace(back)
    ensures TrimRight(s) != "" ==> !IsSpace(TrimRight(s)[|TrimRight(s)| - 1])
  {
    if s != "" && IsSpace(s[|s| - 1]) {
      back := TrimRightSplits(s[..|s| - 1]);
      back := back + [s[|s| - 1]];
    } else {
      back := "";
    }
  }

  /** Trimming takes away white space at both ends and nothing else. */
  lemma {:induction false} TrimSplits(s: string) returns (front: string, back: string)
    ensures s == front + Trim(s) + back && AllSpace(front) && AllSpace(back)
    ensures Trim(s) != "" ==> !IsSpace(Trim(s)[0]) && !IsSpace(Trim(s)[|Trim(s)| - 1])
  {
    front := TrimLeftSplits(s);
    back := TrimRightSplits(TrimLeft(s));
    if Trim(s) != "" { assert TrimLeft(s)[0] == Trim(s)[0]; }
  }

  // ------------------------------------------------------------------------ commands

  /**
   One command and how the calls it makes turn out: whether memory for the
   variable buffer is granted, whether the environment call succeeds, and
   whether a failing environment call has lost the name.
   */
  datatype Outside = Outside(granted: bool, envOk: bool, lost: bool)

  datatype EnvCommand =
    | Set(name: string, value: string, outside: Outside)
    | Unset(name: string, outside: Outside)
    | Export(name: string, given: Option<string>, outside: Outside)

  datatype Done = Done(names: Names, reply: Reply<bool>)

  /** The arguments are C strings. */
  predicate Strings(c: EnvCommand) {
    && NoNul(c.name)
    && (c.Set? ==> NoNul(c.value))
    && (c.Export? && c.given.Some? ==> NoNul(c.given.value))
  }

  /** The arguments are strings, and the name holds no `=`. */
  predicate Sensible(c: EnvCommand) { Strings(c) && '=' !in c.name }

  /** setenv with overwriting. */
  function SetEnv(env: map<string, string>, name: string, value: string, o: Outside): map<string, string> {
    if o.envOk then env[name := value] else if o.lost then env - {name} else env
  }

  /** unsetenv. */
  function UnsetEnv(env: map<string, string>, name: string, o: Outside): map<string, string> {
    if o.envOk || o.lost then env - {name} else env
  }

  function GetOr(o: Option<string>, default: string): string {
    match o case Some(v) => v case None => default
  }

  /** nsh_unsetvar on the list: the variable goes, but shrinking the buffer may fail. */
  predicate UnsetOk(vars: seq<Var>, name: string, granted: bool) {
    granted || !Has(vars, name) || Without(vars, name) == []
  }

  /** The command searches the variables for a name that is a whole entry. */
  predicate Overruns(n: Names, c: EnvCommand) {
    && RunsPast(n.vars, c.name)
    && match c
       case Set(name, _, _) => name !in n.env
       case Unset(_, _) => true
       case Export(_, given, o) => given.None? || o.envOk
  }

  function RunCommand(n: Names, c: EnvCommand): Done {
    if !Overruns(n, c) then Complete(n, c)
    else if c.Export? && c.given.Some? then Done(n.(env := SetEnv(n.env, c.name, c.given.value, c.outside)), Overrun)
    else Done(n, Overrun)
  }

  /** A command whose search comes to an end. */
  function Complete(n: Names, c: EnvCommand): Done {
    match c
    case Set(name, value, o) =>
      if name in n.env then Done(n.(env := SetEnv(n.env, name, Trim(value), o)), Returned(o.envOk))
      else Done(n.(vars := Apply(n.vars, SetVar(name, Trim(value), o.granted))), Returned(o.granted))
    case Unset(name, o) =>
      Done(Names(Without(n.vars, name), UnsetEnv(n.env, name, o)),
           Returned(UnsetOk(n.vars, name, o.granted) && o.envOk))
    case Export(name, given, o) =>
      var value := if given.Some? then given.value else GetOr(Lookup(n.vars, name), "");
      if o.envOk then
        Done(Names(Without(n.vars, name), SetEnv(n.env, name, value, o)),
             Returned(UnsetOk(n.vars, name, o.granted)))
      else Done(n.(env := SetEnv(n.env, name, value, o)), Returned(false))
  }

  /** One command after the other; an overrun is the end. */
  function RunCommands(n: Names, cs: seq<EnvCommand>): Names
    decreases |cs|
  {
    if cs == [] then n
    else
      var d := RunCommand(n, cs[0]);
      if d.reply.Overrun? then d.names else RunCommands(d.names, cs[1..])
  }

  /** The expansion of `$name`; `failed` and `pid` are the last status and process. */
  function Expand(n: Names, name: string, failed: bool, pid: string): string {
    if name == "?" then if failed then "1" else "0"
    else if name == "!" then pid
    else match Lookup(n.vars, name)
      case Some(v) => v
      case None => if name in n.env then n.env[name] else ""
  }

  // ----------------------------------------------------------------------- theorems

  lemma {:induction false} TrimIsStorable(s: string)
    requires NoNul(s)
    ensures NoNul(Trim(s))
  {
    var front, back := TrimSplits(s);
  }

  lemma {:induction false} AppendHas(vs: seq<Var>, v: Var, n: string)
    ensures Has(vs + [v], n) <==> Has(vs, n) || Matches(v, n)
  {
    if Has(vs, n) {
      var k :| 0 <= k < |vs| && Matches(vs[k], n);
      assert Matches((vs + [v])[k], n);
    }
    if Matches(v, n) { assert Matches((vs + [v])[|vs|], n); }
  }

  /**
   What makes a variable shadow the environment: a set whose new entry matches the name
   of an environment variable, or an export of a name that a further entry matches.
   */
  ghost predicate Exposes(n: Names, c: EnvCommand) {
    match c
    case Set(name, value, o) =>
      && name !in n.env && o.granted && !RunsPast(n.vars, name)
      && exists e :: e in n.env && Matches(NewVar(name, Trim(value)), e)
    case Unset(_, _) => false
    case Export(name, given, o) =>
      o.envOk && if RunsPast(n.vars, name) then given.Some? && Has(n.vars, name) else Has(Without(n.vars, name), name)
  }

  /** Every command, succeed or fail, on whatever name, keeps the two name spaces apart unless it exposes one. */
  lemma {:induction false} KeepsApartIff(n: Names, c: EnvCommand)
    requires AllStorable(n.vars) && n.Apart()
    ensures RunCommand(n, c).names.Apart() <==> !Exposes(n, c)
  {
    WithoutKeeps(n.vars, c.name);
    var m := RunCommand(n, c).names;
    if c.Set? && c.name !in n.env && c.outside.granted && !RunsPast(n.vars, c.name) {
      SetExposesIff(n, c);
    } else if c.Export? && c.outside.envOk && !RunsPast(n.vars, c.name) {
      assert m.vars == Without(n.vars, c.name) && c.name in m.env;
    }
  }

  lemma {:induction false} SetExposesIff(n: Names, c: EnvCommand)
    requires AllStorable(n.vars) && n.Apart() && c.Set? && c.name !in n.env && c.outside.granted
    requires !RunsPast(n.vars, c.name)
    ensures RunCommand(n, c).names.Apart() <==> !Exposes(n, c)
  {
    WithoutKeeps(n.vars, c.name);
    var v := NewVar(c.name, Trim(c.value));
    forall e ensures Has(Without(n.vars, c.name) + [v], e) <==> Has(Without(n.vars, c.name), e) || Matches(v, e) {
      AppendHas(Without(n.vars, c.name), v, e);
    }
  }

  /** The entries stay texts with a `=` and without NUL. */
  lemma {:induction false} CommandKeepsStorable(n: Names, c: EnvCommand)
    requires AllStorable(n.vars) && Strings(c)
    ensures AllStorable(RunCommand(n, c).names.vars)
  {
    WithoutKeeps(n.vars, c.name);
    if c.Set? {
      TrimIsStorable(c.value);
      ApplyKeeps(n.vars, SetVar(c.name, Trim(c.value), c.outside.granted));
    }
  }

  ghost predicate AlwaysApart(n: Names, cs: seq<EnvCommand>)
    decreases |cs|
  {
    n.Apart() && (cs != [] ==>
                    var d := RunCommand(n, cs[0]);
                    if d.reply.Overrun? then d.names.Apart() else AlwaysApart(d.names, cs[1..]))
  }

  ghost predicate NoneExposes(n: Names, cs: seq<EnvCommand>)
    decreases |cs|
  {
    cs != [] ==>
      var d := RunCommand(n, cs[0]);
      !Exposes(n, cs[0]) && (d.reply.Overrun? || NoneExposes(d.names, cs[1..]))
  }

  /** Over every sequence of commands on whatever names: apart throughout exactly when no command exposes a name. */
  lemma {:induction false} StaysApartIff(n: Names, cs: seq<EnvCommand>)
    requires AllStorable(n.vars) && n.Apart() && forall i :: 0 <= i < |cs| ==> Strings(cs[i])
    ensures AlwaysApart(n, cs) <==> NoneExposes(n, cs)
    decreases |cs|
  {
    if cs != [] {
      var m := RunCommand(n, cs[0]).names;
      KeepsApartIff(n, cs[0]);
      CommandKeepsStorable(n, cs[0]);
      if m.Apart() { StaysApartIff(m, cs[1..]); }
    }
  }

  /** Where no environment name holds a `=`, a set shadows one exactly when its own name continues it with a `=`. */
  lemma {:induction false} SetShadowsIff(n: Names, c: EnvCommand)
    requires AllStorable(n.vars) && n.Apart() && c.Set? && forall e :: e in n.env ==> '=' !in e
    ensures RunCommand(n, c).names.Apart()
            <==> !(c.outside.granted && '=' in c.name && VarOf(c.name).name in n.env)
  {
    KeepsApartIff(n, c);
    var v := NewVar(c.name, Trim(c.value));
    NewVarOf(c.name, Trim(c.value));
    forall e | e in n.env ensures Matches(v, e) <==> v.name == e { MatchesName(v, e); }
    if RunsPast(n.vars, c.name) { EntryIsApart(n, c.name); }
  }

  /** A name that is a whole entry continues no environment name. */
  lemma {:induction false} EntryIsApart(n: Names, name: string)
    requires AllStorable(n.vars) && n.Apart() && RunsPast(n.vars, name)
    ensures '=' in name && VarOf(name).name !in n.env
  {
    var k :| 0 <= k < |n.vars| && Text(n.vars[k]) == name;
    VarOfText(n.vars[k]);
    MatchesName(n.vars[k], n.vars[k].name);
  }

  /** No shadowing: commands on names without `=`, succeed or fail, keep the two name spaces apart and in order. */
  lemma {:induction false} CommandKeepsApart(n: Names, c: EnvCommand)
    requires n.Ok() && Sensible(c)
    ensures RunCommand(n, c).names.Ok()
  {
    KeepsApartIff(n, c);
    NameIsNoEntry(n.vars, c.name);
    OneMatch(n.vars, c.name);
    WithoutKeeps(n.vars, c.name);
    if c.Set? {
      TrimIsStorable(c.value);
      ApplyIsMap(n.vars, SetVar(c.name, Trim(c.value), c.outside.granted));
      NewVarOf(c.name, Trim(c.value));
      if c.name !in n.env { NoneExposed(n, c.name, Trim(c.value)); }
    }
  }

  lemma {:induction false} NoneExposed(n: Names, name: string, value: string)
    requires n.Ok() && IsName(name) && name !in n.env && NewVar(name, value) == Var(name, value)
    ensures forall e :: e in n.env ==> !Matches(NewVar(name, value), e)
  {
    forall e | e in n.env ensures !Matches(NewVar(name, value), e) { MatchesName(Var(name, value), e); }
  }

  /** The same over every sequence of commands. */
  lemma {:induction false} NoShadowing(n: Names, cs: seq<EnvCommand>)
    requires n.Ok() && forall i :: 0 <= i < |cs| ==> Sensible(cs[i])
    ensures RunCommands(n, cs).Ok()
    decreases |cs|
  {
    if cs != [] {
      NameIsNoEntry(n.vars, cs[0].name);
      CommandKeepsApart(n, cs[0]);
      NoShadowing(RunCommand(n, cs[0]).names, cs[1..]);
    }
  }

  /** A call that the command makes fails; a removed variable asks for a smaller buffer unless it was the last one. */
  ghost predicate CallFails(n: Names, c: EnvCommand) {
    var shrinks := Has(n.vars, c.name) && Without(n.vars, c.name) != [];
    match c
    case Set(name, _, o) => if name in n.env then !o.envOk else !o.granted
    case Unset(_, o) => !o.envOk || (shrinks && !o.granted)
    case Export(_, _, o) => !o.envOk || (shrinks && !o.granted)
  }

  /** A command reports an error exactly when one of its calls fails. */
  lemma {:induction false} FailsIff(n: Names, c: EnvCommand)
    requires !Overruns(n, c)
    ensures RunCommand(n, c).reply == Returned(!CallFails(n, c))
  {}

  /** What `$name` expands to after a successful command on that name. */
  ghost function Meaning(n: Names, c: EnvCommand): string {
    match c
    case Set(_, value, _) => Trim(value)
    case Unset(_, _) => ""
    case Export(name, given, _) => if given.Some? then given.value else GetOr(Lookup(n.vars, name), "")
  }

  /** A successful command is seen by `$name`. */
  lemma {:induction false} CommandIsSeen(n: Names, c: EnvCommand, failed: bool, pid: string)
    requires n.Ok() && Sensible(c) && RunCommand(n, c).reply == Returned(true)
    requires c.name != "?" && c.name != "!"
    ensures Expand(RunCommand(n, c).names, c.name, failed, pid) == Meaning(n, c)
  {
    NameIsNoEntry(n.vars, c.name);
    VarsAreMap(n.vars, c);
    LookupIsMap(n.vars, c.name);
    LookupIsMap(RunCommand(n, c).names.vars, c.name);
  }

  lemma {:induction false} VarsAreMap(vars: seq<Var>, c: EnvCommand)
    requires Unique(vars) && AllStorable(vars) && Sensible(c)
    ensures Unique(Without(vars, c.name)) && AllStorable(Without(vars, c.name))
    ensures AsMap(Without(vars, c.name)) == AsMap(vars) - {c.name}
    ensures c.Set? ==>
      var q := SetVar(c.name, Trim(c.value), c.outside.granted);
      AllStorable(Apply(vars, q)) && AsMap(Apply(vars, q)) == ApplyMap(AsMap(vars), q)
  {
    WithoutKeeps(vars, c.name);
    WithoutIsMap(vars, c.name);
    if c.Set? {
      TrimIsStorable(c.value);
      ApplyIsMap(vars, SetVar(c.name, Trim(c.value), c.outside.granted));
    }
  }

  lemma {:induction false} OtherVariables(n: Names, c: EnvCommand, other: string)
    requires n.Ok() && Sensible(c) && other != c.name && '=' !in other
    ensures Lookup(RunCommand(n, c).names.vars, other) == Lookup(n.vars, other)
  {
    NameIsNoEntry(n.vars, c.name);
    VarsAreMap(n.vars, c);
    LookupIsMap(n.vars, other);
    LookupIsMap(RunCommand(n, c).names.vars, other);
  }

  /** Every command, succeed or fail, leaves the other names alone. */
  lemma {:induction false} CommandIsLocal(n: Names, c: EnvCommand, other: string, failed: bool, pid: string)
    requires n.Ok() && Sensible(c) && other != c.name && '=' !in other
    ensures Expand(RunCommand(n, c).names, other, failed, pid) == Expand(n, other, failed, pid)
  {
    OtherVariables(n, c, other);
  }

  /** What decides whether a second export of the name keeps its value. */
  ghost predicate SecondExportKeeps(vars: seq<Var>, name: string) {
    var (v, w) := (Without(vars, name), Without(Without(vars, name), name));
    || RunsPast(vars, name) || RunsPast(v, name)
    || (!Has(v, name) && GetOr(Lookup(vars, name), "") == "")
    || (Has(v, name) && (!Has(w, name) || Lookup(v, name) == Lookup(w, name)))
  }

  /**
   Exporting a name without a value a second time.  With one entry of the name the
   variable is gone after the first export, so the empty string is exported: the value
   is kept exactly when it was empty.  With further entries of the name, which only
   names with `=` make, each export uncovers the next one.
   */
  lemma {:induction false} ExportAgainIff(n: Names, name: string, o: Outside, failed: bool, pid: string)
    requires name != "?" && name != "!" && o.envOk
    ensures
      var once := RunCommand(n, Export(name, None, o)).names;
      var twice := RunCommand(once, Export(name, None, o)).names;
      && (Expand(twice, name, failed, pid) == Expand(once, name, failed, pid) <==> SecondExportKeeps(n.vars, name))
      && (Unique(n.vars) && AllStorable(n.vars) && '=' !in name ==>
            (SecondExportKeeps(n.vars, name) <==> GetOr(Lookup(n.vars, name), "") == ""))
  {
    var v := Without(n.vars, name);
    LookupHas(n.vars, name);
    LookupHas(v, name);
    LookupHas(Without(v, name), name);
    if Unique(n.vars) && AllStorable(n.vars) && '=' !in name {
      OneMatch(n.vars, name);
      NameIsNoEntry(n.vars, name);
      NameIsNoEntry(v, name);
    }
    if !Has(v, name) { WithoutAbsent(v, name); }
  }

  lemma {:induction false} LookupHas(vs: seq<Var>, name: string)
    ensures Lookup(vs, name).Some? <==> Has(vs, name)
  {
    if Has(vs, name) {
      WithoutIsRemoval(vs, name, FirstIndex(vs, name));
    } else {
      WithoutAbsent(vs, name);
    }
  }

  // ------------------------------------------------------------------------ the session

  /** The variable buffer of a session and the environment of its process. */
  class Session {
    const buffer: VarBuffer
    var env: map<string, string>

    ghost function View(): Names
      reads this, buffer
    {
      Names(buffer.vars, env)
    }

    ghost predicate Valid()
      reads this, buffer, buffer.varp
    {
      buffer.Valid()
    }

    constructor ()
      ensures Valid() && View() == Names([], map[]) && fresh(buffer)
    {
      buffer := new VarBuffer();
      env := map[];
    }

    /** setenv */
    method SetEnvironment(name: string, value: string, o: Outside) returns (ok: bool)
      modifies this
      ensures env == SetEnv(old(env), name, value, o) && ok == o.envOk
    {
      if o.envOk {
        env := env[name := value];
      } else if o.lost {
        env := env - {name};
      }
      ok := o.envOk;
    }

    /** cmd_set with a name and a value */
    method CmdSet(name: string, value: string, o: Outside) returns (r: Reply<bool>)
      requires Valid() && Strings(Set(name, value, o))
      modifies this, buffer, buffer.varp
      ensures Valid()
      ensures Done(View(), r) == RunCommand(old(View()), Set(name, value, o))
      ensures old(View().Ok()) && '=' !in name ==> View().Ok()
      ensures buffer.varp == old(buffer.varp) || fresh(buffer.varp)
    {
      if View().Ok() && '=' !in name { CommandKeepsApart(View(), Set(name, value, o)); }
      TrimIsStorable(value);
      if name !in env {
        r := buffer.SetVar(name, Trim(value), o.granted);
      } else {
        var ok := SetEnvironment(name, Trim(value), o);
        r := Returned(ok);
      }
    }

    /** cmd_unset */
    method CmdUnset(name: string, o: Outside) returns (r: Reply<bool>)
      requires Valid() && Strings(Unset(name, o))
      modifies this, buffer, buffer.varp
      ensures Valid()
      ensures Done(View(), r) == RunCommand(old(View()), Unset(name, o))
      ensures old(View().Ok()) && '=' !in name ==> View().Ok()
    {
      if View().Ok() && '=' !in name { CommandKeepsApart(View(), Unset(name, o)); }
      r := buffer.UnsetVar(name, o.granted);
      if r.Overrun? { return; }
      if o.envOk || o.lost { env := env - {name}; }
      if !o.envOk { r := Returned(false); }
    }

    /** cmd_export, with or without a value */
    method CmdExport(name: string, given: Option<string>, o: Outside) returns (r: Reply<bool>)
      requires Valid() && Strings(Export(name, given, o))
      modifies this, buffer, buffer.varp
      ensures Valid()
      ensures Done(View(), r) == RunCommand(old(View()), Export(name, given, o))
      ensures old(View().Ok()) && '=' !in name ==> View().Ok()
    {
      if View().Ok() && '=' !in name { CommandKeepsApart(View(), Export(name, given, o)); }
      var value := "";
      if given.Some? {
        value := given.value;
      } else {
        var found := buffer.GetVar(name);
        if found.Overrun? { return Overrun; }
        if found.value.Some? { value := found.value.value; }
      }
      var ok := SetEnvironment(name, value, o);
      if ok {
        r := buffer.UnsetVar(name, o.granted);
      } else {
        r := Returned(false);
      }
    }

    /** nsh_envexpand */
    method EnvExpand(name: string, failed: bool, pid: string) returns (r: Reply<string>)
      requires Valid() && NoNul(name)
      ensures r == if RunsPast(buffer.vars, name) then Overrun else Returned(Expand(View(), name, failed, pid))
    {
      if '=' !in name { NameIsNoEntry(buffer.vars, name); }
      if name == "?" {
        r := Returned(if failed then "1" else "0");
      } else if name == "!" {
        r := Returned(pid);
      } else {
        var found := buffer.GetVar(name);
        if found.Overrun? { return Overrun; }
        r := Returned(if found.value.Some? then found.value.value else if name in env then env[name] else "");
      }
    }
  }
}
