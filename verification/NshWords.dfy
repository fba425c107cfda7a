/**
 Words of plain command text, and replacing the first one by the value of an
 alias.  Plain text has no quotes, back-slashes, comments, redirections, pipes
 or expansions.
 */
module NshWords {
  import opened Basics

  predicate Separates(c: char) { c == ' ' || c == '\t' || c == '\n' }

  predicate Special(c: char) {
    c == '\'' || c == '"' || c == '`' || c == '\\' || c == '#' || c == '$' || c == '<' || c == '>' || c == '|'
  }

  predicate Plain(s: string) { forall i :: 0 <= i < |s| ==> !Special(s[i]) }

  /** The length of the word at the start of the text; strcspn. */
  function WordLength(s: string): (n: nat)
    ensures n <= |s|
    ensures forall i :: 0 <= i < n ==> !Separates(s[i])
    ensures n < |s| ==> Separates(s[n])
  {
    if s == "" || Separates(s[0]) then 0 else 1 + WordLength(s[1..])
  }

  function Words(s: string): seq<string>
    decreases |s|
  {
    if s == "" then []
    else if Separates(s[0]) then Words(s[1..])
    else
      var n := WordLength(s);
      [s[..n]] + Words(s[n..])
  }

  /** The word that is taken as the command, and the text after it. */
  datatype Taken = Taken(word: string, rest: string)

  /** nsh_aliasexpand, where `rest` is the text after the word that is replaced. */
  function Expand(value: string, rest: string): Taken {
    var n := WordLength(value);
    if n == |value| then Taken(value, rest)
    else Taken(value[..n], (value + " " + rest)[n + 1..])
  }

  ghost function Stream(t: Taken): seq<string> { [t.word] + Words(t.rest) }

  // ------------------------------------------------------------------- about words

  lemma {:induction false} LengthIs(s: string, n: nat)
    requires n <= |s| && (forall i :: 0 <= i < n ==> !Separates(s[i])) && (n < |s| ==> Separates(s[n]))
    ensures WordLength(s) == n
  {
    if n > 0 { LengthIs(s[1..], n - 1); }
  }

  lemma {:induction false} LengthOfBoth(a: string, c: char, b: string)
    requires Separates(c)
    ensures
      var (s, n) := (a + [c] + b, WordLength(a));
      WordLength(s) == n && s[..n] == a[..n] && s[n..] == a[n..] + [c] + b
  {
    var (s, n) := (a + [c] + b, WordLength(a));
    assert s[n] == (if n < |a| then a[n] else c);
    LengthIs(s, n);
  }

  /** A separator ends a word, so the words on its two sides are those of the whole. */
  lemma {:induction false} WordsOfBoth(a: string, c: char, b: string)
    requires Separates(c)
    ensures Words(a + [c] + b) == Words(a) + Words(b)
    decreases |a|
  {
    var s := a + [c] + b;
    if a == "" {
      assert s[1..] == b;
    } else if Separates(a[0]) {
      assert s[1..] == a[1..] + [c] + b;
      WordsOfBoth(a[1..], c, b);
    } else {
      var n := WordLength(a);
      LengthOfBoth(a, c, b);
      WordsOfBoth(a[n..], c, b);
      assert [a[..n]] + (Words(a[n..]) + Words(b)) == [a[..n]] + Words(a[n..]) + Words(b);
    }
  }

  lemma {:induction false} NoEmptyWords(s: string)
    ensures "" !in Words(s)
    decreases |s|
  {
    if s != "" {
      if Separates(s[0]) {
        NoEmptyWords(s[1..]);
      } else {
        NoEmptyWords(s[WordLength(s)..]);
      }
    }
  }

  /** The first word, and the text after the separator that ends it. */
  lemma {:induction false} WordsSplit(s: string)
    requires s != "" && !Separates(s[0])
    ensures
      var n := WordLength(s);
      n > 0 && Words(s) == [s[..n]] + (if n < |s| then Words(s[n + 1..]) else [])
  {
    var n := WordLength(s);
    if n < |s| {
      assert s[n..][1..] == s[n + 1..];
    } else {
      assert s[n..] == "";
    }
  }

  lemma {:induction false} ExpandKeeps(value: string, rest: string)
    requires value != "" && !Separates(value[0])
    ensures Stream(Expand(value, rest)) == Words(value) + Words(rest)
  {
    var n := WordLength(value);
    WordsSplit(value);
    if n < |value| {
      var tail := value[n + 1..];
      assert (value + " " + rest)[n + 1..] == tail + [' '] + rest;
      WordsOfBoth(tail, ' ', rest);
    } else {
      assert value[..n] == value;
    }
  }

  /**
   The command goes on as if the words of the value had been written in place of the
   alias exactly when the value starts with a word.
   */
  lemma {:induction false} ExpandKeepsIff(value: string, rest: string)
    ensures Stream(Expand(value, rest)) == Words(value) + Words(rest) <==> value != "" && !Separates(value[0])
  {
    if value != "" && !Separates(value[0]) {
      ExpandKeeps(value, rest);
    } else {
      NoEmptyWords(value);
      NoEmptyWords(rest);
      assert Stream(Expand(value, rest))[0] == "";
      assert "" !in Words(value) + Words(rest);
    }
  }

  // ---------------------------------------------------------------------- taking words

  lemma {:induction false} WordAt(line: string, begin: nat, end: nat)
    requires begin < end <= |line| && (end < |line| ==> Separates(line[end]))
    requires forall k :: begin <= k < end ==> !Separates(line[k])
    ensures Words(line[begin..]) == [line[begin..end]] + Words(line[if end < |line| then end + 1 else end..])
  {
    var s := line[begin..];
    LengthIs(s, end - begin);
    WordsSplit(s);
    assert s[..end - begin] == line[begin..end];
    if end < |line| {
      assert s[end - begin + 1..] == line[end + 1..];
    } else {
      assert line[end..] == "";
    }
  }

  /** nsh_argument on plain text. */
  method NextArgument(line: string, from: nat) returns (word: Option<string>, next: nat)
    requires from <= |line| && Plain(line)
    ensures from <= next <= |line| && (word.Some? ==> from < next)
    ensures Words(line[from..]) == match word case None => [] case Some(w) => [w] + Words(line[next..])
  {
    var begin := from;
    while begin < |line| && Separates(line[begin])
      invariant from <= begin <= |line|
      invariant Words(line[from..]) == Words(line[begin..])
    {
      assert line[begin..][1..] == line[begin + 1..];
      begin := begin + 1;
    }
    if begin == |line| {
      return None, from;
    }
    var end := begin;
    while end < |line| && !Separates(line[end])
      invariant begin <= end <= |line|
      invariant forall k :: begin <= k < end ==> !Separates(line[k])
    {
      end := end + 1;
    }
    WordAt(line, begin, end);
    next := if end < |line| then end + 1 else end;
    word := Some(line[begin..end]);
  }

  /** strcspn over the separators of words. */
  method FindSeparator(s: string) returns (n: nat)
    ensures n == WordLength(s)
  {
    n := 0;
    while n < |s| && !Separates(s[n])
      invariant n <= |s|
      invariant forall k :: 0 <= k < n ==> !Separates(s[k])
    {
      n := n + 1;
    }
    LengthIs(s, n);
  }

  /** nsh_aliasexpand: where the text goes on depends on whether the value has more than one word. */
  method ExpandAlias(value: string, line: string, next: nat) returns (word: string, text: string, from: nat)
    requires next <= |line| && Plain(value) && Plain(line)
    ensures from <= |text| && Plain(text)
    ensures Taken(word, text[from..]) == Expand(value, line[next..])
  {
    var n := FindSeparator(value);
    if n == |value| {
      return value, line, next;
    }
    return value[..n], value + " " + line[next..], n + 1;
  }

  method OtherArguments(text: string, start: nat) returns (argv: seq<string>)
    requires start <= |text| && Plain(text)
    ensures argv == Words(text[start..])
  {
    argv := [];
    var from := start;
    while true
      invariant from <= |text|
      invariant argv + Words(text[from..]) == Words(text[start..])
      decreases |text| - from
    {
      var word, after := NextArgument(text, from);
      if word.None? { break; }
      assert argv + ([word.value] + Words(text[after..])) == (argv + [word.value]) + Words(text[after..]);
      argv, from := argv + [word.value], after;
    }
  }

  /** The words of a command line, with an alias at its start replaced once. */
  method Arguments(line: string, aliases: map<string, string>) returns (argv: seq<string>)
    requires Plain(line) && forall a <- aliases :: Plain(aliases[a])
    ensures
      var words := Words(line);
      if words == [] then argv == []
      else if words[0] !in aliases then argv == words
      else exists rest :: Words(rest) == words[1..] && argv == Stream(Expand(aliases[words[0]], rest))
  {
    assert line[0..] == line;
    var first, next := NextArgument(line, 0);
    if first.None? {
      return [];
    }
    assert Words(line)[1..] == Words(line[next..]);
    if first.value !in aliases {
      argv := OtherArguments(line, next);
      argv := [first.value] + argv;
    } else {
      var word, text, from := ExpandAlias(aliases[first.value], line, next);
      argv := OtherArguments(text, from);
      argv := [word] + argv;
      assert argv == Stream(Expand(aliases[first.value], line[next..]));
    }
  }
}
