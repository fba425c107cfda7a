/**
 Removing back-slashes from an argument, in the buffer that holds it.
 */
module NshDequote {
  const BACKSLASH := '\\'
  const NUL := '\0'

  /** Each back-slash goes and the character after it stays, whatever it is. */
  function Dequote(s: string): string {
    if s == "" then ""
    else if s[0] != BACKSLASH then [s[0]] + Dequote(s[1..])
    else if |s| == 1 then ""
    else [s[1]] + Dequote(s[2..])
  }

  /** What remains to be done after a back-slash was removed, or not. */
  ghost function Rest(quoted: bool, s: string): string {
    if quoted && s != "" then [s[0]] + Dequote(s[1..]) else Dequote(s)
  }

  lemma {:induction false} RestSteps(quoted: bool, s: string)
    requires s != ""
    ensures !quoted && s[0] == BACKSLASH ==> Rest(quoted, s) == Rest(true, s[1..])
    ensures quoted || s[0] != BACKSLASH ==> Rest(quoted, s) == [s[0]] + Rest(false, s[1..])
  {
    if |s| > 1 { assert s[2..] == s[1..][1..]; }
  }

  function Escape(s: string): string {
    if s == "" then "" else [BACKSLASH, s[0]] + Escape(s[1..])
  }

  /** Dequoting undoes a back-slash before every character. */
  lemma {:induction false} DequoteUndoesEscape(s: string)
    ensures Dequote(Escape(s)) == s
    decreases |s|
  {
    if s != "" {
      var e := Escape(s);
      assert e[2..] == Escape(s[1..]);
      DequoteUndoesEscape(s[1..]);
      assert Dequote(e) == [s[0]] + s[1..];
    }
  }

  lemma {:induction false} DequoteShortens(s: string)
    ensures |Dequote(s)| <= |s|
    ensures s != "" && s[0] == BACKSLASH ==> |Dequote(s)| < |s|
    decreases |s|
  {
    if s != "" {
      if s[0] != BACKSLASH {
        DequoteShortens(s[1..]);
      } else if |s| > 1 {
        DequoteShortens(s[2..]);
      }
    }
  }

  /** Only strings without back-slashes stay as they are. */
  lemma {:induction false} DequoteIsIdentityIff(s: string)
    ensures Dequote(s) == s <==> BACKSLASH !in s
    decreases |s|
  {
    if s != "" {
      if s[0] == BACKSLASH {
        DequoteShortens(s);
      } else {
        DequoteIsIdentityIff(s[1..]);
        assert s == [s[0]] + s[1..];
        assert Dequote(s)[1..] == Dequote(s[1..]);
      }
    }
  }

  /** A character by itself, or with a back-slash before it. */
  datatype Unit = Bare(c: char) | Escaped(c: char)

  predicate Proper(us: seq<Unit>) { forall k :: 0 <= k < |us| ==> us[k] != Bare(BACKSLASH) }

  function Written(us: seq<Unit>): string {
    if us == [] then ""
    else (if us[0].Bare? then [us[0].c] else [BACKSLASH, us[0].c]) + Written(us[1..])
  }

  function Meant(us: seq<Unit>): string { if us == [] then "" else [us[0].c] + Meant(us[1..]) }

  /** However a string is written, what is meant is left of it; a back-slash at its end goes. */
  lemma {:induction false} DequoteIsMeant(us: seq<Unit>)
    requires Proper(us)
    ensures Dequote(Written(us)) == Dequote(Written(us) + [BACKSLASH]) == Meant(us)
    decreases |us|
  {
    if us != [] {
      var (first, rest) := (if us[0].Bare? then [us[0].c] else [BACKSLASH, us[0].c], Written(us[1..]));
      DequoteIsMeant(us[1..]);
      assert (first + rest)[|first|..] == rest;
      assert (first + rest + [BACKSLASH])[|first|..] == rest + [BACKSLASH];
    }
  }

  /** Every string is written so, with or without a back-slash at its end. */
  lemma {:induction false} EveryStringIsWritten(s: string) returns (us: seq<Unit>)
    ensures Proper(us) && (s == Written(us) || s == Written(us) + [BACKSLASH])
    decreases |s|
  {
    us := [];
    if s != "" && s[0] != BACKSLASH {
      us := EveryStringIsWritten(s[1..]);
      us := [Bare(s[0])] + us;
    } else if |s| > 1 {
      us := EveryStringIsWritten(s[2..]);
      us := [Escaped(s[1])] + us;
    }
    if us != [] { assert us == [us[0]] + us[1..]; }
  }

  /** The string in a buffer ends before the first NUL. */
  ghost predicate Holds(buf: seq<char>, s: string) {
    |s| < |buf| && buf[|s|] == NUL && s == buf[..|s|] && NUL !in s
  }

  /** Moves what follows position `p` down by one, with the NUL that ends it. */
  method MoveDown(buf: array<char>, p: nat, ghost n: nat)
    requires p < n < buf.Length && buf[n] == NUL
    requires forall k :: p <= k < n ==> buf[k] != NUL
    modifies buf
    ensures buf[n - 1] == NUL
    ensures buf[..p] == old(buf[..p]) && buf[p..n - 1] == old(buf[p + 1..n])
  {
    var dest, src := p, p + 1;
    ghost var s := buf[..];
    while true
      invariant dest + 1 == src && p <= dest < n
      invariant forall k :: 0 <= k < p ==> buf[k] == s[k]
      invariant forall k :: p <= k < dest ==> buf[k] == s[k + 1]
      invariant forall k :: src <= k <= n ==> buf[k] == s[k]
      decreases n - dest
    {
      var ch := buf[src];
      buf[dest] := ch;
      src, dest := src + 1, dest + 1;
      if ch == NUL { break; }
    }
  }

  /** The buffer holds the result up to `p`, and from there to `n` what it is still to be made from. */
  ghost predicate Doing(b: seq<char>, p: nat, n: nat, quoted: bool, goal: string) {
    && p <= n < |b| && b[n] == NUL
    && (forall k :: p <= k < n ==> b[k] != NUL)
    && b[..p] + Rest(quoted, b[p..n]) == goal
  }

  lemma {:induction false} Kept(b: seq<char>, p: nat, n: nat, quoted: bool, goal: string)
    requires Doing(b, p, n, quoted, goal) && p < n && (quoted || b[p] != BACKSLASH)
    ensures Doing(b, p + 1, n, false, goal)
  {
    RestSteps(quoted, b[p..n]);
    assert b[p..n][1..] == b[p + 1..n];
    assert b[..p + 1] == b[..p] + [b[p]];
  }

  lemma {:induction false} Removed(b: seq<char>, c: seq<char>, p: nat, n: nat, goal: string)
    requires Doing(b, p, n, false, goal) && p < n && b[p] == BACKSLASH
    requires |c| == |b| && c[n - 1] == NUL && c[..p] == b[..p] && c[p..n - 1] == b[p + 1..n]
    ensures Doing(c, p, n - 1, true, goal)
  {
    RestSteps(false, b[p..n]);
    assert b[p..n][1..] == c[p..n - 1];
    forall k | p <= k < n - 1 ensures c[k] != NUL {
      assert c[k] == c[p..n - 1][k - p] == b[p + 1..n][k - p];
    }
  }

  lemma {:induction false} Done(b: seq<char>, p: nat, n: nat, quoted: bool, goal: string)
    requires Doing(b, p, n, quoted, goal) && b[p] == NUL
    ensures p == n && b[..p] == goal
  {
    assert b[p..p] == "";
  }

  /** nsh_dequote */
  method DequoteInPlace(buf: array<char>, ghost s: string)
    requires Holds(buf[..], s)
    modifies buf
    ensures |Dequote(s)| < buf.Length && buf[|Dequote(s)|] == NUL
    ensures buf[..|Dequote(s)|] == Dequote(s)
  {
    var ptr: nat, quoted := 0, false;
    ghost var n: nat := |s|;
    assert buf[..][0..n] == s;
    while buf[ptr] != NUL
      invariant Doing(buf[..], ptr, n, quoted, Dequote(s))
      decreases 2 * (n - ptr) - (if quoted then 1 else 0)
    {
      ghost var b := buf[..];
      if buf[ptr] == BACKSLASH && !quoted {
        MoveDown(buf, ptr, n);
        Removed(b, buf[..], ptr, n, Dequote(s));
        n := n - 1;
        quoted := true;
      } else {
        Kept(b, ptr, n, quoted, Dequote(s));
        quoted := false;
        ptr := ptr + 1;
      }
    }
    Done(buf[..], ptr, n, quoted, Dequote(s));
    buf[ptr] := NUL;
  }
}
