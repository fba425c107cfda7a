/**
 Cutting a line into commands at its semicolons.  Quoted text is passed over as
 a whole; a quote after a back-slash opens nothing.  `esc` says whether a
 back-slash also keeps a quote from closing, which is so when both
 CONFIG_NSH_QUOTE and CONFIG_NSH_ARGCAT are set.
 */
module NshLine {
  /**
   What a character at some place of a line is part of; in quotes, `after` says that
   it follows a back-slash which takes its meaning away.
   */
  datatype Mode = Plain | Quoted(q: char, after: bool) | Comment

  predicate IsQuote(c: char) { c == '\'' || c == '"' }

  /** The characters that may end a command, with the quotes. */
  predicate Separates(c: char) { IsQuote(c) || c == '#' || c == ';' || c == '\n' }

  predicate Escaped(line: string, i: nat)
    requires i < |line|
  {
    i > 0 && line[i - 1] == '\\'
  }

  ghost function Next(esc: bool, m: Mode, line: string, i: nat): Mode
    requires i < |line|
  {
    var c := line[i];
    if m.Comment? then Comment
    else if m.Quoted? then
      if esc && c == '\\' && !m.after then m.(after := true)
      else if c == m.q && !m.after then Plain
      else m.(after := false)
    else if c == '#' || c == '\n' then Comment
    else if IsQuote(c) && !Escaped(line, i) then Quoted(c, false)
    else Plain
  }

  /** What the character at `i` is part of. */
  ghost function ModeAt(esc: bool, line: string, i: nat): Mode
    requires i <= |line|
  {
    if i == 0 then Plain else Next(esc, ModeAt(esc, line, i - 1), line, i - 1)
  }

  ghost predicate IsCut(esc: bool, line: string, i: nat)
    requires i < |line|
  {
    line[i] == ';' && ModeAt(esc, line, i) == Plain
  }

  /** The semicolons before `i` that end commands. */
  ghost function Cuts(esc: bool, line: string, i: nat): (r: seq<nat>)
    requires i <= |line|
    ensures forall k :: 0 <= k < |r| ==> r[k] < i && IsCut(esc, line, r[k])
    ensures forall j, k :: 0 <= j < k < |r| ==> r[j] < r[k]
  {
    if i == 0 then []
    else if IsCut(esc, line, i - 1) then Cuts(esc, line, i - 1) + [i - 1]
    else Cuts(esc, line, i - 1)
  }

  /** Without back-slashes it makes no difference how they are treated. */
  lemma {:induction false} SameWithoutSlashes(line: string, i: nat)
    requires i <= |line| && '\\' !in line
    ensures ModeAt(true, line, i) == ModeAt(false, line, i)
    ensures ModeAt(true, line, i).Quoted? ==> !ModeAt(true, line, i).after
    ensures Cuts(true, line, i) == Cuts(false, line, i)
    decreases i
  {
    if i > 0 { SameWithoutSlashes(line, i - 1); }
  }

  /** Every one of them is there. */
  lemma {:induction false} CutsAreAll(esc: bool, line: string, i: nat, j: nat)
    requires j < i <= |line| && IsCut(esc, line, j)
    ensures j in Cuts(esc, line, i)
    decreases i
  {
    if j < i - 1 { CutsAreAll(esc, line, i - 1, j); }
  }

  ghost predicate HasQuote(line: string, a: nat, b: nat)
    requires a <= b <= |line|
  {
    exists i :: a <= i < b && IsQuote(line[i])
  }

  // ----------------------------------------------------------------------- scanning

  /** Characters that separate nothing change nothing. */
  lemma {:induction false} PlainText(esc: bool, line: string, a: nat, b: nat)
    requires a <= b <= |line| && ModeAt(esc, line, a) == Plain
    requires forall k :: a <= k < b ==> !Separates(line[k])
    ensures ModeAt(esc, line, b) == Plain && Cuts(esc, line, b) == Cuts(esc, line, a)
    decreases b
  {
    if a < b { PlainText(esc, line, a, b - 1); }
  }

  lemma {:induction false} CommentText(esc: bool, line: string, a: nat, b: nat)
    requires a <= b <= |line| && ModeAt(esc, line, a) == Comment
    ensures ModeAt(esc, line, b) == Comment && Cuts(esc, line, b) == Cuts(esc, line, a)
    decreases b
  {
    if a < b { CommentText(esc, line, a, b - 1); }
  }

  /** strcspn over the separators of a line. */
  method FindSeparator(line: string, from: nat) returns (p: nat)
    requires from <= |line|
    ensures from <= p <= |line|
    ensures forall k :: from <= k < p ==> !Separates(line[k])
    ensures p < |line| ==> Separates(line[p])
  {
    p := from;
    while p < |line| && !Separates(line[p])
      invariant from <= p <= |line|
      invariant forall k :: from <= k < p ==> !Separates(line[k])
    {
      p := p + 1;
    }
  }

  /** A step within quotes cuts nothing. */
  lemma {:induction false} QuotedStep(esc: bool, line: string, i: nat)
    requires i < |line| && ModeAt(esc, line, i).Quoted?
    ensures Cuts(esc, line, i + 1) == Cuts(esc, line, i)
    ensures ModeAt(esc, line, i + 1) == Next(esc, ModeAt(esc, line, i), line, i)
  {}

  /** nsh_strchr: the quote that closes the text at `from`, or the length of the line when there is none. */
  method FindClosing(esc: bool, line: string, from: nat, c: char) returns (p: nat)
    requires from <= |line| && ModeAt(esc, line, from) == Quoted(c, false)
    ensures from <= p <= |line| && Cuts(esc, line, p) == Cuts(esc, line, from)
    ensures if p < |line| then line[p] == c && ModeAt(esc, line, p) == Quoted(c, false)
            else ModeAt(esc, line, p).Quoted?
  {
    p := from;
    var quoted := false;
    while p < |line|
      invariant from <= p <= |line|
      invariant ModeAt(esc, line, p) == Quoted(c, quoted) && Cuts(esc, line, p) == Cuts(esc, line, from)
    {
      QuotedStep(esc, line, p);
      if esc && line[p] == '\\' && !quoted {
        quoted := true;
      } else if line[p] == c && !quoted {
        return;
      } else {
        quoted := false;
      }
      p := p + 1;
    }
  }

  // ----------------------------------------------------------------------- commands

  /** How a command ends: its return value, and whether it went back to the top of a loop. */
  datatype Outcome = Outcome(ret: int, jump: bool)

  /** A command that was run: its text, where it starts and ends, and the offset kept for loops. */
  datatype Call = Call(text: string, start: nat, stop: nat, loffs: nat)

  const ERROR := -1

  ghost function AllCuts(esc: bool, line: string): seq<nat> { Cuts(esc, line, |line|) }

  ghost function Begin(cuts: seq<nat>, k: nat): nat
    requires k <= |cuts|
  {
    if k == 0 then 0 else cuts[k - 1] + 1
  }

  /** From number `k` on, the cuts are semicolons of the line, in order. */
  ghost predicate InOrder(line: string, cuts: seq<nat>, k: nat)
    requires k <= |cuts|
    decreases |cuts| - k
  {
    if k == |cuts| then Begin(cuts, k) <= |line|
    else Begin(cuts, k) <= cuts[k] < |line| && line[cuts[k]] == ';' && InOrder(line, cuts, k + 1)
  }

  /** The text between two cuts; the last one goes to the end of the line. */
  ghost function Piece(line: string, cuts: seq<nat>, k: nat): string
    requires k <= |cuts| && InOrder(line, cuts, k)
  {
    if k < |cuts| then line[Begin(cuts, k)..cuts[k]] else line[Begin(cuts, k)..]
  }

  lemma {:induction false} CutsInOrder(esc: bool, line: string, k: nat)
    requires k <= |AllCuts(esc, line)|
    ensures InOrder(line, AllCuts(esc, line), k)
    decreases |AllCuts(esc, line)| - k
  {
    var cuts := AllCuts(esc, line);
    if k < |cuts| {
      assert IsCut(esc, line, cuts[k]);
      CutsInOrder(esc, line, k + 1);
    }
  }

  ghost function Start(esc: bool, line: string, k: nat): nat
    requires k <= |AllCuts(esc, line)|
  {
    Begin(AllCuts(esc, line), k)
  }

  ghost function Segment(esc: bool, line: string, k: nat): string
    requires k <= |AllCuts(esc, line)|
  {
    CutsInOrder(esc, line, k);
    Piece(line, AllCuts(esc, line), k)
  }

  /** The commands from number `k` on, with semicolons between them. */
  ghost function Joined(line: string, cuts: seq<nat>, k: nat): string
    requires k <= |cuts| && InOrder(line, cuts, k)
    decreases |cuts| - k
  {
    if k == |cuts| then Piece(line, cuts, k) else Piece(line, cuts, k) + [';'] + Joined(line, cuts, k + 1)
  }

  lemma {:induction false} AroundCut(line: string, a: nat, c: nat)
    requires a <= c < |line| && line[c] == ';'
    ensures line[a..c] + [';'] + line[c + 1..] == line[a..]
  {}

  lemma {:induction false} JoinedIsRest(line: string, cuts: seq<nat>, k: nat)
    requires k <= |cuts| && InOrder(line, cuts, k)
    ensures Begin(cuts, k) <= |line| && Joined(line, cuts, k) == line[Begin(cuts, k)..]
    decreases |cuts| - k
  {
    if k < |cuts| {
      JoinedIsRest(line, cuts, k + 1);
      AroundCut(line, Begin(cuts, k), cuts[k]);
    }
  }

  /** Nothing is lost: the commands with semicolons between them are the line. */
  lemma {:induction false} SegmentsMakeLine(esc: bool, line: string)
    ensures InOrder(line, AllCuts(esc, line), 0) && Joined(line, AllCuts(esc, line), 0) == line
  {
    CutsInOrder(esc, line, 0);
    JoinedIsRest(line, AllCuts(esc, line), 0);
  }

  ghost predicate Unmatched(esc: bool, line: string) { ModeAt(esc, line, |line|).Quoted? }

  ghost function Segments(esc: bool, line: string): nat { |AllCuts(esc, line)| + if Unmatched(esc, line) then 0 else 1 }

  /** The offset is that of the command unless a quote comes before its end. */
  ghost predicate OffsetOk(line: string, c: Call) {
    && c.start <= c.stop <= |line|
    && (|line| < 0x1_0000 ==> (c.loffs == c.start <==> !HasQuote(line, c.start, c.stop)))
  }

  ghost predicate CallOk(esc: bool, line: string, c: Call, k: nat) {
    && k <= |AllCuts(esc, line)|
    && c.start == Start(esc, line, k)
    && c.text == Segment(esc, line, k)
    && OffsetOk(line, c)
  }

  ghost predicate CallsOk(esc: bool, line: string, calls: seq<Call>) {
    forall k :: 0 <= k < |calls| ==> CallOk(esc, line, calls[k], k)
  }

  /** The first `n` commands were successful and went nowhere else. */
  ghost predicate GoesOn(n: int, outcome: nat -> Outcome) {
    forall k: nat | k < n :: outcome(k) == Outcome(0, false)
  }

  lemma {:induction false} CutsPrefix(esc: bool, line: string, i: nat, j: nat)
    requires i <= j <= |line|
    ensures Cuts(esc, line, i) <= Cuts(esc, line, j)
    decreases j
  {
    if i < j { CutsPrefix(esc, line, i, j - 1); }
  }

  /** A quote is next. */
  ghost predicate QuoteAhead(line: string, w: nat) {
    exists p :: w <= p < |line| && IsQuote(line[p]) && forall k :: w <= k < p ==> !Separates(line[k])
  }

  /** Between commands, and within one. */
  ghost predicate Scanning(esc: bool, line: string, n: nat, start: nat, w: nat) {
    && start <= w <= |line|
    && ModeAt(esc, line, w) == Plain
    && n == |Cuts(esc, line, w)|
    && start == (if n == 0 then 0 else Cuts(esc, line, w)[n - 1] + 1)
    && (w > start ==> HasQuote(line, start, w) || QuoteAhead(line, w))
  }

  /** What one pass of the loop of nsh_parse finds. */
  datatype Found = Last(c: Call) | Cut(c: Call, next: nat) | Skip(next: nat) | NoMatch

  ghost predicate FoundOk(esc: bool, line: string, n: nat, start: nat, w: nat, f: Found) {
    match f
    case Last(c) => CallOk(esc, line, c, n) && n == |AllCuts(esc, line)| && !Unmatched(esc, line)
    case Cut(c, next) =>
      && CallOk(esc, line, c, n) && n < |AllCuts(esc, line)|
      && Scanning(esc, line, n + 1, next, next) && w < next
    case Skip(next) => Scanning(esc, line, n, start, next) && w < next
    case NoMatch => n == |AllCuts(esc, line)| && Unmatched(esc, line)
  }

  lemma {:induction false} StartsAt(esc: bool, line: string, n: nat, start: nat, w: nat)
    requires Scanning(esc, line, n, start, w)
    ensures n <= |AllCuts(esc, line)| && start == Start(esc, line, n)
  {
    CutsPrefix(esc, line, w, |line|);
  }

  lemma {:induction false} OffsetIff(esc: bool, line: string, n: nat, start: nat, w: nat, p: nat)
    requires Scanning(esc, line, n, start, w) && w <= p <= |line|
    requires forall k :: w <= k < p ==> !Separates(line[k])
    requires p < |line| ==> Separates(line[p]) && !IsQuote(line[p])
    ensures OffsetOk(line, Call("", start, p, w % 0x1_0000))
  {
    if w > start {
      assert HasQuote(line, start, w);
      var i :| start <= i < w && IsQuote(line[i]);
      assert HasQuote(line, start, p);
    }
  }

  /** The cut at the semicolon `p`. */
  lemma {:induction false} NextCut(esc: bool, line: string, n: nat, start: nat, w: nat, p: nat)
    requires Scanning(esc, line, n, start, w) && w <= p < |line| && line[p] == ';'
    requires forall k :: w <= k < p ==> !Separates(line[k])
    ensures Scanning(esc, line, n + 1, p + 1, p + 1)
    ensures n < |AllCuts(esc, line)| && AllCuts(esc, line)[n] == p
  {
    PlainText(esc, line, w, p);
    assert Cuts(esc, line, p + 1) == Cuts(esc, line, w) + [p];
    CutsPrefix(esc, line, p + 1, |line|);
  }

  /** At a semicolon the command before it is run. */
  lemma {:induction false} AtCut(esc: bool, line: string, n: nat, start: nat, w: nat, p: nat)
    requires Scanning(esc, line, n, start, w) && w <= p < |line| && line[p] == ';'
    requires forall k :: w <= k < p ==> !Separates(line[k])
    ensures FoundOk(esc, line, n, start, w, Cut(Call(line[start..p], start, p, w % 0x1_0000), p + 1))
  {
    StartsAt(esc, line, n, start, w);
    OffsetIff(esc, line, n, start, w, p);
    NextCut(esc, line, n, start, w, p);
  }

  /** After the end of the text there are no more cuts. */
  lemma {:induction false} NoMoreCuts(esc: bool, line: string, n: nat, start: nat, w: nat, p: nat)
    requires Scanning(esc, line, n, start, w) && w <= p <= |line|
    requires p < |line| ==> line[p] == '#' || line[p] == '\n'
    requires forall k :: w <= k < p ==> !Separates(line[k])
    ensures n == |AllCuts(esc, line)| && !Unmatched(esc, line)
  {
    PlainText(esc, line, w, p);
    if p < |line| { CommentText(esc, line, p + 1, |line|); }
  }

  /** At the end of the line, or at a comment, the rest of the line is run. */
  lemma {:induction false} AtEnd(esc: bool, line: string, n: nat, start: nat, w: nat, p: nat)
    requires Scanning(esc, line, n, start, w) && w <= p <= |line|
    requires p < |line| ==> line[p] == '#' || line[p] == '\n'
    requires forall k :: w <= k < p ==> !Separates(line[k])
    ensures FoundOk(esc, line, n, start, w, Last(Call(line[start..], start, p, w % 0x1_0000)))
  {
    StartsAt(esc, line, n, start, w);
    OffsetIff(esc, line, n, start, w, p);
    NoMoreCuts(esc, line, n, start, w, p);
  }

  lemma {:induction false} AtEscaped(esc: bool, line: string, n: nat, start: nat, w: nat, p: nat)
    requires Scanning(esc, line, n, start, w) && w <= p < |line| && IsQuote(line[p]) && Escaped(line, p)
    requires forall k :: w <= k < p ==> !Separates(line[k])
    ensures FoundOk(esc, line, n, start, w, Skip(w + 1))
  {
    if w < p {
      PlainText(esc, line, w, w + 1);
      assert QuoteAhead(line, w + 1);
    } else {
      assert HasQuote(line, start, w + 1);
    }
  }

  /** A back-slash of an earlier command escapes nothing. */
  lemma {:induction false} NotEscaped(esc: bool, line: string, n: nat, start: nat, w: nat, p: nat)
    requires Scanning(esc, line, n, start, w) && w <= p < |line| && !(p - 1 >= start && line[p - 1] == '\\')
    ensures !Escaped(line, p)
  {
    if p == start && n > 0 { assert IsCut(esc, line, Cuts(esc, line, w)[n - 1]); }
  }

  lemma {:induction false} Opens(esc: bool, line: string, n: nat, start: nat, w: nat, p: nat)
    requires Scanning(esc, line, n, start, w) && w <= p < |line| && IsQuote(line[p])
    requires !(p - 1 >= start && line[p - 1] == '\\')
    requires forall k :: w <= k < p ==> !Separates(line[k])
    ensures ModeAt(esc, line, p + 1) == Quoted(line[p], false) && Cuts(esc, line, p + 1) == Cuts(esc, line, w)
  {
    PlainText(esc, line, w, p);
    NotEscaped(esc, line, n, start, w, p);
  }

  /** After a closing quote the text goes on as before. */
  lemma {:induction false} AfterQuote(esc: bool, line: string, n: nat, start: nat, w: nat, p: nat, close: nat)
    requires Scanning(esc, line, n, start, w) && w <= p < close < |line| && IsQuote(line[p])
    requires Cuts(esc, line, close) == Cuts(esc, line, w)
    requires line[close] == line[p] && ModeAt(esc, line, close) == Quoted(line[p], false)
    ensures Scanning(esc, line, n, start, close + 1)
  {
    QuotedStep(esc, line, close);
    assert HasQuote(line, start, close + 1);
  }

  lemma {:induction false} AtQuote(esc: bool, line: string, n: nat, start: nat, w: nat, p: nat, close: nat)
    requires Scanning(esc, line, n, start, w) && w <= p < close <= |line| && IsQuote(line[p])
    requires !(p - 1 >= start && line[p - 1] == '\\')
    requires forall k :: w <= k < p ==> !Separates(line[k])
    requires Cuts(esc, line, close) == Cuts(esc, line, p + 1)
    requires if close < |line| then line[close] == line[p] && ModeAt(esc, line, close) == Quoted(line[p], false)
             else ModeAt(esc, line, close).Quoted?
    ensures FoundOk(esc, line, n, start, w, if close == |line| then NoMatch else Skip(close + 1))
  {
    Opens(esc, line, n, start, w, p);
    if close < |line| { AfterQuote(esc, line, n, start, w, p, close); }
  }

  /** The commands of the line that were run so far. */
  ghost predicate Running(esc: bool, line: string, calls: seq<Call>, outcome: nat -> Outcome) {
    CallsOk(esc, line, calls) && GoesOn(|calls|, outcome)
  }

  /** The commands are run in order until one fails or goes elsewhere, or all of them are. */
  ghost predicate Parsed(esc: bool, line: string, calls: seq<Call>, outcome: nat -> Outcome, ret: int) {
    && CallsOk(esc, line, calls) && |calls| <= Segments(esc, line)
    && GoesOn(|calls| - 1, outcome)
    && (|calls| < Segments(esc, line) ==> |calls| > 0 && !GoesOn(|calls|, outcome))
    && (if Unmatched(esc, line) && |calls| == Segments(esc, line) && GoesOn(|calls|, outcome) then ret == ERROR
        else |calls| > 0 && ret == outcome(|calls| - 1).ret)
  }

  lemma {:induction false} OneMoreCall(esc: bool, line: string, calls: seq<Call>, c: Call)
    requires CallsOk(esc, line, calls) && CallOk(esc, line, c, |calls|)
    ensures CallsOk(esc, line, calls + [c])
  {}

  lemma {:induction false} StopsHere(esc: bool, line: string, calls: seq<Call>, outcome: nat -> Outcome, c: Call)
    requires Running(esc, line, calls, outcome) && CallOk(esc, line, c, |calls|) && |calls| < |AllCuts(esc, line)|
    ensures outcome(|calls|) == Outcome(0, false) ==> Running(esc, line, calls + [c], outcome)
    ensures outcome(|calls|) != Outcome(0, false) ==> Parsed(esc, line, calls + [c], outcome, outcome(|calls|).ret)
  {
    OneMoreCall(esc, line, calls, c);
    var n: nat := |calls|;
    assert GoesOn(n + 1, outcome) <==> outcome(n) == Outcome(0, false);
  }

  lemma {:induction false} StopsAtEnd(esc: bool, line: string, calls: seq<Call>, outcome: nat -> Outcome, c: Call)
    requires Running(esc, line, calls, outcome) && CallOk(esc, line, c, |calls|)
    requires |calls| == |AllCuts(esc, line)| && !Unmatched(esc, line)
    ensures Parsed(esc, line, calls + [c], outcome, outcome(|calls|).ret)
  {
    OneMoreCall(esc, line, calls, c);
  }

  method FindNext(esc: bool, line: string, ghost n: nat, start: nat, working: nat) returns (f: Found)
    requires Scanning(esc, line, n, start, working)
    ensures FoundOk(esc, line, n, start, working, f)
  {
    var loffs := working % 0x1_0000;
    var ptr := FindSeparator(line, working);
    if ptr == |line| || line[ptr] == '\n' || line[ptr] == '#' {
      AtEnd(esc, line, n, start, working, ptr);
      f := Last(Call(line[start..], start, ptr, loffs));
    } else if line[ptr] == ';' {
      AtCut(esc, line, n, start, working, ptr);
      f := Cut(Call(line[start..ptr], start, ptr, loffs), ptr + 1);
    } else if ptr - 1 >= start && line[ptr - 1] == '\\' {
      AtEscaped(esc, line, n, start, working, ptr);
      f := Skip(working + 1);
    } else {
      Opens(esc, line, n, start, working, ptr);
      var close := FindClosing(esc, line, ptr + 1, line[ptr]);
      AtQuote(esc, line, n, start, working, ptr, close);
      f := if close == |line| then NoMatch else Skip(close + 1);
    }
  }

  /** nsh_parse */
  method ParseLine(esc: bool, line: string, outcome: nat -> Outcome) returns (calls: seq<Call>, ret: int)
    ensures Parsed(esc, line, calls, outcome, ret)
  {
    calls := [];
    var start: nat, working: nat, jump := 0, 0, false;
    while !jump
      invariant !jump ==> Scanning(esc, line, |calls|, start, working) && Running(esc, line, calls, outcome)
      invariant jump ==> Parsed(esc, line, calls, outcome, 0)
      decreases !jump, |line| - working
    {
      var f := FindNext(esc, line, |calls|, start, working);
      match f
      case Last(c) =>
        StopsAtEnd(esc, line, calls, outcome, c);
        return calls + [c], outcome(|calls|).ret;
      case Cut(c, next) =>
        StopsHere(esc, line, calls, outcome, c);
        var o := outcome(|calls|);
        calls := calls + [c];
        if o.ret != 0 {
          return calls, o.ret;
        }
        start, working, jump := next, next, o.jump;
      case Skip(next) =>
        working := next;
      case NoMatch =>
        return calls, ERROR;
    }
    ret := 0;
  }
}
