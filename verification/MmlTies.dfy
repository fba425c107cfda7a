/**
 Tied lengths such as `4+8`: what they are meant to be and what is parsed.
 */
module MmlTies {
  import opened Basics
  import opened MmlLength

  /** A note value and its dots. */
  datatype Part = Part(digits: string, dots: nat)

  predicate IsPart(p: Part) {
    p.digits != "" && forall k :: 0 <= k < |p.digits| ==> IsDigit(p.digits[k])
  }

  predicate AllParts(ps: seq<Part>) { forall k :: 0 <= k < |ps| ==> IsPart(ps[k]) }

  function Dots(n: nat): (s: string)
    ensures |s| == n && forall k :: 0 <= k < n ==> s[k] == '.'
  {
    if n == 0 then "" else "." + Dots(n - 1)
  }

  /** The notation of a tie. */
  function Tie(ps: seq<Part>): string
    requires ps != []
  {
    var first := ps[0].digits + Dots(ps[0].dots);
    if |ps| == 1 then first else first + "+" + Tie(ps[1..])
  }

  ghost predicate Written(text: string, pos: nat, s: string) {
    pos + |s| <= |text| && forall k :: 0 <= k < |s| ==> text[pos + k] == s[k]
  }

  /** A character that ends a length. */
  predicate Ends(c: char) { !IsDigit(c) && c != '.' && c != '+' }

  function Value(p: Part): int
    requires IsPart(p)
  {
    Number(p.digits)
  }

  /** The sum of the parts when `dots` dots are carried into the first of them. */
  function Sum(c: Config, ps: seq<Part>, dots: nat): int
    requires AllParts(ps)
  {
    if ps == [] then 0
    else c.note(Value(ps[0]), dots + ps[0].dots) + Sum(c, ps[1..], dots + ps[0].dots)
  }

  predicate AllPositive(c: Config, ps: seq<Part>, dots: nat)
    requires AllParts(ps)
  {
    ps == [] ||
    (c.note(Value(ps[0]), dots + ps[0].dots) > 0 && AllPositive(c, ps[1..], dots + ps[0].dots))
  }

  /** The sum of the parts, each with its own dots. */
  function OwnSum(c: Config, ps: seq<Part>): int
    requires AllParts(ps)
  {
    if ps == [] then 0 else c.note(Value(ps[0]), ps[0].dots) + OwnSum(c, ps[1..])
  }

  // ------------------------------------------------------------------------ parsing

  lemma {:induction false} WrittenSplit(text: string, pos: nat, a: string, b: string)
    requires Written(text, pos, a + b)
    ensures Written(text, pos, a) && Written(text, pos + |a|, b)
  {
    forall k | 0 <= k < |a| ensures text[pos + k] == a[k] {
      assert (a + b)[k] == a[k];
    }
    forall k | 0 <= k < |b| ensures text[pos + |a| + k] == b[k] {
      assert (a + b)[|a| + k] == b[k];
    }
  }

  lemma {:induction false} DigitsRead(text: string, pos: nat, d: string)
    requires Written(text, pos, d) && forall k :: 0 <= k < |d| ==> IsDigit(d[k])
    requires !IsDigit(Ch(text, pos + |d|))
    ensures DigitsEnd(text, pos) == pos + |d| && text[pos..pos + |d|] == d
    decreases |d|
  {
    if d != "" {
      assert text[pos] == d[0];
      assert Written(text, pos + 1, d[1..]);
      DigitsRead(text, pos + 1, d[1..]);
    }
  }

  lemma {:induction false} DotsRead(c: Config, text: string, pos: nat, n: nat,
                                    samples: int, num: int, dots: nat, plus: bool)
    requires Written(text, pos, Dots(n))
    ensures AfterNumber(c, text, pos, samples, num, dots, plus)
         == AfterNumber(c, text, pos + n, samples, num, dots + n, plus)
    decreases n
  {
    if n > 0 {
      assert text[pos] == Dots(n)[0];
      assert Dots(n)[1..] == Dots(n - 1);
      assert Written(text, pos + 1, Dots(n)[1..]);
      DotsRead(c, text, pos + 1, n - 1, samples, num, dots + 1, plus);
    }
  }

  /** The character after the digits of a part is not a digit. */
  lemma {:induction false} AfterDigits(text: string, pos: nat, ps: seq<Part>)
    requires ps != [] && AllParts(ps) && Written(text, pos, Tie(ps)) && Ends(Ch(text, pos + |Tie(ps)|))
    ensures Written(text, pos, ps[0].digits)
    ensures Written(text, pos + |ps[0].digits|, Dots(ps[0].dots))
    ensures !IsDigit(Ch(text, pos + |ps[0].digits|))
    ensures
      var q := pos + |ps[0].digits| + ps[0].dots;
      if |ps| == 1 then q == pos + |Tie(ps)|
      else Ch(text, q) == '+' && Written(text, q + 1, Tie(ps[1..])) && q + 1 + |Tie(ps[1..])| == pos + |Tie(ps)|
  {
    var d, t := ps[0].digits, Dots(ps[0].dots);
    if |ps| == 1 {
      WrittenSplit(text, pos, d, t);
    } else {
      WrittenSplit(text, pos, d + t + "+", Tie(ps[1..]));
      WrittenSplit(text, pos, d + t, "+");
      WrittenSplit(text, pos, d, t);
      assert text[pos + |d + t|] == "+"[0];
    }
    if t != "" { assert text[pos + |d|] == t[0]; }
  }

  /** The digits of a part after a `+`. */
  lemma {:induction false} PlusRead(c: Config, text: string, pos: nat, ps: seq<Part>, samples: int, dots: nat)
    requires ps != [] && AllParts(ps)
    requires Written(text, pos, Tie(ps)) && Ends(Ch(text, pos + |Tie(ps)|))
    ensures pos + |ps[0].digits| <= |text|
    ensures AfterPlus(c, text, pos, samples, dots)
         == AfterNumber(c, text, pos + |ps[0].digits|, samples, Value(ps[0]), dots, true)
  {
    AfterDigits(text, pos, ps);
    DigitsRead(text, pos, ps[0].digits);
    assert text[pos] == ps[0].digits[0];
  }

  /** The first part of a tie, from its digits to the `+` or the end after it. */
  lemma {:induction false} PartRead(c: Config, text: string, pos: nat, ps: seq<Part>,
                                    samples: int, dots: nat, plus: bool)
    requires ps != [] && AllParts(ps)
    requires GetSamples(c, samples, Value(ps[0]), dots + ps[0].dots, plus) >= 0
    requires Written(text, pos, Tie(ps)) && Ends(Ch(text, pos + |Tie(ps)|))
    ensures
      var (e, d) := (pos + |ps[0].digits|, dots + ps[0].dots);
      var total := GetSamples(c, samples, Value(ps[0]), d, plus);
      && e <= |text|
      && e + ps[0].dots + (if |ps| == 1 then 0 else 1) <= |text|
      && AfterNumber(c, text, e, samples, Value(ps[0]), dots, plus)
         == if |ps| == 1 then Measured(total, pos + |Tie(ps)|)
            else AfterPlus(c, text, e + ps[0].dots + 1, total, d)
  {
    AfterDigits(text, pos, ps);
    DotsRead(c, text, pos + |ps[0].digits|, ps[0].dots, samples, Value(ps[0]), dots, plus);
  }

  /** The samples after the first part. */
  lemma {:induction false} FirstAdded(c: Config, ps: seq<Part>, samples: int, dots: nat, plus: bool)
    returns (total: nat)
    requires ps != [] && AllParts(ps) && AllPositive(c, ps, dots) && (plus ==> samples >= 0)
    ensures total == GetSamples(c, samples, Value(ps[0]), dots + ps[0].dots, plus)
    ensures AllPositive(c, ps[1..], dots + ps[0].dots)
    ensures total + Sum(c, ps[1..], dots + ps[0].dots) == (if plus then samples else 0) + Sum(c, ps, dots)
    ensures |ps| == 1 ==> total == (if plus then samples else 0) + Sum(c, ps, dots)
  {
    total := GetSamples(c, samples, Value(ps[0]), dots + ps[0].dots, plus);
    assert |ps| == 1 ==> ps[1..] == [];
  }

  /** Where the other parts of a tie stand. */
  lemma {:induction false} OtherParts(text: string, pos: nat, ps: seq<Part>)
    requires |ps| > 1 && AllParts(ps)
    requires Written(text, pos, Tie(ps)) && Ends(Ch(text, pos + |Tie(ps)|))
    ensures
      var q := pos + |ps[0].digits| + ps[0].dots + 1;
      && q + |Tie(ps[1..])| == pos + |Tie(ps)|
      && Written(text, q, Tie(ps[1..])) && Ends(Ch(text, q + |Tie(ps[1..])|))
  {
    AfterDigits(text, pos, ps);
  }

  /** The parts after a `+`. */
  lemma {:induction false} TailRead(c: Config, text: string, pos: nat, ps: seq<Part>, samples: nat, dots: nat,
                                    r: Measured)
    requires ps != [] && AllParts(ps) && AllPositive(c, ps, dots)
    requires Written(text, pos, Tie(ps)) && Ends(Ch(text, pos + |Tie(ps)|))
    requires r == AfterPlus(c, text, pos, samples, dots)
    ensures r == Measured(samples + Sum(c, ps, dots), pos + |Tie(ps)|)
    decreases |ps|, 1
  {
    PlusRead(c, text, pos, ps, samples, dots);
    TieRead(c, text, pos, ps, samples, dots, true, r);
  }

  lemma {:induction false} TieRead(c: Config, text: string, pos: nat, ps: seq<Part>, samples: int, dots: nat,
                                   plus: bool, r: Measured)
    requires ps != [] && AllParts(ps) && AllPositive(c, ps, dots) && (plus ==> samples >= 0)
    requires Written(text, pos, Tie(ps)) && Ends(Ch(text, pos + |Tie(ps)|))
    requires pos + |ps[0].digits| <= |text|
    requires r == AfterNumber(c, text, pos + |ps[0].digits|, samples, Value(ps[0]), dots, plus)
    ensures r == Measured((if plus then samples else 0) + Sum(c, ps, dots), pos + |Tie(ps)|)
    decreases |ps|, 0
  {
    var total := FirstAdded(c, ps, samples, dots, plus);
    PartRead(c, text, pos, ps, samples, dots, plus);
    if |ps| > 1 {
      OtherParts(text, pos, ps);
      TailRead(c, text, pos + |ps[0].digits| + ps[0].dots + 1, ps[1..], total, dots + ps[0].dots, r);
    }
  }

  /**
   A tie of positive lengths is parsed to the sum of its parts, where each part
   has the dots of the parts before it as well as its own.
   */
  lemma {:induction false} TieIsSum(c: Config, text: string, pos: nat, ps: seq<Part>)
    requires ps != [] && AllParts(ps) && AllPositive(c, ps, 0)
    requires Written(text, pos, Tie(ps)) && Ends(Ch(text, pos + |Tie(ps)|))
    ensures Length(c, text, pos) == Measured(Sum(c, ps, 0), pos + |Tie(ps)|)
  {
    TieStarts(c, text, pos, ps);
    TieRead(c, text, pos, ps, GetSamples(c, 0, -1, 0, false), 0, false, Length(c, text, pos));
  }

  lemma {:induction false} TieStarts(c: Config, text: string, pos: nat, ps: seq<Part>)
    requires ps != [] && AllParts(ps) && Written(text, pos, Tie(ps)) && Ends(Ch(text, pos + |Tie(ps)|))
    ensures pos + |ps[0].digits| <= |text|
    ensures Length(c, text, pos)
         == AfterNumber(c, text, pos + |ps[0].digits|, GetSamples(c, 0, -1, 0, false), Value(ps[0]), 0, false)
  {
    AfterDigits(text, pos, ps);
    DigitsRead(text, pos, ps[0].digits);
    assert text[pos] == ps[0].digits[0];
  }

  /** A part without a single sample makes the whole tie up to it disappear. */
  lemma {:induction false} EmptyPartForgets(c: Config, text: string, pos: nat, p: Part, q: Part)
    requires IsPart(p) && IsPart(q) && c.note(Value(p), p.dots) > 0 && c.note(Value(q), p.dots + q.dots) == 0
    requires Written(text, pos, Tie([p, q])) && Ends(Ch(text, pos + |Tie([p, q])|))
    ensures Length(c, text, pos) == Measured(0, pos + |Tie([p, q])|)
  {
    TieStarts(c, text, pos, [p, q]);
    EmptySecond(c, text, pos, [p, q], GetSamples(c, 0, -1, 0, false), Length(c, text, pos));
  }

  lemma {:induction false} EmptySecond(c: Config, text: string, pos: nat, ps: seq<Part>, samples: int, r: Measured)
    requires |ps| == 2 && AllParts(ps)
    requires c.note(Value(ps[0]), ps[0].dots) > 0 && c.note(Value(ps[1]), ps[0].dots + ps[1].dots) == 0
    requires Written(text, pos, Tie(ps)) && Ends(Ch(text, pos + |Tie(ps)|))
    requires pos + |ps[0].digits| <= |text|
    requires r == AfterNumber(c, text, pos + |ps[0].digits|, samples, Value(ps[0]), 0, false)
    ensures r == Measured(0, pos + |Tie(ps)|)
  {
    PartRead(c, text, pos, ps, samples, 0, false);
    OtherParts(text, pos, ps);
    assert ps[1..] == [ps[1]];
    EmptyTail(c, text, pos + |ps[0].digits| + ps[0].dots + 1, ps[1], c.note(Value(ps[0]), ps[0].dots), ps[0].dots, r);
  }

  lemma {:induction false} EmptyTail(c: Config, text: string, pos: nat, q: Part, samples: int, dots: nat,
                                     r: Measured)
    requires IsPart(q) && c.note(Value(q), dots + q.dots) == 0
    requires Written(text, pos, Tie([q])) && Ends(Ch(text, pos + |Tie([q])|))
    requires r == AfterPlus(c, text, pos, samples, dots)
    ensures r == Measured(0, pos + |Tie([q])|)
  {
    PlusRead(c, text, pos, [q], samples, dots);
    PartRead(c, text, pos, [q], samples, dots, true);
  }

  /** Only the last part of the tie has dots. */
  predicate LastDotted(ps: seq<Part>) {
    forall k :: 0 <= k < |ps| - 1 ==> ps[k].dots == 0
  }

  /** Each part counts with its own dots when only the last one has any, at every sampling rate. */
  lemma {:induction false} SumIsOwnSum(c: Config, ps: seq<Part>)
    requires AllParts(ps) && LastDotted(ps)
    ensures Sum(c, ps, 0) == OwnSum(c, ps)
    decreases |ps|
  {
    if |ps| > 1 {
      SumIsOwnSum(c, ps[1..]);
    } else if |ps| == 1 {
      assert ps[1..] == [];
    }
  }

  /** The least that a dot adds, a sixteenth of a 64th note, is a sample or more. */
  predicate Resolves(fs: nat, tempo: nat) { tempo > 0 && 15 * fs >= 64 * tempo }

  lemma {:induction false} DivGrows(x: nat, a: nat, b: nat, d: nat)
    requires 0 < d <= x && a < b
    ensures x * a / d < x * b / d
  {
    MulMono(a + 1, b, x);
    var (y, z) := (x * a, x * b);
    assert y + d <= z;
    var q := y / d;
    assert q * d <= y;
    var r := z / d;
    assert z < r * d + d;
    if r <= q { MulMono(r, q, d); }
  }

  /** Every dot makes a note longer. */
  lemma {:induction false} DotsLengthen(fs: nat, tempo: nat, num: int, d: nat, e: nat)
    requires Resolves(fs, tempo) && IsNoteValue(num) && d < e <= 4
    ensures Samples(fs, tempo, num, d) < Samples(fs, tempo, num, e)
  {
    if num == 0 {
      DivGrows(2 * 15 * fs, Dotted(d), Dotted(e), tempo);
    } else {
      MulMono(num, 64, tempo);
      MulMono(1, num, tempo);
      DivGrows(15 * fs, Dotted(d), Dotted(e), num * tempo);
    }
  }

  lemma {:induction false} CarriedIsMore(fs: nat, tempo: nat, deflen: int, ps: seq<Part>, dots: nat)
    requires Resolves(fs, tempo) && AllParts(ps) && AllPositive(AtTempo(fs, tempo, deflen), ps, dots)
    ensures
      var c := AtTempo(fs, tempo, deflen);
      && Sum(c, ps, dots) >= OwnSum(c, ps)
      && (Sum(c, ps, dots) == OwnSum(c, ps) <==> (dots == 0 || ps == []) && LastDotted(ps))
    decreases |ps|
  {
    if ps != [] {
      var (v, d) := (Value(ps[0]), ps[0].dots);
      CarriedIsMore(fs, tempo, deflen, ps[1..], dots + d);
      if dots > 0 { DotsLengthen(fs, tempo, v, d, dots + d); }
      LastDottedTail(ps);
    }
  }

  lemma {:induction false} LastDottedTail(ps: seq<Part>)
    requires ps != []
    ensures LastDotted(ps) <==> (ps[0].dots == 0 || |ps| == 1) && LastDotted(ps[1..])
  {
    if LastDotted(ps[1..]) && (ps[0].dots == 0 || |ps| == 1) {
      forall k | 0 <= k < |ps| - 1 ensures ps[k].dots == 0 {
        if k > 0 { assert ps[1..][k - 1].dots == 0; }
      }
    }
  }

  /** Each part counts with its own dots exactly when no part but the last has any. */
  lemma {:induction false} SumIsOwnSumIff(fs: nat, tempo: nat, deflen: int, ps: seq<Part>)
    requires Resolves(fs, tempo) && AllParts(ps) && AllPositive(AtTempo(fs, tempo, deflen), ps, 0)
    ensures
      var c := AtTempo(fs, tempo, deflen);
      Sum(c, ps, 0) == OwnSum(c, ps) <==> LastDotted(ps)
  {
    CarriedIsMore(fs, tempo, deflen, ps, 0);
  }

  /** The parsed length of a tie is the sum of its parts as written, exactly when no part but the last has dots. */
  lemma {:induction false} TieIsOwnSumIff(fs: nat, tempo: nat, deflen: int, text: string, pos: nat, ps: seq<Part>)
    requires Resolves(fs, tempo) && ps != [] && AllParts(ps) && AllPositive(AtTempo(fs, tempo, deflen), ps, 0)
    requires Written(text, pos, Tie(ps)) && Ends(Ch(text, pos + |Tie(ps)|))
    ensures
      var c := AtTempo(fs, tempo, deflen);
      Length(c, text, pos).samples == OwnSum(c, ps) <==> LastDotted(ps)
  {
    TieIsSum(AtTempo(fs, tempo, deflen), text, pos, ps);
    SumIsOwnSumIff(fs, tempo, deflen, ps);
  }

  /** A dot before the last part is counted again in every later part: `4.+4` at 48 kHz. */
  lemma {:induction false} DotIsCarried()
    ensures
      var c := AtTempo(48000, 120, 4);
      var ps := [Part("4", 1), Part("4", 0)];
      Sum(c, ps, 0) == 72000 && OwnSum(c, ps) == 60000
  {
    var c := AtTempo(48000, 120, 4);
    var ps := [Part("4", 1), Part("4", 0)];
    assert Number("4") == 4 by { assert Number("") == 0; assert "4"[..0] == ""; }
    assert ps[1..] == [Part("4", 0)] && ps[1..][1..] == [];
    assert Samples(48000, 120, 4, 1) == 36000 && Samples(48000, 120, 4, 0) == 24000;
  }
}
