/**
 Note lengths of the music macro language: the number of samples of a note
 value with dots, and the length notation with its ties.
 */
module MmlLength {
  import opened Basics

  const EINVAL := 22

  const NUL: char := '\0'

  /** The character at `pos`; the text is ended by a NUL. */
  function Ch(text: string, pos: nat): char { if pos < |text| then text[pos] else NUL }

  predicate IsDigit(c: char) { '0' <= c <= '9' }

  // ----------------------------------------------------------------- samples of a note

  /** The note values there are: 0 for a breve up to 64. */
  predicate IsNoteValue(num: int) {
    num == 0 || num == 1 || num == 2 || num == 4 || num == 8 || num == 16 || num == 32 || num == 64
  }

  /** Sixteenths of the duration of the bare note that `dots` dots make of it. */
  function Dotted(dots: nat): nat
    requires dots <= 4
  {
    [16, 24, 28, 30, 31][dots]
  }

  /**
   The samples of a note: at fs samples a second and `tempo` quarter notes a
   minute a whole note has 240 fs / tempo samples; the note value divides that,
   0 standing for twice a whole note, and each dot adds half of what the one
   before it added.  The fraction is rounded down once.  A tempo of zero, for
   which C leaves the division undefined, is given the length 0 here.
   */
  function Samples(fs: nat, tempo: nat, num: int, dots: nat): int {
    if !IsNoteValue(num) || dots > 4 then -EINVAL
    else if tempo == 0 then 0
    else if num == 0 then (2 * 15 * fs * Dotted(dots)) / tempo
    else (15 * fs * Dotted(dots)) / (num * tempo)
  }

  lemma {:induction false} DivIs(a: int, d: int, q: int)
    requires d > 0 && q * d <= a < q * d + d
    ensures a / d == q
  {
    var q' := a / d;
    assert q' * d <= a < q' * d + d;
    if q' > q {
      MulMono(q + 1, q', d);
    } else if q' < q {
      MulMono(q' + 1, q, d);
    }
  }

  /** Rounding down twice is rounding down once. */
  lemma {:induction false} DivDiv(a: nat, b: nat, c: nat)
    requires b > 0 && c > 0
    ensures b * c > 0 && a / b / c == a / (b * c)
  {
    MulMono(1, b, c);
    var q1 := a / b;
    var q := q1 / c;
    MulMono(q * c, q1, b);
    MulMono(q1 + 1, q * c + c, b);
    assert (q * c) * b == q * (b * c);
    assert (q * c + c) * b == q * (b * c) + b * c;
    DivIs(a, b * c, q);
  }

  /** The exponent of two by which a note value multiplies, and that by which it divides. */
  function Doublings(num: int): nat { if num == 0 then 3 else if num == 1 then 2 else if num == 2 then 1 else 0 }

  function Halvings(num: int): nat {
    if num == 8 then 1 else if num == 16 then 2 else if num == 32 then 3 else if num == 64 then 4 else 0
  }

  function Pow2(n: nat): nat { if n == 0 then 1 else 2 * Pow2(n - 1) }

  lemma {:induction false} Powers()
    ensures Pow2(0) == 1 && Pow2(1) == 2 && Pow2(2) == 4 && Pow2(3) == 8
    ensures Pow2(4) == 16 && Pow2(5) == 32 && Pow2(6) == 64
  {
    assert Pow2(3) == 8;
  }

  /** What the shifts of calc_samples compute, as one division. */
  lemma {:induction false} ShiftsAreSamples(fs: nat, tempo: nat, num: int, dots: nat)
    requires tempo > 0 && IsNoteValue(num) && dots <= 4
    ensures Pow2(2 + Halvings(num)) > 0
    ensures (15 * fs * Dotted(dots) * Pow2(Doublings(num))) / Pow2(2 + Halvings(num)) / tempo
         == Samples(fs, tempo, num, dots)
  {
    Powers();
    var x := 15 * fs * Dotted(dots);
    if num > 2 {
      DivDiv(x, num, tempo);
    } else if num == 2 {
      assert x * 2 / 4 == x / 2;
      DivDiv(x, 2, tempo);
    }
  }

  /** calc_samples; the shifts are written as multiplication and division. */
  method CalcSamples(fs: nat, tempo: nat, num: int, dots: nat) returns (r: int)
    ensures r == Samples(fs, tempo, num, dots)
  {
    var div, n := 0, 0;
    var mul := 16;
    match num {
      case 0 => n := 3;
      case 1 => n := 2;
      case 2 => n := 1;
      case 4 => n := 0;
      case 8 => div := 1;
      case 16 => div := 2;
      case 32 => div := 3;
      case 64 => div := 4;
      case _ => div := -1;
    }
    assert n == Doublings(num) && (if IsNoteValue(num) then div == Halvings(num) else div == -1);
    if dots > 4 || div < 0 { return -EINVAL; }
    var d := dots;
    Powers();
    while d > 0
      invariant 0 <= d <= dots
      invariant mul == 16 + Dotted(dots) - Dotted(d)
    {
      mul := mul + Pow2(4 - d);
      d := d - 1;
    }
    if tempo == 0 { return 0; }
    ShiftsAreSamples(fs, tempo, num, dots);
    r := (15 * fs * mul * Pow2(n)) / Pow2(2 + div) / tempo;
  }

  const INT_MAX := 0x7fff_ffff

  /** calc_samples does not overflow a 32-bit int, for any note, exactly up to 577280 samples a second. */
  lemma {:induction false} NoOverflowIff(fs: nat)
    ensures fs <= 577280 <==>
            forall num, dots: nat :: IsNoteValue(num) && dots <= 4 ==>
              15 * fs * Dotted(dots) * Pow2(Doublings(num)) <= INT_MAX
  {
    Powers();
    assert IsNoteValue(0) && 15 * fs * Dotted(4) * Pow2(Doublings(0)) == 3720 * fs;
    if fs <= 577280 {
      forall num, dots: nat | IsNoteValue(num) && dots <= 4
        ensures 15 * fs * Dotted(dots) * Pow2(Doublings(num)) <= INT_MAX
      {
        MulMono(Dotted(dots), 31, 15 * fs);
        MulMono(Pow2(Doublings(num)), 8, 15 * fs * Dotted(dots));
      }
    }
  }

  // ---------------------------------------------------------------- the length notation

  /** What a length depends on: the samples of each note, and the default note value. */
  datatype Config = Config(note: (int, nat) -> int, deflen: int)

  /** The lengths at a sampling rate and a tempo. */
  function AtTempo(fs: nat, tempo: nat, deflen: int): Config {
    Config((num: int, dots: nat) => Samples(fs, tempo, num, dots), deflen)
  }

  /** A length and where its notation ends. */
  datatype Measured = Measured(samples: int, pos: nat)

  function DigitsEnd(text: string, pos: nat): (r: nat)
    requires pos <= |text|
    ensures pos <= r <= |text| && (IsDigit(Ch(text, pos)) ==> r > pos)
    ensures forall k :: pos <= k < r ==> IsDigit(text[k])
    ensures !IsDigit(Ch(text, r))
    decreases |text| - pos
  {
    if IsDigit(Ch(text, pos)) then DigitsEnd(text, pos + 1) else pos
  }

  /** The number written by a string of digits. */
  function Number(digits: string): nat
    requires forall k :: 0 <= k < |digits| ==> IsDigit(digits[k])
  {
    if digits == "" then 0
    else
      assert IsDigit(digits[|digits| - 1]);
      10 * Number(digits[..|digits| - 1]) + (digits[|digits| - 1] as int - '0' as int)
  }

  function GetSamples(c: Config, samples: int, num: int, dots: nat, plus: bool): int {
    var len := c.note(if num < 0 then c.deflen else num, dots);
    if len > 0 && plus then samples + len else len
  }

  /** After a number or a dot. */
  function AfterNumber(c: Config, text: string, pos: nat, samples: int, num: int, dots: nat, plus: bool): (r: Measured)
    requires pos <= |text|
    ensures pos <= r.pos <= |text|
    decreases |text| - pos
  {
    if Ch(text, pos) == '.' then AfterNumber(c, text, pos + 1, samples, num, dots + 1, plus)
    else
      var total := GetSamples(c, samples, num, dots, plus);
      if Ch(text, pos) != '+' then Measured(total, pos)
      else if total < 0 then Measured(total, pos + 1)
      else AfterPlus(c, text, pos + 1, total, dots)
  }

  /** After a `+`: only a number may follow.  The dots so far are kept. */
  function AfterPlus(c: Config, text: string, pos: nat, samples: int, dots: nat): (r: Measured)
    requires pos <= |text|
    ensures pos <= r.pos <= |text|
    decreases |text| - pos
  {
    if IsDigit(Ch(text, pos)) then
      var e := DigitsEnd(text, pos);
      AfterNumber(c, text, e, samples, Number(text[pos..e]), dots, true)
    else Measured(-EINVAL, pos)
  }

  /** The length at `pos`; without any notation it is the default length. */
  function Length(c: Config, text: string, pos: nat): (r: Measured)
    requires pos <= |text|
    ensures pos <= r.pos <= |text|
  {
    var default := GetSamples(c, 0, -1, 0, false);
    if IsDigit(Ch(text, pos)) then
      var e := DigitsEnd(text, pos);
      AfterNumber(c, text, e, default, Number(text[pos..e]), 0, false)
    else if Ch(text, pos) == '.' then AfterNumber(c, text, pos + 1, default, -1, 1, false)
    else Measured(default, pos)
  }

  datatype LengthState = Idle | Numbered | Plus

  /** What remains to be done in a state of sample_length. */
  ghost function Remaining(c: Config, text: string, pos: nat, st: LengthState,
                           samples: int, num: int, dots: nat, plus: bool): Measured
    requires pos <= |text|
  {
    match st
    case Idle => Length(c, text, pos)
    case Numbered => AfterNumber(c, text, pos, samples, num, dots, plus)
    case Plus => AfterPlus(c, text, pos, samples, dots)
  }

  /** sample_length: the state machine, with the fall-through from its first state. */
  method SampleLength(c: Config, text: string, start: nat) returns (samples: int, pos: nat)
    requires start <= |text|
    ensures Measured(samples, pos) == Length(c, text, start)
  {
    var dots: nat, num: int := 0, -1;
    var plus, parsing, st := false, true, Idle;
    ghost var goal := Length(c, text, start);
    pos := start;
    samples := GetSamples(c, 0, num, dots, plus);
    if !IsDigit(Ch(text, pos)) && Ch(text, pos) != '.' { return; }
    while parsing
      invariant start <= pos <= |text|
      invariant st == Idle ==> pos == start && dots == 0 && num == -1 && !plus && parsing
      invariant st == Idle ==> IsDigit(Ch(text, pos)) || Ch(text, pos) == '.'
      invariant st == Idle ==> samples == GetSamples(c, 0, -1, 0, false)
      invariant st == Plus && parsing ==> plus && num == -1
      invariant goal == if parsing then Remaining(c, text, pos, st, samples, num, dots, plus)
                        else Measured(samples, pos)
      decreases parsing, |text| - pos
    {
      if st == Idle {
        if IsDigit(Ch(text, pos)) {
          var e := DigitsEnd(text, pos);
          num := Number(text[pos..e]);
          pos := e;
        } else {
          dots := dots + 1;
          pos := pos + 1;
        }
        st := Numbered;
      }
      if st == Numbered {
        if Ch(text, pos) == '.' {
          dots := dots + 1;
          pos := pos + 1;
        } else {
          samples := GetSamples(c, samples, num, dots, plus);
          if Ch(text, pos) == '+' {
            if samples < 0 { parsing := false; }
            plus, num, st := true, -1, Plus;
            pos := pos + 1;
          } else {
            parsing := false;
          }
        }
      } else if IsDigit(Ch(text, pos)) {
        var e := DigitsEnd(text, pos);
        num := Number(text[pos..e]);
        pos := e;
        st := Numbered;
      } else {
        samples, parsing := -EINVAL, false;
      }
    }
  }
}
