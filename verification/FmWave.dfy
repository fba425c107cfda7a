/**
 The wave generators of the FM synthesizer.  A turn is `2 * PI` units of phase;
 the generators fold any phase into one turn and give a 16-bit sample.
 */
module FmWave {
  import opened Basics
  import Eg = FmEnvelope
  import FmSineTable

  const PI := 0x1_0000
  const QUARTER := 0x8000
  const SHRT_MAX := 32767

  datatype Wave = SinWave | Triangle | Sawtooth | Square

  /** PHASE_ADJUST */
  function Adjust(theta: int): (r: nat)
    ensures r < 2 * PI
  {
    (if theta < 0 then PI - theta else theta) % (2 * PI)
  }

  // ------------------------------------------------------------------------- the sine

  ghost predicate TableOk(t: seq<int>) {
    && |t| == 258
    && t[1] == 0
    && (forall i :: 1 <= i < 258 ==> 0 <= t[i] <= SHRT_MAX)
    && (forall i, j :: 1 <= i <= j < 258 ==> t[i] <= t[j])
  }

  function Table(): seq<int> { seq(258, i requires 0 <= i < 258 => FmSineTable.Sine(i)) }

  /** Between two table entries, `rest` parts of 128; the shift rounds down. */
  function Between(a: int, b: int, rest: nat): int { a + (b - a) * rest / 128 }

  /** A quarter of the sine, upwards in even phases and downwards in odd ones. */
  function QuarterSine(t: seq<int>, odd: bool, offset: nat): int
    requires |t| == 258 && offset < QUARTER
  {
    var (idx, rest) := (offset / 128, offset % 128);
    if odd then Between(t[257 - idx], t[256 - idx], rest)
    else Between(t[idx + 1], t[idx + 2], rest)
  }

  function SineAt(t: seq<int>, phase: nat, offset: nat): int
    requires |t| == 258 && offset < QUARTER
  {
    var s := QuarterSine(t, phase % 2 == 1, offset);
    if phase >= 2 then -s else s
  }

  function SineOf(t: seq<int>, theta: int): int
    requires |t| == 258
  {
    var a := Adjust(theta);
    SineAt(t, a / QUARTER, a % QUARTER)
  }

  /** pseudo_sin256 */
  function PseudoSin(theta: int): int { SineOf(Table(), theta) }

  // ---------------------------------------------------------------------- other waves

  /** triangle_wave; the shift rounds down. */
  function TriangleWave(theta: int): int {
    var a := Adjust(theta);
    Slope(a / QUARTER, a % QUARTER)
  }

  function Slope(phase: nat, offset: nat): int {
    match phase
    case 0 => SHRT_MAX * offset / 32768
    case 1 => SHRT_MAX + (-SHRT_MAX * offset) / 32768
    case 2 => (-SHRT_MAX * offset) / 32768
    case _ => -SHRT_MAX + SHRT_MAX * offset / 32768
  }

  function SawtoothWave(theta: int): int { Adjust(theta) / 2 - SHRT_MAX }

  function SquareWave(theta: int): int { if Adjust(theta) < PI then SHRT_MAX else -SHRT_MAX }

  function Generate(w: Wave, theta: int): int {
    match w
    case SinWave => PseudoSin(theta)
    case Triangle => TriangleWave(theta)
    case Sawtooth => SawtoothWave(theta)
    case Square => SquareWave(theta)
  }

  // ------------------------------------------------------------------------- magnitude

  /** The largest magnitude of a wave. */
  function Limit(w: Wave): int { if w == Sawtooth then 32768 else 32767 }

  lemma {:induction false} BetweenBounds(a: int, b: int, rest: nat)
    requires 0 <= a <= SHRT_MAX && 0 <= b <= SHRT_MAX && rest < 128
    ensures 0 <= Between(a, b, rest) <= SHRT_MAX
  {
    var d := b - a;
    if d >= 0 {
      MulMono(0, rest, d);
      MulMono(rest, 128, d);
    } else {
      MulMono(0, rest, -d);
      MulMono(rest, 128, -d);
    }
  }

  lemma {:induction false} QuarterBounds(t: seq<int>, odd: bool, offset: nat)
    requires TableOk(t) && offset < QUARTER
    ensures 0 <= QuarterSine(t, odd, offset) <= SHRT_MAX
  {
    var idx := offset / 128;
    if odd {
      BetweenBounds(t[257 - idx], t[256 - idx], offset % 128);
    } else {
      BetweenBounds(t[idx + 1], t[idx + 2], offset % 128);
    }
  }

  lemma {:induction false} SineOfBounds(t: seq<int>, theta: int)
    requires TableOk(t)
    ensures -SHRT_MAX <= SineOf(t, theta) <= SHRT_MAX
  {
    var a := Adjust(theta);
    QuarterBounds(t, a / QUARTER % 2 == 1, a % QUARTER);
  }

  lemma {:induction false} TableIsOk()
    ensures TableOk(Table())
  {
    forall i | 1 <= i < 258 ensures 0 <= Table()[i] <= SHRT_MAX {
      FmSineTable.SineWithin(i);
    }
    forall i, j | 1 <= i <= j < 258 ensures Table()[i] <= Table()[j] {
      TableRises(i, j);
    }
  }

  lemma {:induction false} TableRises(i: nat, j: nat)
    requires 1 <= i <= j < 258
    ensures FmSineTable.Sine(i) <= FmSineTable.Sine(j)
    decreases j
  {
    if i < j {
      TableRises(i, j - 1);
      FmSineTable.SineRises(j - 1);
    }
  }

  /** Every wave stays within its limit, whatever the phase. */
  lemma {:induction false} WaveBounds(w: Wave, theta: int)
    ensures -Limit(w) <= Generate(w, theta) <= Limit(w)
  {
    if w == SinWave {
      TableIsOk();
      SineOfBounds(Table(), theta);
    }
  }

  // ----------------------------------------------------------------------- first quarter

  lemma {:induction false} BetweenRises(a: int, b: int, r: nat, q: nat)
    requires a <= b && r <= q < 128
    ensures a <= Between(a, b, r) <= Between(a, b, q) <= b
  {
    MulMono(0, r, b - a);
    MulMono(r, q, b - a);
    MulMono(q, 128, b - a);
  }

  lemma {:induction false} QuarterRises(t: seq<int>, x: nat, y: nat)
    requires TableOk(t) && x <= y < QUARTER
    ensures QuarterSine(t, false, x) <= QuarterSine(t, false, y)
  {
    var (i, r, j, q) := (x / 128, x % 128, y / 128, y % 128);
    assert i < j || (i == j && r <= q);
    BetweenRises(t[i + 1], t[i + 2], r, if i == j then q else r);
    BetweenRises(t[j + 1], t[j + 2], q, q);
  }

  lemma {:induction false} SineOfIsAt(t: seq<int>, phase: nat, offset: nat)
    requires |t| == 258 && phase < 4 && offset < QUARTER
    ensures SineOf(t, phase * QUARTER + offset) == SineAt(t, phase, offset)
  {
    assert Adjust(phase * QUARTER + offset) == phase * QUARTER + offset;
  }

  lemma {:induction false} FirstQuarter(t: seq<int>, x: nat)
    requires |t| == 258 && x <= QUARTER
    ensures SineOf(t, x) == if x < QUARTER then QuarterSine(t, false, x) else t[257]
  {
    if x < QUARTER {
      SineOfIsAt(t, 0, x);
    } else {
      SineOfIsAt(t, 1, 0);
      assert SineAt(t, 1, 0) == Between(t[257], t[256], 0);
    }
  }

  /** The sine rises over the first quarter of a turn. */
  lemma {:induction false} SineRises(x: nat, y: nat)
    requires x <= y <= QUARTER
    ensures PseudoSin(x) <= PseudoSin(y)
  {
    var t := Table();
    TableIsOk();
    FirstQuarter(t, x);
    FirstQuarter(t, y);
    if y < QUARTER {
      QuarterRises(t, x, y);
    } else if x < QUARTER {
      BetweenRises(t[x / 128 + 1], t[x / 128 + 2], x % 128, x % 128);
    }
  }

  lemma {:induction false} RisingPoint(t: seq<int>, k: nat)
    requires |t| == 258 && k < 256
    ensures SineOf(t, 128 * k) == t[k + 1]
  {
    SineOfIsAt(t, 0, 128 * k);
    assert QuarterSine(t, false, 128 * k) == Between(t[k + 1], t[k + 2], 0);
  }

  lemma {:induction false} FallingPoint(t: seq<int>, k: nat)
    requires |t| == 258 && 1 <= k <= 256
    ensures SineOf(t, PI - 128 * k) == t[k + 1]
  {
    var offset := QUARTER - 128 * k;
    SineOfIsAt(t, 1, offset);
    assert offset / 128 == 256 - k && offset % 128 == 0;
    assert QuarterSine(t, true, offset) == Between(t[k + 1], t[k], 0);
  }

  lemma {:induction false} LastPoint(t: seq<int>)
    requires |t| == 258 && t[1] == 0
    ensures SineOf(t, PI) == t[1]
  {
    SineOfIsAt(t, 2, 0);
    assert QuarterSine(t, false, 0) == Between(t[1], t[2], 0);
  }

  lemma {:induction false} PointsOf(t: seq<int>, k: nat)
    requires |t| == 258 && t[1] == 0 && k <= 256
    ensures SineOf(t, 128 * k) == SineOf(t, PI - 128 * k) == t[k + 1]
  {
    if k == 0 {
      RisingPoint(t, k);
      LastPoint(t);
    } else {
      FallingPoint(t, k);
      if k < 256 { RisingPoint(t, k); }
    }
  }

  /** At every 128th unit of the first half turn the sine is an entry of the table, the same from both ends. */
  lemma {:induction false} SineAtPoints(k: nat)
    requires k <= 256
    ensures PseudoSin(128 * k) == PseudoSin(PI - 128 * k) == FmSineTable.Sine(k + 1)
  {
    TableIsOk();
    PointsOf(Table(), k);
  }

  // -------------------------------------------------------------------------- symmetry

  /** Negating the phase adds half a turn to it. */
  lemma {:induction false} AdjustNegated(x: int)
    requires x > 0
    ensures Adjust(-x) == (Adjust(x) + PI) % (2 * PI)
  {
    var q := x / (2 * PI);
    assert x == q * (2 * PI) + x % (2 * PI);
  }

  lemma {:induction false} HalfTurn(a: nat)
    requires a < 2 * PI
    ensures
      var u := (a + PI) % (2 * PI);
      u % QUARTER == a % QUARTER && u / QUARTER == (a / QUARTER + 2) % 4
  {}

  lemma {:induction false} OppositeSines(t: seq<int>, phase: nat, offset: nat)
    requires |t| == 258 && phase < 4 && offset < QUARTER
    ensures SineAt(t, (phase + 2) % 4, offset) == -SineAt(t, phase, offset)
  {
    assert (phase + 2) % 4 % 2 == phase % 2;
  }

  lemma {:induction false} SineOfIsOdd(t: seq<int>, x: int)
    requires TableOk(t) && x >= 0
    ensures SineOf(t, -x) == -SineOf(t, x)
  {
    if x > 0 {
      AdjustNegated(x);
      HalfTurn(Adjust(x));
      OppositeSines(t, Adjust(x) / QUARTER, Adjust(x) % QUARTER);
    } else {
      assert SineOf(t, 0) == Between(t[1], t[2], 0) == 0;
    }
  }

  /** The sine is odd, exactly and everywhere. */
  lemma {:induction false} SinIsOdd(x: int)
    ensures PseudoSin(-x) == -PseudoSin(x)
  {
    TableIsOk();
    SineOfIsOdd(Table(), if x < 0 then -x else x);
  }

  lemma {:induction false} OppositeSlopes(phase: nat, offset: nat)
    requires phase < 4 && offset < QUARTER
    ensures Slope(phase, offset) + Slope((phase + 2) % 4, offset) == if offset == 0 then 0 else -1
  {}

  lemma {:induction false} TriangleOpposite(x: int)
    requires x > 0
    ensures TriangleWave(-x) == Slope((Adjust(x) / QUARTER + 2) % 4, Adjust(x) % QUARTER)
  {
    AdjustNegated(x);
    HalfTurn(Adjust(x));
  }

  lemma {:induction false} AdjustKeepsOffset(x: nat)
    ensures Adjust(x) % QUARTER == x % QUARTER
  {
    var q := x / (2 * PI);
    assert x == 4 * q * QUARTER + Adjust(x);
  }

  lemma {:induction false} TriangleNegated(x: int)
    requires x >= 0
    ensures TriangleWave(-x) + TriangleWave(x) == if x % QUARTER == 0 then 0 else -1
  {
    if x > 0 {
      TriangleOpposite(x);
      AdjustKeepsOffset(x);
      OppositeSlopes(Adjust(x) / QUARTER, Adjust(x) % QUARTER);
    }
  }

  /** The triangle is odd just where it is not rounded: at the multiples of a quarter turn. */
  lemma {:induction false} TriangleIsOddIff(x: int)
    ensures TriangleWave(-x) == -TriangleWave(x) <==> x % QUARTER == 0
  {
    if x >= 0 {
      TriangleNegated(x);
    } else {
      TriangleNegated(-x);
      NegatedMultiple(-x);
    }
  }

  lemma {:induction false} NegatedMultiple(x: int)
    requires x > 0
    ensures x % QUARTER == 0 <==> -x % QUARTER == 0
  {
    var (q, r) := (x / QUARTER, x % QUARTER);
    assert -x == QUARTER * (-q) - r;
  }

  /** The square wave is odd everywhere but at zero. */
  lemma {:induction false} SquareIsOddIff(x: int)
    ensures SquareWave(-x) == -SquareWave(x) <==> x != 0
  {
    if x != 0 { AdjustNegated(if x < 0 then -x else x); }
  }
}
