/**
 The form of each wave: its values over one turn, and that the turns repeat.
 */
module FmWaveform {
  import opened Basics
  import opened FmWave
  import FmSineTable

  /** A wave depends on the phase within the turn only. */
  lemma {:induction false} SamePlace(w: Wave, x: int, y: int)
    requires Adjust(x) == Adjust(y)
    ensures Generate(w, x) == Generate(w, y)
  {}

  /** Every turn is like the first. */
  lemma {:induction false} Periodic(w: Wave, x: nat, k: nat)
    ensures Generate(w, x + k * (2 * PI)) == Generate(w, x)
  {
    var n := 2 * PI;
    var y := x + k * n;
    assert y == (x / n + k) * n + x % n;
    assert y % n == x % n;
    SamePlace(w, y, x);
  }

  /** Before zero a wave is half a turn off. */
  lemma {:induction false} NegativeIsOpposite(w: Wave, x: int)
    requires x > 0
    ensures Generate(w, -x) == Generate(w, x + PI)
  {
    AdjustNegated(x);
    assert Adjust(x + PI) == (Adjust(x) + PI) % (2 * PI) by {
      var n := 2 * PI;
      assert x == x / n * n + x % n;
    }
    SamePlace(w, -x, x + PI);
  }

  // ------------------------------------------------------------------------------ sine

  /** The second half turn is the first one upside down. */
  lemma {:induction false} SineTurnsOver(x: nat)
    ensures Generate(SinWave, x + PI) == -Generate(SinWave, x)
  {
    SinIsOdd(x);
    if x > 0 { NegativeIsOpposite(SinWave, x); } else { SineAtPoints(0); }
  }

  lemma {:induction false} RisingLine(t: seq<int>, k: nat, r: nat)
    requires |t| == 258 && k < 256 && r < 128
    ensures SineOf(t, 128 * k + r) == Between(t[k + 1], t[k + 2], r)
  {
    SineOfIsAt(t, 0, 128 * k + r);
    assert (128 * k + r) / 128 == k && (128 * k + r) % 128 == r;
  }

  lemma {:induction false} FallingLine(t: seq<int>, k: nat, r: nat)
    requires |t| == 258 && 256 <= k < 512 && r < 128
    ensures SineOf(t, 128 * k + r) == Between(t[513 - k], t[512 - k], r)
  {
    var (j, offset) := (k - 256, 128 * (k - 256) + r);
    SineOfIsAt(t, 1, offset);
    assert offset / 128 == j && offset % 128 == r;
    assert 1 * QUARTER + offset == 128 * k + r;
  }

  lemma {:induction false} LineOf(t: seq<int>, k: nat, r: nat)
    requires |t| == 258 && t[1] == 0 && k < 512 && r < 128
    ensures
      var (a, b) := (SineOf(t, 128 * k), SineOf(t, 128 * (k + 1)));
      SineOf(t, 128 * k + r) == Between(a, b, r)
  {
    if k < 256 {
      RisingLine(t, k, r);
      PointsOf(t, k);
      PointsOf(t, k + 1);
    } else {
      FallingLine(t, k, r);
      PointsOf(t, 512 - k);
      PointsOf(t, 511 - k);
      assert PI - 128 * (512 - k) == 128 * k && PI - 128 * (511 - k) == 128 * (k + 1);
    }
  }

  /** Between two entries of the table the sine is on the straight line, rounded down. */
  lemma {:induction false} SineOnLine(k: nat, r: nat) returns (a: int, b: int, v: int)
    requires k < 512 && r < 128
    ensures a == Generate(SinWave, 128 * k) && b == Generate(SinWave, 128 * (k + 1))
    ensures v == Generate(SinWave, 128 * k + r) && v == a + (b - a) * r / 128
  {
    a, b, v := PseudoSin(128 * k), PseudoSin(128 * (k + 1)), PseudoSin(128 * k + r);
    SineBetween(k, r);
    BetweenIs(a, b, r);
  }

  lemma {:induction false} SineBetween(k: nat, r: nat)
    requires k < 512 && r < 128
    ensures PseudoSin(128 * k + r) == Between(PseudoSin(128 * k), PseudoSin(128 * (k + 1)), r)
  {
    TableIsOk();
    LineOf(Table(), k, r);
  }

  lemma {:induction false} BetweenIs(a: int, b: int, r: nat)
    ensures Between(a, b, r) == a + (b - a) * r / 128
  {}

  /** At the entries it is the table, the same from both ends of the half turn. */
  lemma {:induction false} SineIsTable(k: nat)
    requires k <= 256
    ensures Generate(SinWave, 128 * k) == Generate(SinWave, PI - 128 * k) == FmSineTable.Sine(k + 1)
  {
    SineAtPoints(k);
  }

  // -------------------------------------------------------------------------- other waves

  /** Up for a quarter turn, down for half a turn, and up again. */
  function Tent(x: int): int {
    if x <= QUARTER then x else if x <= 3 * QUARTER then PI - x else x - 2 * PI
  }

  lemma {:induction false} TriangleIsTent(x: nat)
    requires x < 2 * PI
    ensures Generate(Triangle, x) == SHRT_MAX * Tent(x) / 32768
  {
    assert Adjust(x) == x;
    var (phase, offset) := (x / QUARTER, x % QUARTER);
    assert x == phase * QUARTER + offset && phase < 4;
  }

  /** The values at the quarter turns. */
  lemma {:induction false} TriangleCorners()
    ensures Generate(Triangle, 0) == 0 && Generate(Triangle, QUARTER) == SHRT_MAX
    ensures Generate(Triangle, PI) == 0 && Generate(Triangle, 3 * QUARTER) == -SHRT_MAX
  {
    TriangleIsTent(0);
    TriangleIsTent(QUARTER);
    TriangleIsTent(PI);
    TriangleIsTent(3 * QUARTER);
  }

  /** The sawtooth rises by one every two units over the whole turn, from its lowest value. */
  lemma {:induction false} SawtoothRises(x: nat)
    requires x < 2 * PI
    ensures Generate(Sawtooth, 0) == -SHRT_MAX
    ensures x + 1 < 2 * PI ==> Generate(Sawtooth, x + 1) == Generate(Sawtooth, x) + x % 2
  {}

  /** The square wave is high in the first half of the turn and low in the second. */
  lemma {:induction false} SquareIsHighIff(x: nat)
    requires x < 2 * PI
    ensures Generate(Square, x) == SHRT_MAX <==> x < PI
    ensures Generate(Square, x) == -SHRT_MAX <==> PI <= x
  {}
}
