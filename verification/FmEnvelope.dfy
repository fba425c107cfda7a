/**
 The envelope generator of the FM synthesizer: five timed states between
 levels and a final one.  In each the output moves from one level to the next
 in a straight line of integer steps.
 */
module FmEnvelope {
  import opened Basics

  /** SHRT_MAX / 8 */
  const MAX_EGLEVEL := 4095

  /** The states in order; the last one has no end. */
  const ATTACK: nat := 0
  const DECAYBREAK: nat := 1
  const DECAY: nat := 2
  const SUSTAIN: nat := 3
  const RELEASE: nat := 4
  const RELEASED: nat := 5

  datatype Param = Param(initval: int, period: int, diff: int)

  /** A level as a fraction of the maximum, and the time to get there in milliseconds. */
  datatype Level = Level(level: real, ms: int)

  datatype Levels = Levels(attack: Level, decaybrk: Level, decay: Level, sustain: Level, release: Level)

  datatype Envelope = Envelope(state: nat, counter: nat, params: seq<Param>)

  // ---------------------------------------------------------------------- arithmetic

  /** Conversion to int as in C, truncating towards zero. */
  function Truncate(x: real): int {
    if x >= 0.0 then x.Floor else -((-x).Floor)
  }

  /** CONVERT_INITVAL */
  function Scaled(l: Level): int { Truncate(l.level * MAX_EGLEVEL as real) }

  predicate InRange(v: int) { -MAX_EGLEVEL <= v <= MAX_EGLEVEL }

  lemma {:induction false} DivBound(x: nat, a: nat, p: nat)
    requires p > 0 && x <= a * p
    ensures x / p <= a
  {
    var q := x / p;
    assert q * p <= x;
    if q > a { MulMono(a + 1, q, p); }
  }

  lemma {:induction false} PartOfWhole(a: nat, c: nat, p: nat)
    requires c < p
    ensures 0 <= a * c && 0 <= a * c / p <= a
  {
    MulMono(0, c, a);
    MulMono(c, p, a);
    var x := a * c;
    DivBound(x, a, p);
  }

  /** A part of a distance lies between nothing and the whole of it. */
  lemma {:induction false} PartOfDistance(d: int, c: nat, p: nat)
    requires c < p
    ensures if d >= 0 then 0 <= Quotient(d * c, p) <= d else d <= Quotient(d * c, p) <= 0
  {
    if d >= 0 {
      PartOfWhole(d, c, p);
    } else {
      PartOfWhole(-d, c, p);
      var (x, y) := ((-d) * c, d * c);
      assert y == -x;
    }
  }

  // ---------------------------------------------------------------------- parameters

  /** set_egparams: from one level to the next. */
  function MakeParam(fs: int, target: Level, last: Level): Param {
    Param(Scaled(last), Quotient(fs * target.ms, 1000), Scaled(target) - Scaled(last))
  }

  predicate Accepts(p: Param) { InRange(p.initval) && p.period >= 0 }

  /** The table that fmsyntheg_set_param writes. */
  function MakeParams(fs: int, l: Levels): seq<Param> {
    [MakeParam(fs, l.attack, l.release), MakeParam(fs, l.decaybrk, l.attack), MakeParam(fs, l.decay, l.decaybrk),
     MakeParam(fs, l.sustain, l.decay), MakeParam(fs, l.release, l.sustain)]
  }

  /** The result of fmsyntheg_set_param. */
  predicate SetParamOk(fs: int, l: Levels) {
    fs > 0 && forall k :: 0 <= k < 5 ==> Accepts(MakeParams(fs, l)[k])
  }

  /** Every state starts and, if it lasts, ends at a level within the range. */
  predicate ParamsOk(params: seq<Param>) {
    && |params| == 6
    && (forall k :: 0 <= k < 6 ==> InRange(params[k].initval))
    && (forall k :: 0 <= k < 5 ==>
          && params[k].period >= 0
          && (params[k].period > 0 ==> InRange(params[k].initval + params[k].diff)))
  }

  /** Parameters that are accepted keep the whole envelope within the range. */
  lemma {:induction false} AcceptedIsInRange(fs: int, l: Levels, released: Param)
    requires SetParamOk(fs, l) && released.initval == Scaled(l.release)
    ensures ParamsOk(MakeParams(fs, l) + [released])
  {
    var ps := MakeParams(fs, l);
    assert Accepts(ps[0]) && Accepts(ps[1]) && Accepts(ps[2]) && Accepts(ps[3]) && Accepts(ps[4]);
    assert ps[0].initval == Scaled(l.release) && ps[1].initval == Scaled(l.attack)
        && ps[2].initval == Scaled(l.decaybrk) && ps[3].initval == Scaled(l.decay)
        && ps[4].initval == Scaled(l.sustain);
  }

  // ------------------------------------------------------------------------ operation

  predicate Ok(e: Envelope) {
    e.state <= RELEASED && ParamsOk(e.params)
  }

  /** The next state that lasts. */
  function NextState(params: seq<Param>, s: nat): (r: nat)
    requires s < RELEASED && |params| == 6
    ensures s < r <= RELEASED && (r < RELEASED ==> params[r].period != 0)
    ensures forall k :: s < k < r ==> params[k].period == 0
    decreases RELEASED - s
  {
    if s + 1 < RELEASED && params[s + 1].period == 0 then NextState(params, s + 1) else s + 1
  }

  /** An envelope with the parameters of the levels. */
  ghost predicate IsSet(fs: int, l: Levels, e: Envelope) {
    && SetParamOk(fs, l) && Ok(e)
    && (forall k :: 0 <= k < 5 ==> e.params[k] == MakeParams(fs, l)[k])
    && e.params[RELEASED].initval == Scaled(l.release)
  }

  function Start(e: Envelope): Envelope { e.(state := ATTACK, counter := 0) }

  function Stop(e: Envelope): Envelope { e.(state := RELEASED, counter := 0) }

  /** The envelope after one sample, and the sample. */
  datatype Sampled = Sampled(e: Envelope, val: int)

  function Operate(e: Envelope): (r: Sampled)
    requires Ok(e)
    ensures Ok(r.e) && r.e.params == e.params
  {
    var p := e.params[e.state];
    if e.state == RELEASED then Sampled(e, p.initval)
    else if e.counter >= p.period then
      var s := NextState(e.params, e.state);
      Sampled(e.(state := s, counter := 0), e.params[s].initval)
    else
      Sampled(e.(counter := e.counter + 1), p.initval + Quotient(p.diff * e.counter, p.period))
  }

  lemma {:induction false} SampleInRange(e: Envelope)
    requires Ok(e)
    ensures InRange(Operate(e).val)
  {
    var p := e.params[e.state];
    if e.state != RELEASED && e.counter < p.period {
      PartOfDistance(p.diff, e.counter, p.period);
    }
  }

  lemma {:induction false} QuotientBounds(a: nat, p: nat)
    requires p > 0
    ensures a / p * p <= a < (a / p + 1) * p
  {}

  /** `x` is `y / p` rounded to zero. */
  ghost predicate IsRounded(x: int, y: int, p: nat) {
    if y >= 0 then x * p <= y < (x + 1) * p else (-x) * p <= -y < (-x + 1) * p
  }

  lemma {:induction false} QuotientIsRounded(y: int, p: nat)
    requires p > 0
    ensures IsRounded(Quotient(y, p), y, p)
  {
    if y >= 0 { QuotientBounds(y, p); } else { QuotientBounds(-y, p); }
  }

  /** Within a state the envelope is on the straight line from its level to the next. */
  lemma {:induction false} SampleOnLine(e: Envelope)
    requires Ok(e) && e.state < RELEASED && e.counter < e.params[e.state].period
    ensures
      var p := e.params[e.state];
      IsRounded(Operate(e).val - p.initval, p.diff * e.counter, p.period)
  {
    var p := e.params[e.state];
    var y := p.diff * e.counter;
    QuotientIsRounded(y, p.period);
    assert Operate(e).val - p.initval == Quotient(y, p.period);
  }

  lemma {:induction false} QuotientMono(x: nat, y: nat, p: nat)
    requires p > 0 && x <= y
    ensures x / p <= y / p
  {
    var (a, b) := (x / p, y / p);
    QuotientBounds(x, p);
    QuotientBounds(y, p);
    if b < a { MulMono(b + 1, a, p); }
  }

  lemma {:induction false} NearerTarget(d: int, c: nat, p: nat)
    requires p > 0
    ensures if d >= 0 then Quotient(d * c, p) <= Quotient(d * (c + 1), p)
            else Quotient(d * (c + 1), p) <= Quotient(d * c, p)
  {
    var a := if d >= 0 then d else -d;
    MulMono(0, c, a);
    MulMono(c, c + 1, a);
    QuotientMono(a * c, a * (c + 1), p);
    if d < 0 {
      var (x, y) := (a * c, a * (c + 1));
      assert d * c == -x && d * (c + 1) == -y;
    }
  }

  /** From one sample of a state to the next the envelope never turns back. */
  lemma {:induction false} NeverTurnsBack(e: Envelope)
    requires Ok(e) && e.state < RELEASED && e.counter + 1 < e.params[e.state].period
    ensures
      var (v, w) := (Operate(e).val, Operate(Operate(e).e).val);
      if e.params[e.state].diff >= 0 then v <= w else w <= v
  {
    var p := e.params[e.state];
    NearerTarget(p.diff, e.counter, p.period);
  }

  // ------------------------------------------------------------------------- whole runs

  datatype Action = DoStart | DoStop | DoOperate

  function Act(e: Envelope, a: Action): (r: Envelope)
    requires Ok(e)
    ensures Ok(r)
  {
    match a case DoStart => Start(e) case DoStop => Stop(e) case DoOperate => Operate(e).e
  }

  /** The samples of a run. */
  function Samples(e: Envelope, actions: seq<Action>): seq<int>
    requires Ok(e)
    decreases |actions|
  {
    if actions == [] then []
    else
      var rest := Samples(Act(e, actions[0]), actions[1..]);
      if actions[0] == DoOperate then [Operate(e).val] + rest else rest
  }

  /** Whatever starts and stops it, the envelope never leaves its range. */
  lemma {:induction false} RunInRange(e: Envelope, actions: seq<Action>)
    requires Ok(e)
    ensures forall k :: 0 <= k < |Samples(e, actions)| ==> InRange(Samples(e, actions)[k])
    decreases |actions|
  {
    if actions != [] {
      SampleInRange(e);
      RunInRange(Act(e, actions[0]), actions[1..]);
    }
  }

  // --------------------------------------------------------------------------- duration

  /** How many samples until the envelope is released. */
  function Left(e: Envelope): nat
    requires Ok(e) && (e.state < RELEASED ==> e.counter <= e.params[e.state].period)
    decreases RELEASED - e.state
  {
    if e.state == RELEASED then 0
    else e.params[e.state].period - e.counter + 1 + Left(e.(state := NextState(e.params, e.state), counter := 0))
  }

  /** The samples of the later states that last. */
  function Lasting(params: seq<Param>, s: nat): nat
    requires ParamsOk(params) && s <= RELEASED
    decreases RELEASED - s
  {
    if s == RELEASED then 0
    else (if params[s].period == 0 then 0 else params[s].period + 1) + Lasting(params, s + 1)
  }

  function OperateTimes(e: Envelope, n: nat): (r: Envelope)
    requires Ok(e)
    ensures Ok(r)
    decreases n
  {
    if n == 0 then e else OperateTimes(Operate(e).e, n - 1)
  }

  predicate InState(e: Envelope) {
    Ok(e) && (e.state < RELEASED ==> e.counter <= e.params[e.state].period)
  }

  /** Every sample brings the release one sample nearer. */
  lemma {:induction false} OneLess(e: Envelope)
    requires InState(e) && e.state < RELEASED
    ensures InState(Operate(e).e) && Left(Operate(e).e) == Left(e) - 1
  {}

  lemma {:induction false} ReleasedAfter(e: Envelope, n: nat)
    requires InState(e)
    ensures OperateTimes(e, n).state == RELEASED <==> n >= Left(e)
    decreases n
  {
    if e.state < RELEASED {
      if n > 0 {
        OneLess(e);
        ReleasedAfter(Operate(e).e, n - 1);
      }
    } else if n > 0 {
      ReleasedAfter(e, n - 1);
    }
  }

  lemma {:induction false} LeftIsLasting(e: Envelope)
    requires InState(e) && e.counter == 0 && e.state < RELEASED
    ensures Left(e) == e.params[e.state].period + 1 + Lasting(e.params, e.state + 1)
    decreases RELEASED - e.state
  {
    var s := NextState(e.params, e.state);
    LastingSkips(e.params, e.state + 1, s);
    if s < RELEASED { LeftIsLasting(e.(state := s)); }
  }

  lemma {:induction false} LastingSkips(params: seq<Param>, s: nat, t: nat)
    requires ParamsOk(params) && s <= t <= RELEASED
    requires forall k :: s <= k < t ==> params[k].period == 0
    ensures Lasting(params, s) == Lasting(params, t)
    decreases t - s
  {
    if s < t { LastingSkips(params, s + 1, t); }
  }

  /**
   From its start the envelope is released after exactly one sample more than
   the attack lasts and one more than each later state that lasts at all.
   */
  lemma {:induction false} DurationOfSound(e: Envelope, n: nat)
    requires Ok(e)
    ensures OperateTimes(Start(e), n).state == RELEASED
            <==> n >= e.params[ATTACK].period + 1 + Lasting(e.params, DECAYBREAK)
  {
    LeftIsLasting(Start(e));
    ReleasedAfter(Start(e), n);
  }

  /** A released envelope stays as it is. */
  lemma {:induction false} StaysReleased(e: Envelope, n: nat)
    requires Ok(e) && e.state == RELEASED
    ensures OperateTimes(e, n) == e
    decreases n
  {
    if n > 0 { StaysReleased(e, n - 1); }
  }

  // ------------------------------------------------------------------------ the generator

  /** The envelope generator, updated in place. */
  class Generator {
    var state: nat
    var counter: nat
    const params: array<Param>

    ghost function View(): Envelope
      reads this, params
    {
      Envelope(state, counter, params[..])
    }

    ghost predicate Valid()
      reads this, params
    {
      Ok(View())
    }

    /** create_fmsyntheg */
    constructor ()
      ensures Valid() && fresh(params) && state == RELEASED && counter == 0
      ensures params[RELEASED].initval == MAX_EGLEVEL
      ensures forall k :: 0 <= k < 5 ==> params[k].initval == 0 && params[k].period == 0
    {
      state, counter := RELEASED, 0;
      params := new Param[6](k => Param(if k == 5 then MAX_EGLEVEL else 0, 0, 0));
    }

    /** fmsyntheg_set_param: the table is written even when a parameter is refused. */
    method SetParam(fs: int, levels: Levels) returns (ok: bool)
      requires params.Length == 6 && state <= RELEASED
      modifies params
      ensures ok == SetParamOk(fs, levels)
      ensures fs > 0 ==>
                params[..] == MakeParams(fs, levels) + [old(params[RELEASED]).(initval := Scaled(levels.release))]
      ensures fs <= 0 ==> params[..] == old(params[..])
      ensures ok ==> Valid() && IsSet(fs, levels, View())
    {
      if fs <= 0 { return false; }
      var errors := 0;
      var made := MakeParams(fs, levels);
      for k := 0 to 5
        invariant forall j :: 0 <= j < k ==> params[j] == made[j]
        invariant params[5] == old(params[5])
        invariant errors <= 0 && (errors == 0 <==> forall j :: 0 <= j < k ==> Accepts(made[j]))
      {
        params[k] := made[k];
        if !Accepts(made[k]) { errors := errors - 1; }
      }
      params[5] := params[5].(initval := Scaled(levels.release));
      ok := errors == 0;
      assert params[..] == made + [params[5]];
      if ok { AcceptedIsInRange(fs, levels, params[5]); }
    }

    /** fmsyntheg_start: what was left of the sound before does not matter for how long it lasts now. */
    method StartSound()
      modifies this
      ensures View() == Start(old(View())) && (old(Valid()) ==> Valid())
      ensures Valid() ==> forall n: nat :: OperateTimes(View(), n).state == RELEASED
                               <==> n >= params[ATTACK].period + 1 + Lasting(params[..], DECAYBREAK)
    {
      state, counter := ATTACK, 0;
      forall n: nat | Valid()
        ensures OperateTimes(View(), n).state == RELEASED
                <==> n >= params[ATTACK].period + 1 + Lasting(params[..], DECAYBREAK)
      {
        DurationOfSound(View(), n);
      }
    }

    /** fmsyntheg_stop: from now on every sample is the level of the release. */
    method StopSound()
      modifies this
      ensures View() == Stop(old(View())) && (old(Valid()) ==> Valid())
      ensures Valid() ==> forall n: nat :: Operate(OperateTimes(View(), n)).val == params[RELEASED].initval
    {
      state, counter := RELEASED, 0;
      forall n: nat | Valid() ensures Operate(OperateTimes(View(), n)).val == params[RELEASED].initval {
        StaysReleased(View(), n);
      }
    }

    /** fmsyntheg_operate */
    method NextSample() returns (val: int)
      requires Valid()
      modifies this
      ensures Valid() && Sampled(View(), val) == Operate(old(View())) && InRange(val)
    {
      ghost var e := View();
      SampleInRange(e);
      val := params[state].initval;
      if state != RELEASED {
        if counter >= params[state].period {
          counter := 0;
          state := FindNext(state);
          val := params[state].initval;
        } else {
          val := val + Quotient(params[state].diff * counter, params[state].period);
          counter := counter + 1;
        }
      }
    }

    /** The search of fmsyntheg_operate for a state that lasts. */
    method FindNext(from: nat) returns (s: nat)
      requires params.Length == 6 && from < RELEASED
      ensures s == NextState(params[..], from)
    {
      s := from + 1;
      while s < RELEASED && params[s].period == 0
        invariant from < s <= RELEASED
        invariant forall k :: from < k < s ==> params[k].period == 0
      {
        s := s + 1;
      }
      NextStateIs(params[..], from, s);
    }
  }

  lemma {:induction false} NextStateIs(params: seq<Param>, s: nat, t: nat)
    requires |params| == 6 && s < t <= RELEASED
    requires forall k :: s < k < t ==> params[k].period == 0
    requires t < RELEASED ==> params[t].period != 0
    ensures NextState(params, s) == t
    decreases t - s
  {
    if s + 1 < t { NextStateIs(params, s + 1, t); }
  }
}
