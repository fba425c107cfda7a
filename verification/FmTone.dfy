/**
 What an operator plays: its phase over any number of samples, the wave that is heard, and
 what feedback and cascaded operators do to it.
 */
module FmTone {
  import opened Basics
  import Eg = FmEnvelope
  import opened FmWave
  import opened FmWaveform
  import opened FmOperator

  const TURN := 2 * PI

  // ------------------------------------------------------------------------------ the phase

  /** One sample: the step is added and whole turns are taken off. */
  lemma {:induction false} PhaseStep(o: Operator) returns (k: int)
    ensures Folded(o.phase + o.delta) == o.phase + o.delta - (k * TURN) as real
    ensures o.phase + o.delta >= 0.0 ==> k >= 0 && Folded(o.phase + o.delta) >= 0.0
  {
    var x := o.phase + o.delta;
    k := Quotient(Eg.Truncate(x), TURN);
    if x >= 0.0 { assert k * TURN <= x.Floor; }
  }

  /** What is left of an operator by one sample of the tree it hangs in. */
  ghost predicate Sampled(o: Operator, r: Operator, time: int) {
    && r.wave == o.wave && r.delta == o.delta && r.source == o.source && r.rate == o.rate
    && r.phase == Folded(if time != 0 then o.phase + o.delta else 0.0)
    && Eg.Ok(o.eg) && r.eg == Eg.Operate(o.eg).e
  }

  lemma {:induction false} HeardIsSampled(b: Bank, c: Bank, t: Ops, time: int, i: nat)
    requires AllWired(b) && Fits(t, |b|) && |b| == |c| && Heard(b, c, t, time) && i in Ids(t)
    ensures i < |b| && Sampled(b[i], c[i], time)
    decreases t
  {
    if i != t.id {
      if i in Ids(t.cascade) {
        HeardIsSampled(b, c, t.cascade, time, i);
      } else {
        HeardIsSampled(b, c, t.parallel, time, i);
      }
    }
  }

  lemma {:induction false} EventIsSampled(b: Bank, t: Ops, time: int, i: nat)
    requires AllWired(b) && Fits(t, |b|) && Distinct(t) && i in Ids(t) && i < |b|
    ensures Sampled(b[i], Happen(b, Sample(t, time))[i], time)
  {
    var f := UpdateFeedback(b, t);
    FeedbackIsSimultaneous(b, t, i);
    OperateIsSum(f, t, time);
    HeardIsSampled(f, OperateAll(f, t, time).bank, t, time, i);
  }

  /** The bank after samples at the given times. */
  ghost function After(b: Bank, t: Ops, times: seq<int>): (r: Bank)
    requires AllWired(b) && Fits(t, |b|)
    ensures AllWired(r) && |r| == |b|
    decreases |times|
  {
    if times == [] then b else Happen(After(b, t, times[..|times| - 1]), Sample(t, times[|times| - 1]))
  }

  predicate Running(times: seq<int>) {
    times != [] && times[0] == 0 && forall k :: 1 <= k < |times| ==> times[k] != 0
  }

  /** What does not change, and the envelope after as many samples. */
  ghost predicate KeptAfter(o: Operator, r: Operator, n: nat) {
    && r.wave == o.wave && r.delta == o.delta && r.source == o.source && r.rate == o.rate
    && Eg.Ok(o.eg) && r.eg == Eg.OperateTimes(o.eg, n)
  }

  lemma {:induction false} OnceMore(e: Eg.Envelope, n: nat)
    requires Eg.Ok(e)
    ensures Eg.OperateTimes(e, n + 1) == Eg.Operate(Eg.OperateTimes(e, n)).e
    decreases n
  {
    if n > 0 { OnceMore(Eg.Operate(e).e, n - 1); }
  }

  lemma {:induction false} Keeps(b: Bank, t: Ops, times: seq<int>, i: nat)
    requires AllWired(b) && Fits(t, |b|) && Distinct(t) && i in Ids(t) && i < |b|
    ensures KeptAfter(b[i], After(b, t, times)[i], |times|)
    decreases |times|
  {
    var n := |times|;
    if n > 0 {
      Keeps(b, t, times[..n - 1], i);
      EventIsSampled(After(b, t, times[..n - 1]), t, times[n - 1], i);
      OnceMore(b[i].eg, n - 1);
    }
  }

  /** A phase of `n` steps, but for whole turns. */
  ghost predicate IsSteps(phase: real, delta: real, n: nat, k: int) {
    && phase == n as real * delta - (k * TURN) as real
    && (delta >= 0.0 ==> k >= 0 && phase >= 0.0)
  }

  lemma {:induction false} NextStep(o: Operator, r: Operator, time: int, n: nat, j: int) returns (k: int)
    requires Sampled(o, r, time) && time != 0 && IsSteps(o.phase, o.delta, n, j)
    ensures IsSteps(r.phase, o.delta, n + 1, k)
  {
    var m := PhaseStep(o);
    k := j + m;
    assert (n + 1) as real * o.delta == n as real * o.delta + o.delta;
    assert (k * TURN) as real == (j * TURN) as real + (m * TURN) as real;
  }

  lemma {:induction false} FirstStep(o: Operator, r: Operator)
    requires Sampled(o, r, 0)
    ensures IsSteps(r.phase, o.delta, 0, 0)
  {
    assert Folded(0.0) == 0.0;
  }

  /** The last of the samples. */
  lemma {:induction false} LastSample(b: Bank, t: Ops, times: seq<int>, i: nat) returns (o: Operator, r: Operator)
    requires AllWired(b) && Fits(t, |b|) && Distinct(t) && i in Ids(t) && i < |b| && times != []
    ensures o == After(b, t, times[..|times| - 1])[i] && r == After(b, t, times)[i]
    ensures Sampled(o, r, times[|times| - 1]) && KeptAfter(b[i], o, |times| - 1)
  {
    var n := |times| - 1;
    Keeps(b, t, times[..n], i);
    EventIsSampled(After(b, t, times[..n]), t, times[n], i);
    o, r := After(b, t, times[..n])[i], After(b, t, times)[i];
  }

  /**
   For every operator of every tree, with whatever feedback and cascades: `n` samples after the
   one at time zero the phase is `n` steps, but for whole turns.
   */
  lemma {:induction false} PhaseIsSteps(b: Bank, t: Ops, times: seq<int>, i: nat) returns (k: int)
    requires AllWired(b) && Fits(t, |b|) && Distinct(t) && i in Ids(t) && i < |b| && Running(times)
    ensures IsSteps(After(b, t, times)[i].phase, b[i].delta, |times| - 1, k)
    decreases |times|
  {
    var n := |times| - 1;
    var o, r := LastSample(b, t, times, i);
    if n == 0 {
      k := 0;
      FirstStep(o, r);
    } else {
      var j := PhaseIsSteps(b, t, times[..n], i);
      k := NextStep(o, r, times[n], n - 1, j);
    }
  }

  // ----------------------------------------------------------------------------- the output

  /** Dropping whole turns from a phase that is not negative does not change the wave. */
  lemma {:induction false} WholeTurns(w: Wave, x: real, k: nat)
    requires x - (k * TURN) as real >= 0.0
    ensures Generate(w, Eg.Truncate(x - (k * TURN) as real)) == Generate(w, x.Floor)
  {
    var y := x - (k * TURN) as real;
    assert y.Floor == x.Floor - k * TURN;
    Periodic(w, y.Floor, k);
  }

  /** An operator by itself, with nothing cascaded on it and no feedback. */
  predicate Alone(b: Bank, id: nat) {
    id < |b| && b[id].source.None? && b[id].feedback == 0
  }

  /** The share of the wave that the envelope lets through. */
  function Share(level: int, wave: int): int { Quotient(level * wave, Eg.MAX_EGLEVEL) }

  lemma {:induction false} LoneSample(b: Bank, t: Ops, time: int)
    requires AllWired(b) && Possible(Sample(t, time), |b|) && t.Op? && t.parallel.Nil?
    ensures Happen(b, Sample(t, time)) == OperateOne(UpdateFeedback(b, t), t, time).bank
  {
    var f := UpdateFeedback(b, t);
    assert OperateAll(OperateOne(f, t, time).bank, Nil, time).bank == OperateOne(f, t, time).bank;
  }

  /** One sample of an operator with nothing cascaded on it. */
  lemma {:induction false} OutputOf(b: Bank, id: nat, time: int) returns (r: Operator)
    requires AllWired(b) && id < |b|
    ensures r == Happen(b, Sample(Op(id, Nil, Nil), time))[id] && r.feedback == Fed(b, id).feedback
    ensures r.sigval == Share(Eg.Operate(b[id].eg).val,
                              Generate(b[id].wave, Eg.Truncate(Moved(b[id], time)) + r.feedback))
  {
    var t := Op(id, Nil, Nil);
    var f := UpdateFeedback(b, t);
    FeedbackIsSimultaneous(b, t, id);
    LoneSample(b, t, time);
    OneIsOutput(f, t, time);
    r := OperateOne(f, t, time).bank[id];
  }

  lemma {:induction false} OutputAlone(b: Bank, id: nat, time: int)
    requires AllWired(b) && Alone(b, id)
    ensures
      var (o, r) := (b[id], Happen(b, Sample(Op(id, Nil, Nil), time))[id]);
      && r.feedback == 0
      && r.sigval == Share(Eg.Operate(o.eg).val, Generate(o.wave, Eg.Truncate(Moved(o, time))))
  {
    var r := OutputOf(b, id, time);
  }

  lemma {:induction false} StaysAlone(b: Bank, id: nat, times: seq<int>)
    requires AllWired(b) && Alone(b, id)
    ensures Alone(After(b, Op(id, Nil, Nil), times), id)
    decreases |times|
  {
    var (n, t) := (|times|, Op(id, Nil, Nil));
    if n > 0 {
      StaysAlone(b, id, times[..n - 1]);
      OutputAlone(After(b, t, times[..n - 1]), id, times[n - 1]);
      EventIsSampled(After(b, t, times[..n - 1]), t, times[n - 1], id);
    }
  }

  /** The phase of the sample after `o`: `x` but for whole turns. */
  lemma {:induction false} PhaseBefore(o: Operator, time: int, n: nat, j: int, x: real)
    requires o.delta >= 0.0 && x == n as real * o.delta && time != 0
    requires n > 0 && IsSteps(o.phase, o.delta, n - 1, j)
    ensures j >= 0 && Moved(o, time) == x - (j * TURN) as real >= 0.0
  {
    assert x == (n - 1) as real * o.delta + o.delta;
  }

  lemma {:induction false} SameWave(w: Wave, moved: real, j: nat, x: real) returns (wave: int)
    requires moved == x - (j * TURN) as real >= 0.0
    ensures wave == Generate(w, Eg.Truncate(moved)) && wave == Generate(w, x.Floor)
  {
    WholeTurns(w, x, j);
    wave := Generate(w, x.Floor);
  }

  /** The phase of the last sample of `times`: `x` but for whole turns. */
  lemma {:induction false} MovedTo(b: Bank, id: nat, times: seq<int>, o: Operator, x: real) returns (j: nat)
    requires AllWired(b) && Alone(b, id) && b[id].delta >= 0.0 && Running(times)
    requires x == (|times| - 1) as real * b[id].delta
    requires o == After(b, Op(id, Nil, Nil), times[..|times| - 1])[id] && o.delta == b[id].delta
    ensures Moved(o, times[|times| - 1]) == x - (j * TURN) as real >= 0.0
  {
    var n := |times| - 1;
    j := 0;
    if n > 0 {
      var k := PhaseIsSteps(b, Op(id, Nil, Nil), times[..n], id);
      PhaseBefore(o, times[n], n, k, x);
      j := k;
    }
  }

  /**
   An operator by itself plays its wave: `n` samples after time zero the output is the wave at
   `n` times the phase step, scaled by the envelope after `n` samples.
   */
  lemma {:induction false} ToneIsWave(b: Bank, id: nat, times: seq<int>, x: real) returns (out: int, wave: int)
    requires AllWired(b) && Alone(b, id) && b[id].delta >= 0.0 && Running(times)
    requires x == (|times| - 1) as real * b[id].delta
    ensures out == After(b, Op(id, Nil, Nil), times)[id].sigval && wave == Generate(b[id].wave, x.Floor)
    ensures out == Share(Eg.Operate(Eg.OperateTimes(b[id].eg, |times| - 1)).val, wave)
  {
    var o, r := LastOutput(b, id, times);
    var j := MovedTo(b, id, times, o, x);
    wave := SameWave(b[id].wave, Moved(o, times[|times| - 1]), j, x);
    out := r.sigval;
  }

  lemma {:induction false} LastOutput(b: Bank, id: nat, times: seq<int>) returns (o: Operator, r: Operator)
    requires AllWired(b) && Alone(b, id) && times != []
    ensures
      var (t, n) := (Op(id, Nil, Nil), |times| - 1);
      && o == After(b, t, times[..n])[id] && r == After(b, t, times)[id] && KeptAfter(b[id], o, n)
      && r.sigval == Share(Eg.Operate(Eg.OperateTimes(b[id].eg, n)).val,
                           Generate(o.wave, Eg.Truncate(Moved(o, times[n]))))
  {
    var (t, n) := (Op(id, Nil, Nil), |times| - 1);
    o, r := LastSample(b, t, times, id);
    StaysAlone(b, id, times[..n]);
    OutputAlone(After(b, t, times[..n]), id, times[n]);
  }

  /** At the full level of the envelope that is the wave itself, and at level zero silence. */
  lemma {:induction false} FullShare(wave: int)
    ensures Share(Eg.MAX_EGLEVEL, wave) == wave && Share(-Eg.MAX_EGLEVEL, wave) == -wave && Share(0, wave) == 0
  {
    if wave >= 0 {
      assert Eg.MAX_EGLEVEL * wave / Eg.MAX_EGLEVEL == wave;
    } else {
      assert Eg.MAX_EGLEVEL * -wave / Eg.MAX_EGLEVEL == -wave;
    }
  }

  /** The phase step of a frequency; `rate` is that of the operator to the sound. */
  function StepOf(fs: int, freq: real, rate: real): real {
    if fs != 0 then (2 * PI) as real * freq * rate / fs as real else 0.0
  }

  /** In one second an operator makes as many turns as its frequency says. */
  lemma {:induction false} TurnsInSecond(fs: int, freq: real, rate: real)
    requires fs > 0
    ensures fs as real * StepOf(fs, freq, rate) == TURN as real * (freq * rate)
  {
    var x := (2 * PI) as real * freq * rate;
    assert fs as real * (x / fs as real) == x;
  }

  // -------------------------------------------------------------- feedback and cascades

  /** The feedback is the part of the output it is taken from that the rate says, all of it at the full rate. */
  lemma {:induction false} FeedbackIsPart(b: Bank, id: nat)
    requires AllWired(b) && id < |b| && b[id].source.Some?
    ensures
      var (o, r, out) := (b[id], Fed(b, id), b[b[id].source.value].sigval);
      && Eg.IsRounded(r.feedback, out * o.rate, Eg.MAX_EGLEVEL)
      && (o.rate == Eg.MAX_EGLEVEL ==> r.feedback == out)
      && r == o.(feedback := r.feedback)
  {
    var (o, out) := (b[id], b[b[id].source.value].sigval);
    Eg.QuotientIsRounded(out * o.rate, Eg.MAX_EGLEVEL);
    FullShare(out);
  }

  /** What is cascaded on an operator acts as so much more feedback. */
  lemma {:induction false} CascadeIsFeedback(b: Bank, t: Ops, time: int)
    requires AllWired(b) && Fits(t, |b|) && Distinct(t) && t.Op?
    ensures
      var o := b[t.id];
      var c := b[t.id := o.(feedback := o.feedback + Sum(b, t.cascade, time))];
      Output(b, t, time) == Output(c, Op(t.id, Nil, t.parallel), time)
  {}

  /** Feedback shifts the phase by as many units. */
  lemma {:induction false} FeedbackIsPhase(b: Bank, id: nat, parallel: Ops, time: int)
    requires AllWired(b) && id < |b| && Fits(parallel, |b|) && time != 0
    requires b[id].phase + b[id].delta >= 0.0 && b[id].phase + b[id].delta + b[id].feedback as real >= 0.0
    ensures
      var o := b[id];
      var c := b[id := o.(feedback := 0, phase := o.phase + o.feedback as real)];
      Output(b, Op(id, Nil, parallel), time) == Output(c, Op(id, Nil, parallel), time)
  {
    var o := b[id];
    var x := o.phase + o.delta;
    assert (x + o.feedback as real).Floor == x.Floor + o.feedback;
    assert o.phase + o.feedback as real + o.delta == x + o.feedback as real;
  }

  /**
   An operator that is fed back to itself at the full rate adds the output of the sample before
   to its phase.
   */
  lemma {:induction false} SelfFeedback(b: Bank, id: nat, time: int)
    returns (r: Operator)
    requires AllWired(b) && id < |b| && b[id].source == Some(id) && b[id].rate == Eg.MAX_EGLEVEL
    ensures r == Happen(b, Sample(Op(id, Nil, Nil), time))[id] && r.feedback == b[id].sigval
    ensures r.sigval == Share(Eg.Operate(b[id].eg).val,
                              Generate(b[id].wave, Eg.Truncate(Moved(b[id], time)) + b[id].sigval))
  {
    r := OutputOf(b, id, time);
    FeedbackIsPart(b, id);
  }
}
