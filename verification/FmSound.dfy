/**
 What is heard of an envelope: from its levels and times to every sample of the sound.
 */
module FmSound {
  import opened Basics
  import opened FmEnvelope

  /** How many samples a level takes to be reached. */
  function Lasts(fs: int, l: Level): nat {
    if fs > 0 && l.ms > 0 then fs * l.ms / 1000 else 0
  }

  /** `n` samples on the straight line between two values, rounded towards the first. */
  function Line(from: int, to: int, n: nat): seq<int> {
    seq(n, c requires 0 <= c < n => from + Quotient((to - from) * c, n))
  }

  function Glide(fs: int, from: Level, to: Level): seq<int> {
    Line(Scaled(from), Scaled(to), Lasts(fs, to))
  }

  /** After the attack: each level that takes any time begins with the level before it. */
  function Later(fs: int, from: Level, ls: seq<Level>): seq<int>
    decreases |ls|
  {
    if ls == [] then []
    else (if Lasts(fs, ls[0]) == 0 then [] else [Scaled(from)] + Glide(fs, from, ls[0])) + Later(fs, ls[0], ls[1..])
  }

  function Order(l: Levels): (ls: seq<Level>)
    ensures |ls| == 5
  {
    [l.attack, l.decaybrk, l.decay, l.sustain, l.release]
  }

  /** The whole sound, up to the moment when it is released. */
  function Shape(fs: int, l: Levels): seq<int> {
    Glide(fs, l.release, l.attack) + Later(fs, l.attack, Order(l)[1..])
  }

  /** Sample number `n` of the sound. */
  function SampleAt(fs: int, l: Levels, n: nat): int {
    if n < |Shape(fs, l)| then Shape(fs, l)[n] else Scaled(l.release)
  }

  /** A level is scaled to the maximum and rounded towards zero. */
  lemma {:induction false} ScaledIs(l: Level)
    ensures l.level >= 0.0 ==> Scaled(l) as real <= l.level * MAX_EGLEVEL as real < (Scaled(l) + 1) as real
    ensures Scaled(l.(level := -l.level)) == -Scaled(l)
    ensures l.level == 1.0 ==> Scaled(l) == MAX_EGLEVEL
  {
    assert -l.level * MAX_EGLEVEL as real == -(l.level * MAX_EGLEVEL as real);
  }

  // ------------------------------------------------------------------------ the parameters

  /** The level before number `k`. */
  function Before(l: Levels, k: nat): Level requires k <= 5 { if k == 0 then l.release else Order(l)[k - 1] }

  lemma {:induction false} TimeOf(fs: int, l: Level)
    requires fs > 0 && Quotient(fs * l.ms, 1000) >= 0
    ensures Quotient(fs * l.ms, 1000) == Lasts(fs, l)
  {
    if l.ms >= 0 {
      MulMono(0, l.ms, fs);
    } else {
      MulMono(1, -l.ms, fs);
      assert fs * l.ms == -(fs * -l.ms);
      assert l.ms * fs < 0;
    }
  }

  lemma {:induction false} ParamOf(fs: int, l: Levels, e: Envelope, k: nat)
    requires IsSet(fs, l, e) && k < 5
    ensures
      var (from, to) := (Before(l, k), Order(l)[k]);
      e.params[k] == Param(Scaled(from), Lasts(fs, to), Scaled(to) - Scaled(from))
  {
    assert e.params[k] == MakeParams(fs, l)[k] == MakeParam(fs, Order(l)[k], Before(l, k));
    assert Accepts(MakeParams(fs, l)[k]);
    TimeOf(fs, Order(l)[k]);
  }

  // --------------------------------------------------------------------------- the samples

  /** What is still to be heard in state `k` after `c` of its samples. */
  function Ahead(fs: int, l: Levels, k: nat, c: nat): seq<int>
    requires k < 5 && c <= Lasts(fs, Order(l)[k])
  {
    Glide(fs, Before(l, k), Order(l)[k])[c..] + Later(fs, Order(l)[k], Order(l)[k + 1..])
  }

  lemma {:induction false} LaterSkips(fs: int, l: Levels, k: nat, s: nat)
    requires k <= s <= 5 && forall j :: k <= j < s ==> Lasts(fs, Order(l)[j]) == 0
    ensures Later(fs, Before(l, k), Order(l)[k..]) == Later(fs, Before(l, s), Order(l)[s..])
    decreases s - k
  {
    if k < s {
      assert Order(l)[k..][0] == Order(l)[k] && Order(l)[k..][1..] == Order(l)[k + 1..];
      LaterSkips(fs, l, k + 1, s);
    }
  }

  lemma {:induction false} LaterBegins(fs: int, l: Levels, s: nat)
    requires s < 5 && Lasts(fs, Order(l)[s]) > 0
    ensures Later(fs, Before(l, s), Order(l)[s..]) == [Scaled(Before(l, s))] + Ahead(fs, l, s, 0)
  {
    assert Order(l)[s..][0] == Order(l)[s] && Order(l)[s..][1..] == Order(l)[s + 1..];
    var g := Glide(fs, Before(l, s), Order(l)[s]);
    assert g[0..] == g;
  }

  /** The envelope has still to play `ahead`, and then its last level for ever. */
  ghost predicate Plays(fs: int, l: Levels, e: Envelope, ahead: seq<int>) {
    && IsSet(fs, l, e)
    && if e.state == RELEASED then ahead == []
       else e.counter <= Lasts(fs, Order(l)[e.state]) && ahead == Ahead(fs, l, e.state, e.counter)
  }

  lemma {:induction false} WithinState(fs: int, l: Levels, e: Envelope)
    requires IsSet(fs, l, e) && e.state < RELEASED && e.counter < Lasts(fs, Order(l)[e.state])
    ensures
      var (ahead, r) := (Ahead(fs, l, e.state, e.counter), Operate(e));
      ahead != [] && r.val == ahead[0] && Plays(fs, l, r.e, ahead[1..])
  {
    var (k, c) := (e.state, e.counter);
    ParamOf(fs, l, e, k);
    var g := Glide(fs, Before(l, k), Order(l)[k]);
    assert g[c..][1..] == g[c + 1..];
    assert Ahead(fs, l, k, c)[1..] == Ahead(fs, l, k, c + 1);
  }

  lemma {:induction false} NextOf(fs: int, l: Levels, e: Envelope)
    requires IsSet(fs, l, e) && e.state < RELEASED
    ensures
      var s := NextState(e.params, e.state);
      && (s < RELEASED ==> Lasts(fs, Order(l)[s]) > 0)
      && (forall k :: e.state < k < s ==> Lasts(fs, Order(l)[k]) == 0)
      && e.params[s].initval == Scaled(Before(l, s))
  {
    var s := NextState(e.params, e.state);
    forall k | e.state < k < 5 ensures e.params[k].period == Lasts(fs, Order(l)[k]) { ParamOf(fs, l, e, k); }
    if s < 5 { ParamOf(fs, l, e, s); }
  }

  /** At the end of a state what is still to be heard is that of the next state that lasts. */
  lemma {:induction false} AheadEnds(fs: int, l: Levels, k: nat, s: nat)
    requires k < s <= 5 && (s < 5 ==> Lasts(fs, Order(l)[s]) > 0)
    requires forall j :: k < j < s ==> Lasts(fs, Order(l)[j]) == 0
    ensures Ahead(fs, l, k, Lasts(fs, Order(l)[k]))
         == if s < 5 then [Scaled(Before(l, s))] + Ahead(fs, l, s, 0) else []
  {
    assert Ahead(fs, l, k, Lasts(fs, Order(l)[k])) == Later(fs, Before(l, k + 1), Order(l)[k + 1..]);
    LaterSkips(fs, l, k + 1, s);
    if s < 5 {
      LaterBegins(fs, l, s);
    } else {
      assert Order(l)[5..] == [];
    }
  }

  /** The sample at the end of a state. */
  lemma {:induction false} StateEnds(fs: int, l: Levels, e: Envelope, s: nat, r: Sampled)
    requires IsSet(fs, l, e) && e.state < RELEASED && e.counter == Lasts(fs, Order(l)[e.state])
    requires s == NextState(e.params, e.state) && r == Operate(e)
    ensures r.val == Scaled(Before(l, s)) && r.e == e.(state := s, counter := 0)
  {
    ParamOf(fs, l, e, e.state);
    NextOf(fs, l, e);
  }

  lemma {:induction false} EndOfState(fs: int, l: Levels, e: Envelope)
    requires IsSet(fs, l, e) && e.state < RELEASED && e.counter == Lasts(fs, Order(l)[e.state])
    ensures
      var (ahead, r) := (Ahead(fs, l, e.state, e.counter), Operate(e));
      if ahead == [] then r.val == Scaled(l.release) && r.e.state == RELEASED && Plays(fs, l, r.e, [])
      else r.val == ahead[0] && Plays(fs, l, r.e, ahead[1..])
  {
    var s := NextState(e.params, e.state);
    NextOf(fs, l, e);
    StateEnds(fs, l, e, s, Operate(e));
    AheadEnds(fs, l, e.state, s);
    if s < 5 { assert ([Scaled(Before(l, s))] + Ahead(fs, l, s, 0))[1..] == Ahead(fs, l, s, 0); }
  }

  lemma {:induction false} OneSample(fs: int, l: Levels, e: Envelope, ahead: seq<int>)
    requires Plays(fs, l, e, ahead)
    ensures
      var r := Operate(e);
      if ahead == [] then r.val == Scaled(l.release) && Plays(fs, l, r.e, []) && r.e.state == RELEASED
      else r.val == ahead[0] && Plays(fs, l, r.e, ahead[1..])
  {
    if e.state < RELEASED {
      if e.counter < Lasts(fs, Order(l)[e.state]) {
        WithinState(fs, l, e);
      } else {
        EndOfState(fs, l, e);
      }
    }
  }

  /** The envelope after a sample, and what it has still to play. */
  lemma {:induction false} Advances(fs: int, l: Levels, e: Envelope, ahead: seq<int>)
    returns (f: Envelope, rest: seq<int>)
    requires Plays(fs, l, e, ahead)
    ensures Ok(e) && f == Operate(e).e && Plays(fs, l, f, rest)
    ensures rest == if ahead == [] then [] else ahead[1..]
    ensures Operate(e).val == if ahead == [] then Scaled(l.release) else ahead[0]
    ensures ahead == [] ==> f.state == RELEASED
  {
    OneSample(fs, l, e, ahead);
    f, rest := Operate(e).e, if ahead == [] then [] else ahead[1..];
  }

  lemma {:induction false} AllSamples(fs: int, l: Levels, e: Envelope, ahead: seq<int>, n: nat)
    requires Plays(fs, l, e, ahead)
    ensures Operate(OperateTimes(e, n)).val == if n < |ahead| then ahead[n] else Scaled(l.release)
    decreases n
  {
    var f, rest := Advances(fs, l, e, ahead);
    if n > 0 { AllSamples(fs, l, f, rest, n - 1); }
  }

  /** The envelope is not released before all was heard. */
  lemma {:induction false} StillSounds(fs: int, l: Levels, e: Envelope, ahead: seq<int>)
    requires Plays(fs, l, e, ahead) && e.state < RELEASED && ahead != []
    ensures Operate(e).e.state < RELEASED
  {
    if e.counter < Lasts(fs, Order(l)[e.state]) {
      ParamOf(fs, l, e, e.state);
    } else {
      NextOf(fs, l, e);
      LaterSkips(fs, l, e.state + 1, NextState(e.params, e.state));
      assert Order(l)[5..] == [];
    }
  }

  /** A sample of an envelope that is not released; the next one releases it if nothing is left. */
  lemma {:induction false} SoundsOn(fs: int, l: Levels, e: Envelope, ahead: seq<int>)
    returns (f: Envelope, rest: seq<int>)
    requires Plays(fs, l, e, ahead) && e.state < RELEASED
    ensures Ok(e) && f == Operate(e).e && Plays(fs, l, f, rest)
    ensures ahead == [] ==> f.state == RELEASED
    ensures ahead != [] ==> f.state < RELEASED && |rest| == |ahead| - 1
  {
    f, rest := Advances(fs, l, e, ahead);
    if ahead != [] { StillSounds(fs, l, e, ahead); }
  }

  lemma {:induction false} ReleasedWhen(fs: int, l: Levels, e: Envelope, ahead: seq<int>, n: nat)
    requires Plays(fs, l, e, ahead) && e.state < RELEASED
    ensures OperateTimes(e, n).state == RELEASED <==> n > |ahead|
    decreases n
  {
    if n > 0 {
      var f, rest := SoundsOn(fs, l, e, ahead);
      if ahead == [] {
        StaysReleased(f, n - 1);
      } else {
        ReleasedWhen(fs, l, f, rest, n - 1);
      }
    }
  }

  /**
   Every sample of the sound that the levels describe, for every sampling rate: after the start
   the envelope glides from the release level to the attack level, then from level to level in
   the times given, and stays at the release level; it is released exactly when all was heard.
   */
  lemma {:induction false} SoundIsShape(fs: int, l: Levels, e: Envelope, n: nat)
    requires IsSet(fs, l, e)
    ensures Operate(OperateTimes(Start(e), n)).val == SampleAt(fs, l, n)
    ensures OperateTimes(Start(e), n).state == RELEASED <==> n > |Shape(fs, l)|
  {
    var s := Start(e);
    var g := Glide(fs, l.release, l.attack);
    assert g[0..] == g;
    assert Plays(fs, l, s, Shape(fs, l));
    AllSamples(fs, l, s, Shape(fs, l), n);
    ReleasedWhen(fs, l, s, Shape(fs, l), n);
  }

  function LaterTime(fs: int, ls: seq<Level>): nat {
    if ls == [] then 0
    else (if Lasts(fs, ls[0]) == 0 then 0 else Lasts(fs, ls[0]) + 1) + LaterTime(fs, ls[1..])
  }

  lemma {:induction false} LaterLasts(fs: int, from: Level, ls: seq<Level>)
    ensures |Later(fs, from, ls)| == LaterTime(fs, ls)
    decreases |ls|
  {
    if ls != [] { LaterLasts(fs, ls[0], ls[1..]); }
  }

  /** How long the sound is: the time of the attack, and a sample more for each later level that takes any. */
  lemma {:induction false} ShapeLasts(fs: int, l: Levels)
    ensures |Shape(fs, l)| == Lasts(fs, l.attack) + LaterTime(fs, Order(l)[1..])
  {
    LaterLasts(fs, l.attack, Order(l)[1..]);
  }
}
