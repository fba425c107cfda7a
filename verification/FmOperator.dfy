/**
 The operators of the FM synthesizer.  An operator adds to its phase the
 outputs of the operators cascaded on it and a feedback of an earlier output,
 and scales the wave at that phase by its envelope.
 */
module FmOperator {
  import opened Basics
  import Eg = FmEnvelope
  import opened FmWave

  /** `feedback` is computed from the last output of operator `source`; floats are reals. */
  datatype Operator = Operator(
    wave: Wave, eg: Eg.Envelope, phase: real, delta: real,
    source: Option<nat>, rate: int, feedback: int, sigval: int)

  /** All operators, by number. */
  type Bank = seq<Operator>

  /** How operators hang together: the first one cascaded on each, and the next one in parallel. */
  datatype Ops = Nil | Op(id: nat, cascade: Ops, parallel: Ops)

  predicate Wired(o: Operator, n: nat) {
    Eg.Ok(o.eg) && (o.source.Some? ==> o.source.value < n)
  }

  predicate AllWired(b: Bank) {
    forall i :: 0 <= i < |b| ==> Wired(b[i], |b|)
  }

  ghost function Ids(t: Ops): set<nat> {
    if t.Nil? then {} else {t.id} + Ids(t.cascade) + Ids(t.parallel)
  }

  ghost predicate Fits(t: Ops, n: nat) {
    t.Op? ==> t.id < n && Fits(t.cascade, n) && Fits(t.parallel, n)
  }

  // ------------------------------------------------------------------------- feedback

  /** The feedback value an operator gets from the last outputs. */
  function Fed(b: Bank, id: nat): Operator
    requires AllWired(b) && id < |b|
  {
    var o := b[id];
    if o.source.None? then o
    else o.(feedback := Quotient(b[o.source.value].sigval * o.rate, Eg.MAX_EGLEVEL))
  }

  /** fmsynthop_update_feedback */
  function FeedOne(b: Bank, t: Ops): (r: Bank)
    requires AllWired(b) && Fits(t, |b|) && t.Op?
    ensures AllWired(r) && |r| == |b|
    decreases t, 0
  {
    var c := UpdateFeedback(b, t.cascade);
    c[t.id := Fed(c, t.id)]
  }

  /** fetch_feedback: an operator and those parallel to it in turn. */
  function UpdateFeedback(b: Bank, t: Ops): (r: Bank)
    requires AllWired(b) && Fits(t, |b|)
    ensures AllWired(r) && |r| == |b|
    decreases t, 1
  {
    if t.Nil? then b else UpdateFeedback(FeedOne(b, t), t.parallel)
  }

  // ------------------------------------------------------------------------- operation

  /** The phase after one more sample, before it is folded. */
  function Moved(o: Operator, time: int): real { if time != 0 then o.phase + o.delta else 0.0 }

  /** Without its whole turns. */
  function Folded(phase: real): real {
    phase - (Quotient(Eg.Truncate(phase), 2 * PI) * (2 * PI)) as real
  }

  function Advanced(o: Operator, time: int): Operator { o.(phase := Folded(Moved(o, time))) }

  /** The phase of the wave, but for the cascaded operators. */
  function Angle(o: Operator, time: int): int { Eg.Truncate(Moved(o, time)) + o.feedback }

  function Signal(o: Operator, angle: int): int
    requires Eg.Ok(o.eg)
  {
    Quotient(Eg.Operate(o.eg).val * Generate(o.wave, angle), Eg.MAX_EGLEVEL)
  }

  function Sounded(o: Operator, angle: int): (r: Operator)
    requires Eg.Ok(o.eg)
  {
    o.(eg := Eg.Operate(o.eg).e, sigval := Signal(o, angle))
  }

  datatype Out = Out(bank: Bank, val: int)

  /** fmsynthop_operate */
  function OperateOne(b: Bank, t: Ops, time: int): (r: Out)
    requires AllWired(b) && Fits(t, |b|) && t.Op?
    ensures AllWired(r.bank) && |r.bank| == |b|
    decreases t, 0
  {
    var c := OperateAll(b[t.id := Advanced(b[t.id], time)], t.cascade, time);
    var o := Sounded(c.bank[t.id], Angle(b[t.id], time) + c.val);
    Out(c.bank[t.id := o], o.sigval)
  }

  /** An operator and those parallel to it in turn; the sum of their outputs. */
  function OperateAll(b: Bank, t: Ops, time: int): (r: Out)
    requires AllWired(b) && Fits(t, |b|)
    ensures AllWired(r.bank) && |r.bank| == |b|
    decreases t, 1
  {
    if t.Nil? then Out(b, 0)
    else
      var o := OperateOne(b, t, time);
      var p := OperateAll(o.bank, t.parallel, time);
      Out(p.bank, o.val + p.val)
  }

  // ------------------------------------------------------------------------- magnitude

  predicate InLimit(o: Operator) { -Limit(o.wave) <= o.sigval <= Limit(o.wave) }

  ghost predicate AllInLimit(b: Bank) { forall i :: 0 <= i < |b| ==> InLimit(b[i]) }

  /** A part of at most the whole of a value is no larger than the value. */
  lemma {:induction false} PartBounds(e: int, w: int, limit: nat)
    requires Eg.InRange(e) && -(limit as int) <= w <= limit
    ensures -(limit as int) <= Quotient(e * w, Eg.MAX_EGLEVEL) <= limit
  {
    var (x, y) := (if e < 0 then -e else e, if w < 0 then -w else w);
    MulMono(x, Eg.MAX_EGLEVEL, y);
    MulMono(y, limit, Eg.MAX_EGLEVEL);
    assert e * w == x * y || e * w == -(x * y);
    assert 0 <= x * y by { MulMono(0, x, y); }
    Eg.DivBound(x * y, limit, Eg.MAX_EGLEVEL);
  }

  lemma {:induction false} SoundedInLimit(o: Operator, angle: int)
    requires Eg.Ok(o.eg)
    ensures InLimit(Sounded(o, angle))
  {
    Eg.SampleInRange(o.eg);
    WaveBounds(o.wave, angle);
    PartBounds(Eg.Operate(o.eg).val, Generate(o.wave, angle), Limit(o.wave));
  }

  function Width(t: Ops): nat { if t.Nil? then 0 else 1 + Width(t.parallel) }

  lemma {:induction false} OneInLimit(b: Bank, t: Ops, time: int)
    requires AllWired(b) && Fits(t, |b|) && AllInLimit(b) && t.Op?
    ensures AllInLimit(OperateOne(b, t, time).bank)
    ensures -32768 <= OperateOne(b, t, time).val <= 32768
    decreases t, 0
  {
    var b1 := b[t.id := Advanced(b[t.id], time)];
    OperateInLimit(b1, t.cascade, time);
    var c := OperateAll(b1, t.cascade, time);
    SoundedInLimit(c.bank[t.id], Angle(b[t.id], time) + c.val);
  }

  /** Operating keeps every output in its limit, so the sum is bounded by the number of parallel operators. */
  lemma {:induction false} OperateInLimit(b: Bank, t: Ops, time: int)
    requires AllWired(b) && Fits(t, |b|) && AllInLimit(b)
    ensures AllInLimit(OperateAll(b, t, time).bank)
    ensures -32768 * Width(t) <= OperateAll(b, t, time).val <= 32768 * Width(t)
    decreases t, 1
  {
    if t.Op? {
      OneInLimit(b, t, time);
      OperateInLimit(OperateOne(b, t, time).bank, t.parallel, time);
    }
  }

  // ------------------------------------------------------- what operating computes

  /** No operator hangs in two places. */
  ghost predicate Distinct(t: Ops) {
    t.Op? ==>
      && t.id !in Ids(t.cascade) + Ids(t.parallel)
      && Ids(t.cascade) !! Ids(t.parallel)
      && Distinct(t.cascade) && Distinct(t.parallel)
  }

  /** The modulation: the outputs of the cascaded operators are added to the phase. */
  ghost function Output(b: Bank, t: Ops, time: int): int
    requires AllWired(b) && Fits(t, |b|) && t.Op?
    decreases t, 0
  {
    Signal(b[t.id], Angle(b[t.id], time) + Sum(b, t.cascade, time))
  }

  /** The sum of the outputs of an operator and those parallel to it. */
  ghost function Sum(b: Bank, t: Ops, time: int): int
    requires AllWired(b) && Fits(t, |b|)
    decreases t, 1
  {
    if t.Nil? then 0 else Output(b, t, time) + Sum(b, t.parallel, time)
  }

  /** Every operator has moved by one sample, and holds its part of the modulation. */
  ghost predicate Heard(b: Bank, c: Bank, t: Ops, time: int)
    requires AllWired(b) && Fits(t, |b|) && |b| == |c|
  {
    t.Op? ==>
      && c[t.id] == Advanced(b[t.id], time).(eg := Eg.Operate(b[t.id].eg).e, sigval := Output(b, t, time))
      && Heard(b, c, t.cascade, time)
      && Heard(b, c, t.parallel, time)
  }

  ghost predicate AgreeOn(b: Bank, c: Bank, ids: set<nat>)
    requires |b| == |c|
  {
    forall i | i in ids && i < |b| :: b[i] == c[i]
  }

  ghost predicate AgreeOff(b: Bank, c: Bank, ids: set<nat>)
    requires |b| == |c|
  {
    forall i :: 0 <= i < |b| && i !in ids ==> b[i] == c[i]
  }

  lemma {:induction false} SumDependsOn(b: Bank, c: Bank, t: Ops, time: int)
    requires |b| == |c| && AllWired(b) && AllWired(c) && Fits(t, |b|) && AgreeOn(b, c, Ids(t))
    ensures Sum(b, t, time) == Sum(c, t, time)
    ensures t.Op? ==> Output(b, t, time) == Output(c, t, time)
    decreases t
  {
    if t.Op? {
      SumDependsOn(b, c, t.cascade, time);
      SumDependsOn(b, c, t.parallel, time);
    }
  }

  lemma {:induction false} HeardDependsOn(b: Bank, c: Bank, b': Bank, c': Bank, t: Ops, time: int)
    requires |b| == |b'| == |c| == |c'| && AllWired(b) && AllWired(b') && Fits(t, |b|)
    requires AgreeOn(b, b', Ids(t)) && AgreeOn(c, c', Ids(t)) && Heard(b, c, t, time)
    ensures Heard(b', c', t, time)
    decreases t
  {
    if t.Op? {
      SumDependsOn(b, b', t, time);
      HeardDependsOn(b, c, b', c', t.cascade, time);
      HeardDependsOn(b, c, b', c', t.parallel, time);
    }
  }

  lemma {:induction false} OneIsLocal(b: Bank, t: Ops, time: int)
    requires AllWired(b) && Fits(t, |b|) && t.Op?
    ensures AgreeOff(b, OperateOne(b, t, time).bank, {t.id} + Ids(t.cascade))
    decreases t, 0
  {
    OperateIsLocal(b[t.id := Advanced(b[t.id], time)], t.cascade, time);
  }

  /** Operating changes no other operators. */
  lemma {:induction false} OperateIsLocal(b: Bank, t: Ops, time: int)
    requires AllWired(b) && Fits(t, |b|)
    ensures AgreeOff(b, OperateAll(b, t, time).bank, Ids(t))
    decreases t, 1
  {
    if t.Op? {
      OneIsLocal(b, t, time);
      OperateIsLocal(OperateOne(b, t, time).bank, t.parallel, time);
    }
  }

  lemma {:induction false} OneIsOutput(b: Bank, t: Ops, time: int)
    requires AllWired(b) && Fits(t, |b|) && Distinct(t) && t.Op?
    ensures
      var r := OperateOne(b, t, time);
      && r.val == Output(b, t, time)
      && r.bank[t.id] == Advanced(b[t.id], time).(eg := Eg.Operate(b[t.id].eg).e, sigval := r.val)
    decreases t, 0
  {
    var b1 := b[t.id := Advanced(b[t.id], time)];
    OperateIsSum(b1, t.cascade, time);
    SumDependsOn(b, b1, t.cascade, time);
    OperateIsLocal(b1, t.cascade, time);
  }

  lemma {:induction false} OneIsHeard(b: Bank, t: Ops, time: int)
    requires AllWired(b) && Fits(t, |b|) && Distinct(t) && t.Op?
    ensures Heard(b, OperateOne(b, t, time).bank, t.cascade, time)
    decreases t, 0
  {
    var b1 := b[t.id := Advanced(b[t.id], time)];
    OperateIsSum(b1, t.cascade, time);
    HeardDependsOn(b1, OperateAll(b1, t.cascade, time).bank, b, OperateOne(b, t, time).bank, t.cascade, time);
  }

  /** Operating in place computes the modulation of the operators as they were, each of them once. */
  lemma {:induction false} OperateIsSum(b: Bank, t: Ops, time: int)
    requires AllWired(b) && Fits(t, |b|) && Distinct(t)
    ensures OperateAll(b, t, time).val == Sum(b, t, time)
    ensures Heard(b, OperateAll(b, t, time).bank, t, time)
    decreases t, 1
  {
    if t.Op? {
      var c := OperateOne(b, t, time).bank;
      var d := OperateAll(c, t.parallel, time).bank;
      OneIsOutput(b, t, time);
      OneIsHeard(b, t, time);
      OneIsLocal(b, t, time);
      OperateIsSum(c, t.parallel, time);
      SumDependsOn(b, c, t.parallel, time);
      OperateIsLocal(c, t.parallel, time);
      HeardDependsOn(c, d, b, d, t.parallel, time);
      HeardDependsOn(b, c, b, d, t.cascade, time);
    }
  }

  /** Some operators have got their feedback. */
  ghost predicate PartlyFed(b: Bank, c: Bank)
    requires AllWired(b)
  {
    |b| == |c| && forall i :: 0 <= i < |b| ==> c[i] == b[i] || c[i] == Fed(b, i)
  }

  lemma {:induction false} FedOnce(b: Bank, c: Bank, i: nat)
    requires AllWired(b) && AllWired(c) && PartlyFed(b, c) && i < |b|
    ensures Fed(c, i) == Fed(b, i)
  {
    if b[i].source.Some? {
      var j := b[i].source.value;
      assert c[j] == b[j] || c[j] == Fed(b, j);
    }
  }

  lemma {:induction false} FedTwice(b: Bank, c: Bank, d: Bank)
    requires AllWired(b) && AllWired(c) && PartlyFed(b, c) && PartlyFed(c, d)
    ensures PartlyFed(b, d)
  {
    forall i | 0 <= i < |b| ensures d[i] == b[i] || d[i] == Fed(b, i) { FedOnce(b, c, i); }
  }

  lemma {:induction false} UpdatePartlyFeeds(b: Bank, t: Ops)
    requires AllWired(b) && Fits(t, |b|)
    ensures PartlyFed(b, UpdateFeedback(b, t))
    decreases t
  {
    if t.Op? {
      UpdatePartlyFeeds(b, t.cascade);
      var c := UpdateFeedback(b, t.cascade);
      FedOnce(b, c, t.id);
      var d := c[t.id := Fed(c, t.id)];
      assert d == FeedOne(b, t);
      UpdatePartlyFeeds(d, t.parallel);
      FedTwice(b, d, UpdateFeedback(d, t.parallel));
    }
  }

  /** Feedback is taken from the outputs before any of it is applied, so the order does not matter. */
  lemma {:induction false} FeedbackIsSimultaneous(b: Bank, t: Ops, i: nat)
    requires AllWired(b) && Fits(t, |b|) && i < |b|
    ensures UpdateFeedback(b, t)[i] == if i in Ids(t) then Fed(b, i) else b[i]
    decreases t
  {
    if t.Op? {
      UpdatePartlyFeeds(b, t.cascade);
      FeedbackIsSimultaneous(b, t.cascade, i);
      var c := UpdateFeedback(b, t.cascade);
      FedOnce(b, c, t.id);
      var d := c[t.id := Fed(c, t.id)];
      FeedbackIsSimultaneous(d, t.parallel, i);
      FedOnce(b, d, i);
    }
  }

  // ------------------------------------------------------------------------ whole runs

  /** What may happen to operators: a note starts, stops or is retuned, or sounds for one sample. */
  datatype Event = Start(id: nat) | Stop(id: nat) | Retune(id: nat, delta: real) | Sample(t: Ops, time: int)

  ghost predicate Possible(e: Event, n: nat) {
    match e case Sample(t, _) => Fits(t, n) case _ => e.id < n
  }

  ghost predicate AllPossible(events: seq<Event>, n: nat) {
    forall k :: 0 <= k < |events| ==> Possible(events[k], n)
  }

  ghost function Happen(b: Bank, e: Event): (r: Bank)
    requires AllWired(b) && Possible(e, |b|)
    ensures AllWired(r) && |r| == |b|
  {
    match e
    case Start(id) => b[id := b[id].(eg := Eg.Start(b[id].eg))]
    case Stop(id) => b[id := b[id].(eg := Eg.Stop(b[id].eg))]
    case Retune(id, delta) => b[id := b[id].(delta := delta)]
    case Sample(t, time) => OperateAll(UpdateFeedback(b, t), t, time).bank
  }

  ghost function Play(b: Bank, events: seq<Event>): (r: Bank)
    requires AllWired(b) && AllPossible(events, |b|)
    ensures AllWired(r) && |r| == |b|
    decreases |events|
  {
    if events == [] then b else Play(Happen(b, events[0]), events[1..])
  }

  /** The phase that is kept is always within one turn. */
  lemma {:induction false} FoldedInTurn(phase: real)
    ensures -(2 * PI) as real < Folded(phase) < (2 * PI) as real
  {
    var x := if phase >= 0.0 then phase else -phase;
    var q := x.Floor / (2 * PI);
    assert q * (2 * PI) <= x.Floor < q * (2 * PI) + 2 * PI;
    assert Quotient(Eg.Truncate(phase), 2 * PI) == if phase >= 0.0 then q else -q;
  }

  lemma {:induction false} FeedbackKeeps(b: Bank, t: Ops)
    requires AllWired(b) && Fits(t, |b|) && AllInLimit(b)
    ensures AllInLimit(UpdateFeedback(b, t))
  {
    UpdatePartlyFeeds(b, t);
  }

  /**
   Whatever notes are played on whatever trees and feedback wirings, no output leaves
   its limit: 32768 for a sawtooth and 32767 for the other waves.
   */
  lemma {:induction false} PlayInLimit(b: Bank, events: seq<Event>)
    requires AllWired(b) && AllInLimit(b) && AllPossible(events, |b|)
    ensures AllInLimit(Play(b, events))
    decreases |events|
  {
    if events != [] {
      match events[0] {
        case Sample(t, time) =>
          FeedbackKeeps(b, t);
          OperateInLimit(UpdateFeedback(b, t), t, time);
        case _ =>
      }
      PlayInLimit(Happen(b, events[0]), events[1..]);
    }
  }

  // ------------------------------------------------------------------------ in place

  class Synthesizer {
    const ops: array<Operator>

    constructor (n: nat, initial: Operator)
      requires Wired(initial, n) && InLimit(initial)
      ensures fresh(ops) && ops.Length == n && AllWired(ops[..]) && AllInLimit(ops[..])
    {
      ops := new Operator[n](_ => initial);
    }

    method FeedOperator(t: Ops)
      requires t.Op? && Fits(t, ops.Length) && AllWired(ops[..])
      modifies ops
      ensures ops[..] == FeedOne(old(ops[..]), t)
      decreases t
    {
      var sub := t.cascade;
      while sub.Op?
        invariant sub < t && Fits(sub, ops.Length) && AllWired(ops[..])
        invariant UpdateFeedback(ops[..], sub) == UpdateFeedback(old(ops[..]), t.cascade)
        decreases sub
      {
        FeedOperator(sub);
        sub := sub.parallel;
      }
      ghost var c := ops[..];
      var o := ops[t.id];
      if o.source.Some? {
        ops[t.id] := o.(feedback := Quotient(ops[o.source.value].sigval * o.rate, Eg.MAX_EGLEVEL));
      }
      assert ops[..] == c[t.id := Fed(c, t.id)];
    }

    method OperateOperator(t: Ops, time: int) returns (val: int)
      requires t.Op? && Fits(t, ops.Length) && AllWired(ops[..])
      modifies ops
      ensures Out(ops[..], val) == OperateOne(old(ops[..]), t, time)
      decreases t
    {
      ghost var b := ops[..];
      var o := ops[t.id];
      var phase := Angle(o, time);
      ops[t.id] := Advanced(o, time);
      ghost var b1 := b[t.id := Advanced(b[t.id], time)];
      assert ops[..] == b1;
      ghost var c := OperateAll(b1, t.cascade, time);
      var sub := t.cascade;
      while sub.Op?
        invariant sub < t && Fits(sub, ops.Length) && AllWired(ops[..])
        invariant OperateAll(ops[..], sub, time).bank == c.bank
        invariant phase + OperateAll(ops[..], sub, time).val == Angle(b[t.id], time) + c.val
        decreases sub
      {
        var out := OperateOperator(sub, time);
        phase := phase + out;
        sub := sub.parallel;
      }
      assert ops[..] == c.bank;
      var e := Eg.Operate(ops[t.id].eg);
      val := Quotient(e.val * Generate(ops[t.id].wave, phase), Eg.MAX_EGLEVEL);
      ops[t.id] := ops[t.id].(eg := e.e, sigval := val);
      assert ops[..] == c.bank[t.id := Sounded(c.bank[t.id], phase)];
    }

    /** sound_modulate, before the volume is applied. */
    method Modulate(t: Ops, time: int) returns (out: int)
      requires Fits(t, ops.Length) && AllWired(ops[..])
      modifies ops
      ensures Out(ops[..], out) == OperateAll(UpdateFeedback(old(ops[..]), t), t, time)
    {
      var op := t;
      while op.Op?
        invariant Fits(op, ops.Length) && AllWired(ops[..])
        invariant UpdateFeedback(ops[..], op) == UpdateFeedback(old(ops[..]), t)
        decreases op
      {
        FeedOperator(op);
        op := op.parallel;
      }
      ghost var b := ops[..];
      op := t;
      out := 0;
      while op.Op?
        invariant Fits(op, ops.Length) && AllWired(ops[..])
        invariant OperateAll(ops[..], op, time).bank == OperateAll(b, t, time).bank
        invariant out + OperateAll(ops[..], op, time).val == OperateAll(b, t, time).val
        decreases op
      {
        var val := OperateOperator(op, time);
        out := out + val;
        op := op.parallel;
      }
    }
  }
}
