/**
 The two passes over a tuplet agree, and its notes share its length exactly.
 */
module MmlTuplets {
  import opened Basics
  import opened MmlLength
  import opened MmlParser

  /** A character that the counting pass passes over. */
  predicate IsNeutral(c: char) { !IsNoteLetter(c) && c != 'R' && c != '[' && c != '}' }

  lemma {:induction false} CountPastSpace(text: string, pos: nat)
    requires pos <= |text|
    ensures Count(text, pos) == Count(text, SkipSpace(text, pos))
  {}

  lemma {:induction false} CountPastOne(text: string, pos: nat)
    requires pos < |text| && IsNeutral(text[pos])
    ensures Count(text, pos) == Count(text, pos + 1)
  {
    if IsSpace(text[pos]) {
      CountPastSpace(text, pos);
      CountPastSpace(text, pos + 1);
    } else {
      assert SkipSpace(text, pos) == pos;
    }
  }

  /** Neutral characters do not change the count. */
  lemma {:induction false} CountPast(text: string, pos: nat, end: nat)
    requires pos <= end <= |text| && forall k :: pos <= k < end ==> IsNeutral(text[k])
    ensures Count(text, pos) == Count(text, end)
    decreases end - pos
  {
    if pos < end {
      CountPastOne(text, pos);
      CountPast(text, pos + 1, end);
    }
  }

  predicate IsTimed(kind: Kind) { kind == Note || kind == Rest || kind == Chord }

  /** The state of a tuplet agrees with what is left of its text. */
  ghost predicate InStep(m: Mml, text: string, pos: nat) {
    && pos <= |text| && m.inTuplet && Ok(m)
    && Closed(Count(text, pos), text)
    && m.cur + Count(text, pos).notes == m.notes
  }

  ghost predicate AtEnd(text: string, pos: nat)
    requires pos <= |text|
  {
    Ch(text, SkipSpace(text, pos)) == '}'
  }

  /** What a call that is not the end of the tuplet does: the two passes stay in step. */
  ghost predicate Advances(m: Mml, text: string, r: Parsed) {
    && InStep(r.m, text, r.pos)
    && r.m.notes == m.notes && r.m.length == m.length
    && r.m.cur == (if IsTimed(r.kind) then m.cur + 1 else m.cur)
    && (IsTimed(r.kind) ==> m.cur < m.notes && r.length == Share(m))
    && r.kind != Eof && r.kind != TooManyNotes && r.kind != TooFewNotes && r.kind != TupletDone
  }

  /** The code at `p` is a note or a rest: its place in the count, and what is parsed. */
  lemma {:induction false} NoteCounts(text: string, p: nat)
    requires p < |text| && (IsNoteLetter(text[p]) || text[p] == 'R')
    ensures CountItems(text, p) == AddNotes(1, Count(text, p + 1))
  {}

  lemma {:induction false} NoteParse(m: Mml, text: string, p: nat) returns (end: nat, kind: Kind)
    requires p < |text| && (IsNoteLetter(text[p]) || text[p] == 'R') && Ok(m) && m.inTuplet && m.cur < m.notes
    ensures p < end <= |text| && IsTimed(kind) && forall k :: p < k < end ==> IsNeutral(text[k])
    ensures ParseCode(m, text, p) == Timed(m, end, kind)
  {
    kind := if text[p] == 'R' then Rest else Note;
    end := if text[p] == 'R' then p + 1 else AccidentalsEnd(text, p + 1);
  }

  lemma {:induction false} TimedAdvances(m: Mml, m': Mml, text: string, pos: nat, end: nat, kind: Kind)
    requires InStep(m, text, pos) && m' == m.(octave := m'.octave) && IsTimed(kind)
    requires end <= |text| && Count(text, pos) == AddNotes(1, Count(text, end))
    ensures Advances(m, text, Timed(m', end, kind))
  {}

  lemma {:induction false} NoteInStep(m: Mml, text: string, pos: nat)
    requires InStep(m, text, pos)
    requires
      var c := Ch(text, SkipSpace(text, pos));
      IsNoteLetter(c) || c == 'R'
    ensures Advances(m, text, Parse(m, text, pos))
  {
    var p := SkipSpace(text, pos);
    NoteCounts(text, p);
    var end, kind := NoteParse(m, text, p);
    CountPast(text, p + 1, end);
    TimedAdvances(m, m, text, pos, end, kind);
  }

  lemma {:induction false} UntilIs(text: string, pos: nat, end: nat)
    requires pos <= end < |text| && text[end] == ']'
    requires forall k :: pos <= k < end ==> text[k] != ']'
    ensures SkipUntil(text, pos, ']') == end
  {}

  lemma {:induction false} ChordCountsTo(text: string, p: nat, e: nat)
    requires p < e < |text| && text[p] == '[' && text[e] == ']'
    requires forall k :: p < k < e ==> text[k] != ']'
    ensures CountItems(text, p) == AddNotes(1, Count(text, e + 1))
  {
    UntilIs(text, p, e);
  }

  /** The counting pass and the parsing pass find the same end of a chord. */
  lemma {:induction false} ChordCounts(m: Mml, text: string, p: nat, end: nat)
    requires p < |text| && text[p] == '[' && ParsePitches(m, text, p + 1).kind == Chord
    requires end == ParsePitches(m, text, p + 1).pos
    ensures CountItems(text, p) == AddNotes(1, Count(text, end))
  {
    PitchesEnd(m, text, p + 1);
    ChordCountsTo(text, p, end - 1);
  }

  /** What a chord in a tuplet parses to. */
  ghost predicate ChordResult(m: Mml, c: Parsed, r: Parsed)
    requires m.notes > 0 && c.m == m.(octave := c.m.octave) && c.m.inTuplet
  {
    && Share(c.m) == Share(m)
    && r.kind == (if c.kind == Chord && Share(m) >= 0 then Chord else ChordError)
    && (r.kind == Chord ==> r == Timed(c.m, c.pos, Chord))
  }

  lemma {:induction false} ChordOf(m: Mml, text: string, pos: nat)
    requires pos <= |text| && Ok(m) && m.inTuplet
    ensures ChordResult(m, ParsePitches(m, text, pos), ParseChord(m, text, pos))
  {}

  lemma {:induction false} ChordParse(m: Mml, text: string, pos: nat)
    requires pos <= |text| && Ok(m) && m.inTuplet && Ch(text, SkipSpace(text, pos)) == '['
    ensures ChordResult(m, ParsePitches(m, text, SkipSpace(text, pos) + 1), Parse(m, text, pos))
  {
    var p := SkipSpace(text, pos);
    ChordOf(m, text, p + 1);
    assert ParseCode(m, text, p) == ParseChord(m, text, p + 1);
  }

  lemma {:induction false} ChordInStep(m: Mml, text: string, pos: nat, c: Parsed)
    requires InStep(m, text, pos) && Ch(text, SkipSpace(text, pos)) == '['
    requires c == ParsePitches(m, text, SkipSpace(text, pos) + 1) && c.kind == Chord
    ensures Advances(m, text, Timed(c.m, c.pos, Chord))
  {
    ChordCounts(m, text, SkipSpace(text, pos), c.pos);
    TimedAdvances(m, c.m, text, pos, c.pos, Chord);
  }

  /** A call that consumed neutral characters from `p` on and left the tuplet as it was. */
  ghost predicate Passed(m: Mml, text: string, p: nat, r: Parsed) {
    && p < r.pos <= |text| && (forall k :: p <= k < r.pos ==> IsNeutral(text[k]))
    && r.m.inTuplet && r.m.notes == m.notes && r.m.length == m.length && r.m.cur == m.cur
    && !IsTimed(r.kind) && r.kind !in {Eof, TooManyNotes, TooFewNotes, TupletDone, ChordError}
  }

  /** A command that is no note, rest, chord or end consumes neutral characters. */
  lemma {:induction false} OtherCode(m: Mml, text: string, p: nat)
    requires p < |text| && Ok(m) && m.inTuplet && IsNeutral(text[p])
    ensures Passed(m, text, p, ParseCode(m, text, p))
  {}

  lemma {:induction false} OtherParse(m: Mml, text: string, pos: nat)
    requires pos <= |text| && Ok(m) && m.inTuplet
    requires SkipSpace(text, pos) < |text| && IsNeutral(Ch(text, SkipSpace(text, pos)))
    ensures Passed(m, text, SkipSpace(text, pos), Parse(m, text, pos))
  {
    OtherCode(m, text, SkipSpace(text, pos));
  }

  lemma {:induction false} OtherInStep(m: Mml, text: string, pos: nat)
    requires InStep(m, text, pos)
    requires IsNeutral(Ch(text, SkipSpace(text, pos)))
    ensures Advances(m, text, Parse(m, text, pos))
  {
    OtherParse(m, text, pos);
    CountPastSpace(text, pos);
    CountPast(text, SkipSpace(text, pos), Parse(m, text, pos).pos);
  }

  lemma {:induction false} ChordAdvances(m: Mml, text: string, pos: nat)
    requires InStep(m, text, pos) && Ch(text, SkipSpace(text, pos)) == '[' && Parse(m, text, pos).kind != ChordError
    ensures Advances(m, text, Parse(m, text, pos))
  {
    ChordParse(m, text, pos);
    ChordInStep(m, text, pos, ParsePitches(m, text, SkipSpace(text, pos) + 1));
  }

  /** A call in a tuplet keeps the two passes in step, unless a chord is malformed. */
  lemma {:induction false} StaysInStep(m: Mml, text: string, pos: nat)
    requires InStep(m, text, pos) && !AtEnd(text, pos) && Parse(m, text, pos).kind != ChordError
    ensures Advances(m, text, Parse(m, text, pos))
  {
    var c := Ch(text, SkipSpace(text, pos));
    if IsNoteLetter(c) || c == 'R' {
      NoteInStep(m, text, pos);
    } else if c == '[' {
      ChordAdvances(m, text, pos);
    } else {
      OtherInStep(m, text, pos);
    }
  }

  // ----------------------------------------------------------------- text that plays

  /** What stands behind a `[` is a chord.  The state of the parser does not matter. */
  predicate ReadsAsChord(text: string, pos: nat)
    requires pos <= |text|
  {
    ParsePitches(Mml(0, 0, 0, 0, false, 0, 0, 0), text, pos).kind == Chord
  }

  lemma {:induction false} PitchIgnoresState(m: Mml, n: Mml, text: string, pos: nat)
    requires pos <= |text|
    ensures
      var (r, s) := (ParsePitch(m, text, pos), ParsePitch(n, text, pos));
      r.over == s.over && r.at.kind == s.at.kind && r.at.pos == s.at.pos
  {}

  lemma {:induction false} PitchesIgnoreState(m: Mml, n: Mml, text: string, pos: nat)
    requires pos <= |text|
    ensures ParsePitches(m, text, pos).kind == ParsePitches(n, text, pos).kind
    decreases |text| - pos
  {
    PitchIgnoresState(m, n, text, pos);
    var (r, s) := (ParsePitch(m, text, pos), ParsePitch(n, text, pos));
    if !r.over { PitchesIgnoreState(r.at.m, s.at.m, text, r.at.pos); }
  }

  /**
   The items that the counting pass meets from `p` to the `}` can be played: every `[`
   starts a chord, whose share of the length is not negative.  `cur` notes come before.
   */
  predicate PlayableItems(text: string, p: nat, length: int, notes: nat, cur: nat)
    requires p <= |text| && notes > 0
    decreases |text| - p, 0
  {
    if Ch(text, p) == '}' then true
    else
      var q := ItemEnd(text, p);
      && q < |text|
      && (text[p] == '[' ==> ReadsAsChord(text, p + 1) && ShareAt(length, notes, cur) >= 0)
      && Playable(text, q + 1, length, notes, cur + ItemNotes(text[p]))
  }

  predicate Playable(text: string, pos: nat, length: int, notes: nat, cur: nat)
    requires pos <= |text| && notes > 0
    decreases |text| - pos, 1
  {
    PlayableItems(text, SkipSpace(text, pos), length, notes, cur)
  }

  lemma {:induction false} PlayablePastSpace(text: string, pos: nat, length: int, notes: nat, cur: nat)
    requires pos <= |text| && notes > 0
    ensures Playable(text, pos, length, notes, cur) == Playable(text, SkipSpace(text, pos), length, notes, cur)
  {}

  lemma {:induction false} PlayablePastOne(text: string, pos: nat, length: int, notes: nat, cur: nat)
    requires pos < |text| && notes > 0 && IsNeutral(text[pos])
    ensures Playable(text, pos, length, notes, cur) == Playable(text, pos + 1, length, notes, cur)
  {
    if IsSpace(text[pos]) {
      PlayablePastSpace(text, pos, length, notes, cur);
      PlayablePastSpace(text, pos + 1, length, notes, cur);
    } else {
      assert SkipSpace(text, pos) == pos;
    }
  }

  lemma {:induction false} PlayablePast(text: string, pos: nat, end: nat, length: int, notes: nat, cur: nat)
    requires pos <= end <= |text| && notes > 0 && forall k :: pos <= k < end ==> IsNeutral(text[k])
    ensures Playable(text, pos, length, notes, cur) == Playable(text, end, length, notes, cur)
    decreases end - pos
  {
    if pos < end {
      PlayablePastOne(text, pos, length, notes, cur);
      PlayablePast(text, pos + 1, end, length, notes, cur);
    }
  }

  ghost predicate PlayableFrom(m: Mml, text: string, pos: nat)
    requires pos <= |text| && m.notes > 0
  {
    Playable(text, pos, m.length, m.notes, m.cur)
  }

  lemma {:induction false} NoteItem(text: string, p: nat, length: int, notes: nat, cur: nat)
    requires p < |text| && notes > 0 && (IsNoteLetter(text[p]) || text[p] == 'R')
    ensures PlayableItems(text, p, length, notes, cur) == Playable(text, p + 1, length, notes, cur + 1)
  {}

  lemma {:induction false} ChordItem(text: string, p: nat, e: nat, length: int, notes: nat, cur: nat)
    requires p < |text| && text[p] == '[' && SkipUntil(text, p, ']') == e < |text| && notes > 0
    requires ReadsAsChord(text, p + 1) && ShareAt(length, notes, cur) >= 0
    ensures PlayableItems(text, p, length, notes, cur) == Playable(text, e + 1, length, notes, cur + 1)
  {}

  lemma {:induction false} NoChordItem(text: string, p: nat, length: int, notes: nat, cur: nat)
    requires p < |text| && text[p] == '[' && notes > 0
    requires !ReadsAsChord(text, p + 1) || ShareAt(length, notes, cur) < 0
    ensures !PlayableItems(text, p, length, notes, cur)
  {}

  lemma {:induction false} PlayableAt(m: Mml, text: string, pos: nat)
    requires pos <= |text| && m.notes > 0
    ensures PlayableFrom(m, text, pos) == PlayableItems(text, SkipSpace(text, pos), m.length, m.notes, m.cur)
  {}

  /** The chord behind the `[` at `p` ends at `e`. */
  lemma {:induction false} ChordEnds(m: Mml, text: string, p: nat, c: Parsed)
    requires p < |text| && text[p] == '[' && c == ParsePitches(m, text, p + 1)
    ensures ReadsAsChord(text, p + 1) == (c.kind == Chord)
    ensures c.kind == Chord ==> SkipUntil(text, p, ']') == c.pos - 1 < |text|
  {
    PitchesIgnoreState(m, Mml(0, 0, 0, 0, false, 0, 0, 0), text, p + 1);
    if c.kind == Chord {
      PitchesEnd(m, text, p + 1);
      UntilIs(text, p, c.pos - 1);
    }
  }

  /** What the rest of a tuplet is worth after a call. */
  ghost predicate Decides(m: Mml, text: string, pos: nat, r: Parsed)
    requires pos <= |text| && m.notes > 0
  {
    if r.kind == ChordError then !PlayableFrom(m, text, pos)
    else r.pos <= |text| && r.m.notes > 0 && PlayableFrom(m, text, pos) == PlayableFrom(r.m, text, r.pos)
  }

  lemma {:induction false} ChordKept(m: Mml, text: string, p: nat, e: nat, r: Parsed)
    requires p < |text| && text[p] == '[' && SkipUntil(text, p, ']') == e < |text| && m.notes > 0
    requires ReadsAsChord(text, p + 1) && Share(m) >= 0
    requires r.pos == e + 1 && r.m.notes == m.notes && r.m.length == m.length && r.m.cur == m.cur + 1
    ensures PlayableItems(text, p, m.length, m.notes, m.cur) == PlayableFrom(r.m, text, r.pos)
  {
    ChordItem(text, p, e, m.length, m.notes, m.cur);
  }

  lemma {:induction false} GoodChord(m: Mml, text: string, pos: nat, e: nat, r: Parsed)
    requires pos <= |text| && m.notes > 0 && Ch(text, SkipSpace(text, pos)) == '['
    requires SkipUntil(text, SkipSpace(text, pos), ']') == e < |text|
    requires ReadsAsChord(text, SkipSpace(text, pos) + 1) && Share(m) >= 0
    requires r.kind == Chord && r.pos == e + 1
    requires r.m.notes == m.notes && r.m.length == m.length && r.m.cur == m.cur + 1
    ensures Decides(m, text, pos, r)
  {
    PlayableAt(m, text, pos);
    ChordKept(m, text, SkipSpace(text, pos), e, r);
  }

  lemma {:induction false} BadChord(m: Mml, text: string, pos: nat, r: Parsed)
    requires pos <= |text| && m.notes > 0 && Ch(text, SkipSpace(text, pos)) == '['
    requires !ReadsAsChord(text, SkipSpace(text, pos) + 1) || Share(m) < 0
    requires r.kind == ChordError
    ensures Decides(m, text, pos, r)
  {
    PlayableAt(m, text, pos);
    NoChordItem(text, SkipSpace(text, pos), m.length, m.notes, m.cur);
  }

  lemma {:induction false} ChordDecidesAt(m: Mml, text: string, pos: nat, c: Parsed, r: Parsed)
    requires pos <= |text| && m.notes > 0 && Ch(text, SkipSpace(text, pos)) == '['
    requires c == ParsePitches(m, text, SkipSpace(text, pos) + 1)
    requires r.kind == if c.kind == Chord && Share(m) >= 0 then Chord else ChordError
    requires r.kind == Chord ==> r.pos == c.pos && r.m == c.m.(cur := c.m.cur + 1)
    ensures Decides(m, text, pos, r)
  {
    ChordEnds(m, text, SkipSpace(text, pos), c);
    if r.kind == Chord {
      GoodChord(m, text, pos, c.pos - 1, r);
    } else {
      BadChord(m, text, pos, r);
    }
  }

  /** A chord is parsed exactly when it can be played. */
  lemma {:induction false} ChordPlays(m: Mml, text: string, pos: nat)
    requires InStep(m, text, pos) && Ch(text, SkipSpace(text, pos)) == '['
    ensures Decides(m, text, pos, Parse(m, text, pos))
  {
    ChordParse(m, text, pos);
    ChordDecidesAt(m, text, pos, ParsePitches(m, text, SkipSpace(text, pos) + 1), Parse(m, text, pos));
  }

  lemma {:induction false} NoteDecides(m: Mml, text: string, pos: nat, end: nat, r: Parsed)
    requires pos <= |text| && m.notes > 0 && SkipSpace(text, pos) < end <= |text|
    requires IsNoteLetter(Ch(text, SkipSpace(text, pos))) || Ch(text, SkipSpace(text, pos)) == 'R'
    requires forall k :: SkipSpace(text, pos) < k < end ==> IsNeutral(text[k])
    requires r.kind != ChordError && r.pos == end && r.m == m.(cur := m.cur + 1)
    ensures Decides(m, text, pos, r)
  {
    var p := SkipSpace(text, pos);
    NoteItem(text, p, m.length, m.notes, m.cur);
    PlayablePast(text, p + 1, end, m.length, m.notes, m.cur + 1);
  }

  lemma {:induction false} NotePlays(m: Mml, text: string, pos: nat)
    requires InStep(m, text, pos)
    requires
      var c := Ch(text, SkipSpace(text, pos));
      IsNoteLetter(c) || c == 'R'
    ensures Decides(m, text, pos, Parse(m, text, pos))
  {
    var p := SkipSpace(text, pos);
    NoteCounts(text, p);
    var end, kind := NoteParse(m, text, p);
    NoteDecides(m, text, pos, end, Parse(m, text, pos));
  }

  lemma {:induction false} OtherPlays(m: Mml, text: string, pos: nat)
    requires InStep(m, text, pos) && IsNeutral(Ch(text, SkipSpace(text, pos)))
    ensures Decides(m, text, pos, Parse(m, text, pos))
  {
    OtherInStep(m, text, pos);
    OtherParse(m, text, pos);
    PlayablePastSpace(text, pos, m.length, m.notes, m.cur);
    PlayablePast(text, SkipSpace(text, pos), Parse(m, text, pos).pos, m.length, m.notes, m.cur);
  }

  /** A call in a tuplet ends in a chord error only where the text cannot be played, and else leaves that open. */
  lemma {:induction false} StepPlays(m: Mml, text: string, pos: nat)
    requires InStep(m, text, pos) && !AtEnd(text, pos)
    ensures Decides(m, text, pos, Parse(m, text, pos))
  {
    var c := Ch(text, SkipSpace(text, pos));
    if IsNoteLetter(c) || c == 'R' {
      NotePlays(m, text, pos);
    } else if c == '[' {
      ChordPlays(m, text, pos);
    } else {
      OtherPlays(m, text, pos);
    }
  }

  lemma {:induction false} EndPlays(m: Mml, text: string, pos: nat)
    requires pos <= |text| && AtEnd(text, pos) && m.notes > 0
    ensures PlayableFrom(m, text, pos)
  {}

  // -------------------------------------------------------------------- whole tuplets

  /** How a tuplet ended, and the lengths of the notes, rests and chords in it. */
  datatype Played = Played(lengths: seq<int>, last: Kind)

  predicate Ended(kind: Kind) {
    kind == TupletDone || kind == TooFewNotes || kind == ChordError || kind == Eof
  }

  /** Call the parser until the tuplet ends or a chord is malformed. */
  function Play(m: Mml, text: string, pos: nat): Played
    requires pos <= |text| && Ok(m)
    decreases |text| - pos
  {
    var r := Parse(m, text, pos);
    if Ended(r.kind) then Played([], r.kind)
    else
      var rest := Play(r.m, text, r.pos);
      if IsTimed(r.kind) then rest.(lengths := [r.length] + rest.lengths) else rest
  }

  function Total(s: seq<int>): int { if s == [] then 0 else s[0] + Total(s[1..]) }

  /** What the notes that are still to come share. */
  function Due(m: Mml): int
    requires m.notes > 0 && m.cur <= m.notes
  {
    if m.cur == m.notes then 0 else m.length - m.cur * Quotient(m.length, m.notes)
  }

  lemma {:induction false} ShareOfDue(m: Mml)
    requires m.notes > 0 && m.cur < m.notes
    ensures Due(m) == Share(m) + Due(m.(cur := m.cur + 1))
  {
    var q := Quotient(m.length, m.notes);
    assert (m.cur + 1) * q == m.cur * q + q;
  }

  lemma {:induction false} OneMore(m: Mml, text: string, r: Parsed, rest: seq<int>)
    requires m.notes > 0 && m.cur <= m.notes && Advances(m, text, r)
    requires r.m.cur <= r.m.notes && |rest| == r.m.notes - r.m.cur && Total(rest) == Due(r.m)
    ensures
      var all := if IsTimed(r.kind) then [r.length] + rest else rest;
      |all| == m.notes - m.cur && Total(all) == Due(m)
  {
    if IsTimed(r.kind) {
      ShareOfDue(m);
      assert ([r.length] + rest)[1..] == rest;
    }
  }

  lemma {:induction false} EndsWell(m: Mml, text: string, pos: nat)
    requires InStep(m, text, pos) && AtEnd(text, pos)
    ensures Parse(m, text, pos).kind == TupletDone && m.cur == m.notes
  {
    assert Count(text, pos) == Counted(0, SkipSpace(text, pos));
  }

  /** The next call in a tuplet. */
  lemma {:induction false} TupletStep(m: Mml, text: string, pos: nat) returns (r: Parsed)
    requires InStep(m, text, pos) && !AtEnd(text, pos)
    ensures r.kind == ChordError ==> Play(m, text, pos) == Played([], ChordError)
    ensures r.kind != ChordError ==>
      && Advances(m, text, r) && pos < r.pos <= |text|
      && var (p, q) := (Play(m, text, pos), Play(r.m, text, r.pos));
      p.last == q.last && p.lengths == if IsTimed(r.kind) then [r.length] + q.lengths else q.lengths
    ensures r == Parse(m, text, pos)
  {
    r := Parse(m, text, pos);
    if r.kind != ChordError { StaysInStep(m, text, pos); }
  }

  /** What is expected of the rest of a tuplet: as many lengths as notes are left, and they add up. */
  ghost predicate AddsUp(m: Mml, p: Played)
    requires m.notes > 0 && m.cur <= m.notes
  {
    p.last == TupletDone && |p.lengths| == m.notes - m.cur && Total(p.lengths) == Due(m)
  }

  /** The rest of a tuplet is played to its end and adds up, exactly when its text can be played. */
  lemma {:induction false} RestAddsUp(m: Mml, text: string, pos: nat)
    requires InStep(m, text, pos) && m.cur <= m.notes
    ensures
      var p := Play(m, text, pos);
      if PlayableFrom(m, text, pos) then AddsUp(m, p) else p.last == ChordError
    decreases |text| - pos
  {
    if AtEnd(text, pos) {
      EndsWell(m, text, pos);
      EndPlays(m, text, pos);
      assert Play(m, text, pos) == Played([], TupletDone);
    } else {
      var r := TupletStep(m, text, pos);
      StepPlays(m, text, pos);
      if r.kind != ChordError {
        RestAddsUp(r.m, text, r.pos);
        if PlayableFrom(m, text, pos) { OneMore(m, text, r, Play(r.m, text, r.pos).lengths); }
      }
    }
  }

  /**
   The two passes over a tuplet agree.  Whatever stands between `{` and `}`: `}` finds
   the tuplet complete exactly when every chord in it can be played.  Then as many notes,
   rests and chords are parsed as were counted, and their lengths add up to the length
   of the tuplet exactly.  Otherwise the first chord that cannot be played is reported.
   */
  lemma {:induction false} TupletAddsUpIff(m: Mml, text: string, pos: nat)
    requires pos <= |text| && Ok(m) && StartTuplet(m, text, pos).kind == TupletStart
    ensures
      var s := StartTuplet(m, text, pos);
      var p := Play(s.m, text, pos);
      && (p.last == TupletDone <==> PlayableFrom(s.m, text, pos))
      && (p.last != TupletDone ==> p.last == ChordError)
      && (p.last == TupletDone ==> |p.lengths| == Count(text, pos).notes && Total(p.lengths) == s.length)
  {
    RestAddsUp(StartTuplet(m, text, pos).m, text, pos);
  }

  // ------------------------------------------------------------ tuplets of valid length

  /** Every `[` that the counting pass meets starts a chord. */
  predicate WellFormedItems(text: string, p: nat)
    requires p <= |text|
    decreases |text| - p, 0
  {
    if Ch(text, p) == '}' then true
    else
      var q := ItemEnd(text, p);
      q < |text| && (text[p] == '[' ==> ReadsAsChord(text, p + 1)) && WellFormed(text, q + 1)
  }

  predicate WellFormed(text: string, pos: nat)
    requires pos <= |text|
    decreases |text| - pos, 1
  {
    WellFormedItems(text, SkipSpace(text, pos))
  }

  lemma {:induction false} ShareIsPositive(length: nat, notes: nat, cur: nat)
    requires notes > 0
    ensures ShareAt(length, notes, cur) >= 0
  {
    var q := length / notes;
    assert q * notes <= length;
    assert q * (notes - 1) == q * notes - q;
  }

  lemma {:induction false} WellFormedIsPlayable(text: string, p: nat, length: nat, notes: nat, cur: nat)
    requires p <= |text| && notes > 0
    ensures PlayableItems(text, p, length, notes, cur) == WellFormedItems(text, p)
    decreases |text| - p
  {
    if Ch(text, p) != '}' {
      var q := ItemEnd(text, p);
      ShareIsPositive(length, notes, cur);
      if q < |text| {
        WellFormedIsPlayable(text, SkipSpace(text, q + 1), length, notes, cur + ItemNotes(text[p]));
      }
    }
  }

  /** A tuplet with a length is played to its end exactly when its text is well formed; then it adds up. */
  lemma {:induction false} TupletAddsUp(m: Mml, text: string, pos: nat)
    requires pos <= |text| && Ok(m) && StartTuplet(m, text, pos).kind == TupletStart
    requires StartTuplet(m, text, pos).length >= 0
    ensures
      var s := StartTuplet(m, text, pos);
      var p := Play(s.m, text, pos);
      && (p.last == TupletDone <==> WellFormed(text, pos))
      && (p.last == TupletDone ==> |p.lengths| == Count(text, pos).notes && Total(p.lengths) == s.length)
  {
    var s := StartTuplet(m, text, pos);
    TupletAddsUpIff(m, text, pos);
    WellFormedIsPlayable(text, SkipSpace(text, pos), s.length, s.m.notes, 0);
  }

  /** The notes of a tuplet are equally long, but for the last, which is longer by less than one sample a note. */
  lemma {:induction false} SharesAreFair(length: nat, notes: nat, i: nat)
    requires i < notes
    ensures
      var (share, last) := (ShareAt(length, notes, i), ShareAt(length, notes, notes - 1));
      && share == (if i == notes - 1 then last else length / notes)
      && 0 <= last - length / notes < notes
  {
    var q := length / notes;
    assert q * notes <= length < q * notes + notes;
    assert length - q * (notes - 1) == length - q * notes + q;
  }
}
