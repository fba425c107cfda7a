/**
 The parser of the music macro language, one command a call.  A tuplet such
 as `{CDE}4` is read twice: at `{` a look-ahead counts its notes, then the
 notes are parsed one by one and share the length of the tuplet.
 */
module MmlParser {
  import opened Basics
  import opened MmlLength

  /** What a call returned: the kind of command, or an error. */
  datatype Kind =
    | Eof | Note | Rest | Tempo | DefaultLength | Octave | TupletStart | TupletDone | Volume | Tone | Chord
    | NoteError | RestError | TempoError | LengthError | OctaveError | VolumeError | TupletError | ToneError
    | ChordError | IllegalComposition | TooManyNotes | TooFewNotes | DoubleTuplet

  datatype Mml = Mml(fs: nat, tempo: nat, octave: int, deflen: int,
                     inTuplet: bool, cur: nat, notes: nat, length: int)

  /** The number of notes of a running tuplet is not zero: it is divided by. */
  predicate Ok(m: Mml) { m.inTuplet ==> m.notes > 0 }

  /** The state after a call, where the score is then, what the call returned. */
  datatype Parsed = Parsed(m: Mml, pos: nat, kind: Kind, length: int)

  function LengthAt(m: Mml, text: string, pos: nat): (r: Measured)
    requires pos <= |text|
    ensures pos <= r.pos <= |text|
  {
    Length(AtTempo(m.fs, m.tempo, m.deflen), text, pos)
  }

  // ------------------------------------------------------------------------- scanning

  function SkipSpace(text: string, pos: nat): (r: nat)
    requires pos <= |text|
    ensures pos <= r <= |text| && !IsSpace(Ch(text, r))
    ensures forall k :: pos <= k < r ==> IsSpace(text[k])
    decreases |text| - pos
  {
    if IsSpace(Ch(text, pos)) then SkipSpace(text, pos + 1) else pos
  }

  predicate IsAccidental(c: char) { c == '+' || c == '#' || c == '-' }

  /** Behind the accidentals of a note. */
  function AccidentalsEnd(text: string, pos: nat): (r: nat)
    requires pos <= |text|
    ensures pos <= r <= |text|
    ensures forall k :: pos <= k < r ==> IsAccidental(text[k])
    decreases |text| - pos
  {
    if IsAccidental(Ch(text, pos)) then AccidentalsEnd(text, pos + 1) else pos
  }

  /** The next `]`, or the end. */
  function SkipUntil(text: string, pos: nat, c: char): (r: nat)
    requires pos <= |text|
    ensures pos <= r <= |text| && (r < |text| ==> text[r] == c)
    ensures forall k :: pos <= k < r ==> text[k] != c
    decreases |text| - pos
  {
    if pos == |text| || text[pos] == c then pos else SkipUntil(text, pos + 1, c)
  }

  predicate IsNoteLetter(c: char) { 'A' <= c <= 'G' }

  /** The codes that stand for a pitch; a lone `+` counts as one. */
  predicate IsPitch(c: char) { IsNoteLetter(c) || c == '+' }

  // ---------------------------------------------------------------------- first pass

  /** A count and where the counting stopped: at a `}`, or at the end of the text. */
  datatype Counted = Counted(notes: nat, end: nat)

  predicate Closed(c: Counted, text: string) { c.end < |text| }

  /** Where an item of the counting pass ends: a chord at its `]`, anything else where it is. */
  function ItemEnd(text: string, pos: nat): (q: nat)
    requires pos <= |text|
    ensures pos <= q <= |text|
  {
    if Ch(text, pos) == '[' then SkipUntil(text, pos, ']') else pos
  }

  /** How many notes an item that starts with `c` adds. */
  function ItemNotes(c: char): nat {
    if IsNoteLetter(c) || c == 'R' || c == '[' then 1 else 0
  }

  function AddNotes(n: nat, c: Counted): Counted { c.(notes := n + c.notes) }

  /** Without a `}` the count is one too many: the NUL, or the chord that does not end, is counted as well. */
  function CountItems(text: string, p: nat): (r: Counted)
    requires p <= |text|
    ensures p <= r.end <= |text| && (Closed(r, text) ==> text[r.end] == '}')
    decreases |text| - p, 0
  {
    if Ch(text, p) == '}' then Counted(0, p)
    else
      var q := ItemEnd(text, p);
      if q == |text| then Counted(1, q) else AddNotes(ItemNotes(Ch(text, p)), Count(text, q + 1))
  }

  /** count_tupletnotes up to the `}`: letters and whole chords count. */
  function Count(text: string, pos: nat): (r: Counted)
    requires pos <= |text|
    ensures pos <= r.end <= |text| && (Closed(r, text) ==> text[r.end] == '}')
    decreases |text| - pos, 1
  {
    CountItems(text, SkipSpace(text, pos))
  }

  // --------------------------------------------------------------------- second pass

  /** tuplet_length: an equal share, and what is left over for the last note. */
  function Share(m: Mml): int
    requires m.notes > 0
  {
    ShareAt(m.length, m.notes, m.cur)
  }

  /** The share of note number `cur`, from zero. */
  function ShareAt(length: int, notes: nat, cur: nat): int
    requires notes > 0
  {
    var q := Quotient(length, notes);
    if cur + 1 == notes then length - q * (notes - 1) else q
  }

  function Timed(m: Mml, pos: nat, kind: Kind): Parsed
    requires m.inTuplet && Ok(m)
  {
    Parsed(m.(cur := m.cur + 1), pos, kind, Share(m))
  }

  /** A number in the score sets something, anything else is an error. */
  function ParseOctave(m: Mml, text: string, code: char, pos: nat): (r: Parsed)
    requires pos <= |text|
    ensures pos <= r.pos <= |text| && r.m == m.(octave := r.m.octave)
    ensures forall k :: pos <= k < r.pos ==> IsDigit(text[k])
  {
    if code == '>' then Parsed(m.(octave := m.octave + 1), pos, Octave, m.octave + 1)
    else if code == '<' then Parsed(m.(octave := m.octave - 1), pos, Octave, m.octave - 1)
    else if IsDigit(Ch(text, pos)) then
      var e := DigitsEnd(text, pos);
      var n := Number(text[pos..e]);
      Parsed(m.(octave := n), e, Octave, n)
    else Parsed(m, pos, OctaveError, 0)
  }

  /** One code of a chord: it is over, well or badly, or goes on. */
  datatype PitchStep = PitchStep(over: bool, at: Parsed)

  /** A pitch with its accidentals, an octave change, or the `]`. */
  function ParsePitch(m: Mml, text: string, pos: nat): (r: PitchStep)
    requires pos <= |text|
    ensures r.at.m == m.(octave := r.at.m.octave) && pos < r.at.pos <= |text| + 1
    ensures !r.over || r.at.kind == Chord ==> r.at.pos <= |text|
    ensures r.over ==> r.at.kind == Chord || r.at.kind == ChordError
  {
    var p := SkipSpace(text, pos);
    var c := Ch(text, p);
    if p == |text| then PitchStep(true, Parsed(m, p + 1, ChordError, 0))
    else if c == ']' then PitchStep(true, Parsed(m, p + 1, Chord, 0))
    else if IsPitch(c) then PitchStep(false, Parsed(m, AccidentalsEnd(text, p + 1), Chord, 0))
    else if c == 'O' || c == '>' || c == '<' then
      var o := ParseOctave(m, text, c, p + 1);
      if o.kind == OctaveError then PitchStep(true, Parsed(m, p + 1, ChordError, 0)) else PitchStep(false, o)
    else PitchStep(true, Parsed(m, p + 1, ChordError, 0))
  }

  /**
   The pitches of a chord, from `pos` behind the `[` to behind the `]`.  After
   an error the score is behind the offending code, which may be the NUL.
   */
  function ParsePitches(m: Mml, text: string, pos: nat): (r: Parsed)
    requires pos <= |text|
    ensures r.kind == Chord || r.kind == ChordError
    ensures r.m == m.(octave := r.m.octave) && pos < r.pos <= |text| + 1
    ensures r.kind == Chord ==> r.pos <= |text|
    decreases |text| - pos
  {
    var s := ParsePitch(m, text, pos);
    if s.over then s.at else ParsePitches(s.at.m, text, s.at.pos)
  }

  lemma {:induction false} PitchStaysInside(m: Mml, text: string, pos: nat)
    requires pos <= |text|
    ensures
      var s := ParsePitch(m, text, pos);
      var e := if s.over then s.at.pos - 1 else s.at.pos;
      && (forall k :: pos <= k < e ==> text[k] != ']')
      && (s.over && s.at.kind == Chord ==> text[e] == ']')
  {}

  /** The chord ends at the first `]`. */
  lemma {:induction false} PitchesEnd(m: Mml, text: string, pos: nat)
    requires pos <= |text| && ParsePitches(m, text, pos).kind == Chord
    ensures
      var e := ParsePitches(m, text, pos).pos - 1;
      text[e] == ']' && forall k :: pos <= k < e ==> text[k] != ']'
    decreases |text| - pos
  {
    var s := ParsePitch(m, text, pos);
    PitchStaysInside(m, text, pos);
    if !s.over { PitchesEnd(s.at.m, text, s.at.pos); }
  }

  function ParseChord(m: Mml, text: string, pos: nat): (r: Parsed)
    requires pos <= |text| && Ok(m)
    ensures pos < r.pos <= |text| + 1 && Ok(r.m)
    ensures r.kind == Chord ==> r.pos <= |text|
  {
    var c := ParsePitches(m, text, pos);
    if c.kind == ChordError then c.(length := 0)
    else
      var t := if c.m.inTuplet then Timed(c.m, c.pos, Chord)
               else
                 var l := LengthAt(c.m, text, c.pos);
                 Parsed(c.m, l.pos, Chord, l.samples);
      if t.length < 0 then t.(kind := ChordError) else t
  }

  /** A note or a rest outside a tuplet, with its own length. */
  function ParseTimed(m: Mml, text: string, pos: nat, good: Kind, bad: Kind): (r: Parsed)
    requires pos <= |text|
    ensures pos <= r.pos <= |text| && r.m == m
  {
    var l := LengthAt(m, text, pos);
    Parsed(m, l.pos, if l.samples < 0 then bad else good, l.samples)
  }

  function ParseNote(m: Mml, text: string, pos: nat): (r: Parsed)
    requires pos <= |text| && Ok(m)
    ensures pos <= r.pos <= |text| && Ok(r.m)
  {
    if !m.inTuplet then ParseTimed(m, text, AccidentalsEnd(text, pos), Note, NoteError)
    else if m.cur < m.notes then Timed(m, AccidentalsEnd(text, pos), Note)
    else Parsed(m, pos, TooManyNotes, 0)
  }

  function ParseRest(m: Mml, text: string, pos: nat): (r: Parsed)
    requires pos <= |text| && Ok(m)
    ensures pos <= r.pos <= |text| && Ok(r.m)
  {
    if m.inTuplet then Timed(m, pos, Rest) else ParseTimed(m, text, pos, Rest, RestError)
  }

  /** A code that takes a number. */
  function ParseNumber(m: Mml, text: string, pos: nat, code: char): (r: Parsed)
    requires pos <= |text|
    ensures pos <= r.pos <= |text|
    ensures r.m == m.(tempo := r.m.tempo, deflen := r.m.deflen)
  {
    if IsDigit(Ch(text, pos)) then
      var e := DigitsEnd(text, pos);
      var n := Number(text[pos..e]);
      if code == 'T' then Parsed(m.(tempo := n), e, Tempo, n)
      else if code == 'L' then Parsed(m.(deflen := n), e, DefaultLength, n)
      else Parsed(m, e, Tone, n)
    else
      Parsed(m, pos, if code == 'T' then TempoError else if code == 'L' then LengthError else ToneError, 0)
  }

  /** atoi: white space, a sign and digits. */
  function Atoi(text: string, pos: nat): int
    requires pos <= |text|
  {
    var p := SkipSpace(text, pos);
    var signed := Ch(text, p) == '-' || Ch(text, p) == '+';
    var q := if signed then p + 1 else p;
    var n: int := Number(text[q..DigitsEnd(text, q)]);
    if Ch(text, p) == '-' then -n else n
  }

  function ParseVolume(m: Mml, text: string, pos: nat): (r: Parsed)
    requires pos <= |text|
    ensures pos <= r.pos <= |text| && r.m == m
  {
    var v := Atoi(text, pos);
    Parsed(m, DigitsEnd(text, pos), if v < 0 || v > 100 then VolumeError else Volume, v)
  }

  /** `{`: look ahead, count, and take the length that stands behind the `}`.  The count is kept on errors too. */
  function StartTuplet(m: Mml, text: string, pos: nat): (r: Parsed)
    requires pos <= |text| && Ok(m)
    ensures r.pos == pos && Ok(r.m)
    ensures r.kind == TupletStart <==>
              !m.inTuplet && Closed(Count(text, pos), text) && Count(text, pos).notes > 0
    ensures m.inTuplet ==> r.m == m && r.kind == DoubleTuplet
    ensures !m.inTuplet ==>
              var c := Count(text, pos);
              && r.kind in {TupletStart, TupletError}
              && r.m.notes == c.notes
              && r.m.length == (if Closed(c, text) then LengthAt(m, text, c.end + 1).samples else m.length)
              && r.m.inTuplet == (r.kind == TupletStart)
              && r.m.cur == (if r.kind == TupletStart then 0 else m.cur)
  {
    if m.inTuplet then Parsed(m, pos, DoubleTuplet, 0)
    else
      var c := Count(text, pos);
      var len := if Closed(c, text) then LengthAt(m, text, c.end + 1).samples else m.length;
      var n := m.(notes := c.notes, length := len);
      if !Closed(c, text) || c.notes == 0 then Parsed(n, pos, TupletError, 0)
      else Parsed(n.(inTuplet := true, cur := 0), pos, TupletStart, len)
  }

  /** `}`: the length behind it is skipped. */
  function StopTuplet(m: Mml, text: string, pos: nat): (r: Parsed)
    requires pos <= |text|
    ensures pos <= r.pos <= |text| && Ok(r.m)
  {
    Parsed(m.(inTuplet := false), LengthAt(m, text, pos).pos,
           if m.cur != m.notes then TooFewNotes else TupletDone, 0)
  }

  /** The command whose code stands at `p`. */
  function ParseCode(m: Mml, text: string, p: nat): (r: Parsed)
    requires p < |text| && Ok(m)
    ensures Ok(r.m) && p < r.pos && r.kind != Eof
    ensures r.kind != ChordError ==> r.pos <= |text|
  {
    var c := text[p];
    if IsNoteLetter(c) then ParseNote(m, text, p + 1)
    else if c == 'R' then ParseRest(m, text, p + 1)
    else if c == 'T' || c == 'L' || c == '@' then ParseNumber(m, text, p + 1, c)
    else if c == 'O' || c == '>' || c == '<' then ParseOctave(m, text, c, p + 1)
    else if c == 'V' then ParseVolume(m, text, p + 1)
    else if c == '[' then ParseChord(m, text, p + 1)
    else if c == '{' then StartTuplet(m, text, p + 1)
    else if c == '}' then StopTuplet(m, text, p + 1)
    else Parsed(m, p + 1, IllegalComposition, 0)
  }

  /** parse_mml: one command. */
  function Parse(m: Mml, text: string, pos: nat): (r: Parsed)
    requires pos <= |text| && Ok(m)
    ensures Ok(r.m) && pos <= r.pos
    ensures r.kind != Eof ==> pos < r.pos
    ensures r.kind != ChordError ==> r.pos <= |text|
  {
    var p := SkipSpace(text, pos);
    if p == |text| then Parsed(m, p, Eof, 0) else ParseCode(m, text, p)
  }
}
