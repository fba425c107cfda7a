/**
 Scores as they are meant and as they are read.  A score is a list of events; where a text
 has them written, the parser answers with what every event means.
 */
module MmlScore {
  import opened Basics
  import opened MmlLength
  import opened MmlParser
  import opened MmlTies

  // ---------------------------------------------------------------------------- numbers

  function Digit(d: nat): char requires d < 10 { ['0', '1', '2', '3', '4', '5', '6', '7', '8', '9'][d] }

  function Decimal(n: nat): string {
    if n < 10 then [Digit(n)] else Decimal(n / 10) + [Digit(n % 10)]
  }

  predicate AllDigits(s: string) { forall k :: 0 <= k < |s| ==> IsDigit(s[k]) }

  /** Reading a number undoes writing it. */
  lemma {:induction false} NumberOfDecimal(n: nat)
    ensures Decimal(n) != "" && AllDigits(Decimal(n)) && Number(Decimal(n)) == n
  {
    var (s, d) := (Decimal(n), Digit(n % 10));
    assert d as int - '0' as int == n % 10;
    if n >= 10 {
      NumberOfDecimal(n / 10);
      assert s[..|s| - 1] == Decimal(n / 10);
    } else {
      assert s[..0] == "";
    }
  }

  // ------------------------------------------------------------------------- durations

  /** A note value with dots. */
  datatype Value = Value(num: nat, dots: nat)

  /** The default length with dots, or a tie of note values. */
  datatype Duration = Default(dots: nat) | Tied(values: seq<Value>)

  function PartsOf(vs: seq<Value>): (ps: seq<Part>)
    ensures |ps| == |vs|
  {
    if vs == [] then [] else [Part(Decimal(vs[0].num), vs[0].dots)] + PartsOf(vs[1..])
  }

  function DurationText(d: Duration): string
    requires d.Tied? ==> d.values != []
  {
    match d case Default(dots) => Dots(dots) case Tied(values) => Tie(PartsOf(values))
  }

  /** The samples of the values when `dots` dots are carried into the first of them. */
  function Total(fs: nat, tempo: nat, vs: seq<Value>, dots: nat): int {
    if vs == [] then 0
    else Samples(fs, tempo, vs[0].num, dots + vs[0].dots) + Total(fs, tempo, vs[1..], dots + vs[0].dots)
  }

  /** Every value of the tie, with the dots carried into it, has a length. */
  predicate AllSound(fs: nat, tempo: nat, vs: seq<Value>, dots: nat) {
    vs == [] ||
    (Samples(fs, tempo, vs[0].num, dots + vs[0].dots) > 0 && AllSound(fs, tempo, vs[1..], dots + vs[0].dots))
  }

  predicate DurationOk(m: Mml, d: Duration) {
    d.Tied? ==> d.values != [] && AllSound(m.fs, m.tempo, d.values, 0)
  }

  /** How many samples a duration is. */
  function Lasts(m: Mml, d: Duration): int {
    match d
    case Default(dots) => Samples(m.fs, m.tempo, m.deflen, dots)
    case Tied(values) => Total(m.fs, m.tempo, values, 0)
  }

  lemma {:induction false} PartsAreParts(vs: seq<Value>)
    ensures AllParts(PartsOf(vs))
  {
    if vs != [] {
      NumberOfDecimal(vs[0].num);
      PartsAreParts(vs[1..]);
    }
  }

  lemma {:induction false} SamplesAt(fs: nat, tempo: nat, deflen: int, num: int, dots: nat)
    ensures AtTempo(fs, tempo, deflen).note(num, dots) == Samples(fs, tempo, num, dots)
  {}

  lemma {:induction false} FirstPart(vs: seq<Value>)
    requires vs != []
    ensures AllParts(PartsOf(vs)) && PartsOf(vs)[0].dots == vs[0].dots && PartsOf(vs)[1..] == PartsOf(vs[1..])
    ensures MmlTies.Value(PartsOf(vs)[0]) == vs[0].num
  {
    PartsAreParts(vs);
    NumberOfDecimal(vs[0].num);
  }

  lemma {:induction false} TotalIsSum(fs: nat, tempo: nat, deflen: int, vs: seq<Value>, dots: nat)
    ensures AllParts(PartsOf(vs)) && Sum(AtTempo(fs, tempo, deflen), PartsOf(vs), dots) == Total(fs, tempo, vs, dots)
    decreases |vs|
  {
    PartsAreParts(vs);
    if vs != [] {
      FirstPart(vs);
      SamplesAt(fs, tempo, deflen, vs[0].num, dots + vs[0].dots);
      TotalIsSum(fs, tempo, deflen, vs[1..], dots + vs[0].dots);
    }
  }

  lemma {:induction false} SoundIsPositive(fs: nat, tempo: nat, deflen: int, vs: seq<Value>, dots: nat)
    requires AllSound(fs, tempo, vs, dots)
    ensures AllParts(PartsOf(vs)) && AllPositive(AtTempo(fs, tempo, deflen), PartsOf(vs), dots)
    decreases |vs|
  {
    PartsAreParts(vs);
    if vs != [] {
      FirstPart(vs);
      SamplesAt(fs, tempo, deflen, vs[0].num, dots + vs[0].dots);
      SoundIsPositive(fs, tempo, deflen, vs[1..], dots + vs[0].dots);
    }
  }

  /** Dots alone. */
  lemma {:induction false} DefaultRead(c: Config, text: string, pos: nat, dots: nat)
    requires Written(text, pos, Dots(dots)) && Ends(Ch(text, pos + dots))
    ensures Length(c, text, pos) == Measured(c.note(c.deflen, dots), pos + dots)
  {
    if dots > 0 {
      assert text[pos] == Dots(dots)[0];
      assert Written(text, pos + 1, Dots(dots)[1..]) && Dots(dots)[1..] == Dots(dots - 1);
      DotsRead(c, text, pos + 1, dots - 1, GetSamples(c, 0, -1, 0, false), -1, 1, false);
    }
  }

  /** A duration is read as it is meant. */
  lemma {:induction false} DurationRead(m: Mml, text: string, pos: nat, d: Duration)
    requires DurationOk(m, d) && Written(text, pos, DurationText(d)) && Ends(Ch(text, pos + |DurationText(d)|))
    ensures LengthAt(m, text, pos) == Measured(Lasts(m, d), pos + |DurationText(d)|)
  {
    match d
    case Default(dots) => DefaultRead(AtTempo(m.fs, m.tempo, m.deflen), text, pos, dots);
    case Tied(values) => TiedRead(m, text, pos, values);
  }

  lemma {:induction false} TiedRead(m: Mml, text: string, pos: nat, vs: seq<Value>)
    requires vs != [] && AllSound(m.fs, m.tempo, vs, 0)
    requires Written(text, pos, Tie(PartsOf(vs))) && Ends(Ch(text, pos + |Tie(PartsOf(vs))|))
    ensures LengthAt(m, text, pos) == Measured(Total(m.fs, m.tempo, vs, 0), pos + |Tie(PartsOf(vs))|)
  {
    TotalIsSum(m.fs, m.tempo, m.deflen, vs, 0);
    SoundIsPositive(m.fs, m.tempo, m.deflen, vs, 0);
    TieIsSum(AtTempo(m.fs, m.tempo, m.deflen), text, pos, PartsOf(vs));
  }

  /** What a duration can begin with. */
  lemma {:induction false} DurationStarts(d: Duration)
    requires d.Tied? ==> d.values != []
    ensures DurationText(d) != "" ==> IsDigit(DurationText(d)[0]) || DurationText(d)[0] == '.'
  {
    if d.Tied? {
      NumberOfDecimal(d.values[0].num);
      var p := PartsOf(d.values)[0];
      assert DurationText(d)[0] == p.digits[0];
    }
  }

  // ---------------------------------------------------------------------------- events

  /** What stands in the brackets of a chord. */
  datatype Item = Pitch(letter: char, accidentals: string) | ItemUp | ItemDown | ItemOctave(n: nat)

  datatype Event =
    | SetTempo(n: nat) | SetLength(n: nat) | SetOctave(n: nat) | SetVolume(n: nat) | SetTone(n: nat)
    | Up | Down
    | PlayNote(letter: char, accidentals: string, d: Duration)
    | Pause(d: Duration)
    | PlayChord(items: seq<Item>, d: Duration)

  /** The octave behind the items of a chord. */
  function OctaveAfter(octave: int, items: seq<Item>): int
    decreases |items|
  {
    if items == [] then octave else OctaveAfter(OctaveBehind(octave, items[0]), items[1..])
  }

  function OctaveBehind(octave: int, i: Item): int {
    match i
    case Pitch(_, _) => octave
    case ItemUp => octave + 1
    case ItemDown => octave - 1
    case ItemOctave(n) => n
  }

  /** What an event does and what the caller is told. */
  datatype Meaning = Meaning(m: Mml, kind: Kind, value: int)

  function Sounds(m: Mml, d: Duration, good: Kind, bad: Kind): Meaning {
    Meaning(m, if Lasts(m, d) < 0 then bad else good, Lasts(m, d))
  }

  function MeaningOf(m: Mml, e: Event): Meaning {
    match e
    case SetTempo(n) => Meaning(m.(tempo := n), Tempo, n)
    case SetLength(n) => Meaning(m.(deflen := n), DefaultLength, n)
    case SetOctave(n) => Meaning(m.(octave := n), Octave, n)
    case SetVolume(n) => Meaning(m, if n <= 100 then Volume else VolumeError, n)
    case SetTone(n) => Meaning(m, Tone, n)
    case Up => Meaning(m.(octave := m.octave + 1), Octave, m.octave + 1)
    case Down => Meaning(m.(octave := m.octave - 1), Octave, m.octave - 1)
    case PlayNote(_, _, d) => Sounds(m, d, Note, NoteError)
    case Pause(d) => Sounds(m, d, Rest, RestError)
    case PlayChord(items, d) => Sounds(m.(octave := OctaveAfter(m.octave, items)), d, Chord, ChordError)
  }

  // ------------------------------------------------------------------- how events are written

  /** A number from `pos` to `end`. */
  ghost predicate NumberAt(text: string, pos: nat, end: nat, n: nat) {
    Written(text, pos, Decimal(n)) && end == pos + |Decimal(n)| && !IsDigit(Ch(text, end))
  }

  /** Sharps and flats. */
  const ACCIDENTALS := {'+', '#', '-'}

  const LETTERS := {'A', 'B', 'C', 'D', 'E', 'F', 'G'}

  ghost predicate AccidentalsAt(text: string, pos: nat, end: nat, s: string) {
    && Written(text, pos, s) && end == pos + |s| && Ch(text, end) !in ACCIDENTALS
    && forall k :: 0 <= k < |s| ==> s[k] in ACCIDENTALS
  }

  ghost predicate DurationAt(m: Mml, text: string, pos: nat, end: nat, d: Duration) {
    && DurationOk(m, d) && Written(text, pos, DurationText(d))
    && end == pos + |DurationText(d)| && Ends(Ch(text, end))
  }

  ghost predicate ItemAt(i: Item, text: string, pos: nat, end: nat) {
    && pos < |text|
    && match i
       case Pitch(letter, accidentals) =>
         letter in LETTERS && text[pos] == letter && AccidentalsAt(text, pos + 1, end, accidentals)
       case ItemUp => text[pos] == '>' && end == pos + 1
       case ItemDown => text[pos] == '<' && end == pos + 1
       case ItemOctave(n) => text[pos] == 'O' && NumberAt(text, pos + 1, end, n)
  }

  /** The items of a chord from `pos` to the bracket at `end`; `ends` says where each of them ends. */
  ghost predicate ItemsAt(items: seq<Item>, ends: seq<nat>, text: string, pos: nat, end: nat)
    decreases |items|
  {
    && |ends| == |items| && pos <= |text|
    && if items == [] then end < |text| && end == SkipSpace(text, pos) && text[end] == ']'
       else
         && ItemAt(items[0], text, SkipSpace(text, pos), ends[0])
         && ItemsAt(items[1..], ends[1..], text, ends[0], end)
  }

  /** A chord behind its `[`, with the place of its `]`. */
  ghost predicate ChordAt(m: Mml, items: seq<Item>, d: Duration, text: string, pos: nat, end: nat) {
    exists ends: seq<nat>, close: nat ::
      ItemsAt(items, ends, text, pos, close) && DurationAt(m, text, close + 1, end, d)
  }

  /** A note behind its letter. */
  ghost predicate NoteAt(m: Mml, accidentals: string, d: Duration, text: string, pos: nat, end: nat) {
    && AccidentalsAt(text, pos, pos + |accidentals|, accidentals)
    && DurationAt(m, text, pos + |accidentals|, end, d)
  }

  /** The event is written from `pos` to `end`. */
  ghost predicate EventAt(m: Mml, e: Event, text: string, pos: nat, end: nat) {
    && pos < |text|
    && match e
       case SetTempo(n) => text[pos] == 'T' && NumberAt(text, pos + 1, end, n)
       case SetLength(n) => text[pos] == 'L' && NumberAt(text, pos + 1, end, n)
       case SetOctave(n) => text[pos] == 'O' && NumberAt(text, pos + 1, end, n)
       case SetVolume(n) => text[pos] == 'V' && NumberAt(text, pos + 1, end, n)
       case SetTone(n) => text[pos] == '@' && NumberAt(text, pos + 1, end, n)
       case Up => text[pos] == '>' && end == pos + 1
       case Down => text[pos] == '<' && end == pos + 1
       case PlayNote(letter, accidentals, d) =>
         letter in LETTERS && text[pos] == letter && NoteAt(m, accidentals, d, text, pos + 1, end)
       case Pause(d) => text[pos] == 'R' && DurationAt(m, text, pos + 1, end, d)
       case PlayChord(items, d) => text[pos] == '[' && ChordAt(m, items, d, text, pos + 1, end)
  }

  // ---------------------------------------------------------------------------- reading

  lemma {:induction false} NoSpace(text: string, pos: nat)
    requires pos <= |text| && !IsSpace(Ch(text, pos))
    ensures SkipSpace(text, pos) == pos
  {}

  lemma {:induction false} NumberRead(text: string, pos: nat, end: nat, n: nat)
    requires NumberAt(text, pos, end, n)
    ensures pos < end <= |text| && IsDigit(Ch(text, pos)) && DigitsEnd(text, pos) == end
    ensures Number(text[pos..end]) == n
  {
    NumberOfDecimal(n);
    DigitsRead(text, pos, Decimal(n));
    assert text[pos] == Decimal(n)[0];
  }

  lemma {:induction false} AccidentalsRead(text: string, pos: nat, end: nat, s: string)
    requires AccidentalsAt(text, pos, end, s)
    ensures end <= |text| && AccidentalsEnd(text, pos) == end
    decreases |s|
  {
    if s != "" {
      assert text[pos] == s[0];
      assert Written(text, pos + 1, s[1..]);
      AccidentalsRead(text, pos + 1, end, s[1..]);
    }
  }

  lemma {:induction false} LengthRead(m: Mml, text: string, pos: nat, end: nat, d: Duration)
    requires DurationAt(m, text, pos, end, d)
    ensures pos <= end <= |text| && LengthAt(m, text, pos) == Measured(Lasts(m, d), end)
  {
    DurationRead(m, text, pos, d);
  }

  // The parser at a code, given what stands behind it.

  lemma {:induction false} NumberAtCode(m: Mml, text: string, pos: nat, end: nat, n: nat)
    requires pos < |text| && IsDigit(Ch(text, pos + 1)) && Ok(m)
    requires DigitsEnd(text, pos + 1) == end && Number(text[pos + 1..end]) == n
    ensures
      var r := Parse(m, text, pos);
      match text[pos]
      case 'T' => r == Parsed(m.(tempo := n), end, Tempo, n)
      case 'L' => r == Parsed(m.(deflen := n), end, DefaultLength, n)
      case '@' => r == Parsed(m, end, Tone, n)
      case 'O' => r == Parsed(m.(octave := n), end, Octave, n)
      case 'V' => r == Parsed(m, end, if n <= 100 then Volume else VolumeError, n)
      case _ => true
  {
    if !IsSpace(text[pos]) { NoSpace(text, pos); }
    NoSpace(text, pos + 1);
  }

  lemma {:induction false} StepAtCode(m: Mml, text: string, pos: nat)
    requires pos < |text| && Ok(m)
    ensures text[pos] == '>' ==>
              Parse(m, text, pos) == Parsed(m.(octave := m.octave + 1), pos + 1, Octave, m.octave + 1)
    ensures text[pos] == '<' ==>
              Parse(m, text, pos) == Parsed(m.(octave := m.octave - 1), pos + 1, Octave, m.octave - 1)
  {
    if !IsSpace(text[pos]) { NoSpace(text, pos); }
  }

  lemma {:induction false} NoteAtCode(m: Mml, text: string, pos: nat, p: nat, l: Measured)
    requires pos < |text| && IsNoteLetter(text[pos]) && !m.inTuplet
    requires AccidentalsEnd(text, pos + 1) == p && LengthAt(m, text, p) == l
    ensures Parse(m, text, pos) == Parsed(m, l.pos, if l.samples < 0 then NoteError else Note, l.samples)
  {
    NoSpace(text, pos);
  }

  lemma {:induction false} RestAtCode(m: Mml, text: string, pos: nat, l: Measured)
    requires pos < |text| && text[pos] == 'R' && !m.inTuplet && LengthAt(m, text, pos + 1) == l
    ensures Parse(m, text, pos) == Parsed(m, l.pos, if l.samples < 0 then RestError else Rest, l.samples)
  {
    NoSpace(text, pos);
  }

  lemma {:induction false} ChordAtCode(m: Mml, text: string, pos: nat, c: Parsed, l: Measured)
    requires pos < |text| && text[pos] == '[' && !m.inTuplet
    requires ParsePitches(m, text, pos + 1) == c && c.kind == Chord && LengthAt(c.m, text, c.pos) == l
    ensures Parse(m, text, pos) == Parsed(c.m, l.pos, if l.samples < 0 then ChordError else Chord, l.samples)
  {
    NoSpace(text, pos);
  }

  // ----------------------------------------------------------------------------- chords

  /** One code of a chord, given what stands behind it. */
  lemma {:induction false} PitchAtCode(m: Mml, text: string, pos: nat, p: nat, end: nat, n: nat)
    requires pos <= |text| && SkipSpace(text, pos) == p < |text|
    ensures IsNoteLetter(text[p]) && AccidentalsEnd(text, p + 1) == end ==>
              ParsePitch(m, text, pos) == PitchStep(false, Parsed(m, end, Chord, 0))
    ensures text[p] == 'O' && IsDigit(Ch(text, p + 1)) && DigitsEnd(text, p + 1) == end
            && Number(text[p + 1..end]) == n ==>
              ParsePitch(m, text, pos) == PitchStep(false, Parsed(m.(octave := n), end, Octave, n))
    ensures text[p] == '>' ==>
              ParsePitch(m, text, pos)
              == PitchStep(false, Parsed(m.(octave := m.octave + 1), p + 1, Octave, m.octave + 1))
    ensures text[p] == '<' ==>
              ParsePitch(m, text, pos)
              == PitchStep(false, Parsed(m.(octave := m.octave - 1), p + 1, Octave, m.octave - 1))
    ensures text[p] == ']' ==> ParsePitch(m, text, pos) == PitchStep(true, Parsed(m, p + 1, Chord, 0))
  {}

  lemma {:induction false} ItemRead(m: Mml, i: Item, text: string, pos: nat, end: nat)
    requires pos <= |text| && ItemAt(i, text, SkipSpace(text, pos), end)
    ensures end <= |text|
    ensures
      var s := ParsePitch(m, text, pos);
      !s.over && s.at.m == m.(octave := OctaveBehind(m.octave, i)) && s.at.pos == end
  {
    var p := SkipSpace(text, pos);
    match i
    case Pitch(_, accidentals) =>
      AccidentalsRead(text, p + 1, end, accidentals);
      PitchAtCode(m, text, pos, p, end, 0);
    case ItemOctave(n) =>
      NumberRead(text, p + 1, end, n);
      PitchAtCode(m, text, pos, p, end, n);
    case _ => PitchAtCode(m, text, pos, p, end, 0);
  }

  lemma {:induction false} NextItem(m: Mml, text: string, pos: nat, m1: Mml, p: nat)
    requires pos <= |text| && !ParsePitch(m, text, pos).over
    requires ParsePitch(m, text, pos).at.m == m1 && ParsePitch(m, text, pos).at.pos == p
    ensures p <= |text| && ParsePitches(m, text, pos) == ParsePitches(m1, text, p)
  {}

  lemma {:induction false} LastItem(m: Mml, text: string, pos: nat, end: nat)
    requires pos <= |text| && end == SkipSpace(text, pos) < |text| && text[end] == ']'
    ensures ParsePitches(m, text, pos) == Parsed(m, end + 1, Chord, 0)
  {
    PitchAtCode(m, text, pos, end, 0, 0);
  }

  lemma {:induction false} ItemsRead(m: Mml, items: seq<Item>, ends: seq<nat>, text: string, pos: nat, end: nat)
    requires ItemsAt(items, ends, text, pos, end)
    ensures ParsePitches(m, text, pos) == Parsed(m.(octave := OctaveAfter(m.octave, items)), end + 1, Chord, 0)
    decreases |items|
  {
    if items == [] {
      LastItem(m, text, pos, end);
    } else {
      var m1 := m.(octave := OctaveBehind(m.octave, items[0]));
      ItemRead(m, items[0], text, pos, ends[0]);
      NextItem(m, text, pos, m1, ends[0]);
      ItemsRead(m1, items[1..], ends[1..], text, ends[0], end);
    }
  }

  // ----------------------------------------------------------------------------- events

  /** The parser reads the event. */
  ghost predicate ReadAs(m: Mml, e: Event, text: string, pos: nat, end: nat)
    requires pos <= |text| && Ok(m)
  {
    var r := MeaningOf(m, e);
    Parse(m, text, pos) == Parsed(r.m, end, r.kind, r.value)
  }

  lemma {:induction false} NoteRead(m: Mml, e: Event, text: string, pos: nat, end: nat)
    requires e.PlayNote? && EventAt(m, e, text, pos, end) && !m.inTuplet
    ensures ReadAs(m, e, text, pos, end)
  {
    var p := pos + 1 + |e.accidentals|;
    AccidentalsRead(text, pos + 1, p, e.accidentals);
    LengthRead(m, text, p, end, e.d);
    NoteAtCode(m, text, pos, p, Measured(Lasts(m, e.d), end));
  }

  lemma {:induction false} ChordRead(m: Mml, e: Event, text: string, pos: nat, end: nat)
    requires e.PlayChord? && EventAt(m, e, text, pos, end) && !m.inTuplet
    ensures ReadAs(m, e, text, pos, end)
  {
    var c := ChordParts(m, e.items, e.d, text, pos + 1, end);
    ChordAtCode(m, text, pos, c, Measured(Lasts(c.m, e.d), end));
  }

  lemma {:induction false} ChordParts(m: Mml, items: seq<Item>, d: Duration, text: string, pos: nat, end: nat)
    returns (c: Parsed)
    requires ChordAt(m, items, d, text, pos, end)
    ensures pos <= |text| && c == ParsePitches(m, text, pos) && c.kind == Chord
    ensures c.m == m.(octave := OctaveAfter(m.octave, items))
    ensures c.pos <= |text| && LengthAt(c.m, text, c.pos) == Measured(Lasts(c.m, d), end)
  {
    var ends: seq<nat>, close: nat :| ItemsAt(items, ends, text, pos, close) && DurationAt(m, text, close + 1, end, d);
    ItemsRead(m, items, ends, text, pos, close);
    c := Parsed(m.(octave := OctaveAfter(m.octave, items)), close + 1, Chord, 0);
    SameDuration(m, c.m, text, close + 1, end, d);
    LengthRead(c.m, text, close + 1, end, d);
  }

  /** A duration does not depend on the octave. */
  lemma {:induction false} SameDuration(m: Mml, m1: Mml, text: string, pos: nat, end: nat, d: Duration)
    requires DurationAt(m, text, pos, end, d) && m1 == m.(octave := m1.octave)
    ensures DurationAt(m1, text, pos, end, d)
  {}

  lemma {:induction false} NumberEventRead(m: Mml, e: Event, text: string, pos: nat, end: nat)
    requires e.SetTempo? || e.SetLength? || e.SetOctave? || e.SetVolume? || e.SetTone?
    requires EventAt(m, e, text, pos, end) && !m.inTuplet
    ensures ReadAs(m, e, text, pos, end)
  {
    NumberRead(text, pos + 1, end, e.n);
    NumberAtCode(m, text, pos, end, e.n);
  }

  lemma {:induction false} PauseRead(m: Mml, e: Event, text: string, pos: nat, end: nat)
    requires e.Pause? && EventAt(m, e, text, pos, end) && !m.inTuplet
    ensures ReadAs(m, e, text, pos, end)
  {
    LengthRead(m, text, pos + 1, end, e.d);
    RestAtCode(m, text, pos, Measured(Lasts(m, e.d), end));
  }

  /** Every event is read as it is meant. */
  lemma {:induction false} EventRead(m: Mml, e: Event, text: string, pos: nat, end: nat)
    requires EventAt(m, e, text, pos, end) && !m.inTuplet
    ensures ReadAs(m, e, text, pos, end)
  {
    match e
    case Up => StepAtCode(m, text, pos);
    case Down => StepAtCode(m, text, pos);
    case PlayNote(_, _, _) => NoteRead(m, e, text, pos, end);
    case Pause(_) => PauseRead(m, e, text, pos, end);
    case PlayChord(_, _) => ChordRead(m, e, text, pos, end);
    case _ => NumberEventRead(m, e, text, pos, end);
  }

  // ----------------------------------------------------------------------- whole scores

  /** What the caller is told. */
  datatype Told = Told(kind: Kind, value: int)

  /** The answers of the parser up to the end of the text. */
  ghost function ReadAll(m: Mml, text: string, pos: nat): seq<Told>
    requires Ok(m)
    decreases |text| + 1 - pos
  {
    if pos > |text| then []
    else
      var r := Parse(m, text, pos);
      if r.kind == Eof then [] else [Told(r.kind, r.length)] + ReadAll(r.m, text, r.pos)
  }

  /** What the events mean, each in the situation that those before it made. */
  function MeaningAll(m: Mml, es: seq<Event>): seq<Told>
    decreases |es|
  {
    if es == [] then []
    else
      var r := MeaningOf(m, es[0]);
      [Told(r.kind, r.value)] + MeaningAll(r.m, es[1..])
  }

  /** The events are written from `pos` to the end of the text, with white space or not; `ends` says where each ends. */
  ghost predicate ScoreAt(m: Mml, es: seq<Event>, ends: seq<nat>, text: string, pos: nat)
    decreases |es|
  {
    && |ends| == |es| && pos <= |text| && !m.inTuplet
    && if es == [] then SkipSpace(text, pos) == |text|
       else
         && EventAt(m, es[0], text, SkipSpace(text, pos), ends[0])
         && ScoreAt(MeaningOf(m, es[0]).m, es[1..], ends[1..], text, ends[0])
  }

  lemma {:induction false} ParseSkips(m: Mml, text: string, pos: nat)
    requires pos <= |text| && Ok(m)
    ensures Parse(m, text, pos) == Parse(m, text, SkipSpace(text, pos))
  {
    NoSpace(text, SkipSpace(text, pos));
  }

  lemma {:induction false} MeaningGoesOn(m: Mml, e: Event)
    requires !m.inTuplet
    ensures MeaningOf(m, e).kind != Eof && !MeaningOf(m, e).m.inTuplet
  {}

  lemma {:induction false} ReadOnce(m: Mml, text: string, pos: nat, r: Parsed)
    requires Ok(m) && pos <= |text| && r == Parse(m, text, pos) && r.kind != Eof
    ensures ReadAll(m, text, pos) == [Told(r.kind, r.length)] + ReadAll(r.m, text, r.pos)
  {}

  lemma {:induction false} OneTold(m: Mml, e: Event, text: string, pos: nat, end: nat)
    requires !m.inTuplet && pos <= |text| && EventAt(m, e, text, SkipSpace(text, pos), end)
    ensures
      var r := MeaningOf(m, e);
      Ok(r.m) && ReadAll(m, text, pos) == [Told(r.kind, r.value)] + ReadAll(r.m, text, end)
  {
    var r := MeaningOf(m, e);
    ParseSkips(m, text, pos);
    EventRead(m, e, text, SkipSpace(text, pos), end);
    MeaningGoesOn(m, e);
    ReadOnce(m, text, pos, Parsed(r.m, end, r.kind, r.value));
  }

  lemma {:induction false} NothingTold(m: Mml, text: string, pos: nat)
    requires Ok(m) && pos <= |text| && SkipSpace(text, pos) == |text|
    ensures ReadAll(m, text, pos) == []
  {}

  /**
   A score of tempos, lengths, octaves, volumes, tones, notes, rests and chords is read as it is
   meant: every answer of the parser is what the event means after those before it.
   */
  lemma {:induction false} ScoreIsRead(m: Mml, es: seq<Event>, ends: seq<nat>, text: string, pos: nat)
    requires ScoreAt(m, es, ends, text, pos)
    ensures ReadAll(m, text, pos) == MeaningAll(m, es)
    decreases |es|
  {
    if es == [] {
      NothingTold(m, text, pos);
    } else {
      OneTold(m, es[0], text, pos, ends[0]);
      ScoreIsRead(MeaningOf(m, es[0]).m, es[1..], ends[1..], text, ends[0]);
    }
  }

  // -------------------------------------------------------------------------- what is heard

  lemma {:induction false} TwoMeanings(m: Mml, e: Event, f: Event)
    ensures
      var (r, s) := (MeaningOf(m, e), MeaningOf(MeaningOf(m, e).m, f));
      MeaningAll(m, [e, f]) == [Told(r.kind, r.value), Told(s.kind, s.value)]
  {
    assert [e, f][1..] == [f] && [f][1..] == [];
    assert MeaningAll(MeaningOf(m, e).m, [f]) == [Told(MeaningOf(MeaningOf(m, e).m, f).kind,
                                                      MeaningOf(MeaningOf(m, e).m, f).value)];
  }

  /** What a written score of two events tells, given what the events mean. */
  lemma {:induction false} TwoTold(m: Mml, e: Event, f: Event, ends: seq<nat>, text: string, a: Meaning, b: Meaning)
    requires ScoreAt(m, [e, f], ends, text, 0) && a == MeaningOf(m, e) && b == MeaningOf(a.m, f)
    ensures Ok(m) && ReadAll(m, text, 0) == [Told(a.kind, a.value), Told(b.kind, b.value)]
  {
    ScoreIsRead(m, [e, f], ends, text, 0);
    TwoMeanings(m, e, f);
  }

  lemma {:induction false} NoteMeaning(m: Mml, letter: char, v: nat)
    requires IsNoteValue(v) && v > 0 && m.tempo > 0
    ensures MeaningOf(m, PlayNote(letter, "", Tied([Value(v, 0)]))) == Meaning(m, Note, 240 * m.fs / (v * m.tempo))
  {
    var vs := [Value(v, 0)];
    assert vs[1..] == [] && Total(m.fs, m.tempo, vs, 0) == Samples(m.fs, m.tempo, v, 0) + Total(m.fs, m.tempo, [], 0);
    WholeNote(m.fs, m.tempo, v);
  }

  lemma {:induction false} WholeNote(fs: nat, n: nat, v: nat)
    requires IsNoteValue(v) && v > 0 && n > 0
    ensures Samples(fs, n, v, 0) == 240 * fs / (v * n) >= 0
  {
    MulMono(1, v, n);
    WholeBy(fs, v * n);
  }

  lemma {:induction false} WholeBy(fs: nat, d: nat)
    requires d > 0
    ensures 15 * fs * Dotted(0) / d == 240 * fs / d >= 0
  {
    assert 15 * fs * Dotted(0) == 240 * fs;
  }

  /** After `T` a note value is so many samples, whatever the tempo was. */
  lemma {:induction false} TempoIsHeard(m: Mml, n: nat, letter: char, v: nat, ends: seq<nat>, text: string)
    requires IsNoteValue(v) && v > 0 && n > 0
    requires ScoreAt(m, [SetTempo(n), PlayNote(letter, "", Tied([Value(v, 0)]))], ends, text, 0)
    ensures Ok(m) && ReadAll(m, text, 0) == [Told(Tempo, n), Told(Note, 240 * m.fs / (v * n))]
  {
    var m1 := m.(tempo := n);
    NoteMeaning(m1, letter, v);
    TwoTold(m, SetTempo(n), PlayNote(letter, "", Tied([Value(v, 0)])), ends, text,
            Meaning(m1, Tempo, n), Meaning(m1, Note, 240 * m.fs / (v * n)));
  }

  lemma {:induction false} BareMeaning(m: Mml, letter: char)
    requires IsNoteValue(m.deflen)
    ensures MeaningOf(m, PlayNote(letter, "", Default(0))) == Meaning(m, Note, Samples(m.fs, m.tempo, m.deflen, 0))
  {
    NoteHasLength(m.fs, m.tempo, m.deflen);
  }

  lemma {:induction false} NoteHasLength(fs: nat, tempo: nat, num: int)
    requires IsNoteValue(num)
    ensures Samples(fs, tempo, num, 0) >= 0
  {
    if tempo > 0 && num > 0 { assert num * tempo > 0; }
  }

  /** After `L` a bare note has the note value that was set, at the tempo there was. */
  lemma {:induction false} LengthIsHeard(m: Mml, n: nat, letter: char, ends: seq<nat>, text: string)
    requires IsNoteValue(n)
    requires ScoreAt(m, [SetLength(n), PlayNote(letter, "", Default(0))], ends, text, 0)
    ensures Ok(m) && ReadAll(m, text, 0) == [Told(DefaultLength, n), Told(Note, Samples(m.fs, m.tempo, n, 0))]
  {
    var m1 := m.(deflen := n);
    BareMeaning(m1, letter);
    TwoTold(m, SetLength(n), PlayNote(letter, "", Default(0)), ends, text,
            Meaning(m1, DefaultLength, n), Meaning(m1, Note, Samples(m.fs, m.tempo, n, 0)));
  }

  /** `O` sets the octave, and `>` goes up from there. */
  lemma {:induction false} OctaveIsSet(m: Mml, n: nat, ends: seq<nat>, text: string)
    requires ScoreAt(m, [SetOctave(n), Up], ends, text, 0)
    ensures Ok(m) && ReadAll(m, text, 0) == [Told(Octave, n), Told(Octave, n + 1)]
  {
    TwoTold(m, SetOctave(n), Up, ends, text, Meaning(m.(octave := n), Octave, n),
            Meaning(m.(octave := n + 1), Octave, n + 1));
  }

  /** `<` undoes `>`. */
  lemma {:induction false} OctaveIsRestored(m: Mml, ends: seq<nat>, text: string)
    requires ScoreAt(m, [Up, Down], ends, text, 0)
    ensures Ok(m) && ReadAll(m, text, 0) == [Told(Octave, m.octave + 1), Told(Octave, m.octave)]
  {
    TwoTold(m, Up, Down, ends, text, Meaning(m.(octave := m.octave + 1), Octave, m.octave + 1),
            Meaning(m, Octave, m.octave));
  }

  // -------------------------------------------------------------------------------- tuplets

  /** `{` takes the length that is written behind the `}`. */
  lemma {:induction false} TupletOpened(m: Mml, text: string, pos: nat, end: nat, d: Duration)
    requires pos < |text| && text[pos] == '{' && !m.inTuplet
    requires Closed(Count(text, pos + 1), text) && Count(text, pos + 1).notes > 0
    requires DurationAt(m, text, Count(text, pos + 1).end + 1, end, d)
    ensures
      var (r, n) := (Parse(m, text, pos), Count(text, pos + 1).notes);
      r == Parsed(m.(inTuplet := true, cur := 0, notes := n, length := Lasts(m, d)), pos + 1, TupletStart, Lasts(m, d))
  {
    LengthRead(m, text, Count(text, pos + 1).end + 1, end, d);
    OpenedAt(m, text, pos, Measured(Lasts(m, d), end));
  }

  lemma {:induction false} OpenedAt(m: Mml, text: string, pos: nat, l: Measured)
    requires pos < |text| && text[pos] == '{' && !m.inTuplet
    requires Closed(Count(text, pos + 1), text) && Count(text, pos + 1).notes > 0
    requires l == LengthAt(m, text, Count(text, pos + 1).end + 1)
    ensures
      var (r, n) := (Parse(m, text, pos), Count(text, pos + 1).notes);
      r == Parsed(m.(inTuplet := true, cur := 0, notes := n, length := l.samples), pos + 1, TupletStart, l.samples)
  {
    NoSpace(text, pos);
  }

  /** `}` ends the tuplet, passes over the length behind it and tells whether all notes were there. */
  lemma {:induction false} TupletClosed(m: Mml, text: string, pos: nat, end: nat, d: Duration)
    requires pos < |text| && text[pos] == '}' && Ok(m) && DurationAt(m, text, pos + 1, end, d)
    ensures Parse(m, text, pos)
         == Parsed(m.(inTuplet := false), end, if m.cur == m.notes then TupletDone else TooFewNotes, 0)
  {
    LengthRead(m, text, pos + 1, end, d);
    NoSpace(text, pos);
  }

  /** A note beyond the last one is refused. */
  lemma {:induction false} FullTupletRefuses(m: Mml, text: string, pos: nat)
    requires pos < |text| && text[pos] in LETTERS && m.inTuplet && Ok(m) && m.cur >= m.notes
    ensures Parse(m, text, pos) == Parsed(m, pos + 1, TooManyNotes, 0)
  {
    NoSpace(text, pos);
  }

  // --------------------------------------------------------------------------------- errors

  /** A code without its number changes nothing and is an error of its own. */
  lemma {:induction false} NumberMissing(m: Mml, text: string, pos: nat)
    requires pos < |text| && Ok(m) && !IsDigit(Ch(text, pos + 1))
    ensures
      var r := Parse(m, text, pos);
      match text[pos]
      case 'T' => r == Parsed(m, pos + 1, TempoError, 0)
      case 'L' => r == Parsed(m, pos + 1, LengthError, 0)
      case '@' => r == Parsed(m, pos + 1, ToneError, 0)
      case 'O' => r == Parsed(m, pos + 1, OctaveError, 0)
      case _ => true
  {
    if !IsSpace(text[pos]) { NoSpace(text, pos); }
  }

  /** A volume may have a sign; the score then goes on in front of the sign. */
  lemma {:induction false} SignedVolume(m: Mml, text: string, pos: nat, end: nat, n: nat)
    requires pos + 1 < |text| && Ok(m) && text[pos] == 'V' && NumberAt(text, pos + 2, end, n)
    ensures text[pos + 1] == '-' ==>
              Parse(m, text, pos) == Parsed(m, pos + 1, if n == 0 then Volume else VolumeError, 0 - n)
    ensures text[pos + 1] == '+' ==>
              Parse(m, text, pos) == Parsed(m, pos + 1, if n <= 100 then Volume else VolumeError, n)
  {
    NumberRead(text, pos + 2, end, n);
    SignedNumber(text, pos + 1, end, n);
    NoSpace(text, pos);
  }

  lemma {:induction false} SignedNumber(text: string, pos: nat, end: nat, n: nat)
    requires pos < |text| && DigitsEnd(text, pos + 1) == end && Number(text[pos + 1..end]) == n
    ensures text[pos] == '-' ==> Atoi(text, pos) == 0 - n && DigitsEnd(text, pos) == pos
    ensures text[pos] == '+' ==> Atoi(text, pos) == n && DigitsEnd(text, pos) == pos
  {
    if !IsSpace(text[pos]) { NoSpace(text, pos); }
  }

  /** Anything that is no code is refused and passed over. */
  lemma {:induction false} OthersRefused(m: Mml, text: string, pos: nat)
    requires pos < |text| && Ok(m) && !IsSpace(text[pos]) && text[pos] !in LETTERS
    requires text[pos] !in {'R', 'T', 'L', '@', 'O', '>', '<', 'V', '[', '{', '}'}
    ensures Parse(m, text, pos) == Parsed(m, pos + 1, IllegalComposition, 0)
  {
    NoSpace(text, pos);
  }
}
