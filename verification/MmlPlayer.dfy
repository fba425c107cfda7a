/**
 The parser as it is written: a structure whose fields the calls update, and
 loops that walk over the score.  Every method is proved to do what the
 functions of MmlParser say.
 */
module MmlPlayer {
  import opened Basics
  import opened MmlLength
  import opened MmlParser

  method SkipSpaces(text: string, start: nat) returns (pos: nat)
    requires start <= |text|
    ensures pos == SkipSpace(text, start)
  {
    pos := start;
    while IsSpace(Ch(text, pos))
      invariant start <= pos <= |text| && SkipSpace(text, start) == SkipSpace(text, pos)
      decreases |text| - pos
    {
      pos := pos + 1;
    }
  }

  method SkipAccidentals(text: string, start: nat) returns (pos: nat)
    requires start <= |text|
    ensures pos == AccidentalsEnd(text, start)
  {
    pos := start;
    while IsAccidental(Ch(text, pos))
      invariant start <= pos <= |text| && AccidentalsEnd(text, start) == AccidentalsEnd(text, pos)
      decreases |text| - pos
    {
      pos := pos + 1;
    }
  }

  method SkipTo(text: string, start: nat, c: char) returns (pos: nat)
    requires start <= |text|
    ensures pos == SkipUntil(text, start, c)
  {
    pos := start;
    while pos < |text| && text[pos] != c
      invariant start <= pos <= |text| && SkipUntil(text, start, c) == SkipUntil(text, pos, c)
    {
      pos := pos + 1;
    }
  }

  method PassItem(text: string, pos: nat) returns (q: nat, k: nat)
    requires pos <= |text|
    ensures q == ItemEnd(text, pos) && k == ItemNotes(Ch(text, pos))
  {
    q, k := pos, 0;
    if IsNoteLetter(Ch(text, pos)) || Ch(text, pos) == 'R' {
      k := 1;
    } else if Ch(text, pos) == '[' {
      q := SkipTo(text, pos, ']');
      k := 1;
    }
  }

  /** The loop of count_tupletnotes. */
  method CountNotes(text: string, start: nat) returns (r: Counted)
    requires start <= |text|
    ensures r == Count(text, start)
  {
    var notes: nat := 0;
    var pos := SkipSpaces(text, start);
    ghost var goal := CountItems(text, pos);
    while Ch(text, pos) != '}'
      invariant pos <= |text| && goal == AddNotes(notes, CountItems(text, pos))
      decreases |text| - pos
    {
      var q, k := PassItem(text, pos);
      if q == |text| { return Counted(notes + 1, q); }
      notes := notes + k;
      pos := SkipSpaces(text, q + 1);
    }
    r := Counted(notes, pos);
  }

  /** One pass of the loop of handle_startchord. */
  method PitchOnce(m: Mml, text: string, pos: nat) returns (r: PitchStep)
    requires pos <= |text|
    ensures r == ParsePitch(m, text, pos)
  {
    var p := SkipSpaces(text, pos);
    var c := Ch(text, p);
    r := PitchStep(true, Parsed(m, p + 1, ChordError, 0));
    if p == |text| { return; }
    if c == ']' {
      r := PitchStep(true, Parsed(m, p + 1, Chord, 0));
    } else if IsPitch(c) {
      var e := SkipAccidentals(text, p + 1);
      r := PitchStep(false, Parsed(m, e, Chord, 0));
    } else if c == 'O' || c == '>' || c == '<' {
      var o := ParseOctave(m, text, c, p + 1);
      if o.kind != OctaveError { r := PitchStep(false, o); }
    }
  }

  /** The loop of handle_startchord. */
  method PitchLoop(m: Mml, text: string, start: nat) returns (r: Parsed)
    requires start <= |text|
    ensures r == ParsePitches(m, text, start)
  {
    var s := PitchOnce(m, text, start);
    while !s.over
      invariant s.over ==> s.at == ParsePitches(m, text, start)
      invariant !s.over ==> s.at.pos <= |text| && ParsePitches(s.at.m, text, s.at.pos) == ParsePitches(m, text, start)
      decreases !s.over, |text| - s.at.pos
    {
      s := PitchOnce(s.at.m, text, s.at.pos);
    }
    r := s.at;
  }

  class Player {
    var fs: nat
    var tempo: nat
    var octave: int
    var deflen: int
    var inTuplet: bool
    var cur: nat
    var notes: nat
    var length: int

    ghost function View(): Mml
      reads this
    {
      Mml(fs, tempo, octave, deflen, inTuplet, cur, notes, length)
    }

    ghost predicate Valid()
      reads this
    {
      Ok(View())
    }

    /** init_mml */
    constructor (fs: nat, tempo: nat, octave: int, deflen: int)
      ensures Valid() && View() == Mml(fs, tempo, octave, deflen, false, 0, 0, 0)
    {
      this.fs, this.tempo, this.octave, this.deflen := fs, tempo, octave, deflen;
      inTuplet, cur, notes, length := false, 0, 0, 0;
    }

    /** sample_length with the parser's settings */
    method MeasureLength(text: string, pos: nat) returns (samples: int, end: nat)
      requires pos <= |text|
      ensures Measured(samples, end) == LengthAt(View(), text, pos)
    {
      samples, end := SampleLength(AtTempo(fs, tempo, deflen), text, pos);
    }

    /** tuplet_length */
    method TupletLength() returns (ret: int)
      requires Valid() && inTuplet
      modifies this`cur
      ensures Valid() && View() == old(View()).(cur := old(cur) + 1) && ret == Share(old(View()))
    {
      ret := Quotient(length, notes);
      cur := cur + 1;
      if cur == notes {
        ret := length - ret * (notes - 1);
      }
    }

    method SetOctave(text: string, code: char, pos: nat) returns (end: nat, kind: Kind, len: int)
      requires pos <= |text|
      modifies this`octave
      ensures Parsed(View(), end, kind, len) == ParseOctave(old(View()), text, code, pos)
    {
      end, kind, len := pos, Octave, 0;
      if code == '>' {
        octave := octave + 1;
        len := octave;
      } else if code == '<' {
        octave := octave - 1;
        len := octave;
      } else if IsDigit(Ch(text, pos)) {
        end := DigitsEnd(text, pos);
        len := Number(text[pos..end]);
        octave := len;
      } else {
        kind := OctaveError;
      }
    }

    /** The pitches of handle_startchord. */
    method ReadPitches(text: string, start: nat) returns (pos: nat, kind: Kind, ghost r: Parsed)
      requires start <= |text|
      modifies this`octave
      ensures r == ParsePitches(old(View()), text, start) && View() == r.m && pos == r.pos && kind == r.kind
    {
      var read := PitchLoop(Mml(fs, tempo, octave, deflen, inTuplet, cur, notes, length), text, start);
      octave, pos, kind, r := read.m.octave, read.pos, read.kind, read;
    }

    method ReadChord(text: string, pos: nat) returns (end: nat, kind: Kind, len: int)
      requires pos <= |text| && Valid()
      modifies this
      ensures Valid() && Parsed(View(), end, kind, len) == ParseChord(old(View()), text, pos)
    {
      ghost var pitches;
      end, kind, pitches := ReadPitches(text, pos);
      len := 0;
      if kind == ChordError { return; }
      if inTuplet {
        len := TupletLength();
      } else {
        len, end := MeasureLength(text, end);
      }
      if len < 0 { kind := ChordError; }
    }

    method ReadNote(text: string, pos: nat) returns (end: nat, kind: Kind, len: int)
      requires pos <= |text| && Valid()
      modifies this
      ensures Valid() && Parsed(View(), end, kind, len) == ParseNote(old(View()), text, pos)
    {
      if !inTuplet {
        end := SkipAccidentals(text, pos);
        len, end := MeasureLength(text, end);
        kind := if len < 0 then NoteError else Note;
      } else if cur < notes {
        end := SkipAccidentals(text, pos);
        len := TupletLength();
        kind := Note;
      } else {
        end, kind, len := pos, TooManyNotes, 0;
      }
    }

    method ReadRest(text: string, pos: nat) returns (end: nat, kind: Kind, len: int)
      requires pos <= |text| && Valid()
      modifies this
      ensures Valid() && Parsed(View(), end, kind, len) == ParseRest(old(View()), text, pos)
    {
      if inTuplet {
        len := TupletLength();
        end, kind := pos, Rest;
      } else {
        len, end := MeasureLength(text, pos);
        kind := if len < 0 then RestError else Rest;
      }
    }

    method ReadNumber(text: string, pos: nat, code: char) returns (end: nat, kind: Kind, len: int)
      requires pos <= |text| && Valid()
      modifies this
      ensures Valid() && Parsed(View(), end, kind, len) == ParseNumber(old(View()), text, pos, code)
    {
      if IsDigit(Ch(text, pos)) {
        end := DigitsEnd(text, pos);
        var n := Number(text[pos..end]);
        len := n;
        if code == 'T' {
          tempo, kind := n, Tempo;
        } else if code == 'L' {
          deflen, kind := n, DefaultLength;
        } else {
          kind := Tone;
        }
      } else {
        end, len := pos, 0;
        kind := if code == 'T' then TempoError else if code == 'L' then LengthError else ToneError;
      }
    }

    /** handle_starttuplet */
    method BeginTuplet(text: string, pos: nat) returns (kind: Kind, len: int)
      requires pos <= |text| && Valid()
      modifies this
      ensures Valid() && Parsed(View(), pos, kind, len) == StartTuplet(old(View()), text, pos)
    {
      len := 0;
      if inTuplet { return DoubleTuplet, 0; }
      var counted := CountNotes(text, pos);
      var closed := counted.end < |text|;
      if closed {
        var e;
        length, e := MeasureLength(text, counted.end + 1);
      }
      notes := counted.notes;
      if !closed || notes == 0 { return TupletError, 0; }
      inTuplet, cur := true, 0;
      kind, len := TupletStart, length;
    }

    /** handle_stoptuplet */
    method EndTuplet(text: string, pos: nat) returns (end: nat, kind: Kind)
      requires pos <= |text| && Valid()
      modifies this
      ensures Valid() && Parsed(View(), end, kind, 0) == StopTuplet(old(View()), text, pos)
    {
      inTuplet := false;
      var skipped;
      skipped, end := MeasureLength(text, pos);
      kind := if cur != notes then TooFewNotes else TupletDone;
    }

    /** The switch of parse_mml, for the codes that set something. */
    method ReadSetting(text: string, p: nat) returns (end: nat, kind: Kind, len: int)
      requires p < |text| && Valid()
      requires !IsNoteLetter(text[p]) && text[p] != 'R' && text[p] != '[' && text[p] != '{' && text[p] != '}'
      modifies this
      ensures Valid() && Parsed(View(), end, kind, len) == ParseCode(old(View()), text, p)
    {
      var c := text[p];
      if c == 'T' || c == 'L' || c == '@' {
        end, kind, len := ReadNumber(text, p + 1, c);
      } else if c == 'V' {
        len := Atoi(text, p + 1);
        end := DigitsEnd(text, p + 1);
        kind := if len < 0 || len > 100 then VolumeError else Volume;
      } else if c == 'O' || c == '>' || c == '<' {
        end, kind, len := SetOctave(text, c, p + 1);
      } else {
        end, kind, len := p + 1, IllegalComposition, 0;
      }
    }

    /** The switch of parse_mml. */
    method ReadCode(text: string, p: nat) returns (end: nat, kind: Kind, len: int)
      requires p < |text| && Valid()
      modifies this
      ensures Valid() && Parsed(View(), end, kind, len) == ParseCode(old(View()), text, p)
    {
      var c := text[p];
      if IsNoteLetter(c) {
        end, kind, len := ReadNote(text, p + 1);
      } else if c == 'R' {
        end, kind, len := ReadRest(text, p + 1);
      } else if c == '[' {
        end, kind, len := ReadChord(text, p + 1);
      } else if c == '{' {
        kind, len := BeginTuplet(text, p + 1);
        end := p + 1;
      } else if c == '}' {
        end, kind := EndTuplet(text, p + 1);
        len := 0;
      } else {
        end, kind, len := ReadSetting(text, p);
      }
    }

    /** parse_mml */
    method ParseMml(text: string, start: nat) returns (end: nat, kind: Kind, len: int)
      requires start <= |text| && Valid()
      modifies this
      ensures Valid() && Parsed(View(), end, kind, len) == Parse(old(View()), text, start)
    {
      var p := SkipSpaces(text, start);
      if p == |text| { return p, Eof, 0; }
      end, kind, len := ReadCode(text, p);
    }
  }
}
