/**
 The bitmap converter: a row of pixels is mapped to the closest palette
 colours, and runs of one colour become entries with a repeat count that fits
 a byte.
 */
module BitmapRle {
  import opened Basics

  datatype Color = Color(r: int, g: int, b: int)

  datatype Entry = Entry(repeats: nat, color: nat)

  // ---------------------------------------------------------------------- palette

  function Square(x: int): int { x * x }

  function Distance(a: Color, b: Color): int {
    Square(a.r - b.r) + Square(a.g - b.g) + Square(a.b - b.b)
  }

  /** The first place of a colour that is there. */
  function IndexOf(palette: seq<Color>, c: Color): (k: nat)
    requires c in palette
    ensures k < |palette| && palette[k] == c
    ensures forall i :: 0 <= i < k ==> palette[i] != c
  {
    if palette[0] == c then 0 else 1 + IndexOf(palette[1..], c)
  }

  /** The first of the colours that are closest. */
  function Closest(palette: seq<Color>, c: Color): (m: Color)
    requires palette != []
    ensures m in palette
  {
    if |palette| == 1 then palette[0] else
      var m := Closest(palette[1..], c);
      if Distance(c, palette[0]) <= Distance(c, m) then palette[0] else m
  }

  function Quantize(c: Color, palette: seq<Color>): (k: nat)
    requires palette != []
    ensures k < |palette|
  {
    if c in palette then IndexOf(palette, c) else IndexOf(palette, Closest(palette, c))
  }

  lemma {:induction false} SquareIsPositive(x: int)
    ensures Square(x) >= 0
    ensures Square(x) == 0 <==> x == 0
  {}

  lemma {:induction false} OnlyItselfIsAtZero(a: Color, b: Color)
    ensures Distance(a, b) >= 0
    ensures Distance(a, b) == 0 <==> a == b
  {
    SquareIsPositive(a.r - b.r);
    SquareIsPositive(a.g - b.g);
    SquareIsPositive(a.b - b.b);
  }

  function Dot(a: Color, b: Color): int { a.r * b.r + a.g * b.g + a.b * b.b }

  /** The distance is the square of the Euclidean one. */
  lemma {:induction false} DistanceIsEuclidean(a: Color, b: Color)
    ensures Distance(a, b) == Dot(a, a) - 2 * Dot(a, b) + Dot(b, b)
  {
    SquareOfDifference(a.r, b.r);
    SquareOfDifference(a.g, b.g);
    SquareOfDifference(a.b, b.b);
  }

  lemma {:induction false} SquareOfDifference(x: int, y: int)
    ensures Square(x - y) == x * x - 2 * (x * y) + y * y
  {}

  lemma {:induction false} ClosestIsMinimal(palette: seq<Color>, c: Color, j: nat)
    requires j < |palette|
    ensures Distance(c, Closest(palette, c)) <= Distance(c, palette[j])
    decreases |palette|
  {
    if |palette| > 1 {
      if j > 0 {
        ClosestIsMinimal(palette[1..], c, j - 1);
      }
    }
  }

  /** No colour before the closest one is as close. */
  lemma {:induction false} ClosestIsFirst(palette: seq<Color>, c: Color, j: nat)
    requires j < |palette| && forall i :: 0 <= i <= j ==> palette[i] != Closest(palette, c)
    ensures Distance(c, Closest(palette, c)) < Distance(c, palette[j])
    decreases |palette|
  {
    assert palette[0] != Closest(palette, c);
    if j > 0 {
      ClosestIsFirst(palette[1..], c, j - 1);
    }
  }

  /** The palette index is that of the first colour at the least distance. */
  lemma {:induction false} QuantizeIsFirstClosest(c: Color, palette: seq<Color>, j: nat)
    requires j < |palette|
    ensures
      var k := Quantize(c, palette);
      && Distance(c, palette[k]) <= Distance(c, palette[j])
      && (j < k ==> Distance(c, palette[k]) < Distance(c, palette[j]))
  {
    var k := Quantize(c, palette);
    OnlyItselfIsAtZero(c, palette[j]);
    OnlyItselfIsAtZero(c, palette[k]);
    if c !in palette {
      ClosestIsMinimal(palette, c, j);
      if j < k { ClosestIsFirst(palette, c, j); }
    }
  }

  // ------------------------------------------------------------------------- runs

  function Run(n: nat, c: nat): seq<nat> { seq(n, _ => c) }

  /** The pixels that entries stand for. */
  function Decode(entries: seq<Entry>): seq<nat> {
    if entries == [] then [] else Run(entries[0].repeats, entries[0].color) + Decode(entries[1..])
  }

  /** The counts fit a byte and no entry is empty. */
  predicate Valid(entries: seq<Entry>) {
    forall i :: 0 <= i < |entries| ==> 1 <= entries[i].repeats <= 255
  }

  /** Only a full entry is followed by one of the same colour. */
  predicate Greedy(entries: seq<Entry>) {
    forall i, j :: 0 <= i && j == i + 1 < |entries| && entries[i].color == entries[j].color
      ==> entries[i].repeats == 255
  }

  lemma {:induction false} DecodeAppends(entries: seq<Entry>, e: Entry)
    ensures Decode(entries + [e]) == Decode(entries) + Run(e.repeats, e.color)
    decreases |entries|
  {
    if entries == [] {
      assert Decode([e]) == Run(e.repeats, e.color) + Decode([]);
    } else {
      assert (entries + [e])[1..] == entries[1..] + [e];
      DecodeAppends(entries[1..], e);
    }
  }

  /** `x` is the end of `y`. */
  ghost predicate EndOf(x: seq<nat>, y: seq<nat>) {
    |x| <= |y| && forall i :: 0 <= i < |x| ==> x[i] == y[|y| - |x| + i]
  }

  /** A greedy first entry reaches at least as far as any run at the same place. */
  lemma {:induction false} FirstReaches(c: seq<Entry>, n: nat)
    requires Valid(c) && Greedy(c) && n <= 255 && n <= |Decode(c)| && c != []
    requires forall i :: 0 <= i < n ==> Decode(c)[i] == c[0].color
    ensures n <= c[0].repeats
  {
    var (k, rest) := (c[0].repeats, Decode(c[1..]));
    assert Decode(c) == Run(k, c[0].color) + rest;
    if |c| > 1 && k < 255 {
      assert rest[0] == c[1].color != c[0].color;
      assert Decode(c)[k] == c[1].color;
    }
  }

  lemma {:induction false} EndOfRests(x: seq<nat>, k: nat, y: seq<nat>, n: nat)
    requires EndOf(x, y) && k <= |x| && n <= |y| && |x| - k <= |y| - n
    ensures EndOf(x[k..], y[n..])
  {}

  /** Greedy entries are never more than those of any other encoding, even one that stands for more. */
  lemma {:induction false} GreedyIsShortest(c: seq<Entry>, e: seq<Entry>)
    requires Valid(c) && Greedy(c) && Valid(e) && EndOf(Decode(c), Decode(e))
    ensures |c| <= |e|
    decreases |e|
  {
    if c != [] {
      var (x, y) := (Decode(c), Decode(e));
      assert x == Run(c[0].repeats, c[0].color) + Decode(c[1..]);
      assert e != [];
      var (n, z) := (e[0].repeats, |y| - |x|);
      assert y == Run(n, e[0].color) + Decode(e[1..]);
      if n <= z {
        GreedyIsShortest(c, e[1..]);
      } else {
        assert forall i :: 0 <= i < n - z ==> x[i] == y[z + i] == e[0].color;
        assert x[0] == c[0].color;
        FirstReaches(c, n - z);
        EndOfRests(x, c[0].repeats, y, n);
        assert x[c[0].repeats..] == Decode(c[1..]) && y[n..] == Decode(e[1..]);
        GreedyIsShortest(c[1..], e[1..]);
      }
    }
  }

  /** Every encoding of the same pixels has at least as many entries. */
  ghost predicate Shortest(entries: seq<Entry>) {
    forall e :: Valid(e) && Decode(e) == Decode(entries) ==> |entries| <= |e|
  }

  function Quantized(row: seq<Color>, palette: seq<Color>): seq<nat>
    requires palette != []
  {
    seq(|row|, i requires 0 <= i < |row| => Quantize(row[i], palette))
  }

  ghost predicate Encodes(entries: seq<Entry>, pixels: seq<nat>) {
    Valid(entries) && Greedy(entries) && Decode(entries) == pixels
  }

  lemma {:induction false} LongerRun(entries: seq<Entry>, repeats: nat, c: nat, pixels: seq<nat>)
    requires Encodes(entries + [Entry(repeats, c)], pixels) && repeats < 255
    ensures Encodes(entries + [Entry(repeats + 1, c)], pixels + [c])
  {
    DecodeAppends(entries, Entry(repeats, c));
    DecodeAppends(entries, Entry(repeats + 1, c));
    assert Run(repeats, c) + [c] == Run(repeats + 1, c);
    var (before, after) := (entries + [Entry(repeats, c)], entries + [Entry(repeats + 1, c)]);
    assert forall i :: 0 <= i < |entries| ==> before[i] == after[i];
    assert forall i :: 0 <= i < |after| ==> before[i].color == after[i].color;
  }

  lemma {:induction false} NewRun(entries: seq<Entry>, c: nat, pixels: seq<nat>)
    requires Encodes(entries, pixels)
    requires entries != [] && entries[|entries| - 1].color == c ==> entries[|entries| - 1].repeats == 255
    ensures Encodes(entries + [Entry(1, c)], pixels + [c])
  {
    DecodeAppends(entries, Entry(1, c));
    assert Run(1, c) == [c];
  }

  lemma {:induction false} EncodesShortest(entries: seq<Entry>, pixels: seq<nat>)
    requires Encodes(entries, pixels)
    ensures Shortest(entries)
  {
    forall e | Valid(e) && Decode(e) == Decode(entries) ensures |entries| <= |e| {
      GreedyIsShortest(entries, e);
    }
  }

  /** The entries with the run that is still open. */
  ghost function Closed(entries: seq<Entry>, color: Option<nat>, repeats: nat): seq<Entry> {
    if color.None? then entries else entries + [Entry(repeats, color.value)]
  }

  /** encode_row */
  method EncodeRow(row: seq<Color>, palette: seq<Color>) returns (entries: seq<Entry>)
    requires palette != []
    ensures Decode(entries) == Quantized(row, palette)
    ensures Valid(entries) && Shortest(entries)
  {
    entries := [];
    var color: Option<nat>, repeats: nat := None, 0;
    ghost var pixels := Quantized(row, palette);
    for x := 0 to |row|
      invariant color.None? ==> entries == []
      invariant Encodes(Closed(entries, color, repeats), pixels[..x])
    {
      var c := Quantize(row[x], palette);
      assert pixels[..x + 1] == pixels[..x] + [c];
      if color == Some(c) && repeats < 255 {
        LongerRun(entries, repeats, c, pixels[..x]);
        repeats := repeats + 1;
      } else {
        if color.Some? {
          entries := entries + [Entry(repeats, color.value)];
          assert 1 <= entries[|entries| - 1].repeats <= 255;
        }
        NewRun(entries, c, pixels[..x]);
        repeats := 1;
        color := Some(c);
      }
    }
    if color.Some? {
      entries := entries + [Entry(repeats, color.value)];
    }
    EncodesShortest(entries, pixels[..|row|]);
    assert pixels[..|row|] == pixels;
  }
}
