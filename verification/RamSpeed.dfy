/**
 The copy and fill loops of the RAM benchmark.  They move whole 32-bit words
 where they can; here they are compared with moving single bytes.
 */
module RamSpeed {
  type Byte = x | 0 <= x < 256

  type Word = x | 0 <= x < 0x1_0000_0000

  // ------------------------------------------------------------------ byte by byte

  /** Copying forwards, one byte at a time. */
  function ByteCopy(m: seq<Byte>, d: nat, s: nat, n: nat): (r: seq<Byte>)
    requires d + n <= |m| && s + n <= |m|
    ensures |r| == |m|
    decreases n
  {
    if n == 0 then m else ByteCopy(m[d := m[s]], d + 1, s + 1, n - 1)
  }

  function ByteFill(m: seq<Byte>, d: nat, v: Byte, n: nat): (r: seq<Byte>)
    requires d + n <= |m|
    ensures |r| == |m|
    decreases n
  {
    if n == 0 then m else ByteFill(m[d := v], d + 1, v, n - 1)
  }

  // ---------------------------------------------------------------------- words

  /** The word made of four bytes, the lowest first. */
  function Join(b0: Byte, b1: Byte, b2: Byte, b3: Byte): Word {
    b0 + 0x100 * b1 + 0x1_0000 * b2 + 0x100_0000 * b3
  }

  /** Byte `k` of a word, from the lowest. */
  function Part(w: Word, k: nat): Byte
    requires k < 4
  {
    match k
    case 0 => w % 0x100
    case 1 => w / 0x100 % 0x100
    case 2 => w / 0x1_0000 % 0x100
    case _ => w / 0x100_0000
  }

  lemma {:induction false} PartsOfJoin(b0: Byte, b1: Byte, b2: Byte, b3: Byte)
    ensures
      var w := Join(b0, b1, b2, b3);
      Part(w, 0) == b0 && Part(w, 1) == b1 && Part(w, 2) == b2 && Part(w, 3) == b3
  {
    var w := Join(b0, b1, b2, b3);
    assert w / 0x100 == b1 + 0x100 * b2 + 0x1_0000 * b3;
    assert w / 0x1_0000 == b2 + 0x100 * b3;
    assert w / 0x100_0000 == b3;
  }

  /** Four bytes put at once. */
  function Put4(m: seq<Byte>, d: nat, b0: Byte, b1: Byte, b2: Byte, b3: Byte): (r: seq<Byte>)
    requires d + 4 <= |m|
    ensures |r| == |m|
  {
    m[d := b0][d + 1 := b1][d + 2 := b2][d + 3 := b3]
  }

  /** A word may be copied at once where its bytes do not overtake each other. */
  lemma {:induction false} WordAtOnce(m: seq<Byte>, d: nat, s: nat, n: nat)
    requires d + n <= |m| && s + n <= |m| && n >= 4 && (d - s) % 4 == 0
    ensures ByteCopy(m, d, s, n) == ByteCopy(Put4(m, d, m[s], m[s + 1], m[s + 2], m[s + 3]), d + 4, s + 4, n - 4)
  {
    var m1 := m[d := m[s]];
    var m2 := m1[d + 1 := m1[s + 1]];
    var m3 := m2[d + 2 := m2[s + 2]];
    assert ByteCopy(m, d, s, n) == ByteCopy(m1, d + 1, s + 1, n - 1);
    assert ByteCopy(m1, d + 1, s + 1, n - 1) == ByteCopy(m2, d + 2, s + 2, n - 2);
    assert ByteCopy(m2, d + 2, s + 2, n - 2) == ByteCopy(m3, d + 3, s + 3, n - 3);
  }

  lemma {:induction false} FillAtOnce(m: seq<Byte>, d: nat, v: Byte, n: nat)
    requires d + n <= |m| && n >= 4
    ensures ByteFill(m, d, v, n) == ByteFill(Put4(m, d, v, v, v, v), d + 4, v, n - 4)
  {
    assert ByteFill(m, d, v, n) == ByteFill(m[d := v][d + 1 := v], d + 2, v, n - 2);
  }

  // -------------------------------------------------------------------- what is copied

  lemma {:induction false} CopyOutside(m: seq<Byte>, d: nat, s: nat, n: nat, i: nat)
    requires d + n <= |m| && s + n <= |m| && i < |m| && !(d <= i < d + n)
    ensures ByteCopy(m, d, s, n)[i] == m[i]
    decreases n
  {
    if n > 0 { CopyOutside(m[d := m[s]], d + 1, s + 1, n - 1, i); }
  }

  /** Each byte arrives, unless the target starts inside the source. */
  lemma {:induction false} CopyArrives(m: seq<Byte>, d: nat, s: nat, n: nat, k: nat)
    requires d + n <= |m| && s + n <= |m| && k < n && !(s < d < s + k + 1)
    ensures ByteCopy(m, d, s, n)[d + k] == m[s + k]
    decreases n
  {
    if k == 0 {
      CopyOutside(m[d := m[s]], d + 1, s + 1, n - 1, d);
    } else {
      CopyArrives(m[d := m[s]], d + 1, s + 1, n - 1, k - 1);
    }
  }

  ghost predicate Arrived(m: seq<Byte>, r: seq<Byte>, d: nat, s: nat, n: nat)
    requires d + n <= |m| == |r| && s + n <= |m|
  {
    forall i :: 0 <= i < |m| ==> r[i] == if d <= i < d + n then m[s + (i - d)] else m[i]
  }

  lemma {:induction false} CopyIsMove(m: seq<Byte>, d: nat, s: nat, n: nat)
    requires d + n <= |m| && s + n <= |m| && !(s < d < s + n)
    ensures Arrived(m, ByteCopy(m, d, s, n), d, s, n)
  {
    forall i | 0 <= i < |m|
      ensures ByteCopy(m, d, s, n)[i] == if d <= i < d + n then m[s + (i - d)] else m[i]
    {
      if d <= i < d + n { CopyArrives(m, d, s, n, i - d); } else { CopyOutside(m, d, s, n, i); }
    }
  }

  lemma {:induction false} CopySplits(m: seq<Byte>, d: nat, s: nat, a: nat, b: nat)
    requires d + a + b <= |m| && s + a + b <= |m|
    ensures ByteCopy(m, d, s, a + b) == ByteCopy(ByteCopy(m, d, s, a), d + a, s + a, b)
    decreases a
  {
    if a > 0 { CopySplits(m[d := m[s]], d + 1, s + 1, a - 1, b); }
  }

  /** Where the target starts inside the source, the first byte comes back. */
  lemma {:induction false} CopyRepeats(m: seq<Byte>, d: nat, s: nat, n: nat)
    requires d + n <= |m| && s < d < s + n
    ensures ByteCopy(m, d, s, n)[d + (d - s)] == m[s]
  {
    var a := d - s;
    CopySplits(m, d, s, a, n - a);
    var m1 := ByteCopy(m, d, s, a);
    CopyArrives(m, d, s, a, 0);
    CopyArrives(m1, d + a, s + a, n - a, 0);
  }

  /** The contents of the source always arrive in the target exactly when the target does not start inside it. */
  lemma {:induction false} CopyIsMoveIff(size: nat, d: nat, s: nat, n: nat)
    requires d + n <= size && s + n <= size
    ensures (forall m: seq<Byte> | |m| == size :: Arrived(m, ByteCopy(m, d, s, n), d, s, n)) <==> !(s < d < s + n)
  {
    if s < d < s + n {
      var m := seq<Byte>(size, i => if i == d then 1 else 0);
      CopyRepeats(m, d, s, n);
      var i := d + (d - s);
      assert ByteCopy(m, d, s, n)[i] == m[s] == 0;
      assert m[s + (i - d)] == m[d] == 1;
      assert !Arrived(m, ByteCopy(m, d, s, n), d, s, n);
    } else {
      forall m: seq<Byte> | |m| == size ensures Arrived(m, ByteCopy(m, d, s, n), d, s, n) {
        CopyIsMove(m, d, s, n);
      }
    }
  }

  lemma {:induction false} FillAt(m: seq<Byte>, d: nat, v: Byte, n: nat, i: nat)
    requires d + n <= |m| && i < |m|
    ensures ByteFill(m, d, v, n)[i] == if d <= i < d + n then v else m[i]
    decreases n
  {
    if n > 0 { FillAt(m[d := v], d + 1, v, n - 1, i); }
  }

  // ------------------------------------------------------------------------ alignment

  /** The bits of an address under ALIGN_MASK. */
  function Alignment(wide: bool, a: nat): nat { if wide then a % 8 else a % 4 }

  /** How far it is to the next aligned address. */
  function ToAlign(wide: bool, a: nat): nat {
    var r := Alignment(wide, a);
    if r == 0 then 0 else if wide then 8 - r else 4 - r
  }

  lemma {:induction false} OneCloser(wide: bool, a: nat)
    ensures ToAlign(wide, a) != 0 ==> ToAlign(wide, a + 1) == ToAlign(wide, a) - 1
    ensures ToAlign(wide, a) == 0 ==> a % 4 == 0
  {
    if wide {
      var q, r := a / 8, a % 8;
      assert a == 4 * (2 * q) + r;
      assert r < 7 ==> (a + 1) % 8 == r + 1;
      assert r == 7 ==> a + 1 == 8 * (q + 1) && (a + 1) % 8 == 0;
    }
  }

  lemma {:induction false} SameAlignment(wide: bool, a: nat, b: nat)
    requires Alignment(wide, a) == Alignment(wide, b)
    ensures ToAlign(wide, a) == ToAlign(wide, b)
  {}

  // ------------------------------------------------------------------------ in place

  /**
   Memory with addresses from zero.  Words may be stored lowest byte first or highest
   byte first; they may be loaded and stored only at multiples of four.
   */
  class Memory {
    const ram: array<Byte>
    const bigEndian: bool
    const wide: bool

    constructor (size: nat, bigEndian: bool, wide: bool)
      ensures fresh(ram) && ram.Length == size
    {
      ram := new Byte[size](_ => 0);
      this.bigEndian := bigEndian;
      this.wide := wide;
    }

    method Load(a: nat) returns (w: Word)
      requires a % 4 == 0 && a + 4 <= ram.Length
      ensures w == if bigEndian then Join(ram[a + 3], ram[a + 2], ram[a + 1], ram[a])
                   else Join(ram[a], ram[a + 1], ram[a + 2], ram[a + 3])
    {
      w := if bigEndian then Join(ram[a + 3], ram[a + 2], ram[a + 1], ram[a])
      else Join(ram[a], ram[a + 1], ram[a + 2], ram[a + 3]);
    }

    method Store(a: nat, w: Word)
      requires a % 4 == 0 && a + 4 <= ram.Length
      modifies ram
      ensures ram[..] == if bigEndian then Put4(old(ram[..]), a, Part(w, 3), Part(w, 2), Part(w, 1), Part(w, 0))
                         else Put4(old(ram[..]), a, Part(w, 0), Part(w, 1), Part(w, 2), Part(w, 3))
    {
      if bigEndian {
        ram[a], ram[a + 1], ram[a + 2], ram[a + 3] := Part(w, 3), Part(w, 2), Part(w, 1), Part(w, 0);
      } else {
        ram[a], ram[a + 1], ram[a + 2], ram[a + 3] := Part(w, 0), Part(w, 1), Part(w, 2), Part(w, 3);
      }
    }

    /** COPY32 */
    method CopyWord(d: nat, s: nat)
      requires d % 4 == 0 && s % 4 == 0 && d + 4 <= ram.Length && s + 4 <= ram.Length
      modifies ram
      ensures ram[..] == Put4(old(ram[..]), d, old(ram[s]), old(ram[s + 1]), old(ram[s + 2]), old(ram[s + 3]))
    {
      if bigEndian {
        PartsOfJoin(ram[s + 3], ram[s + 2], ram[s + 1], ram[s]);
      } else {
        PartsOfJoin(ram[s], ram[s + 1], ram[s + 2], ram[s + 3]);
      }
      var w := Load(s);
      Store(d, w);
    }

    /** COPY8, `count` times. */
    method CopyBytes(d: nat, s: nat, count: nat)
      requires d + count <= ram.Length && s + count <= ram.Length
      modifies ram
      ensures ram[..] == ByteCopy(old(ram[..]), d, s, count)
    {
      var i := 0;
      while i < count
        invariant i <= count
        invariant ByteCopy(ram[..], d + i, s + i, count - i) == ByteCopy(old(ram[..]), d, s, count)
      {
        ghost var m := ram[..];
        ram[d + i] := ram[s + i];
        assert ram[..] == m[d + i := m[s + i]];
        i := i + 1;
      }
    }

    /** COPY32, `count` times. */
    method CopyWords(d: nat, s: nat, count: nat)
      requires d % 4 == 0 && s % 4 == 0 && d + 4 * count <= ram.Length && s + 4 * count <= ram.Length
      modifies ram
      ensures ram[..] == ByteCopy(old(ram[..]), d, s, 4 * count)
    {
      var i := 0;
      while i < count
        invariant i <= count
        invariant ByteCopy(ram[..], d + 4 * i, s + 4 * i, 4 * (count - i)) == ByteCopy(old(ram[..]), d, s, 4 * count)
      {
        WordAtOnce(ram[..], d + 4 * i, s + 4 * i, 4 * (count - i));
        CopyWord(d + 4 * i, s + 4 * i);
        i := i + 1;
      }
    }

    /** What is left to do finishes the whole copy. */
    ghost predicate InCopy(d: nat, s: nat, len: nat, m: seq<Byte>, dst: nat, src: nat, length: nat)
      requires dst + length <= |m| && src + length <= |m|
      reads ram
    {
      && d + len <= ram.Length && s + len <= ram.Length
      && ByteCopy(ram[..], d, s, len) == ByteCopy(m, dst, src, length)
    }

    method AlignCopy(dst: nat, src: nat, length: nat) returns (d: nat, s: nat, len: nat)
      requires dst + length <= ram.Length && src + length <= ram.Length
      requires Alignment(wide, dst) == Alignment(wide, src)
      modifies ram
      ensures InCopy(d, s, len, old(ram[..]), dst, src, length)
      ensures len > 0 ==> d % 4 == 0 && s % 4 == 0
    {
      d, s, len := dst, src, length;
      SameAlignment(wide, d, s);
      var align := ToAlign(wide, d);
      while align != 0 && len != 0
        invariant align == ToAlign(wide, d) == ToAlign(wide, s)
        invariant InCopy(d, s, len, old(ram[..]), dst, src, length)
        decreases len
      {
        ghost var m := ram[..];
        ram[d] := ram[s];
        assert ram[..] == m[d := m[s]];
        OneCloser(wide, d);
        OneCloser(wide, s);
        d, s, align, len := d + 1, s + 1, align - 1, len - 1;
      }
      OneCloser(wide, d);
      OneCloser(wide, s);
    }

    /** As many words at a time as there are while more than that is left. */
    method CopyChunks(dst: nat, src: nat, length: nat, words: nat) returns (d: nat, s: nat, len: nat)
      requires dst + length <= ram.Length && src + length <= ram.Length && words > 0
      requires length > 0 ==> dst % 4 == 0 && src % 4 == 0
      modifies ram
      ensures InCopy(d, s, len, old(ram[..]), dst, src, length)
      ensures len > 0 ==> d % 4 == 0 && s % 4 == 0
      ensures len <= 4 * words
    {
      d, s, len := dst, src, length;
      while len > 4 * words
        invariant InCopy(d, s, len, old(ram[..]), dst, src, length)
        invariant len > 0 ==> d % 4 == 0 && s % 4 == 0
      {
        CopySplits(ram[..], d, s, 4 * words, len - 4 * words);
        CopyWords(d, s, words);
        d, s, len := d + 4 * words, s + 4 * words, len - 4 * words;
      }
    }

    method CopyUnaligned(dst: nat, src: nat, length: nat)
      requires dst + length <= ram.Length && src + length <= ram.Length
      modifies ram
      ensures ram[..] == ByteCopy(old(ram[..]), dst, src, length)
    {
      var d: nat, s: nat, len: nat := dst, src, length;
      while len > 32
        invariant InCopy(d, s, len, old(ram[..]), dst, src, length)
      {
        CopySplits(ram[..], d, s, 32, len - 32);
        CopyBytes(d, s, 32);
        d, s, len := d + 32, s + 32, len - 32;
      }
      CopyBytes(d, s, len);
    }

    /** internal_memcpy, also for buffers that overlap. */
    method Memcpy(dst: nat, src: nat, length: nat)
      requires dst + length <= ram.Length && src + length <= ram.Length
      modifies ram
      ensures ram[..] == ByteCopy(old(ram[..]), dst, src, length)
    {
      if Alignment(wide, src) != Alignment(wide, dst) {
        CopyUnaligned(dst, src, length);
        return;
      }
      var d, s, len := AlignCopy(dst, src, length);
      d, s, len := CopyChunks(d, s, len, 8);
      d, s, len := CopyChunks(d, s, len, 1);
      CopyBytes(d, s, len);
    }

    // ---------------------------------------------------------------------- filling

    /** What is left to do finishes the whole fill. */
    ghost predicate InFill(d: nat, len: nat, m: seq<Byte>, dst: nat, v: Byte, length: nat)
      requires dst + length <= |m|
      reads ram
    {
      d + len <= ram.Length && ByteFill(ram[..], d, v, len) == ByteFill(m, dst, v, length)
    }

    /** SET8 until the address is aligned or nothing is left. */
    method AlignFill(dst: nat, v: Byte, length: nat) returns (d: nat, len: nat)
      requires dst + length <= ram.Length
      modifies ram
      ensures InFill(d, len, old(ram[..]), dst, v, length)
      ensures len > 0 ==> d % 4 == 0
    {
      d, len := dst, length;
      var align := ToAlign(wide, d);
      while align != 0 && len != 0
        invariant align == ToAlign(wide, d)
        invariant InFill(d, len, old(ram[..]), dst, v, length)
        decreases len
      {
        ghost var m := ram[..];
        ram[d] := v;
        assert ram[..] == m[d := v];
        OneCloser(wide, d);
        d, align, len := d + 1, align - 1, len - 1;
      }
      OneCloser(wide, d);
    }

    /** SET32, `words` at a time while more than that is left. */
    method FillChunks(dst: nat, v: Byte, w: Word, length: nat, words: nat) returns (d: nat, len: nat)
      requires dst + length <= ram.Length && words > 0 && w == Join(v, v, v, v)
      requires length > 0 ==> dst % 4 == 0
      modifies ram
      ensures InFill(d, len, old(ram[..]), dst, v, length)
      ensures len > 0 ==> d % 4 == 0
      ensures len <= 4 * words
    {
      d, len := dst, length;
      PartsOfJoin(v, v, v, v);
      while len > 4 * words
        invariant InFill(d, len, old(ram[..]), dst, v, length)
        invariant len > 0 ==> d % 4 == 0
      {
        ghost var before := len;
        for i := 0 to words
          invariant len == before - 4 * i && d % 4 == 0
          invariant InFill(d, len, old(ram[..]), dst, v, length)
        {
          FillAtOnce(ram[..], d, v, len);
          Store(d, w);
          d, len := d + 4, len - 4;
        }
      }
    }

    /** internal_memset */
    method Memset(dst: nat, v: Byte, length: nat)
      requires dst + length <= ram.Length
      modifies ram
      ensures ram[..] == ByteFill(old(ram[..]), dst, v, length)
    {
      var d: nat, len: nat := AlignFill(dst, v, length);
      var w: Word := v + v * 0x100 + v * 0x1_0000 + v * 0x100_0000;
      d, len := FillChunks(d, v, w, len, 8);
      d, len := FillChunks(d, v, w, len, 1);
      while len != 0
        invariant InFill(d, len, old(ram[..]), dst, v, length)
      {
        ghost var m := ram[..];
        ram[d] := v;
        assert ram[..] == m[d := v];
        d, len := d + 1, len - 1;
      }
    }
  }
}
