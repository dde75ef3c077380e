/**
  Arithmetic shared by the bit-level decoders: shifts and masks, bit reversal,
  little-endian numbers, and the packing of (value, width) fields into a
  least-significant-bit-first stream.

  A bit stream is represented by the natural number its bits form, first bit
  least significant: taking n bits yields `Low(v, n)` and leaves `Shr(v, n)`,
  and bits past the end of the data read as zero.
*/
module Bits {

  type byte = x: nat | x < 256

  function Pow2(n: nat): (p: nat)
    ensures p > 0
  {
    if n == 0 then 1 else 2 * Pow2(n - 1)
  }

  /** v & (2^n - 1) */
  function Low(v: nat, n: nat): (r: nat)
    ensures r < Pow2(n)
    decreases n
  {
    if n == 0 then 0 else v % 2 + 2 * Low(v / 2, n - 1)
  }

  /** v >> n */
  function Shr(v: nat, n: nat): nat
    decreases n
  {
    if n == 0 then v else Shr(v / 2, n - 1)
  }

  /** v << n */
  function Shl(v: nat, n: nat): nat
    decreases n
  {
    if n == 0 then v else 2 * Shl(v, n - 1)
  }

  lemma {:induction false} Pow2Add(a: nat, b: nat)
    ensures Pow2(a + b) == Pow2(a) * Pow2(b)
    decreases a
  {
    if a > 0 {
      Pow2Add(a - 1, b);
      MulAssoc(2, Pow2(a - 1), Pow2(b));
    }
  }

  lemma {:induction false} Pow2Mono(a: nat, b: nat)
    requires a <= b
    ensures Pow2(a) <= Pow2(b)
    decreases b
  {
    if a < b { Pow2Mono(a, b - 1); }
  }

  lemma {:induction false} Pow2Values()
    ensures Pow2(1) == 2 && Pow2(2) == 4 && Pow2(3) == 8 && Pow2(4) == 16
    ensures Pow2(5) == 32 && Pow2(6) == 64 && Pow2(7) == 128 && Pow2(8) == 256
    ensures Pow2(9) == 512 && Pow2(10) == 1024 && Pow2(11) == 2048 && Pow2(12) == 4096
    ensures Pow2(13) == 8192 && Pow2(14) == 0x4000 && Pow2(15) == 0x8000 && Pow2(16) == 0x1_0000
  {
    assert Pow2(4) == 16;
    assert Pow2(8) == 256;
    assert Pow2(12) == 4096;
  }

  lemma {:induction false} MulAssoc(a: int, b: int, c: int)
    ensures a * (b * c) == a * b * c
  {
  }

  lemma {:induction false} MulMono(a: int, b: int, c: nat)
    requires a <= b
    ensures c * a <= c * b
  {
  }

  lemma {:induction false} MulDist(a: int, b: int, c: int)
    ensures a * (b + c) == a * b + a * c
  {
  }

  // ------------------------------------------------------------------
  // Shifts and masks
  // ------------------------------------------------------------------

  /** Shift and mask split a number at bit n. */
  lemma {:induction false} Split(v: nat, n: nat)
    ensures v == Low(v, n) + Pow2(n) * Shr(v, n)
    decreases n
  {
    if n > 0 {
      Split(v / 2, n - 1);
      MulAssoc(2, Pow2(n - 1), Shr(v, n));
    }
  }

  /** ... and every split of that shape is that one. */
  lemma {:induction false} SplitUnique(r: nat, n: nat, q: nat)
    requires r < Pow2(n)
    ensures Low(r + Pow2(n) * q, n) == r
    ensures Shr(r + Pow2(n) * q, n) == q
    decreases n
  {
    if n > 0 {
      SplitUnique(r / 2, n - 1, q);
      var v := r + Pow2(n) * q;
      MulAssoc(2, Pow2(n - 1), q);
      assert v == r + 2 * (Pow2(n - 1) * q);
      assert v % 2 == r % 2 && v / 2 == r / 2 + Pow2(n - 1) * q;
    }
  }

  /** Taking a bits and then b bits is taking a + b bits. */
  lemma {:induction false} TakeTwice(v: nat, a: nat, b: nat)
    ensures Shr(Shr(v, a), b) == Shr(v, a + b)
    ensures Low(v, a + b) == Low(v, a) + Pow2(a) * Low(Shr(v, a), b)
    decreases a
  {
    if a > 0 {
      TakeTwice(v / 2, a - 1, b);
      MulAssoc(2, Pow2(a - 1), Low(Shr(v, a), b));
    }
  }

  /** The low m bits do not depend on bits n and above when m <= n. */
  lemma {:induction false} LowBits(c: nat, n: nat, d: nat, m: nat)
    requires m <= n
    ensures Low(c + Pow2(n) * d, m) == Low(c, m)
    ensures Shr(c + Pow2(n) * d, m) == Shr(c, m) + Pow2(n - m) * d
    decreases m
  {
    if m > 0 {
      var v := c + Pow2(n) * d;
      MulAssoc(2, Pow2(n - 1), d);
      assert v == c + 2 * (Pow2(n - 1) * d);
      assert v % 2 == c % 2 && v / 2 == c / 2 + Pow2(n - 1) * d;
      LowBits(c / 2, n - 1, d, m - 1);
    }
  }

  lemma {:induction false} LowLow(v: nat, n: nat, m: nat)
    requires m <= n
    ensures Low(Low(v, n), m) == Low(v, m)
    decreases m
  {
    if m > 0 { LowLow(v / 2, n - 1, m - 1); }
  }

  lemma {:induction false} LowSmall(v: nat, n: nat)
    requires v < Pow2(n)
    ensures Low(v, n) == v && Shr(v, n) == 0
    decreases n
  {
    if n > 0 { LowSmall(v / 2, n - 1); }
  }

  lemma {:induction false} ShrBound(v: nat, n: nat, m: nat)
    requires v < Pow2(n) && m <= n
    ensures Shr(v, m) < Pow2(n - m)
    decreases m
  {
    if m > 0 { ShrBound(v / 2, n - 1, m - 1); }
  }

  lemma {:induction false} ShrLe(v: nat, n: nat)
    ensures Shr(v, n) <= v
    ensures n > 0 && v > 0 ==> Shr(v, n) < v
    decreases n
  {
    if n > 0 { ShrLe(v / 2, n - 1); }
  }

  /** Comparing against a left-shifted bound is comparing the right-shifted value. */
  lemma {:induction false} ShlGalois(v: nat, w: nat, n: nat)
    ensures v < Shl(w, n) <==> Shr(v, n) < w
    decreases n
  {
    if n > 0 {
      ShlGalois(v / 2, w, n - 1);
      assert v < 2 * Shl(w, n - 1) <==> v / 2 < Shl(w, n - 1);
    }
  }

  lemma {:induction false} ShlPow(v: nat, n: nat)
    ensures Shl(v, n) == v * Pow2(n)
    decreases n
  {
    if n > 0 {
      ShlPow(v, n - 1);
      MulAssoc(v, Pow2(n - 1), 2);
    }
  }

  // ------------------------------------------------------------------
  // Bit reversal
  // ------------------------------------------------------------------

  /** The low n bits of v in reverse order: the first bit becomes the most significant. */
  function Rev(v: nat, n: nat): (r: nat)
    ensures r < Pow2(n)
    decreases n
  {
    if n == 0 then 0 else 2 * Rev(v, n - 1) + Shr(v, n - 1) % 2
  }

  /** Reading n >= s bits and keeping the s most significant is reading s bits. */
  lemma {:induction false} RevPrefix(v: nat, n: nat, s: nat)
    requires s <= n
    ensures Shr(Rev(v, n), n - s) == Rev(v, s)
    decreases n - s
  {
    if s < n {
      RevPrefix(v, n, s + 1);
      ShrStep(Rev(v, n), n - s - 1);
    }
  }

  lemma {:induction false} ShrStep(v: nat, n: nat)
    ensures Shr(v, n + 1) == Shr(v, n) / 2
    decreases n
  {
    if n > 0 { ShrStep(v / 2, n - 1); }
  }

  /** Rev peeled from the other end: the first bit of v is the top bit. */
  lemma {:induction false} RevFirst(v: nat, n: nat)
    ensures Rev(v, n + 1) == Rev(v / 2, n) + (if v % 2 == 1 then Pow2(n) else 0)
    decreases n
  {
    if n > 0 { RevFirst(v, n - 1); }
  }

  /** Only the low n bits matter. */
  lemma {:induction false} RevLow(v: nat, m: nat, n: nat)
    requires n <= m
    ensures Rev(Low(v, m), n) == Rev(v, n)
    decreases n
  {
    if n > 0 {
      BitLow(v, m, n - 1);
      RevLow(v, m, n - 1);
    }
  }

  lemma {:induction false} BitLow(v: nat, m: nat, k: nat)
    requires k < m
    ensures Shr(Low(v, m), k) % 2 == Shr(v, k) % 2
    decreases k
  {
    if k > 0 { BitLow(v / 2, m - 1, k - 1); }
  }

  /** The reversal of n + 1 bits has v's first bit on top of the reversal of the rest. */
  lemma {:induction false} RevParts(v: nat, n: nat)
    ensures Low(Rev(v, n + 1), n) == Rev(v / 2, n)
    ensures Shr(Rev(v, n + 1), n) == v % 2
  {
    RevFirst(v, n);
    SplitUnique(Rev(v / 2, n), n, v % 2);
  }

  lemma {:induction false} RevNone(v: nat)
    ensures Rev(v, 0) == 0 == Low(v, 0)
  {
  }

  lemma {:induction false} RevLast(v: nat, n: nat)
    ensures Rev(v, n + 1) == 2 * Rev(v, n) + Shr(v, n) % 2
  {
  }

  lemma {:induction false} LowFirst(v: nat, n: nat)
    ensures Low(v, n + 1) == v % 2 + 2 * Low(v / 2, n)
  {
  }

  /** Reversing twice restores the low n bits. */
  lemma {:induction false} RevTwice(v: nat, n: nat)
    ensures Rev(Rev(v, n), n) == Low(v, n)
    decreases n
  {
    hide Rev, Low, Shr, Pow2;
    if n == 0 {
      RevNone(v);
      RevNone(Rev(v, 0));
    } else {
      RevParts(v, n - 1);
      RevLow(Rev(v, n), n - 1, n - 1);
      RevTwice(v / 2, n - 1);
      RevLast(Rev(v, n), n - 1);
      LowFirst(v, n - 1);
    }
  }

  /** Reversing m + n bits: the low m bits come first. */
  lemma {:induction false} RevSplit(v: nat, m: nat, n: nat)
    ensures Rev(v, m + n) == Pow2(n) * Rev(v, m) + Rev(Shr(v, m), n)
    decreases n
  {
    hide Rev, Shr, Pow2;
    if n == 0 {
      RevNone(Shr(v, m));
      assert Pow2(0) == 1 by { Pow2Zero(); }
    } else {
      RevSplit(v, m, n - 1);
      RevLast(v, m + n - 1);
      RevLast(Shr(v, m), n - 1);
      TakeTwice(v, m, n - 1);
      assert Pow2(n) == 2 * Pow2(n - 1) by { Pow2Step(n); }
      MulAssoc(2, Pow2(n - 1), Rev(v, m));
    }
  }

  lemma {:induction false} Pow2Zero()
    ensures Pow2(0) == 1
  {
  }

  lemma {:induction false} Pow2Step(n: nat)
    requires n > 0
    ensures Pow2(n) == 2 * Pow2(n - 1)
  {
  }

  lemma {:induction false} RevZero(n: nat)
    ensures Rev(0, n) == 0
    decreases n
  {
    if n > 0 {
      RevZero(n - 1);
      LowSmall(0, n - 1);
    }
  }

  /** A code c of n bits, written most significant bit first, is the field Rev(c, n). */
  lemma {:induction false} RevField(v: nat, c: nat, n: nat)
    requires c < Pow2(n)
    ensures Rev(v, n) == c <==> Low(v, n) == Rev(c, n)
  {
    RevTwice(v, n);
    RevTwice(c, n);
    LowSmall(c, n);
    RevLow(v, n, n);
  }

  // ------------------------------------------------------------------
  // Little-endian numbers
  // ------------------------------------------------------------------

  function LE(s: seq<byte>): nat {
    if s == [] then 0 else s[0] + 256 * LE(s[1..])
  }

  lemma {:induction false} LEAppend(s: seq<byte>, t: seq<byte>)
    ensures LE(s + t) == LE(s) + Pow2(8 * |s|) * LE(t)
    decreases |s|
  {
    if s == [] {
      assert s + t == t;
    } else {
      LEAppend(s[1..], t);
      assert (s + t)[1..] == s[1..] + t;
      Pow2Add(8, 8 * |s[1..]|);
      assert Pow2(8) == 256 by { Pow2Values(); }
      MulAssoc(256, Pow2(8 * |s[1..]|), LE(t));
      MulDist(256, LE(s[1..]), Pow2(8 * |s[1..]|) * LE(t));
    }
  }

  // ------------------------------------------------------------------
  // Fields
  // ------------------------------------------------------------------

  /** What a field is to its format: a number, a Huffman code, or a byte at a byte boundary. */
  datatype Kind = Number | Codeword | BlockEnd | Aligned | Data

  datatype Field = Field(value: nat, width: nat, kind: Kind := Number)

  predicate FieldsOk(fs: seq<Field>) {
    forall i :: 0 <= i < |fs| ==> fs[i].value < Pow2(fs[i].width)
  }

  function Width(fs: seq<Field>): nat {
    if fs == [] then 0 else fs[0].width + Width(fs[1..])
  }

  /** The stream v begins with the given fields. */
  predicate Starts(v: nat, fs: seq<Field>)
    decreases |fs|
  {
    fs == [] ||
    (Low(v, fs[0].width) == fs[0].value && Starts(Shr(v, fs[0].width), fs[1..]))
  }

  lemma {:induction false} StartsAppend(v: nat, a: seq<Field>, b: seq<Field>)
    ensures Starts(v, a + b) <==> Starts(v, a) && Starts(Shr(v, Width(a)), b)
    ensures Width(a + b) == Width(a) + Width(b)
    decreases |a|
  {
    if a == [] {
      assert a + b == b;
    } else {
      assert (a + b)[1..] == a[1..] + b;
      TakeTwice(v, a[0].width, Width(a[1..]));
      StartsAppend(Shr(v, a[0].width), a[1..], b);
    }
  }

  /** The number formed by packing the fields one after the other. */
  function Pack(fs: seq<Field>): nat {
    if fs == [] then 0 else fs[0].value + Pow2(fs[0].width) * Pack(fs[1..])
  }

  /** Packed fields can be read back, whatever follows them. */
  lemma {:induction false} PackStarts(fs: seq<Field>, tail: nat)
    requires FieldsOk(fs)
    ensures Starts(Pack(fs) + Pow2(Width(fs)) * tail, fs)
    decreases |fs|
  {
    if fs != [] {
      var w, u := fs[0].width, Width(fs[1..]);
      PackStarts(fs[1..], tail);
      Pow2Add(w, u);
      MulAssoc(Pow2(w), Pow2(u), tail);
      MulDist(Pow2(w), Pack(fs[1..]), Pow2(u) * tail);
      SplitUnique(fs[0].value, w, Pack(fs[1..]) + Pow2(u) * tail);
    }
  }

  /** The low bytes of a number, least significant first. */
  function ToBytes(v: nat, n: nat): (s: seq<byte>)
    ensures |s| == n
  {
    if n == 0 then [] else [v % 256] + ToBytes(v / 256, n - 1)
  }

  lemma {:induction false} ByteStep(v: nat)
    ensures Low(v, 8) == v % 256 && Shr(v, 8) == v / 256
  {
    assert Pow2(8) == 256 by { Pow2Values(); }
    SplitUnique(v % 256, 8, v / 256);
  }

  lemma {:induction false} ToBytesLE(v: nat, n: nat)
    ensures LE(ToBytes(v, n)) == Low(v, 8 * n)
    decreases n
  {
    if n > 0 {
      ToBytesLE(v / 256, n - 1);
      assert ToBytes(v, n)[1..] == ToBytes(v / 256, n - 1);
      TakeTwice(v, 8, 8 * (n - 1));
      ByteStep(v);
      assert Pow2(8) == 256 by { Pow2Values(); }
    }
  }

  /** The bit writer: fields packed into whole bytes, zero-padded at the end. */
  function Written(fs: seq<Field>): (s: seq<byte>)
    ensures |s| == (Width(fs) + 7) / 8
  {
    ToBytes(Pack(fs), (Width(fs) + 7) / 8)
  }

  lemma {:induction false} PackBound(fs: seq<Field>)
    requires FieldsOk(fs)
    ensures Pack(fs) < Pow2(Width(fs))
    decreases |fs|
  {
    if fs != [] {
      PackBound(fs[1..]);
      var a, b := Pow2(fs[0].width), Pow2(Width(fs[1..]));
      Pow2Add(fs[0].width, Width(fs[1..]));
      MulMono(Pack(fs[1..]), b - 1, a);
      MulDist(a, b, -1);
    }
  }

  /** Written fields can be read back from the bytes, whatever bytes follow. */
  lemma {:induction false} WrittenStarts(fs: seq<Field>, trailer: seq<byte>)
    requires FieldsOk(fs)
    ensures Starts(LE(Written(fs) + trailer), fs) && Width(fs) <= 8 * |Written(fs) + trailer|
  {
    hide Pow2, LE, Pack, Starts, ToBytes, Low;
    var w, n := Width(fs), (Width(fs) + 7) / 8;
    var p, t := Pack(fs), LE(trailer);
    PackBound(fs);
    Pow2Mono(w, 8 * n);
    ToBytesLE(p, n);
    LowSmall(p, 8 * n);
    LEAppend(Written(fs), trailer);
    Pow2Add(w, 8 * n - w);
    MulAssoc(Pow2(w), Pow2(8 * n - w), t);
    PackStarts(fs, Pow2(8 * n - w) * t);
  }
}
