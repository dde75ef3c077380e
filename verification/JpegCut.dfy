/**
  A block that the shortcut table loses: its DC difference leaves seven bits, and
  the marker follows so closely that a short AC code is complete in the bits in
  hand while its value is not.  Read without the table, or with zeros behind the
  data, the block is there.
*/
module JpegCut {
  import opened Bits
  import opened Canonical
  import opened JHuffman
  import opened Jpeg
  import opened JpegStream
  import opened JpegBlock
  import JpegCode

  // Code 0 ends the block; code 10 is followed by a value of seven bits.
  const LENS: seq<nat> := [1, 2]
  const VALUES: seq<byte> := [0x00, 0x07]

  // The only DC code, of sixteen bits, is followed by a difference of nine.
  const DC_LENS: seq<nat> := [16]
  const DC_VALUES: seq<byte> := [0x09]

  // Code and difference of the DC part, code 10 and five of the seven bits of its value, the end-of-image marker.
  const CUT_SHORT: seq<byte> := [0x00, 0x00, 0x00, 0x40, 0xFF, 0xD9]

  lemma {:induction false} Codes()
    ensures Code(LENS, 0) == 0 && Code(LENS, 1) == 2
  {
    assert LENS[..0] == [] && LENS[..1] == [1];
    CountOne([1], 1);
    CountOne([1], 2);
    CountOne(LENS, 1);
    assert First(LENS, 1) == 0;
  }

  lemma {:induction false} CountOne(lens: seq<nat>, s: nat)
    requires lens != []
    ensures lens[..|lens| - 1] == [] ==> Count(lens, s) == if lens[0] == s then 1 else 0
    ensures lens == [1, 2] && s == 1 ==> Count(lens, s) == 1
  {
    assert lens == [1, 2] ==> lens[..1] == [1];
    assert [1][..0] == [];
  }

  lemma {:induction false} RevOne(n: nat)
    requires n > 0
    ensures Rev(1, n) == Pow2(n - 1)
    decreases n
  {
    if n > 1 {
      RevOne(n - 1);
      ShrOne(n - 1);
    }
  }

  lemma {:induction false} ShrOne(n: nat)
    requires n > 0
    ensures Shr(1, n) == 0
  {
    LowSmall(1, n);
  }

  /** As bits: one, behind twenty-five zeros. */
  lemma {:induction false} CutStream()
    ensures Stream(CUT_SHORT, BEGIN) == Pow2(25)
  {
    hide Rev, Low, Entropy, Pow2, LE;
    CutBytes();
    Pow2Values();
    RevShifted(1, 6, 2);
    RevOne(2);
    ZeroBits(8);
    ZeroBits(WORD);
    assert Mirror(Entropy(CUT_SHORT, 0)) == [0, 0, 0, 2];
    FourBytes(0, 0, 0, 2);
    Pow2Add(16, 9);
    NoBitsYet();
  }

  lemma {:induction false} NoBitsYet()
    ensures Pow2(0) == 1
  {
  }

  lemma {:induction false} FourBytes(a: byte, b: byte, c: byte, d: byte)
    ensures LE([a, b, c, d]) == a + 256 * (b + 256 * (c + 256 * d))
  {
    assert [a, b, c, d][1..] == [b, c, d] && [b, c, d][1..] == [c, d] && [c, d][1..] == [d] && [d][1..] == [];
    assert LE([d]) == d;
    assert LE([c, d]) == c + 256 * LE([d]);
    assert LE([b, c, d]) == b + 256 * LE([c, d]);
  }

  lemma {:induction false} CutBytes()
    ensures Entropy(CUT_SHORT, 0) == [0x00, 0x00, 0x00, 0x40]
  {
    assert Entropy(CUT_SHORT, 4) == [];
    assert Entropy(CUT_SHORT, 3) == [0x40];
    assert Entropy(CUT_SHORT, 2) == [0x00, 0x40];
  }

  /** The first refill takes the four bytes before the marker, and does not meet it. */
  lemma {:induction false} FirstRefill()
    ensures var g := Filled(CUT_SHORT, BEGIN, 16);
      g.bits == 32 && g.pos == 4 && !g.nomore
  {
    hide Grow, Append;
    var t1 := RefillByte(CUT_SHORT, BEGIN);
    var t2 := RefillByte(CUT_SHORT, t1);
    var t3 := RefillByte(CUT_SHORT, t2);
    var t4 := RefillByte(CUT_SHORT, t3);
  }

  /** With fewer than sixteen bits behind the four bytes, a refill meets the marker and brings nothing. */
  lemma {:induction false} SecondRefill(s: Source)
    requires s.pos == 4 && !s.nomore && s.bits < 16
    ensures var g := Filled(CUT_SHORT, s, 16);
      g.bits == s.bits && g.buf == s.buf && g.nomore
  {
    assert SkipFill(CUT_SHORT, 5) == 5;
  }

  /** The DC code is sixteen zeros. */
  lemma {:induction false} DcWindow()
    ensures Rev(Pow2(25), WINDOW) == 0 && Find(DC_LENS, 0) == 0 && Shr(Pow2(25), 16) == Pow2(9)
    ensures Rev(Pow2(9), 9) == 0 && Shr(Pow2(9), 9) == 1
  {
    hide Rev, Shr, Low, Pow2;
    Pow2Add(16, 9);
    LowShift(Pow2(9), 16, 0);
    RevLow(Pow2(25), WINDOW, WINDOW);
    ZeroBits(WINDOW);
    ZeroBits(0);
    LowShift(1, 9, 0);
    RevLow(Pow2(9), 9, 9);
    ZeroBits(9);
    DcCode();
    FindIs(DC_LENS, 0, 0);
  }

  lemma {:induction false} DcCode()
    ensures Code(DC_LENS, 0) == 0
  {
    assert DC_LENS[..0] == [];
    DcFirst(16);
  }

  lemma {:induction false} DcFirst(n: nat)
    requires n <= 16
    ensures First(DC_LENS, n) == 0
    decreases n
  {
    if n > 1 {
      DcFirst(n - 1);
      CountOne(DC_LENS, n - 1);
    }
  }

  /** The DC part is read right, and seven bits are left of which the first is one. */
  lemma {:induction false} DcRead() returns (s: Source)
    ensures SourceOk(CUT_SHORT, s) && s.pos == 4 && !s.nomore && s.bits == 7
    ensures Difference(CUT_SHORT, DC_LENS, DC_VALUES, BEGIN) == Diff(-511, s) && Stream(CUT_SHORT, s) == 1
  {
    hide Rev, Shr, Low, Pow2, Hits, Grow, Stream, SourceOk, SymbolAt, Extend;
    JpegCode.StartOk(CUT_SHORT);
    CutStream();
    DcWindow();
    FirstRefill();
    FilledStream(CUT_SHORT, BEGIN, 16);
    LongSymbol(CUT_SHORT, DC_LENS, DC_VALUES, BEGIN);
    var u := Drop(Filled(CUT_SHORT, BEGIN, 16), 16);
    ValueStream(CUT_SHORT, u, 9);
    s := Drop(u, 9);
    NineZeros();
  }

  lemma {:induction false} NineZeros()
    ensures Extend(0, 9) == -511 && Extend(0, 7) == -127
  {
    hide Pow2;
    Pow2Values();
  }

  /** The two windows a decoder sees: code 10 with zeros behind it, then zeros. */
  lemma {:induction false} Windows()
    ensures Rev(1, WINDOW) == 0x8000 && Shr(1, 2) == 0
    ensures Find(LENS, 0x8000) == 1 && Find(LENS, 0) == 0
  {
    hide Rev, Shr, Pow2, Code;
    Pow2Values();
    RevOne(WINDOW);
    ShrOne(2);
    Codes();
    LowShift(2, 14, 0);
    ZeroBits(15);
    FindIs(LENS, 1, 0x8000);
    FindIs(LENS, 0, 0);
  }

  lemma {:induction false} ZeroBits(n: nat)
    ensures Shr(0, n) == 0 && Low(0, n) == 0 && Rev(0, n) == 0
  {
    LowSmall(0, n);
    RevZero(n);
  }

  /** The table holds the symbol: nine bits for code and value. */
  lemma {:induction false} TableHasIt()
    ensures Short(LENS, VALUES, 1, 0x100) && ShortValue(0x100, 2, 7) == -127
  {
    hide Shr, Low, Pow2, Code;
    Codes();
    Pow2Values();
    LowShift(2, 7, 0);
    ZeroBits(0);
  }

  lemma {:induction false} TopBits(buf: nat)
    requires Shr(buf, WORD - WINDOW) == 0x8000
    ensures Shr(buf, WORD - FAST_BITS) == 0x100
  {
    hide Shr, Low, Pow2;
    Pow2Values();
    TakeTwice(buf, WORD - WINDOW, 7);
    LowShift(0x100, 7, 0);
  }

  /** What the stream stands for: coefficient 1 is -127, and the block ends. */
  lemma {:induction false} CutMeans()
    ensures StreamBlock(LENS, VALUES, 1, 1, []) == Coded([(1, -127)], 0)
  {
    hide Rev, Shr, Pow2, Hits;
    Windows();
    ZeroBits(7);
    ZeroBits(1);
    ZeroBits(WINDOW);
    Pow2Values();
    assert Extend(0, 7) == -127;
    assert StreamStep(LENS, VALUES, 1, 1, []) == StepOn(2, [(1, -127)], 0);
    assert StreamStep(LENS, VALUES, 0, 2, [(1, -127)]) == StepEnd([(1, -127)], 0);
  }

  /** With its table the decoder refuses the block. */
  lemma {:induction false} FastLoses(s: Source)
    requires SourceOk(CUT_SHORT, s) && s.pos == 4 && !s.nomore && s.bits == 7 && Stream(CUT_SHORT, s) == 1
    ensures Decoded(CUT_SHORT, LENS, VALUES, s, 1, []) == Bad
    ensures TableMatters(CUT_SHORT, LENS, VALUES, s) && CutIn(CUT_SHORT, LENS, VALUES, s, 1)
  {
    hide Rev, Shr, Pow2, Hits, Grow, Filled, Short, ShortValue, Stream, SourceOk, Drop, Extend, NextValue;
    FilledWindow(CUT_SHORT, s);
    SecondRefill(s);
    Windows();
    TopBits(Filled(CUT_SHORT, s, 16).buf);
    TableHasIt();
  }

  /** Without it the value is completed with zeros. */
  lemma {:induction false} PlainValue(s: Source) returns (t: Source)
    requires SourceOk(CUT_SHORT, s) && s.pos == 4 && !s.nomore && s.bits == 7 && Stream(CUT_SHORT, s) == 1
    ensures PlainRound(CUT_SHORT, LENS, VALUES, s, 1, []) == RoundOn(2, [(1, -127)], t)
    ensures SourceOk(CUT_SHORT, t) && t.nomore && Stream(CUT_SHORT, t) == 0
  {
    hide Rev, Shr, Low, Pow2, Hits, Stream, SourceOk, Extend, Grow;
    FilledWindow(CUT_SHORT, s);
    SecondRefill(s);
    Windows();
    FilledStream(CUT_SHORT, s, 16);
    var g := Filled(CUT_SHORT, s, 16);
    var u := Drop(g, 2);
    DropStream(CUT_SHORT, g, 2);
    DropOk(CUT_SHORT, g, 2);
    GrowStream(CUT_SHORT, u);
    GrowKeepsMarker(CUT_SHORT, u);
    ValueStream(CUT_SHORT, u, 7);
    NineZeros();
    ZeroBits(7);
    t := NextValue(CUT_SHORT, u, 7).rest;
    assert [] + [(1, -127)] == [(1, -127)];
  }

  lemma {:induction false} PlainEnd(t: Source)
    requires SourceOk(CUT_SHORT, t) && t.nomore && Stream(CUT_SHORT, t) == 0
    ensures t.pos <= |CUT_SHORT| && t.bits <= WORD
    ensures PlainRound(CUT_SHORT, LENS, VALUES, t, 2, [(1, -127)]).RoundEnd?
    ensures PlainRound(CUT_SHORT, LENS, VALUES, t, 2, [(1, -127)]).coeffs == [(1, -127)]
  {
    hide Rev, Shr, Low, Pow2, Hits, Stream, SourceOk, Extend, Grow, Filled, Drop;
    FilledStream(CUT_SHORT, t, 16);
    FilledWindow(CUT_SHORT, t);
    Windows();
    ZeroBits(WINDOW);
  }

  /**
    The DC difference is read.  From the state it leaves the decoder refuses the AC part; without the table it reads
    the block that the bits stand for.
  */
  lemma {:induction false} LostToTheTable() returns (s: Source)
    ensures Difference(CUT_SHORT, DC_LENS, DC_VALUES, BEGIN) == Diff(-511, s) && s.pos <= |CUT_SHORT| && s.bits <= WORD
    ensures Decoded(CUT_SHORT, LENS, VALUES, s, 1, []) == Bad
    ensures TableMatters(CUT_SHORT, LENS, VALUES, s) && CutIn(CUT_SHORT, LENS, VALUES, s, 1)
    ensures StreamBlock(LENS, VALUES, Stream(CUT_SHORT, s), 1, []) == Coded([(1, -127)], 0)
    ensures var p := PlainBlock(CUT_SHORT, LENS, VALUES, s, 1, []); p.Block? && p.coeffs == [(1, -127)]
  {
    hide PlainRound, Decoded, StreamBlock, CutIn, TableMatters, Stream, SourceOk, Difference;
    s := DcRead();
    BoundsOf(CUT_SHORT, s);
    FastLoses(s);
    CutMeans();
    var t := PlainValue(s);
    PlainEnd(t);
  }
}
