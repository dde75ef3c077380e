/**
  The bits of an entropy-coded segment of a JPEG file, independently of the
  buffer they are read through: FF 00 stands for FF, fill bytes are skipped, a
  marker or the end of the file ends the bits, and zeros follow.  As elsewhere
  the stream is the number its bits form, first bit least significant; a byte
  enters with its bits reversed, since JPEG reads it from the top.
*/
module JpegStream {
  import opened Bits
  import opened Canonical
  import opened JHuffman
  import opened Jpeg

  /** The bytes from a position up to the next marker, unstuffed. */
  function Entropy(data: seq<byte>, pos: nat): seq<byte>
    requires pos <= |data|
    decreases |data| - pos
  {
    if pos == |data| then []
    else if data[pos] != 0xff then [data[pos]] + Entropy(data, pos + 1)
    else
      var q := SkipFill(data, pos + 1);
      if ByteAt(data, q) != 0 then [] else [0xff] + Entropy(data, Next(data, q))
  }

  function Ahead(data: seq<byte>, s: Source): seq<byte>
    requires s.pos <= |data|
  {
    if s.nomore then [] else Entropy(data, s.pos)
  }

  function Mirror(bytes: seq<byte>): (r: seq<byte>)
    ensures |r| == |bytes|
  {
    Pow2Eight();
    seq(|bytes|, i requires 0 <= i < |bytes| => Rev(bytes[i], 8))
  }

  lemma {:induction false} Pow2Eight()
    ensures Pow2(8) == 256
  {
    Pow2Values();
  }

  /** The bits still to be read: those in hand, then those of the bytes ahead. */
  function Stream(data: seq<byte>, s: Source): nat
    requires s.pos <= |data|
  {
    Flipped(s.buf) + Times(Pow2(s.bits), LE(Mirror(Ahead(data, s))))
  }

  function Times(a: nat, b: nat): nat {
    a * b
  }

  /** The buffer with its first bit at the bottom. */
  function Flipped(buf: nat): nat {
    Rev(buf, WORD)
  }

  /** How many bits are in hand or ahead before the end of the data. */
  function Avail(data: seq<byte>, s: Source): nat
    requires s.pos <= |data|
  {
    s.bits + 8 * |Ahead(data, s)|
  }

  // ------------------------------------------------------------------
  // The bits in hand
  // ------------------------------------------------------------------

  /** Shifting a number up only moves the zeros to the end of its reversal. */
  lemma {:induction false} RevShifted(h: nat, z: nat, n: nat)
    ensures Rev(Pow2(z) * h, z + n) == Rev(h, n)
  {
    hide Rev, Shr, Low, Pow2;
    RevSplit(Pow2(z) * h, z, n);
    LowShift(h, z, 0);
    RevLow(Pow2(z) * h, z, z);
    RevZero(z);
  }

  lemma {:induction false} InHand(data: seq<byte>, s: Source)
    requires SourceOk(data, s)
    ensures s.buf == Pow2(WORD - s.bits) * Shr(s.buf, WORD - s.bits)
    ensures Rev(s.buf, WORD) == Rev(Shr(s.buf, WORD - s.bits), s.bits) < Pow2(s.bits)
  {
    hide Rev, Shr, Low, Pow2;
    Split(s.buf, WORD - s.bits);
    RevShifted(Shr(s.buf, WORD - s.bits), WORD - s.bits, s.bits);
  }

  /** A byte enters the stream behind the bits in hand. */
  lemma {:induction false} AppendRev(data: seq<byte>, s: Source, b: byte)
    requires SourceOk(data, s) && s.bits <= 24
    ensures Rev(Append(s, b).buf, WORD) == Rev(s.buf, WORD) + Pow2(s.bits) * Rev(b, 8)
  {
    hide Rev, Shr, Low, Pow2, SourceOk;
    var z := 24 - s.bits;
    var h := Shr(s.buf, z + 8);
    InHand(data, s);
    AppendBuf(data, s, b);
    RevShifted(256 * h + b, z, s.bits + 8);
    Pow2Eight();
    RevSplit(b + 256 * h, 8, s.bits);
    SplitUnique(b, 8, h);
    RevLow(b + 256 * h, 8, 8);
  }

  lemma {:induction false} AppendBuf(data: seq<byte>, s: Source, b: byte)
    requires SourceOk(data, s) && s.bits <= 24
    ensures Append(s, b).buf == Pow2(24 - s.bits) * (256 * Shr(s.buf, WORD - s.bits) + b)
  {
    hide Rev, Shr, Low, Pow2;
    var z := 24 - s.bits;
    var h := Shr(s.buf, z + 8);
    InHand(data, s);
    Pow2Add(z, 8);
    Pow2Eight();
    MulAssoc(Pow2(z), 256, h);
    MulDist(Pow2(z), 256 * h, b);
  }

  /** The top n bits of the buffer are the next n bits of the stream. */
  lemma {:induction false} WindowIs(data: seq<byte>, s: Source, n: nat)
    requires SourceOk(data, s) && n <= WORD && (n <= s.bits || Ahead(data, s) == [])
    ensures s.pos <= |data| && Shr(s.buf, WORD - n) == Rev(Stream(data, s), n)
  {
    hide Rev, Shr, Low, Pow2, Entropy;
    var r := Rev(s.buf, WORD);
    RevPrefix(r, WORD, n);
    RevTwice(s.buf, WORD);
    LowSmall(s.buf, WORD);
    if n <= s.bits {
      LowBits(r, s.bits, LE(Mirror(Ahead(data, s))), n);
      RevLow(r, n, n);
      RevLow(Stream(data, s), n, n);
    } else {
      NoneAhead(data, s);
    }
  }

  lemma {:induction false} NoneAhead(data: seq<byte>, s: Source)
    requires s.pos <= |data| && Ahead(data, s) == []
    ensures Stream(data, s) == Rev(s.buf, WORD)
  {
    hide Rev, Pow2, Entropy;
  }

  /** Taking n bits off the buffer is taking them off the stream. */
  lemma {:induction false} DropStream(data: seq<byte>, s: Source, n: nat)
    requires SourceOk(data, s) && n <= s.bits
    ensures s.pos <= |data| && Stream(data, Drop(s, n)) == Shr(Stream(data, s), n)
    ensures Avail(data, Drop(s, n)) == Avail(data, s) - n
  {
    hide Rev, Shr, Low, Pow2, Entropy;
    var y, r := Low(s.buf, WORD - n), Rev(s.buf, WORD);
    RevShifted(y, n, WORD - n);
    RevLow(s.buf, WORD - n, WORD - n);
    RevSplit(s.buf, WORD - n, n);
    SplitUnique(Rev(Shr(s.buf, WORD - n), n), n, Rev(s.buf, WORD - n));
    assert r == Rev(Shr(s.buf, WORD - n), n) + Pow2(n) * Rev(s.buf, WORD - n);
    LowBits(r, s.bits, LE(Mirror(Ahead(data, s))), n);
  }

  // ------------------------------------------------------------------
  // Refilling
  // ------------------------------------------------------------------

  lemma {:induction false} HeadAhead(b: byte, rest: seq<byte>)
    ensures LE(Mirror([b] + rest)) == Rev(b, 8) + 256 * LE(Mirror(rest))
  {
    hide Rev;
    assert Mirror([b] + rest)[0] == Rev(b, 8) && Mirror([b] + rest)[1..] == Mirror(rest);
  }

  lemma {:induction false} NothingAhead()
    ensures LE(Mirror([])) == 0
  {
  }

  /** Moving the next byte, or a zero at the end, into the buffer leaves the stream as it is. */
  lemma {:induction false} AppendStream(data: seq<byte>, s: Source, t: Source, b: byte)
    requires SourceOk(data, s) && s.bits <= 24 && t.pos <= |data| && t.(pos := s.pos) == s
    requires Ahead(data, s) == [b] + Ahead(data, t) || (b == 0 && Ahead(data, s) == Ahead(data, t) == [])
    ensures Append(t, b).pos <= |data| && Stream(data, Append(t, b)) == Stream(data, s)
    ensures Avail(data, Append(t, b)) >= Avail(data, s)
    ensures Ahead(data, s) != [] ==> Avail(data, Append(t, b)) == Avail(data, s)
  {
    hide Rev, Pow2, Entropy, LE, Mirror;
    AppendRev(data, s, b);
    var l := LE(Mirror(Ahead(data, t)));
    assert Ahead(data, Append(t, b)) == Ahead(data, t);
    Pow2Add(s.bits, 8);
    Pow2Eight();
    MulAssoc(Pow2(s.bits), 256, l);
    if Ahead(data, s) == [] {
      NothingAhead();
      RevZero(8);
    } else {
      HeadAhead(b, Ahead(data, t));
      MulDist(Pow2(s.bits), Rev(b, 8), 256 * l);
    }
  }

  /** What one turn of the refill loop does. */
  datatype Turn = Stop(at: Source) | Byte(at: Source, b: byte)

  function NextByte(data: seq<byte>, s: Source): Turn
    requires s.pos <= |data|
  {
    if s.nomore then Byte(s, 0)
    else
      var b, p := ByteAt(data, s.pos), Next(data, s.pos);
      if b == 0xff then
        var q := SkipFill(data, p);
        var c := ByteAt(data, q);
        if c != 0 then Stop(s.(pos := Next(data, q), marker := c, nomore := true)) else Byte(s.(pos := Next(data, q)), b)
      else Byte(s.(pos := p), b)
  }

  lemma {:induction false} GrowTurn(data: seq<byte>, s: Source)
    requires s.bits <= 24 && s.pos <= |data|
    ensures NextByte(data, s).at.pos <= |data|
    ensures Grow(data, s) ==
      match NextByte(data, s)
      case Stop(at) => at
      case Byte(at, b) => More(data, Append(at, b))
  {
    hide SkipFill, Append, More;
  }

  lemma {:induction false} TurnAhead(data: seq<byte>, s: Source)
    requires s.pos <= |data|
    ensures match NextByte(data, s)
      case Stop(at) => at.pos <= |data| && Ahead(data, s) == [] && at.nomore && !s.nomore && at == s.(pos := at.pos, nomore := true, marker := at.marker)
      case Byte(at, b) =>
        && at.pos <= |data| && at.(pos := s.pos) == s
        && (!s.nomore && Ahead(data, s) == [] ==> at.pos == |data|)
        && (Ahead(data, s) == [b] + Ahead(data, at) || (b == 0 && Ahead(data, s) == Ahead(data, at) == []))
  {
    hide SkipFill;
  }

  /** A refill leaves the stream as it is; when it meets the marker, all that is left is in hand. */
  lemma {:induction false} GrowStream(data: seq<byte>, s: Source)
    requires SourceOk(data, s) && s.bits <= 24
    ensures SourceOk(data, Grow(data, s)) && s.pos <= |data| && Grow(data, s).pos <= |data|
    ensures Stream(data, Grow(data, s)) == Stream(data, s)
    ensures Avail(data, Grow(data, s)) >= Avail(data, s)
    ensures s.nomore ==> Grow(data, s).bits > 24
    ensures !s.nomore && Grow(data, s).nomore ==> Grow(data, s).bits <= 24 && Grow(data, s).bits == Avail(data, s)
    decreases WORD - s.bits
  {
    hide Low, Pow2, Rev, Stream, Append, NextByte, Grow, Entropy;
    GrowOk(data, s);
    BoundsOf(data, s);
    GrowTurn(data, s);
    TurnAhead(data, s);
    match NextByte(data, s)
    case Stop(at) => StopStream(data, s, at);
    case Byte(at, b) =>
      AppendStream(data, s, at, b);
      AppendMore(data, s, at, b);
      if s.bits + 8 <= 24 {
        GrowStream(data, Append(at, b));
        if !s.nomore && Ahead(data, s) == [] { GrowAtEnd(data, Append(at, b)); }
      }
  }

  /** At the end of the file there is no marker. */
  lemma {:induction false} GrowAtEnd(data: seq<byte>, s: Source)
    requires s.bits <= 24 && s.pos == |data| && !s.nomore
    ensures !Grow(data, s).nomore
    decreases WORD - s.bits
  {
    hide Pow2, SkipFill;
    var t := Append(s, 0);
    if t.bits <= 24 { GrowAtEnd(data, t); }
  }

  lemma {:induction false} StopStream(data: seq<byte>, s: Source, at: Source)
    requires s.pos <= |data| && at.pos <= |data| && Ahead(data, s) == [] && at.nomore && at == s.(pos := at.pos, nomore := true, marker := at.marker)
    ensures Stream(data, at) == Stream(data, s) && Avail(data, at) == Avail(data, s) == s.bits
  {
    hide Rev, Pow2, Entropy;
  }

  lemma {:induction false} AppendMore(data: seq<byte>, s: Source, at: Source, b: byte)
    requires SourceOk(data, s) && s.bits <= 24 && at.pos <= |data| && at.(pos := s.pos) == s
    ensures SourceOk(data, Append(at, b)) && Append(at, b).bits == s.bits + 8 && Append(at, b).nomore == s.nomore
    ensures Append(at, b).pos == at.pos
    ensures More(data, Append(at, b)) == if s.bits + 8 <= 24 then Grow(data, Append(at, b)) else Append(at, b)
  {
    hide Low, Pow2, Grow;
    AppendOk(data, at, b);
  }
}
