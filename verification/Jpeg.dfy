/**
  JPEG entropy decoding in stb_image.h: the bit buffer, Huffman symbols, signed
  values, and the coefficients of a block with the table that folds symbol and
  value into one lookup.
*/
module Jpeg {
  import opened Bits
  import opened Canonical
  import opened JHuffman

  const WORD: nat := 32

  // ------------------------------------------------------------------
  // The entropy-coded segment
  // ------------------------------------------------------------------

  /** Bits in hand are the top `bits` bits of `buf`; the rest of buf is zero. */
  datatype Source = Source(pos: nat, nomore: bool, marker: byte, buf: nat, bits: nat)

  predicate SourceOk(data: seq<byte>, s: Source) {
    s.pos <= |data| && s.bits <= WORD && s.buf < Pow2(WORD) && Low(s.buf, WORD - s.bits) == 0
  }

  /** stbi__get8 */
  function ByteAt(data: seq<byte>, pos: nat): byte {
    if pos < |data| then data[pos] else 0
  }

  function Next(data: seq<byte>, pos: nat): nat {
    if pos < |data| then pos + 1 else pos
  }

  /** Past fill bytes, to the byte that decides what an FF byte meant. */
  function SkipFill(data: seq<byte>, pos: nat): (p: nat)
    requires pos <= |data|
    ensures pos <= p <= |data| && ByteAt(data, p) != 0xff
    decreases |data| - pos
  {
    if pos < |data| && data[pos] == 0xff then SkipFill(data, pos + 1) else pos
  }

  function Append(s: Source, b: byte): Source
    requires s.bits <= 24
  {
    s.(buf := s.buf + Pow2(24 - s.bits) * b, bits := s.bits + 8)
  }

  /** stbi__grow_buffer_unsafe: FF 00 stands for FF; any other marker ends the data, zeros follow it. */
  function Grow(data: seq<byte>, s: Source): (t: Source)
    requires s.bits <= 24 && s.pos <= |data|
    ensures t.pos <= |data| && t.bits <= WORD && t.bits >= s.bits
    ensures t.bits <= 24 ==> t.nomore
    decreases WORD - s.bits, 0
  {
    if s.nomore then More(data, Append(s, 0))
    else
      var b, p := ByteAt(data, s.pos), Next(data, s.pos);
      if b == 0xff then
        var q := SkipFill(data, p);
        var c := ByteAt(data, q);
        if c != 0 then s.(pos := Next(data, q), marker := c, nomore := true)
        else More(data, Append(s.(pos := Next(data, q)), b))
      else More(data, Append(s.(pos := p), b))
  }

  function More(data: seq<byte>, s: Source): (t: Source)
    requires s.bits <= WORD && s.pos <= |data|
    ensures t.pos <= |data| && t.bits <= WORD && t.bits >= s.bits
    ensures t.bits <= 24 ==> t.nomore
    decreases WORD - s.bits, 1
  {
    if s.bits <= 24 then Grow(data, s) else s
  }

  function Drop(s: Source, n: nat): Source
    requires n <= s.bits && n <= WORD
  {
    s.(buf := Pow2(n) * Low(s.buf, WORD - n), bits := s.bits - n)
  }

  // ------------------------------------------------------------------
  // Symbols and values (Annex F of ITU-T T.81)
  // ------------------------------------------------------------------

  /** The symbol whose code the window begins with, -1 if there is none. */
  ghost function Find(lens: seq<nat>, w: nat): (i: int)
    ensures i >= 0 ==> i < |lens| && Hits(lens, i, w)
    ensures i < 0 ==> forall j: nat :: !Hits(lens, j, w)
  {
    if j: nat :| Hits(lens, j, w) then j else -1
  }

  lemma {:induction false} FindIs(lens: seq<nat>, i: nat, w: nat)
    requires Hits(lens, i, w)
    ensures Find(lens, w) == i
  {
    HitUnique(lens, i, Find(lens, w), w);
  }

  datatype Symbol = NoSymbol | Symbol(value: byte, rest: Source)

  function Filled(data: seq<byte>, s: Source, n: nat): (t: Source)
    requires s.pos <= |data| && n <= 16 && s.bits <= WORD
    ensures t.pos <= |data| && t.bits <= WORD
  {
    if s.bits < n then Grow(data, s) else s
  }

  ghost function SymbolAt(lens: seq<nat>, values: seq<byte>, s: Source): Symbol
    requires |lens| <= |values|
  {
    var i := Find(lens, Shr(s.buf, WORD - WINDOW));
    if i < 0 || lens[i] > s.bits then NoSymbol else Symbol(values[i], Drop(s, lens[i]))
  }

  /** DECODE */
  ghost function NextSymbol(data: seq<byte>, lens: seq<nat>, values: seq<byte>, s: Source): (r: Symbol)
    requires |lens| <= |values| && s.pos <= |data| && s.bits <= WORD
    ensures r.Symbol? ==> r.rest.pos <= |data| && r.rest.bits <= WORD
  {
    SymbolAt(lens, values, Filled(data, s, 16))
  }

  /** EXTEND: n bits v as a signed value. */
  function Extend(v: nat, n: nat): int {
    if n > 0 && v < Pow2(n - 1) then v - Pow2(n) + 1 else v
  }

  datatype Value = Value(value: int, rest: Source)

  /** RECEIVE and EXTEND; zero when the data has run out. */
  function NextValue(data: seq<byte>, s: Source, n: nat): (r: Value)
    requires s.pos <= |data| && s.bits <= WORD && n < 16
    ensures r.rest.pos <= |data| && r.rest.bits <= WORD
  {
    var t := Filled(data, s, n);
    if t.bits < n then Value(0, t) else Value(Extend(Shr(t.buf, WORD - n), n), Drop(t, n))
  }

  // ------------------------------------------------------------------
  // The AC coefficients of a block
  // ------------------------------------------------------------------

  datatype Block = Bad | Block(coeffs: seq<(nat, int)>, rest: Source)

  /** The bits after an s-bit code in the nine bits x, as a value of n bits. */
  function ShortValue(x: nat, s: nat, n: nat): int
    requires s + n <= FAST_BITS
  {
    Extend(Shr(Low(x, FAST_BITS - s), FAST_BITS - s - n), n)
  }

  /** Symbol i and its value fit the table of short coefficients at index x. */
  predicate Short(lens: seq<nat>, values: seq<byte>, i: nat, x: nat)
    requires |lens| <= |values|
  {
    && i != NO_ENTRY && HitsTop(lens, i, x)
    && values[i] % 16 > 0 && lens[i] + values[i] % 16 <= FAST_BITS
    && -128 <= ShortValue(x, lens[i], values[i] % 16) <= 127
  }

  ghost predicate ShortAt(lens: seq<nat>, values: seq<byte>, x: nat)
    requires |lens| <= |values|
  {
    exists i: nat :: Short(lens, values, i, x)
  }

  /** The table entry for symbol i: value, run and combined length in one number. */
  function Packed(lens: seq<nat>, values: seq<byte>, i: nat, x: nat): int
    requires |lens| <= |values| && Short(lens, values, i, x)
  {
    ShortValue(x, lens[i], values[i] % 16) * 256 + values[i] / 16 * 16 + (lens[i] + values[i] % 16)
  }

  /** The entry is the packed one if the bits begin with a short symbol, zero otherwise. */
  ghost predicate ShortEntry(lens: seq<nat>, values: seq<byte>, x: nat, e: int)
    requires |lens| <= |values|
  {
    && (forall i: nat :: Short(lens, values, i, x) ==> e == Packed(lens, values, i, x))
    && (e != 0 ==> ShortAt(lens, values, x))
  }

  ghost predicate FastAcOk(lens: seq<nat>, values: seq<byte>, fac: seq<int>)
    requires |lens| <= |values|
  {
    |fac| == FAST_SIZE && forall x :: 0 <= x < FAST_SIZE ==> ShortEntry(lens, values, x, fac[x])
  }

  /** The short symbol the bits in hand begin with, -1 if there is none. */
  ghost function ShortSymbol(lens: seq<nat>, values: seq<byte>, s: Source): (i: int)
    requires |lens| <= |values|
    ensures i >= 0 ==> Short(lens, values, i, Shr(s.buf, WORD - FAST_BITS))
  {
    var i := Find(lens, Shr(s.buf, WORD - WINDOW));
    if i >= 0 && Short(lens, values, i, Shr(s.buf, WORD - FAST_BITS)) then i else -1
  }

  datatype Dc = NoDiff | Diff(diff: int, rest: Source)

  /** Section F.2.2.1 of ITU-T T.81 as stbi__jpeg_decode_block reads it: a size, then the difference of that size. */
  ghost function Difference(data: seq<byte>, lens: seq<nat>, values: seq<byte>, s: Source): Dc
    requires |lens| <= |values| && s.pos <= |data| && s.bits <= WORD
  {
    match NextSymbol(data, lens, values, Filled(data, s, 16))
    case NoSymbol => NoDiff
    case Symbol(n, t) =>
      if n > 15 then NoDiff
      else if n == 0 then Diff(0, t)
      else
        var v := NextValue(data, t, n);
        Diff(v.value, v.rest)
  }

  datatype RoundResult = RoundBad | RoundEnd(coeffs: seq<(nat, int)>, rest: Source) | RoundOn(k: nat, coeffs: seq<(nat, int)>, rest: Source)

  /**
    One symbol of a block as stbi__jpeg_decode_block reads it: a short symbol and its value are taken together, and
    refused when the bits in hand end before both are complete; before any other symbol the buffer is filled once more.
  */
  ghost function Round(
      data: seq<byte>, lens: seq<nat>, values: seq<byte>, s: Source, k: nat, coeffs: seq<(nat, int)>): (r: RoundResult)
    requires |lens| <= |values| && s.pos <= |data| && s.bits <= WORD
    ensures r.RoundOn? ==> r.k > k && r.rest.pos <= |data| && r.rest.bits <= WORD
  {
    var g := Filled(data, s, 16);
    var i := ShortSymbol(lens, values, g);
    if i >= 0 then
      var n, run := lens[i] + values[i] % 16, values[i] / 16;
      var v := ShortValue(Shr(g.buf, WORD - FAST_BITS), lens[i], values[i] % 16);
      if n > g.bits then RoundBad else RoundOn(k + run + 1, coeffs + [(k + run, v)], Drop(g, n))
    else
      match NextSymbol(data, lens, values, g)
      case NoSymbol => RoundBad
      case Symbol(rs, t) =>
        if rs % 16 == 0 then
          if rs != 0xf0 then RoundEnd(coeffs, t) else RoundOn(k + 16, coeffs, t)
        else
          var v := NextValue(data, t, rs % 16);
          RoundOn(k + rs / 16 + 1, coeffs + [(k + rs / 16, v.value)], v.rest)
  }

  ghost function Decoded(
      data: seq<byte>, lens: seq<nat>, values: seq<byte>, s: Source, k: nat, coeffs: seq<(nat, int)>): (r: Block)
    requires |lens| <= |values| && s.pos <= |data| && s.bits <= WORD
    decreases 64 - k
  {
    if k >= 64 then Block(coeffs, s)
    else
      match Round(data, lens, values, s, k, coeffs)
      case RoundBad => Bad
      case RoundEnd(cs, t) => Block(cs, t)
      case RoundOn(k', cs, t) => Decoded(data, lens, values, t, k', cs)
  }

  // ------------------------------------------------------------------
  // Bit buffer facts
  // ------------------------------------------------------------------

  lemma {:induction false} LowShr(v: nat, n: nat, m: nat)
    ensures Low(Shr(v, n), m) == Shr(Low(v, n + m), n)
  {
    TakeTwice(v, n, m);
    SplitUnique(Low(v, n), n, Low(Shr(v, n), m));
  }

  lemma {:induction false} LowShift(y: nat, a: nat, b: nat)
    ensures Low(Pow2(a) * y, a + b) == Pow2(a) * Low(y, b)
    ensures Shr(Pow2(a) * y, a) == y && Low(Pow2(a) * y, a) == 0
  {
    SplitUnique(0, a, y);
    TakeTwice(Pow2(a) * y, a, b);
  }

  lemma {:induction false} DropOk(data: seq<byte>, s: Source, n: nat)
    requires SourceOk(data, s) && n <= s.bits
    ensures SourceOk(data, Drop(s, n))
  {
    hide Low, Pow2;
    var y := Low(s.buf, WORD - n);
    LowShift(y, n, WORD - s.bits);
    LowLow(s.buf, WORD - n, WORD - s.bits);
    BelowWord(y, n);
    assert n + (WORD - s.bits) == WORD - (s.bits - n);
  }

  lemma {:induction false} BelowWord(y: nat, n: nat)
    requires n <= WORD && y < Pow2(WORD - n)
    ensures Pow2(n) * y < Pow2(WORD)
  {
    hide Pow2;
    Pow2Add(n, WORD - n);
    MulMono(y + 1, Pow2(WORD - n), Pow2(n));
    MulDist(Pow2(n), y, 1);
  }

  lemma {:induction false} AppendOk(data: seq<byte>, s: Source, b: byte)
    requires SourceOk(data, s) && s.bits <= 24
    ensures SourceOk(data, Append(s, b))
  {
    hide Low, Shr, Pow2;
    var free := WORD - s.bits;
    var h := Shr(s.buf, free);
    Split(s.buf, free);
    Pow2Add(24 - s.bits, 8);
    assert Pow2(8) == 256 by { Pow2Values(); }
    var p := Pow2(24 - s.bits);
    MulAssoc(p, 256, h);
    MulDist(p, 256 * h, b);
    LowShift(256 * h + b, 24 - s.bits, 0);
    ShrBound(s.buf, WORD, free);
    Pow2Add(free, s.bits);
    MulMono(h + 1, Pow2(s.bits), Pow2(free));
    MulDist(Pow2(free), h, 1);
    MulMono(b, 255, p);
  }

  /** Dropping a bits and then b bits. */
  lemma {:induction false} DropTwice(s: Source, a: nat, b: nat)
    requires a + b <= s.bits <= WORD
    ensures Drop(Drop(s, a), b) == Drop(s, a + b)
  {
    hide Low, Pow2;
    LowShift(Low(s.buf, WORD - a), a, WORD - a - b);
    LowLow(s.buf, WORD - a, WORD - a - b);
    Pow2Add(b, a);
    MulAssoc(Pow2(b), Pow2(a), Low(s.buf, WORD - a - b));
  }

  /** The next n bits after dropping s bits, seen through the top nine. */
  lemma {:induction false} TopAfterDrop(buf: nat, s: nat, n: nat)
    requires s + n <= FAST_BITS && buf < Pow2(WORD)
    ensures Shr(Pow2(s) * Low(buf, WORD - s), WORD - n) ==
            Shr(Low(Shr(buf, WORD - FAST_BITS), FAST_BITS - s), FAST_BITS - s - n)
  {
    hide Low, Shr, Pow2;
    var y := Low(buf, WORD - s);
    LowShift(y, s, 0);
    TakeTwice(Pow2(s) * y, s, WORD - s - n);
    LowShr(buf, WORD - FAST_BITS, FAST_BITS - s);
    TakeTwice(y, WORD - FAST_BITS, FAST_BITS - s - n);
  }

  /** The top bit says whether the n-bit value is in the upper half. */
  lemma {:induction false} TopBit(buf: nat, n: nat)
    requires 1 <= n < 16 && buf < Pow2(WORD)
    ensures Shr(buf, WORD - 1) <= 1
    ensures Shr(buf, WORD - 1) == 0 <==> Shr(buf, WORD - n) < Pow2(n - 1)
  {
    hide Shr, Pow2;
    ShrBound(buf, WORD, WORD - 1);
    assert Pow2(1) == 2 by { Pow2Values(); }
    TakeTwice(buf, WORD - n, n - 1);
    var v := Shr(buf, WORD - n);
    ShlGalois(v, 1, n - 1);
    ShlPow(1, n - 1);
  }

  // ------------------------------------------------------------------
  // The decoder
  // ------------------------------------------------------------------

  /** Tables whose symbol 255 cannot be met by the lookup: it is the mark for "no entry". */
  predicate Good(lens: seq<nat>) {
    |lens| <= NO_ENTRY || lens[NO_ENTRY] > FAST_BITS
  }

  /** The window begins with the code of a symbol 255 the lookup should hold but cannot. */
  ghost predicate Met(lens: seq<nat>, w: nat) {
    !Good(lens) && Hits(lens, NO_ENTRY, w)
  }

  /** The bits in hand begin with the whole code of such a symbol 255. */
  ghost predicate Misreads(lens: seq<nat>, s: Source) {
    Met(lens, Shr(s.buf, WORD - WINDOW)) && lens[NO_ENTRY] <= s.bits
  }

  /** The symbol read after a refill of its own is misread. */
  ghost predicate MisreadNext(data: seq<byte>, lens: seq<nat>, s: Source)
    requires s.pos <= |data| && s.bits <= WORD
  {
    Misreads(lens, Filled(data, Filled(data, s, 16), 16))
  }

  ghost predicate MisreadRound(data: seq<byte>, lens: seq<nat>, values: seq<byte>, s: Source)
    requires |lens| <= |values| && s.pos <= |data| && s.bits <= WORD
  {
    ShortSymbol(lens, values, Filled(data, s, 16)) < 0 && MisreadNext(data, lens, s)
  }

  /** Some symbol of the block is misread. */
  ghost predicate MisreadIn(data: seq<byte>, lens: seq<nat>, values: seq<byte>, s: Source, k: nat, coeffs: seq<(nat, int)>)
    requires |lens| <= |values| && s.pos <= |data| && s.bits <= WORD
    decreases 64 - k
  {
    k < 64 &&
    (MisreadRound(data, lens, values, s) ||
     match Round(data, lens, values, s, k, coeffs)
     case RoundOn(k', cs, t) => MisreadIn(data, lens, values, t, k', cs)
     case _ => false)
  }

  /** A good table misreads nothing. */
  lemma {:induction false} GoodBlock(data: seq<byte>, lens: seq<nat>, values: seq<byte>, s: Source, k: nat, coeffs: seq<(nat, int)>)
    requires |lens| <= |values| && s.pos <= |data| && s.bits <= WORD && Good(lens)
    ensures !MisreadNext(data, lens, s) && !MisreadIn(data, lens, values, s, k, coeffs)
    decreases 64 - k
  {
    hide Good, Misreads, Filled, Round, ShortSymbol;
    GoodReads(lens, Filled(data, Filled(data, s, 16), 16));
    if k < 64 {
      match Round(data, lens, values, s, k, coeffs)
      case RoundOn(k', cs, t) => GoodBlock(data, lens, values, t, k', cs);
      case _ =>
    }
  }

  class Decoder {
    const data: seq<byte>
    var pos: nat
    var nomore: bool
    var marker: byte
    var codeBuffer: nat
    var codeBits: int

    constructor (data: seq<byte>)
      ensures this.data == data && Valid() && codeBits == 0 && At() == BEGIN
    {
      this.data, pos, nomore, marker, codeBuffer, codeBits := data, 0, false, 0, 0, 0;
      new;
      Empty();
    }

    function At(): Source
      requires codeBits >= 0
      reads this
    {
      Source(pos, nomore, marker, codeBuffer, codeBits)
    }

    predicate Valid()
      reads this
    {
      codeBits >= 0 && SourceOk(data, At())
    }

    method Get8() returns (b: byte)
      requires pos <= |data|
      modifies `pos
      ensures b == ByteAt(data, old(pos)) && pos == Next(data, old(pos))
    {
      if pos < |data| {
        b := data[pos];
        pos := pos + 1;
      } else {
        b := 0;
      }
    }

    /** stbi__grow_buffer_unsafe */
    method GrowBuffer()
      requires Valid() && codeBits <= 24
      modifies `pos, `nomore, `marker, `codeBuffer, `codeBits
      ensures Valid() && At() == Grow(data, old(At()))
    {
      hide Low, Pow2, SkipFill;
      ghost var goal := Grow(data, At());
      while true
        invariant Valid() && codeBits <= 24 && Grow(data, At()) == goal
        decreases 24 - codeBits
      {
        var b: byte := 0;
        if !nomore {
          b := Get8();
        }
        if b == 0xff {
          var c := AfterMark();
          if c != 0 {
            marker := c;
            nomore := true;
            return;
          }
        }
        AppendOk(data, At(), b);
        codeBuffer := codeBuffer + Pow2(24 - codeBits) * b;  // or-ed in below the bits in hand
        codeBits := codeBits + 8;
        if codeBits > 24 {
          break;
        }
      }
    }

    /** The byte after FF, past any fill bytes. */
    method AfterMark() returns (c: byte)
      requires pos <= |data|
      modifies `pos
      ensures c == ByteAt(data, SkipFill(data, old(pos))) && pos == Next(data, SkipFill(data, old(pos))) && c != 0xff
    {
      ghost var goal := SkipFill(data, pos);
      ghost var at := pos;
      c := Get8();
      while c == 0xff
        invariant at <= |data| && c == ByteAt(data, at) && pos == Next(data, at) && SkipFill(data, at) == goal
        decreases |data| - at
      {
        at := pos;
        c := Get8();
      }
    }

    /** Take n bits off the top of the buffer. */
    method Consume(n: nat)
      requires Valid() && n <= codeBits
      modifies `codeBuffer, `codeBits
      ensures Valid() && At() == Drop(old(At()), n) && codeBits == old(codeBits) - n
    {
      hide Low, Pow2;
      DropOk(data, At(), n);
      codeBuffer := Pow2(n) * Low(codeBuffer, WORD - n);  // shifted left, 32 bits wide
      codeBits := codeBits - n;
    }

    /**
      stbi__jpeg_huff_decode: the symbol whose code comes next, and its bits are consumed; -1 when there is none or the
      data ends inside it.  Right exactly when the next symbol is not one the table misreads.
    */
    method HuffDecode(h: Table) returns (r: int)
      requires Valid() && h.Ready()
      modifies this
      ensures (match NextSymbol(data, h.lens, h.values, old(At()))
               case NoSymbol => r == -1
               case Symbol(value, rest) => r == value && Valid() && At() == rest)
              <==> !Misreads(h.lens, Filled(data, old(At()), 16))
      ensures r < 256 && (r >= 0 ==> Valid())
    {
      hide Low, Pow2, Shr, Hits, Grow, SymbolAt, Drop, SourceOk, Table.Ready, Misreads;
      if codeBits < 16 {
        GrowBuffer();
      }
      ghost var s := At();
      ghost var lens := h.lens;
      var w := Shr(codeBuffer, WORD - WINDOW);
      FastIndex(data, s);
      TableShape(h);
      var c := Shr(codeBuffer, WORD - FAST_BITS);
      var k := h.fast[c];
      FastFacts(h, w, c);
      if k < NO_ENTRY {
        var n := h.size[k];
        FindIs(lens, k, w);
        SymbolIs(lens, h.values, s, k);
        NotMisread(lens, s, k);
        if n > codeBits {
          return -1;
        }
        Consume(n);
        return h.values[k];
      }
      r := SlowDecode(h, w);
    }

    /** Codes longer than the lookup covers: the first length whose limit lies above the window. */
    method SlowDecode(h: Table, w: nat) returns (r: int)
      requires Valid() && h.Ready() && w == Shr(codeBuffer, WORD - WINDOW) && w < 0x1_0000
      requires forall i: nat :: i < |h.lens| && i != NO_ENTRY && h.lens[i] <= FAST_BITS ==> !Hits(h.lens, i, w)
      modifies this
      ensures (match SymbolAt(h.lens, h.values, old(At()))
               case NoSymbol => r == -1
               case Symbol(value, rest) => r == value && Valid() && At() == rest)
              <==> !Misreads(h.lens, old(At()))
      ensures r < 256 && (r >= 0 ==> Valid())
    {
      hide Low, Pow2, Shr, Hits, Limit, First, FirstSym, Drop, SymbolAt, SourceOk, Table.Ready, Misreads;
      TableShape(h);
      ghost var s := At();
      ghost var lens := h.lens;
      ghost var met := Met(lens, w);
      if met { MetSymbol(lens, h.values, s, w); } else { NotMet(lens, s, w); }
      var k := SearchLength(h, w);
      if k == 17 {
        if met { MetBelow(lens, w); } else {
          NoLongCode(lens, w);
          SymbolNone(lens, h.values, s, w);
        }
        codeBits := codeBits - 16;
        return -1;
      }
      ghost var i := if met then 0 else LongCode(lens, w, k);
      if !met {
        LongCodeIs(lens, w, k);
        FindIs(lens, i, w);
        SymbolIs(lens, h.values, s, i);
      }
      if k > codeBits {
        return -1;
      }
      TopOf(codeBuffer, k);
      DeltaAt(h, k);
      var c := Shr(codeBuffer, WORD - k) + h.delta[k];
      if c < 0 || c >= 256 {
        return -1;
      }
      Consume(k);
      r := h.values[c];
    }

    /** stbi__extend_receive */
    method ExtendReceive(n: nat) returns (v: int)
      requires Valid() && n < 16
      modifies this
      ensures Valid() && Value(v, At()) == NextValue(data, old(At()), n)
    {
      hide Low, Pow2, Shr, Grow, SourceOk, Drop, Extend;
      if codeBits < n {
        GrowBuffer();
      }
      if codeBits < n {
        return 0;
      }
      var sgn := Shr(codeBuffer, WORD - 1);
      var k := Shr(codeBuffer, WORD - n);  // the bits a rotation brings to the bottom
      SignedIs(data, At(), n);
      Consume(n);
      v := k + if sgn == 0 then Bias(n) else 0;
    }

    method SearchLength(h: Table, w: nat) returns (k: nat)
      requires h.Ready() && w < 0x1_0000
      ensures FAST_BITS < k <= 17
      ensures forall t: nat {:trigger Limit(h.lens, t)} :: FAST_BITS < t < k ==> Shr(w, WINDOW - t) >= Limit(h.lens, t)
      ensures k <= 16 ==> Shr(w, WINDOW - k) < Limit(h.lens, k)
    {
      hide Shr, Limit, Shl, First, FirstSym, Accepted, FastFilled;
      k := FAST_BITS + 1;
      MaxAt(h, k, w);
      while w >= h.maxcode[k]
        invariant FAST_BITS < k <= 17 && h.Ready()
        invariant forall t: nat {:trigger Limit(h.lens, t)} :: FAST_BITS < t < k ==> Shr(w, WINDOW - t) >= Limit(h.lens, t)
        invariant k <= 16 ==> (w < h.maxcode[k] <==> Shr(w, WINDOW - k) < Limit(h.lens, k))
        decreases 17 - k
      {
        k := k + 1;
        MaxAt(h, k, w);
      }
    }

    /** The DC part of stbi__jpeg_decode_block, up to the difference it adds to the prediction. */
    method DecodeDC(h: Table) returns (ok: bool, diff: int)
      requires Valid() && h.Ready() && |h.lens| <= |h.values|
      modifies this
      ensures ok ==> Valid()
      ensures !MisreadNext(data, h.lens, old(At())) ==>
        Difference(data, h.lens, h.values, old(At())) == if ok then Diff(diff, At()) else NoDiff
    {
      hide Low, Pow2, Shr, Grow, SourceOk, Drop, SymbolAt, Extend, Table.Ready, Misreads;
      BoundsOf(data, At());
      if codeBits < 16 {
        GrowBuffer();
      }
      diff := 0;
      BoundsOf(data, At());
      var t := HuffDecode(h);
      if t < 0 || t > 15 {
        return false, diff;
      }
      ok := true;
      BoundsOf(data, At());
      if t != 0 {
        diff := ExtendReceive(t);
      }
    }

    /** The AC part of stbi__jpeg_decode_block. */
    method DecodeAC(h: Table, fac: seq<int>) returns (ok: bool, coeffs: seq<(nat, int)>)
      requires Valid() && h.Ready() && |h.lens| <= |h.values| && FastAcOk(h.lens, h.values, fac)
      modifies this
      ensures ok ==> Valid()
      ensures !MisreadIn(data, h.lens, h.values, old(At()), 1, []) ==>
        Decoded(data, h.lens, h.values, old(At()), 1, []) == if ok then Block(coeffs, At()) else Bad
    {
      hide Low, Pow2, Shr, Grow, SourceOk, Drop, Decoded, ShortSymbol, SymbolAt, Extend, Table.Ready, MisreadNext, Round;
      ghost var lens, values := h.lens, h.values;
      BoundsOf(data, At());
      ghost var goal := Decoded(data, lens, values, At(), 1, []);
      ghost var right := !MisreadIn(data, lens, values, At(), 1, []);
      var k: nat := 1;
      coeffs := [];
      ok := true;
      while k < 64
        invariant k >= 1 && ok && Valid() && codeBits <= WORD && pos <= |data|
        invariant right ==> goal == Decoded(data, lens, values, At(), k, coeffs) && !MisreadIn(data, lens, values, At(), k, coeffs)
        decreases 64 - k
      {
        DecodedStep(data, lens, values, At(), k, coeffs);
        var more;
        ok, more, k, coeffs := NextCoefficient(h, fac, k, coeffs);
        if !ok || !more {
          return;
        }
      }
      DecodedEnd(data, lens, values, At(), k, coeffs);
    }

    /** One round of the loop. */
    method NextCoefficient(h: Table, fac: seq<int>, k0: nat, coeffs0: seq<(nat, int)>)
      returns (ok: bool, more: bool, k: nat, coeffs: seq<(nat, int)>)
      requires Valid() && h.Ready() && |h.lens| <= |h.values| && FastAcOk(h.lens, h.values, fac)
      requires codeBits <= WORD && pos <= |data|
      modifies this
      ensures ok ==> Valid() && codeBits <= WORD && pos <= |data|
      ensures !MisreadRound(data, h.lens, h.values, old(At())) ==>
        Round(data, h.lens, h.values, old(At()), k0, coeffs0) ==
        if !ok then RoundBad else if more then RoundOn(k, coeffs, At()) else RoundEnd(coeffs, At())
      ensures ok && more ==> k > k0
    {
      hide Low, Pow2, Shr, Grow, SourceOk, Drop, ShortSymbol, SymbolAt, Extend, Table.Ready, ShortEntry, ShortAt, Short, Misreads;
      more, k, coeffs := true, k0, coeffs0;
      if codeBits < 16 {
        GrowBuffer();
      }
      ghost var s := At();
      BoundsOf(data, s);
      FastIndex(data, s);
      var c := Shr(codeBuffer, WORD - FAST_BITS);
      var r := fac[c];
      EntryShort(data, h.lens, h.values, s, r);
      if r != 0 {
        var n := r % 16;
        if n > codeBits {
          return false, more, k, coeffs;
        }
        k := k + r / 16 % 16;
        Consume(n);
        BoundsOf(data, At());
        coeffs := coeffs + [(k, r / 256)];
        k := k + 1;
        return true, more, k, coeffs;
      }
      var rs := HuffDecode(h);
      if rs < 0 {
        return false, more, k, coeffs;
      }
      ok := true;
      BoundsOf(data, At());
      if rs % 16 == 0 {
        if rs != 0xf0 {
          more := false;
        } else {
          k := k + 16;
        }
      } else {
        k := k + rs / 16;
        var v := ExtendReceive(rs % 16);
        BoundsOf(data, At());
        coeffs := coeffs + [(k, v)];
        k := k + 1;
      }
    }
  }

  /** stbi__build_fast_ac */
  method BuildFastAc(h: Table) returns (fac: seq<int>)
    requires h.Ready() && |h.lens| <= |h.values|
    ensures FastAcOk(h.lens, h.values, fac)
  {
    hide Low, Pow2, Shr, Shl, Table.Ready, ShortEntry, HitsTop;
    TableShape(h);
    fac := [];
    var x := 0;
    while x < FAST_SIZE
      invariant 0 <= x <= FAST_SIZE && |fac| == x
      invariant forall y :: 0 <= y < x ==> ShortEntry(h.lens, h.values, y, fac[y])
    {
      var fast := h.fast[x];
      var e := 0;
      EntryFacts(h, x);
      if fast < NO_ENTRY {
        var rs := h.values[fast];
        var run, magbits, len := rs / 16, rs % 16, h.size[fast];
        if magbits > 0 && len + magbits <= FAST_BITS {
          var k: int := Shr(Low(Shl(x, len), FAST_BITS), FAST_BITS - magbits);
          var m := Pow2(magbits - 1);
          ShortBits(x, len, magbits);
          if k < m {
            k := k + 1 - Pow2(magbits);
          }
          if -128 <= k <= 127 {
            e := k * 256 + run * 16 + (len + magbits);
          }
        }
        EntryOf(h.lens, h.values, fast, x, e);
      } else {
        NoEntry(h.lens, h.values, x);
      }
      fac := fac + [e];
      x := x + 1;
    }
  }

  lemma {:induction false} EntryFacts(h: Table, x: nat)
    requires h.Ready() && x < FAST_SIZE
    ensures h.fast[x] < NO_ENTRY ==> h.fast[x] < |h.lens| && HitsTop(h.lens, h.fast[x], x)
    ensures h.fast[x] == NO_ENTRY ==> forall i: nat :: i < |h.lens| && i != NO_ENTRY ==> !HitsTop(h.lens, i, x)
  {
    assert FastEntry(h.lens, |h.lens|, x, h.fast[x]);
  }

  lemma {:induction false} ShortBits(x: nat, s: nat, n: nat)
    requires 1 <= n && s + n <= FAST_BITS
    ensures Shr(Low(Shl(x, s), FAST_BITS), FAST_BITS - n) == Shr(Low(x, FAST_BITS - s), FAST_BITS - s - n)
  {
    hide Low, Pow2, Shr, Shl;
    assert Low(Shl(x, s), FAST_BITS) == Pow2(s) * Low(x, FAST_BITS - s) by {
      ShlPow(x, s);
      LowShift(x, s, FAST_BITS - s);
    }
    var y := Low(x, FAST_BITS - s);
    LowShift(y, s, 0);
    TakeTwice(Pow2(s) * y, s, FAST_BITS - s - n);
  }

  /** The entry computed for the symbol the lookup found. */
  lemma {:induction false} EntryOf(lens: seq<nat>, values: seq<byte>, i: nat, x: nat, e: int)
    requires |lens| <= |values| && i < |lens| && i < NO_ENTRY && HitsTop(lens, i, x)
    requires e == if Short(lens, values, i, x) then Packed(lens, values, i, x) else 0
    ensures ShortEntry(lens, values, x, e)
  {
    hide ShortValue, HitsTop;
    forall j: nat | Short(lens, values, j, x) ensures j == i {
      TopUnique(lens, i, j, x);
    }
  }

  lemma {:induction false} NoEntry(lens: seq<nat>, values: seq<byte>, x: nat)
    requires |lens| <= |values| && forall i: nat :: i < |lens| && i != NO_ENTRY ==> !HitsTop(lens, i, x)
    ensures ShortEntry(lens, values, x, 0)
  {
    hide HitsTop, ShortValue;
    forall i: nat ensures !Short(lens, values, i, x) {
      if HitsTop(lens, i, x) { TopLens(lens, i, x); }
    }
  }

  /** A table entry tells whether the bits begin with a short symbol, and what it stands for. */
  lemma {:induction false} EntryShort(data: seq<byte>, lens: seq<nat>, values: seq<byte>, s: Source, r: int)
    requires |lens| <= |values| && SourceOk(data, s)
    requires ShortEntry(lens, values, Shr(s.buf, WORD - FAST_BITS), r)
    ensures var i := ShortSymbol(lens, values, s);
      if i < 0 then r == 0
      else
        && r % 16 == lens[i] + values[i] % 16 && r / 16 % 16 == values[i] / 16
        && r / 256 == ShortValue(Shr(s.buf, WORD - FAST_BITS), lens[i], values[i] % 16) && r != 0
  {
    hide Low, Pow2, Shr, SourceOk, Extend, HitsTop, Hits, ShortValue;
    var x := Shr(s.buf, WORD - FAST_BITS);
    var w := Shr(s.buf, WORD - WINDOW);
    FastIndex(data, s);
    if r != 0 {
      var i: nat :| Short(lens, values, i, x);
      TopLens(lens, i, x);
      HitsTopIsHit(lens, i, w);
      FindIs(lens, i, w);
      Unpack(ShortValue(x, lens[i], values[i] % 16), values[i] / 16, lens[i] + values[i] % 16);
    } else if ShortSymbol(lens, values, s) >= 0 {
      var i: nat := ShortSymbol(lens, values, s);
      TopLens(lens, i, x);
      Unpack(ShortValue(x, lens[i], values[i] % 16), values[i] / 16, lens[i] + values[i] % 16);
    }
  }

  /** A short symbol's run, value and bits are those of the symbol and the value that come next. */
  lemma {:induction false} ShortIsSymbolAndValue(data: seq<byte>, lens: seq<nat>, values: seq<byte>, s: Source)
    requires |lens| <= |values| && SourceOk(data, s) && ShortSymbol(lens, values, s) >= 0
    requires var i := ShortSymbol(lens, values, s); lens[i] + values[i] % 16 <= s.bits
    ensures s.pos <= |data|
    ensures var i := ShortSymbol(lens, values, s);
      var n := values[i] % 16;
      var t := Drop(s, lens[i]);
      && n > 0 && SymbolAt(lens, values, s) == Symbol(values[i], t)
      && NextValue(data, t, n) == Value(ShortValue(Shr(s.buf, WORD - FAST_BITS), lens[i], n), Drop(s, lens[i] + n))
  {
    hide Low, Pow2, Shr, Extend, HitsTop, Hits;
    var i := ShortSymbol(lens, values, s);
    SymbolIs(lens, values, s, i);
    TopAfterDrop(s.buf, lens[i], values[i] % 16);
    DropTwice(s, lens[i], values[i] % 16);
  }

  lemma {:induction false} GrowOk(data: seq<byte>, s: Source)
    requires SourceOk(data, s) && s.bits <= 24
    ensures SourceOk(data, Grow(data, s))
    decreases WORD - s.bits
  {
    hide Low, Pow2, SkipFill;
    var b, p := if s.nomore then 0 else ByteAt(data, s.pos), if s.nomore then s.pos else Next(data, s.pos);
    var q := if b == 0xff then Next(data, SkipFill(data, p)) else p;
    var t := s.(pos := q);
    AppendOk(data, t, b);
    var u := Append(t, b);
    if u.bits <= 24 { GrowOk(data, u); }
  }

  lemma {:induction false} DecodedStep(data: seq<byte>, lens: seq<nat>, values: seq<byte>, s: Source, k: nat, coeffs: seq<(nat, int)>)
    requires |lens| <= |values| && s.pos <= |data| && s.bits <= WORD && k < 64
    ensures Decoded(data, lens, values, s, k, coeffs) ==
      match Round(data, lens, values, s, k, coeffs)
      case RoundBad => Bad
      case RoundEnd(cs, t) => Block(cs, t)
      case RoundOn(k', cs, t) => Decoded(data, lens, values, t, k', cs)
  {
    hide Round;
  }

  lemma {:induction false} DecodedEnd(data: seq<byte>, lens: seq<nat>, values: seq<byte>, s: Source, k: nat, coeffs: seq<(nat, int)>)
    requires |lens| <= |values| && s.pos <= |data| && s.bits <= WORD && k >= 64
    ensures Decoded(data, lens, values, s, k, coeffs) == Block(coeffs, s)
  {
  }

  lemma {:induction false} Unpack(v: int, run: nat, n: nat)
    requires run < 16 && n < 16
    ensures var r := v * 256 + run * 16 + n;
      r / 256 == v && r / 16 % 16 == run && r % 16 == n
  {
    var r := v * 256 + run * 16 + n;
    assert r / 16 == v * 16 + run;
  }

  lemma {:induction false} BoundsOf(data: seq<byte>, s: Source)
    requires SourceOk(data, s)
    ensures s.bits <= WORD && s.pos <= |data|
  {
  }

  /** stbi__jbias */
  function Bias(n: nat): int {
    if n == 0 then 0 else 1 - Pow2(n)
  }

  lemma {:induction false} SignedIs(data: seq<byte>, s: Source, n: nat)
    requires SourceOk(data, s) && n < 16
    ensures Extend(Shr(s.buf, WORD - n), n) == Shr(s.buf, WORD - n) + if Shr(s.buf, WORD - 1) == 0 then Bias(n) else 0
  {
    hide Low, Pow2, Shr;
    if n > 0 {
      TopBit(s.buf, n);
    }
  }

  lemma {:induction false} MaxAt(h: Table, k: nat, w: nat)
    requires h.Ready() && FAST_BITS < k <= 17 && w < 0x1_0000
    ensures k <= 16 ==> (w < h.maxcode[k] <==> Shr(w, WINDOW - k) < Limit(h.lens, k))
    ensures k == 17 ==> w < h.maxcode[k]
  {
    hide Shr, Shl, Limit;
    if k <= 16 {
      ShlGalois(w, Limit(h.lens, k), WINDOW - k);
    }
  }

  lemma {:induction false} TableShape(h: Table)
    requires h.Ready()
    ensures h.Shape() && |h.lens| <= 256 && Sorted(h.lens)
    ensures forall i :: 0 <= i < |h.lens| ==> h.size[i] == h.lens[i]
    ensures forall x :: 0 <= x < FAST_SIZE ==> 0 <= h.fast[x] <= NO_ENTRY
  {
    forall x | 0 <= x < FAST_SIZE ensures h.fast[x] <= NO_ENTRY {
      assert FastEntry(h.lens, |h.lens|, x, h.fast[x]);
    }
  }

  lemma {:induction false} DeltaAt(h: Table, k: nat)
    requires h.Ready() && 1 <= k <= 16
    ensures h.delta[k] == FirstSym(h.lens, k) - First(h.lens, k)
  {
  }

  lemma {:induction false} FastIndex(data: seq<byte>, s: Source)
    requires SourceOk(data, s)
    ensures Shr(s.buf, WORD - WINDOW) < 0x1_0000 && Shr(s.buf, WORD - FAST_BITS) < FAST_SIZE
    ensures Shr(Shr(s.buf, WORD - WINDOW), WINDOW - FAST_BITS) == Shr(s.buf, WORD - FAST_BITS)
  {
    hide Shr, Low, Pow2;
    Pow2Values();
    ShrBound(s.buf, WORD, WORD - WINDOW);
    ShrBound(s.buf, WORD, WORD - FAST_BITS);
    TakeTwice(s.buf, WORD - WINDOW, WINDOW - FAST_BITS);
  }

  /** What the lookup says about the window. */
  lemma {:induction false} FastFacts(h: Table, w: nat, c: nat)
    requires h.Ready() && c == Shr(w, WINDOW - FAST_BITS) < FAST_SIZE
    ensures h.fast[c] < NO_ENTRY ==> Hits(h.lens, h.fast[c], w)
    ensures h.fast[c] == NO_ENTRY ==>
      forall i: nat :: i < |h.lens| && i != NO_ENTRY && h.lens[i] <= FAST_BITS ==> !Hits(h.lens, i, w)
  {
    var lens := h.lens;
    var e := h.fast[c];
    assert FastEntry(lens, |lens|, c, e);
    hide HitsTop, Hits, Shr;
    if e < NO_ENTRY {
      TopLens(lens, e, c);
      HitsTopIsHit(lens, e, w);
    } else {
      forall i: nat | i < |lens| && i != NO_ENTRY && lens[i] <= FAST_BITS ensures !Hits(lens, i, w) {
        HitsTopIsHit(lens, i, w);
      }
    }
  }

  lemma {:induction false} SymbolIs(lens: seq<nat>, values: seq<byte>, s: Source, i: nat)
    requires |lens| <= |values| && Hits(lens, i, Shr(s.buf, WORD - WINDOW)) && Find(lens, Shr(s.buf, WORD - WINDOW)) == i
    ensures i < |lens| && lens[i] <= WINDOW
    ensures SymbolAt(lens, values, s) == if lens[i] > s.bits then NoSymbol else Symbol(values[i], Drop(s, lens[i]))
  {
  }

  lemma {:induction false} SymbolNone(lens: seq<nat>, values: seq<byte>, s: Source, w: nat)
    requires |lens| <= |values| && w == Shr(s.buf, WORD - WINDOW) && forall i: nat :: !Hits(lens, i, w)
    ensures SymbolAt(lens, values, s) == NoSymbol
  {
  }

  lemma {:induction false} TopOf(buf: nat, k: nat)
    requires k <= WINDOW
    ensures Shr(buf, WORD - k) == Shr(Shr(buf, WORD - WINDOW), WINDOW - k)
  {
    hide Shr, Low, Pow2;
    TakeTwice(buf, WORD - WINDOW, WINDOW - k);
  }

  /** No limit above the window: no code. */
  lemma {:induction false} NoLongCode(lens: seq<nat>, w: nat)
    requires Sorted(lens) && !Met(lens, w)
    requires forall i: nat :: i < |lens| && i != NO_ENTRY && lens[i] <= FAST_BITS ==> !Hits(lens, i, w)
    requires forall t: nat {:trigger Limit(lens, t)} :: FAST_BITS < t < 17 ==> Shr(w, WINDOW - t) >= Limit(lens, t)
    ensures forall i: nat :: !Hits(lens, i, w)
  {
    forall i: nat ensures !Hits(lens, i, w) {
      if Hits(lens, i, w) {
        HitBelow(lens, i, w, lens[i]);
      }
    }
  }

  /** The symbol the slow search computes. */
  ghost function LongCode(lens: seq<nat>, w: nat, k: nat): nat
    requires 1 <= k <= WINDOW
  {
    var c := Shr(w, WINDOW - k) + FirstSym(lens, k) - First(lens, k);
    if c >= 0 then c else 0
  }

  lemma {:induction false} LongCodeIs(lens: seq<nat>, w: nat, k: nat)
    requires Sorted(lens) && !Met(lens, w) && FAST_BITS < k <= WINDOW && |lens| <= 256
    requires forall i: nat :: i < |lens| && i != NO_ENTRY && lens[i] <= FAST_BITS ==> !Hits(lens, i, w)
    requires forall t: nat {:trigger Limit(lens, t)} :: FAST_BITS < t < k ==> Shr(w, WINDOW - t) >= Limit(lens, t)
    requires Shr(w, WINDOW - k) < Limit(lens, k)
    ensures Hits(lens, LongCode(lens, w, k), w) && lens[LongCode(lens, w, k)] == k
    ensures Shr(w, WINDOW - k) + FirstSym(lens, k) - First(lens, k) == LongCode(lens, w, k)
  {
    hide Limit, First, FirstSym, Shr;
    var i := HitExists(lens, w, k);
    assert lens[i] > FAST_BITS;
    if lens[i] < k { HitBelow(lens, i, w, lens[i]); }
    SortedSlot(lens, i);
    assert Shr(w, WINDOW - k) == Code(lens, i);
  }

  lemma {:induction false} Empty()
    ensures Low(0, WORD) == 0 && 0 < Pow2(WORD)
  {
    hide Low, Pow2;
    LowSmall(0, WORD);
  }

  lemma {:induction false} GoodReads(lens: seq<nat>, s: Source)
    requires Good(lens)
    ensures !Misreads(lens, s)
  {
  }

  lemma {:induction false} NotMisread(lens: seq<nat>, s: Source, k: nat)
    requires k != NO_ENTRY && Hits(lens, k, Shr(s.buf, WORD - WINDOW))
    ensures !Misreads(lens, s)
  {
    if Hits(lens, NO_ENTRY, Shr(s.buf, WORD - WINDOW)) { HitUnique(lens, k, NO_ENTRY, Shr(s.buf, WORD - WINDOW)); }
  }

  lemma {:induction false} NotMet(lens: seq<nat>, s: Source, w: nat)
    requires !Met(lens, w) && w == Shr(s.buf, WORD - WINDOW)
    ensures !Misreads(lens, s)
  {
  }

  /** What should be read when symbol 255 is met: the slow search, which starts at ten bits, cannot. */
  lemma {:induction false} MetSymbol(lens: seq<nat>, values: seq<byte>, s: Source, w: nat)
    requires |lens| <= |values| && Met(lens, w) && w == Shr(s.buf, WORD - WINDOW)
    ensures lens[NO_ENTRY] <= FAST_BITS && Misreads(lens, s) == (lens[NO_ENTRY] <= s.bits)
    ensures SymbolAt(lens, values, s) ==
      if lens[NO_ENTRY] > s.bits then NoSymbol else Symbol(values[NO_ENTRY], Drop(s, lens[NO_ENTRY]))
    ensures lens[NO_ENTRY] <= s.bits ==> Drop(s, lens[NO_ENTRY]).bits == s.bits - lens[NO_ENTRY]
  {
    hide Hits, Shr, Low, Pow2;
    FindIs(lens, NO_ENTRY, w);
    SymbolIs(lens, values, s, NO_ENTRY);
  }

  lemma {:induction false} MetBelow(lens: seq<nat>, w: nat)
    requires Met(lens, w)
    ensures Shr(w, WINDOW - (FAST_BITS + 1)) < Limit(lens, FAST_BITS + 1)
  {
    HitBelow(lens, NO_ENTRY, w, FAST_BITS + 1);
  }

  // ------------------------------------------------------------------
  // Such tables exist
  // ------------------------------------------------------------------

  /** 255 codes of eight bits and one of nine: sixteen byte-sized counts. */
  const MISREAD: seq<nat> := [0, 0, 0, 0, 0, 0, 0, 255, 1, 0, 0, 0, 0, 0, 0, 0]

  lemma {:induction false} KraftMany(lens: seq<nat>, n: nat, s: nat)
    requires 0 < s <= MAX_LEN
    ensures KraftSum(lens + seq(n, _ => s), MAX_LEN) == KraftSum(lens, MAX_LEN) + n * Pow2(MAX_LEN - s)
    decreases n
  {
    hide Pow2, KraftSum;
    var all := lens + seq(n, _ => s);
    if n == 0 {
      assert all == lens;
    } else {
      KraftMany(lens, n - 1, s);
      assert all[..|all| - 1] == lens + seq(n - 1, _ => s);
      KraftLast(all);
      MulDist(Pow2(MAX_LEN - s), n - 1, 1);
    }
  }

  lemma {:induction false} KraftLast(lens: seq<nat>)
    requires lens != [] && 0 < lens[|lens| - 1] <= MAX_LEN
    ensures KraftSum(lens, MAX_LEN) == KraftSum(lens[..|lens| - 1], MAX_LEN) + Pow2(MAX_LEN - lens[|lens| - 1])
  {
  }

  lemma {:induction false} ListStep(count: seq<nat>, n: nat)
    requires n < |count| <= MAX_LEN
    ensures SizeList(count[..n + 1]) == SizeList(count[..n]) + seq(count[n], _ => n + 1)
    ensures KraftSum(SizeList(count[..n + 1]), MAX_LEN) == KraftSum(SizeList(count[..n]), MAX_LEN) + count[n] * Pow2(MAX_LEN - n - 1)
  {
    hide Pow2, KraftSum;
    assert count[..n + 1][..n] == count[..n];
    KraftMany(SizeList(count[..n]), count[n], n + 1);
  }

  lemma {:induction false} ListZeros(count: seq<nat>, a: nat, b: nat)
    requires a <= b <= |count| <= MAX_LEN && forall i :: a <= i < b ==> count[i] == 0
    ensures SizeList(count[..b]) == SizeList(count[..a])
    decreases b
  {
    if a < b {
      ListZeros(count, a, b - 1);
      ListStep(count, b - 1);
      assert SizeList(count[..b - 1]) + seq(0, _ => b) == SizeList(count[..b - 1]);
    }
  }

  lemma {:induction false} MisreadList()
    ensures SizeList(MISREAD) == seq(255, _ => 8) + seq(1, _ => 9) && KraftSum(SizeList(MISREAD), MAX_LEN) <= Pow2(MAX_LEN)
  {
    hide SizeList, KraftSum, Pow2;
    Pow2Values();
    ListZeros(MISREAD, 0, 7);
    NoSizes();
    assert MISREAD[..0] == [];
    ListStep(MISREAD, 7);
    ListStep(MISREAD, 8);
    ListZeros(MISREAD, 9, 16);
    assert MISREAD[..16] == MISREAD;
    assert [] + seq(255, _ => 8) == seq(255, _ => 8);
  }

  /** The builder accepts these counts, and the table they make is not good. */
  lemma {:induction false} MisreadTable()
    ensures |MISREAD| == 16 && (forall i :: 0 <= i < 16 ==> MISREAD[i] < 256)
    ensures |SizeList(MISREAD)| <= 256 && KraftSum(SizeList(MISREAD), MAX_LEN) <= Pow2(MAX_LEN)
    ensures !Good(SizeList(MISREAD))
  {
    hide SizeList, KraftSum, Pow2;
    MisreadList();
  }

  lemma {:induction false} NoSizes()
    ensures SizeList([]) == [] && KraftSum([], MAX_LEN) == 0
  {
  }

  const BEGIN: Source := Source(0, false, 0, 0, 0)

  // ------------------------------------------------------------------
  // A segment that is misread
  // ------------------------------------------------------------------

  // The nine-bit code of symbol 255 and zeros: FF 00 stands for eight ones.
  const MISREAD_DATA: seq<byte> := [0xFF, 0x00, 0x00]

  /** One ordinary byte of a refill. */
  lemma {:induction false} RefillByte(data: seq<byte>, s: Source) returns (t: Source)
    requires s.bits <= 24 && !s.nomore && s.pos < |data| && data[s.pos] != 0xff
    ensures t == Append(s.(pos := s.pos + 1), data[s.pos]) && t.bits == s.bits + 8 && t.pos == s.pos + 1 && !t.nomore
    ensures Grow(data, s) == if t.bits <= 24 then Grow(data, t) else t
  {
    hide Pow2;
    t := Append(s.(pos := s.pos + 1), data[s.pos]);
  }

  /** A zero byte, in the data or past its end, only adds bits. */
  lemma {:induction false} RefillZero(data: seq<byte>, s: Source) returns (t: Source)
    requires s.bits <= 24 && !s.nomore && s.pos <= |data| && ByteAt(data, s.pos) == 0
    ensures t == s.(pos := Next(data, s.pos), bits := s.bits + 8)
    ensures Grow(data, s) == if t.bits <= 24 then Grow(data, t) else t
  {
    hide Pow2;
    t := Append(s.(pos := Next(data, s.pos)), 0);
  }

  lemma {:induction false} MisreadRefill()
    ensures var g := Filled(MISREAD_DATA, BEGIN, 16); g.bits == 32 && g.buf == Pow2(24) * 0xff
  {
    hide Pow2;
    var d := MISREAD_DATA;
    var t0 := Append(BEGIN.(pos := 2), 0xff);
    assert SkipFill(d, 1) == 1;
    assert Grow(d, BEGIN) == Grow(d, t0);
    MoreZeros(t0);
  }

  lemma {:induction false} MoreZeros(t: Source)
    requires t.pos == 2 && t.bits == 8 && !t.nomore
    ensures Grow(MISREAD_DATA, t) == t.(pos := 3, bits := 32)
  {
    hide Grow;
    var t1 := RefillZero(MISREAD_DATA, t);
    var t2 := RefillZero(MISREAD_DATA, t1);
    var t3 := RefillZero(MISREAD_DATA, t2);
  }

  lemma {:induction false} EightsCount(n: nat, s: nat)
    ensures Count(seq(n, _ => 8), s) == if s == 8 then n else 0
    decreases n
  {
    if n > 0 {
      EightsCount(n - 1, s);
      var e: seq<nat> := seq(n, _ => 8);
      assert e[..n - 1] == seq(n - 1, _ => 8);
    }
  }

  function Mixed(): (lens: seq<nat>)
    ensures |lens| == 256 && lens[255] == 9
  {
    seq(255, _ => 8) + [9]
  }

  lemma {:induction false} MixedCount(s: nat)
    ensures Count(Mixed(), s) == if s == 8 then 255 else if s == 9 then 1 else 0
  {
    EightsCount(255, s);
    assert Mixed()[..255] == seq(255, _ => 8);
  }

  lemma {:induction false} MixedFirst(s: nat)
    requires s <= 8
    ensures First(Mixed(), s) == 0
    decreases s
  {
    hide Mixed, Count;
    if s > 1 {
      MixedFirst(s - 1);
      MixedCount(s - 1);
    }
  }

  /** The code of symbol 255 is eight ones and a zero. */
  lemma {:induction false} MixedCode()
    ensures Code(Mixed(), 255) == 510
  {
    hide Count;
    MixedFirst(8);
    MixedCount(8);
    EightsCount(255, 9);
    assert Mixed()[..255] == seq(255, _ => 8);
  }

  /** On this segment the table of 255 codes of eight bits and one of nine is met by the symbol it misreads. */
  lemma {:induction false} MisreadSegment()
    ensures Misreads(SizeList(MISREAD), Filled(MISREAD_DATA, BEGIN, 16))
  {
    hide Pow2, Shr, Low, Code, SizeList, Mixed, Grow;
    MisreadTable();
    MisreadSizes();
    MisreadRefill();
    MixedCode();
    Pow2Values();
    Pow2Add(16, 8);
    MulAssoc(Pow2(16), Pow2(8), 0xff);
    LowShift(0xff00, 16, 0);
    LowShift(510, 7, 0);
  }

  lemma {:induction false} MisreadSizes()
    ensures SizeList(MISREAD) == Mixed()
  {
    hide SizeList, KraftSum, Pow2;
    MisreadList();
    assert seq(1, _ => 9) == [9];
  }
}
