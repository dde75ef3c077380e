/**
  stbi__process_gif_raster and stbi__out_gif_code: LZW over sub-blocks, with the
  dictionary kept as prefix links, painted through the frame cursor.
*/
module Gif {
  import opened Bits
  import opened Lzw
  import opened GifFrame

  /** stbi__gif_lzw */
  datatype Entry = Entry(prefix: int, first: byte, suffix: byte)

  type Codes = seq<Entry>

  // ------------------------------------------------------------------
  // The linked dictionary
  // ------------------------------------------------------------------

  predicate Live(cs: nat, avail: nat, c: nat) {
    c < ClearCode(cs) || ClearCode(cs) + 2 <= c < avail
  }

  /** The string of a code, read through its prefix links. */
  function Spell(codes: Codes, c: nat): (s: Str)
    requires c < |codes|
    decreases c
  {
    if 0 <= codes[c].prefix < c then Spell(codes, codes[c].prefix) + [codes[c].suffix] else [codes[c].suffix]
  }

  /** Every live entry's prefix is a smaller live code. */
  ghost predicate Linked(codes: Codes, cs: nat, avail: nat) {
    && |codes| == TABLE_SIZE && ClearCode(cs) + 2 <= avail <= TABLE_SIZE
    && forall c: nat {:trigger codes[c]} :: Live(cs, avail, c) ==>
         codes[c].prefix < c && (codes[c].prefix >= 0 ==> Live(cs, avail, codes[c].prefix))
  }

  ghost predicate Roots(codes: Codes, cs: nat) {
    && |codes| == TABLE_SIZE && ClearCode(cs) + 2 <= TABLE_SIZE
    && forall c: nat {:trigger codes[c]} :: c < ClearCode(cs) ==> codes[c] == Entry(-1, c % 256, c % 256)
  }

  /** The table holds the strings of an LZW decoder's dictionary, and `first` their first symbols. */
  ghost predicate Represents(codes: Codes, cs: nat, st: Coder) {
    && Linked(codes, cs, Avail(cs, st)) && Roots(codes, cs)
    && (forall c: nat {:trigger codes[c]} :: Live(cs, Avail(cs, st), c) ==> codes[c].first == Spell(codes, c)[0])
    && (forall i: nat {:trigger st.dict[i]} :: i < |st.dict| ==> Spell(codes, ClearCode(cs) + 2 + i) == st.dict[i])
  }

  /** oldcode is the code of the last string, -1 if there is none. */
  ghost predicate LastIs(codes: Codes, cs: nat, st: Coder, oldcode: int) {
    if oldcode < 0 then st.last == []
    else oldcode < |codes| && Live(cs, Avail(cs, st), oldcode) && Spell(codes, oldcode) == st.last
  }

  lemma {:induction false} RootsRepresent(codes: Codes, cs: nat, st: Coder)
    requires Roots(codes, cs) && st.dict == [] && st.last == []
    ensures Represents(codes, cs, st) && LastIs(codes, cs, st, -1)
  {
  }

  /** Entries from a on do not matter to smaller codes. */
  lemma {:induction false} SpellBelow(codes: Codes, a: nat, e: Entry, c: nat)
    requires c < a < |codes|
    ensures Spell(codes[a := e], c) == Spell(codes, c)
    decreases c
  {
    if 0 <= codes[c].prefix < c { SpellBelow(codes, a, e, codes[c].prefix); }
  }

  lemma {:induction false} SpellLive(codes: Codes, cs: nat, st: Coder, c: nat)
    requires Represents(codes, cs, st) && Live(cs, Avail(cs, st), c) && c < |codes|
    ensures Spell(codes, c) == StringOf(cs, st, c)
  {
    if c >= ClearCode(cs) {
      assert st.dict[c - ClearCode(cs) - 2] == Spell(codes, c);
    }
  }

  /** The new entry when the next code is c: its string is the last one and the first symbol of c's string. */
  lemma {:induction false} EntryAdded(codes: Codes, cs: nat, st: Coder, oldcode: nat, c: nat, sym: byte)
    requires Represents(codes, cs, st) && LastIs(codes, cs, st, oldcode)
    requires var a := Avail(cs, st);
      a < TABLE_SIZE && (Live(cs, a, c) || c == a)
    requires var a := Avail(cs, st);
      sym == if c == a then codes[oldcode].first else codes[c].first
    ensures var a := Avail(cs, st);
      var codes' := codes[a := Entry(oldcode, codes[oldcode].first, sym)];
      var str := StringOf(cs, st, c);
      var next := Coder(st.dict + [st.last + [str[0]]], str, true, Grow(st.width, a + 1));
      && Represents(codes', cs, next) && LastIs(codes', cs, next, c) && c < |codes'|
  {
    hide Pow2, Grow, ClearCode;
    var a := Avail(cs, st);
    var e := Entry(oldcode, codes[oldcode].first, sym);
    var codes' := codes[a := e];
    var str := StringOf(cs, st, c);
    if c != a { SpellLive(codes, cs, st, c); }
    forall d: nat | d < a ensures Spell(codes', d) == Spell(codes, d) {
      SpellBelow(codes, a, e, d);
    }
    assert Spell(codes', a) == st.last + [str[0]];
    var next := Coder(st.dict + [st.last + [str[0]]], str, true, Grow(st.width, a + 1));
    assert Avail(cs, next) == a + 1;
    NewLinks(codes, cs, a, e);
    forall i: nat | i < |next.dict| ensures Spell(codes', ClearCode(cs) + 2 + i) == next.dict[i] {
      if i < |st.dict| { assert st.dict[i] == Spell(codes, ClearCode(cs) + 2 + i); }
    }
  }

  lemma {:induction false} NewLinks(codes: Codes, cs: nat, a: nat, e: Entry)
    requires Linked(codes, cs, a) && Roots(codes, cs) && a < TABLE_SIZE
    requires 0 <= e.prefix && Live(cs, a, e.prefix)
    ensures Linked(codes[a := e], cs, a + 1) && Roots(codes[a := e], cs)
  {
  }

  // ------------------------------------------------------------------
  // Sub-blocks
  // ------------------------------------------------------------------

  /** The raster bytes from a position with `len` bytes of the current sub-block still to come. */
  function Feed(data: seq<byte>, pos: nat, len: nat): seq<byte>
    requires pos <= |data|
    decreases |data| - pos, len
  {
    if len > 0 then
      if pos < |data| then [data[pos]] + Feed(data, pos + 1, len - 1) else [0] + Feed(data, pos, len - 1)
    else if pos >= |data| || data[pos] == 0 then []
    else Feed(data, pos + 1, data[pos])
  }

  /** Where the sub-blocks end. */
  function FeedEnd(data: seq<byte>, pos: nat, len: nat): (e: nat)
    requires pos <= |data|
    ensures pos <= e <= |data|
    decreases |data| - pos, len
  {
    if len > 0 then FeedEnd(data, if pos < |data| then pos + 1 else pos, len - 1)
    else if pos >= |data| then pos
    else if data[pos] == 0 then pos + 1
    else FeedEnd(data, pos + 1, data[pos])
  }

  lemma {:induction false} FeedEndSkip(data: seq<byte>, pos: nat, len: nat)
    requires pos <= |data|
    ensures FeedEnd(data, pos, len) == FeedEnd(data, if pos + len <= |data| then pos + len else |data|, 0)
    decreases len
  {
    if len > 0 { FeedEndSkip(data, if pos < |data| then pos + 1 else pos, len - 1); }
  }

  lemma {:induction false} FeedHead(data: seq<byte>, pos: nat, len: nat)
    requires pos <= |data| && len > 0
    ensures var b := if pos < |data| then data[pos] else 0;
      var next := if pos < |data| then pos + 1 else pos;
      Feed(data, pos, len) == [b] + Feed(data, next, len - 1)
  {
  }

  // ------------------------------------------------------------------
  // The bits in hand and those to come
  // ------------------------------------------------------------------

  /** The stream seen from a decoder holding `valid` bits. */
  function Stream(bits: nat, valid: nat, feed: seq<byte>): nat {
    bits + Pow2(valid) * LE(feed)
  }

  lemma {:induction false} ByteIn(bits: nat, valid: nat, b: byte, rest: seq<byte>)
    requires bits < Pow2(valid)
    ensures bits + Pow2(valid) * b < Pow2(valid + 8)
    ensures Stream(bits, valid, [b] + rest) == Stream(bits + Pow2(valid) * b, valid + 8, rest)
  {
    hide Pow2;
    var p := Pow2(valid);
    assert ([b] + rest)[1..] == rest;
    Pow2Add(valid, 8);
    assert Pow2(8) == 256 by { Pow2Values(); }
    MulDist(p, b, 256 * LE(rest));
    MulAssoc(p, 256, LE(rest));
    MulMono(b, 255, p);
  }

  lemma {:induction false} CodeOut(bits: nat, valid: nat, feed: seq<byte>, w: nat)
    requires bits < Pow2(valid) && w <= valid
    ensures Low(Stream(bits, valid, feed), w) == Low(bits, w)
    ensures Shr(Stream(bits, valid, feed), w) == Stream(Shr(bits, w), valid - w, feed)
    ensures Shr(bits, w) < Pow2(valid - w)
  {
    LowBits(bits, valid, LE(feed), w);
    ShrBound(bits, valid, w);
  }

  /** Codes never exceed thirteen bits, so twenty bits of buffer suffice. */
  lemma {:induction false} WidthBound(width: nat, avail: nat)
    requires 0 < width <= 13 && avail > 0
    ensures 0 < Grow(width, avail) <= 13
  {
    if width == 13 && Grow(width, avail) == 14 {
      Pow2Values();
      LowSmall(avail, 13);
    }
  }

  lemma {:induction false} NextWidth(cs: nat, st: Coder, c: nat)
    requires cs <= 12 && 0 < st.width <= 13
    ensures var r := DecodeOne(cs, st, c);
      r.More? ==> 0 < r.next.width <= 13
  {
    hide Grow, Pow2;
    WidthBound(st.width, Avail(cs, st));
    WidthBound(st.width, Avail(cs, st) + 1);
  }

  /** Where the decoder starts: no clear code seen yet. */
  function Start(cs: nat): Coder {
    Coder([], [], false, cs + 1)
  }

  /** The outcome the raster at a position stands for. */
  function Expected(data: seq<byte>, pos: nat): Outcome
    requires pos <= |data|
  {
    var cs := if pos < |data| then data[pos] else 0;
    var feed := Feed(data, if pos < |data| then pos + 1 else pos, 0);
    if cs > 12 then Outcome(false, []) else Decode(cs, Start(cs), LE(feed), 8 * |feed|)
  }

  function RasterEnd(data: seq<byte>, pos: nat): nat
    requires pos <= |data|
  {
    FeedEnd(data, if pos < |data| then pos + 1 else pos, 0)
  }

  lemma {:induction false} PutNone(f: Frame)
    requires f.parse <= 3
    ensures PutAll(f, []) == f
  {
  }

  lemma {:induction false} EmptyStream(feed: seq<byte>)
    ensures Stream(0, 0, feed) == LE(feed) && Pow2(0) == 1
  {
  }

  lemma {:induction false} TooShort(cs: nat, st: Coder, v: nat, n: nat)
    requires n < st.width
    ensures Decode(cs, st, v, n) == Outcome(true, [])
  {
  }

  /** The outcome of one code, by the tests of stbi__process_gif_raster. */
  lemma {:induction false} Cases(cs: nat, st: Coder, c: nat)
    ensures DecodeOne(cs, st, ClearCode(cs)) == More(Fresh(cs), [])
    ensures DecodeOne(cs, st, ClearCode(cs) + 1) == End
    ensures c != ClearCode(cs) && c != ClearCode(cs) + 1 && (c > Avail(cs, st) || !st.started) ==>
      DecodeOne(cs, st, c) == Bad
  {
  }

  /** Decoding one code moves its output from owed to done. */
  lemma {:induction false} Consume(cs: nat, st: Coder, v: nat, n: nat, goal: Outcome, out: seq<byte>)
    requires cs <= 12 && 0 < st.width <= 13 && st.width <= n && Owes(goal, out, Decode(cs, st, v, n))
    ensures
      match DecodeOne(cs, st, Low(v, st.width))
      case Bad => goal == Outcome(false, out)
      case End => goal == Outcome(true, out)
      case More(next, syms) =>
        0 < next.width <= 13 && Owes(goal, out + syms, Decode(cs, next, Shr(v, st.width), n - st.width))
  {
    hide Decode, DecodeOne, Low, Shr;
    DecodeStep(cs, st, v, n);
    NextWidth(cs, st, Low(v, st.width));
  }

  /** What decoding from here adds to what is out already. */
  ghost predicate Owes(goal: Outcome, out: seq<byte>, rest: Outcome) {
    goal.ok == rest.ok && goal.out == out + rest.out
  }

  // ------------------------------------------------------------------
  // The decoder
  // ------------------------------------------------------------------

  class Raster {
    const data: seq<byte>
    var pos: nat
    var codes: Codes
    const rect: Rect
    var row: nat
    var col: nat
    var step: nat
    var parse: nat
    var cells: Cells

    constructor (data: seq<byte>, codes: Codes, rect: Rect, interlaced: bool, cells: Cells)
      requires |codes| == TABLE_SIZE
      ensures Valid() && this.data == data && pos == 0 && Cursor() == Begin(rect, interlaced, cells)
    {
      this.data, this.pos, this.codes, this.rect, this.cells := data, 0, codes, rect, cells;
      col := rect.x0;
      row := if rect.w == 0 then rect.y0 + rect.h else rect.y0;
      step, parse := if interlaced then 8 else 1, if interlaced then 3 else 0;
    }

    predicate Valid()
      reads this
    {
      pos <= |data| && |codes| == TABLE_SIZE && parse <= 3
    }

    function Cursor(): Frame
      reads this
    {
      Frame(rect, row, col, step, parse, cells)
    }

    /** stbi__get8: zero past the end. */
    method Get8() returns (b: byte)
      requires pos <= |data|
      modifies `pos
      ensures pos == (if old(pos) < |data| then old(pos) + 1 else old(pos))
      ensures b == if old(pos) < |data| then data[old(pos)] else 0
    {
      if pos < |data| {
        b := data[pos];
        pos := pos + 1;
      } else {
        b := 0;
      }
    }

    /** stbi__skip */
    method Skip(n: nat)
      requires pos <= |data|
      modifies `pos
      ensures pos == if old(pos) + n <= |data| then old(pos) + n else |data|
    {
      if n > |data| - pos {
        pos := |data|;
      } else {
        pos := pos + n;
      }
    }

    /** One symbol at the cursor. */
    method PutPixel(sym: byte)
      requires Valid()
      modifies `row, `col, `step, `parse, `cells
      ensures Valid() && Cursor() == Put(old(Cursor()), sym)
    {
      hide NextPass;
      if row >= rect.y0 + rect.h {
        return;
      }
      cells := cells[(row, col) := sym];
      col := col + 1;
      if col >= rect.x0 + rect.w {
        col := rect.x0;
        row := row + step;
        SkipPasses();
      }
    }

    /** The loop that goes on to the next pass that has rows. */
    method SkipPasses()
      requires parse <= 3
      modifies `row, `step, `parse
      ensures parse <= 3 && Cursor() == NextPass(old(Cursor()))
    {
      hide Pow2;
      ghost var goal := NextPass(Cursor());
      while row >= rect.y0 + rect.h && parse > 0
        invariant parse <= 3 && NextPass(Cursor()) == goal
        decreases parse
      {
        step := Pow2(parse);
        row := rect.y0 + step / 2;
        parse := parse - 1;
      }
    }

    /** stbi__out_gif_code: the prefixes are smaller codes, so the recursion ends. */
    method OutCode(code: nat, ghost cs: nat, ghost avail: nat)
      requires Valid() && Linked(codes, cs, avail) && code < |codes| && Live(cs, avail, code)
      modifies `row, `col, `step, `parse, `cells
      ensures Valid() && Cursor() == PutAll(old(Cursor()), Spell(codes, code))
      decreases code
    {
      if codes[code].prefix >= 0 {
        OutCode(codes[code].prefix, cs, avail);
      } else {
        assert PutAll(Cursor(), []) == Cursor();
      }
      ghost var str := Spell(codes, code);
      ghost var n := |str| - 1;
      assert str[..n] == if codes[code].prefix >= 0 then Spell(codes, codes[code].prefix) else [];
      PutPixel(codes[code].suffix);
    }

    /** Fill the entries of the single symbols. */
    method InitRoots(cs: nat)
      requires Valid() && cs <= 12
      modifies `codes
      ensures Valid() && Roots(codes, cs)
    {
      var clear := ClearCode(cs);
      assert clear <= 4096 by { Pow2Mono(cs, 12); Pow2Values(); }
      var i: nat := 0;
      while i < clear
        invariant i <= clear && |codes| == TABLE_SIZE
        invariant forall c: nat {:trigger codes[c]} :: c < i ==> codes[c] == Entry(-1, c % 256, c % 256)
      {
        codes := codes[i := Entry(-1, i % 256, i % 256)];
        i := i + 1;
      }
    }

    /** A code other than clear and end: grow the dictionary, paint the string, widen the codes when it is time. */
    method Accept(cs: nat, code: nat, avail0: nat, oldcode: int, codesize0: nat, ghost st: Coder)
      returns (ok: bool, avail: nat, codesize: nat)
      requires Valid() && Represents(codes, cs, st) && LastIs(codes, cs, st, oldcode) && st.started
      requires avail0 == Avail(cs, st) && codesize0 == st.width
      requires code <= avail0 && code != ClearCode(cs) && code != ClearCode(cs) + 1
      modifies `codes, `row, `col, `step, `parse, `cells
      ensures Valid()
      ensures match DecodeOne(cs, st, code)
        case Bad => !ok && Cursor() == old(Cursor())
        case End => false
        case More(next, out) =>
          && ok && Roots(codes, cs) && Represents(codes, cs, next) && LastIs(codes, cs, next, code) && next.started
          && avail == Avail(cs, next) && codesize == next.width
          && Cursor() == PutAll(old(Cursor()), out)
    {
      hide Pow2, PutAll;
      avail, codesize := avail0, codesize0;
      if oldcode >= 0 {
        avail := avail + 1;
        if avail > TABLE_SIZE {
          return false, avail, codesize;
        }
        ghost var before := codes;
        codes := codes[avail0 := Entry(oldcode, codes[oldcode].first, codes[avail0].suffix)];
        if code == avail {
          assert false;  // avail has moved on already; the entry's own `first` serves the code == avail0 case
        }
        codes := codes[avail0 := codes[avail0].(suffix := codes[code].first)];
        assert codes == before[avail0 := Entry(oldcode, before[oldcode].first, codes[avail0].suffix)];
        EntryAdded(before, cs, st, oldcode, code, codes[avail0].suffix);
      } else {
        if code == avail {
          return false, avail, codesize;
        }
        SpellLive(codes, cs, st, code);
      }
      OutCode(code, cs, avail);
      if Low(avail, codesize) == 0 && avail <= 0x0FFF {
        codesize := codesize + 1;
      }
      ok := true;
      assert codesize == Grow(codesize0, avail);
    }

    /** One byte of the raster, starting a new sub-block when the current one is used up. */
    method NextByte(len0: nat) returns (more: bool, len: nat, b: byte)
      requires Valid()
      modifies `pos
      ensures Valid()
      ensures more ==> Feed(data, old(pos), len0) == [b] + Feed(data, pos, len)
      ensures more ==> FeedEnd(data, old(pos), len0) == FeedEnd(data, pos, len)
      ensures !more ==> Feed(data, old(pos), len0) == [] && pos == FeedEnd(data, old(pos), len0)
    {
      len := len0;
      if len == 0 {
        len := Get8();
        if len == 0 {
          return false, len, 0;
        }
      }
      FeedHead(data, pos, len);
      len := len - 1;
      b := Get8();
      more := true;
    }

    /** After the end code the remaining sub-blocks are passed over. */
    method SkipBlocks(len0: nat)
      requires Valid()
      modifies `pos
      ensures Valid() && pos == FeedEnd(data, old(pos), len0)
    {
      FeedEndSkip(data, pos, len0);
      Skip(len0);
      var len := Get8();
      ghost var at := old(FeedEnd(data, pos, len0));
      while len > 0
        invariant pos <= |data|
        invariant if len > 0 then FeedEnd(data, pos, len) == at else pos == at
        decreases |data| - pos, len
      {
        FeedEndSkip(data, pos, len);
        Skip(len);
        len := Get8();
      }
    }

    /** stbi__process_gif_raster */
    method ProcessRaster() returns (ok: bool)
      requires Valid()
      modifies this
      ensures Valid()
      ensures var goal := Expected(data, old(pos));
        && ok == goal.ok && Cursor() == PutAll(old(Cursor()), goal.out)
        && (ok ==> pos == RasterEnd(data, old(pos)))
    {
      hide Pow2, Low, Shr, LE, PutAll, Feed, FeedEnd, Decode, DecodeOne, Grow, Represents, LastIs, ClearCode;
      assert PutAll(Cursor(), []) == Cursor() by { PutNone(Cursor()); }
      var cs := Get8();
      if cs > 12 {
        return false;
      }
      InitRoots(cs);
      var codesize, avail, oldcode, started := cs + 1, ClearCode(cs) + 2, -1, false;
      var bits: nat, valid: nat, len: nat := 0, 0, 0;
      ghost var st, out := Start(cs), [];
      ghost var feed, end := Feed(data, pos, 0), FeedEnd(data, pos, 0);
      ghost var goal := Decode(cs, st, LE(feed), 8 * |feed|);
      ghost var cursor := Cursor();
      RootsRepresent(codes, cs, st);
      EmptyStream(feed);
      while true
        invariant Valid() && Roots(codes, cs) && Represents(codes, cs, st) && LastIs(codes, cs, st, oldcode)
        invariant avail == Avail(cs, st) && codesize == st.width && started == st.started && 0 < codesize <= 13
        invariant bits < Pow2(valid) && valid <= 20
        invariant feed == Feed(data, pos, len) && FeedEnd(data, pos, len) == end
        invariant Owes(goal, out, Decode(cs, st, Stream(bits, valid, feed), valid + 8 * |feed|))
        invariant Cursor() == PutAll(cursor, out)
        decreases |feed|, valid
      {
        if valid < codesize {
          var more, b;
          more, len, b := NextByte(len);
          if !more {
            TooShort(cs, st, Stream(bits, valid, feed), valid);
            assert out + [] == out;
            return true;
          }
          feed := Feed(data, pos, len);
          ByteIn(bits, valid, b, feed);
          bits := bits + Pow2(valid) * b;  // or-ed in above the buffered bits
          valid := valid + 8;
        } else {
          var code := Low(bits, codesize);
          CodeOut(bits, valid, feed, codesize);
          Consume(cs, st, Stream(bits, valid, feed), valid + 8 * |feed|, goal, out);
          bits := Shr(bits, codesize);
          valid := valid - codesize;
          Cases(cs, st, code);
          if code == ClearCode(cs) {
            codesize, avail, oldcode, started := cs + 1, ClearCode(cs) + 2, -1, true;
            st := Fresh(cs);
            RootsRepresent(codes, cs, st);
            assert out + [] == out;
          } else if code == ClearCode(cs) + 1 {
            SkipBlocks(len);
            return true;
          } else if code <= avail {
            if !started {
              return false;
            }
            var good;
            good, avail, codesize := Accept(cs, code, avail, oldcode, codesize, st);
            if !good {
              return false;
            }
            oldcode := code;
            ghost var r := DecodeOne(cs, st, code);
            PutAllAppend(cursor, out, r.out);
            out := out + r.out;
            st := r.next;
          } else {
            return false;
          }
        }
      }
    }
  }

  // ------------------------------------------------------------------
  // Whole frames
  // ------------------------------------------------------------------

  /** Raster bytes as sub-blocks of 1 to 255 bytes with a terminator (section 15 of GIF89a). */
  function Blocks(chunks: seq<seq<byte>>): seq<byte>
    requires ChunksOk(chunks)
  {
    if chunks == [] then [0] else [|chunks[0]|] + chunks[0] + Blocks(chunks[1..])
  }

  predicate ChunksOk(chunks: seq<seq<byte>>) {
    forall i :: 0 <= i < |chunks| ==> 0 < |chunks[i]| < 256
  }

  function Concat(chunks: seq<seq<byte>>): seq<byte> {
    if chunks == [] then [] else chunks[0] + Concat(chunks[1..])
  }

  lemma {:induction false} FeedRun(data: seq<byte>, pos: nat, len: nat)
    requires pos + len <= |data|
    ensures Feed(data, pos, len) == data[pos..pos + len] + Feed(data, pos + len, 0)
    ensures FeedEnd(data, pos, len) == FeedEnd(data, pos + len, 0)
    decreases len
  {
    hide Feed, FeedEnd;
    FeedEndSkip(data, pos, len);
    if len > 0 {
      FeedHead(data, pos, len);
      FeedRun(data, pos + 1, len - 1);
      assert data[pos..pos + len] == [data[pos]] + data[pos + 1..pos + len];
    }
  }

  lemma {:induction false} FeedBlock(data: seq<byte>, pos: nat)
    requires pos < |data|
    ensures data[pos] == 0 ==> Feed(data, pos, 0) == [] && FeedEnd(data, pos, 0) == pos + 1
    ensures data[pos] > 0 ==> Feed(data, pos, 0) == Feed(data, pos + 1, data[pos])
    ensures data[pos] > 0 ==> FeedEnd(data, pos, 0) == FeedEnd(data, pos + 1, data[pos])
  {
  }

  /** However the bytes are cut into sub-blocks, the reader sees their concatenation. */
  lemma {:induction false} FeedBlocks(data: seq<byte>, pos: nat, chunks: seq<seq<byte>>)
    requires ChunksOk(chunks) && pos <= |data| && Blocks(chunks) <= data[pos..]
    ensures Feed(data, pos, 0) == Concat(chunks)
    ensures FeedEnd(data, pos, 0) == pos + |Blocks(chunks)|
    decreases |chunks|
  {
    hide Feed, FeedEnd;
    var b := Blocks(chunks);
    assert data[pos] == b[0];
    FeedBlock(data, pos);
    if chunks != [] {
      var n := |chunks[0]|;
      assert b[1..1 + n] == chunks[0] && b[1 + n..] == Blocks(chunks[1..]);
      assert data[pos + 1..pos + 1 + n] == data[pos..][1..1 + n] == b[1..1 + n];
      assert data[pos + 1 + n..] == data[pos..][1 + n..];
      FeedRun(data, pos + 1, n);
      FeedBlocks(data, pos + 1 + n, chunks[1..]);
    }
  }

  /** `payload` holds codes that some encoder may write for the symbols, clear code first. */
  ghost predicate CodesFor(cs: nat, codes: seq<nat>, payload: seq<byte>, syms: seq<byte>) {
    && 2 <= cs <= 12 && codes != [] && codes[0] == ClearCode(cs)
    && Encodes(cs, [], [], codes, syms)
    && Starts(LE(payload), CodeFields(cs, 0, false, codes))
    && Width(CodeFields(cs, 0, false, codes)) <= 8 * |payload|
  }

  /** The data begins with a raster that some encoder may write for the symbols. */
  ghost predicate Carries(data: seq<byte>, syms: seq<byte>) {
    exists cs: byte, codes: seq<nat>, chunks: seq<seq<byte>> ::
      ChunksOk(chunks) && [cs] + Blocks(chunks) <= data && CodesFor(cs, codes, Concat(chunks), syms)
  }

  lemma {:induction false} RasterRoundTrip(cs: nat, codes: seq<nat>, payload: seq<byte>, syms: seq<byte>)
    requires CodesFor(cs, codes, payload, syms)
    ensures Decode(cs, Start(cs), LE(payload), 8 * |payload|) == Outcome(true, syms)
  {
    hide Low, Shr, DecodeOne, Decode, Pow2, CodeFields, Starts, Width, ClearCode, WidthFor, LE;
    var st, v, n := Start(cs), LE(payload), 8 * |payload|;
    FreshWidth(cs);
    HeadField(cs, 0, false, codes, v);
    Cases(cs, st, ClearCode(cs));
    DecodeStep(cs, st, v, n);
    RoundTrip(cs, Fresh(cs), codes[1..], syms, Shr(v, st.width), n - st.width);
  }

  lemma {:induction false} CarriedDecodes(data: seq<byte>, syms: seq<byte>)
    requires Carries(data, syms)
    ensures Expected(data, 0) == Outcome(true, syms)
  {
    hide Decode, LE, Feed, FeedEnd, Blocks, CodesFor;
    var cs: byte, codes: seq<nat>, chunks: seq<seq<byte>> :|
      ChunksOk(chunks) && [cs] + Blocks(chunks) <= data && CodesFor(cs, codes, Concat(chunks), syms);
    assert data[0] == ([cs] + Blocks(chunks))[0];
    assert data[1..][..|Blocks(chunks)|] == data[..1 + |Blocks(chunks)|][1..] == Blocks(chunks);
    FeedBlocks(data, 1, chunks);
    RasterRoundTrip(cs, codes, Concat(chunks), syms);
    CodeSizeSmall(cs, codes, Concat(chunks), syms);
  }

  lemma {:induction false} CodeSizeSmall(cs: nat, codes: seq<nat>, payload: seq<byte>, syms: seq<byte>)
    requires CodesFor(cs, codes, payload, syms)
    ensures cs <= 12
  {
  }

  /**
    A frame drawn from raster data: whatever any encoder wrote, cut into sub-blocks in any way, each pixel of the
    rectangle gets its symbol, interlaced or not, and the rest of the image is untouched.  On data no encoder
    wrote, the pixels painted are still those of the symbols decoded before the error.
  */
  method DrawFrame(data: seq<byte>, table: Codes, rect: Rect, interlaced: bool, before: Cells)
    returns (ok: bool, after: Cells)
    requires |table| == TABLE_SIZE
    ensures ok == Expected(data, 0).ok
    ensures Painted(interlaced, rect, before, Expected(data, 0).out, after)
    ensures forall syms :: Carries(data, syms) ==> ok && Painted(interlaced, rect, before, syms, after)
  {
    hide Painted, Carries, PutAll, Expected;
    var r := new Raster(data, table, rect, interlaced, before);
    ok := r.ProcessRaster();
    after := r.cells;
    PaintedByPut(interlaced, rect, before, Expected(data, 0).out);
    forall syms | Carries(data, syms) ensures Expected(data, 0) == Outcome(true, syms) {
      CarriedDecodes(data, syms);
    }
  }
}
