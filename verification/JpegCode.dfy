/**
  Encoding blocks of JPEG coefficients: what an encoder may write, as bits and
  as bytes with their stuffing, and the proof that the decoder reads it back,
  however close the next marker is.
*/
module JpegCode {
  import opened Bits
  import opened Canonical
  import opened JHuffman
  import opened Jpeg
  import opened JpegStream
  import opened JpegBlock

  /** A symbol of the table and the bits of the value behind it. */
  datatype Token = Token(i: nat, bits: nat)

  datatype Code = Code(lens: seq<nat>, values: seq<byte>)

  predicate CodeOk(c: Code) {
    Sorted(c.lens) && |c.lens| <= |c.values| && Accepted(c.lens, MAX_LEN)
  }

  // ------------------------------------------------------------------
  // Tokens as bits
  // ------------------------------------------------------------------

  /** A symbol, most significant bit first, and n bits behind it. */
  function TokenFields(c: Code, t: Token, n: nat): seq<Field>
    requires t.i < |c.lens|
  {
    [Field(Rev(Canonical.Code(c.lens, t.i), c.lens[t.i]), c.lens[t.i]), Field(Rev(t.bits, n), n)]
  }

  /** The first symbol of a stream that begins with a token, and what is behind it. */
  lemma {:induction false} TokenStarts(c: Code, t: Token, n: nat, fs: seq<Field>, v: nat)
    requires CodeOk(c) && t.i < |c.lens| && t.bits < Pow2(n) && Starts(v, TokenFields(c, t, n) + fs)
    ensures Find(c.lens, Rev(v, WINDOW)) == t.i
    ensures Rev(Shr(v, c.lens[t.i]), n) == t.bits
    ensures Starts(Shr(Shr(v, c.lens[t.i]), n), fs)
    ensures Width(TokenFields(c, t, n) + fs) == c.lens[t.i] + n + Width(fs)
  {
    hide Rev, Low, Shr, Pow2, Accepted, Canonical.Code;
    var l := c.lens[t.i];
    var code := Canonical.Code(c.lens, t.i);
    var f, g := Field(Rev(code, l), l), Field(Rev(t.bits, n), n);
    var all := TokenFields(c, t, n) + fs;
    assert all == [f, g] + fs && all[1..] == [g] + fs && ([g] + fs)[1..] == fs;
    CodeBelow(c, t.i);
    RevField(v, code, l);
    RevField(Shr(v, l), t.bits, n);
    HitOfCode(c, t.i, v);
    FindIs(c.lens, t.i, Rev(v, WINDOW));
  }

  lemma {:induction false} CodeBelow(c: Code, i: nat)
    requires CodeOk(c) && i < |c.lens|
    ensures Canonical.Code(c.lens, i) < Pow2(c.lens[i])
  {
    hide Pow2, Accepted;
    RankBelowCount(c.lens, i);
    AcceptedLimit(c.lens, MAX_LEN, c.lens[i]);
  }

  lemma {:induction false} HitOfCode(c: Code, i: nat, v: nat)
    requires CodeOk(c) && i < |c.lens| && Rev(v, c.lens[i]) == Canonical.Code(c.lens, i)
    ensures Hits(c.lens, i, Rev(v, WINDOW))
  {
    hide Rev, Shr, Canonical.Code;
    RevPrefix(v, WINDOW, c.lens[i]);
  }

  // ------------------------------------------------------------------
  // Blocks
  // ------------------------------------------------------------------

  /** How many bits of value follow an AC symbol. */
  function Size(c: Code, t: Token): nat
    requires t.i < |c.values|
  {
    c.values[t.i] % 16
  }

  /** A symbol that ends the block. */
  predicate Last(c: Code, t: Token)
    requires t.i < |c.values|
  {
    Size(c, t) == 0 && c.values[t.i] != 0xf0
  }

  /** The coefficient after a token at coefficient k. */
  function NextK(c: Code, t: Token, k: nat): (r: nat)
    requires t.i < |c.values|
    ensures r > k
  {
    if Size(c, t) == 0 then k + 16 else k + c.values[t.i] / 16 + 1
  }

  /** The coefficient a token gives, if any. */
  function Own(c: Code, t: Token, k: nat): Coeffs
    requires t.i < |c.values|
  {
    if Size(c, t) == 0 then [] else [(k + c.values[t.i] / 16, Extend(t.bits, Size(c, t)))]
  }

  predicate TokenOk(c: Code, t: Token) {
    t.i < |c.lens| <= |c.values| && t.bits < Pow2(Size(c, t))
  }

  /** The tokens make up the AC part of a block from coefficient k on. */
  predicate BlockTokens(c: Code, ts: seq<Token>, k: nat)
    decreases |ts|
  {
    if k >= 64 then ts == []
    else
      && ts != [] && TokenOk(c, ts[0])
      && if Last(c, ts[0]) then ts == [ts[0]] else BlockTokens(c, ts[1..], NextK(c, ts[0], k))
  }

  function BlockFields(c: Code, ts: seq<Token>, k: nat): seq<Field>
    requires BlockTokens(c, ts, k)
    decreases |ts|
  {
    if ts == [] then []
    else
      TokenFields(c, ts[0], Size(c, ts[0])) +
      if Last(c, ts[0]) then [] else BlockFields(c, ts[1..], NextK(c, ts[0], k))
  }

  /** The coefficients they stand for. */
  function Meaning(c: Code, ts: seq<Token>, k: nat): Coeffs
    requires BlockTokens(c, ts, k)
    decreases |ts|
  {
    if ts == [] || Last(c, ts[0]) then []
    else Own(c, ts[0], k) + Meaning(c, ts[1..], NextK(c, ts[0], k))
  }

  /** The fields behind the first token. */
  function RestFields(c: Code, ts: seq<Token>, k: nat): seq<Field>
    requires k < 64 && BlockTokens(c, ts, k)
  {
    if Last(c, ts[0]) then [] else BlockFields(c, ts[1..], NextK(c, ts[0], k))
  }

  lemma {:induction false} StepOfToken(c: Code, t: Token, v: nat, k: nat, coeffs: Coeffs)
    requires TokenOk(c, t) && Find(c.lens, Rev(v, WINDOW)) == t.i && Rev(Shr(v, c.lens[t.i]), Size(c, t)) == t.bits
    ensures StreamStep(c.lens, c.values, v, k, coeffs) ==
      if Last(c, t) then StepEnd(coeffs, Shr(v, c.lens[t.i]))
      else StepOn(NextK(c, t, k), coeffs + Own(c, t, k), Shr(Shr(v, c.lens[t.i]), Size(c, t)))
  {
    hide Rev, Shr, Pow2, Extend, Hits;
    if Size(c, t) == 0 {
      NoFields(Shr(v, c.lens[t.i]));
      assert coeffs + [] == coeffs;
    }
  }

  /** A stream that begins with an encoded block stands for its coefficients. */
  lemma {:induction false} BlockOfTokens(c: Code, ts: seq<Token>, v: nat, k: nat, coeffs: Coeffs)
    requires CodeOk(c) && |c.lens| <= |c.values| && BlockTokens(c, ts, k) && Starts(v, BlockFields(c, ts, k))
    ensures StreamBlock(c.lens, c.values, v, k, coeffs) == Coded(coeffs + Meaning(c, ts, k), Shr(v, Width(BlockFields(c, ts, k))))
    decreases |ts|
  {
    hide Rev, Low, Shr, CodeOk, TokenFields, Starts, Width, Hits, StreamStep, Own, TokenOk, Last, NextK, Size, RestFields;
    if k >= 64 {
      NoFields(v);
      assert coeffs + [] == coeffs;
    } else {
      var t := ts[0];
      BlockHead(c, ts, v, k);
      StepOfToken(c, t, v, k, coeffs);
      if Last(c, t) {
        assert coeffs + [] == coeffs;
      } else {
        var v', k' := Shr(Shr(v, c.lens[t.i]), Size(c, t)), NextK(c, t, k);
        BlockOfTokens(c, ts[1..], v', k', coeffs + Own(c, t, k));
        assert coeffs + Own(c, t, k) + Meaning(c, ts[1..], k') == coeffs + (Own(c, t, k) + Meaning(c, ts[1..], k'));
      }
    }
  }

  /** The first token of a block in a stream that begins with it. */
  lemma {:induction false} BlockHead(c: Code, ts: seq<Token>, v: nat, k: nat)
    requires CodeOk(c) && k < 64 && BlockTokens(c, ts, k) && Starts(v, BlockFields(c, ts, k))
    ensures TokenOk(c, ts[0]) && ts[0].i < |c.lens|
    ensures var t := ts[0];
      var l, n := c.lens[t.i], Size(c, t);
      && Find(c.lens, Rev(v, WINDOW)) == t.i && Rev(Shr(v, l), n) == t.bits
      && Starts(Shr(Shr(v, l), n), RestFields(c, ts, k))
      && Width(BlockFields(c, ts, k)) == l + n + Width(RestFields(c, ts, k))
      && Shr(v, Width(BlockFields(c, ts, k))) == Shr(Shr(Shr(v, l), n), Width(RestFields(c, ts, k)))
      && (Last(c, t) ==> Shr(v, Width(BlockFields(c, ts, k))) == Shr(v, l))
      && (!Last(c, t) ==> RestFields(c, ts, k) == BlockFields(c, ts[1..], NextK(c, t, k)))
  {
    hide Rev, Low, Shr, TokenFields, Starts, Width, Pow2, Hits, Accepted;
    var t := ts[0];
    var l, n := c.lens[t.i], Size(c, t);
    var rest := RestFields(c, ts, k);
    TokenStarts(c, t, n, rest, v);
    TakeTwice(v, l, n);
    TakeTwice(v, l + n, Width(rest));
    NoFields(v);
  }

  lemma {:induction false} NoFields(v: nat)
    ensures Width([]) == 0 && Shr(v, 0) == v && Starts(v, [])
  {
  }

  // ------------------------------------------------------------------
  // The decoder reads every encoded block
  // ------------------------------------------------------------------

  /** No symbol of an encoded block is cut if all of it comes before the end of the data. */
  lemma {:induction false} NotCut(data: seq<byte>, c: Code, ts: seq<Token>, s: Source, k: nat)
    requires CodeOk(c) && |c.lens| <= |c.values| && BlockTokens(c, ts, k) && SourceOk(data, s) && s.pos <= |data| && s.bits <= WORD
    requires Starts(Stream(data, s), BlockFields(c, ts, k)) && Width(BlockFields(c, ts, k)) <= Avail(data, s)
    ensures !CutIn(data, c.lens, c.values, s, k)
    decreases |ts|
  {
    hide SourceOk, Cut, Stream, Round, Rev, Hits, Avail, CodeOk, Starts, Width, TokenOk, Last, NextK, Size, RestFields, Shr, BlockFields;
    if k < 64 {
      var t := ts[0];
      BlockHead(c, ts, Stream(data, s), k);
      SizeIs(c, t);
      if Cut(data, c.lens, c.values, s) { CutByMarker(data, c.lens, c.values, s); }
      RoundUses(data, c.lens, c.values, s, k, []);
      RoundIff(data, c.lens, c.values, s, k, []);
      StepOfToken(c, t, Stream(data, s), k, []);
      match Round(data, c.lens, c.values, s, k, [])
      case RoundOn(k', cs, u) =>
        BoundsOf(data, u);
        NotCut(data, c, ts[1..], u, k');
      case _ =>
    }
  }

  lemma {:induction false} SizeIs(c: Code, t: Token)
    requires t.i < |c.values|
    ensures Size(c, t) == c.values[t.i] % 16
  {
  }

  /** The AC part: whatever an encoder wrote comes back, however close the marker is. */
  lemma {:induction false} BlockComesBack(data: seq<byte>, c: Code, ts: seq<Token>, s: Source)
    requires CodeOk(c) && |c.lens| <= |c.values| && BlockTokens(c, ts, 1) && SourceOk(data, s) && s.pos <= |data| && s.bits <= WORD
    requires Starts(Stream(data, s), BlockFields(c, ts, 1)) && Width(BlockFields(c, ts, 1)) <= Avail(data, s)
    ensures var d := Decoded(data, c.lens, c.values, s, 1, []);
      && d.Block? && d.coeffs == Meaning(c, ts, 1) && SourceOk(data, d.rest) && d.rest.pos <= |data|
      && Stream(data, d.rest) == Shr(Stream(data, s), Width(BlockFields(c, ts, 1)))
  {
    hide SourceOk, Stream, Decoded, StreamBlock, CutIn, CodeOk, BlockTokens, BlockFields, Starts, Width, Shr, Meaning;
    NotCut(data, c, ts, s, 1);
    BlockOfTokens(c, ts, Stream(data, s), 1, []);
    BlockAgrees(data, c.lens, c.values, s, 1, []);
    assert [] + Meaning(c, ts, 1) == Meaning(c, ts, 1);
  }

  /** A DC size symbol and the difference behind it. */
  predicate DcToken(c: Code, t: Token) {
    t.i < |c.lens| <= |c.values| && c.values[t.i] <= 15 && t.bits < Pow2(c.values[t.i])
  }

  function DcFields(c: Code, t: Token): seq<Field>
    requires DcToken(c, t)
  {
    TokenFields(c, t, c.values[t.i])
  }

  function DcMeaning(c: Code, t: Token): int
    requires DcToken(c, t)
  {
    Extend(t.bits, c.values[t.i])
  }

  lemma {:induction false} DcComesBack(data: seq<byte>, c: Code, t: Token, fs: seq<Field>, s: Source)
    requires CodeOk(c) && |c.lens| <= |c.values| && DcToken(c, t) && SourceOk(data, s) && s.pos <= |data| && s.bits <= WORD
    requires Starts(Stream(data, s), DcFields(c, t) + fs) && Width(DcFields(c, t) + fs) <= Avail(data, s)
    ensures var d := Difference(data, c.lens, c.values, s);
      && d.Diff? && d.diff == DcMeaning(c, t) && SourceOk(data, d.rest) && d.rest.pos <= |data| && d.rest.bits <= WORD
      && Starts(Stream(data, d.rest), fs) && Width(fs) <= Avail(data, d.rest)
  {
    hide SourceOk, Stream, CodeOk, Starts, Width, Shr, Rev, TokenFields, Filled, SymbolAt, NextValue, Drop, Avail, Hits, Pow2, Extend;
    var v := Stream(data, s);
    var l, n := c.lens[t.i], c.values[t.i];
    TokenStarts(c, t, n, fs, v);
    LongSymbol(data, c.lens, c.values, s);
    FilledStream(data, s, 16);
    var u := Drop(Filled(data, Filled(data, s, 16), 16), l);
    BoundsOf(data, u);
    ValueStream(data, u, n);
    if n > 0 {
      BoundsOf(data, NextValue(data, u, n).rest);
    } else {
      NoFields(Shr(v, l));
      NoBits(t.bits);
    }
  }

  lemma {:induction false} NoBits(b: nat)
    requires b < Pow2(0)
    ensures Extend(b, 0) == 0
  {
  }

  /** The data begins with a block some encoder may write: difference and coefficients, all before any marker. */
  ghost predicate Carries(data: seq<byte>, dc: Code, ac: Code, diff: int, coeffs: Coeffs) {
    exists t: Token, ts: seq<Token> ::
      && DcToken(dc, t) && BlockTokens(ac, ts, 1) && DcMeaning(dc, t) == diff && Meaning(ac, ts, 1) == coeffs
      && Starts(Stream(data, BEGIN), DcFields(dc, t) + BlockFields(ac, ts, 1))
      && Width(DcFields(dc, t) + BlockFields(ac, ts, 1)) <= Avail(data, BEGIN)
  }

  lemma {:induction false} CarriedBlock(data: seq<byte>, dc: Code, ac: Code, diff: int, coeffs: Coeffs)
    requires CodeOk(dc) && CodeOk(ac) && |dc.lens| <= |dc.values| && |ac.lens| <= |ac.values|
    requires SourceOk(data, BEGIN) && Carries(data, dc, ac, diff, coeffs)
    ensures var d := Difference(data, dc.lens, dc.values, BEGIN);
      && d.Diff? && d.diff == diff && d.rest.pos <= |data| && d.rest.bits <= WORD
      && var b := Decoded(data, ac.lens, ac.values, d.rest, 1, []);
         b.Block? && b.coeffs == coeffs
  {
    hide SourceOk, Stream, Decoded, Difference, CodeOk, BlockTokens, BlockFields, DcFields, DcToken, Starts, Width, Meaning, DcMeaning, Avail;
    var t: Token, ts: seq<Token> :|
      && DcToken(dc, t) && BlockTokens(ac, ts, 1) && DcMeaning(dc, t) == diff && Meaning(ac, ts, 1) == coeffs
      && Starts(Stream(data, BEGIN), DcFields(dc, t) + BlockFields(ac, ts, 1))
      && Width(DcFields(dc, t) + BlockFields(ac, ts, 1)) <= Avail(data, BEGIN);
    DcComesBack(data, dc, t, BlockFields(ac, ts, 1), BEGIN);
    BlockComesBack(data, ac, ts, Difference(data, dc.lens, dc.values, BEGIN).rest);
  }

  /** Tables from two DHT segments and the first block of a scan, read as stb_image.h reads it. */
  method FirstBlock(data: seq<byte>, dcCount: seq<nat>, dcValues: seq<byte>, acCount: seq<nat>, acValues: seq<byte>)
    returns (built: bool, ok: bool, diff: int, coeffs: Coeffs)
    requires |dcCount| == |acCount| == 16 && |dcValues| == |acValues| == 256
    ensures built <==> Buildable(dcCount) && Buildable(acCount)
    ensures built && Good(SizeList(dcCount)) && Good(SizeList(acCount)) ==>
      forall d, cs :: Carries(data, Code(SizeList(dcCount), dcValues), Code(SizeList(acCount), acValues), d, cs) ==>
        ok && diff == d && coeffs == cs
  {
    hide SizeList, KraftSum, Pow2, Decoded, Difference, Decoder.Valid, Table.Ready, FastAcOk, Carries, CodeOk, SourceOk;
    ok, diff, coeffs := false, 0, [];
    var hd := new Table(dcValues);
    var ha := new Table(acValues);
    built := hd.Build(dcCount);
    if built {
      built := ha.Build(acCount);
    }
    if built {
      TableShape(hd);
      TableShape(ha);
      ok, diff, coeffs := ReadBlock(data, hd, ha);
    }
  }

  /** The first block of a scan with two tables as they are. */
  method ReadBlock(data: seq<byte>, hd: Table, ha: Table) returns (ok: bool, diff: int, coeffs: Coeffs)
    requires hd.Ready() && ha.Ready() && |hd.lens| <= |hd.values| && |ha.lens| <= |ha.values|
    ensures Good(hd.lens) && Good(ha.lens) ==>
      forall d, cs :: Carries(data, Code(hd.lens, hd.values), Code(ha.lens, ha.values), d, cs) ==>
        ok && diff == d && coeffs == cs
  {
    hide Decoded, Difference, Decoder.Valid, Table.Ready, FastAcOk, Carries, CodeOk, SourceOk, MisreadNext, MisreadIn, Good;
    coeffs := [];
    ghost var dc, ac, good := Code(hd.lens, hd.values), Code(ha.lens, ha.values), Good(hd.lens) && Good(ha.lens);
    TableCode(hd, dc);
    TableCode(ha, ac);
    var fac := BuildFastAc(ha);
    var j := new Decoder(data);
    StartOk(data);
    if good { GoodBlock(data, dc.lens, dc.values, BEGIN, 64, []); }
    forall d, cs | Carries(data, dc, ac, d, cs)
      ensures var e := Difference(data, dc.lens, dc.values, BEGIN);
        && e.Diff? && e.diff == d && e.rest.pos <= |data| && e.rest.bits <= WORD
        && Decoded(data, ac.lens, ac.values, e.rest, 1, []).Block? && Decoded(data, ac.lens, ac.values, e.rest, 1, []).coeffs == cs
    {
      CarriedBlock(data, dc, ac, d, cs);
    }
    ok, diff := j.DecodeDC(hd);
    if ok {
      InBounds(j);
      if good { GoodBlock(data, ac.lens, ac.values, j.At(), 1, []); }
      ok, coeffs := j.DecodeAC(ha, fac);
    }
  }

  lemma {:induction false} InBounds(j: Decoder)
    requires j.Valid()
    ensures j.codeBits >= 0 && j.At().pos <= |j.data| && j.At().bits <= WORD
  {
  }

  predicate Buildable(count: seq<nat>) {
    |SizeList(count)| <= 256 && KraftSum(SizeList(count), MAX_LEN) <= Pow2(MAX_LEN)
  }

  lemma {:induction false} TableCode(h: Table, c: Code)
    requires h.Ready() && c == Code(h.lens, h.values)
    ensures CodeOk(c) && |c.lens| <= |c.values|
  {
  }

  lemma {:induction false} StartOk(data: seq<byte>)
    ensures SourceOk(data, BEGIN)
  {
    Empty();
  }

  // ------------------------------------------------------------------
  // Every block can be written
  // ------------------------------------------------------------------

  /** Bytes of an entropy-coded segment: a zero byte follows every FF. */
  function Stuffed(bytes: seq<byte>): seq<byte> {
    if bytes == [] then [] else Chunk(bytes[0]) + Stuffed(bytes[1..])
  }

  function Chunk(b: byte): seq<byte> {
    if b == 0xff then [0xff, 0] else [b]
  }

  /** The segment for the given bits, the marker that ends it, and whatever follows. */
  function Segment(fs: seq<Field>, marker: byte, tail: seq<byte>): seq<byte> {
    Stuffed(Mirror(Written(fs))) + ([0xff, marker] + tail)
  }

  /** Stuffing is undone up to the marker. */
  lemma {:induction false} Unstuffed(pre: seq<byte>, bytes: seq<byte>, marker: byte, tail: seq<byte>)
    requires marker != 0 && marker != 0xff
    ensures Entropy(pre + (Stuffed(bytes) + ([0xff, marker] + tail)), |pre|) == bytes
    decreases |bytes|
  {
    hide Entropy, Chunk;
    var end := [0xff, marker] + tail;
    if bytes == [] {
      assert pre + (Stuffed(bytes) + end) == pre + end;
      AtMarker(pre, marker, tail);
    } else {
      var c, rest := Chunk(bytes[0]), Stuffed(bytes[1..]);
      assert pre + (c + rest + end) == (pre + c) + (rest + end);
      AtChunk(pre, bytes[0], rest + end);
      Unstuffed(pre + c, bytes[1..], marker, tail);
    }
  }

  lemma {:induction false} AtMarker(pre: seq<byte>, marker: byte, tail: seq<byte>)
    requires marker != 0 && marker != 0xff
    ensures Entropy(pre + ([0xff, marker] + tail), |pre|) == []
  {
    var data := pre + ([0xff, marker] + tail);
    assert data[|pre|] == 0xff && data[|pre| + 1] == marker;
  }

  lemma {:induction false} AtChunk(pre: seq<byte>, b: byte, rest: seq<byte>)
    ensures var data := (pre + Chunk(b)) + rest; Entropy(data, |pre|) == [b] + Entropy(data, |pre + Chunk(b)|)
  {
    var data := (pre + Chunk(b)) + rest;
    assert data[|pre|] == b && (b == 0xff ==> data[|pre| + 1] == 0);
  }

  lemma {:induction false} MirrorTwice(bytes: seq<byte>)
    ensures Mirror(Mirror(bytes)) == bytes
  {
    hide Rev, Low, Pow2;
    Pow2Eight();
    forall i | 0 <= i < |bytes| ensures Mirror(Mirror(bytes))[i] == bytes[i] {
      RevTwice(bytes[i], 8);
      LowSmall(bytes[i], 8);
    }
  }

  /** The bits of a written segment are the fields, padded to whole bytes. */
  lemma {:induction false} SegmentStream(fs: seq<Field>, marker: byte, tail: seq<byte>)
    requires FieldsOk(fs) && marker != 0 && marker != 0xff
    ensures var data := Segment(fs, marker, tail);
      Starts(Stream(data, BEGIN), fs) && Width(fs) <= Avail(data, BEGIN)
  {
    hide FieldsOk, Entropy, Stuffed, Written, Mirror, LE, Starts, Width, Rev, Pow2;
    var w := Written(fs);
    var data := Segment(fs, marker, tail);
    Unstuffed([], Mirror(w), marker, tail);
    assert [] + data == data;
    MirrorTwice(w);
    WrittenStarts(fs, []);
    assert w + [] == w;
    Empty();
    NothingHeld();
  }

  lemma {:induction false} NothingHeld()
    ensures Pow2(0) == 1 && Flipped(0) == 0
  {
    hide Rev;
    RevZero(WORD);
  }

  lemma {:induction false} TokenFits(c: Code, t: Token, n: nat)
    requires t.i < |c.lens|
    ensures FieldsOk(TokenFields(c, t, n))
  {
    hide Pow2, Canonical.Code;
  }

  lemma {:induction false} BlockFits(c: Code, ts: seq<Token>, k: nat)
    requires BlockTokens(c, ts, k)
    ensures FieldsOk(BlockFields(c, ts, k))
    decreases |ts|
  {
    hide FieldsOk, TokenFields, Last, Size, NextK;
    if ts == [] {
      NothingFits();
    } else {
      var a, b := TokenFields(c, ts[0], Size(c, ts[0])), RestFields(c, ts, k);
      TokenFits(c, ts[0], Size(c, ts[0]));
      if Last(c, ts[0]) {
        NothingFits();
      } else {
        BlockFits(c, ts[1..], NextK(c, ts[0], k));
      }
      BothFit(a, b);
    }
  }

  lemma {:induction false} NothingFits()
    ensures FieldsOk([])
  {
  }

  lemma {:induction false} BothFit(a: seq<Field>, b: seq<Field>)
    requires FieldsOk(a) && FieldsOk(b)
    ensures FieldsOk(a + b)
  {
    hide Pow2;
  }

  /** Every block an encoder may write is carried by the bytes of its segment, whatever marker ends it. */
  lemma {:induction false} WrittenBlock(dc: Code, ac: Code, t: Token, ts: seq<Token>, marker: byte, tail: seq<byte>)
    requires DcToken(dc, t) && BlockTokens(ac, ts, 1) && marker != 0 && marker != 0xff
    ensures Carries(Segment(DcFields(dc, t) + BlockFields(ac, ts, 1), marker, tail), dc, ac, DcMeaning(dc, t), Meaning(ac, ts, 1))
  {
    hide FieldsOk, BlockTokens, BlockFields, TokenFields, Segment, Starts, Width, Stream, Meaning, Avail, Pow2, Extend;
    TokenFits(dc, t, dc.values[t.i]);
    BlockFits(ac, ts, 1);
    BothFit(DcFields(dc, t), BlockFields(ac, ts, 1));
    SegmentStream(DcFields(dc, t) + BlockFields(ac, ts, 1), marker, tail);
  }

  /** Every table that cannot keep its symbol 255 is brought to misread it by some segment. */
  lemma {:induction false} MisreadReached(lens: seq<nat>, values: seq<byte>, marker: byte, tail: seq<byte>) returns (data: seq<byte>)
    requires Sorted(lens) && Accepted(lens, MAX_LEN) && |lens| <= 256 == |values| && !Good(lens)
    requires marker != 0 && marker != 0xff
    ensures Misreads(lens, Filled(data, BEGIN, 16))
  {
    hide Rev, Low, Shr, Pow2, Accepted, Canonical.Code, Stream, SourceOk, Grow, Segment, Starts, Width, FieldsOk, Sorted;
    var c, n, code := Code(lens, values), lens[NO_ENTRY], Canonical.Code(lens, NO_ENTRY);
    var f := Field(Rev(code, n), n);
    OneFits(f);
    data := Segment([f], marker, tail);
    SegmentStream([f], marker, tail);
    OneIs(Stream(data, BEGIN), f);
    BadLength(lens);
    CodeBelow(c, NO_ENTRY);
    RevField(Stream(data, BEGIN), code, n);
    HitOfCode(c, NO_ENTRY, Stream(data, BEGIN));
    StartOk(data);
    FilledWindow(data, BEGIN);
    FilledStream(data, BEGIN, 16);
  }

  lemma {:induction false} OneFits(f: Field)
    requires f.value < Pow2(f.width)
    ensures FieldsOk([f])
  {
  }

  lemma {:induction false} OneIs(v: nat, f: Field)
    requires Starts(v, [f])
    ensures Low(v, f.width) == f.value && Width([f]) == f.width
  {
  }

  lemma {:induction false} BadLength(lens: seq<nat>)
    requires Sorted(lens) && !Good(lens)
    ensures |lens| > NO_ENTRY && 0 < lens[NO_ENTRY] <= FAST_BITS
  {
  }
}
