/**
  Streams in full: the bytes of a fixed block with an overlapping copy, those of a
  dynamic block whose header uses every code length operation, and those of a
  stored block.
*/
module Samples {
  import opened Bits
  import opened Canonical
  import opened ZHuffman
  import opened Deflate
  import opened Tables
  import opened Inflate
  import opened Supply
  import opened Zlib
  import opened Overrun

  // ------------------------------------------------------------------
  // Reading a stream field by field
  // ------------------------------------------------------------------

  /** The stream v begins with w bits of fields, and u follows. */
  predicate At(v: nat, fs: seq<Field>, w: nat, u: nat) {
    Starts(v, fs) && Width(fs) == w && Shr(v, w) == u
  }

  lemma {:induction false} AtNone(v: nat)
    ensures At(v, [], 0, v)
  {
  }

  lemma {:induction false} AtOne(v: nat, f: Field, u: nat)
    requires f.value < Pow2(f.width) && v == f.value + Pow2(f.width) * u
    ensures At(v, [f], f.width, u)
  {
    hide Pow2, Low, Shr;
    SplitUnique(f.value, f.width, u);
    OneField(v, f);
  }

  lemma {:induction false} AtAppend(v: nat, a: seq<Field>, w: nat, u: nat, b: seq<Field>, w': nat, u': nat)
    requires At(v, a, w, u) && At(u, b, w', u')
    ensures At(v, a + b, w + w', u')
  {
    hide Starts, Width, Shr, Low, Pow2;
    StartsAppend(v, a, b);
    TakeTwice(v, w, w');
  }

  lemma {:induction false} AtTwo(v: nat, f: Field, u: nat, g: Field, u': nat)
    requires f.value < Pow2(f.width) && v == f.value + Pow2(f.width) * u
    requires g.value < Pow2(g.width) && u == g.value + Pow2(g.width) * u'
    ensures At(v, [f, g], f.width + g.width, u')
  {
    hide Pow2, At;
    AtOne(v, f, u);
    AtOne(u, g, u');
    AtAppend(v, [f], f.width, u, [g], g.width, u');
    assert [f] + [g] == [f, g];
  }

  /** The bytes of a number: left[k] is what is left of it from byte k on. */
  lemma {:induction false} LEFrom(s: seq<byte>, left: seq<nat>)
    requires |left| == |s| + 1 && left[|s|] == 0 && forall k :: 0 <= k < |s| ==> left[k] == s[k] + 256 * left[k + 1]
    ensures LE(s) == left[0]
    decreases |s|
  {
    if s != [] {
      LEFrom(s[1..], left[1..]);
    }
  }

  // ------------------------------------------------------------------
  // Tokens
  // ------------------------------------------------------------------

  /** The tokens stand at the front of v and write out. */
  ghost predicate TokensAt(lit: seq<nat>, dist: seq<nat>, ts: seq<Token>, v: nat, w: nat, u: nat, out: seq<byte>) {
    && TokensOk(lit, dist, ts) && At(v, TokensFields(lit, dist, ts), w, u)
    && DistancesOk(lit, dist, ts, 0) && Expand(lit, dist, ts, []) == out
  }

  lemma {:induction false} NoTokens(lit: seq<nat>, dist: seq<nat>, v: nat)
    ensures TokensAt(lit, dist, [], v, 0, v, [])
  {
    AtNone(v);
  }

  lemma {:induction false} TokenMore(
    lit: seq<nat>, dist: seq<nat>, ts: seq<Token>, v: nat, w: nat, u: nat, out: seq<byte>, t: Token, w': nat, u': nat)
    requires TokensAt(lit, dist, ts, v, w, u, out) && TokenOk(lit, dist, t) && !t.EndOfBlock?
    requires At(u, TokenFields(lit, dist, t), w', u') && (t.Copy? ==> 1 <= CopyDistance(t) <= |out|)
    ensures TokensAt(lit, dist, ts + [t], v, w + w', u', Emit(t, out))
  {
    hide At, TokenOk, TokenFields, Emit, CopyDistance;
    assert (ts + [t])[..|ts|] == ts;
    DistancePositive(t);
    AtAppend(v, TokensFields(lit, dist, ts), w, u, TokenFields(lit, dist, t), w', u');
  }

  /** The tokens and the end mark. */
  lemma {:induction false} BodyAt(
    lit: seq<nat>, dist: seq<nat>, ts: seq<Token>, v: nat, w: nat, u: nat, out: seq<byte>, w': nat, u': nat)
    requires TokensAt(lit, dist, ts, v, w, u, out) && Used(lit, 256) && At(u, [EndField(lit)], w', u')
    ensures BodyOk(lit, dist, ts, 0) && At(v, BodyFields(lit, dist, ts), w + w', u')
  {
    hide At, EndField, TokensFields;
    AtAppend(v, TokensFields(lit, dist, ts), w, u, [EndField(lit)], w', u');
  }

  /** A stream of one block. */
  lemma {:induction false} BlockAt(b: Block, out: seq<byte>, data: seq<byte>, v: nat, v': nat, w: nat, u: nat)
    requires BlockOk(b, 0, 0) && BlockOutput(b, 0, []) == out && LE(data) == v
    requires v == 1 + 2 * (TypeBits(b) + 4 * v') && At(v', BlockFields(b, 0, 0), w, u) && 3 + w <= 8 * |data|
    ensures Contains(data, false, [b]) && Encode([b], true).value.out == out
  {
    hide At, BlockOk, BlockFields, BlockOutput, LE, Pow2;
    OneBlock(b);
    Pow2Values();
    AtTwo(v, Field(1, 1), TypeBits(b) + 4 * v', Field(TypeBits(b), 2), v');
    AtAppend(v, BlockHead(b, true), 3, v', BlockFields(b, 0, 0), w, u);
    AtStarts(v, BlockHead(b, true) + BlockFields(b, 0, 0), 3 + w, u);
    assert Body(data, false) == data;
  }

  lemma {:induction false} AtStarts(v: nat, fs: seq<Field>, w: nat, u: nat)
    requires At(v, fs, w, u)
    ensures Starts(v, fs) && Width(fs) == w
  {
  }

  /** The same stream behind a zlib header. */
  lemma {:induction false} Headed(head: seq<byte>, data: seq<byte>, bs: seq<Block>)
    requires Contains(data, false, bs) && |head| == 2 && HeaderAccepted(head + data)
    ensures Contains(head + data, true, bs)
  {
    hide Encode, Starts, LE, Width, HeaderAccepted;
    assert (head + data)[2..] == data && data[0..] == data;
  }

  // ------------------------------------------------------------------
  // A fixed block: 'a', and a copy of length 3 at distance 1
  // ------------------------------------------------------------------

  const FIXED: seq<byte> := [0x4B, 0x04, 0x02, 0x00]
  const FIXED_TOKENS: seq<Token> := [Literal(97), Copy(0, 0, 0, 0)]

  lemma {:induction false} FixedSymbols(lit: seq<nat>, dist: seq<nat>)
    requires lit == FixedLit() && dist == FixedDist()
    ensures Used(lit, 97) && SymField(lit, 97) == Field(0x89, 8, Codeword)
    ensures Used(lit, 257) && SymField(lit, 257) == Field(0x40, 7, Codeword)
    ensures Used(lit, 256) && SymField(lit, 256) == Field(0, 7, Codeword)
    ensures Used(dist, 0) && SymField(dist, 0) == Field(0, 5, Codeword)
  {
    hide Code, FixedLit, FixedDist, Rev;
    FixedCode(97);
    FixedCode(257);
    FixedCode(256);
    FixedDistCode(0);
    Reversed();
    RevZero(7);
    RevZero(5);
  }

  lemma {:induction false} Reversed()
    ensures Rev(0x91, 8) == 0x89 && Rev(1, 7) == 0x40
  {
    hide Rev, Shr, Pow2;
    Nibbles();
    Pow2Values();
    RevSplit(0x91, 4, 4);
    RevSplit(1, 1, 6);
    RevZero(6);
  }

  lemma {:induction false} Nibbles()
    ensures Shr(0x91, 4) == 9 && Rev(0x91, 4) == 8 && Shr(1, 1) == 0 && Rev(1, 1) == 1
    ensures Rev(9, 4) == 9
  {
    RevNine();
  }

  lemma {:induction false} RevNine()
    ensures Rev(9, 4) == 9
  {
  }

  lemma {:induction false} FixedCopy(lit: seq<nat>, dist: seq<nat>)
    requires Used(lit, 257) && SymField(lit, 257) == Field(0x40, 7, Codeword)
    requires Used(dist, 0) && SymField(dist, 0) == Field(0, 5, Codeword)
    ensures var t := Copy(0, 0, 0, 0); TokenOk(lit, dist, t) && At(0x40, TokenFields(lit, dist, t), 12, 0)
    ensures CopyDistance(Copy(0, 0, 0, 0)) == 1 && CopyLength(Copy(0, 0, 0, 0)) == 3
  {
    hide At, Pow2, SymField, Used;
    Pow2Zero();
    Pow2Values();
    var t := Copy(0, 0, 0, 0);
    AtTwo(0x40, Field(0x40, 7, Codeword), 0, Field(0, 0), 0);
    AtTwo(0, Field(0, 5, Codeword), 0, Field(0, 0), 0);
    AtAppend(0x40, [Field(0x40, 7, Codeword), Field(0, 0)], 7, 0, [Field(0, 5, Codeword), Field(0, 0)], 5, 0);
    assert TokenFields(lit, dist, t) == [Field(0x40, 7, Codeword), Field(0, 0)] + [Field(0, 5, Codeword), Field(0, 0)];
  }

  lemma {:induction false} FixedBody()
    ensures BodyOk(FixedLit(), FixedDist(), FIXED_TOKENS, 0)
    ensures At(0x4089, BodyFields(FixedLit(), FixedDist(), FIXED_TOKENS), 27, 0)
    ensures Expand(FixedLit(), FixedDist(), FIXED_TOKENS, []) == [97, 97, 97, 97]
  {
    hide At, FixedLit, FixedDist, SymField, Used, BodyOk, BodyFields, Pow2, CopyDistance, CopyLength, CopyBytes;
    var lit, dist := FixedLit(), FixedDist();
    FixedSymbols(lit, dist);
    FixedCopy(lit, dist);
    Pow2Values();
    NoTokens(lit, dist, 0x4089);
    AtOne(0x4089, Field(0x89, 8, Codeword), 0x40);
    TokenMore(lit, dist, [], 0x4089, 0, 0x4089, [], Literal(97), 8, 0x40);
    TokenMore(lit, dist, [Literal(97)], 0x4089, 8, 0x40, [97], Copy(0, 0, 0, 0), 12, 0);
    CopyThree(97);
    assert [Literal(97)] + [Copy(0, 0, 0, 0)] == FIXED_TOKENS;
    AtOne(0, Field(0, 7, BlockEnd), 0);
    BodyAt(lit, dist, FIXED_TOKENS, 0x4089, 20, 0, [97, 97, 97, 97], 7, 0);
  }

  lemma {:induction false} CopyThree(b: byte)
    ensures CopyBytes([b], 1, 3) == [b, b, b, b]
  {
    assert CopyBytes([b], 1, 1) == [b, b];
    assert CopyBytes([b], 1, 2) == [b, b, b];
  }

  /** The four bytes hold the block. */
  lemma {:induction false} FixedStream()
    ensures Contains(FIXED, false, [Fixed(FIXED_TOKENS)])
    ensures Encode([Fixed(FIXED_TOKENS)], true).value.out == [97, 97, 97, 97]
  {
    hide At, BodyOk, BodyFields, Expand, FixedLit, FixedDist, Contains, Encode, FIXED_TOKENS;
    FixedBody();
    LEFrom(FIXED, [0x2044B, 0x204, 2, 0, 0]);
    BlockAt(Fixed(FIXED_TOKENS), [97, 97, 97, 97], FIXED, 0x2044B, 0x4089, 27, 0);
  }

  /** stbi_zlib_decode_noheader on the four bytes, and stbi_zlib_decode on them behind a zlib header. */
  method DecodeFixed(initial: nat, header: bool) returns (ok: bool, out: seq<byte>)
    requires 0 < initial <= UINT_MAX
    ensures ok && out == [97, 97, 97, 97]
  {
    hide Serves, Contains, Encode, Most, HeaderAccepted, FIXED_TOKENS;
    FixedStream();
    UsualHeader(0x9C, FIXED);
    Headed([0x78, 0x9C], FIXED, [Fixed(FIXED_TOKENS)]);
    var data := if header then [0x78, 0x9C] + FIXED else FIXED;
    ContainedServed(data, header, [Fixed(FIXED_TOKENS)]);
    assert Inflates(data, Capacity(initial, true), header, [Fixed(FIXED_TOKENS)]);
    ghost var bs;
    ok, out, bs := DoZlib(data, initial, true, header, [Fixed(FIXED_TOKENS)]);
  }

  /** After the method byte of zlib's own streams, four second bytes are taken: one per compression level, without a dictionary. */
  lemma {:induction false} UsualHeader(second: byte, data: seq<byte>)
    requires data != []
    ensures HeaderAccepted([0x78, second] + data) <==> second in [0x01, 0x5E, 0x9C, 0xDA]
  {
    assert ([0x78, second] + data)[0] == 0x78 && ([0x78, second] + data)[1] == second;
    SecondByte(second);
  }

  lemma {:induction false} SecondByte(second: byte)
    ensures (0x78 * 256 + second) % 31 == 0 && second / 32 % 2 == 0 <==> second in [0x01, 0x5E, 0x9C, 0xDA]
  {
  }

  // ------------------------------------------------------------------
  // A dynamic block: 'a' to 'd' with codes of three bits, the end mark with one
  // ------------------------------------------------------------------

  const DYNAMIC: seq<byte> := [
    0x5, 0xc0, 0x25, 0x1, 0x0, 0x0, 0x0, 0x3, 0xb0, 0xac, 0x87, 0xfe, 0x5e, 0x6e, 0xe9, 0xe]
  const CL: seq<nat> := [2, 2, 2, 0, 0, 0, 0, 0, 0, 0, 0, 0, 0, 3, 0, 0, 0, 3]
  const OPS: seq<LenOp> := [Zeros11(86), One(3), Repeat(0), Zeros11(127), Zeros3(7), Zeros3(4), One(1), One(1)]
  const HEADER: Header := Header(257, 1, CL, OPS)
  const LETTERS: seq<Token> := [Literal(97), Literal(98), Literal(99), Literal(100)]

  lemma {:induction false} DynamicNumber()
    ensures LE(DYNAMIC) == 0xee96e5efe87acb0030000000125c005
  {
    LEFrom(DYNAMIC, [
      0xee96e5efe87acb0030000000125c005, 0xee96e5efe87acb0030000000125c0, 0xee96e5efe87acb0030000000125,
      0xee96e5efe87acb00300000001, 0xee96e5efe87acb003000000, 0xee96e5efe87acb0030000, 0xee96e5efe87acb00300,
      0xee96e5efe87acb003, 0xee96e5efe87acb0, 0xee96e5efe87ac, 0xee96e5efe87, 0xee96e5efe, 0xee96e5e,
      0xee96e, 0xee9, 0xe, 0x0]);
  }

  // The code length lengths

  /** The code length lengths stand at the front of a number: left[k] is what is left of it from the k-th on. */
  lemma {:induction false} ClFrom(cl: seq<nat>, left: seq<nat>)
    requires |left| == |cl| + 1 && forall k :: 0 <= k < |cl| ==> cl[k] < 8 && left[k] == cl[k] + 8 * left[k + 1]
    ensures At(left[0], ClFields(cl), 3 * |cl|, left[|cl|])
    decreases |cl|
  {
    hide At, Pow2;
    if cl == [] {
      AtNone(left[0]);
    } else {
      var n := |cl| - 1;
      ClFrom(cl[..n], left[..n + 1]);
      Pow2Values();
      AtOne(left[n], Field(cl[n], 3), left[n + 1]);
      AtAppend(left[0], ClFields(cl[..n]), 3 * n, left[n], [Field(cl[n], 3)], 3, left[n + 1]);
    }
  }

  lemma {:induction false} DynamicCl()
    ensures At(0x774b72f7f43d658018000000092, ClFields(CL), 54, 0x1dd2dcbdfd0f59)
  {
    hide At, ClFields;
    ClFrom(CL, [
      0x774b72f7f43d658018000000092, 0xee96e5efe87acb003000000012, 0x1dd2dcbdfd0f59600600000002,
      0x3ba5b97bfa1eb2c00c0000000, 0x774b72f7f43d658018000000, 0xee96e5efe87acb003000000,
      0x1dd2dcbdfd0f59600600000, 0x3ba5b97bfa1eb2c00c0000, 0x774b72f7f43d658018000, 0xee96e5efe87acb003000,
      0x1dd2dcbdfd0f59600600, 0x3ba5b97bfa1eb2c00c0, 0x774b72f7f43d658018, 0xee96e5efe87acb003,
      0x1dd2dcbdfd0f59600, 0x3ba5b97bfa1eb2c0, 0x774b72f7f43d658, 0xee96e5efe87acb, 0x1dd2dcbdfd0f59]);
  }

  /** Code lengths 0 and 3 in turn for symbols 0 to 3, 2 for the three repeating symbols. */
  function ClRuns(): seq<nat> {
    Run(0, 1) + Run(3, 1) + Run(0, 1) + Run(3, 1) + Run(0, 12) + Run(2, 3)
  }

  lemma {:induction false} DynamicClLens()
    ensures ClLens(CL) == ClRuns()
  {
    hide ClLens, CL_ORDER;
    forall i | 0 <= i < 19 ensures ClLens(CL)[i] == ClRuns()[i] {
      var k := OrderComplete(i);
      SentLength(CL, k);
      OrderTable(k);
    }
  }

  lemma {:induction false} ClCounts(s: nat)
    requires s > 0
    ensures Count(ClRuns(), s) == if s == 3 then 2 else if s == 2 then 3 else 0
  {
    hide Count, Run;
    CountRun(0, 1, s);
    CountRun(3, 1, s);
    CountRun(0, 12, s);
    CountRun(2, 3, s);
    CountAppend(Run(0, 1), Run(3, 1), s);
    CountAppend(Run(0, 1) + Run(3, 1), Run(0, 1), s);
    CountAppend(Run(0, 1) + Run(3, 1) + Run(0, 1), Run(3, 1), s);
    CountAppend(Run(0, 1) + Run(3, 1) + Run(0, 1) + Run(3, 1), Run(0, 12), s);
    CountAppend(Run(0, 1) + Run(3, 1) + Run(0, 1) + Run(3, 1) + Run(0, 12), Run(2, 3), s);
  }

  /** A code is the first of its length and the number of symbols of that length before it. */
  lemma {:induction false} CodeBehind(lens: seq<nat>, before: seq<nat>, i: nat, s: nat)
    requires i < |lens| && lens[..i] == before && lens[i] == s
    ensures Code(lens, i) == First(lens, s) + Count(before, s)
  {
  }

  lemma {:induction false} FirstStep(lens: seq<nat>, s: nat)
    ensures First(lens, 1) == 0 && (s > 1 ==> First(lens, s) == 2 * (First(lens, s - 1) + Count(lens, s - 1)))
  {
  }

  /** The code length codes: 110 and 111 for the lengths 1 and 3; 00, 01 and 10 for the three repeating symbols. */
  lemma {:induction false} ClCodes(cl: seq<nat>)
    requires cl == ClRuns()
    ensures Code(cl, 1) == 6 && Code(cl, 3) == 7 && Code(cl, 16) == 0 && Code(cl, 17) == 1 && Code(cl, 18) == 2
    ensures cl[1] == cl[3] == 3 && cl[16] == cl[17] == cl[18] == 2
  {
    hide Count, First, Code;
    ClCounts(1);
    ClCounts(2);
    FirstStep(cl, 2);
    FirstStep(cl, 3);
    var a := Run(0, 1) + Run(3, 1) + Run(0, 1);
    var b := a + Run(3, 1) + Run(0, 12);
    CountRun(0, 1, 3);
    CountRun(3, 1, 3);
    CountAppend(Run(0, 1), Run(3, 1), 3);
    CountAppend(Run(0, 1) + Run(3, 1), Run(0, 1), 3);
    CodeBehind(cl, Run(0, 1), 1, 3);
    CodeBehind(cl, a, 3, 3);
    TwosBefore(b);
    CountRun(2, 1, 2);
    CountRun(2, 2, 2);
    CountAppend(b, Run(2, 1), 2);
    CountAppend(b, Run(2, 2), 2);
    CodeBehind(cl, b, 16, 2);
    CodeBehind(cl, b + Run(2, 1), 17, 2);
    CodeBehind(cl, b + Run(2, 2), 18, 2);
  }

  lemma {:induction false} TwosBefore(b: seq<nat>)
    requires b == Run(0, 1) + Run(3, 1) + Run(0, 1) + Run(3, 1) + Run(0, 12)
    ensures Count(b, 2) == 0
  {
    hide Count;
    CountRun(0, 1, 2);
    CountRun(3, 1, 2);
    CountRun(0, 12, 2);
    CountAppend(Run(0, 1), Run(3, 1), 2);
    CountAppend(Run(0, 1) + Run(3, 1), Run(0, 1), 2);
    CountAppend(Run(0, 1) + Run(3, 1) + Run(0, 1), Run(3, 1), 2);
    CountAppend(Run(0, 1) + Run(3, 1) + Run(0, 1) + Run(3, 1), Run(0, 12), 2);
  }

  lemma {:induction false} ClSymbols(cl: seq<nat>)
    requires cl == ClRuns()
    ensures Used(cl, 1) && SymField(cl, 1) == Field(3, 3, Codeword) && Used(cl, 3) && SymField(cl, 3) == Field(7, 3, Codeword)
    ensures Used(cl, 16) && SymField(cl, 16) == Field(0, 2, Codeword)
    ensures Used(cl, 17) && SymField(cl, 17) == Field(2, 2, Codeword)
    ensures Used(cl, 18) && SymField(cl, 18) == Field(1, 2, Codeword)
  {
    hide Code, Rev;
    ClCodes(cl);
    RevSmall();
  }

  lemma {:induction false} RevSmall()
    ensures Rev(0, 1) == 0 && Rev(0, 2) == 0 && Rev(1, 2) == 2 && Rev(2, 2) == 1
    ensures Rev(4, 3) == 1 && Rev(5, 3) == 5 && Rev(6, 3) == 3 && Rev(7, 3) == 7
  {
  }

  lemma {:induction false} ClKraft()
    ensures KraftSum(ClRuns(), MAX_LEN) == Pow2(MAX_LEN)
  {
    hide KraftSum, Run, Pow2;
    Pow2Values();
    KraftRun(0, 1, MAX_LEN);
    KraftRun(3, 1, MAX_LEN);
    KraftRun(0, 12, MAX_LEN);
    KraftRun(2, 3, MAX_LEN);
    KraftAppend(Run(0, 1), Run(3, 1), MAX_LEN);
    KraftAppend(Run(0, 1) + Run(3, 1), Run(0, 1), MAX_LEN);
    KraftAppend(Run(0, 1) + Run(3, 1) + Run(0, 1), Run(3, 1), MAX_LEN);
    KraftAppend(Run(0, 1) + Run(3, 1) + Run(0, 1) + Run(3, 1), Run(0, 12), MAX_LEN);
    KraftAppend(Run(0, 1) + Run(3, 1) + Run(0, 1) + Run(3, 1) + Run(0, 12), Run(2, 3), MAX_LEN);
  }

  // The code lengths of the block

  /** The operations stand at the front of v and give the code lengths known. */
  predicate OpsAt(cl: seq<nat>, ops: seq<LenOp>, v: nat, w: nat, u: nat, known: seq<nat>) {
    OpsOk(cl, ops) && At(v, OpsFields(cl, ops), w, u) && Lengths(ops) == known
  }

  lemma {:induction false} OpMore(
    cl: seq<nat>, ops: seq<LenOp>, v: nat, w: nat, u: nat, known: seq<nat>, op: LenOp, w': nat, u': nat)
    requires OpsAt(cl, ops, v, w, u, known) && OpOk(cl, op) && (ops == [] ==> !op.Repeat?)
    requires At(u, OpFields(cl, op), w', u')
    ensures OpsAt(cl, ops + [op], v, w + w', u', known + OpLengths(op, known))
  {
    hide At, OpOk, OpFields, OpLengths;
    assert (ops + [op])[..|ops|] == ops;
    AtAppend(v, OpsFields(cl, ops), w, u, OpFields(cl, op), w', u');
  }

  lemma {:induction false} NoOps(cl: seq<nat>, v: nat)
    ensures OpsAt(cl, [], v, 0, v, [])
  {
    AtNone(v);
  }

  lemma {:induction false} OpNext(cl: seq<nat>, k: nat, v: nat, w: nat, u: nat, known: seq<nat>, w': nat, u': nat)
    requires k < |OPS| && OpsAt(cl, OPS[..k], v, w, u, known) && OpOk(cl, OPS[k]) && At(u, OpFields(cl, OPS[k]), w', u')
    ensures OpsAt(cl, OPS[..k + 1], v, w + w', u', known + OpLengths(OPS[k], known))
  {
    hide OpsAt, At, OpOk, OpFields, OpLengths;
    OpMore(cl, OPS[..k], v, w, u, known, OPS[k], w', u');
    assert OPS[..k] + [OPS[k]] == OPS[..k + 1];
  }

  lemma {:induction false} FirstOps(cl: seq<nat>)
    requires cl == ClRuns()
    ensures OpsAt(cl, OPS[..4], 0x1dd2dcbdfd0f59, 25, 0xee96e5e, Run(0, 97) + [3] + Run(3, 3) + Run(0, 138))
  {
    hide At, OpsAt, ClRuns, SymField, Used, Pow2;
    ClSymbols(cl);
    Pow2Values();
    NoOps(cl, 0x1dd2dcbdfd0f59);
    var known: seq<nat> := [];
    AtTwo(0x1dd2dcbdfd0f59, Field(1, 2, Codeword), 0x774b72f7f43d6, Field(86, 7), 0xee96e5efe87);
    OpNext(cl, 0, 0x1dd2dcbdfd0f59, 0, 0x1dd2dcbdfd0f59, known, 9, 0xee96e5efe87);
    assert known + Run(0, 97) == Run(0, 97);
    known := known + Run(0, 97);
    AtOne(0xee96e5efe87, Field(7, 3, Codeword), 0x1dd2dcbdfd0);
    OpNext(cl, 1, 0x1dd2dcbdfd0f59, 9, 0xee96e5efe87, known, 3, 0x1dd2dcbdfd0);
    known := known + [3];
    AtTwo(0x1dd2dcbdfd0, Field(0, 2, Codeword), 0x774b72f7f4, Field(0, 2), 0x1dd2dcbdfd);
    OpNext(cl, 2, 0x1dd2dcbdfd0f59, 12, 0x1dd2dcbdfd0, known, 4, 0x1dd2dcbdfd);
    known := known + Run(3, 3);
    AtTwo(0x1dd2dcbdfd, Field(1, 2, Codeword), 0x774b72f7f, Field(127, 7), 0xee96e5e);
    OpNext(cl, 3, 0x1dd2dcbdfd0f59, 16, 0x1dd2dcbdfd, known, 9, 0xee96e5e);
  }

  lemma {:induction false} LastOps(cl: seq<nat>, known: seq<nat>)
    requires cl == ClRuns() && OpsAt(cl, OPS[..4], 0x1dd2dcbdfd0f59, 25, 0xee96e5e, known)
    ensures OpsAt(cl, OPS, 0x1dd2dcbdfd0f59, 41, 0xee9, known + Run(0, 10) + Run(0, 7) + [1] + [1])
  {
    hide At, OpsAt, ClRuns, SymField, Used, Pow2;
    ClSymbols(cl);
    Pow2Values();
    var known := known;
    AtTwo(0xee96e5e, Field(2, 2, Codeword), 0x3ba5b97, Field(7, 3), 0x774b72);
    OpNext(cl, 4, 0x1dd2dcbdfd0f59, 25, 0xee96e5e, known, 5, 0x774b72);
    known := known + Run(0, 10);
    AtTwo(0x774b72, Field(2, 2, Codeword), 0x1dd2dc, Field(4, 3), 0x3ba5b);
    OpNext(cl, 5, 0x1dd2dcbdfd0f59, 30, 0x774b72, known, 5, 0x3ba5b);
    known := known + Run(0, 7);
    AtOne(0x3ba5b, Field(3, 3, Codeword), 0x774b);
    OpNext(cl, 6, 0x1dd2dcbdfd0f59, 35, 0x3ba5b, known, 3, 0x774b);
    known := known + [1];
    AtOne(0x774b, Field(3, 3, Codeword), 0xee9);
    OpNext(cl, 7, 0x1dd2dcbdfd0f59, 38, 0x774b, known, 3, 0xee9);
    assert OPS[..8] == OPS;
  }

  /** The code lengths the operations give: 3 for four letters, 1 for the end mark and for the distance symbol. */
  function LitRuns(): seq<nat> {
    Run(0, 97) + Run(3, 4) + Run(0, 155) + Run(1, 1)
  }

  lemma {:induction false} DynamicLengths(cl: seq<nat>)
    requires cl == ClRuns()
    ensures OpsAt(cl, OPS, 0x1dd2dcbdfd0f59, 41, 0xee9, LitRuns() + Run(1, 1))
  {
    hide OpsAt, ClRuns;
    FirstOps(cl);
    LastOps(cl, Run(0, 97) + [3] + Run(3, 3) + Run(0, 138));
    RunsJoin();
  }

  lemma {:induction false} RunsJoin()
    ensures Run(0, 97) + [3] + Run(3, 3) + Run(0, 138) + Run(0, 10) + Run(0, 7) + [1] + [1] == LitRuns() + Run(1, 1)
  {
    assert [3] + Run(3, 3) == Run(3, 4);
    assert Run(0, 138) + Run(0, 10) + Run(0, 7) == Run(0, 155);
    assert [1] == Run(1, 1);
  }

  lemma {:induction false} LitCounts(s: nat)
    requires s > 0
    ensures Count(LitRuns(), s) == if s == 3 then 4 else if s == 1 then 1 else 0
    ensures Count(Run(0, 97) + Run(3, 4) + Run(0, 155), 1) == 0
  {
    hide Count, Run;
    CountRun(0, 97, s);
    CountRun(3, 4, s);
    CountRun(0, 155, s);
    CountRun(1, 1, s);
    CountAppend(Run(0, 97), Run(3, 4), s);
    CountAppend(Run(0, 97) + Run(3, 4), Run(0, 155), s);
    CountAppend(Run(0, 97) + Run(3, 4) + Run(0, 155), Run(1, 1), s);
    NoOnes();
  }

  lemma {:induction false} NoOnes()
    ensures Count(Run(0, 97) + Run(3, 4) + Run(0, 155), 1) == 0
  {
    hide Count, Run;
    CountRun(0, 97, 1);
    CountRun(3, 4, 1);
    CountRun(0, 155, 1);
    CountAppend(Run(0, 97), Run(3, 4), 1);
    CountAppend(Run(0, 97) + Run(3, 4), Run(0, 155), 1);
  }

  /** The letters have the codes 100 to 111. */
  lemma {:induction false} LetterCode(lit: seq<nat>, j: nat)
    requires lit == LitRuns() && j < 4
    ensures Used(lit, 97 + j) && lit[97 + j] == 3 && Code(lit, 97 + j) == 4 + j
  {
    hide Count, First, Code;
    LitCounts(1);
    LitCounts(2);
    FirstStep(lit, 2);
    FirstStep(lit, 3);
    CountRun(0, 97, 3);
    CountRun(3, j, 3);
    CountAppend(Run(0, 97), Run(3, j), 3);
    CodeBehind(lit, Run(0, 97) + Run(3, j), 97 + j, 3);
  }

  /** The end mark is the code 0. */
  lemma {:induction false} EndCode(lit: seq<nat>)
    requires lit == LitRuns()
    ensures Used(lit, 256) && EndField(lit) == Field(0, 1, BlockEnd)
  {
    hide Count, First, Code, Rev;
    NoOnes();
    FirstStep(lit, 1);
    CodeBehind(lit, Run(0, 97) + Run(3, 4) + Run(0, 155), 256, 1);
    RevSmall();
  }


  lemma {:induction false} LetterMore(lit: seq<nat>, dist: seq<nat>, j: nat, code: nat, v: nat, u: nat, u': nat)
    requires lit == LitRuns() && j < 4 && code == Rev(4 + j, 3) && u == code + 8 * u'
    requires TokensAt(lit, dist, LETTERS[..j], v, 3 * j, u, [97, 98, 99, 100][..j])
    ensures TokensAt(lit, dist, LETTERS[..j + 1], v, 3 * (j + 1), u', [97, 98, 99, 100][..j + 1])
  {
    hide At, TokensAt, LitRuns, Used, Code, Rev, Pow2;
    LetterCode(lit, j);
    Pow2Values();
    var t := Literal(97 + j);
    assert LETTERS[j] == t;
    AtOne(u, Field(code, 3, Codeword), u');
    TokenMore(lit, dist, LETTERS[..j], v, 3 * j, u, [97, 98, 99, 100][..j], t, 3, u');
    assert LETTERS[..j] + [t] == LETTERS[..j + 1];
    assert [97, 98, 99, 100][..j] + [97 + j] == [97, 98, 99, 100][..j + 1];
  }

  lemma {:induction false} LettersAt(lit: seq<nat>, dist: seq<nat>)
    requires lit == LitRuns()
    ensures BodyOk(lit, dist, LETTERS, 0) && At(0xee9, BodyFields(lit, dist, LETTERS), 13, 0)
    ensures Expand(lit, dist, LETTERS, []) == [97, 98, 99, 100]
  {
    hide At, LitRuns, Used, Rev, BodyOk, BodyFields, EndField, TokensOk, DistancesOk, Expand, Pow2;
    RevSmall();
    Pow2Values();
    NoTokens(lit, dist, 0xee9);
    assert LETTERS[..0] == [] && [97, 98, 99, 100][..0] == [];
    LetterMore(lit, dist, 0, 1, 0xee9, 0xee9, 0x1dd);
    LetterMore(lit, dist, 1, 5, 0xee9, 0x1dd, 0x3b);
    LetterMore(lit, dist, 2, 3, 0xee9, 0x3b, 7);
    LetterMore(lit, dist, 3, 7, 0xee9, 7, 0);
    assert LETTERS[..4] == LETTERS && [97, 98, 99, 100][..4] == [97, 98, 99, 100];
    EndCode(lit);
    AtOne(0, Field(0, 1, BlockEnd), 0);
    BodyAt(lit, dist, LETTERS, 0xee9, 12, 0, [97, 98, 99, 100], 1, 0);
  }

  lemma {:induction false} DynamicKraft()
    ensures KraftSum(LitRuns(), MAX_LEN) == Pow2(MAX_LEN) && KraftSum(Run(1, 1), MAX_LEN) <= Pow2(MAX_LEN)
  {
    hide KraftSum, Run, Pow2;
    Pow2Values();
    KraftRun(0, 97, MAX_LEN);
    KraftRun(3, 4, MAX_LEN);
    KraftRun(0, 155, MAX_LEN);
    KraftRun(1, 1, MAX_LEN);
    KraftAppend(Run(0, 97), Run(3, 4), MAX_LEN);
    KraftAppend(Run(0, 97) + Run(3, 4), Run(0, 155), MAX_LEN);
    KraftAppend(Run(0, 97) + Run(3, 4) + Run(0, 155), Run(1, 1), MAX_LEN);
  }

  // The block

  lemma {:induction false} DynamicHeader()
    ensures HeaderOk(HEADER) && LitLens(HEADER) == LitRuns() && DistLens(HEADER) == Run(1, 1)
    ensures At(0x1dd2dcbdfd0f596006000000024b800, HeaderFields(HEADER), 109, 0xee9)
  {
    hide At, ClRuns, ClLens, ClFields, OpsFields, OpOk, Lengths, KraftSum, CL, OPS, Pow2;
    ClSmall();
    var cl := ClLens(CL);
    DynamicClLens();
    DynamicCl();
    DynamicLengths(cl);
    ClKraft();
    DynamicKraft();
    CountsAt();
    AtAppend(0x1dd2dcbdfd0f596006000000024b800, CountFields(257, 1, 18), 14, 0x774b72f7f43d658018000000092, ClFields(CL), 54, 0x1dd2dcbdfd0f59);
    AtAppend(0x1dd2dcbdfd0f596006000000024b800, CountFields(257, 1, 18) + ClFields(CL), 68, 0x1dd2dcbdfd0f59, OpsFields(cl, OPS), 41, 0xee9);
    assert (LitRuns() + Run(1, 1))[..257] == LitRuns() && (LitRuns() + Run(1, 1))[257..] == Run(1, 1);
  }

  lemma {:induction false} ClSmall()
    ensures |CL| == 18 && forall i :: 0 <= i < |CL| ==> CL[i] < 8
  {
  }

  lemma {:induction false} CountsAt()
    ensures At(0x1dd2dcbdfd0f596006000000024b800, CountFields(257, 1, 18), 14, 0x774b72f7f43d658018000000092)
  {
    hide At, Pow2;
    Pow2Values();
    AtTwo(0x1dd2dcbdfd0f596006000000024b800, Field(0, 5), 0xee96e5efe87acb0030000000125c0, Field(0, 5), 0x774b72f7f43d658018000000092e);
    AtOne(0x774b72f7f43d658018000000092e, Field(14, 4), 0x774b72f7f43d658018000000092);
    AtAppend(0x1dd2dcbdfd0f596006000000024b800, [Field(0, 5), Field(0, 5)], 10, 0x774b72f7f43d658018000000092e, [Field(14, 4)], 4, 0x774b72f7f43d658018000000092);
    assert [Field(0, 5), Field(0, 5)] + [Field(14, 4)] == CountFields(257, 1, 18);
  }

  /** The sixteen bytes hold the block. */
  lemma {:induction false} DynamicStream()
    ensures Contains(DYNAMIC, false, [Dynamic(HEADER, LETTERS)])
    ensures Encode([Dynamic(HEADER, LETTERS)], true).value.out == [97, 98, 99, 100]
  {
    hide At, HeaderOk, HeaderFields, TokensOk, Used, DistancesOk, BodyFields, Expand, LitLens, DistLens, LitRuns, Contains, Encode, LETTERS, HEADER, LE;
    DynamicHeader();
    LettersAt(LitRuns(), Run(1, 1));
    DynamicNumber();
    AtAppend(0x1dd2dcbdfd0f596006000000024b800, HeaderFields(HEADER), 109, 0xee9, BodyFields(LitRuns(), Run(1, 1), LETTERS), 13, 0);
    DynamicLength();
    BlockAt(Dynamic(HEADER, LETTERS), [97, 98, 99, 100], DYNAMIC, 0xee96e5efe87acb0030000000125c005, 0x1dd2dcbdfd0f596006000000024b800, 122, 0);
  }

  lemma {:induction false} DynamicLength()
    ensures |DYNAMIC| == 16
  {
  }

  /** stbi_zlib_decode_noheader on the sixteen bytes. */
  method DecodeDynamic(initial: nat) returns (ok: bool, out: seq<byte>)
    requires 0 < initial <= UINT_MAX
    ensures ok && out == [97, 98, 99, 100]
  {
    hide Serves, Contains, Encode, Most, HEADER, LETTERS, DYNAMIC;
    DynamicStream();
    ContainedServed(DYNAMIC, false, [Dynamic(HEADER, LETTERS)]);
    assert Inflates(DYNAMIC, Capacity(initial, true), false, [Dynamic(HEADER, LETTERS)]);
    ghost var bs;
    ok, out, bs := DoZlib(DYNAMIC, initial, true, false, [Dynamic(HEADER, LETTERS)]);
  }

  // ------------------------------------------------------------------
  // A stored block of one byte
  // ------------------------------------------------------------------

  const STORED: seq<byte> := [0x01, 0x01, 0x00, 0xFE, 0xFF, 0x61]

  /** Whole bytes stand at the front of a number: left[k] is what is left of it from byte k on. */
  lemma {:induction false} BytesFrom(s: seq<byte>, kind: Kind, left: seq<nat>)
    requires |left| == |s| + 1 && forall k :: 0 <= k < |s| ==> left[k] == s[k] + 256 * left[k + 1]
    ensures At(left[0], ByteFields(s, kind), 8 * |s|, left[|s|])
    decreases |s|
  {
    hide At, Pow2;
    if s == [] {
      AtNone(left[0]);
      assert ByteFields(s, kind) == [];
    } else {
      var n := |s| - 1;
      BytesFrom(s[..n], kind, left[..n + 1]);
      Pow2Values();
      AtOne(left[n], Field(s[n], 8, kind), left[n + 1]);
      AtAppend(left[0], ByteFields(s[..n], kind), 8 * n, left[n], [Field(s[n], 8, kind)], 8, left[n + 1]);
      assert ByteFields(s[..n], kind) + [Field(s[n], 8, kind)] == ByteFields(s, kind);
    }
  }

  /** The six bytes hold the block. */
  lemma {:induction false} StoredStream()
    ensures Contains(STORED, false, [Stored(0, [97])]) && Encode([Stored(0, [97])], true).value.out == [97]
  {
    hide At, ByteFields, Contains, Encode, LE, Pow2;
    Pow2Values();
    LEFrom(STORED, [0x61FFFE000101, 0x61FFFE0001, 0x61FFFE00, 0x61FFFE, 0x61FF, 0x61, 0]);
    assert StoredHead(1) == [1, 0, 0xFE, 0xFF] && Padding(3) == 5;
    BytesFrom([1, 0, 0xFE, 0xFF], Aligned, [0x61FFFE0001, 0x61FFFE00, 0x61FFFE, 0x61FF, 0x61]);
    BytesFrom([97], Data, [0x61, 0]);
    AtAppend(0x61FFFE0001, ByteFields(StoredHead(1), Aligned), 32, 0x61, ByteFields([97], Data), 8, 0);
    var fs := ByteFields(StoredHead(1), Aligned) + ByteFields([97], Data);
    AtOne(0xC3FFFC00020, Field(0, 5), 0x61FFFE0001);
    AtAppend(0xC3FFFC00020, [Field(0, 5)], 5, 0x61FFFE0001, fs, 40, 0);
    BlockAt(Stored(0, [97]), [97], STORED, 0x61FFFE000101, 0xC3FFFC00020, 45, 0);
  }

  /** stbi_zlib_decode_noheader on the six bytes. */
  method DecodeStored(initial: nat) returns (ok: bool, out: seq<byte>)
    requires 0 < initial <= UINT_MAX
    ensures ok && out == [97]
  {
    hide Serves, Contains, Encode, Most, STORED;
    StoredStream();
    ContainedServed(STORED, false, [Stored(0, [97])]);
    assert Inflates(STORED, Capacity(initial, true), false, [Stored(0, [97])]);
    ghost var bs;
    ok, out, bs := DoZlib(STORED, initial, true, false, [Stored(0, [97])]);
  }
}
