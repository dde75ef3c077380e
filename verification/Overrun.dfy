/**
  How far an accepted stream may run past the end of its data.

  stb_image.h reads zero bits past the end and notices only some of the streams
  that use them.  Exactly which ones it takes is what Zlib.Serves says; here are
  a stream that is accepted although it is cut short, and the bound that every
  accepted stream keeps.
*/
module Overrun {
  import opened Bits
  import opened Canonical
  import opened ZHuffman
  import opened Deflate
  import opened Supply
  import opened Inflate
  import opened Zlib
  import opened Tables

  // ------------------------------------------------------------------
  // A truncated stream that is accepted
  // ------------------------------------------------------------------

  const EMPTY_FIXED: seq<Block> := [Fixed([])]
  const TRUNCATED: seq<byte> := [3]

  /** One fixed block without any symbol: three header bits and the seven bits of the end mark. */
  lemma {:induction false} EmptyFixed()
    ensures Encode(EMPTY_FIXED, true) == Some(Encoded([Field(1, 1), Field(1, 2), Field(0, 7, BlockEnd)], []))
  {
    hide FixedLit, FixedDist, BodyFields, BodyOk, Expand, EndField, Encode;
    FixedEnd();
    NoSymbols(FixedLit(), FixedDist());
    OneBlock(Fixed([]));
    assert [Field(1, 1), Field(1, 2)] + [Field(0, 7, BlockEnd)] == [Field(1, 1), Field(1, 2), Field(0, 7, BlockEnd)];
  }

  lemma {:induction false} NoSymbols(lit: seq<nat>, dist: seq<nat>)
    requires Used(lit, 256)
    ensures BodyOk(lit, dist, [], 0) && BodyFields(lit, dist, []) == [EndField(lit)] && Expand(lit, dist, [], []) == []
  {
    hide EndField;
  }

  lemma {:induction false} OneBlock(b: Block)
    requires BlockOk(b, 0, 0)
    ensures Encode([b], true) == Some(Encoded(BlockHead(b, true) + BlockFields(b, 0, 0), BlockOutput(b, 0, [])))
  {
    hide BlockOk, BlockHead, BlockFields, BlockOutput;
    assert [b][..0] == [];
    NoBlocks(0, Fresh(0));
    var fs := BlockHead(b, true) + BlockFields(b, 0, 0);
    assert [] + fs == fs;
  }

  lemma {:induction false} FixedEnd()
    ensures Used(FixedLit(), 256) && EndField(FixedLit()) == Field(0, 7, BlockEnd)
  {
    FixedCode(256);
    RevZero(7);
    hide Rev, Code;
  }

  /** One byte holds eight of the ten bits, and the supply lasts. */
  lemma {:induction false} TruncatedServed()
    ensures Serves(TRUNCATED, false, EMPTY_FIXED) && !Contains(TRUNCATED, false, EMPTY_FIXED)
    ensures Width(Encode(EMPTY_FIXED, true).value.fields) == 10
  {
    EmptyFixed();
    var fs := Encode(EMPTY_FIXED, true).value.fields;
    assert Body(TRUNCATED, false) == TRUNCATED;
    ThreeFields(3, fs[0], fs[1], fs[2]);
    TruncatedBits();
    RestThree(Fresh(1), fs[0], fs[1], fs[2]);
    TruncatedSupply();
    hide Encode, Low, Shr, LE, Next, Rest, Starts, Width;
  }

  lemma {:induction false} TruncatedBits()
    ensures LE(TRUNCATED) == 3 && Low(3, 1) == 1 && Low(Shr(3, 1), 2) == 1 && Low(Shr(Shr(3, 1), 2), 7) == 0
  {
    assert LE([]) == 0;
    assert TRUNCATED[1..] == [];
    assert Shr(3, 1) == 1 && Shr(1, 2) == 0;
    ZeroShr(7);
  }

  /** The first refill brings the byte and three zero bytes: 22 bits are in hand after the end mark. */
  lemma {:induction false} TruncatedSupply()
    ensures Next(Next(Next(Fresh(1), Field(1, 1)), Field(1, 2)), Field(0, 7, BlockEnd)) == Hand(22, 0, 24, false)
  {
    assert Filled(Hand(16, 0, 8, false)) == Hand(32, 0, 24, false);
    assert Filled(Fresh(1)) == Hand(32, 0, 24, false);
  }

  /** stbi_zlib_decode_noheader on the single byte 3 succeeds with no output. */
  method DecodeTruncated(initial: nat, expandable: bool) returns (ok: bool, out: seq<byte>)
    requires initial <= UINT_MAX && (expandable ==> 0 < initial)
    ensures ok && out == []
  {
    hide Serves, Encode, Most;
    TruncatedServed();
    EmptyFixed();
    assert Inflates(TRUNCATED, Capacity(initial, expandable), false, EMPTY_FIXED);
    ghost var bs;
    ok, out, bs := DoZlib(TRUNCATED, initial, expandable, false, EMPTY_FIXED);
  }

  // ------------------------------------------------------------------
  // The bound
  // ------------------------------------------------------------------

  /** v has no bits at or above position r. */
  predicate Below(v: nat, r: int) {
    if r > 0 then v < Pow2(r) else v == 0
  }

  lemma {:induction false} BelowShr(v: nat, r: int, w: nat)
    requires Below(v, r)
    ensures Below(Shr(v, w), r - w)
  {
    if r > w {
      ShrBound(v, r, w);
    } else if r > 0 {
      LowSmall(v, r);
      TakeTwice(v, r, w - r);
      ZeroShr(w - r);
    } else {
      ZeroShr(w);
    }
  }

  lemma {:induction false} LEBelow(s: seq<byte>)
    ensures LE(s) < Pow2(8 * |s|)
    decreases |s|
  {
    if s != [] {
      LEBelow(s[1..]);
      ByteSize();
      Pow2Add(8, 8 * |s[1..]|);
    }
  }

  /** Only the end mark can stand in a stream of zeros that goes on to the end mark. */
  lemma {:induction false} TokenNotZero(lit: seq<nat>, dist: seq<nat>, t: Token)
    requires Accepted(lit, MAX_LEN) && TokenOk(lit, dist, t) && !t.EndOfBlock? && Used(lit, 256)
    ensures !(Starts(0, TokenFields(lit, dist, t)) && Starts(0, [EndField(lit)]))
  {
    hide Accepted, SymField, TailOk, TailFields, Low, Shr;
    var i := TokenSymbol(t);
    SymbolField(lit, i, 0);
    SymbolField(lit, 256, 0);
    EndMark(lit, dist, 0);
    OneField(0, SymField(lit, 256));
    SymbolKind(lit, i);
    SymbolKind(lit, 256);
    if Matches(lit, i, 0) && Matches(lit, 256, 0) {
      MatchUnique(lit, i, 256, 0);
    }
  }

  /** Behind its first symbol a token takes at most 33 bits. */
  lemma {:induction false} TokenWidth(lit: seq<nat>, dist: seq<nat>, t: Token)
    requires TokenOk(lit, dist, t)
    ensures Width(TokenFields(lit, dist, t)) <= lit[TokenSymbol(t)] + 33
  {
    hide SymField, LENGTH_EXTRA, DIST_EXTRA, Pow2;
    ExtraSizes();
    SymbolKind(lit, TokenSymbol(t));
    OneField(0, SymField(lit, TokenSymbol(t)));
    if t.Copy? {
      SymbolKind(dist, t.dsym);
      ThreeFields(0, Field(t.lextra, LENGTH_EXTRA[t.lsym]), SymField(dist, t.dsym), Field(t.dextra, DIST_EXTRA[t.dsym]));
      StartsAppend(0, [SymField(lit, 257 + t.lsym)], TailFields(dist, t));
    }
  }

  // ------------------------------------------------------------------
  // End marks that are read from zeros
  // ------------------------------------------------------------------

  /** The end mark is all zeros. */
  predicate EndIsZero(lit: seq<nat>) {
    Used(lit, 256) && Code(lit, 256) == 0
  }

  lemma {:induction false} ZeroEnd(lit: seq<nat>)
    requires Accepted(lit, MAX_LEN) && Used(lit, 256) && Starts(0, [EndField(lit)])
    ensures EndIsZero(lit)
  {
    hide Accepted, SymField, Code;
    EndMark(lit, [], 0);
    OneField(0, SymField(lit, 256));
    SymbolKind(lit, 256);
    SymbolField(lit, 256, 0);
    RevZero(lit[256]);
  }

  /** Then no code is shorter, and none of a literal is as short. */
  lemma {:induction false} EndShortest(lit: seq<nat>, i: nat)
    requires EndIsZero(lit) && Used(lit, i)
    ensures lit[i] >= lit[256] && (i < 256 ==> lit[i] > lit[256])
  {
    hide Shl, Pow2, Count;
    var s, e := lit[i], lit[256];
    RankBelowCount(lit, i);
    if s < e {
      LongerCodesAbove(lit, s, e);
      ShlPow(Limit(lit, s), e - s);
      MulMono(1, Limit(lit, s), Pow2(e - s));
    } else if i < 256 && s == e {
      assert lit[..256][i] == e;
      RankBelowCount(lit[..256], i);
    }
  }

  /** What the codes of at most n bits take, if the end mark is all zeros: literals weigh half as much at most. */
  function Share(k: nat): nat {
    if k <= 256 then k else 256 + 2 * (k - 256)
  }

  lemma {:induction false} KraftShare(lit: seq<nat>, n: nat, k: nat)
    requires EndIsZero(lit) && lit[256] <= n && k <= |lit|
    ensures 2 * KraftSum(lit[..k], n) <= Share(k) * Pow2(n - lit[256])
    decreases k
  {
    hide Pow2, Code, Share;
    if k == 0 {
      NoShare(n, Pow2(n - lit[256]));
    } else {
      KraftShare(lit, n, k - 1);
      assert lit[..k][..k - 1] == lit[..k - 1];
      ShareOf(lit, n, k - 1);
      MulSum(Share(k - 1), Share(k) - Share(k - 1), Pow2(n - lit[256]));
    }
  }

  lemma {:induction false} NoShare(n: nat, p: nat)
    ensures KraftSum([], n) == 0 && Share(0) * p == 0
  {
  }

  lemma {:induction false} MulSum(a: int, b: int, c: int)
    ensures a * c + b * c == (a + b) * c
  {
  }

  lemma {:induction false} ShareOf(lit: seq<nat>, n: nat, i: nat)
    requires EndIsZero(lit) && i < |lit| && lit[256] <= n
    ensures 2 * (if 0 < lit[i] <= n then Pow2(n - lit[i]) else 0) <= (Share(i + 1) - Share(i)) * Pow2(n - lit[256])
  {
    hide Pow2, Code;
    var p := Pow2(n - lit[256]);
    if 0 < lit[i] <= n {
      if lit[i] <= MAX_LEN {
        EndShortest(lit, i);
      }
      if i < 256 {
        Pow2Mono(n - lit[i] + 1, n - lit[256]);
        Pow2Step(n - lit[i] + 1);
      } else {
        Pow2Mono(n - lit[i], n - lit[256]);
      }
    }
    assert Share(i + 1) - Share(i) == if i < 256 then 1 else 2;
  }

  /** A code of n bits whose last n - r bits are zero: the end mark is then at most seven bits longer than the rest. */
  lemma {:induction false} TailOfZeros(lit: seq<nat>, i: nat, r: nat)
    requires EndIsZero(lit) && |lit| <= 288 && Used(lit, i) && r < lit[i] && Code(lit, i) >= Pow2(lit[i] - r)
    ensures lit[256] <= r + 7
  {
    hide Pow2, KraftSum, First, Share;
    var n, e := lit[i], lit[256];
    EndShortest(lit, i);
    RankBelowCount(lit, i);
    LimitIsKraft(lit, n);
    assert lit[..|lit|] == lit;
    KraftShare(lit, n, |lit|);
    FullShare(|lit|, Pow2(n - e));
    if e > r + 7 {
      Pow2Mono(n - e + 8, n - r);
      Pow2Add(n - e, 8);
      ByteSize();
    }
  }

  lemma {:induction false} FullShare(k: nat, p: nat)
    requires k <= 288
    ensures Share(k) * p <= 320 * p
  {
    MulMono(Share(k), 320, p);
  }

  /** A code read from fewer than its bits, zeros following. */
  lemma {:induction false} CodeFromFew(c: nat, n: nat, v: nat, r: nat)
    requires Low(v, n) == Rev(c, n) && c < Pow2(n) && c != 0 && v < Pow2(r) && r < n
    ensures c >= Pow2(n - r)
  {
    hide Pow2, Low, Rev, Shr;
    var f := Rev(c, n);
    Pow2Mono(r, n);
    LowSmall(v, n);
    RevTwice(c, n);
    LowSmall(c, n);
    RevSplit(v, r, n - r);
    LowSmall(v, r);
    RevZero(n - r);
    if Rev(v, r) == 0 {
      MulZero(Pow2(n - r), Rev(v, r));
    } else {
      MulMono(1, Rev(v, r), Pow2(n - r));
    }
  }

  lemma {:induction false} MulZero(a: nat, b: nat)
    requires b == 0
    ensures a * b == 0
  {
  }

  /** The end mark takes at most 15 bits. */
  lemma {:induction false} EndTakes(lit: seq<nat>, h: Hand)
    requires Used(lit, 256) && Sound(h) && Rest(h, [EndField(lit)]).Hand?
    ensures var g := Rest(h, [EndField(lit)]); Sound(g) && Real(g) == Real(h) - lit[256] >= Real(h) - 15
  {
    hide Rest, Next, Code;
    RestOne(h, EndField(lit));
    NextReal(h, EndField(lit));
  }

  /** A block body ends at most 55 bits past the data, or it has no symbols and its end mark adds at most 15 bits. */
  lemma {:induction false} BodyOverrun(lit: seq<nat>, dist: seq<nat>, ts: seq<Token>, v: nat, h: Hand)
    requires Accepted(lit, MAX_LEN) && |lit| <= 288 && TokensOk(lit, dist, ts) && Used(lit, 256)
    requires Starts(v, BodyFields(lit, dist, ts)) && Rest(h, BodyFields(lit, dist, ts)).Hand?
    requires Sound(h) && Below(v, Real(h))
    ensures var g := Rest(h, BodyFields(lit, dist, ts));
      Sound(g) && (Real(g) >= -55 || (ts == [] && Real(g) >= Real(h) - 15))
  {
    hide Accepted, TokensFields, TokenFields, TokenOk, EndField, Used, Rest, Starts, Width, Shr, Sound, Real, Below;
    var fs, d := TokensFields(lit, dist, ts), [EndField(lit)];
    RestParts(h, fs, d);
    StartsAppend(v, fs, d);
    TokensFieldsOk(lit, dist, ts);
    WritableReads(fs);
    RestReal(h, fs);
    EndTakes(lit, Rest(h, fs));
    if ts == [] {
      NoTokens(lit, dist, v, h, []);
    } else {
      LastToken(lit, dist, ts, v, h);
    }
  }

  lemma {:induction false} LastToken(lit: seq<nat>, dist: seq<nat>, ts: seq<Token>, v: nat, h: Hand)
    requires Accepted(lit, MAX_LEN) && |lit| <= 288 && TokensOk(lit, dist, ts) && Used(lit, 256) && ts != []
    requires var fs := TokensFields(lit, dist, ts);
      Starts(v, fs) && Starts(Shr(v, Width(fs)), [EndField(lit)]) && Rest(h, fs).Hand?
    requires Sound(h) && Below(v, Real(h))
    ensures Sound(Rest(h, TokensFields(lit, dist, ts)))
    ensures Real(Rest(h, TokensFields(lit, dist, ts))) - lit[256] >= -55
  {
    hide Accepted, TokenFields, TokenOk, EndField, Rest, Starts, Width, Shr, Sound, Below, TokensFields,
         AllReadable, Writable;
    var n := |ts| - 1;
    var t := ts[n];
    assert ts == ts[..n] + [t];
    TokensSnoc(lit, dist, ts[..n], t);
    var a, b := TokensFields(lit, dist, ts[..n]), TokenFields(lit, dist, t);
    TokensFieldsOk(lit, dist, ts[..n]);
    TokenFieldsOk(lit, dist, t);
    WritableReads(a);
    WritableReads(b);
    ReadTwo(v, h, a, b);
    TokenThenEnd(lit, dist, t, Shr(v, Width(a)), Real(Rest(h, a)));
  }

  /** A token and the end mark behind it, r real bits from the end. */
  lemma {:induction false} TokenThenEnd(lit: seq<nat>, dist: seq<nat>, t: Token, v: nat, r: int)
    requires Accepted(lit, MAX_LEN) && |lit| <= 288 && TokenOk(lit, dist, t) && !t.EndOfBlock? && Used(lit, 256)
    requires Starts(v, TokenFields(lit, dist, t)) && Starts(Shr(v, Width(TokenFields(lit, dist, t))), [EndField(lit)])
    requires Below(v, r)
    ensures r - Width(TokenFields(lit, dist, t)) - lit[256] >= -55
  {
    hide Accepted, TokenFields, EndField, Starts, Width, Shr, TailOk, Pow2, Code, Low, Rev;
    var w, i := Width(TokenFields(lit, dist, t)), TokenSymbol(t);
    TokenWidth(lit, dist, t);
    TokenNotZero(lit, dist, t);
    BelowShr(v, r, w);
    ZeroShr(w);
    if r - w < 1 {
      ZeroEnd(lit);
      if r < lit[i] {
        FirstSymbol(lit, dist, t, v);
        CodeBound(lit, i);
        CodeNotZero(lit, i);
        CodeFromFew(Code(lit, i), lit[i], v, r);
        TailOfZeros(lit, i, r);
      }
    }
  }

  lemma {:induction false} FirstSymbol(lit: seq<nat>, dist: seq<nat>, t: Token, v: nat)
    requires TokenOk(lit, dist, t) && Starts(v, TokenFields(lit, dist, t))
    ensures Low(v, lit[TokenSymbol(t)]) == Rev(Code(lit, TokenSymbol(t)), lit[TokenSymbol(t)])
  {
    hide Code, Low, Rev, Shr, TailFields, TailOk;
  }

  /** No other code is all zeros. */
  lemma {:induction false} CodeNotZero(lit: seq<nat>, i: nat)
    requires EndIsZero(lit) && Used(lit, i) && i != 256
    ensures Code(lit, i) != 0
  {
    hide Code;
    RevZero(lit[i]);
    RevZero(lit[256]);
    if Code(lit, i) == 0 {
      MatchUnique(lit, i, 256, 0);
    }
  }

  /** Two stretches of fields read in turn. */
  lemma {:induction false} ReadTwo(v: nat, h: Hand, a: seq<Field>, b: seq<Field>)
    requires AllReadable(a) && AllReadable(b) && Starts(v, a + b) && Rest(h, a + b).Hand?
    requires Sound(h) && Below(v, Real(h))
    ensures Rest(h, a).Hand? && Below(Shr(v, Width(a)), Real(Rest(h, a)))
    ensures Sound(Rest(h, a + b)) && Real(Rest(h, a + b)) == Real(Rest(h, a)) - Width(b)
    ensures Starts(Shr(v, Width(a)), b) && Shr(v, Width(a + b)) == Shr(Shr(v, Width(a)), Width(b))
  {
    hide Rest, Starts, Width, Shr, Real, Below, AllReadable;
    RestParts(h, a, b);
    StartsAppend(v, a, b);
    RestReal(h, a);
    RestReal(Rest(h, a), b);
    TakeTwice(v, Width(a), Width(b));
    BelowShr(v, Real(h), Width(a));
  }

  lemma {:induction false} NonzeroReal(v: nat, r: int, w: nat)
    requires Below(v, r)
    ensures v == 0 ==> Shr(v, w) == 0
    ensures r >= 1 || v == 0
  {
    ZeroShr(w);
  }

  // ------------------------------------------------------------------
  // Dynamic headers
  // ------------------------------------------------------------------

  /** The zero bits invented so far, with the sixteen that may still be granted. */
  function Invented(h: Hand): nat
    requires h.Hand?
  {
    h.extra + if h.hit then 0 else 16
  }

  /** A code length operation never refills the buffer past the end of the input. */
  lemma {:induction false} OpInvents(cl: seq<nat>, op: LenOp, h: Hand)
    requires OpOk(cl, op) && cl[OpSymbol(op)] <= 7 && Sound(h) && Rest(h, OpFields(cl, op)).Hand?
    ensures var g := Rest(h, OpFields(cl, op)); Sound(g) && (Invented(g) <= Invented(h) || Invented(g) <= 40)
  {
    hide Next, Rest, SymField, Invented, Sound;
    var f, x := SymField(cl, OpSymbol(op)), if op.One? then Field(0, 0) else Field(op.extra, OpExtra(op));
    SymbolKind(cl, OpSymbol(op));
    RestOne(h, f);
    RestTwo(h, f, x);
    NextDry(x);
    SymbolInvents(h, f);
    SmallNumber(Next(h, f), x);
  }

  lemma {:induction false} SymbolInvents(h: Hand, f: Field)
    requires Sound(h) && f.kind.Codeword? && f.width <= 7 && Next(h, f).Hand?
    ensures var g := Next(h, f); Sound(g) && g.bits >= 9 && (Invented(g) <= Invented(h) || Invented(g) <= 40)
  {
    if h.bits < 16 && h.left > 0 {
      FilledSound(h);
    }
    hide Filled;
  }

  lemma {:induction false} SmallNumber(h: Hand, f: Field)
    requires Sound(h) && f.kind.Number? && f.width <= 7 && h.bits >= 9
    ensures Sound(Next(h, f)) && Invented(Next(h, f)) == Invented(h)
  {
  }

  lemma {:induction false} OpsInvent(cl: seq<nat>, ops: seq<LenOp>, h: Hand)
    requires OpsOk(cl, ops) && (forall i :: 0 <= i < |cl| ==> cl[i] <= 7)
    requires Sound(h) && Rest(h, OpsFields(cl, ops)).Hand?
    ensures var g := Rest(h, OpsFields(cl, ops)); Sound(g) && (Invented(g) <= Invented(h) || Invented(g) <= 40)
    decreases |ops|
  {
    hide Rest, OpFields, OpOk, Invented, Sound;
    if ops == [] {
      RestOne(h, Field(0, 0));
    } else {
      var n := |ops| - 1;
      RestParts(h, OpsFields(cl, ops[..n]), OpFields(cl, ops[n]));
      OpsInvent(cl, ops[..n], h);
      OpUses(cl, ops[n]);
      OpInvents(cl, ops[n], Rest(h, OpsFields(cl, ops[..n])));
    }
  }

  lemma {:induction false} OpUses(cl: seq<nat>, op: LenOp)
    requires OpOk(cl, op)
    ensures OpSymbol(op) < |cl|
  {
  }

  lemma {:induction false} ClLensSmall(cl: seq<nat>)
    requires |cl| <= 19 && forall i :: 0 <= i < |cl| ==> cl[i] < 8
    ensures forall i :: 0 <= i < 19 ==> ClLens(cl)[i] <= 7
    decreases |cl|
  {
    if cl != [] {
      ClLensSmall(cl[..|cl| - 1]);
    }
  }

  // ------------------------------------------------------------------
  // Headers whose code lengths are read from zeros
  // ------------------------------------------------------------------

  lemma {:induction false} OpIsZero(cl: seq<nat>, op: LenOp)
    requires Accepted(cl, MAX_LEN) && OpOk(cl, op) && Starts(0, OpFields(cl, op))
    ensures Matches(cl, OpSymbol(op), 0) && (op.One? || op.extra == 0)
  {
    hide Accepted, SymField, Low, Matches;
    SymbolKind(cl, OpSymbol(op));
    SymbolField(cl, OpSymbol(op), 0);
    ZeroShr(cl[OpSymbol(op)]);
    if op.One? {
      OneField(0, SymField(cl, OpSymbol(op)));
    } else {
      TwoFields(0, SymField(cl, OpSymbol(op)), Field(op.extra, OpExtra(op)));
      ZeroShr(OpExtra(op));
    }
  }

  /** Operations read from zeros are all the same. */
  lemma {:induction false} OpsAreSame(cl: seq<nat>, ops: seq<LenOp>, k: nat)
    requires Accepted(cl, MAX_LEN) && OpsOk(cl, ops) && Starts(0, OpsFields(cl, ops)) && k < |ops|
    ensures Matches(cl, OpSymbol(ops[k]), 0) && (ops[k].One? || ops[k].extra == 0)
    decreases |ops|
  {
    hide Accepted, OpOk, OpFields, Matches, OpSymbol, Low, OpLengths;
    var n := |ops| - 1;
    OpsLast(cl, ops);
    var a, b := OpsFields(cl, ops[..n]), OpFields(cl, ops[n]);
    StartsAppend(0, a, b);
    ZeroShr(Width(a));
    if k == n {
      OpIsZero(cl, ops[n]);
    } else {
      OpsAreSame(cl, ops[..n], k);
    }
  }

  lemma {:induction false} SameOp(cl: seq<nat>, a: LenOp, b: LenOp)
    requires Matches(cl, OpSymbol(a), 0) && (a.One? || a.extra == 0) && OpOk(cl, a)
    requires Matches(cl, OpSymbol(b), 0) && (b.One? || b.extra == 0) && OpOk(cl, b)
    ensures a == b
  {
    MatchUnique(cl, OpSymbol(a), OpSymbol(b), 0);
  }

  lemma {:induction false} SameLengths(ops: seq<LenOp>, z: LenOp)
    requires !z.Repeat? && forall k :: 0 <= k < |ops| ==> ops[k] == z
    ensures forall i :: 0 <= i < |Lengths(ops)| ==> Lengths(ops)[i] == if z.One? then z.len else 0
    decreases |ops|
  {
    if ops != [] {
      SameLengths(ops[..|ops| - 1], z);
    }
  }

  lemma {:induction false} CountSame(lens: seq<nat>, c: nat)
    requires forall i :: 0 <= i < |lens| ==> lens[i] == c
    ensures Count(lens, c) == |lens|
    decreases |lens|
  {
    if lens != [] {
      CountSame(lens[..|lens| - 1], c);
    }
  }

  /** Equal lengths do not make the end mark all zeros. */
  lemma {:induction false} EqualLengths(lit: seq<nat>, c: nat)
    requires Used(lit, 256) && forall i :: 0 <= i < |lit| ==> lit[i] == c
    ensures !EndIsZero(lit)
  {
    CountSame(lit[..256], c);
  }

  lemma {:induction false} HeaderFromZeros(h: Header)
    requires HeaderOk(h) && Used(LitLens(h), 256) && Starts(0, OpsFields(ClLens(h.cl), h.ops))
    ensures !EndIsZero(LitLens(h))
  {
    hide EndIsZero, KraftSum, ClLens, OpOk, OpsFields, Used, OpSymbol, Matches, DistLens, Lengths, OpLengths, Accepted;
    var cl, ops := ClLens(h.cl), h.ops;
    AcceptedIffKraft(cl, MAX_LEN);
    NoLengths();
    forall k | 0 <= k < |ops| ensures ops[k] == ops[0] {
      OpsAreSame(cl, ops, k);
      OpsAreSame(cl, ops, 0);
      SameOp(cl, ops[k], ops[0]);
    }
    SameLengths(ops, ops[0]);
    EqualLengths(LitLens(h), if ops[0].One? then ops[0].len else 0);
  }

  lemma {:induction false} NoLengths()
    ensures Lengths([]) == []
  {
  }

  /** A dynamic header ends at most 40 bits past the data, unless all its code lengths are read from zeros. */
  lemma {:induction false} HeaderOverrun(h: Header, held: Hand, v: nat)
    requires HeaderOk(h) && Used(LitLens(h), 256) && Sound(held) && Rest(held, HeaderFields(h)).Hand?
    requires Starts(v, HeaderFields(h)) && Below(v, Real(held)) && Starts(Shr(v, Width(HeaderFields(h))), [EndField(LitLens(h))])
    ensures var g := Rest(held, HeaderFields(h)); Sound(g) && Real(g) >= -40
  {
    hide Rest, Invented, CountFields, ClFields, OpsFields, ClLens, Lengths, LitLens, DistLens, Kraft, Width, OpsOk,
         Writable, Used, Accepted, Starts, Shr, Below, EndField, AllReadable;
    var a, b := CountFields(h.hlit, h.hdist, |h.cl|), ClFields(h.cl);
    var c := OpsFields(ClLens(h.cl), h.ops);
    CountFieldsOk(h.hlit, h.hdist, |h.cl|);
    ClFieldsOk(h.cl);
    OpsFieldsOk(ClLens(h.cl), h.ops);
    WritableAppend(a, b);
    WritableReads(a + b);
    WritableReads(c);
    ReadTwo(v, held, a + b, c);
    RestParts(held, a + b, c);
    ClLensSmall(h.cl);
    var g, u := Rest(held, a + b), Shr(v, Width(a + b));
    RestReal(held, a + b);
    NonzeroReal(u, Real(g), Width(c));
    OpsInvent(ClLens(h.cl), h.ops, g);
    InventedReal(Rest(g, c));
    if Real(g) >= 1 {
      FewInvented(g);
    } else {
      LitAccepted(h);
      ZeroEnd(LitLens(h));
      HeaderFromZeros(h);
    }
  }

  lemma {:induction false} FewInvented(h: Hand)
    requires Sound(h) && Real(h) >= 1
    ensures Invented(h) <= 40
  {
  }

  lemma {:induction false} InventedReal(h: Hand)
    requires Sound(h)
    ensures Real(h) + Invented(h) >= 0
  {
  }

  // ------------------------------------------------------------------
  // Whole streams
  // ------------------------------------------------------------------

  lemma {:induction false} DynamicOverrun(b: Block, at: nat, start: nat, v: nat, h: Hand)
    requires b.Dynamic? && BlockOk(b, at, start) && Starts(v, BlockFields(b, at, start))
    requires Rest(h, BlockFields(b, at, start)).Hand? && Sound(h) && Below(v, Real(h))
    ensures Real(Rest(h, BlockFields(b, at, start))) >= -55
  {
    hide HeaderOk, HeaderFields, BodyFields, LitLens, DistLens, TokensOk, DistancesOk, Starts, Width, Shr, Rest, Real,
         Below, Accepted, Writable, Used, EndField;
    var a := HeaderFields(b.header);
    DynamicParts(b, at, start, v, h);
    HeaderFieldsOk(b.header);
    WritableReads(a);
    RestReal(h, a);
    BelowShr(v, Real(h), Width(a));
    LitAccepted(b.header);
    LitSize(b.header);
    if b.tokens == [] {
      OnlyEnd(LitLens(b.header), DistLens(b.header));
      HeaderOverrun(b.header, h, v);
    }
    BodyOverrun(LitLens(b.header), DistLens(b.header), b.tokens, Shr(v, Width(a)), Rest(h, a));
  }

  lemma {:induction false} OnlyEnd(lit: seq<nat>, dist: seq<nat>)
    requires Used(lit, 256)
    ensures BodyFields(lit, dist, []) == [EndField(lit)]
  {
    hide EndField;
  }

  lemma {:induction false} LitSize(h: Header)
    requires HeaderOk(h)
    ensures |LitLens(h)| <= 288
  {
    hide Kraft, Lengths, ClLens, OpsOk, DistLens;
  }

  lemma {:induction false} LitAccepted(h: Header)
    requires HeaderOk(h)
    ensures Accepted(LitLens(h), MAX_LEN)
  {
    hide Accepted, LitLens, DistLens, Lengths, KraftSum;
    AcceptedIffKraft(LitLens(h), MAX_LEN);
  }

  lemma {:induction false} FixedOverrun(b: Block, at: nat, start: nat, v: nat, h: Hand)
    requires b.Fixed? && BlockOk(b, at, start) && Starts(v, BlockFields(b, at, start))
    requires Rest(h, BlockFields(b, at, start)).Hand? && Sound(h) && Real(h) >= -2 && Below(v, Real(h))
    ensures Real(Rest(h, BlockFields(b, at, start))) >= -55
  {
    hide BodyFields, FixedLit, FixedDist, TokensOk, DistancesOk, Starts, Rest, Sound, Real, Below, Accepted, KraftSum;
    FixedKraft();
    AcceptedIffKraft(FixedLit(), MAX_LEN);
    BodyOverrun(FixedLit(), FixedDist(), b.tokens, v, h);
  }

  lemma {:induction false} StoredOverrun(b: Block, at: nat, start: nat, n: nat, h: Hand)
    requires b.Stored? && BlockOk(b, at, start) && Rest(h, BlockFields(b, at, start)).Hand?
    requires Sound(h) && h.bits <= 30 && Real(h) == 8 * n - (at + 3) && Real(h) >= -2
    ensures Real(Rest(h, BlockFields(b, at, start))) >= -41
  {
    hide BlockFields, Rest, Padding;
    var g := StoredRest(h, n, b, at, start);
    PaddingSmall(at);
  }

  lemma {:induction false} PaddingSmall(at: nat)
    ensures Padding(at + 3) <= 7
  {
  }

  /** The last block begins inside the data: its final bit is set. */
  lemma {:induction false} LastBlock(h: Hand, n: nat, b: Block, at: nat, start: nat, v: nat)
    requires Sound(h) && Real(h) == 8 * n - at && BlockOk(b, at, start) && Below(v, Real(h))
    requires var fs := BlockHead(b, true) + BlockFields(b, at, start); Starts(v, fs) && Rest(h, fs).Hand?
    ensures Real(Rest(h, BlockHead(b, true) + BlockFields(b, at, start))) >= -55
  {
    hide Rest, Next, Real, BlockOk, BlockFields, BlockHead, Starts, Width, Low, Shr, Below, Writable;
    var a, c := BlockHead(b, true), BlockFields(b, at, start);
    HeadFields(v, b, true, c);
    ZeroShr(1);
    NonzeroReal(v, Real(h), 0);
    HeadFieldsOk(b, true);
    WritableReads(a);
    RestParts(h, a, c);
    RestReal(h, a);
    HeadLeaves(h, b, true);
    BelowShr(v, Real(h), 3);
    match b
    case Stored(_, _) => StoredOverrun(b, at, start, n, Rest(h, a));
    case Fixed(_) => FixedOverrun(b, at, start, Shr(v, 3), Rest(h, a));
    case Dynamic(_, _) => DynamicOverrun(b, at, start, Shr(v, 3), Rest(h, a));
  }

  lemma {:induction false} LastSplit(bs: seq<Block>)
    requires bs != [] && Encode(bs, true).Some?
    ensures var m := |bs| - 1;
      && Encode(bs[..m], false).Some?
      && (var e := Encode(bs[..m], false).value;
          && BlockOk(bs[m], Width(e.fields), |e.out|)
          && Encode(bs, true).value.fields ==
             e.fields + (BlockHead(bs[m], true) + BlockFields(bs[m], Width(e.fields), |e.out|)))
  {
    hide BlockOk, BlockFields, BlockHead, BlockOutput, Width;
  }

  /** A stream that is accepted lacks at most 55 of its bits. */
  lemma {:induction false} AcceptedOverrun(data: seq<byte>, parseHeader: bool, bs: seq<Block>)
    requires Serves(data, parseHeader, bs)
    ensures Width(Encode(bs, true).value.fields) <= 8 * |Body(data, parseHeader)| + 55
  {
    hide Encode, BlockOk, BlockFields, BlockHead, Starts, Width, Rest, LE, Body, HeaderAccepted, Fresh, Sound, Real,
         AllReadable, FieldsOk;
    var s, m := Body(data, parseHeader), |bs| - 1;
    LastSplit(bs);
    var n, e := |s|, Encode(bs[..m], false).value;
    var at := Width(e.fields);
    var fs := BlockHead(bs[m], true) + BlockFields(bs[m], at, |e.out|);
    StartsAppend(LE(s), e.fields, fs);
    RestParts(Fresh(n), e.fields, fs);
    FreshReal(n);
    EncodeFieldsOk(bs[..m], false);
    RestReal(Fresh(n), e.fields);
    BodyBelow(s);
    BelowShr(LE(s), 8 * n, at);
    LastBlock(Rest(Fresh(n), e.fields), n, bs[m], at, |e.out|, Shr(LE(s), at));
    EncodeFieldsOk(bs, true);
    RestReal(Fresh(n), e.fields + fs);
  }

  lemma {:induction false} BodyBelow(s: seq<byte>)
    ensures Below(LE(s), 8 * |s|)
  {
    LEBelow(s);
  }
}
