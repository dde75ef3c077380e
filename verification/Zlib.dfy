/**
  The whole decoder, from input bytes to output bytes, against the reference
  format: it accepts exactly the data in front of which some encoding stands that
  its supply of bits lasts for, and returns what that encoding stands for.
*/
module Zlib {
  import opened Bits
  import opened Canonical
  import opened ZHuffman
  import opened Deflate
  import opened Inflate
  import opened Supply

  function Skip(parseHeader: bool): nat {
    if parseHeader then 2 else 0
  }

  /** Where the compressed data begin. */
  function Body(data: seq<byte>, parseHeader: bool): seq<byte> {
    if Skip(parseHeader) <= |data| then data[Skip(parseHeader)..] else []
  }

  /** The supply at the start: nothing in the bit buffer and n bytes to fetch. */
  function Fresh(n: nat): (h: Hand)
    ensures Sound(h) && Real(h) == 8 * n
  {
    Hand(0, n, 0, false)
  }

  /** How many bytes of output can be stored. */
  function Capacity(initial: nat, expandable: bool): (n: nat)
    requires initial <= UINT_MAX && (expandable ==> 0 < initial)
    ensures expandable ==> n > 0x7FFF_FFFF
  {
    if expandable then Most(initial) else initial
  }

  /** The data, extended with zero bits, begin with the encoding of bs. */
  ghost predicate Begins(data: seq<byte>, parseHeader: bool, bs: seq<Block>) {
    && bs != [] && Encode(bs, true).Some? && (parseHeader ==> HeaderAccepted(data))
    && Starts(LE(Body(data, parseHeader)), Encode(bs, true).value.fields)
  }

  /** The encoding of bs stands at the front of the data in full. */
  ghost predicate Contains(data: seq<byte>, parseHeader: bool, bs: seq<Block>) {
    Begins(data, parseHeader, bs) && Width(Encode(bs, true).value.fields) <= 8 * |Body(data, parseHeader)|
  }

  /** The encoding of bs stands at the front of the data, and the supply lasts to its end. */
  ghost predicate Serves(data: seq<byte>, parseHeader: bool, bs: seq<Block>) {
    Begins(data, parseHeader, bs) && Rest(Fresh(|Body(data, parseHeader)|), Encode(bs, true).value.fields).Hand?
  }

  /** What stbi__do_zlib makes of the data: the encoding is served, and its output can be stored. */
  ghost predicate Inflates(data: seq<byte>, capacity: nat, parseHeader: bool, bs: seq<Block>) {
    Serves(data, parseHeader, bs) && |Encode(bs, true).value.out| <= capacity
  }

  /**
    stbi__do_zlib.  `initial` is the size of the first output buffer.
    Data are accepted exactly when they inflate to some blocks, and the output is the expansion of
    any blocks they inflate to.
  */
  method DoZlib(data: seq<byte>, initial: nat, expandable: bool, parseHeader: bool, ghost goal: seq<Block>)
    returns (ok: bool, out: seq<byte>, ghost bs: seq<Block>)
    requires initial <= UINT_MAX && (expandable ==> 0 < initial)
    ensures ok ==> Inflates(data, Capacity(initial, expandable), parseHeader, bs) && out == Encode(bs, true).value.out
    ensures ok <==> exists any :: Inflates(data, Capacity(initial, expandable), parseHeader, any)
    ensures Inflates(data, Capacity(initial, expandable), parseHeader, goal) ==> bs == goal
  {
    hide Encode, Inflates, Capacity;
    ghost var capacity := Capacity(initial, expandable);
    ghost var want := goal;
    if !Inflates(data, capacity, parseHeader, goal) && exists any :: Inflates(data, capacity, parseHeader, any) {
      want :| Inflates(data, capacity, parseHeader, want);
    }
    ok, out, bs := Parse(data, initial, expandable, parseHeader, want);
  }

  /** stbi__parse_zlib on a fresh reader. */
  method Parse(data: seq<byte>, initial: nat, expandable: bool, parseHeader: bool, ghost goal: seq<Block>)
    returns (ok: bool, out: seq<byte>, ghost bs: seq<Block>)
    requires initial <= UINT_MAX && (expandable ==> 0 < initial)
    ensures ok ==> Inflates(data, Capacity(initial, expandable), parseHeader, bs) && out == Encode(bs, true).value.out
    ensures Inflates(data, Capacity(initial, expandable), parseHeader, goal) ==> ok && bs == goal
  {
    hide Encode, Starts, Width, LE, HeaderAccepted, Rest, Most;
    var z := new ZBuf(data, expandable, initial);
    out, bs := [], [];
    if parseHeader {
      ok := z.ParseZlibHeader();
      if !ok {
        return;
      }
    }
    NoBuffer(0, LE(data[z.pos..]));
    ok, bs := z.ParseBlocks(goal);
    out := z.out;
  }

  // ------------------------------------------------------------------
  // Every encoding can be written as bytes, and every copy as tokens
  // ------------------------------------------------------------------

  /** Every field has a value that fits, and is bit-packed and of a width the reader can take. */
  predicate Writable(fs: seq<Field>) {
    FieldsOk(fs) && Packed(fs)
  }

  lemma {:induction false} WritableAppend(a: seq<Field>, b: seq<Field>)
    ensures Writable(a) && Writable(b) ==> Writable(a + b)
    ensures FieldsOk(a) && FieldsOk(b) ==> FieldsOk(a + b)
    ensures AllReadable(a) && AllReadable(b) ==> AllReadable(a + b)
  {
    hide Pow2, Readable;
  }

  lemma {:induction false} WritableReads(a: seq<Field>)
    requires Writable(a)
    ensures FieldsOk(a) && AllReadable(a) && Packed(a)
  {
    hide Pow2, Readable;
  }

  lemma {:induction false} SymbolWritable(lens: seq<nat>, i: nat)
    requires Used(lens, i)
    ensures Writable([SymField(lens, i)])
    ensures i == 256 ==> Writable([EndField(lens)])
  {
    hide Pow2, Code;
  }

  lemma {:induction false} NumberWritable(x: nat, n: nat)
    requires n <= 16 && x < Pow2(n)
    ensures Writable([Field(x, n)])
  {
    hide Pow2;
  }

  lemma {:induction false} NoFields()
    ensures Writable([])
  {
  }

  lemma {:induction false} TokensFieldsOk(lit: seq<nat>, dist: seq<nat>, ts: seq<Token>)
    requires TokensOk(lit, dist, ts)
    ensures Writable(TokensFields(lit, dist, ts))
    decreases |ts|
  {
    hide Writable, TokenFields, TokenOk;
    if ts == [] {
      NoFields();
    } else {
      var n := |ts| - 1;
      TokensFieldsOk(lit, dist, ts[..n]);
      TokenFieldsOk(lit, dist, ts[n]);
      WritableAppend(TokensFields(lit, dist, ts[..n]), TokenFields(lit, dist, ts[n]));
    }
  }

  lemma {:induction false} TokenFieldsOk(lit: seq<nat>, dist: seq<nat>, t: Token)
    requires TokenOk(lit, dist, t)
    ensures Writable(TokenFields(lit, dist, t))
  {
    hide Writable, SymField, Pow2, TailFields, TailOk;
    SymbolWritable(lit, TokenSymbol(t));
    if t.Copy? {
      TailFieldsOk(dist, t);
      WritableAppend([SymField(lit, 257 + t.lsym)], TailFields(dist, t));
    }
  }

  lemma {:induction false} TailFieldsOk(dist: seq<nat>, t: Token)
    requires TailOk(dist, t)
    ensures Writable(TailFields(dist, t))
  {
    hide Writable, SymField, Pow2, LENGTH_EXTRA, DIST_EXTRA;
    ExtraSizes();
    var a, b, c := Field(t.lextra, LENGTH_EXTRA[t.lsym]), SymField(dist, t.dsym), Field(t.dextra, DIST_EXTRA[t.dsym]);
    NumberWritable(a.value, a.width);
    SymbolWritable(dist, t.dsym);
    NumberWritable(c.value, c.width);
    WritableAppend([a], [b]);
    WritableAppend([a] + [b], [c]);
    assert TailFields(dist, t) == [a] + [b] + [c];
  }

  lemma {:induction false} HeaderFieldsOk(h: Header)
    requires HeaderOk(h)
    ensures Writable(HeaderFields(h))
  {
    hide Writable, ClFields, OpsFields, CountFields, Lengths, LitLens, DistLens, Kraft, ClLens;
    var a, b, c := CountFields(h.hlit, h.hdist, |h.cl|), ClFields(h.cl), OpsFields(ClLens(h.cl), h.ops);
    CountFieldsOk(h.hlit, h.hdist, |h.cl|);
    ClFieldsOk(h.cl);
    OpsFieldsOk(ClLens(h.cl), h.ops);
    WritableAppend(a, b);
    WritableAppend(a + b, c);
  }

  lemma {:induction false} CountFieldsOk(hlit: nat, hdist: nat, hclen: nat)
    requires 257 <= hlit <= 288 && 1 <= hdist <= 32 && 4 <= hclen <= 19
    ensures Writable(CountFields(hlit, hdist, hclen))
  {
    Pow2Values();
  }

  lemma {:induction false} ClFieldsOk(cl: seq<nat>)
    requires forall i :: 0 <= i < |cl| ==> cl[i] < 8
    ensures Writable(ClFields(cl))
    decreases |cl|
  {
    hide Writable, Pow2;
    if cl == [] {
      NoFields();
    } else {
      var n := |cl| - 1;
      ClFieldsOk(cl[..n]);
      Pow2Values();
      NumberWritable(cl[n], 3);
      WritableAppend(ClFields(cl[..n]), [Field(cl[n], 3)]);
    }
  }

  lemma {:induction false} OpsFieldsOk(cl: seq<nat>, ops: seq<LenOp>)
    requires OpsOk(cl, ops)
    ensures Writable(OpsFields(cl, ops))
    decreases |ops|
  {
    hide Writable, OpFields, OpOk;
    if ops == [] {
      NoFields();
    } else {
      var n := |ops| - 1;
      OpsFieldsOk(cl, ops[..n]);
      OpFieldsOk(cl, ops[n]);
      WritableAppend(OpsFields(cl, ops[..n]), OpFields(cl, ops[n]));
    }
  }

  lemma {:induction false} OpFieldsOk(cl: seq<nat>, op: LenOp)
    requires OpOk(cl, op)
    ensures Writable(OpFields(cl, op))
  {
    hide Writable, SymField, Pow2;
    Pow2Values();
    SymbolWritable(cl, OpSymbol(op));
    if !op.One? {
      NumberWritable(op.extra, OpExtra(op));
      WritableAppend([SymField(cl, OpSymbol(op))], [Field(op.extra, OpExtra(op))]);
      assert OpFields(cl, op) == [SymField(cl, OpSymbol(op))] + [Field(op.extra, OpExtra(op))];
    }
  }

  lemma {:induction false} BodyFieldsOk(lit: seq<nat>, dist: seq<nat>, ts: seq<Token>)
    requires TokensOk(lit, dist, ts) && Used(lit, 256)
    ensures Writable(BodyFields(lit, dist, ts))
  {
    hide Writable, TokensFields, TokensOk, EndField;
    TokensFieldsOk(lit, dist, ts);
    SymbolWritable(lit, 256);
    WritableAppend(TokensFields(lit, dist, ts), [EndField(lit)]);
  }

  lemma {:induction false} BytesOk(s: seq<byte>, kind: Kind)
    requires kind.Aligned? || kind.Data?
    ensures FieldsOk(ByteFields(s, kind)) && AllReadable(ByteFields(s, kind))
  {
    ByteSize();
    hide Pow2;
  }

  lemma {:induction false} StoredFieldsOk(b: Block, at: nat, start: nat)
    requires b.Stored? && BlockOk(b, at, start)
    ensures FieldsOk(BlockFields(b, at, start)) && AllReadable(BlockFields(b, at, start))
  {
    hide FieldsOk, AllReadable, Writable, ByteFields, StoredHead, Pow2, Padding;
    var p, a, c := Field(b.pad, Padding(at + 3)), ByteFields(StoredHead(|b.bytes|), Aligned), ByteFields(b.bytes, Data);
    BytesOk(StoredHead(|b.bytes|), Aligned);
    BytesOk(b.bytes, Data);
    WritableAppend(a, c);
    NumberWritable(b.pad, Padding(at + 3));
    WritableReads([p]);
    WritableAppend([p], a + c);
  }

  lemma {:induction false} BlockFieldsOk(b: Block, at: nat, start: nat)
    requires BlockOk(b, at, start)
    ensures FieldsOk(BlockFields(b, at, start)) && AllReadable(BlockFields(b, at, start))
    ensures !b.Stored? ==> Packed(BlockFields(b, at, start))
  {
    hide FieldsOk, AllReadable, Packed, Writable, BodyFields, HeaderFields, HeaderOk, LitLens, DistLens, FixedLit, FixedDist,
         TokensOk, DistancesOk;
    if b.Stored? {
      StoredFieldsOk(b, at, start);
    } else {
      CodedFieldsOk(b, at, start);
      WritableReads(BlockFields(b, at, start));
    }
  }

  lemma {:induction false} CodedFieldsOk(b: Block, at: nat, start: nat)
    requires BlockOk(b, at, start) && !b.Stored?
    ensures Writable(BlockFields(b, at, start))
  {
    hide Writable, BodyFields, HeaderFields, HeaderOk, LitLens, DistLens, FixedLit, FixedDist, TokensOk, DistancesOk;
    match b
    case Fixed(ts) => BodyFieldsOk(FixedLit(), FixedDist(), ts);
    case Dynamic(h, ts) =>
      HeaderFieldsOk(h);
      BodyFieldsOk(LitLens(h), DistLens(h), ts);
      WritableAppend(HeaderFields(h), BodyFields(LitLens(h), DistLens(h), ts));
  }

  lemma {:induction false} HeadFieldsOk(b: Block, last: bool)
    ensures Writable(BlockHead(b, last)) && Width(BlockHead(b, last)) == 3
  {
    hide Pow2;
    Pow2Values();
    TwoFields(0, Field(if last then 1 else 0, 1), Field(TypeBits(b), 2));
  }

  lemma {:induction false} EncodeFieldsOk(bs: seq<Block>, last: bool)
    requires Encode(bs, last).Some?
    ensures FieldsOk(Encode(bs, last).value.fields) && AllReadable(Encode(bs, last).value.fields)
    decreases |bs|
  {
    hide FieldsOk, AllReadable, Writable, BlockHead, BlockFields, BlockOk, BlockOutput, Width;
    if bs == [] {
      NoFields();
      WritableReads([]);
    } else {
      var n := |bs| - 1;
      EncodeFieldsOk(bs[..n], false);
      var e := Encode(bs[..n], false).value;
      var a, b := BlockHead(bs[n], last), BlockFields(bs[n], Width(e.fields), |e.out|);
      HeadFieldsOk(bs[n], last);
      WritableReads(a);
      BlockFieldsOk(bs[n], Width(e.fields), |e.out|);
      WritableAppend(a, b);
      WritableAppend(e.fields, a + b);
    }
  }

  // ------------------------------------------------------------------
  // Encodings whose bits are all real are served
  // ------------------------------------------------------------------

  lemma {:induction false} HeadLeaves(h: Hand, b: Block, last: bool)
    requires Sound(h) && Rest(h, BlockHead(b, last)).Hand?
    ensures Rest(h, BlockHead(b, last)).bits <= 30
  {
    hide Next, Rest;
    var f, g := Field(if last then 1 else 0, 1), Field(TypeBits(b), 2);
    RestTwo(h, f, g);
    NextDry(g);
    NextReal(h, f);
    NextReal(Next(h, f), g);
  }

  lemma {:induction false} NextDry(f: Field)
    ensures Next(Dry, f) == Dry
  {
  }

  /** At a byte boundary with at most 24 bits in hand, four header bytes empty the bit buffer. */
  lemma {:induction false} Drained(h: Hand, n: nat)
    requires Sound(h) && h.bits % 8 == 0 && h.bits <= 24 && n < 0x10000
    ensures var g := Rest(h, ByteFields(StoredHead(n), Aligned));
      Sound(g) && g.bits == 0 && Real(g) == Real(h) - 32
  {
    hide Next, Rest, StoredHead;
    var s := StoredHead(n);
    var fs := ByteFields(s, Aligned);
    assert fs == [fs[0]] + [fs[1], fs[2], fs[3]];
    RestAppend(h, [fs[0]], [fs[1], fs[2], fs[3]]);
    RestOne(h, fs[0]);
    RestThree(Next(h, fs[0]), fs[1], fs[2], fs[3]);
    TakeAligned(h, s[0]);
    var h1 := Next(h, fs[0]);
    TakeAligned(h1, s[1]);
    var h2 := Next(h1, fs[1]);
    TakeAligned(h2, s[2]);
    TakeAligned(Next(h2, fs[2]), s[3]);
  }

  lemma {:induction false} TakeAligned(h: Hand, b: byte)
    requires Sound(h) && h.bits % 8 == 0
    ensures var g := Next(h, Field(b, 8, Aligned));
      Sound(g) && Real(g) == Real(h) - 8 && g.bits == if h.bits == 0 then 0 else h.bits - 8
  {
  }

  /** The padding of a stored block is what the bit buffer holds beyond whole bytes. */
  lemma {:induction false} PaddingHeld(h: Hand, n: nat, at: nat)
    requires Sound(h) && Real(h) == 8 * n - (at + 3) && h.bits <= 30
    ensures Padding(at + 3) == h.bits % 8 <= h.bits && h.bits - h.bits % 8 <= 24 && (h.bits - h.bits % 8) % 8 == 0
  {
    hide Padding;
    var e := h.extra / 8;
    assert h.extra == 8 * e;
    EightTimes(n - h.left + e);
    PaddingBits(8 * (n - h.left + e), h.bits, at);
    SmallRest(h.bits);
  }

  lemma {:induction false} EightTimes(k: int)
    ensures (8 * k) % 8 == 0
  {
  }

  lemma {:induction false} SmallRest(n: nat)
    ensures n % 8 <= n
  {
  }

  /** The supply after a stored block, in terms of the supply g after its four header bytes. */
  lemma {:induction false} StoredRest(h: Hand, n: nat, b: Block, at: nat, start: nat) returns (g: Hand)
    requires Sound(h) && Real(h) == 8 * n - (at + 3) && h.bits <= 30 && b.Stored? && BlockOk(b, at, start)
    ensures Width(BlockFields(b, at, start)) == Padding(at + 3) + 32 + 8 * |b.bytes|
    ensures Sound(g) && g.bits == 0 && Real(g) == Real(h) - Padding(at + 3) - 32
    ensures Rest(h, BlockFields(b, at, start)) == if |b.bytes| <= g.left then g.(left := g.left - |b.bytes|) else Dry
  {
    hide Rest, Next, StoredHead, Padding, ByteFields, Real;
    var p := Field(b.pad, Padding(at + 3));
    StoredParts(b.pad, Padding(at + 3), StoredHead(|b.bytes|), b.bytes, 0);
    StoredServed(b.pad, Padding(at + 3), StoredHead(|b.bytes|), b.bytes, h);
    PaddingHeld(h, n, at);
    DropPadding(h, p);
    Drained(Next(h, p), |b.bytes|);
    g := Rest(Next(h, p), ByteFields(StoredHead(|b.bytes|), Aligned));
    RestData(g, b.bytes);
  }

  lemma {:induction false} DropPadding(h: Hand, f: Field)
    requires Sound(h) && f.kind.Number? && f.width <= h.bits
    ensures Next(h, f) == h.(bits := h.bits - f.width) && Sound(Next(h, f)) && Real(Next(h, f)) == Real(h) - f.width
  {
  }

  /** A block whose bits are all real is served. */
  lemma {:induction false} BlockServes(h: Hand, n: nat, b: Block, at: nat, start: nat, last: bool)
    requires Sound(h) && Real(h) == 8 * n - at && BlockOk(b, at, start)
    requires Width(BlockHead(b, last) + BlockFields(b, at, start)) <= Real(h)
    ensures Rest(h, BlockHead(b, last) + BlockFields(b, at, start)).Hand?
  {
    hide Rest, Next, Sound, Real, BlockOk, BlockFields, BlockHead, Packed, AllReadable, Padding, Writable;
    var a, c := BlockHead(b, last), BlockFields(b, at, start);
    HeadFieldsOk(b, last);
    WritableReads(a);
    StartsAppend(0, a, c);
    RestAppend(h, a, c);
    RestServes(h, a);
    HeadLeaves(h, b, last);
    BlockFieldsOk(b, at, start);
    if b.Stored? {
      var g := StoredRest(Rest(h, a), n, b, at, start);
      BytesLeft(g, |b.bytes|);
    } else {
      RestServes(Rest(h, a), c);
    }
  }

  lemma {:induction false} BytesLeft(g: Hand, m: nat)
    requires Sound(g) && g.bits == 0 && Real(g) >= 8 * m
    ensures m <= g.left
  {
  }

  lemma {:induction false} EncodingServed(bs: seq<Block>, last: bool, n: nat)
    requires Encode(bs, last).Some? && Width(Encode(bs, last).value.fields) <= 8 * n
    ensures var g := Rest(Fresh(n), Encode(bs, last).value.fields);
      Sound(g) && Real(g) == 8 * n - Width(Encode(bs, last).value.fields)
    decreases |bs|
  {
    hide Rest, Next, Sound, Real, BlockOk, BlockFields, BlockHead, BlockOutput, Fresh, AllReadable;
    if bs == [] {
      NothingServed(n);
    } else {
      var m := |bs| - 1;
      var e := Encode(bs[..m], false).value;
      var fs := BlockHead(bs[m], last) + BlockFields(bs[m], Width(e.fields), |e.out|);
      StartsAppend(0, e.fields, fs);
      EncodingServed(bs[..m], false, n);
      RestAppend(Fresh(n), e.fields, fs);
      BlockServes(Rest(Fresh(n), e.fields), n, bs[m], Width(e.fields), |e.out|, last);
      EncodeFieldsOk(bs, last);
      FreshReal(n);
      RestReal(Fresh(n), e.fields + fs);
    }
  }

  lemma {:induction false} NothingServed(n: nat)
    ensures Rest(Fresh(n), []) == Fresh(n) && Sound(Fresh(n)) && Real(Fresh(n)) == 8 * n && Width([]) == 0
  {
  }

  lemma {:induction false} FreshReal(n: nat)
    ensures Sound(Fresh(n)) && Real(Fresh(n)) == 8 * n
  {
  }

  /** Data that contain an encoding in full are served, whatever follows it. */
  lemma {:induction false} ContainedServed(data: seq<byte>, parseHeader: bool, bs: seq<Block>)
    requires Contains(data, parseHeader, bs)
    ensures Serves(data, parseHeader, bs)
  {
    hide Encode, Starts, Width, LE, HeaderAccepted, Rest, Body;
    EncodingServed(bs, true, |Body(data, parseHeader)|);
  }

  /** A written stream, bare or behind an acceptable zlib header, is contained in full and so inflates. */
  lemma {:induction false} WriterRoundTrip(bs: seq<Block>, head: seq<byte>, trailer: seq<byte>)
    requires bs != [] && Encode(bs, true).Some?
    requires |head| == 2 && HeaderAccepted(head + Written(Encode(bs, true).value.fields) + trailer)
    ensures var w := Written(Encode(bs, true).value.fields) + trailer;
      Contains(w, false, bs) && Serves(w, false, bs)
    ensures var w := head + Written(Encode(bs, true).value.fields) + trailer;
      Contains(w, true, bs) && Serves(w, true, bs)
  {
    hide Starts, Width, HeaderAccepted, LE, Encode, Serves;
    var fs := Encode(bs, true).value.fields;
    EncodeFieldsOk(bs, true);
    WrittenStarts(fs, trailer);
    var body := Written(fs) + trailer;
    assert (head + Written(fs) + trailer)[2..] == body && body[0..] == body;
    ContainedServed(body, false, bs);
    ContainedServed(head + Written(fs) + trailer, true, bs);
  }
}
