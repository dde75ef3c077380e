/**
  The DEFLATE format of RFC 1951, as what an encoder may write: blocks of
  literals and back-references, the bit fields that represent them, and the
  bytes they stand for.  Nothing here refers to the decoder.
*/
module Deflate {
  import opened Bits
  import opened Canonical
  import opened ZHuffman

  // Base values and extra bits of length symbols 257..285 and distance symbols 0..29
  // (section 3.2.5 of RFC 1951).
  const LENGTH_BASE: seq<nat> := [
    3, 4, 5, 6, 7, 8, 9, 10, 11, 13, 15, 17, 19, 23, 27, 31, 35, 43, 51, 59, 67, 83, 99, 115, 131, 163, 195, 227, 258]
  const LENGTH_EXTRA: seq<nat> := [
    0, 0, 0, 0, 0, 0, 0, 0, 1, 1, 1, 1, 2, 2, 2, 2, 3, 3, 3, 3, 4, 4, 4, 4, 5, 5, 5, 5, 0]
  const DIST_BASE: seq<nat> := [
    1, 2, 3, 4, 5, 7, 9, 13, 17, 25, 33, 49, 65, 97, 129, 193, 257, 385, 513, 769, 1025, 1537, 2049, 3073, 4097,
    6145, 8193, 12289, 16385, 24577]
  const DIST_EXTRA: seq<nat> := [
    0, 0, 0, 0, 1, 1, 2, 2, 3, 3, 4, 4, 5, 5, 6, 6, 7, 7, 8, 8, 9, 9, 10, 10, 11, 11, 12, 12, 13, 13]

  /** One element of compressed data.  A copy names its symbols and extra bits. */
  datatype Token =
    | EndOfBlock
    | Literal(b: byte)
    | Copy(lsym: nat, lextra: nat, dsym: nat, dextra: nat)

  predicate Used(lens: seq<nat>, i: nat) {
    i < |lens| && 0 < lens[i] <= MAX_LEN
  }

  predicate TokenOk(lit: seq<nat>, dist: seq<nat>, t: Token) {
    match t
    case EndOfBlock => Used(lit, 256)
    case Literal(b) => Used(lit, b)
    case Copy(l, _, _, _) => l < 29 && Used(lit, 257 + l) && TailOk(dist, t)
  }

  /** The part of a copy after its length symbol. */
  predicate TailOk(dist: seq<nat>, t: Token) {
    && t.Copy? && t.lsym < 29 && t.lextra < Pow2(LENGTH_EXTRA[t.lsym])
    && t.dsym < 30 && Used(dist, t.dsym) && t.dextra < Pow2(DIST_EXTRA[t.dsym])
  }

  function TailFields(dist: seq<nat>, t: Token): seq<Field>
    requires TailOk(dist, t)
  {
    [Field(t.lextra, LENGTH_EXTRA[t.lsym]), SymField(dist, t.dsym), Field(t.dextra, DIST_EXTRA[t.dsym])]
  }

  function CopyLength(t: Token): nat
    requires t.Copy? && t.lsym < 29
  {
    LENGTH_BASE[t.lsym] + t.lextra
  }

  function CopyDistance(t: Token): nat
    requires t.Copy? && t.dsym < 30
  {
    DIST_BASE[t.dsym] + t.dextra
  }

  /** A Huffman code is written most significant bit first. */
  function SymField(lens: seq<nat>, i: nat): Field
    requires i < |lens|
  {
    Field(Rev(Code(lens, i), lens[i]), lens[i], Codeword)
  }

  function TokenSymbol(t: Token): nat {
    match t
    case EndOfBlock => 256
    case Literal(b) => b
    case Copy(l, _, _, _) => 257 + l
  }

  function TokenFields(lit: seq<nat>, dist: seq<nat>, t: Token): seq<Field>
    requires TokenOk(lit, dist, t)
  {
    match t
    case EndOfBlock => [SymField(lit, 256)]
    case Literal(b) => [SymField(lit, b)]
    case Copy(l, _, _, _) => [SymField(lit, 257 + l)] + TailFields(dist, t)
  }

  /** The tokens of one block, without the end marker. */
  predicate TokensOk(lit: seq<nat>, dist: seq<nat>, ts: seq<Token>) {
    forall i :: 0 <= i < |ts| ==> !ts[i].EndOfBlock? && TokenOk(lit, dist, ts[i])
  }

  function TokensFields(lit: seq<nat>, dist: seq<nat>, ts: seq<Token>): seq<Field>
    requires TokensOk(lit, dist, ts)
  {
    if ts == [] then []
    else TokensFields(lit, dist, ts[..|ts| - 1]) + TokenFields(lit, dist, ts[|ts| - 1])
  }

  // ------------------------------------------------------------------
  // What tokens stand for
  // ------------------------------------------------------------------

  /** Repeat n times: append the byte d places back. */
  function CopyBytes(out: seq<byte>, d: nat, n: nat): (r: seq<byte>)
    requires 1 <= d <= |out|
    ensures |r| == |out| + n && out <= r
    decreases n
  {
    if n == 0 then out
    else
      var o := CopyBytes(out, d, n - 1);
      o + [o[|o| - d]]
  }

  /** k modulo d, by repeated subtraction. */
  function Wrap(k: nat, d: nat): (r: nat)
    requires d > 0
    ensures r < d && r <= k
  {
    if k < d then k else Wrap(k - d, d)
  }

  lemma {:induction false} WrapIsMod(k: nat, d: nat)
    requires d > 0
    ensures Wrap(k, d) == k % d
    decreases k
  {
    if k >= d {
      WrapIsMod(k - d, d);
      var q, r := (k - d) / d, (k - d) % d;
      MulDist(d, q, 1);
      ModUnique(k, d, q + 1, r);
    } else {
      ModUnique(k, d, 0, k);
    }
  }

  lemma {:induction false} ModUnique(x: int, d: int, q: int, r: int)
    requires d > 0 && 0 <= r < d && x == d * q + r
    ensures x % d == r
  {
    var e := x / d - q;
    MulDist(d, x / d, -q);
    if e >= 1 {
      MulMono(1, e, d);
    } else if e <= -1 {
      MulMono(e, -1, d);
    }
  }

  /** A copy repeats the last d bytes periodically, also when source and target overlap. */
  lemma {:induction false} CopyPeriodic(out: seq<byte>, d: nat, n: nat, k: nat)
    requires 1 <= d <= |out| && k < n
    ensures CopyBytes(out, d, n)[|out| + k] == out[|out| - d + k % d]
  {
    CopyWraps(out, d, n, k);
    WrapIsMod(k, d);
  }

  lemma {:induction false} CopyWraps(out: seq<byte>, d: nat, n: nat, k: nat)
    requires 1 <= d <= |out| && k < n
    ensures CopyBytes(out, d, n)[|out| + k] == out[|out| - d + Wrap(k, d)]
    decreases n
  {
    if k < n - 1 {
      CopyWraps(out, d, n - 1, k);
    } else if k >= d {
      CopyWraps(out, d, n - 1, k - d);
    }
  }

  /** Every back-reference stays inside the output written before it. */
  predicate DistancesOk(lit: seq<nat>, dist: seq<nat>, ts: seq<Token>, start: nat)
    requires TokensOk(lit, dist, ts)
  {
    ts == [] ||
    (var n := |ts| - 1;
     DistancesOk(lit, dist, ts[..n], start) &&
     (ts[n].Copy? ==> CopyDistance(ts[n]) <= start + Expanded(lit, dist, ts[..n])))
  }

  /** How many bytes the tokens add. */
  function Expanded(lit: seq<nat>, dist: seq<nat>, ts: seq<Token>): nat
    requires TokensOk(lit, dist, ts)
  {
    if ts == [] then 0
    else
      var n := |ts| - 1;
      Expanded(lit, dist, ts[..n]) + TokenSize(ts[n])
  }

  /** How many bytes a token adds. */
  function TokenSize(t: Token): nat
    requires t.Literal? || (t.Copy? && t.lsym < 29)
  {
    if t.Copy? then CopyLength(t) else 1
  }

  /** The output after one more token. */
  function Emit(t: Token, o: seq<byte>): (r: seq<byte>)
    requires t.Literal? || (t.Copy? && t.lsym < 29 && t.dsym < 30 && 1 <= CopyDistance(t) <= |o|)
    ensures o <= r && |r| == |o| + TokenSize(t)
  {
    if t.Literal? then o + [t.b] else CopyBytes(o, CopyDistance(t), CopyLength(t))
  }

  function Expand(lit: seq<nat>, dist: seq<nat>, ts: seq<Token>, out: seq<byte>): (r: seq<byte>)
    requires TokensOk(lit, dist, ts) && DistancesOk(lit, dist, ts, |out|)
    ensures |r| == |out| + Expanded(lit, dist, ts) && out <= r
  {
    if ts == [] then out
    else
      var n := |ts| - 1;
      DistancePositive(ts[n]);
      Emit(ts[n], Expand(lit, dist, ts[..n], out))
  }

  lemma {:induction false} DistancePositive(t: Token)
    ensures t.Copy? && t.dsym < 30 ==> CopyDistance(t) >= 1
    ensures t.Copy? && t.lsym < 29 ==> CopyLength(t) >= 3
  {
  }

  // ------------------------------------------------------------------
  // Code length headers of dynamic blocks (section 3.2.7)
  // ------------------------------------------------------------------

  const CL_ORDER: seq<nat> := [16, 17, 18, 0, 8, 7, 9, 6, 10, 5, 11, 4, 12, 3, 13, 2, 14, 1, 15]

  datatype LenOp =
    | One(len: nat)         // symbol 0..15
    | Repeat(extra: nat)    // symbol 16: previous length 3..6 times
    | Zeros3(extra: nat)    // symbol 17: zero 3..10 times
    | Zeros11(extra: nat)   // symbol 18: zero 11..138 times

  datatype Header = Header(hlit: nat, hdist: nat, cl: seq<nat>, ops: seq<LenOp>)

  function OpSymbol(op: LenOp): nat {
    match op
    case One(c) => c
    case Repeat(_) => 16
    case Zeros3(_) => 17
    case Zeros11(_) => 18
  }

  function OpExtra(op: LenOp): nat {
    match op
    case One(_) => 0
    case Repeat(_) => 2
    case Zeros3(_) => 3
    case Zeros11(_) => 7
  }

  predicate OpOk(cl: seq<nat>, op: LenOp) {
    Used(cl, OpSymbol(op)) &&
    match op
    case One(c) => c < 16
    case Repeat(e) => e < 4
    case Zeros3(e) => e < 8
    case Zeros11(e) => e < 128
  }

  function OpFields(cl: seq<nat>, op: LenOp): seq<Field>
    requires OpOk(cl, op)
  {
    match op
    case One(c) => [SymField(cl, c)]
    case Repeat(e) => [SymField(cl, 16), Field(e, 2)]
    case Zeros3(e) => [SymField(cl, 17), Field(e, 3)]
    case Zeros11(e) => [SymField(cl, 18), Field(e, 7)]
  }

  function Run(v: nat, n: nat): (s: seq<nat>)
    ensures |s| == n
  {
    seq(n, _ => v)
  }

  /** The code lengths one operation appends to those already known. */
  function OpLengths(op: LenOp, known: seq<nat>): seq<nat> {
    match op
    case One(c) => [c]
    case Repeat(e) => Run(if known == [] then 0 else known[|known| - 1], e + 3)
    case Zeros3(e) => Run(0, e + 3)
    case Zeros11(e) => Run(0, e + 11)
  }

  function Lengths(ops: seq<LenOp>): seq<nat> {
    if ops == [] then []
    else
      var known := Lengths(ops[..|ops| - 1]);
      known + OpLengths(ops[|ops| - 1], known)
  }

  predicate OpsOk(cl: seq<nat>, ops: seq<LenOp>) {
    && (forall i :: 0 <= i < |ops| ==> OpOk(cl, ops[i]))
    && (ops != [] ==> !ops[0].Repeat?)
  }

  function OpsFields(cl: seq<nat>, ops: seq<LenOp>): seq<Field>
    requires OpsOk(cl, ops)
  {
    if ops == [] then []
    else OpsFields(cl, ops[..|ops| - 1]) + OpFields(cl, ops[|ops| - 1])
  }

  /** The code length code, from its lengths in transmission order. */
  function ClLens(cl: seq<nat>): (r: seq<nat>)
    requires |cl| <= 19
    ensures |r| == 19
  {
    if cl == [] then seq(19, _ => 0)
    else ClLens(cl[..|cl| - 1])[CL_ORDER[|cl| - 1] := cl[|cl| - 1]]
  }

  predicate Kraft(lens: seq<nat>) {
    KraftSum(lens, MAX_LEN) <= Pow2(MAX_LEN)
  }

  predicate HeaderOk(h: Header) {
    && 257 <= h.hlit <= 288 && 1 <= h.hdist <= 32 && 4 <= |h.cl| <= 19
    && (forall i :: 0 <= i < |h.cl| ==> h.cl[i] < 8)
    && Kraft(ClLens(h.cl)) && OpsOk(ClLens(h.cl), h.ops)
    && |Lengths(h.ops)| == h.hlit + h.hdist
    && Kraft(LitLens(h)) && Kraft(DistLens(h))
  }

  function LitLens(h: Header): seq<nat> {
    if h.hlit <= |Lengths(h.ops)| then Lengths(h.ops)[..h.hlit] else []
  }

  function DistLens(h: Header): seq<nat> {
    if h.hlit <= |Lengths(h.ops)| then Lengths(h.ops)[h.hlit..] else []
  }

  function ClFields(cl: seq<nat>): seq<Field> {
    if cl == [] then [] else ClFields(cl[..|cl| - 1]) + [Field(cl[|cl| - 1], 3)]
  }

  function CountFields(hlit: nat, hdist: nat, hclen: nat): seq<Field>
    requires 257 <= hlit && 1 <= hdist && 4 <= hclen
  {
    [Field(hlit - 257, 5), Field(hdist - 1, 5), Field(hclen - 4, 4)]
  }

  function HeaderFields(h: Header): seq<Field>
    requires HeaderOk(h)
  {
    CountFields(h.hlit, h.hdist, |h.cl|) + ClFields(h.cl) + OpsFields(ClLens(h.cl), h.ops)
  }

  // ------------------------------------------------------------------
  // Blocks
  // ------------------------------------------------------------------

  function FixedLit(): (s: seq<nat>)
    ensures |s| == 288 && LensOk(s)
  {
    seq(288, i => if i <= 143 then 8 else if i <= 255 then 9 else if i <= 279 then 7 else 8)
  }

  function FixedDist(): (s: seq<nat>)
    ensures |s| == 32 && LensOk(s)
  {
    seq(32, _ => 5)
  }

  datatype Block =
    | Stored(pad: nat, bytes: seq<byte>)
    | Fixed(tokens: seq<Token>)
    | Dynamic(header: Header, tokens: seq<Token>)

  /** Bits up to the next byte boundary, from bit position pos. */
  function Padding(pos: nat): (n: nat)
    ensures n < 8 && (pos + n) % 8 == 0
  {
    (8 - pos % 8) % 8
  }

  /** b may be written at bit position pos, with start bytes of output before it. */
  predicate BlockOk(b: Block, pos: nat, start: nat) {
    match b
    case Stored(pad, bytes) => |bytes| < 0x10000 && pad < Pow2(Padding(pos + 3))
    case Fixed(ts) => BodyOk(FixedLit(), FixedDist(), ts, start)
    case Dynamic(h, ts) => HeaderOk(h) && BodyOk(LitLens(h), DistLens(h), ts, start)
  }

  predicate BodyOk(lit: seq<nat>, dist: seq<nat>, ts: seq<Token>, start: nat) {
    TokensOk(lit, dist, ts) && Used(lit, 256) && DistancesOk(lit, dist, ts, start)
  }

  function BodyFields(lit: seq<nat>, dist: seq<nat>, ts: seq<Token>): seq<Field>
    requires TokensOk(lit, dist, ts) && Used(lit, 256)
  {
    TokensFields(lit, dist, ts) + [EndField(lit)]
  }

  /** The end mark of a block body. */
  function EndField(lit: seq<nat>): Field
    requires Used(lit, 256)
  {
    SymField(lit, 256).(kind := BlockEnd)
  }

  function ByteFields(s: seq<byte>, kind: Kind): seq<Field> {
    seq(|s|, i requires 0 <= i < |s| => Field(s[i], 8, kind))
  }

  function Word(lo: nat, hi: nat): nat {
    hi * 256 + lo
  }

  /** LEN and its complement. */
  function StoredHead(n: nat): (s: seq<byte>)
    requires n < 0x10000
    ensures |s| == 4
  {
    var c := 0xFFFF - n;
    [n % 256, n / 256, c % 256, c / 256]
  }

  function TypeBits(b: Block): nat {
    match b
    case Stored(_, _) => 0
    case Fixed(_) => 1
    case Dynamic(_, _) => 2
  }

  function BlockFields(b: Block, pos: nat, start: nat): seq<Field>
    requires BlockOk(b, pos, start)
  {
    match b
    case Stored(pad, bytes) =>
      [Field(pad, Padding(pos + 3))] + (ByteFields(StoredHead(|bytes|), Aligned) + ByteFields(bytes, Data))
    case Fixed(ts) => BodyFields(FixedLit(), FixedDist(), ts)
    case Dynamic(h, ts) => HeaderFields(h) + BodyFields(LitLens(h), DistLens(h), ts)
  }

  function BlockOutput(b: Block, pos: nat, out: seq<byte>): seq<byte>
    requires BlockOk(b, pos, |out|)
  {
    match b
    case Stored(_, bytes) => out + bytes
    case Fixed(ts) => Expand(FixedLit(), FixedDist(), ts, out)
    case Dynamic(h, ts) => Expand(LitLens(h), DistLens(h), ts, out)
  }

  datatype Option<T> = None | Some(value: T)
  datatype Encoded = Encoded(fields: seq<Field>, out: seq<byte>)

  /** The bit fields and the output of a list of blocks; the last block carries final bit `last`. */
  function Encode(bs: seq<Block>, last: bool): Option<Encoded> {
    if bs == [] then Some(Encoded([], []))
    else
      var n := |bs| - 1;
      match Encode(bs[..n], false)
      case None => None
      case Some(e) => Append(e, bs[n], last)
  }

  function BlockHead(b: Block, last: bool): seq<Field> {
    [Field(if last then 1 else 0, 1), Field(TypeBits(b), 2)]
  }

  function Append(e: Encoded, b: Block, last: bool): Option<Encoded> {
    var pos := Width(e.fields);
    if !BlockOk(b, pos, |e.out|) then None
    else Some(Encoded(
      e.fields + (BlockHead(b, last) + BlockFields(b, pos, |e.out|)),
      BlockOutput(b, pos, e.out)))
  }
}
