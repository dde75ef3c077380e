/**
  Apple icon files in imageview.cpp: the run-length decoder of one channel, the
  four channels of an ARGB icon, and the walk over the container's blocks.
*/
module Icns {
  import opened Bits

  // ------------------------------------------------------------------
  // Run-length encoding
  // ------------------------------------------------------------------

  /** A piece of an encoding: 3 to 130 copies of one value, or 1 to 128 values as they are. */
  datatype Run = Repeat(n: nat, value: byte) | Literal(values: seq<byte>)

  predicate RunOk(r: Run) {
    match r
    case Repeat(n, _) => 3 <= n <= 130
    case Literal(values) => 1 <= |values| <= 128
  }

  predicate RunsOk(runs: seq<Run>) {
    forall i :: 0 <= i < |runs| ==> RunOk(runs[i])
  }

  function RunBytes(r: Run): (s: seq<byte>)
    requires RunOk(r)
    ensures |s| >= 2
  {
    match r
    case Repeat(n, value) => [n + 125, value]
    case Literal(values) => [|values| - 1] + values
  }

  function RunValues(r: Run): seq<byte> {
    match r
    case Repeat(n, value) => seq(n, _ => value)
    case Literal(values) => values
  }

  function Encode(runs: seq<Run>): seq<byte>
    requires RunsOk(runs)
  {
    if runs == [] then [] else RunBytes(runs[0]) + Encode(runs[1..])
  }

  function Values(runs: seq<Run>): seq<byte> {
    if runs == [] then [] else RunValues(runs[0]) + Values(runs[1..])
  }

  /** What the decoder makes of the data: the plane and where it stopped. */
  datatype Decoded = Bad | Plane(values: seq<byte>, next: nat)

  function Piece(data: seq<byte>, pos: nat, left: nat): (d: Decoded)
    requires pos <= |data|
    ensures d.Plane? ==> 0 < |d.values| <= left && pos < d.next <= |data|
  {
    if pos >= |data| then Bad
    else
      var code := data[pos];
      var run := if code >= 128 then code - 125 else code + 1;
      if run > left then Bad
      else if code >= 128 then
        if pos + 1 >= |data| then Bad else Plane(seq(run, _ => data[pos + 1]), pos + 2)
      else if |data| - (pos + 1) < run then Bad
      else Plane(data[pos + 1..pos + 1 + run], pos + 1 + run)
  }

  function Decode(data: seq<byte>, pos: nat, left: nat): (d: Decoded)
    requires pos <= |data|
    ensures d.Plane? ==> |d.values| == left && pos <= d.next <= |data|
    decreases left
  {
    if left == 0 then Plane([], pos)
    else
      match Piece(data, pos, left)
      case Bad => Bad
      case Plane(values, next) =>
        Prepend(values, Decode(data, next, left - |values|))
  }

  function Prepend(values: seq<byte>, d: Decoded): Decoded {
    match d
    case Bad => Bad
    case Plane(more, end) => Plane(values + more, end)
  }

  lemma {:induction false} DecodeUnfold(data: seq<byte>, pos: nat, left: nat)
    requires pos <= |data| && left > 0
    ensures var p := Piece(data, pos, left);
      Decode(data, pos, left) == if p.Bad? then Bad else Prepend(p.values, Decode(data, p.next, left - |p.values|))
  {
    hide Piece;
  }

  // ------------------------------------------------------------------
  // Decoding inverts encoding
  // ------------------------------------------------------------------

  lemma {:induction false} PieceOfRun(data: seq<byte>, pos: nat, left: nat, r: Run)
    requires pos <= |data| && RunOk(r) && RunBytes(r) <= data[pos..] && |RunValues(r)| <= left
    ensures Piece(data, pos, left) == Plane(RunValues(r), pos + |RunBytes(r)|)
  {
    var b := RunBytes(r);
    assert data[pos] == data[pos..][0] == b[0];
    assert data[pos + 1..pos + |b|] == data[pos..][1..|b|] == b[1..];
    if r.Repeat? { assert data[pos + 1] == data[pos..][1] == b[1]; }
  }

  lemma {:induction false} Unfold(runs: seq<Run>)
    requires RunsOk(runs)
    ensures runs == [] ==> Encode(runs) == [] == Values(runs)
    ensures runs != [] ==> RunOk(runs[0]) && RunsOk(runs[1..]) && Encode(runs) == RunBytes(runs[0]) + Encode(runs[1..])
    ensures runs != [] ==> Values(runs) == RunValues(runs[0]) + Values(runs[1..])
  {
  }

  lemma {:induction false} DecodeNone(data: seq<byte>, pos: nat)
    requires pos <= |data|
    ensures Decode(data, pos, 0) == Plane([], pos)
  {
  }

  lemma {:induction false} SomeValues(r: Run)
    requires RunOk(r)
    ensures |RunValues(r)| > 0
  {
  }

  lemma {:induction false} SplitPrefix(data: seq<byte>, pos: nat, a: seq<byte>, b: seq<byte>)
    requires pos <= |data| && a + b <= data[pos..]
    ensures a <= data[pos..] && pos + |a| <= |data| && b <= data[pos + |a|..]
  {
    assert data[pos + |a|..] == data[pos..][|a|..];
    assert b == (a + b)[|a|..];
    assert a == (a + b)[..|a|];
  }

  /** Any run-length encoding of a plane decodes to it, and the decoder stops right after it, whatever follows. */
  lemma {:induction false} DecodesEncoding(data: seq<byte>, pos: nat, runs: seq<Run>)
    requires pos <= |data| && RunsOk(runs) && Encode(runs) <= data[pos..]
    ensures Decode(data, pos, |Values(runs)|) == Plane(Values(runs), pos + |Encode(runs)|)
    decreases |runs|
  {
    hide Piece, Decode, Encode, Values, RunBytes, RunValues;
    Unfold(runs);
    if runs == [] {
      DecodeNone(data, pos);
    } else {
      var b, rest := RunBytes(runs[0]), Encode(runs[1..]);
      SplitPrefix(data, pos, b, rest);
      PieceOfRun(data, pos, |Values(runs)|, runs[0]);
      SomeValues(runs[0]);
      DecodesEncoding(data, pos + |b|, runs[1..]);
      DecodeUnfold(data, pos, |Values(runs)|);
    }
  }

  /** Whatever the decoder accepts is the encoding of its result. */
  lemma {:induction false} DecodedIsEncoding(data: seq<byte>, pos: nat, left: nat) returns (runs: seq<Run>)
    requires pos <= |data| && Decode(data, pos, left).Plane?
    ensures RunsOk(runs) && Values(runs) == Decode(data, pos, left).values
    ensures data[pos..Decode(data, pos, left).next] == Encode(runs)
    decreases left
  {
    hide RunBytes, RunValues, Piece, Decode, Encode, Values, RunOk;
    if left == 0 {
      runs := [];
      DecodeNone(data, pos);
      Unfold([]);
    } else {
      var p := Piece(data, pos, left);
      DecodeUnfold(data, pos, left);
      var r := PieceIsRun(data, pos, left);
      var more := DecodedIsEncoding(data, p.next, left - |p.values|);
      runs := [r] + more;
      assert runs[1..] == more;
      Unfold(runs);
      CutAt(data, pos, p.next, Decode(data, pos, left).next);
    }
  }

  lemma {:induction false} CutAt(data: seq<byte>, a: nat, b: nat, c: nat)
    requires a <= b <= c <= |data|
    ensures data[a..c] == data[a..b] + data[b..c]
  {
  }

  lemma {:induction false} PieceIsRun(data: seq<byte>, pos: nat, left: nat) returns (r: Run)
    requires pos <= |data| && Piece(data, pos, left).Plane?
    ensures RunOk(r) && RunValues(r) == Piece(data, pos, left).values && data[pos..Piece(data, pos, left).next] == RunBytes(r)
  {
    r := if data[pos] >= 128 then Repeat(data[pos] - 125, data[pos + 1]) else Literal(Piece(data, pos, left).values);
  }

  // ------------------------------------------------------------------
  // The decoder
  // ------------------------------------------------------------------

  /** Channel c of the first pixels holds the values; nothing else differs from `before`. */
  ghost predicate ChannelHolds(now: seq<byte>, before: seq<byte>, c: nat, values: seq<byte>) {
    && |now| == |before| && c < 4 && 4 * |values| <= |now|
    && (forall i :: 0 <= i < |values| ==> now[c + 4 * i] == values[i])
    && (forall k :: 0 <= k < |now| && !(k % 4 == c && k / 4 < |values|) ==> now[k] == before[k])
  }

  lemma {:induction false} DecodeStep(data: seq<byte>, pos: nat, left: nat, got: seq<byte>)
    requires pos <= |data| && left > 0
    ensures var p := Piece(data, pos, left);
      Prepend(got, Decode(data, pos, left)) ==
        if p.Bad? then Bad else Prepend(got + p.values, Decode(data, p.next, left - |p.values|))
  {
    hide Piece, Decode;
    DecodeUnfold(data, pos, left);
    var p := Piece(data, pos, left);
    if p.Plane? {
      var d := Decode(data, p.next, left - |p.values|);
      if d.Plane? { assert got + (p.values + d.values) == got + p.values + d.values; }
    }
  }

  lemma {:induction false} PrependNothing(d: Decoded)
    ensures Prepend([], d) == d
  {
    if d.Plane? { assert [] + d.values == d.values; }
  }

  lemma {:induction false} DecodeNothing(data: seq<byte>, pos: nat, got: seq<byte>)
    requires pos <= |data|
    ensures Prepend(got, Decode(data, pos, 0)) == Plane(got, pos)
  {
    assert got + [] == got;
  }

  /** Write a piece behind what is there already. */
  method Write(out: array<byte>, c: nat, piece: seq<byte>, ghost before: seq<byte>, got: nat, ghost values: seq<byte>)
    requires |values| == got && ChannelHolds(out[..], before, c, values) && 4 * (got + |piece|) <= out.Length
    modifies out
    ensures ChannelHolds(out[..], before, c, values + piece)
  {
    var i := 0;
    while i < |piece|
      invariant 0 <= i <= |piece| && ChannelHolds(out[..], before, c, values + piece[..i])
    {
      ghost var was := out[..];
      out[c + 4 * (got + i)] := piece[i];
      OneMore(was, out[..], before, c, values + piece[..i], piece[i]);
      assert values + piece[..i] + [piece[i]] == values + piece[..i + 1];
      i := i + 1;
    }
    assert piece[..i] == piece;
  }

  lemma {:induction false} OneMore(was: seq<byte>, now: seq<byte>, before: seq<byte>, c: nat, values: seq<byte>, x: byte)
    requires ChannelHolds(was, before, c, values) && 4 * (|values| + 1) <= |was|
    requires now == was[c + 4 * |values| := x]
    ensures ChannelHolds(now, before, c, values + [x])
  {
    var at := c + 4 * |values|;
    Place(c, |values|);
    forall k | 0 <= k < |now| && !(k % 4 == c && k / 4 < |values| + 1) ensures now[k] == before[k] {
      assert k != at;
    }
  }

  lemma {:induction false} Place(c: nat, i: nat)
    requires c < 4
    ensures (c + 4 * i) % 4 == c && (c + 4 * i) / 4 == i
  {
  }

  lemma {:induction false} NothingHeld(before: seq<byte>, c: nat)
    requires c < 4
    ensures ChannelHolds(before, before, c, [])
  {
  }

  /** Values held in part of the pixels of a channel leave the rest alone. */
  lemma {:induction false} RestUntouched(now: seq<byte>, before: seq<byte>, c: nat, values: seq<byte>, pixels: nat)
    requires ChannelHolds(now, before, c, values) && |values| <= pixels
    ensures Elsewhere(now, before, c)
  {
  }

  /** Other channels are as they were. */
  predicate Elsewhere(now: seq<byte>, before: seq<byte>, c: nat) {
    |now| == |before| && forall k :: 0 <= k < |now| && k % 4 != c ==> now[k] == before[k]
  }

  /** img_icns_rle_plane: every fourth byte from c on; the other channels are untouched even when the data is bad. */
  method RlePlane(data: seq<byte>, pos0: nat, out: array<byte>, c: nat, pixels: nat) returns (ok: bool, pos: nat)
    requires pos0 <= |data| && c < 4 && 4 * pixels <= out.Length
    modifies out
    ensures pos <= |data| && Elsewhere(out[..], old(out[..]), c)
    ensures ok <==> Decode(data, pos0, pixels).Plane?
    ensures ok ==> pos == Decode(data, pos0, pixels).next
    ensures ok ==> ChannelHolds(out[..], old(out[..]), c, Decode(data, pos0, pixels).values)
  {
    hide Decode, ChannelHolds, Elsewhere, Prepend;
    pos := pos0;
    var done: nat := 0;
    ghost var got: seq<byte> := [];
    ghost var before := out[..];
    ghost var goal := Decode(data, pos0, pixels);
    NothingHeld(before, c);
    PrependNothing(goal);
    while done < pixels
      invariant done <= pixels && pos <= |data| && |got| == done
      invariant ChannelHolds(out[..], before, c, got)
      invariant goal == Prepend(got, Decode(data, pos, pixels - done))
    {
      DecodeStep(data, pos, pixels - done, got);
      RestUntouched(out[..], before, c, got, pixels);
      if pos >= |data| {
        return false, pos;
      }
      var code := data[pos];
      pos := pos + 1;
      var run := if code >= 128 then code - 125 else code + 1;
      if run > pixels - done {
        return false, pos;
      }
      var piece: seq<byte>;
      if code >= 128 {
        if pos >= |data| {
          return false, pos;
        }
        var value := data[pos];
        piece := seq(run, _ => value);
        pos := pos + 1;
      } else {
        if |data| - pos < run {
          return false, pos;
        }
        piece := data[pos..pos + run];
        pos := pos + run;
      }
      Write(out, c, piece, before, done, got);
      got := got + piece;
      done := done + run;
    }
    DecodeNothing(data, pos, got);
    RestUntouched(out[..], before, c, got, pixels);
    ok := true;
  }

  // ------------------------------------------------------------------
  // Four channels
  // ------------------------------------------------------------------

  datatype Four = NotFour | Four(a: seq<byte>, r: seq<byte>, g: seq<byte>, b: seq<byte>)

  /** Four planes, one after the other. */
  function DecodeFour(data: seq<byte>, pixels: nat): Four {
    var a := Decode(data, 0, pixels);
    if a.Bad? then NotFour
    else
      var r := Decode(data, a.next, pixels);
      if r.Bad? then NotFour
      else
        var g := Decode(data, r.next, pixels);
        if g.Bad? then NotFour
        else
          var b := Decode(data, g.next, pixels);
          if b.Bad? then NotFour else Four(a.values, r.values, g.values, b.values)
  }

  /** Encodings of four planes back to back decode independently. */
  lemma {:induction false} FourDecode(data: seq<byte>, pixels: nat, a: seq<Run>, r: seq<Run>, g: seq<Run>, b: seq<Run>)
    requires RunsOk(a) && RunsOk(r) && RunsOk(g) && RunsOk(b)
    requires |Values(a)| == |Values(r)| == |Values(g)| == |Values(b)| == pixels
    requires Encode(a) + (Encode(r) + (Encode(g) + Encode(b))) <= data
    ensures DecodeFour(data, pixels) == Four(Values(a), Values(r), Values(g), Values(b))
  {
    hide Decode, Values, Encode;
    assert data[0..] == data;
    SplitPrefix(data, 0, Encode(a), Encode(r) + (Encode(g) + Encode(b)));
    DecodesEncoding(data, 0, a);
    var p := |Encode(a)|;
    SplitPrefix(data, p, Encode(r), Encode(g) + Encode(b));
    DecodesEncoding(data, p, r);
    var q := p + |Encode(r)|;
    SplitPrefix(data, q, Encode(g), Encode(b));
    DecodesEncoding(data, q, g);
    DecodesEncoding(data, q + |Encode(g)|, b);
  }

  /** Channel c of every pixel. */
  ghost predicate Channel(out: seq<byte>, c: nat, values: seq<byte>) {
    c < 4 && 4 * |values| <= |out| && forall i :: 0 <= i < |values| ==> out[c + 4 * i] == values[i]
  }

  lemma {:induction false} ChannelIs(now: seq<byte>, before: seq<byte>, c: nat, values: seq<byte>)
    requires ChannelHolds(now, before, c, values)
    ensures Channel(now, c, values)
  {
  }

  lemma {:induction false} ChannelKept(now: seq<byte>, before: seq<byte>, c: nat, other: nat, values: seq<byte>)
    requires Channel(before, c, values) && Elsewhere(now, before, other) && other != c
    ensures Channel(now, c, values)
  {
    forall i: nat | i < |values| ensures now[c + 4 * i] == values[i] {
      Place(c, i);
    }
  }

  /** The planes of an ARGB icon: alpha, red, green and blue into their channels. */
  method ArgbPlanes(data: seq<byte>, pixels: nat, junk: byte) returns (ok: bool, out: seq<byte>)
    ensures ok <==> DecodeFour(data, pixels).Four?
    ensures ok ==>
      var d := DecodeFour(data, pixels);
      |out| == 4 * pixels && Channel(out, 3, d.a) && Channel(out, 2, d.r) && Channel(out, 1, d.g) && Channel(out, 0, d.b)
  {
    hide Decode, ChannelHolds, Channel, Elsewhere;
    out := [];
    var decoded := new byte[4 * pixels](_ => junk);
    ghost var blank := decoded[..];
    var pos;
    ok, pos := RlePlane(data, 0, decoded, 3, pixels);
    if !ok {
      return;
    }
    ghost var a := Decode(data, 0, pixels).values;
    ChannelIs(decoded[..], blank, 3, a);
    ghost var s3 := decoded[..];
    ghost var p := pos;
    ok, pos := RlePlane(data, pos, decoded, 2, pixels);
    if !ok {
      return;
    }
    ghost var r := Decode(data, p, pixels).values;
    ChannelIs(decoded[..], s3, 2, r);
    ChannelKept(decoded[..], s3, 3, 2, a);
    ghost var s2 := decoded[..];
    p := pos;
    ok, pos := RlePlane(data, pos, decoded, 1, pixels);
    if !ok {
      return;
    }
    ghost var g := Decode(data, p, pixels).values;
    ChannelIs(decoded[..], s2, 1, g);
    ChannelKept(decoded[..], s2, 3, 1, a);
    ChannelKept(decoded[..], s2, 2, 1, r);
    ghost var s1 := decoded[..];
    p := pos;
    ok, pos := RlePlane(data, pos, decoded, 0, pixels);
    if !ok {
      return;
    }
    ChannelIs(decoded[..], s1, 0, Decode(data, p, pixels).values);
    ChannelKept(decoded[..], s1, 3, 0, a);
    ChannelKept(decoded[..], s1, 2, 0, r);
    ChannelKept(decoded[..], s1, 1, 0, g);
    out := decoded[..];
  }

  // ------------------------------------------------------------------
  // The container
  // ------------------------------------------------------------------

  /** img_be32 */
  function BigEndian(data: seq<byte>, at: nat): nat
    requires at + 4 <= |data|
  {
    var a: nat, b: nat, c: nat, d: nat := data[at], data[at + 1], data[at + 2], data[at + 3];
    ((a * 256 + b) * 256 + c) * 256 + d
  }

  /** The four bytes of a number, most significant first, read as that number. */
  lemma {:induction false} BigEndianOf(v: nat, data: seq<byte>, at: nat)
    requires v < 0x1_0000_0000 && at + 4 <= |data|
    requires data[at..at + 4] == [v / 256 / 256 / 256, v / 256 / 256 % 256, v / 256 % 256, v % 256]
    ensures BigEndian(data, at) == v
  {
    hide BigEndian;
    var d := data[at..at + 4];
    assert data[at] == d[0] && data[at + 1] == d[1] && data[at + 2] == d[2] && data[at + 3] == d[3];
    FourBytes(data, at);
    Quarters(v);
  }

  lemma {:induction false} FourBytes(data: seq<byte>, at: nat)
    requires at + 4 <= |data|
    ensures var a: nat, b: nat, c: nat, d: nat := data[at], data[at + 1], data[at + 2], data[at + 3];
      BigEndian(data, at) == 256 * (256 * (256 * a + b) + c) + d
  {
  }

  lemma {:induction false} Quarters(v: nat)
    ensures 256 * (256 * (256 * (v / 256 / 256 / 256) + v / 256 / 256 % 256) + v / 256 % 256) + v % 256 == v
  {
    Quarter(v);
    Quarter(v / 256);
    Quarter(v / 256 / 256);
  }

  lemma {:induction false} Quarter(v: nat)
    ensures 256 * (v / 256) + v % 256 == v
  {
  }

  /** A block: where it starts and its whole length, header included. */
  datatype Extent = Extent(at: nat, length: nat)

  /** The blocks follow one another from pos to exactly the end of the container, each as long as its header says. */
  predicate Chain(data: seq<byte>, pos: nat, end: nat, blocks: seq<Extent>)
    decreases |blocks|
  {
    if blocks == [] then pos == end
    else
      var b := blocks[0];
      && b.at == pos && pos + 8 <= end <= |data| && b.length == BigEndian(data, pos + 4) >= 8 && b.length <= end - pos
      && Chain(data, pos + b.length, end, blocks[1..])
  }

  lemma {:induction false} ChainUnique(data: seq<byte>, pos: nat, end: nat, blocks: seq<Extent>, others: seq<Extent>)
    requires Chain(data, pos, end, blocks) && Chain(data, pos, end, others)
    ensures blocks == others
    decreases |blocks|
  {
    if blocks != [] && others != [] {
      ChainUnique(data, pos + blocks[0].length, end, blocks[1..], others[1..]);
      assert blocks == [blocks[0]] + blocks[1..] && others == [others[0]] + others[1..];
    }
  }

  lemma {:induction false} ChainMore(data: seq<byte>, pos: nat, end: nat, next: nat, blocks: seq<Extent>, b: Extent)
    requires Chain(data, pos, next, blocks) && next <= end && b.at == next
    requires next + 8 <= end <= |data| && b.length == BigEndian(data, next + 4) >= 8 && b.length <= end - next
    ensures Chain(data, pos, next + b.length, blocks + [b])
    decreases |blocks|
  {
    if blocks == [] {
      assert (blocks + [b])[1..] == [];
    } else {
      ChainMore(data, pos + blocks[0].length, end, next, blocks[1..], b);
      assert (blocks + [b])[1..] == blocks[1..] + [b];
    }
  }

  /** The first block of a chain is forced, and so is failure. */
  lemma {:induction false} ChainFrom(data: seq<byte>, pos: nat, end: nat, next: nat, done: seq<Extent>, all: seq<Extent>)
    requires Chain(data, pos, next, done) && Chain(data, pos, end, all) && next <= end <= |data|
    ensures |done| <= |all| && Chain(data, next, end, all[|done|..])
    decreases |done|
  {
    if done != [] {
      assert all != [];
      ChainFrom(data, pos + done[0].length, end, next, done[1..], all[1..]);
      assert all[1..][|done| - 1..] == all[|done|..];
    }
  }

  /** The walk of img_decode_icns: accepted exactly when the payload is partitioned into blocks, and into which. */
  method Walk(data: seq<byte>, end: nat) returns (ok: bool, blocks: seq<Extent>)
    requires 8 <= end <= |data|
    ensures ok ==> Chain(data, 8, end, blocks)
    ensures forall all :: Chain(data, 8, end, all) ==> ok && blocks == all
  {
    hide Chain;
    blocks := [];
    var pos := 8;
    assert Chain(data, 8, 8, []) by { NoBlocks(data, 8); }
    while pos < end
      invariant 8 <= pos <= end && Chain(data, 8, pos, blocks)
      decreases end - pos
    {
      forall all | Chain(data, 8, end, all)
        ensures pos + 8 <= end && BigEndian(data, pos + 4) >= 8 && BigEndian(data, pos + 4) <= end - pos
      {
        ChainFrom(data, 8, end, pos, blocks, all);
        ChainHead(data, pos, end, all[|blocks|..]);
      }
      if end - pos < 8 {
        return false, blocks;
      }
      var length := BigEndian(data, pos + 4);
      if length < 8 || length > end - pos {
        return false, blocks;
      }
      ChainMore(data, 8, end, pos, blocks, Extent(pos, length));
      blocks := blocks + [Extent(pos, length)];
      pos := pos + length;
    }
    ok := true;
    forall all | Chain(data, 8, end, all) ensures blocks == all {
      ChainUnique(data, 8, end, blocks, all);
    }
  }

  lemma {:induction false} NoBlocks(data: seq<byte>, pos: nat)
    ensures Chain(data, pos, pos, [])
  {
  }

  lemma {:induction false} ChainHead(data: seq<byte>, pos: nat, end: nat, blocks: seq<Extent>)
    requires Chain(data, pos, end, blocks) && pos < end
    ensures pos + 8 <= end <= |data| && BigEndian(data, pos + 4) >= 8 && BigEndian(data, pos + 4) <= end - pos
  {
  }

  /** Three values as they are, then runs of three, four and five. */
  lemma {:induction false} DecodeSample()
    ensures Decode([2, 1, 2, 2, 128, 3, 129, 4, 130, 5], 0, 15) == Plane([1, 2, 2, 3, 3, 3, 4, 4, 4, 4, 5, 5, 5, 5, 5], 10)
  {
    hide Decode;
    var data: seq<byte> := [2, 1, 2, 2, 128, 3, 129, 4, 130, 5];
    SamplePieces(data);
    DecodeUnfold(data, 0, 15);
    DecodeUnfold(data, 4, 12);
    DecodeUnfold(data, 6, 9);
    DecodeUnfold(data, 8, 5);
    DecodeNone(data, 10);
    hide Piece;
    assert [1, 2, 2] + ([3, 3, 3] + ([4, 4, 4, 4] + ([5, 5, 5, 5, 5] + []))) == [1, 2, 2, 3, 3, 3, 4, 4, 4, 4, 5, 5, 5, 5, 5];
  }

  lemma {:induction false} SamplePieces(data: seq<byte>)
    requires data == [2, 1, 2, 2, 128, 3, 129, 4, 130, 5]
    ensures Piece(data, 0, 15) == Plane([1, 2, 2], 4) && Piece(data, 4, 12) == Plane([3, 3, 3], 6)
    ensures Piece(data, 6, 9) == Plane([4, 4, 4, 4], 8) && Piece(data, 8, 5) == Plane([5, 5, 5, 5, 5], 10)
  {
  }
}
