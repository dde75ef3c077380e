/**
  PNG row reconstruction in stb_image.h (section 6 of RFC 2083): the filters as
  an encoder applies them, the decoder with its two alternating row buffers and
  its first-row table, and the proof that the decoder inverts every encoder.
*/
module Png {
  import opened Bits

  // ------------------------------------------------------------------
  // The Paeth predictor
  // ------------------------------------------------------------------

  /** stbi__paeth */
  function Paeth(a: int, b: int, c: int): int {
    var thresh := c * 3 - (a + b);
    var lo := if a < b then a else b;
    var hi := if a < b then b else a;
    var t0 := if hi <= thresh then lo else c;
    if thresh <= lo then hi else t0
  }

  function Abs(x: int): nat {
    if x < 0 then -x else x
  }

  /** The predictor as section 6.6 of RFC 2083 states it: the nearest of a, b, c to a + b - c, in that order. */
  function PaethPredictor(a: int, b: int, c: int): int {
    var p := a + b - c;
    var pa, pb, pc := Abs(p - a), Abs(p - b), Abs(p - c);
    if pa <= pb && pa <= pc then a else if pb <= pc then b else c
  }

  /** The branch-free form is the predictor, on all integers. */
  lemma {:induction false} PaethAgrees(a: int, b: int, c: int)
    ensures Paeth(a, b, c) == PaethPredictor(a, b, c)
  {
  }

  // ------------------------------------------------------------------
  // Filtering, as an encoder does it
  // ------------------------------------------------------------------

  type Row = seq<byte>

  /** What filter type t predicts for byte k from the byte to the left, the one above and the one above left. */
  function Predict(t: nat, row: Row, prev: Row, bpp: nat, k: nat): nat
    requires k < |row| == |prev| && bpp > 0
  {
    var a := if k >= bpp then row[k - bpp] else 0;
    var b := prev[k];
    var c := if k >= bpp then prev[k - bpp] else 0;
    if t == 0 then 0
    else if t == 1 then a
    else if t == 2 then b
    else if t == 3 then (a + b) / 2
    else PaethPredictor(a, b, c)
  }

  /** A row filtered with type t. */
  function Filter(t: nat, row: Row, prev: Row, bpp: nat): (f: Row)
    requires |row| == |prev| && bpp > 0
    ensures |f| == |row|
  {
    seq(|row|, k requires 0 <= k < |row| => (row[k] - Predict(t, row, prev, bpp, k)) % 256)
  }

  function Zeros(n: nat): (z: Row)
    ensures |z| == n
  {
    seq(n, _ => 0)
  }

  predicate RowsOk(rows: seq<Row>, n: nat) {
    forall j :: 0 <= j < |rows| ==> |rows[j]| == n
  }

  /** The row above row j; above the first row lies a row of zeros. */
  function Above(rows: seq<Row>, n: nat, j: nat): (r: Row)
    requires j <= |rows| && RowsOk(rows, n)
    ensures |r| == n
  {
    if j == 0 then Zeros(n) else rows[j - 1]
  }

  /** Where row j begins: every row has a filter type byte. */
  function RowStart(n: nat, j: nat): nat {
    j * (n + 1)
  }

  /** The half of the workspace for row j. */
  function Half(n: nat, j: nat): nat {
    if j % 2 == 0 then 0 else n
  }

  /** The data at a position is some encoder's output for the rows: each row's filter type, then the filtered row. */
  ghost predicate Encoded(data: seq<byte>, at: nat, rows: seq<Row>, n: nat, bpp: nat)
    requires bpp > 0
  {
    && RowsOk(rows, n) && at + RowStart(n, |rows|) <= |data|
    && forall j :: 0 <= j < |rows| ==> RowEncoded(data, at, rows, n, bpp, j)
  }

  ghost predicate RowEncoded(data: seq<byte>, at: nat, rows: seq<Row>, n: nat, bpp: nat, j: nat)
    requires bpp > 0 && RowsOk(rows, n) && j < |rows|
  {
    var p := at + RowStart(n, j);
    p + 1 + n <= |data| && data[p] <= 4 && data[p + 1..p + 1 + n] == Filter(data[p], rows[j], Above(rows, n, j), bpp)
  }

  /** An encoder: rows filtered with the given types. */
  function EncodeRows(types: seq<nat>, rows: seq<Row>, n: nat, bpp: nat): (data: seq<byte>)
    requires |types| == |rows| && RowsOk(rows, n) && bpp > 0 && forall j :: 0 <= j < |types| ==> types[j] <= 4
    decreases |rows|
  {
    if rows == [] then []
    else
      var j := |rows| - 1;
      EncodeRows(types[..j], rows[..j], n, bpp) + ([types[j]] + Filter(types[j], rows[j], Above(rows, n, j), bpp))
  }

  /** Its output is one of those the decoder is to accept, whatever follows it. */
  lemma {:induction false} EncoderIsOne(types: seq<nat>, rows: seq<Row>, n: nat, bpp: nat, tail: seq<byte>)
    requires |types| == |rows| && RowsOk(rows, n) && bpp > 0 && forall j :: 0 <= j < |types| ==> types[j] <= 4
    ensures |EncodeRows(types, rows, n, bpp)| == RowStart(n, |rows|)
    ensures Encoded(EncodeRows(types, rows, n, bpp) + tail, 0, rows, n, bpp)
    decreases |rows|
  {
    hide Filter, RowStart, RowEncoded, Above;
    RowStarts(0, 1, n);
    if rows != [] {
      var j := |rows| - 1;
      var last := [types[j]] + Filter(types[j], rows[j], Above(rows, n, j), bpp);
      EncoderIsOne(types[..j], rows[..j], n, bpp, last + tail);
      var front := EncodeRows(types[..j], rows[..j], n, bpp);
      var data := EncodeRows(types, rows, n, bpp) + tail;
      assert data == front + (last + tail);
      RowStarts(j, j + 1, n);
      LastRow(front, last, tail, types[j], rows, n, bpp);
      forall i | 0 <= i < j ensures RowEncoded(data, 0, rows, n, bpp, i) {
        assert RowEncoded(data, 0, rows[..j], n, bpp, i);
        SameRows(data, rows, n, bpp, j, i);
      }
    }
  }

  /** Rows below do not matter to the encoding of a row. */
  lemma {:induction false} SameRows(data: seq<byte>, rows: seq<Row>, n: nat, bpp: nat, j: nat, i: nat)
    requires bpp > 0 && RowsOk(rows, n) && i < j <= |rows| && RowsOk(rows[..j], n) && RowEncoded(data, 0, rows[..j], n, bpp, i)
    ensures RowEncoded(data, 0, rows, n, bpp, i)
  {
    hide Filter, RowStart;
    assert Above(rows, n, i) == Above(rows[..j], n, i);
  }

  lemma {:induction false} LastRow(front: seq<byte>, last: seq<byte>, tail: seq<byte>, t: nat, rows: seq<Row>, n: nat, bpp: nat)
    requires rows != [] && RowsOk(rows, n) && bpp > 0 && t <= 4 && |front| == RowStart(n, |rows| - 1)
    requires last == [t] + Filter(t, rows[|rows| - 1], Above(rows, n, |rows| - 1), bpp)
    ensures RowEncoded(front + (last + tail), 0, rows, n, bpp, |rows| - 1)
  {
    hide Filter, RowStart;
    var data := front + (last + tail);
    var q := |front|;
    assert data[q] == t;
    assert data[q + 1..q + 1 + n] == last[1..];
  }

  // ------------------------------------------------------------------
  // Undoing a row
  // ------------------------------------------------------------------

  /** Adding the prediction undoes the filter, and nothing else does. */
  ghost predicate Undoes(t: nat, f: Row, row: Row, prev: Row, bpp: nat)
    requires bpp > 0
  {
    |f| == |row| == |prev| && forall k :: 0 <= k < |row| ==> row[k] == (f[k] + Predict(t, row, prev, bpp, k)) % 256
  }

  lemma {:induction false} UndoesIffFilter(t: nat, f: Row, row: Row, prev: Row, bpp: nat)
    requires bpp > 0 && |f| == |row| == |prev|
    ensures Undoes(t, f, row, prev, bpp) <==> f == Filter(t, row, prev, bpp)
  {
    hide Predict;
    forall k | 0 <= k < |row|
      ensures row[k] == (f[k] + Predict(t, row, prev, bpp, k)) % 256 <==> f[k] == Filter(t, row, prev, bpp)[k]
    {
      ModInverse(row[k], f[k], Predict(t, row, prev, bpp, k));
    }
  }

  lemma {:induction false} ModInverse(x: byte, f: byte, p: nat)
    ensures x == (f + p) % 256 <==> f == (x - p) % 256
  {
  }

  /** The bytes of a row are determined from left to right. */
  lemma {:induction false} UndoUnique(t: nat, f: Row, row: Row, other: Row, prev: Row, bpp: nat)
    requires bpp > 0 && Undoes(t, f, row, prev, bpp) && Undoes(t, f, other, prev, bpp)
    ensures row == other
  {
    SameUpTo(t, f, row, other, prev, bpp, |f|);
  }

  lemma {:induction false} SameUpTo(t: nat, f: Row, row: Row, other: Row, prev: Row, bpp: nat, k: nat)
    requires bpp > 0 && Undoes(t, f, row, prev, bpp) && Undoes(t, f, other, prev, bpp) && k <= |f|
    ensures row[..k] == other[..k]
    decreases k
  {
    if k > 0 {
      SameUpTo(t, f, row, other, prev, bpp, k - 1);
      if k - 1 >= bpp { assert row[..k - 1][k - 1 - bpp] == other[..k - 1][k - 1 - bpp]; }
      assert Predict(t, row, prev, bpp, k - 1) == Predict(t, other, prev, bpp, k - 1);
      hide Predict;
      assert row[..k] == row[..k - 1] + [row[k - 1]] && other[..k] == other[..k - 1] + [other[k - 1]];
    }
  }

  /** The filter types of the decoder: the five standard ones and the first-row average. */
  const AVG_FIRST: nat := 5

  /** first_row_filter */
  function FirstRowFilter(t: nat): nat
    requires t <= 4
  {
    [0, 1, 0, AVG_FIRST, 1][t]
  }

  /** What the decoder adds for byte k under each of its filter types. */
  function Added(t: nat, row: Row, prev: Row, bpp: nat, k: nat): int
    requires k < |row| == |prev| && bpp > 0
  {
    var a := if k >= bpp then row[k - bpp] else 0;
    if t == 0 then 0
    else if t == 1 then a
    else if t == 2 then prev[k]
    else if t == 3 then if k < bpp then prev[k] / 2 else (prev[k] + a) / 2
    else if t == 4 then if k < bpp then prev[k] else Paeth(a, prev[k], prev[k - bpp])
    else a / 2
  }

  /** Standard filters add the prediction. */
  lemma {:induction false} AddedIsPredict(t: nat, row: Row, prev: Row, bpp: nat, k: nat)
    requires k < |row| == |prev| && bpp > 0 && t <= 4
    ensures Added(t, row, prev, bpp, k) == Predict(t, row, prev, bpp, k)
  {
    if t == 4 {
      PaethAgrees(if k >= bpp then row[k - bpp] else 0, prev[k], if k >= bpp then prev[k - bpp] else 0);
    }
  }

  /** The first-row table is filtering against a row of zeros; what the other buffer holds does not matter. */
  lemma {:induction false} FirstRowIsZeros(t: nat, row: Row, prev: Row, bpp: nat, k: nat)
    requires k < |row| == |prev| && bpp > 0 && t <= 4
    ensures Added(FirstRowFilter(t), row, prev, bpp, k) == Predict(t, row, Zeros(|row|), bpp, k)
  {
  }

  // ------------------------------------------------------------------
  // The decoder
  // ------------------------------------------------------------------

  /** The workspace for one row: buf[cur..] is being filled from raw[at..], buf[prior..] holds the row before. */
  datatype Place = Place(cur: nat, prior: nat, n: nat, at: nat, bpp: nat)

  predicate Fits(buf: array<byte>, raw: seq<byte>, p: Place) {
    && 0 < p.bpp <= p.n && p.at + p.n <= |raw| && p.cur + p.n <= buf.Length && p.prior + p.n <= buf.Length
    && (p.cur + p.n <= p.prior || p.prior + p.n <= p.cur)
  }

  ghost function AddedAt(t: nat, buf: array<byte>, raw: seq<byte>, p: Place, k: nat): int
    requires Fits(buf, raw, p) && k < p.n
    reads buf
  {
    Added(t, buf[p.cur..p.cur + p.n], buf[p.prior..p.prior + p.n], p.bpp, k)
  }

  /** The first k bytes are done, and nothing outside the current row has changed since `before`. */
  ghost predicate Undone(t: nat, buf: array<byte>, raw: seq<byte>, p: Place, k: nat, before: seq<byte>)
    requires Fits(buf, raw, p) && k <= p.n
    reads buf
  {
    && |before| == buf.Length
    && (forall i :: 0 <= i < buf.Length && !(p.cur <= i < p.cur + p.n) ==> buf[i] == before[i])
    && (forall i :: 0 <= i < k ==> buf[p.cur + i] == (raw[p.at + i] + AddedAt(t, buf, raw, p, i)) % 256)
  }

  /** What a filter adds depends only on bytes further left. */
  lemma {:induction false} AddedBefore(t: nat, row: seq<byte>, row': seq<byte>, prev: seq<byte>, bpp: nat, i: nat)
    requires 0 < bpp && |row| == |row'| == |prev| && i < |row| && row[..i] == row'[..i]
    ensures Added(t, row, prev, bpp, i) == Added(t, row', prev, bpp, i)
  {
    hide Paeth;
    assert i >= bpp ==> row[..i][i - bpp] == row[i - bpp] && row'[..i][i - bpp] == row'[i - bpp];
  }

  /** Write byte k, given what the filter adds to it. */
  method PutByte(ghost t: nat, buf: array<byte>, raw: seq<byte>, p: Place, k: nat, added: int, ghost before: seq<byte>)
    requires Fits(buf, raw, p) && k < p.n && Undone(t, buf, raw, p, k, before)
    requires added == AddedAt(t, buf, raw, p, k)
    modifies buf
    ensures Undone(t, buf, raw, p, k + 1, before)
  {
    hide Added;
    ghost var row, prev := buf[p.cur..p.cur + p.n], buf[p.prior..p.prior + p.n];
    buf[p.cur + k] := (raw[p.at + k] + added) % 256;
    assert buf[p.prior..p.prior + p.n] == prev;
    assert buf[p.cur..p.cur + p.n] == row[k := buf[p.cur + k]];
    forall i | 0 <= i <= k ensures AddedAt(t, buf, raw, p, i) == old(AddedAt(t, buf, raw, p, i)) {
      AddedBefore(t, row, buf[p.cur..p.cur + p.n], prev, p.bpp, i);
    }
  }

  method UndoNone(buf: array<byte>, raw: seq<byte>, p: Place)
    requires Fits(buf, raw, p)
    modifies buf
    ensures Undone(0, buf, raw, p, p.n, old(buf[..]))
  {
    hide Undone;
    UndoneStart(0, buf, raw, p);
    var k := 0;
    while k < p.n
      invariant 0 <= k <= p.n && Undone(0, buf, raw, p, k, old(buf[..]))
    {
      PutByte(0, buf, raw, p, k, 0, old(buf[..]));
      k := k + 1;
    }
  }

  method UndoSub(buf: array<byte>, raw: seq<byte>, p: Place)
    requires Fits(buf, raw, p)
    modifies buf
    ensures Undone(1, buf, raw, p, p.n, old(buf[..]))
  {
    hide Undone;
    UndoneStart(1, buf, raw, p);
    var k := 0;
    while k < p.bpp
      invariant 0 <= k <= p.bpp && Undone(1, buf, raw, p, k, old(buf[..]))
    {
      PutByte(1, buf, raw, p, k, 0, old(buf[..]));
      k := k + 1;
    }
    while k < p.n
      invariant p.bpp <= k <= p.n && Undone(1, buf, raw, p, k, old(buf[..]))
    {
      PutByte(1, buf, raw, p, k, buf[p.cur + k - p.bpp], old(buf[..]));
      k := k + 1;
    }
  }

  method UndoUp(buf: array<byte>, raw: seq<byte>, p: Place)
    requires Fits(buf, raw, p)
    modifies buf
    ensures Undone(2, buf, raw, p, p.n, old(buf[..]))
  {
    hide Undone;
    UndoneStart(2, buf, raw, p);
    var k := 0;
    while k < p.n
      invariant 0 <= k <= p.n && Undone(2, buf, raw, p, k, old(buf[..]))
    {
      PutByte(2, buf, raw, p, k, buf[p.prior + k], old(buf[..]));
      k := k + 1;
    }
  }

  method UndoAverage(buf: array<byte>, raw: seq<byte>, p: Place)
    requires Fits(buf, raw, p)
    modifies buf
    ensures Undone(3, buf, raw, p, p.n, old(buf[..]))
  {
    hide Undone;
    UndoneStart(3, buf, raw, p);
    var k := 0;
    while k < p.bpp
      invariant 0 <= k <= p.bpp && Undone(3, buf, raw, p, k, old(buf[..]))
    {
      PutByte(3, buf, raw, p, k, buf[p.prior + k] / 2, old(buf[..]));
      k := k + 1;
    }
    while k < p.n
      invariant p.bpp <= k <= p.n && Undone(3, buf, raw, p, k, old(buf[..]))
    {
      var up: nat, left: nat := buf[p.prior + k], buf[p.cur + k - p.bpp];
      PutByte(3, buf, raw, p, k, (up + left) / 2, old(buf[..]));
      k := k + 1;
    }
  }

  method UndoPaeth(buf: array<byte>, raw: seq<byte>, p: Place)
    requires Fits(buf, raw, p)
    modifies buf
    ensures Undone(4, buf, raw, p, p.n, old(buf[..]))
  {
    hide Undone, Paeth;
    UndoneStart(4, buf, raw, p);
    var k := 0;
    while k < p.bpp
      invariant 0 <= k <= p.bpp && Undone(4, buf, raw, p, k, old(buf[..]))
    {
      PutByte(4, buf, raw, p, k, buf[p.prior + k], old(buf[..]));
      k := k + 1;
    }
    while k < p.n
      invariant p.bpp <= k <= p.n && Undone(4, buf, raw, p, k, old(buf[..]))
    {
      var x := Paeth(buf[p.cur + k - p.bpp], buf[p.prior + k], buf[p.prior + k - p.bpp]);
      PutByte(4, buf, raw, p, k, x, old(buf[..]));
      k := k + 1;
    }
  }

  method UndoFirstAverage(buf: array<byte>, raw: seq<byte>, p: Place)
    requires Fits(buf, raw, p)
    modifies buf
    ensures Undone(AVG_FIRST, buf, raw, p, p.n, old(buf[..]))
  {
    hide Undone;
    UndoneStart(AVG_FIRST, buf, raw, p);
    var k := 0;
    while k < p.bpp
      invariant 0 <= k <= p.bpp && Undone(AVG_FIRST, buf, raw, p, k, old(buf[..]))
    {
      PutByte(AVG_FIRST, buf, raw, p, k, 0, old(buf[..]));
      k := k + 1;
    }
    while k < p.n
      invariant p.bpp <= k <= p.n && Undone(AVG_FIRST, buf, raw, p, k, old(buf[..]))
    {
      PutByte(AVG_FIRST, buf, raw, p, k, buf[p.cur + k - p.bpp] / 2, old(buf[..]));
      k := k + 1;
    }
  }

  lemma {:induction false} UndoneStart(t: nat, buf: array<byte>, raw: seq<byte>, p: Place)
    requires Fits(buf, raw, p)
    ensures Undone(t, buf, raw, p, 0, buf[..])
  {
  }

  /** One row, with the filter type its first byte names. */
  method UndoRow(buf: array<byte>, raw: seq<byte>, p: Place, filter: nat)
    requires Fits(buf, raw, p) && filter <= AVG_FIRST
    modifies buf
    ensures Undone(filter, buf, raw, p, p.n, old(buf[..]))
  {
    hide Undone;
    match filter
    case 0 => UndoNone(buf, raw, p);
    case 1 => UndoSub(buf, raw, p);
    case 2 => UndoUp(buf, raw, p);
    case 3 => UndoAverage(buf, raw, p);
    case 4 => UndoPaeth(buf, raw, p);
    case _ => UndoFirstAverage(buf, raw, p);
  }

  /** A row the workspace holds is the one whose filtering the data holds. */
  lemma {:induction false} RowUndone(t: nat, first: bool, buf: array<byte>, raw: seq<byte>, p: Place, before: seq<byte>)
    requires Fits(buf, raw, p) && t <= 4
    requires Undone(if first then FirstRowFilter(t) else t, buf, raw, p, p.n, before)
    ensures var row := buf[p.cur..p.cur + p.n];
      var prev := if first then Zeros(p.n) else buf[p.prior..p.prior + p.n];
      Undoes(t, raw[p.at..p.at + p.n], row, prev, p.bpp)
  {
    hide Added, Predict, FirstRowFilter, Zeros;
    var row := buf[p.cur..p.cur + p.n];
    var prior := buf[p.prior..p.prior + p.n];
    var prev := if first then Zeros(p.n) else prior;
    forall k | 0 <= k < p.n ensures row[k] == (raw[p.at + k] + Predict(t, row, prev, p.bpp, k)) % 256 {
      var t' := if first then FirstRowFilter(t) else t;
      assert row[k] == buf[p.cur + k] == (raw[p.at + k] + AddedAt(t', buf, raw, p, k)) % 256;
      if first {
        FirstRowIsZeros(t, row, prior, p.bpp, k);
      } else {
        AddedIsPredict(t, row, prior, p.bpp, k);
      }
    }
  }

  /** ... and the row before is still there. */
  lemma {:induction false} PriorKept(t: nat, buf: array<byte>, raw: seq<byte>, p: Place, before: seq<byte>)
    requires Fits(buf, raw, p) && Undone(t, buf, raw, p, p.n, before)
    ensures |before| == buf.Length && buf[p.prior..p.prior + p.n] == before[p.prior..p.prior + p.n]
  {
  }

  /** The rows so far are the encoded ones, and the other half of the workspace holds the last of them. */
  ghost predicate RowsDone(raw: seq<byte>, n: nat, bpp: nat, buf: seq<byte>, rows: seq<Row>)
    requires bpp > 0
  {
    && |buf| == 2 * n && Encoded(raw, 0, rows, n, bpp)
    && (rows != [] ==> (var half := Half(n, |rows| - 1); buf[half..half + n] == rows[|rows| - 1]))
  }

  lemma {:induction false} RowsStep(raw: seq<byte>, n: nat, bpp: nat, rows: seq<Row>, row: Row)
    requires bpp > 0 && Encoded(raw, 0, rows, n, bpp) && |row| == n
    requires var p := RowStart(n, |rows|);
      && p + 1 + n <= |raw| && raw[p] <= 4
      && Undoes(raw[p], raw[p + 1..p + 1 + n], row, Above(rows, n, |rows|), bpp)
    ensures Encoded(raw, 0, rows + [row], n, bpp)
  {
    hide Undoes, Filter, RowStart;
    var j := |rows|;
    var p := RowStart(n, j);
    UndoesIffFilter(raw[p], raw[p + 1..p + 1 + n], row, Above(rows, n, j), bpp);
    var all := rows + [row];
    RowStarts(j, j + 1, n);
    forall i | 0 <= i < |all| ensures RowEncoded(raw, 0, all, n, bpp, i) {
      if i < j {
        assert RowEncoded(raw, 0, rows, n, bpp, i);
        assert Above(all, n, i) == Above(rows, n, i);
      } else {
        assert Above(all, n, j) == Above(rows, n, j);
      }
    }
  }

  /** Data determines rows: two lists of rows with the same encoding are the same. */
  lemma {:induction false} EncodedUnique(data: seq<byte>, at: nat, rows: seq<Row>, others: seq<Row>, n: nat, bpp: nat, k: nat)
    requires bpp > 0 && Encoded(data, at, rows, n, bpp) && Encoded(data, at, others, n, bpp)
    requires k <= |rows| && k <= |others|
    ensures rows[..k] == others[..k]
    decreases k
  {
    hide Filter, RowStart, Undoes;
    if k > 0 {
      var j := k - 1;
      EncodedUnique(data, at, rows, others, n, bpp, j);
      if j > 0 { assert rows[..j][j - 1] == others[..j][j - 1]; }
      var prev := Above(rows, n, j);
      assert prev == Above(others, n, j);
      assert RowEncoded(data, at, rows, n, bpp, j) && RowEncoded(data, at, others, n, bpp, j);
      var p := at + RowStart(n, j);
      var f := data[p + 1..p + 1 + n];
      UndoesIffFilter(data[p], f, rows[j], prev, bpp);
      UndoesIffFilter(data[p], f, others[j], prev, bpp);
      UndoUnique(data[p], f, rows[j], others[j], prev, bpp);
      assert rows[..k] == rows[..j] + [rows[j]] && others[..k] == others[..j] + [others[j]];
    }
  }

  lemma {:induction false} RowStarts(j: nat, h: nat, n: nat)
    requires j < h
    ensures RowStart(n, j) + n + 1 == RowStart(n, j + 1) <= RowStart(n, h) && RowStart(n, 0) == 0
  {
    MulMono(j + 1, h, n + 1);
    MulDist(n + 1, j, 1);
  }

  /** Every row of the data has a filter type the standard defines. */
  ghost predicate TypesOk(raw: seq<byte>, n: nat, h: nat) {
    RowStart(n, h) <= |raw| && forall j {:trigger TypeAt(raw, n, j)} :: 0 <= j < h ==> TypeAt(raw, n, j) <= 4
  }

  function TypeAt(raw: seq<byte>, n: nat, j: nat): nat {
    if RowStart(n, j) < |raw| then raw[RowStart(n, j)] else 0
  }

  /**
    The row loop of stbi__create_png_image_raw, for rows of n bytes: whatever rows an encoder filtered, with whatever
    filter types, come back; data is refused only when it is too short or names a filter that does not exist.
  */
  method Reconstruct(raw: seq<byte>, n: nat, bpp: nat, h: nat) returns (ok: bool, rows: seq<Row>)
    requires 0 < bpp <= n
    ensures ok <==> TypesOk(raw, n, h)
    ensures ok ==> |rows| == h && Encoded(raw, 0, rows, n, bpp)
    ensures forall rs :: |rs| == h && Encoded(raw, 0, rs, n, bpp) ==> ok && rows == rs
  {
    hide Encoded, Undone, Undoes, RowsDone, Filter, RowStart;
    rows := [];
    forall rs | |rs| == h && Encoded(raw, 0, rs, n, bpp) ensures TypesOk(raw, n, h) {
      EncodedTypes(raw, rs, n, bpp);
    }
    if |raw| < RowStart(n, h) {
      return false, rows;
    }
    var buf := new byte[2 * n](_ => 0);
    var j := 0;
    NoRows(raw, n, bpp, buf[..]);
    while j < h
      invariant 0 <= j <= h && |rows| == j && RowsDone(raw, n, bpp, buf[..], rows)
      invariant forall i {:trigger TypeAt(raw, n, i)} :: 0 <= i < j ==> TypeAt(raw, n, i) <= 4
    {
      RowStarts(j, h, n);
      var at := RowStart(n, j);
      var filter := raw[at];
      if filter > 4 {
        assert TypeAt(raw, n, j) > 4;
        return false, rows;
      }
      var half := Half(n, j);
      var other := Half(n, j + 1);
      var p := Place(half, other, n, at + 1, bpp);
      ghost var before := buf[..];
      UndoRow(buf, raw, p, if j == 0 then FirstRowFilter(filter) else filter);
      RowDone(raw, buf, p, rows, before);
      rows := rows + [buf[half..half + n]];
      j := j + 1;
    }
    ok := true;
    RowsAll(raw, n, bpp, buf[..], rows);
    forall rs | |rs| == h && Encoded(raw, 0, rs, n, bpp) ensures rows == rs {
      EncodedUnique(raw, 0, rows, rs, n, bpp, h);
      assert rows[..h] == rows && rs[..h] == rs;
    }
  }

  lemma {:induction false} NoRows(raw: seq<byte>, n: nat, bpp: nat, buf: seq<byte>)
    requires bpp > 0 && |buf| == 2 * n
    ensures RowsDone(raw, n, bpp, buf, [])
  {
  }

  lemma {:induction false} RowsAll(raw: seq<byte>, n: nat, bpp: nat, buf: seq<byte>, rows: seq<Row>)
    requires bpp > 0 && RowsDone(raw, n, bpp, buf, rows)
    ensures Encoded(raw, 0, rows, n, bpp)
  {
  }

  lemma {:induction false} EncodedTypes(raw: seq<byte>, rows: seq<Row>, n: nat, bpp: nat)
    requires bpp > 0 && Encoded(raw, 0, rows, n, bpp)
    ensures TypesOk(raw, n, |rows|)
  {
    hide Filter;
    forall j | 0 <= j < |rows| ensures TypeAt(raw, n, j) <= 4 {
      assert RowEncoded(raw, 0, rows, n, bpp, j);
    }
  }

  lemma {:induction false} RowDone(raw: seq<byte>, buf: array<byte>, p: Place, rows: seq<Row>, before: seq<byte>)
    requires Fits(buf, raw, p) && buf.Length == 2 * p.n && p.at == RowStart(p.n, |rows|) + 1
    requires p.cur == Half(p.n, |rows|) && p.prior == Half(p.n, |rows| + 1) && raw[p.at - 1] <= 4
    requires RowsDone(raw, p.n, p.bpp, before, rows)
    requires var t := raw[p.at - 1]; Undone(if rows == [] then FirstRowFilter(t) else t, buf, raw, p, p.n, before)
    ensures RowsDone(raw, p.n, p.bpp, buf[..], rows + [buf[p.cur..p.cur + p.n]])
  {
    hide Encoded, Undone, Undoes, Filter, FirstRowFilter, RowStart;
    var t := raw[p.at - 1];
    var row := buf[p.cur..p.cur + p.n];
    RowUndone(t, rows == [], buf, raw, p, before);
    PriorKept(if rows == [] then FirstRowFilter(t) else t, buf, raw, p, before);
    RowsAll(raw, p.n, p.bpp, before, rows);
    AboveIs(raw, rows, p.n, p.bpp);
    if rows != [] {
      assert (|rows| - 1) % 2 == (|rows| + 1) % 2;
    }
    RowsStep(raw, p.n, p.bpp, rows, row);
  }

  lemma {:induction false} AboveIs(raw: seq<byte>, rows: seq<Row>, n: nat, bpp: nat)
    requires bpp > 0 && Encoded(raw, 0, rows, n, bpp)
    ensures RowsOk(rows, n) && Above(rows, n, |rows|) == if rows == [] then Zeros(n) else rows[|rows| - 1]
  {
  }

  // ------------------------------------------------------------------
  // Adding an alpha channel
  // ------------------------------------------------------------------

  /** stbi__create_png_alpha_expand8 for one channel; dest may be src, since the pixels are taken from the end. */
  method ExpandGrey(dest: array<byte>, src: array<byte>, x: nat)
    requires x <= src.Length && 2 * x <= dest.Length
    modifies dest
    ensures forall i :: 0 <= i < x ==> dest[2 * i] == old(src[i]) && dest[2 * i + 1] == 255
    ensures forall i :: 2 * x <= i < dest.Length ==> dest[i] == old(dest[i])
  {
    var i := x;
    while i > 0
      invariant 0 <= i <= x
      invariant forall j :: 0 <= j < i ==> src[j] == old(src[j])
      invariant forall j :: i <= j < x ==> dest[2 * j] == old(src[j]) && dest[2 * j + 1] == 255
      invariant forall j :: 2 * x <= j < dest.Length ==> dest[j] == old(dest[j])
    {
      i := i - 1;
      dest[i * 2 + 1] := 255;
      dest[i * 2] := src[i];
    }
  }

  /** ... and for three. */
  method ExpandColour(dest: array<byte>, src: array<byte>, x: nat)
    requires 3 * x <= src.Length && 4 * x <= dest.Length
    modifies dest
    ensures forall i :: 0 <= i < x ==>
      && dest[4 * i] == old(src[3 * i]) && dest[4 * i + 1] == old(src[3 * i + 1])
      && dest[4 * i + 2] == old(src[3 * i + 2]) && dest[4 * i + 3] == 255
    ensures forall i :: 4 * x <= i < dest.Length ==> dest[i] == old(dest[i])
  {
    var i := x;
    while i > 0
      invariant 0 <= i <= x
      invariant forall j :: 0 <= j < 3 * i ==> src[j] == old(src[j])
      invariant forall j :: i <= j < x ==>
        && dest[4 * j] == old(src[3 * j]) && dest[4 * j + 1] == old(src[3 * j + 1])
        && dest[4 * j + 2] == old(src[3 * j + 2]) && dest[4 * j + 3] == 255
      invariant forall j :: 4 * x <= j < dest.Length ==> dest[j] == old(dest[j])
    {
      i := i - 1;
      dest[i * 4 + 3] := 255;
      dest[i * 4 + 2] := src[i * 3 + 2];
      dest[i * 4 + 1] := src[i * 3 + 1];
      dest[i * 4] := src[i * 3];
    }
  }

  // ------------------------------------------------------------------
  // One image with every filter
  // ------------------------------------------------------------------

  const SAMPLE: seq<byte> := [0, 10, 20, 1, 30, 20, 2, 10, 15, 3, 30, 13, 4, 10, 5]
  const SAMPLE_ROWS: seq<Row> := [[10, 20], [30, 50], [40, 65], [50, 70], [60, 75]]

  /** None, sub, up, average and Paeth, in this order. */
  lemma {:induction false} SampleEncoded()
    ensures Encoded(SAMPLE, 0, SAMPLE_ROWS, 2, 1)
  {
    hide Filter, Paeth;
    SampleFilters();
    assert Above(SAMPLE_ROWS, 2, 0) == [0, 0];
    var s, r := SAMPLE, SAMPLE_ROWS;
    assert s[1..3] == [10, 20] && s[4..6] == [30, 20] && s[7..9] == [10, 15] && s[10..12] == [30, 13] && s[13..15] == [10, 5];
    assert RowEncoded(s, 0, r, 2, 1, 0);
    assert RowEncoded(s, 0, r, 2, 1, 1);
    assert RowEncoded(s, 0, r, 2, 1, 2);
    assert RowEncoded(s, 0, r, 2, 1, 3);
    assert RowEncoded(s, 0, r, 2, 1, 4);
  }

  lemma {:induction false} SampleFilters()
    ensures Filter(0, [10, 20], [0, 0], 1) == [10, 20] && Filter(1, [30, 50], [10, 20], 1) == [30, 20]
    ensures Filter(2, [40, 65], [30, 50], 1) == [10, 15] && Filter(3, [50, 70], [40, 65], 1) == [30, 13]
    ensures Filter(4, [60, 75], [50, 70], 1) == [10, 5]
  {
  }
}
