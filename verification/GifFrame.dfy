/**
  The pixel cursor of stbi__out_gif_code: where each decoded symbol goes,
  interlaced or not.  Positions are (row, column) of the whole image; the source
  keeps the same numbers scaled to byte offsets.
*/
module GifFrame {
  import opened Bits

  datatype Rect = Rect(x0: nat, y0: nat, w: nat, h: nat)

  type Cells = map<(nat, nat), byte>

  datatype Frame = Frame(
    rect: Rect, row: nat, col: nat, step: nat, parse: nat,
    cells: Cells)

  /** The cursor for an image descriptor; a rectangle of no width counts as full from the start. */
  function Begin(rect: Rect, interlaced: bool, cells: Cells): Frame {
    Frame(rect, if rect.w == 0 then rect.y0 + rect.h else rect.y0, rect.x0,
          if interlaced then 8 else 1, if interlaced then 3 else 0, cells)
  }

  /** Move on to the next interlace pass that has rows. */
  function NextPass(f: Frame): (g: Frame)
    requires f.parse <= 3
    ensures g.rect == f.rect && g.col == f.col && g.cells == f.cells && g.parse <= 3
    decreases f.parse
  {
    if f.row >= f.rect.y0 + f.rect.h && f.parse > 0 then
      var step := Pow2(f.parse);
      NextPass(f.(step := step, row := f.rect.y0 + step / 2, parse := f.parse - 1))
    else f
  }

  /** One symbol at the cursor: what stbi__out_gif_code does after its prefix is out. */
  function Put(f: Frame, sym: byte): (g: Frame)
    requires f.parse <= 3
    ensures g.rect == f.rect && g.parse <= 3
  {
    if f.row >= f.rect.y0 + f.rect.h then f
    else
      var g := f.(cells := f.cells[(f.row, f.col) := sym], col := f.col + 1);
      if g.col >= f.rect.x0 + f.rect.w then NextPass(g.(col := f.rect.x0, row := f.row + f.step)) else g
  }

  function PutAll(f: Frame, syms: seq<byte>): (g: Frame)
    requires f.parse <= 3
    ensures g.rect == f.rect && g.parse <= 3
  {
    if syms == [] then f else Put(PutAll(f, syms[..|syms| - 1]), syms[|syms| - 1])
  }

  lemma {:induction false} PutAllAppend(f: Frame, a: seq<byte>, b: seq<byte>)
    requires f.parse <= 3
    ensures PutAll(f, a + b) == PutAll(PutAll(f, a), b)
    decreases |b|
  {
    if b == [] {
      assert a + b == a;
    } else {
      var n := |b| - 1;
      PutAllAppend(f, a, b[..n]);
      assert (a + b)[..|a + b| - 1] == a + b[..n];
    }
  }

  // ------------------------------------------------------------------
  // The order of rows (Appendix E of GIF89a)
  // ------------------------------------------------------------------

  /** The interlace pass row d belongs to: every 8th from 0, every 8th from 4, every 4th from 2, every 2nd from 1. */
  function PassOf(d: nat): nat {
    if d % 8 == 0 then 0 else if d % 8 == 4 then 1 else if d % 4 == 2 then 2 else 3
  }

  /** How many rows of an h-row image come in passes before the given one. */
  function RowsBefore(h: nat, pass: nat): nat {
    var n0, n1, n2 := (h + 7) / 8, (h + 3) / 8, (h + 1) / 4;
    if pass == 0 then 0 else if pass == 1 then n0 else if pass == 2 then n0 + n1 else n0 + n1 + n2
  }

  /** Rows of a pass above row d. */
  function Within(pass: nat, d: nat): nat {
    if pass <= 1 then d / 8 else if pass == 2 then d / 4 else d / 2
  }

  /** The place of row d in the order in which an image's rows are sent. */
  function RowRank(interlaced: bool, h: nat, d: nat): nat {
    if interlaced then RowsBefore(h, PassOf(d)) + Within(PassOf(d), d) else d
  }

  /** Row k of a pass. */
  function PassRow(pass: nat, k: nat): nat {
    if pass == 0 then 8 * k else if pass == 1 then 8 * k + 4 else if pass == 2 then 4 * k + 2 else 2 * k + 1
  }

  /** The row sent in place r. */
  function RowAt(interlaced: bool, h: nat, r: nat): nat {
    if !interlaced then r
    else if r < RowsBefore(h, 1) then PassRow(0, r)
    else if r < RowsBefore(h, 2) then PassRow(1, r - RowsBefore(h, 1))
    else if r < RowsBefore(h, 3) then PassRow(2, r - RowsBefore(h, 2))
    else PassRow(3, r - RowsBefore(h, 3))
  }

  lemma {:induction false} PassRowInverse(pass: nat, k: nat)
    requires pass <= 3
    ensures PassOf(PassRow(pass, k)) == pass && Within(pass, PassRow(pass, k)) == k
  {
    if pass <= 1 {
      Eighths(k, 4 * pass, PassRow(pass, k));
    } else if pass == 2 {
      Eighths(k / 2, 4 * (k % 2) + 2, PassRow(pass, k));
    } else {
      Eighths(k / 4, 2 * (k % 4) + 1, PassRow(pass, k));
    }
  }

  lemma {:induction false} OddRow(d: nat)
    requires d % 2 == 1
    ensures PassRow(3, d / 2) == d && Within(3, d) == d / 2
    ensures d >= 3 ==> (d - 2) % 2 == 1 && (d - 2) / 2 == d / 2 - 1
    ensures Within(3, d) > 0 ==> d >= 3
  {
  }

  lemma {:induction false} LastPassOdd(d: nat)
    requires PassOf(d) == 3
    ensures d % 2 == 1
  {
    WithinInverse(d);
    var k := Within(3, d);
    assert d == 2 * k + 1;
  }

  /** The shares of the four passes make up the whole height. */
  lemma {:induction false} Shares(h: nat)
    ensures (h + 7) / 8 + (h + 3) / 8 + (h + 1) / 4 + h / 2 == h
  {
    var q, r := h / 8, h % 8;
    Parts(q, r + 7);
    Parts(q, r + 3);
    Parts(q, r + 1);
    Parts(q, r);
    SmallShares(r);
  }

  lemma {:induction false} SmallShares(r: nat)
    requires r < 8
    ensures (r + 7) / 8 + (r + 3) / 8 + (r + 1) / 4 + r / 2 == r
  {
    if r < 4 {
      assert r == 0 || r == 1 || r == 2 || r == 3;
    } else {
      assert r == 4 || r == 5 || r == 6 || r == 7;
    }
  }

  lemma {:induction false} Parts(q: nat, x: nat)
    ensures (8 * q + x) / 8 == q + x / 8 && (8 * q + x) / 4 == 2 * q + x / 4 && (8 * q + x) / 2 == 4 * q + x / 2
  {
    assert 8 * q + x == 8 * (q + x / 8) + x % 8;
    assert 8 * q + x == 4 * (2 * q + x / 4) + x % 4;
    assert 8 * q + x == 2 * (4 * q + x / 2) + x % 2;
  }

  lemma {:induction false} WithinInverse(d: nat)
    ensures PassRow(PassOf(d), Within(PassOf(d), d)) == d && PassOf(d) <= 3
  {
    Eighths(d / 8, d % 8, d);
  }

  lemma {:induction false} Eighths(q: nat, r: nat, d: nat)
    requires d == 8 * q + r && r < 8
    ensures d % 8 == r && d / 8 == q && d / 4 == 2 * q + r / 4 && d % 4 == r % 4 && d / 2 == 4 * q + r / 2
  {
    assert d == 4 * (2 * q + r / 4) + r % 4;
    assert d == 2 * (4 * q + r / 2) + r % 2;
  }

  /** A pass has exactly the rows its share of the image's height allows. */
  lemma {:induction false} PassShare(h: nat, pass: nat, k: nat)
    requires pass <= 3
    ensures RowsBefore(h, 1) <= RowsBefore(h, 2) <= RowsBefore(h, 3) <= h && RowsBefore(h, 0) == 0
    ensures PassRow(pass, k) < h <==> k + RowsBefore(h, pass) < if pass == 3 then h else RowsBefore(h, pass + 1)
  {
    Shares(h);
    if pass == 0 {
      Below(8, h + 7, k);
    } else if pass == 1 {
      Below(8, h + 3, k);
    } else if pass == 2 {
      Below(4, h + 1, k);
    } else {
      Below(2, h, k);
    }
  }

  lemma {:induction false} Below(s: nat, h: nat, k: nat)
    requires s == 2 || s == 4 || s == 8
    ensures k < h / s <==> s * k + s <= h
  {
  }

  /** Each row has one place and each place one row. */
  lemma {:induction false} RowsOnce(interlaced: bool, h: nat, d: nat)
    requires d < h
    ensures RowRank(interlaced, h, d) < h && RowAt(interlaced, h, RowRank(interlaced, h, d)) == d
    ensures RowAt(interlaced, h, d) < h && RowRank(interlaced, h, RowAt(interlaced, h, d)) == d
  {
    hide PassRow, Within, RowsBefore, PassOf;
    if interlaced {
      WithinInverse(d);
      PassShare(h, PassOf(d), Within(PassOf(d), d));
      var pass := if d < RowsBefore(h, 1) then 0 else if d < RowsBefore(h, 2) then 1 else if d < RowsBefore(h, 3) then 2 else 3;
      PassShare(h, pass, 0);
      PassShare(h, pass, d - RowsBefore(h, pass));
      PassRowInverse(pass, d - RowsBefore(h, pass));
    }
  }

  // ------------------------------------------------------------------
  // Each pixel of the rectangle once, nothing else
  // ------------------------------------------------------------------

  /** The place of the cursor's row; the height once all rows are done. */
  function Place(interlaced: bool, f: Frame): nat
    requires f.parse <= 3 && f.row >= f.rect.y0
  {
    var d := f.row - f.rect.y0;
    if interlaced then RowsBefore(f.rect.h, 3 - f.parse) + Within(3 - f.parse, d) else d
  }

  /** The cursor stands on a row of its pass, or on the first beyond the last of them. */
  predicate OnPass(interlaced: bool, f: Frame) {
    && f.parse <= 3 && f.row >= f.rect.y0
    && (var d := f.row - f.rect.y0;
        if interlaced then
          PassOf(d) == 3 - f.parse && f.step == [8, 8, 4, 2][3 - f.parse] && d < f.rect.h + f.step
        else
          f.parse == 0 && f.step == 1 && d <= f.rect.h)
  }

  predicate Valid(interlaced: bool, f: Frame) {
    && f.rect.w > 0 && OnPass(interlaced, f)
    && f.rect.x0 <= f.col < f.rect.x0 + f.rect.w
    && (f.row >= f.rect.y0 + f.rect.h ==> f.parse == 0 && f.col == f.rect.x0)
  }

  predicate Inside(r: Rect, p: (nat, nat)) {
    r.y0 <= p.0 < r.y0 + r.h && r.x0 <= p.1 < r.x0 + r.w
  }

  /** Which symbol of the frame belongs to pixel p. */
  function IndexOf(interlaced: bool, r: Rect, p: (nat, nat)): nat
    requires Inside(r, p)
  {
    RowRank(interlaced, r.h, p.0 - r.y0) * r.w + (p.1 - r.x0)
  }

  function Min(a: nat, b: nat): nat {
    if a <= b then a else b
  }

  /** Changing passes keeps the place: no row is skipped and none comes twice. */
  lemma {:induction false} NextPassKeepsPlace(f: Frame)
    requires OnPass(true, f)
    ensures OnPass(true, NextPass(f)) && Place(true, NextPass(f)) == Place(true, f)
    ensures NextPass(f).row >= f.rect.y0 + f.rect.h ==> NextPass(f).parse == 0
    decreases f.parse
  {
    hide PassOf, RowsBefore, Within, Pow2;
    if f.row >= f.rect.y0 + f.rect.h && f.parse > 0 {
      Pow2Values();
      FirstRow(f.parse);
      PassEnd(f.rect.h, 3 - f.parse, f.row - f.rect.y0);
      var g := f.(step := Pow2(f.parse), row := f.rect.y0 + Pow2(f.parse) / 2, parse := f.parse - 1);
      NextPassKeepsPlace(g);
    }
  }

  /** Where the pass after the one numbered 3 - parse begins. */
  lemma {:induction false} FirstRow(parse: nat)
    requires 1 <= parse <= 3
    ensures PassOf(Pow2(parse) / 2) == 4 - parse && Within(4 - parse, Pow2(parse) / 2) == 0
    ensures Pow2(parse) == [8, 8, 4, 2][4 - parse]
  {
    hide Pow2;
    Pow2Values();
  }

  /** The row beyond the last of a pass counts all its rows. */
  lemma {:induction false} PassEnd(h: nat, pass: nat, d: nat)
    requires pass < 3 && PassOf(d) == pass && h <= d < h + [8, 8, 4, 2][pass]
    ensures RowsBefore(h, pass) + Within(pass, d) == RowsBefore(h, pass + 1)
  {
    hide PassOf, RowsBefore, Within;
    var k := Within(pass, d);
    WithinInverse(d);
    PassShare(h, pass, k);
    if k > 0 {
      PassShare(h, pass, k - 1);
    }
  }

  /** Before the k-th symbol the cursor stands on the pixel of index k, or past the rectangle when there is none. */
  predicate At(interlaced: bool, f: Frame, k: nat) {
    Valid(interlaced, f) && k == Place(interlaced, f) * f.rect.w + (f.col - f.rect.x0)
  }

  lemma {:induction false} BeginAt(rect: Rect, interlaced: bool, cells: Cells)
    requires rect.w > 0
    ensures rect.h > 0 ==> At(interlaced, Begin(rect, interlaced, cells), 0)
  {
  }

  /** The next row of a pass. */
  lemma {:induction false} StepRow(d: nat, pass: nat)
    requires pass <= 3 && PassOf(d) == pass
    ensures var e := d + [8, 8, 4, 2][pass];
      PassOf(e) == pass && Within(pass, e) == Within(pass, d) + 1
  {
    hide PassOf, Within;
    WithinInverse(d);
    PassRowInverse(pass, Within(pass, d) + 1);
  }

  lemma {:induction false} AdvanceRow(interlaced: bool, f: Frame)
    requires Valid(interlaced, f) && f.row < f.rect.y0 + f.rect.h
    ensures var g := NextPass(f.(row := f.row + f.step, col := f.rect.x0));
      Valid(interlaced, g) && Place(interlaced, g) == Place(interlaced, f) + 1
  {
    hide PassOf, Within, RowsBefore;
    var g := f.(row := f.row + f.step, col := f.rect.x0);
    if interlaced {
      StepRow(f.row - f.rect.y0, 3 - f.parse);
      NextPassKeepsPlace(g);
    }
  }

  /** The pixel under the cursor is the one of its index, and no other has it. */
  lemma {:induction false} CursorIndex(interlaced: bool, f: Frame, k: nat)
    requires At(interlaced, f, k)
    ensures f.row < f.rect.y0 + f.rect.h ==>
      Inside(f.rect, (f.row, f.col)) && IndexOf(interlaced, f.rect, (f.row, f.col)) == k
    ensures f.row >= f.rect.y0 + f.rect.h ==> k == f.rect.h * f.rect.w
  {
    hide Place, RowRank, OnPass;
    CursorPlace(interlaced, f);
  }

  lemma {:induction false} CursorPlace(interlaced: bool, f: Frame)
    requires Valid(interlaced, f)
    ensures f.row >= f.rect.y0
    ensures Place(interlaced, f) ==
      if f.row < f.rect.y0 + f.rect.h then RowRank(interlaced, f.rect.h, f.row - f.rect.y0) else f.rect.h
  {
    if interlaced && f.row >= f.rect.y0 + f.rect.h {
      LastPlace(f.rect.h, f.row - f.rect.y0);
    }
    hide RowsBefore, Within, PassOf;
  }

  lemma {:induction false} LastPlace(h: nat, d: nat)
    requires PassOf(d) == 3 && h <= d < h + 2
    ensures RowsBefore(h, 3) + Within(3, d) == h
  {
    hide PassOf, RowsBefore, Within, PassRow;
    WithinInverse(d);
    var k := Within(3, d);
    LastPassOdd(d);
    OddRow(d);
    PassShare(h, 3, k);
    if k > 0 {
      OddRow(d - 2);
      PassShare(h, 3, k - 1);
    }
  }

  /** Different pixels have different indices, and all indices are below the area. */
  lemma {:induction false} IndexOnce(interlaced: bool, r: Rect, p: (nat, nat), q: (nat, nat))
    requires Inside(r, p) && Inside(r, q)
    ensures IndexOf(interlaced, r, p) < r.w * r.h
    ensures IndexOf(interlaced, r, p) == IndexOf(interlaced, r, q) ==> p == q
  {
    hide RowRank, RowAt;
    var d, e := p.0 - r.y0, q.0 - r.y0;
    RowsOnce(interlaced, r.h, d);
    RowsOnce(interlaced, r.h, e);
    MixedRadix(RowRank(interlaced, r.h, d), p.1 - r.x0, RowRank(interlaced, r.h, e), q.1 - r.x0, r.w, r.h);
  }

  lemma {:induction false} MixedRadix(a: nat, b: nat, c: nat, d: nat, w: nat, h: nat)
    requires b < w && d < w && a < h && c < h
    ensures a * w + b < w * h
    ensures a * w + b == c * w + d ==> a == c && b == d
  {
    MulMono(a + 1, h, w);
    if a < c { MulMono(a + 1, c, w); }
    if c < a { MulMono(c + 1, a, w); }
  }

  lemma {:induction false} PutAt(interlaced: bool, f: Frame, k: nat, sym: byte)
    requires At(interlaced, f, k) && f.row < f.rect.y0 + f.rect.h
    ensures At(interlaced, Put(f, sym), k + 1)
    ensures Put(f, sym).cells == f.cells[(f.row, f.col) := sym]
  {
    hide NextPass, RowsBefore, Within, PassOf;
    if f.col + 1 >= f.rect.x0 + f.rect.w {
      var g := f.(cells := f.cells[(f.row, f.col) := sym]);
      AdvanceRow(interlaced, g);
      assert g.(row := f.row + f.step, col := f.rect.x0) == g.(col := f.rect.x0, row := f.row + f.step);
      assert (Place(interlaced, f) + 1) * f.rect.w == Place(interlaced, f) * f.rect.w + f.rect.w;
    }
  }

  /**
    What a frame holds after any number of symbols: pixel p of the rectangle holds the symbol of its index if there
    is one, every other pixel of the image is as it was, and symbols beyond the area have no effect.
  */
  ghost predicate Painted(interlaced: bool, rect: Rect, before: Cells, syms: seq<byte>, after: Cells) {
    && (forall p: (nat, nat) :: Inside(rect, p) && IndexOf(interlaced, rect, p) < |syms| ==>
          p in after && after[p] == syms[IndexOf(interlaced, rect, p)])
    && (forall p: (nat, nat) :: !(Inside(rect, p) && IndexOf(interlaced, rect, p) < |syms|) ==>
          (p in after <==> p in before) && (p in before ==> after[p] == before[p]))
  }

  lemma {:induction false} PaintedByPut(interlaced: bool, rect: Rect, before: Cells, syms: seq<byte>)
    ensures Painted(interlaced, rect, before, syms, PutAll(Begin(rect, interlaced, before), syms).cells)
    ensures rect.w > 0 && rect.h > 0 ==>
      At(interlaced, PutAll(Begin(rect, interlaced, before), syms), Min(|syms|, rect.w * rect.h))
    decreases |syms|
  {
    var f0 := Begin(rect, interlaced, before);
    if rect.w == 0 || rect.h == 0 {
      NoneFits(f0, syms);
    } else if syms == [] {
      BeginAt(rect, interlaced, before);
    } else {
      hide NextPass, At, IndexOf;
      var n := |syms| - 1;
      PaintedByPut(interlaced, rect, before, syms[..n]);
      PaintOne(interlaced, rect, before, syms, PutAll(f0, syms[..n]));
    }
  }

  lemma {:induction false} NoneFits(f: Frame, syms: seq<byte>)
    requires f.parse <= 3 && f.row >= f.rect.y0 + f.rect.h
    ensures PutAll(f, syms) == f
    decreases |syms|
  {
    if syms != [] { NoneFits(f, syms[..|syms| - 1]); }
  }

  lemma {:induction false} PaintOne(interlaced: bool, rect: Rect, before: Cells, syms: seq<byte>, f: Frame)
    requires rect.w > 0 && rect.h > 0 && syms != [] && f.rect == rect && f.parse <= 3
    requires At(interlaced, f, Min(|syms| - 1, rect.w * rect.h))
    requires Painted(interlaced, rect, before, syms[..|syms| - 1], f.cells)
    ensures var g := Put(f, syms[|syms| - 1]);
      && Painted(interlaced, rect, before, syms, g.cells)
      && At(interlaced, g, Min(|syms|, rect.w * rect.h))
  {
    hide NextPass, Put, IndexOf, OnPass, Painted, At;
    var k := Min(|syms| - 1, rect.w * rect.h);
    CursorIndex(interlaced, f, k);
    if f.row < rect.y0 + rect.h {
      PutAt(interlaced, f, k, syms[|syms| - 1]);
      IndexOnce(interlaced, rect, (f.row, f.col), (f.row, f.col));
      PaintPixel(interlaced, rect, before, syms, f.cells, (f.row, f.col));
    } else {
      Full(f, syms[|syms| - 1]);
      PaintNothing(interlaced, rect, before, syms, f.cells);
    }
  }

  lemma {:induction false} PaintPixel(
      interlaced: bool, rect: Rect, before: Cells, syms: seq<byte>, cells: Cells, p: (nat, nat))
    requires syms != [] && Inside(rect, p) && IndexOf(interlaced, rect, p) == |syms| - 1
    requires Painted(interlaced, rect, before, syms[..|syms| - 1], cells)
    ensures Painted(interlaced, rect, before, syms, cells[p := syms[|syms| - 1]])
  {
    hide IndexOf;
    forall q: (nat, nat) | Inside(rect, q) && IndexOf(interlaced, rect, q) == |syms| - 1 ensures q == p {
      IndexOnce(interlaced, rect, q, p);
    }
  }

  lemma {:induction false} PaintNothing(interlaced: bool, rect: Rect, before: Cells, syms: seq<byte>, cells: Cells)
    requires |syms| > rect.w * rect.h
    requires Painted(interlaced, rect, before, syms[..|syms| - 1], cells)
    ensures Painted(interlaced, rect, before, syms, cells)
  {
    hide IndexOf;
    forall q: (nat, nat) | Inside(rect, q) ensures IndexOf(interlaced, rect, q) < rect.w * rect.h {
      IndexOnce(interlaced, rect, q, q);
    }
  }

  lemma {:induction false} Full(f: Frame, sym: byte)
    requires f.parse <= 3 && f.row >= f.rect.y0 + f.rect.h
    ensures Put(f, sym) == f
  {
  }

  /** An interlaced image of eight rows is sent in this order. */
  lemma {:induction false} EightRows()
    ensures RowRank(true, 8, 0) == 0 && RowRank(true, 8, 4) == 1 && RowRank(true, 8, 2) == 2 && RowRank(true, 8, 6) == 3
    ensures RowRank(true, 8, 1) == 4 && RowRank(true, 8, 3) == 5 && RowRank(true, 8, 5) == 6 && RowRank(true, 8, 7) == 7
  {
  }
}
