/**
  Interlaced PNG images in stb_image.h (section 2.6 of RFC 2083): the placement
  of the seven passes, and an interlaced image from its passes' data.
*/
module Adam7 {
  import opened Bits
  import opened Png

  function XOrigin(p: nat): nat
    requires p < 7
  {
    [0, 4, 0, 2, 0, 1, 0][p]
  }

  function YOrigin(p: nat): nat
    requires p < 7
  {
    [0, 0, 4, 0, 2, 0, 1][p]
  }

  function XSpacing(p: nat): (s: nat)
    requires p < 7
    ensures s > 0
  {
    [8, 8, 4, 4, 2, 2, 1][p]
  }

  function YSpacing(p: nat): (s: nat)
    requires p < 7
    ensures s > 0
  {
    [8, 8, 8, 4, 4, 2, 2][p]
  }

  /** Width of a pass; the numerator is never negative. */
  function PassWidth(w: nat, p: nat): nat
    requires p < 7
  {
    (w - XOrigin(p) + XSpacing(p) - 1) / XSpacing(p)
  }

  function PassHeight(h: nat, p: nat): nat
    requires p < 7
  {
    (h - YOrigin(p) + YSpacing(p) - 1) / YSpacing(p)
  }

  /** Which pass sends pixel (x, y): row by row of the 8-by-8 pattern of section 2.6. */
  function PassOf(x: nat, y: nat): (p: nat)
    ensures p < 7
  {
    Pattern(x % 2, x % 4, x % 8, y % 2, y % 4, y % 8)
  }

  function Pattern(x2: nat, x4: nat, x8: nat, y2: nat, y4: nat, y8: nat): (p: nat)
    ensures p < 7
  {
    if y2 == 1 then 6
    else if x2 == 1 then 5
    else if y4 == 2 then 4
    else if x4 == 2 then 3
    else if y8 == 4 then 2
    else if x8 == 4 then 1
    else 0
  }

  function Column(x: nat, p: nat): nat
    requires p < 7
  {
    x / XSpacing(p)
  }

  function Line(y: nat, p: nat): nat
    requires p < 7
  {
    y / YSpacing(p)
  }

  function X(i: nat, p: nat): nat
    requires p < 7
  {
    i * XSpacing(p) + XOrigin(p)
  }

  function Y(j: nat, p: nat): nat
    requires p < 7
  {
    j * YSpacing(p) + YOrigin(p)
  }

  /** Places along one axis: origin o, spacing s, size n. */
  lemma {:induction false} Axis(s: nat, o: nat, n: nat, i: nat)
    requires (s == 1 || s == 2 || s == 4 || s == 8) && o < s
    ensures i < (n - o + s - 1) / s <==> i * s + o < n
    ensures (i * s + o) / s == i && (i * s + o) % s == o
  {
    if s == 2 {
      assert (i * 2 + o) / 2 == i;
    } else if s == 4 {
      assert (i * 4 + o) / 4 == i;
    } else if s == 8 {
      assert (i * 8 + o) / 8 == i;
    }
  }

  lemma {:induction false} AxisBack(s: nat, o: nat, x: nat)
    requires s > 0 && x % s == o
    ensures x / s * s + o == x
  {
  }

  lemma {:induction false} Mods(x: nat)
    ensures x % 4 == x % 8 % 4 && x % 2 == x % 8 % 2
  {
    var q, r := x / 8, x % 8;
    Axis(4, r % 4, 0, 2 * q + r / 4);
    Axis(2, r % 2, 0, 4 * q + r / 2);
    assert (2 * q + r / 4) * 4 + r % 4 == x && (4 * q + r / 2) * 2 + r % 2 == x;
  }

  /** A pass sends the pixels congruent to its origin in both directions that no earlier pass sent. */
  lemma {:induction false} PassIff(x: nat, y: nat, p: nat)
    requires p < 7
    ensures PassOf(x, y) == p <==> x % XSpacing(p) == XOrigin(p) && y % YSpacing(p) == YOrigin(p)
  {
    hide Pattern, XOrigin, YOrigin, XSpacing, YSpacing;
    Parities(x);
    Parities(y);
    ResidueOf(x, y, p);
    PatternIff(x % 2, x % 4, x % 8, y % 2, y % 4, y % 8, p);
  }

  /** Residues of one number, as far as the pattern distinguishes them. */
  predicate Consistent(x2: nat, x4: nat, x8: nat) {
    && (x2 == 0 || x2 == 1) && (x2 == 0 <==> x4 == 0 || x4 == 2) && (x4 == 0 <==> x8 == 0 || x8 == 4)
  }

  lemma {:induction false} Parities(x: nat)
    ensures Consistent(x % 2, x % 4, x % 8)
  {
    Mods(x);
    SmallParities(x % 8);
  }

  lemma {:induction false} SmallParities(r: nat)
    requires r < 8
    ensures Consistent(r % 2, r % 4, r)
  {
    if r < 4 {
      assert r == 0 || r == 1 || r == 2 || r == 3;
    } else {
      assert r == 4 || r == 5 || r == 6 || r == 7;
    }
  }

  /** The residue of one number by a pass's spacing. */
  function Residue(spacing: nat, x2: nat, x4: nat, x8: nat): nat {
    if spacing == 8 then x8 else if spacing == 4 then x4 else if spacing == 2 then x2 else 0
  }

  lemma {:induction false} ResidueOf(x: nat, y: nat, p: nat)
    requires p < 7
    ensures x % XSpacing(p) == Residue(XSpacing(p), x % 2, x % 4, x % 8)
    ensures y % YSpacing(p) == Residue(YSpacing(p), y % 2, y % 4, y % 8)
  {
    hide XSpacing, YSpacing, XOrigin, YOrigin;
    Spacings(p);
  }

  lemma {:induction false} PatternIff(x2: nat, x4: nat, x8: nat, y2: nat, y4: nat, y8: nat, p: nat)
    requires p < 7 && Consistent(x2, x4, x8) && Consistent(y2, y4, y8)
    ensures Pattern(x2, x4, x8, y2, y4, y8) == p <==>
      Residue(XSpacing(p), x2, x4, x8) == XOrigin(p) && Residue(YSpacing(p), y2, y4, y8) == YOrigin(p)
  {
  }

  lemma {:induction false} Spacings(p: nat)
    requires p < 7
    ensures (XSpacing(p) == 1 || XSpacing(p) == 2 || XSpacing(p) == 4 || XSpacing(p) == 8) && XOrigin(p) < XSpacing(p)
    ensures (YSpacing(p) == 1 || YSpacing(p) == 2 || YSpacing(p) == 4 || YSpacing(p) == 8) && YOrigin(p) < YSpacing(p)
  {
  }

  /** Every place of every pass is a pixel, and that pixel's own place. */
  lemma {:induction false} PlaceIsPixel(w: nat, h: nat, p: nat, i: nat, j: nat)
    requires p < 7 && i < PassWidth(w, p) && j < PassHeight(h, p)
    ensures X(i, p) < w && Y(j, p) < h
    ensures PassOf(X(i, p), Y(j, p)) == p && Column(X(i, p), p) == i && Line(Y(j, p), p) == j
  {
    hide XSpacing, YSpacing, XOrigin, YOrigin, PassOf;
    Spacings(p);
    Axis(XSpacing(p), XOrigin(p), w, i);
    Axis(YSpacing(p), YOrigin(p), h, j);
    PassIff(X(i, p), Y(j, p), p);
  }

  /** Every pixel has a place. */
  lemma {:induction false} PixelHasPlace(w: nat, h: nat, x: nat, y: nat)
    requires x < w && y < h
    ensures var p := PassOf(x, y);
      && Column(x, p) < PassWidth(w, p) && Line(y, p) < PassHeight(h, p)
      && X(Column(x, p), p) == x && Y(Line(y, p), p) == y
  {
    hide XSpacing, YSpacing, XOrigin, YOrigin, PassOf;
    var p := PassOf(x, y);
    Spacings(p);
    PassIff(x, y, p);
    AxisBack(XSpacing(p), XOrigin(p), x);
    AxisBack(YSpacing(p), YOrigin(p), y);
    Axis(XSpacing(p), XOrigin(p), w, x / XSpacing(p));
    Axis(YSpacing(p), YOrigin(p), h, y / YSpacing(p));
  }

  // ------------------------------------------------------------------
  // Passes of an image
  // ------------------------------------------------------------------

  /** One pixel: bpp bytes. */
  type Pixel = seq<byte>

  /** Pixel i of a row of bytes. */
  function PixelAt(row: Row, bpp: nat, i: nat): Pixel {
    if (i + 1) * bpp <= |row| then row[i * bpp..(i + 1) * bpp] else []
  }

  /** An image: its pixel in column x of row y. */
  type Image = (nat, nat) -> Pixel

  /** The row of bytes of pass p for line j. */
  function PassRow(img: Image, w: nat, bpp: nat, p: nat, j: nat): Row
    requires p < 7
  {
    Flat(img, p, j, PassWidth(w, p))
  }

  function Flat(img: Image, p: nat, j: nat, n: nat): Row
    requires p < 7
  {
    if n == 0 then [] else Flat(img, p, j, n - 1) + img(X(n - 1, p), Y(j, p))
  }

  function PassRows(img: Image, w: nat, h: nat, bpp: nat, p: nat): (rows: seq<Row>)
    requires p < 7
    ensures |rows| == PassHeight(h, p)
  {
    seq(PassHeight(h, p), j requires 0 <= j => PassRow(img, w, bpp, p, j))
  }

  predicate ImageOk(img: Image, w: nat, h: nat, bpp: nat) {
    forall x: nat, y: nat :: x < w && y < h ==> |img(x, y)| == bpp
  }

  /** The bytes pass p takes up, filter types included; an empty pass takes none. */
  function PassLength(w: nat, h: nat, bpp: nat, p: nat): nat
    requires p < 7
  {
    if PassWidth(w, p) > 0 && PassHeight(h, p) > 0 then RowStart(PassWidth(w, p) * bpp, PassHeight(h, p)) else 0
  }

  function PassStart(w: nat, h: nat, bpp: nat, p: nat): nat
    requires p <= 7
  {
    if p == 0 then 0 else PassStart(w, h, bpp, p - 1) + PassLength(w, h, bpp, p - 1)
  }

  /** The data is some encoder's interlaced form of the image: pass after pass, each filtered as an image of its own. */
  ghost predicate Interlaced(data: seq<byte>, img: Image, w: nat, h: nat, bpp: nat)
    requires bpp > 0
  {
    && ImageOk(img, w, h, bpp)
    && forall p {:trigger PassStart(w, h, bpp, p)} :: 0 <= p < 7 && PassWidth(w, p) > 0 && PassHeight(h, p) > 0 ==>
         Encoded(data, PassStart(w, h, bpp, p), PassRows(img, w, h, bpp, p), PassWidth(w, p) * bpp, bpp)
  }

  lemma {:induction false} FlatPixel(img: Image, w: nat, h: nat, bpp: nat, p: nat, j: nat, n: nat, i: nat)
    requires p < 7 && ImageOk(img, w, h, bpp) && n <= PassWidth(w, p) && j < PassHeight(h, p)
    ensures |Flat(img, p, j, n)| == n * bpp
    ensures i < n ==> PixelAt(Flat(img, p, j, n), bpp, i) == img(X(i, p), Y(j, p))
    decreases n
  {
    hide X, Y, PassWidth, PassHeight, PixelAt;
    if n > 0 {
      FlatPixel(img, w, h, bpp, p, j, n - 1, i);
      PlaceIsPixel(w, h, p, n - 1, j);
      PixelAppend(Flat(img, p, j, n - 1), img(X(n - 1, p), Y(j, p)), bpp, n - 1, i);
    }
  }

  lemma {:induction false} PixelAppend(f: Row, px: Pixel, bpp: nat, n: nat, i: nat)
    requires |f| == n * bpp && |px| == bpp
    ensures |f + px| == (n + 1) * bpp
    ensures i < n ==> PixelAt(f + px, bpp, i) == PixelAt(f, bpp, i)
    ensures PixelAt(f + px, bpp, n) == px
  {
    MulDist(bpp, n, 1);
    var a, b := i * bpp, (i + 1) * bpp;
    if i < n {
      MulMono(i + 1, n, bpp);
      MulDist(bpp, i, 1);
      SliceOfFirst(f, px, a, b);
    }
    SliceOfSecond(f, px, (n + 1) * bpp);
  }

  lemma {:induction false} SliceOfFirst(f: Row, g: Row, a: nat, b: nat)
    requires a <= b <= |f|
    ensures (f + g)[a..b] == f[a..b]
  {
  }

  lemma {:induction false} SliceOfSecond(f: Row, g: Row, b: nat)
    requires b == |f| + |g|
    ensures (f + g)[|f|..b] == g
  {
  }

  lemma {:induction false} EncodedFrom(data: seq<byte>, at: nat, rows: seq<Row>, n: nat, bpp: nat)
    requires bpp > 0 && at <= |data| && Encoded(data, at, rows, n, bpp)
    ensures Encoded(data[at..], 0, rows, n, bpp)
  {
    hide Filter, RowStart;
    var rest := data[at..];
    forall j | 0 <= j < |rows| ensures RowEncoded(rest, 0, rows, n, bpp, j) {
      assert RowEncoded(data, at, rows, n, bpp, j);
      var q := RowStart(n, j);
      assert rest[q] == data[at + q];
      assert rest[q + 1..q + 1 + n] == data[at + q + 1..at + q + 1 + n];
    }
  }

  /** The pixels of passes before p, as far as placed, come from the passes' rows. */
  ghost predicate Placed(final: array2<Pixel>, bpp: nat, passes: seq<seq<Row>>)
    reads final
  {
    && |passes| <= 7
    && forall x: nat, y: nat {:trigger final[y, x]} :: x < final.Length1 && y < final.Length0 && PassOf(x, y) < |passes| ==>
         FromPass(bpp, passes[PassOf(x, y)], x, y, final[y, x])
  }

  predicate FromPass(bpp: nat, rows: seq<Row>, x: nat, y: nat, px: Pixel) {
    var p := PassOf(x, y);
    Line(y, p) < |rows| && px == PixelAt(rows[Line(y, p)], bpp, Column(x, p))
  }

  /** Copy the pixels of one pass to their places. */
  method PlacePass(final: array2<Pixel>, bpp: nat, p: nat, rows: seq<Row>)
    requires p < 7 && |rows| == PassHeight(final.Length0, p)
    modifies final
    ensures forall x: nat, y: nat {:trigger final[y, x]} :: x < final.Length1 && y < final.Length0 ==>
      if PassOf(x, y) == p then FromPass(bpp, rows, x, y, final[y, x]) else final[y, x] == old(final[y, x])
  {
    hide PassOf, X, Y, PassWidth, PassHeight, Line, Column;
    var w, h := final.Length1, final.Length0;
    var pw := PassWidth(w, p);
    var j: nat := 0;
    while j < |rows|
      invariant j <= |rows|
      invariant forall x: nat, y: nat {:trigger final[y, x]} :: x < w && y < h ==>
        if PassOf(x, y) == p && Line(y, p) < j then FromPass(bpp, rows, x, y, final[y, x])
        else final[y, x] == old(final[y, x])
    {
      var i: nat := 0;
      while i < pw
        invariant i <= pw
        invariant forall x: nat, y: nat {:trigger final[y, x]} :: x < w && y < h ==>
          if PassOf(x, y) == p && (Line(y, p) < j || (Line(y, p) == j && Column(x, p) < i)) then FromPass(bpp, rows, x, y, final[y, x])
          else final[y, x] == old(final[y, x])
      {
        PlaceIsPixel(w, h, p, i, j);
        forall x: nat, y: nat | x < w && y < h && PassOf(x, y) == p && Line(y, p) == j && Column(x, p) == i
          ensures x == X(i, p) && y == Y(j, p)
        {
          PixelHasPlace(w, h, x, y);
        }
        final[Y(j, p), X(i, p)] := PixelAt(rows[j], bpp, i);
        i := i + 1;
      }
      forall x: nat, y: nat | x < w && y < h && PassOf(x, y) == p ensures Column(x, p) < pw {
        PixelHasPlace(w, h, x, y);
      }
      j := j + 1;
    }
    forall x: nat, y: nat | x < w && y < h && PassOf(x, y) == p ensures Line(y, p) < |rows| {
      PixelHasPlace(w, h, x, y);
    }
  }

  /** The rows read so far are those of every image the data may encode. */
  ghost predicate PassesRead(data: seq<byte>, w: nat, h: nat, bpp: nat, passes: seq<seq<Row>>)
    requires bpp > 0
  {
    |passes| <= 7 &&
    forall img: Image :: Interlaced(data, img, w, h, bpp) ==> PassesOf(img, w, h, bpp, passes)
  }

  ghost predicate PassesOf(img: Image, w: nat, h: nat, bpp: nat, passes: seq<seq<Row>>) {
    |passes| <= 7 &&
    forall p :: 0 <= p < |passes| && PassWidth(w, p) > 0 && PassHeight(h, p) > 0 ==> passes[p] == PassRows(img, w, h, bpp, p)
  }

  lemma {:induction false} PassData(data: seq<byte>, w: nat, h: nat, bpp: nat, img: Image, p: nat)
    requires bpp > 0 && p < 7 && PassWidth(w, p) > 0 && PassHeight(h, p) > 0 && Interlaced(data, img, w, h, bpp)
    requires PassStart(w, h, bpp, p) <= |data|
    ensures Encoded(data[PassStart(w, h, bpp, p)..], 0, PassRows(img, w, h, bpp, p), PassWidth(w, p) * bpp, bpp)
  {
    hide Encoded, PassRows, PassWidth, PassHeight;
    EncodedFrom(data, PassStart(w, h, bpp, p), PassRows(img, w, h, bpp, p), PassWidth(w, p) * bpp, bpp);
  }

  lemma {:induction false} PlacedIs(final: array2<Pixel>, bpp: nat, passes: seq<seq<Row>>, img: Image, x: nat, y: nat)
    requires |passes| == 7 && Placed(final, bpp, passes) && x < final.Length1 && y < final.Length0
    requires ImageOk(img, final.Length1, final.Length0, bpp)
    requires PassesOf(img, final.Length1, final.Length0, bpp, passes)
    ensures final[y, x] == img(x, y)
  {
    hide PassOf, X, Y, PassWidth, PassHeight, Line, Column;
    var w, h := final.Length1, final.Length0;
    var p := PassOf(x, y);
    PixelHasPlace(w, h, x, y);
    var i, j := Column(x, p), Line(y, p);
    assert FromPass(bpp, passes[p], x, y, final[y, x]);
    assert passes[p] == PassRows(img, w, h, bpp, p);
    FlatPixel(img, w, h, bpp, p, j, PassWidth(w, p), i);
  }

  lemma {:induction false} EmptyPass(w: nat, h: nat, p: nat, x: nat, y: nat)
    requires p < 7 && (PassWidth(w, p) == 0 || PassHeight(h, p) == 0) && x < w && y < h
    ensures PassOf(x, y) != p
  {
    hide PassOf, PassWidth, PassHeight, Line, Column, X, Y;
    PixelHasPlace(w, h, x, y);
  }

  /**
    The interlaced branch of stbi__create_png_image for eight-bit samples: any image in any encoder's interlaced form
    comes back pixel for pixel, whatever its size and whichever of its passes are empty; data is refused only when a
    pass is too short or names a filter that does not exist, and what is accepted is the form of one image.
  */
  method CreateInterlaced(data: seq<byte>, w: nat, h: nat, bpp: nat) returns (ok: bool, final: array2<Pixel>)
    requires bpp > 0
    ensures final.Length1 == w && final.Length0 == h
    ensures ok <==> PassesOk(data, w, h, bpp)
    ensures ok ==> exists img: Image :: Interlaced(data, img, w, h, bpp)
    ensures forall img: Image :: Interlaced(data, img, w, h, bpp) ==>
      ok && forall x: nat, y: nat {:trigger final[y, x]} :: x < w && y < h ==> final[y, x] == img(x, y)
  {
    hide PassOf, PassWidth, PassHeight, Interlaced, FromPass, PassesOf, Encoded, TypesOk, PassRows, RowStart, PassHolds;
    final := new Pixel[h, w]((_, _) => []);
    ok := false;
    var p: nat, at: nat := 0, 0;
    ghost var passes: seq<seq<Row>> := [];
    assert PassesRead(data, w, h, bpp, passes) by { NoPasses(data, w, h, bpp); }
    while p < 7
      invariant p <= 7 && |passes| == p && at == PassStart(w, h, bpp, p) <= |data|
      invariant Placed(final, bpp, passes) && PassesRead(data, w, h, bpp, passes)
      invariant forall q: nat {:trigger PassHolds(data, w, h, bpp, q, passes[q])} :: q < p ==> PassHolds(data, w, h, bpp, q, passes[q])
      invariant forall q: nat {:trigger PassOk(data, w, h, bpp, q)} :: q < p ==> PassOk(data, w, h, bpp, q)
    {
      var x, y := PassWidth(w, p), PassHeight(h, p);
      ghost var rows: seq<Row> := [];
      if x > 0 && y > 0 {
        forall img: Image | Interlaced(data, img, w, h, bpp)
          ensures Encoded(data[at..], 0, PassRows(img, w, h, bpp, p), x * bpp, bpp)
        {
          PassData(data, w, h, bpp, img, p);
        }
        MulMono(1, x, bpp);
        var good, found := Reconstruct(data[at..], x * bpp, bpp, y);
        if !good {
          assert !PassOk(data, w, h, bpp, p);
          return;
        }
        FoundHolds(data, w, h, bpp, p, found);
        rows := found;
        LongEnough(data[at..], x * bpp, y);
        PlacePass(final, bpp, p, found);
        at := at + RowStart(x * bpp, y);
      } else {
        EmptyHolds(data, w, h, bpp, p);
        forall x: nat, y: nat | x < w && y < h ensures PassOf(x, y) != p {
          EmptyPass(w, h, p, x, y);
        }
      }
      MorePasses(data, w, h, bpp, passes, rows);
      passes := passes + [rows];
      p := p + 1;
    }
    ok := true;
    AssembledIsOne(data, w, h, bpp, passes);
    forall img: Image | Interlaced(data, img, w, h, bpp)
      ensures forall x: nat, y: nat {:trigger final[y, x]} :: x < w && y < h ==> final[y, x] == img(x, y)
    {
      forall x: nat, y: nat | x < w && y < h ensures final[y, x] == img(x, y) {
        SizesOk(data, img, w, h, bpp);
        PlacedIs(final, bpp, passes, img, x, y);
      }
    }
  }

  lemma {:induction false} NoPasses(data: seq<byte>, w: nat, h: nat, bpp: nat)
    requires bpp > 0
    ensures PassesRead(data, w, h, bpp, [])
  {
  }

  lemma {:induction false} SizesOk(data: seq<byte>, img: Image, w: nat, h: nat, bpp: nat)
    requires bpp > 0 && Interlaced(data, img, w, h, bpp)
    ensures ImageOk(img, w, h, bpp)
  {
  }

  lemma {:induction false} LongEnough(raw: seq<byte>, n: nat, h: nat)
    requires TypesOk(raw, n, h)
    ensures RowStart(n, h) <= |raw|
  {
  }

  lemma {:induction false} MorePasses(data: seq<byte>, w: nat, h: nat, bpp: nat, passes: seq<seq<Row>>, rows: seq<Row>)
    requires bpp > 0 && |passes| < 7 && PassesRead(data, w, h, bpp, passes)
    requires PassWidth(w, |passes|) > 0 && PassHeight(h, |passes|) > 0 ==>
      forall img: Image :: Interlaced(data, img, w, h, bpp) ==> rows == PassRows(img, w, h, bpp, |passes|)
    ensures PassesRead(data, w, h, bpp, passes + [rows])
  {
    hide Interlaced, PassRows, PassWidth, PassHeight;
  }

  // ------------------------------------------------------------------
  // What is accepted
  // ------------------------------------------------------------------

  /** Pass p, unless empty, is long enough and names only filters that exist. */
  ghost predicate PassOk(data: seq<byte>, w: nat, h: nat, bpp: nat, p: nat)
    requires p < 7
  {
    PassWidth(w, p) > 0 && PassHeight(h, p) > 0 ==>
      PassStart(w, h, bpp, p) <= |data| && TypesOk(data[PassStart(w, h, bpp, p)..], PassWidth(w, p) * bpp, PassHeight(h, p))
  }

  ghost predicate PassesOk(data: seq<byte>, w: nat, h: nat, bpp: nat) {
    forall p: nat {:trigger PassOk(data, w, h, bpp, p)} :: p < 7 ==> PassOk(data, w, h, bpp, p)
  }

  /** The rows are what the data encodes for pass p. */
  ghost predicate PassHolds(data: seq<byte>, w: nat, h: nat, bpp: nat, p: nat, rows: seq<Row>)
    requires p < 7 && bpp > 0
  {
    PassWidth(w, p) > 0 && PassHeight(h, p) > 0 ==>
      |rows| == PassHeight(h, p) && Encoded(data, PassStart(w, h, bpp, p), rows, PassWidth(w, p) * bpp, bpp)
  }

  lemma {:induction false} EmptyHolds(data: seq<byte>, w: nat, h: nat, bpp: nat, p: nat)
    requires p < 7 && bpp > 0 && (PassWidth(w, p) == 0 || PassHeight(h, p) == 0)
    ensures PassHolds(data, w, h, bpp, p, []) && PassOk(data, w, h, bpp, p)
  {
    hide PassWidth, PassHeight;
  }

  lemma {:induction false} FoundHolds(data: seq<byte>, w: nat, h: nat, bpp: nat, p: nat, rows: seq<Row>)
    requires p < 7 && bpp > 0 && PassStart(w, h, bpp, p) <= |data| && |rows| == PassHeight(h, p)
    requires Encoded(data[PassStart(w, h, bpp, p)..], 0, rows, PassWidth(w, p) * bpp, bpp)
    ensures PassHolds(data, w, h, bpp, p, rows)
  {
    hide PassWidth, PassHeight, PassStart, Encoded;
    EncodedAt(data, PassStart(w, h, bpp, p), rows, PassWidth(w, p) * bpp, bpp);
  }

  lemma {:induction false} EncodedAt(data: seq<byte>, at: nat, rows: seq<Row>, n: nat, bpp: nat)
    requires bpp > 0 && at <= |data| && Encoded(data[at..], 0, rows, n, bpp)
    ensures Encoded(data, at, rows, n, bpp)
  {
    hide Filter, RowStart;
    var rest := data[at..];
    forall j | 0 <= j < |rows| ensures RowEncoded(data, at, rows, n, bpp, j) {
      assert RowEncoded(rest, 0, rows, n, bpp, j);
      var q := RowStart(n, j);
      assert rest[q] == data[at + q];
      assert rest[q + 1..q + 1 + n] == data[at + q + 1..at + q + 1 + n];
    }
  }

  /** The image whose passes are the given rows. */
  ghost function Assembled(passes: seq<seq<Row>>, bpp: nat): Image
    requires |passes| == 7
  {
    (x, y) => PixelOf(passes[PassOf(x, y)], bpp, Line(y, PassOf(x, y)), Column(x, PassOf(x, y)))
  }

  function PixelOf(rows: seq<Row>, bpp: nat, j: nat, i: nat): Pixel {
    if j < |rows| then PixelAt(rows[j], bpp, i) else []
  }

  lemma {:induction false} PixelSize(row: Row, bpp: nat, n: nat, i: nat)
    requires |row| == n * bpp && i < n
    ensures (i + 1) * bpp <= |row| && |PixelAt(row, bpp, i)| == bpp
    ensures row[..i * bpp] + PixelAt(row, bpp, i) == row[..(i + 1) * bpp]
  {
    MulMono(i + 1, n, bpp);
    MulDist(bpp, i, 1);
  }

  /** Pass p of that image is its rows. */
  lemma {:induction false} AssembledFlat(passes: seq<seq<Row>>, w: nat, h: nat, bpp: nat, p: nat, j: nat, n: nat)
    requires |passes| == 7 && p < 7 && j < PassHeight(h, p) == |passes[p]| && n <= PassWidth(w, p)
    requires |passes[p][j]| == PassWidth(w, p) * bpp
    ensures n * bpp <= |passes[p][j]| && Flat(Assembled(passes, bpp), p, j, n) == passes[p][j][..n * bpp]
    decreases n
  {
    hide X, Y, PassWidth, PassHeight, PassOf, Line, Column, PixelAt;
    var row := passes[p][j];
    if n > 0 {
      AssembledFlat(passes, w, h, bpp, p, j, n - 1);
      PlaceIsPixel(w, h, p, n - 1, j);
      PixelSize(row, bpp, PassWidth(w, p), n - 1);
    }
  }

  lemma {:induction false} AssembledRows(data: seq<byte>, w: nat, h: nat, bpp: nat, passes: seq<seq<Row>>, p: nat)
    requires bpp > 0 && |passes| == 7 && p < 7 && PassWidth(w, p) > 0 && PassHeight(h, p) > 0
    requires PassHolds(data, w, h, bpp, p, passes[p])
    ensures PassRows(Assembled(passes, bpp), w, h, bpp, p) == passes[p]
  {
    hide PassWidth, PassHeight, Flat, Assembled;
    var rows := passes[p];
    forall j | 0 <= j < |rows| ensures PassRows(Assembled(passes, bpp), w, h, bpp, p)[j] == rows[j] {
      AssembledFlat(passes, w, h, bpp, p, j, PassWidth(w, p));
      assert rows[j][..PassWidth(w, p) * bpp] == rows[j];
    }
  }

  lemma {:induction false} AssembledSizes(data: seq<byte>, w: nat, h: nat, bpp: nat, passes: seq<seq<Row>>, x: nat, y: nat)
    requires bpp > 0 && |passes| == 7 && x < w && y < h
    requires PassHolds(data, w, h, bpp, PassOf(x, y), passes[PassOf(x, y)])
    ensures |Assembled(passes, bpp)(x, y)| == bpp
  {
    hide X, Y, PassWidth, PassHeight, PassOf, Line, Column, PixelAt;
    var p := PassOf(x, y);
    PixelHasPlace(w, h, x, y);
    PixelSize(passes[p][Line(y, p)], bpp, PassWidth(w, p), Column(x, p));
  }

  lemma {:induction false} AssembledIsOne(data: seq<byte>, w: nat, h: nat, bpp: nat, passes: seq<seq<Row>>)
    requires bpp > 0 && |passes| == 7
    requires forall p: nat {:trigger PassHolds(data, w, h, bpp, p, passes[p])} :: p < 7 ==> PassHolds(data, w, h, bpp, p, passes[p])
    ensures Interlaced(data, Assembled(passes, bpp), w, h, bpp)
  {
    hide PassWidth, PassHeight, Encoded, PassOf, PassRows, Assembled;
    var img := Assembled(passes, bpp);
    forall x: nat, y: nat | x < w && y < h ensures |img(x, y)| == bpp {
      AssembledSizes(data, w, h, bpp, passes, x, y);
    }
    forall p | 0 <= p < 7 && PassWidth(w, p) > 0 && PassHeight(h, p) > 0
      ensures Encoded(data, PassStart(w, h, bpp, p), PassRows(img, w, h, bpp, p), PassWidth(w, p) * bpp, bpp)
    {
      assert PassHolds(data, w, h, bpp, p, passes[p]);
      AssembledRows(data, w, h, bpp, passes, p);
    }
  }

  const PATTERN: seq<seq<nat>> := [
    [0, 5, 3, 5, 1, 5, 3, 5],
    [6, 6, 6, 6, 6, 6, 6, 6],
    [4, 5, 4, 5, 4, 5, 4, 5],
    [6, 6, 6, 6, 6, 6, 6, 6],
    [2, 5, 3, 5, 2, 5, 3, 5],
    [6, 6, 6, 6, 6, 6, 6, 6],
    [4, 5, 4, 5, 4, 5, 4, 5],
    [6, 6, 6, 6, 6, 6, 6, 6]]

  /** The pass of every pixel, by the pattern printed in section 2.6 of RFC 2083. */
  lemma {:induction false} PassIsPattern(x: nat, y: nat)
    ensures |PATTERN| == 8 && |PATTERN[y % 8]| == 8 && PassOf(x, y) == PATTERN[y % 8][x % 8]
  {
    var u, v := x % 8, y % 8;
    Halves8(x);
    Halves8(y);
    hide Pattern;
    assert PassOf(x, y) == Pattern(u % 2, u % 4, u, v % 2, v % 4, v);
    PatternAt(u, v);
  }

  lemma {:induction false} Halves8(x: nat)
    ensures x % 8 % 2 == x % 2 && x % 8 % 4 == x % 4
  {
    SameHalf(x % 8, 4 * (x / 8));
    SameFourth(x % 8, 2 * (x / 8));
  }

  lemma {:induction false} SameHalf(r: nat, q: nat)
    ensures (r + 2 * q) % 2 == r % 2
  {
  }

  lemma {:induction false} SameFourth(r: nat, q: nat)
    ensures (r + 4 * q) % 4 == r % 4
  {
  }

  lemma {:induction false} PatternAt(u: nat, v: nat)
    requires u < 8 && v < 8
    ensures |PATTERN| == 8 && |PATTERN[v]| == 8 && Pattern(u % 2, u % 4, u, v % 2, v % 4, v) == PATTERN[v][u]
  {
  }
}
