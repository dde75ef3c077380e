/**
  Blocks of JPEG coefficients as the stream of bits stands for them (sections
  F.2.2.1 and F.2.2.2 of ITU-T T.81), and exactly when the decoder of
  stb_image.h, with its buffer, refills and shortcut table, reads them right.
*/
module JpegBlock {
  import opened Bits
  import opened Canonical
  import opened JHuffman
  import opened Jpeg
  import opened JpegStream

  type Coeffs = seq<(nat, int)>

  // ------------------------------------------------------------------
  // The reference: blocks of a bit stream
  // ------------------------------------------------------------------

  datatype Step = StepBad | StepEnd(coeffs: Coeffs, rest: nat) | StepOn(k: nat, coeffs: Coeffs, rest: nat)

  /** One run/size symbol and its value, from the stream v at coefficient k. */
  ghost function StreamStep(lens: seq<nat>, values: seq<byte>, v: nat, k: nat, coeffs: Coeffs): (r: Step)
    requires |lens| <= |values|
    ensures r.StepOn? ==> r.k > k
  {
    var i := Find(lens, Rev(v, WINDOW));
    if i < 0 then StepBad
    else
      var rs, t := values[i], Shr(v, lens[i]);
      if rs % 16 == 0 then
        if rs != 0xf0 then StepEnd(coeffs, t) else StepOn(k + 16, coeffs, t)
      else
        StepOn(k + rs / 16 + 1, coeffs + [(k + rs / 16, Extend(Rev(t, rs % 16), rs % 16))], Shr(t, rs % 16))
  }

  datatype Result = NoBlock | Coded(coeffs: Coeffs, rest: nat)

  ghost function StreamBlock(lens: seq<nat>, values: seq<byte>, v: nat, k: nat, coeffs: Coeffs): Result
    requires |lens| <= |values|
    decreases 64 - k
  {
    if k >= 64 then Coded(coeffs, v)
    else
      match StreamStep(lens, values, v, k, coeffs)
      case StepBad => NoBlock
      case StepEnd(cs, t) => Coded(cs, t)
      case StepOn(k', cs, t) => StreamBlock(lens, values, t, k', cs)
  }

  // ------------------------------------------------------------------
  // One symbol
  // ------------------------------------------------------------------

  /** What a round of the decoder amounts to, with the bits left instead of the buffer. */
  function Seen(data: seq<byte>, r: RoundResult): Step
    requires r.RoundEnd? ==> r.rest.pos <= |data|
    requires r.RoundOn? ==> r.rest.pos <= |data|
  {
    match r
    case RoundBad => StepBad
    case RoundEnd(cs, t) => StepEnd(cs, Stream(data, t))
    case RoundOn(k, cs, t) => StepOn(k, cs, Stream(data, t))
  }

  /**
    The data ends inside the symbol or its value: a short symbol and its value do not fit the bits in hand after one
    refill, or the value of another does not after a refill of its own.
  */
  ghost predicate Cut(data: seq<byte>, lens: seq<nat>, values: seq<byte>, s: Source)
    requires |lens| <= |values| && s.pos <= |data| && s.bits <= WORD
  {
    var g := Filled(data, s, 16);
    var i := ShortSymbol(lens, values, g);
    if i >= 0 then lens[i] + values[i] % 16 > g.bits
    else
      match NextSymbol(data, lens, values, g)
      case NoSymbol => false
      case Symbol(rs, t) => rs % 16 > 0 && Filled(data, t, rs % 16).bits < rs % 16
  }

  /** After a refill the window is the next sixteen bits of the stream, zeros following the data. */
  lemma {:induction false} FilledStream(data: seq<byte>, s: Source, n: nat)
    requires SourceOk(data, s) && n <= 16
    ensures s.pos <= |data| && s.bits <= WORD && SourceOk(data, Filled(data, s, n))
    ensures Stream(data, Filled(data, s, n)) == Stream(data, s)
    ensures Avail(data, Filled(data, s, n)) >= Avail(data, s)
    ensures var g := Filled(data, s, n);
      && (g.bits < n ==> !s.nomore && g.nomore && g.bits == Avail(data, s))
      && (g.bits < n ==> Ahead(data, g) == [])
  {
    hide SourceOk, Grow, Stream;
    BoundsOf(data, s);
    if s.bits < n { GrowStream(data, s); }
  }

  lemma {:induction false} FilledWindow(data: seq<byte>, s: Source)
    requires SourceOk(data, s)
    ensures s.pos <= |data| && s.bits <= WORD
    ensures Shr(Filled(data, s, 16).buf, WORD - WINDOW) == Rev(Stream(data, s), WINDOW)
  {
    hide SourceOk, Grow, Stream, Rev, Shr, Filled;
    FilledStream(data, s, 16);
    WindowIs(data, Filled(data, s, 16), WINDOW);
  }

  /** A second refill leaves sixteen bits in any case. */
  lemma {:induction false} FilledTwice(data: seq<byte>, s: Source)
    requires SourceOk(data, s)
    ensures s.pos <= |data| && s.bits <= WORD
    ensures var h := Filled(data, Filled(data, s, 16), 16);
      SourceOk(data, h) && h.bits >= 16 && Stream(data, h) == Stream(data, s) && Avail(data, h) >= Avail(data, s)
    ensures Shr(Filled(data, Filled(data, s, 16), 16).buf, WORD - WINDOW) == Rev(Stream(data, s), WINDOW)
  {
    hide SourceOk, Grow, Stream, Rev, Shr, Filled;
    FilledStream(data, s, 16);
    FilledStream(data, Filled(data, s, 16), 16);
    FilledWindow(data, Filled(data, s, 16));
  }

  /** A value that fits the bits in hand is the next bits of the stream. */
  lemma {:induction false} ValueStream(data: seq<byte>, t: Source, n: nat)
    requires SourceOk(data, t) && n < 16
    ensures t.pos <= |data| && t.bits <= WORD
    ensures var r := NextValue(data, t, n);
      if Filled(data, t, n).bits < n then
        r.value == 0 && !t.nomore && Avail(data, t) < n
      else
        && SourceOk(data, r.rest) && r.value == Extend(Rev(Stream(data, t), n), n)
        && Stream(data, r.rest) == Shr(Stream(data, t), n) && Avail(data, r.rest) >= Avail(data, t) - n
  {
    hide SourceOk, Grow, Stream, Rev, Shr, Drop, Extend, Filled;
    FilledStream(data, t, n);
    var u := Filled(data, t, n);
    if u.bits >= n {
      WindowIs(data, u, n);
      DropStream(data, u, n);
      DropOk(data, u, n);
    }
  }

  /** Zero is not a value of any size. */
  lemma {:induction false} ExtendNotZero(v: nat, n: nat)
    requires n > 0
    ensures Extend(v, n) != 0 || v >= Pow2(n)
  {
    Pow2Step(n);
  }

  /** A symbol without a value, or none. */
  lemma {:induction false} BareRound(data: seq<byte>, lens: seq<nat>, values: seq<byte>, s: Source, k: nat, coeffs: Coeffs)
    requires |lens| <= |values| && SourceOk(data, s) && s.pos <= |data| && s.bits <= WORD
    requires ShortSymbol(lens, values, Filled(data, s, 16)) < 0
    requires var i := Find(lens, Rev(Stream(data, s), WINDOW)); i < 0 || values[i] % 16 == 0
    ensures var r := Round(data, lens, values, s, k, coeffs);
      var w := StreamStep(lens, values, Stream(data, s), k, coeffs);
      && !Cut(data, lens, values, s) && (r.RoundEnd? || r.RoundOn? ==> r.rest.pos <= |data|)
      && Seen(data, r) == w && (!r.RoundBad? ==> SourceOk(data, r.rest))
  {
    hide SourceOk, Grow, Stream, Rev, Shr, Drop, Extend, Filled, ShortSymbol, Pow2, SymbolAt, NextValue, Hits;
    LongSymbol(data, lens, values, s);
  }

  /** A symbol other than a short one with a value of n bits, which the source t holds. */
  lemma {:induction false} ValueShape(data: seq<byte>, lens: seq<nat>, values: seq<byte>, s: Source, k: nat, coeffs: Coeffs)
    returns (t: Source, rs: byte)
    requires |lens| <= |values| && SourceOk(data, s) && s.pos <= |data| && s.bits <= WORD
    requires ShortSymbol(lens, values, Filled(data, s, 16)) < 0
    requires var i := Find(lens, Rev(Stream(data, s), WINDOW)); i >= 0 && values[i] % 16 > 0
    ensures SourceOk(data, t) && t.pos <= |data| && t.bits <= WORD && rs % 16 > 0
    ensures var v := NextValue(data, t, rs % 16);
      Round(data, lens, values, s, k, coeffs) == RoundOn(k + rs / 16 + 1, coeffs + [(k + rs / 16, v.value)], v.rest)
    ensures Cut(data, lens, values, s) <==> Filled(data, t, rs % 16).bits < rs % 16
    ensures var v := Stream(data, t);
      StreamStep(lens, values, Stream(data, s), k, coeffs) ==
      StepOn(k + rs / 16 + 1, coeffs + [(k + rs / 16, Extend(Rev(v, rs % 16), rs % 16))], Shr(v, rs % 16))
  {
    hide SourceOk, Grow, Stream, Rev, Shr, Drop, Extend, Filled, ShortSymbol, Pow2, SymbolAt, NextValue, Hits;
    LongSymbol(data, lens, values, s);
    var i := Find(lens, Rev(Stream(data, s), WINDOW));
    t, rs := Drop(Filled(data, Filled(data, s, 16), 16), lens[i]), values[i];
    BoundsOf(data, t);
  }

  /** A symbol other than a short one, with its value. */
  lemma {:induction false} ValueRound(data: seq<byte>, lens: seq<nat>, values: seq<byte>, s: Source, k: nat, coeffs: Coeffs)
    requires |lens| <= |values| && SourceOk(data, s) && s.pos <= |data| && s.bits <= WORD
    requires ShortSymbol(lens, values, Filled(data, s, 16)) < 0
    requires var i := Find(lens, Rev(Stream(data, s), WINDOW)); i >= 0 && values[i] % 16 > 0
    ensures var r := Round(data, lens, values, s, k, coeffs);
      var w := StreamStep(lens, values, Stream(data, s), k, coeffs);
      && (r.RoundEnd? || r.RoundOn? ==> r.rest.pos <= |data|)
      && (!Cut(data, lens, values, s) ==> Seen(data, r) == w && (!r.RoundBad? ==> SourceOk(data, r.rest)))
      && (Cut(data, lens, values, s) ==>
            && r.RoundOn? && w.StepOn? && r.k == w.k && |w.coeffs| == |coeffs| + 1 == |r.coeffs| && coeffs <= w.coeffs && coeffs <= r.coeffs
            && r.coeffs[|coeffs|].1 == 0 && w.coeffs[|coeffs|].1 != 0)
  {
    hide SourceOk, Stream, Rev, Shr, Extend, Filled, ShortSymbol, NextValue, Hits, Round, StreamStep, Cut;
    var t, rs := ValueShape(data, lens, values, s, k, coeffs);
    ValueStream(data, t, rs % 16);
    ExtendNotZero(Rev(Stream(data, t), rs % 16), rs % 16);
  }

  /** A symbol other than a short one: what is read from the bits in hand after two refills. */
  lemma {:induction false} LongRound(data: seq<byte>, lens: seq<nat>, values: seq<byte>, s: Source, k: nat, coeffs: Coeffs)
    requires |lens| <= |values| && SourceOk(data, s) && s.pos <= |data| && s.bits <= WORD
    requires ShortSymbol(lens, values, Filled(data, s, 16)) < 0
    ensures var r := Round(data, lens, values, s, k, coeffs);
      var w := StreamStep(lens, values, Stream(data, s), k, coeffs);
      && (r.RoundEnd? || r.RoundOn? ==> r.rest.pos <= |data|)
      && (!Cut(data, lens, values, s) ==> Seen(data, r) == w && (!r.RoundBad? ==> SourceOk(data, r.rest)))
      && (Cut(data, lens, values, s) ==>
            && r.RoundOn? && w.StepOn? && r.k == w.k && |w.coeffs| == |coeffs| + 1 == |r.coeffs| && coeffs <= w.coeffs && coeffs <= r.coeffs
            && r.coeffs[|coeffs|].1 == 0 && w.coeffs[|coeffs|].1 != 0)
  {
    hide SourceOk, Stream, Rev, Filled, ShortSymbol, Hits, Round, StreamStep, Cut;
    var i := Find(lens, Rev(Stream(data, s), WINDOW));
    if i >= 0 && values[i] % 16 > 0 {
      ValueRound(data, lens, values, s, k, coeffs);
    } else {
      BareRound(data, lens, values, s, k, coeffs);
    }
  }

  lemma {:induction false} LongSymbol(data: seq<byte>, lens: seq<nat>, values: seq<byte>, s: Source)
    requires |lens| <= |values| && SourceOk(data, s) && s.pos <= |data| && s.bits <= WORD
    ensures var h := Filled(data, Filled(data, s, 16), 16);
      var i := Find(lens, Rev(Stream(data, s), WINDOW));
      if i < 0 then SymbolAt(lens, values, h) == NoSymbol
      else
        && lens[i] <= h.bits && SymbolAt(lens, values, h) == Symbol(values[i], Drop(h, lens[i]))
        && SourceOk(data, Drop(h, lens[i])) && Drop(h, lens[i]).pos <= |data|
        && Stream(data, Drop(h, lens[i])) == Shr(Stream(data, s), lens[i])
        && Avail(data, Drop(h, lens[i])) >= Avail(data, s) - lens[i]
  {
    hide SourceOk, Grow, Stream, Rev, Shr, Drop, Filled, Pow2;
    FilledTwice(data, s);
    var h := Filled(data, Filled(data, s, 16), 16);
    var i := Find(lens, Rev(Stream(data, s), WINDOW));
    if i >= 0 {
      LenBound(lens, i, Rev(Stream(data, s), WINDOW));
      SymbolIs(lens, values, h, i);
      DropStream(data, h, lens[i]);
      DropOk(data, h, lens[i]);
      BoundsOf(data, Drop(h, lens[i]));
    }
  }

  lemma {:induction false} LenBound(lens: seq<nat>, i: nat, w: nat)
    requires Hits(lens, i, w)
    ensures i < |lens| && lens[i] <= WINDOW
  {
  }

  /** A short symbol that fits the bits in hand. */
  lemma {:induction false} ShortRound(data: seq<byte>, lens: seq<nat>, values: seq<byte>, s: Source, k: nat, coeffs: Coeffs)
    requires |lens| <= |values| && SourceOk(data, s) && s.pos <= |data| && s.bits <= WORD
    requires ShortSymbol(lens, values, Filled(data, s, 16)) >= 0
    ensures var r := Round(data, lens, values, s, k, coeffs);
      var w := StreamStep(lens, values, Stream(data, s), k, coeffs);
      && w.StepOn? && (r.RoundOn? ==> r.rest.pos <= |data|) && !r.RoundEnd?
      && (!Cut(data, lens, values, s) ==> Seen(data, r) == w && r.RoundOn? && SourceOk(data, r.rest))
      && (Cut(data, lens, values, s) ==> r.RoundBad?)
  {
    hide SourceOk, Grow, Stream, Rev, Shr, Drop, Extend, Filled, Pow2, HitsTop, Hits, ShortValue;
    FilledStream(data, s, 16);
    FilledWindow(data, s);
    var g := Filled(data, s, 16);
    var i := ShortSymbol(lens, values, g);
    TopLens(lens, i, Shr(g.buf, WORD - FAST_BITS));
    if lens[i] + values[i] % 16 <= g.bits {
      ShortIsSymbolAndValue(data, lens, values, g);
      var t, n := Drop(g, lens[i]), values[i] % 16;
      DropStream(data, g, lens[i]);
      DropOk(data, g, lens[i]);
      EnoughBits(data, g, lens[i], n);
      ValueStream(data, t, n);
    }
  }

  lemma {:induction false} EnoughBits(data: seq<byte>, g: Source, a: nat, n: nat)
    requires a + n <= g.bits <= WORD && n < 16 && SourceOk(data, Drop(g, a))
    ensures Drop(g, a).pos <= |data| && Drop(g, a).bits <= WORD
    ensures Filled(data, Drop(g, a), n).bits >= n
  {
    hide Pow2, Low, Grow;
  }

  /** A round reads what the stream stands for exactly when the data does not end inside it. */
  lemma {:induction false} RoundIff(data: seq<byte>, lens: seq<nat>, values: seq<byte>, s: Source, k: nat, coeffs: Coeffs)
    requires |lens| <= |values| && SourceOk(data, s)
    ensures s.pos <= |data| && s.bits <= WORD
    ensures var r := Round(data, lens, values, s, k, coeffs);
      && (r.RoundEnd? || r.RoundOn? ==> r.rest.pos <= |data|)
      && (Seen(data, r) == StreamStep(lens, values, Stream(data, s), k, coeffs) <==> !Cut(data, lens, values, s))
      && (!Cut(data, lens, values, s) && !r.RoundBad? ==> SourceOk(data, r.rest))
  {
    hide SourceOk, Round, StreamStep, Cut, Stream, ShortSymbol, Filled;
    BoundsOf(data, s);
    if ShortSymbol(lens, values, Filled(data, s, 16)) >= 0 {
      ShortRound(data, lens, values, s, k, coeffs);
    } else {
      LongRound(data, lens, values, s, k, coeffs);
    }
  }

  // ------------------------------------------------------------------
  // Whole blocks
  // ------------------------------------------------------------------

  /** Some symbol the decoder reads in the block is cut. */
  ghost predicate CutIn(data: seq<byte>, lens: seq<nat>, values: seq<byte>, s: Source, k: nat)
    requires |lens| <= |values| && s.pos <= |data| && s.bits <= WORD
    decreases 64 - k
  {
    k < 64 &&
    (Cut(data, lens, values, s) ||
     match Round(data, lens, values, s, k, [])
     case RoundOn(k', _, t) => CutIn(data, lens, values, t, k')
     case _ => false)
  }

  /** Coefficients collected earlier do not matter to a round. */
  lemma {:induction false} RoundCoeffs(data: seq<byte>, lens: seq<nat>, values: seq<byte>, s: Source, k: nat, coeffs: Coeffs)
    requires |lens| <= |values| && s.pos <= |data| && s.bits <= WORD
    ensures var a, b := Round(data, lens, values, s, k, []), Round(data, lens, values, s, k, coeffs);
      && (a.RoundBad? <==> b.RoundBad?) && (a.RoundEnd? <==> b.RoundEnd?)
      && (a.RoundOn? ==> a.k == b.k && a.rest == b.rest && coeffs <= b.coeffs) && (a.RoundEnd? ==> a.rest == b.rest && coeffs <= b.coeffs)
  {
    hide Filled, ShortSymbol, NextSymbol, NextValue, Drop, ShortValue, Shr;
  }

  lemma {:induction false} DecodedPrefix(data: seq<byte>, lens: seq<nat>, values: seq<byte>, s: Source, k: nat, coeffs: Coeffs)
    requires |lens| <= |values| && s.pos <= |data| && s.bits <= WORD
    ensures var d := Decoded(data, lens, values, s, k, coeffs); d.Block? ==> coeffs <= d.coeffs
    decreases 64 - k
  {
    hide Round;
    if k < 64 {
      RoundCoeffs(data, lens, values, s, k, coeffs);
      match Round(data, lens, values, s, k, coeffs)
      case RoundOn(k', cs, t) => DecodedPrefix(data, lens, values, t, k', cs);
      case _ =>
    }
  }

  lemma {:induction false} StreamPrefix(lens: seq<nat>, values: seq<byte>, v: nat, k: nat, coeffs: Coeffs)
    requires |lens| <= |values|
    ensures var d := StreamBlock(lens, values, v, k, coeffs); d.Coded? ==> coeffs <= d.coeffs
    decreases 64 - k
  {
    hide Rev, Shr, Extend;
    if k < 64 {
      match StreamStep(lens, values, v, k, coeffs)
      case StepOn(k', cs, t) => StreamPrefix(lens, values, t, k', cs);
      case _ =>
    }
  }

  /** Without a cut the decoder reads exactly the block the stream stands for ... */
  lemma {:induction false} BlockAgrees(data: seq<byte>, lens: seq<nat>, values: seq<byte>, s: Source, k: nat, coeffs: Coeffs)
    requires |lens| <= |values| && SourceOk(data, s) && s.pos <= |data| && s.bits <= WORD && !CutIn(data, lens, values, s, k)
    ensures var d := Decoded(data, lens, values, s, k, coeffs);
      var b := StreamBlock(lens, values, Stream(data, s), k, coeffs);
      && (d.Block? <==> b.Coded?)
      && (d.Block? ==> d.coeffs == b.coeffs && SourceOk(data, d.rest) && d.rest.pos <= |data| && Stream(data, d.rest) == b.rest)
    decreases 64 - k
  {
    hide SourceOk, Round, Cut, Stream, StreamStep;
    if k < 64 {
      RoundIff(data, lens, values, s, k, coeffs);
      RoundCoeffs(data, lens, values, s, k, coeffs);
      match Round(data, lens, values, s, k, coeffs)
      case RoundOn(k', cs, t) => BlockAgrees(data, lens, values, t, k', cs);
      case _ =>
    }
  }

  /** ... and with one it does not: it refuses the block, or a coefficient is zero that is not. */
  lemma {:induction false} BlockCut(data: seq<byte>, lens: seq<nat>, values: seq<byte>, s: Source, k: nat, coeffs: Coeffs)
    requires |lens| <= |values| && SourceOk(data, s) && s.pos <= |data| && s.bits <= WORD && CutIn(data, lens, values, s, k)
    ensures var d := Decoded(data, lens, values, s, k, coeffs);
      var b := StreamBlock(lens, values, Stream(data, s), k, coeffs);
      !(d.Block? && b.Coded? && d.coeffs == b.coeffs)
    decreases 64 - k
  {
    hide SourceOk, Round, Cut, Stream, StreamStep, ShortSymbol, Filled;
    RoundCoeffs(data, lens, values, s, k, coeffs);
    if Cut(data, lens, values, s) {
      CutRound(data, lens, values, s, k, coeffs);
    } else {
      RoundIff(data, lens, values, s, k, coeffs);
      match Round(data, lens, values, s, k, coeffs)
      case RoundOn(k', cs, t) => BlockCut(data, lens, values, t, k', cs);
      case _ =>
    }
  }

  lemma {:induction false} CutRound(data: seq<byte>, lens: seq<nat>, values: seq<byte>, s: Source, k: nat, coeffs: Coeffs)
    requires |lens| <= |values| && SourceOk(data, s) && s.pos <= |data| && s.bits <= WORD && k < 64 && Cut(data, lens, values, s)
    ensures var d := Decoded(data, lens, values, s, k, coeffs);
      var b := StreamBlock(lens, values, Stream(data, s), k, coeffs);
      !(d.Block? && b.Coded? && d.coeffs == b.coeffs)
  {
    hide SourceOk, Round, Cut, Stream, StreamStep, ShortSymbol, Filled;
    if ShortSymbol(lens, values, Filled(data, s, 16)) >= 0 {
      ShortRound(data, lens, values, s, k, coeffs);
    } else {
      LongRound(data, lens, values, s, k, coeffs);
      var r, w := Round(data, lens, values, s, k, coeffs), StreamStep(lens, values, Stream(data, s), k, coeffs);
      DecodedPrefix(data, lens, values, r.rest, r.k, r.coeffs);
      StreamPrefix(lens, values, w.rest, w.k, w.coeffs);
    }
  }

  /** The coefficients of a block come out right exactly when the stream holds a block and none of its symbols is cut. */
  lemma {:induction false} BlockIff(data: seq<byte>, lens: seq<nat>, values: seq<byte>, s: Source)
    requires |lens| <= |values| && SourceOk(data, s)
    ensures s.pos <= |data| && s.bits <= WORD
    ensures var d := Decoded(data, lens, values, s, 1, []);
      var b := StreamBlock(lens, values, Stream(data, s), 1, []);
      b.Coded? ==> (d.Block? && d.coeffs == b.coeffs <==> !CutIn(data, lens, values, s, 1))
    ensures var d := Decoded(data, lens, values, s, 1, []);
      var b := StreamBlock(lens, values, Stream(data, s), 1, []);
      !CutIn(data, lens, values, s, 1) && !b.Coded? ==> d.Bad?
  {
    hide SourceOk, CutIn, Stream, Decoded, StreamBlock;
    BoundsOf(data, s);
    if CutIn(data, lens, values, s, 1) {
      BlockCut(data, lens, values, s, 1, []);
    } else {
      BlockAgrees(data, lens, values, s, 1, []);
    }
  }

  // ------------------------------------------------------------------
  // When symbols are cut
  // ------------------------------------------------------------------

  /** A symbol is cut only when a marker comes before the end of its code and value. */
  lemma {:induction false} CutByMarker(data: seq<byte>, lens: seq<nat>, values: seq<byte>, s: Source)
    requires |lens| <= |values| && SourceOk(data, s) && s.pos <= |data| && s.bits <= WORD && Cut(data, lens, values, s)
    ensures var i := Find(lens, Rev(Stream(data, s), WINDOW));
      i >= 0 && Avail(data, s) < lens[i] + values[i] % 16
  {
    hide SourceOk, Grow, Stream, Rev, Shr, Drop, Extend, Filled, Pow2, HitsTop, Hits, ShortValue, SymbolAt;
    FilledStream(data, s, 16);
    FilledWindow(data, s);
    LongSymbol(data, lens, values, s);
    var g := Filled(data, s, 16);
    var i := ShortSymbol(lens, values, g);
    if i >= 0 {
      TopLens(lens, i, Shr(g.buf, WORD - FAST_BITS));
    } else {
      var j := Find(lens, Rev(Stream(data, s), WINDOW));
      var t := Drop(Filled(data, g, 16), lens[j]);
      ValueStream(data, t, values[j] % 16);
    }
  }

  /** The next round leaves at least the bits behind its code and value. */
  ghost predicate Uses(data: seq<byte>, lens: seq<nat>, values: seq<byte>, s: Source, k: nat, r: RoundResult)
    requires |lens| <= |values| && s.pos <= |data|
  {
    r.RoundOn? ==>
      var i := Find(lens, Rev(Stream(data, s), WINDOW));
      && i >= 0 && r.rest.pos <= |data| && SourceOk(data, r.rest)
      && Avail(data, r.rest) >= Avail(data, s) - lens[i] - values[i] % 16
      && r.k == k + if values[i] % 16 == 0 then 16 else values[i] / 16 + 1
  }

  lemma {:induction false} ShortUses(data: seq<byte>, lens: seq<nat>, values: seq<byte>, s: Source, k: nat, coeffs: Coeffs)
    requires |lens| <= |values| && SourceOk(data, s) && s.pos <= |data| && s.bits <= WORD
    requires ShortSymbol(lens, values, Filled(data, s, 16)) >= 0
    ensures Uses(data, lens, values, s, k, Round(data, lens, values, s, k, coeffs))
  {
    hide SourceOk, Grow, Stream, Rev, Shr, Drop, Extend, Filled, Pow2, HitsTop, Hits, ShortValue, Avail;
    FilledStream(data, s, 16);
    FilledWindow(data, s);
    var g := Filled(data, s, 16);
    var i := ShortSymbol(lens, values, g);
    TopLens(lens, i, Shr(g.buf, WORD - FAST_BITS));
    var n := lens[i] + values[i] % 16;
    if n <= g.bits {
      DropStream(data, g, n);
      DropOk(data, g, n);
      BoundsOf(data, Drop(g, n));
    }
  }

  lemma {:induction false} LongUses(data: seq<byte>, lens: seq<nat>, values: seq<byte>, s: Source, k: nat, coeffs: Coeffs)
    requires |lens| <= |values| && SourceOk(data, s) && s.pos <= |data| && s.bits <= WORD && !Cut(data, lens, values, s)
    requires ShortSymbol(lens, values, Filled(data, s, 16)) < 0
    ensures Uses(data, lens, values, s, k, Round(data, lens, values, s, k, coeffs))
  {
    hide SourceOk, Grow, Stream, Rev, Shr, Drop, Extend, Filled, Pow2, ShortSymbol, SymbolAt, NextValue, Avail, Hits;
    FilledStream(data, s, 16);
    LongSymbol(data, lens, values, s);
    var j := Find(lens, Rev(Stream(data, s), WINDOW));
    if j >= 0 && values[j] % 16 > 0 {
      ValueStream(data, Drop(Filled(data, Filled(data, s, 16), 16), lens[j]), values[j] % 16);
    }
  }

  lemma {:induction false} RoundUses(data: seq<byte>, lens: seq<nat>, values: seq<byte>, s: Source, k: nat, coeffs: Coeffs)
    requires |lens| <= |values| && SourceOk(data, s) && s.pos <= |data| && s.bits <= WORD && !Cut(data, lens, values, s)
    ensures Uses(data, lens, values, s, k, Round(data, lens, values, s, k, coeffs))
  {
    hide SourceOk, Cut, Uses, Round, ShortSymbol, Filled;
    if ShortSymbol(lens, values, Filled(data, s, 16)) >= 0 {
      ShortUses(data, lens, values, s, k, coeffs);
    } else {
      LongUses(data, lens, values, s, k, coeffs);
    }
  }

  /** Enough bytes before the next marker, whatever they are: 245 do for a whole block. */
  lemma {:induction false} MarkerFarOff(data: seq<byte>, lens: seq<nat>, values: seq<byte>, s: Source, k: nat)
    requires |lens| <= |values| && SourceOk(data, s) && s.pos <= |data| && s.bits <= WORD
    requires k >= 64 || Avail(data, s) >= 31 * (64 - k)
    ensures !CutIn(data, lens, values, s, k)
    decreases 64 - k
  {
    hide SourceOk, Cut, Stream, Round, Rev, Hits, Avail;
    if k < 64 {
      var i := Find(lens, Rev(Stream(data, s), WINDOW));
      if i >= 0 { LenBound(lens, i, Rev(Stream(data, s), WINDOW)); }
      if Cut(data, lens, values, s) { CutByMarker(data, lens, values, s); }
      RoundUses(data, lens, values, s, k, []);
      match Round(data, lens, values, s, k, [])
      case RoundOn(k', cs, t) =>
        BoundsOf(data, t);
        MarkerFarOff(data, lens, values, t, k');
      case _ =>
    }
  }

  // ------------------------------------------------------------------
  // With and without the shortcut table
  // ------------------------------------------------------------------

  /** One symbol read by stbi__jpeg_huff_decode and stbi__extend_receive alone. */
  ghost function PlainRound(data: seq<byte>, lens: seq<nat>, values: seq<byte>, s: Source, k: nat, coeffs: Coeffs): (r: RoundResult)
    requires |lens| <= |values| && s.pos <= |data| && s.bits <= WORD
    ensures r.RoundEnd? || r.RoundOn? ==> r.rest.pos <= |data| && r.rest.bits <= WORD
    ensures r.RoundOn? ==> r.k > k
  {
    match NextSymbol(data, lens, values, s)
    case NoSymbol => RoundBad
    case Symbol(rs, t) =>
      if rs % 16 == 0 then
        if rs != 0xf0 then RoundEnd(coeffs, t) else RoundOn(k + 16, coeffs, t)
      else
        var v := NextValue(data, t, rs % 16);
        RoundOn(k + rs / 16 + 1, coeffs + [(k + rs / 16, v.value)], v.rest)
  }

  /** The AC part of a block without the table. */
  ghost function PlainBlock(data: seq<byte>, lens: seq<nat>, values: seq<byte>, s: Source, k: nat, coeffs: Coeffs): (r: Block)
    requires |lens| <= |values| && s.pos <= |data| && s.bits <= WORD
    ensures r.Block? ==> r.rest.pos <= |data|
    decreases 64 - k
  {
    if k >= 64 then Block(coeffs, s)
    else
      match PlainRound(data, lens, values, s, k, coeffs)
      case RoundBad => Bad
      case RoundEnd(cs, t) => Block(cs, t)
      case RoundOn(k', cs, t) => PlainBlock(data, lens, values, t, k', cs)
  }

  /**
    The bits in hand after one refill decide whether the table makes a difference: the code of a short symbol is
    complete but its value is not, or the code of another symbol is not.
  */
  ghost predicate TableMatters(data: seq<byte>, lens: seq<nat>, values: seq<byte>, s: Source)
    requires |lens| <= |values| && s.pos <= |data| && s.bits <= WORD
  {
    var g := Filled(data, s, 16);
    var i := Find(lens, Shr(g.buf, WORD - WINDOW));
    i >= 0 &&
    if ShortSymbol(lens, values, g) >= 0 then lens[i] <= g.bits < lens[i] + values[i] % 16 else g.bits < lens[i]
  }

  lemma {:induction false} TableMattersIff(data: seq<byte>, lens: seq<nat>, values: seq<byte>, s: Source, k: nat, coeffs: Coeffs)
    requires |lens| <= |values| && SourceOk(data, s)
    ensures s.pos <= |data| && s.bits <= WORD
    ensures var r := Round(data, lens, values, s, k, coeffs);
      && (r.RoundEnd? || r.RoundOn? ==> r.rest.pos <= |data|)
      && (Seen(data, r) == Seen(data, PlainRound(data, lens, values, s, k, coeffs)) <==> !TableMatters(data, lens, values, s))
  {
    hide SourceOk, Round, PlainRound, TableMatters, ShortSymbol, Filled, Stream;
    BoundsOf(data, s);
    if ShortSymbol(lens, values, Filled(data, s, 16)) >= 0 {
      ShortMatters(data, lens, values, s, k, coeffs);
    } else {
      LongMatters(data, lens, values, s, k, coeffs);
    }
  }

  lemma {:induction false} ShortMatters(data: seq<byte>, lens: seq<nat>, values: seq<byte>, s: Source, k: nat, coeffs: Coeffs)
    requires |lens| <= |values| && SourceOk(data, s) && s.pos <= |data| && s.bits <= WORD
    requires ShortSymbol(lens, values, Filled(data, s, 16)) >= 0
    ensures var r := Round(data, lens, values, s, k, coeffs);
      && (r.RoundEnd? || r.RoundOn? ==> r.rest.pos <= |data|)
      && (Seen(data, r) == Seen(data, PlainRound(data, lens, values, s, k, coeffs)) <==> !TableMatters(data, lens, values, s))
  {
    hide SourceOk, Grow, Stream, Rev, Shr, Drop, Extend, Filled, Pow2, HitsTop, Hits, ShortValue;
    FilledStream(data, s, 16);
    var g := Filled(data, s, 16);
    var i := ShortSymbol(lens, values, g);
    TopLens(lens, i, Shr(g.buf, WORD - FAST_BITS));
    SymbolIs(lens, values, g, i);
    if lens[i] + values[i] % 16 <= g.bits {
      ShortIsSymbolAndValue(data, lens, values, g);
      DropOk(data, g, lens[i] + values[i] % 16);
      BoundsOf(data, Drop(g, lens[i] + values[i] % 16));
    }
  }

  lemma {:induction false} LongMatters(data: seq<byte>, lens: seq<nat>, values: seq<byte>, s: Source, k: nat, coeffs: Coeffs)
    requires |lens| <= |values| && SourceOk(data, s) && s.pos <= |data| && s.bits <= WORD
    requires ShortSymbol(lens, values, Filled(data, s, 16)) < 0
    ensures var r := Round(data, lens, values, s, k, coeffs);
      && (r.RoundEnd? || r.RoundOn? ==> r.rest.pos <= |data|)
      && (Seen(data, r) == Seen(data, PlainRound(data, lens, values, s, k, coeffs)) <==> !TableMatters(data, lens, values, s))
  {
    hide SourceOk, Grow, Stream, Rev, Shr, Drop, Extend, Pow2, ShortSymbol, SymbolAt, Hits;
    FilledStream(data, s, 16);
    FilledWindow(data, s);
    LongSymbol(data, lens, values, s);
    var g := Filled(data, s, 16);
    var i := Find(lens, Rev(Stream(data, s), WINDOW));
    SymbolAtWindow(lens, values, g);
    if g.bits < 16 && i >= 0 {
      if lens[i] <= g.bits {
        PaddedSymbol(data, lens, values, s, i);
      }
    }
  }

  lemma {:induction false} SymbolAtWindow(lens: seq<nat>, values: seq<byte>, g: Source)
    requires |lens| <= |values|
    ensures var i := Find(lens, Shr(g.buf, WORD - WINDOW));
      SymbolAt(lens, values, g) == if i < 0 || lens[i] > g.bits then NoSymbol else Symbol(values[i], Drop(g, lens[i]))
  {
    hide Hits, Shr, Drop;
  }

  /** Once the marker is met, values are completed with zeros however many of those are in hand already. */
  lemma {:induction false} PaddedSymbol(data: seq<byte>, lens: seq<nat>, values: seq<byte>, s: Source, i: nat)
    requires |lens| <= |values| && SourceOk(data, s) && s.pos <= |data| && s.bits <= WORD
    requires i == Find(lens, Rev(Stream(data, s), WINDOW)) && Filled(data, s, 16).bits < 16 && lens[i] <= Filled(data, s, 16).bits
    ensures var g := Filled(data, s, 16);
      var t, u, n := Drop(g, lens[i]), Drop(Filled(data, g, 16), lens[i]), values[i] % 16;
      && t.pos <= |data| && u.pos <= |data| && t.bits <= WORD && u.bits <= WORD && Stream(data, t) == Stream(data, u)
      && NextValue(data, t, n).value == NextValue(data, u, n).value
      && Stream(data, NextValue(data, t, n).rest) == Stream(data, NextValue(data, u, n).rest)
  {
    hide SourceOk, Grow, Stream, Rev, Shr, Extend, Filled, Pow2, Low, NextValue, Hits;
    FilledStream(data, s, 16);
    LongSymbol(data, lens, values, s);
    var g := Filled(data, s, 16);
    FilledStream(data, g, 16);
    FilledKeepsMarker(data, g);
    var t, u, n := Drop(g, lens[i]), Drop(Filled(data, g, 16), lens[i]), values[i] % 16;
    DropStream(data, g, lens[i]);
    DropOk(data, g, lens[i]);
    ValueStream(data, t, n);
    ValueStream(data, u, n);
    FilledStream(data, t, n);
    FilledStream(data, u, n);
  }

  lemma {:induction false} FilledKeepsMarker(data: seq<byte>, g: Source)
    requires g.pos <= |data| && g.bits <= WORD && g.nomore
    ensures Filled(data, g, 16).nomore
  {
    hide Grow;
    if g.bits < 16 { GrowKeepsMarker(data, g); }
  }

  lemma {:induction false} GrowKeepsMarker(data: seq<byte>, g: Source)
    requires g.pos <= |data| && g.bits <= 24 && g.nomore
    ensures Grow(data, g).nomore
    decreases WORD - g.bits
  {
    hide Pow2;
    var t := Append(g, 0);
    if t.bits <= 24 { GrowKeepsMarker(data, t); }
  }
}
