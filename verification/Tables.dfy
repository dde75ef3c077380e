/**
  The constants of DEFLATE as rules: what each length and distance symbol stands
  for, how many extra bits follow it, in which order code length lengths are
  sent, and the fixed codes as numbers (sections 3.2.5 to 3.2.7 of RFC 1951).
*/
module Tables {
  import opened Bits
  import opened Canonical
  import opened ZHuffman
  import opened Deflate

  // ------------------------------------------------------------------
  // Lengths and distances
  // ------------------------------------------------------------------

  lemma {:induction false} TableSizes()
    ensures |LENGTH_BASE| == |LENGTH_EXTRA| == 29 && |DIST_BASE| == |DIST_EXTRA| == 30
  {
  }

  /** Four symbols share a number of extra bits from the ninth on, and each begins where the one before ends; 258 is alone. */
  lemma {:induction false} LengthTable(l: nat)
    requires l < 29
    ensures LENGTH_EXTRA[l] == if l < 8 || l == 28 then 0 else (l - 4) / 4
    ensures l == 0 ==> LENGTH_BASE[l] == 3
    ensures 0 < l < 28 ==> LENGTH_BASE[l] == LENGTH_BASE[l - 1] + Pow2(LENGTH_EXTRA[l - 1])
    ensures l == 28 ==> LENGTH_BASE[l] == 258 == LENGTH_BASE[l - 1] + Pow2(LENGTH_EXTRA[l - 1]) - 1
  {
    hide Pow2;
    Pow2Values();
    Pow2Zero();
  }

  /** Two symbols share a number of extra bits from the third on, and each begins where the one before ends. */
  lemma {:induction false} DistanceTable(d: nat)
    requires d < 30
    ensures DIST_EXTRA[d] == if d < 2 then 0 else d / 2 - 1
    ensures d == 0 ==> DIST_BASE[d] == 1
    ensures d > 0 ==> DIST_BASE[d] == DIST_BASE[d - 1] + Pow2(DIST_EXTRA[d - 1])
    ensures d == 29 ==> DIST_BASE[d] + Pow2(DIST_EXTRA[d]) == 32769
  {
    hide Pow2;
    Pow2Values();
    Pow2Zero();
  }

  /** Every match length 3..258 has a symbol and extra bits, from the length of symbol l on. */
  lemma {:induction false} LengthCovered(n: nat, l: nat) returns (sym: nat, extra: nat)
    requires 3 <= n <= 258 && l < 29 && LENGTH_BASE[l] <= n
    ensures sym < 29 && extra < Pow2(LENGTH_EXTRA[sym]) && LENGTH_BASE[sym] + extra == n
    decreases 29 - l
  {
    hide Pow2, LENGTH_BASE, LENGTH_EXTRA;
    TableSizes();
    if n - LENGTH_BASE[l] < Pow2(LENGTH_EXTRA[l]) {
      sym, extra := l, n - LENGTH_BASE[l];
    } else {
      LengthTable(l);
      if l == 28 {
        Pow2Zero();
      } else {
        LengthTable(l + 1);
        sym, extra := LengthCovered(n, l + 1);
      }
    }
  }

  /** Every distance 1..32768 has a symbol and extra bits, from the distance of symbol d on. */
  lemma {:induction false} DistanceCovered(n: nat, d: nat) returns (sym: nat, extra: nat)
    requires 1 <= n <= 32768 && d < 30 && DIST_BASE[d] <= n
    ensures sym < 30 && extra < Pow2(DIST_EXTRA[sym]) && DIST_BASE[sym] + extra == n
    decreases 30 - d
  {
    hide Pow2, DIST_BASE, DIST_EXTRA;
    TableSizes();
    if n - DIST_BASE[d] < Pow2(DIST_EXTRA[d]) {
      sym, extra := d, n - DIST_BASE[d];
    } else {
      DistanceTable(d);
      if d < 29 {
        DistanceTable(d + 1);
        sym, extra := DistanceCovered(n, d + 1);
      }
    }
  }

  lemma {:induction false} LengthsGrow(l: nat, m: nat)
    requires l < m < 29
    ensures LENGTH_BASE[m] >= LENGTH_BASE[l] + Pow2(LENGTH_EXTRA[l]) - (if m == 28 then 1 else 0)
    decreases m
  {
    hide Pow2, LENGTH_BASE, LENGTH_EXTRA;
    LengthTable(m);
    LengthTable(m - 1);
    if l < m - 1 {
      LengthsGrow(l, m - 1);
    }
  }

  lemma {:induction false} DistancesGrow(d: nat, m: nat)
    requires d < m < 30
    ensures DIST_BASE[m] >= DIST_BASE[d] + Pow2(DIST_EXTRA[d])
    decreases m
  {
    hide Pow2, DIST_BASE, DIST_EXTRA;
    DistanceTable(m);
    if d < m - 1 {
      DistancesGrow(d, m - 1);
    }
  }

  /** A length has one symbol, except 258, which may also be written with the symbol before its own. */
  lemma {:induction false} LengthUnique(t: Token, t': Token)
    requires t.Copy? && t'.Copy? && t.lsym <= t'.lsym < 29 && t.lextra < Pow2(LENGTH_EXTRA[t.lsym])
    requires t'.lextra < Pow2(LENGTH_EXTRA[t'.lsym]) && CopyLength(t) == CopyLength(t')
    ensures (t.lsym == t'.lsym && t.lextra == t'.lextra) || (CopyLength(t) == 258 && t.lsym == 27 && t'.lsym == 28)
  {
    hide Pow2, LENGTH_BASE, LENGTH_EXTRA;
    var l, m := t.lsym, t'.lsym;
    if l < m {
      LengthsGrow(l, m);
      LengthTable(28);
      if l < 27 {
        LengthsGrow(l, 27);
      }
    }
  }

  /** A distance has one symbol. */
  lemma {:induction false} DistanceUnique(t: Token, t': Token)
    requires t.Copy? && t'.Copy? && t.dsym <= t'.dsym < 30 && t.dextra < Pow2(DIST_EXTRA[t.dsym])
    requires t'.dextra < Pow2(DIST_EXTRA[t'.dsym]) && CopyDistance(t) == CopyDistance(t')
    ensures t.dsym == t'.dsym && t.dextra == t'.dextra
  {
    hide Pow2, DIST_BASE, DIST_EXTRA;
    if t.dsym < t'.dsym {
      DistancesGrow(t.dsym, t'.dsym);
    }
  }

  // ------------------------------------------------------------------
  // The order of code length lengths
  // ------------------------------------------------------------------

  /** The three repeating symbols, then the lengths from the middle outwards, likely ones first. */
  lemma {:induction false} OrderTable(k: nat)
    requires k < 19
    ensures CL_ORDER[k] ==
      if k < 3 then 16 + k else if k == 3 then 0 else if k % 2 == 0 then 8 + (k - 4) / 2 else 7 - (k - 5) / 2
  {
  }

  lemma {:induction false} OrderOnce(j: nat, k: nat)
    requires j < k < 19
    ensures CL_ORDER[j] != CL_ORDER[k]
  {
    hide CL_ORDER;
    OrderTable(j);
    OrderTable(k);
  }

  /** Every symbol has a place in the order. */
  lemma {:induction false} OrderComplete(i: nat) returns (k: nat)
    requires i < 19
    ensures k < 19 && CL_ORDER[k] == i
  {
    hide CL_ORDER;
    k := if i >= 16 then i - 16 else if i == 0 then 3 else if i >= 8 then 4 + 2 * (i - 8) else 5 + 2 * (7 - i);
    OrderTable(k);
  }

  /** A transmitted length belongs to the symbol its place names; the symbols behind the last place are unused. */
  lemma {:induction false} SentLength(cl: seq<nat>, k: nat)
    requires k < 19 && |cl| <= 19
    ensures ClLens(cl)[CL_ORDER[k]] == if k < |cl| then cl[k] else 0
    decreases |cl|
  {
    hide CL_ORDER;
    OrderTable(k);
    if cl != [] {
      var n := |cl| - 1;
      OrderTable(n);
      SentLength(cl[..n], k);
      if n < k {
        OrderOnce(n, k);
      } else if k < n {
        OrderOnce(k, n);
      }
    }
  }

  // ------------------------------------------------------------------
  // Counting code lengths by parts
  // ------------------------------------------------------------------

  lemma {:induction false} CountAppend(a: seq<nat>, b: seq<nat>, s: nat)
    ensures Count(a + b, s) == Count(a, s) + Count(b, s)
    decreases |b|
  {
    if b == [] {
      assert a + b == a;
    } else {
      CountAppend(a, b[..|b| - 1], s);
      assert (a + b)[..|a + b| - 1] == a + b[..|b| - 1];
    }
  }

  lemma {:induction false} CountRun(v: nat, n: nat, s: nat)
    ensures Count(Run(v, n), s) == if v == s then n else 0
    decreases n
  {
    if n > 0 {
      CountRun(v, n - 1, s);
      assert Run(v, n)[..n - 1] == Run(v, n - 1);
    }
  }

  lemma {:induction false} KraftAppend(a: seq<nat>, b: seq<nat>, max: nat)
    ensures KraftSum(a + b, max) == KraftSum(a, max) + KraftSum(b, max)
    decreases |b|
  {
    hide Pow2;
    if b == [] {
      assert a + b == a;
    } else {
      KraftAppend(a, b[..|b| - 1], max);
      assert (a + b)[..|a + b| - 1] == a + b[..|b| - 1];
    }
  }

  lemma {:induction false} KraftRun(v: nat, n: nat, max: nat)
    ensures KraftSum(Run(v, n), max) == if 0 < v <= max then n * Pow2(max - v) else 0
    decreases n
  {
    hide Pow2;
    if n > 0 {
      KraftRun(v, n - 1, max);
      assert Run(v, n)[..n - 1] == Run(v, n - 1);
      if 0 < v <= max {
        MulDist(Pow2(max - v), n - 1, 1);
      }
    }
  }

  // ------------------------------------------------------------------
  // The fixed codes
  // ------------------------------------------------------------------

  /** How many of the first n fixed literal codes have length s. */
  function FixedCount(n: nat, s: nat): nat {
    if s == 7 then (if n <= 256 then 0 else if n <= 280 then n - 256 else 24)
    else if s == 8 then (if n <= 144 then n else if n <= 280 then 144 else n - 136)
    else if s == 9 then (if n <= 144 then 0 else if n <= 256 then n - 144 else 112)
    else 0
  }

  lemma {:induction false} FixedCounts(n: nat, s: nat)
    requires n <= 288
    ensures Count(FixedLit()[..n], s) == FixedCount(n, s)
    decreases n
  {
    if n > 0 {
      FixedCounts(n - 1, s);
      assert FixedLit()[..n][..n - 1] == FixedLit()[..n - 1];
    }
  }

  lemma {:induction false} FixedFirst(s: nat)
    requires s <= 9
    ensures First(FixedLit(), s) == if s <= 7 then 0 else if s == 8 then 0x30 else 0x190
    decreases s
  {
    hide FixedLit, Count;
    if s > 1 {
      FixedFirst(s - 1);
      FixedCounts(288, s - 1);
      assert FixedLit()[..288] == FixedLit();
    }
  }

  /** The fixed literal and length codes. */
  lemma {:induction false} FixedCode(i: nat)
    requires i < 288
    ensures Code(FixedLit(), i) ==
      if i < 144 then 0x30 + i else if i < 256 then 0x190 + (i - 144) else if i < 280 then i - 256 else 0xC0 + (i - 280)
    ensures FixedLit()[i] == if i < 144 then 8 else if i < 256 then 9 else if i < 280 then 7 else 8
  {
    hide First, Count;
    FixedFirst(FixedLit()[i]);
    FixedCounts(i, FixedLit()[i]);
  }

  lemma {:induction false} FixedDistCounts(n: nat, s: nat)
    requires n <= 32
    ensures Count(FixedDist()[..n], s) == if s == 5 then n else 0
    decreases n
  {
    if n > 0 {
      FixedDistCounts(n - 1, s);
      assert FixedDist()[..n][..n - 1] == FixedDist()[..n - 1];
    }
  }

  lemma {:induction false} FixedDistFirst(s: nat)
    requires s <= 5
    ensures First(FixedDist(), s) == 0
    decreases s
  {
    hide FixedDist, Count;
    if s > 1 {
      FixedDistFirst(s - 1);
      FixedDistCounts(32, s - 1);
      assert FixedDist()[..32] == FixedDist();
    }
  }

  /** The fixed distance codes are the five-bit numbers. */
  lemma {:induction false} FixedDistCode(d: nat)
    requires d < 32
    ensures Code(FixedDist(), d) == d && FixedDist()[d] == 5
  {
    hide First, Count;
    FixedDistFirst(5);
    FixedDistCounts(d, 5);
  }
}
