/**
  Canonical Huffman codes, as section 3.2.2 of RFC 1951 and Annex C of
  ITU-T T.81 define them, independently of any decoder table.

  `lens[i]` is the code length of symbol i, 0 for an unused symbol.  Codes of
  one length are consecutive numbers in symbol order, and the first code of
  length s + 1 is twice the number after the last code of length s.
  A decoder looks at a window k of 16 stream bits, first bit most significant.
*/
module Canonical {
  import opened Bits

  const WINDOW: nat := 16

  /** How many symbols have length s. */
  function Count(lens: seq<nat>, s: nat): (n: nat)
    ensures n <= |lens|
  {
    if lens == [] then 0
    else Count(lens[..|lens| - 1], s) + if lens[|lens| - 1] == s then 1 else 0
  }

  /** The first code of length s. */
  function First(lens: seq<nat>, s: nat): nat {
    if s <= 1 then 0 else 2 * (First(lens, s - 1) + Count(lens, s - 1))
  }

  /** One past the last code of length s. */
  function Limit(lens: seq<nat>, s: nat): nat {
    First(lens, s) + Count(lens, s)
  }

  /** Position of symbol i among the symbols of its length. */
  function Rank(lens: seq<nat>, i: nat): nat
    requires i < |lens|
  {
    Count(lens[..i], lens[i])
  }

  function Code(lens: seq<nat>, i: nat): nat
    requires i < |lens|
  {
    First(lens, lens[i]) + Rank(lens, i)
  }

  /** The window begins with the code of symbol i. */
  predicate Hits(lens: seq<nat>, i: nat, k: nat) {
    i < |lens| && 0 < lens[i] <= WINDOW && Shr(k, WINDOW - lens[i]) == Code(lens, i)
  }

  /** Every used length has room for its codes. */
  predicate Accepted(lens: seq<nat>, max: nat) {
    forall s {:trigger Limit(lens, s)} :: 1 <= s <= max && Count(lens, s) > 0 ==> Limit(lens, s) <= Pow2(s)
  }

  /** The Kraft sum, scaled by 2^max. */
  function KraftSum(lens: seq<nat>, max: nat): nat {
    if lens == [] then 0
    else
      KraftSum(lens[..|lens| - 1], max)
      + if 0 < lens[|lens| - 1] <= max then Pow2(max - lens[|lens| - 1]) else 0
  }

  // ------------------------------------------------------------------
  // Counting
  // ------------------------------------------------------------------

  lemma {:induction false} RankBelowCount(lens: seq<nat>, i: nat)
    requires i < |lens|
    ensures Rank(lens, i) < Count(lens, lens[i])
    decreases |lens|
  {
    var n := |lens| - 1;
    if i < n {
      RankBelowCount(lens[..n], i);
      assert lens[..n][..i] == lens[..i];
    }
  }

  lemma {:induction false} RankIncreases(lens: seq<nat>, i: nat, j: nat)
    requires i < j < |lens| && lens[i] == lens[j]
    ensures Rank(lens, i) < Rank(lens, j)
  {
    RankBelowCount(lens[..j], i);
    assert lens[..j][..i] == lens[..i];
  }

  /** Ranks identify symbols of equal length. */
  lemma {:induction false} RankInjective(lens: seq<nat>, i: nat, j: nat)
    requires i < |lens| && j < |lens| && lens[i] == lens[j]
    requires Rank(lens, i) == Rank(lens, j)
    ensures i == j
  {
    if i < j {
      RankIncreases(lens, i, j);
    } else if j < i {
      RankIncreases(lens, j, i);
    }
  }

  /** Every rank below the count belongs to a symbol. */
  lemma {:induction false} SymbolOfRank(lens: seq<nat>, s: nat, r: nat) returns (i: nat)
    requires r < Count(lens, s)
    ensures i < |lens| && lens[i] == s && Rank(lens, i) == r
    decreases |lens|
  {
    var n := |lens| - 1;
    if r < Count(lens[..n], s) {
      i := SymbolOfRank(lens[..n], s, r);
      assert lens[..n][..i] == lens[..i];
    } else {
      i := n;
    }
  }

  // ------------------------------------------------------------------
  // The Kraft inequality
  // ------------------------------------------------------------------

  lemma {:induction false} KraftStep(lens: seq<nat>, s: nat)
    ensures KraftSum(lens, s + 1) == 2 * KraftSum(lens, s) + Count(lens, s + 1)
    decreases |lens|
  {
    if lens != [] {
      KraftStep(lens[..|lens| - 1], s);
    }
  }

  lemma {:induction false} KraftZero(lens: seq<nat>)
    ensures KraftSum(lens, 0) == 0
    decreases |lens|
  {
    if lens != [] {
      KraftZero(lens[..|lens| - 1]);
    }
  }

  /** The running code number is the Kraft sum of the lengths seen so far. */
  lemma {:induction false} LimitIsKraft(lens: seq<nat>, s: nat)
    requires s >= 1
    ensures Limit(lens, s) == KraftSum(lens, s)
    decreases s
  {
    KraftStep(lens, s - 1);
    if s == 1 {
      KraftZero(lens);
    } else {
      LimitIsKraft(lens, s - 1);
    }
  }

  lemma {:induction false} AcceptedLimit(lens: seq<nat>, max: nat, s: nat)
    requires Accepted(lens, max) && 1 <= s <= max
    ensures Limit(lens, s) <= Pow2(s)
    decreases s
  {
    if Count(lens, s) == 0 && s > 1 {
      AcceptedLimit(lens, max, s - 1);
    }
  }

  lemma {:induction false} LimitsBelow(lens: seq<nat>, max: nat, s: nat)
    requires 1 <= s <= max && Limit(lens, max) <= Pow2(max)
    ensures Limit(lens, s) <= Pow2(s)
    decreases max - s
  {
    if s < max {
      LimitsBelow(lens, max, s + 1);
    }
  }

  /** A code length list has room for its codes exactly when it meets the Kraft inequality. */
  lemma {:induction false} AcceptedIffKraft(lens: seq<nat>, max: nat)
    requires max >= 1
    ensures Accepted(lens, max) <==> KraftSum(lens, max) <= Pow2(max)
  {
    LimitIsKraft(lens, max);
    if Accepted(lens, max) {
      AcceptedLimit(lens, max, max);
    }
    if KraftSum(lens, max) <= Pow2(max) {
      forall s | 1 <= s <= max ensures Limit(lens, s) <= Pow2(s) {
        LimitsBelow(lens, max, s);
      }
    }
  }

  // ------------------------------------------------------------------
  // Windows and codes
  // ------------------------------------------------------------------

  /** Codes of longer lengths start after all extensions of shorter codes. */
  lemma {:induction false} LongerCodesAbove(lens: seq<nat>, s: nat, t: nat)
    requires 1 <= s < t
    ensures Shl(Limit(lens, s), t - s) <= First(lens, t)
    decreases t
  {
    if s + 1 < t {
      LongerCodesAbove(lens, s, t - 1);
    } else {
      assert Shl(Limit(lens, s), 1) == 2 * Shl(Limit(lens, s), 0);
    }
  }

  /** A window that begins with the code of i lies below every longer limit ... */
  lemma {:induction false} HitBelow(lens: seq<nat>, i: nat, k: nat, t: nat)
    requires Hits(lens, i, k) && lens[i] <= t <= WINDOW
    ensures Shr(k, WINDOW - t) < Limit(lens, t)
    ensures lens[i] < t ==> Shr(k, WINDOW - t) < First(lens, t)
  {
    RankBelowCount(lens, i);
    var s := lens[i];
    if s < t {
      LongerCodesAbove(lens, s, t);
      TakeTwice(k, WINDOW - t, t - s);
      ShlGalois(Shr(k, WINDOW - t), Limit(lens, s), t - s);
    }
  }

  /** No code is a prefix of another: a window begins with at most one code. */
  lemma {:induction false} HitUnique(lens: seq<nat>, i: nat, j: nat, k: nat)
    requires Hits(lens, i, k) && Hits(lens, j, k)
    ensures i == j
  {
    if lens[i] < lens[j] {
      HitBelow(lens, i, k, lens[j]);
    } else if lens[j] < lens[i] {
      HitBelow(lens, j, k, lens[i]);
    } else {
      RankInjective(lens, i, j);
    }
  }

  /** ... and a window below the limit of length s begins with a code of length at most s. */
  lemma {:induction false} HitExists(lens: seq<nat>, k: nat, s: nat) returns (i: nat)
    requires 1 <= s <= WINDOW && Shr(k, WINDOW - s) < Limit(lens, s)
    ensures Hits(lens, i, k) && lens[i] <= s
    decreases s
  {
    var c := Shr(k, WINDOW - s);
    if First(lens, s) <= c {
      i := SymbolOfRank(lens, s, c - First(lens, s));
    } else {
      ShrStep(k, WINDOW - s);
      i := HitExists(lens, k, s - 1);
    }
  }

  // ------------------------------------------------------------------
  // Symbols sorted by length, then by index
  // ------------------------------------------------------------------

  /** How many used symbols are shorter than s. */
  function FirstSym(lens: seq<nat>, s: nat): nat {
    if s <= 1 then 0 else FirstSym(lens, s - 1) + Count(lens, s - 1)
  }

  /** Where symbol i lands in the sorted symbol list. */
  function Slot(lens: seq<nat>, i: nat): nat
    requires i < |lens|
  {
    FirstSym(lens, lens[i]) + Rank(lens, i)
  }

  lemma {:induction false} FirstSymEmpty(s: nat)
    ensures FirstSym([], s) == 0
    decreases s
  {
    if s > 1 { FirstSymEmpty(s - 1); }
  }

  lemma {:induction false} FirstSymLast(lens: seq<nat>, s: nat)
    requires lens != []
    ensures FirstSym(lens, s) == FirstSym(lens[..|lens| - 1], s) + if 1 <= lens[|lens| - 1] < s then 1 else 0
    decreases s
  {
    if s > 1 { FirstSymLast(lens, s - 1); }
  }

  lemma {:induction false} FirstSymBound(lens: seq<nat>, s: nat)
    ensures FirstSym(lens, s) <= |lens|
    decreases |lens|
  {
    if lens == [] {
      FirstSymEmpty(s);
    } else {
      FirstSymLast(lens, s);
      FirstSymBound(lens[..|lens| - 1], s);
    }
  }

  lemma {:induction false} FirstSymMono(lens: seq<nat>, s: nat, t: nat)
    requires 1 <= s < t
    ensures FirstSym(lens, s) + Count(lens, s) <= FirstSym(lens, t)
    decreases t
  {
    if s + 1 < t { FirstSymMono(lens, s, t - 1); }
  }

  lemma {:induction false} SlotBound(lens: seq<nat>, i: nat)
    requires i < |lens| && lens[i] > 0
    ensures Slot(lens, i) < FirstSym(lens, lens[i] + 1) <= |lens|
  {
    RankBelowCount(lens, i);
    FirstSymBound(lens, lens[i] + 1);
  }

  lemma {:induction false} SlotInjective(lens: seq<nat>, i: nat, j: nat)
    requires i < |lens| && j < |lens| && lens[i] > 0 && lens[j] > 0
    requires Slot(lens, i) == Slot(lens, j)
    ensures i == j
  {
    RankBelowCount(lens, i);
    RankBelowCount(lens, j);
    if lens[i] < lens[j] {
      FirstSymMono(lens, lens[i], lens[j]);
    } else if lens[j] < lens[i] {
      FirstSymMono(lens, lens[j], lens[i]);
    } else {
      RankInjective(lens, i, j);
    }
  }
}
