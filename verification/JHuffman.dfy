/**
  The JPEG Huffman tables of stb_image.h: construction from the sixteen counts
  of a DHT segment, the lookup table, and the table of short AC coefficients.
*/
module JHuffman {
  import opened Bits
  import opened Canonical

  const FAST_BITS: nat := 9
  const FAST_SIZE: nat := 512
  const NO_ENTRY: nat := 255
  const MAX_LEN: nat := 16

  // ------------------------------------------------------------------
  // Size lists
  // ------------------------------------------------------------------

  /** The code lengths a DHT segment lists: count[0] ones, count[1] twos, and so on (Annex C of ITU-T T.81). */
  function SizeList(count: seq<nat>): (lens: seq<nat>)
    ensures forall i :: 0 <= i < |lens| ==> 1 <= lens[i] <= |count|
  {
    if count == [] then []
    else SizeList(count[..|count| - 1]) + seq(count[|count| - 1], _ => |count|)
  }

  predicate Sorted(lens: seq<nat>) {
    && (forall i :: 0 <= i < |lens| ==> 1 <= lens[i] <= MAX_LEN)
    && (forall i, j :: 0 <= i < j < |lens| ==> lens[i] <= lens[j])
  }

  lemma {:induction false} SizeListSorted(count: seq<nat>)
    requires |count| <= MAX_LEN
    ensures Sorted(SizeList(count))
    decreases |count|
  {
    if count != [] { SizeListSorted(count[..|count| - 1]); }
  }

  lemma {:induction false} FirstSymAll(lens: seq<nat>, s: nat)
    requires forall i :: 0 <= i < |lens| ==> 1 <= lens[i] < s
    ensures FirstSym(lens, s) == |lens|
    decreases |lens|
  {
    if lens == [] {
      FirstSymEmpty(s);
    } else {
      FirstSymLast(lens, s);
      FirstSymAll(lens[..|lens| - 1], s);
    }
  }

  /** Symbols at or above length s do not count. */
  lemma {:induction false} FirstSymPrefix(lens: seq<nat>, n: nat, s: nat)
    requires n <= |lens| && forall i :: n <= i < |lens| ==> lens[i] >= s
    ensures FirstSym(lens, s) == FirstSym(lens[..n], s)
    decreases |lens|
  {
    if n < |lens| {
      FirstSymLast(lens, s);
      FirstSymPrefix(lens[..|lens| - 1], n, s);
      assert lens[..|lens| - 1][..n] == lens[..n];
    } else {
      assert lens[..n] == lens;
    }
  }

  /** In a sorted list every symbol is in its own slot. */
  lemma {:induction false} SortedSlot(lens: seq<nat>, i: nat)
    requires Sorted(lens) && i < |lens|
    ensures Slot(lens, i) == i
    ensures FirstSym(lens, lens[i]) <= i < FirstSym(lens, lens[i] + 1)
  {
    var s := lens[i];
    FirstSymPrefix(lens, i, s);
    FirstSymAll(lens[..i], s + 1);
    FirstSymNext(lens[..i], s);
    SlotBound(lens, i);
  }

  lemma {:induction false} FirstSymNext(lens: seq<nat>, s: nat)
    requires s >= 1
    ensures FirstSym(lens, s + 1) == FirstSym(lens, s) + Count(lens, s)
  {
  }

  /** Symbol k has length j exactly when it lies in j's range. */
  lemma {:induction false} SortedRange(lens: seq<nat>, k: nat, j: nat)
    requires Sorted(lens) && k < |lens| && j >= 1
    ensures lens[k] == j <==> FirstSym(lens, j) <= k < FirstSym(lens, j + 1)
    ensures lens[k] == j ==> Code(lens, k) == First(lens, j) + (k - FirstSym(lens, j))
  {
    SortedSlot(lens, k);
    if lens[k] < j {
      FirstSymMono(lens, lens[k], j);
      FirstSymNext(lens, lens[k]);
    } else if j < lens[k] {
      FirstSymMono(lens, j, lens[k]);
      FirstSymNext(lens, j);
    }
  }

  // ------------------------------------------------------------------
  // The lookup table
  // ------------------------------------------------------------------

  /** The nine bits x begin with the code of symbol i. */
  predicate HitsTop(lens: seq<nat>, i: nat, x: nat) {
    i < |lens| && 0 < lens[i] <= FAST_BITS && Shr(x, FAST_BITS - lens[i]) == Code(lens, i)
  }

  lemma {:induction false} HitsTopIsHit(lens: seq<nat>, i: nat, k: nat)
    requires i < |lens| && 0 < lens[i] <= FAST_BITS
    ensures HitsTop(lens, i, Shr(k, WINDOW - FAST_BITS)) <==> Hits(lens, i, k)
  {
    hide Code, Shr;
    TakeTwice(k, WINDOW - FAST_BITS, FAST_BITS - lens[i]);
  }

  lemma {:induction false} TopUnique(lens: seq<nat>, i: nat, j: nat, x: nat)
    requires HitsTop(lens, i, x) && HitsTop(lens, j, x)
    ensures i == j
  {
    hide HitsTop, Hits, Shr;
    var k := Pow2(WINDOW - FAST_BITS) * x;
    TopLens(lens, i, x);
    TopLens(lens, j, x);
    SplitUnique(0, WINDOW - FAST_BITS, x);
    HitsTopIsHit(lens, i, k);
    HitsTopIsHit(lens, j, k);
    HitUnique(lens, i, j, k);
  }

  lemma {:induction false} TopLens(lens: seq<nat>, i: nat, x: nat)
    requires HitsTop(lens, i, x)
    ensures i < |lens| && 0 < lens[i] <= FAST_BITS
  {
  }

  /** Entry e for the nine bits x, over the first n symbols: 255 marks "none", so symbol 255 can never be entered. */
  predicate FastEntry(lens: seq<nat>, n: nat, x: nat, e: nat)
    requires n <= |lens|
  {
    if e == NO_ENTRY then forall i :: 0 <= i < n && i != NO_ENTRY ==> !HitsTop(lens, i, x)
    else e < NO_ENTRY && e < n && HitsTop(lens, e, x)
  }

  ghost predicate FastFilled(lens: seq<nat>, n: nat, fast: seq<nat>)
    requires n <= |lens|
  {
    |fast| == FAST_SIZE && forall x :: 0 <= x < FAST_SIZE ==> FastEntry(lens, n, x, fast[x])
  }

  lemma {:induction false} StampedEntry(lens: seq<nat>, n: nat, x: nat, before: nat, after: nat)
    requires n < |lens| <= 256 && FastEntry(lens, n, x, before)
    requires after == if HitsTop(lens, n, x) then n else before
    ensures FastEntry(lens, n + 1, x, after)
  {
    hide HitsTop;
    if HitsTop(lens, n, x) {
      forall i | 0 <= i < n ensures !HitsTop(lens, i, x) {
        if HitsTop(lens, i, x) { TopUnique(lens, i, n, x); }
      }
    }
  }

  /** The indices that begin with an s-bit code c are the range from c << (9 - s) on. */
  lemma {:induction false} TopRange(x: nat, c: nat, s: nat)
    requires s <= FAST_BITS
    ensures Shr(x, FAST_BITS - s) == c <==> c * Pow2(FAST_BITS - s) <= x < (c + 1) * Pow2(FAST_BITS - s)
  {
    var n := FAST_BITS - s;
    ShlGalois(x, c, n);
    ShlGalois(x, c + 1, n);
    ShlPow(c, n);
    ShlPow(c + 1, n);
  }

  // ------------------------------------------------------------------
  // Per-length tables
  // ------------------------------------------------------------------

  /** The per-length tables are right below length n. */
  ghost predicate CodesDone(lens: seq<nat>, n: nat, delta: seq<int>, maxcode: seq<nat>) {
    && n <= |delta| == 17 && |maxcode| == 18
    && (forall s {:trigger delta[s]} :: 1 <= s < n ==> delta[s] == FirstSym(lens, s) - First(lens, s))
    && (forall s {:trigger maxcode[s]} :: 1 <= s < n ==> maxcode[s] == Shl(Limit(lens, s), WINDOW - s))
  }

  ghost predicate CodesListed(lens: seq<nat>, n: nat, code: seq<nat>) {
    |code| == 256 && n <= |lens| <= 256 && forall i {:trigger code[i]} :: 0 <= i < n ==> code[i] == Code(lens, i)
  }

  /** size is the list with a zero after it. */
  ghost predicate Sizes(lens: seq<nat>, size: seq<nat>) {
    |size| == 257 && |lens| <= 256 && lens == size[..|lens|] && size[|lens|] == 0
  }

  lemma {:induction false} SizeAt(lens: seq<nat>, size: seq<nat>, i: nat)
    requires Sizes(lens, size) && i <= |lens|
    ensures size[i] == if i < |lens| then lens[i] else 0
  {
  }

  lemma {:induction false} CodesStep(lens: seq<nat>, j: nat, delta: seq<int>, maxcode: seq<nat>)
    requires 1 <= j <= 16 && CodesDone(lens, j, delta, maxcode)
    ensures CodesDone(lens, j + 1, delta[j := FirstSym(lens, j) - First(lens, j)], maxcode[j := Shl(Limit(lens, j), WINDOW - j)])
    ensures First(lens, j + 1) == 2 * Limit(lens, j)
    ensures FirstSym(lens, j + 1) == FirstSym(lens, j) + Count(lens, j)
  {
  }

  /** Either length j has room, or the list is refused. */
  lemma {:induction false} AcceptedStep(lens: seq<nat>, j: nat)
    requires 1 <= j <= 16 && Accepted(lens, j - 1) && First(lens, j) <= Pow2(j)
    ensures
      if Count(lens, j) == 0 || Limit(lens, j) <= Pow2(j)
      then Accepted(lens, j) && 2 * Limit(lens, j) <= Pow2(j + 1)
      else !Accepted(lens, MAX_LEN)
  {
  }

  class Table {
    var fast: seq<nat>
    var code: seq<nat>
    const values: seq<byte>
    var size: seq<nat>
    var maxcode: seq<nat>
    var delta: seq<int>
    ghost var lens: seq<nat>  // the code lengths the tables were last built from

    predicate Shape()
      reads this
    {
      |fast| == FAST_SIZE && |code| == 256 == |values| && |size| == 257 && |maxcode| == 18 && |delta| == 17
    }

    /** The tables describe the canonical code of `lens`. */
    ghost predicate Ready()
      reads this
    {
      && Shape() && Sorted(lens) && Sizes(lens, size) && Accepted(lens, MAX_LEN)
      && CodesDone(lens, 17, delta, maxcode) && maxcode[17] == 0xffff_ffff
      && CodesListed(lens, |lens|, code)
      && FastFilled(lens, |lens|, fast)
    }

    constructor (values: seq<byte>)
      requires |values| == 256
      ensures Shape() && this.values == values
    {
      this.values := values;
      fast, code, size := seq(FAST_SIZE, _ => 0), seq(256, _ => 0), seq(257, _ => 0);
      maxcode, delta := seq(18, _ => 0), seq(17, _ => 0);
    }

    /** stbi__build_huffman: refuses exactly more than 256 symbols and lists that break the Kraft inequality. */
    method Build(count: seq<nat>) returns (ok: bool)
      requires Shape() && |count| == 16
      modifies this
      ensures Shape()
      ensures ok <==> |SizeList(count)| <= 256 && KraftSum(SizeList(count), MAX_LEN) <= Pow2(MAX_LEN)
      ensures ok ==> Ready() && lens == SizeList(count)
    {
      hide SizeList, KraftSum, Pow2, Accepted, FastFilled, CodesDone, CodesListed;
      var total;
      ok, total := ListSizes(count);
      if !ok {
        return;
      }
      SizeListSorted(count);
      AcceptedIffKraft(SizeList(count), MAX_LEN);
      ok := AssignCodes(SizeList(count));
      if ok {
        lens := SizeList(count);
        FillFast(lens, total);
      }
    }

    /** The inner loop: n more symbols of length s. */
    method AddSizes(k0: nat, n: nat, s: nat) returns (ok: bool, k: nat)
      requires Shape() && k0 <= 256
      modifies `size
      ensures Shape() && (ok <==> k0 + n <= 256)
      ensures ok ==> k == k0 + n && size[..k] == old(size[..k0]) + seq(n, _ => s)
    {
      k := k0;
      var j: nat := 0;
      ghost var before := size[..k0];
      while j < n
        invariant 0 <= j <= n && Shape() && k == k0 + j <= 256
        invariant size[..k] == before + seq(j, _ => s)
      {
        size := size[k := s];
        k := k + 1;
        j := j + 1;
        if k >= 257 {
          return false, k;
        }
      }
      ok := true;
    }

    method ListSizes(count: seq<nat>) returns (ok: bool, total: nat)
      requires Shape() && |count| == 16
      modifies `size
      ensures Shape() && (ok <==> |SizeList(count)| <= 256)
      ensures ok ==> Sizes(SizeList(count), size) && total == |SizeList(count)|
    {
      var k: nat := 0;
      var i := 0;
      while i < 16
        invariant 0 <= i <= 16 && Shape() && k == |SizeList(count[..i])| <= 256 && size[..k] == SizeList(count[..i])
      {
        assert count[..i + 1][..i] == count[..i];
        SizeListGrows(count, i + 1);
        var more;
        more, k := AddSizes(k, count[i], i + 1);
        if !more {
          return false, k;
        }
        i := i + 1;
      }
      assert count[..i] == count;
      size := size[k := 0];
      return true, k;
    }

    method AssignCodes(ghost lens: seq<nat>) returns (ok: bool)
      requires Shape() && Sorted(lens) && Sizes(lens, size) && |lens| <= 256
      modifies `code, `delta, `maxcode
      ensures Shape() && (ok <==> Accepted(lens, MAX_LEN))
      ensures ok ==> CodesDone(lens, 17, delta, maxcode) && maxcode[17] == 0xffff_ffff && CodesListed(lens, |lens|, code)
    {
      hide First, FirstSym, Count, Limit, Pow2, Shl, Accepted, Sizes, Sorted, Code;
      var next: nat, k: nat := 0, 0;
      AssignStart(lens);
      var j := 1;
      while j <= 16
        invariant 1 <= j <= 17 && Shape() && Sizes(lens, size) && k <= |lens|
        invariant next == First(lens, j) && k == FirstSym(lens, j)
        invariant next <= Pow2(j) && Accepted(lens, j - 1)
        invariant CodesDone(lens, j, delta, maxcode) && CodesListed(lens, k, code)
      {
        CodesStep(lens, j, delta, maxcode);
        AcceptedStep(lens, j);
        delta := delta[j := k - next];
        var some := size[k] == j;
        k, next := NumberLength(lens, j, k, next);
        if some && next - 1 >= Pow2(j) {
          SomeCount(lens, j);
          return false;
        }
        NoneCount(lens, j);
        maxcode := maxcode[j := Shl(next, WINDOW - j)];
        next := 2 * next;
        j := j + 1;
      }
      maxcode := maxcode[17 := 0xffff_ffff];
      AssignEnd(lens);
      ok := true;
    }

    /** The codes of one length. */
    method NumberLength(ghost lens: seq<nat>, j: nat, k0: nat, code0: nat) returns (k: nat, next: nat)
      requires Shape() && Sorted(lens) && Sizes(lens, size) && 1 <= j <= 16
      requires k0 == FirstSym(lens, j) <= |lens| && code0 == First(lens, j) && CodesListed(lens, k0, code)
      modifies `code
      ensures Shape() && k == FirstSym(lens, j + 1) <= |lens| && next == Limit(lens, j) && CodesListed(lens, k, code)
      ensures k > k0 <==> size[k0] == j
    {
      hide First, FirstSym, Count, Sizes, Sorted, Code;
      k, next := k0, code0;
      FirstSymNext(lens, j);
      FirstSymBound(lens, j + 1);
      SizeAt(lens, size, k);
      if k < |lens| { SortedRange(lens, k, j); }
      while size[k] == j
        invariant Shape() && k0 <= k <= FirstSym(lens, j + 1) && k <= |lens|
        invariant next == code0 + (k - k0) && CodesListed(lens, k, code)
        invariant size[k] == j <==> k < FirstSym(lens, j + 1)
        invariant size[k] == j ==> k < |lens| && Code(lens, k) == next
        decreases |lens| - k
      {
        code := code[k := next];
        k := k + 1;
        next := next + 1;
        SizeAt(lens, size, k);
        if k < |lens| { SortedRange(lens, k, j); }
      }
    }

    method FillFast(ghost lens: seq<nat>, total: nat)
      requires Shape() && Sorted(lens) && Sizes(lens, size) && total == |lens|
      requires CodesListed(lens, |lens|, code) && Accepted(lens, MAX_LEN)
      modifies `fast
      ensures Shape() && FastFilled(lens, |lens|, fast)
    {
      hide Accepted, Code, Shr, Pow2;
      fast := seq(FAST_SIZE, _ => NO_ENTRY);
      var i := 0;
      while i < total
        invariant 0 <= i <= total && Shape() && FastFilled(lens, i, fast)
      {
        var s := size[i];
        ghost var before := fast;
        if s <= FAST_BITS {
          Room(lens, i);
          Stamp(code[i], s, i);
          forall x: nat | x < FAST_SIZE ensures HitsTop(lens, i, x) <==> Shr(x, FAST_BITS - s) == code[i] {
          }
        }
        forall x: nat | x < FAST_SIZE ensures FastEntry(lens, i + 1, x, fast[x]) {
          StampedEntry(lens, i, x, before[x], fast[x]);
        }
        i := i + 1;
      }
    }

    /** Write e at every index that begins with the s-bit code c. */
    method Stamp(c: nat, s: nat, e: nat)
      requires Shape() && s <= FAST_BITS && (c + 1) * Pow2(FAST_BITS - s) <= FAST_SIZE
      modifies `fast
      ensures Shape()
      ensures forall x: nat :: x < FAST_SIZE ==> fast[x] == if Shr(x, FAST_BITS - s) == c then e else old(fast)[x]
    {
      hide Pow2, Shr;
      var n := FAST_BITS - s;
      var m := Pow2(n);
      assert (c + 1) * m == c * m + m;
      var j := 0;
      while j < m
        invariant 0 <= j <= m && Shape()
        invariant forall x: nat :: x < FAST_SIZE ==> fast[x] == if c * m <= x < c * m + j then e else old(fast)[x]
      {
        fast := fast[c * m + j := e];
        j := j + 1;
      }
      forall x: nat | x < FAST_SIZE ensures Shr(x, n) == c <==> c * m <= x < c * m + m {
        TopRange(x, c, s);
      }
    }
  }

  lemma {:induction false} SizeListGrows(count: seq<nat>, n: nat)
    requires n <= |count|
    ensures |SizeList(count[..n])| <= |SizeList(count)|
    decreases |count|
  {
    if n < |count| {
      SizeListGrows(count[..|count| - 1], n);
      assert count[..|count| - 1][..n] == count[..n];
    } else {
      assert count[..n] == count;
    }
  }

  lemma {:induction false} AssignStart(lens: seq<nat>)
    ensures First(lens, 1) == 0 == FirstSym(lens, 1) && Accepted(lens, 0)
  {
  }

  lemma {:induction false} AssignEnd(lens: seq<nat>)
    requires Sorted(lens)
    ensures FirstSym(lens, 17) == |lens|
  {
    FirstSymAll(lens, 17);
  }

  lemma {:induction false} SomeCount(lens: seq<nat>, j: nat)
    requires j >= 1 && FirstSym(lens, j + 1) > FirstSym(lens, j)
    ensures Count(lens, j) > 0
  {
  }

  lemma {:induction false} NoneCount(lens: seq<nat>, j: nat)
    requires j >= 1
    ensures FirstSym(lens, j + 1) == FirstSym(lens, j) ==> Count(lens, j) == 0
  {
  }

  /** Every code fits its length, so its entries fit the lookup table. */
  lemma {:induction false} Room(lens: seq<nat>, i: nat)
    requires Accepted(lens, MAX_LEN) && i < |lens| && 0 < lens[i] <= FAST_BITS
    ensures (Code(lens, i) + 1) * Pow2(FAST_BITS - lens[i]) <= FAST_SIZE
  {
    hide Pow2, Accepted, First;
    var s := lens[i];
    RankBelowCount(lens, i);
    AcceptedLimit(lens, MAX_LEN, s);
    Pow2Add(s, FAST_BITS - s);
    Pow2Values();
    MulMono(Code(lens, i) + 1, Pow2(s), Pow2(FAST_BITS - s));
  }
}
