/**
  The zlib Huffman tables of stb_image.h: construction from a list of code
  lengths, and what the finished tables say about the canonical code.
*/
module ZHuffman {
  import opened Bits
  import opened Canonical

  const FAST_BITS: nat := 9
  const FAST_SIZE: nat := 512
  const MAX_SYMBOLS: nat := 288
  const MAX_LEN: nat := 15

  /** The stream v begins with the code of symbol i, most significant bit first. */
  predicate Matches(lens: seq<nat>, i: nat, v: nat) {
    i < |lens| && 0 < lens[i] <= MAX_LEN && Rev(v, lens[i]) == Code(lens, i)
  }

  lemma {:induction false} MatchesIsHit(lens: seq<nat>, i: nat, v: nat)
    requires i < |lens| && lens[i] <= MAX_LEN
    ensures Matches(lens, i, v) <==> Hits(lens, i, Rev(v, WINDOW))
  {
    RevPrefix(v, WINDOW, lens[i]);
  }

  /** What a code length list must satisfy to be handed to the builder. */
  predicate LensOk(lens: seq<nat>) {
    |lens| <= MAX_SYMBOLS && forall i :: 0 <= i < |lens| ==> lens[i] <= MAX_LEN
  }

  /** The lookup table entry e at index x is right for the first n symbols. */
  predicate FastEntry(lens: seq<nat>, n: nat, x: nat, e: nat)
    requires n <= |lens|
  {
    if e == 0 then
      forall i :: 0 <= i < n && lens[i] <= FAST_BITS ==> !Matches(lens, i, x)
    else
      e % 512 < n && lens[e % 512] == e / 512 && e / 512 <= FAST_BITS && Matches(lens, e % 512, x)
  }

  ghost predicate FastFilled(lens: seq<nat>, n: nat, fast: seq<nat>)
    requires n <= |lens|
  {
    |fast| == FAST_SIZE && forall x :: 0 <= x < FAST_SIZE ==> FastEntry(lens, n, x, fast[x])
  }

  /** The sorted symbol list is right for the first n symbols. */
  ghost predicate SlotsFilled(lens: seq<nat>, n: nat, size: seq<nat>, value: seq<nat>)
    requires n <= |lens|
  {
    && |size| == |value| == MAX_SYMBOLS
    && forall i :: 0 <= i < n && lens[i] > 0 ==>
         Slot(lens, i) < MAX_SYMBOLS && size[Slot(lens, i)] == lens[i] && value[Slot(lens, i)] == i
  }

  /** The per-length tables are right below length n. */
  ghost predicate CodesDone(lens: seq<nat>, n: nat, firstcode: seq<nat>, firstsymbol: seq<nat>, maxcode: seq<nat>) {
    && n <= |firstcode| == |firstsymbol| == 16 && |maxcode| == 17
    && (forall s {:trigger firstcode[s]} :: 1 <= s < n ==> firstcode[s] == First(lens, s))
    && (forall s {:trigger firstsymbol[s]} :: 1 <= s < n ==> firstsymbol[s] == FirstSym(lens, s))
    && (forall s {:trigger maxcode[s]} :: 1 <= s < n ==> maxcode[s] == Shl(Limit(lens, s), WINDOW - s))
  }

  class Table {
    var fast: seq<nat>
    var firstcode: seq<nat>
    var maxcode: seq<nat>
    var firstsymbol: seq<nat>
    var size: seq<nat>
    var value: seq<nat>
    ghost var lens: seq<nat>  // the code lengths the tables were last built from

    predicate Shape()
      reads this
    {
      |fast| == FAST_SIZE && |firstcode| == |firstsymbol| == 16 && |maxcode| == 17 &&
      |size| == |value| == MAX_SYMBOLS
    }

    /** The tables describe the canonical code of `lens`. */
    ghost predicate Ready()
      reads this
    {
      && LensOk(lens) && Accepted(lens, MAX_LEN)
      && CodesDone(lens, 16, firstcode, firstsymbol, maxcode) && maxcode[16] == 0x10000
      && FastFilled(lens, |lens|, fast) && SlotsFilled(lens, |lens|, size, value)
    }

    constructor ()
      ensures Shape()
    {
      fast, size, value := seq(FAST_SIZE, _ => 0), seq(MAX_SYMBOLS, _ => 0), seq(MAX_SYMBOLS, _ => 0);
      firstcode, firstsymbol, maxcode := seq(16, _ => 0), seq(16, _ => 0), seq(17, _ => 0);
    }

    /** Build the tables; refuses exactly the lists that break the Kraft inequality. */
    method Build(sizelist: seq<nat>) returns (ok: bool)
      requires Shape() && LensOk(sizelist)
      modifies this
      ensures Shape()
      ensures ok <==> KraftSum(sizelist, MAX_LEN) <= Pow2(MAX_LEN)
      ensures ok ==> Ready() && lens == sizelist
    {
      hide KraftSum, Pow2, Limit, First, Count, Accepted, FastFilled, SlotsFilled;
      var sizes := CountSizes(sizelist);
      AcceptedIffKraft(sizelist, MAX_LEN);
      var i := 1;
      while i < 16
        invariant 1 <= i <= 16
      {
        if sizes[i] > Pow2(i) {
          TooMany(sizelist, i);
          return false;
        }
        i := i + 1;
      }
      var next;
      ok, next := AssignCodes(sizelist, sizes);
      if ok {
        FillSymbols(sizelist, next);
        lens := sizelist;
      }
    }

    method CountSizes(sizelist: seq<nat>) returns (sizes: seq<nat>)
      requires LensOk(sizelist)
      ensures |sizes| == 17 && sizes[0] == 0
      ensures forall s :: 1 <= s < 17 ==> sizes[s] == Count(sizelist, s)
    {
      sizes := seq(17, _ => 0);
      var i := 0;
      while i < |sizelist|
        invariant 0 <= i <= |sizelist| && |sizes| == 17
        invariant forall s :: 0 <= s < 17 ==> sizes[s] == Count(sizelist[..i], s)
      {
        assert sizelist[..i + 1][..i] == sizelist[..i];
        sizes := sizes[sizelist[i] := sizes[sizelist[i]] + 1];
        i := i + 1;
      }
      assert sizelist[..i] == sizelist;
      sizes := sizes[0 := 0];
    }

    method AssignCodes(sizelist: seq<nat>, sizes: seq<nat>) returns (ok: bool, next: seq<nat>)
      requires Shape() && LensOk(sizelist)
      requires |sizes| == 17 && forall s :: 1 <= s < 17 ==> sizes[s] == Count(sizelist, s)
      modifies `firstcode, `maxcode, `firstsymbol
      ensures Shape()
      ensures ok <==> Accepted(sizelist, MAX_LEN)
      ensures ok ==> CodesDone(sizelist, 16, firstcode, firstsymbol, maxcode) && maxcode[16] == 0x10000
      ensures ok ==> NextFree(sizelist, 0, next)
    {
      hide Pow2, Shl, Limit;
      next := seq(16, _ => 0);
      var code: nat, k: nat := 0, 0;
      var i := 1;
      while i < 16
        invariant 1 <= i <= 16
        invariant Assigned(sizelist, i, code, k, next, firstcode, firstsymbol, maxcode)
      {
        AssignStep(sizelist, i, code, k, next, firstcode, firstsymbol, maxcode);
        assert code < 0x10000 && k < 0x10000;  // the 16-bit fields do not truncate
        next := next[i := code];
        firstcode := firstcode[i := code];
        firstsymbol := firstsymbol[i := k];
        code := code + sizes[i];
        if sizes[i] != 0 {
          if code - 1 >= Pow2(i) {
            return false, next;
          }
        }
        maxcode := maxcode[i := Shl(code, WINDOW - i)];
        code := 2 * code;
        k := k + sizes[i];
        i := i + 1;
      }
      maxcode := maxcode[16 := 0x10000];
      ok := true;
    }

    method FillSymbols(sizelist: seq<nat>, firstFree: seq<nat>)
      requires Shape() && LensOk(sizelist) && Accepted(sizelist, MAX_LEN)
      requires CodesDone(sizelist, 16, firstcode, firstsymbol, maxcode)
      requires NextFree(sizelist, 0, firstFree)
      modifies `fast, `size, `value
      ensures Shape() && FastFilled(sizelist, |sizelist|, fast) && SlotsFilled(sizelist, |sizelist|, size, value)
    {
      hide Rev, Code, First, Count, FirstSym, Pow2, Accepted, Shl, Limit, FastEntry;
      var next := firstFree;
      fast := seq(FAST_SIZE, _ => 0);
      NoEntries(sizelist);
      var i := 0;
      while i < |sizelist|
        invariant 0 <= i <= |sizelist| && NextFree(sizelist, i, next)
        invariant FastFilled(sizelist, i, fast)
        invariant SlotsFilled(sizelist, i, size, value)
      {
        var s := sizelist[i];
        NextFreeStep(sizelist, i, next);
        if s != 0 {
          var c := next[s] - firstcode[s] + firstsymbol[s];
          SlotBound(sizelist, i);
          SlotsExtend(sizelist, i, size, value);
          size := size[c := s];
          value := value[c := i];
          if s <= FAST_BITS {
            ghost var before := fast;
            StampFast(Rev(next[s], s), s, s * 512 + i);
            StampedEntries(sizelist, i, before, fast);
          } else {
            SkippedEntries(sizelist, i, fast);
          }
          next := next[s := next[s] + 1];
        } else {
          SkippedEntries(sizelist, i, fast);
        }
        i := i + 1;
      }
    }

    /** Write e at every index whose low s bits are r. */
    method StampFast(r: nat, s: nat, e: nat)
      requires |fast| == FAST_SIZE && r < Pow2(s)
      modifies `fast
      ensures Stamped(old(fast), fast, r, s, e)
    {
      hide Low, Pow2;
      var j := r;
      LowSmall(r, s);
      forall x: nat | x < r ensures Low(x, s) == x {
        LowSmall(x, s);
      }
      while j < FAST_SIZE
        invariant 0 <= j && Low(j, s) == r && |fast| == FAST_SIZE
        invariant forall x :: 0 <= x < FAST_SIZE && x < j ==>
          fast[x] == if Low(x, s) == r then e else old(fast)[x]
        invariant forall x :: j <= x < FAST_SIZE ==> fast[x] == old(fast)[x]
        decreases FAST_SIZE - j
      {
        fast := fast[j := e];
        forall x | j < x && Low(x, s) == r ensures x >= j + Pow2(s) {
          LowStride(j, x, s);
        }
        LowBits(j, s, 1, s);
        j := j + Pow2(s);
      }
    }
  }

  lemma {:induction false} NoEntries(lens: seq<nat>)
    ensures forall x :: FastEntry(lens, 0, x, 0)
  {
  }

  lemma {:induction false} TooMany(lens: seq<nat>, s: nat)
    requires 1 <= s <= MAX_LEN && Count(lens, s) > Pow2(s)
    ensures !Accepted(lens, MAX_LEN)
  {
    hide Pow2, Count, First;
    assert Limit(lens, s) > Pow2(s);
  }

  /** next[s] is the code of the first symbol of length s from index i on. */
  ghost predicate NextFree(lens: seq<nat>, i: nat, next: seq<nat>)
    requires i <= |lens|
  {
    |next| == 16 && forall s {:trigger next[s]} :: 1 <= s < 16 ==> next[s] == First(lens, s) + Count(lens[..i], s)
  }

  lemma {:induction false} NextFreeStep(lens: seq<nat>, i: nat, next: seq<nat>)
    requires LensOk(lens) && i < |lens| && NextFree(lens, i, next)
    ensures lens[i] == 0 ==> NextFree(lens, i + 1, next)
    ensures lens[i] > 0 ==> next[lens[i]] == Code(lens, i)
    ensures lens[i] > 0 ==> NextFree(lens, i + 1, next[lens[i] := next[lens[i]] + 1])
  {
    assert lens[..i + 1][..i] == lens[..i];
  }

  /** Code assignment has been carried out for the lengths below i. */
  ghost predicate Assigned(lens: seq<nat>, i: nat, code: nat, k: nat, next: seq<nat>,
                           firstcode: seq<nat>, firstsymbol: seq<nat>, maxcode: seq<nat>) {
    && 1 <= i <= 16 && code == First(lens, i) <= Pow2(i) && k == FirstSym(lens, i)
    && Accepted(lens, i - 1) && CodesDone(lens, i, firstcode, firstsymbol, maxcode)
    && |next| == 16 && forall s {:trigger next[s]} :: 1 <= s < i ==> next[s] == First(lens, s)
  }

  lemma {:induction false} AssignStep(lens: seq<nat>, i: nat, code: nat, k: nat, next: seq<nat>,
                   firstcode: seq<nat>, firstsymbol: seq<nat>, maxcode: seq<nat>)
    requires i < 16 && LensOk(lens) && Assigned(lens, i, code, k, next, firstcode, firstsymbol, maxcode)
    ensures code < 0x10000 && k < 0x10000
    ensures var c := code + Count(lens, i);
      if Count(lens, i) == 0 || c <= Pow2(i) then
        Assigned(lens, i + 1, 2 * c, k + Count(lens, i), next[i := code],
                 firstcode[i := code], firstsymbol[i := k], maxcode[i := Shl(c, WINDOW - i)])
      else
        !Accepted(lens, MAX_LEN)
  {
    SmallNumbers(lens, i);
    AcceptedStep(lens, i);
    CodesStep(lens, i, firstcode, firstsymbol, maxcode);
  }

  lemma {:induction false} CodesStep(lens: seq<nat>, i: nat, firstcode: seq<nat>, firstsymbol: seq<nat>, maxcode: seq<nat>)
    requires 1 <= i < 16 && CodesDone(lens, i, firstcode, firstsymbol, maxcode)
    ensures CodesDone(lens, i + 1, firstcode[i := First(lens, i)], firstsymbol[i := FirstSym(lens, i)],
                      maxcode[i := Shl(Limit(lens, i), WINDOW - i)])
    ensures First(lens, i + 1) == 2 * Limit(lens, i)
    ensures FirstSym(lens, i + 1) == FirstSym(lens, i) + Count(lens, i)
  {
  }

  lemma {:induction false} AcceptedStep(lens: seq<nat>, i: nat)
    requires 1 <= i < 16 && Accepted(lens, i - 1) && First(lens, i) <= Pow2(i)
    ensures
      if Count(lens, i) == 0 || Limit(lens, i) <= Pow2(i)
      then Accepted(lens, i) && 2 * Limit(lens, i) <= Pow2(i + 1)
      else !Accepted(lens, MAX_LEN)
  {
  }

  ghost predicate Stamped(before: seq<nat>, after: seq<nat>, r: nat, s: nat, e: nat) {
    && |before| == |after| == FAST_SIZE
    && forall x :: 0 <= x < FAST_SIZE ==> after[x] == if Low(x, s) == r then e else before[x]
  }

  /** The 16-bit fields hold these numbers without truncation. */
  lemma {:induction false} SmallNumbers(lens: seq<nat>, s: nat)
    requires LensOk(lens) && s <= MAX_LEN && First(lens, s) <= Pow2(s)
    ensures First(lens, s) < 0x10000 && FirstSym(lens, s) < 0x10000
  {
    Pow2Mono(s, 15);
    Pow2Values();
    FirstSymBound(lens, s);
  }

  /** Stamping symbol i's entry at the indices that begin with its code keeps the table right. */
  lemma {:induction false} StampedEntries(lens: seq<nat>, i: nat, before: seq<nat>, after: seq<nat>)
    requires LensOk(lens) && Accepted(lens, MAX_LEN) && i < |lens| && 0 < lens[i] <= FAST_BITS
    requires FastFilled(lens, i, before)
    requires Stamped(before, after, Rev(Code(lens, i), lens[i]), lens[i], lens[i] * 512 + i)
    ensures FastFilled(lens, i + 1, after)
  {
    CodeBound(lens, i);
    forall x | 0 <= x < FAST_SIZE ensures FastEntry(lens, i + 1, x, after[x]) {
      StampedEntry(lens, i, x, before[x], after[x]);
    }
  }

  lemma {:induction false} CodeBound(lens: seq<nat>, i: nat)
    requires Accepted(lens, MAX_LEN) && i < |lens| && 0 < lens[i] <= MAX_LEN
    ensures Code(lens, i) < Pow2(lens[i])
  {
    RankBelowCount(lens, i);
    AcceptedLimit(lens, MAX_LEN, lens[i]);
  }

  lemma {:induction false} StampedEntry(lens: seq<nat>, i: nat, x: nat, before: nat, after: nat)
    requires LensOk(lens) && i < |lens| && 0 < lens[i] <= FAST_BITS && Code(lens, i) < Pow2(lens[i])
    requires FastEntry(lens, i, x, before)
    requires after == if Low(x, lens[i]) == Rev(Code(lens, i), lens[i]) then lens[i] * 512 + i else before
    ensures FastEntry(lens, i + 1, x, after)
  {
    hide Code, Rev, Low, Pow2;
    RevField(x, Code(lens, i), lens[i]);
    PackedEntry(lens[i], i);
  }

  lemma {:induction false} PackedEntry(l: nat, i: nat)
    requires i < 512
    ensures (l * 512 + i) % 512 == i && (l * 512 + i) / 512 == l
  {
  }

  lemma {:induction false} SkippedEntries(lens: seq<nat>, i: nat, fast: seq<nat>)
    requires i < |lens| && (lens[i] == 0 || lens[i] > FAST_BITS)
    requires FastFilled(lens, i, fast)
    ensures FastFilled(lens, i + 1, fast)
  {
    forall x | 0 <= x < FAST_SIZE ensures FastEntry(lens, i + 1, x, fast[x]) {
      assert FastEntry(lens, i, x, fast[x]);
    }
  }

  lemma {:induction false} LowStride(j: nat, x: nat, s: nat)
    requires j < x && Low(x, s) == Low(j, s)
    ensures x >= j + Pow2(s)
    decreases s
  {
    if s > 0 {
      assert j / 2 < x / 2;
      LowStride(j / 2, x / 2, s - 1);
    }
  }

  lemma {:induction false} SlotsExtend(lens: seq<nat>, n: nat, size: seq<nat>, value: seq<nat>)
    requires n < |lens| && LensOk(lens) && lens[n] > 0
    requires SlotsFilled(lens, n, size, value) && Slot(lens, n) < MAX_SYMBOLS
    ensures SlotsFilled(lens, n + 1, size[Slot(lens, n) := lens[n]], value[Slot(lens, n) := n])
  {
    forall i | 0 <= i < n && lens[i] > 0 ensures Slot(lens, i) != Slot(lens, n) {
      if Slot(lens, i) == Slot(lens, n) {
        SlotInjective(lens, i, n);
      }
    }
  }
}
