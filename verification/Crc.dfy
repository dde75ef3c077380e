/**
  CRC-32 and CRC-64 as run_hash_file computes them: a table per polynomial, a
  running register, and whatever pieces the reads return.  The reference is the
  reflected polynomial division done one message bit at a time (section 8 of
  RFC 1952 for CRC-32, ECMA-182 for CRC-64).  A machine word is the sequence of
  its bits, least significant first, so one development serves both widths.
*/
module Crc {
  import opened Bits

  type Word = seq<bool>

  // ------------------------------------------------------------------
  // Words
  // ------------------------------------------------------------------

  function Xor(a: Word, b: Word): (c: Word)
    requires |a| == |b|
    ensures |c| == |a|
  {
    seq(|a|, i requires 0 <= i < |a| => a[i] != b[i])
  }

  function Zeros(n: nat): (z: Word)
    ensures |z| == n
  {
    seq(n, _ => false)
  }

  /** A number as a word of n bits. */
  function WordOf(v: nat, n: nat): (w: Word)
    ensures |w| == n
    decreases n
  {
    if n == 0 then [] else [v % 2 == 1] + WordOf(v / 2, n - 1)
  }

  function NumberOf(w: Word): nat {
    if w == [] then 0 else (if w[0] then 1 else 0) + 2 * NumberOf(w[1..])
  }

  lemma {:induction false} WordOfNumber(w: Word, n: nat)
    requires |w| <= n
    ensures NumberOf(w) < Pow2(|w|) && WordOf(NumberOf(w), n) == w + Zeros(n - |w|)
    decreases n
  {
    if w == [] {
      ZeroWord(n);
    } else {
      WordOfNumber(w[1..], n - 1);
    }
  }

  lemma {:induction false} ZeroWord(n: nat)
    ensures WordOf(0, n) == Zeros(n)
    decreases n
  {
    if n > 0 { ZeroWord(n - 1); }
  }

  // ------------------------------------------------------------------
  // One bit at a time
  // ------------------------------------------------------------------

  /** w >> k */
  function Down(w: Word, k: nat): (r: Word)
    requires k <= |w|
    ensures |r| == |w|
  {
    w[k..] + Zeros(k)
  }

  /** Divide by the polynomial: one message bit enters, the register shifts right. */
  function BitStep(poly: Word, crc: Word, b: bool): (r: Word)
    requires |poly| == |crc| > 0
    ensures |r| == |crc|
  {
    if crc[0] != b then Xor(Down(crc, 1), poly) else Down(crc, 1)
  }

  function BitsIn(poly: Word, crc: Word, bits: Word): (r: Word)
    requires |poly| == |crc| > 0
    ensures |r| == |crc|
    decreases |bits|
  {
    if bits == [] then crc else BitsIn(poly, BitStep(poly, crc, bits[0]), bits[1..])
  }

  /** The remainder after a message, each byte least significant bit first. */
  function Divide(poly: Word, crc: Word, data: seq<byte>): (r: Word)
    requires |poly| == |crc| > 0
    ensures |r| == |crc|
    decreases |data|
  {
    if data == [] then crc
    else BitsIn(poly, Divide(poly, crc, data[..|data| - 1]), WordOf(data[|data| - 1], 8))
  }

  lemma {:induction false} DivideAppend(poly: Word, crc: Word, a: seq<byte>, b: seq<byte>)
    requires |poly| == |crc| > 0
    ensures Divide(poly, crc, a + b) == Divide(poly, Divide(poly, crc, a), b)
    decreases |b|
  {
    hide BitsIn, WordOf;
    if b == [] {
      assert a + b == a;
    } else {
      var n := |b| - 1;
      DivideAppend(poly, crc, a, b[..n]);
      assert (a + b)[..|a + b| - 1] == a + b[..n];
    }
  }

  // ------------------------------------------------------------------
  // The register is a remainder of polynomials
  // ------------------------------------------------------------------

  /** The generator times a coefficient and x^k. */
  function Taken(poly: Word, top: bool, k: nat): (g: Word)
    ensures |g| == 1 + |poly| + k
  {
    if top then [true] + poly + Zeros(k) else Zeros(k + 1 + |poly|)
  }

  /**
    The product of q and the generator x^n + poly over two elements.  Coefficients stand highest degree first, as the
    bits of a reflected register do from its least significant one.
  */
  function Product(q: Word, poly: Word): (p: Word)
    ensures |p| == |q| + |poly|
  {
    if q == [] then Zeros(|poly|)
    else Xor(Taken(poly, q[0], |q| - 1), [false] + Product(q[1..], poly))
  }

  /** q * (x^n + poly) + r = start * x^|bits| + bits * x^n */
  predicate Division(poly: Word, start: Word, bits: Word, q: Word, r: Word) {
    && |start| == |poly| == |r| && |q| == |bits|
    && Xor(Product(q, poly), Zeros(|bits|) + r) == Xor(start + Zeros(|bits|), bits + Zeros(|poly|))
  }

  /** r is what remains of the message behind the start value, divided by the generator. */
  ghost predicate Remainder(poly: Word, start: Word, bits: Word, r: Word) {
    exists q: Word :: Division(poly, start, bits, q, r)
  }

  /** One more coefficient at the top: g is what the quotient's new coefficient takes off the message. */
  lemma {:induction false} OneHigher(g: Word, p: Word, z: Word, d: Word, c: Word, b: bool, m: Word)
    requires |g| == |c| == |p| + 1 && |p| == |z| == |d| == |m| && Xor(p, z) == Xor(d, m)
    requires g[0] == (c[0] != b) && forall i :: 0 <= i < |d| ==> d[i] == (g[i + 1] != c[i + 1])
    ensures Xor(Xor(g, [false] + p), [false] + z) == Xor(c, [b] + m)
  {
    var left, right := Xor(Xor(g, [false] + p), [false] + z), Xor(c, [b] + m);
    forall j | 0 <= j < |c| ensures left[j] == right[j] {
      if j > 0 {
        assert Xor(p, z)[j - 1] == Xor(d, m)[j - 1];
        assert d[j - 1] == (g[j - 1 + 1] != c[j - 1 + 1]);
      }
    }
  }

  lemma {:induction false} StepTakes(poly: Word, c: Word, b: bool, k: nat)
    requires |poly| == |c| > 0
    ensures var g, d := Taken(poly, c[0] != b, k), BitStep(poly, c, b) + Zeros(k);
      g[0] == (c[0] != b) && forall i :: 0 <= i < |d| ==> d[i] == (g[i + 1] != (c + Zeros(k + 1))[i + 1])
  {
    var n := |poly|;
    var d := BitStep(poly, c, b);
    assert forall i :: 0 <= i < n ==> Down(c, 1)[i] == (c + Zeros(k + 1))[i + 1];
    if c[0] != b {
      assert forall i :: 0 <= i < n ==> d[i] == (Down(c, 1)[i] != poly[i]);
    }
  }

  lemma {:induction false} DivisionStep(poly: Word, c: Word, b: bool, m: Word, q: Word, r: Word)
    requires |poly| == |c| > 0 && Division(poly, BitStep(poly, c, b), m, q, r)
    ensures Division(poly, c, [b] + m, [c[0] != b] + q, r)
  {
    hide BitStep, Xor, Zeros;
    var n, k, top := |poly|, |m|, c[0] != b;
    var g := Taken(poly, top, k);
    assert ([top] + q)[1..] == q;
    assert Product([top] + q, poly) == Xor(g, [false] + Product(q, poly)) by { ZerosFront(k); }
    StepTakes(poly, c, b, k);
    ZerosFront(k);
    OneHigher(g, Product(q, poly), Zeros(k) + r, BitStep(poly, c, b) + Zeros(k), c + Zeros(k + 1), b, m + Zeros(n));
    assert [false] + (Zeros(k) + r) == ([false] + Zeros(k)) + r;
    assert [b] + (m + Zeros(n)) == ([b] + m) + Zeros(n);
  }

  lemma {:induction false} ZerosFront(k: nat)
    ensures Zeros(k + 1) == [false] + Zeros(k)
  {
  }

  lemma {:induction false} BitsDivide(poly: Word, c: Word, bits: Word) returns (q: Word)
    requires |poly| == |c| > 0
    ensures Division(poly, c, bits, q, BitsIn(poly, c, bits))
    decreases |bits|
  {
    if bits == [] {
      q := [];
      assert Zeros(0) + c == c + Zeros(0) == c && [] + Zeros(|c|) == Zeros(|c|);
      assert Xor(Zeros(|c|), c) == c == Xor(c, Zeros(|c|));
    } else {
      hide BitStep, Division;
      var rest := BitsDivide(poly, BitStep(poly, c, bits[0]), bits[1..]);
      q := [c[0] != bits[0]] + rest;
      DivisionStep(poly, c, bits[0], bits[1..], rest, BitsIn(poly, c, bits));
      assert bits == [bits[0]] + bits[1..];
    }
  }

  /** Division has one quotient and one remainder. */
  lemma {:induction false} RemainderUnique(poly: Word, q: Word, r: Word, q': Word, r': Word)
    requires |q| == |q'| && |r| == |r'| == |poly|
    requires Xor(Product(q, poly), Zeros(|q|) + r) == Xor(Product(q', poly), Zeros(|q|) + r')
    ensures q == q' && r == r'
    decreases |q|
  {
    var a, b := Xor(Product(q, poly), Zeros(|q|) + r), Xor(Product(q', poly), Zeros(|q|) + r');
    if q == [] {
      forall i | 0 <= i < |r| ensures r[i] == r'[i] {
        assert a[i] == b[i];
      }
    } else {
      assert a[0] == b[0];
      TopCoefficient(q, poly, r);
      TopCoefficient(q', poly, r');
      OneLower(q, poly, r, q', r');
      RemainderUnique(poly, q[1..], r, q'[1..], r');
      assert q == [q[0]] + q[1..] && q' == [q'[0]] + q'[1..];
    }
  }

  lemma {:induction false} OneLower(q: Word, poly: Word, r: Word, q': Word, r': Word)
    requires |q| == |q'| > 0 && |r| == |r'| == |poly| && q[0] == q'[0]
    requires Xor(Product(q, poly), Zeros(|q|) + r) == Xor(Product(q', poly), Zeros(|q|) + r')
    ensures Xor(Product(q[1..], poly), Zeros(|q| - 1) + r) == Xor(Product(q'[1..], poly), Zeros(|q| - 1) + r')
  {
    hide Xor, Zeros, Taken;
    var a, b := Xor(Product(q, poly), Zeros(|q|) + r), Xor(Product(q', poly), Zeros(|q|) + r');
    var c, d := Xor(Product(q[1..], poly), Zeros(|q| - 1) + r), Xor(Product(q'[1..], poly), Zeros(|q| - 1) + r');
    forall i | 0 <= i < |c| ensures c[i] == d[i] {
      LowerAt(q, poly, r, i);
      LowerAt(q', poly, r', i);
    }
  }

  lemma {:induction false} LowerAt(q: Word, poly: Word, r: Word, i: nat)
    requires q != [] && |r| == |poly| && i < |q| - 1 + |poly|
    ensures var a, c := Xor(Product(q, poly), Zeros(|q|) + r), Xor(Product(q[1..], poly), Zeros(|q| - 1) + r);
      c[i] == (a[i + 1] != Taken(poly, q[0], |q| - 1)[i + 1])
  {
    hide Taken;
  }

  lemma {:induction false} TopCoefficient(q: Word, poly: Word, r: Word)
    requires q != [] && |r| == |poly|
    ensures Xor(Product(q, poly), Zeros(|q|) + r)[0] == q[0]
  {
  }

  /** The bits of a message, each byte least significant bit first. */
  function Message(data: seq<byte>): Word {
    if data == [] then [] else Message(data[..|data| - 1]) + WordOf(data[|data| - 1], 8)
  }

  lemma {:induction false} BitsInAppend(poly: Word, c: Word, a: Word, b: Word)
    requires |poly| == |c| > 0
    ensures BitsIn(poly, c, a + b) == BitsIn(poly, BitsIn(poly, c, a), b)
    decreases |a|
  {
    hide BitStep;
    if a == [] {
      assert a + b == b;
    } else {
      assert (a + b)[1..] == a[1..] + b;
      BitsInAppend(poly, BitStep(poly, c, a[0]), a[1..], b);
    }
  }

  lemma {:induction false} DivideIsBits(poly: Word, c: Word, data: seq<byte>)
    requires |poly| == |c| > 0
    ensures Divide(poly, c, data) == BitsIn(poly, c, Message(data))
    decreases |data|
  {
    hide BitsIn, WordOf;
    if data == [] {
      NoBitsIn(poly, c);
    } else {
      var n := |data| - 1;
      DivideIsBits(poly, c, data[..n]);
      BitsInAppend(poly, c, Message(data[..n]), WordOf(data[n], 8));
    }
  }

  lemma {:induction false} NoBitsIn(poly: Word, c: Word)
    requires |poly| == |c| > 0
    ensures BitsIn(poly, c, []) == c
  {
  }

  /** The register after a message is the remainder of the message behind the start value. */
  lemma {:induction false} DivideIsRemainder(poly: Word, c: Word, data: seq<byte>)
    requires |poly| == |c| > 0
    ensures Remainder(poly, c, Message(data), Divide(poly, c, data))
    ensures forall r: Word :: Remainder(poly, c, Message(data), r) ==> r == Divide(poly, c, data)
  {
    hide Product, Xor;
    DivideIsBits(poly, c, data);
    var bits := Message(data);
    var q := BitsDivide(poly, c, bits);
    forall r: Word | Remainder(poly, c, bits, r) ensures r == Divide(poly, c, data) {
      var p: Word :| Division(poly, c, bits, p, r);
      RemainderUnique(poly, p, r, q, Divide(poly, c, data));
    }
  }

  // ------------------------------------------------------------------
  // Eight bits at a time
  // ------------------------------------------------------------------

  function Shifts(poly: Word, crc: Word, n: nat): (r: Word)
    requires |poly| == |crc| > 0
    ensures |r| == |crc|
    decreases n
  {
    if n == 0 then crc else Shifts(poly, BitStep(poly, crc, false), n - 1)
  }

  /** Shifting distributes over exclusive or. */
  lemma {:induction false} ShiftLinear(poly: Word, a: Word, b: Word)
    requires |poly| == |a| == |b| > 0
    ensures BitStep(poly, Xor(a, b), false) == Xor(BitStep(poly, a, false), BitStep(poly, b, false))
  {
  }

  lemma {:induction false} ShiftsLinear(poly: Word, a: Word, b: Word, n: nat)
    requires |poly| == |a| == |b| > 0
    ensures Shifts(poly, Xor(a, b), n) == Xor(Shifts(poly, a, n), Shifts(poly, b, n))
    decreases n
  {
    if n > 0 {
      ShiftLinear(poly, a, b);
      hide BitStep, Xor;
      ShiftsLinear(poly, BitStep(poly, a, false), BitStep(poly, b, false), n - 1);
    }
  }

  /** Message bits may all enter first. */
  lemma {:induction false} BitsAtOnce(poly: Word, crc: Word, bits: Word)
    requires |poly| == |crc| > 0 && |bits| <= |crc|
    ensures BitsIn(poly, crc, bits) == Shifts(poly, Xor(crc, bits + Zeros(|crc| - |bits|)), |bits|)
    decreases |bits|
  {
    if bits == [] {
      assert Xor(crc, Zeros(|crc|)) == crc;
      assert bits + Zeros(|crc|) == Zeros(|crc|);
    } else {
      OneBit(poly, crc, bits);
      hide BitStep, Xor;
      BitsAtOnce(poly, BitStep(poly, crc, bits[0]), bits[1..]);
    }
  }

  lemma {:induction false} OneBit(poly: Word, crc: Word, bits: Word)
    requires |poly| == |crc| > 0 && 0 < |bits| <= |crc|
    ensures BitStep(poly, Xor(crc, bits + Zeros(|crc| - |bits|)), false) ==
            Xor(BitStep(poly, crc, bits[0]), bits[1..] + Zeros(|crc| - |bits| + 1))
  {
    var x := bits + Zeros(|crc| - |bits|);
    assert x[0] == bits[0];
    assert Down(Xor(crc, x), 1) == Xor(Down(crc, 1), bits[1..] + Zeros(|crc| - |bits| + 1));
  }

  /** Low zero bits only shift out. */
  lemma {:induction false} ZerosOut(poly: Word, high: Word, k: nat)
    requires |poly| == k + |high| > 0
    ensures Shifts(poly, Zeros(k) + high, k) == high + Zeros(k)
    decreases k
  {
    if k == 0 {
      assert Zeros(0) + high == high == high + Zeros(0);
    } else {
      var w := Zeros(k) + high;
      assert !w[0];
      assert BitStep(poly, w, false) == Zeros(k - 1) + (high + [false]);
      ZerosOut(poly, high + [false], k - 1);
      assert high + [false] + Zeros(k - 1) == high + Zeros(k);
    }
  }

  /** What the fill loops put at index i. */
  function Entry(poly: Word, i: nat): (r: Word)
    requires |poly| > 0
    ensures |r| == |poly|
  {
    Shifts(poly, WordOf(i, |poly|), 8)
  }

  /** The index of a table lookup: the low byte of crc ^ x. */
  function Index(crc: Word, x: byte): (i: nat)
    requires |crc| >= 8
    ensures i < 256
  {
    WordOfNumber(Xor(crc[..8], WordOf(x, 8)), 8);
    assert Pow2(8) == 256 by { Pow2Values(); }
    NumberOf(Xor(crc[..8], WordOf(x, 8)))
  }

  /** One lookup does the work of eight single-bit steps. */
  lemma {:induction false} LookupIsEightBits(poly: Word, crc: Word, x: byte)
    requires |poly| == |crc| >= 8
    ensures Xor(Entry(poly, Index(crc, x)), Down(crc, 8)) == BitsIn(poly, crc, WordOf(x, 8))
  {
    hide BitsIn, Shifts, WordOf, NumberOf;
    var n, bits := |crc|, WordOf(x, 8);
    var low := Xor(crc[..8], bits);
    BitsAtOnce(poly, crc, bits);
    WordOfNumber(low, n);
    assert Xor(crc, bits + Zeros(n - 8)) == Xor(low + Zeros(n - 8), Zeros(8) + crc[8..]);
    ShiftsLinear(poly, low + Zeros(n - 8), Zeros(8) + crc[8..], 8);
    ZerosOut(poly, crc[8..], 8);
  }

  // ------------------------------------------------------------------
  // The program
  // ------------------------------------------------------------------

  /** crc32_fill and crc64_fill */
  method Fill(poly: Word) returns (table: seq<Word>)
    requires |poly| > 0
    ensures |table| == 256 && forall i :: 0 <= i < 256 ==> table[i] == Entry(poly, i)
  {
    hide BitStep, WordOf;
    table := [];
    var i: nat := 0;
    while i < 256
      invariant i <= 256 && |table| == i && forall j :: 0 <= j < i ==> table[j] == Entry(poly, j)
    {
      var crc := WordOf(i, |poly|);
      var bit: nat := 0;
      while bit < 8
        invariant bit <= 8 && |crc| == |poly| && Shifts(poly, crc, 8 - bit) == Entry(poly, i)
      {
        crc := BitStep(poly, crc, false);
        bit := bit + 1;
      }
      table := table + [crc];
      i := i + 1;
    }
  }

  /** The inner loop over the bytes of one read. */
  method Update(poly: Word, table: seq<Word>, crc0: Word, buf: seq<byte>) returns (crc: Word)
    requires |poly| == |crc0| >= 8 && |table| == 256 && forall i :: 0 <= i < 256 ==> table[i] == Entry(poly, i)
    ensures crc == Divide(poly, crc0, buf)
  {
    hide BitsIn, WordOf, Entry, Index;
    crc := crc0;
    var i := 0;
    assert buf[..0] == [];
    while i < |buf|
      invariant 0 <= i <= |buf| && crc == Divide(poly, crc0, buf[..i])
    {
      LookupIsEightBits(poly, crc, buf[i]);
      assert buf[..i + 1][..i] == buf[..i];
      crc := Xor(table[Index(crc, buf[i])], Down(crc, 8));
      i := i + 1;
    }
    assert buf[..i] == buf;
  }

  /** What a read of the file brings. */
  datatype Read = Bytes(bytes: seq<byte>) | Failed

  /** The bytes up to the first empty read. */
  function Content(parts: seq<Read>): seq<byte> {
    if parts == [] || parts[0].Failed? || parts[0].bytes == [] then [] else parts[0].bytes + Content(parts[1..])
  }

  /** A failed read comes before the first empty one. */
  predicate Fails(parts: seq<Read>) {
    parts != [] && (parts[0].Failed? || (parts[0].bytes != [] && Fails(parts[1..])))
  }

  /**
    The CRC part of run_hash_file for a polynomial of any width from eight bits: the register starts as all ones and is
    inverted at the end.  The result depends on the bytes alone, not on how the reads cut them up.
  */
  method HashFile(poly: Word, parts: seq<Read>) returns (ok: bool, crc: Word)
    requires |poly| >= 8
    ensures ok <==> !Fails(parts)
    ensures ok ==> crc == Xor(Divide(poly, Ones(|poly|), Content(parts)), Ones(|poly|))
  {
    hide BitsIn, WordOf, Entry, Index, Divide;
    var table := Fill(poly);
    crc := Ones(|poly|);
    ghost var start := crc;
    ghost var done: seq<byte> := [];
    NothingIn(poly, crc);
    var i := 0;
    ok := true;
    while i < |parts|
      invariant 0 <= i <= |parts| && ok && |crc| == |poly| && crc == Divide(poly, start, done)
      invariant done + Content(parts[i..]) == Content(parts) && (Fails(parts) <==> Fails(parts[i..]))
    {
      assert parts[i..][1..] == parts[i + 1..];
      match parts[i] {
        case Failed => return false, crc;
        case Bytes(bytes) =>
          if bytes == [] {
            break;
          }
          DivideAppend(poly, start, done, bytes);
          crc := Update(poly, table, crc, bytes);
          done := done + bytes;
          i := i + 1;
      }
    }
    assert done == Content(parts);
    crc := Xor(crc, Ones(|poly|));
  }

  lemma {:induction false} NothingIn(poly: Word, crc: Word)
    requires |poly| == |crc| > 0
    ensures Divide(poly, crc, []) == crc
  {
  }

  function Ones(n: nat): (w: Word)
    ensures |w| == n
  {
    seq(n, _ => true)
  }

  // ------------------------------------------------------------------
  // The two polynomials
  // ------------------------------------------------------------------

  /** Inverting a result gives back the register. */
  lemma {:induction false} Inverted(poly: Word, data: seq<byte>)
    requires |poly| > 0
    ensures Xor(Xor(Divide(poly, Ones(|poly|), data), Ones(|poly|)), Ones(|poly|)) == Divide(poly, Ones(|poly|), data)
    ensures Remainder(poly, Ones(|poly|), Message(data), Divide(poly, Ones(|poly|), data))
  {
    hide Divide, Remainder, Message;
    DivideIsRemainder(poly, Ones(|poly|), data);
    var n, d := |poly|, Divide(poly, Ones(|poly|), data);
    assert Xor(Xor(d, Ones(n)), Ones(n)) == d;
  }

  /** CRC-32 of zip. */
  method Crc32(parts: seq<Read>) returns (ok: bool, crc: Word)
    ensures ok <==> !Fails(parts)
    ensures ok ==>
      |crc| == 32 && crc == Xor(Divide(WordOf(0xedb88320, 32), Ones(32), Content(parts)), Ones(32)) &&
      Remainder(WordOf(0xedb88320, 32), Ones(32), Message(Content(parts)), Xor(crc, Ones(32)))
  {
    hide WordOf, Divide, Xor, Fails, Content, Message, Remainder;
    ok, crc := HashFile(WordOf(0xedb88320, 32), parts);
    Inverted(WordOf(0xedb88320, 32), Content(parts));
  }

  /** CRC-64/XZ. */
  method Crc64(parts: seq<Read>) returns (ok: bool, crc: Word)
    ensures ok <==> !Fails(parts)
    ensures ok ==>
      |crc| == 64 && crc == Xor(Divide(WordOf(0xc96c5795d7870f42, 64), Ones(64), Content(parts)), Ones(64)) &&
      Remainder(WordOf(0xc96c5795d7870f42, 64), Ones(64), Message(Content(parts)), Xor(crc, Ones(64)))
  {
    hide WordOf, Divide, Xor, Fails, Content, Message, Remainder;
    ok, crc := HashFile(WordOf(0xc96c5795d7870f42, 64), parts);
    Inverted(WordOf(0xc96c5795d7870f42, 64), Content(parts));
  }
}
