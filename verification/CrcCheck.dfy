/**
  The CRC registers as machine words, as backend.cpp holds them, and the check
  values of the two CRCs: the results for the nine bytes "123456789".
*/
module CrcCheck {
  import opened Bits
  import opened Crc

  // ------------------------------------------------------------------
  // Machine words
  // ------------------------------------------------------------------

  function ShiftBit(v: bv64): bv64 {
    v >> 1
  }

  function ShiftByte(v: bv64): bv64 {
    v >> 8
  }

  function Exclusive(a: bv64, b: bv64): bv64 {
    a ^ b
  }

  /** Bits 0 to 3. */
  function Low(v: bv64): (w: Word)
    ensures |w| == 4
  {
    [v & 1 != 0, v & 2 != 0, v & 4 != 0, v & 8 != 0]
  }

  /** Bits 4 to 7. */
  function High(v: bv64): (w: Word)
    ensures |w| == 4
  {
    [v & 16 != 0, v & 32 != 0, v & 64 != 0, v & 128 != 0]
  }

  /** The low byte of a machine word, least significant bit first. */
  function Octet(v: bv64): (w: Word)
    ensures |w| == 8
  {
    Low(v) + High(v)
  }

  /** The low k bytes. */
  function Machine(v: bv64, k: nat): (w: Word)
    ensures |w| == 8 * k
  {
    if k == 0 then [] else Octet(v) + Machine(ShiftByte(v), k - 1)
  }

  /** No bits above the low k bytes. */
  predicate Small(v: bv64, k: nat) {
    if k == 0 then v == 0 else Small(ShiftByte(v), k - 1)
  }

  /** One round of the inner loop of the fill functions. */
  function Round(poly: bv64, c: bv64): bv64 {
    if c & 1 != 0 then Exclusive(ShiftBit(c), poly) else ShiftBit(c)
  }

  lemma {:induction false} BitsXor(a: bv64, b: bv64)
    ensures var c := Exclusive(a, b);
      && (c & 1 != 0) == ((a & 1 != 0) != (b & 1 != 0)) && (c & 2 != 0) == ((a & 2 != 0) != (b & 2 != 0))
      && (c & 4 != 0) == ((a & 4 != 0) != (b & 4 != 0)) && (c & 8 != 0) == ((a & 8 != 0) != (b & 8 != 0))
      && (c & 16 != 0) == ((a & 16 != 0) != (b & 16 != 0)) && (c & 32 != 0) == ((a & 32 != 0) != (b & 32 != 0))
      && (c & 64 != 0) == ((a & 64 != 0) != (b & 64 != 0)) && (c & 128 != 0) == ((a & 128 != 0) != (b & 128 != 0))
  {
  }

  lemma {:induction false} FourXor(a: Word, b: Word)
    requires |a| == |b| == 4
    ensures Xor(a, b) == [a[0] != b[0], a[1] != b[1], a[2] != b[2], a[3] != b[3]]
  {
  }

  lemma {:induction false} OctetXor(a: bv64, b: bv64)
    ensures Xor(Octet(a), Octet(b)) == Octet(Exclusive(a, b))
  {
    hide Xor, Low, High, Exclusive;
    HalvesXor(a, b);
    XorAppend(Low(a), High(a), Low(b), High(b));
  }

  lemma {:induction false} HalvesXor(a: bv64, b: bv64)
    ensures Xor(Low(a), Low(b)) == Low(Exclusive(a, b)) && Xor(High(a), High(b)) == High(Exclusive(a, b))
  {
    hide Xor, Exclusive;
    BitsXor(a, b);
    FourXor(Low(a), Low(b));
    FourXor(High(a), High(b));
  }

  lemma {:induction false} ShiftFacts(a: bv64, b: bv64)
    ensures ShiftByte(Exclusive(a, b)) == Exclusive(ShiftByte(a), ShiftByte(b))
    ensures ShiftByte(ShiftBit(a)) == ShiftBit(ShiftByte(a))
    ensures Exclusive(0, 0) == 0 && ShiftBit(0) == 0
  {
  }

  lemma {:induction false} XorAppend(a: Word, b: Word, c: Word, d: Word)
    requires |a| == |c| && |b| == |d|
    ensures Xor(a + b, c + d) == Xor(a, c) + Xor(b, d)
  {
  }

  lemma {:induction false} MachineXor(a: bv64, b: bv64, k: nat)
    ensures Xor(Machine(a, k), Machine(b, k)) == Machine(Exclusive(a, b), k)
    ensures Small(a, k) && Small(b, k) ==> Small(Exclusive(a, b), k)
    decreases k
  {
    hide Octet, Xor, Exclusive, ShiftByte;
    ShiftFacts(a, b);
    if k == 0 {
      NoXor();
    } else {
      OctetXor(a, b);
      MachineXor(ShiftByte(a), ShiftByte(b), k - 1);
      XorAppend(Octet(a), Machine(ShiftByte(a), k - 1), Octet(b), Machine(ShiftByte(b), k - 1));
    }
  }

  lemma {:induction false} NoXor()
    ensures Xor([], []) == []
  {
  }

  lemma {:induction false} OctetDown(v: bv64)
    ensures Octet(ShiftBit(v)) == Octet(v)[1..] + [Octet(ShiftByte(v))[0]] && Octet(0)[0] == false
  {
    hide ShiftBit, ShiftByte, Low, High;
    HalvesDown(v);
    var l, h := Low(v), High(v);
    assert (l + h)[1..] == l[1..] + h && h == [h[0]] + h[1..];
  }

  lemma {:induction false} HalvesDown(v: bv64)
    ensures Low(ShiftBit(v)) == Low(v)[1..] + [High(v)[0]]
    ensures High(ShiftBit(v)) == High(v)[1..] + [Low(ShiftByte(v))[0]] && Low(0)[0] == false
  {
  }

  /** Shifting right brings in the first bit above. */
  lemma {:induction false} MachineShift(v: bv64, k: nat)
    requires k > 0 && Small(v, k)
    ensures Machine(ShiftBit(v), k) == Machine(v, k)[1..] + [false] && Small(ShiftBit(v), k)
    decreases k
  {
    hide Octet, ShiftBit, ShiftByte;
    OctetDown(v);
    ShiftFacts(v, v);
    var o, u := Octet(v), ShiftByte(v);
    if k == 1 {
      SmallNone(u);
      Alone(o);
    } else {
      MachineShift(u, k - 1);
      MachineFirst(u, k - 1);
      Joined(o, Machine(u, k - 1));
    }
  }

  lemma {:induction false} Alone(o: Word)
    requires o != []
    ensures (o + [])[1..] == o[1..] && (o[1..] + [false]) + [] == o[1..] + [false]
  {
  }

  lemma {:induction false} Joined(o: Word, m: Word)
    requires o != [] && m != []
    ensures (o[1..] + [m[0]]) + (m[1..] + [false]) == (o + m)[1..] + [false]
  {
  }

  lemma {:induction false} SmallNone(v: bv64)
    requires Small(v, 0)
    ensures v == 0 && Small(ShiftBit(v), 0)
  {
  }

  lemma {:induction false} MachineFirst(v: bv64, k: nat)
    requires k > 0
    ensures Machine(v, k)[0] == Octet(v)[0] && Machine(v, k) == [Octet(v)[0]] + Machine(v, k)[1..]
  {
    hide Octet;
  }

  /** One bit of division is one round of the machine. */
  lemma {:induction false} RoundIsStep(poly: bv64, c: bv64, k: nat)
    requires k > 0 && Small(poly, k) && Small(c, k)
    ensures BitStep(Machine(poly, k), Machine(c, k), false) == Machine(Round(poly, c), k) && Small(Round(poly, c), k)
  {
    hide Machine, Small, Xor, Exclusive, ShiftBit;
    MachineFirst(c, k);
    MachineShift(c, k);
    assert Zeros(1) == [false];
    MachineXor(ShiftBit(c), poly, k);
  }

  /** Eight rounds. */
  function Rounds(poly: bv64, c: bv64, n: nat): bv64
    decreases n
  {
    if n == 0 then c else Rounds(poly, Round(poly, c), n - 1)
  }

  lemma {:induction false} RoundsAreShifts(poly: bv64, c: bv64, k: nat, n: nat)
    requires k > 0 && Small(poly, k) && Small(c, k)
    ensures Shifts(Machine(poly, k), Machine(c, k), n) == Machine(Rounds(poly, c, n), k) && Small(Rounds(poly, c, n), k)
    decreases n
  {
    hide Machine, BitStep, Round, Small;
    if n > 0 {
      RoundIsStep(poly, c, k);
      RoundsAreShifts(poly, Round(poly, c), k, n - 1);
    }
  }

  /** The table entry of the fill functions, as the machine computes it. */
  lemma {:induction false} EntryIsRounds(poly: bv64, i: nat, m: bv64, k: nat)
    requires k > 0 && Small(poly, k) && Small(m, k) && Machine(m, k) == WordOf(i, 8 * k)
    ensures Entry(Machine(poly, k), i) == Machine(Rounds(poly, m, 8), k)
  {
    hide Machine, Shifts, Rounds, WordOf, Small;
    RoundsAreShifts(poly, m, k, 8);
  }

  /** One message byte. */
  lemma {:induction false} ByteRounds(poly: bv64, c: bv64, k: nat, x: byte, m: bv64)
    requires k > 0 && Small(poly, k) && Small(c, k) && Small(m, k) && Machine(m, k) == WordOf(x, 8) + Zeros(8 * k - 8)
    ensures BitsIn(Machine(poly, k), Machine(c, k), WordOf(x, 8)) == Machine(Rounds(poly, Exclusive(c, m), 8), k)
    ensures Small(Rounds(poly, Exclusive(c, m), 8), k)
  {
    hide Machine, BitsIn, Shifts, Rounds, WordOf, Exclusive, Small, Xor;
    BitsAtOnce(Machine(poly, k), Machine(c, k), WordOf(x, 8));
    MachineXor(c, m, k);
    RoundsAreShifts(poly, Exclusive(c, m), k, 8);
  }

  // ------------------------------------------------------------------
  // The constants as machine words
  // ------------------------------------------------------------------

  lemma {:induction false} WordSplit(low: nat, high: nat, m: nat, n: nat)
    requires low < Pow2(m)
    ensures WordOf(low + Pow2(m) * high, m + n) == WordOf(low, m) + WordOf(high, n)
    decreases m
  {
    hide WordOf;
    WordNone(low);
    if m > 0 {
      MulAssoc(2, Pow2(m - 1), high);
      WordHead(low + Pow2(m) * high, m + n);
      WordHead(low, m);
      Halves(low, Pow2(m - 1) * high);
      WordSplit(low / 2, high, m - 1, n);
    } else {
      assert [] + WordOf(high, n) == WordOf(high, n);
    }
  }

  lemma {:induction false} WordNone(v: nat)
    ensures WordOf(v, 0) == []
  {
  }

  lemma {:induction false} WordHead(v: nat, n: nat)
    requires n > 0
    ensures WordOf(v, n) == [v % 2 == 1] + WordOf(v / 2, n - 1)
  {
  }

  lemma {:induction false} Halves(a: nat, b: nat)
    ensures (a + 2 * b) % 2 == a % 2 && (a + 2 * b) / 2 == a / 2 + b
  {
  }

  /** A number whose low byte is that of a machine word, and whose other bytes are those above. */
  lemma {:induction false} ByteMore(low: nat, high: nat, v: bv64, k: nat)
    requires low < 256 && WordOf(low, 8) == Octet(v) && WordOf(high, 8 * k) == Machine(ShiftByte(v), k)
    ensures WordOf(low + 256 * high, 8 * (k + 1)) == Machine(v, k + 1)
  {
    hide WordOf, Octet, ShiftByte;
    Pow2Values();
    WordSplit(low, high, 8, 8 * k);
  }

  lemma {:induction false} ByteNone(v: bv64)
    ensures WordOf(0, 0) == Machine(v, 0)
  {
  }

  /** The low four bits of a number. */
  function Four(x: nat): (w: Word)
    ensures |w| == 4
  {
    [x % 2 == 1, x / 2 % 2 == 1, x / 2 / 2 % 2 == 1, x / 2 / 2 / 2 % 2 == 1]
  }

  /** The bits of a byte. */
  function Eight(x: nat): (w: Word)
    ensures |w| == 8
  {
    Four(x) + Four(x / 2 / 2 / 2 / 2)
  }

  lemma {:induction false} FourFirst(x: nat, n: nat)
    ensures WordOf(x, 4 + n) == Four(x) + WordOf(x / 2 / 2 / 2 / 2, n)
  {
    hide WordOf;
    WordHead(x, 4 + n);
    WordHead(x / 2, 3 + n);
    WordHead(x / 2 / 2, 2 + n);
    WordHead(x / 2 / 2 / 2, 1 + n);
  }

  lemma {:induction false} WordIsEight(x: nat)
    ensures WordOf(x, 8) == Eight(x)
  {
    hide WordOf, Four;
    FourFirst(x, 4);
    FourFirst(x / 2 / 2 / 2 / 2, 0);
    WordNone(x / 2 / 2 / 2 / 2 / 2 / 2 / 2 / 2);
  }

  lemma {:induction false} Poly32BytesUpperFirst()
    ensures Eight(0xed) == Octet(0xed) && ShiftByte(0xed) == 0x0
  {
  }

  lemma {:induction false} Poly32BytesUpperSecond()
    ensures Eight(0xb8) == Octet(0xedb8) && ShiftByte(0xedb8) == 0xed
  {
  }

  lemma {:induction false} Poly32BytesLowerFirst()
    ensures Eight(0x83) == Octet(0xedb883) && ShiftByte(0xedb883) == 0xedb8
  {
  }

  lemma {:induction false} Poly32BytesLowerSecond()
    ensures Eight(0x20) == Octet(0xedb88320) && ShiftByte(0xedb88320) == 0xedb883
  {
  }

  lemma {:induction false} Poly32()
    ensures WordOf(0xedb88320, 32) == Machine(0xedb88320, 4) && Small(0xedb88320, 4)
  {
    hide WordOf, Machine, Octet, ShiftByte, Eight;
    ByteNone(0);
    Poly32BytesUpperFirst();
    Poly32BytesUpperSecond();
    Poly32BytesLowerFirst();
    Poly32BytesLowerSecond();
    WordIsEight(0xed);
    ByteMore(0xed, 0x0, 0xed, 0);
    WordIsEight(0xb8);
    ByteMore(0xb8, 0xed, 0xedb8, 1);
    WordIsEight(0x83);
    ByteMore(0x83, 0xedb8, 0xedb883, 2);
    WordIsEight(0x20);
    ByteMore(0x20, 0xedb883, 0xedb88320, 3);
  }

  lemma {:induction false} Result32BytesUpperFirst()
    ensures Eight(0xcb) == Octet(0xcb) && ShiftByte(0xcb) == 0x0
  {
  }

  lemma {:induction false} Result32BytesUpperSecond()
    ensures Eight(0xf4) == Octet(0xcbf4) && ShiftByte(0xcbf4) == 0xcb
  {
  }

  lemma {:induction false} Result32BytesLowerFirst()
    ensures Eight(0x39) == Octet(0xcbf439) && ShiftByte(0xcbf439) == 0xcbf4
  {
  }

  lemma {:induction false} Result32BytesLowerSecond()
    ensures Eight(0x26) == Octet(0xcbf43926) && ShiftByte(0xcbf43926) == 0xcbf439
  {
  }

  lemma {:induction false} Result32()
    ensures WordOf(0xcbf43926, 32) == Machine(0xcbf43926, 4) && Small(0xcbf43926, 4)
  {
    hide WordOf, Machine, Octet, ShiftByte, Eight;
    ByteNone(0);
    Result32BytesUpperFirst();
    Result32BytesUpperSecond();
    Result32BytesLowerFirst();
    Result32BytesLowerSecond();
    WordIsEight(0xcb);
    ByteMore(0xcb, 0x0, 0xcb, 0);
    WordIsEight(0xf4);
    ByteMore(0xf4, 0xcb, 0xcbf4, 1);
    WordIsEight(0x39);
    ByteMore(0x39, 0xcbf4, 0xcbf439, 2);
    WordIsEight(0x26);
    ByteMore(0x26, 0xcbf439, 0xcbf43926, 3);
  }

  lemma {:induction false} Register32Byte0()
    ensures Eight(0x34) == Octet(0x34) && ShiftByte(0x34) == 0x0
  {
  }

  lemma {:induction false} Register32Byte1()
    ensures Eight(0xb) == Octet(0x340b) && ShiftByte(0x340b) == 0x34
  {
  }

  lemma {:induction false} Register32Byte2()
    ensures Eight(0xc6) == Octet(0x340bc6) && ShiftByte(0x340bc6) == 0x340b
  {
  }

  lemma {:induction false} Register32Byte3()
    ensures Eight(0xd9) == Octet(0x340bc6d9) && ShiftByte(0x340bc6d9) == 0x340bc6
  {
  }

  lemma {:induction false} Register32()
    ensures WordOf(0x340bc6d9, 32) == Machine(0x340bc6d9, 4) && Small(0x340bc6d9, 4)
  {
    hide WordOf, Machine, Octet, ShiftByte, Eight;
    ByteNone(0);
    Register32Byte0();
    WordIsEight(0x34);
    ByteMore(0x34, 0x0, 0x34, 0);
    Register32Byte1();
    WordIsEight(0xb);
    ByteMore(0xb, 0x34, 0x340b, 1);
    Register32Byte2();
    WordIsEight(0xc6);
    ByteMore(0xc6, 0x340b, 0x340bc6, 2);
    Register32Byte3();
    WordIsEight(0xd9);
    ByteMore(0xd9, 0x340bc6, 0x340bc6d9, 3);
  }

  lemma {:induction false} Poly64HighBytesUpperFirst()
    ensures Eight(0xc9) == Octet(0xc9) && ShiftByte(0xc9) == 0x0
  {
  }

  lemma {:induction false} Poly64HighBytesUpperSecond()
    ensures Eight(0x6c) == Octet(0xc96c) && ShiftByte(0xc96c) == 0xc9
  {
  }

  lemma {:induction false} Poly64HighBytesLowerFirst()
    ensures Eight(0x57) == Octet(0xc96c57) && ShiftByte(0xc96c57) == 0xc96c
  {
  }

  lemma {:induction false} Poly64HighBytesLowerSecond()
    ensures Eight(0x95) == Octet(0xc96c5795) && ShiftByte(0xc96c5795) == 0xc96c57
  {
  }

  lemma {:induction false} Poly64High()
    ensures WordOf(0xc96c5795, 32) == Machine(0xc96c5795, 4) && Small(0xc96c5795, 4)
  {
    hide WordOf, Machine, Octet, ShiftByte, Eight;
    ByteNone(0);
    Poly64HighBytesUpperFirst();
    Poly64HighBytesUpperSecond();
    Poly64HighBytesLowerFirst();
    Poly64HighBytesLowerSecond();
    WordIsEight(0xc9);
    ByteMore(0xc9, 0x0, 0xc9, 0);
    WordIsEight(0x6c);
    ByteMore(0x6c, 0xc9, 0xc96c, 1);
    WordIsEight(0x57);
    ByteMore(0x57, 0xc96c, 0xc96c57, 2);
    WordIsEight(0x95);
    ByteMore(0x95, 0xc96c57, 0xc96c5795, 3);
  }

  lemma {:induction false} Poly64BytesUpperFirst()
    ensures Eight(0xd7) == Octet(0xc96c5795d7) && ShiftByte(0xc96c5795d7) == 0xc96c5795
  {
  }

  lemma {:induction false} Poly64BytesUpperSecond()
    ensures Eight(0x87) == Octet(0xc96c5795d787) && ShiftByte(0xc96c5795d787) == 0xc96c5795d7
  {
  }

  lemma {:induction false} Poly64BytesLowerFirst()
    ensures Eight(0xf) == Octet(0xc96c5795d7870f) && ShiftByte(0xc96c5795d7870f) == 0xc96c5795d787
  {
  }

  lemma {:induction false} Poly64BytesLowerSecond()
    ensures Eight(0x42) == Octet(0xc96c5795d7870f42) && ShiftByte(0xc96c5795d7870f42) == 0xc96c5795d7870f
  {
  }

  lemma {:induction false} Poly64()
    ensures WordOf(0xc96c5795d7870f42, 64) == Machine(0xc96c5795d7870f42, 8) && Small(0xc96c5795d7870f42, 8)
  {
    hide WordOf, Machine, Octet, ShiftByte, Eight;
    Poly64High();
    Poly64BytesUpperFirst();
    Poly64BytesUpperSecond();
    Poly64BytesLowerFirst();
    Poly64BytesLowerSecond();
    WordIsEight(0xd7);
    ByteMore(0xd7, 0xc96c5795, 0xc96c5795d7, 4);
    WordIsEight(0x87);
    ByteMore(0x87, 0xc96c5795d7, 0xc96c5795d787, 5);
    WordIsEight(0xf);
    ByteMore(0xf, 0xc96c5795d787, 0xc96c5795d7870f, 6);
    WordIsEight(0x42);
    ByteMore(0x42, 0xc96c5795d7870f, 0xc96c5795d7870f42, 7);
  }

  lemma {:induction false} Result64HighBytesUpperFirst()
    ensures Eight(0x99) == Octet(0x99) && ShiftByte(0x99) == 0x0
  {
  }

  lemma {:induction false} Result64HighBytesUpperSecond()
    ensures Eight(0x5d) == Octet(0x995d) && ShiftByte(0x995d) == 0x99
  {
  }

  lemma {:induction false} Result64HighBytesLowerFirst()
    ensures Eight(0xc9) == Octet(0x995dc9) && ShiftByte(0x995dc9) == 0x995d
  {
  }

  lemma {:induction false} Result64HighBytesLowerSecond()
    ensures Eight(0xbb) == Octet(0x995dc9bb) && ShiftByte(0x995dc9bb) == 0x995dc9
  {
  }

  lemma {:induction false} Result64High()
    ensures WordOf(0x995dc9bb, 32) == Machine(0x995dc9bb, 4) && Small(0x995dc9bb, 4)
  {
    hide WordOf, Machine, Octet, ShiftByte, Eight;
    ByteNone(0);
    Result64HighBytesUpperFirst();
    Result64HighBytesUpperSecond();
    Result64HighBytesLowerFirst();
    Result64HighBytesLowerSecond();
    WordIsEight(0x99);
    ByteMore(0x99, 0x0, 0x99, 0);
    WordIsEight(0x5d);
    ByteMore(0x5d, 0x99, 0x995d, 1);
    WordIsEight(0xc9);
    ByteMore(0xc9, 0x995d, 0x995dc9, 2);
    WordIsEight(0xbb);
    ByteMore(0xbb, 0x995dc9, 0x995dc9bb, 3);
  }

  lemma {:induction false} Result64BytesUpperFirst()
    ensures Eight(0xdf) == Octet(0x995dc9bbdf) && ShiftByte(0x995dc9bbdf) == 0x995dc9bb
  {
  }

  lemma {:induction false} Result64BytesUpperSecond()
    ensures Eight(0x19) == Octet(0x995dc9bbdf19) && ShiftByte(0x995dc9bbdf19) == 0x995dc9bbdf
  {
  }

  lemma {:induction false} Result64BytesLowerFirst()
    ensures Eight(0x39) == Octet(0x995dc9bbdf1939) && ShiftByte(0x995dc9bbdf1939) == 0x995dc9bbdf19
  {
  }

  lemma {:induction false} Result64BytesLowerSecond()
    ensures Eight(0xfa) == Octet(0x995dc9bbdf1939fa) && ShiftByte(0x995dc9bbdf1939fa) == 0x995dc9bbdf1939
  {
  }

  lemma {:induction false} Result64()
    ensures WordOf(0x995dc9bbdf1939fa, 64) == Machine(0x995dc9bbdf1939fa, 8) && Small(0x995dc9bbdf1939fa, 8)
  {
    hide WordOf, Machine, Octet, ShiftByte, Eight;
    Result64High();
    Result64BytesUpperFirst();
    Result64BytesUpperSecond();
    Result64BytesLowerFirst();
    Result64BytesLowerSecond();
    WordIsEight(0xdf);
    ByteMore(0xdf, 0x995dc9bb, 0x995dc9bbdf, 4);
    WordIsEight(0x19);
    ByteMore(0x19, 0x995dc9bbdf, 0x995dc9bbdf19, 5);
    WordIsEight(0x39);
    ByteMore(0x39, 0x995dc9bbdf19, 0x995dc9bbdf1939, 6);
    WordIsEight(0xfa);
    ByteMore(0xfa, 0x995dc9bbdf1939, 0x995dc9bbdf1939fa, 7);
  }

  lemma {:induction false} OnesWord(k: nat)
    requires k == 4 || k == 8
    ensures Ones(8 * k) == Machine(if k == 4 then 0xffffffff else 0xffffffffffffffff, k)
    ensures Small(if k == 4 then 0xffffffff else 0xffffffffffffffff, k)
  {
    if k == 4 {
      OnesFrom(0xffffffff, 4);
    } else {
      OnesFrom(0xffffffffffffffff, 8);
    }
  }

  /** All ones in the low k bytes and nothing above. */
  predicate AllOnes(v: bv64, k: nat) {
    if k == 0 then v == 0 else v & 0xff == 0xff && AllOnes(ShiftByte(v), k - 1)
  }

  lemma {:induction false} OnesFrom(v: bv64, k: nat)
    requires AllOnes(v, k)
    ensures Ones(8 * k) == Machine(v, k) && Small(v, k)
    decreases k
  {
    hide ShiftByte;
    if k > 0 {
      OnesFrom(ShiftByte(v), k - 1);
      OnesOctet(v);
      assert Ones(8 * k) == Ones(8) + Ones(8 * (k - 1));
    }
  }

  lemma {:induction false} OnesOctet(v: bv64)
    requires v & 0xff == 0xff
    ensures Octet(v) == Ones(8)
  {
  }

  lemma {:induction false} ZerosMachine(k: nat)
    ensures Machine(0, k) == Zeros(8 * k) && Small(0, k)
    decreases k
  {
    assert ShiftByte(0) == 0;
    assert Octet(0) == Zeros(8);
    hide Octet, ShiftByte;
    if k > 0 {
      ZerosMachine(k - 1);
    }
  }

  // ------------------------------------------------------------------
  // The check values
  // ------------------------------------------------------------------

  const DIGITS: seq<byte> := [0x31, 0x32, 0x33, 0x34, 0x35, 0x36, 0x37, 0x38, 0x39]

  /** A byte as the machine's message word. */
  lemma {:induction false} MessageWord(x: nat, m: bv64, k: nat)
    requires k > 0 && ShiftByte(m) == 0 && Octet(m) == Eight(x)
    ensures Machine(m, k) == WordOf(x, 8) + Zeros(8 * k - 8) && Small(m, k)
  {
    hide Octet, ShiftByte, Eight, WordOf;
    WordIsEight(x);
    ZerosMachine(k - 1);
  }

  lemma {:induction false} DigitStep(poly: bv64, c: bv64, d: bv64, k: nat, i: nat, m: bv64)
    requires k > 0 && Small(poly, k) && Small(c, k) && i < |DIGITS|
    requires Divide(Machine(poly, k), Ones(8 * k), DIGITS[..i]) == Machine(c, k)
    requires ShiftByte(m) == 0 && Octet(m) == Eight(DIGITS[i]) && Rounds(poly, Exclusive(c, m), 8) == d
    ensures Divide(Machine(poly, k), Ones(8 * k), DIGITS[..i + 1]) == Machine(d, k) && Small(d, k)
  {
    hide Machine, Small, Octet, ShiftByte, Eight, Exclusive, Rounds, BitsIn, WordOf, DIGITS;
    MessageWord(DIGITS[i], m, k);
    ByteRounds(poly, c, k, DIGITS[i], m);
    assert DIGITS[..i + 1][..i] == DIGITS[..i];
  }

  lemma {:induction false} Digit1()
    ensures ShiftByte(0x31) == 0 && Octet(0x31) == Eight(0x31)
  {
  }

  lemma {:induction false} Digit2()
    ensures ShiftByte(0x32) == 0 && Octet(0x32) == Eight(0x32)
  {
  }

  lemma {:induction false} Digit3()
    ensures ShiftByte(0x33) == 0 && Octet(0x33) == Eight(0x33)
  {
  }

  lemma {:induction false} Digit4()
    ensures ShiftByte(0x34) == 0 && Octet(0x34) == Eight(0x34)
  {
  }

  lemma {:induction false} Digit5()
    ensures ShiftByte(0x35) == 0 && Octet(0x35) == Eight(0x35)
  {
  }

  lemma {:induction false} Digit6()
    ensures ShiftByte(0x36) == 0 && Octet(0x36) == Eight(0x36)
  {
  }

  lemma {:induction false} Digit7()
    ensures ShiftByte(0x37) == 0 && Octet(0x37) == Eight(0x37)
  {
  }

  lemma {:induction false} Digit8()
    ensures ShiftByte(0x38) == 0 && Octet(0x38) == Eight(0x38)
  {
  }

  lemma {:induction false} Digit9()
    ensures ShiftByte(0x39) == 0 && Octet(0x39) == Eight(0x39)
  {
  }

  lemma {:induction false} Trace32()
    ensures Rounds(0xedb88320, Exclusive(0xffffffff, 0x31), 8) == 0x7c231048
    ensures Rounds(0xedb88320, Exclusive(0x7c231048, 0x32), 8) == 0xb0acbb32
    ensures Rounds(0xedb88320, Exclusive(0xb0acbb32, 0x33), 8) == 0x77b79c2d
    ensures Rounds(0xedb88320, Exclusive(0x77b79c2d, 0x34), 8) == 0x641c1f5c
    ensures Rounds(0xedb88320, Exclusive(0x641c1f5c, 0x35), 8) == 0x340ac5e3
    ensures Rounds(0xedb88320, Exclusive(0x340ac5e3, 0x36), 8) == 0xf68d2c9e
    ensures Rounds(0xedb88320, Exclusive(0xf68d2c9e, 0x37), 8) == 0xaffc9660
    ensures Rounds(0xedb88320, Exclusive(0xaffc9660, 0x38), 8) == 0x651f2550
    ensures Rounds(0xedb88320, Exclusive(0x651f2550, 0x39), 8) == 0x340bc6d9
  {
  }

  /** CRC-32 of "123456789". */
  lemma {:induction false} Check32()
    ensures Xor(Divide(WordOf(0xedb88320, 32), Ones(32), DIGITS), Ones(32)) == WordOf(0xcbf43926, 32)
  {
    hide Machine, Small, Octet, ShiftByte, Eight, Exclusive, Rounds, WordOf, Divide, Xor;
    Poly32();
    Result32();
    OnesWord(4);
    Trace32();
    assert DIGITS[..0] == [] && DIGITS[..9] == DIGITS;
    NothingIn(Machine(0xedb88320, 4), Ones(32));
    Digit1();
    DigitStep(0xedb88320, 0xffffffff, 0x7c231048, 4, 0, 0x31);
    Digit2();
    DigitStep(0xedb88320, 0x7c231048, 0xb0acbb32, 4, 1, 0x32);
    Digit3();
    DigitStep(0xedb88320, 0xb0acbb32, 0x77b79c2d, 4, 2, 0x33);
    Digit4();
    DigitStep(0xedb88320, 0x77b79c2d, 0x641c1f5c, 4, 3, 0x34);
    Digit5();
    DigitStep(0xedb88320, 0x641c1f5c, 0x340ac5e3, 4, 4, 0x35);
    Digit6();
    DigitStep(0xedb88320, 0x340ac5e3, 0xf68d2c9e, 4, 5, 0x36);
    Digit7();
    DigitStep(0xedb88320, 0xf68d2c9e, 0xaffc9660, 4, 6, 0x37);
    Digit8();
    DigitStep(0xedb88320, 0xaffc9660, 0x651f2550, 4, 7, 0x38);
    Digit9();
    DigitStep(0xedb88320, 0x651f2550, 0x340bc6d9, 4, 8, 0x39);
    MachineXor(0x340bc6d9, 0xffffffff, 4);
    Inverted32();
  }

  lemma {:induction false} Inverted32()
    ensures Exclusive(0x340bc6d9, 0xffffffff) == 0xcbf43926
  {
  }

  lemma {:induction false} Trace64()
    ensures Rounds(0xc96c5795d7870f42, Exclusive(0xffffffffffffffff, 0x31), 8) == 0xd5d0f17a6b6a3512
    ensures Rounds(0xc96c5795d7870f42, Exclusive(0xd5d0f17a6b6a3512, 0x32), 8) == 0xfbe29281d80da6a7
    ensures Rounds(0xc96c5795d7870f42, Exclusive(0xfbe29281d80da6a7, 0x33), 8) == 0xcfdcd7bbf8e33a9e
    ensures Rounds(0xc96c5795d7870f42, Exclusive(0xcfdcd7bbf8e33a9e, 0x34), 8) == 0x31b1786c99473cd7
    ensures Rounds(0xc96c5795d7870f42, Exclusive(0x31b1786c99473cd7, 0x35), 8) == 0xa258b9005afba316
    ensures Rounds(0xc96c5795d7870f42, Exclusive(0xa258b9005afba316, 0x36), 8) == 0xfb951ac9a23c3731
    ensures Rounds(0xc96c5795d7870f42, Exclusive(0xfb951ac9a23c3731, 0x37), 8) == 0x8faf60c99e6dc25f
    ensures Rounds(0xc96c5795d7870f42, Exclusive(0x8faf60c99e6dc25f, 0x38), 8) == 0xa3747fb7d45387f6
    ensures Rounds(0xc96c5795d7870f42, Exclusive(0xa3747fb7d45387f6, 0x39), 8) == 0x66a2364420e6c605
  {
  }

  lemma {:induction false} Complement()
    ensures Xor(WordOf(0xcbf43926, 32), Ones(32)) == WordOf(0x340bc6d9, 32)
  {
    hide Machine, WordOf, Xor, Small;
    Result32();
    Register32();
    OnesWord(4);
    MachineXor(0xcbf43926, 0xffffffff, 4);
    Restored32();
  }

  lemma {:induction false} Restored32()
    ensures Exclusive(0xcbf43926, 0xffffffff) == 0x340bc6d9
  {
  }

  /** CRC-64/XZ of "123456789". */
  lemma {:induction false} Check64()
    ensures Xor(Divide(WordOf(0xc96c5795d7870f42, 64), Ones(64), DIGITS), Ones(64)) == WordOf(0x995dc9bbdf1939fa, 64)
  {
    hide Machine, Small, Octet, ShiftByte, Eight, Exclusive, Rounds, WordOf, Divide, Xor;
    Poly64();
    Result64();
    OnesWord(8);
    Trace64();
    assert DIGITS[..0] == [] && DIGITS[..9] == DIGITS;
    NothingIn(Machine(0xc96c5795d7870f42, 8), Ones(64));
    Digit1();
    DigitStep(0xc96c5795d7870f42, 0xffffffffffffffff, 0xd5d0f17a6b6a3512, 8, 0, 0x31);
    Digit2();
    DigitStep(0xc96c5795d7870f42, 0xd5d0f17a6b6a3512, 0xfbe29281d80da6a7, 8, 1, 0x32);
    Digit3();
    DigitStep(0xc96c5795d7870f42, 0xfbe29281d80da6a7, 0xcfdcd7bbf8e33a9e, 8, 2, 0x33);
    Digit4();
    DigitStep(0xc96c5795d7870f42, 0xcfdcd7bbf8e33a9e, 0x31b1786c99473cd7, 8, 3, 0x34);
    Digit5();
    DigitStep(0xc96c5795d7870f42, 0x31b1786c99473cd7, 0xa258b9005afba316, 8, 4, 0x35);
    Digit6();
    DigitStep(0xc96c5795d7870f42, 0xa258b9005afba316, 0xfb951ac9a23c3731, 8, 5, 0x36);
    Digit7();
    DigitStep(0xc96c5795d7870f42, 0xfb951ac9a23c3731, 0x8faf60c99e6dc25f, 8, 6, 0x37);
    Digit8();
    DigitStep(0xc96c5795d7870f42, 0x8faf60c99e6dc25f, 0xa3747fb7d45387f6, 8, 7, 0x38);
    Digit9();
    DigitStep(0xc96c5795d7870f42, 0xa3747fb7d45387f6, 0x66a2364420e6c605, 8, 8, 0x39);
    MachineXor(0x66a2364420e6c605, 0xffffffffffffffff, 8);
    Inverted64();
  }

  lemma {:induction false} Inverted64()
    ensures Exclusive(0x66a2364420e6c605, 0xffffffffffffffff) == 0x995dc9bbdf1939fa
  {
  }

  /** The program on the nine bytes. */
  method CheckValues() returns (crc32: Word, crc64: Word)
    ensures crc32 == WordOf(0xcbf43926, 32) && crc64 == WordOf(0x995dc9bbdf1939fa, 64)
  {
    hide WordOf, Divide, Xor;
    Check32();
    Check64();
    var parts := [Bytes(DIGITS)];
    WholeFile();
    var ok;
    ok, crc32 := Crc32(parts);
    ok, crc64 := Crc64(parts);
  }

  lemma {:induction false} WholeFile()
    ensures !Fails([Bytes(DIGITS)]) && Content([Bytes(DIGITS)]) == DIGITS
  {
    var parts := [Bytes(DIGITS)];
    assert parts[1..] == [];
  }
}
