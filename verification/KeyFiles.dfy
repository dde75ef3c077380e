/**
  VeraCrypt key files in cryptodlg.cpp: each file's running CRC-32 register is
  added, byte by byte, into a pool that already holds the passphrase.
*/
module KeyFiles {
  import opened Bits
  import opened Crc
  import opened CrcCheck

  const LIMIT: nat := 0x10_0000

  // ------------------------------------------------------------------
  // What mixing a file adds
  // ------------------------------------------------------------------

  function Poly(): (p: Word)
    ensures |p| == 32
  {
    WordOf(0xedb88320, 32)
  }

  /** The register after the first u + 1 bytes of a file. */
  function Register(file: seq<byte>, u: nat): (r: Word)
    requires u < |file|
    ensures |r| == 32
  {
    Divide(Poly(), Ones(32), file[..u + 1])
  }

  /** Byte k of a register, most significant first. */
  function ByteOf(r: Word, k: nat): byte
    requires |r| == 32 && k < 4
  {
    WordOfNumber(r[24 - 8 * k..32 - 8 * k], 8);
    assert Pow2(8) == 256 by { Pow2Values(); }
    NumberOf(r[24 - 8 * k..32 - 8 * k])
  }

  /** What byte u of the file adds to pool byte j: its register's bytes land on four successive places, wrapping around. */
  function Share(file: seq<byte>, n: nat, u: nat, j: nat): nat
    requires u < |file| && n > 0
  {
    var at := 4 * u % n;
    if at <= j < at + 4 then ByteOf(Register(file, u), j - at) else 0
  }

  /** What the first t bytes of the file add to pool byte j. */
  function Total(file: seq<byte>, n: nat, t: nat, j: nat): nat
    requires t <= |file| && n > 0
  {
    if t == 0 then 0 else Total(file, n, t - 1, j) + Share(file, n, t - 1, j)
  }

  /** Only the first megabyte counts. */
  function Used(file: seq<byte>): nat {
    if |file| <= LIMIT then |file| else LIMIT
  }

  function Weight(file: seq<byte>, n: nat, j: nat): nat
    requires n > 0
  {
    Total(file, n, Used(file), j)
  }

  /** Bytes after the first megabyte have no effect. */
  lemma {:induction false} TailIgnored(file: seq<byte>, other: seq<byte>, n: nat, j: nat)
    requires n > 0 && |file| >= LIMIT && |other| >= LIMIT && file[..LIMIT] == other[..LIMIT]
    ensures Weight(file, n, j) == Weight(other, n, j)
  {
    SamePrefix(file, other, n, LIMIT, j);
  }

  lemma {:induction false} SamePrefix(file: seq<byte>, other: seq<byte>, n: nat, t: nat, j: nat)
    requires n > 0 && t <= |file| && t <= |other| && file[..t] == other[..t]
    ensures Total(file, n, t, j) == Total(other, n, t, j)
    decreases t
  {
    if t > 0 {
      hide Divide;
      assert file[..t - 1] == file[..t][..t - 1] == other[..t][..t - 1] == other[..t - 1];
      SamePrefix(file, other, n, t - 1, j);
    }
  }

  // ------------------------------------------------------------------
  // Mixing one file
  // ------------------------------------------------------------------

  predicate PoolSize(n: nat) {
    n == 64 || n == 128
  }

  /** The place for byte u; it moves by four and starts over at the end, never leaving the pool. */
  lemma {:induction false} PlaceMoves(u: nat, n: nat)
    requires PoolSize(n)
    ensures 4 * u % n + 4 <= n
    ensures 4 * (u + 1) % n == if 4 * u % n + 4 >= n then 0 else 4 * u % n + 4
  {
    var q, r := if n == 64 then u / 16 else u / 32, if n == 64 then u % 16 else u % 32;
    if n == 64 {
      Wrap64(q, 4 * r);
      Wrap64(if r == 15 then q + 1 else q, if r == 15 then 0 else 4 * r + 4);
    } else {
      Wrap128(q, 4 * r);
      Wrap128(if r == 31 then q + 1 else q, if r == 31 then 0 else 4 * r + 4);
    }
  }

  lemma {:induction false} Wrap64(q: nat, r: nat)
    requires r < 64
    ensures (64 * q + r) % 64 == r
  {
  }

  lemma {:induction false} Wrap128(q: nat, r: nat)
    requires r < 128
    ensures (128 * q + r) % 128 == r
  {
  }

  /** Add the four bytes of a register at a place. */
  method AddRegister(pool: array<byte>, at: nat, r: Word)
    requires |r| == 32 && at + 4 <= pool.Length
    modifies pool
    ensures forall j :: 0 <= j < pool.Length ==>
      pool[j] == if at <= j < at + 4 then Plus(old(pool[j]), ByteOf(r, j - at)) else old(pool[j])
  {
    hide ByteOf;
    pool[at] := Plus(pool[at], ByteOf(r, 0));
    pool[at + 1] := Plus(pool[at + 1], ByteOf(r, 1));
    pool[at + 2] := Plus(pool[at + 2], ByteOf(r, 2));
    pool[at + 3] := Plus(pool[at + 3], ByteOf(r, 3));
  }

  /** Unsigned char addition. */
  function Plus(a: nat, b: nat): byte {
    (a + b) % 256
  }

  lemma {:induction false} PlusTwice(a: nat, b: nat, c: nat)
    ensures Plus(Plus(a, b), c) == Plus(a, b + c)
  {
  }

  /** The pool holds the initial bytes plus what t bytes of the file add. */
  ghost predicate MixedTo(pool: seq<byte>, init: seq<byte>, file: seq<byte>, t: nat)
    requires t <= |file|
  {
    && |pool| == |init| > 0
    && forall j :: 0 <= j < |pool| ==> pool[j] == Plus(init[j], Total(file, |init|, t, j))
  }

  lemma {:induction false} MixedStep(pool: seq<byte>, next: seq<byte>, init: seq<byte>, file: seq<byte>, t: nat)
    requires t < |file| && MixedTo(pool, init, file, t) && |next| == |pool|
    requires var at := 4 * t % |init|;
      forall j :: 0 <= j < |next| ==>
        next[j] == if at <= j < at + 4 then Plus(pool[j], ByteOf(Register(file, t), j - at)) else pool[j]
    ensures MixedTo(next, init, file, t + 1)
  {
    hide ByteOf, Register, Plus;
    forall j | 0 <= j < |next| ensures next[j] == Plus(init[j], Total(file, |init|, t + 1, j)) {
      PlusTwice(init[j], Total(file, |init|, t, j), Share(file, |init|, t, j));
    }
  }

  lemma {:induction false} MixedNone(pool: seq<byte>, file: seq<byte>)
    requires |pool| > 0
    ensures MixedTo(pool, pool, file, 0)
  {
  }

  /** The CRC of one more byte. */
  lemma {:induction false} RegisterStep(file: seq<byte>, t: nat, crc: Word)
    requires t < |file| && |crc| == 32 && crc == Divide(Poly(), Ones(32), file[..t])
    ensures Xor(Entry(Poly(), Index(crc, file[t])), Down(crc, 8)) == Register(file, t)
  {
    hide Entry, Index, BitsIn, Poly;
    LookupIsEightBits(Poly(), crc, file[t]);
    assert file[..t + 1][..t] == file[..t];
  }

  /**
    vc_apply_keyfile: each pool byte grows by the closed-form sum of what the file's first megabyte adds there; the
    index never leaves the pool; an empty file is refused.
  */
  method Apply(pool: array<byte>, file: seq<byte>) returns (ok: bool)
    requires PoolSize(pool.Length)
    modifies pool
    ensures ok == (file != [])
    ensures forall j :: 0 <= j < pool.Length ==> pool[j] == Plus(old(pool[j]), Weight(file, pool.Length, j))
  {
    hide Entry, Index, Divide, Poly, Register, ByteOf, Plus, Total, Xor, Down;
    ghost var init := pool[..];
    var table := Fill(Poly());
    var crc := Ones(32);
    var pos: nat, t: nat := 0, 0;
    MixedNone(init, file);
    StartCrc(file);
    PlaceMoves(0, pool.Length);
    while t < LIMIT && t < |file|
      invariant t <= Used(file) && |crc| == 32 && crc == Divide(Poly(), Ones(32), file[..t])
      invariant pos == 4 * t % pool.Length && pos + 4 <= pool.Length && MixedTo(pool[..], init, file, t)
    {
      RegisterStep(file, t, crc);
      crc := Xor(table[Index(crc, file[t])], Down(crc, 8));
      ghost var before := pool[..];
      AddRegister(pool, pos, crc);
      MixedStep(before, pool[..], init, file, t);
      PlaceMoves(t, pool.Length);
      PlaceMoves(t + 1, pool.Length);
      pos := pos + 4;
      if pos >= pool.Length {
        pos := 0;
      }
      RegisterIs(file, t);
      t := t + 1;
    }
    MixedAll(pool[..], init, file);
    ok := t != 0;
  }

  lemma {:induction false} MixedAll(pool: seq<byte>, init: seq<byte>, file: seq<byte>)
    requires MixedTo(pool, init, file, Used(file))
    ensures forall j :: 0 <= j < |pool| ==> pool[j] == Plus(init[j], Weight(file, |init|, j))
  {
    hide Plus, Total;
  }

  lemma {:induction false} StartCrc(file: seq<byte>)
    ensures Divide(Poly(), Ones(32), file[..0]) == Ones(32)
  {
  }

  lemma {:induction false} RegisterIs(file: seq<byte>, t: nat)
    requires t < |file|
    ensures Register(file, t) == Divide(Poly(), Ones(32), file[..t + 1])
  {
  }

  // ------------------------------------------------------------------
  // Mixing a list of files
  // ------------------------------------------------------------------

  function Weights(files: seq<seq<byte>>, n: nat, j: nat): nat
    requires n > 0
  {
    if files == [] then 0 else Weights(files[..|files| - 1], n, j) + Weight(files[|files| - 1], n, j)
  }

  lemma {:induction false} WeightsAppend(a: seq<seq<byte>>, b: seq<seq<byte>>, n: nat, j: nat)
    requires n > 0
    ensures Weights(a + b, n, j) == Weights(a, n, j) + Weights(b, n, j)
    decreases |b|
  {
    hide Weight;
    if b == [] {
      assert a + b == a;
    } else {
      WeightsAppend(a, b[..|b| - 1], n, j);
      assert (a + b)[..|a + b| - 1] == a + b[..|b| - 1];
    }
  }

  lemma {:induction false} WeightsWithout(files: seq<seq<byte>>, i: nat, n: nat, j: nat)
    requires n > 0 && i < |files|
    ensures Weights(files, n, j) == Weights(files[..i] + files[i + 1..], n, j) + Weight(files[i], n, j)
  {
    hide Weight;
    assert files == files[..i] + [files[i]] + files[i + 1..];
    WeightsAppend(files[..i] + [files[i]], files[i + 1..], n, j);
    WeightsAppend(files[..i], [files[i]], n, j);
    WeightsAppend(files[..i], files[i + 1..], n, j);
    var one: seq<seq<byte>> := [files[i]];
    assert one[..0] == [];
    assert Weights(one, n, j) == Weights([], n, j) + Weight(files[i], n, j);
  }

  /** The sum does not depend on the order of the files. */
  lemma {:induction false} OrderFree(files: seq<seq<byte>>, others: seq<seq<byte>>, n: nat, j: nat)
    requires n > 0 && multiset(files) == multiset(others)
    ensures Weights(files, n, j) == Weights(others, n, j)
    decreases |files|
  {
    hide Weight;
    if files == [] {
      assert |others| == |multiset(others)| == 0;
    } else {
      var last := files[|files| - 1];
      assert last in multiset(others);
      var i :| 0 <= i < |others| && others[i] == last;
      var rest := others[..i] + others[i + 1..];
      assert others == others[..i] + [last] + others[i + 1..];
      assert files == files[..|files| - 1] + [last];
      assert multiset(rest) == multiset(others) - multiset{last} == multiset(files) - multiset{last} == multiset(files[..|files| - 1]);
      OrderFree(files[..|files| - 1], rest, n, j);
      WeightsWithout(others, i, n, j);
    }
  }

  /** The size of the pool for a passphrase. */
  function PoolFor(pass: seq<byte>): (n: nat)
    ensures PoolSize(n)
  {
    if |pass| <= 64 then 64 else 128
  }

  /** The pool a passphrase starts with. */
  function Start(pass: seq<byte>): (pool: seq<byte>)
    ensures |pool| == PoolFor(pass)
    ensures forall j :: 0 <= j < |pool| ==> pool[j] == if j < |pass| then pass[j] else 0
  {
    var u := if |pass| > 128 then pass[..128] else pass;
    var n := if |u| <= 64 then 64 else 128;
    u + seq(n - |u|, _ => 0)
  }

  /** The key: each byte of the passphrase, or 0 behind it, plus what the files add there. */
  predicate Mixed(pass: seq<byte>, files: seq<seq<byte>>, key: seq<byte>) {
    && |key| == PoolFor(pass)
    && forall j :: 0 <= j < |key| ==> key[j] == Plus(if j < |pass| then pass[j] else 0, Weights(files, |key|, j))
  }

  /**
    vc_gather_key: without key files the passphrase itself, cut at 128 bytes; otherwise the pool with all files mixed in,
    or nothing when one of them is empty.
  */
  method GatherKey(pass: seq<byte>, files: seq<seq<byte>>) returns (key: seq<byte>)
    ensures files == [] ==> key == if |pass| > 128 then pass[..128] else pass
    ensures files != [] && [] in files ==> key == []
    ensures files != [] && [] !in files ==> Mixed(pass, files, key)
  {
    hide Weight, Plus, Weights, Start;
    if files == [] {
      return if |pass| > 128 then pass[..128] else pass;
    }
    ghost var init := Start(pass);
    var start := Start(pass);
    var pool := new byte[|start|](i requires 0 <= i < |start| => start[i]);
    PlusNothing(init, pool[..]);
    assert files[..0] == [];
    var i := 0;
    while i < |files|
      invariant 0 <= i <= |files| && [] !in files[..i]
      invariant forall j :: 0 <= j < |init| ==> pool[j] == Plus(init[j], Weights(files[..i], |init|, j))
    {
      ghost var before := pool[..];
      var ok := Apply(pool, files[i]);
      if !ok {
        return [];
      }
      OneMore(files, i, init, before, pool[..]);
      assert files[..i + 1] == files[..i] + [files[i]];
      i := i + 1;
    }
    assert files[..i] == files;
    key := pool[..];
  }

  lemma {:induction false} OneMore(files: seq<seq<byte>>, i: nat, init: seq<byte>, before: seq<byte>, after: seq<byte>)
    requires i < |files| && |before| == |after| == |init| > 0
    requires forall j :: 0 <= j < |init| ==> before[j] == Plus(init[j], Weights(files[..i], |init|, j))
    requires forall j :: 0 <= j < |init| ==> after[j] == Plus(before[j], Weight(files[i], |init|, j))
    ensures forall j :: 0 <= j < |init| ==> after[j] == Plus(init[j], Weights(files[..i + 1], |init|, j))
  {
    hide Weight, Plus;
    assert files[..i + 1][..i] == files[..i];
    forall j | 0 <= j < |init| ensures after[j] == Plus(init[j], Weights(files[..i + 1], |init|, j)) {
      PlusTwice(init[j], Weights(files[..i], |init|, j), Weight(files[i], |init|, j));
    }
  }

  lemma {:induction false} PlusNothing(init: seq<byte>, pool: seq<byte>)
    requires pool == init && |init| > 0
    ensures forall j :: 0 <= j < |init| ==> pool[j] == Plus(init[j], Weights([], |init|, j))
  {
  }

  /** Mixing the same files in another order gives the same key. */
  lemma {:induction false} SameKey(pass: seq<byte>, files: seq<seq<byte>>, others: seq<seq<byte>>, key: seq<byte>, other: seq<byte>)
    requires multiset(files) == multiset(others) && Mixed(pass, files, key) && Mixed(pass, others, other)
    ensures key == other
  {
    hide Weights, Plus;
    forall j | 0 <= j < |key| ensures key[j] == other[j] {
      OrderFree(files, others, |key|, j);
    }
  }

  // ------------------------------------------------------------------
  // The bytes of a register, and the check value of the CRC in a key
  // ------------------------------------------------------------------

  lemma {:induction false} NumberOfByte(b: byte)
    ensures NumberOf(WordOf(b, 8)) == b
    ensures |WordOf(b, 8)| == 8
  {
    NumberOfWord(b, 8);
    Pow2Values();
  }

  lemma {:induction false} NumberOfWord(v: nat, n: nat)
    requires v < Pow2(n)
    ensures NumberOf(WordOf(v, n)) == v
    decreases n
  {
    if n > 0 {
      NumberOfWord(v / 2, n - 1);
      assert WordOf(v, n)[1..] == WordOf(v / 2, n - 1);
    }
  }

  /** Byte 0 of a register is its most significant one. */
  lemma {:induction false} BytesOfWord(a: byte, b: byte, c: byte, d: byte)
    ensures var r := WordOf(d + 256 * (c + 256 * (b + 256 * a)), 32);
      ByteOf(r, 0) == a && ByteOf(r, 1) == b && ByteOf(r, 2) == c && ByteOf(r, 3) == d
  {
    hide WordOf, NumberOf;
    Pow2Values();
    WordSplit(d, c + 256 * (b + 256 * a), 8, 24);
    WordSplit(c, b + 256 * a, 8, 16);
    WordSplit(b, a, 8, 8);
    NumberOfByte(a);
    NumberOfByte(b);
    NumberOfByte(c);
    NumberOfByte(d);
    var r := WordOf(d + 256 * (c + 256 * (b + 256 * a)), 32);
    assert r == WordOf(d, 8) + (WordOf(c, 8) + (WordOf(b, 8) + WordOf(a, 8)));
    assert r[24..32] == WordOf(a, 8) && r[16..24] == WordOf(b, 8) && r[8..16] == WordOf(c, 8) && r[0..8] == WordOf(d, 8);
  }

  /** The register after "123456789" is the complement of the check value of CRC-32. */
  lemma {:induction false} DigitsRegister()
    ensures Register(DIGITS, 8) == WordOf(0x340bc6d9, 32)
  {
    hide WordOf, Divide, Xor, DIGITS;
    Check32();
    NineDigits();
    assert DIGITS[..8 + 1] == DIGITS;
    var r := Register(DIGITS, 8);
    XorBack(r, Ones(32), WordOf(0xcbf43926, 32));
    Complement();
  }

  lemma {:induction false} NineDigits()
    ensures |DIGITS| == 9
  {
  }

  lemma {:induction false} XorBack(a: Word, b: Word, c: Word)
    requires |a| == |b| == |c| && Xor(a, b) == c
    ensures a == Xor(c, b)
  {
    forall i | 0 <= i < |a| ensures a[i] == Xor(c, b)[i] {
      assert Xor(a, b)[i] == c[i];
    }
  }

  /** Those nine bytes as the only key file put the register after them on places 32 to 35. */
  lemma {:induction false} DigitsKey(pass: seq<byte>, key: seq<byte>)
    requires |pass| <= 32 && Mixed(pass, [DIGITS], key)
    ensures key[32..36] == [0x34, 0x0b, 0xc6, 0xd9]
  {
    hide WordOf, ByteOf, Register, DIGITS, Weight;
    DigitsRegister();
    BytesOfWord(0x34, 0x0b, 0xc6, 0xd9);
    NineDigits();
    var files: seq<seq<byte>> := [DIGITS];
    assert files[..0] == [];
    forall k | 0 <= k < 4 ensures key[32 + k] == [0x34, 0x0b, 0xc6, 0xd9][k] {
      assert Weights(files, 64, 32 + k) == Weights([], 64, 32 + k) + Weight(DIGITS, 64, 32 + k);
      NinthOnly(DIGITS, 32 + k);
    }
  }

  /** The places of the ninth byte get nothing from the first eight. */
  lemma {:induction false} NinthOnly(file: seq<byte>, j: nat)
    requires |file| == 9 && 32 <= j < 36
    ensures Weight(file, 64, j) == ByteOf(Register(file, 8), j - 32)
  {
    hide ByteOf, Register;
    FirstsElsewhere(file, 8, j);
  }

  lemma {:induction false} FirstsElsewhere(file: seq<byte>, t: nat, j: nat)
    requires t <= 8 < |file| && 32 <= j
    ensures Total(file, 64, t, j) == 0
    decreases t
  {
    hide ByteOf, Register;
    if t > 0 {
      FirstsElsewhere(file, t - 1, j);
    }
  }
}
