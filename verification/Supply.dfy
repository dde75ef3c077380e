/**
  How the inflate reader of stb_image.h is supplied with bits.

  Past the end of its input the reader invents zero bits, in two ways: a refill
  of the bit buffer reads zero bytes, and a Huffman symbol is granted sixteen
  zero bits once.  Whether a stream is accepted depends on how the two meet the
  widths of its fields, and on nothing else; this module keeps that account.
*/
module Supply {
  import opened Bits

  /** num_bits, the bytes not yet fetched, the zero bits invented so far, hit_zeof_once; or no supply left. */
  datatype Hand =
    | Hand(bits: nat, left: nat, extra: nat, hit: bool)
    | Dry

  /** stbi__zget8 into the bit buffer. */
  function Fetch(h: Hand): Hand
    requires h.Hand?
  {
    if h.left > 0 then h.(bits := h.bits + 8, left := h.left - 1)
    else h.(bits := h.bits + 8, extra := h.extra + 8)
  }

  /** stbi__fill_bits */
  function Filled(h: Hand): Hand
    decreases if h.Hand? then 32 - h.bits else 0
  {
    if h.Dry? || h.bits > 24 then h else Filled(Fetch(h))
  }

  /** What stbi__zhuffman_decode does before it looks at the bits. */
  function Refilled(h: Hand): Hand {
    if h.Dry? || h.bits >= 16 then h
    else if h.left > 0 then Filled(h)
    else if h.hit then Dry
    else h.(bits := h.bits + 16, extra := h.extra + 16, hit := true)
  }

  function Less(h: Hand, n: nat): Hand {
    if h.Dry? || h.bits < n then Dry else h.(bits := h.bits - n)
  }

  /** The test at the end of a block body: none of the granted sixteen bits may be used up. */
  function Guarded(h: Hand): Hand {
    if h.Dry? || (h.hit && h.bits < 16) then Dry else h
  }

  /** One field taken from the supply; Dry when the reader gives up on it. */
  function Next(h: Hand, f: Field): Hand {
    match f.kind
    case Number => Less(if h.Hand? && h.bits < f.width then Filled(h) else h, f.width)
    case Codeword => Less(Refilled(h), f.width)
    case BlockEnd => Guarded(Less(Refilled(h), f.width))
    case Aligned => Less(if h.Hand? && h.bits == 0 then Fetch(h) else h, f.width)
    case Data => if h.Dry? || h.left == 0 then Dry else h.(left := h.left - 1)
  }

  function Rest(h: Hand, fs: seq<Field>): Hand
    decreases |fs|
  {
    if fs == [] then h else Rest(Next(h, fs[0]), fs[1..])
  }

  lemma {:induction false} RestAppend(h: Hand, a: seq<Field>, b: seq<Field>)
    ensures Rest(h, a + b) == Rest(Rest(h, a), b)
    decreases |a|
  {
    hide Next;
    if a == [] {
      assert a + b == b;
    } else {
      assert (a + b)[1..] == a[1..] + b;
      RestAppend(Next(h, a[0]), a[1..], b);
    }
  }

  lemma {:induction false} RestDry(fs: seq<Field>)
    ensures Rest(Dry, fs) == Dry
    decreases |fs|
  {
    if fs != [] {
      RestDry(fs[1..]);
    }
  }

  /** The supply serves two stretches of fields exactly when it serves them in turn. */
  lemma {:induction false} RestParts(h: Hand, a: seq<Field>, b: seq<Field>)
    ensures Rest(h, a + b) == Rest(Rest(h, a), b)
    ensures Rest(h, a + b).Hand? ==> Rest(h, a).Hand?
  {
    hide Rest;
    RestAppend(h, a, b);
    RestDry(b);
  }

  lemma {:induction false} RestOne(h: Hand, f: Field)
    ensures Rest(h, [f]) == Next(h, f) && Rest(h, []) == h
  {
    hide Next;
    assert [f][1..] == [];
  }

  lemma {:induction false} RestTwo(h: Hand, f: Field, g: Field)
    ensures Rest(h, [f, g]) == Next(Next(h, f), g)
  {
    hide Next;
    assert [f, g][1..] == [g];
    RestOne(Next(h, f), g);
  }

  lemma {:induction false} RestThree(h: Hand, a: Field, b: Field, c: Field)
    ensures Rest(h, [a, b, c]) == Next(Next(Next(h, a), b), c)
  {
    hide Next;
    assert [a, b, c][1..] == [b, c];
    RestTwo(Next(h, a), b, c);
  }

  // ------------------------------------------------------------------
  // Real bits
  // ------------------------------------------------------------------

  predicate Sound(h: Hand) {
    && h.Hand? && h.bits <= 32 && h.extra % 8 == 0
    && (h.extra > 0 ==> h.left == 0) && (h.hit ==> h.extra >= 16)
  }

  /** How many real bits are left; negative once invented ones have been used. */
  function Real(h: Hand): int
    requires h.Hand?
  {
    8 * h.left + h.bits - h.extra
  }

  /** A field the decoder may ask for. */
  predicate Readable(f: Field) {
    match f.kind
    case Number => f.width <= 16
    case Codeword => f.width <= 15
    case BlockEnd => f.width <= 15
    case Aligned => f.width == 8
    case Data => f.width == 8
  }

  /** Fields in the bit-packed part of a stream. */
  predicate Packed(fs: seq<Field>) {
    forall i :: 0 <= i < |fs| ==> Readable(fs[i]) && !fs[i].kind.Aligned? && !fs[i].kind.Data?
  }

  lemma {:induction false} FilledSound(h: Hand)
    requires Sound(h) && h.bits <= 24
    ensures Sound(Filled(h)) && Filled(h).bits > 24 && Real(Filled(h)) == Real(h) && Filled(h).hit == h.hit
    ensures Filled(h).extra <= h.extra + 8 * ((32 - h.bits) / 8)
    ensures h.left > 0 ==> Filled(h).extra <= 24
    decreases 32 - h.bits
  {
    var g := Fetch(h);
    if g.bits <= 24 {
      FilledSound(g);
    }
  }

  lemma {:induction false} RefilledSound(h: Hand)
    requires Sound(h) && Refilled(h).Hand?
    ensures Sound(Refilled(h)) && Refilled(h).bits >= 16 && Real(Refilled(h)) == Real(h)
  {
    if h.bits < 16 && h.left > 0 {
      FilledSound(h);
    }
  }

  /** Taking a field uses up its width, whatever was fetched or invented on the way. */
  lemma {:induction false} NextReal(h: Hand, f: Field)
    requires Sound(h) && Readable(f) && Next(h, f).Hand?
    ensures Sound(Next(h, f)) && Real(Next(h, f)) == Real(h) - f.width
    ensures f.kind.Number? && 0 < f.width ==> Next(h, f).bits <= 32 - f.width
  {
    hide Filled, Refilled;
    if f.kind.Number? && h.bits < f.width {
      FilledSound(h);
    }
    if f.kind.Codeword? || f.kind.BlockEnd? {
      RefilledDry();
      RefilledSound(h);
    }
  }

  lemma {:induction false} RefilledDry()
    ensures Refilled(Dry) == Dry
  {
  }

  /** A field whose bits are all real is served. */
  lemma {:induction false} NextServes(h: Hand, f: Field)
    requires Sound(h) && Readable(f) && !f.kind.Data? && f.width <= Real(h)
    requires f.kind.Aligned? ==> h.bits % 8 == 0
    ensures Next(h, f).Hand?
  {
    if h.bits <= 24 {
      FilledSound(h);
    }
    hide Filled;
  }

  predicate AllReadable(fs: seq<Field>) {
    forall i :: 0 <= i < |fs| ==> Readable(fs[i])
  }

  lemma {:induction false} RestReal(h: Hand, fs: seq<Field>)
    requires Sound(h) && AllReadable(fs) && Rest(h, fs).Hand?
    ensures Sound(Rest(h, fs)) && Real(Rest(h, fs)) == Real(h) - Width(fs)
    decreases |fs|
  {
    hide Next, Readable, Sound, Real;
    if fs != [] {
      RestDry(fs[1..]);
      NextReal(h, fs[0]);
      RestReal(Next(h, fs[0]), fs[1..]);
    }
  }

  /** Bit-packed fields that are all real are served. */
  lemma {:induction false} RestServes(h: Hand, fs: seq<Field>)
    requires Sound(h) && Packed(fs) && Width(fs) <= Real(h)
    ensures Rest(h, fs).Hand? && Sound(Rest(h, fs)) && Real(Rest(h, fs)) == Real(h) - Width(fs)
    decreases |fs|
  {
    hide Next, Readable, Real;
    if fs != [] {
      WidthTail(fs);
      NextServes(h, fs[0]);
      NextReal(h, fs[0]);
      RestServes(Next(h, fs[0]), fs[1..]);
    }
  }

  lemma {:induction false} WidthTail(fs: seq<Field>)
    requires fs != []
    ensures fs[0].width <= Width(fs)
  {
  }
}
