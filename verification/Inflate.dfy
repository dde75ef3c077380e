/**
  The inflate decoder of stb_image.h.

  The reader's bit buffer, its refills, the zero bits it invents at the end of
  the input and the final output buffer are kept as the source keeps them.  All
  of the reader's state is summed up in one number, V(): the bits still to come.
*/
module Inflate {
  import opened Bits
  import opened Canonical
  import opened ZHuffman
  import opened Deflate
  import opened Supply

  const UINT_MAX: nat := 0xFFFF_FFFF

  /** The size an expandable output buffer of the given size can be doubled to. */
  function Most(limit: nat): (m: nat)
    requires 0 < limit <= UINT_MAX
    ensures limit <= m <= UINT_MAX && m > UINT_MAX / 2
    decreases UINT_MAX - limit
  {
    if limit > UINT_MAX / 2 then limit else Most(2 * limit)
  }

  /** The size of the output buffer after k rounds of the loop in stbi__zexpand. */
  function Doubled(limit: nat, k: nat): nat {
    if k == 0 then limit else 2 * Doubled(limit, k - 1)
  }

  /** The loop ends, with room for `need` bytes or a refusal, if and only if there is something to double or nothing needed. */
  lemma {:induction false} DoublingEnds(limit: nat, need: nat)
    ensures (exists k :: Doubled(limit, k) >= need || Doubled(limit, k) > UINT_MAX / 2) <==> limit > 0 || need == 0
  {
    if limit > 0 {
      DoubledGrows(limit, 32);
      Pow2Values();
      Pow2Add(16, 16);
      assert Doubled(limit, 32) > UINT_MAX / 2;
    } else if need == 0 {
      assert Doubled(limit, 0) >= need;
    } else {
      forall k ensures Doubled(0, k) == 0 {
        DoubledNothing(k);
      }
    }
  }

  lemma {:induction false} DoubledGrows(limit: nat, k: nat)
    requires limit > 0
    ensures Doubled(limit, k) >= Pow2(k)
    decreases k
  {
    if k > 0 { DoubledGrows(limit, k - 1); }
  }

  lemma {:induction false} DoubledNothing(k: nat)
    ensures Doubled(0, k) == 0
    decreases k
  {
    if k > 0 { DoubledNothing(k - 1); }
  }

  class ZBuf {
    const data: seq<byte>
    const expandable: bool
    var pos: nat            // zbuffer
    var numBits: nat        // num_bits
    var codeBuffer: nat     // code_buffer
    var hitEof: bool        // hit_zeof_once
    var out: seq<byte>      // zout_start .. zout
    var limit: nat          // zout_end - zout_start
    ghost var phantom: nat  // zero bits supplied beyond the end of the input

    ghost predicate Valid()
      reads this
    {
      && pos <= |data| && numBits <= 32 && codeBuffer < Pow2(numBits)
      && phantom % 8 == 0 && (phantom > 0 ==> pos == |data|) && (hitEof ==> phantom >= 16)
      && numBits <= 8 * pos + phantom && |out| <= limit && LimitOk()
    }

    /** A fixed buffer may be empty; doubling needs something to double. */
    predicate LimitOk()
      reads this
    {
      limit <= UINT_MAX && (expandable ==> 0 < limit)
    }

    /** The bits still to be read, zero-extended. */
    ghost function V(): nat
      reads this
      requires pos <= |data|
    {
      codeBuffer + Pow2(numBits) * LE(data[pos..])
    }

    /** How many bits have been taken from the stream. */
    ghost function Consumed(): int
      reads this
    {
      8 * pos + phantom - numBits
    }

    /** What the reader has to go on with. */
    ghost function Held(): Hand
      reads this
    {
      Hand(numBits, if pos <= |data| then |data| - pos else 0, phantom, hitEof)
    }

    /** How many bytes the output buffer can be brought to hold. */
    function Room(): nat
      reads this
      requires LimitOk()
    {
      if expandable then Most(limit) else limit
    }

    /** n bits were read and nothing else happened. */
    twostate predicate Took(n: nat)
      reads this
    {
      && old(Valid()) && Valid()
      && V() == Shr(old(V()), n) && Consumed() == old(Consumed()) + n
      && out == old(out) && limit == old(limit)
    }

    constructor (data: seq<byte>, expandable: bool, initial: nat)
      requires initial <= UINT_MAX && (expandable ==> 0 < initial)
      ensures this.data == data && this.expandable == expandable && limit == initial
      ensures Valid() && pos == 0 && numBits == 0 && codeBuffer == 0 && !hitEof && out == [] && phantom == 0
    {
      this.data, this.expandable, limit := data, expandable, initial;
      pos, numBits, codeBuffer, hitEof, out, phantom := 0, 0, 0, false, [], 0;
    }

    /** stbi__zget8: zero past the end. */
    method Get8() returns (b: byte)
      requires pos <= |data|
      modifies `pos
      ensures pos == if old(pos) < |data| then old(pos) + 1 else old(pos)
      ensures b == if old(pos) < |data| then data[old(pos)] else 0
      ensures LE(data[old(pos)..]) == b + 256 * LE(data[pos..])
    {
      if pos >= |data| {
        assert data[pos..] == [];
        b := 0;
      } else {
        b := data[pos];
        assert data[pos..][1..] == data[pos + 1..];
        pos := pos + 1;
      }
    }

    /** The loop of stbi__fill_bits; its "treat this as EOF" escape is never taken. */
    method FillBits()
      requires Valid() && numBits <= 24
      modifies `pos, `numBits, `codeBuffer, `phantom
      ensures Valid() && 24 < numBits && V() == old(V()) && Consumed() == old(Consumed())
      ensures Held() == Filled(old(Held()))
    {
      while true
        invariant Valid() && numBits <= 24 && V() == old(V()) && Consumed() == old(Consumed())
        invariant Filled(Held()) == Filled(old(Held()))
        decreases 24 - numBits
      {
        if codeBuffer >= Pow2(numBits) {
          assert false;
        }
        AddByte();
        if numBits > 24 {
          break;
        }
      }
    }

    method AddByte()
      requires Valid() && numBits <= 24
      modifies `pos, `numBits, `codeBuffer, `phantom
      ensures Valid() && numBits == old(numBits) + 8 && Held() == Fetch(old(Held()))
      ensures V() == old(V()) && Consumed() == old(Consumed())
    {
      hide Pow2, LE;
      ghost var before := pos;
      var b := Get8();
      AppendByte(codeBuffer, numBits, b, LE(data[pos..]));
      codeBuffer := codeBuffer + Pow2(numBits) * b;  // or-ed in above the buffered bits
      numBits := numBits + 8;
      phantom := if pos == before then phantom + 8 else phantom;
    }

    /** stbi__zreceive */
    method Receive(n: nat) returns (k: nat)
      requires Valid() && n <= 16
      modifies `pos, `numBits, `codeBuffer, `phantom
      ensures Took(n) && k == Low(old(V()), n) && Held() == Next(old(Held()), Field(k, n))
      ensures numBits <= 32 - n
    {
      if numBits < n {
        FillBits();
      }
      k := Drop(n);
    }

    /** Take n buffered bits. */
    method Drop(n: nat) returns (k: nat)
      requires Valid() && n <= numBits
      modifies `numBits, `codeBuffer
      ensures Took(n) && k == Low(old(V()), n) && numBits == old(numBits) - n
    {
      hide Pow2, LE, Low, Shr;
      LowBits(codeBuffer, numBits, LE(data[pos..]), n);
      ShrBound(codeBuffer, numBits, n);
      k := Low(codeBuffer, n);
      codeBuffer := Shr(codeBuffer, n);
      numBits := numBits - n;
    }

    /** stbi__zhuffman_decode */
    method HuffmanDecode(z: Table) returns (r: int)
      requires Valid() && z.Ready()
      modifies `pos, `numBits, `codeBuffer, `phantom, `hitEof
      ensures Valid()
      ensures r >= 0 ==>
        Matches(z.lens, r, old(V())) && Took(z.lens[r]) && Held() == Less(Refilled(old(Held())), z.lens[r])
      ensures r < 0 ==> r == -1 && (old(Refilled(Held())) == Dry || forall i :: !Matches(z.lens, i, old(V())))
      ensures old(Refilled(Held())) == Dry ==> r == -1
    {
      var ok := Refill();
      if !ok {
        return -1;
      }
      r := Lookup(z);
    }

    method Refill() returns (ok: bool)
      requires Valid()
      modifies `pos, `numBits, `codeBuffer, `phantom, `hitEof
      ensures Valid() && V() == old(V()) && Consumed() == old(Consumed())
      ensures !ok ==> old(Refilled(Held())) == Dry
      ensures ok ==> numBits >= 16 && Held() == old(Refilled(Held()))
    {
      ok := true;
      if numBits < 16 {
        if pos >= |data| {
          if hitEof {
            return false;
          }
          PadZeros();
        } else {
          FillBits();
        }
      }
    }

    method Lookup(z: Table) returns (r: int)
      requires Valid() && z.Ready() && numBits >= 16
      modifies `numBits, `codeBuffer
      ensures Valid()
      ensures r >= 0 ==> Matches(z.lens, r, old(V())) && Took(z.lens[r])
      ensures r < 0 ==> r == -1 && forall i :: !Matches(z.lens, i, old(V()))
    {
      hide FastEntry, Pow2, LE, Low, Shr;
      LowBits(codeBuffer, numBits, LE(data[pos..]), FAST_BITS);
      FastBitsSize();
      var b := z.fast[Low(codeBuffer, FAST_BITS)];
      FastIsRight(z.lens, V(), b);
      if b != 0 {
        var _ := Drop(b / 512);
        return b % 512;
      }
      r := SlowPath(z);
    }

    /** Grant sixteen implicit zero bits at the end of the input. */
    method PadZeros()
      requires Valid() && numBits < 16 && pos == |data| && !hitEof
      modifies `numBits, `phantom, `hitEof
      ensures Valid() && numBits >= 16 && V() == old(V()) && Consumed() == old(Consumed())
      ensures Held() == old(Refilled(Held()))
    {
      assert data[pos..] == [];
      Pow2Mono(numBits, numBits + 16);
      hitEof := true;
      numBits := numBits + 16;
      phantom := phantom + 16;
    }

    /** stbi__zhuffman_decode_slowpath: its two guards never fire. */
    method SlowPath(z: Table) returns (r: int)
      requires Valid() && z.Ready() && numBits >= 16
      requires forall i :: 0 <= i < |z.lens| && z.lens[i] <= FAST_BITS ==> !Matches(z.lens, i, V())
      modifies `numBits, `codeBuffer
      ensures Valid()
      ensures r >= 0 ==> Matches(z.lens, r, old(V())) && Took(z.lens[r])
      ensures r < 0 ==> r == -1 && forall i :: !Matches(z.lens, i, old(V()))
    {
      hide Matches, Rev, Shl, Limit, Pow2, LE, FastEntry;
      var k := Rev(codeBuffer, WINDOW);
      WindowOfBuffer(codeBuffer, numBits, LE(data[pos..]), WINDOW);
      WindowSize();
      var s := FindLength(z, k);
      if s >= 16 {
        NoLongHit(z.lens, V(), k);
        return -1;
      }
      ghost var i := LongHit(z.lens, V(), k, s);
      SlotBound(z.lens, i);
      var b := Shr(k, WINDOW - s) - z.firstcode[s] + z.firstsymbol[s];
      assert b == Slot(z.lens, i);
      if b >= MAX_SYMBOLS {
        assert false;
      }
      if z.size[b] != s {
        assert false;
      }
      var _ := Drop(s);
      r := z.value[b];
    }

    method FindLength(z: Table, k: nat) returns (s: nat)
      requires z.Ready() && k < 0x10000
      ensures FAST_BITS < s <= 16
      ensures s < 16 ==> k < Shl(Limit(z.lens, s), WINDOW - s)
      ensures s > FAST_BITS + 1 ==> k >= Shl(Limit(z.lens, s - 1), WINDOW - (s - 1))
    {
      s := FAST_BITS + 1;
      while k >= z.maxcode[s]
        invariant FAST_BITS + 1 <= s <= 16
        invariant s > FAST_BITS + 1 ==> k >= z.maxcode[s - 1]
        decreases 16 - s
      {
        s := s + 1;
      }
    }

    /** The field sequence fs is what comes next, and the supply lasts for it. */
    ghost predicate Ahead(fs: seq<Field>)
      reads this
    {
      pos <= |data| && Starts(V(), fs) && Rest(Held(), fs).Hand?
    }

    /** Receive, which the source skips for a zero width. */
    method TakeField(n: nat, ghost goal: seq<Field>) returns (k: nat)
      requires Valid() && n <= 16
      modifies `pos, `numBits, `codeBuffer, `phantom
      ensures Took(n) && k == Low(old(V()), n) && Held() == Next(old(Held()), Field(k, n))
      ensures goal != [] && goal[0].width == n && goal[0].kind.Number? && old(Ahead(goal)) ==>
        k == goal[0].value && Ahead(goal[1..])
    {
      k := 0;
      if n != 0 {
        k := Receive(n);
      }
    }

    /** HuffmanDecode, in terms of the field it reads. */
    method TakeSymbol(z: Table, ghost goal: seq<Field>, ghost want: nat) returns (r: int)
      requires Valid() && z.Ready()
      modifies `pos, `numBits, `codeBuffer, `phantom, `hitEof
      ensures Valid()
      ensures r >= 0 ==>
        && Used(z.lens, r) && Took(z.lens[r]) && Low(old(V()), z.lens[r]) == SymField(z.lens, r).value
        && Held() == Next(old(Held()), SymField(z.lens, r))
      ensures Used(z.lens, want) && goal != [] && goal[0] == SymField(z.lens, want) && old(Ahead(goal)) ==>
        r == want && Ahead(goal[1..])
    {
      hide Pow2, LE, Rev, FastEntry, Code, Filled;
      ghost var v := V();
      if goal != [] { RestDry(goal[1..]); }
      r := HuffmanDecode(z);
      if r >= 0 {
        SymbolField(z.lens, r, v);
      }
      if Used(z.lens, want) {
        SymbolField(z.lens, want, v);
        if r >= 0 && Matches(z.lens, want, v) {
          MatchUnique(z.lens, want, r, v);
        }
      }
    }

    /** One symbol of stbi__parse_huffman_block with its extra bits; None is a decoding error. */
    method ReadToken(zl: Table, zd: Table, ghost goal: Token) returns (r: Option<Token>)
      requires Valid() && zl.Ready() && zd.Ready()
      modifies `pos, `numBits, `codeBuffer, `phantom, `hitEof
      ensures Valid()
      ensures r.Some? ==>
        && TokenOk(zl.lens, zd.lens, r.value)
        && Starts(old(V()), TokenFields(zl.lens, zd.lens, r.value))
        && Took(Width(TokenFields(zl.lens, zd.lens, r.value)))
        && Held() == Rest(old(Held()), TokenFields(zl.lens, zd.lens, r.value))
      ensures TokenOk(zl.lens, zd.lens, goal) && old(Ahead(TokenFields(zl.lens, zd.lens, goal))) ==> r == Some(goal)
    {
      hide Pow2, LE, Low, Shr, SymField, FastEntry, TailOk, TailFields, Next, Rest;
      ghost var v, h, lit, dist := V(), Held(), zl.lens, zd.lens;
      ghost var g := if TokenOk(lit, dist, goal) then TokenFields(lit, dist, goal) else [];
      var z := TakeSymbol(zl, g, TokenSymbol(goal));
      if z < 0 {
        return None;
      }
      SymbolRead(lit, z, v);
      RestOne(h, SymField(lit, z));
      if z < 256 {
        return Some(Literal(z));
      }
      if z == 256 {
        return Some(EndOfBlock);
      }
      if z >= 286 {
        return None;
      }
      r := ReadCopy(zd, z - 257, goal);
      if r.Some? {
        CopyRead(lit, dist, r.value, v, h);
      }
    }

    method ReadCopy(zd: Table, l: nat, ghost goal: Token) returns (r: Option<Token>)
      requires Valid() && zd.Ready() && l < 29
      modifies `pos, `numBits, `codeBuffer, `phantom, `hitEof
      ensures Valid()
      ensures r.Some? ==>
        && TailOk(zd.lens, r.value) && r.value.lsym == l
        && Starts(old(V()), TailFields(zd.lens, r.value))
        && Took(Width(TailFields(zd.lens, r.value))) && Held() == Rest(old(Held()), TailFields(zd.lens, r.value))
      ensures TailOk(zd.lens, goal) && goal.lsym == l && old(Ahead(TailFields(zd.lens, goal))) ==> r == Some(goal)
    {
      hide Pow2, LE, Low, Shr, SymField, FastEntry, Code, Table.Ready, Starts, Width, TailFields, TailOk, Used, LENGTH_EXTRA, DIST_EXTRA,
           Next, Rest;
      ghost var v, h, lens := V(), Held(), zd.lens;
      ghost var g := if TailOk(lens, goal) then TailFields(lens, goal) else [];
      ExtraSizes();
      if TailOk(lens, goal) { TailShape(lens, goal); }
      var lextra := TakeField(LENGTH_EXTRA[l], g);
      var d := TakeSymbol(zd, if g == [] then [] else g[1..], if goal.Copy? then goal.dsym else 0);
      if d < 0 || d >= 30 {
        return None;
      }
      var dextra := TakeField(DIST_EXTRA[d], if g == [] then [] else g[1..][1..]);
      r := Some(Copy(l, lextra, d, dextra));
      TailRead(lens, r.value, v, h);
    }

    /** stbi__zexpand: make room for n more bytes. */
    method MakeRoom(n: nat) returns (ok: bool)
      requires Valid()
      modifies `limit
      ensures Valid() && Room() == old(Room())
      ensures ok ==> |out| + n <= limit
      ensures ok <==> expandable && |out| + n <= Room()
    {
      if !expandable || UINT_MAX - |out| < n {
        return false;
      }
      var l := limit;
      while |out| + n > l
        invariant 0 < l <= UINT_MAX && l >= limit && Most(l) == Most(limit)
        decreases |out| + n - l
      {
        if l > UINT_MAX / 2 {
          return false;
        }
        l := 2 * l;
      }
      limit := l;
      ok := true;
    }

    /** What stbi__parse_huffman_block does with a literal or a copy. */
    method WriteToken(t: Token) returns (ok: bool)
      requires Valid() && (t.Literal? || (t.Copy? && t.lsym < 29 && t.dsym < 30))
      modifies `out, `limit
      ensures Valid() && Room() == old(Room())
      ensures ok ==> (t.Copy? ==> 1 <= CopyDistance(t) <= |old(out)|) && out == Emit(t, old(out))
      ensures ok ==> |out| == |old(out)| + TokenSize(t)
      ensures !ok ==> out == old(out)
      ensures ok <==> old((t.Copy? ==> CopyDistance(t) <= |out|) && |out| + TokenSize(t) <= Room())
    {
      DistancePositive(t);
      if t.Literal? {
        if |out| >= limit {
          ok := MakeRoom(1);
          if !ok {
            return;
          }
        }
        out := out + [t.b];
        return true;
      }
      var len, dist := CopyLength(t), CopyDistance(t);
      if |out| < dist {
        return false;
      }
      if len > limit - |out| {
        ok := MakeRoom(len);
        if !ok {
          return;
        }
      }
      CopyRun(len, dist);
      ok := true;
    }

    /** The two copy loops: a run of one byte, and the general overlapping copy. */
    method CopyRun(len: nat, dist: nat)
      requires Valid() && 1 <= dist <= |out| && |out| + len <= limit
      modifies `out
      ensures Valid() && out == CopyBytes(old(out), dist, len)
    {
      if dist == 1 {
        RepeatLast(len);
      } else {
        CopyFrom(len, dist);
      }
    }

    /** The shortcut for a run of one byte. */
    method RepeatLast(len: nat)
      requires Valid() && |out| >= 1 && |out| + len <= limit
      modifies `out
      ensures Valid() && out == CopyBytes(old(out), 1, len)
    {
      hide Pow2;
      ghost var done := 0;
      var left := len;
      var v := out[|out| - 1];
      while left > 0
        invariant 0 <= left <= len && done == len - left
        invariant out == CopyBytes(old(out), 1, done) && out[|out| - 1] == v
      {
        out := out + [v];
        left, done := left - 1, done + 1;
      }
    }

    method CopyFrom(len: nat, dist: nat)
      requires Valid() && 1 <= dist <= |out| && |out| + len <= limit
      modifies `out
      ensures Valid() && out == CopyBytes(old(out), dist, len)
    {
      hide Pow2;
      ghost var done := 0;
      var left := len;
      var p := |out| - dist;
      while left > 0
        invariant 0 <= left <= len && done == len - left && p == |out| - dist
        invariant out == CopyBytes(old(out), dist, done)
      {
        out := out + [out[p]];
        p := p + 1;
        left, done := left - 1, done + 1;
      }
    }

    /** The tokens ts were read from stream v0 and written after out0, starting at bit c0 with supply h0. */
    ghost predicate Decoded(lit: seq<nat>, dist: seq<nat>, ts: seq<Token>, v0: nat, c0: int, h0: Hand, out0: seq<byte>)
      reads this
    {
      && Valid() && TokensOk(lit, dist, ts) && DistancesOk(lit, dist, ts, |out0|)
      && out == Expand(lit, dist, ts, out0) && Starts(v0, TokensFields(lit, dist, ts))
      && V() == Shr(v0, Width(TokensFields(lit, dist, ts)))
      && Consumed() == c0 + Width(TokensFields(lit, dist, ts)) && Held() == Rest(h0, TokensFields(lit, dist, ts))
    }

    /** A well-formed block body is ahead, and its output can be stored. */
    ghost predicate BodyAhead(lit: seq<nat>, dist: seq<nat>, ts: seq<Token>)
      reads this
    {
      && BodyOk(lit, dist, ts, |out|) && Ahead(BodyFields(lit, dist, ts))
      && LimitOk() && |out| + Expanded(lit, dist, ts) <= Room()
    }

    /** The next symbol of a block body; with a body `goal` ahead it is that body's next token or the end mark. */
    method BodyToken(zl: Table, zd: Table, ghost ts: seq<Token>, ghost goal: seq<Token>, ghost v0: nat, ghost h0: Hand,
                     ghost start: nat)
      returns (r: Option<Token>)
      requires Valid() && zl.Ready() && zd.Ready() && TokensOk(zl.lens, zd.lens, ts)
      requires var fs := TokensFields(zl.lens, zd.lens, ts); V() == Shr(v0, Width(fs)) && Held() == Rest(h0, fs)
      modifies `pos, `numBits, `codeBuffer, `phantom, `hitEof
      ensures Valid()
      ensures r.Some? ==>
        && TokenOk(zl.lens, zd.lens, r.value)
        && Starts(old(V()), TokenFields(zl.lens, zd.lens, r.value))
        && Took(Width(TokenFields(zl.lens, zd.lens, r.value)))
        && Held() == Rest(old(Held()), TokenFields(zl.lens, zd.lens, r.value))
      ensures Begun(zl.lens, zd.lens, ts, goal, v0, h0, start) ==>
        && r == Some(if |ts| < |goal| then goal[|ts|] else EndOfBlock)
        && (|ts| < |goal| ==>
              && Expanded(zl.lens, zd.lens, ts) + TokenSize(goal[|ts|]) <= Expanded(zl.lens, zd.lens, goal)
              && (goal[|ts|].Copy? ==> CopyDistance(goal[|ts|]) <= start + Expanded(zl.lens, zd.lens, ts)))
    {
      hide Low, Shr, Pow2, LE, TokenOk, TokenFields, TokensFields, SymField, CopyLength, CopyDistance, TokenSize,
           Expanded, FastEntry, DistancesOk, Width, Rest, Next, EndField, BodyFields, Table.Ready;
      ghost var want := EndOfBlock;
      if Begun(zl.lens, zd.lens, ts, goal, v0, h0, start) {
        want := if |ts| < |goal| then goal[|ts|] else EndOfBlock;
        GoalStep(zl.lens, zd.lens, goal, |ts|, v0, h0, start);
      }
      r := ReadToken(zl, zd, want);
    }

    /** stbi__parse_huffman_block */
    method ParseHuffmanBlock(zl: Table, zd: Table, ghost goal: seq<Token>) returns (ok: bool, ghost ts: seq<Token>)
      requires Valid() && zl.Ready() && zd.Ready()
      modifies this
      ensures Valid() && Room() == old(Room())
      ensures ok ==>
        && BodyOk(zl.lens, zd.lens, ts, |old(out)|)
        && Starts(old(V()), BodyFields(zl.lens, zd.lens, ts))
        && V() == Shr(old(V()), Width(BodyFields(zl.lens, zd.lens, ts)))
        && Consumed() == old(Consumed()) + Width(BodyFields(zl.lens, zd.lens, ts))
        && Held() == Rest(old(Held()), BodyFields(zl.lens, zd.lens, ts))
        && out == Expand(zl.lens, zd.lens, ts, old(out))
      ensures old(BodyAhead(zl.lens, zd.lens, goal)) ==> ok && ts == goal
    {
      hide Low, Shr, Pow2, LE, TokenOk, TokenFields, TokensFields, SymField, CopyLength, CopyDistance, TokenSize,
           Expand, Expanded, Emit, FastEntry, DistancesOk, Width, Rest, Next, EndField, Most, BodyFields, TokensOk,
           Table.Ready, Starts;
      ghost var v0, c0, h0, out0, lit, dist := V(), Consumed(), Held(), out, zl.lens, zd.lens;
      ghost var good := BodyAhead(lit, dist, goal);
      ts := [];
      NoTokens(lit, dist, v0, h0, out0);
      while true
        invariant Decoded(lit, dist, ts, v0, c0, h0, out0) && Room() == old(Room())
        invariant good ==> Begun(lit, dist, ts, goal, v0, h0, |out0|)
        decreases UINT_MAX - |out|
      {
        var r := BodyToken(zl, zd, ts, goal, v0, h0, |out0|);
        if r.None? {
          return false, ts;
        }
        TokenShape(lit, dist, r.value);
        if r.value.EndOfBlock? {
          BodyDone(lit, dist, ts, v0, h0);
          if good { AllRead(lit, dist, ts, goal); }
          if hitEof && numBits < 16 {
            return false, ts;
          }
          return true, ts;
        }
        TokensStep(lit, dist, ts, r.value, v0, h0);
        ok := WriteToken(r.value);
        if !ok {
          return false, ts;
        }
        ExpandStep(lit, dist, ts, r.value, out0);
        ts := ts + [r.value];
        assert good ==> ts == goal[..|ts|];
      }
    }

    /** The code length code lengths, in transmission order. */
    method ReadClLens(n: nat) returns (sizes: seq<nat>, ghost cl: seq<nat>)
      requires Valid() && n <= 19
      modifies `pos, `numBits, `codeBuffer, `phantom
      ensures |cl| == n && (forall i :: 0 <= i < n ==> cl[i] < 8) && sizes == ClLens(cl)
      ensures Starts(old(V()), ClFields(cl)) && Width(ClFields(cl)) == 3 * n && Took(3 * n)
      ensures Held() == Rest(old(Held()), ClFields(cl))
    {
      hide Low, Shr, Pow2, LE, Width, Starts, Rest, Next, ClFields, ClLens;
      ghost var v, h := V(), Held();
      sizes, cl := seq(19, _ => 0), [];
      NoClFields(v, h);
      var i := 0;
      while i < n
        invariant 0 <= i <= n && |cl| == i && |sizes| == 19 && (forall j :: 0 <= j < i ==> cl[j] < 8) && sizes == ClLens(cl)
        invariant Starts(v, ClFields(cl)) && Width(ClFields(cl)) == 3 * i
        invariant Took(3 * i) && Held() == Rest(h, ClFields(cl))
      {
        var s := Receive(3);
        ClStep(cl, s, v, h);
        sizes := sizes[CL_ORDER[i] := s];
        cl := cl + [s];
        i := i + 1;
      }
    }

    /** One code length symbol of stbi__compute_huffman_codes with its repeat count. */
    method ReadOp(zc: Table, ghost goal: LenOp) returns (r: Option<LenOp>)
      requires Valid() && zc.Ready() && |zc.lens| == 19
      modifies `pos, `numBits, `codeBuffer, `phantom, `hitEof
      ensures Valid()
      ensures r.Some? ==>
        && OpOk(zc.lens, r.value) && Starts(old(V()), OpFields(zc.lens, r.value))
        && Took(Width(OpFields(zc.lens, r.value))) && Held() == Rest(old(Held()), OpFields(zc.lens, r.value))
      ensures OpOk(zc.lens, goal) && old(Ahead(OpFields(zc.lens, goal))) ==> r == Some(goal)
    {
      hide Pow2, LE, Low, Shr, SymField, FastEntry, Next, Rest;
      ghost var v, h, cl := V(), Held(), zc.lens;
      ghost var g := if OpOk(cl, goal) then OpFields(cl, goal) else [];
      var c := TakeSymbol(zc, g, OpSymbol(goal));
      if c < 0 || c >= 19 {
        return None;
      }
      SymbolRead(cl, c, v);
      RestOne(h, SymField(cl, c));
      if c < 16 {
        return Some(One(c));
      }
      ghost var rest := if g == [] then [] else g[1..];
      if c == 16 {
        var e := TakeField(2, rest);
        r := Some(Repeat(e));
      } else if c == 17 {
        var e := TakeField(3, rest);
        r := Some(Zeros3(e));
      } else {
        var e := TakeField(7, rest);
        r := Some(Zeros11(e));
      }
      OpRead(cl, r.value, v, h);
    }

    /** The loop of stbi__compute_huffman_codes that collects total code lengths. */
    method ReadLengths(zc: Table, total: nat, ghost goal: seq<LenOp>)
      returns (ok: bool, lens: seq<nat>, ghost ops: seq<LenOp>)
      requires Valid() && zc.Ready() && |zc.lens| == 19
      modifies `pos, `numBits, `codeBuffer, `phantom, `hitEof
      ensures Valid()
      ensures ok ==>
        && OpsOk(zc.lens, ops) && lens == Lengths(ops) && |lens| == total
        && (forall i :: 0 <= i < |lens| ==> lens[i] <= MAX_LEN)
        && Starts(old(V()), OpsFields(zc.lens, ops)) && Took(Width(OpsFields(zc.lens, ops)))
        && Held() == Rest(old(Held()), OpsFields(zc.lens, ops))
      ensures OpsOk(zc.lens, goal) && |Lengths(goal)| == total && old(Ahead(OpsFields(zc.lens, goal))) ==>
        ok && ops == goal
    {
      hide Low, Shr, Pow2, LE, Width, OpFields, OpLengths, SymField, FastEntry, Table.Ready, Next, Rest,
           OpsFields, OpsOk, Lengths, Starts, OpOk, V, Consumed;
      ghost var v, h, cl := V(), Held(), zc.lens;
      ghost var good := OpsOk(cl, goal) && |Lengths(goal)| == total && Ahead(OpsFields(cl, goal));
      lens, ops := [], [];
      NoOps(cl, v, h);
      while |lens| < total
        invariant OpsOk(cl, ops) && lens == Lengths(ops) && Starts(v, OpsFields(cl, ops)) && |lens| <= total
        invariant Took(Width(OpsFields(cl, ops))) && Held() == Rest(h, OpsFields(cl, ops))
        invariant forall i :: 0 <= i < |lens| ==> lens[i] <= MAX_LEN
        invariant good ==> |ops| <= |goal| && ops == goal[..|ops|]
        decreases total - |lens|
      {
        ghost var want := One(0);
        if good {
          want := OpGoal(cl, goal, |ops|, v, h);
        }
        var r := ReadOp(zc, want);
        if r.None? {
          return false, lens, ops;
        }
        var op := r.value;
        assert good ==> op == want;
        if op.Repeat? && |lens| == 0 {
          return false, lens, ops;
        }
        var more := OpLengths(op, lens);
        OpSizes(cl, op, lens);
        if total - |lens| < |more| {
          return false, lens, ops;
        }
        OpsStep(cl, ops, op, v, h);
        lens := lens + more;
        ops := ops + [op];
        assert good ==> ops == goal[..|ops|];
      }
      if good {
        AllOps(cl, goal, |ops|);
      }
      ok := true;
    }

    /** The part of stbi__compute_huffman_codes that reads: everything but the two tables. */
    method ReadHeader(ghost goal: Header) returns (ok: bool, hlit: nat, lens: seq<nat>, ghost h: Header)
      requires Valid()
      modifies `pos, `numBits, `codeBuffer, `phantom, `hitEof
      ensures Valid()
      ensures ok ==>
        && HeaderRead(h) && hlit == h.hlit && lens == Lengths(h.ops)
        && (forall i :: 0 <= i < |lens| ==> lens[i] <= MAX_LEN)
        && Starts(old(V()), PartFields(h)) && Took(Width(PartFields(h))) && Held() == Rest(old(Held()), PartFields(h))
      ensures HeaderRead(goal) && old(Ahead(PartFields(goal))) ==> ok && h == goal
    {
      hide Low, Shr, Pow2, LE, Width, Starts, KraftSum, FastEntry, OpsFields, ClFields, ClLens, Lengths,
           OpsOk, Accepted, Next, Rest, CountFields, Table.Ready;
      ghost var v, held := V(), Held();
      h, hlit, lens := goal, 0, [];
      ghost var good := HeaderRead(goal) && Ahead(PartFields(goal));
      if good {
        HeaderParts(goal, v, held);
      }
      var hdist, hclen;
      hlit, hdist, hclen := ReadCounts();
      ghost var v1 := V();
      var sizes, cl := ReadClLens(hclen);
      if good {
        ClUnique(cl, goal.cl, v1);
      }
      ClSmall(cl);
      var zc := new Table();
      ok := zc.Build(sizes);
      if !ok {
        return;
      }
      ghost var ops;
      ok, lens, ops := ReadLengths(zc, hlit + hdist, goal.ops);
      if !ok {
        return;
      }
      h := Header(hlit, hdist, cl, ops);
      HeaderParts(h, v, held);
    }

    /** stbi__compute_huffman_codes */
    method ComputeHuffmanCodes(zl: Table, zd: Table, ghost goal: Header) returns (ok: bool, ghost h: Header)
      requires Valid() && zl.Shape() && zd.Shape() && zl != zd
      modifies `pos, `numBits, `codeBuffer, `phantom, `hitEof, zl, zd
      ensures Valid() && zl.Shape() && zd.Shape()
      ensures ok ==>
        && HeaderOk(h) && Starts(old(V()), HeaderFields(h)) && Took(Width(HeaderFields(h)))
        && Held() == Rest(old(Held()), HeaderFields(h))
        && zl.Ready() && zl.lens == LitLens(h) && zd.Ready() && zd.lens == DistLens(h)
      ensures HeaderOk(goal) && old(Ahead(HeaderFields(goal))) ==> ok && h == goal
    {
      hide Low, Shr, Pow2, LE, Width, Starts, FastEntry, PartFields, Lengths, Next, Rest, Table.Ready, Accepted;
      if HeaderOk(goal) {
        HeaderIsRead(goal);
      }
      var hlit, lens;
      ok, hlit, lens, h := ReadHeader(goal);
      if !ok {
        return;
      }
      LensSplit(lens, hlit);
      ok := zl.Build(lens[..hlit]);
      if !ok {
        return;
      }
      ok := zd.Build(lens[hlit..]);
      if ok {
        HeaderIsRead(h);
      }
    }

    method ReadCounts() returns (hlit: nat, hdist: nat, hclen: nat)
      requires Valid()
      modifies `pos, `numBits, `codeBuffer, `phantom
      ensures Took(14) && 257 <= hlit <= 288 && 1 <= hdist <= 32 && 4 <= hclen <= 19
      ensures Starts(old(V()), CountFields(hlit, hdist, hclen))
      ensures Held() == Rest(old(Held()), CountFields(hlit, hdist, hclen))
      ensures forall a, b, c :: 257 <= a && 1 <= b && 4 <= c && Starts(old(V()), CountFields(a, b, c)) ==>
        a == hlit && b == hdist && c == hclen
    {
      hide Low, Shr, Pow2, LE, Width, Starts, Next, Rest;
      ghost var v, h := V(), Held();
      hlit := Receive(5);
      hdist := Receive(5);
      hclen := Receive(4);
      CountsRead(v, hlit, hdist, hclen);
      RestThree(h, Field(hlit, 5), Field(hdist, 5), Field(hclen, 4));
      hlit, hdist, hclen := hlit + 257, hdist + 1, hclen + 4;
    }

    /** One byte of a stored block's header: from the bit buffer while it lasts, then from the input. */
    method HeaderByte() returns (b: byte)
      requires Valid() && numBits % 8 == 0
      modifies `pos, `numBits, `codeBuffer, `phantom
      ensures Took(8) && b == Low(old(V()), 8) && Held() == Next(old(Held()), Field(b, 8, Aligned))
      ensures numBits == if old(numBits) > 0 then old(numBits) - 8 else 0
    {
      hide LE, Low, Shr, Pow2;
      if numBits > 0 {
        ByteSize();
        b := Drop(8);
      } else {
        b := InputByte();
      }
    }

    /** A byte straight from the input, with nothing in the bit buffer. */
    method InputByte() returns (b: byte)
      requires Valid() && numBits == 0
      modifies `pos, `phantom
      ensures Took(8) && b == Low(old(V()), 8) && Held() == Next(old(Held()), Field(b, 8, Aligned))
    {
      hide LE, Low, Shr, Pow2;
      NoBits();
      ghost var before := pos;
      b := Get8();
      PutByte(b, LE(data[pos..]));
      phantom := if pos == before then phantom + 8 else phantom;
    }

    /** The drain of the bit buffer never yields more than the four header bytes. */
    method ReadStoredHeader() returns (hdr: seq<byte>)
      requires Valid() && numBits % 8 == 0 && numBits <= 24
      modifies `pos, `numBits, `codeBuffer, `phantom
      ensures |hdr| == 4 && numBits == 0
      ensures Starts(old(V()), ByteFields(hdr, Aligned)) && Width(ByteFields(hdr, Aligned)) == 32 && Took(32)
      ensures Held() == Rest(old(Held()), ByteFields(hdr, Aligned))
    {
      hide Low, Shr, Pow2, LE, Width, Starts, ByteFields, Next, Rest;
      ghost var v, h := V(), Held();
      hdr := DrainBits();
      while |hdr| < 4
        invariant numBits == 0 && |hdr| <= 4
        invariant Starts(v, ByteFields(hdr, Aligned)) && Width(ByteFields(hdr, Aligned)) == 8 * |hdr| && Took(8 * |hdr|)
        invariant Held() == Rest(h, ByteFields(hdr, Aligned))
      {
        var b := HeaderByte();
        ByteFieldsStep(hdr, b, v, h);
        hdr := hdr + [b];
      }
    }

    /** The bytes already in the bit buffer. */
    method DrainBits() returns (hdr: seq<byte>)
      requires Valid() && numBits % 8 == 0 && numBits <= 24
      modifies `pos, `numBits, `codeBuffer, `phantom
      ensures |hdr| <= 3 && numBits == 0
      ensures Starts(old(V()), ByteFields(hdr, Aligned)) && Width(ByteFields(hdr, Aligned)) == 8 * |hdr|
      ensures Took(8 * |hdr|) && Held() == Rest(old(Held()), ByteFields(hdr, Aligned))
    {
      hide Low, Shr, Pow2, LE, Width, Starts, ByteFields, V, Consumed, Next, Rest;
      ghost var v, h := V(), Held();
      hdr := [];
      NoBytes(v, h);
      while numBits > 0
        invariant numBits % 8 == 0 && 8 * |hdr| + numBits <= 24
        invariant Starts(v, ByteFields(hdr, Aligned)) && Width(ByteFields(hdr, Aligned)) == 8 * |hdr| && Took(8 * |hdr|)
        invariant Held() == Rest(h, ByteFields(hdr, Aligned))
      {
        var b := HeaderByte();
        ByteFieldsStep(hdr, b, v, h);
        hdr := hdr + [b];
      }
    }

    /** The copy at the end of stbi__parse_uncompressed_block. */
    method CopyStored(len: nat, ghost goal: seq<byte>) returns (ok: bool, ghost bytes: seq<byte>)
      requires Valid() && numBits == 0
      modifies `pos, `out, `limit
      ensures Valid() && Room() == old(Room())
      ensures ok ==>
        && |bytes| == len && Starts(old(V()), ByteFields(bytes, Data)) && V() == Shr(old(V()), 8 * len)
        && Consumed() == old(Consumed()) + 8 * len && out == old(out) + bytes
        && Held() == Rest(old(Held()), ByteFields(bytes, Data))
      ensures |goal| == len && old(Ahead(ByteFields(goal, Data))) && |old(out)| + len <= Room() ==> ok && bytes == goal
    {
      hide Low, Shr, Pow2, LE, Width, Starts, ByteFields, Next, Rest;
      ghost var v, h := V(), Held();
      bytes := [];
      NoBuffer(codeBuffer, LE(data[pos..]));
      RestData(h, goal);
      if pos + len > |data| {
        return false, bytes;
      }
      if |out| + len > limit {
        ok := MakeRoom(len);
        if !ok {
          return;
        }
      }
      SliceRead(data, pos, len);
      bytes := data[pos..pos + len];
      RestData(h, bytes);
      if |goal| == len && Starts(v, ByteFields(goal, Data)) {
        BytesUnique(bytes, goal, Data, v);
      }
      out := out + data[pos..pos + len];
      pos := pos + len;
      NoBuffer(codeBuffer, LE(data[pos..]));
      ok := true;
    }

    /** stbi__parse_uncompressed_block, entered after the three block header bits. */
    method ParseStored(ghost at: nat, ghost goal: Block) returns (ok: bool, ghost b: Block)
      requires Valid() && numBits <= 31 && (Consumed() - (at + 3)) % 8 == 0
      modifies this
      ensures Valid() && Room() == old(Room())
      ensures ok ==> b.Stored? && Parsed(b, at, old(V()), old(Consumed()), old(Held()), old(out))
      ensures goal.Stored? && old(BlockAhead(goal, at)) ==> ok && b == goal
    {
      hide Low, Shr, Pow2, LE, Width, Starts, ByteFields, Padding, Word, Next, Rest, Most;
      ghost var v, h, out0 := V(), Held(), out;
      ghost var good := goal.Stored? && BlockAhead(goal, at);
      b := goal;
      PaddingBits(8 * pos + phantom, numBits, at);
      var pad := TakeField(numBits % 8, []);
      NumberInHand(h, Field(pad, Padding(at + 3)));
      ghost var v1 := V();
      var hdr := ReadStoredHeader();
      ghost var v2 := V();
      if good {
        StoredGoal(goal, at, |out|, v, pad, hdr, v1, v2, h);
      }
      var len, nlen := Word(hdr[0], hdr[1]), Word(hdr[2], hdr[3]);
      if len + nlen != 0xFFFF {  // nlen != (len ^ 0xffff)
        return false, b;
      }
      ghost var bytes;
      ok, bytes := CopyStored(len, if goal.Stored? then goal.bytes else []);
      if ok {
        b := Stored(pad, bytes);
        StoredRead(pad, hdr, bytes, at, |out0|, v, v1, v2, h);
      }
    }

    /** The body of the block loop of stbi__parse_zlib, after the block type has been read. */
    method ParseBlock(zl: Table, zd: Table, kind: nat, ghost at: nat, ghost goal: Block)
      returns (ok: bool, ghost b: Block)
      requires Valid() && numBits <= 31 && (Consumed() - (at + 3)) % 8 == 0 && kind < 4
      requires zl.Shape() && zd.Shape() && zl != zd
      modifies this, zl, zd
      ensures Valid() && Room() == old(Room()) && zl.Shape() && zd.Shape()
      ensures ok ==> TypeBits(b) == kind && Parsed(b, at, old(V()), old(Consumed()), old(Held()), old(out))
      ensures TypeBits(goal) == kind && old(BlockAhead(goal, at)) ==> ok && b == goal
    {
      hide Low, Shr, Pow2, LE, Width, Starts, Padding, FixedLit, FixedDist, LitLens, DistLens, Expand, HeaderOk,
           HeaderFields, BodyFields, BodyOk, FastEntry, KraftSum, Next, Rest, Most;
      b := goal;
      if kind == 0 {
        ok, b := ParseStored(at, goal);
      } else if kind == 3 {
        ok := false;
      } else if kind == 1 {
        FixedKraft();
        ok := zl.Build(FixedLit());
        if !ok {
          return;
        }
        ok := zd.Build(FixedDist());
        if !ok {
          return;
        }
        ghost var ts;
        ok, ts := ParseHuffmanBlock(zl, zd, if goal.Fixed? then goal.tokens else []);
        b := Fixed(ts);
      } else {
        ok, b := ParseDynamic(zl, zd, at, goal);
      }
    }

    method ParseDynamic(zl: Table, zd: Table, ghost at: nat, ghost goal: Block) returns (ok: bool, ghost b: Block)
      requires Valid() && zl.Shape() && zd.Shape() && zl != zd
      modifies this, zl, zd
      ensures Valid() && Room() == old(Room()) && zl.Shape() && zd.Shape()
      ensures ok ==> b.Dynamic? && Parsed(b, at, old(V()), old(Consumed()), old(Held()), old(out))
      ensures goal.Dynamic? && old(BlockAhead(goal, at)) ==> ok && b == goal
    {
      hide Low, Shr, Pow2, LE, Width, Starts, LitLens, DistLens, Expand, Expanded, HeaderOk,
           HeaderFields, BodyFields, BodyOk, FastEntry, TokensOk, DistancesOk, Next, Rest, Most;
      ghost var v, held := V(), Held();
      ghost var good := goal.Dynamic? && BlockAhead(goal, at);
      b := goal;
      if good {
        DynamicParts(goal, at, |out|, v, held);
      }
      ghost var h := Header(0, 0, [], []);
      ok, h := ComputeHuffmanCodes(zl, zd, if goal.Dynamic? then goal.header else h);
      if !ok {
        return;
      }
      assert good ==> h == goal.header;
      ghost var ts;
      ok, ts := ParseHuffmanBlock(zl, zd, if goal.Dynamic? then goal.tokens else []);
      if ok {
        b := Dynamic(h, ts);
        DynamicRead(h, ts, at, |old(out)|, v, held);
      }
    }

    /** stbi__parse_zlib_header */
    method ParseZlibHeader() returns (ok: bool)
      requires pos == 0
      modifies `pos
      ensures pos <= |data|
      ensures ok <==> HeaderAccepted(data)
      ensures ok ==> pos == 2
    {
      var cmf := Get8();
      var flg := Get8();
      if pos >= |data| {
        return false;
      }
      if Word(flg, cmf) % 31 != 0 || flg / 32 % 2 != 0 || cmf % 16 != 8 {
        return false;
      }
      ok := true;
    }

    /** The blocks bs, none of them final, were read from v0 starting at bit position base with supply h0. */
    ghost predicate Inflated(bs: seq<Block>, v0: nat, base: nat, h0: Hand)
      reads this
    {
      Valid() && base % 8 == 0 &&
      match Encode(bs, false)
      case None => false
      case Some(e) =>
        && out == e.out && Starts(v0, e.fields) && V() == Shr(v0, Width(e.fields))
        && Consumed() == base + Width(e.fields) && Held() == Rest(h0, e.fields)
    }

    /** A complete well-formed stream is ahead, and its output can be stored. */
    ghost predicate StreamAhead(bs: seq<Block>)
      reads this
    {
      && bs != [] && Encode(bs, true).Some? && Ahead(Encode(bs, true).value.fields)
      && LimitOk() && |Encode(bs, true).value.out| <= Room()
    }

    method ReadBlockHead() returns (final: nat, kind: nat)
      requires Valid()
      modifies `pos, `numBits, `codeBuffer, `phantom
      ensures Took(3) && final < 2 && kind < 4 && numBits <= 30 && Held() == AfterHead(old(Held()), final, kind)
      ensures final == Low(old(V()), 1) && kind == Low(Shr(old(V()), 1), 2)
    {
      hide Low, Shr, Pow2, LE, Next;
      ghost var v := V();
      final := Receive(1);
      kind := Receive(2);
      HeadRead(v, final, kind);
    }

    /** The block loop of stbi__parse_zlib. */
    method ParseBlocks(ghost goal: seq<Block>) returns (ok: bool, ghost bs: seq<Block>)
      requires Valid() && numBits == 0 && out == [] && phantom == 0 && !hitEof
      modifies this
      ensures ok ==>
        && bs != [] && Encode(bs, true).Some? && out == Encode(bs, true).value.out
        && old(StreamAhead(bs))
      ensures old(StreamAhead(goal)) ==> ok && bs == goal
    {
      hide Low, Shr, Pow2, LE, Width, Starts, Padding, Encode, BlockOk, BlockFields, BlockOutput, TypeBits, Next, Rest,
           Most, AfterHead, BlockHead;
      ghost var v0, h0, base := V(), Held(), 8 * pos;
      ghost var good := StreamAhead(goal);
      var zl := new Table();
      var zd := new Table();
      bs := [];
      NoBlocks(v0, h0);
      while true
        invariant Inflated(bs, v0, base, h0) && fresh(zl) && fresh(zd) && zl != zd && zl.Shape() && zd.Shape()
        invariant Room() == old(Room())
        invariant good ==> |bs| < |goal| && bs == goal[..|bs|]
        decreases V()
      {
        ghost var e, v, h := Encode(bs, false).value, V(), Held();
        ghost var at, want := Width(e.fields), Stored(0, []);
        if good {
          want := goal[|bs|];
          BlockGoal(goal, |bs|, v0, h0);
        }
        var final, kind := ReadBlockHead();
        if good {
          HeadGoal(v, final, kind, want, |bs| + 1 == |goal|, BlockFields(want, at, |out|), h);
        }
        ghost var b;
        ok, b := ParseBlock(zl, zd, kind, at, want);
        if !ok {
          return false, bs;
        }
        BlockRead(bs, b, final == 1, v0, v, h0, h);
        bs := bs + [b];
        assert good ==> bs == goal[..|bs|];
        if final == 1 {
          return true, bs;
        }
      }
    }

    /** Block b, placed at bit position `at` of its stream, was read from v0 and appended to out0. */
    ghost predicate Parsed(b: Block, at: nat, v0: nat, c0: int, h0: Hand, out0: seq<byte>)
      reads this
    {
      && Valid() && BlockOk(b, at, |out0|) && out == BlockOutput(b, at, out0)
      && Starts(v0, BlockFields(b, at, |out0|))
      && V() == Shr(v0, Width(BlockFields(b, at, |out0|)))
      && Consumed() == c0 + Width(BlockFields(b, at, |out0|)) && Held() == Rest(h0, BlockFields(b, at, |out0|))
    }

    ghost predicate BlockAhead(b: Block, at: nat)
      reads this
    {
      && BlockOk(b, at, |out|) && Ahead(BlockFields(b, at, |out|))
      && LimitOk() && |BlockOutput(b, at, out)| <= Room()
    }
  }

  /** The tokens ts are the first ones of a body `goal` that stream v and supply h begin with. */
  ghost predicate Begun(lit: seq<nat>, dist: seq<nat>, ts: seq<Token>, goal: seq<Token>, v: nat, h: Hand, start: nat) {
    && BodyOk(lit, dist, goal, start) && Starts(v, BodyFields(lit, dist, goal)) && Rest(h, BodyFields(lit, dist, goal)).Hand?
    && |ts| <= |goal| && ts == goal[..|ts|]
  }

  lemma {:induction false} AllRead(lit: seq<nat>, dist: seq<nat>, ts: seq<Token>, goal: seq<Token>)
    requires TokensOk(lit, dist, goal) && |ts| <= |goal| && ts == goal[..|ts|]
    requires |ts| < |goal| ==> goal[|ts|].EndOfBlock?
    ensures ts == goal
  {
    hide TokenOk;
  }

  predicate HeaderAccepted(data: seq<byte>) {
    |data| > 2 && Word(data[1], data[0]) % 31 == 0 && data[1] / 32 % 2 == 0 && data[0] % 16 == 8
  }

  lemma {:induction false} NoBlocks(v: nat, h: Hand)
    ensures Encode([], false) == Some(Encoded([], [])) && Starts(v, []) && Width([]) == 0 && Shr(v, 0) == v
    ensures Rest(h, []) == h
  {
  }

  lemma {:induction false} HeadRead(v: nat, final: nat, kind: nat)
    requires final == Low(v, 1) && kind == Low(Shr(v, 1), 2)
    ensures final < 2 && kind < 4 && Shr(Shr(v, 1), 2) == Shr(v, 3)
  {
    TakeTwice(v, 1, 2);
  }

  lemma {:induction false} HeadFields(v: nat, b: Block, last: bool, fs: seq<Field>)
    ensures Starts(v, BlockHead(b, last) + fs) <==>
      Low(v, 1) == (if last then 1 else 0) && Low(Shr(v, 1), 2) == TypeBits(b) && Starts(Shr(v, 3), fs)
    ensures Width(BlockHead(b, last) + fs) == 3 + Width(fs)
  {
    hide Low, Shr;
    TwoFields(v, Field(if last then 1 else 0, 1), Field(TypeBits(b), 2));
    StartsAppend(v, BlockHead(b, last), fs);
  }

  /** The supply after the three header bits. */
  function AfterHead(h: Hand, final: nat, kind: nat): Hand {
    Next(Next(h, Field(final, 1)), Field(kind, 2))
  }

  lemma {:induction false} HeadServed(h: Hand, b: Block, last: bool, fs: seq<Field>)
    ensures Rest(h, BlockHead(b, last) + fs) == Rest(AfterHead(h, if last then 1 else 0, TypeBits(b)), fs)
  {
    hide Next, Rest;
    RestAppend(h, BlockHead(b, last), fs);
    RestTwo(h, Field(if last then 1 else 0, 1), Field(TypeBits(b), 2));
  }

  lemma {:induction false} HeadGoal(v: nat, final: nat, kind: nat, b: Block, last: bool, fs: seq<Field>, h: Hand)
    requires final == Low(v, 1) && kind == Low(Shr(v, 1), 2)
    requires Starts(v, BlockHead(b, last) + fs)
    ensures final == (if last then 1 else 0) && kind == TypeBits(b) && Starts(Shr(v, 3), fs)
    ensures Rest(h, BlockHead(b, last) + fs) == Rest(AfterHead(h, final, kind), fs)
  {
    hide Low, Shr, Width, Starts, TypeBits, BlockHead, AfterHead, Rest;
    HeadServed(h, b, last, fs);
    HeadFields(v, b, last, fs);
  }

  /** One more block read: the stream begins with the encoding of the longer list. */
  lemma {:induction false} BlockRead(bs: seq<Block>, b: Block, last: bool, v0: nat, v: nat, h0: Hand, h: Hand)
    requires Encode(bs, false).Some?
    requires var e := Encode(bs, false).value;
      && Starts(v0, e.fields) && v == Shr(v0, Width(e.fields)) && BlockOk(b, Width(e.fields), |e.out|)
      && Low(v, 1) == (if last then 1 else 0) && Low(Shr(v, 1), 2) == TypeBits(b)
      && Starts(Shr(v, 3), BlockFields(b, Width(e.fields), |e.out|)) && h == Rest(h0, e.fields)
    ensures Encode(bs + [b], last).Some?
    ensures var e, f := Encode(bs, false).value, Encode(bs + [b], last).value;
      var w := Width(BlockFields(b, Width(e.fields), |e.out|));
      && f.out == BlockOutput(b, Width(e.fields), e.out) && Starts(v0, f.fields)
      && Width(f.fields) == Width(e.fields) + 3 + w
      && Shr(Shr(v, 3), w) == Shr(v0, Width(f.fields))
      && Shr(Shr(v, 3), w) < v
      && Rest(h0, f.fields) ==
         Rest(AfterHead(h, if last then 1 else 0, TypeBits(b)), BlockFields(b, Width(e.fields), |e.out|))
  {
    hide Low, Shr, Width, Starts, TypeBits, BlockHead, BlockFields, BlockOutput, BlockOk, Rest, AfterHead;
    var e := Encode(bs, false).value;
    var fs := BlockFields(b, Width(e.fields), |e.out|);
    assert (bs + [b])[..|bs|] == bs;
    HeadFields(v, b, last, fs);
    HeadServed(h, b, last, fs);
    RestAppend(h0, e.fields, BlockHead(b, last) + fs);
    StartsAppend(v0, e.fields, BlockHead(b, last) + fs);
    TakeTwice(v, 3, Width(fs));
    TakeTwice(v0, Width(e.fields), 3 + Width(fs));
    NonzeroBlock(b, Width(e.fields), |e.out|, v);
    ShrLe(v, 3 + Width(fs));
  }

  /** A stream of zeros contains no block: each block consumes part of a number that shrinks. */
  lemma {:induction false} NonzeroBlock(b: Block, at: nat, start: nat, v: nat)
    requires BlockOk(b, at, start) && Low(Shr(v, 1), 2) == TypeBits(b)
    requires Starts(Shr(v, 3), BlockFields(b, at, start))
    ensures v > 0
  {
    if v == 0 {
      assert TypeBits(b) == 0 && b.Stored?;
      var n, h := Padding(at + 3), StoredHead(|b.bytes|);
      ZeroShr(3);
      ZeroShr(n);
      StoredParts(b.pad, n, h, b.bytes, 0);
      ZeroBytes(h, Aligned);
      StoredHeadNonzero(|b.bytes|);
    }
  }

  lemma {:induction false} StoredHeadNonzero(n: nat)
    requires n < 0x10000
    ensures var s := StoredHead(n); s[0] != 0 || s[1] != 0 || s[2] != 0 || s[3] != 0
  {
  }

  lemma {:induction false} ZeroShr(n: nat)
    ensures Shr(0, n) == 0 && Low(0, n) == 0
    decreases n
  {
    if n > 0 { ZeroShr(n - 1); }
  }

  lemma {:induction false} ZeroBytes(s: seq<byte>, kind: Kind)
    requires Starts(0, ByteFields(s, kind))
    ensures forall i :: 0 <= i < |s| ==> s[i] == 0
    decreases |s|
  {
    if s != [] {
      assert ByteFields(s, kind)[1..] == ByteFields(s[1..], kind);
      ZeroShr(8);
      ZeroBytes(s[1..], kind);
      assert forall i :: 1 <= i < |s| ==> s[i] == s[1..][i - 1];
    }
  }

  lemma {:induction false} OutputGrows(b: Block, at: nat, out: seq<byte>)
    requires BlockOk(b, at, |out|)
    ensures |BlockOutput(b, at, out)| >= |out|
  {
  }

  lemma {:induction false} EncodeSplit(goal: seq<Block>, last: bool, k: nat) returns (rest: seq<Field>)
    requires k < |goal| && Encode(goal, last).Some?
    ensures Encode(goal[..k], false).Some?
    ensures var q := Append(Encode(goal[..k], false).value, goal[k], last && k + 1 == |goal|);
      && q.Some? && Encode(goal, last).value.fields == q.value.fields + rest
      && |q.value.out| <= |Encode(goal, last).value.out|
    decreases |goal|
  {
    hide BlockOk, BlockFields, BlockOutput, BlockHead, Width;
    var n := |goal| - 1;
    if k == n {
      rest := [];
    } else {
      assert goal[..n][..k] == goal[..k] && goal[..n][k] == goal[k];
      var r := EncodeSplit(goal[..n], false, k);
      var e := Encode(goal[..n], false).value;
      var fs := BlockHead(goal[n], last) + BlockFields(goal[n], Width(e.fields), |e.out|);
      OutputGrows(goal[n], Width(e.fields), e.out);
      rest := r + fs;
      var q := Append(Encode(goal[..k], false).value, goal[k], false).value;
      assert q.fields + r + fs == q.fields + rest;
    }
  }

  /** In a stream that begins with the encoding of `goal`, after k blocks comes the next. */
  lemma {:induction false} BlockGoal(goal: seq<Block>, k: nat, v0: nat, h0: Hand)
    requires k < |goal| && Encode(goal, true).Some? && Starts(v0, Encode(goal, true).value.fields)
    requires Rest(h0, Encode(goal, true).value.fields).Hand?
    ensures Encode(goal[..k], false).Some?
    ensures var p, e := Encode(goal[..k], false).value, Encode(goal, true).value;
      var at := Width(p.fields);
      && BlockOk(goal[k], at, |p.out|)
      && |BlockOutput(goal[k], at, p.out)| <= |e.out|
      && (var fs := BlockHead(goal[k], k + 1 == |goal|) + BlockFields(goal[k], at, |p.out|);
          Starts(Shr(v0, at), fs) && Rest(Rest(h0, p.fields), fs).Hand?)
  {
    hide Low, Shr, Width, Starts, TypeBits, BlockHead, BlockFields, BlockOutput, BlockOk, Encode, Rest;
    var rest := EncodeSplit(goal, true, k);
    var p, e := Encode(goal[..k], false).value, Encode(goal, true).value;
    var fs := BlockHead(goal[k], k + 1 == |goal|) + BlockFields(goal[k], Width(p.fields), |p.out|);
    assert e.fields == p.fields + (fs + rest);
    StartsAppend(v0, p.fields, fs + rest);
    StartsAppend(Shr(v0, Width(p.fields)), fs, rest);
    RestParts(h0, p.fields, fs + rest);
    RestParts(Rest(h0, p.fields), fs, rest);
  }

  lemma {:induction false} DynamicFields(h: Header, ts: seq<Token>, v: nat, held: Hand)
    requires HeaderOk(h) && TokensOk(LitLens(h), DistLens(h), ts) && Used(LitLens(h), 256)
    ensures var a, b := HeaderFields(h), BodyFields(LitLens(h), DistLens(h), ts);
      && (Starts(v, a + b) <==> Starts(v, a) && Starts(Shr(v, Width(a)), b))
      && Width(a + b) == Width(a) + Width(b) && Shr(Shr(v, Width(a)), Width(b)) == Shr(v, Width(a + b))
      && Rest(held, a + b) == Rest(Rest(held, a), b) && (Rest(held, a + b).Hand? ==> Rest(held, a).Hand?)
  {
    hide *;
    RestParts(held, HeaderFields(h), BodyFields(LitLens(h), DistLens(h), ts));
    StartsAppend(v, HeaderFields(h), BodyFields(LitLens(h), DistLens(h), ts));
    TakeTwice(v, Width(HeaderFields(h)), Width(BodyFields(LitLens(h), DistLens(h), ts)));
  }

  lemma {:induction false} DynamicParts(b: Block, at: nat, start: nat, v: nat, held: Hand)
    requires b.Dynamic? && BlockOk(b, at, start) && Starts(v, BlockFields(b, at, start))
    ensures HeaderOk(b.header) && Starts(v, HeaderFields(b.header))
    ensures BodyOk(LitLens(b.header), DistLens(b.header), b.tokens, start)
    ensures var a, c := HeaderFields(b.header), BodyFields(LitLens(b.header), DistLens(b.header), b.tokens);
      && Starts(Shr(v, Width(a)), c) && Rest(held, BlockFields(b, at, start)) == Rest(Rest(held, a), c)
      && (Rest(held, BlockFields(b, at, start)).Hand? ==> Rest(held, a).Hand?)
  {
    hide HeaderOk, HeaderFields, BodyFields, LitLens, DistLens, TokensOk, DistancesOk, Starts, Width, Shr, Rest;
    DynamicFields(b.header, b.tokens, v, held);
  }

  lemma {:induction false} DynamicRead(h: Header, ts: seq<Token>, at: nat, start: nat, v: nat, held: Hand)
    requires HeaderOk(h) && BodyOk(LitLens(h), DistLens(h), ts, start)
    requires Starts(v, HeaderFields(h)) && Starts(Shr(v, Width(HeaderFields(h))), BodyFields(LitLens(h), DistLens(h), ts))
    ensures BlockOk(Dynamic(h, ts), at, start) && Starts(v, BlockFields(Dynamic(h, ts), at, start))
    ensures Width(BlockFields(Dynamic(h, ts), at, start)) ==
            Width(HeaderFields(h)) + Width(BodyFields(LitLens(h), DistLens(h), ts))
    ensures Shr(Shr(v, Width(HeaderFields(h))), Width(BodyFields(LitLens(h), DistLens(h), ts))) ==
            Shr(v, Width(BlockFields(Dynamic(h, ts), at, start)))
    ensures Rest(held, BlockFields(Dynamic(h, ts), at, start)) ==
            Rest(Rest(held, HeaderFields(h)), BodyFields(LitLens(h), DistLens(h), ts))
  {
    hide HeaderOk, HeaderFields, BodyFields, LitLens, DistLens, TokensOk, DistancesOk, Starts, Width, Shr, Rest;
    DynamicFields(h, ts, v, held);
  }

  /** The fixed codes are complete: their Kraft sums are exactly one. */
  lemma {:induction false} FixedKraft()
    ensures KraftSum(FixedLit(), MAX_LEN) == Pow2(MAX_LEN) && KraftSum(FixedDist(), MAX_LEN) == Pow2(MAX_LEN)
  {
    FixedLitKraft(288);
    FixedDistKraft(32);
    assert FixedLit()[..288] == FixedLit() && FixedDist()[..32] == FixedDist();
    Pow2Values();
  }

  lemma {:induction false} FixedLitKraft(n: nat)
    requires n <= 288
    ensures KraftSum(FixedLit()[..n], MAX_LEN) ==
      if n <= 144 then 128 * n
      else if n <= 256 then 128 * 144 + 64 * (n - 144)
      else if n <= 280 then 128 * 144 + 64 * 112 + 256 * (n - 256)
      else 128 * 144 + 64 * 112 + 256 * 24 + 128 * (n - 280)
    decreases n
  {
    if n > 0 {
      FixedLitKraft(n - 1);
      assert FixedLit()[..n][..n - 1] == FixedLit()[..n - 1];
      Pow2Values();
    }
  }

  lemma {:induction false} FixedDistKraft(n: nat)
    requires n <= 32
    ensures KraftSum(FixedDist()[..n], MAX_LEN) == 1024 * n
    decreases n
  {
    if n > 0 {
      FixedDistKraft(n - 1);
      assert FixedDist()[..n][..n - 1] == FixedDist()[..n - 1];
      Pow2Values();
    }
  }

  lemma {:induction false} ByteSize()
    ensures Pow2(8) == 256
  {
    Pow2Values();
  }

  lemma {:induction false} NoBits()
    ensures Pow2(0) == 1
  {
  }

  lemma {:induction false} PutByte(b: byte, rest: nat)
    ensures Low(b + 256 * rest, 8) == b && Shr(b + 256 * rest, 8) == rest
  {
    hide Pow2, Low, Shr;
    ByteSize();
    SplitUnique(b, 8, rest);
  }

  lemma {:induction false} NoBytes(v: nat, h: Hand)
    ensures ByteFields([], Aligned) == [] && Starts(v, []) && Width([]) == 0 && Shr(v, 0) == v && Rest(h, []) == h
  {
  }

  lemma {:induction false} ByteFieldsStep(s: seq<byte>, b: byte, v: nat, h: Hand)
    requires var fs := ByteFields(s, Aligned);
      Starts(v, fs) && Width(fs) == 8 * |s| && b == Low(Shr(v, 8 * |s|), 8)
    ensures var fs := ByteFields(s + [b], Aligned); Starts(v, fs) && Width(fs) == 8 * (|s| + 1)
    ensures Shr(Shr(v, 8 * |s|), 8) == Shr(v, 8 * (|s| + 1))
    ensures Rest(h, ByteFields(s + [b], Aligned)) == Next(Rest(h, ByteFields(s, Aligned)), Field(b, 8, Aligned))
  {
    hide Low, Shr, Next, Rest;
    var f, fs := Field(b, 8, Aligned), ByteFields(s, Aligned);
    assert ByteFields(s + [b], Aligned) == fs + [f];
    OneField(Shr(v, 8 * |s|), f);
    StartsAppend(v, fs, [f]);
    TakeTwice(v, 8 * |s|, 8);
    RestAppend(h, fs, [f]);
    RestOne(Rest(h, fs), f);
  }

  /** Stored bytes are served exactly when they are all still to be fetched. */
  lemma {:induction false} RestData(h: Hand, s: seq<byte>)
    requires h.Hand?
    ensures Rest(h, ByteFields(s, Data)) == if |s| <= h.left then h.(left := h.left - |s|) else Dry
    decreases |s|
  {
    if s != [] {
      var fs := ByteFields(s, Data);
      assert fs[1..] == ByteFields(s[1..], Data);
      if h.left == 0 {
        RestDry(fs[1..]);
      } else {
        RestData(h.(left := h.left - 1), s[1..]);
      }
    }
  }

  lemma {:induction false} NumberInHand(h: Hand, f: Field)
    requires h.Hand? && f.width <= h.bits && f.kind.Number?
    ensures Next(h, f) == h.(bits := h.bits - f.width)
  {
  }

  lemma {:induction false} NoBuffer(c: nat, rest: nat)
    requires c < Pow2(0)
    ensures c + Pow2(0) * rest == rest
  {
  }

  lemma {:induction false} PaddingBits(supplied: int, n: nat, at: nat)
    requires supplied % 8 == 0 && (supplied - n - (at + 3)) % 8 == 0
    ensures Padding(at + 3) == n % 8
    ensures n <= 31 ==> n - n % 8 <= 24 && (n - n % 8) % 8 == 0
  {
    var k := supplied / 8 - n / 8 - (supplied - n - (at + 3)) / 8;
    assert at + 3 == 8 * k - n % 8;
    ModNegative(k, n % 8);
  }

  lemma {:induction false} ModNegative(k: int, r: nat)
    requires r < 8
    ensures (8 * k - r) % 8 == (8 - r) % 8 && (8 - (8 - r) % 8) % 8 == r
  {
  }

  lemma {:induction false} BytesWidth(s: seq<byte>, kind: Kind)
    ensures Width(ByteFields(s, kind)) == 8 * |s|
    decreases |s|
  {
    if s != [] {
      BytesWidth(s[1..], kind);
      assert ByteFields(s, kind)[1..] == ByteFields(s[1..], kind);
    }
  }

  /** Bytes still in the input are the next byte fields of the stream. */
  lemma {:induction false} BytesRead(s: seq<byte>, n: nat)
    requires n <= |s|
    ensures Starts(LE(s), ByteFields(s[..n], Data)) && Shr(LE(s), 8 * n) == LE(s[n..])
    decreases n
  {
    hide *;
    if n == 0 {
      assert s[0..] == s;
      NoneRead(LE(s));
    } else {
      var t := s[1..];
      BytesRead(t, n - 1);
      assert s[..n] == [s[0]] + t[..n - 1] && t[n - 1..] == s[n..];
      HeadByte(s);
      ConsByte(s[0], LE(t), t[..n - 1]);
      PutByte(s[0], LE(t));
      TakeByteThen(LE(s), n - 1);
    }
  }

  lemma {:induction false} NoneRead(v: nat)
    ensures Starts(v, ByteFields([], Data)) && Shr(v, 0) == v
  {
  }

  lemma {:induction false} HeadByte(s: seq<byte>)
    requires s != []
    ensures LE(s) == s[0] + 256 * LE(s[1..])
  {
  }

  lemma {:induction false} ConsByte(b: byte, v: nat, bytes: seq<byte>)
    requires Starts(v, ByteFields(bytes, Data))
    ensures Starts(b + 256 * v, ByteFields([b] + bytes, Data))
  {
    PutByte(b, v);
    var fs := ByteFields([b] + bytes, Data);
    assert fs[0] == Field(b, 8, Data) && fs[1..] == ByteFields(bytes, Data);
  }

  lemma {:induction false} TakeByteThen(v: nat, m: nat)
    ensures Shr(Shr(v, 8), 8 * m) == Shr(v, 8 * (m + 1))
  {
    TakeTwice(v, 8, 8 * m);
  }

  lemma {:induction false} SliceRead(data: seq<byte>, pos: nat, n: nat)
    requires pos + n <= |data|
    ensures Starts(LE(data[pos..]), ByteFields(data[pos..pos + n], Data))
    ensures Shr(LE(data[pos..]), 8 * n) == LE(data[pos + n..])
  {
    BytesRead(data[pos..], n);
    assert data[pos..][..n] == data[pos..pos + n] && data[pos..][n..] == data[pos + n..];
  }

  lemma {:induction false} BytesUnique(a: seq<byte>, b: seq<byte>, kind: Kind, v: nat)
    requires |a| == |b| && Starts(v, ByteFields(a, kind)) && Starts(v, ByteFields(b, kind))
    ensures a == b
    decreases |a|
  {
    hide Low, Shr;
    if a != [] {
      assert ByteFields(a, kind)[1..] == ByteFields(a[1..], kind) && ByteFields(b, kind)[1..] == ByteFields(b[1..], kind);
      BytesUnique(a[1..], b[1..], kind, Shr(v, 8));
      assert a == [a[0]] + a[1..] && b == [b[0]] + b[1..];
    }
  }

  /** Padding, header and bytes of a stored block, as consecutive parts of the stream. */
  lemma {:induction false} StoredParts(pad: nat, n: nat, hdr: seq<byte>, bytes: seq<byte>, v: nat)
    requires |hdr| == 4
    ensures var fs := [Field(pad, n)] + (ByteFields(hdr, Aligned) + ByteFields(bytes, Data));
      && (Starts(v, fs) <==>
           && Low(v, n) == pad && Starts(Shr(v, n), ByteFields(hdr, Aligned))
           && Starts(Shr(Shr(v, n), 32), ByteFields(bytes, Data)))
      && Width(fs) == n + 32 + 8 * |bytes|
      && Shr(Shr(Shr(v, n), 32), 8 * |bytes|) == Shr(v, Width(fs))
  {
    hide Low, Shr, ByteFields;
    var a, b := ByteFields(hdr, Aligned), ByteFields(bytes, Data);
    BytesWidth(hdr, Aligned);
    BytesWidth(bytes, Data);
    OneField(v, Field(pad, n));
    StartsAppend(v, [Field(pad, n)], a + b);
    StartsAppend(Shr(v, n), a, b);
    TakeTwice(v, n, 32);
    TakeTwice(v, n + 32, 8 * |bytes|);
  }

  lemma {:induction false} StoredServed(pad: nat, n: nat, hdr: seq<byte>, bytes: seq<byte>, h: Hand)
    ensures Rest(h, [Field(pad, n)] + (ByteFields(hdr, Aligned) + ByteFields(bytes, Data))) ==
            Rest(Rest(Next(h, Field(pad, n)), ByteFields(hdr, Aligned)), ByteFields(bytes, Data))
  {
    hide Next, Rest, ByteFields;
    var a, b := ByteFields(hdr, Aligned), ByteFields(bytes, Data);
    RestAppend(h, [Field(pad, n)], a + b);
    RestOne(h, Field(pad, n));
    RestAppend(Next(h, Field(pad, n)), a, b);
  }

  lemma {:induction false} StoredGoal(goal: Block, at: nat, start: nat, v: nat, pad: nat, hdr: seq<byte>, v1: nat,
                                      v2: nat, h: Hand)
    requires goal.Stored? && BlockOk(goal, at, start) && Starts(v, BlockFields(goal, at, start))
    requires pad == Low(v, Padding(at + 3)) && v1 == Shr(v, Padding(at + 3))
    requires |hdr| == 4 && Starts(v1, ByteFields(hdr, Aligned)) && v2 == Shr(v1, 32)
    ensures pad == goal.pad && Word(hdr[0], hdr[1]) == |goal.bytes| && Word(hdr[2], hdr[3]) == 0xFFFF - |goal.bytes|
    ensures Starts(v2, ByteFields(goal.bytes, Data))
    ensures Rest(h, BlockFields(goal, at, start)) ==
            Rest(Rest(Next(h, Field(pad, Padding(at + 3))), ByteFields(hdr, Aligned)), ByteFields(goal.bytes, Data))
  {
    hide Low, Shr, Width, Starts, Pow2, Next, Rest, ByteFields;
    var s := StoredHead(|goal.bytes|);
    StoredParts(goal.pad, Padding(at + 3), s, goal.bytes, v);
    BytesUnique(s, hdr, Aligned, v1);
    StoredServed(pad, Padding(at + 3), s, goal.bytes, h);
  }

  lemma {:induction false} HeadOfLength(hdr: seq<byte>, n: nat)
    requires |hdr| == 4 && Word(hdr[0], hdr[1]) == n && Word(hdr[2], hdr[3]) == 0xFFFF - n
    ensures n < 0x10000 && StoredHead(n) == hdr
  {
  }

  lemma {:induction false} StoredRead(pad: nat, hdr: seq<byte>, bytes: seq<byte>, at: nat, start: nat,
                                      v: nat, v1: nat, v2: nat, h: Hand)
    requires pad == Low(v, Padding(at + 3)) && v1 == Shr(v, Padding(at + 3)) && v2 == Shr(v1, 32)
    requires |hdr| == 4 && Starts(v1, ByteFields(hdr, Aligned)) && Starts(v2, ByteFields(bytes, Data))
    requires Word(hdr[0], hdr[1]) == |bytes| && Word(hdr[2], hdr[3]) == 0xFFFF - |bytes|
    ensures BlockOk(Stored(pad, bytes), at, start) && Starts(v, BlockFields(Stored(pad, bytes), at, start))
    ensures Width(BlockFields(Stored(pad, bytes), at, start)) == Padding(at + 3) + 32 + 8 * |bytes|
    ensures Shr(v2, 8 * |bytes|) == Shr(v, Width(BlockFields(Stored(pad, bytes), at, start)))
    ensures Rest(h, BlockFields(Stored(pad, bytes), at, start)) ==
            Rest(Rest(Next(h, Field(pad, Padding(at + 3))), ByteFields(hdr, Aligned)), ByteFields(bytes, Data))
  {
    hide Low, Shr, Width, Starts, Pow2, Next, Rest, ByteFields, Padding;
    HeadOfLength(hdr, |bytes|);
    StoredParts(pad, Padding(at + 3), hdr, bytes, v);
    StoredServed(pad, Padding(at + 3), hdr, bytes, h);
  }

  lemma {:induction false} CountsRead(v: nat, a: nat, b: nat, c: nat)
    requires a == Low(v, 5) && b == Low(Shr(v, 5), 5) && c == Low(Shr(Shr(v, 5), 5), 4)
    ensures a < 32 && b < 32 && c < 16 && Shr(Shr(Shr(v, 5), 5), 4) == Shr(v, 14)
    ensures Starts(v, CountFields(a + 257, b + 1, c + 4))
    ensures forall i, j, k :: 257 <= i && 1 <= j && 4 <= k && Starts(v, CountFields(i, j, k)) ==>
      i == a + 257 && j == b + 1 && k == c + 4
  {
    assert Pow2(5) == 32 && Pow2(4) == 16;
    hide Low, Shr, Pow2;
    ThreeFields(v, Field(a, 5), Field(b, 5), Field(c, 4));
    forall i, j, k | 257 <= i && 1 <= j && 4 <= k && Starts(v, CountFields(i, j, k))
      ensures i == a + 257 && j == b + 1 && k == c + 4
    {
      ThreeFields(v, Field(i - 257, 5), Field(j - 1, 5), Field(k - 4, 4));
    }
  }

  lemma {:induction false} ClWidth(cl: seq<nat>)
    ensures Width(ClFields(cl)) == 3 * |cl|
    decreases |cl|
  {
    if cl != [] {
      ClWidth(cl[..|cl| - 1]);
      var f := Field(cl[|cl| - 1], 3);
      OneField(0, f);
      StartsAppend(0, ClFields(cl[..|cl| - 1]), [f]);
    }
  }

  lemma {:induction false} ClUnique(a: seq<nat>, b: seq<nat>, v: nat)
    requires |a| == |b| && Starts(v, ClFields(a)) && Starts(v, ClFields(b))
    ensures a == b
    decreases |a|
  {
    if a != [] {
      hide Low, Shr;
      var n := |a| - 1;
      ClWidth(a[..n]);
      ClWidth(b[..n]);
      StartsAppend(v, ClFields(a[..n]), [Field(a[n], 3)]);
      StartsAppend(v, ClFields(b[..n]), [Field(b[n], 3)]);
      OneField(Shr(v, 3 * n), Field(a[n], 3));
      OneField(Shr(v, 3 * n), Field(b[n], 3));
      ClUnique(a[..n], b[..n], v);
      assert a == a[..n] + [a[n]] && b == b[..n] + [b[n]];
    }
  }

  lemma {:induction false} ClSmall(cl: seq<nat>)
    requires |cl| <= 19 && forall i :: 0 <= i < |cl| ==> cl[i] < 8
    ensures LensOk(ClLens(cl))
    decreases |cl|
  {
    if cl != [] {
      ClSmall(cl[..|cl| - 1]);
    }
  }

  /** The three parts of a header, read one after the other. */
  lemma {:induction false} HeaderParts(h: Header, v: nat, held: Hand)
    requires 257 <= h.hlit && 1 <= h.hdist && 4 <= |h.cl| <= 19 && OpsOk(ClLens(h.cl), h.ops)
    ensures var fs := PartFields(h);
      && (Starts(v, fs) <==>
           && Starts(v, CountFields(h.hlit, h.hdist, |h.cl|))
           && Starts(Shr(v, 14), ClFields(h.cl))
           && Starts(Shr(Shr(v, 14), 3 * |h.cl|), OpsFields(ClLens(h.cl), h.ops)))
      && Width(fs) == 14 + 3 * |h.cl| + Width(OpsFields(ClLens(h.cl), h.ops))
      && Shr(Shr(Shr(v, 14), 3 * |h.cl|), Width(OpsFields(ClLens(h.cl), h.ops))) == Shr(v, Width(fs))
      && Rest(held, fs) == Rest(Rest(Rest(held, CountFields(h.hlit, h.hdist, |h.cl|)), ClFields(h.cl)),
                                OpsFields(ClLens(h.cl), h.ops))
  {
    hide Low, Shr, ClLens, OpsFields, ClFields, OpsOk, Rest;
    var a, b, c := CountFields(h.hlit, h.hdist, |h.cl|), ClFields(h.cl), OpsFields(ClLens(h.cl), h.ops);
    ThreeFields(v, a[0], a[1], a[2]);
    ClWidth(h.cl);
    StartsAppend(v, a + b, c);
    StartsAppend(v, a, b);
    RestAppend(held, a + b, c);
    RestAppend(held, a, b);
    TakeTwice(v, 14, 3 * |h.cl|);
    TakeTwice(v, 14 + 3 * |h.cl|, Width(c));
  }

  /** A header up to the tables it describes. */
  predicate HeaderRead(h: Header) {
    && 257 <= h.hlit <= 288 && 1 <= h.hdist <= 32 && 4 <= |h.cl| <= 19
    && (forall i :: 0 <= i < |h.cl| ==> h.cl[i] < 8)
    && Kraft(ClLens(h.cl)) && OpsOk(ClLens(h.cl), h.ops)
    && |Lengths(h.ops)| == h.hlit + h.hdist
  }

  function PartFields(h: Header): seq<Field>
    requires 257 <= h.hlit && 1 <= h.hdist && 4 <= |h.cl| <= 19 && OpsOk(ClLens(h.cl), h.ops)
  {
    CountFields(h.hlit, h.hdist, |h.cl|) + ClFields(h.cl) + OpsFields(ClLens(h.cl), h.ops)
  }

  lemma {:induction false} HeaderIsRead(h: Header)
    ensures HeaderOk(h) <==> HeaderRead(h) && Kraft(LitLens(h)) && Kraft(DistLens(h))
    ensures HeaderOk(h) ==> HeaderFields(h) == PartFields(h)
  {
    hide Kraft, ClLens, Lengths, OpsOk, LitLens, DistLens, CountFields, ClFields, OpsFields;
  }

  lemma {:induction false} LensSplit(lens: seq<nat>, hlit: nat)
    requires hlit <= |lens| <= 320 && hlit <= 288 && |lens| - hlit <= 32 && forall i :: 0 <= i < |lens| ==> lens[i] <= MAX_LEN
    ensures LensOk(lens[..hlit]) && LensOk(lens[hlit..])
  {
  }

  lemma {:induction false} NoClFields(v: nat, h: Hand)
    ensures Starts(v, ClFields([])) && Width(ClFields([])) == 0 && Shr(v, 0) == v && Rest(h, ClFields([])) == h
    ensures ClLens([]) == seq(19, _ => 0)
  {
  }

  lemma {:induction false} ClStep(cl: seq<nat>, s: nat, v: nat, h: Hand)
    requires |cl| < 19 && Starts(v, ClFields(cl)) && Width(ClFields(cl)) == 3 * |cl|
    requires s == Low(Shr(v, 3 * |cl|), 3)
    ensures s < 8 && ClLens(cl + [s]) == ClLens(cl)[CL_ORDER[|cl|] := s]
    ensures Starts(v, ClFields(cl + [s])) && Width(ClFields(cl + [s])) == 3 * (|cl| + 1)
    ensures Shr(Shr(v, 3 * |cl|), 3) == Shr(v, 3 * (|cl| + 1))
    ensures Rest(h, ClFields(cl + [s])) == Next(Rest(h, ClFields(cl)), Field(s, 3))
  {
    hide Low, Shr, Pow2, Rest, Next, Starts, Width;
    assert (cl + [s])[..|cl|] == cl;
    Pow2Values();
    var f := Field(s, 3);
    RestAppend(h, ClFields(cl), [f]);
    RestOne(Rest(h, ClFields(cl)), f);
    OneField(Shr(v, 3 * |cl|), f);
    StartsAppend(v, ClFields(cl), [f]);
    TakeTwice(v, 3 * |cl|, 3);
  }

  lemma {:induction false} OpRead(cl: seq<nat>, op: LenOp, v: nat, h: Hand)
    requires !op.One? && Used(cl, OpSymbol(op)) && Low(v, cl[OpSymbol(op)]) == SymField(cl, OpSymbol(op)).value
    requires op.extra == Low(Shr(v, cl[OpSymbol(op)]), OpExtra(op))
    ensures OpOk(cl, op) && Starts(v, OpFields(cl, op))
    ensures Width(OpFields(cl, op)) == cl[OpSymbol(op)] + OpExtra(op)
    ensures Shr(Shr(v, cl[OpSymbol(op)]), OpExtra(op)) == Shr(v, Width(OpFields(cl, op)))
    ensures Rest(h, OpFields(cl, op)) == Next(Next(h, SymField(cl, OpSymbol(op))), Field(op.extra, OpExtra(op)))
  {
    assert Pow2(2) == 4 && Pow2(3) == 8 && Pow2(7) == 128 by { Pow2Values(); }
    hide Low, Shr, Pow2, Rest, Next;
    RestTwo(h, SymField(cl, OpSymbol(op)), Field(op.extra, OpExtra(op)));
    TwoFields(v, SymField(cl, OpSymbol(op)), Field(op.extra, OpExtra(op)));
  }

  lemma {:induction false} TwoFields(v: nat, a: Field, b: Field)
    ensures Starts(v, [a, b]) <==> Low(v, a.width) == a.value && Low(Shr(v, a.width), b.width) == b.value
    ensures Width([a, b]) == a.width + b.width
    ensures Shr(Shr(v, a.width), b.width) == Shr(v, Width([a, b]))
  {
    hide Low, Shr;
    assert [a, b][1..] == [b];
    OneField(Shr(v, a.width), b);
    TakeTwice(v, a.width, b.width);
  }

  lemma {:induction false} NoOps(cl: seq<nat>, v: nat, h: Hand)
    ensures OpsOk(cl, []) && OpsFields(cl, []) == [] && Lengths([]) == [] && Starts(v, []) && Width([]) == 0
    ensures Shr(v, 0) == v && Rest(h, []) == h
  {
  }

  lemma {:induction false} OpSizes(cl: seq<nat>, op: LenOp, known: seq<nat>)
    requires OpOk(cl, op) && forall i :: 0 <= i < |known| ==> known[i] <= MAX_LEN
    ensures |OpLengths(op, known)| >= 1
    ensures forall i :: 0 <= i < |OpLengths(op, known)| ==> OpLengths(op, known)[i] <= MAX_LEN
  {
  }

  lemma {:induction false} OpNonempty(op: LenOp, known: seq<nat>)
    ensures |OpLengths(op, known)| >= 1
  {
  }

  lemma {:induction false} OpsStep(cl: seq<nat>, ops: seq<LenOp>, op: LenOp, v: nat, h: Hand)
    requires OpsOk(cl, ops) && OpOk(cl, op) && (op.Repeat? ==> Lengths(ops) != [])
    requires Starts(v, OpsFields(cl, ops)) && Starts(Shr(v, Width(OpsFields(cl, ops))), OpFields(cl, op))
    ensures OpsOk(cl, ops + [op]) && Starts(v, OpsFields(cl, ops + [op]))
    ensures Lengths(ops + [op]) == Lengths(ops) + OpLengths(op, Lengths(ops))
    ensures Width(OpsFields(cl, ops + [op])) == Width(OpsFields(cl, ops)) + Width(OpFields(cl, op))
    ensures Shr(Shr(v, Width(OpsFields(cl, ops))), Width(OpFields(cl, op))) == Shr(v, Width(OpsFields(cl, ops + [op])))
    ensures Rest(h, OpsFields(cl, ops + [op])) == Rest(Rest(h, OpsFields(cl, ops)), OpFields(cl, op))
  {
    hide Low, Shr, OpFields, OpLengths, OpOk, Rest;
    RestAppend(h, OpsFields(cl, ops), OpFields(cl, op));
    assert (ops + [op])[..|ops|] == ops;
    StartsAppend(v, OpsFields(cl, ops), OpFields(cl, op));
    TakeTwice(v, Width(OpsFields(cl, ops)), Width(OpFields(cl, op)));
  }

  lemma {:induction false} OpsSplit(cl: seq<nat>, goal: seq<LenOp>, k: nat) returns (rest: seq<Field>)
    requires k <= |goal| && OpsOk(cl, goal)
    ensures OpsOk(cl, goal[..k]) && OpsFields(cl, goal) == OpsFields(cl, goal[..k]) + rest
    ensures |Lengths(goal)| >= |Lengths(goal[..k])| + |goal| - k
    decreases |goal|
  {
    hide OpFields, OpOk, OpLengths, OpsFields, Lengths, OpsOk;
    if k == |goal| {
      rest := [];
      assert goal[..k] == goal;
      assert OpsFields(cl, goal) == OpsFields(cl, goal) + rest;
    } else {
      var n := |goal| - 1;
      OpsLast(cl, goal);
      var some := OpsSplit(cl, goal[..n], k);
      rest := some + OpFields(cl, goal[n]);
      assert goal[..n][..k] == goal[..k];
      OpNonempty(goal[n], Lengths(goal[..n]));
    }
  }

  lemma {:induction false} OpsLast(cl: seq<nat>, ops: seq<LenOp>)
    requires ops != [] && OpsOk(cl, ops)
    ensures var n := |ops| - 1;
      && OpsOk(cl, ops[..n]) && OpOk(cl, ops[n]) && OpsFields(cl, ops) == OpsFields(cl, ops[..n]) + OpFields(cl, ops[n])
      && Lengths(ops) == Lengths(ops[..n]) + OpLengths(ops[n], Lengths(ops[..n]))
  {
    hide OpFields, OpOk, OpLengths;
  }

  /** In a stream that begins with the operations `goal`, after k of them comes the next. */
  lemma {:induction false} OpGoal(cl: seq<nat>, goal: seq<LenOp>, k: nat, v: nat, h: Hand) returns (want: LenOp)
    requires OpsOk(cl, goal) && Starts(v, OpsFields(cl, goal)) && k <= |goal| && Rest(h, OpsFields(cl, goal)).Hand?
    requires |Lengths(goal[..k])| < |Lengths(goal)|
    ensures k < |goal| && want == goal[k] && OpOk(cl, want)
    ensures OpsOk(cl, goal[..k]) && Starts(Shr(v, Width(OpsFields(cl, goal[..k]))), OpFields(cl, want))
    ensures Rest(Rest(h, OpsFields(cl, goal[..k])), OpFields(cl, want)).Hand?
    ensures want.Repeat? ==> Lengths(goal[..k]) != []
    ensures |Lengths(goal[..k])| + |OpLengths(want, Lengths(goal[..k]))| <= |Lengths(goal)|
  {
    hide Low, Shr, OpFields, OpLengths, OpOk, Rest;
    if k == |goal| {
      WholeSlice(goal);
    }
    want := goal[k];
    assert goal[..k + 1][..k] == goal[..k];
    var empty := OpsSplit(cl, goal, k);
    var more := OpsSplit(cl, goal[..k], 0);
    assert goal[..k][..0] == [];
    var rest := OpsSplit(cl, goal, k + 1);
    var a, b := OpsFields(cl, goal[..k]), OpFields(cl, want);
    assert OpsFields(cl, goal[..k + 1]) == a + b;
    assert OpsFields(cl, goal) == a + (b + rest);
    StartsAppend(v, a, b + rest);
    StartsAppend(Shr(v, Width(a)), b, rest);
    RestParts(h, a, b + rest);
    RestParts(Rest(h, a), b, rest);
  }

  lemma {:induction false} WholeSlice<T>(s: seq<T>)
    ensures s[..|s|] == s
  {
  }

  lemma {:induction false} AllOps(cl: seq<nat>, goal: seq<LenOp>, k: nat)
    requires OpsOk(cl, goal) && k <= |goal| && |Lengths(goal[..k])| == |Lengths(goal)|
    ensures goal[..k] == goal
  {
    var rest := OpsSplit(cl, goal, k);
  }

  lemma {:induction false} TokensSnoc(lit: seq<nat>, dist: seq<nat>, ts: seq<Token>, t: Token)
    requires TokensOk(lit, dist, ts) && TokenOk(lit, dist, t) && !t.EndOfBlock?
    ensures TokensOk(lit, dist, ts + [t])
    ensures TokensFields(lit, dist, ts + [t]) == TokensFields(lit, dist, ts) + TokenFields(lit, dist, t)
    ensures Expanded(lit, dist, ts + [t]) == Expanded(lit, dist, ts) + TokenSize(t)
  {
    assert (ts + [t])[..|ts|] == ts;
  }

  lemma {:induction false} TokensStep(lit: seq<nat>, dist: seq<nat>, ts: seq<Token>, t: Token, v: nat, h: Hand)
    requires TokensOk(lit, dist, ts) && TokenOk(lit, dist, t) && !t.EndOfBlock?
    requires Starts(v, TokensFields(lit, dist, ts))
    requires Starts(Shr(v, Width(TokensFields(lit, dist, ts))), TokenFields(lit, dist, t))
    ensures TokensOk(lit, dist, ts + [t]) && Starts(v, TokensFields(lit, dist, ts + [t]))
    ensures Width(TokensFields(lit, dist, ts + [t])) ==
            Width(TokensFields(lit, dist, ts)) + Width(TokenFields(lit, dist, t))
    ensures Shr(Shr(v, Width(TokensFields(lit, dist, ts))), Width(TokenFields(lit, dist, t))) ==
            Shr(v, Width(TokensFields(lit, dist, ts + [t])))
    ensures Rest(h, TokensFields(lit, dist, ts + [t])) == Rest(Rest(h, TokensFields(lit, dist, ts)), TokenFields(lit, dist, t))
  {
    hide Low, Shr, Pow2, SymField, Rest, Starts, Width, TokensFields, TokenFields, TokensOk, TokenOk;
    RestAppend(h, TokensFields(lit, dist, ts), TokenFields(lit, dist, t));
    TokensSnoc(lit, dist, ts, t);
    StartsAppend(v, TokensFields(lit, dist, ts), TokenFields(lit, dist, t));
    TakeTwice(v, Width(TokensFields(lit, dist, ts)), Width(TokenFields(lit, dist, t)));
  }

  lemma {:induction false} ExpandStep(lit: seq<nat>, dist: seq<nat>, ts: seq<Token>, t: Token, out: seq<byte>)
    requires TokensOk(lit, dist, ts) && DistancesOk(lit, dist, ts, |out|)
    requires TokenOk(lit, dist, t) && !t.EndOfBlock?
    requires t.Copy? ==> 1 <= CopyDistance(t) <= |Expand(lit, dist, ts, out)|
    ensures TokensOk(lit, dist, ts + [t]) && DistancesOk(lit, dist, ts + [t], |out|)
    ensures Expand(lit, dist, ts + [t], out) == Emit(t, Expand(lit, dist, ts, out))
  {
    assert (ts + [t])[..|ts|] == ts;
  }

  lemma {:induction false} BodyDone(lit: seq<nat>, dist: seq<nat>, ts: seq<Token>, v: nat, h: Hand)
    requires TokensOk(lit, dist, ts) && Used(lit, 256) && Starts(v, TokensFields(lit, dist, ts))
    requires Starts(Shr(v, Width(TokensFields(lit, dist, ts))), [SymField(lit, 256)])
    ensures Starts(v, BodyFields(lit, dist, ts))
    ensures Width(BodyFields(lit, dist, ts)) == Width(TokensFields(lit, dist, ts)) + Width([SymField(lit, 256)])
    ensures Shr(Shr(v, Width(TokensFields(lit, dist, ts))), Width([SymField(lit, 256)])) ==
            Shr(v, Width(BodyFields(lit, dist, ts)))
    ensures Rest(h, BodyFields(lit, dist, ts)) == Guarded(Rest(Rest(h, TokensFields(lit, dist, ts)), [SymField(lit, 256)]))
  {
    hide Low, Shr, TokensFields, TokensOk, SymField, Rest, Next, Guarded;
    var v1 := Shr(v, Width(TokensFields(lit, dist, ts)));
    OneField(v1, SymField(lit, 256));
    OneField(v1, EndField(lit));
    StartsAppend(v, TokensFields(lit, dist, ts), [EndField(lit)]);
    TakeTwice(v, Width(TokensFields(lit, dist, ts)), Width([SymField(lit, 256)]));
    RestAppend(h, TokensFields(lit, dist, ts), [EndField(lit)]);
    EndServed(lit, Rest(h, TokensFields(lit, dist, ts)));
  }

  /** An end mark is a symbol followed by the test of the granted bits. */
  lemma {:induction false} EndServed(lit: seq<nat>, h: Hand)
    requires Used(lit, 256)
    ensures Rest(h, [EndField(lit)]) == Guarded(Rest(h, [SymField(lit, 256)]))
  {
    hide Rest, SymField;
    RestOne(h, EndField(lit));
    RestOne(h, SymField(lit, 256));
    SymbolKind(lit, 256);
  }

  lemma {:induction false} SymbolKind(lens: seq<nat>, i: nat)
    requires i < |lens|
    ensures SymField(lens, i).kind == Codeword && SymField(lens, i).width == lens[i]
  {
  }

  /** In a stream that begins with the body of `goal`, after k tokens comes the next one or the end mark. */
  lemma {:induction false} GoalStep(lit: seq<nat>, dist: seq<nat>, goal: seq<Token>, k: nat, v: nat, h: Hand, start: nat)
    requires k <= |goal| && BodyOk(lit, dist, goal, start) && Starts(v, BodyFields(lit, dist, goal))
    requires Rest(h, BodyFields(lit, dist, goal)).Hand?
    ensures TokensOk(lit, dist, goal[..k])
    ensures var want := if k < |goal| then goal[k] else EndOfBlock;
      && TokenOk(lit, dist, want)
      && Starts(Shr(v, Width(TokensFields(lit, dist, goal[..k]))), TokenFields(lit, dist, want))
      && Rest(Rest(h, TokensFields(lit, dist, goal[..k])), TokenFields(lit, dist, want)).Hand?
    ensures k < |goal| ==>
      && Expanded(lit, dist, goal[..k]) + TokenSize(goal[k]) <= Expanded(lit, dist, goal)
      && (goal[k].Copy? ==> CopyDistance(goal[k]) <= start + Expanded(lit, dist, goal[..k]))
  {
    hide Low, Shr, Pow2, TokenOk, TokenFields, SymField, CopyLength, CopyDistance, TokenSize, Rest, EndField;
    if k == |goal| {
      assert goal[..k] == goal;
      StartsAppend(v, TokensFields(lit, dist, goal), [EndField(lit)]);
      EndMark(lit, dist, Shr(v, Width(TokensFields(lit, dist, goal))));
      RestAppend(h, TokensFields(lit, dist, goal), [EndField(lit)]);
      EndServed(lit, Rest(h, TokensFields(lit, dist, goal)));
    } else {
      PrefixExpanded(lit, dist, goal, k, start);
      var rest := PrefixSplit(lit, dist, goal, k + 1);
      assert goal[..k + 1][..k] == goal[..k];
      var a, b, c := TokensFields(lit, dist, goal[..k]), TokenFields(lit, dist, goal[k]), rest + [EndField(lit)];
      assert TokensFields(lit, dist, goal[..k + 1]) == a + b;
      assert BodyFields(lit, dist, goal) == a + (b + c);
      StartsAppend(v, a, b + c);
      StartsAppend(Shr(v, Width(a)), b, c);
      RestParts(h, a, b + c);
      RestParts(Rest(h, a), b, c);
    }
  }

  lemma {:induction false} EndMark(lit: seq<nat>, dist: seq<nat>, v: nat)
    requires Used(lit, 256)
    ensures TokenOk(lit, dist, EndOfBlock) && TokenFields(lit, dist, EndOfBlock) == [SymField(lit, 256)]
    ensures Starts(v, [EndField(lit)]) <==> Starts(v, [SymField(lit, 256)])
  {
    hide Low, Shr, Starts;
    OneField(v, EndField(lit));
    OneField(v, SymField(lit, 256));
  }

  lemma {:induction false} PrefixSplit(lit: seq<nat>, dist: seq<nat>, goal: seq<Token>, k: nat)
    returns (rest: seq<Field>)
    requires k <= |goal| && TokensOk(lit, dist, goal)
    ensures TokensFields(lit, dist, goal) == TokensFields(lit, dist, goal[..k]) + rest
    decreases |goal|
  {
    hide TokenOk, TokenFields;
    if k == |goal| {
      rest := [];
      assert goal[..k] == goal;
    } else {
      var n := |goal| - 1;
      rest := PrefixSplit(lit, dist, goal[..n], k);
      rest := rest + TokenFields(lit, dist, goal[n]);
      assert goal[..n][..k] == goal[..k];
    }
  }

  lemma {:induction false} PrefixExpanded(lit: seq<nat>, dist: seq<nat>, goal: seq<Token>, k: nat, start: nat)
    requires k < |goal| && TokensOk(lit, dist, goal) && DistancesOk(lit, dist, goal, start)
    ensures Expanded(lit, dist, goal[..k]) + TokenSize(goal[k]) <= Expanded(lit, dist, goal)
    ensures goal[k].Copy? ==> CopyDistance(goal[k]) <= start + Expanded(lit, dist, goal[..k])
    decreases |goal|
  {
    hide CopyLength, CopyDistance, TokenSize, TokenOk;
    var n := |goal| - 1;
    assert TokenOk(lit, dist, goal[k]);
    if k < n {
      PrefixExpanded(lit, dist, goal[..n], k, start);
      assert goal[..n][..k] == goal[..k];
    }
  }

  lemma {:induction false} NoTokens(lit: seq<nat>, dist: seq<nat>, v: nat, h: Hand, out: seq<byte>)
    ensures TokensOk(lit, dist, []) && DistancesOk(lit, dist, [], |out|)
    ensures TokensFields(lit, dist, []) == [] && Starts(v, []) && Width([]) == 0 && Shr(v, 0) == v
    ensures Expand(lit, dist, [], out) == out && Rest(h, []) == h
  {
  }

  lemma {:induction false} TokenShape(lit: seq<nat>, dist: seq<nat>, t: Token)
    requires TokenOk(lit, dist, t)
    ensures t.EndOfBlock? ==> Used(lit, 256) && TokenFields(lit, dist, t) == [SymField(lit, 256)]
    ensures t.Copy? ==> t.lsym < 29 && t.dsym < 30
    ensures !t.EndOfBlock? ==> TokenSize(t) >= 1
  {
    DistancePositive(t);
  }

  /** Length extra bits, distance code and distance extra bits read in turn make up the tail of a copy. */
  lemma {:induction false} ExtraSizes()
    ensures |LENGTH_EXTRA| >= 29 && |DIST_EXTRA| >= 30
    ensures (forall l :: 0 <= l < 29 ==> LENGTH_EXTRA[l] <= 5) && (forall d :: 0 <= d < 30 ==> DIST_EXTRA[d] <= 13)
  {
  }

  lemma {:induction false} TailShape(lens: seq<nat>, t: Token)
    requires TailOk(lens, t)
    ensures t.Copy? && t.lsym < 29 && t.dsym < 30 && Used(lens, t.dsym) && t.dsym < |lens|
    ensures var g := TailFields(lens, t);
      && |g| == 3 && g[0] == Field(t.lextra, LENGTH_EXTRA[t.lsym]) && g[1] == SymField(lens, t.dsym)
      && g[2] == Field(t.dextra, DIST_EXTRA[t.dsym])
  {
  }

  lemma {:induction false} TailRead(dist: seq<nat>, t: Token, v: nat, h: Hand)
    requires t.Copy? && t.lsym < 29 && t.dsym < 30 && Used(dist, t.dsym)
    requires t.lextra == Low(v, LENGTH_EXTRA[t.lsym])
    requires var v1 := Shr(v, LENGTH_EXTRA[t.lsym]);
      && Low(v1, dist[t.dsym]) == SymField(dist, t.dsym).value
      && t.dextra == Low(Shr(v1, dist[t.dsym]), DIST_EXTRA[t.dsym])
    ensures TailOk(dist, t) && Starts(v, TailFields(dist, t))
    ensures Width(TailFields(dist, t)) == LENGTH_EXTRA[t.lsym] + dist[t.dsym] + DIST_EXTRA[t.dsym]
    ensures Shr(Shr(Shr(v, LENGTH_EXTRA[t.lsym]), dist[t.dsym]), DIST_EXTRA[t.dsym]) == Shr(v, Width(TailFields(dist, t)))
    ensures var g := Next(Next(h, Field(t.lextra, LENGTH_EXTRA[t.lsym])), SymField(dist, t.dsym));
      Rest(h, TailFields(dist, t)) == Next(g, Field(t.dextra, DIST_EXTRA[t.dsym]))
  {
    hide Rest, Next;
    RestThree(h, Field(t.lextra, LENGTH_EXTRA[t.lsym]), SymField(dist, t.dsym), Field(t.dextra, DIST_EXTRA[t.dsym]));
    ThreeFields(v, Field(t.lextra, LENGTH_EXTRA[t.lsym]), SymField(dist, t.dsym), Field(t.dextra, DIST_EXTRA[t.dsym]));
  }

  lemma {:induction false} ThreeFields(v: nat, a: Field, b: Field, c: Field)
    ensures Starts(v, [a, b, c]) <==>
      Low(v, a.width) == a.value && Low(Shr(v, a.width), b.width) == b.value &&
      Low(Shr(Shr(v, a.width), b.width), c.width) == c.value
    ensures Width([a, b, c]) == a.width + b.width + c.width
    ensures Shr(Shr(Shr(v, a.width), b.width), c.width) == Shr(v, Width([a, b, c]))
  {
    hide Low, Shr;
    assert [a, b, c][1..] == [b, c] && [b, c][1..] == [c] && [c][1..] == [];
    var v1, v2 := Shr(v, a.width), Shr(Shr(v, a.width), b.width);
    OneField(v2, c);
    assert Width([b, c]) == b.width + c.width;
    assert Starts(v1, [b, c]) == (Low(v1, b.width) == b.value && Starts(v2, [c]));
    TakeTwice(v, a.width, b.width);
    TakeTwice(v, a.width + b.width, c.width);
  }

  lemma {:induction false} SymbolRead(lens: seq<nat>, i: nat, v: nat)
    requires Used(lens, i) && Low(v, lens[i]) == SymField(lens, i).value
    ensures Starts(v, [SymField(lens, i)]) && Width([SymField(lens, i)]) == lens[i]
  {
    OneField(v, SymField(lens, i));
  }

  lemma {:induction false} CopyRead(lit: seq<nat>, dist: seq<nat>, t: Token, v: nat, h: Hand)
    requires TailOk(dist, t) && Used(lit, 257 + t.lsym)
    requires Low(v, lit[257 + t.lsym]) == SymField(lit, 257 + t.lsym).value
    requires Starts(Shr(v, lit[257 + t.lsym]), TailFields(dist, t))
    ensures TokenOk(lit, dist, t) && Starts(v, TokenFields(lit, dist, t))
    ensures Width(TokenFields(lit, dist, t)) == lit[257 + t.lsym] + Width(TailFields(dist, t))
    ensures Shr(Shr(v, lit[257 + t.lsym]), Width(TailFields(dist, t))) == Shr(v, Width(TokenFields(lit, dist, t)))
    ensures Rest(h, TokenFields(lit, dist, t)) == Rest(Next(h, SymField(lit, 257 + t.lsym)), TailFields(dist, t))
  {
    hide Low, Shr, Pow2, Rest, Next;
    var f := SymField(lit, 257 + t.lsym);
    RestAppend(h, [f], TailFields(dist, t));
    RestOne(h, f);
    OneField(v, f);
    StartsAppend(v, [f], TailFields(dist, t));
    TakeTwice(v, f.width, Width(TailFields(dist, t)));
  }

  lemma {:induction false} OneField(v: nat, f: Field)
    ensures Starts(v, [f]) <==> Low(v, f.width) == f.value
    ensures Width([f]) == f.width
  {
    assert [f][1..] == [];
    assert Starts(Shr(v, f.width), [f][1..]);
  }

  lemma {:induction false} MatchUnique(lens: seq<nat>, i: nat, j: nat, v: nat)
    requires Matches(lens, i, v) && Matches(lens, j, v)
    ensures i == j
  {
    MatchesIsHit(lens, i, v);
    MatchesIsHit(lens, j, v);
    HitUnique(lens, i, j, Rev(v, WINDOW));
  }

  lemma {:induction false} SymbolField(lens: seq<nat>, i: nat, v: nat)
    requires Accepted(lens, MAX_LEN) && Used(lens, i)
    ensures Matches(lens, i, v) <==> Low(v, lens[i]) == SymField(lens, i).value
  {
    CodeBound(lens, i);
    RevField(v, Code(lens, i), lens[i]);
  }

  lemma {:induction false} FastBitsSize()
    ensures Pow2(FAST_BITS) == FAST_SIZE
  {
    Pow2Values();
  }

  lemma {:induction false} WindowSize()
    ensures Pow2(WINDOW) == 0x10000
  {
    Pow2Values();
  }

  /** The first m buffered bits are those of the stream. */
  lemma {:induction false} WindowOfBuffer(c: nat, n: nat, rest: nat, m: nat)
    requires n >= m
    ensures Rev(c, m) == Rev(c + Pow2(n) * rest, m)
  {
    hide Low, Rev, Pow2;
    LowBits(c, n, rest, m);
    RevLow(c, m, m);
    RevLow(c + Pow2(n) * rest, m, m);
  }

  /** A lookup at the low nine bits speaks about the whole stream. */
  lemma {:induction false} FastIsRight(lens: seq<nat>, v: nat, e: nat)
    requires FastEntry(lens, |lens|, Low(v, FAST_BITS), e)
    ensures e != 0 ==> Matches(lens, e % 512, v) && lens[e % 512] == e / 512 <= FAST_BITS
    ensures e == 0 ==> forall i :: 0 <= i < |lens| && lens[i] <= FAST_BITS ==> !Matches(lens, i, v)
  {
    forall i | 0 <= i < |lens| && lens[i] <= FAST_BITS
      ensures Matches(lens, i, Low(v, FAST_BITS)) == Matches(lens, i, v)
    {
      RevLow(v, FAST_BITS, lens[i]);
    }
  }

  /** A window at or above every limit begins with no code. */
  lemma {:induction false} NoLongHit(lens: seq<nat>, v: nat, k: nat)
    requires LensOk(lens) && k == Rev(v, WINDOW) && k >= Shl(Limit(lens, MAX_LEN), WINDOW - MAX_LEN)
    ensures forall i :: !Matches(lens, i, v)
  {
    ShlGalois(k, Limit(lens, MAX_LEN), WINDOW - MAX_LEN);
    forall i | Matches(lens, i, v) ensures false {
      MatchesIsHit(lens, i, v);
      HitBelow(lens, i, k, MAX_LEN);
    }
  }

  /** The first limit above the window tells the length of the code it begins with. */
  lemma {:induction false} LongHit(lens: seq<nat>, v: nat, k: nat, s: nat) returns (i: nat)
    requires LensOk(lens) && k == Rev(v, WINDOW) && FAST_BITS < s <= MAX_LEN
    requires forall j :: 0 <= j < |lens| && lens[j] <= FAST_BITS ==> !Matches(lens, j, v)
    requires k < Shl(Limit(lens, s), WINDOW - s)
    requires s > FAST_BITS + 1 ==> k >= Shl(Limit(lens, s - 1), WINDOW - (s - 1))
    ensures i < |lens| && lens[i] == s && Matches(lens, i, v)
    ensures Slot(lens, i) == Shr(k, WINDOW - s) - First(lens, s) + FirstSym(lens, s)
  {
    hide Rev, Shl, Shr;
    ShlGalois(k, Limit(lens, s), WINDOW - s);
    i := HitExists(lens, k, s);
    MatchesIsHit(lens, i, v);
    if s > FAST_BITS + 1 {
      NotShorter(lens, i, k, s - 1);
    }
  }

  lemma {:induction false} NotShorter(lens: seq<nat>, i: nat, k: nat, t: nat)
    requires Hits(lens, i, k) && 1 <= t <= MAX_LEN && k >= Shl(Limit(lens, t), WINDOW - t)
    ensures lens[i] > t
  {
    ShlGalois(k, Limit(lens, t), WINDOW - t);
    if lens[i] <= t {
      HitBelow(lens, i, k, t);
    }
  }

  /** Or-ing the next byte in above the buffered bits does not change the stream. */
  lemma {:induction false} AppendByte(c: nat, n: nat, b: byte, rest: nat)
    requires c < Pow2(n)
    ensures c + Pow2(n) * b < Pow2(n + 8)
    ensures c + Pow2(n) * b + Pow2(n + 8) * rest == c + Pow2(n) * (b + 256 * rest)
  {
    Pow2Add(n, 8);
    assert Pow2(8) == 256 by { Pow2Values(); }
    MulAssoc(Pow2(n), 256, rest);
    MulDist(Pow2(n), b, 256 * rest);
    MulMono(b, 255, Pow2(n));
  }
}
