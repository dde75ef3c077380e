/**
  LZW as Appendix F of the GIF89a specification describes it: the decoder as a
  function on strings, every encoder as a relation, and the proof that the
  decoder inverts every encoder.
*/
module Lzw {
  import opened Bits

  const TABLE_SIZE: nat := 8192

  type Str = s: seq<byte> | s != [] witness [0]

  function ClearCode(cs: nat): nat {
    Pow2(cs)
  }

  /** Decoder state: strings of the codes from ClearCode + 2 on, the last string, the code width. */
  datatype Coder = Coder(dict: seq<Str>, last: seq<byte>, started: bool, width: nat)

  datatype Result = Bad | End | More(next: Coder, out: seq<byte>)

  function Avail(cs: nat, st: Coder): nat {
    ClearCode(cs) + 2 + |st.dict|
  }

  function Fresh(cs: nat): Coder {
    Coder([], [], true, cs + 1)
  }

  function Grow(width: nat, avail: nat): nat {
    if Low(avail, width) == 0 && avail <= 0x0FFF then width + 1 else width
  }

  /** The string a code stands for when `last` was the previous one. */
  function StringOf(cs: nat, st: Coder, c: nat): Str
    requires c < ClearCode(cs) || ClearCode(cs) + 2 <= c < Avail(cs, st) || (c == Avail(cs, st) && st.last != [])
  {
    if c < ClearCode(cs) then [c % 256]
    else if c < Avail(cs, st) then st.dict[c - ClearCode(cs) - 2]
    else st.last + [st.last[0]]
  }

  function DecodeOne(cs: nat, st: Coder, c: nat): Result {
    if c == ClearCode(cs) then More(Fresh(cs), [])
    else if c == ClearCode(cs) + 1 then End
    else if c > Avail(cs, st) || !st.started then Bad
    else if st.last == [] then
      if c == Avail(cs, st) then Bad
      else More(st.(last := StringOf(cs, st, c), width := Grow(st.width, Avail(cs, st))), StringOf(cs, st, c))
    else if Avail(cs, st) + 1 > TABLE_SIZE then Bad
    else
      var str := StringOf(cs, st, c);
      More(Coder(st.dict + [st.last + [str[0]]], str, true, Grow(st.width, Avail(cs, st) + 1)), str)
  }

  datatype Outcome = Outcome(ok: bool, out: seq<byte>)

  /** Decode an n-bit stream v. */
  function Decode(cs: nat, st: Coder, v: nat, n: nat): Outcome
    requires st.width > 0
    decreases n
  {
    if n < st.width then Outcome(true, [])
    else
      match DecodeOne(cs, st, Low(v, st.width))
      case Bad => Outcome(false, [])
      case End => Outcome(true, [])
      case More(next, out) =>
        if next.width == 0 then Outcome(false, [])
        else
          var rest := Decode(cs, next, Shr(v, st.width), n - st.width);
          Outcome(rest.ok, out + rest.out)
  }

  // ------------------------------------------------------------------
  // Encoders
  // ------------------------------------------------------------------

  /** Code width by the size of the table: the least that holds the next free code, at most twelve bits. */
  function WidthFor(avail: nat, n: nat): nat
    decreases 12 - n
  {
    if n >= 12 || avail < Pow2(n) then n else WidthFor(avail, n + 1)
  }

  /** The dictionary an encoder uses for the next code: the entry for the last string and the next symbol is in it. */
  function Extended(dict: seq<Str>, last: seq<byte>, w: seq<byte>): seq<Str>
    requires w != []
  {
    if last == [] then dict else dict + [last + [w[0]]]
  }

  predicate Known(cs: nat, dict: seq<Str>, c: nat) {
    c < ClearCode(cs) || ClearCode(cs) + 2 <= c < ClearCode(cs) + 2 + |dict|
  }

  function Meaning(cs: nat, dict: seq<Str>, c: nat): Str
    requires Known(cs, dict, c)
  {
    if c < ClearCode(cs) then [c % 256] else dict[c - ClearCode(cs) - 2]
  }

  /**
    `codes` is what some encoder may write for the symbols w from a given dictionary and last string.
    At each point the encoder may clear, or emit any known code whose string comes next; it need not
    pick the longest.  It ends with the end-of-information code.
  */
  predicate Encodes(cs: nat, dict: seq<Str>, last: seq<byte>, codes: seq<nat>, w: seq<byte>)
    decreases |codes|
  {
    if codes == [] then false
    else if codes[0] == ClearCode(cs) then Encodes(cs, [], [], codes[1..], w)
    else if codes[0] == ClearCode(cs) + 1 then codes == [ClearCode(cs) + 1] && w == []
    else
      w != [] &&
      var dict' := Extended(dict, last, w);
      && Known(cs, dict', codes[0]) && ClearCode(cs) + 2 + |dict'| <= TABLE_SIZE
      && (var str := Meaning(cs, dict', codes[0]);
          str <= w && Encodes(cs, dict', str, codes[1..], w[|str|..]))
  }

  /** The codes as bit fields: each is as wide as the table size at that moment demands. */
  function CodeFields(cs: nat, dictSize: nat, last: bool, codes: seq<nat>): seq<Field>
    decreases |codes|
  {
    if codes == [] then []
    else
      [Field(codes[0], WidthFor(ClearCode(cs) + 2 + dictSize, cs + 1))] +
      if codes[0] == ClearCode(cs) then CodeFields(cs, 0, false, codes[1..])
      else CodeFields(cs, if last then dictSize + 1 else dictSize, true, codes[1..])
  }

  // ------------------------------------------------------------------
  // The decoder inverts every encoder
  // ------------------------------------------------------------------

  lemma {:induction false} GrowIsWidthFor(cs: nat, a: nat)
    requires 2 <= cs <= 12 && a > 0
    ensures Grow(WidthFor(a - 1, cs + 1), a) == WidthFor(a, cs + 1)
  {
    WidthGrows(a, cs + 1);
  }

  lemma {:induction false} WidthGrows(a: nat, n: nat)
    requires 1 <= n <= 13 && a > 0
    ensures Grow(WidthFor(a - 1, n), a) == WidthFor(a, n)
    decreases 13 - n
  {
    Pow2Values();
    if n >= 12 {
      if a <= 0x0FFF {
        Pow2Mono(12, n);
        LowSmall(a, n);
      }
    } else if a < Pow2(n) {
      LowSmall(a, n);
    } else if a == Pow2(n) {
      SplitUnique(0, n, 1);
      Pow2Mono(n, 11);
      assert WidthFor(a, n + 1) == n + 1;
    } else {
      WidthGrows(a, n + 1);
    }
  }

  lemma {:induction false} FreshWidth(cs: nat)
    requires 2 <= cs <= 12
    ensures ClearCode(cs) + 2 < Pow2(cs + 1) && WidthFor(ClearCode(cs) + 2, cs + 1) == cs + 1
    ensures Grow(cs + 1, ClearCode(cs) + 2) == cs + 1
  {
    Pow2Mono(2, cs);
    assert Pow2(2) == 4;
    LowSmall(ClearCode(cs) + 2, cs + 1);
  }

  /** Decoding a code with the decoder's older table yields the encoder's string and the encoder's table. */
  lemma {:induction false} DecodeMirrors(cs: nat, st: Coder, c: nat, w: seq<byte>)
    requires 2 <= cs <= 12 && st.started && st.width == WidthFor(Avail(cs, st), cs + 1)
    requires (st.last == [] ==> st.dict == []) && c != ClearCode(cs) && c != ClearCode(cs) + 1 && w != []
    requires var dict' := Extended(st.dict, st.last, w);
      Known(cs, dict', c) && ClearCode(cs) + 2 + |dict'| <= TABLE_SIZE && Meaning(cs, dict', c) <= w
    ensures var dict' := Extended(st.dict, st.last, w);
      var str := Meaning(cs, dict', c);
      DecodeOne(cs, st, c) == More(Coder(dict', str, true, WidthFor(ClearCode(cs) + 2 + |dict'|, cs + 1)), str)
  {
    hide WidthFor, Grow, Pow2;
    if st.last == [] {
      FreshWidth(cs);
    } else {
      GrowIsWidthFor(cs, Avail(cs, st) + 1);
      var str := Meaning(cs, Extended(st.dict, st.last, w), c);
      assert str[0] == w[0];
      assert StringOf(cs, st, c) == str;
    }
  }

  /** What any encoder writes is decoded to the symbols it was given, whatever bits follow. */
  lemma {:induction false} RoundTrip(cs: nat, st: Coder, codes: seq<nat>, w: seq<byte>, v: nat, n: nat)
    requires 2 <= cs <= 12 && st.started && st.width == WidthFor(Avail(cs, st), cs + 1) && st.width > 0
    requires st.last == [] ==> st.dict == []
    requires Encodes(cs, st.dict, st.last, codes, w)
    requires Starts(v, CodeFields(cs, |st.dict|, st.last != [], codes))
    requires Width(CodeFields(cs, |st.dict|, st.last != [], codes)) <= n
    ensures Decode(cs, st, v, n) == Outcome(true, w)
    decreases |codes|
  {
    hide Low, Shr, Grow, WidthFor, DecodeOne, Decode, Pow2, CodeFields, Starts, Width, ClearCode, Meaning, StringOf, Known;
    var c, clear := codes[0], ClearCode(cs);
    HeadField(cs, |st.dict|, st.last != [], codes, v);
    SpecialCodes(cs, st);
    DecodeStep(cs, st, v, n);
    if c == clear {
      FreshWidth(cs);
      RoundTrip(cs, Fresh(cs), codes[1..], w, Shr(v, st.width), n - st.width);
    } else if c != clear + 1 {
      var dict' := Extended(st.dict, st.last, w);
      var str := Meaning(cs, dict', c);
      var next := Coder(dict', str, true, WidthFor(clear + 2 + |dict'|, cs + 1));
      DecodeMirrors(cs, st, c, w);
      WidthPositive(clear + 2 + |dict'|, cs + 1);
      RoundTrip(cs, next, codes[1..], w[|str|..], Shr(v, st.width), n - st.width);
      assert str + w[|str|..] == w;
    }
  }

  lemma {:induction false} HeadField(cs: nat, d: nat, last: bool, codes: seq<nat>, v: nat)
    requires codes != [] && Starts(v, CodeFields(cs, d, last, codes))
    ensures var w := WidthFor(ClearCode(cs) + 2 + d, cs + 1);
      var rest := if codes[0] == ClearCode(cs) then CodeFields(cs, 0, false, codes[1..])
                  else CodeFields(cs, if last then d + 1 else d, true, codes[1..]);
      && Low(v, w) == codes[0] && Starts(Shr(v, w), rest)
      && Width(CodeFields(cs, d, last, codes)) == w + Width(rest)
  {
    hide Low, Shr, WidthFor, ClearCode;
    var w := WidthFor(ClearCode(cs) + 2 + d, cs + 1);
    var rest := if codes[0] == ClearCode(cs) then CodeFields(cs, 0, false, codes[1..])
                else CodeFields(cs, if last then d + 1 else d, true, codes[1..]);
    var fs := CodeFields(cs, d, last, codes);
    assert fs == [Field(codes[0], w)] + rest;
    assert fs[1..] == rest;
  }

  lemma {:induction false} DecodeStep(cs: nat, st: Coder, v: nat, n: nat)
    requires 0 < st.width <= n
    ensures
      match DecodeOne(cs, st, Low(v, st.width))
      case Bad => Decode(cs, st, v, n) == Outcome(false, [])
      case End => Decode(cs, st, v, n) == Outcome(true, [])
      case More(next, out) =>
        next.width > 0 ==>
          var rest := Decode(cs, next, Shr(v, st.width), n - st.width);
          Decode(cs, st, v, n) == Outcome(rest.ok, out + rest.out)
  {
    hide Low, Shr, DecodeOne;
  }

  lemma {:induction false} SpecialCodes(cs: nat, st: Coder)
    ensures DecodeOne(cs, st, ClearCode(cs)) == More(Fresh(cs), [])
    ensures DecodeOne(cs, st, ClearCode(cs) + 1) == End
  {
  }

  lemma {:induction false} WidthPositive(a: nat, n: nat)
    requires n > 0
    ensures WidthFor(a, n) > 0
    decreases 12 - n
  {
    if n < 12 && a >= Pow2(n) { WidthPositive(a, n + 1); }
  }

  // ------------------------------------------------------------------
  // Encoders exist
  // ------------------------------------------------------------------

  /** The simplest encoder: clear before every symbol. */
  function Plain(cs: nat, w: seq<byte>): seq<nat> {
    if w == [] then [ClearCode(cs) + 1] else [ClearCode(cs), w[0]] + Plain(cs, w[1..])
  }

  lemma {:induction false} PlainEncodes(cs: nat, dict: seq<Str>, last: seq<byte>, w: seq<byte>)
    requires 2 <= cs <= 12 && forall i :: 0 <= i < |w| ==> w[i] < ClearCode(cs)
    ensures Encodes(cs, dict, last, Plain(cs, w), w)
    decreases |w|
  {
    if w != [] {
      var codes, rest := Plain(cs, w), Plain(cs, w[1..]);
      assert ClearCode(cs) + 2 <= TABLE_SIZE by { Pow2Mono(cs, 12); Pow2Values(); }
      hide ClearCode, Pow2, Plain, Encodes;
      PlainEncodes(cs, [], [w[0]], w[1..]);
      PlainStep(cs, dict, last, w, rest);
      assert codes == [ClearCode(cs), w[0]] + rest by { PlainHead(cs, w); }
    } else {
      PlainEnd(cs, dict, last);
    }
  }

  lemma {:induction false} PlainHead(cs: nat, w: seq<byte>)
    requires w != []
    ensures Plain(cs, w) == [ClearCode(cs), w[0]] + Plain(cs, w[1..])
  {
  }

  lemma {:induction false} PlainEnd(cs: nat, dict: seq<Str>, last: seq<byte>)
    ensures Encodes(cs, dict, last, Plain(cs, []), [])
  {
  }

  lemma {:induction false} PlainStep(cs: nat, dict: seq<Str>, last: seq<byte>, w: seq<byte>, rest: seq<nat>)
    requires w != [] && w[0] < ClearCode(cs) && ClearCode(cs) + 2 <= TABLE_SIZE
    requires Encodes(cs, [], [w[0]], rest, w[1..])
    ensures Encodes(cs, dict, last, [ClearCode(cs), w[0]] + rest, w)
  {
    hide ClearCode;
    var codes := [ClearCode(cs), w[0]] + rest;
    var tail := [w[0]] + rest;
    assert codes[1..] == tail && tail[1..] == rest;
    assert Meaning(cs, [], w[0]) == [w[0]];
    assert Encodes(cs, [], [], tail, w);
  }

  /** Of the symbol w begins with and the first k entries: a code for the longest string that comes next. */
  function Longest(cs: nat, dict: seq<Str>, w: seq<byte>, k: nat): (c: nat)
    requires w != [] && w[0] < ClearCode(cs) && k <= |dict|
    ensures Known(cs, dict[..k], c) && Meaning(cs, dict[..k], c) <= w
  {
    if k == 0 then w[0]
    else
      var c := Longest(cs, dict, w, k - 1);
      if dict[k - 1] <= w && |dict[k - 1]| > |Meaning(cs, dict[..k - 1], c)| then ClearCode(cs) + 2 + (k - 1) else c
  }

  lemma {:induction false} LongestIs(cs: nat, dict: seq<Str>, w: seq<byte>, k: nat, c: nat)
    requires w != [] && w[0] < ClearCode(cs) && k <= |dict| && Known(cs, dict[..k], c) && Meaning(cs, dict[..k], c) <= w
    ensures |Meaning(cs, dict[..k], c)| <= |Meaning(cs, dict[..k], Longest(cs, dict, w, k))|
    decreases k
  {
    hide ClearCode;
    if k > 0 && c != ClearCode(cs) + 2 + (k - 1) {
      LongestIs(cs, dict, w, k - 1, c);
    }
  }

  /** The encoder GIF writers use: always the longest string known, and a clear when the table has reached its limit. */
  function Greedy(cs: nat, limit: nat, dict: seq<Str>, last: seq<byte>, w: seq<byte>): seq<nat>
    requires ClearCode(cs) + 2 <= limit && forall i :: 0 <= i < |w| ==> w[i] < ClearCode(cs)
    requires last == [] ==> dict == []
    decreases |w|, |last|
  {
    if w == [] then [ClearCode(cs) + 1]
    else
      var dict' := Extended(dict, last, w);
      if ClearCode(cs) + 2 + |dict'| > limit then [ClearCode(cs)] + Greedy(cs, limit, [], [], w)
      else
        var c := Match(cs, dict', w);
        [c] + Greedy(cs, limit, dict', Meaning(cs, dict', c), w[|Meaning(cs, dict', c)|..])
  }

  /** The code for the longest string that comes next. */
  function Match(cs: nat, dict: seq<Str>, w: seq<byte>): (c: nat)
    requires w != [] && w[0] < ClearCode(cs)
    ensures Known(cs, dict, c) && Meaning(cs, dict, c) <= w
  {
    assert dict[..|dict|] == dict;
    Longest(cs, dict, w, |dict|)
  }

  lemma {:induction false} MatchIsLongest(cs: nat, dict: seq<Str>, w: seq<byte>, c: nat)
    requires w != [] && w[0] < ClearCode(cs) && Known(cs, dict, c) && Meaning(cs, dict, c) <= w
    ensures |Meaning(cs, dict, c)| <= |Meaning(cs, dict, Match(cs, dict, w))|
  {
    assert dict[..|dict|] == dict;
    LongestIs(cs, dict, w, |dict|, c);
  }

  lemma {:induction false} GreedyEncodes(cs: nat, limit: nat, dict: seq<Str>, last: seq<byte>, w: seq<byte>)
    requires ClearCode(cs) + 2 <= limit <= TABLE_SIZE && forall i :: 0 <= i < |w| ==> w[i] < ClearCode(cs)
    requires last == [] ==> dict == []
    ensures Encodes(cs, dict, last, Greedy(cs, limit, dict, last, w), w)
    decreases |w|, |last|
  {
    hide Match, ClearCode, Meaning;
    if w == [] {
      EndOnly(cs, dict, last);
    } else {
      var dict' := Extended(dict, last, w);
      if ClearCode(cs) + 2 + |dict'| > limit {
        GreedyEncodes(cs, limit, [], [], w);
        ClearFirst(cs, dict, last, Greedy(cs, limit, [], [], w), w);
      } else {
        var c := Match(cs, dict', w);
        var str := Meaning(cs, dict', c);
        GreedyEncodes(cs, limit, dict', str, w[|str|..]);
        CodeFirst(cs, dict, last, c, Greedy(cs, limit, dict', str, w[|str|..]), w);
      }
    }
  }

  lemma {:induction false} EndOnly(cs: nat, dict: seq<Str>, last: seq<byte>)
    ensures Encodes(cs, dict, last, [ClearCode(cs) + 1], [])
  {
  }

  lemma {:induction false} ClearFirst(cs: nat, dict: seq<Str>, last: seq<byte>, rest: seq<nat>, w: seq<byte>)
    requires Encodes(cs, [], [], rest, w)
    ensures Encodes(cs, dict, last, [ClearCode(cs)] + rest, w)
  {
    assert ([ClearCode(cs)] + rest)[1..] == rest;
  }

  lemma {:induction false} CodeFirst(cs: nat, dict: seq<Str>, last: seq<byte>, c: nat, rest: seq<nat>, w: seq<byte>)
    requires w != [] && Known(cs, Extended(dict, last, w), c) && ClearCode(cs) + 2 + |Extended(dict, last, w)| <= TABLE_SIZE
    requires var str := Meaning(cs, Extended(dict, last, w), c);
      str <= w && Encodes(cs, Extended(dict, last, w), str, rest, w[|str|..])
    ensures Encodes(cs, dict, last, [c] + rest, w)
  {
    hide ClearCode, Meaning;
    assert ([c] + rest)[1..] == rest;
  }

  // ------------------------------------------------------------------
  // One stream
  // ------------------------------------------------------------------

  /** Clear, a symbol, two strings that are not in the table yet, and the end in a code of one bit more: six ones. */
  lemma {:induction false} SixOnes()
    ensures Decode(2, Fresh(2), 0x5F8C, 16) == Outcome(true, [1, 1, 1, 1, 1, 1])
  {
    hide Decode, DecodeOne, Low, Shr;
    var a := Coder([], [1], true, 3);
    var b := Coder([[1, 1]], [1, 1], true, 3);
    var c := Coder([[1, 1], [1, 1, 1]], [1, 1, 1], true, 4);
    FirstCodes();
    LastCodes();
    SixSteps(a, b, c);
    DecodeStep(2, Coder([], [], true, 3), 0x5F8C, 16);
    DecodeStep(2, Coder([], [], true, 3), 0xBF1, 13);
    DecodeStep(2, a, 0x17E, 10);
    DecodeStep(2, b, 0x2F, 7);
    DecodeStep(2, c, 5, 4);
    assert [] + ([1] + ([1, 1] + ([1, 1, 1] + []))) == [1, 1, 1, 1, 1, 1];
  }

  lemma {:induction false} SixSteps(a: Coder, b: Coder, c: Coder)
    requires a == Coder([], [1], true, 3) && b == Coder([[1, 1]], [1, 1], true, 3)
    requires c == Coder([[1, 1], [1, 1, 1]], [1, 1, 1], true, 4)
    ensures DecodeOne(2, Coder([], [], true, 3), 4) == More(Coder([], [], true, 3), [])
    ensures DecodeOne(2, Coder([], [], true, 3), 1) == More(a, [1]) && DecodeOne(2, a, 6) == More(b, [1, 1])
    ensures DecodeOne(2, b, 7) == More(c, [1, 1, 1]) && DecodeOne(2, c, 5) == End
  {
    hide Low, DecodeOne;
    SixWidths();
    PlainSteps(a, c);
    NewString(a, [1, 1]);
    NewString(b, [1, 1, 1]);
    assert [] + [[1, 1]] == [[1, 1]];
    assert [[1, 1]] + [[1, 1, 1]] == [[1, 1], [1, 1, 1]];
  }

  lemma {:induction false} PlainSteps(a: Coder, c: Coder)
    requires a == Coder([], [1], true, 3) && |c.dict| == 2
    ensures DecodeOne(2, Coder([], [], true, 3), 4) == More(Coder([], [], true, 3), [])
    ensures DecodeOne(2, Coder([], [], true, 3), 1) == More(a, [1]) && DecodeOne(2, c, 5) == End
  {
    hide Low;
    SixWidths();
  }

  /** The code of the entry that is about to be made. */
  lemma {:induction false} NewString(st: Coder, str: seq<byte>)
    requires st.started && st.last != [] && |st.dict| < 10 && str == st.last + [st.last[0]]
    ensures DecodeOne(2, st, 6 + |st.dict|) == More(Coder(st.dict + [str], str, true, Grow(st.width, 7 + |st.dict|)), str)
  {
    hide Low, Grow;
    SixWidths();
  }

  lemma {:induction false} SixWidths()
    ensures Pow2(2) == 4 && Low(6, 3) != 0 && Low(7, 3) != 0 && Low(8, 3) == 0
  {
  }

  lemma {:induction false} FirstCodes()
    ensures Low(0x5F8C, 3) == 4 && Shr(0x5F8C, 3) == 0xBF1 && Low(0xBF1, 3) == 1 && Shr(0xBF1, 3) == 0x17E
  {
  }

  lemma {:induction false} LastCodes()
    ensures Low(0x17E, 3) == 6 && Shr(0x17E, 3) == 0x2F
    ensures Low(0x2F, 3) == 7 && Shr(0x2F, 3) == 5 && Low(5, 4) == 5
  {
    EndCodes();
  }

  lemma {:induction false} EndCodes()
    ensures Low(0x2F, 3) == 7 && Shr(0x2F, 3) == 5 && Low(5, 4) == 5
  {
  }
}
