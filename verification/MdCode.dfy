/**
  How the text of a code block comes out.  Its line breaks are owed until more
  text follows, so that the last one is dropped; a NUL, which the parser reports
  by a callback of its own, does not ask for them.
*/
module MdCode {
  import opened Rtf
  import opened MdRtf
  import opened MdDoc

  /** The effect of a single unit. */
  function CodeUnit(d: Doc, u: Unit): Doc {
    if u == 10 then d.(codeNl := d.codeNl + 1) else Write(Flushed(OpenPara(d)), [u])
  }

  function CodeUnits(d: Doc, s: Units): Doc {
    if s == [] then d else CodeUnit(CodeUnits(d, s[..|s| - 1]), s[|s| - 1])
  }

  lemma {:induction false} CodeUnitsAppend(d: Doc, s: Units, t: Units)
    ensures CodeUnits(d, s + t) == CodeUnits(CodeUnits(d, s), t)
    decreases |t|
  {
    hide CodeUnit;
    if t == [] {
      assert s + t == s;
    } else {
      var n := |t| - 1;
      CodeUnitsAppend(d, s, t[..n]);
      assert (s + t)[..|s + t| - 1] == s + t[..n];
    }
  }

  lemma {:induction false} WriteMore(d: Doc, s: Units, u: Unit)
    requires d.para && d.codeNl == 0
    ensures Write(Flushed(OpenPara(Write(d, s))), [u]) == Write(d, s + [u])
  {
    var e := Write(d, s);
    assert e.text + Lines(0) == e.text;
    assert Flushed(e) == e;
    assert ShownAll(s + [u]) == ShownAll(s) + ShownAll([u]);
  }

  lemma {:induction false} Opened(d: Doc)
    ensures OpenPara(d).para && OpenPara(d).codeNl == d.codeNl && OpenPara(d).code == d.code
    ensures OpenPara(d).heading == d.heading
  {
    hide PutMarker, PutFootnote;
    var b := StartHeading(OwePar(d));
    FootnoteFields(b);
    MarkerFields(PutFootnote(b));
  }

  lemma {:induction false} FootnoteFields(d: Doc)
    ensures var e := PutFootnote(d); e.para == d.para && e.codeNl == d.codeNl && e.code == d.code && e.heading == d.heading
  {
  }

  lemma {:induction false} MarkerFields(d: Doc)
    ensures var e := PutMarker(d); e.para == d.para && e.codeNl == d.codeNl && e.code == d.code && e.heading == d.heading
  {
  }

  /** A line at once is its units one by one. */
  lemma {:induction false} RunIsUnits(d: Doc, run: Units)
    requires forall i :: 0 <= i < |run| ==> run[i] != 10
    ensures CodeRun(d, run) == CodeUnits(d, run)
    decreases |run|
  {
    hide OpenPara, Flushed, Write;
    if run != [] {
      var n := |run| - 1;
      RunIsUnits(d, run[..n]);
      Opened(d);
      var e := Flushed(OpenPara(d));
      assert e.para && e.codeNl == 0 by { FlushedFields(OpenPara(d)); }
      if n == 0 {
        assert run[..n] == [] && run == [run[0]];
      } else {
        WriteMore(e, run[..n], run[n]);
        assert run[..n] + [run[n]] == run;
      }
    }
  }

  lemma {:induction false} FlushedFields(d: Doc)
    ensures Flushed(d).para == d.para && Flushed(d).codeNl == 0
  {
  }

  lemma {:induction false} LinesAreUnits(d: Doc, s: Units)
    ensures CodeLines(d, s) == CodeUnits(d, s)
    decreases |s|
  {
    hide CodeRun, CodeLines, CodeUnits;
    if s == [] {
      CodeLinesEnd(d, [], 0);
      NoUnits(d);
    } else {
      CodeLinesStep(d, s);
      var k := FirstBreak(s);
      RunIsUnits(d, s[..k]);
      if k == |s| {
        assert s[..k] == s;
      } else {
        var a := CodeUnits(d, s[..k]);
        LinesAreUnits(a.(codeNl := a.codeNl + 1), s[k + 1..]);
        BreakUnit(a);
        assert s == s[..k] + [10] + s[k + 1..];
        CodeUnitsAppend(d, s[..k], [10]);
        CodeUnitsAppend(d, s[..k] + [10], s[k + 1..]);
      }
    }
  }

  lemma {:induction false} NoUnits(d: Doc)
    ensures CodeUnits(d, []) == d
  {
  }

  lemma {:induction false} BreakUnit(d: Doc)
    ensures CodeUnits(d, [10]) == d.(codeNl := d.codeNl + 1)
  {
    assert [10][..0] == [];
    NoUnits(d);
  }

  /** Code without its trailing line breaks. */
  function Trimmed(s: Units): (t: Units)
    ensures t <= s && (t == [] || t[|t| - 1] != 10)
    ensures forall i :: |t| <= i < |s| ==> s[i] == 10
  {
    if s != [] && s[|s| - 1] == 10 then Trimmed(s[..|s| - 1]) else s
  }

  /** Code as shown: line breaks as such, everything else as itself. */
  function CodeShown(s: Units): Units {
    seq(|s|, i requires 0 <= i < |s| => if s[i] == 10 then LINE else Shown(s[i]))
  }

  /** The text a code block adds, in closed form. */
  lemma {:induction false} UnitsText(d: Doc, s: Units)
    requires d.codeNl == 0
    ensures var e := CodeUnits(d, s);
      var t := Trimmed(s);
      && e.codeNl == |s| - |t|
      && (t == [] ==> e == d.(codeNl := |s|))
      && (t != [] ==> e.para && e.text == OpenPara(d).text + CodeShown(t))
    decreases |s|
  {
    hide OpenPara, CodeShown, Lines, ShownAll;
    if s != [] {
      var n := |s| - 1;
      UnitsText(d, s[..n]);
      var e, t := CodeUnits(d, s[..n]), Trimmed(s[..n]);
      if s[n] != 10 {
        Opened(e);
        UnitText(OpenPara(d).text, t, s);
        if t != [] {
          OpenAgain(e);
        } else {
          OpenBreaks(d, n);
          NothingShown(OpenPara(d).text);
        }
      }
    }
  }

  /** e is d opened, with more text and more breaks owed. */
  predicate Fuller(d: Doc, e: Doc) {
    e.para && e == OpenPara(d).(text := e.text, codeNl := e.codeNl, headText := e.headText) &&
    (!d.heading ==> e.headText == OpenPara(d).headText)
  }

  /** A code block touches no other field. */
  lemma {:induction false} UnitsFields(d: Doc, s: Units)
    ensures var e := CodeUnits(d, s); e == d.(codeNl := e.codeNl) || Fuller(d, e)
    decreases |s|
  {
    hide CodeUnit, Fuller;
    if s != [] {
      UnitsFields(d, s[..|s| - 1]);
      UnitFields(d, CodeUnits(d, s[..|s| - 1]), s[|s| - 1]);
    }
  }

  lemma {:induction false} UnitFields(d: Doc, e: Doc, u: Unit)
    requires e == d.(codeNl := e.codeNl) || Fuller(d, e)
    ensures var f := CodeUnit(e, u); f == d.(codeNl := f.codeNl) || Fuller(d, f)
  {
    hide OpenPara, Lines, ShownAll;
    Opened(e);
    Opened(d);
    if u == 10 {
      BreakUnit(e);
      if e != d.(codeNl := e.codeNl) {
        assert Fuller(d, e.(codeNl := e.codeNl + 1));
      }
    } else if e == d.(codeNl := e.codeNl) {
      OpenBreaks(d, e.codeNl);
    } else {
      OpenAgain(e);
    }
  }

  lemma {:induction false} NothingShown(before: Units)
    ensures before + CodeShown([]) == before
  {
  }

  lemma {:induction false} OpenAgain(d: Doc)
    requires d.para
    ensures OpenPara(d) == d
  {
  }

  lemma {:induction false} OpenBreaks(d: Doc, n: nat)
    ensures OpenPara(d.(codeNl := n)) == OpenPara(d).(codeNl := n)
  {
    hide PutMarker, PutFootnote;
    var b := StartHeading(OwePar(d));
    FootnoteBreaks(b, n);
    MarkerBreaks(PutFootnote(b), n);
  }

  lemma {:induction false} FootnoteBreaks(d: Doc, n: nat)
    ensures PutFootnote(d.(codeNl := n)) == PutFootnote(d).(codeNl := n)
  {
    hide Bracketed, Wide, ShownAll;
  }

  lemma {:induction false} MarkerBreaks(d: Doc, n: nat)
    ensures PutMarker(d.(codeNl := n)) == PutMarker(d).(codeNl := n)
  {
    hide Write, Mark, Unmarked;
    if d.marker != [] {
      var e := Unmarked(d);
      UnmarkedBreaks(d, n);
      WriteBreaks(e, d.marker, n);
      MarkBreaks(Write(e, d.marker), n);
      assert d.(codeNl := n).marker == d.marker;
    }
  }

  lemma {:induction false} UnmarkedBreaks(d: Doc, n: nat)
    ensures Unmarked(d.(codeNl := n)) == Unmarked(d).(codeNl := n)
  {
  }

  lemma {:induction false} MarkBreaks(d: Doc, n: nat)
    ensures Mark(d.(codeNl := n), TAB) == Mark(d, TAB).(codeNl := n)
  {
  }

  lemma {:induction false} WriteBreaks(d: Doc, s: Units, n: nat)
    ensures Write(d.(codeNl := n), s) == Write(d, s).(codeNl := n)
  {
    hide ShownAll;
  }

  lemma {:induction false} UnitText(before: Units, t: Units, s: Units)
    requires s != [] && t <= s[..|s| - 1] && s[|s| - 1] != 10
    requires forall i :: |t| <= i < |s| - 1 ==> s[i] == 10
    ensures before + CodeShown(t) + Lines(|s| - 1 - |t|) + ShownAll([s[|s| - 1]]) == before + CodeShown(s)
  {
    assert CodeShown(t) + Lines(|s| - 1 - |t|) + ShownAll([s[|s| - 1]]) == CodeShown(s);
  }

  // ------------------------------------------------------------------
  // Callbacks of a code block
  // ------------------------------------------------------------------

  /** The parser sends code in any number of pieces, and a callback of its own for each NUL. */
  datatype Piece = CodePiece(units: Units) | NulPiece

  /** One unit of code, or a NUL, which stands for U+FFFD. */
  datatype Item = Char(u: Unit) | Nul

  function PieceItems(p: Piece): seq<Item> {
    if p.NulPiece? then [Nul] else seq(|p.units|, i requires 0 <= i < |p.units| => Char(p.units[i]))
  }

  function Items(pieces: seq<Piece>): seq<Item> {
    if pieces == [] then [] else Items(pieces[..|pieces| - 1]) + PieceItems(pieces[|pieces| - 1])
  }

  function PieceCallback(p: Piece): Callback {
    if p.NulPiece? then Text(NullChar) else Text(CodeText(p.units))
  }

  function Callbacks(pieces: seq<Piece>): seq<Callback> {
    seq(|pieces|, i requires 0 <= i < |pieces| => PieceCallback(pieces[i]))
  }

  function UnitOf(it: Item): Unit {
    if it.Nul? then 0xfffd else it.u
  }

  /** The content of the block. */
  function Content(items: seq<Item>): (c: Units)
    ensures |c| == |items|
  {
    seq(|items|, i requires 0 <= i < |items| => UnitOf(items[i]))
  }

  /** No NUL comes directly after a line break. */
  predicate InOrder(items: seq<Item>) {
    forall i :: 0 < i < |items| && items[i].Nul? ==> items[i - 1] != Char(10)
  }

  /** A NUL is written without the line breaks owed. */
  function CodeItem(d: Doc, it: Item): Doc {
    if it.Nul? then Write(OpenPara(d), [0xfffd]) else CodeUnit(d, it.u)
  }

  function CodeItems(d: Doc, items: seq<Item>): Doc {
    if items == [] then d else CodeItem(CodeItems(d, items[..|items| - 1]), items[|items| - 1])
  }

  lemma {:induction false} CodeItemsAppend(d: Doc, s: seq<Item>, t: seq<Item>)
    ensures CodeItems(d, s + t) == CodeItems(CodeItems(d, s), t)
    decreases |t|
  {
    hide CodeItem;
    if t == [] {
      assert s + t == s;
    } else {
      var n := |t| - 1;
      CodeItemsAppend(d, s, t[..n]);
      assert (s + t)[..|s + t| - 1] == s + t[..n];
    }
  }

  lemma {:induction false} NoItems(d: Doc)
    ensures CodeItems(d, []) == d
  {
  }

  lemma {:induction false} OneItem(d: Doc, it: Item)
    ensures CodeItems(d, [it]) == CodeItem(d, it)
  {
    hide CodeItem;
    assert [it][..0] == [];
    NoItems(d);
  }

  lemma {:induction false} UnitsAreItems(d: Doc, s: Units)
    ensures CodeItems(d, PieceItems(CodePiece(s))) == CodeUnits(d, s)
    decreases |s|
  {
    hide CodeUnit, OpenPara, Write;
    if s != [] {
      var n := |s| - 1;
      UnitsAreItems(d, s[..n]);
      var items := PieceItems(CodePiece(s));
      assert items[..n] == PieceItems(CodePiece(s[..n])) && items[n] == Char(s[n]);
    }
  }

  lemma {:induction false} ItemsKeepCode(d: Doc, items: seq<Item>)
    ensures CodeItems(d, items).code == d.code
    decreases |items|
  {
    hide CodeItem;
    if items != [] {
      ItemsKeepCode(d, items[..|items| - 1]);
      ItemKeepsCode(CodeItems(d, items[..|items| - 1]), items[|items| - 1]);
    }
  }

  lemma {:induction false} ItemKeepsCode(d: Doc, it: Item)
    ensures CodeItem(d, it).code == d.code
  {
    hide OpenPara, Lines, ShownAll;
    Opened(d);
  }

  lemma {:induction false} PieceStep(loc: Locale, e: Doc, p: Piece)
    requires e.code
    ensures Step(loc, e, PieceCallback(p)) == CodeItems(e, PieceItems(p))
  {
    hide CodeUnits, CodeLines, CodeItems, OpenPara, Write;
    if p.NulPiece? {
      OneItem(e, Nul);
    } else {
      LinesAreUnits(e, p.units);
      UnitsAreItems(e, p.units);
    }
  }

  /** What a code block leads to depends on its units and NULs, not on how they are split across callbacks. */
  lemma {:induction false} SplitFree(loc: Locale, d: Doc, pieces: seq<Piece>)
    requires d.code
    ensures Steps(loc, d, Callbacks(pieces)) == CodeItems(d, Items(pieces))
    decreases |pieces|
  {
    hide CodeItems, PieceItems, Step, PieceCallback;
    if pieces == [] {
      NoItems(d);
    } else {
      var n := |pieces| - 1;
      SplitFree(loc, d, pieces[..n]);
      assert Callbacks(pieces)[..n] == Callbacks(pieces[..n]);
      var e := CodeItems(d, Items(pieces[..n]));
      ItemsKeepCode(d, Items(pieces[..n]));
      CodeItemsAppend(d, Items(pieces[..n]), PieceItems(pieces[n]));
      PieceStep(loc, e, pieces[n]);
    }
  }

  // ------------------------------------------------------------------
  // What the block shows
  // ------------------------------------------------------------------

  lemma {:induction false} NothingOwed(d: Doc)
    requires d.codeNl == 0
    ensures Flushed(OpenPara(d)) == OpenPara(d)
  {
    hide OpenPara;
    Opened(d);
    assert OpenPara(d).text + Lines(0) == OpenPara(d).text;
  }

  lemma {:induction false} ItemIsUnit(e: Doc, it: Item)
    requires it.Nul? ==> e.codeNl == 0
    ensures CodeItem(e, it) == CodeUnit(e, UnitOf(it))
  {
    hide OpenPara, Write, Flushed;
    if it.Nul? { NothingOwed(e); }
  }

  /** While every NUL comes in order, the items are the units of the content. */
  lemma {:induction false} InOrderItems(d: Doc, items: seq<Item>)
    requires d.codeNl == 0 && InOrder(items)
    ensures CodeItems(d, items) == CodeUnits(d, Content(items))
    decreases |items|
  {
    hide CodeItem, CodeUnit, UnitOf;
    if items != [] {
      var n := |items| - 1;
      InOrderItems(d, items[..n]);
      assert Content(items)[..n] == Content(items[..n]);
      if items[n].Nul? { NoBreakOwed(d, items[..n]); }
      ItemIsUnit(CodeItems(d, items[..n]), items[n]);
    }
  }

  /** After something other than a line break, none is owed. */
  lemma {:induction false} NoBreakOwed(d: Doc, items: seq<Item>)
    requires d.codeNl == 0 && (items != [] ==> items[|items| - 1] != Char(10))
    ensures CodeUnits(d, Content(items)).codeNl == 0
  {
    hide CodeUnits, OpenPara, CodeShown;
    UnitsText(d, Content(items));
  }

  /** The text a block with this content is to leave. */
  function Wanted(d: Doc, content: Units): Units {
    var t := Trimmed(content);
    if t == [] then d.text else OpenPara(d).text + CodeShown(t)
  }

  lemma {:induction false} ItemGrows(d: Doc, it: Item)
    ensures Grows(d, CodeItem(d, it))
  {
    hide Grows, OpenPara, Write, Flushed;
    if it.Nul? {
      OpenWriteGrows(d, [0xfffd]);
    } else if it.u == 10 {
      OnlyBreak(d, CodeItem(d, it));
    } else {
      CodeRunGrows(d, [it.u]);
    }
  }

  lemma {:induction false} ItemsGrow(d: Doc, items: seq<Item>)
    ensures d.text <= CodeItems(d, items).text
    decreases |items|
  {
    hide CodeItem;
    if items != [] {
      var n := |items| - 1;
      ItemsGrow(d, items[..n]);
      ItemGrows(CodeItems(d, items[..n]), items[n]);
    }
  }

  /** The first NUL out of order takes the place of a line break, and what is written stays. */
  lemma {:induction false} MisplacedNul(d: Doc, items: seq<Item>, i: nat)
    requires d.codeNl == 0 && 0 < i < |items| && InOrder(items[..i]) && items[i].Nul? && items[i - 1] == Char(10)
    ensures CodeItems(d, items).text != Wanted(d, Content(items))
  {
    hide CodeItems, CodeUnits, OpenPara, CodeShown, InOrder, CodeItem, Wanted, Trimmed, Content;
    var c := Content(items[..i]);
    InOrderItems(d, items[..i]);
    NulText(d, CodeItems(d, items[..i]), c);
    NulStays(d, items, i);
    ContentCut(items, i);
    LineWanted(Content(items), c, i);
    WantedLine(d, Content(items), |Trimmed(c)|);
    assert CodeItems(d, items).text[|OpenPara(d).text| + |Trimmed(c)|] == 0xfffd;
  }

  lemma {:induction false} ContentCut(items: seq<Item>, i: nat)
    requires 0 < i < |items| && items[i].Nul? && items[i - 1] == Char(10)
    ensures Content(items[..i]) == Content(items)[..i] && Content(items)[i] != 10 && |Trimmed(Content(items[..i]))| < i
  {
    assert Content(items)[..i] == Content(items[..i]);
    assert Content(items[..i])[i - 1] == 10;
  }

  /** What is there after item i stays there. */
  lemma {:induction false} NulStays(d: Doc, items: seq<Item>, i: nat)
    requires i < |items|
    ensures CodeItem(CodeItems(d, items[..i]), items[i]).text <= CodeItems(d, items).text
  {
    hide CodeItems, CodeItem;
    assert items == items[..i] + [items[i]] + items[i + 1..];
    CodeItemsAppend(d, items[..i] + [items[i]], items[i + 1..]);
    CodeItemsAppend(d, items[..i], [items[i]]);
    OneItem(CodeItems(d, items[..i]), items[i]);
    ItemsGrow(CodeItem(CodeItems(d, items[..i]), items[i]), items[i + 1..]);
  }

  lemma {:induction false} WantedLine(d: Doc, whole: Units, k: nat)
    requires k < |Trimmed(whole)| == |CodeShown(Trimmed(whole))| && CodeShown(Trimmed(whole))[k] == LINE
    ensures |OpenPara(d).text| + k < |Wanted(d, whole)| && Wanted(d, whole)[|OpenPara(d).text| + k] == LINE
  {
    hide OpenPara, CodeShown, Trimmed;
  }

  lemma {:induction false} NulText(d: Doc, e: Doc, c: Units)
    requires d.codeNl == 0 && e == CodeUnits(d, c)
    ensures CodeItem(e, Nul).text == OpenPara(d).text + CodeShown(Trimmed(c)) + [0xfffd]
  {
    hide CodeUnits, OpenPara, CodeShown;
    UnitsText(d, c);
    if Trimmed(c) == [] {
      OpenBreaks(d, |c|);
      NothingShown(OpenPara(d).text);
    } else {
      OpenAgain(e);
    }
    assert ShownAll([0xfffd]) == [0xfffd];
  }

  lemma {:induction false} LineWanted(whole: Units, c: Units, i: nat)
    requires i < |whole| && c == whole[..i] && whole[i] != 10 && |Trimmed(c)| < i
    ensures |Trimmed(c)| < |Trimmed(whole)| && |CodeShown(Trimmed(whole))| == |Trimmed(whole)|
    ensures CodeShown(Trimmed(whole))[|Trimmed(c)|] == LINE && |CodeShown(Trimmed(c))| == |Trimmed(c)|
  {
    var k := |Trimmed(c)|;
    assert c[k] == 10;
    assert whole[k] == 10;
    assert Trimmed(whole)[k] == whole[k];
  }

  lemma {:induction false} FirstMisplaced(items: seq<Item>) returns (i: nat)
    requires !InOrder(items)
    ensures 0 < i < |items| && InOrder(items[..i]) && items[i].Nul? && items[i - 1] == Char(10)
    decreases |items|
  {
    var n := |items| - 1;
    if InOrder(items[..n]) {
      i := n;
    } else {
      i := FirstMisplaced(items[..n]);
      assert items[..n][..i] == items[..i];
    }
  }

  /**
    A whole code block shows its content without trailing line breaks, in one paragraph, and nothing if it has only
    those, exactly when no NUL comes directly after a line break.
  */
  lemma {:induction false} CodeBlockText(loc: Locale, d: Doc, pieces: seq<Piece>)
    ensures var a := Step(loc, d, EnterBlock(CodeBlock));
      var b := Step(loc, Steps(loc, a, Callbacks(pieces)), LeaveBlock(CodeBlock));
      b.text == Wanted(a, Content(Items(pieces))) <==> InOrder(Items(pieces))
  {
    hide OpenPara, CodeUnits, CodeItems, Steps, Items, InOrder, Wanted;
    var a := Step(loc, d, EnterBlock(CodeBlock));
    var items := Items(pieces);
    SplitFree(loc, a, pieces);
    if InOrder(items) {
      InOrderItems(a, items);
      ShownAsWanted(a, Content(items));
    } else {
      var i := FirstMisplaced(items);
      MisplacedNul(a, items, i);
    }
  }

  lemma {:induction false} ShownAsWanted(d: Doc, c: Units)
    requires d.codeNl == 0
    ensures CodeUnits(d, c).text == Wanted(d, c)
  {
    hide CodeUnits, OpenPara, CodeShown;
    UnitsText(d, c);
  }

  const MISPLACED: seq<Piece> :=
    [CodePiece([0x61]), CodePiece([10]), NulPiece, CodePiece([0x62]), CodePiece([10])]

  const MISPLACED_ITEMS: seq<Item> := [Char(0x61), Char(10), Nul, Char(0x62), Char(10)]

  lemma {:induction false} MisplacedItems()
    ensures Items(MISPLACED) == MISPLACED_ITEMS
  {
    hide PieceItems;
    var p := MISPLACED;
    CharItem(0x61);
    CharItem(10);
    CharItem(0x62);
    assert PieceItems(NulPiece) == [Nul] by { NulItems(); }
    assert p[..5] == p && p[..4][..3] == p[..3] && p[..3][..2] == p[..2] && p[..2][..1] == p[..1] && p[..1][..0] == [];
    assert Items(p[..1]) == [Char(0x61)];
    assert Items(p[..2]) == [Char(0x61), Char(10)];
    assert Items(p[..3]) == [Char(0x61), Char(10), Nul];
    assert Items(p[..4]) == [Char(0x61), Char(10), Nul, Char(0x62)];
  }

  lemma {:induction false} CharItem(u: Unit)
    ensures PieceItems(CodePiece([u])) == [Char(u)]
  {
  }

  lemma {:induction false} NulItems()
    ensures PieceItems(NulPiece) == [Nul]
  {
  }

  /** A paragraph already open, in which so many line breaks are owed and nothing else is waiting. */
  predicate Written(d: Doc, text: Units, owed: nat) {
    d.para && d.code && d.text == text && d.codeNl == owed
  }

  lemma {:induction false} WrittenStep(d: Doc, text: Units, owed: nat, it: Item)
    requires Written(d, text, owed)
    ensures var e := CodeItem(d, it);
      if it.Nul? then Written(e, text + [0xfffd], owed)
      else if it.u == 10 then Written(e, text, owed + 1)
      else Written(e, text + Lines(owed) + [Shown(it.u)], 0)
  {
    hide OpenPara;
    OpenAgain(d);
    assert ShownAll([0xfffd]) == [0xfffd];
    if it.Char? { assert ShownAll([it.u]) == [Shown(it.u)]; }
  }

  /** The first character opens the paragraph of an empty document. */
  lemma {:induction false} FirstStep(d: Doc, u: Unit)
    requires d == EMPTY.(code := true) && u != 10
    ensures Written(CodeItem(d, Char(u)), [Shown(u)], 0)
  {
    assert OpenPara(d) == d.(para := true);
    assert ShownAll([u]) == [Shown(u)];
    assert Lines(0) == [];
  }

  /** Lines "a" and NUL "b": the NUL ends up on the line of "a". */
  lemma {:induction false} MisplacedExample(loc: Locale)
    ensures var a := Step(loc, EMPTY, EnterBlock(CodeBlock));
      var b := Step(loc, Steps(loc, a, Callbacks(MISPLACED)), LeaveBlock(CodeBlock));
      b.text == [0x61, 0xfffd, LINE, 0x62] && Content(Items(MISPLACED)) == [0x61, 10, 0xfffd, 0x62, 10]
  {
    hide Steps, Items, CodeItem, Written;
    var a := Step(loc, EMPTY, EnterBlock(CodeBlock));
    SplitFree(loc, a, MISPLACED);
    MisplacedItems();
    MisplacedText(a);
  }

  lemma {:induction false} MisplacedText(a: Doc)
    requires a == EMPTY.(code := true)
    ensures CodeItems(a, MISPLACED_ITEMS).text == [0x61, 0xfffd, LINE, 0x62]
  {
    hide CodeItem, EMPTY;
    var p := MISPLACED_ITEMS;
    assert p[..5] == p && p[..4][..3] == p[..3] && p[..3][..2] == p[..2] && p[..2][..1] == p[..1] && p[..1][..0] == [];
    FirstStep(a, 0x61);
    NoItems(a);
    assert CodeItems(a, p[..1]) == CodeItem(a, p[0]);
    WrittenStep(CodeItems(a, p[..1]), [0x61], 0, p[1]);
    WrittenStep(CodeItems(a, p[..2]), [0x61], 1, p[2]);
    assert [0x61] + [0xfffd] == [0x61, 0xfffd];
    WrittenStep(CodeItems(a, p[..3]), [0x61, 0xfffd], 1, p[3]);
    assert Lines(1) == [LINE];
    assert [0x61, 0xfffd] + Lines(1) + [0x62] == [0x61, 0xfffd, LINE, 0x62];
    WrittenStep(CodeItems(a, p[..4]), [0x61, 0xfffd, LINE, 0x62], 0, p[4]);
  }
}
