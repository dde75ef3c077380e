/**
  What the renderer's documents promise, for every sequence of callbacks: where
  links and anchors lie, and what a link covers.
*/
module MdDoc {
  import opened Rtf
  import opened MdRtf

  // ------------------------------------------------------------------
  // Links and anchors
  // ------------------------------------------------------------------

  /** Link ranges are non-empty, in order, disjoint and inside the document; anchors and open links are inside it too. */
  ghost predicate Placed(d: Doc) {
    && (forall i :: 0 <= i < |d.links| ==>
          d.links[i].from < d.links[i].upto <= |d.text| && d.links[i].target != [])
    && (forall i, j :: 0 <= i < j < |d.links| ==> d.links[i].upto <= d.links[j].from)
    && (d.inLink ==> d.linkAt <= |d.text| && forall i :: 0 <= i < |d.links| ==> d.links[i].upto <= d.linkAt)
    && (forall i :: 0 <= i < |d.anchors| ==> d.anchors[i].at <= |d.text|)
    && d.headAt <= |d.text|
  }

  /** e has at least d's text, the same links, and no anchor outside it that d had inside. */
  ghost predicate Grows(d: Doc, e: Doc) {
    && d.text <= e.text && e.links == d.links
    && e.inLink == d.inLink && e.linkAt == d.linkAt && e.linkTarget == d.linkTarget
    && d.anchors <= e.anchors
    && (forall i :: |d.anchors| <= i < |e.anchors| ==> e.anchors[i].at <= |e.text|)
    && (d.headAt <= |d.text| ==> e.headAt <= |e.text|)
  }

  lemma {:induction false} GrowsTwice(d: Doc, e: Doc, f: Doc)
    requires Grows(d, e) && Grows(e, f)
    ensures Grows(d, f)
  {
    forall i | |d.anchors| <= i < |f.anchors| ensures f.anchors[i].at <= |f.text| {
      if i < |e.anchors| { assert f.anchors[i] == e.anchors[i]; }
    }
  }

  lemma {:induction false} GrowsPlaced(d: Doc, e: Doc)
    requires Placed(d) && Grows(d, e)
    ensures Placed(e)
  {
    forall i | 0 <= i < |e.anchors| ensures e.anchors[i].at <= |e.text| {
      if i < |d.anchors| { assert e.anchors[i] == d.anchors[i]; }
    }
  }

  lemma {:induction false} SmallGrow(d: Doc, s: Units, u: Unit)
    ensures Grows(d, d) && Grows(d, Write(d, s)) && Grows(d, Mark(d, u)) && Grows(d, ClosePara(d)) && Grows(d, Flushed(d))
  {
  }

  lemma {:induction false} OpenGrows(d: Doc)
    ensures Grows(d, OpenPara(d))
  {
    hide Grows, OwePar, PutFootnote, PutMarker, StartHeading;
    if d.para {
      SmallGrow(d, [], 0);
    } else {
      var a := OwePar(d);
      var b := StartHeading(a);
      var c := PutFootnote(b);
      PartsGrow(d);
      PartsGrow(a);
      PartsGrow(b);
      PartsGrow(c);
      GrowsTwice(d, a, b);
      GrowsTwice(d, b, c);
      GrowsTwice(d, c, PutMarker(c));
    }
  }

  lemma {:induction false} PartsGrow(d: Doc)
    ensures Grows(d, OwePar(d)) && Grows(d, StartHeading(d)) && Grows(d, PutMarker(d)) && Grows(d, PutFootnote(d))
  {
    hide Grows, OwePar, PutMarker, PutFootnote;
    OweGrows(d);
    SameText(d, StartHeading(d));
    MarkerGrows(d);
    FootnoteGrows(d);
  }

  lemma {:induction false} OweGrows(d: Doc)
    ensures Grows(d, OwePar(d))
  {
  }

  lemma {:induction false} MarkerGrows(d: Doc)
    ensures Grows(d, PutMarker(d))
  {
    hide ShownAll;
  }

  lemma {:induction false} FootnoteGrows(d: Doc)
    ensures Grows(d, PutFootnote(d))
  {
    hide ShownAll, Wide, Dec;
  }

  /** A change to other fields. */
  lemma {:induction false} SameText(d: Doc, e: Doc)
    requires e.text == d.text && e.links == d.links && e.anchors == d.anchors
    requires e.inLink == d.inLink && e.linkAt == d.linkAt && e.linkTarget == d.linkTarget
    requires e.headAt == d.headAt || e.headAt <= |e.text|
    ensures Grows(d, e)
  {
  }

  lemma {:induction false} RuleGrows(d: Doc)
    ensures Grows(d, Rule(d))
  {
    hide Grows, OpenPara, ClosePara, Mark;
    var a := ClosePara(d);
    var b := OpenPara(a);
    var c := Mark(b, TAB);
    SmallGrow(d, [], 0);
    OpenGrows(a);
    SmallGrow(b, [], TAB);
    SmallGrow(c, [], 0);
    GrowsTwice(d, a, b);
    GrowsTwice(d, b, c);
    GrowsTwice(d, c, ClosePara(c));
  }

  lemma {:induction false} OpenWriteGrows(d: Doc, s: Units)
    ensures Grows(d, Write(OpenPara(d), s))
  {
    hide Grows, OpenPara, Write;
    OpenGrows(d);
    SmallGrow(OpenPara(d), s, 0);
    GrowsTwice(d, OpenPara(d), Write(OpenPara(d), s));
  }

  lemma {:induction false} CodeRunGrows(d: Doc, run: Units)
    ensures Grows(d, CodeRun(d, run))
  {
    hide Grows, OpenPara, Write, Flushed;
    SmallGrow(d, [], 0);
    if run != [] {
      var a := OpenPara(d);
      var b := Flushed(a);
      OpenGrows(d);
      SmallGrow(a, [], 0);
      SmallGrow(b, run, 0);
      GrowsTwice(d, a, b);
      GrowsTwice(d, b, Write(b, run));
    }
  }

  lemma {:induction false} CodeGrows(d: Doc, s: Units)
    ensures Grows(d, CodeLines(d, s))
    decreases |s|
  {
    hide Grows, CodeRun, CodeLines;
    if s == [] {
      CodeLinesEnd(d, [], 0);
      SmallGrow(d, [], 0);
    } else {
      CodeLinesStep(d, s);
      var k := FirstBreak(s);
      var a := CodeRun(d, s[..k]);
      CodeRunGrows(d, s[..k]);
      if k < |s| {
        var b := a.(codeNl := a.codeNl + 1);
        CodeGrows(b, s[k + 1..]);
        OnlyBreak(a, b);
        GrowsTwice(d, a, b);
        GrowsTwice(d, b, CodeLines(b, s[k + 1..]));
      }
    }
  }

  lemma {:induction false} OnlyBreak(a: Doc, b: Doc)
    requires b == a.(codeNl := b.codeNl)
    ensures Grows(a, b)
  {
  }

  predicate LinkSpan(s: Span) {
    s.A? || s.Wikilink? || s.FootnoteRef?
  }

  /** A callback that neither opens nor closes a link. */
  predicate Inner(cb: Callback) {
    !(cb.EnterSpan? && LinkSpan(cb.s)) && !(cb.LeaveSpan? && LinkSpan(cb.s))
  }

  lemma {:induction false} EnterGrows(loc: Locale, d: Doc, b: Block)
    ensures Grows(d, Enter(loc, d, b))
  {
    hide OpenPara, Write, Rule, Cell, Capitalised, MarkerFor, ListsAfter, Grows;
    if b.Admonition? {
      TitleGrows(d, Capitalised(loc, b.title));
    } else if b.Th? || b.Td? {
      CellGrows(d);
    } else if b.Hr? || b.FootnoteSection? {
      RuleGrows(d);
    } else {
      SameText(d, Enter(loc, d, b));
    }
  }

  lemma {:induction false} TitleGrows(d: Doc, title: Units)
    ensures Grows(d, ClosePara(Write(OpenPara(ClosePara(d)), title)))
  {
    hide OpenPara, ClosePara, Write, Grows;
    var a := ClosePara(d);
    var c := Write(OpenPara(a), title);
    SmallGrow(d, [], 0);
    OpenWriteGrows(a, title);
    SmallGrow(c, [], 0);
    GrowsTwice(d, a, c);
    GrowsTwice(d, c, ClosePara(c));
  }

  lemma {:induction false} CellGrows(d: Doc)
    ensures Grows(d, Cell(d))
  {
    hide OpenPara, Grows;
    var a := OpenPara(d);
    var b := if a.cell > 0 then Mark(a, TAB) else a;
    OpenGrows(d);
    SmallGrow(a, [], TAB);
    SameText(b, Cell(d));
    GrowsTwice(d, a, b);
    GrowsTwice(d, b, Cell(d));
  }

  lemma {:induction false} LeaveGrows(loc: Locale, d: Doc, b: Block)
    requires d.headAt <= |d.text|
    ensures Grows(d, Leave(loc, d, b))
  {
    hide OpenPara;
    SmallGrow(d, [], 0);
    OpenGrows(d);
    var a := OpenPara(d);
    GrowsTwice(d, a, ClosePara(a));
  }

  lemma {:induction false} SayGrows(d: Doc, t: Run)
    ensures Grows(d, Say(d, t))
  {
    hide Grows, OpenPara, Write, Mark, CodeLines;
    SmallGrow(d, [0x20], LINE);
    match t
    case CodeText(s) =>
      CodeGrows(d, s);
      OpenWriteGrows(d, s);
    case NullChar => OpenWriteGrows(d, [0xfffd]);
    case Entity(s) => OpenWriteGrows(d, s);
    case Normal(s) => OpenWriteGrows(d, s);
    case _ =>
  }

  lemma {:induction false} InnerGrows(loc: Locale, d: Doc, cb: Callback)
    requires Inner(cb) && d.headAt <= |d.text|
    ensures Grows(d, Step(loc, d, cb))
  {
    hide Grows, Enter, Leave, Say, OpenPara, Write;
    match cb
    case EnterBlock(b) => EnterGrows(loc, d, b);
    case LeaveBlock(b) => LeaveGrows(loc, d, b);
    case Text(t) => SayGrows(d, t);
    case EnterSpan(s) =>
      OpenGrows(d);
      OpenWriteGrows(d, [0x5b]);
    case LeaveSpan(s) =>
      SmallGrow(d, [0x5d], 0);
  }

  /** Opening a link records where it starts. */
  lemma {:induction false} BeginPlaced(d: Doc, target: Units)
    requires Placed(d)
    ensures Placed(BeginLink(d, target))
  {
  }

  lemma {:induction false} EndPlaced(d: Doc)
    requires Placed(d)
    ensures Placed(EndLink(d))
  {
  }

  lemma {:induction false} StepPlaced(loc: Locale, d: Doc, cb: Callback)
    requires Placed(d)
    ensures Placed(Step(loc, d, cb))
  {
    hide Grows, Enter, Leave, Say, OpenPara, Placed, BeginLink, EndLink, ShownAll, Bracketed, Wide, Dec;
    assert d.headAt <= |d.text| by { HeadInside(d); }
    if Inner(cb) {
      InnerGrows(loc, d, cb);
      GrowsPlaced(d, Step(loc, d, cb));
    } else if cb.LeaveSpan? {
      EndPlaced(d);
    } else {
      OpenGrows(d);
      GrowsPlaced(d, OpenPara(d));
      var target := if cb.s.A? then cb.s.href else if cb.s.Wikilink? then cb.s.target else Wide("#fn:") + Wide(Dec(cb.s.ref));
      BeginPlaced(OpenPara(d), target);
      if cb.s.FootnoteRef? {
        MoreText(BeginLink(OpenPara(d), target), ShownAll(Bracketed(cb.s.ref)));
      }
    }
  }

  lemma {:induction false} HeadInside(d: Doc)
    requires Placed(d)
    ensures d.headAt <= |d.text|
  {
  }

  lemma {:induction false} MoreText(d: Doc, s: Units)
    requires Placed(d)
    ensures Placed(d.(text := d.text + s))
  {
  }

  /** Every document the renderer produces has its links and anchors in place. */
  lemma {:induction false} AlwaysPlaced(loc: Locale, cbs: seq<Callback>)
    ensures Placed(Steps(loc, EMPTY, cbs))
    decreases |cbs|
  {
    hide Step, Placed;
    if cbs == [] {
      assert Placed(EMPTY) by { EmptyPlaced(); }
    } else {
      AlwaysPlaced(loc, cbs[..|cbs| - 1]);
      StepPlaced(loc, Steps(loc, EMPTY, cbs[..|cbs| - 1]), cbs[|cbs| - 1]);
    }
  }

  lemma {:induction false} EmptyPlaced()
    ensures Placed(EMPTY)
  {
  }

  lemma {:induction false} InnersGrow(loc: Locale, d: Doc, cbs: seq<Callback>)
    requires d.headAt <= |d.text| && forall i :: 0 <= i < |cbs| ==> Inner(cbs[i])
    ensures Grows(d, Steps(loc, d, cbs)) && Steps(loc, d, cbs).headAt <= |Steps(loc, d, cbs).text|
    decreases |cbs|
  {
    hide Step;
    if cbs == [] {
      SmallGrow(d, [], 0);
    } else {
      var n := |cbs| - 1;
      InnersGrow(loc, d, cbs[..n]);
      var e := Steps(loc, d, cbs[..n]);
      InnerGrows(loc, e, cbs[n]);
      GrowsTwice(d, e, Step(loc, e, cbs[n]));
    }
  }

  /** A link covers exactly the text written between its callbacks, and is kept exactly when there is some and a target. */
  lemma {:induction false} LinkCovers(loc: Locale, d: Doc, href: Units, cbs: seq<Callback>)
    requires d.headAt <= |d.text| && forall i :: 0 <= i < |cbs| ==> Inner(cbs[i])
    ensures var a := Step(loc, d, EnterSpan(A(href)));
      var b := Steps(loc, a, cbs);
      var c := Step(loc, b, LeaveSpan(A(href)));
      && a.text <= b.text == c.text
      && c.links == if b.text != a.text && href != [] then d.links + [Link(|a.text|, |b.text|, href)] else d.links
  {
    hide OpenPara, Steps;
    OpenGrows(d);
    var a := Step(loc, d, EnterSpan(A(href)));
    InnersGrow(loc, a, cbs);
    var b := Steps(loc, a, cbs);
    if |a.text| == |b.text| { assert a.text == b.text; }
  }

  // ------------------------------------------------------------------
  // Paragraphs and lists
  // ------------------------------------------------------------------

  /** Between blocks: no paragraph is open and nothing waits for one but perhaps a break. */
  predicate Between(d: Doc) {
    !d.para && !d.heading && !d.code && !d.footnoteAtStart && d.marker == []
  }

  function Break(d: Doc): Units {
    if d.needPar then [PAR] else []
  }

  function Paragraph(t: Units): seq<Callback> {
    [EnterBlock(P), Text(Normal(t)), LeaveBlock(P)]
  }

  lemma {:induction false} ThreeSteps(loc: Locale, d: Doc, a: Callback, b: Callback, c: Callback)
    ensures Steps(loc, d, [a, b, c]) == Step(loc, Step(loc, Step(loc, d, a), b), c)
  {
    hide Step;
    var s := [a, b, c];
    assert s[..2][..1][..0] == [] && s[..2] == [a, b] && [a, b][..1] == [a] && [a][..0] == [];
    assert Steps(loc, d, []) == d;
    assert Steps(loc, d, [a]) == Step(loc, d, a);
    assert Steps(loc, d, [a, b]) == Step(loc, Step(loc, d, a), b);
  }

  lemma {:induction false} StepsAppend(loc: Locale, d: Doc, s: seq<Callback>, t: seq<Callback>)
    ensures Steps(loc, d, s + t) == Steps(loc, Steps(loc, d, s), t)
    decreases |t|
  {
    hide Step;
    if t == [] {
      assert s + t == s;
    } else {
      var n := |t| - 1;
      StepsAppend(loc, d, s, t[..n]);
      assert (s + t)[..|s + t| - 1] == s + t[..n];
    }
  }

  lemma {:induction false} OpenBetween(d: Doc)
    requires Between(d)
    ensures OpenPara(d) == d.(text := d.text + Break(d), needPar := false, para := true)
  {
    assert d.text + [] == d.text;
  }

  /** A paragraph brings the break the one before it owes, and owes one itself. */
  lemma {:induction false} ParagraphText(loc: Locale, d: Doc, t: Units)
    requires Between(d)
    ensures var e := Steps(loc, d, Paragraph(t));
      Between(e) && e.needPar && e.text == d.text + Break(d) + ShownAll(t)
  {
    hide Steps, OpenPara, ShownAll;
    ThreeSteps(loc, d, EnterBlock(P), Text(Normal(t)), LeaveBlock(P));
    OpenBetween(d);
  }

  function Paragraphs(ts: seq<Units>): seq<Callback> {
    if ts == [] then [] else Paragraphs(ts[..|ts| - 1]) + Paragraph(ts[|ts| - 1])
  }

  function Joined(ts: seq<Units>): Units {
    if ts == [] then []
    else if |ts| == 1 then ShownAll(ts[0])
    else Joined(ts[..|ts| - 1]) + [PAR] + ShownAll(ts[|ts| - 1])
  }

  /** Paragraphs are separated by single breaks, with none before the first and none after the last. */
  lemma {:induction false} ParagraphsJoined(loc: Locale, ts: seq<Units>)
    ensures var d := Steps(loc, EMPTY, Paragraphs(ts));
      d.text == Joined(ts) && Between(d) && d.needPar == (ts != [])
    decreases |ts|
  {
    hide Step, Paragraph, ShownAll;
    if ts != [] {
      var n := |ts| - 1;
      ParagraphsJoined(loc, ts[..n]);
      var d := Steps(loc, EMPTY, Paragraphs(ts[..n]));
      StepsAppend(loc, EMPTY, Paragraphs(ts[..n]), Paragraph(ts[n]));
      ParagraphText(loc, d, ts[n]);
      if n == 0 { assert [] + [] + ShownAll(ts[0]) == ShownAll(ts[0]); }
    }
  }

  function ListItem(t: Units): seq<Callback> {
    [EnterBlock(Li(false, ' ')), Text(Normal(t)), LeaveBlock(Li(false, ' '))]
  }

  lemma {:induction false} OpenMarked(d: Doc, m: Units)
    requires Between(d) && m != []
    ensures OpenPara(d.(marker := m)) == d.(text := d.text + Break(d) + ShownAll(m) + [TAB], needPar := false, para := true)
  {
    hide ShownAll;
    assert d.text + [] == d.text;
  }

  lemma {:induction false} SomeMarker(lists: seq<List>, mark: char)
    ensures MarkerFor(lists, false, mark) != []
  {
    hide Wide, Dec;
  }

  /** An item shows its marker and a tab before its text, in a paragraph of its own. */
  lemma {:induction false} ItemText(loc: Locale, d: Doc, t: Units)
    requires Between(d)
    ensures var e := Steps(loc, d, ListItem(t));
      && Between(e) && e.needPar && e.lists == ListsAfter(d.lists, false)
      && e.text == d.text + Break(d) + ShownAll(MarkerFor(d.lists, false, ' ')) + [TAB] + ShownAll(t)
  {
    hide Steps, OpenPara, ShownAll, MarkerFor, ListsAfter;
    var m := MarkerFor(d.lists, false, ' ');
    SomeMarker(d.lists, ' ');
    ThreeSteps(loc, d, EnterBlock(Li(false, ' ')), Text(Normal(t)), LeaveBlock(Li(false, ' ')));
    var a := d.(lists := ListsAfter(d.lists, false));
    OpenMarked(a, m);
    assert Step(loc, d, EnterBlock(Li(false, ' '))) == a.(marker := m);
  }

  function ListItems(ts: seq<Units>): seq<Callback> {
    if ts == [] then [] else ListItems(ts[..|ts| - 1]) + ListItem(ts[|ts| - 1])
  }

  /** An item with its number. */
  function ItemLine(n: nat, t: Units): Units {
    ShownAll(Wide(Dec(n)) + [0x2e]) + [TAB] + ShownAll(t)
  }

  /** Items numbered from n, each in its own paragraph, behind the break owed before them. */
  function Numbered(owed: Units, ts: seq<Units>, n: nat): Units {
    if ts == [] then []
    else
      var k := |ts| - 1;
      (if k == 0 then owed else Numbered(owed, ts[..k], n) + [PAR]) + ItemLine(n + k, ts[k])
  }

  /** The items of an ordered list are numbered from its start without gaps. */
  lemma {:induction false} OrderedItems(loc: Locale, d: Doc, start: nat, ts: seq<Units>)
    requires Between(d)
    ensures var e := Steps(loc, Step(loc, d, EnterBlock(Ol(start))), ListItems(ts));
      && Between(e) && e.needPar == (d.needPar || ts != []) && e.lists == d.lists + [List(true, start + |ts|)]
      && e.text == d.text + Numbered(Break(d), ts, start)
    decreases |ts|
  {
    hide Step, Steps, Numbered, ItemLine, ListItem, Between;
    var a := Step(loc, d, EnterBlock(Ol(start)));
    EnterOrdered(loc, d, start);
    NoNumbers(loc, a, Break(d), start);
    if ts == [] {
      assert d.text + [] == d.text;
    } else {
      var k := |ts| - 1;
      OrderedItems(loc, d, start, ts[..k]);
      var b := Steps(loc, a, ListItems(ts[..k]));
      StepsAppend(loc, a, ListItems(ts[..k]), ListItem(ts[k]));
      NumberedItem(loc, b, d.lists, start + k, ts[k]);
      MoreNumbers(d.text, Break(d), ts, start);
    }
  }

  lemma {:induction false} NoNumbers(loc: Locale, a: Doc, owed: Units, n: nat)
    ensures Steps(loc, a, []) == a && Numbered(owed, [], n) == []
  {
  }

  /** One item of an ordered list that is at number n. */
  lemma {:induction false} NumberedItem(loc: Locale, b: Doc, lists: seq<List>, n: nat, t: Units)
    requires Between(b) && b.lists == lists + [List(true, n)]
    ensures var e := Steps(loc, b, ListItem(t));
      && Between(e) && e.needPar && e.lists == lists + [List(true, n + 1)]
      && e.text == b.text + Break(b) + ItemLine(n, t)
  {
    hide Step, Steps, ListItem, ShownAll, Between, Wide, Dec, MarkerFor, ListsAfter;
    ItemText(loc, b, t);
    NextNumber(lists, n);
    assert b.text + Break(b) + ShownAll(Wide(Dec(n)) + [0x2e]) + [TAB] + ShownAll(t)
        == b.text + Break(b) + (ShownAll(Wide(Dec(n)) + [0x2e]) + [TAB] + ShownAll(t));
  }

  lemma {:induction false} MoreNumbers(before: Units, owed: Units, ts: seq<Units>, n: nat)
    requires ts != []
    ensures var k := |ts| - 1;
      var line := ItemLine(n + k, ts[k]);
      before + Numbered(owed, ts, n) ==
        if k == 0 then before + owed + line else before + Numbered(owed, ts[..k], n) + [PAR] + line
  {
    hide ItemLine;
  }

  lemma {:induction false} EnterOrdered(loc: Locale, d: Doc, start: nat)
    requires Between(d)
    ensures Step(loc, d, EnterBlock(Ol(start))) == d.(lists := d.lists + [List(true, start)])
    ensures Between(Step(loc, d, EnterBlock(Ol(start))))
  {
  }

  lemma {:induction false} NextNumber(lists: seq<List>, n: nat)
    ensures var ls := lists + [List(true, n)];
      MarkerFor(ls, false, ' ') == Wide(Dec(n)) + [0x2e] && ListsAfter(ls, false) == lists + [List(true, n + 1)]
  {
    hide Wide, Dec;
    var ls := lists + [List(true, n)];
    assert |ls| - 1 == |lists| && ls[|lists|] == List(true, n);
    assert ls[|lists| := List(true, n + 1)] == lists + [List(true, n + 1)];
  }
}
