/**
  The Markdown renderer of mdrtf.cpp.  `Doc` is what a document means: its text,
  links and anchors, and the few fields that decide them, as a function of the
  parser's callbacks.  `Renderer` is the program: it appends RTF to `out` and
  keeps a running character count.
*/
module MdRtf {
  import opened Rtf

  // ------------------------------------------------------------------
  // Callbacks
  // ------------------------------------------------------------------

  datatype Block =
    | Quote | Ul | Ol(start: nat) | Li(isTask: bool, mark: char) | Hr | H(level: nat) | CodeBlock
    | Admonition(title: Units) | FootnoteSection | FootnoteDef(id: nat) | Table(cols: nat)
    | Thead | Tbody | Tr | Th | Td | Document | Html | P

  datatype Span =
    | Em | Strong | Underline | Del | CodeSpan | A(href: Units) | Wikilink(target: Units) | Img
    | LatexMath | FootnoteRef(ref: nat)

  /** Text runs are given decoded, as UTF-16; entities as what they stand for. */
  datatype Run =
    | NullChar | Br | SoftBr | Entity(shown: Units) | RawHtml | CodeText(code: Units) | Normal(normal: Units)

  datatype Callback = EnterBlock(b: Block) | LeaveBlock(b: Block) | EnterSpan(s: Span) | LeaveSpan(s: Span) | Text(t: Run)

  datatype Link = Link(from: nat, upto: nat, target: Units)

  datatype Anchor = Anchor(name: Units, at: nat)

  /** Case mapping and the heading slug, which the C library decides. */
  datatype Locale = Locale(upper: Unit -> Unit, slug: Units -> Units)

  datatype List = List(ordered: bool, next: nat)

  // ------------------------------------------------------------------
  // What a document means
  // ------------------------------------------------------------------

  datatype Doc = Doc(
    text: Units, links: seq<Link>, anchors: seq<Anchor>,
    para: bool, needPar: bool, lists: seq<List>, marker: Units,
    heading: bool, headAt: int, headText: Units,
    code: bool, codeNl: nat, cell: nat,
    footnoteId: nat, footnoteAtStart: bool,
    inLink: bool, linkAt: nat, linkTarget: Units)

  const EMPTY: Doc := Doc([], [], [], false, false, [], [], false, -1, [], false, 0, 0, 0, false, false, 0, [])

  function Wide(s: string): Units {
    seq(|s|, i requires 0 <= i < |s| => (s[i] as int) % 0x1_0000)
  }

  function Write(d: Doc, s: Units): Doc {
    d.(text := d.text + ShownAll(s), headText := if d.heading then d.headText + s else d.headText)
  }

  function Mark(d: Doc, u: Unit): Doc {
    d.(text := d.text + [u])
  }

  function Bracketed(id: nat): Units {
    [0x5b] + Wide(Dec(id)) + [0x5d]
  }

  function OwePar(d: Doc): Doc {
    (if d.needPar then Mark(d, PAR) else d).(needPar := false, para := true)
  }

  function StartHeading(d: Doc): Doc {
    if d.heading && d.headAt < 0 then d.(headAt := |d.text|) else d
  }

  function PutFootnote(d: Doc): Doc {
    if d.footnoteAtStart then
      var a := Anchor(Wide("fn:") + Wide(Dec(d.footnoteId)), |d.text|);
      Mark(Write(d.(anchors := d.anchors + [a]), Bracketed(d.footnoteId)), TAB).(footnoteAtStart := false)
    else d
  }

  function PutMarker(d: Doc): Doc {
    if d.marker != [] then Mark(Write(Unmarked(d), d.marker), TAB) else d
  }

  function Unmarked(d: Doc): Doc {
    d.(marker := [])
  }

  /** Paragraphs open lazily and bring the break owed by the previous one, then any pending number or marker. */
  function OpenPara(d: Doc): Doc {
    if d.para then d else PutMarker(PutFootnote(StartHeading(OwePar(d))))
  }

  function ClosePara(d: Doc): Doc {
    if d.para then d.(para := false, needPar := true) else d
  }

  function Rule(d: Doc): Doc {
    ClosePara(Mark(OpenPara(ClosePara(d)), TAB))
  }

  const BULLETS: Units := [0x2022, 0x25e6, 0x25aa]

  /** The marker of a list item ... */
  function MarkerFor(lists: seq<List>, isTask: bool, mark: char): Units {
    if isTask then [if mark == ' ' then 0x2610 else 0x2611]
    else if lists == [] then [BULLETS[0]]
    else
      var n := |lists| - 1;
      if lists[n].ordered then Wide(Dec(lists[n].next)) + [0x2e] else [BULLETS[n % 3]]
  }

  /** ... and the lists after it: an ordered one moves on to its next number. */
  function ListsAfter(lists: seq<List>, isTask: bool): seq<List> {
    if isTask || lists == [] || !lists[|lists| - 1].ordered then lists
    else lists[|lists| - 1 := List(true, lists[|lists| - 1].next + 1)]
  }

  function SetMarker(d: Doc, isTask: bool, mark: char): Doc {
    d.(marker := MarkerFor(d.lists, isTask, mark), lists := ListsAfter(d.lists, isTask))
  }

  function BeginLink(d: Doc, target: Units): Doc {
    d.(inLink := true, linkAt := |d.text|, linkTarget := target)
  }

  function EndLink(d: Doc): Doc {
    if !d.inLink then d
    else
      var keep := |d.text| > d.linkAt && d.linkTarget != [];
      d.(inLink := false, linkTarget := [],
         links := if keep then d.links + [Link(d.linkAt, |d.text|, d.linkTarget)] else d.links)
  }

  function Lines(n: nat): Units {
    seq(n, _ => LINE)
  }

  /** A run of code without line breaks: first the breaks owed. */
  function CodeRun(d: Doc, run: Units): Doc {
    if run == [] then d
    else
      Write(Flushed(OpenPara(d)), run)
  }

  function Flushed(d: Doc): Doc {
    d.(text := d.text + Lines(d.codeNl), codeNl := 0)
  }

  function FirstBreak(s: Units): (k: nat)
    ensures k <= |s|
    ensures forall i :: 0 <= i < k ==> s[i] != 10
    ensures k < |s| ==> s[k] == 10
  {
    if s == [] || s[0] == 10 then 0 else 1 + FirstBreak(s[1..])
  }

  /** Text of a code block: line breaks are owed until more text shows up. */
  function CodeLines(d: Doc, s: Units): Doc
    decreases |s|
  {
    if s == [] then d
    else
      var k := FirstBreak(s);
      var d := CodeRun(d, s[..k]);
      if k == |s| then d else CodeLines(d.(codeNl := d.codeNl + 1), s[k + 1..])
  }

  function Code(d: Doc, s: Units): Doc {
    if d.code then CodeLines(d, s) else Write(OpenPara(d), s)
  }

  function Capitalised(loc: Locale, s: Units): Units {
    if s == [] then s else [loc.upper(s[0])] + s[1..]
  }

  function Enter(loc: Locale, d: Doc, b: Block): Doc {
    match b
    case Quote => ClosePara(d)
    case Ul => var d := ClosePara(d); d.(lists := d.lists + [List(false, 0)])
    case Ol(start) => var d := ClosePara(d); d.(lists := d.lists + [List(true, start)])
    case Li(isTask, mark) => SetMarker(ClosePara(d), isTask, mark)
    case Hr => Rule(d)
    case H(_) => ClosePara(d).(heading := true, headAt := -1, headText := [])
    case CodeBlock => ClosePara(d).(code := true, codeNl := 0)
    case Admonition(title) => ClosePara(Write(OpenPara(ClosePara(d)), Capitalised(loc, title)))
    case FootnoteSection => Rule(d)
    case FootnoteDef(id) => ClosePara(d).(footnoteId := id, footnoteAtStart := true)
    case Table(_) => ClosePara(d)
    case Thead => d
    case Tr => ClosePara(d).(cell := 0)
    case Th => Cell(d)
    case Td => Cell(d)
    case Document => ClosePara(d)
    case Html => ClosePara(d)
    case P => ClosePara(d)
    case Tbody => ClosePara(d)
  }

  function Cell(d: Doc): Doc {
    var d := OpenPara(d);
    (if d.cell > 0 then Mark(d, TAB) else d).(cell := d.cell + 1)
  }

  function EndHeading(loc: Locale, d: Doc): Doc {
    var name := loc.slug(d.headText);
    d.(heading := false, headAt := -1, headText := [],
       anchors := if d.headAt >= 0 && name != [] then d.anchors + [Anchor(name, d.headAt)] else d.anchors)
  }

  function Leave(loc: Locale, d: Doc, b: Block): Doc {
    match b
    case Quote => ClosePara(d)
    case Admonition(_) => ClosePara(d)
    case Ul => PopList(ClosePara(d))
    case Ol(_) => PopList(ClosePara(d))
    case Li(_, _) => ClosePara(if d.marker != [] then OpenPara(d) else d)
    case H(_) => EndHeading(loc, ClosePara(d))
    case CodeBlock => ClosePara(d).(code := false, codeNl := 0)
    case FootnoteDef(_) =>
      ClosePara(if d.footnoteAtStart then OpenPara(d) else d).(footnoteId := 0, footnoteAtStart := false)
    case Table(_) => ClosePara(d)
    case Thead => d
    case Th => d
    case Td => d
    case Document => ClosePara(d)
    case Hr => ClosePara(d)
    case Html => ClosePara(d)
    case P => ClosePara(d)
    case FootnoteSection => ClosePara(d)
    case Tbody => ClosePara(d)
    case Tr => ClosePara(d)
  }

  function PopList(d: Doc): Doc {
    if d.lists == [] then d else d.(lists := d.lists[..|d.lists| - 1])
  }

  function EnterS(d: Doc, s: Span): Doc {
    var d := OpenPara(d);
    match s
    case A(href) => BeginLink(d, href)
    case Wikilink(target) => BeginLink(d, target)
    case Img => Write(d, [0x5b])
    case FootnoteRef(id) =>
      var d := BeginLink(d, Wide("#fn:") + Wide(Dec(id)));
      d.(text := d.text + ShownAll(Bracketed(id)))
    case _ => d
  }

  function LeaveS(d: Doc, s: Span): Doc {
    match s
    case A(_) => EndLink(d)
    case Wikilink(_) => EndLink(d)
    case FootnoteRef(_) => EndLink(d)
    case Img => Write(d, [0x5d])
    case _ => d
  }

  function Say(d: Doc, t: Run): Doc {
    match t
    case NullChar => Write(OpenPara(d), [0xfffd])
    case Br => if d.para then Mark(d, LINE) else d
    case SoftBr => if d.para then Write(d, [0x20]) else d
    case Entity(shown) => Write(OpenPara(d), shown)
    case RawHtml => d
    case CodeText(code) => Code(d, code)
    case Normal(normal) => Write(OpenPara(d), normal)
  }

  function Step(loc: Locale, d: Doc, cb: Callback): Doc {
    match cb
    case EnterBlock(b) => Enter(loc, d, b)
    case LeaveBlock(b) => Leave(loc, d, b)
    case EnterSpan(s) => EnterS(d, s)
    case LeaveSpan(s) => LeaveS(d, s)
    case Text(t) => Say(d, t)
  }

  function Steps(loc: Locale, d: Doc, cbs: seq<Callback>): Doc {
    if cbs == [] then d else Step(loc, Steps(loc, d, cbs[..|cbs| - 1]), cbs[|cbs| - 1])
  }

  // ------------------------------------------------------------------
  // The program
  // ------------------------------------------------------------------

  datatype Style = Style(bodyFace: Units, monoFace: Units, bodyPt10: nat, colours: seq<(nat, nat, nat)>)

  const COL_TEXT: int := 1
  const COL_QUOTE: int := 2
  const COL_LINK: int := 3
  const COL_CODE: int := 4
  const COL_CODEBG: int := 5
  const COL_RULE: int := 6
  const INDENT_STEP: int := 300
  const LIST_HANG: nat := 260
  const TABLE_W: nat := 8400
  const RULE_W: int := 14400
  const CODE_PCT: nat := 92
  const HEADING_PCT: seq<nat> := [175, 145, 125, 112, 100, 92]

  const START: Reader := Reader(Plain, false, [], [])

  /** The control words the renderer uses for formatting. */
  lemma {:induction false} FormatNames()
    ensures SilentName("pard") && SilentName("plain") && SilentName("sa") && SilentName("sb") && SilentName("li")
    ensures SilentName("fi") && SilentName("tx") && SilentName("keepn") && SilentName("f") && SilentName("fs")
    ensures SilentName("b") && SilentName("cf") && SilentName("highlight")
  {
  }

  lemma {:induction false} SpanNames()
    ensures SilentName("i") && SilentName("b") && SilentName("ul") && SilentName("ulnone") && SilentName("strike")
    ensures SilentName("f") && SilentName("fs") && SilentName("cf") && SilentName("highlight")
    ensures SilentName("super") && SilentName("nosupersub")
  {
  }

  class Renderer {
    const loc: Locale
    const style: Style
    var out: string
    var chars: nat
    var links: seq<Link>
    var anchors: seq<Anchor>
    var para: bool
    var needPar: bool
    var indent: int
    var quote: int
    var lists: seq<List>
    var marker: Units
    var heading: nat
    var headAt: int
    var headText: Units
    var code: bool
    var codeNl: nat
    var rule: bool
    var cols: nat
    var cell: nat
    var headRow: bool
    var stops: seq<Ctl>
    var footnoteId: nat
    var footnoteAtStart: bool
    var inLink: bool
    var linkAt: nat
    var linkTarget: Units

    /** What an RTF reader makes of the output so far. */
    ghost function Reading(): Reader
      reads this
    {
      Read(START, out)
    }

    /** The reader is between control words in the document's one group, and holds as many characters as counted. */
    ghost predicate Valid()
      reads this
    {
      && Reading().mode.Plain? && !Reading().hidden && Reading().groups == [false]
      && |Reading().text| == chars && heading <= 6 && Silent(stops)
    }

    /** The document the reader and the other fields make up. */
    ghost function Abs(): Doc
      reads this
    {
      Doc(Reading().text, links, anchors, para, needPar, lists, marker, heading > 0, headAt, headText,
          code, codeNl, cell, footnoteId, footnoteAtStart, inLink, linkAt, linkTarget)
    }

    function BaseColour(): int
      reads this
    {
      if quote != 0 then COL_QUOTE else COL_TEXT
    }

    function ParaSize(): int
      requires heading <= 6
      reads this
    {
      var halfpt := (style.bodyPt10 + 2) / 5;
      if heading > 0 then halfpt * HEADING_PCT[heading - 1] / 100
      else if code then halfpt * CODE_PCT / 100 else halfpt
    }

    /** Control words and their delimiter, none of which shows anything. */
    method Put(ws: seq<Ctl>, delim: char)
      requires Valid() && Silent(ws) && ws != [] && (delim == ' ' || delim == '\n')
      modifies `out
      ensures Valid() && Abs() == old(Abs())
    {
      hide Read, CtlTexts, Silent;
      ReadSilent(Reading(), ws, delim);
      ReadAppend(START, out, CtlTexts(ws) + [delim]);
      out := out + (CtlTexts(ws) + [delim]);
    }

    /** A control word that shows one character, which is counted. */
    method PutMark(name: string, delim: char)
      requires Valid() && (name == "par" || name == "line" || name == "tab") && (delim == ' ' || delim == '\n')
      modifies `out, `chars
      ensures Valid()
      ensures Abs() == Mark(old(Abs()), if name == "par" then PAR else if name == "line" then LINE else TAB)
    {
      hide Read, CtlText, Silent;
      ReadMark(Reading(), name, delim);
      ReadAppend(START, out, CtlText(Word(name)) + [delim]);
      out := out + (CtlText(Word(name)) + [delim]);
      chars := chars + 1;
    }

    /** rtf_escape onto the output */
    method Escape(s: Units)
      requires Reading().mode.Plain?
      modifies `out
      ensures Reading() == if old(Reading()).hidden then old(Reading())
                           else old(Reading()).(text := old(Reading()).text + ShownAll(s))
    {
      hide Escaped, Read, Shown;
      ghost var r := Reading();
      var i := 0;
      assert EscapedAll(s[..0]) == "";
      ReadText(r, s[..0]);
      ReadNothing(r);
      while i < |s|
        invariant 0 <= i <= |s| && Reading() == Read(r, EscapedAll(s[..i]))
      {
        ReadAppend(START, out, Escaped(s[i]));
        ReadAppend(r, EscapedAll(s[..i]), Escaped(s[i]));
        assert s[..i + 1][..i] == s[..i];
        out := out + Escaped(s[i]);
        i := i + 1;
      }
      assert s[..i] == s;
      ReadText(r, s);
    }

    method PutText(s: Units)
      requires Valid()
      modifies `out, `chars, `headText
      ensures Valid() && Abs() == Write(old(Abs()), s)
    {
      hide Read, Silent, ShownAll;
      if heading > 0 {
        headText := headText + s;
      }
      Escape(s);
      chars := chars + |s|;
    }

    /** Indents and tab stops of a paragraph. */
    method LayoutWords() returns (ws: seq<Ctl>)
      requires Valid()
      ensures Silent(ws)
    {
      hide SilentName, Read;
      FormatNames();
      if cols > 0 {
        var col := TABLE_W / cols;
        ws := [Num("sa", 40), Num("li", indent + col), Neg("fi", col)] + stops;
      } else if footnoteAtStart || marker != [] {
        ws := [Num("sa", 60), Num("li", indent), Neg("fi", LIST_HANG)];
      } else if rule {
        ws := [Num("sb", 120), Num("sa", 120), Num("li", indent), Num("tx", indent + RULE_W)];
      } else if heading > 0 {
        ws := [Num("sb", 200), Num("sa", 80), Word("keepn"), Num("li", indent)];
      } else if code {
        ws := [Num("sb", 60), Num("sa", 120), Num("li", indent + INDENT_STEP)];
      } else {
        ws := [Num("sa", 120), Num("li", indent)];
      }
    }

    /** Font, size and colours of a paragraph. */
    method FontWords() returns (ws: seq<Ctl>)
      requires Valid()
      ensures Silent(ws)
    {
      hide SilentName, Read;
      FormatNames();
      ws := [Num("f", if code then 1 else 0), Num("fs", ParaSize())];
      if heading > 0 || headRow {
        ws := ws + [Word("b")];
      }
      if code {
        ws := ws + [Num("cf", COL_CODE), Num("highlight", COL_CODEBG)];
      } else {
        ws := ws + [Num("cf", if rule then COL_RULE else BaseColour())];
      }
    }

    method ParaWords() returns (ws: seq<Ctl>)
      requires Valid()
      ensures Silent(ws) && ws != []
    {
      hide SilentName, Read;
      FormatNames();
      var layout := LayoutWords();
      var font := FontWords();
      ws := [Word("pard"), Word("plain")] + layout + font;
    }

    method Open()
      requires Valid()
      modifies `out, `chars, `para, `needPar, `headAt, `headText, `anchors, `footnoteAtStart, `marker
      ensures Valid() && Abs() == OpenPara(old(Abs()))
    {
      hide Read, Silent, Write, Mark, StartHeading, OwePar, PutFootnote, PutMarker, Valid, Abs;
      if OpenAlready() {
        return;
      }
      OpenHead();
      PutNumber();
      PutListMarker();
    }

    predicate OpenAlready()
      reads this
      ensures OpenAlready() == Abs().para
    {
      para
    }

    method OpenHead()
      requires Valid() && !para
      modifies `out, `chars, `para, `needPar, `headAt
      ensures Valid() && Abs() == StartHeading(OwePar(old(Abs())))
    {
      hide Read, Silent;
      if needPar {
        PutMark("par", '\n');
        needPar := false;
      }
      para := true;
      var ws := ParaWords();
      Put(ws, ' ');
      if heading > 0 && headAt < 0 {
        headAt := chars;
      }
    }

    /** A label and the tab behind it. */
    method PutLabel(s: Units)
      requires Valid()
      modifies `out, `chars, `headText
      ensures Valid() && Abs() == Mark(Write(old(Abs()), s), TAB)
    {
      hide Read, Silent, ShownAll, Write;
      PutText(s);
      PutMark("tab", ' ');
    }

    /** The number of a footnote definition. */
    method PutNumber()
      requires Valid()
      modifies `out, `chars, `headText, `anchors, `footnoteAtStart
      ensures Valid() && Abs() == PutFootnote(old(Abs()))
    {
      hide Read, Silent, Wide, Dec, ShownAll, Bracketed;
      if footnoteAtStart {
        anchors := anchors + [Anchor(Wide("fn:") + Wide(Dec(footnoteId)), chars)];
        PutLabel(Bracketed(footnoteId));
        footnoteAtStart := false;
      }
    }

    /** The marker of a list item. */
    method PutListMarker()
      requires Valid()
      modifies `out, `chars, `headText, `marker
      ensures Valid() && Abs() == PutMarker(old(Abs()))
    {
      hide Read, Silent, ShownAll;
      if marker != [] {
        var m := marker;
        marker := [];
        PutText(m);
        PutMark("tab", ' ');
      }
    }

    method Close()
      requires Valid()
      modifies `para, `needPar
      ensures Valid() && Abs() == ClosePara(old(Abs()))
    {
      if !para {
        return;
      }
      para, needPar := false, true;
    }

    /** emit_rule */
    method EmitRule()
      requires Valid()
      modifies this
      ensures Valid() && Abs() == Rule(old(Abs()))
    {
      hide Read, Silent, OpenPara, Valid, Abs;
      Close();
      SetRule(true);
      Open();
      RuleTab();
      Close();
      SetRule(false);
    }

    method SetRule(on: bool)
      requires Valid()
      modifies `rule
      ensures Valid() && Abs() == old(Abs())
    {
      rule := on;
    }

    /** An underlined tab. */
    method RuleTab()
      requires Valid()
      modifies `out, `chars
      ensures Valid() && Abs() == Mark(old(Abs()), TAB)
    {
      hide Read, Silent, CtlTexts, Apply;
      var ws := [Word("ul"), Word("tab"), Word("ulnone")];
      RuleEffect(Reading());
      ReadControls(Reading(), ws, ' ');
      ReadAppend(START, out, CtlTexts(ws) + [' ']);
      out := out + (CtlTexts(ws) + [' ']);
      chars := chars + 1;
    }

    /** list_marker */
    method ListMarker(isTask: bool, mark: char)
      requires Valid()
      modifies `marker, `lists
      ensures Valid() && Abs() == SetMarker(old(Abs()), isTask, mark)
    {
      hide Read, Silent, Wide, Dec;
      if isTask {
        marker := [if mark == ' ' then 0x2610 else 0x2611];
      } else if lists == [] {
        marker := [BULLETS[0]];
      } else {
        var n := |lists| - 1;
        if lists[n].ordered {
          marker := Wide(Dec(lists[n].next)) + [0x2e];
          lists := lists[n := List(true, lists[n].next + 1)];
        } else {
          marker := [BULLETS[n % 3]];
        }
      }
    }

    /** begin_link */
    method StartLink(target: Units)
      requires Valid()
      modifies `out, `inLink, `linkAt, `linkTarget
      ensures Valid() && Abs() == BeginLink(old(Abs()), target)
    {
      hide Read, SilentName;
      SpanNames();
      Put([Num("cf", COL_LINK), Word("ul")], ' ');
      inLink, linkAt, linkTarget := true, chars, target;
    }

    /** end_link */
    method FinishLink()
      requires Valid()
      modifies `out, `inLink, `linkTarget, `links
      ensures Valid() && Abs() == EndLink(old(Abs()))
    {
      hide Read, SilentName;
      SpanNames();
      Put([Word("ulnone"), Num("cf", BaseColour())], ' ');
      if !inLink {
        return;
      }
      inLink := false;
      if chars > linkAt && linkTarget != [] {
        links := links + [Link(linkAt, chars, linkTarget)];
      }
      linkTarget := [];
    }

    /** The line breaks owed inside a code block. */
    method FlushBreaks()
      requires Valid()
      modifies `out, `chars, `codeNl
      ensures Valid() && Abs() == Flushed(old(Abs()))
    {
      hide Read, Silent, Valid, Abs, Flushed;
      FlushStep(Abs());
      var more := BreaksOwed();
      while more > 0
        invariant Valid() && Flushed(Abs()) == old(Flushed(Abs())) && more == Abs().codeNl
        decreases more
      {
        FlushStep(Abs());
        OneBreak();
        more := more - 1;
      }
      FlushStep(Abs());
    }

    function BreaksOwed(): nat
      reads this
      ensures BreaksOwed() == Abs().codeNl
    {
      codeNl
    }

    method OneBreak()
      requires Valid() && Abs().codeNl > 0
      modifies `out, `chars, `codeNl
      ensures Valid() && Abs() == Mark(old(Abs()), LINE).(codeNl := old(Abs()).codeNl - 1)
    {
      hide Read, Silent;
      PutMark("line", ' ');
      codeNl := codeNl - 1;
    }

    method OweBreak()
      requires Valid()
      modifies `codeNl
      ensures Valid() && Abs() == old(Abs()).(codeNl := old(Abs()).codeNl + 1)
    {
      codeNl := codeNl + 1;
    }

    /** One line of code. */
    method EmitRun(run: Units)
      requires Valid()
      modifies this
      ensures Valid() && Abs() == CodeRun(old(Abs()), run)
    {
      hide Read, Silent, OpenPara, Write, Valid, Abs, Flushed;
      if run != [] {
        Open();
        FlushBreaks();
        PutText(run);
      }
    }

    /** emit_code_text */
    method EmitCodeText(p: Units)
      requires Valid()
      modifies this
      ensures Valid() && Abs() == Code(old(Abs()), p)
    {
      hide Read, Silent, OpenPara, Write, CodeRun, CodeLines;
      if !code {
        Open();
        PutText(p);
        return;
      }
      EmitLines(p);
    }

    method EmitLines(p: Units)
      requires Valid()
      modifies this
      ensures Valid() && Abs() == CodeLines(old(Abs()), p)
    {
      hide Read, Silent, OpenPara, Write, CodeRun, CodeLines, Valid, Abs;
      ghost var goal := CodeLines(Abs(), p);
      var i := 0;
      assert p[0..] == p;
      while i < |p|
        invariant 0 <= i <= |p| && Valid()
        invariant CodeLines(Abs(), p[i..]) == goal
      {
        var end := FindBreak(p, i);
        CodeLinesFrom(Abs(), p, i, end);
        EmitRun(p[i..end]);
        if end < |p| {
          OweBreak();
          end := end + 1;
        }
        i := end;
      }
      CodeLinesEnd(Abs(), p, i);
    }

    // ----------------------------------------------------------------
    // The document's frame
    // ----------------------------------------------------------------

    method PutChar(c: char)
      requires Reading().mode.Plain?
      modifies `out
      ensures Reading() == Base(old(Reading()), c)
    {
      hide Read;
      ReadOne(Reading(), c);
      ReadAppend(START, out, [c]);
      out := out + [c];
    }

    /** Formatting words in the header. */
    method PutHeader(ws: seq<Ctl>, delim: char)
      requires Reading().mode.Plain? && Silent(ws) && ws != [] && (delim == ' ' || delim == '\n')
      modifies `out
      ensures Reading() == old(Reading())
    {
      hide Read, CtlTexts, Silent;
      ReadSilent(Reading(), ws, delim);
      ReadAppend(START, out, CtlTexts(ws) + [delim]);
      out := out + (CtlTexts(ws) + [delim]);
    }

    /** The word that makes a group a font or colour table. */
    method PutTable(name: string, c: char)
      requires Reading().mode.Plain? && (name == "fonttbl" || name == "colortbl") && (c == ';' || c == '{')
      modifies `out
      ensures Reading() == Base(old(Reading()).(hidden := true), c)
    {
      hide Read, CtlTexts, Base;
      var ws := [Word(name)];
      assert ws[..0] == [];
      assert ApplyAll(Reading(), ws) == Apply(Reading(), ws[0]) by { assert ApplyAll(Reading(), ws[..0]) == Reading(); }
      assert Reading().(mode := Plain) == Reading();
      ReadEnded(Reading(), ws, c);
      ReadAppend(START, out, CtlTexts(ws) + [c]);
      out := out + (CtlTexts(ws) + [c]);
    }

    /** The rest of a font table entry after its opening brace. */
    method PutFace(n: int, family: string, face: Units)
      requires Reading().mode.Plain? && Reading().hidden && SilentName(family) && Reading().groups != []
      modifies `out
      ensures Reading() == Base(old(Reading()), '}')
    {
      hide Read, SilentName;
      TableNames();
      PutHeader([Num("f", n), Word(family), Num("fcharset", 0)], ' ');
      Escape(face);
      PutChar(';');
      PutChar('}');
    }

    method PutColour(red: nat, green: nat, blue: nat)
      requires Reading().mode.Plain? && Reading().hidden
      modifies `out
      ensures Reading() == old(Reading())
    {
      hide Read, CtlTexts, SilentName;
      TableNames();
      var ws := [Num("red", red), Num("green", green), Num("blue", blue)];
      ApplySilent(Reading(), ws);
      ReadEnded(Reading(), ws, ';');
      ReadAppend(START, out, CtlTexts(ws) + [';']);
      out := out + (CtlTexts(ws) + [';']);
    }

    /** Nothing in the header counts as a character. */
    method Prologue()
      requires out == ""
      modifies `out
      ensures Reading() == START.(groups := [false])
    {
      hide Read, SilentName;
      HeaderNames();
      assert Reading() == START by { ReadNothing(START); }
      PutChar('{');
      PutHeader([Num("rtf", 1), Word("ansi"), Num("ansicpg", 1252), Num("deff", 0), Num("uc", 1)], '\n');
      PutFonts();
      PutChar('\n');
      PutColours();
      PutChar('\n');
      PutHeader([Num("viewkind", 4)], '\n');
    }

    method PutFonts()
      requires Reading() == START.(groups := [false])
      modifies `out
      ensures Reading() == old(Reading())
    {
      hide Read, SilentName;
      TableNames();
      PutChar('{');
      PutTable("fonttbl", '{');
      PutFace(0, "fswiss", style.bodyFace);
      PutChar('{');
      PutFace(1, "fmodern", style.monoFace);
      PutChar('}');
    }

    method PutColours()
      requires Reading() == START.(groups := [false])
      modifies `out
      ensures Reading() == old(Reading())
    {
      hide Read;
      PutChar('{');
      PutTable("colortbl", ';');
      ghost var r := Reading();
      var i := 0;
      while i < |style.colours|
        invariant 0 <= i <= |style.colours| && Reading() == r
      {
        PutColour(style.colours[i].0, style.colours[i].1, style.colours[i].2);
        i := i + 1;
      }
      PutChar('}');
    }

    /** The closing brace ends the group; no paragraph mark is added that was not counted. */
    method Epilogue()
      requires Valid()
      modifies `out
      ensures Reading() == old(Reading()).(groups := [])
    {
      hide Read;
      PutChar('}');
      PutChar('\n');
    }

    constructor (loc: Locale, style: Style)
      ensures Valid() && Abs() == EMPTY && this.loc == loc
    {
      this.loc, this.style := loc, style;
      out, chars, links, anchors := "", 0, [], [];
      para, needPar, indent, quote, lists, marker := false, false, 0, 0, [], [];
      heading, headAt, headText := 0, -1, [];
      code, codeNl, rule, cols, cell, headRow, stops := false, 0, false, 0, 0, false, [];
      footnoteId, footnoteAtStart, inLink, linkAt, linkTarget := 0, false, false, 0, [];
      new;
      Prologue();
    }

    // ----------------------------------------------------------------
    // Callbacks
    // ----------------------------------------------------------------

    /** Tab stops shared by a table's rows. */
    method SetStops()
      requires Valid() && cols > 0
      modifies `stops
      ensures Valid() && Abs() == old(Abs())
    {
      hide Read, SilentName;
      FormatNames();
      stops := [];
      var i := 1;
      while i <= cols
        invariant Valid() && Abs() == old(Abs())
      {
        stops := stops + [Num("tx", indent + i * (TABLE_W / cols))];
        i := i + 1;
      }
    }

    method Indent(delta: int, quotes: int)
      requires Valid()
      modifies `indent, `quote
      ensures Valid() && Abs() == old(Abs())
    {
      quote := quote + quotes;
      indent := indent + delta;
    }

    method PutTitle(title: Units)
      requires Valid()
      modifies this
      ensures Valid() && Abs() == ClosePara(Write(OpenPara(old(Abs())), title))
    {
      hide Read, SilentName, OpenPara, Write;
      SpanNames();
      Open();
      Put([Word("b")], ' ');
      PutText(title);
      Put([Num("b", 0)], ' ');
      Close();
    }

    method PutCell()
      requires Valid()
      modifies this
      ensures Valid() && Abs() == Cell(old(Abs()))
    {
      hide Read, Silent, OpenPara;
      Open();
      if cell > 0 {
        PutMark("tab", ' ');
      }
      cell := cell + 1;
    }

    method StartList(ordered: bool, start: nat)
      requires Valid()
      modifies `lists, `indent
      ensures Valid() && Abs() == old(Abs()).(lists := old(Abs()).lists + [List(ordered, start)])
    {
      hide Read, Silent;
      lists := lists + [List(ordered, start)];
      indent := indent + INDENT_STEP;
    }

    method SetHeading(level: nat)
      requires Valid()
      modifies `heading, `headAt, `headText
      ensures Valid() && Abs() == old(Abs()).(heading := true, headAt := -1, headText := [])
    {
      hide Read, Silent;
      heading := if level < 1 || level > 6 then 6 else level;
      headAt, headText := -1, [];
    }

    method SetCode(on: bool)
      requires Valid()
      modifies `code, `codeNl
      ensures Valid() && Abs() == old(Abs()).(code := on, codeNl := 0)
    {
      hide Read, Silent;
      code, codeNl := on, 0;
    }

    method StartFootnote(id: nat)
      requires Valid()
      modifies `footnoteId, `footnoteAtStart
      ensures Valid() && Abs() == old(Abs()).(footnoteId := id, footnoteAtStart := true)
    {
      hide Read, Silent;
      footnoteId, footnoteAtStart := id, true;
    }

    method StartTable(n: nat)
      requires Valid()
      modifies `cols, `stops
      ensures Valid() && Abs() == old(Abs())
    {
      hide Read, Silent;
      cols := if n > 0 then n else 1;
      SetStops();
    }

    method EndTable()
      requires Valid()
      modifies `cols, `stops
      ensures Valid() && Abs() == old(Abs())
    {
      hide Read, SilentName;
      cols, stops := 0, [];
    }

    method SetHeadRow(on: bool)
      requires Valid()
      modifies `headRow
      ensures Valid() && Abs() == old(Abs())
    {
      hide Read, Silent;
      headRow := on;
    }

    method StartRow()
      requires Valid()
      modifies `cell
      ensures Valid() && Abs() == old(Abs()).(cell := 0)
    {
      hide Read, Silent;
      cell := 0;
    }

    method EnterBlock(b: Block)
      requires Valid()
      modifies this
      ensures Valid() && Abs() == Enter(loc, old(Abs()), b)
    {
      hide Valid, Abs, OpenPara, ClosePara, Write, SetMarker, Cell, Rule, Capitalised;
      match b
      case Quote =>
        Close();
        Indent(INDENT_STEP, 1);
      case Ul =>
        Close();
        StartList(false, 0);
      case Ol(start) =>
        Close();
        StartList(true, start);
      case Li(isTask, mark) =>
        Close();
        ListMarker(isTask, mark);
      case Hr => EmitRule();
      case H(level) =>
        Close();
        SetHeading(level);
      case CodeBlock =>
        Close();
        SetCode(true);
      case Admonition(title) =>
        Close();
        Indent(INDENT_STEP, 1);
        PutTitle(Capitalised(loc, title));
      case FootnoteSection => EmitRule();
      case FootnoteDef(id) =>
        Close();
        StartFootnote(id);
      case Table(n) =>
        Close();
        StartTable(n);
      case Thead => SetHeadRow(true);
      case Tr =>
        Close();
        StartRow();
      case Th => PutCell();
      case Td => PutCell();
      case Document => Close();
      case Html => Close();
      case P => Close();
      case Tbody => Close();
    }

    method CloseHeading()
      requires Valid()
      modifies this
      ensures Valid() && Abs() == EndHeading(loc, ClosePara(old(Abs())))
    {
      hide Read, Silent, ClosePara, EndHeading;
      Close();
      PutAnchor();
    }

    /** The heading's anchor, once its text is complete. */
    method PutAnchor()
      requires Valid()
      modifies `heading, `anchors, `headAt, `headText
      ensures Valid() && Abs() == EndHeading(loc, old(Abs()))
    {
      hide Read, Silent;
      heading := 0;
      var name := loc.slug(headText);
      if headAt >= 0 && name != [] {
        anchors := anchors + [Anchor(name, headAt)];
      }
      headAt, headText := -1, [];
    }

    method CloseFootnote()
      requires Valid()
      modifies this
      ensures Valid() && Abs() == Leave(loc, old(Abs()), FootnoteDef(0))
    {
      hide Read, Silent, OpenPara;
      if footnoteAtStart {
        Open();
      }
      Close();
      footnoteId, footnoteAtStart := 0, false;
    }

    method CloseItem()
      requires Valid()
      modifies this
      ensures Valid() && Abs() == Leave(loc, old(Abs()), Li(false, ' '))
    {
      hide Read, Silent, OpenPara;
      if marker != [] {
        Open();
      }
      Close();
    }

    method CloseList()
      requires Valid()
      modifies this
      ensures Valid() && Abs() == PopList(ClosePara(old(Abs())))
    {
      hide Read, Silent;
      Close();
      if lists != [] {
        lists := lists[..|lists| - 1];
      }
      indent := indent - INDENT_STEP;
    }

    method LeaveBlock(b: Block)
      requires Valid()
      modifies this
      ensures Valid() && Abs() == Leave(loc, old(Abs()), b)
    {
      hide Valid, Abs, OpenPara, ClosePara, EndHeading, PopList;
      match b
      case Quote =>
        Close();
        Indent(-INDENT_STEP, -1);
      case Admonition(_) =>
        Close();
        Indent(-INDENT_STEP, -1);
      case Ul => CloseList();
      case Ol(_) => CloseList();
      case Li(_, _) => CloseItem();
      case H(_) => CloseHeading();
      case CodeBlock =>
        Close();
        SetCode(false);
      case FootnoteDef(_) => CloseFootnote();
      case Table(_) =>
        Close();
        EndTable();
      case Thead => SetHeadRow(false);
      case Th =>
      case Td =>
      case Document => Close();
      case Hr => Close();
      case Html => Close();
      case P => Close();
      case FootnoteSection => Close();
      case Tbody => Close();
      case Tr => Close();
    }

    method PutReference(id: nat)
      requires Valid()
      modifies this
      ensures Valid()
      ensures var d := BeginLink(old(Abs()), Wide("#fn:") + Wide(Dec(id)));
        Abs() == d.(text := d.text + ShownAll(Bracketed(id)))
    {
      hide Read, SilentName, Wide, Dec, ShownAll;
      SpanNames();
      StartLink(Wide("#fn:") + Wide(Dec(id)));
      Put([Word("super")], ' ');
      var marker := Bracketed(id);
      Escape(marker);
      chars := chars + |marker|;
    }

    method EnterSpan(s: Span)
      requires Valid()
      modifies this
      ensures Valid() && Abs() == EnterS(old(Abs()), s)
    {
      hide Read, SilentName, OpenPara, Write, BeginLink, Wide, Dec, ShownAll, Bracketed, Valid, Abs;
      SpanNames();
      Open();
      match s
      case Em => Put([Word("i")], ' ');
      case Strong => Put([Word("b")], ' ');
      case Underline => Put([Word("ul")], ' ');
      case Del => Put([Word("strike")], ' ');
      case CodeSpan =>
        StartCodeSpan();
      case A(href) => StartLink(href);
      case Wikilink(target) => StartLink(target);
      case Img =>
        Put([Word("i"), Num("cf", COL_LINK)], ' ');
        PutText([0x5b]);
      case LatexMath =>
      case FootnoteRef(id) => PutReference(id);
    }

    method LeaveSpan(s: Span)
      requires Valid()
      modifies this
      ensures Valid() && Abs() == LeaveS(old(Abs()), s)
    {
      hide Read, SilentName, Write, EndLink, Valid, Abs;
      SpanNames();
      match s
      case Em => Put([Num("i", 0)], ' ');
      case Strong => Put([Num("b", 0)], ' ');
      case Underline => Put([Word("ulnone")], ' ');
      case Del => Put([Num("strike", 0)], ' ');
      case CodeSpan =>
        EndCodeSpan();
      case A(_) => FinishLink();
      case Wikilink(_) => FinishLink();
      case Img =>
        EndImage();
      case LatexMath =>
      case FootnoteRef(_) =>
        Put([Word("nosupersub")], ' ');
        FinishLink();
    }

    method StartCodeSpan()
      requires Valid()
      modifies `out
      ensures Valid() && Abs() == old(Abs())
    {
      hide Read, SilentName;
      SpanNames();
      if !code {
        Put([Num("f", 1), Num("fs", ParaSize() * CODE_PCT / 100), Num("cf", COL_CODE), Num("highlight", COL_CODEBG)], ' ');
      }
    }

    method EndCodeSpan()
      requires Valid()
      modifies `out
      ensures Valid() && Abs() == old(Abs())
    {
      hide Read, SilentName;
      SpanNames();
      if !code {
        Put([Num("f", 0), Num("fs", ParaSize()), Num("highlight", 0), Num("cf", BaseColour())], ' ');
      }
    }

    method EndImage()
      requires Valid()
      modifies `out, `chars, `headText
      ensures Valid() && Abs() == Write(old(Abs()), [0x5d])
    {
      hide Read, SilentName, Write;
      SpanNames();
      PutText([0x5d]);
      Put([Num("i", 0), Num("cf", BaseColour())], ' ');
    }

    method PutRun(t: Run)
      requires Valid()
      modifies this
      ensures Valid() && Abs() == Say(old(Abs()), t)
    {
      hide Read, Silent, OpenPara, Write, Code;
      match t
      case NullChar =>
        Open();
        PutText([0xfffd]);
      case Br =>
        if para {
          PutMark("line", ' ');
        }
      case SoftBr =>
        if para {
          PutText([0x20]);
        }
      case Entity(shown) =>
        Open();
        PutText(shown);
      case RawHtml =>
      case CodeText(code) => EmitCodeText(code);
      case Normal(normal) =>
        Open();
        PutText(normal);
    }

    method Callback(cb: Callback)
      requires Valid()
      modifies this
      ensures Valid() && Abs() == Step(loc, old(Abs()), cb)
    {
      hide Enter, Leave, EnterS, LeaveS, Say, Valid, Abs;
      match cb
      case EnterBlock(b) => EnterBlock(b);
      case LeaveBlock(b) => LeaveBlock(b);
      case EnterSpan(s) => EnterSpan(s);
      case LeaveSpan(s) => LeaveSpan(s);
      case Text(t) => PutRun(t);
    }
  }

  lemma {:induction false} HeaderNames()
    ensures SilentName("rtf") && SilentName("ansi") && SilentName("ansicpg") && SilentName("deff") && SilentName("uc")
    ensures SilentName("viewkind")
  {
  }

  lemma {:induction false} TableNames()
    ensures SilentName("f") && SilentName("fswiss") && SilentName("fmodern") && SilentName("fcharset")
    ensures SilentName("red") && SilentName("green") && SilentName("blue")
  {
  }

  /** A whole document: whatever the parser's callbacks, the reader holds the document's text and the count is its length. */
  method Render(loc: Locale, style: Style, cbs: seq<Callback>)
    returns (out: string, links: seq<Link>, anchors: seq<Anchor>, chars: nat)
    ensures var d := Steps(loc, EMPTY, cbs);
      Read(START, out).text == d.text && chars == |d.text| && links == d.links && anchors == d.anchors
  {
    hide Step, Read;
    var r := new Renderer(loc, style);
    var i := 0;
    while i < |cbs|
      invariant 0 <= i <= |cbs| && r.Valid() && r.Abs() == Steps(loc, EMPTY, cbs[..i])
    {
      r.Callback(cbs[i]);
      assert cbs[..i + 1][..i] == cbs[..i];
      i := i + 1;
    }
    assert cbs[..i] == cbs;
    r.Epilogue();
    return r.out, r.links, r.anchors, r.chars;
  }

  /** The first line break from position i on. */
  method FindBreak(p: Units, i: nat) returns (end: nat)
    requires i <= |p|
    ensures i <= end <= |p| && end - i == FirstBreak(p[i..])
  {
    end := i;
    while end < |p| && p[end] != 10
      invariant i <= end <= |p|
      invariant FirstBreak(p[i..]) == end - i + FirstBreak(p[end..])
    {
      assert p[end..][1..] == p[end + 1..];
      end := end + 1;
    }
  }

  lemma {:induction false} FlushStep(d: Doc)
    ensures d.codeNl > 0 ==> Flushed(Mark(d, LINE).(codeNl := d.codeNl - 1)) == Flushed(d)
    ensures d.codeNl == 0 ==> Flushed(d) == d
  {
    if d.codeNl > 0 {
      assert [LINE] + Lines(d.codeNl - 1) == Lines(d.codeNl);
      assert d.text + [LINE] + Lines(d.codeNl - 1) == d.text + Lines(d.codeNl);
    } else {
      assert d.text + Lines(0) == d.text;
    }
  }

  lemma {:induction false} CodeLinesEnd(d: Doc, p: Units, i: nat)
    requires i == |p|
    ensures CodeLines(d, p[i..]) == d
  {
  }

  /** The next line of p, which ends at `end`, and what follows it. */
  lemma {:induction false} CodeLinesFrom(d: Doc, p: Units, i: nat, end: nat)
    requires i < |p| && i <= end <= |p| && end - i == FirstBreak(p[i..])
    ensures var e := CodeRun(d, p[i..end]);
      CodeLines(d, p[i..]) == if end == |p| then CodeLines(e, p[end..]) else CodeLines(e.(codeNl := e.codeNl + 1), p[end + 1..])
  {
    hide CodeRun, CodeLines, FirstBreak;
    CodeLinesStep(d, p[i..]);
    assert p[i..][..end - i] == p[i..end];
    if end == |p| {
      CodeLinesEnd(CodeRun(d, p[i..end]), p, end);
    } else {
      assert p[i..][end - i + 1..] == p[end + 1..];
    }
  }

  lemma {:induction false} CodeLinesStep(d: Doc, s: Units)
    requires s != []
    ensures var k := FirstBreak(s);
      var d' := CodeRun(d, s[..k]);
      CodeLines(d, s) == if k == |s| then d' else CodeLines(d'.(codeNl := d'.codeNl + 1), s[k + 1..])
  {
  }

  lemma {:induction false} RuleEffect(r: Reader)
    requires r.mode.Plain?
    ensures var ws := [Word("ul"), Word("tab"), Word("ulnone")];
      Simple(ws) && ApplyAll(r, ws) == Show(r, TAB)
  {
    var ws := [Word("ul"), Word("tab"), Word("ulnone")];
    SpanNames();
    assert Letters("tab");
    assert ws[..2][..1][..0] == [] && ws[..2][..1] == [Word("ul")] && ws[..2] == [Word("ul"), Word("tab")];
    assert r.(mode := Plain) == r;
    assert ApplyAll(r, ws[..2][..1][..0]) == r;
    SilentWord(r, Word("ul"));
    assert ApplyAll(r, ws[..2][..1]) == r;
    assert ApplyAll(r, ws[..2]) == Show(r, TAB);
    SilentWord(Show(r, TAB), Word("ulnone"));
  }
}
