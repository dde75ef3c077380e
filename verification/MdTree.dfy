/**
  What a Markdown document shows, by its structure and without the parser's
  callbacks: inline text as strips, blocks as the lines they add to a sheet, each
  line behind the number or marker that waits for it.  The renderer's document ins
  this sheet for every document tree.
*/
module MdTree {
  import opened Rtf
  import opened MdRtf
  import MdCode
  import MdDoc

  // ------------------------------------------------------------------
  // Inline text
  // ------------------------------------------------------------------

  datatype Look = Italic | Bold | Under | Struck | Mono | Math

  datatype Inline =
    | Words(s: Units)
    | Symbol(shown: Units)  // an entity
    | Nul
    | Soft                  // a line break in the source
    | Hard                  // a line break in the text
    | Tag                   // raw HTML
    | Verbatim(code: Units)
    | Styled(look: Look, body: seq<Inline>)
    | Image(alt: seq<Inline>)
    | Linked(wiki: bool, target: Units, body: seq<Inline>)
    | Ref(id: nat)          // a footnote reference

  function LookSpan(l: Look): Span {
    match l
    case Italic => Em
    case Bold => Strong
    case Under => Underline
    case Struck => Del
    case Mono => CodeSpan
    case Math => LatexMath
  }

  /** The parser's callbacks for inline text. */
  function Call(i: Inline): (c: seq<Callback>)
    ensures c != []
    decreases i
  {
    match i
    case Words(s) => [Text(Normal(s))]
    case Symbol(s) => [Text(Entity(s))]
    case Nul => [Text(NullChar)]
    case Soft => [Text(SoftBr)]
    case Hard => [Text(Br)]
    case Tag => [Text(RawHtml)]
    case Verbatim(s) => [Text(CodeText(s))]
    case Styled(l, body) => [EnterSpan(LookSpan(l))] + Calls(body) + [LeaveSpan(LookSpan(l))]
    case Image(alt) => [EnterSpan(Img)] + Calls(alt) + [LeaveSpan(Img)]
    case Linked(wiki, t, body) =>
      var span := if wiki then Wikilink(t) else A(t);
      [EnterSpan(span)] + Calls(body) + [LeaveSpan(span)]
    case Ref(id) => [EnterSpan(FootnoteRef(id)), LeaveSpan(FootnoteRef(id))]
  }

  function Calls(ins: seq<Inline>): seq<Callback>
    decreases ins
  {
    if ins == [] then [] else Call(ins[0]) + Calls(ins[1..])
  }

  /** A stretch of text with its links, counted from its start, and the words of it that may name a heading. */
  datatype Strip = Strip(text: Units, links: seq<Link>, words: Units)

  const NOTHING: Strip := Strip([], [], [])

  function Plain(s: Units): Strip {
    Strip(ShownAll(s), [], s)
  }

  function Shifted(links: seq<Link>, n: nat): seq<Link> {
    seq(|links|, i requires 0 <= i < |links| => Link(links[i].from + n, links[i].upto + n, links[i].target))
  }

  function Join(a: Strip, b: Strip): Strip {
    Strip(a.text + b.text, a.links + Shifted(b.links, |a.text|), a.words + b.words)
  }

  predicate HasLink(i: Inline)
    decreases i
  {
    match i
    case Linked(_, _, _) => true
    case Ref(_) => true
    case Styled(_, body) => HasLinks(body)
    case Image(alt) => HasLinks(alt)
    case _ => false
  }

  predicate HasLinks(ins: seq<Inline>)
    decreases ins
  {
    ins != [] && (HasLink(ins[0]) || HasLinks(ins[1..]))
  }

  /** What inline text shows in a paragraph that has begun.  A link with another one inside is dropped in favour of that. */
  function View(i: Inline): Strip
    decreases i
  {
    match i
    case Words(s) => Plain(s)
    case Symbol(s) => Plain(s)
    case Nul => Strip([0xfffd], [], [0xfffd])
    case Soft => Strip([0x20], [], [0x20])
    case Hard => Strip([LINE], [], [])
    case Tag => NOTHING
    case Verbatim(s) => Plain(s)
    case Styled(_, body) => Views(body)
    case Image(alt) => Join(Strip([0x5b], [], [0x5b]), Join(Views(alt), Strip([0x5d], [], [0x5d])))
    case Linked(_, t, body) =>
      var v := Views(body);
      if HasLinks(body) || v.text == [] || t == [] then v else v.(links := [Link(0, |v.text|, t)])
    case Ref(id) =>
      var shown := ShownAll(Bracketed(id));
      Strip(shown, [Link(0, |shown|, Wide("#fn:") + Wide(Dec(id)))], [])
  }

  function Views(ins: seq<Inline>): Strip
    decreases ins
  {
    if ins == [] then NOTHING else Join(View(ins[0]), Views(ins[1..]))
  }

  /** From d to e the paragraph got the strip v, and has says whether a link was closed on the way. */
  ghost predicate Wrote(d: Doc, e: Doc, v: Strip, has: bool) {
    && e.para && e.text == d.text + v.text && e.links == d.links + Shifted(v.links, |d.text|)
    && e.headText == (if d.heading then d.headText + v.words else d.headText)
    && e == d.(text := e.text, links := e.links, headText := e.headText, inLink := e.inLink, linkAt := e.linkAt,
               linkTarget := e.linkTarget)
    && if has then !e.inLink else e.inLink == d.inLink && e.linkAt == d.linkAt && e.linkTarget == d.linkTarget
  }

  lemma {:induction false} NoShift(n: nat)
    ensures Shifted([], n) == []
  {
  }

  lemma {:induction false} ShiftedJoin(a: Strip, b: Strip, n: nat)
    ensures Shifted(Join(a, b).links, n) == Shifted(a.links, n) + Shifted(b.links, n + |a.text|)
  {
  }

  lemma {:induction false} WroteNothing(d: Doc)
    requires d.para
    ensures Wrote(d, d, NOTHING, false)
  {
    NoShift(|d.text|);
    assert d.text + [] == d.text && d.links + [] == d.links && d.headText + [] == d.headText;
  }

  lemma {:induction false} WroteMore(d: Doc, e: Doc, v: Strip, has: bool, f: Doc, w: Strip, has': bool)
    requires Wrote(d, e, v, has) && Wrote(e, f, w, has')
    ensures Wrote(d, f, Join(v, w), has || has')
  {
    hide Shifted;
    ShiftedJoin(v, w, |d.text|);
  }

  lemma {:induction false} WrotePlain(d: Doc, s: Units)
    requires d.para
    ensures Wrote(d, Write(d, s), Plain(s), false)
  {
    hide ShownAll;
    NoShift(|d.text|);
    assert d.links + [] == d.links;
  }

  lemma {:induction false} OpenOpen(d: Doc)
    ensures OpenPara(d).para && (d.para ==> OpenPara(d) == d)
  {
    MdCode.Opened(d);
    hide OwePar, StartHeading, PutFootnote, PutMarker;
  }

  lemma {:induction false} PlainOne(u: Unit)
    requires u != 10 && u != 13
    ensures Plain([u]) == Strip([u], [], [u])
  {
  }

  lemma {:induction false} WroteMark(d: Doc, u: Unit)
    requires d.para
    ensures Wrote(d, Mark(d, u), Strip([u], [], []), false)
  {
    NoShift(|d.text|);
    assert d.links + [] == d.links && d.headText + [] == d.headText;
  }

  lemma {:induction false} StepsOne(loc: Locale, d: Doc, a: Callback)
    ensures Steps(loc, d, [a]) == Step(loc, d, a) && Steps(loc, d, []) == d
  {
    hide Step;
    assert [a][..0] == [];
    assert Steps(loc, d, []) == d;
  }

  lemma {:induction false} StepsAround(loc: Locale, d: Doc, a: Callback, body: seq<Callback>, b: Callback)
    ensures Steps(loc, d, [a] + body + [b]) == Step(loc, Steps(loc, Step(loc, d, a), body), b)
  {
    hide Step, Steps;
    MdDoc.StepsAppend(loc, d, [a] + body, [b]);
    MdDoc.StepsAppend(loc, d, [a], body);
    StepsOne(loc, d, a);
    StepsOne(loc, Steps(loc, Step(loc, d, a), body), b);
  }

  /** Text callbacks in a paragraph. */
  lemma {:induction false} SaysWords(d: Doc, t: Run, s: Units)
    requires d.para && !d.code
    requires t in {Normal(s), Entity(s), CodeText(s)} || (t == NullChar && s == [0xfffd]) || (t == SoftBr && s == [0x20])
    ensures Wrote(d, Say(d, t), Plain(s), false)
  {
    hide OpenPara, Write, Wrote, Plain;
    OpenOpen(d);
    WrotePlain(d, s);
  }

  lemma {:induction false} ShowsRun(loc: Locale, d: Doc, i: Inline)
    requires d.para && !d.code && !i.Styled? && !i.Image? && !i.Linked? && !i.Ref?
    ensures Wrote(d, Steps(loc, d, Call(i)), View(i), false)
  {
    hide Wrote, OpenPara, Write, Mark, Plain, Steps;
    PlainOne(0xfffd);
    PlainOne(0x20);
    match i
    case Words(s) =>
      SaysWords(d, Normal(s), s);
      StepsOne(loc, d, Text(Normal(s)));
    case Symbol(s) =>
      SaysWords(d, Entity(s), s);
      StepsOne(loc, d, Text(Entity(s)));
    case Verbatim(s) =>
      SaysWords(d, CodeText(s), s);
      StepsOne(loc, d, Text(CodeText(s)));
    case Nul =>
      SaysWords(d, NullChar, [0xfffd]);
      StepsOne(loc, d, Text(NullChar));
    case Soft =>
      SaysWords(d, SoftBr, [0x20]);
      StepsOne(loc, d, Text(SoftBr));
    case Hard =>
      WroteMark(d, LINE);
      StepsOne(loc, d, Text(Br));
    case Tag =>
      WroteNothing(d);
      StepsOne(loc, d, Text(RawHtml));
  }

  lemma {:induction false} ShowsStyled(loc: Locale, d: Doc, l: Look, body: seq<Inline>)
    requires d.para && Wrote(d, Steps(loc, d, Calls(body)), Views(body), HasLinks(body))
    ensures Wrote(d, Steps(loc, d, Call(Styled(l, body))), Views(body), HasLinks(body))
  {
    hide Wrote, OpenPara, Steps;
    OpenOpen(d);
    StepsAround(loc, d, EnterSpan(LookSpan(l)), Calls(body), LeaveSpan(LookSpan(l)));
  }

  lemma {:induction false} ShowsImage(loc: Locale, d: Doc, alt: seq<Inline>, e: Doc)
    requires d.para && e == Write(d, [0x5b]) && Wrote(e, Steps(loc, e, Calls(alt)), Views(alt), HasLinks(alt))
    ensures Wrote(d, Steps(loc, d, Call(Image(alt))), View(Image(alt)), HasLinks(alt))
  {
    hide OpenPara, Steps, Write, Join, Plain;
    OpenOpen(d);
    StepsAround(loc, d, EnterSpan(Img), Calls(alt), LeaveSpan(Img));
    var f := Steps(loc, e, Calls(alt));
    WrotePlain(d, [0x5b]);
    WrotePlain(f, [0x5d]);
    PlainOne(0x5b);
    PlainOne(0x5d);
    hide Wrote;
    var a, b := Strip([0x5b], [], [0x5b]), Strip([0x5d], [], [0x5d]);
    WroteMore(e, f, Views(alt), HasLinks(alt), Write(f, [0x5d]), b, false);
    WroteMore(d, e, a, false, Write(f, [0x5d]), Join(Views(alt), b), HasLinks(alt));
  }

  lemma {:induction false} ShowsLinked(loc: Locale, d: Doc, wiki: bool, t: Units, body: seq<Inline>)
    requires d.para && Wrote(BeginLink(d, t), Steps(loc, BeginLink(d, t), Calls(body)), Views(body), HasLinks(body))
    ensures Wrote(d, Steps(loc, d, Call(Linked(wiki, t, body))), View(Linked(wiki, t, body)), true)
  {
    hide OpenPara, Steps, HasLinks, Views;
    OpenOpen(d);
    var span := if wiki then Wikilink(t) else A(t);
    StepsAround(loc, d, EnterSpan(span), Calls(body), LeaveSpan(span));
    var b := Steps(loc, BeginLink(d, t), Calls(body));
    var v := Views(body);
    if !HasLinks(body) {
      NoLinks(body);
      NoShift(|d.text|);
      assert d.links + [] == d.links;
    }
  }

  /** Text without a link span has no links. */
  lemma {:induction false} NoLinks(ins: seq<Inline>)
    requires !HasLinks(ins)
    ensures Views(ins).links == []
    decreases ins
  {
    if ins != [] {
      NoLinks(ins[1..]);
      NoLink(ins[0]);
    }
  }

  lemma {:induction false} NoLink(i: Inline)
    requires !HasLink(i)
    ensures View(i).links == []
    decreases i
  {
    match i
    case Styled(_, body) => NoLinks(body);
    case Image(alt) => NoLinks(alt);
    case _ =>
  }

  lemma {:induction false} ShowsRef(loc: Locale, d: Doc, id: nat)
    requires d.para
    ensures Wrote(d, Steps(loc, d, Call(Ref(id))), View(Ref(id)), true)
  {
    hide OpenPara, Steps, ShownAll, Bracketed, Wide, Dec;
    OpenOpen(d);
    var span := FootnoteRef(id);
    StepsAround(loc, d, EnterSpan(span), [], LeaveSpan(span));
    StepsOne(loc, Step(loc, d, EnterSpan(span)), LeaveSpan(span));
    assert [EnterSpan(span)] + [] + [LeaveSpan(span)] == Call(Ref(id));
    SomeNumber(id);
  }

  lemma {:induction false} SomeNumber(id: nat)
    ensures Bracketed(id) != [] && Wide("#fn:") + Wide(Dec(id)) != []
  {
  }

  /** One piece of inline text in a paragraph. */
  lemma {:induction false} Shows(loc: Locale, d: Doc, i: Inline)
    requires d.para && !d.code
    ensures Wrote(d, Steps(loc, d, Call(i)), View(i), HasLink(i))
    decreases i
  {
    hide Wrote, Steps, Write;
    match i
    case Styled(l, body) =>
      AllShow(loc, d, body);
      ShowsStyled(loc, d, l, body);
    case Image(alt) =>
      var e := Write(d, [0x5b]);
      Kept(d, [0x5b]);
      AllShow(loc, e, alt);
      ShowsImage(loc, d, alt, e);
    case Linked(wiki, t, body) =>
      AllShow(loc, BeginLink(d, t), body);
      ShowsLinked(loc, d, wiki, t, body);
    case Ref(id) =>
      ShowsRef(loc, d, id);
    case _ =>
      ShowsRun(loc, d, i);
  }

  lemma {:induction false} Kept(d: Doc, s: Units)
    ensures Write(d, s).para == d.para && Write(d, s).code == d.code
  {
  }

  lemma {:induction false} WroteOpen(d: Doc, e: Doc, v: Strip, has: bool)
    requires Wrote(d, e, v, has)
    ensures e.para && e.code == d.code
  {
  }

  /** Inline text in a paragraph shows its view, whatever stood before it. */
  lemma {:induction false} AllShow(loc: Locale, d: Doc, ins: seq<Inline>)
    requires d.para && !d.code
    ensures Wrote(d, Steps(loc, d, Calls(ins)), Views(ins), HasLinks(ins))
    decreases ins
  {
    hide Wrote, Step, Call, View, Join;
    if ins == [] {
      WroteNothing(d);
    } else {
      var e := Steps(loc, d, Call(ins[0]));
      Shows(loc, d, ins[0]);
      WroteOpen(d, e, View(ins[0]), HasLink(ins[0]));
      AllShow(loc, e, ins[1..]);
      MdDoc.StepsAppend(loc, d, Call(ins[0]), Calls(ins[1..]));
      WroteMore(d, e, View(ins[0]), HasLink(ins[0]), Steps(loc, e, Calls(ins[1..])), Views(ins[1..]), HasLinks(ins[1..]));
    }
  }

  // ------------------------------------------------------------------
  // Lines
  // ------------------------------------------------------------------

  /** A line of a document and the anchors in it, counted from its start. */
  datatype Line = Line(strip: Strip, anchors: seq<Anchor>)

  /** The lines so far, and what waits for the next one: a footnote's number, an item's marker. */
  datatype Sheet = Sheet(lines: seq<Line>, number: Option<nat>, marker: Units)

  datatype Option<T> = None | Some(value: T)

  const BLANK: Sheet := Sheet([], None, [])

  /** The text of a document: its lines with a break between any two. */
  function Body(lines: seq<Line>): Units
    decreases |lines|, 0
  {
    if lines == [] then [] else Origin(lines[..|lines| - 1]) + lines[|lines| - 1].strip.text
  }

  /** The text in front of the next line. */
  function Origin(lines: seq<Line>): Units
    decreases |lines|, 1
  {
    if lines == [] then [] else Body(lines) + [PAR]
  }

  function Pinned(anchors: seq<Anchor>, n: nat): seq<Anchor> {
    seq(|anchors|, i requires 0 <= i < |anchors| => Anchor(anchors[i].name, anchors[i].at + n))
  }

  function LinksOf(lines: seq<Line>): seq<Link> {
    if lines == [] then []
    else
      var n := |lines| - 1;
      LinksOf(lines[..n]) + Shifted(lines[n].strip.links, |Origin(lines[..n])|)
  }

  function AnchorsOf(lines: seq<Line>): seq<Anchor> {
    if lines == [] then []
    else
      var n := |lines| - 1;
      AnchorsOf(lines[..n]) + Pinned(lines[n].anchors, |Origin(lines[..n])|)
  }

  /** Text with a tab behind it. */
  function Tabbed(s: Units): Strip {
    Strip(ShownAll(s) + [TAB], [], s)
  }

  /** What stands in front of the next line. */
  function Prefix(s: Sheet): Strip {
    Join(if s.number.Some? then Tabbed(Bracketed(s.number.value)) else NOTHING,
         if s.marker != [] then Tabbed(s.marker) else NOTHING)
  }

  /** The anchor of a footnote, at the line that shows its number. */
  function Target(s: Sheet): seq<Anchor> {
    if s.number.Some? then [Anchor(Wide("fn:") + Wide(Dec(s.number.value)), 0)] else []
  }

  /** The anchor of a heading, named after all its words. */
  function Title(loc: Locale, words: Units): seq<Anchor> {
    if loc.slug(words) != [] then [Anchor(loc.slug(words), 0)] else []
  }

  /** One more line, behind what waits for it. */
  function AddLine(s: Sheet, v: Strip): Sheet {
    Sheet(s.lines + [Line(Join(Prefix(s), v), Target(s))], None, [])
  }

  function AddHeading(loc: Locale, s: Sheet, v: Strip): Sheet {
    var whole := Join(Prefix(s), v);
    Sheet(s.lines + [Line(whole, Target(s) + Title(loc, whole.words))], None, [])
  }

  /** Line breaks and HTML in front of the first text show nothing. */
  function Lead(ins: seq<Inline>): (r: seq<Inline>) {
    if ins != [] && (ins[0].Soft? || ins[0].Hard? || ins[0].Tag?) then Lead(ins[1..]) else ins
  }

  // ------------------------------------------------------------------
  // Blocks
  // ------------------------------------------------------------------

  datatype Node =
    | Para(text: seq<Inline>)
    | Heading(level: nat, title: seq<Inline>)
    | Bar                                               // thematic break
    | Fence(code: Units)                                // code block
    | Quoted(nodes: seq<Node>)
    | Admonished(caption: Units, nodes: seq<Node>)
    | Listing(first: Option<nat>, entries: seq<Entry>)  // bulleted, or numbered from first
    | Notes(notes: seq<Node>)                           // footnote definitions
    | Note(id: nat, nodes: seq<Node>)
    | Grid(cols: nat, head: seq<seq<seq<Inline>>>, rows: seq<seq<seq<Inline>>>)
    | Raw                                               // HTML block

  /** A list item: its box if it is a task, the text directly in it, and the blocks behind that. */
  datatype Entry = Entry(task: Option<char>, text: seq<Inline>, nodes: seq<Node>)

  function ItemOf(task: Option<char>): Block {
    if task.Some? then Li(true, task.value) else Li(false, ' ')
  }

  function Around(b: Block, inside: seq<Callback>): seq<Callback> {
    [EnterBlock(b)] + inside + [LeaveBlock(b)]
  }

  /** What kind of block a node is. */
  function BlockOf(n: Node): Block {
    match n
    case Para(_) => P
    case Heading(level, _) => H(level)
    case Bar => Hr
    case Fence(_) => CodeBlock
    case Quoted(_) => Quote
    case Admonished(t, _) => Admonition(t)
    case Listing(first, _) => if first.Some? then Ol(first.value) else Ul
    case Notes(_) => FootnoteSection
    case Note(id, _) => FootnoteDef(id)
    case Grid(cols, _, _) => Table(cols)
    case Raw => Html
  }

  /** The parser's callbacks for a block. */
  function NodeCalls(n: Node): seq<Callback>
    decreases n, 1
  {
    Around(BlockOf(n), Inside(n))
  }

  function Inside(n: Node): seq<Callback>
    decreases n, 0
  {
    match n
    case Para(ins) => Calls(ins)
    case Heading(_, ins) => Calls(ins)
    case Bar => []
    case Fence(code) => [Text(CodeText(code))]
    case Quoted(nodes) => NodesCalls(nodes)
    case Admonished(_, nodes) => NodesCalls(nodes)
    case Listing(_, entries) => EntriesCalls(entries)
    case Notes(notes) => NodesCalls(notes)
    case Note(_, nodes) => NodesCalls(nodes)
    case Grid(_, head, rows) => Around(Thead, RowsCalls(Th, head)) + Around(Tbody, RowsCalls(Td, rows))
    case Raw => [Text(RawHtml)]
  }

  function NodesCalls(nodes: seq<Node>): seq<Callback>
    decreases nodes, 0
  {
    if nodes == [] then [] else NodeCalls(nodes[0]) + NodesCalls(nodes[1..])
  }

  function EntryCalls(e: Entry): seq<Callback>
    decreases e, 0
  {
    Around(ItemOf(e.task), Calls(e.text) + NodesCalls(e.nodes))
  }

  function EntriesCalls(entries: seq<Entry>): seq<Callback>
    decreases entries, 0
  {
    if entries == [] then [] else EntryCalls(entries[0]) + EntriesCalls(entries[1..])
  }

  function CellsCalls(cell: Block, cells: seq<seq<Inline>>): seq<Callback> {
    if cells == [] then []
    else CellsCalls(cell, cells[..|cells| - 1]) + Around(cell, Calls(cells[|cells| - 1]))
  }

  function RowsCalls(cell: Block, rows: seq<seq<seq<Inline>>>): seq<Callback> {
    if rows == [] then []
    else RowsCalls(cell, rows[..|rows| - 1]) + Around(Tr, CellsCalls(cell, rows[|rows| - 1]))
  }

  /** The marker of an entry: its box, its number in the list, or the bullet for its depth. */
  function MarkOf(task: Option<char>, first: Option<nat>, before: nat, depth: nat): (m: Units)
    ensures m != []
  {
    if task.Some? then [if task.value == ' ' then 0x2610 else 0x2611]
    else if first.Some? then Wide(Dec(first.value + before)) + [0x2e]
    else [if depth % 3 == 0 then 0x2022 else if depth % 3 == 1 then 0x25e6 else 0x25aa]
  }

  /** The cells of a row with a tab between any two. */
  function RowView(cells: seq<seq<Inline>>): Strip {
    if cells == [] then NOTHING
    else if |cells| == 1 then Views(cells[0])
    else Join(RowView(cells[..|cells| - 1]), Join(Strip([TAB], [], []), Views(cells[|cells| - 1])))
  }

  function LayText(s: Sheet, ins: seq<Inline>): Sheet {
    if Lead(ins) == [] then s else AddLine(s, Views(Lead(ins)))
  }

  function LayRows(s: Sheet, rows: seq<seq<seq<Inline>>>): Sheet {
    if rows == [] then s
    else
      var t := LayRows(s, rows[..|rows| - 1]);
      if rows[|rows| - 1] == [] then t else AddLine(t, RowView(rows[|rows| - 1]))
  }

  /** The sheet after a block inside depth lists. */
  function Lay(loc: Locale, s: Sheet, n: Node, depth: nat): Sheet
    decreases n
  {
    match n
    case Para(ins) => LayText(s, ins)
    case Heading(_, ins) => if Lead(ins) == [] then s else AddHeading(loc, s, Views(Lead(ins)))
    case Bar => AddLine(s, Strip([TAB], [], []))
    case Fence(code) =>
      var t := MdCode.Trimmed(code);
      if t == [] then s else AddLine(s, Strip(MdCode.CodeShown(t), [], []))
    case Quoted(nodes) => LayAll(loc, s, nodes, depth)
    case Admonished(t, nodes) => LayAll(loc, AddLine(s, Plain(Capitalised(loc, t))), nodes, depth)
    case Listing(first, entries) => LayEntries(loc, s, entries, first, 0, depth)
    case Notes(notes) => LayAll(loc, AddLine(s, Strip([TAB], [], [])), notes, depth)
    case Note(id, nodes) =>
      var t := LayAll(loc, s.(number := Some(id)), nodes, depth);
      if t.number.Some? then AddLine(t, NOTHING) else t
    case Grid(_, head, rows) => LayRows(LayRows(s, head), rows)
    case Raw => s
  }

  function LayAll(loc: Locale, s: Sheet, nodes: seq<Node>, depth: nat): Sheet
    decreases nodes
  {
    if nodes == [] then s else LayAll(loc, Lay(loc, s, nodes[0], depth), nodes[1..], depth)
  }

  /** An entry of a list at the given depth, with `before` numbered or bulleted ones in front of it. */
  function LayEntry(loc: Locale, s: Sheet, e: Entry, first: Option<nat>, before: nat, depth: nat): Sheet
    decreases e
  {
    var t := LayText(s.(marker := MarkOf(e.task, first, before, depth)), e.text);
    var u := LayAll(loc, t, e.nodes, depth + 1);
    if u.marker != [] then AddLine(u, NOTHING) else u
  }

  function LayEntries(loc: Locale, s: Sheet, entries: seq<Entry>, first: Option<nat>, before: nat, depth: nat): Sheet
    decreases entries
  {
    if entries == [] then s
    else
      LayEntries(loc, LayEntry(loc, s, entries[0], first, before, depth), entries[1..], first,
                 if entries[0].task == None then before + 1 else before, depth)
  }

  // ------------------------------------------------------------------
  // The renderer's document between lines and on a line
  // ------------------------------------------------------------------

  /** No line is open, and d holds the sheet s inside the lists ls. */
  ghost predicate Holds(d: Doc, s: Sheet, ls: seq<List>) {
    && !d.para && !d.inLink && d.lists == ls && d.marker == s.marker && d.needPar == (s.lines != [])
    && d.footnoteAtStart == s.number.Some? && (s.number.Some? ==> d.footnoteId == s.number.value)
    && d.text == Body(s.lines) && d.links == LinksOf(s.lines) && d.anchors == AnchorsOf(s.lines)
  }

  /** Neither in a heading nor in a code block. */
  predicate Common(d: Doc) {
    !d.heading && !d.code
  }

  /** The line behind the sheet s holds what waited for it and v so far. */
  ghost predicate OnLine(d: Doc, s: Sheet, v: Strip, ls: seq<List>) {
    var at := |Origin(s.lines)|;
    var whole := Join(Prefix(s), v);
    && d.para && !d.needPar && !d.inLink && d.lists == ls && d.marker == [] && !d.footnoteAtStart
    && d.text == Origin(s.lines) + whole.text && d.links == LinksOf(s.lines) + Shifted(whole.links, at)
    && d.anchors == AnchorsOf(s.lines) + Pinned(Target(s), at)
    && (d.heading ==> d.headText == whole.words && d.headAt == at)
  }

  lemma {:induction false} JoinParts(a: Strip, b: Strip, c: Strip)
    ensures Join(Join(a, b), c) == Join(a, Join(b, c))
    ensures Join(NOTHING, a) == a == Join(a, NOTHING)
  {
    ShiftedJoin(b, c, |a.text|);
  }

  lemma {:induction false} FootnoteShown(d: Doc, s: Sheet, ls: seq<List>)
    requires d.footnoteAtStart == s.number.Some? && (s.number.Some? ==> d.footnoteId == s.number.value)
    ensures var e := PutFootnote(d);
      var v := if s.number.Some? then Tabbed(Bracketed(s.number.value)) else NOTHING;
      && e == d.(text := d.text + v.text, anchors := d.anchors + Pinned(Target(s), |d.text|), footnoteAtStart := false,
                 headText := if d.heading then d.headText + v.words else d.headText)
  {
    hide ShownAll, Bracketed, Wide, Dec;
    if s.number.Some? {
      var a := Anchor(Wide("fn:") + Wide(Dec(s.number.value)), |d.text|);
      assert Pinned(Target(s), |d.text|) == [a];
      var shown := ShownAll(Bracketed(d.footnoteId));
      assert d.text + shown + [TAB] == d.text + (shown + [TAB]);
    } else {
      assert Pinned([], |d.text|) == [];
      assert d.text + [] == d.text && d.anchors + [] == d.anchors && d.headText + [] == d.headText;
    }
  }

  lemma {:induction false} MarkerShown(d: Doc)
    ensures var e := PutMarker(d);
      var v := if d.marker != [] then Tabbed(d.marker) else NOTHING;
      && e == d.(text := d.text + v.text, marker := [], headText := if d.heading then d.headText + v.words else d.headText)
  {
    hide ShownAll;
    if d.marker != [] {
      assert d.text + ShownAll(d.marker) + [TAB] == d.text + (ShownAll(d.marker) + [TAB]);
    } else {
      assert d.text + [] == d.text && d.headText + [] == d.headText;
    }
  }

  lemma {:induction false} BreakShown(d: Doc, s: Sheet, ls: seq<List>)
    requires Holds(d, s, ls)
    ensures OwePar(d) == d.(text := Origin(s.lines), needPar := false, para := true)
  {
    assert d.text + [] == d.text;
  }

  lemma {:induction false} Awaited(d: Doc, s: Sheet, ls: seq<List>)
    requires Holds(d, s, ls)
    ensures !d.para && d.marker == s.marker && d.footnoteAtStart == s.number.Some?
    ensures s.number.Some? ==> d.footnoteId == s.number.value
  {
  }

  lemma {:induction false} PrefixParts(s: Sheet)
    ensures var f, m := if s.number.Some? then Tabbed(Bracketed(s.number.value)) else NOTHING,
                        if s.marker != [] then Tabbed(s.marker) else NOTHING;
      Prefix(s).text == f.text + m.text && Prefix(s).words == f.words + m.words
  {
  }

  lemma {:induction false} PartsShown(a: Doc, s: Sheet)
    requires a.marker == s.marker && a.footnoteAtStart == s.number.Some? && (s.number.Some? ==> a.footnoteId == s.number.value)
    ensures PutMarker(PutFootnote(a)) == a.(
      text := a.text + Prefix(s).text, anchors := a.anchors + Pinned(Target(s), |a.text|), footnoteAtStart := false,
      marker := [], headText := if a.heading then a.headText + Prefix(s).words else a.headText)
  {
    hide PutFootnote, PutMarker, Target, Pinned, Prefix, Tabbed, Bracketed;
    PrefixParts(s);
    FootnoteShown(a, s, a.lists);
    MarkerShown(PutFootnote(a));
    var f, m := if s.number.Some? then Tabbed(Bracketed(s.number.value)) else NOTHING, if s.marker != [] then Tabbed(s.marker) else NOTHING;
    assert a.text + f.text + m.text == a.text + (f.text + m.text);
    assert a.headText + f.words + m.words == a.headText + (f.words + m.words);
  }

  lemma {:induction false} PrefixShown(d: Doc, s: Sheet, ls: seq<List>)
    requires Holds(d, s, ls)
    ensures OpenPara(d) == d.(
      text := Origin(s.lines) + Prefix(s).text, needPar := false, para := true, marker := [], footnoteAtStart := false,
      anchors := d.anchors + Pinned(Target(s), |Origin(s.lines)|),
      headText := if d.heading then d.headText + Prefix(s).words else d.headText,
      headAt := if d.heading && d.headAt < 0 then |Origin(s.lines)| else d.headAt)
  {
    hide OwePar, PutFootnote, PutMarker, Target, Pinned, Origin, Holds, Prefix;
    BreakShown(d, s, ls);
    Awaited(d, s, ls);
    PartsShown(StartHeading(OwePar(d)), s);
  }

  /** Opening a paragraph begins a line with what waited for it. */
  lemma {:induction false} LineOpens(d: Doc, s: Sheet, ls: seq<List>)
    requires Holds(d, s, ls) && (d.heading ==> d.headText == [] && d.headAt == -1)
    ensures OnLine(OpenPara(d), s, NOTHING, ls)
    ensures OpenPara(d).heading == d.heading && OpenPara(d).code == d.code && OpenPara(d).cell == d.cell
  {
    hide OpenPara, Prefix, Pinned, Target, Origin, Shifted, Join;
    PrefixShown(d, s, ls);
    JoinParts(Prefix(s), NOTHING, NOTHING);
    NoLinksAhead(s);
    assert [] + Prefix(s).words == Prefix(s).words;
    assert d.links + [] == d.links;
  }

  lemma {:induction false} NoLinksAhead(s: Sheet)
    ensures Prefix(s).links == [] && Shifted(Prefix(s).links, |Origin(s.lines)|) == []
  {
  }

  lemma {:induction false} LineGrows(d: Doc, s: Sheet, v: Strip, ls: seq<List>, e: Doc, w: Strip, has: bool)
    requires OnLine(d, s, v, ls) && Wrote(d, e, w, has)
    ensures OnLine(e, s, Join(v, w), ls) && e.heading == d.heading && e.code == d.code && e.cell == d.cell
  {
    hide Prefix, Origin, Shifted, Pinned;
    JoinParts(Prefix(s), v, w);
    ShiftedJoin(Join(Prefix(s), v), w, |Origin(s.lines)|);
    var a := Join(Prefix(s), v);
    assert d.text + w.text == Origin(s.lines) + (a.text + w.text);
    var l, m := Shifted(a.links, |Origin(s.lines)|), Shifted(w.links, |d.text|);
    assert LinksOf(s.lines) + l + m == LinksOf(s.lines) + (l + m);
  }

  lemma {:induction false} LineAdded(lines: seq<Line>, l: Line)
    ensures var at := |Origin(lines)|;
      && Body(lines + [l]) == Origin(lines) + l.strip.text
      && LinksOf(lines + [l]) == LinksOf(lines) + Shifted(l.strip.links, at)
      && AnchorsOf(lines + [l]) == AnchorsOf(lines) + Pinned(l.anchors, at)
  {
    hide Origin;
    assert (lines + [l])[..|lines|] == lines;
  }

  lemma {:induction false} LineCloses(d: Doc, s: Sheet, v: Strip, ls: seq<List>)
    requires OnLine(d, s, v, ls)
    ensures Holds(ClosePara(d), AddLine(s, v), ls)
    ensures ClosePara(d).heading == d.heading && ClosePara(d).code == d.code
  {
    hide Prefix, Origin, Shifted, Pinned, Target, Join;
    LineAdded(s.lines, Line(Join(Prefix(s), v), Target(s)));
  }

  lemma {:induction false} PinnedMore(a: seq<Anchor>, b: seq<Anchor>, n: nat)
    ensures Pinned(a + b, n) == Pinned(a, n) + Pinned(b, n)
  {
  }

  /** A heading that shows something ends with its anchor. */
  lemma {:induction false} HeadingCloses(loc: Locale, d: Doc, s: Sheet, v: Strip, ls: seq<List>)
    requires OnLine(d, s, v, ls) && d.heading
    ensures var e := EndHeading(loc, ClosePara(d)); Holds(e, AddHeading(loc, s, v), ls) && !e.heading && e.code == d.code
  {
    hide Prefix, Origin, Shifted, Target, Join;
    var whole, at := Join(Prefix(s), v), |Origin(s.lines)|;
    LineAdded(s.lines, Line(whole, Target(s) + Title(loc, whole.words)));
    PinnedMore(Target(s), Title(loc, whole.words), at);
    var t := Pinned(Title(loc, whole.words), at);
    assert t == if loc.slug(whole.words) != [] then [Anchor(loc.slug(whole.words), at)] else [];
    hide Pinned;
    assert AnchorsOf(s.lines) + (Pinned(Target(s), at) + t) == AnchorsOf(s.lines) + Pinned(Target(s), at) + t;
    assert d.anchors + [] == d.anchors;
  }

  // ------------------------------------------------------------------
  // Text and headings
  // ------------------------------------------------------------------

  /** A callback that begins a paragraph if there is none. */
  predicate Opening(cb: Callback) {
    cb.EnterSpan? || (cb.Text? && !cb.t.Br? && !cb.t.SoftBr? && !cb.t.RawHtml?)
  }

  lemma {:induction false} OpeningStep(loc: Locale, d: Doc, cb: Callback)
    requires Opening(cb) && !d.code
    ensures Step(loc, d, cb) == Step(loc, OpenPara(d), cb)
  {
    OpenOpen(OpenPara(d));
    OpenOpen(d);
    MdCode.Opened(d);
    hide OpenPara, Write, BeginLink, ShownAll, Bracketed, Wide, Dec;
  }

  lemma {:induction false} FirstOpens(i: Inline)
    requires !i.Soft? && !i.Hard? && !i.Tag?
    ensures Opening(Call(i)[0])
  {
    hide Calls;
  }

  /** Text begins a paragraph at the first thing in it that shows. */
  lemma {:induction false} LeadOpens(loc: Locale, d: Doc, ins: seq<Inline>)
    requires !d.para && !d.code
    ensures Steps(loc, d, Calls(ins)) == if Lead(ins) == [] then d else Steps(loc, OpenPara(d), Calls(Lead(ins)))
    decreases |ins|
  {
    hide Step, OpenPara;
    if ins != [] {
      var c, rest := Call(ins[0]), Calls(ins[1..]);
      MdDoc.StepsAppend(loc, d, c, rest);
      if !(ins[0].Soft? || ins[0].Hard? || ins[0].Tag?) {
        FirstOpens(ins[0]);
        var all := Calls(ins);
        assert all == [all[0]] + all[1..] && all[0] == c[0];
        MdDoc.StepsAppend(loc, d, [all[0]], all[1..]);
        MdDoc.StepsAppend(loc, OpenPara(d), [all[0]], all[1..]);
        StepsOne(loc, d, all[0]);
        StepsOne(loc, OpenPara(d), all[0]);
        OpeningStep(loc, d, all[0]);
      } else {
        NotYet(loc, d, ins[0]);
        LeadOpens(loc, d, ins[1..]);
      }
    } else {
      StepsOne(loc, d, Text(Br));
    }
  }

  lemma {:induction false} NotYet(loc: Locale, d: Doc, i: Inline)
    requires !d.para && (i.Soft? || i.Hard? || i.Tag?)
    ensures Steps(loc, d, Call(i)) == d
  {
    hide Steps;
    StepsOne(loc, d, Call(i)[0]);
  }

  /** Text in front of which nothing is open. */
  lemma {:induction false} TextLine(loc: Locale, d: Doc, s: Sheet, ls: seq<List>, ins: seq<Inline>)
    requires Holds(d, s, ls) && !d.code && (d.heading ==> d.headText == [] && d.headAt == -1)
    ensures var e := Steps(loc, d, Calls(ins));
      && e.heading == d.heading && e.code == d.code
      && if Lead(ins) == [] then e == d else OnLine(e, s, Views(Lead(ins)), ls)
  {
    hide Holds, OnLine, Wrote, OpenPara, Steps, Calls, Views, Join;
    Awaited(d, s, ls);
    LeadOpens(loc, d, ins);
    if Lead(ins) != [] {
      var a := OpenPara(d);
      LineOpens(d, s, ls);
      OpenOpen(d);
      AllShow(loc, a, Lead(ins));
      var e := Steps(loc, a, Calls(Lead(ins)));
      LineGrows(a, s, NOTHING, ls, e, Views(Lead(ins)), HasLinks(Lead(ins)));
      JoinParts(Views(Lead(ins)), NOTHING, NOTHING);
    }
  }

  lemma {:induction false} ClosedAgain(d: Doc, s: Sheet, ls: seq<List>)
    requires Holds(d, s, ls)
    ensures ClosePara(d) == d
  {
  }

  lemma {:induction false} TextCloses(loc: Locale, d: Doc, s: Sheet, ls: seq<List>, ins: seq<Inline>)
    requires Holds(d, s, ls) && Common(d)
    ensures var e := Steps(loc, d, Calls(ins));
      && Holds(ClosePara(e), LayText(s, ins), ls) && Common(ClosePara(e)) && Common(e) && (e.para ==> e.marker == [])
  {
    hide Holds, ClosePara, Steps, Calls, Views;
    var e := Steps(loc, d, Calls(ins));
    TextLine(loc, d, s, ls, ins);
    Awaited(d, s, ls);
    if Lead(ins) == [] {
      ClosedAgain(d, s, ls);
    } else {
      LineCloses(e, s, Views(Lead(ins)), ls);
    }
    hide OnLine;
  }

  lemma {:induction false} HeadingLine(loc: Locale, d: Doc, s: Sheet, ls: seq<List>, level: nat, ins: seq<Inline>)
    requires Holds(d, s, ls) && Common(d)
    ensures var e := Steps(loc, d, NodeCalls(Heading(level, ins)));
      Holds(e, Lay(loc, s, Heading(level, ins), |ls|), ls) && Common(e)
  {
    hide Steps, Calls, Views, OnLine;
    StepsAround(loc, d, EnterBlock(H(level)), Calls(ins), LeaveBlock(H(level)));
    ClosedAgain(d, s, ls);
    var a := d.(heading := true, headAt := -1, headText := []);
    assert Step(loc, d, EnterBlock(H(level))) == a;
    assert Holds(a, s, ls);
    hide Holds;
    TextLine(loc, a, s, ls, ins);
    var b := Steps(loc, a, Calls(ins));
    if Lead(ins) == [] {
      ClosedAgain(a, s, ls);
      EmptyHeading(loc, a, s, ls);
    } else {
      HeadingCloses(loc, b, s, Views(Lead(ins)), ls);
    }
  }

  lemma {:induction false} EmptyHeading(loc: Locale, d: Doc, s: Sheet, ls: seq<List>)
    requires Holds(d, s, ls) && d.headAt == -1
    ensures Holds(EndHeading(loc, d), s, ls)
  {
  }

  // ------------------------------------------------------------------
  // Rules, titles and code
  // ------------------------------------------------------------------

  lemma {:induction false} RuleLine(d: Doc, s: Sheet, ls: seq<List>)
    requires Holds(d, s, ls) && Common(d)
    ensures Holds(Rule(d), AddLine(s, Strip([TAB], [], [])), ls) && Common(Rule(d))
  {
    hide Holds, OnLine, Wrote, OpenPara, ClosePara, Mark, Join;
    ClosedAgain(d, s, ls);
    LineOpens(d, s, ls);
    OpenOpen(d);
    var a := OpenPara(d);
    WroteMark(a, TAB);
    LineGrows(a, s, NOTHING, ls, Mark(a, TAB), Strip([TAB], [], []), false);
    JoinParts(Strip([TAB], [], []), NOTHING, NOTHING);
    LineCloses(Mark(a, TAB), s, Strip([TAB], [], []), ls);
  }

  lemma {:induction false} TitleLine(d: Doc, s: Sheet, ls: seq<List>, t: Units)
    requires Holds(d, s, ls) && Common(d)
    ensures var e := ClosePara(Write(OpenPara(ClosePara(d)), t)); Holds(e, AddLine(s, Plain(t)), ls) && Common(e)
  {
    hide Holds, OnLine, Wrote, OpenPara, ClosePara, Write, Join, Plain;
    ClosedAgain(d, s, ls);
    LineOpens(d, s, ls);
    OpenOpen(d);
    var a := OpenPara(d);
    WrotePlain(a, t);
    LineGrows(a, s, NOTHING, ls, Write(a, t), Plain(t), false);
    JoinParts(Plain(t), NOTHING, NOTHING);
    LineCloses(Write(a, t), s, Plain(t), ls);
  }

  /** A number or marker that nothing followed gets a line of its own. */
  lemma {:induction false} BareLine(d: Doc, s: Sheet, ls: seq<List>)
    requires Holds(d, s, ls) && Common(d)
    ensures Holds(ClosePara(OpenPara(d)), AddLine(s, NOTHING), ls) && Common(ClosePara(OpenPara(d)))
  {
    hide Holds, OnLine, OpenPara, ClosePara;
    LineOpens(d, s, ls);
    LineCloses(OpenPara(d), s, NOTHING, ls);
  }

  /** Fields a line does not depend on. */
  lemma {:induction false} SameLine(d: Doc, s: Sheet, v: Strip, ls: seq<List>, e: Doc)
    requires OnLine(d, s, v, ls) && e == d.(codeNl := e.codeNl, cell := e.cell)
    ensures OnLine(e, s, v, ls)
  {
    hide Join, Prefix, Origin, Shifted, Pinned, Target;
  }

  lemma {:induction false} SameSheet(d: Doc, s: Sheet, ls: seq<List>, e: Doc)
    requires Holds(d, s, ls) && e == d.(code := e.code, codeNl := e.codeNl, cell := e.cell)
    ensures Holds(e, s, ls)
  {
  }

  /** A code block adds its text to a line without a heading. */
  lemma {:induction false} CodeWrote(d: Doc, e: Doc, shown: Units)
    requires d.para && !d.heading && e == d.(text := d.text + shown, codeNl := e.codeNl)
    ensures Wrote(d, e.(codeNl := d.codeNl), Strip(shown, [], []), false)
  {
    NoShift(|d.text|);
    assert d.links + [] == d.links;
  }

  lemma {:induction false} CodeSaid(d: Doc, code: Units)
    requires d.code
    ensures Say(d, CodeText(code)) == MdCode.CodeUnits(d, code)
  {
    hide CodeLines, MdCode.CodeUnits;
    MdCode.LinesAreUnits(d, code);
  }

  lemma {:induction false} CodeLine(loc: Locale, d: Doc, s: Sheet, ls: seq<List>, code: Units)
    requires Holds(d, s, ls) && Common(d)
    ensures var e := Steps(loc, d, NodeCalls(Fence(code)));
      Holds(e, Lay(loc, s, Fence(code), |ls|), ls) && Common(e)
  {
    hide Steps, Say, Holds, ClosePara, MdCode.CodeUnits, MdCode.CodeShown, MdCode.Trimmed, OnLine, OpenPara, AddLine;
    StepsAround(loc, d, EnterBlock(CodeBlock), [Text(CodeText(code))], LeaveBlock(CodeBlock));
    ClosedAgain(d, s, ls);
    var a := d.(code := true, codeNl := 0);
    SameSheet(d, s, ls, a);
    var e := MdCode.CodeUnits(a, code);
    StepsOne(loc, a, Text(CodeText(code)));
    CodeSaid(a, code);
    MdCode.UnitsText(a, code);
    MdCode.UnitsFields(a, code);
    var t := MdCode.Trimmed(code);
    if t == [] {
      SameSheet(a, s, ls, e);
      ClosedAgain(e, s, ls);
      SameSheet(e, s, ls, e.(code := false, codeNl := 0));
    } else {
      var o, v := OpenPara(a), Strip(MdCode.CodeShown(t), [], []);
      LineOpens(a, s, ls);
      CodeWrote(o, e, MdCode.CodeShown(t));
      LineGrows(o, s, NOTHING, ls, e.(codeNl := o.codeNl), v, false);
      JoinParts(v, NOTHING, NOTHING);
      SameLine(e.(codeNl := o.codeNl), s, v, ls, e);
      LineCloses(e, s, v, ls);
      SameSheet(ClosePara(e), AddLine(s, v), ls, ClosePara(e).(code := false, codeNl := 0));
    }
  }

  // ------------------------------------------------------------------
  // Tables
  // ------------------------------------------------------------------

  /** A row with its first cells. */
  ghost predicate InRow(d: Doc, s: Sheet, cells: seq<seq<Inline>>, ls: seq<List>) {
    Common(d) && d.cell == |cells| && if cells == [] then Holds(d, s, ls) else OnLine(d, s, RowView(cells), ls)
  }

  /** The tab between two cells, or the start of the row's line. */
  lemma {:induction false} CellOpens(d: Doc, s: Sheet, cells: seq<seq<Inline>>, ls: seq<List>)
    requires InRow(d, s, cells, ls)
    ensures var v := if cells == [] then NOTHING else Join(RowView(cells), Strip([TAB], [], []));
      OnLine(Cell(d), s, v, ls) && Common(Cell(d)) && Cell(d).cell == |cells| + 1
  {
    hide Holds, OnLine, OpenPara, Mark, Join, RowView, Wrote;
    if cells == [] {
      LineOpens(d, s, ls);
      SameLine(OpenPara(d), s, NOTHING, ls, Cell(d));
    } else {
      LineIsOpen(d, s, RowView(cells), ls);
      OpenOpen(d);
      WroteMark(d, TAB);
      LineGrows(d, s, RowView(cells), ls, Mark(d, TAB), Strip([TAB], [], []), false);
      SameLine(Mark(d, TAB), s, Join(RowView(cells), Strip([TAB], [], [])), ls, Cell(d));
    }
  }

  lemma {:induction false} LineIsOpen(d: Doc, s: Sheet, v: Strip, ls: seq<List>)
    requires OnLine(d, s, v, ls)
    ensures d.para
  {
  }

  lemma {:induction false} NextCell(loc: Locale, d: Doc, s: Sheet, cells: seq<seq<Inline>>, ls: seq<List>, cell: Block, ins: seq<Inline>)
    requires InRow(d, s, cells, ls) && (cell == Th || cell == Td)
    ensures InRow(Steps(loc, d, Around(cell, Calls(ins))), s, cells + [ins], ls)
  {
    hide Holds, OnLine, Cell, Join, Steps, Calls, Views, Wrote;
    StepsAround(loc, d, EnterBlock(cell), Calls(ins), LeaveBlock(cell));
    CellOpens(d, s, cells, ls);
    var a := Cell(d);
    var v := if cells == [] then NOTHING else Join(RowView(cells), Strip([TAB], [], []));
    LineIsOpen(a, s, v, ls);
    AllShow(loc, a, ins);
    var e := Steps(loc, a, Calls(ins));
    LineGrows(a, s, v, ls, e, Views(ins), HasLinks(ins));
    JoinParts(RowView(cells), Strip([TAB], [], []), Views(ins));
    JoinParts(Views(ins), NOTHING, NOTHING);
    assert (cells + [ins])[..|cells|] == cells;
  }

  lemma {:induction false} AllCells(loc: Locale, d: Doc, s: Sheet, ls: seq<List>, cell: Block, cells: seq<seq<Inline>>)
    requires Holds(d, s, ls) && Common(d) && d.cell == 0 && (cell == Th || cell == Td)
    ensures InRow(Steps(loc, d, CellsCalls(cell, cells)), s, cells, ls)
    decreases |cells|
  {
    hide Holds, OnLine, Step, RowView, Calls, Around, InRow;
    if cells == [] {
      assert InRow(d, s, [], ls) by { RowBegins(d, s, ls); }
    } else {
      var n := |cells| - 1;
      AllCells(loc, d, s, ls, cell, cells[..n]);
      MdDoc.StepsAppend(loc, d, CellsCalls(cell, cells[..n]), Around(cell, Calls(cells[n])));
      NextCell(loc, Steps(loc, d, CellsCalls(cell, cells[..n])), s, cells[..n], ls, cell, cells[n]);
      assert cells[..n] + [cells[n]] == cells;
    }
  }

  lemma {:induction false} RowBegins(d: Doc, s: Sheet, ls: seq<List>)
    requires Holds(d, s, ls) && Common(d) && d.cell == 0
    ensures InRow(d, s, [], ls)
  {
    hide Holds, OnLine, RowView;
  }

  lemma {:induction false} RowLine(loc: Locale, d: Doc, s: Sheet, ls: seq<List>, cell: Block, cells: seq<seq<Inline>>)
    requires Holds(d, s, ls) && Common(d) && (cell == Th || cell == Td)
    ensures var e := Steps(loc, d, Around(Tr, CellsCalls(cell, cells)));
      Holds(e, if cells == [] then s else AddLine(s, RowView(cells)), ls) && Common(e)
  {
    hide Holds, OnLine, Steps, RowView, ClosePara, CellsCalls;
    StepsAround(loc, d, EnterBlock(Tr), CellsCalls(cell, cells), LeaveBlock(Tr));
    ClosedAgain(d, s, ls);
    SameSheet(d, s, ls, d.(cell := 0));
    AllCells(loc, d.(cell := 0), s, ls, cell, cells);
    var e := Steps(loc, d.(cell := 0), CellsCalls(cell, cells));
    if cells == [] {
      ClosedAgain(e, s, ls);
    } else {
      LineCloses(e, s, RowView(cells), ls);
    }
  }

  lemma {:induction false} AllRows(loc: Locale, d: Doc, s: Sheet, ls: seq<List>, cell: Block, rows: seq<seq<seq<Inline>>>)
    requires Holds(d, s, ls) && Common(d) && (cell == Th || cell == Td)
    ensures var e := Steps(loc, d, RowsCalls(cell, rows)); Holds(e, LayRows(s, rows), ls) && Common(e)
    decreases |rows|
  {
    hide Holds, OnLine, Step, RowView, CellsCalls, Around, AddLine, Common;
    if rows != [] {
      var n := |rows| - 1;
      AllRows(loc, d, s, ls, cell, rows[..n]);
      MdDoc.StepsAppend(loc, d, RowsCalls(cell, rows[..n]), Around(Tr, CellsCalls(cell, rows[n])));
      RowLine(loc, Steps(loc, d, RowsCalls(cell, rows[..n])), LayRows(s, rows[..n]), ls, cell, rows[n]);
    }
  }

  lemma {:induction false} TableLines(loc: Locale, d: Doc, s: Sheet, ls: seq<List>, n: Node)
    requires Holds(d, s, ls) && Common(d) && n.Grid?
    ensures var e := Steps(loc, d, NodeCalls(n)); Holds(e, Lay(loc, s, n, |ls|), ls) && Common(e)
  {
    hide Holds, Steps, ClosePara, RowsCalls, LayRows, Common;
    var head, rows := Around(Thead, RowsCalls(Th, n.head)), Around(Tbody, RowsCalls(Td, n.rows));
    StepsAround(loc, d, EnterBlock(Table(n.cols)), head + rows, LeaveBlock(Table(n.cols)));
    ClosedAgain(d, s, ls);
    MdDoc.StepsAppend(loc, d, head, rows);
    StepsAround(loc, d, EnterBlock(Thead), RowsCalls(Th, n.head), LeaveBlock(Thead));
    AllRows(loc, d, s, ls, Th, n.head);
    var e, t := Steps(loc, d, RowsCalls(Th, n.head)), LayRows(s, n.head);
    StepsAround(loc, e, EnterBlock(Tbody), RowsCalls(Td, n.rows), LeaveBlock(Tbody));
    ClosedAgain(e, t, ls);
    AllRows(loc, e, t, ls, Td, n.rows);
    ClosedAgain(Steps(loc, e, RowsCalls(Td, n.rows)), LayRows(t, n.rows), ls);
  }

  // ------------------------------------------------------------------
  // Lists and footnotes
  // ------------------------------------------------------------------

  /** The first callback of a block closes what is open. */
  lemma {:induction false} BlockCloses(loc: Locale, d: Doc, b: Block, inside: seq<Callback>)
    requires !b.Thead? && !b.Th? && !b.Td?
    ensures Steps(loc, d, Around(b, inside)) == Steps(loc, ClosePara(d), Around(b, inside))
  {
    hide Steps, OpenPara, Capitalised, MarkerFor, ListsAfter;
    StepsAround(loc, d, EnterBlock(b), inside, LeaveBlock(b));
    StepsAround(loc, ClosePara(d), EnterBlock(b), inside, LeaveBlock(b));
    assert ClosePara(ClosePara(d)) == ClosePara(d);
    hide ClosePara;
  }

  lemma {:induction false} BlocksClose(loc: Locale, d: Doc, nodes: seq<Node>)
    requires nodes != []
    ensures Steps(loc, d, NodesCalls(nodes)) == Steps(loc, ClosePara(d), NodesCalls(nodes))
  {
    hide Step, Inside, ClosePara;
    BlockCloses(loc, d, BlockOf(nodes[0]), Inside(nodes[0]));
    MdDoc.StepsAppend(loc, d, NodeCalls(nodes[0]), NodesCalls(nodes[1..]));
    MdDoc.StepsAppend(loc, ClosePara(d), NodeCalls(nodes[0]), NodesCalls(nodes[1..]));
  }

  /** The lists at an entry: those around, and this one at its next number. */
  function At(ls: seq<List>, first: Option<nat>, before: nat): seq<List> {
    ls + [if first.Some? then List(true, first.value + before) else List(false, 0)]
  }

  lemma {:induction false} MarkIs(ls: seq<List>, first: Option<nat>, before: nat, task: Option<char>)
    ensures var isTask, mark := task.Some?, if task.Some? then task.value else ' ';
      && MarkerFor(At(ls, first, before), isTask, mark) == MarkOf(task, first, before, |ls|)
      && ListsAfter(At(ls, first, before), isTask) == At(ls, first, if task == None then before + 1 else before)
  {
    hide Wide, Dec;
    var all := At(ls, first, before);
    assert |all| - 1 == |ls| && all[|ls|] == if first.Some? then List(true, first.value + before) else List(false, 0);
    if first.Some? {
      assert all[|ls| := List(true, first.value + before + 1)] == At(ls, first, before + 1);
    }
  }

  lemma {:induction false} EntryBegins(loc: Locale, d: Doc, s: Sheet, ls: seq<List>, first: Option<nat>, before: nat, task: Option<char>)
    requires Holds(d, s, At(ls, first, before)) && Common(d)
    ensures var e := Step(loc, d, EnterBlock(ItemOf(task)));
      && Holds(e, s.(marker := MarkOf(task, first, before, |ls|)), At(ls, first, if task == None then before + 1 else before))
      && Common(e)
  {
    hide MarkerFor, ListsAfter, MarkOf, At;
    ClosedAgain(d, s, At(ls, first, before));
    MarkIs(ls, first, before, task);
  }

  /** An entry whose marker nothing followed shows it at its end. */
  lemma {:induction false} EntryEnds(loc: Locale, d: Doc, s: Sheet, ls: seq<List>, task: Option<char>)
    requires Holds(ClosePara(d), s, ls) && Common(d) && (d.para ==> d.marker == [])
    ensures var e := Step(loc, d, LeaveBlock(ItemOf(task)));
      Holds(e, if s.marker != [] then AddLine(s, NOTHING) else s, ls) && Common(e)
  {
    hide Holds, OpenPara, AddLine;
    Awaited(ClosePara(d), s, ls);
    if d.marker != [] {
      BareLine(d, s, ls);
    }
  }

  lemma {:induction false} NoteEnds(loc: Locale, d: Doc, s: Sheet, ls: seq<List>, id: nat)
    requires Holds(d, s, ls) && Common(d)
    ensures var e := Step(loc, d, LeaveBlock(FootnoteDef(id)));
      Holds(e, if s.number.Some? then AddLine(s, NOTHING) else s, ls) && Common(e)
  {
    hide OpenPara, ClosePara, Prefix, Join;
    ClosedAgain(d, s, ls);
    if d.footnoteAtStart {
      BareLine(d, s, ls);
    }
  }

  // ------------------------------------------------------------------
  // Whole documents
  // ------------------------------------------------------------------

  /** Every block adds its lines. */
  lemma {:induction false} NodeLays(loc: Locale, d: Doc, s: Sheet, ls: seq<List>, n: Node)
    requires Holds(d, s, ls) && Common(d)
    ensures var e := Steps(loc, d, NodeCalls(n)); Holds(e, Lay(loc, s, n, |ls|), ls) && Common(e)
    decreases n, 1
  {
    hide Holds, Common, Lay, NodeCalls, Steps;
    match n
    case Para(ins) => ParaLays(loc, d, s, ls, ins);
    case Heading(level, ins) => HeadingLine(loc, d, s, ls, level, ins);
    case Bar => BarLays(loc, d, s, ls);
    case Fence(code) => CodeLine(loc, d, s, ls, code);
    case Grid(_, _, _) => TableLines(loc, d, s, ls, n);
    case Raw => RawLays(loc, d, s, ls);
    case Listing(first, entries) => ListingLays(loc, d, s, ls, first, entries);
    case Note(id, nodes) => NoteLays(loc, d, s, ls, id, nodes);
    case _ => EnclosedLay(loc, d, s, ls, n);
  }

  lemma {:induction false} ParaLays(loc: Locale, d: Doc, s: Sheet, ls: seq<List>, ins: seq<Inline>)
    requires Holds(d, s, ls) && Common(d)
    ensures var e := Steps(loc, d, NodeCalls(Para(ins))); Holds(e, Lay(loc, s, Para(ins), |ls|), ls) && Common(e)
  {
    hide Holds, Steps, Calls, LayText, ClosePara, Common;
    StepsAround(loc, d, EnterBlock(P), Calls(ins), LeaveBlock(P));
    ClosedAgain(d, s, ls);
    TextCloses(loc, d, s, ls, ins);
  }

  lemma {:induction false} BarLays(loc: Locale, d: Doc, s: Sheet, ls: seq<List>)
    requires Holds(d, s, ls) && Common(d)
    ensures var e := Steps(loc, d, NodeCalls(Bar)); Holds(e, Lay(loc, s, Bar, |ls|), ls) && Common(e)
  {
    hide Holds, Steps, Common, Rule, ClosePara, AddLine;
    StepsAround(loc, d, EnterBlock(Hr), [], LeaveBlock(Hr));
    StepsOne(loc, Rule(d), LeaveBlock(Hr));
    RuleLine(d, s, ls);
    ClosedAgain(Rule(d), AddLine(s, Strip([TAB], [], [])), ls);
  }

  lemma {:induction false} RawLays(loc: Locale, d: Doc, s: Sheet, ls: seq<List>)
    requires Holds(d, s, ls) && Common(d)
    ensures var e := Steps(loc, d, NodeCalls(Raw)); Holds(e, Lay(loc, s, Raw, |ls|), ls) && Common(e)
  {
    hide Holds, Steps, Common, ClosePara;
    StepsAround(loc, d, EnterBlock(Html), [Text(RawHtml)], LeaveBlock(Html));
    ClosedAgain(d, s, ls);
    StepsOne(loc, d, Text(RawHtml));
  }

  /** A block that encloses others, behind a rule or a title of its own. */
  lemma {:induction false} EnclosedLay(loc: Locale, d: Doc, s: Sheet, ls: seq<List>, n: Node)
    requires Holds(d, s, ls) && Common(d) && (n.Quoted? || n.Admonished? || n.Notes?)
    ensures var e := Steps(loc, d, NodeCalls(n)); Holds(e, Lay(loc, s, n, |ls|), ls) && Common(e)
    decreases n, 0
  {
    hide Holds, Common, Steps, LayAll, ClosePara, NodesCalls, OpenPara, Write, Rule, Plain, AddLine;
    var nodes := if n.Notes? then n.notes else n.nodes;
    var t := if n.Notes? then AddLine(s, Strip([TAB], [], []))
      else if n.Admonished? then AddLine(s, Plain(Capitalised(loc, n.caption))) else s;
    var a := Step(loc, d, EnterBlock(BlockOf(n)));
    ClosedAgain(d, s, ls);
    if n.Notes? {
      RuleLine(d, s, ls);
    } else if n.Admonished? {
      TitleLine(d, s, ls, Capitalised(loc, n.caption));
    }
    AllLay(loc, a, t, ls, nodes);
    StepsAround(loc, d, EnterBlock(BlockOf(n)), NodesCalls(nodes), LeaveBlock(BlockOf(n)));
    ClosedAgain(Steps(loc, a, NodesCalls(nodes)), LayAll(loc, t, nodes, |ls|), ls);
  }

  lemma {:induction false} NoteLays(loc: Locale, d: Doc, s: Sheet, ls: seq<List>, id: nat, nodes: seq<Node>)
    requires Holds(d, s, ls) && Common(d)
    ensures var e := Steps(loc, d, NodeCalls(Note(id, nodes))); Holds(e, Lay(loc, s, Note(id, nodes), |ls|), ls) && Common(e)
    decreases nodes, 1
  {
    hide Steps, ClosePara, NodesCalls, LayAll, Leave;
    var b := FootnoteDef(id);
    StepsAround(loc, d, EnterBlock(b), NodesCalls(nodes), LeaveBlock(b));
    ClosedAgain(d, s, ls);
    var a := Step(loc, d, EnterBlock(b));
    assert Holds(a, s.(number := Some(id)), ls);
    hide Holds, Common;
    AllLay(loc, a, s.(number := Some(id)), ls, nodes);
    NoteEnds(loc, Steps(loc, a, NodesCalls(nodes)), LayAll(loc, s.(number := Some(id)), nodes, |ls|), ls, id);
  }

  lemma {:induction false} AllLay(loc: Locale, d: Doc, s: Sheet, ls: seq<List>, nodes: seq<Node>)
    requires Holds(d, s, ls) && Common(d)
    ensures var e := Steps(loc, d, NodesCalls(nodes)); Holds(e, LayAll(loc, s, nodes, |ls|), ls) && Common(e)
    decreases nodes, 0
  {
    hide Holds, Common, Lay, NodeCalls, Step;
    if nodes != [] {
      var a := Steps(loc, d, NodeCalls(nodes[0]));
      NodeLays(loc, d, s, ls, nodes[0]);
      MdDoc.StepsAppend(loc, d, NodeCalls(nodes[0]), NodesCalls(nodes[1..]));
      AllLay(loc, a, Lay(loc, s, nodes[0], |ls|), ls, nodes[1..]);
    }
  }

  lemma {:induction false} ListingLays(loc: Locale, d: Doc, s: Sheet, ls: seq<List>, first: Option<nat>, entries: seq<Entry>)
    requires Holds(d, s, ls) && Common(d)
    ensures var e := Steps(loc, d, NodeCalls(Listing(first, entries)));
      Holds(e, Lay(loc, s, Listing(first, entries), |ls|), ls) && Common(e)
    decreases entries, 2
  {
    hide Steps, EntriesCalls, LayEntries;
    var b := BlockOf(Listing(first, entries));
    StepsAround(loc, d, EnterBlock(b), EntriesCalls(entries), LeaveBlock(b));
    var a := Step(loc, d, EnterBlock(b));
    ListOpens(loc, d, s, ls, first);
    var n := EntriesLay(loc, a, s, ls, first, 0, entries);
    ListCloses(loc, Steps(loc, a, EntriesCalls(entries)), LayEntries(loc, s, entries, first, 0, |ls|), ls, first, n);
  }

  lemma {:induction false} ListOpens(loc: Locale, d: Doc, s: Sheet, ls: seq<List>, first: Option<nat>)
    requires Holds(d, s, ls) && Common(d)
    ensures var e := Step(loc, d, EnterBlock(if first.Some? then Ol(first.value) else Ul));
      Holds(e, s, At(ls, first, 0)) && Common(e)
  {
    ClosedAgain(d, s, ls);
  }

  lemma {:induction false} ListCloses(loc: Locale, d: Doc, s: Sheet, ls: seq<List>, first: Option<nat>, n: nat)
    requires Holds(d, s, At(ls, first, n)) && Common(d)
    ensures var e := Step(loc, d, LeaveBlock(if first.Some? then Ol(first.value) else Ul)); Holds(e, s, ls) && Common(e)
  {
    ClosedAgain(d, s, At(ls, first, n));
    assert At(ls, first, n)[..|ls|] == ls;
  }

  /** Entries from the n-th numbered or bulleted one on; m of them have gone by at the end. */
  lemma {:induction false} EntriesLay(loc: Locale, d: Doc, s: Sheet, ls: seq<List>, first: Option<nat>, n: nat, entries: seq<Entry>)
    returns (m: nat)
    requires Holds(d, s, At(ls, first, n)) && Common(d)
    ensures var e := Steps(loc, d, EntriesCalls(entries));
      Holds(e, LayEntries(loc, s, entries, first, n, |ls|), At(ls, first, m)) && Common(e)
    decreases entries, 1
  {
    hide Holds, Common, LayEntry, EntryCalls, Step, At;
    m := n;
    if entries != [] {
      var a := Steps(loc, d, EntryCalls(entries[0]));
      EntryLays(loc, d, s, ls, first, n, entries[0]);
      MdDoc.StepsAppend(loc, d, EntryCalls(entries[0]), EntriesCalls(entries[1..]));
      m := EntriesLay(loc, a, LayEntry(loc, s, entries[0], first, n, |ls|), ls, first,
                      if entries[0].task == None then n + 1 else n, entries[1..]);
    }
  }

  lemma {:induction false} EntryLays(loc: Locale, d: Doc, s: Sheet, ls: seq<List>, first: Option<nat>, n: nat, e: Entry)
    requires Holds(d, s, At(ls, first, n)) && Common(d)
    ensures var f := Steps(loc, d, EntryCalls(e));
      && Holds(f, LayEntry(loc, s, e, first, n, |ls|), At(ls, first, if e.task == None then n + 1 else n))
      && Common(f)
    decreases e, 1
  {
    hide Holds, Common, LayText, LayAll, Calls, NodesCalls, Steps, Enter, Leave, ClosePara, MarkOf;
    var b, after := ItemOf(e.task), At(ls, first, if e.task == None then n + 1 else n);
    StepsAround(loc, d, EnterBlock(b), Calls(e.text) + NodesCalls(e.nodes), LeaveBlock(b));
    EntryBegins(loc, d, s, ls, first, n, e.task);
    var a, s' := Step(loc, d, EnterBlock(b)), s.(marker := MarkOf(e.task, first, n, |ls|));
    TextCloses(loc, a, s', after, e.text);
    MdDoc.StepsAppend(loc, a, Calls(e.text), NodesCalls(e.nodes));
    var c, t := Steps(loc, a, Calls(e.text)), LayText(s', e.text);
    assert |after| == |ls| + 1;
    if e.nodes == [] {
      NoNodes(loc, c, t, |after|);
      EntryEnds(loc, c, t, after, e.task);
    } else {
      BlocksClose(loc, c, e.nodes);
      AllLay(loc, ClosePara(c), t, after, e.nodes);
      var f, u := Steps(loc, ClosePara(c), NodesCalls(e.nodes)), LayAll(loc, t, e.nodes, |after|);
      ClosedAgain(f, u, after);
      Awaited(f, u, after);
      EntryEnds(loc, f, u, after, e.task);
    }
  }

  lemma {:induction false} NoNodes(loc: Locale, d: Doc, s: Sheet, depth: nat)
    ensures Steps(loc, d, NodesCalls([])) == d && LayAll(loc, s, [], depth) == s
  {
  }

  lemma {:induction false} BlankHolds()
    ensures Holds(EMPTY, BLANK, []) && Common(EMPTY)
  {
  }

  /** The document rendered from any tree is its sheet: the text of its lines, the links and the anchors in them. */
  lemma {:induction false} TreeShown(loc: Locale, nodes: seq<Node>)
    ensures var d := Steps(loc, EMPTY, Around(Document, NodesCalls(nodes)));
      var lines := LayAll(loc, BLANK, nodes, 0).lines;
      d.text == Body(lines) && d.links == LinksOf(lines) && d.anchors == AnchorsOf(lines)
  {
    hide Steps, NodesCalls, LayAll, ClosePara;
    StepsAround(loc, EMPTY, EnterBlock(Document), NodesCalls(nodes), LeaveBlock(Document));
    BlankHolds();
    ClosedAgain(EMPTY, BLANK, []);
    AllLay(loc, EMPTY, BLANK, [], nodes);
    ClosedAgain(Steps(loc, EMPTY, NodesCalls(nodes)), LayAll(loc, BLANK, nodes, 0), []);
  }

  /** The program on any tree. */
  method RenderTree(loc: Locale, style: Style, nodes: seq<Node>)
    returns (out: string, links: seq<Link>, anchors: seq<Anchor>, chars: nat)
    ensures var lines := LayAll(loc, BLANK, nodes, 0).lines;
      Read(START, out).text == Body(lines) && chars == |Body(lines)| && links == LinksOf(lines) && anchors == AnchorsOf(lines)
  {
    hide Steps, Read, LayAll;
    TreeShown(loc, nodes);
    out, links, anchors, chars := Render(loc, style, Around(Document, NodesCalls(nodes)));
  }

  // ------------------------------------------------------------------
  // The names of headings
  // ------------------------------------------------------------------

  /** A heading is named after its line; that is its own text exactly when no number or marker stands in front of it. */
  lemma {:induction false} HeadingNamed(loc: Locale, s: Sheet, v: Strip)
    ensures var t := AddHeading(loc, s, v);
      |t.lines| == |s.lines| + 1 && t.lines[|s.lines|].anchors == Target(s) + Title(loc, Prefix(s).words + v.words)
    ensures Prefix(s).words + v.words == v.words <==> s.number == None && s.marker == []
  {
    hide Wide, Dec;
    if Prefix(s).words == [] {
      assert [] + v.words == v.words;
    } else {
      assert |Prefix(s).words + v.words| > |v.words|;
    }
  }

  const NUMBERED: seq<Node> := [Listing(Some(1), [Entry(None, [], [Heading(1, [Words([0x54])])])])]

  /** The heading T in the first item of a numbered list is named after the text 1.T. */
  lemma {:induction false} NumberedHeading(loc: Locale)
    ensures var lines := LayAll(loc, BLANK, NUMBERED, 0).lines;
      Body(lines) == [0x31, 0x2e, TAB, 0x54] && AnchorsOf(lines) == Title(loc, [0x31, 0x2e, 0x54])
  {
    hide Title, Body, AnchorsOf;
    NumberedLine(loc);
    var l := Line(Strip([0x31, 0x2e, TAB, 0x54], [], [0x31, 0x2e, 0x54]), Title(loc, [0x31, 0x2e, 0x54]));
    LineAdded([], l);
    assert [] + [l] == [l];
    FirstAt(l);
  }

  lemma {:induction false} FirstAt(l: Line)
    ensures Origin([]) + l.strip.text == l.strip.text && AnchorsOf([]) + Pinned(l.anchors, |Origin([])|) == l.anchors
  {
  }

  lemma {:induction false} NumberedLine(loc: Locale)
    ensures LayAll(loc, BLANK, NUMBERED, 0).lines ==
      [Line(Strip([0x31, 0x2e, TAB, 0x54], [], [0x31, 0x2e, 0x54]), Title(loc, [0x31, 0x2e, 0x54]))]
  {
    hide Title;
    var h := Heading(1, [Words([0x54])]);
    var e := Entry(None, [], [h]);
    var s := BLANK.(marker := [0x31, 0x2e]);
    assert Wide(Dec(1)) == [0x31];
    assert MarkOf(None, Some(1), 0, 0) == [0x31, 0x2e];
    assert Views([Words([0x54])]) == Plain([0x54]);
    OneHeading(loc, s);
  }

  lemma {:induction false} OneHeading(loc: Locale, s: Sheet)
    requires s == BLANK.(marker := [0x31, 0x2e])
    ensures AddHeading(loc, s, Plain([0x54])).lines ==
      [Line(Strip([0x31, 0x2e, TAB, 0x54], [], [0x31, 0x2e, 0x54]), Title(loc, [0x31, 0x2e, 0x54]))]
  {
    hide Title;
    assert Plain([0x54]) == Strip([0x54], [], [0x54]);
    assert Tabbed([0x31, 0x2e]) == Strip([0x31, 0x2e, TAB], [], [0x31, 0x2e]);
    NoShift(0);
    NoShift(3);
    assert Prefix(s) == Strip([0x31, 0x2e, TAB], [], [0x31, 0x2e]);
    assert Join(Prefix(s), Plain([0x54])) == Strip([0x31, 0x2e, TAB, 0x54], [], [0x31, 0x2e, 0x54]);
    assert [] + Title(loc, [0x31, 0x2e, 0x54]) == Title(loc, [0x31, 0x2e, 0x54]);
  }
}
