/**
  RTF as a RichEdit control reads it, reduced to what decides the characters it
  holds: control words and symbols, groups, skipped destinations, and \uN with
  its one-character fallback.  Beside it, the text an RTF writer produces for
  control words and for plain text, and the proof that the reader gets it back.
*/
module Rtf {

  /** A UTF-16 code unit. */
  type Unit = u: nat | u < 0x1_0000

  type Units = seq<Unit>

  const PAR: Unit := 13
  const LINE: Unit := 11
  const TAB: Unit := 9

  // ------------------------------------------------------------------
  // The reader
  // ------------------------------------------------------------------

  datatype Mode =
    | Plain
    | Slash
    | Name(name: string)
    | Param(name: string, negative: bool, value: nat)
    | Skip

  /** `hidden`: inside a font or colour table; `groups` remembers it for the enclosing groups. */
  datatype Reader = Reader(mode: Mode, hidden: bool, groups: seq<bool>, text: Units)

  predicate Letter(c: char) {
    'a' <= c <= 'z'
  }

  predicate Digit(c: char) {
    '0' <= c <= '9'
  }

  function Show(r: Reader, u: Unit): Reader {
    if r.hidden then r else r.(text := r.text + [u])
  }

  /** Outside control words. */
  function Base(r: Reader, c: char): Reader {
    if r.mode.Skip? then r.(mode := Plain)
    else if c == '\\' then r.(mode := Slash)
    else if c == '{' then r.(groups := r.groups + [r.hidden])
    else if c == '}' then
      if r.groups == [] then r
      else r.(hidden := r.groups[|r.groups| - 1], groups := r.groups[..|r.groups| - 1])
    else if c == '\n' || c == '\r' then r
    else Show(r, (c as int) % 0x1_0000)
  }

  /** The parameter of \u is a signed 16-bit number. */
  function UnitOf(negative: bool, value: nat): Unit {
    var u := value % 0x1_0000;
    if negative && u > 0 then 0x1_0000 - u else u
  }

  /** A complete control word takes effect. */
  function Effect(r: Reader, name: string, negative: bool, value: nat): Reader {
    var r := r.(mode := Plain);
    if name == "par" then Show(r, PAR)
    else if name == "line" then Show(r, LINE)
    else if name == "tab" then Show(r, TAB)
    else if name == "u" then Show(r, UnitOf(negative, value)).(mode := Skip)
    else if name == "fonttbl" || name == "colortbl" then r.(hidden := true)
    else r
  }

  /** A space after a control word belongs to it. */
  function EndWord(r: Reader, name: string, negative: bool, value: nat, c: char): Reader {
    var r := Effect(r, name, negative, value);
    if c == ' ' then r else Base(r, c)
  }

  function Feed(r: Reader, c: char): Reader {
    match r.mode
    case Plain => Base(r, c)
    case Skip => Base(r, c)
    case Slash =>
      if Letter(c) then r.(mode := Name([c]))
      else if c == '\\' || c == '{' || c == '}' then Show(r.(mode := Plain), (c as int) % 0x1_0000)
      else r.(mode := Plain)
    case Name(name) =>
      if Letter(c) then r.(mode := Name(name + [c]))
      else if c == '-' then r.(mode := Param(name, true, 0))
      else if Digit(c) then r.(mode := Param(name, false, c as int - '0' as int))
      else EndWord(r, name, false, 0, c)
    case Param(name, negative, value) =>
      if Digit(c) then r.(mode := Param(name, negative, 10 * value + (c as int - '0' as int)))
      else EndWord(r, name, negative, value, c)
  }

  function Read(r: Reader, s: string): Reader {
    if s == "" then r else Feed(Read(r, s[..|s| - 1]), s[|s| - 1])
  }

  lemma {:induction false} ReadAppend(r: Reader, s: string, t: string)
    ensures Read(r, s + t) == Read(Read(r, s), t)
    decreases |t|
  {
    if t == "" {
      assert s + t == s;
    } else {
      var n := |t| - 1;
      ReadAppend(r, s, t[..n]);
      assert (s + t)[..|s + t| - 1] == s + t[..n];
    }
  }

  lemma {:induction false} ReadOne(r: Reader, c: char)
    ensures Read(r, [c]) == Feed(r, c)
  {
    assert [c][..0] == "";
    assert Read(r, "") == r;
  }

  // ------------------------------------------------------------------
  // Writing control words
  // ------------------------------------------------------------------

  function DigitChar(d: nat): char
    requires d < 10
  {
    '0' + d as char
  }

  /** %u */
  function Dec(n: nat): (s: string)
    ensures |s| > 0
  {
    if n < 10 then [DigitChar(n)] else Dec(n / 10) + [DigitChar(n % 10)]
  }

  datatype Ctl = Word(name: string) | Num(name: string, param: int) | Neg(name: string, size: nat)

  predicate Letters(s: string) {
    s != "" && forall i :: 0 <= i < |s| ==> Letter(s[i])
  }

  /** \word, \wordN with %d, or \word-N. */
  function CtlText(w: Ctl): string {
    ['\\'] + CtlBody(w)
  }

  function CtlBody(w: Ctl): string {
    match w
    case Word(name) => name
    case Num(name, n) => name + if n < 0 then ['-'] + Dec(-n) else Dec(n)
    case Neg(name, n) => name + (['-'] + Dec(n))
  }

  function CtlTexts(ws: seq<Ctl>): string {
    if ws == [] then "" else CtlTexts(ws[..|ws| - 1]) + CtlText(ws[|ws| - 1])
  }

  function Apply(r: Reader, w: Ctl): Reader {
    match w
    case Word(name) => Effect(r, name, false, 0)
    case Num(name, n) => Effect(r, name, n < 0, if n < 0 then -n else n)
    case Neg(name, n) => Effect(r, name, true, n)
  }

  function ApplyAll(r: Reader, ws: seq<Ctl>): Reader {
    if ws == [] then r else Apply(ApplyAll(r, ws[..|ws| - 1]), ws[|ws| - 1])
  }

  /** The reader has seen all of a control word but not what follows it. */
  function Pending(r: Reader, w: Ctl): Reader {
    match w
    case Word(name) => r.(mode := Name(name))
    case Num(name, n) => r.(mode := Param(name, n < 0, if n < 0 then -n else n))
    case Neg(name, n) => r.(mode := Param(name, true, n))
  }

  lemma {:induction false} ReadName(r: Reader, name: string)
    requires r.mode.Slash? && Letters(name)
    ensures Read(r, name) == r.(mode := Name(name))
    decreases |name|
  {
    var n := |name| - 1;
    if n == 0 {
      ReadOne(r, name[0]);
      assert name == [name[0]];
    } else {
      ReadName(r, name[..n]);
      assert name[..n] + [name[n]] == name;
    }
  }

  lemma {:induction false} ReadDigit(r: Reader, d: nat)
    requires d < 10 && (r.mode.Name? || r.mode.Param?)
    ensures Read(r, [DigitChar(d)]) ==
      if r.mode.Name? then r.(mode := Param(r.mode.name, false, d))
      else r.(mode := r.mode.(value := 10 * r.mode.value + d))
  {
    ReadOne(r, DigitChar(d));
  }

  /** Digits after a name. */
  lemma {:induction false} ReadDec(r: Reader, n: nat)
    requires r.mode.Name?
    ensures Read(r, Dec(n)) == r.(mode := Param(r.mode.name, false, n))
    decreases n
  {
    hide Read, Feed;
    if n < 10 {
      ReadDigit(r, n);
    } else {
      ReadDec(r, n / 10);
      ReadAppend(r, Dec(n / 10), [DigitChar(n % 10)]);
      ReadDigit(Read(r, Dec(n / 10)), n % 10);
    }
  }

  /** Digits after a minus sign. */
  lemma {:induction false} ReadMagnitude(r: Reader, n: nat)
    requires r.mode.Param? && r.mode.value == 0
    ensures Read(r, Dec(n)) == r.(mode := r.mode.(value := n))
    decreases n
  {
    hide Read, Feed;
    if n < 10 {
      ReadDigit(r, n);
    } else {
      ReadMagnitude(r, n / 10);
      ReadAppend(r, Dec(n / 10), [DigitChar(n % 10)]);
      ReadDigit(Read(r, Dec(n / 10)), n % 10);
    }
  }

  lemma {:induction false} ReadMinus(r: Reader)
    requires r.mode.Name?
    ensures Read(r, ['-']) == r.(mode := Param(r.mode.name, true, 0))
  {
    ReadOne(r, '-');
  }

  /** After its backslash, a control word is read to its end. */
  lemma {:induction false} ReadWord(r: Reader, w: Ctl)
    requires r.mode.Slash? && Letters(w.name)
    ensures Read(r, CtlBody(w)) == Pending(r, w)
  {
    hide Read, Feed, Dec;
    ReadName(r, w.name);
    match w
    case Word(name) =>
    case Num(name, n) =>
      ReadAppend(r, name, if n < 0 then ['-'] + Dec(-n) else Dec(n));
      if n < 0 {
        ReadNegative(r.(mode := Name(name)), -n);
      } else {
        ReadDec(r.(mode := Name(name)), n);
      }
    case Neg(name, n) =>
      ReadAppend(r, name, ['-'] + Dec(n));
      ReadNegative(r.(mode := Name(name)), n);
  }

  lemma {:induction false} ReadNegative(r: Reader, n: nat)
    requires r.mode.Name?
    ensures Read(r, ['-'] + Dec(n)) == r.(mode := Param(r.mode.name, true, n))
  {
    hide Read, Feed, Dec;
    ReadAppend(r, ['-'], Dec(n));
    ReadMinus(r);
    ReadMagnitude(r.(mode := Param(r.mode.name, true, 0)), n);
  }

  /** A backslash outside a control word, or ending one. */
  lemma {:induction false} ReadSlash(r: Reader, w: Ctl)
    requires r.mode.Plain? && w.name != "u"
    ensures Feed(r, '\\') == r.(mode := Slash)
    ensures Feed(Pending(r, w), '\\') == Apply(r, w).(mode := Slash) && Apply(r, w).mode.Plain?
    ensures Feed(Pending(r, w), ' ') == Apply(r, w)
    ensures Feed(Pending(r, w), '\n') == Apply(r, w)
  {
    assert Pending(r, w).(mode := Plain) == r;
  }

  /** No word of the list needs the fallback rule. */
  predicate Simple(ws: seq<Ctl>) {
    forall i :: 0 <= i < |ws| ==> Letters(ws[i].name) && ws[i].name != "u"
  }

  /** A run of control words takes effect word by word. */
  lemma {:induction false} ReadWords(r: Reader, ws: seq<Ctl>)
    requires r.mode.Plain? && Simple(ws) && ws != []
    ensures var n := |ws| - 1;
      && ApplyAll(r, ws[..n]).mode.Plain?
      && Read(r, CtlTexts(ws)) == Pending(ApplyAll(r, ws[..n]), ws[n])
    decreases |ws|
  {
    hide Read, Feed, CtlBody, Apply, Pending;
    var n := |ws| - 1;
    var w := ws[n];
    var s := CtlText(w);
    var before := Read(r, CtlTexts(ws[..n]));
    ReadAppend(r, CtlTexts(ws[..n]), s);
    ReadAppend(before, ['\\'], CtlBody(w));
    ReadOne(before, '\\');
    var at := ApplyAll(r, ws[..n]);
    if n == 0 {
      assert before == r by { ReadNothing(r); }
      ReadSlash(r, w);
    } else {
      ReadWords(r, ws[..n]);
      var prior := ApplyAll(r, ws[..n][..n - 1]);
      ReadSlash(prior, ws[n - 1]);
      assert at == Apply(prior, ws[n - 1]);
    }
    ReadWord(at.(mode := Slash), w);
    PendingMode(at, w);
  }

  lemma {:induction false} ReadNothing(r: Reader)
    ensures Read(r, "") == r
  {
  }

  lemma {:induction false} PendingMode(r: Reader, w: Ctl)
    requires r.mode.Plain?
    ensures Pending(r.(mode := Slash), w) == Pending(r, w)
  {
  }

  /** ... and after its delimiter the reader is ready for text again. */
  lemma {:induction false} ReadControls(r: Reader, ws: seq<Ctl>, delim: char)
    requires r.mode.Plain? && Simple(ws) && ws != [] && (delim == ' ' || delim == '\n')
    ensures Read(r, CtlTexts(ws) + [delim]) == ApplyAll(r, ws)
    ensures ApplyAll(r, ws).mode.Plain?
  {
    hide Read, Feed, CtlTexts, Apply, Pending;
    var n := |ws| - 1;
    ReadWords(r, ws);
    ReadAppend(r, CtlTexts(ws), [delim]);
    ReadOne(Read(r, CtlTexts(ws)), delim);
    ReadSlash(ApplyAll(r, ws[..n]), ws[n]);
  }

  /** A character that cannot continue a control word ends it and counts for itself. */
  lemma {:induction false} ReadEnded(r: Reader, ws: seq<Ctl>, c: char)
    requires r.mode.Plain? && Simple(ws) && ws != [] && (c == ';' || c == '{')
    ensures Read(r, CtlTexts(ws) + [c]) == Base(ApplyAll(r, ws), c)
    ensures ApplyAll(r, ws).mode.Plain?
  {
    hide Read, CtlTexts;
    var n := |ws| - 1;
    ReadWords(r, ws);
    ReadAppend(r, CtlTexts(ws), [c]);
    ReadOne(Read(r, CtlTexts(ws)), c);
    var q := ApplyAll(r, ws[..n]);
    assert Pending(q, ws[n]).(mode := Plain) == q;
  }

  // ------------------------------------------------------------------
  // Writing text
  // ------------------------------------------------------------------

  /** One code unit as RTF body, by rtf_escape. */
  function Escaped(u: Unit): string {
    if u == 0x5c || u == 0x7b || u == 0x7d then ['\\', u as char]
    else if 0x20 <= u < 0x7f then [u as char]
    else if u == 9 then CtlText(Word("tab")) + [' ']
    else if u == 13 || u == 10 then [' ']
    else CtlText(Num("u", if u < 0x8000 then u else u - 0x1_0000)) + ['?']
  }

  /** What the control shows for it: line breaks become spaces. */
  function Shown(u: Unit): Unit {
    if u == 13 || u == 10 then 0x20 else u
  }

  function EscapedAll(s: Units): string {
    if s == [] then "" else EscapedAll(s[..|s| - 1]) + Escaped(s[|s| - 1])
  }

  function ShownAll(s: Units): (t: Units)
    ensures |t| == |s|
  {
    seq(|s|, i requires 0 <= i < |s| => Shown(s[i]))
  }

  lemma {:induction false} One(w: Ctl)
    ensures CtlTexts([w]) == CtlText(w)
  {
    assert [w][..0] == [];
    assert CtlTexts([]) + CtlText(w) == CtlText(w);
  }

  lemma {:induction false} ReadUnicode(r: Reader, u: Unit)
    requires r.mode.Plain?
    ensures Read(r, CtlText(Num("u", if u < 0x8000 then u else u - 0x1_0000)) + ['?']) == Show(r, u)
  {
    hide Read, CtlBody;
    var w := Num("u", if u < 0x8000 then u else u - 0x1_0000);
    var s := CtlText(w);
    ReadAppend(r, s, ['?']);
    ReadAppend(r, ['\\'], CtlBody(w));
    ReadOne(r, '\\');
    ReadWord(r.(mode := Slash), w);
    ReadOne(Pending(r, w), '?');
    assert r.(mode := Plain) == r;
  }

  lemma {:induction false} ReadEscaped(r: Reader, u: Unit)
    requires r.mode.Plain?
    ensures Read(r, Escaped(u)) == Show(r, Shown(u))
  {
    hide Read, CtlBody;
    if u == 0x5c || u == 0x7b || u == 0x7d {
      var c := u as char;
      ReadAppend(r, ['\\'], [c]);
      ReadOne(r, '\\');
      ReadOne(r.(mode := Slash), c);
      assert ['\\'] + [c] == ['\\', c];
      assert r.(mode := Slash).(mode := Plain) == r;
    } else if 0x20 <= u < 0x7f {
      ReadOne(r, u as char);
    } else if u == 9 {
      ReadMark(r, "tab", ' ');
    } else if u == 13 || u == 10 {
      ReadOne(r, ' ');
    } else {
      ReadUnicode(r, u);
    }
  }

  /** Escaped text reads as itself, one character per unit; in a hidden group as nothing. */
  lemma {:induction false} ReadText(r: Reader, s: Units)
    requires r.mode.Plain?
    ensures Read(r, EscapedAll(s)) == if r.hidden then r else r.(text := r.text + ShownAll(s))
    decreases |s|
  {
    hide Read, Escaped, Shown;
    if s == [] {
      ReadNothing(r);
      assert r.text + ShownAll(s) == r.text;
    } else {
      var n := |s| - 1;
      ReadText(r, s[..n]);
      ReadAppend(r, EscapedAll(s[..n]), Escaped(s[n]));
      ReadEscaped(Read(r, EscapedAll(s[..n])), s[n]);
      assert ShownAll(s) == ShownAll(s[..n]) + [Shown(s[n])];
    }
  }

  // ------------------------------------------------------------------
  // Words that show nothing
  // ------------------------------------------------------------------

  predicate SilentName(name: string) {
    && Letters(name)
    && name != "par" && name != "line" && name != "tab" && name != "u" && name != "fonttbl" && name != "colortbl"
  }

  predicate Silent(ws: seq<Ctl>) {
    forall i :: 0 <= i < |ws| ==> SilentName(ws[i].name)
  }

  lemma {:induction false} ApplySilent(r: Reader, ws: seq<Ctl>)
    requires r.mode.Plain? && Silent(ws)
    ensures ApplyAll(r, ws) == r && Simple(ws)
    decreases |ws|
  {
    hide SilentName;
    if ws != [] {
      var n := |ws| - 1;
      ApplySilent(r, ws[..n]);
      SilentWord(r, ws[n]);
    }
  }

  lemma {:induction false} SilentWord(r: Reader, w: Ctl)
    requires r.mode.Plain? && SilentName(w.name)
    ensures Apply(r, w) == r && Letters(w.name) && w.name != "u"
  {
    assert r.(mode := Plain) == r;
  }

  lemma {:induction false} ReadSilent(r: Reader, ws: seq<Ctl>, delim: char)
    requires r.mode.Plain? && Silent(ws) && ws != [] && (delim == ' ' || delim == '\n')
    ensures Read(r, CtlTexts(ws) + [delim]) == r
  {
    hide Read, CtlTexts;
    ApplySilent(r, ws);
    ReadControls(r, ws, delim);
  }

  /** One of the words that show a single character. */
  lemma {:induction false} ReadMark(r: Reader, name: string, delim: char)
    requires r.mode.Plain? && (name == "par" || name == "line" || name == "tab") && (delim == ' ' || delim == '\n')
    ensures Read(r, CtlText(Word(name)) + [delim]) ==
      Show(r, if name == "par" then PAR else if name == "line" then LINE else TAB)
  {
    hide Read, CtlText, CtlTexts;
    var ws := [Word(name)];
    One(Word(name));
    ReadControls(r, ws, delim);
    assert ws[..0] == [];
    assert ApplyAll(r, ws) == Apply(r, Word(name)) by { assert ApplyAll(r, ws[..0]) == r; }
    assert r.(mode := Plain) == r;
  }
}
