/** Printing a packed line in colour, and what a terminal makes of it. */
module Colour {
  import opened Sequences
  import opened Text
  import opened Escapes
  import opened Packing
  import opened Tokens
  import opened Brief
  import opened BriefWrap

  datatype Code = NoCode | Yellow | Red

  const RESET: string := [ESC, '[', '0', 'm']
  const YELLOW: string := [ESC, '[', '3', '3', 'm']
  const RED: string := [ESC, '[', '3', '1', 'm']

  function CodeText(c: Code): string
  {
    match c
    case NoCode => ""
    case Yellow => YELLOW
    case Red => RED
  }

  function CodeOf(role: string): Code
  {
    if role == "watch" then Yellow else if role == "act" then Red else NoCode
  }

  function CodeIn(color: bool, role: string): Code { if color then CodeOf(role) else NoCode }

  /** A space inside a run stays in its colour; between two roles it is plain. */
  function SeparatorRole(prev: Word, next: Word): string
  {
    if prev == [] || next == [] then ""
    else if prev[|prev| - 1].role == next[0].role then next[0].role
    else ""
  }

  /** What has been printed and the colour it left on. */
  datatype Pen = Pen(out: string, open: Code)

  function Switch(from: Code, to: Code): string
  {
    if from == to then "" else (if from == NoCode then "" else RESET) + CodeText(to)
  }

  function Write(p: Pen, text: string, code: Code): Pen { Pen(p.out + Switch(p.open, code) + text, code) }

  function WriteWord(p: Pen, w: Word, color: bool): Pen
  {
    if w == [] then p
    else
      var n := |w| - 1;
      Write(WriteWord(p, w[..n], color), w[n].text, CodeIn(color, w[n].role))
  }

  function WriteLine(line: seq<Word>, color: bool): Pen
  {
    if line == [] then Pen("", NoCode)
    else
      var n := |line| - 1;
      var p := WriteLine(line[..n], color);
      var q := if n == 0 then p else Write(p, " ", CodeIn(color, SeparatorRole(line[n - 1], line[n])));
      WriteWord(q, line[n], color)
  }

  function LineOut(line: seq<Word>, color: bool): string
  {
    var p := WriteLine(line, color);
    p.out + Switch(p.open, NoCode)
  }

  method Put(out0: string, open0: Code, text: string, code: Code) returns (out: string, open: Code)
    ensures Pen(out, open) == Write(Pen(out0, open0), text, code)
  {
    out, open := out0, open0;
    if code != open {
      if open != NoCode {
        out := out + RESET;
      }
      out := out + CodeText(code);
      open := code;
    }
    assert out == out0 + Switch(open0, code);
    out := out + text;
  }

  lemma WriteWordNext(p: Pen, w: Word, k: nat, color: bool)
    requires k < |w|
    ensures WriteWord(p, w[..k + 1], color) == Write(WriteWord(p, w[..k], color), w[k].text, CodeIn(color, w[k].role))
  {
    assert w[..k + 1][..k] == w[..k];
  }

  method PutWord(out0: string, open0: Code, w: Word, color: bool) returns (out: string, open: Code)
    ensures Pen(out, open) == WriteWord(Pen(out0, open0), w, color)
  {
    out, open := out0, open0;
    for k := 0 to |w|
      invariant Pen(out, open) == WriteWord(Pen(out0, open0), w[..k], color)
    {
      WriteWordNext(Pen(out0, open0), w, k, color);
      out, open := Put(out, open, w[k].text, CodeIn(color, w[k].role));
    }
    assert w[..|w|] == w;
  }

  lemma WriteLineNext(line: seq<Word>, i: nat, color: bool)
    requires i < |line|
    ensures var p := WriteLine(line[..i], color);
            WriteLine(line[..i + 1], color)
            == WriteWord(if i == 0 then p else Write(p, " ", CodeIn(color, SeparatorRole(line[i - 1], line[i]))), line[i], color)
  {
    assert line[..i + 1][..i] == line[..i];
  }

  method BriefLineText(color: bool, line: seq<Word>) returns (out: string)
    ensures out == LineOut(line, color)
  {
    out := "";
    var open := NoCode;
    for i := 0 to |line|
      invariant Pen(out, open) == WriteLine(line[..i], color)
    {
      WriteLineNext(line, i, color);
      if i > 0 {
        out, open := Put(out, open, " ", CodeIn(color, SeparatorRole(line[i - 1], line[i])));
      }
      out, open := PutWord(out, open, line[i], color);
    }
    assert line[..|line|] == line;
    if open != NoCode {
      out := out + RESET;
    }
  }

  // ----- The terminal -----

  /** A rune on the screen and the colour it appears in. */
  datatype Shown = Shown(c: char, code: Code)

  datatype Screen = Screen(shown: seq<Shown>, open: Code)

  /** A strict terminal: a colour may only be opened when none is open, only an open colour may
      be reset, and no other escape is understood. */
  function Display(s: string, open: Code): Option<Screen>
    decreases |s|
  {
    if s == "" then Some(Screen([], open))
    else if s[0] == ESC then
      if open != NoCode && RESET <= s then Display(s[|RESET|..], NoCode)
      else if open == NoCode && YELLOW <= s then Display(s[|YELLOW|..], Yellow)
      else if open == NoCode && RED <= s then Display(s[|RED|..], Red)
      else None
    else
      match Display(s[1..], open)
      case None => None
      case Some(scr) => Some(Screen([Shown(s[0], open)] + scr.shown, scr.open))
  }

  function Then(sh: seq<Shown>, next: Option<Screen>): Option<Screen>
  {
    match next
    case None => None
    case Some(scr) => Some(Screen(sh + scr.shown, scr.open))
  }

  /** The code at the front of a string is there whatever follows. */
  lemma FrontStays(code: string, a: string, b: string)
    requires code <= a
    ensures code <= a + b && (a + b)[|code|..] == a[|code|..] + b
  {
  }

  lemma {:induction false} DisplayConcat(a: string, b: string, open: Code)
    requires Display(a, open).Some?
    ensures var scr := Display(a, open).value;
            Display(a + b, open) == Then(scr.shown, Display(b, scr.open))
    decreases |a|
  {
    if a == "" {
      assert a + b == b;
      if Display(b, open).Some? {
        assert [] + Display(b, open).value.shown == Display(b, open).value.shown;
      }
    } else if a[0] == ESC {
      var code := if open != NoCode then RESET else if YELLOW <= a then YELLOW else RED;
      FrontStays(code, a, b);
      if code == RED {
        assert (a + b)[3] == a[3] == '1';
      }
      DisplayConcat(a[|code|..], b, if code == RESET then NoCode else if code == YELLOW then Yellow else Red);
    } else {
      assert (a + b)[1..] == a[1..] + b;
      DisplayConcat(a[1..], b, open);
      var scr := Display(a[1..], open).value;
      if Display(b, scr.open).Some? {
        JoinAssociates([Shown(a[0], open)], scr.shown, Display(b, scr.open).value.shown);
      }
    }
  }

  function InCode(text: string, code: Code): seq<Shown> { MapSeq(text, (c: char) => Shown(c, code)) }

  lemma {:induction false} DisplayText(text: string, open: Code)
    requires ESC !in text
    ensures Display(text, open) == Some(Screen(InCode(text, open), open))
    decreases |text|
  {
    if text != "" {
      DisplayText(text[1..], open);
      assert InCode(text, open) == [Shown(text[0], open)] + InCode(text[1..], open);
    }
  }

  lemma DisplayCode(code: Code)
    ensures Display(CodeText(code), NoCode) == Some(Screen([], code))
  {
    var t := CodeText(code);
    assert t[|t|..] == "";
    if code == Red {
      assert t[3] != YELLOW[3];
    }
  }

  lemma DisplaySwitch(from: Code, to: Code)
    ensures Display(Switch(from, to), from) == Some(Screen([], to))
  {
    DisplayCode(to);
    if from != to && from != NoCode {
      FrontStays(RESET, RESET, CodeText(to));
      assert RESET[|RESET|..] + CodeText(to) == CodeText(to);
    } else if from != to {
      assert "" + CodeText(to) == CodeText(to);
    }
  }

  // ----- Every rune appears in its role's colour -----

  function ShownAs(): Tinted -> Shown { (t: Tinted) => Shown(t.c, CodeOf(t.role)) }

  /** A line's runes with their roles, separators included. */
  function LineInk(line: seq<Word>): seq<Tinted>
  {
    if line == [] then []
    else
      var n := |line| - 1;
      if n == 0 then WordInk()(line[0])
      else LineInk(line[..n]) + [Tinted(' ', SeparatorRole(line[n - 1], line[n]))] + WordInk()(line[n])
  }

  /** The pen's output shows these runes and leaves the pen's colour on. */
  ghost predicate Inked(p: Pen, ink: seq<Tinted>)
  {
    Display(p.out, NoCode) == Some(Screen(MapSeq(ink, ShownAs()), p.open))
  }

  lemma WriteInks(p: Pen, ink: seq<Tinted>, text: string, role: string)
    requires Inked(p, ink) && ESC !in text
    ensures Inked(Write(p, text, CodeOf(role)), ink + Tint(text, role))
  {
    var code, sh := CodeOf(role), MapSeq(ink, ShownAs());
    SwitchShows(p.out, sh, p.open, code);
    TextShows(p.out + Switch(p.open, code), sh, code, text);
    InkText(ink, text, role);
  }

  /** Changing colour shows nothing. */
  lemma SwitchShows(out: string, sh: seq<Shown>, from: Code, to: Code)
    requires Display(out, NoCode) == Some(Screen(sh, from))
    ensures Display(out + Switch(from, to), NoCode) == Some(Screen(sh, to))
  {
    DisplaySwitch(from, to);
    DisplayConcat(out, Switch(from, to), NoCode);
    assert sh + [] == sh;
  }

  /** Text appears in the colour that is on. */
  lemma TextShows(out: string, sh: seq<Shown>, code: Code, text: string)
    requires Display(out, NoCode) == Some(Screen(sh, code)) && ESC !in text
    ensures Display(out + text, NoCode) == Some(Screen(sh + InCode(text, code), code))
  {
    DisplayText(text, code);
    DisplayConcat(out, text, NoCode);
  }

  lemma InkText(ink: seq<Tinted>, text: string, role: string)
    ensures MapSeq(ink + Tint(text, role), ShownAs()) == MapSeq(ink, ShownAs()) + InCode(text, CodeOf(role))
  {
  }

  lemma {:induction false} WordInks(p: Pen, ink: seq<Tinted>, w: Word)
    requires Inked(p, ink) && EscapeFree(w)
    ensures Inked(WriteWord(p, w, true), ink + WordInk()(w))
  {
    if w == [] {
      assert ink + WordInk()(w) == ink;
    } else {
      var n := |w| - 1;
      WordInks(p, ink, w[..n]);
      WriteInks(WriteWord(p, w[..n], true), ink + WordInk()(w[..n]), w[n].text, w[n].role);
      InkLast(ink, w);
    }
  }

  /** One more word behind a line that is already inked. */
  lemma NextWordInks(p: Pen, ink: seq<Tinted>, role: string, w: Word)
    requires Inked(p, ink) && EscapeFree(w)
    ensures Inked(WriteWord(Write(p, " ", CodeOf(role)), w, true), ink + [Tinted(' ', role)] + WordInk()(w))
  {
    WriteInks(p, ink, " ", role);
    assert Tint(" ", role) == [Tinted(' ', role)];
    WordInks(Write(p, " ", CodeOf(role)), ink + [Tinted(' ', role)], w);
  }

  lemma LineInksNext(line: seq<Word>)
    requires |line| > 1 && EscapeFree(line[|line| - 1])
    requires Inked(WriteLine(line[..|line| - 1], true), LineInk(line[..|line| - 1]))
    ensures Inked(WriteLine(line, true), LineInk(line))
  {
    var n := |line| - 1;
    NextWordInks(WriteLine(line[..n], true), LineInk(line[..n]), SeparatorRole(line[n - 1], line[n]), line[n]);
  }

  lemma {:induction false} LineInks(line: seq<Word>)
    requires Every(line, NoEscape())
    ensures Inked(WriteLine(line, true), LineInk(line))
  {
    if |line| == 1 {
      assert NoEscape()(line[0]);
      assert line[..0] == [];
      FirstWordInks(line[0]);
    } else if line != [] {
      assert NoEscape()(line[|line| - 1]);
      LineInks(line[..|line| - 1]);
      LineInksNext(line);
    }
  }

  lemma FirstWordInks(w: Word)
    requires EscapeFree(w)
    ensures Inked(WriteWord(Pen("", NoCode), w, true), WordInk()(w))
  {
    WordInks(Pen("", NoCode), [], w);
    assert [] + WordInk()(w) == WordInk()(w);
  }

  /** On the terminal every rune of the line appears once, in order and in its role's colour,
      colours are never nested, and none is left on. */
  lemma LineDisplayed(line: seq<Word>)
    requires Every(line, NoEscape())
    ensures Display(LineOut(line, true), NoCode) == Some(Screen(MapSeq(LineInk(line), ShownAs()), NoCode))
  {
    LineInks(line);
    var p := WriteLine(line, true);
    SwitchShows(p.out, MapSeq(LineInk(line), ShownAs()), p.open, NoCode);
  }

  // ----- Erasing the escapes -----

  /** s without its escapes, as the width measure sees it. */
  function Bare(s: string, inside: bool): string
  {
    if s == "" then ""
    else (if Cell(inside, s[0]) == 1 then [s[0]] else "") + Bare(s[1..], Step(inside, s[0]))
  }

  lemma {:induction false} BareCells(s: string, inside: bool)
    ensures |Bare(s, inside)| == CellsFrom(s, inside)
  {
    if s != "" {
      BareCells(s[1..], Step(inside, s[0]));
    }
  }

  lemma {:induction false} BareConcat(a: string, b: string, inside: bool)
    ensures Bare(a + b, inside) == Bare(a, inside) + Bare(b, EndsInside(a, inside))
  {
    if a == "" {
      assert a + b == b;
    } else {
      assert (a + b)[1..] == a[1..] + b;
      BareConcat(a[1..], b, Step(inside, a[0]));
    }
  }

  /** A code takes no cell and is complete. */
  lemma CodeIsBare(code: string, i: nat)
    requires code == RESET || code == YELLOW || code == RED
    requires 1 <= i <= |code|
    ensures Bare(code[i..], i < |code|) == "" && !EndsInside(code[i..], i < |code|)
    decreases |code| - i
  {
    if i < |code| {
      assert code[i..][1..] == code[i + 1..];
      CodeIsBare(code, i + 1);
    }
  }

  lemma BareBehindCode(code: string, s: string)
    requires code == RESET || code == YELLOW || code == RED
    requires code <= s
    ensures Bare(s, false) == Bare(s[|code|..], false)
  {
    CodeIsBare(code, 1);
    assert s == code + s[|code|..];
    BareConcat(code, s[|code|..], false);
    assert code[0] == ESC;
    assert Bare(code, false) == "" + Bare(code[1..], true);
  }

  function RuneOf(): Shown -> char { (x: Shown) => x.c }

  /** Whatever the strict terminal accepts, erasing the escapes leaves the runes it shows. */
  lemma {:induction false} BareIsShown(s: string, open: Code)
    requires Display(s, open).Some?
    ensures Bare(s, false) == MapSeq(Display(s, open).value.shown, RuneOf())
    decreases |s|
  {
    if s != "" {
      if s[0] == ESC {
        var code := if open != NoCode then RESET else if YELLOW <= s then YELLOW else RED;
        BareBehindCode(code, s);
        BareIsShown(s[|code|..], if code == RESET then NoCode else if code == YELLOW then Yellow else Red);
      } else {
        BareIsShown(s[1..], open);
      }
    }
  }

  lemma UncolouredNext(line: seq<Word>)
    requires |line| > 1
    ensures Uncoloured()(line) == Uncoloured()(line[..|line| - 1]) + [' '] + Plain()(line[|line| - 1])
  {
    var n := |line| - 1;
    assert line == line[..n] + [line[n]];
    MapAppend(line[..n], line[n], Plain());
    JoinLast(MapSeq(line[..n], Plain()), Plain()(line[n]), ' ');
  }

  lemma RunesJoined(a: seq<Tinted>, role: string, b: seq<Tinted>)
    ensures MapSeq(a + [Tinted(' ', role)] + b, Rune()) == MapSeq(a, Rune()) + [' '] + MapSeq(b, Rune())
  {
  }

  lemma {:induction false} LineInkText(line: seq<Word>)
    ensures MapSeq(LineInk(line), Rune()) == Uncoloured()(line)
  {
    if line != [] {
      var n := |line| - 1;
      PlainInk(line[n]);
      if n > 0 {
        LineInkText(line[..n]);
        UncolouredNext(line);
        RunesJoined(LineInk(line[..n]), SeparatorRole(line[n - 1], line[n]), WordInk()(line[n]));
      }
    }
  }

  lemma {:induction false} PlainPen(p: Pen, w: Word)
    requires p.open == NoCode
    ensures WriteWord(p, w, false) == Pen(p.out + Plain()(w), NoCode)
  {
    if w == [] {
      assert p.out + Plain()(w) == p.out;
    } else {
      var n := |w| - 1;
      PlainPen(p, w[..n]);
      assert w == w[..n] + [w[n]];
      MapAppend(w[..n], w[n], SegText());
      FlattenAppend(MapSeq(w[..n], SegText()), w[n].text);
      assert p.out + Plain()(w[..n]) + "" + w[n].text == p.out + Plain()(w);
    }
  }

  /** Without colour the line is its words with a blank between them. */
  lemma {:induction false} PlainLine(line: seq<Word>)
    ensures WriteLine(line, false) == Pen(Uncoloured()(line), NoCode)
  {
    if |line| == 1 {
      assert line[..0] == [];
      PlainPen(Pen("", NoCode), line[0]);
      assert "" + Plain()(line[0]) == Plain()(line[0]);
    } else if line != [] {
      var n := |line| - 1;
      PlainLine(line[..n]);
      UncolouredNext(line);
      var before := Uncoloured()(line[..n]);
      assert before + "" + " " == before + [' '];
      PlainPen(Pen(before + [' '], NoCode), line[n]);
    }
  }

  /** Colour adds escapes and nothing else: erased, the coloured line is the uncoloured one, and
      it is as wide as the packer thought. */
  lemma ColourErased(line: seq<Word>)
    requires Every(line, NoEscape())
    ensures Bare(LineOut(line, true), false) == LineOut(line, false)
    ensures Cells(LineOut(line, true)) == Measure(line)
  {
    LineDisplayed(line);
    BareIsShown(LineOut(line, true), NoCode);
    LineInkText(line);
    PlainLine(line);
    assert Uncoloured()(line) + "" == Uncoloured()(line);
    var ink := LineInk(line);
    assert MapSeq(MapSeq(ink, ShownAs()), RuneOf()) == MapSeq(ink, Rune());
    BareCells(LineOut(line, true), false);
    MeasureAgrees(line);
    UncolouredPlain(line);
  }

  lemma {:induction false} UncolouredPlain(line: seq<Word>)
    requires Every(line, NoEscape())
    ensures Cells(Uncoloured()(line)) == |Uncoloured()(line)|
  {
    assert ESC !in Uncoloured()(line) by {
      JoinMember(MapSeq(line, Plain()), ESC);
      forall i | 0 <= i < |line| ensures ESC !in MapSeq(line, Plain())[i] {
        assert NoEscape()(line[i]);
        PlainLen(line[i]);
      }
    }
    PlainCells(Uncoloured()(line));
  }

  // ----- No escape is wasted -----

  function IsEscape(): char -> bool { (c: char) => c == ESC }

  /** Escapes needed to go from one colour to another. */
  function Cost(from: Code, to: Code): nat
  {
    if from == to then 0 else (if from == NoCode then 0 else 1) + (if to == NoCode then 0 else 1)
  }

  /** Escapes needed to show these runes starting in one colour and ending in another. */
  function Price(from: Code, sh: seq<Shown>, to: Code): nat
    decreases |sh|
  {
    if sh == [] then Cost(from, to) else Cost(from, sh[0].code) + Price(sh[0].code, sh[1..], to)
  }

  lemma PriceVia(from: Code, via: Code, sh: seq<Shown>, to: Code)
    ensures Price(from, sh, to) <= Cost(from, via) + Price(via, sh, to)
  {
  }

  /** Any output with a given display spends at least its price in escapes. */
  lemma {:induction false} DisplayPrice(s: string, open: Code)
    requires Display(s, open).Some?
    ensures var scr := Display(s, open).value; Count(s, IsEscape()) >= Price(open, scr.shown, scr.open)
    decreases |s|
  {
    if s != "" {
      if s[0] == ESC {
        var code := if open != NoCode then RESET else if YELLOW <= s then YELLOW else RED;
        var next := if code == RESET then NoCode else if code == YELLOW then Yellow else Red;
        DisplayPrice(s[|code|..], next);
        CodeEscapes(code, s);
        var scr := Display(s, open).value;
        PriceVia(open, next, scr.shown, scr.open);
      } else {
        DisplayPrice(s[1..], open);
        assert s == [s[0]] + s[1..];
        CountConcat([s[0]], s[1..], IsEscape());
        var scr := Display(s[1..], open).value;
        assert ([Shown(s[0], open)] + scr.shown)[1..] == scr.shown;
      }
    }
  }

  lemma CountOne(c: char)
    ensures Count([c], IsEscape()) == if c == ESC then 1 else 0
  {
    assert [c][..0] == [];
  }

  lemma {:induction false} CountPlain(s: string)
    requires ESC !in s
    ensures Count(s, IsEscape()) == 0
  {
    if s != "" {
      CountPlain(s[..|s| - 1]);
    }
  }

  lemma CodeCount(code: string)
    requires code == RESET || code == YELLOW || code == RED
    ensures Count(code, IsEscape()) == 1
  {
    assert code == [ESC] + code[1..];
    CountConcat([ESC], code[1..], IsEscape());
    CountOne(ESC);
    CountPlain(code[1..]);
  }

  lemma CodeEscapes(code: string, s: string)
    requires (code == RESET || code == YELLOW || code == RED) && code <= s
    ensures Count(s, IsEscape()) == 1 + Count(s[|code|..], IsEscape())
  {
    assert s == code + s[|code|..];
    CountConcat(code, s[|code|..], IsEscape());
    CodeCount(code);
  }

  lemma SwitchCount(from: Code, to: Code)
    ensures Count(Switch(from, to), IsEscape()) == Cost(from, to)
  {
    if from != to {
      CountConcat(if from == NoCode then "" else RESET, CodeText(to), IsEscape());
      CodeCount(RESET);
      CodeCount(YELLOW);
      CodeCount(RED);
    }
  }

  lemma {:induction false} PriceAppend(from: Code, sh: seq<Shown>, text: string, code: Code)
    ensures Price(from, sh + InCode(text, code), code) == Price(from, sh, code)
    decreases |sh| + |text|
  {
    var all := sh + InCode(text, code);
    if sh != [] {
      assert all[1..] == sh[1..] + InCode(text, code);
      PriceAppend(sh[0].code, sh[1..], text, code);
    } else if text != "" {
      assert all[1..] == [] + InCode(text[1..], code);
      PriceAppend(code, [], text[1..], code);
    } else {
      assert all == [];
    }
  }

  function LastCode(from: Code, sh: seq<Shown>): Code { if sh == [] then from else sh[|sh| - 1].code }

  lemma {:induction false} PriceOn(from: Code, sh: seq<Shown>, to: Code)
    ensures Price(from, sh, to) == Price(from, sh, LastCode(from, sh)) + Cost(LastCode(from, sh), to)
    decreases |sh|
  {
    if sh != [] {
      PriceOn(sh[0].code, sh[1..], to);
    }
  }

  /** The pen has spent exactly the price of what it shows. */
  ghost predicate Thrifty(p: Pen, ink: seq<Tinted>)
  {
    var sh := MapSeq(ink, ShownAs());
    p.open == LastCode(NoCode, sh) && Count(p.out, IsEscape()) == Price(NoCode, sh, p.open)
  }

  lemma WriteThrifty(p: Pen, ink: seq<Tinted>, text: string, role: string)
    requires Thrifty(p, ink) && ESC !in text && text != ""
    ensures Thrifty(Write(p, text, CodeOf(role)), ink + Tint(text, role))
  {
    var code, sh := CodeOf(role), MapSeq(ink, ShownAs());
    InkText(ink, text, role);
    PriceAppend(NoCode, sh, text, code);
    PriceOn(NoCode, sh, code);
    SwitchCount(p.open, code);
    CountPlain(text);
    CountConcat(p.out, Switch(p.open, code), IsEscape());
    CountConcat(p.out + Switch(p.open, code), text, IsEscape());
  }

  lemma {:induction false} WordThrifty(p: Pen, ink: seq<Tinted>, w: Word)
    requires Thrifty(p, ink) && EscapeFree(w) && Filled(w)
    ensures Thrifty(WriteWord(p, w, true), ink + WordInk()(w))
  {
    if w == [] {
      assert ink + WordInk()(w) == ink;
    } else {
      var n := |w| - 1;
      WordThrifty(p, ink, w[..n]);
      WriteThrifty(WriteWord(p, w[..n], true), ink + WordInk()(w[..n]), w[n].text, w[n].role);
      InkLast(ink, w);
    }
  }

  lemma InkLast(ink: seq<Tinted>, w: Word)
    requires w != []
    ensures var n := |w| - 1; ink + WordInk()(w) == (ink + WordInk()(w[..n])) + Tint(w[n].text, w[n].role)
  {
    var n := |w| - 1;
    InkAppend(w[..n], w[n]);
    assert w == w[..n] + [w[n]];
    JoinAssociates(ink, WordInk()(w[..n]), Tint(w[n].text, w[n].role));
  }

  lemma NextWordThrifty(p: Pen, ink: seq<Tinted>, role: string, w: Word)
    requires Thrifty(p, ink) && EscapeFree(w) && Filled(w)
    ensures Thrifty(WriteWord(Write(p, " ", CodeOf(role)), w, true), ink + [Tinted(' ', role)] + WordInk()(w))
  {
    WriteThrifty(p, ink, " ", role);
    assert Tint(" ", role) == [Tinted(' ', role)];
    WordThrifty(Write(p, " ", CodeOf(role)), ink + [Tinted(' ', role)], w);
  }

  lemma LineThriftyNext(line: seq<Word>)
    requires |line| > 1 && EscapeFree(line[|line| - 1]) && Filled(line[|line| - 1])
    requires Thrifty(WriteLine(line[..|line| - 1], true), LineInk(line[..|line| - 1]))
    ensures Thrifty(WriteLine(line, true), LineInk(line))
  {
    var n := |line| - 1;
    NextWordThrifty(WriteLine(line[..n], true), LineInk(line[..n]), SeparatorRole(line[n - 1], line[n]), line[n]);
  }

  lemma {:induction false} LineThrifty(line: seq<Word>)
    requires Every(line, NoEscape()) && forall i :: 0 <= i < |line| ==> Filled(line[i])
    ensures Thrifty(WriteLine(line, true), LineInk(line))
  {
    if |line| == 1 {
      assert NoEscape()(line[0]);
      assert line[..0] == [];
      WordThrifty(Pen("", NoCode), [], line[0]);
      assert [] + WordInk()(line[0]) == WordInk()(line[0]);
    } else if line != [] {
      assert NoEscape()(line[|line| - 1]);
      LineThrifty(line[..|line| - 1]);
      LineThriftyNext(line);
    }
  }

  /** Adjacent text in one colour shares one span: no string that a terminal shows the same way
      has fewer escapes. */
  lemma FewestEscapes(line: seq<Word>, other: string)
    requires Every(line, NoEscape()) && forall i :: 0 <= i < |line| ==> Filled(line[i])
    requires Display(other, NoCode) == Display(LineOut(line, true), NoCode)
    ensures Count(LineOut(line, true), IsEscape()) <= Count(other, IsEscape())
  {
    LineDisplayed(line);
    LineThrifty(line);
    var p, sh := WriteLine(line, true), MapSeq(LineInk(line), ShownAs());
    PriceOn(NoCode, sh, NoCode);
    SwitchCount(p.open, NoCode);
    CountConcat(p.out, Switch(p.open, NoCode), IsEscape());
    DisplayPrice(other, NoCode);
  }

  // ----- What is printed -----

  lemma LinesEscapeFree(words: seq<Word>, width: nat)
    requires width > 0 && Every(words, NoEscape())
    ensures forall i :: 0 <= i < |BriefLines(words, width)| ==> Every(BriefLines(words, width)[i], NoEscape())
  {
    if words != [] {
      var chopped := MapSeq(words, WordChopper(width));
      forall i | 0 <= i < |chopped| ensures Every(chopped[i], NoEscape()) {
        assert NoEscape()(words[i]);
        ChopWordKind(words[i], width);
        forall k | 0 <= k < |chopped[i]| ensures NoEscape()(chopped[i][k]) {
          assert SameKind(words[i], chopped[i][k]);
        }
      }
      FlattenEvery(chopped, NoEscape());
      PackContent(Page([], []), chopped, BriefRuler(width));
      FlattenEvery(BriefLines(words, width), NoEscape());
    }
  }

  /** Whatever the runs say, no printed line is wider than asked for, in colour or not. */
  lemma PrintedWidth(runs: seq<Run>, words: seq<Word>, width: int, color: bool)
    requires MapSeq(words, WordInk()) == WordsOf(RunsInk(runs), TintedBlank()) && width > 0
    ensures forall i :: 0 <= i < |BriefLines(words, width)| ==> Cells(LineOut(BriefLines(words, width)[i], color)) <= width
  {
    var lines := BriefLines(words, width);
    WordsEscapeFree(runs, words);
    LinesEscapeFree(words, width);
    BriefWrapFits(words, width);
    forall i | 0 <= i < |lines| ensures Cells(LineOut(lines[i], color)) <= width {
      ColourErased(lines[i]);
      PlainLine(lines[i]);
      MeasureAgrees(lines[i]);
      assert Uncoloured()(lines[i]) + "" == Uncoloured()(lines[i]);
    }
  }

  lemma LinesFilled(words: seq<Word>, width: nat)
    requires width > 0 && AllFilled(words)
    ensures forall i, k :: 0 <= i < |BriefLines(words, width)| && 0 <= k < |BriefLines(words, width)[i]| ==>
              Filled(BriefLines(words, width)[i][k])
  {
    if words != [] {
      var chopped, lines := MapSeq(words, WordChopper(width)), BriefLines(words, width);
      forall i | 0 <= i < |chopped| ensures Every(chopped[i], HasText()) {
        ChopWordKind(words[i], width);
        forall k | 0 <= k < |chopped[i]| ensures HasText()(chopped[i][k]) {
          assert SameKind(words[i], chopped[i][k]);
        }
      }
      FlattenEvery(chopped, HasText());
      PackContent(Page([], []), chopped, BriefRuler(width));
      FlattenEvery(lines, HasText());
      forall i, k | 0 <= i < |lines| && 0 <= k < |lines[i]| ensures Filled(lines[i][k]) {
        assert Every(lines[i], HasText());
        assert HasText()(lines[i][k]);
      }
    }
  }

  function HasText(): Word -> bool { (w: Word) => Filled(w) }

  /** Whatever the runs say, every printed line displays each rune once, in order and in its role's
      colour, leaves no colour on, and no output displayed the same has fewer escapes. */
  lemma PrintedInColour(runs: seq<Run>, words: seq<Word>, width: int, i: nat)
    requires MapSeq(words, WordInk()) == WordsOf(RunsInk(runs), TintedBlank()) && AllFilled(words)
    requires width > 0 && i < |BriefLines(words, width)|
    ensures var line := BriefLines(words, width)[i];
            && Display(LineOut(line, true), NoCode) == Some(Screen(MapSeq(LineInk(line), ShownAs()), NoCode))
            && Bare(LineOut(line, true), false) == LineOut(line, false)
            && forall other :: Display(other, NoCode) == Display(LineOut(line, true), NoCode) ==>
                 Count(LineOut(line, true), IsEscape()) <= Count(other, IsEscape())
  {
    var line := BriefLines(words, width)[i];
    WordsEscapeFree(runs, words);
    LinesEscapeFree(words, width);
    LinesFilled(words, width);
    LineDisplayed(line);
    ColourErased(line);
    forall other | Display(other, NoCode) == Display(LineOut(line, true), NoCode)
      ensures Count(LineOut(line, true), IsEscape()) <= Count(other, IsEscape())
    {
      FewestEscapes(line, other);
    }
  }

  // ----- Which role has which colour -----

  function Coloured(code: string, text: string): string { code + text + [ESC, '[', '0', 'm'] }

  /** A word to act on is red. */
  lemma ActIsRed(text: string)
    ensures LineOut([[Seg(text, "act")]], true) == Coloured([ESC, '[', '3', '1', 'm'], text)
  {
    OneWordOut(text, "act");
    assert CodeOf("act") == Red;
    assert Switch(NoCode, Red) == "" + RED;
    assert Switch(Red, NoCode) == RESET + "";
  }

  /** A word to watch is yellow. */
  lemma WatchIsYellow(text: string)
    ensures LineOut([[Seg(text, "watch")]], true) == Coloured([ESC, '[', '3', '3', 'm'], text)
  {
    OneWordOut(text, "watch");
    assert CodeOf("watch") == Yellow;
    assert Switch(NoCode, Yellow) == "" + YELLOW;
    assert Switch(Yellow, NoCode) == RESET + "";
  }

  /** Any other word is plain. */
  lemma OthersArePlain(text: string, role: string)
    requires role != "act" && role != "watch"
    ensures LineOut([[Seg(text, role)]], true) == text
  {
    OneWordOut(text, role);
    assert "" + text + "" == text;
  }

  lemma OneWordOut(text: string, role: string)
    ensures LineOut([[Seg(text, role)]], true) == Switch(NoCode, CodeOf(role)) + text + Switch(CodeOf(role), NoCode)
  {
    var w: Word := [Seg(text, role)];
    var line := [w];
    assert line[..0] == [] && w[..0] == [];
    assert WriteLine(line, true) == WriteWord(Pen("", NoCode), w, true);
    assert WriteWord(Pen("", NoCode), w, true) == Write(Pen("", NoCode), text, CodeOf(role));
    assert "" + Switch(NoCode, CodeOf(role)) == Switch(NoCode, CodeOf(role));
  }

  /** The blank between two words stays inside the span of a shared role and is plain otherwise. */
  lemma BlankBetween(a: string, b: string, q: string, r: string)
    ensures var blank := if q == r then CodeOf(q) else NoCode;
            LineOut([[Seg(a, q)], [Seg(b, r)]], true) ==
            Switch(NoCode, CodeOf(q)) + a + Switch(CodeOf(q), blank) + " " + Switch(blank, CodeOf(r)) + b + Switch(CodeOf(r), NoCode)
  {
    var v: Word, w: Word := [Seg(a, q)], [Seg(b, r)];
    var line := [v, w];
    var blank := if q == r then CodeOf(q) else NoCode;
    assert line[..1] == [v] && [v][..0] == [] && v[..0] == [] && w[..0] == [];
    var p1 := Write(Pen("", NoCode), a, CodeOf(q));
    assert WriteLine([v], true) == WriteWord(Pen("", NoCode), v, true) == p1;
    var p2 := Write(p1, " ", blank);
    assert WriteLine(line, true) == WriteWord(p2, w, true) == Write(p2, b, CodeOf(r));
    assert "" + Switch(NoCode, CodeOf(q)) == Switch(NoCode, CodeOf(q));
  }
}
