/** Packing the brief's tinted words, and its agreement with the plain wrapper. */
module BriefWrap {
  import opened Sequences
  import opened Text
  import opened Escapes
  import opened Packing
  import opened Tokens
  import opened Wrap
  import opened Brief

  function WordLen(w: Word): nat
  {
    if w == [] then 0 else Cells(w[0].text) + WordLen(w[1..])
  }

  method BriefWordLen(w: Word) returns (n: nat)
    ensures n == WordLen(w)
  {
    n := 0;
    for i := 0 to |w|
      invariant n + WordLen(w[i..]) == WordLen(w)
    {
      assert w[i..][1..] == w[i + 1..];
      var cells := VisibleLen(w[i].text);
      n := n + cells;
    }
  }

  // ----- Splitting a tinted word -----

  function IfText(text: string, role: string): Word { if text == "" then [] else [Seg(text, role)] }

  /** The fragments that fill the room, and what is left. */
  function SplitSegs(w: Word, room: int): (Word, Word)
  {
    if w == [] || room <= 0 then ([], w)
    else if Cells(w[0].text) <= room then
      var (h, t) := SplitSegs(w[1..], room - Cells(w[0].text));
      ([w[0]] + h, t)
    else
      var (first, rest) := SplitWord(w[0].text, room);
      ([Seg(first, w[0].role)], IfText(rest, w[0].role) + w[1..])
  }

  /** The split of a word whose first fragments have been dealt out already. */
  function Dealt(head: Word, tail: Word, w: Word, room: int): (Word, Word)
  {
    (head + SplitSegs(w, room).0, tail + SplitSegs(w, room).1)
  }

  lemma DealOne(head: Word, tail: Word, seg: Seg, w: Word, room: int)
    requires room <= 0 || tail == []
    ensures var n, (first, rest) := Cells(seg.text), SplitWord(seg.text, room);
            Dealt(head, tail, [seg] + w, room) ==
            if room <= 0 then Dealt(head, tail + [seg], w, room)
            else if n <= room then Dealt(head + [seg], tail, w, room - n)
            else Dealt(head + [Seg(first, seg.role)], tail + IfText(rest, seg.role), w, 0)
  {
    assert ([seg] + w)[1..] == w;
    if room <= 0 {
      assert tail + ([seg] + w) == tail + [seg] + w;
    } else if Cells(seg.text) <= room {
      JoinAssociates(head, [seg], SplitSegs(w, room - Cells(seg.text)).0);
    } else {
      var first := Seg(SplitWord(seg.text, room).0, seg.role);
      assert head + [first] + [] == head + [first];
      JoinAssociates(tail, IfText(SplitWord(seg.text, room).1, seg.role), w);
    }
  }

  method SplitBriefWord(w: Word, width: int) returns (head: Word, tail: Word)
    ensures (head, tail) == SplitSegs(w, width)
  {
    head, tail := [], [];
    var used := 0;
    assert w[0..] == w && [] + SplitSegs(w, width).0 == SplitSegs(w, width).0 && [] + SplitSegs(w, width).1 == SplitSegs(w, width).1;
    for i := 0 to |w|
      invariant SplitSegs(w, width) == Dealt(head, tail, w[i..], width - used)
      invariant used >= width || tail == []
    {
      assert w[i..] == [w[i]] + w[i + 1..];
      DealOne(head, tail, w[i], w[i + 1..], width - used);
      var n := VisibleLen(w[i].text);
      if used >= width {
        tail := tail + [w[i]];
      } else if used + n <= width {
        head := head + [w[i]];
        used := used + n;
      } else {
        var first, rest := SplitVisibleWord(w[i].text, width - used);
        head := head + [Seg(first, w[i].role)];
        used := width;
        if rest != "" {
          tail := tail + [Seg(rest, w[i].role)];
        }
      }
    }
    assert w[|w|..] == [] && head + [] == head && tail + [] == tail;
  }

  lemma InkCons(seg: Seg, w: Word)
    ensures WordInk()([seg] + w) == Tint(seg.text, seg.role) + WordInk()(w)
  {
    assert MapSeq([seg] + w, SegInk())[1..] == MapSeq(w, SegInk());
  }

  lemma OneSeg(seg: Seg)
    ensures WordInk()([seg]) == Tint(seg.text, seg.role) && WordLen([seg]) == Cells(seg.text)
  {
    assert [seg] + [] == [seg] && [seg][1..] == [];
    InkCons(seg, []);
  }

  predicate EscapeFree(w: Word) { forall i :: 0 <= i < |w| ==> ESC !in w[i].text }

  /** A part of a word has no empty fragment and no escape unless the word has. */
  predicate SameKind(w: Word, piece: Word) { (Filled(w) ==> Filled(piece)) && (EscapeFree(w) ==> EscapeFree(piece)) }

  /** Splitting keeps every rune and its role; the head fills the room exactly. */
  lemma {:induction false} SplitSegsProps(w: Word, room: nat)
    requires WordLen(w) > room
    ensures var (h, t) := SplitSegs(w, room);
            && WordInk()(h) + WordInk()(t) == WordInk()(w)
            && WordLen(h) == room && WordLen(t) == WordLen(w) - room
            && SameKind(w, h) && SameKind(w, t)
  {
    var seg, n := w[0], Cells(w[0].text);
    assert w == [seg] + w[1..];
    InkCons(seg, w[1..]);
    if room == 0 {
    } else if n <= room {
      SplitSegsProps(w[1..], room - n);
      var (h, t) := SplitSegs(w[1..], room - n);
      InkCons(seg, h);
      assert ([seg] + h)[1..] == h;
      JoinAssociates(Tint(seg.text, seg.role), WordInk()(h), WordInk()(t));
    } else {
      SplitInside(w, room);
      SplitInsideKind(w, room);
    }
  }

  /** A split inside a fragment gives both halves its role. */
  lemma HalvesInk(seg: Seg, first: string, rest: string, w: Word)
    requires first + rest == seg.text
    ensures WordInk()([Seg(first, seg.role)]) + WordInk()([Seg(rest, seg.role)] + w) == WordInk()([seg] + w)
  {
    var a, b := Seg(first, seg.role), Seg(rest, seg.role);
    OneSeg(a);
    InkCons(b, w);
    InkCons(seg, w);
    TintConcat(first, rest, seg.role);
    JoinAssociates(Tint(first, seg.role), Tint(rest, seg.role), WordInk()(w));
  }

  lemma SplitInside(w: Word, room: nat)
    requires w != [] && Cells(w[0].text) > room > 0
    ensures var (h, t) := SplitSegs(w, room);
            && WordInk()(h) + WordInk()(t) == WordInk()(w)
            && WordLen(h) == room && WordLen(t) == WordLen(w) - room
  {
    var seg := w[0];
    SplitWordProps(seg.text, room);
    var (first, rest) := SplitWord(seg.text, room);
    var a, b := Seg(first, seg.role), Seg(rest, seg.role);
    assert SplitSegs(w, room) == ([a], [b] + w[1..]);
    assert w == [seg] + w[1..];
    HalvesInk(seg, first, rest, w[1..]);
    OneSeg(a);
    assert ([b] + w[1..])[1..] == w[1..];
  }

  /** Splitting inside a fragment makes no empty fragment and no new escape. */
  lemma SplitInsideKind(w: Word, room: nat)
    requires w != [] && Cells(w[0].text) > room > 0
    ensures var (h, t) := SplitSegs(w, room);
            SameKind(w, h) && SameKind(w, t)
  {
    SplitWordProps(w[0].text, room);
    var (first, rest) := SplitWord(w[0].text, room);
    assert SplitSegs(w, room) == ([Seg(first, w[0].role)], [Seg(rest, w[0].role)] + w[1..]);
    assert forall c :: c in first || c in rest ==> c in first + rest;
  }

  function ChopWord(w: Word, width: nat): (pieces: seq<Word>)
    ensures pieces != []
    decreases WordLen(w)
  {
    if width > 0 && WordLen(w) > width then
      SplitSegsProps(w, width);
      var (head, tail) := SplitSegs(w, width);
      [head] + ChopWord(tail, width)
    else [w]
  }

  function WordChopper(width: nat): Word -> seq<Word> { (w: Word) => ChopWord(w, width) }

  /** The pieces hold the word's runes with their roles. */
  lemma {:induction false} ChopWordInk(w: Word, width: nat)
    requires width > 0
    ensures Flatten(MapSeq(ChopWord(w, width), WordInk())) == WordInk()(w)
    decreases WordLen(w)
  {
    if WordLen(w) > width {
      SplitSegsProps(w, width);
      var (head, tail) := SplitSegs(w, width);
      ChopWordInk(tail, width);
      InkOfPieces(head, ChopWord(tail, width));
    } else {
      InkOfPieces(w, []);
      assert [w] + [] == [w] && WordInk()(w) + [] == WordInk()(w);
    }
  }

  /** Each piece fits and each but the last is full. */
  predicate FullPieces(ps: seq<Word>, width: nat)
  {
    && (forall i :: 0 <= i < |ps| ==> WordLen(ps[i]) <= width)
    && (forall i :: 0 <= i < |ps| - 1 ==> WordLen(ps[i]) == width)
  }

  lemma OneMorePiece(head: Word, rest: seq<Word>, width: nat)
    requires WordLen(head) == width && FullPieces(rest, width)
    ensures FullPieces([head] + rest, width)
  {
    var ps := [head] + rest;
    forall i | 0 <= i < |ps| ensures WordLen(ps[i]) <= width && (i < |ps| - 1 ==> WordLen(ps[i]) == width) {
      if i == 0 {
        assert ps[i] == head;
      } else {
        assert ps[i] == rest[i - 1];
      }
    }
  }

  /** The pieces fit and are full; a word that fits is left alone. */
  lemma {:induction false} ChopWordProps(w: Word, width: nat)
    requires width > 0
    ensures FullPieces(ChopWord(w, width), width)
    ensures WordLen(w) <= width ==> ChopWord(w, width) == [w]
    decreases WordLen(w)
  {
    if WordLen(w) > width {
      SplitSegsProps(w, width);
      ChopWordProps(SplitSegs(w, width).1, width);
      OneMorePiece(SplitSegs(w, width).0, ChopWord(SplitSegs(w, width).1, width), width);
    }
  }

  lemma {:induction false} ChopWordKind(w: Word, width: nat)
    requires width > 0
    ensures forall i :: 0 <= i < |ChopWord(w, width)| ==> SameKind(w, ChopWord(w, width)[i])
    decreases WordLen(w)
  {
    if WordLen(w) > width {
      SplitSegsProps(w, width);
      var (head, tail) := SplitSegs(w, width);
      ChopWordKind(tail, width);
      var rest := ChopWord(tail, width);
      assert ChopWord(w, width) == [head] + rest;
      assert SameKind(w, head) && SameKind(w, tail);
      forall i | 0 <= i < |rest| ensures SameKind(w, rest[i]) {
        assert SameKind(tail, rest[i]);
      }
    }
  }

  lemma InkOfPieces(head: Word, rest: seq<Word>)
    ensures Flatten(MapSeq([head] + rest, WordInk())) == WordInk()(head) + Flatten(MapSeq(rest, WordInk()))
  {
    assert MapSeq([head] + rest, WordInk())[1..] == MapSeq(rest, WordInk());
  }

  // ----- Packing -----

  /** The words of a line and one cell between them. */
  function Measure(line: seq<Word>): nat
  {
    if line == [] then 0
    else if |line| == 1 then WordLen(line[0])
    else Measure(line[..|line| - 1]) + 1 + WordLen(line[|line| - 1])
  }

  lemma MeasureAppend(line: seq<Word>, w: Word)
    requires line != []
    ensures Measure(line + [w]) == Measure(line) + 1 + WordLen(w)
  {
    assert (line + [w])[..|line|] == line;
  }

  function LenOf(): Word -> nat { (w: Word) => WordLen(w) }

  function MeasureOf(): seq<Word> -> nat { (line: seq<Word>) => Measure(line) }

  function BriefRuler(width: nat): Ruler<Word> { Ruler(LenOf(), MeasureOf(), width) }

  function BriefLines(words: seq<Word>, width: int): seq<seq<Word>>
  {
    if words == [] then []
    else if width <= 0 then [words]
    else Packed(MapSeq(words, WordChopper(width)), BriefRuler(width))
  }

  method PlaceWord(lines0: seq<seq<Word>>, line0: seq<Word>, used0: nat, original: Word, width: nat)
    returns (lines: seq<seq<Word>>, line: seq<Word>, used: nat)
    requires width > 0 && used0 == Measure(line0)
    ensures Page(lines, line) == Place(Page(lines0, line0), ChopWord(original, width), BriefRuler(width))
    ensures used == Measure(line)
  {
    lines, line, used := lines0, line0, used0;
    var word := original;
    var n := BriefWordLen(word);
    while n > width
      invariant n == WordLen(word) && used == Measure(line)
      invariant Place(Page(lines, line), ChopWord(word, width), BriefRuler(width))
                == Place(Page(lines0, line0), ChopWord(original, width), BriefRuler(width))
      decreases n
    {
      SplitSegsProps(word, width);
      var head, tail := SplitBriefWord(word, width);
      assert ChopWord(word, width)[1..] == ChopWord(tail, width);
      word := tail;
      if |line| > 0 {
        lines, line, used := lines + [line], [], 0;
      }
      lines := lines + [[head]];
      n := BriefWordLen(word);
    }
    if |line| == 0 {
      line, used := [word], n;
    } else if used + 1 + n <= width {
      MeasureAppend(line, word);
      line, used := line + [word], used + 1 + n;
    } else {
      lines := lines + [line];
      line, used := [word], n;
    }
  }

  method BriefWrapWords(words: seq<Word>, width: int) returns (lines: seq<seq<Word>>)
    ensures lines == BriefLines(words, width)
  {
    if |words| == 0 {
      return [];
    }
    if width <= 0 {
      return [words];
    }
    lines := [];
    var line: seq<Word>, used := [], 0;
    ghost var chopped, ruler := MapSeq(words, WordChopper(width)), BriefRuler(width);
    assert chopped[0..] == chopped;
    for i := 0 to |words|
      invariant used == Measure(line) && Pack(Page(lines, line), chopped[i..], ruler) == Pack(Page([], []), chopped, ruler)
    {
      PackStep(Page(lines, line), chopped, i, ruler);
      lines, line, used := PlaceWord(lines, line, used, words[i], width);
    }
    if |line| > 0 {
      lines := lines + [line];
    }
  }

  // ----- What packing promises -----

  function AnyWord(): Word -> bool { (w: Word) => true }

  lemma BriefExact(width: nat)
    ensures Exact(BriefRuler(width), AnyWord()) && Sound(BriefRuler(width))
  {
    var r := BriefRuler(width);
    forall line: seq<Word>, w: Word | line != [] ensures r.measure(line + [w]) == r.measure(line) + 1 + r.len(w) {
      MeasureAppend(line, w);
    }
  }

  /** No line overruns, and the lines hold every rune of the words in order, with its role. */
  lemma BriefWrapFits(words: seq<Word>, width: int)
    requires width > 0
    ensures var lines := BriefLines(words, width);
            && (forall i :: 0 <= i < |lines| ==> lines[i] != [] && Measure(lines[i]) <= width)
            && Flatten(MapSeq(Flatten(lines), WordInk())) == Flatten(MapSeq(words, WordInk()))
  {
    if words != [] {
      var chopped, r := MapSeq(words, WordChopper(width)), BriefRuler(width);
      BriefExact(width);
      forall i | 0 <= i < |words| ensures AllFit(chopped[i], r) {
        ChopWordProps(words[i], width);
        forall j | 0 <= j < |chopped[i]| ensures r.len(chopped[i][j]) <= r.width {
          assert chopped[i][j] == ChopWord(words[i], width)[j];
        }
      }
      PackedFits(chopped, r);
      forall i | 0 <= i < |BriefLines(words, width)|
        ensures BriefLines(words, width)[i] != [] && Measure(BriefLines(words, width)[i]) <= width
      {
        assert LineFits(Packed(chopped, r)[i], r);
      }
      ChoppedInk(words, width);
    }
  }

  lemma InkParts(a: seq<Word>, b: seq<Word>)
    ensures Flatten(MapSeq(a + b, WordInk())) == Flatten(MapSeq(a, WordInk())) + Flatten(MapSeq(b, WordInk()))
  {
    assert MapSeq(a + b, WordInk()) == MapSeq(a, WordInk()) + MapSeq(b, WordInk());
    FlattenConcat(MapSeq(a, WordInk()), MapSeq(b, WordInk()));
  }

  lemma {:induction false} ChoppedInk(words: seq<Word>, width: nat)
    requires width > 0
    ensures Flatten(MapSeq(Flatten(MapSeq(words, WordChopper(width))), WordInk())) == Flatten(MapSeq(words, WordInk()))
  {
    if words != [] {
      var w, rest := words[0], words[1..];
      ChoppedInk(rest, width);
      ChopWordInk(w, width);
      assert MapSeq(words, WordChopper(width))[1..] == MapSeq(rest, WordChopper(width));
      assert MapSeq(words, WordInk())[1..] == MapSeq(rest, WordInk());
      InkParts(ChopWord(w, width), Flatten(MapSeq(rest, WordChopper(width))));
    }
  }

  /** For every list of words, no line could have taken the first piece of the next. */
  lemma BriefWrapTight(words: seq<Word>, width: nat)
    requires width > 0
    ensures Tight(BriefLines(words, width), BriefRuler(width))
  {
    if words != [] {
      var chopped, r := MapSeq(words, WordChopper(width)), BriefRuler(width);
      assert Solo(r) by {
        forall w: Word ensures r.measure([w]) == r.len(w) {
        }
      }
      forall i | 0 <= i < |chopped| ensures Heads(chopped[i], r) {
        ChopWordProps(words[i], width);
      }
      PackedTight(chopped, r);
    }
  }

  /** When every word fits, no order-preserving packing within the width has fewer lines. */
  lemma BriefWrapOptimal(words: seq<Word>, width: int, lines: seq<seq<Word>>)
    requires width > 0 && (forall i :: 0 <= i < |words| ==> WordLen(words[i]) <= width)
    requires Flatten(lines) == words
    requires forall i :: 0 <= i < |lines| && lines[i] != [] ==> Measure(lines[i]) <= width
    ensures |BriefLines(words, width)| <= |lines|
  {
    BriefExact(width);
    GreedyOptimal(words, lines, BriefRuler(width), AnyWord());
    assert MapSeq(words, WordChopper(width)) == Singles(words);
  }

  // ----- Roles erased, it is the plain wrapper -----

  lemma {:induction false} PlainLen(w: Word)
    requires EscapeFree(w)
    ensures ESC !in Plain()(w) && WordLen(w) == |Plain()(w)| == Cells(Plain()(w))
  {
    if w != [] {
      PlainLen(w[1..]);
      assert MapSeq(w, SegText())[1..] == MapSeq(w[1..], SegText());
      PlainCells(w[0].text);
    }
    PlainCells(Plain()(w));
  }

  /** Without escapes a cut is simply after width runes. */
  lemma PlainSplit(s: string, width: nat)
    requires ESC !in s && |s| > width > 0
    ensures SplitWord(s, width) == (s[..width], s[width..]) && Cells(s) > width
  {
    PlainCells(s);
    PlainCells(s[..width]);
    SplitWordProps(s, width);
    CutUnique(s, width, width, |SplitWord(s, width).0|);
  }

  lemma SplitAgrees(w: Word, width: nat)
    requires EscapeFree(w) && WordLen(w) > width > 0
    ensures var (h, t) := SplitSegs(w, width);
            SplitWord(Plain()(w), width) == (Plain()(h), Plain()(t)) && EscapeFree(h) && EscapeFree(t)
  {
    var (h, t) := SplitSegs(w, width);
    SplitSegsProps(w, width);
    PlainParts(w, h, t);
    PlainLen(w);
    PlainLen(h);
    PlainSplit(Plain()(w), width);
    SplitAtLength(Plain()(h), Plain()(t));
  }

  lemma PlainParts(w: Word, h: Word, t: Word)
    requires WordInk()(h) + WordInk()(t) == WordInk()(w)
    ensures Plain()(w) == Plain()(h) + Plain()(t)
  {
    PlainInk(w);
    PlainInk(h);
    PlainInk(t);
  }

  lemma SplitAtLength(a: string, b: string)
    ensures (a + b)[..|a|] == a && (a + b)[|a|..] == b
  {
  }

  lemma {:induction false} ChopAgrees(w: Word, width: nat)
    requires EscapeFree(w) && width > 0
    ensures MapSeq(ChopWord(w, width), Plain()) == Chop(Plain()(w), width)
    decreases WordLen(w)
  {
    PlainLen(w);
    if WordLen(w) > width {
      SplitSegsProps(w, width);
      SplitAgrees(w, width);
      ChopAgrees(SplitSegs(w, width).1, width);
    }
  }

  function NoEscape(): Word -> bool { (w: Word) => EscapeFree(w) }

  /** The text of a line, uncoloured. */
  function Uncoloured(): seq<Word> -> string { (line: seq<Word>) => Join(MapSeq(line, Plain()), ' ') }

  lemma {:induction false} MeasureAgrees(line: seq<Word>)
    requires Every(line, NoEscape())
    ensures Measure(line) == Cells(Uncoloured()(line)) && Closed(Uncoloured()(line))
  {
    if |line| == 1 {
      PlainLen(line[0]);
      PlainCells(Plain()(line[0]));
    } else if line != [] {
      var n := |line| - 1;
      MeasureAgrees(line[..n]);
      PlainLen(line[n]);
      PlainCells(Plain()(line[n]));
      assert line == line[..n] + [line[n]];
      MapAppend(line[..n], line[n], Plain());
      JoinedCells(MapSeq(line[..n], Plain()), Plain()(line[n]));
    }
  }

  lemma RulersAgree(width: nat)
    ensures Agree(BriefRuler(width), PlainRuler(width), Plain(), NoEscape())
  {
    forall w: Word | NoEscape()(w) ensures WordLen(w) == Cells(Plain()(w)) {
      PlainLen(w);
    }
    forall line: seq<Word> | Every(line, NoEscape()) ensures Measure(line) == Cells(Join(MapSeq(line, Plain()), ' ')) {
      MeasureAgrees(line);
    }
  }

  lemma PackingAgrees(words: seq<Word>, width: nat)
    requires width > 0 && Every(words, NoEscape())
    ensures MapSeq(Packed(MapSeq(words, WordChopper(width)), BriefRuler(width)), MapLine(Plain()))
            == Packed(MapSeq(MapSeq(words, Plain()), Chopper(width)), PlainRuler(width))
  {
    var chopped := MapSeq(words, WordChopper(width));
    forall i | 0 <= i < |words| ensures Every(chopped[i], NoEscape()) && MapSeq(chopped[i], Plain()) == Chop(Plain()(words[i]), width) {
      ChopWordKind(words[i], width);
      ChopAgrees(words[i], width);
      forall k | 0 <= k < |chopped[i]| ensures NoEscape()(chopped[i][k]) {
        assert SameKind(words[i], chopped[i][k]);
      }
    }
    assert MapSeq(chopped, MapLine(Plain())) == MapSeq(MapSeq(words, Plain()), Chopper(width));
    RulersAgree(width);
    var blank: Page<Word> := Page([], []);
    PackAgrees(blank, chopped, BriefRuler(width), PlainRuler(width), Plain(), NoEscape());
    MapFlush(Pack(blank, chopped, BriefRuler(width)), Plain());
    assert MapPage(blank, Plain()) == Page([], []);
  }

  lemma ErasedLines(lines: seq<seq<Word>>)
    ensures MapSeq(lines, Uncoloured()) == MapSeq(MapSeq(lines, MapLine(Plain())), LineText())
  {
  }

  lemma TrimJoin(words: seq<string>)
    requires words != [] && Wordy(words, White())
    ensures TrimSpace(Join(words, ' ')) == Join(words, ' ') != ""
  {
    var s := Join(words, ' ');
    JoinEnds(words);
  }

  lemma {:induction false} JoinEnds(words: seq<string>)
    requires words != [] && Wordy(words, White())
    ensures var s := Join(words, ' '); s != "" && !IsSpace(s[0]) && !IsSpace(s[|s| - 1])
  {
    if |words| > 1 {
      JoinEnds(words[..|words| - 1]);
    }
  }

  /** On the same list of words the two wrappers make the same lines, whatever the width, unless
      there is no word: then one makes no line and the other an empty one. */
  lemma BriefWrapsLikePlain(words: seq<Word>, width: int)
    requires Every(words, NoEscape()) && Wordy(MapSeq(words, Plain()), White())
    ensures words != [] <==> MapSeq(BriefLines(words, width), Uncoloured()) == WrapLines(Join(MapSeq(words, Plain()), ' '), width)
  {
    var texts := MapSeq(words, Plain());
    if words == [] {
      assert MapSeq(BriefLines(words, width), Uncoloured()) == [];
      return;
    }
    TrimJoin(texts);
    if width <= 0 {
      assert MapSeq([words], Uncoloured()) == [Join(texts, ' ')];
    } else {
      TokensJoin(texts, White());
      PackingAgrees(words, width);
      ErasedLines(BriefLines(words, width));
    }
  }

  /** White space in the text is blanks only. */
  predicate BlanksOnly(s: string) { forall i :: 0 <= i < |s| && IsSpace(s[i]) ==> s[i] == ' ' }

  lemma {:induction false} SanitizedPieces(ps: seq<string>)
    requires forall i :: 0 <= i < |ps| ==> ESC !in ps[i]
    ensures ESC !in Flatten(ps)
  {
    if ps != [] {
      SanitizedPieces(ps[1..]);
    }
  }

  /** Words read off sanitized runs carry no escape. */
  lemma WordsEscapeFree(runs: seq<Run>, words: seq<Word>)
    requires MapSeq(words, WordInk()) == WordsOf(RunsInk(runs), TintedBlank())
    ensures Every(words, NoEscape())
  {
    WordsErased(runs, words);
    SanitizedPieces(MapSeq(runs, (r: Run) => Sanitize(r.text)));
    TokensContent(RunsText(runs), Blank());
    InkOnly(RunsText(runs), Blank());
    forall i | 0 <= i < |words| ensures EscapeFree(words[i]) {
      assert ESC !in MapSeq(words, Plain())[i] by {
        FlattenMember(MapSeq(words, Plain()), ESC);
      }
      forall k | 0 <= k < |words[i]| ensures ESC !in words[i][k].text {
        FlattenMember(MapSeq(words[i], SegText()), ESC);
        assert MapSeq(words[i], SegText())[k] == words[i][k].text;
      }
    }
  }

  lemma {:induction false} InkOnly(s: string, space: char -> bool)
    ensures forall c :: c in Ink(s, space) ==> c in s
  {
    if s != "" {
      InkOnly(s[1..], space);
    }
  }

  lemma WrapsRunsOfBlanks(runs: seq<Run>, words: seq<Word>, width: nat)
    requires MapSeq(words, WordInk()) == WordsOf(RunsInk(runs), TintedBlank()) && words != []
    requires width > 0 && BlanksOnly(RunsText(runs))
    ensures MapSeq(BriefLines(words, width), Uncoloured()) == WrapLines(RunsText(runs), width)
  {
    var text := RunsText(runs);
    WordsErased(runs, words);
    WordsEscapeFree(runs, words);
    FeedSame(Scan([], []), text, Blank(), White());
    TrimTokens(text);
    PackingAgrees(words, width);
    ErasedLines(BriefLines(words, width));
    assert WordsOf("", White()) == [];
    assert |MapSeq(words, Plain())| == |words|;
  }

  lemma {:induction false} JoinMember(line: seq<string>, c: char)
    requires c != ' '
    ensures c in Join(line, ' ') <==> exists i :: 0 <= i < |line| && c in line[i]
  {
    if |line| == 1 {
      if c in Join(line, ' ') {
        assert c in line[0];
      }
    } else if line != [] {
      var n := |line| - 1;
      JoinMember(line[..n], c);
      assert line == line[..n] + [line[n]];
      if c in Join(line[..n], ' ') {
        var i :| 0 <= i < n && c in line[..n][i];
        assert c in line[i];
      }
      if i :| 0 <= i < |line| && c in line[i] {
        if i < n {
          assert c in line[..n][i];
        }
      }
    }
  }

  /** The only white space in a wrapped line is the blanks between its words. */
  lemma WrappedBlanks(text: string, width: nat, c: char)
    requires width > 0 && c != ' ' && IsSpace(c)
    ensures c !in Flatten(WrapLines(text, width))
  {
    var lines := WrapLines(text, width);
    LayoutSolid(text, width);
    FlattenMember(lines, c);
    forall i | 0 <= i < |lines| ensures c !in lines[i] {
      if TrimSpace(text) != "" {
        var line := Layout(text, width)[i];
        JoinMember(line, c);
        forall k | 0 <= k < |line| ensures c !in line[k] {
          assert Solid(line[k], White());
        }
      }
    }
  }

  /** Erasing roles commutes with putting words together. */
  lemma {:induction false} ErasedWhole(ws: seq<Word>)
    ensures MapSeq(Flatten(MapSeq(ws, WordInk())), Rune()) == Flatten(MapSeq(ws, Plain()))
  {
    if ws != [] {
      ErasedWhole(ws[1..]);
      PlainInk(ws[0]);
      assert MapSeq(ws, WordInk())[1..] == MapSeq(ws[1..], WordInk());
      assert MapSeq(ws, Plain())[1..] == MapSeq(ws[1..], Plain());
    }
  }

  /** A rune that is not a blank is in some brief line as soon as it is in some word. */
  lemma BriefKeepsRune(words: seq<Word>, width: nat, c: char)
    requires width > 0 && c != ' ' && c in Flatten(MapSeq(words, Plain()))
    ensures c in Flatten(MapSeq(BriefLines(words, width), Uncoloured()))
  {
    var lines := BriefLines(words, width);
    BriefWrapFits(words, width);
    ErasedWhole(words);
    ErasedWhole(Flatten(lines));
    var pieces := MapSeq(Flatten(lines), Plain());
    FlattenMember(pieces, c);
    var j :| 0 <= j < |pieces| && c in pieces[j];
    PieceShown(lines, j, c);
  }

  lemma PieceShown(lines: seq<seq<Word>>, j: nat, c: char)
    requires j < |Flatten(lines)| && c != ' ' && c in Plain()(Flatten(lines)[j])
    ensures c in Flatten(MapSeq(lines, Uncoloured()))
  {
    FlattenMember(lines, Flatten(lines)[j]);
    var i :| 0 <= i < |lines| && Flatten(lines)[j] in lines[i];
    var k :| 0 <= k < |lines[i]| && lines[i][k] == Flatten(lines)[j];
    JoinMember(MapSeq(lines[i], Plain()), c);
    assert c in MapSeq(lines[i], Plain())[k];
    assert c in MapSeq(lines, Uncoloured())[i];
    FlattenMember(MapSeq(lines, Uncoloured()), c);
  }

  lemma {:induction false} InkHas(s: string, c: char, space: char -> bool)
    requires c in s && !space(c)
    ensures c in Ink(s, space)
  {
    if s[0] != c {
      InkHas(s[1..], c, space);
    }
  }

  lemma WrapsWordsIff(runs: seq<Run>, words: seq<Word>, width: int)
    requires MapSeq(words, WordInk()) == WordsOf(RunsInk(runs), TintedBlank()) && words != [] && width > 0
    ensures BlanksOnly(RunsText(runs)) <==>
            MapSeq(BriefLines(words, width), Uncoloured()) == WrapLines(RunsText(runs), width)
  {
    var text := RunsText(runs);
    if BlanksOnly(text) {
      WrapsRunsOfBlanks(runs, words, width);
    } else {
      var i :| 0 <= i < |text| && IsSpace(text[i]) && text[i] != ' ';
      WordsErased(runs, words);
      TokensContent(text, Blank());
      InkHas(text, text[i], Blank());
      BriefKeepsRune(words, width, text[i]);
      WrappedBlanks(text, width, text[i]);
    }
  }

  /** Trimmed, the text is spaced as its words would be, and trimming drops nothing but blanks. */
  predicate Tidy(text: string)
  {
    SingleSpaced(TrimSpace(text)) && Ink(TrimSpace(text), Blank()) == Ink(text, Blank())
  }

  lemma TidyIff(text: string)
    requires WordsOf(text, Blank()) != []
    ensures Tidy(text) <==> Join(WordsOf(text, Blank()), ' ') == TrimSpace(text)
  {
    var words, t := WordsOf(text, Blank()), TrimSpace(text);
    TokensWordy(text, Blank());
    if Tidy(text) {
      TrimBlankWords(text);
      TrimEnds(text);
      assert t != "";
      JoinRestores(t);
    }
    if Join(words, ' ') == t {
      JoinSpaced(words);
      TokensJoin(words, Blank());
      TokensContent(t, Blank());
      TokensContent(text, Blank());
    }
  }

  lemma UnwrappedIff(runs: seq<Run>, words: seq<Word>, width: int)
    requires MapSeq(words, WordInk()) == WordsOf(RunsInk(runs), TintedBlank()) && words != [] && width <= 0
    ensures Tidy(RunsText(runs)) <==>
            MapSeq(BriefLines(words, width), Uncoloured()) == WrapLines(RunsText(runs), width)
  {
    WordsErased(runs, words);
    assert |MapSeq(words, Plain())| == |words|;
    TidyIff(RunsText(runs));
    assert MapSeq([words], Uncoloured()) == [Join(MapSeq(words, Plain()), ' ')];
  }

  /** Without a word one wrapper makes no line and the other an empty one. */
  lemma NoWordsDiffer(runs: seq<Run>, width: int)
    requires WordsOf(RunsInk(runs), TintedBlank()) == []
    ensures MapSeq(BriefLines([], width), Uncoloured()) == [] && WrapLines(RunsText(runs), width) == [""]
  {
    var none: seq<Word> := [];
    assert MapSeq(none, WordInk()) == WordsOf(RunsInk(runs), TintedBlank());
    WordsErased(runs, none);
    TokensContent(RunsText(runs), Blank());
    assert WordsOf(RunsText(runs), Blank()) == [];
    BlankTrims(RunsText(runs));
  }

  /** From runs to lines: wrapping the tinted words and erasing roles is wrapping the run texts,
      exactly when there is a word and, for a positive width, the texts contain no white space but
      blanks, for any other, the text is tidy. */
  lemma BriefWrapsRunsIff(runs: seq<Run>, words: seq<Word>, width: int)
    requires MapSeq(words, WordInk()) == WordsOf(RunsInk(runs), TintedBlank())
    ensures words != [] && (if width > 0 then BlanksOnly(RunsText(runs)) else Tidy(RunsText(runs))) <==>
            MapSeq(BriefLines(words, width), Uncoloured()) == WrapLines(RunsText(runs), width)
  {
    if words == [] {
      NoWordsDiffer(runs, width);
    } else if width > 0 {
      WrapsWordsIff(runs, words, width);
    } else {
      UnwrappedIff(runs, words, width);
    }
  }

  /** Escapes would matter: a fragment that is nothing but complete escapes stays with the next
      piece when a tinted word is cut in front of it, and with the previous one in plain text. */
  lemma EscapeFragmentMoves(e: string, role: string)
    requires e != "" && Closed(e) && Cells(e) == 0
    ensures var w := [Seg("ab", role), Seg(e, role), Seg("c", role)];
            && Plain()(SplitSegs(w, 2).0) == "ab"
            && SplitWord(Plain()(w), 2).0 == "ab" + e
  {
    var a, b, c := Seg("ab", role), Seg(e, role), Seg("c", role);
    var w := [a, b, c];
    PlainCells("ab");
    PlainCells("c");
    assert w[1..] == [b, c];
    assert SplitSegs(w, 2) == ([a] + [], [b, c]);
    assert [a] + [] == [a];
    PlainOne(a);
    PlainCons(a, [b, c]);
    PlainCons(b, [c]);
    PlainOne(c);
    assert w == [a] + ([b] + [c]) && [b, c] == [b] + [c];
    var s := "ab" + e + "c";
    assert Plain()(w) == s;
    CellsConcat("ab", e);
    CellsConcat("ab" + e, "c");
    assert s[..|e| + 2] == "ab" + e;
    SplitWordProps(s, 2);
    CutUnique(s, 2, |e| + 2, |SplitWord(s, 2).0|);
  }

  lemma PlainCons(seg: Seg, w: Word)
    ensures Plain()([seg] + w) == seg.text + Plain()(w)
  {
    assert MapSeq([seg] + w, SegText())[1..] == MapSeq(w, SegText());
  }

  lemma PlainOne(seg: Seg)
    ensures Plain()([seg]) == seg.text
  {
    PlainCons(seg, []);
    assert [seg] + [] == [seg] && seg.text + "" == seg.text;
  }
}
