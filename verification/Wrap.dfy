/** Wrapping plain text, possibly with colour escapes, to a number of terminal cells. */
module Wrap {
  import opened Sequences
  import opened Text
  import opened Escapes
  import opened Packing
  import opened Tokens

  function CellsOf(): string -> nat { (w: string) => Cells(w) }

  function LineText(): seq<string> -> string { (line: seq<string>) => Join(line, ' ') }

  function PlainRuler(width: nat): Ruler<string>
  {
    Ruler(CellsOf(), (line: seq<string>) => Cells(Join(line, ' ')), width)
  }

  /** The pieces of a word: full-width heads while it is too wide, then what remains. */
  function Chop(word: string, width: nat): (pieces: seq<string>)
    ensures pieces != []
    decreases Cells(word)
  {
    if width > 0 && Cells(word) > width then
      SplitWordProps(word, width);
      var (head, tail) := SplitWord(word, width);
      [head] + Chop(tail, width)
    else [word]
  }

  function Chopper(width: nat): string -> seq<string> { (w: string) => Chop(w, width) }

  /** The pieces make up the word; each fits; each but the last is exactly full and cut outside
      every escape; a word that fits is left alone. */
  lemma {:induction false} ChopProps(word: string, width: nat)
    requires width > 0
    ensures var ps := Chop(word, width);
            && Flatten(ps) == word
            && (forall i :: 0 <= i < |ps| ==> Cells(ps[i]) <= width && (word != "" ==> ps[i] != ""))
            && (forall i :: 0 <= i < |ps| - 1 ==> Cells(ps[i]) == width && Closed(ps[i]))
            && (Cells(word) <= width ==> ps == [word])
    decreases Cells(word)
  {
    if Cells(word) > width {
      SplitWordProps(word, width);
      var (head, tail) := SplitWord(word, width);
      ChopProps(tail, width);
      assert Chop(word, width) == [head] + Chop(tail, width);
      assert ([head] + Chop(tail, width))[1..] == Chop(tail, width);
    } else {
      assert [word][1..] == [];
      assert word + [] == word;
    }
  }

  /** The lines as words. */
  function Layout(text: string, width: nat): (lines: seq<seq<string>>)
  {
    Packed(MapSeq(WordsOf(TrimSpace(text), White()), Chopper(width)), PlainRuler(width))
  }

  function WrapLines(text: string, width: int): seq<string>
  {
    if TrimSpace(text) == "" || width <= 0 then [TrimSpace(text)] else MapSeq(Layout(text, width), LineText())
  }

  /** The strings a wrapper holds are the page. */
  ghost predicate Shows(lines: seq<string>, line: string, p: Page<string>)
  {
    && lines == MapSeq(p.done, LineText())
    && line == Join(p.line, ' ')
    && (line == "" <==> p.line == [])
  }

  lemma FlushShows(lines: seq<string>, line: string, p: Page<string>)
    requires Shows(lines, line, p)
    ensures MapSeq(Flush(p), LineText()) == if line == "" then lines else lines + [line]
  {
    MapAppend(p.done, p.line, LineText());
  }

  lemma AddShows(lines: seq<string>, line: string, p: Page<string>, word: string, width: nat)
    requires Shows(lines, line, p) && word != ""
    ensures var q := Add(p, word, PlainRuler(width));
            if line == "" then Shows(lines, word, q)
            else if Cells(line) + 1 + Cells(word) <= width then Shows(lines, line + [' '] + word, q)
            else Shows(lines + [line], word, q)
  {
    MapAppend(p.done, p.line, LineText());
    assert (p.line + [word])[..|p.line|] == p.line;
  }

  lemma EjectShows(lines: seq<string>, line: string, p: Page<string>, head: string)
    requires Shows(lines, line, p)
    ensures Shows((if line == "" then lines else lines + [line]) + [head], "", Eject(p, head))
  {
    FlushShows(lines, line, p);
    MapAppend(Flush(p), [head], LineText());
  }

  method WrapWord(lines0: seq<string>, line0: string, original: string, width: nat, ghost p: Page<string>)
    returns (lines: seq<string>, line: string)
    requires width > 0 && original != "" && Shows(lines0, line0, p)
    ensures Shows(lines, line, Place(p, Chop(original, width), PlainRuler(width)))
  {
    lines, line := lines0, line0;
    var word := original;
    ghost var q := p;
    var n := VisibleLen(word);
    while n > width
      invariant n == Cells(word) && word != "" && Shows(lines, line, q)
      invariant Place(q, Chop(word, width), PlainRuler(width)) == Place(p, Chop(original, width), PlainRuler(width))
      decreases Cells(word)
    {
      SplitWordProps(word, width);
      var head, tail := SplitVisibleWord(word, width);
      EjectShows(lines, line, q, head);
      assert Chop(word, width)[1..] == Chop(tail, width);
      q := Eject(q, head);
      if line != "" {
        lines := lines + [line];
        line := "";
      }
      lines := lines + [head];
      word := tail;
      n := VisibleLen(word);
    }
    AddShows(lines, line, q, word, width);
    var have := VisibleLen(line);
    if line == "" {
      line := word;
    } else if have + 1 + n <= width {
      line := line + [' '] + word;
    } else {
      lines := lines + [line];
      line := word;
    }
  }

  method WrapWords(words: seq<string>, width: nat) returns (lines: seq<string>)
    requires width > 0 && Wordy(words, White())
    ensures lines == MapSeq(Packed(MapSeq(words, Chopper(width)), PlainRuler(width)), LineText())
  {
    lines := [];
    var line := "";
    ghost var p: Page<string> := Page([], []);
    ghost var chopped, ruler := MapSeq(words, Chopper(width)), PlainRuler(width);
    assert chopped[0..] == chopped;
    for i := 0 to |words|
      invariant Shows(lines, line, p) && Pack(p, chopped[i..], ruler) == Pack(Page([], []), chopped, ruler)
    {
      lines, line := WrapWord(lines, line, words[i], width, p);
      PackStep(p, chopped, i, ruler);
      p := Place(p, chopped[i], ruler);
    }
    FlushShows(lines, line, p);
    if line != "" {
      lines := lines + [line];
    }
  }

  method WrapVisibleText(original: string, width: int) returns (lines: seq<string>)
    ensures lines == WrapLines(original, width)
  {
    var text := TrimSpace(original);
    if text == "" || width <= 0 {
      return [text];
    }
    TokensWordy(text, White());
    lines := WrapWords(WordsOf(text, White()), width);
  }

  // ----- What wrapping promises -----

  lemma PlainSound(width: nat)
    ensures Sound(PlainRuler(width))
  {
    var r := PlainRuler(width);
    forall line: seq<string>, w: string | line != [] ensures r.measure(line + [w]) <= r.measure(line) + 1 + r.len(w) {
      JoinedCells(line, w);
    }
  }

  lemma JoinedCells(line: seq<string>, w: string)
    requires line != []
    ensures Cells(Join(line + [w], ' ')) <= Cells(Join(line, ' ')) + 1 + Cells(w)
    ensures Closed(Join(line, ' ')) ==>
              && Cells(Join(line + [w], ' ')) == Cells(Join(line, ' ')) + 1 + Cells(w)
              && (Closed(Join(line + [w], ' ')) <==> Closed(w))
  {
    assert (line + [w])[..|line|] == line;
    var a := Join(line, ' ');
    PlainCells(" ");
    CellsConcat(a, " ");
    CellsConcat(a + " ", w);
  }

  /** The layout keeps every word's pieces in order, and every line fits. */
  lemma LayoutFits(text: string, width: nat)
    requires width > 0
    ensures var words := MapSeq(WordsOf(text, White()), Chopper(width));
            && Flatten(Layout(text, width)) == Flatten(words)
            && forall i :: 0 <= i < |Layout(text, width)| ==> LineFits(Layout(text, width)[i], PlainRuler(width))
  {
    TrimTokens(text);
    var ts := WordsOf(text, White());
    var words := MapSeq(ts, Chopper(width));
    PlainSound(width);
    forall i | 0 <= i < |words| ensures AllFit(words[i], PlainRuler(width)) {
      ChopProps(ts[i], width);
    }
    PackedFits(words, PlainRuler(width));
  }

  /** No line is wider than asked for. */
  lemma WrapWidth(text: string, width: int)
    requires width > 0
    ensures forall i :: 0 <= i < |WrapLines(text, width)| ==> Cells(WrapLines(text, width)[i]) <= width
  {
    LayoutFits(text, width);
  }

  /** For every text, no line could have taken the first piece of the next, split words included. */
  lemma WrapTight(text: string, width: nat)
    requires width > 0
    ensures Tight(Layout(text, width), PlainRuler(width))
  {
    var ts := WordsOf(TrimSpace(text), White());
    var chopped, r := MapSeq(ts, Chopper(width)), PlainRuler(width);
    assert Solo(r) by {
      forall w: string ensures r.measure([w]) == r.len(w) {
      }
    }
    forall i | 0 <= i < |chopped| ensures Heads(chopped[i], r) {
      ChopProps(ts[i], width);
    }
    PackedTight(chopped, r);
  }

  function SolidText(): string -> bool { (w: string) => Solid(w, White()) }

  lemma InkJoined(a: string, w: string)
    requires Solid(w, White())
    ensures Ink(a + [' '] + w, White()) == Ink(a, White()) + w
  {
    InkConcat(a + [' '], w, White());
    InkConcat(a, [' '], White());
    InkSolid(w, White());
    assert [' '][1..] == [];
    assert Ink([' '], White()) == [];
    assert Ink(a, White()) + [] == Ink(a, White());
  }

  lemma {:induction false} InkJoin(line: seq<string>)
    requires Every(line, SolidText())
    ensures Ink(Join(line, ' '), White()) == Flatten(line)
  {
    if line != [] {
      var n := |line| - 1;
      assert line == line[..n] + [line[n]];
      FlattenAppend(line[..n], line[n]);
      if n == 0 {
        InkSolid(line[0], White());
        assert line[..0] == [];
      } else {
        InkJoin(line[..n]);
        InkJoined(Join(line[..n], ' '), line[n]);
      }
    }
  }

  lemma {:induction false} InkLines(lines: seq<seq<string>>)
    requires forall i :: 0 <= i < |lines| ==> Every(lines[i], SolidText())
    ensures Ink(Flatten(MapSeq(lines, LineText())), White()) == Flatten(Flatten(lines))
  {
    if lines != [] {
      InkLines(lines[1..]);
      InkJoin(lines[0]);
      assert MapSeq(lines, LineText())[1..] == MapSeq(lines[1..], LineText());
      InkConcat(LineText()(lines[0]), Flatten(MapSeq(lines[1..], LineText())), White());
      FlattenConcat(lines[0], Flatten(lines[1..]));
    }
  }

  /** The pieces of a word of solid text are solid. */
  lemma {:induction false} PiecesSolid(pieces: seq<string>)
    requires Solid(Flatten(pieces), White())
    ensures Every(pieces, SolidText())
  {
    if pieces != [] {
      var a, b := pieces[0], Flatten(pieces[1..]);
      assert forall i :: 0 <= i < |a| ==> (a + b)[i] == a[i];
      assert forall i :: 0 <= i < |b| ==> (a + b)[|a| + i] == b[i];
      PiecesSolid(pieces[1..]);
    }
  }

  lemma ChoppedWords(words: seq<string>, width: nat)
    requires width > 0 && Wordy(words, White())
    ensures var chopped := MapSeq(words, Chopper(width));
            && Flatten(Flatten(chopped)) == Flatten(words)
            && forall i :: 0 <= i < |chopped| ==> Every(chopped[i], SolidText())
  {
    var chopped := MapSeq(words, Chopper(width));
    FlattenTwice(chopped);
    forall i | 0 <= i < |words| ensures Flatten(chopped[i]) == words[i] && Every(chopped[i], SolidText()) {
      ChopProps(words[i], width);
      PiecesSolid(chopped[i]);
    }
    assert MapSeq(chopped, Glue()) == words;
  }

  lemma {:induction false} InkTrim(s: string)
    ensures Ink(TrimSpace(s), White()) == Ink(s, White())
  {
    TrimTokens(s);
    TokensContent(s, White());
    TokensContent(TrimSpace(s), White());
  }

  /** Read from the first line to the last, nothing but white space was added, dropped or moved. */
  lemma WrapContent(text: string, width: int)
    ensures Ink(Flatten(WrapLines(text, width)), White()) == Ink(text, White())
  {
    InkTrim(text);
    if TrimSpace(text) == "" || width <= 0 {
      var t := TrimSpace(text);
      assert [t][1..] == [];
      assert Flatten([t]) == t + [];
      assert t + [] == t;
    } else {
      LayoutContent(text, width);
    }
  }

  lemma LayoutContent(text: string, width: nat)
    requires width > 0
    ensures Ink(Flatten(MapSeq(Layout(text, width), LineText())), White()) == Ink(text, White())
  {
    var words := WordsOf(text, White());
    TokensWordy(text, White());
    TokensContent(text, White());
    ChoppedWords(words, width);
    LayoutFits(text, width);
    LayoutSolid(text, width);
    InkLines(Layout(text, width));
  }

  /** Lines are made of pieces without white space. */
  lemma LayoutSolid(text: string, width: nat)
    requires width > 0
    ensures forall i :: 0 <= i < |Layout(text, width)| ==> Every(Layout(text, width)[i], SolidText())
  {
    var words := WordsOf(text, White());
    TokensWordy(text, White());
    ChoppedWords(words, width);
    LayoutFits(text, width);
    FlattenEvery(MapSeq(words, Chopper(width)), SolidText());
    FlattenEvery(Layout(text, width), SolidText());
  }

  function ClosedText(): string -> bool { (w: string) => Closed(w) }

  lemma {:induction false} JoinClosed(line: seq<string>)
    requires Every(line, ClosedText())
    ensures Closed(Join(line, ' '))
  {
    if |line| > 1 {
      var n := |line| - 1;
      JoinClosed(line[..n]);
      assert line == line[..n] + [line[n]];
      JoinedCells(line[..n], line[n]);
    }
  }

  lemma PlainExact(width: nat)
    ensures Exact(PlainRuler(width), ClosedText())
  {
    var r := PlainRuler(width);
    forall line: seq<string>, w: string | line != [] && Every(line, ClosedText())
      ensures r.measure(line + [w]) == r.measure(line) + 1 + r.len(w)
    {
      JoinClosed(line);
      JoinedCells(line, w);
    }
  }

  /** When every word fits and completes its escapes, no other way of breaking the words into
      lines within the width takes fewer lines. */
  lemma WrapOptimal(text: string, width: int, lines: seq<seq<string>>)
    requires width > 0 && WordsOf(text, White()) != []
    requires var words := WordsOf(text, White());
             && (forall i :: 0 <= i < |words| ==> Cells(words[i]) <= width && Closed(words[i]))
             && Flatten(lines) == words
    requires forall i :: 0 <= i < |lines| && lines[i] != [] ==> Cells(Join(lines[i], ' ')) <= width
    ensures |WrapLines(text, width)| <= |lines|
  {
    var words := WordsOf(text, White());
    TrimTokens(text);
    PlainExact(width);
    GreedyOptimal(words, lines, PlainRuler(width), ClosedText());
    UnchoppedWords(words, width);
  }

  lemma UnchoppedWords(words: seq<string>, width: nat)
    requires forall i :: 0 <= i < |words| ==> Cells(words[i]) <= width
    ensures MapSeq(words, Chopper(width)) == Singles(words)
  {
  }

  /** The text of two words. */
  function Pair(a: string, b: string): string { a + [' '] + b }

  lemma PairLines(a: string, b: string, width: nat)
    requires width > 0 && Wordy([a, b], White()) && Cells(a) <= width && Cells(b) <= width
    ensures |WrapLines(Pair(a, b), width)| == if Cells(a) + 1 + Cells(b) <= width then 1 else 2
    ensures WordsOf(Pair(a, b), White()) == [a, b]
  {
    var words := [a, b];
    assert words[..1] == [a];
    assert Join(words, ' ') == Pair(a, b);
    TokensJoin(words, White());
    TrimTokens(Pair(a, b));
    UnchoppedWords(words, width);
    assert Singles(words) == [[a], [b]];
    PackTwo(a, b, PlainRuler(width));
    assert WordsOf("", White()) == [];
  }

  lemma {:induction false} Hidden(s: string)
    requires 'm' !in s
    ensures CellsFrom(s, true) == 0
  {
    if s != "" {
      Hidden(s[1..]);
    }
  }

  /** Two words share a line whenever they fit on one. */
  predicate Shares(a: string, b: string, width: nat)
  {
    |WrapLines(Pair(a, b), width)| == 1 <==> Cells(Pair(a, b)) <= width
  }

  lemma ClosedShares(a: string, b: string, width: nat)
    requires width > 0 && Wordy([a, b], White()) && Cells(a) <= width && Cells(b) <= width && Closed(a)
    ensures Shares(a, b, width)
  {
    PairLines(a, b, width);
    PlainCells([' ']);
    CellsConcat(a, [' ']);
    CellsConcat(a + [' '], b);
  }

  /** A plain word as wide as the line. */
  function Filler(width: nat): string { seq(width, _ => 'b') }

  lemma FillerFills(width: nat)
    requires width > 0
    ensures var b := Filler(width);
            b != "" && Solid(b, White()) && 'm' !in b && ESC !in b && |b| == Cells(b) == width
  {
    PlainCells(Filler(width));
  }

  /** Behind an open escape the second word takes no cell. */
  lemma OpenPairFits(a: string, b: string, width: nat)
    requires Cells(a) <= width && !Closed(a) && 'm' !in b
    ensures Cells(Pair(a, b)) <= width
  {
    var rest := [' '] + b;
    assert Pair(a, b) == a + rest;
    ScanConcat(a, rest, false);
    Hidden(rest);
  }

  lemma OpenDoesNotShare(a: string, b: string, width: nat)
    requires width > 0 && Wordy([a, b], White()) && Cells(a) <= width && Cells(b) == width && !Closed(a) && 'm' !in b
    ensures !Shares(a, b, width)
  {
    PairLines(a, b, width);
    OpenPairFits(a, b, width);
  }

  /** Completing its escapes is exactly what a first word must do for every second word to share
      its line whenever the two fit: an escape left open hides what follows, yet the wrapper
      measures the second word alone. */
  lemma SharesLineIffClosed(a: string, width: nat)
    requires width > 0 && a != "" && Solid(a, White()) && Cells(a) <= width
    ensures Closed(a) <==> forall b :: b != "" && Solid(b, White()) && Cells(b) <= width ==> Shares(a, b, width)
  {
    if Closed(a) {
      forall b | b != "" && Solid(b, White()) && Cells(b) <= width ensures Shares(a, b, width) {
        ClosedShares(a, b, width);
      }
    } else {
      FillerFills(width);
      OpenDoesNotShare(a, Filler(width), width);
    }
  }

  /** Another way to break a text's words into lines within the width. */
  ghost predicate Fitting(text: string, width: nat, lines: seq<seq<string>>)
  {
    && Flatten(lines) == WordsOf(text, White())
    && forall i :: 0 <= i < |lines| && lines[i] != [] ==> Cells(Join(lines[i], ' ')) <= width
  }

  /** No other way takes fewer lines. */
  ghost predicate Optimal(text: string, width: nat)
  {
    forall lines :: Fitting(text, width, lines) ==> |WrapLines(text, width)| <= |lines|
  }

  /** The text has words, all from a vocabulary. */
  ghost predicate Says(text: string, vocabulary: string -> bool)
  {
    WordsOf(text, White()) != [] && Every(WordsOf(text, White()), vocabulary)
  }

  /** Take any vocabulary of words that fit, the escape-free ones among them. Every text over it is
      wrapped in the fewest lines exactly when all its words complete their escapes. */
  lemma OptimalIffClosed(vocabulary: string -> bool, width: nat)
    requires width > 0
    requires forall w :: vocabulary(w) ==> w != "" && Solid(w, White()) && Cells(w) <= width
    requires forall w :: w != "" && Solid(w, White()) && |w| <= width && ESC !in w ==> vocabulary(w)
    ensures (forall text :: Says(text, vocabulary) ==> Optimal(text, width)) <==> (forall w :: vocabulary(w) ==> Closed(w))
  {
    if forall w :: vocabulary(w) ==> Closed(w) {
      forall text | Says(text, vocabulary) ensures Optimal(text, width) {
        ClosedOptimal(text, vocabulary, width);
      }
    } else {
      var a :| vocabulary(a) && !Closed(a);
      OpenNotOptimal(a, vocabulary, width);
    }
  }

  lemma ClosedOptimal(text: string, vocabulary: string -> bool, width: nat)
    requires width > 0 && Says(text, vocabulary) && forall w :: vocabulary(w) ==> Cells(w) <= width && Closed(w)
    ensures Optimal(text, width)
  {
    forall lines | Fitting(text, width, lines) ensures |WrapLines(text, width)| <= |lines| {
      WrapOptimal(text, width, lines);
    }
  }

  lemma OpenNotOptimal(a: string, vocabulary: string -> bool, width: nat)
    requires width > 0 && vocabulary(a) && !Closed(a) && a != "" && Solid(a, White()) && Cells(a) <= width
    requires forall w :: w != "" && Solid(w, White()) && |w| <= width && ESC !in w ==> vocabulary(w)
    ensures exists text :: Says(text, vocabulary) && !Optimal(text, width)
  {
    var b := Filler(width);
    FillerFills(width);
    assert vocabulary(b);
    OpenWasteful(a, b, width);
    BothSaid(a, b, vocabulary);
  }

  lemma BothSaid(a: string, b: string, vocabulary: string -> bool)
    requires vocabulary(a) && vocabulary(b) && WordsOf(Pair(a, b), White()) == [a, b]
    ensures Says(Pair(a, b), vocabulary)
  {
  }

  lemma OpenWasteful(a: string, b: string, width: nat)
    requires width > 0 && Wordy([a, b], White()) && Cells(a) <= width && Cells(b) == width && !Closed(a) && 'm' !in b
    ensures !Optimal(Pair(a, b), width) && WordsOf(Pair(a, b), White()) == [a, b]
  {
    PairLines(a, b, width);
    OpenPairFits(a, b, width);
    var lines := [[a, b]];
    assert lines[1..] == [] && [a, b] + [] == [a, b];
    assert Flatten(lines) == [a, b];
    assert [a, b][..1] == [a];
    assert Join([a, b], ' ') == Pair(a, b);
    assert Fitting(Pair(a, b), width, lines);
  }
}
