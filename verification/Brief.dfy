/** The brief's tinted words: reading them off runs, splitting and packing them. */
module Brief {
  import opened Sequences
  import opened Text
  import opened Packing
  import opened Tokens

  datatype Run = Run(text: string, role: string)

  /** One tinted fragment of a word. */
  datatype Seg = Seg(text: string, role: string)

  type Word = seq<Seg>

  /** One rune and the role it is shown in. */
  datatype Tinted = Tinted(c: char, role: string)

  predicate Control(c: char) { c as int < 0x20 || 0x7f <= c as int <= 0x9f }

  /** Control characters never reach the terminal. */
  function Sanitize(s: string): (r: string)
    ensures forall c :: c in r ==> !Control(c)
  {
    if s == "" then "" else (if Control(s[0]) then "" else [s[0]]) + Sanitize(s[1..])
  }

  /** Sanitizing works rune by rune: it drops the control characters and keeps the rest in place. */
  lemma {:induction false} SanitizeMeans(a: string, b: string, c: char)
    ensures Sanitize(a + b) == Sanitize(a) + Sanitize(b)
    ensures Sanitize([c]) == if c as int < 0x20 || c as int == 0x7f || 0x80 <= c as int <= 0x9f then "" else [c]
  {
    assert [c][1..] == "";
    if a == "" {
      assert a + b == b;
    } else {
      assert (a + b)[1..] == a[1..] + b;
      SanitizeMeans(a[1..], b, c);
    }
  }

  function Tint(text: string, role: string): seq<Tinted> { MapSeq(text, (c: char) => Tinted(c, role)) }

  function SegInk(): Seg -> seq<Tinted> { (s: Seg) => Tint(s.text, s.role) }

  function WordInk(): Word -> seq<Tinted> { (w: Word) => Flatten(MapSeq(w, SegInk())) }

  function RunInk(): Run -> seq<Tinted> { (r: Run) => Tint(Sanitize(r.text), r.role) }

  /** The whole text, each rune with the role of its run. */
  function RunsInk(runs: seq<Run>): seq<Tinted> { Flatten(MapSeq(runs, RunInk())) }

  function TintedBlank(): Tinted -> bool { (t: Tinted) => t.c == ' ' }

  /** Every fragment has text and every word a fragment. */
  predicate Filled(w: Word) { forall i :: 0 <= i < |w| ==> w[i].text != "" }

  predicate AllFilled(ws: seq<Word>) { forall i :: 0 <= i < |ws| ==> ws[i] != [] && Filled(ws[i]) }

  // ----- Reading words off runs -----

  /** The tokenizer's variables are the scan of the tinted text read so far. */
  ghost predicate Reads(words: seq<Word>, word: Word, s: Scan<Tinted>)
  {
    && AllFilled(words) && Filled(word)
    && s == Scan(MapSeq(words, WordInk()), WordInk()(word))
  }

  lemma InkAppend(word: Word, seg: Seg)
    ensures WordInk()(word + [seg]) == WordInk()(word) + Tint(seg.text, seg.role)
  {
    MapAppend(word, seg, SegInk());
    FlattenAppend(MapSeq(word, SegInk()), SegInk()(seg));
  }

  lemma InkEmpty(word: Word)
    requires Filled(word)
    ensures WordInk()(word) == [] <==> word == []
  {
    if word != [] {
      var n := |word| - 1;
      InkAppend(word[..n], word[n]);
      assert word == word[..n] + [word[n]];
    }
  }

  lemma TintConcat(a: string, b: string, role: string)
    ensures Tint(a + b, role) == Tint(a, role) + Tint(b, role)
  {
  }

  /** A blank ends the word being read, if there is one. */
  lemma ReadBlank(words: seq<Word>, word: Word, s: Scan<Tinted>, role: string)
    requires Reads(words, word, s)
    ensures Reads(if word == [] then words else words + [word], [], FeedAll(s, Tint(" ", role), TintedBlank()))
  {
    InkEmpty(word);
    MapAppend(words, word, WordInk());
    assert Tint(" ", role) == [Tinted(' ', role)];
    FeedOne(s, Tinted(' ', role), TintedBlank());
  }

  /** A fragment without blanks extends it. */
  lemma ReadFragment(words: seq<Word>, word: Word, s: Scan<Tinted>, fragment: string, role: string)
    requires Reads(words, word, s) && ' ' !in fragment
    ensures Reads(words, if fragment == "" then word else word + [Seg(fragment, role)], FeedAll(s, Tint(fragment, role), TintedBlank()))
  {
    FeedSolid(s, Tint(fragment, role), TintedBlank());
    InkAppend(word, Seg(fragment, role));
    if fragment == "" {
      assert s.word + Tint(fragment, role) == s.word;
    }
  }

  /** The scan after some fragments of a run with the blanks between them. */
  function Fed(s: Scan<Tinted>, fragments: seq<string>, role: string): Scan<Tinted>
  {
    FeedAll(s, Tint(Join(fragments, ' '), role), TintedBlank())
  }

  lemma FedNext(s: Scan<Tinted>, fragments: seq<string>, i: nat, role: string)
    requires i < |fragments|
    ensures var read := Fed(s, fragments[..i], role);
            Fed(s, fragments[..i + 1], role)
            == FeedAll(if i == 0 then read else FeedAll(read, Tint(" ", role), TintedBlank()), Tint(fragments[i], role), TintedBlank())
  {
    var a, b := Join(fragments[..i], ' '), fragments[i];
    assert fragments[..i + 1] == fragments[..i] + [b];
    if i > 0 {
      JoinLast(fragments[..i], b, ' ');
      TintConcat(a + [' '], b, role);
      TintConcat(a, [' '], role);
      FeedConcat(s, Tint(a, role), Tint(" ", role), TintedBlank());
      FeedConcat(s, Tint(a + [' '], role), Tint(b, role), TintedBlank());
    }
  }

  method ReadRun(words0: seq<Word>, word0: Word, run: Run, ghost s: Scan<Tinted>) returns (words: seq<Word>, word: Word)
    requires Reads(words0, word0, s)
    ensures Reads(words, word, FeedAll(s, RunInk()(run), TintedBlank()))
  {
    words, word := words0, word0;
    var leading := true;
    var text := Sanitize(run.text);
    var fragments := Split(text, ' ');
    SplitPlain(text, ' ');
    JoinSplit(text, ' ');
    for i := 0 to |fragments|
      invariant leading == (i == 0)
      invariant Reads(words, word, Fed(s, fragments[..i], run.role))
    {
      ghost var read := Fed(s, fragments[..i], run.role);
      FedNext(s, fragments, i, run.role);
      if !leading {
        ReadBlank(words, word, read, run.role);
        read := FeedAll(read, Tint(" ", run.role), TintedBlank());
      }
      if !leading && |word| > 0 {
        words, word := words + [word], [];
      }
      leading := false;
      ReadFragment(words, word, read, fragments[i], run.role);
      if fragments[i] != "" {
        word := word + [Seg(fragments[i], run.role)];
      }
    }
    assert fragments[..|fragments|] == fragments;
  }

  /** The words are those of the whole tinted text: a run boundary neither makes nor removes a
      word break, and every rune keeps its role. */
  method BriefWords(runs: seq<Run>) returns (words: seq<Word>)
    ensures MapSeq(words, WordInk()) == WordsOf(RunsInk(runs), TintedBlank())
    ensures AllFilled(words)
  {
    words := [];
    var word: Word := [];
    ghost var start: Scan<Tinted> := Scan([], []);
    for i := 0 to |runs|
      invariant Reads(words, word, FeedAll(start, RunsInk(runs[..i]), TintedBlank()))
    {
      ghost var s := FeedAll(start, RunsInk(runs[..i]), TintedBlank());
      words, word := ReadRun(words, word, runs[i], s);
      assert runs[..i + 1] == runs[..i] + [runs[i]];
      MapAppend(runs[..i], runs[i], RunInk());
      FlattenAppend(MapSeq(runs[..i], RunInk()), RunInk()(runs[i]));
      FeedConcat(start, RunsInk(runs[..i]), RunInk()(runs[i]), TintedBlank());
    }
    assert runs[..|runs|] == runs;
    InkEmpty(word);
    MapAppend(words, word, WordInk());
    if |word| > 0 {
      words := words + [word];
    }
  }

  // ----- Roles erased -----

  function Rune(): Tinted -> char { (t: Tinted) => t.c }

  function SegText(): Seg -> string { (s: Seg) => s.text }

  function Plain(): Word -> string { (w: Word) => Flatten(MapSeq(w, SegText())) }

  /** The text of the runs, run after run. */
  function RunsText(runs: seq<Run>): string { Flatten(MapSeq(runs, (r: Run) => Sanitize(r.text))) }

  lemma {:induction false} PlainInk(w: Word)
    ensures MapSeq(WordInk()(w), Rune()) == Plain()(w)
  {
    if w != [] {
      PlainInk(w[1..]);
      assert MapSeq(w, SegInk())[1..] == MapSeq(w[1..], SegInk());
      assert MapSeq(w, SegText())[1..] == MapSeq(w[1..], SegText());
      assert MapSeq(Tint(w[0].text, w[0].role), Rune()) == w[0].text;
    }
  }

  lemma {:induction false} RunsTextInk(runs: seq<Run>)
    ensures MapSeq(RunsInk(runs), Rune()) == RunsText(runs)
  {
    if runs != [] {
      RunsTextInk(runs[1..]);
      var text := (r: Run) => Sanitize(r.text);
      assert MapSeq(runs, RunInk())[1..] == MapSeq(runs[1..], RunInk());
      assert MapSeq(runs, text)[1..] == MapSeq(runs[1..], text);
      assert MapSeq(RunInk()(runs[0]), Rune()) == Sanitize(runs[0].text);
    }
  }

  /** With roles erased, the words are those of the concatenated run texts. */
  lemma WordsErased(runs: seq<Run>, words: seq<Word>)
    requires MapSeq(words, WordInk()) == WordsOf(RunsInk(runs), TintedBlank())
    ensures MapSeq(words, Plain()) == WordsOf(RunsText(runs), Blank())
  {
    RunsTextInk(runs);
    TokensMap(RunsInk(runs), Rune(), TintedBlank(), Blank());
    forall i | 0 <= i < |words| ensures MapSeq(words, Plain())[i] == MapLine(Rune())(MapSeq(words, WordInk())[i]) {
      PlainInk(words[i]);
    }
    assert MapSeq(words, Plain()) == MapSeq(MapSeq(words, WordInk()), MapLine(Rune()));
  }
}
