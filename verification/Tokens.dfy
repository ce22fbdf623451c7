/** Splitting text into words: plain text at white space, tinted runs at blanks. */
module Tokens {
  import opened Sequences
  import opened Text
  import opened Packing

  /** Finished words and the word being read. */
  datatype Scan<T> = Scan(words: seq<seq<T>>, word: seq<T>)

  function Finish<T(==)>(s: Scan<T>): seq<seq<T>> { if s.word == [] then s.words else s.words + [s.word] }

  function Feed<T(==)>(s: Scan<T>, x: T, space: T -> bool): Scan<T>
  {
    if space(x) then Scan(Finish(s), []) else s.(word := s.word + [x])
  }

  function FeedAll<T(==)>(s: Scan<T>, xs: seq<T>, space: T -> bool): Scan<T>
    decreases |xs|
  {
    if xs == [] then s else FeedAll(Feed(s, xs[0], space), xs[1..], space)
  }

  /** The maximal runs of non-spaces. */
  function WordsOf<T(==)>(xs: seq<T>, space: T -> bool): seq<seq<T>> { Finish(FeedAll(Scan([], []), xs, space)) }

  function White(): char -> bool { (c: char) => IsSpace(c) }

  function Blank(): char -> bool { (c: char) => c == ' ' }

  lemma {:induction false} FeedConcat<T>(s: Scan<T>, a: seq<T>, b: seq<T>, space: T -> bool)
    ensures FeedAll(s, a + b, space) == FeedAll(FeedAll(s, a, space), b, space)
    decreases |a|
  {
    if a == [] {
      assert a + b == b;
    } else {
      assert (a + b)[1..] == a[1..] + b;
      FeedConcat(Feed(s, a[0], space), a[1..], b, space);
    }
  }

  lemma FeedOne<T>(s: Scan<T>, x: T, space: T -> bool)
    ensures FeedAll(s, [x], space) == Feed(s, x, space)
  {
    assert [x][1..] == [];
  }

  /** No element is a space. */
  predicate Solid<T>(xs: seq<T>, space: T -> bool) { forall i :: 0 <= i < |xs| ==> !space(xs[i]) }

  /** Words proper: not empty and without spaces. */
  predicate Wordy<T(==)>(words: seq<seq<T>>, space: T -> bool)
  {
    forall i :: 0 <= i < |words| ==> words[i] != [] && Solid(words[i], space)
  }

  lemma {:induction false} FeedSolid<T>(s: Scan<T>, xs: seq<T>, space: T -> bool)
    requires Solid(xs, space)
    ensures FeedAll(s, xs, space) == s.(word := s.word + xs)
    decreases |xs|
  {
    if xs == [] {
      assert s.word + xs == s.word;
    } else {
      FeedSolid(Feed(s, xs[0], space), xs[1..], space);
      assert s.word + [xs[0]] + xs[1..] == s.word + xs;
    }
  }

  lemma {:induction false} FeedWordy<T>(s: Scan<T>, xs: seq<T>, space: T -> bool)
    requires Wordy(s.words, space) && Solid(s.word, space)
    ensures var t := FeedAll(s, xs, space); Wordy(t.words, space) && Solid(t.word, space)
    decreases |xs|
  {
    if xs != [] {
      FeedWordy(Feed(s, xs[0], space), xs[1..], space);
    }
  }

  lemma TokensWordy<T>(xs: seq<T>, space: T -> bool)
    ensures Wordy(WordsOf(xs, space), space)
  {
    FeedWordy(Scan([], []), xs, space);
  }

  /** What is left of xs without its spaces. */
  function Ink<T>(xs: seq<T>, space: T -> bool): seq<T>
  {
    if xs == [] then [] else (if space(xs[0]) then [] else [xs[0]]) + Ink(xs[1..], space)
  }

  lemma {:induction false} InkConcat<T>(a: seq<T>, b: seq<T>, space: T -> bool)
    ensures Ink(a + b, space) == Ink(a, space) + Ink(b, space)
  {
    if a == [] {
      assert a + b == b;
    } else {
      assert (a + b)[1..] == a[1..] + b;
      InkConcat(a[1..], b, space);
    }
  }

  lemma {:induction false} InkSolid<T>(xs: seq<T>, space: T -> bool)
    requires Solid(xs, space)
    ensures Ink(xs, space) == xs
  {
    if xs != [] {
      InkSolid(xs[1..], space);
    }
  }

  lemma FinishContent<T>(s: Scan<T>)
    ensures Flatten(Finish(s)) == Flatten(s.words) + s.word
  {
    FlattenAppend(s.words, s.word);
  }

  lemma {:induction false} FeedContent<T>(s: Scan<T>, xs: seq<T>, space: T -> bool)
    ensures Flatten(Finish(FeedAll(s, xs, space))) == Flatten(Finish(s)) + Ink(xs, space)
    decreases |xs|
  {
    if xs != [] {
      var t := Feed(s, xs[0], space);
      FeedContent(t, xs[1..], space);
      FinishContent(s);
      FinishContent(t);
      assert Flatten(Finish(t)) == Flatten(Finish(s)) + (if space(xs[0]) then [] else [xs[0]]);
    }
  }

  /** The words hold everything but the spaces, in order. */
  lemma TokensContent<T>(xs: seq<T>, space: T -> bool)
    ensures Flatten(WordsOf(xs, space)) == Ink(xs, space)
  {
    FeedContent(Scan([], []), xs, space);
  }

  function MapScan<A, B>(s: Scan<A>, f: A -> B): Scan<B> { Scan(MapSeq(s.words, MapLine(f)), MapSeq(s.word, f)) }

  lemma FeedMap<A, B>(s: Scan<A>, x: A, f: A -> B, q: A -> bool, p: B -> bool)
    requires q(x) == p(f(x))
    ensures MapScan(Feed(s, x, q), f) == Feed(MapScan(s, f), f(x), p)
  {
    MapAppend(s.word, x, f);
    MapAppend(s.words, s.word, MapLine(f));
  }

  lemma {:induction false} FeedAllMap<A, B>(s: Scan<A>, xs: seq<A>, f: A -> B, q: A -> bool, p: B -> bool)
    requires forall i :: 0 <= i < |xs| ==> q(xs[i]) == p(f(xs[i]))
    ensures MapScan(FeedAll(s, xs, q), f) == FeedAll(MapScan(s, f), MapSeq(xs, f), p)
    decreases |xs|
  {
    if xs != [] {
      FeedMap(s, xs[0], f, q, p);
      FeedAllMap(Feed(s, xs[0], q), xs[1..], f, q, p);
      assert MapSeq(xs, f)[1..] == MapSeq(xs[1..], f);
    }
  }

  /** Splitting into words commutes with translating the elements. */
  lemma TokensMap<A, B>(xs: seq<A>, f: A -> B, q: A -> bool, p: B -> bool)
    requires forall i :: 0 <= i < |xs| ==> q(xs[i]) == p(f(xs[i]))
    ensures MapSeq(WordsOf(xs, q), MapLine(f)) == WordsOf(MapSeq(xs, f), p)
  {
    FeedAllMap(Scan([], []), xs, f, q, p);
    var s := FeedAll(Scan([], []), xs, q);
    MapAppend(s.words, s.word, MapLine(f));
    assert MapScan<A, B>(Scan([], []), f) == Scan([], []);
  }

  /** Only the spaces that occur matter. */
  lemma {:induction false} FeedSame<T>(s: Scan<T>, xs: seq<T>, p: T -> bool, q: T -> bool)
    requires forall i :: 0 <= i < |xs| ==> p(xs[i]) == q(xs[i])
    ensures FeedAll(s, xs, p) == FeedAll(s, xs, q)
    decreases |xs|
  {
    if xs != [] {
      FeedSame(Feed(s, xs[0], p), xs[1..], p, q);
    }
  }

  // ----- Trimming and joining -----

  lemma {:induction false} TrimLeftTokens(s: string)
    ensures WordsOf(TrimLeft(s), White()) == WordsOf(s, White())
  {
    if s != "" && IsSpace(s[0]) {
      TrimLeftTokens(s[1..]);
    }
  }

  lemma {:induction false} TrimRightTokens(s: string)
    ensures WordsOf(TrimRight(s), White()) == WordsOf(s, White())
  {
    if s != "" && IsSpace(s[|s| - 1]) {
      var n := |s| - 1;
      TrimRightTokens(s[..n]);
      assert s == s[..n] + [s[n]];
      FeedConcat(Scan([], []), s[..n], [s[n]], White());
      FeedOne(FeedAll(Scan([], []), s[..n], White()), s[n], White());
    }
  }

  /** Trimming changes no word. */
  lemma TrimTokens(s: string)
    ensures WordsOf(TrimSpace(s), White()) == WordsOf(s, White())
  {
    TrimLeftTokens(s);
    TrimRightTokens(TrimLeft(s));
  }

  lemma {:induction false} FeedJoin(words: seq<string>, space: char -> bool)
    requires words != [] && Wordy(words, space) && space(' ')
    ensures FeedAll(Scan([], []), Join(words, ' '), space) == Scan(words[..|words| - 1], words[|words| - 1])
  {
    var n := |words| - 1;
    if n == 0 {
      FeedSolid(Scan([], []), words[0], space);
      assert [] + words[0] == words[0];
    } else {
      var init := words[..n];
      FeedJoin(init, space);
      var s := Scan(init[..n - 1], init[n - 1]);
      FeedConcat(Scan([], []), Join(init, ' ') + [' '], words[n], space);
      FeedConcat(Scan([], []), Join(init, ' '), [' '], space);
      FeedOne(s, ' ', space);
      assert init[..n - 1] + [init[n - 1]] == init;
      FeedSolid(Scan(init, []), words[n], space);
      assert [] + words[n] == words[n];
    }
  }

  /** Splitting undoes joining. */
  lemma TokensJoin(words: seq<string>, space: char -> bool)
    requires Wordy(words, space) && space(' ')
    ensures WordsOf(Join(words, ' '), space) == words
  {
    if words != [] {
      FeedJoin(words, space);
    }
  }

  // ----- Text that is already spaced as its words would be -----

  /** No two blanks in a row. */
  predicate SingleSpaced(s: string) { forall i :: 0 <= i < |s| - 1 ==> !(s[i] == ' ' && s[i + 1] == ' ') }

  /** After single-spaced text that does not start with a blank, joining what was read restores it. */
  lemma {:induction false} FeedSpaced(t: string)
    requires t != "" && t[0] != ' ' && SingleSpaced(t)
    ensures var s := FeedAll(Scan([], []), t, Blank());
            if t[|t| - 1] == ' ' then s.word == [] && s.words != [] && Join(s.words, ' ') + [' '] == t
            else s.word != [] && Join(s.words + [s.word], ' ') == t
  {
    var n := |t| - 1;
    var init, c := t[..n], t[n];
    assert t == init + [c];
    FeedConcat(Scan([], []), init, [c], Blank());
    var s := FeedAll(Scan([], []), init, Blank());
    FeedOne(s, c, Blank());
    if n == 0 {
      assert init == "";
      assert [] + [c] == [c] && Join([[c]], ' ') == [c];
    } else {
      FeedSpaced(init);
      if c != ' ' {
        ReadOneMore(s, init, c);
      }
    }
  }

  lemma ReadOneMore(s: Scan<char>, init: string, c: char)
    requires c != ' '
    requires if s.word == [] then s.words != [] && Join(s.words, ' ') + [' '] == init else Join(s.words + [s.word], ' ') == init
    ensures Join(s.words + [s.word + [c]], ' ') == init + [c]
  {
    if s.word == [] {
      assert s.word + [c] == [c];
      JoinLast(s.words, [c], ' ');
    } else {
      var parts := s.words + [s.word];
      JoinLonger(parts, c, ' ');
      assert parts[..|parts| - 1] == s.words && parts[|parts| - 1] == s.word;
    }
  }

  /** Joining the words of text that is single-spaced and does not begin or end with a blank
      gives the text back. */
  lemma JoinRestores(t: string)
    requires t != "" && t[0] != ' ' && t[|t| - 1] != ' ' && SingleSpaced(t)
    ensures Join(WordsOf(t, Blank()), ' ') == t
  {
    FeedSpaced(t);
  }

  /** And joined words are such text. */
  lemma {:induction false} JoinSpaced(words: seq<string>)
    requires words != [] && Wordy(words, Blank())
    ensures var s := Join(words, ' '); s != "" && s[0] != ' ' && s[|s| - 1] != ' ' && SingleSpaced(s)
  {
    if |words| > 1 {
      var n := |words| - 1;
      JoinSpaced(words[..n]);
      var a, w := Join(words[..n], ' '), words[n];
      SpacedJoin(a, w);
    }
  }

  lemma SpacedJoin(a: string, w: string)
    requires a != "" && a[|a| - 1] != ' ' && SingleSpaced(a) && w != "" && Solid(w, Blank())
    ensures SingleSpaced(a + [' '] + w)
  {
    var s := a + [' '] + w;
    forall i | 0 <= i < |s| - 1 ensures !(s[i] == ' ' && s[i + 1] == ' ') {
      if i > |a| {
        assert s[i] == w[i - |a| - 1];
      } else if i == |a| {
        assert s[i + 1] == w[0];
      } else if i == |a| - 1 {
        assert s[i] == a[|a| - 1];
      }
    }
  }

  /** Blanks in front and behind make no difference to the words. */
  lemma {:induction false} LeadingBlanks(u: string, t: string)
    requires Ink(u, Blank()) == []
    ensures WordsOf(u + t, Blank()) == WordsOf(t, Blank())
  {
    if u == "" {
      assert u + t == t;
    } else {
      assert (u + t)[1..] == u[1..] + t;
      LeadingBlanks(u[1..], t);
    }
  }

  lemma {:induction false} TrailingBlanks(t: string, v: string)
    requires Ink(v, Blank()) == []
    ensures WordsOf(t + v, Blank()) == WordsOf(t, Blank())
  {
    if v == "" {
      assert t + v == t;
    } else {
      FeedConcat(Scan([], []), t, v, Blank());
      BlanksFinish(FeedAll(Scan([], []), t, Blank()), v);
    }
  }

  lemma {:induction false} BlanksFinish(s: Scan<char>, v: string)
    requires Ink(v, Blank()) == []
    ensures Finish(FeedAll(s, v, Blank())) == Finish(s)
    decreases |v|
  {
    if v != "" {
      BlanksFinish(Feed(s, v[0], Blank()), v[1..]);
    }
  }

  /** When trimming drops nothing but blanks it changes no word, even where only blanks separate. */
  lemma TrimBlankWords(s: string)
    requires Ink(TrimSpace(s), Blank()) == Ink(s, Blank())
    ensures WordsOf(TrimSpace(s), Blank()) == WordsOf(s, Blank())
  {
    var u := TrimLeftParts(s);
    var m := TrimLeft(s);
    var v := TrimRightParts(m);
    var t := TrimSpace(s);
    InkConcat(u, m, Blank());
    InkConcat(t, v, Blank());
    assert |Ink(u, Blank())| == 0 && |Ink(v, Blank())| == 0;
    LeadingBlanks(u, m);
    TrailingBlanks(t, v);
  }

  /** Text without a word is nothing once trimmed. */
  lemma {:induction false} BlankTrims(s: string)
    requires Ink(s, Blank()) == []
    ensures TrimSpace(s) == ""
  {
    if s != "" {
      BlankTrims(s[1..]);
    }
  }
}
