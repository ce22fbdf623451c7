/** Terminal cells: how wide a string is once its colour escapes are ignored, and where a word
    may be cut. Strings are sequences of runes. */
module Escapes {

  const ESC: char := 0x1b as char

  /** Whether the scanner is inside an escape after one more rune. */
  predicate Step(inside: bool, c: char) { if inside then c != 'm' else c == ESC }

  function Cell(inside: bool, c: char): nat { if inside || c == ESC then 0 else 1 }

  predicate EndsInside(s: string, inside: bool)
  {
    if s == "" then inside else EndsInside(s[1..], Step(inside, s[0]))
  }

  function CellsFrom(s: string, inside: bool): nat
  {
    if s == "" then 0 else Cell(inside, s[0]) + CellsFrom(s[1..], Step(inside, s[0]))
  }

  /** The visible width of s. */
  function Cells(s: string): nat { CellsFrom(s, false) }

  /** Every escape of s is complete. */
  predicate Closed(s: string) { !EndsInside(s, false) }

  lemma {:induction false} ScanConcat(a: string, b: string, inside: bool)
    ensures EndsInside(a + b, inside) == EndsInside(b, EndsInside(a, inside))
    ensures CellsFrom(a + b, inside) == CellsFrom(a, inside) + CellsFrom(b, EndsInside(a, inside))
  {
    if a == "" {
      assert a + b == b;
    } else {
      assert (a + b)[1..] == a[1..] + b;
      ScanConcat(a[1..], b, Step(inside, a[0]));
    }
  }

  lemma ScanAppend(s: string, i: nat)
    requires i < |s|
    ensures EndsInside(s[..i + 1], false) == Step(EndsInside(s[..i], false), s[i])
    ensures Cells(s[..i + 1]) == Cells(s[..i]) + Cell(EndsInside(s[..i], false), s[i])
  {
    assert s[..i + 1] == s[..i] + [s[i]];
    ScanConcat(s[..i], [s[i]], false);
    assert [s[i]][1..] == "";
  }

  /** An escape left open in front can only hide cells, never add any. */
  lemma {:induction false} OpenHides(s: string)
    ensures CellsFrom(s, true) <= CellsFrom(s, false)
  {
    if s != "" {
      OpenHides(s[1..]);
    }
  }

  /** Joining never widens; joining behind complete escapes adds up exactly. */
  lemma CellsConcat(a: string, b: string)
    ensures Cells(a + b) <= Cells(a) + Cells(b)
    ensures Closed(a) ==> Cells(a + b) == Cells(a) + Cells(b) && (Closed(a + b) <==> Closed(b))
  {
    ScanConcat(a, b, false);
    OpenHides(b);
  }

  lemma {:induction false} PlainCells(s: string)
    requires ESC !in s
    ensures Cells(s) == |s| && Closed(s)
  {
    if s != "" {
      PlainCells(s[1..]);
    }
  }

  method VisibleLen(s: string) returns (n: nat)
    ensures n == Cells(s)
  {
    n := 0;
    var inside := false;
    for i := 0 to |s|
      invariant n == Cells(s[..i]) && inside == EndsInside(s[..i], false)
    {
      ScanAppend(s, i);
      if inside {
        if s[i] == 'm' {
          inside := false;
        }
        continue;
      }
      if s[i] == ESC {
        inside := true;
        continue;
      }
      n := n + 1;
    }
    assert s[..|s|] == s;
  }

  // ----- Cutting a word -----

  /** Position i leaves exactly width cells in front of it, lies outside every escape and has a
      visible rune behind it. */
  ghost predicate IsCut(word: string, width: nat, i: nat)
  {
    i < |word| && Cells(word[..i]) == width && Closed(word[..i]) && word[i] != ESC
  }

  function CutAt(word: string, width: nat, inside: bool): nat
    requires CellsFrom(word, inside) > width
  {
    if inside || word[0] == ESC then 1 + CutAt(word[1..], width, Step(inside, word[0]))
    else if width == 0 then 0
    else 1 + CutAt(word[1..], width - 1, false)
  }

  lemma {:induction false} CutFrom(word: string, width: nat, inside: bool)
    requires CellsFrom(word, inside) > width
    ensures var i := CutAt(word, width, inside);
            && i < |word| && word[i] != ESC
            && CellsFrom(word[..i], inside) == width && !EndsInside(word[..i], inside)
  {
    var i := CutAt(word, width, inside);
    if inside || word[0] == ESC {
      CutFrom(word[1..], width, Step(inside, word[0]));
      assert word[..i][1..] == word[1..][..i - 1];
    } else if width > 0 {
      CutFrom(word[1..], width - 1, false);
      assert word[..i][1..] == word[1..][..i - 1];
    }
  }

  /** There is only one place to cut. */
  lemma CutUnique(word: string, width: nat, i: nat, j: nat)
    requires IsCut(word, width, i) && IsCut(word, width, j)
    ensures i == j
  {
    if i < j {
      CutsAgree(word, width, i, j);
    } else if j < i {
      CutsAgree(word, width, j, i);
    }
  }

  lemma CutsAgree(word: string, width: nat, i: nat, j: nat)
    requires IsCut(word, width, i) && i < j <= |word|
    ensures Cells(word[..j]) > width
  {
    ScanAppend(word, i);
    assert word[..j] == word[..i + 1] + word[i + 1..j];
    ScanConcat(word[..i + 1], word[i + 1..j], false);
  }

  function SplitWord(word: string, width: int): (string, string)
  {
    if width <= 0 || Cells(word) <= width then (word, "")
    else
      CutFrom(word, width, false);
      var i := CutAt(word, width, false);
      (word[..i], word[i..])
  }

  /** Splitting loses nothing; a word too wide gives a head of exactly width cells and a
      non-empty remainder that starts outside every escape. */
  lemma SplitWordProps(word: string, width: nat)
    requires Cells(word) > width > 0
    ensures var (head, tail) := SplitWord(word, width);
            && head + tail == word && IsCut(word, width, |head|) && head != "" && tail != ""
            && Cells(head) == width && Closed(head) && Cells(tail) == Cells(word) - width
  {
    CutFrom(word, width, false);
    var i := CutAt(word, width, false);
    assert word == word[..i] + word[i..];
    CellsConcat(word[..i], word[i..]);
  }

  method SplitVisibleWord(word: string, width: int) returns (head: string, tail: string)
    ensures (head, tail) == SplitWord(word, width)
    ensures width > 0 && Cells(word) > width ==> head + tail == word && IsCut(word, width, |head|)
  {
    if width <= 0 {
      return word, "";
    }
    var used, inside := 0, false;
    for i := 0 to |word|
      invariant used == Cells(word[..i]) <= width && inside == EndsInside(word[..i], false)
    {
      ScanAppend(word, i);
      if inside {
        if word[i] == 'm' {
          inside := false;
        }
        continue;
      }
      if word[i] == ESC {
        inside := true;
        continue;
      }
      if used == width {
        CutsAgree(word, width, i, |word|);
        assert word[..|word|] == word;
        SplitWordProps(word, width);
        CutUnique(word, width, i, |SplitWord(word, width).0|);
        assert word == word[..i] + word[i..];
        return word[..i], word[i..];
      }
      used := used + 1;
    }
    assert word[..|word|] == word;
    return word, "";
  }
}
