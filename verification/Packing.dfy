/** Greedy packing of words into lines, over any way of measuring words and lines. */
module Packing {
  import opened Sequences

  /** How wide a word and a line are, and how wide a line may be. */
  datatype Ruler<!W> = Ruler(len: W -> nat, measure: seq<W> -> nat, width: nat)

  /** Finished lines and the line being filled; an empty line has not been started. */
  datatype Page<W> = Page(done: seq<seq<W>>, line: seq<W>)

  function Flush<W(==)>(p: Page<W>): seq<seq<W>>
  {
    if p.line == [] then p.done else p.done + [p.line]
  }

  /** A word that fits a line: appended if it fits the current one, else it starts the next. */
  function Add<W(==)>(p: Page<W>, w: W, r: Ruler<W>): Page<W>
  {
    if p.line == [] then p.(line := [w])
    else if r.measure(p.line) + 1 + r.len(w) <= r.width then p.(line := p.line + [w])
    else Page(p.done + [p.line], [w])
  }

  /** The head of a split word gets a line of its own. */
  function Eject<W(==)>(p: Page<W>, head: W): Page<W> { Page(Flush(p) + [[head]], []) }

  /** One word, as the pieces it is split into. */
  function Place<W(==)>(p: Page<W>, pieces: seq<W>, r: Ruler<W>): Page<W>
    requires pieces != []
    decreases |pieces|
  {
    if |pieces| == 1 then Add(p, pieces[0], r) else Place(Eject(p, pieces[0]), pieces[1..], r)
  }

  predicate Whole<W(==)>(words: seq<seq<W>>) { forall i :: 0 <= i < |words| ==> words[i] != [] }

  function Pack<W(==)>(p: Page<W>, words: seq<seq<W>>, r: Ruler<W>): Page<W>
    requires Whole(words)
    decreases |words|
  {
    if words == [] then p else Pack(Place(p, words[0], r), words[1..], r)
  }

  lemma PackStep<W>(p: Page<W>, words: seq<seq<W>>, i: nat, r: Ruler<W>)
    requires Whole(words) && i < |words|
    ensures Pack(p, words[i..], r) == Pack(Place(p, words[i], r), words[i + 1..], r)
  {
    assert words[i..][1..] == words[i + 1..];
  }

  function Packed<W(==)>(words: seq<seq<W>>, r: Ruler<W>): seq<seq<W>>
    requires Whole(words)
  {
    Flush(Pack(Page([], []), words, r))
  }

  /** What holds of every element holds of every line, and back. */
  lemma {:induction false} FlattenEvery<W>(ss: seq<seq<W>>, ok: W -> bool)
    ensures Every(Flatten(ss), ok) <==> forall i :: 0 <= i < |ss| ==> Every(ss[i], ok)
  {
    if ss != [] {
      var a, b := ss[0], Flatten(ss[1..]);
      FlattenEvery(ss[1..], ok);
      assert forall i :: 0 <= i < |a| ==> (a + b)[i] == a[i];
      assert forall i :: 0 <= i < |b| ==> (a + b)[|a| + i] == b[i];
      assert forall i :: 1 <= i < |ss| ==> ss[i] == ss[1..][i - 1];
    }
  }

  lemma {:induction false} FlattenMember<W>(ss: seq<seq<W>>, x: W)
    ensures x in Flatten(ss) <==> exists i :: 0 <= i < |ss| && x in ss[i]
  {
    if ss != [] {
      var rest := ss[1..];
      FlattenMember(rest, x);
      if x in Flatten(rest) {
        var i :| 0 <= i < |rest| && x in rest[i];
        assert x in ss[i + 1];
      }
      if i :| 0 <= i < |ss| && x in ss[i] {
        if i > 0 {
          assert x in rest[i - 1];
        }
      }
    }
  }

  function Glue<W>(): seq<seq<W>> -> seq<W> { (ss: seq<seq<W>>) => Flatten(ss) }

  lemma {:induction false} FlattenTwice<W>(sss: seq<seq<seq<W>>>)
    ensures Flatten(Flatten(sss)) == Flatten(MapSeq(sss, Glue()))
  {
    if sss != [] {
      FlattenTwice(sss[1..]);
      FlattenConcat(sss[0], Flatten(sss[1..]));
      assert MapSeq(sss, Glue<W>())[1..] == MapSeq(sss[1..], Glue<W>());
    }
  }

  // ----- Nothing is lost or moved -----

  lemma FlushContent<W>(p: Page<W>)
    ensures Flatten(Flush(p)) == Flatten(p.done) + p.line
  {
    FlattenAppend(p.done, p.line);
  }

  lemma AddContent<W>(p: Page<W>, w: W, r: Ruler<W>)
    ensures Flatten(Flush(Add(p, w, r))) == Flatten(Flush(p)) + [w]
  {
    FlushContent(p);
    FlushContent(Add(p, w, r));
    FlattenAppend(p.done, p.line);
  }

  lemma {:induction false} PlaceContent<W>(p: Page<W>, pieces: seq<W>, r: Ruler<W>)
    requires pieces != []
    ensures Flatten(Flush(Place(p, pieces, r))) == Flatten(Flush(p)) + pieces
    decreases |pieces|
  {
    if |pieces| == 1 {
      AddContent(p, pieces[0], r);
    } else {
      PlaceContent(Eject(p, pieces[0]), pieces[1..], r);
      FlattenAppend(Flush(p), [pieces[0]]);
      assert pieces == [pieces[0]] + pieces[1..];
    }
  }

  /** Read in order, the lines hold exactly the pieces of the words in order. */
  lemma {:induction false} PackContent<W>(p: Page<W>, words: seq<seq<W>>, r: Ruler<W>)
    requires Whole(words)
    ensures Flatten(Flush(Pack(p, words, r))) == Flatten(Flush(p)) + Flatten(words)
    decreases |words|
  {
    if words != [] {
      PlaceContent(p, words[0], r);
      PackContent(Place(p, words[0], r), words[1..], r);
      JoinAssociates(Flatten(Flush(p)), words[0], Flatten(words[1..]));
    }
  }

  // ----- No line is too wide -----

  /** A line is never wider than the packer assumes. */
  ghost predicate Sound<W(!new)>(r: Ruler<W>)
  {
    && (forall w :: r.measure([w]) <= r.len(w))
    && forall line, w {:trigger r.measure(line + [w])} :: line != [] ==> r.measure(line + [w]) <= r.measure(line) + 1 + r.len(w)
  }

  predicate LineFits<W(==)>(line: seq<W>, r: Ruler<W>) { line != [] && r.measure(line) <= r.width }

  predicate PageFits<W(==)>(p: Page<W>, r: Ruler<W>)
  {
    && (forall i :: 0 <= i < |p.done| ==> LineFits(p.done[i], r))
    && (p.line == [] || LineFits(p.line, r))
  }

  predicate AllFit<W>(ws: seq<W>, r: Ruler<W>) { forall i :: 0 <= i < |ws| ==> r.len(ws[i]) <= r.width }

  lemma {:induction false} PlaceFits<W(!new)>(p: Page<W>, pieces: seq<W>, r: Ruler<W>)
    requires Sound(r) && PageFits(p, r) && pieces != [] && AllFit(pieces, r)
    ensures PageFits(Place(p, pieces, r), r)
    decreases |pieces|
  {
    assert LineFits([pieces[0]], r);
    if |pieces| > 1 {
      PlaceFits(Eject(p, pieces[0]), pieces[1..], r);
    }
  }

  lemma {:induction false} PackFits<W(!new)>(p: Page<W>, words: seq<seq<W>>, r: Ruler<W>)
    requires Sound(r) && PageFits(p, r) && Whole(words)
    requires forall i :: 0 <= i < |words| ==> AllFit(words[i], r)
    ensures PageFits(Pack(p, words, r), r)
    decreases |words|
  {
    if words != [] {
      PlaceFits(p, words[0], r);
      PackFits(Place(p, words[0], r), words[1..], r);
    }
  }

  /** Every line is non-empty and within the width. */
  lemma PackedFits<W(!new)>(words: seq<seq<W>>, r: Ruler<W>)
    requires Sound(r) && Whole(words) && forall i :: 0 <= i < |words| ==> AllFit(words[i], r)
    ensures forall i :: 0 <= i < |Packed(words, r)| ==> LineFits(Packed(words, r)[i], r)
    ensures Flatten(Packed(words, r)) == Flatten(words)
  {
    PackFits(Page([], []), words, r);
    PackContent(Page([], []), words, r);
  }

  // ----- No word could move up -----

  /** The first piece of each line would not have fitted behind the line before. */
  predicate Tight<W(==)>(lines: seq<seq<W>>, r: Ruler<W>)
  {
    forall i :: 0 <= i < |lines| - 1 ==> NoRoom(lines[i], lines[i + 1], r)
  }

  predicate NoRoom<W(==)>(line: seq<W>, next: seq<W>, r: Ruler<W>)
  {
    next != [] && r.measure(line) + 1 + r.len(next[0]) > r.width
  }

  /** A word alone on a line is as wide as the word. */
  ghost predicate Solo<W(!new)>(r: Ruler<W>) { forall w {:trigger r.measure([w])} :: r.measure([w]) == r.len(w) }

  /** Every piece of a word but the last fills a line. */
  predicate Heads<W>(pieces: seq<W>, r: Ruler<W>) { forall i :: 0 <= i < |pieces| - 1 ==> r.len(pieces[i]) >= r.width }

  ghost predicate PageTight<W>(p: Page<W>, r: Ruler<W>)
  {
    && Tight(p.done, r)
    && (p.done != [] && p.line != [] ==> NoRoom(p.done[|p.done| - 1], p.line, r))
    && (p.done != [] && p.line == [] ==> r.measure(p.done[|p.done| - 1]) >= r.width)
  }

  lemma TightAppend<W>(lines: seq<seq<W>>, next: seq<W>, r: Ruler<W>)
    requires Tight(lines, r) && (lines != [] ==> NoRoom(lines[|lines| - 1], next, r))
    ensures Tight(lines + [next], r)
  {
    var all := lines + [next];
    forall i | 0 <= i < |all| - 1 ensures NoRoom(all[i], all[i + 1], r) {
      if i < |lines| - 1 {
        assert NoRoom(lines[i], lines[i + 1], r);
      }
    }
  }

  lemma AddTight<W>(p: Page<W>, w: W, r: Ruler<W>)
    requires PageTight(p, r)
    ensures PageTight(Add(p, w, r), r)
  {
    if p.line != [] {
      TightAppend(p.done, p.line, r);
    }
  }

  lemma EjectTight<W(!new)>(p: Page<W>, head: W, r: Ruler<W>)
    requires PageTight(p, r) && Solo(r) && r.len(head) >= r.width
    ensures PageTight(Eject(p, head), r)
  {
    if p.line != [] {
      TightAppend(p.done, p.line, r);
    }
    assert r.measure([head]) == r.len(head);
    TightAppend(Flush(p), [head], r);
  }

  lemma {:induction false} PlaceTight<W(!new)>(p: Page<W>, pieces: seq<W>, r: Ruler<W>)
    requires PageTight(p, r) && Solo(r) && pieces != [] && Heads(pieces, r)
    ensures PageTight(Place(p, pieces, r), r)
    decreases |pieces|
  {
    if |pieces| == 1 {
      AddTight(p, pieces[0], r);
    } else {
      EjectTight(p, pieces[0], r);
      PlaceTight(Eject(p, pieces[0]), pieces[1..], r);
    }
  }

  lemma {:induction false} PackTight<W(!new)>(p: Page<W>, words: seq<seq<W>>, r: Ruler<W>)
    requires PageTight(p, r) && Solo(r) && Whole(words) && forall i :: 0 <= i < |words| ==> Heads(words[i], r)
    ensures PageTight(Pack(p, words, r), r)
    decreases |words|
  {
    if words != [] {
      PlaceTight(p, words[0], r);
      PackTight(Place(p, words[0], r), words[1..], r);
    }
  }

  /** Greedy packing leaves no room, split words included. */
  lemma PackedTight<W(!new)>(words: seq<seq<W>>, r: Ruler<W>)
    requires Solo(r) && Whole(words) && forall i :: 0 <= i < |words| ==> Heads(words[i], r)
    ensures Tight(Packed(words, r), r)
  {
    var p: Page<W> := Page([], []);
    PackTight(p, words, r);
    var q := Pack(p, words, r);
    if q.line != [] {
      TightAppend(q.done, q.line, r);
    }
  }

  // ----- No packing needs fewer lines -----

  predicate Every<W>(ws: seq<W>, ok: W -> bool) { forall i :: 0 <= i < |ws| ==> ok(ws[i]) }

  /** Over acceptable words a line is exactly as wide as its words and the spaces between. */
  ghost predicate Exact<W(!new)>(r: Ruler<W>, ok: W -> bool)
  {
    && (forall w :: ok(w) ==> r.measure([w]) == r.len(w))
    && forall line, w {:trigger r.measure(line + [w])} :: line != [] && Every(line, ok) && ok(w) ==>
         r.measure(line + [w]) == r.measure(line) + 1 + r.len(w)
  }

  /** What words add to a line that is already started. */
  function Extra<W>(ws: seq<W>, r: Ruler<W>): nat
  {
    if ws == [] then 0 else 1 + r.len(ws[0]) + Extra(ws[1..], r)
  }

  lemma {:induction false} ExactMeasure<W(!new)>(line: seq<W>, ws: seq<W>, r: Ruler<W>, ok: W -> bool)
    requires Exact(r, ok) && line != [] && Every(line, ok) && Every(ws, ok)
    ensures r.measure(line + ws) == r.measure(line) + Extra(ws, r)
    decreases |ws|
  {
    if ws == [] {
      assert line + ws == line;
    } else {
      var next, rest := line + [ws[0]], ws[1..];
      assert Every(next, ok);
      assert r.measure(next) == r.measure(line) + 1 + r.len(ws[0]);
      ExactMeasure(next, rest, r, ok);
      assert line + ws == next + rest;
    }
  }

  /** How many further lines the greedy rule opens when used cells are taken. */
  function Breaks<W>(used: nat, ws: seq<W>, r: Ruler<W>): nat
    decreases |ws|
  {
    if ws == [] then 0
    else if used + 1 + r.len(ws[0]) <= r.width then Breaks(used + 1 + r.len(ws[0]), ws[1..], r)
    else 1 + Breaks(r.len(ws[0]), ws[1..], r)
  }

  /** Starting with more cells taken costs something, but at most one line. */
  lemma {:induction false} BreaksMonotone<W>(u: nat, v: nat, ws: seq<W>, r: Ruler<W>)
    requires u <= v
    ensures Breaks(u, ws, r) <= Breaks(v, ws, r) <= 1 + Breaks(u, ws, r)
    decreases |ws|
  {
    if ws != [] {
      var n := r.len(ws[0]);
      if v + 1 + n <= r.width {
        BreaksMonotone(u + 1 + n, v + 1 + n, ws[1..], r);
      } else if u + 1 + n <= r.width {
        BreaksMonotone(n, u + 1 + n, ws[1..], r);
      }
    }
  }

  lemma {:induction false} BreaksThrough<W>(used: nat, a: seq<W>, b: seq<W>, r: Ruler<W>)
    requires used + Extra(a, r) <= r.width
    ensures Breaks(used, a + b, r) == Breaks(used + Extra(a, r), b, r)
    decreases |a|
  {
    if a == [] {
      assert a + b == b;
    } else {
      assert (a + b)[1..] == a[1..] + b;
      BreaksThrough(used + 1 + r.len(a[0]), a[1..], b, r);
    }
  }

  /** Any packing, greedy or not, needs at least the greedy number of lines. */
  lemma {:induction false} PackingBound<W(!new)>(lines: seq<seq<W>>, words: seq<W>, r: Ruler<W>, ok: W -> bool)
    requires Exact(r, ok) && words != [] && Every(words, ok) && Flatten(lines) == words
    requires forall i :: 0 <= i < |lines| && lines[i] != [] ==> r.measure(lines[i]) <= r.width
    ensures |lines| >= 1 + Breaks(r.len(words[0]), words[1..], r)
    decreases |lines|
  {
    var p, rest := lines[0], Flatten(lines[1..]);
    if p == [] {
      assert words == rest;
      PackingBound(lines[1..], words, r, ok);
    } else {
      FirstLine(p, rest, r, ok);
      if rest != [] {
        assert Every(rest, ok) by {
          assert forall i :: 0 <= i < |rest| ==> rest[i] == words[|p| + i];
        }
        PackingBound(lines[1..], rest, r, ok);
      }
    }
  }

  /** A line that fits saves at most one break over starting the rest afresh. */
  lemma FirstLine<W(!new)>(p: seq<W>, rest: seq<W>, r: Ruler<W>, ok: W -> bool)
    requires Exact(r, ok) && p != [] && Every(p + rest, ok) && r.measure(p) <= r.width
    ensures rest == [] ==> Breaks(r.len((p + rest)[0]), (p + rest)[1..], r) == 0
    ensures rest != [] ==>
              Breaks(r.len((p + rest)[0]), (p + rest)[1..], r) <= 1 + Breaks(r.len(rest[0]), rest[1..], r)
  {
    assert (p + rest)[1..] == p[1..] + rest && p == [p[0]] + p[1..];
    assert forall i :: 0 <= i < |p| ==> p[i] == (p + rest)[i];
    assert ok(p[0]) && Every(p[1..], ok);
    ExactMeasure([p[0]], p[1..], r, ok);
    BreaksThrough(r.len(p[0]), p[1..], rest, r);
    if rest != [] {
      BreaksMonotone(r.len(rest[0]), r.measure(p) + 1 + r.len(rest[0]), rest[1..], r);
    }
  }

  function Single<W>(): W -> seq<W> { (w: W) => [w] }

  /** Words that need no splitting. */
  function Singles<W>(ws: seq<W>): (r: seq<seq<W>>)
    ensures |r| == |ws| && forall i :: 0 <= i < |ws| ==> r[i] == [ws[i]]
  {
    MapSeq(ws, Single())
  }

  lemma PackSingle<W>(p: Page<W>, ws: seq<W>, r: Ruler<W>)
    requires ws != []
    ensures Pack(p, Singles(ws), r) == Pack(Add(p, ws[0], r), Singles(ws[1..]), r)
  {
    assert Singles(ws)[1..] == Singles(ws[1..]);
  }

  /** The lines the greedy rule makes are the ones it has and those it breaks off. */
  lemma {:induction false} GreedyCount<W(!new)>(p: Page<W>, ws: seq<W>, r: Ruler<W>, ok: W -> bool)
    requires Exact(r, ok) && p.line != [] && Every(p.line, ok) && Every(ws, ok)
    ensures |Flush(Pack(p, Singles(ws), r))| == |p.done| + 1 + Breaks(r.measure(p.line), ws, r)
    decreases |ws|
  {
    if ws != [] {
      PackSingle(p, ws, r);
      AddMeasured(p, ws[0], r, ok);
      GreedyCount(Add(p, ws[0], r), ws[1..], r, ok);
    }
  }

  lemma AddMeasured<W(!new)>(p: Page<W>, w: W, r: Ruler<W>, ok: W -> bool)
    requires Exact(r, ok) && p.line != [] && Every(p.line, ok) && ok(w)
    ensures var q, used := Add(p, w, r), r.measure(p.line) + 1 + r.len(w);
            && q.line != [] && Every(q.line, ok)
            && |q.done| == |p.done| + (if used <= r.width then 0 else 1)
            && r.measure(q.line) == if used <= r.width then used else r.len(w)
  {
  }

  /** Greedy packing is optimal: no way of breaking the same words, in the same order, into
      lines within the width has fewer lines. */
  lemma GreedyOptimal<W(!new)>(words: seq<W>, lines: seq<seq<W>>, r: Ruler<W>, ok: W -> bool)
    requires Exact(r, ok) && Every(words, ok) && Flatten(lines) == words
    requires forall i :: 0 <= i < |lines| && lines[i] != [] ==> r.measure(lines[i]) <= r.width
    ensures |Packed(Singles(words), r)| <= |lines|
  {
    if words != [] {
      PackingBound(lines, words, r, ok);
      PackSingle(Page([], []), words, r);
      assert ok(words[0]);
      GreedyCount(Page([], [words[0]]), words[1..], r, ok);
    }
  }

  /** Two words share a line exactly when the rule lets them. */
  lemma PackTwo<W>(a: W, b: W, r: Ruler<W>)
    ensures |Packed([[a], [b]], r)| == if r.measure([a]) + 1 + r.len(b) <= r.width then 1 else 2
  {
    var ws: seq<seq<W>>, p: Page<W> := [[a], [b]], Page([], []);
    assert ws[0..] == ws && ws[2..] == [];
    PackStep(p, ws, 0, r);
    PackStep(Place(p, ws[0], r), ws, 1, r);
  }

  // ----- Two rulers that agree pack alike -----

  function MapLine<A, B>(f: A -> B): seq<A> -> seq<B> { (l: seq<A>) => MapSeq(l, f) }

  function MapPage<A, B>(p: Page<A>, f: A -> B): Page<B>
  {
    Page(MapSeq(p.done, MapLine(f)), MapSeq(p.line, f))
  }

  /** The rulers agree on acceptable words and lines of them. */
  ghost predicate Agree<A(!new), B>(r: Ruler<A>, q: Ruler<B>, f: A -> B, ok: A -> bool)
  {
    && r.width == q.width
    && (forall a :: ok(a) ==> r.len(a) == q.len(f(a)))
    && forall line :: line != [] && Every(line, ok) ==> r.measure(line) == q.measure(MapSeq(line, f))
  }

  lemma MapFlush<A, B>(p: Page<A>, f: A -> B)
    ensures MapSeq(Flush(p), MapLine(f)) == Flush(MapPage(p, f))
  {
  }

  lemma AddAgrees<A(!new), B>(p: Page<A>, a: A, r: Ruler<A>, q: Ruler<B>, f: A -> B, ok: A -> bool)
    requires Agree(r, q, f, ok) && Every(p.line, ok) && ok(a)
    ensures MapPage(Add(p, a, r), f) == Add(MapPage(p, f), f(a), q)
    ensures Every(Add(p, a, r).line, ok)
  {
    MapAppend(p.line, a, f);
    MapAppend(p.done, p.line, MapLine(f));
    MapAppend([], a, f);
    assert [] + [a] == [a];
    assert MapSeq([a], f) == [f(a)];
  }

  lemma {:induction false} PlaceAgrees<A(!new), B>(p: Page<A>, pieces: seq<A>, r: Ruler<A>, q: Ruler<B>, f: A -> B, ok: A -> bool)
    requires Agree(r, q, f, ok) && Every(p.line, ok) && Every(pieces, ok) && pieces != []
    ensures MapPage(Place(p, pieces, r), f) == Place(MapPage(p, f), MapSeq(pieces, f), q)
    ensures Every(Place(p, pieces, r).line, ok)
    decreases |pieces|
  {
    if |pieces| == 1 {
      AddAgrees(p, pieces[0], r, q, f, ok);
    } else {
      EjectAgrees(p, pieces[0], f);
      PlaceAgrees(Eject(p, pieces[0]), pieces[1..], r, q, f, ok);
      assert MapSeq(pieces, f)[1..] == MapSeq(pieces[1..], f);
    }
  }

  lemma EjectAgrees<A, B>(p: Page<A>, a: A, f: A -> B)
    ensures MapPage(Eject(p, a), f) == Eject(MapPage(p, f), f(a))
  {
    MapFlush(p, f);
    MapAppend(Flush(p), [a], MapLine(f));
    assert MapSeq([a], f) == [f(a)];
  }

  /** Packing commutes with a translation of words under which the rulers agree. */
  lemma {:induction false} PackAgrees<A(!new), B>(p: Page<A>, words: seq<seq<A>>, r: Ruler<A>, q: Ruler<B>, f: A -> B, ok: A -> bool)
    requires Agree(r, q, f, ok) && Every(p.line, ok) && Whole(words)
    requires forall i :: 0 <= i < |words| ==> Every(words[i], ok)
    ensures MapPage(Pack(p, words, r), f) == Pack(MapPage(p, f), MapSeq(words, MapLine(f)), q)
    decreases |words|
  {
    if words != [] {
      PlaceAgrees(p, words[0], r, q, f, ok);
      PackAgrees(Place(p, words[0], r), words[1..], r, q, f, ok);
      assert MapSeq(words, MapLine(f))[1..] == MapSeq(words[1..], MapLine(f));
    }
  }
}
