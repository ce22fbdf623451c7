/** Which underlyings a run covers, and where each came from. */
module Symbols {
  import opened Sequences
  import opened Text
  import opened Sorting
  import opened Contracts

  /** Upper-casing, as far as it can yield a character a symbol may contain: the ASCII letters,
      the dotless i and the long s. */
  function Upper(c: char): char
  {
    if 'a' <= c <= 'z' then c - 'a' + 'A'
    else if c as int == 0x131 then 'I'
    else if c as int == 0x17f then 'S'
    else c
  }

  function UpperAll(s: string): (r: string)
    ensures |r| == |s|
  {
    seq(|s|, i requires 0 <= i < |s| => Upper(s[i]))
  }

  predicate SymbolChar(c: char) { 'A' <= c <= 'Z' || '0' <= c <= '9' || c == '.' }

  predicate ValidSymbol(s: string) { 1 <= |s| <= 12 && forall i :: 0 <= i < |s| ==> SymbolChar(s[i]) }

  function NormalizeSymbol(raw: string): (r: Option<string>)
    ensures r.Some? ==> ValidSymbol(r.value)
  {
    var s := UpperAll(TrimSpace(raw));
    if ValidSymbol(s) then Some(s) else None
  }

  lemma TrimNothing(s: string)
    requires forall i :: 0 <= i < |s| ==> !IsSpace(s[i])
    ensures TrimSpace(s) == s
  {
  }

  /** A normalized symbol normalizes to itself. */
  lemma NormalizeIdempotent(raw: string)
    requires NormalizeSymbol(raw).Some?
    ensures NormalizeSymbol(NormalizeSymbol(raw).value) == NormalizeSymbol(raw)
  {
    var s := NormalizeSymbol(raw).value;
    TrimNothing(s);
    assert UpperAll(s) == s;
  }

  /** A raw name yields a symbol exactly when, white space around it aside, it upper-cases to that
      symbol, which has one to twelve characters, each a capital letter, a digit or a dot. */
  lemma NormalizeIff(raw: string, v: string)
    ensures NormalizeSymbol(raw) == Some(v) <==>
            && 1 <= |v| <= 12 && (forall i :: 0 <= i < |v| ==> 'A' <= v[i] <= 'Z' || '0' <= v[i] <= '9' || v[i] == '.')
            && exists u, t, w :: AllWhite(u) && AllWhite(w) && raw == u + t + w && UpperAll(t) == v
  {
    if NormalizeSymbol(raw) == Some(v) {
      var u := TrimLeftParts(raw);
      var w := TrimRightParts(TrimLeft(raw));
      var t := TrimSpace(raw);
      assert raw == u + (t + w);
      assert raw == u + t + w && UpperAll(t) == v;
    }
    if ValidSymbol(v) {
      forall u, t, w | AllWhite(u) && AllWhite(w) && raw == u + t + w && UpperAll(t) == v ensures NormalizeSymbol(raw) == Some(v) {
        NotWhite(t);
        TrimPadded(u, t, w);
      }
    }
  }

  lemma NotWhite(t: string)
    requires ValidSymbol(UpperAll(t))
    ensures forall i :: 0 <= i < |t| ==> !IsSpace(t[i])
  {
    forall i | 0 <= i < |t| ensures !IsSpace(t[i]) {
      assert SymbolChar(UpperAll(t)[i]);
    }
  }

  function Lower(c: char): char { if 'A' <= c <= 'Z' then c - 'A' + 'a' else c }

  function LowerAll(s: string): (r: string)
    ensures |r| == |s|
  {
    seq(|s|, i requires 0 <= i < |s| => Lower(s[i]))
  }

  /** A symbol is recognised in either case. */
  lemma NormalizeFoldsCase(v: string)
    requires ValidSymbol(v)
    ensures NormalizeSymbol(v) == Some(v) && NormalizeSymbol(LowerAll(v)) == Some(v)
  {
    assert UpperAll(v) == v;
    assert UpperAll(LowerAll(v)) == v;
    NotWhite(v);
    NotWhite(LowerAll(v));
    TrimNothing(v);
    TrimNothing(LowerAll(v));
  }

  datatype Choice = Choice(symbol: string, source: string)

  /** Naming one more source, unless it is named already. */
  function Merge(named: string, source: string): string
  {
    if source in Split(named, '+') then named else named + "+" + source
  }

  /** The symbols of the requests in order of first mention. */
  function Firsts(reqs: seq<Choice>): seq<string>
  {
    if reqs == [] then []
    else
      var before, s := Firsts(reqs[..|reqs| - 1]), NormalizeSymbol(reqs[|reqs| - 1].symbol);
      if s.None? || s.value in before then before else before + [s.value]
  }

  /** The distinct sources that named a symbol, in order. */
  function SourcesOf(reqs: seq<Choice>, symbol: string): seq<string>
  {
    if reqs == [] then []
    else
      var before, r := SourcesOf(reqs[..|reqs| - 1], symbol), reqs[|reqs| - 1];
      if NormalizeSymbol(r.symbol) != Some(symbol) || r.source in before then before else before + [r.source]
  }

  lemma {:induction false} FirstsDistinct(reqs: seq<Choice>)
    ensures Distinct(Firsts(reqs))
    ensures forall s :: s in Firsts(reqs) <==> exists i :: 0 <= i < |reqs| && NormalizeSymbol(reqs[i].symbol) == Some(s)
  {
    if reqs != [] {
      var n := |reqs| - 1;
      FirstsDistinct(reqs[..n]);
      assert reqs == reqs[..n] + [reqs[n]];
      forall s ensures s in Firsts(reqs) <==> exists i :: 0 <= i < |reqs| && NormalizeSymbol(reqs[i].symbol) == Some(s) {
        if s in Firsts(reqs[..n]) {
          var i :| 0 <= i < n && NormalizeSymbol(reqs[..n][i].symbol) == Some(s);
          assert NormalizeSymbol(reqs[i].symbol) == Some(s);
        } else if s in Firsts(reqs) {
          assert NormalizeSymbol(reqs[n].symbol) == Some(s);
        }
        if i :| 0 <= i < |reqs| && NormalizeSymbol(reqs[i].symbol) == Some(s) {
          if i < n {
            assert NormalizeSymbol(reqs[..n][i].symbol) == Some(s);
          }
        }
      }
    }
  }

  lemma {:induction false} SourcesNonempty(reqs: seq<Choice>, s: string)
    requires s in Firsts(reqs)
    ensures SourcesOf(reqs, s) != []
  {
    var n := |reqs| - 1;
    if s in Firsts(reqs[..n]) {
      SourcesNonempty(reqs[..n], s);
    }
  }

  /** No source contains the separator. */
  predicate PlainSources(reqs: seq<Choice>) { forall i :: 0 <= i < |reqs| ==> '+' !in reqs[i].source }

  lemma {:induction false} SourcesPlain(reqs: seq<Choice>, s: string)
    requires PlainSources(reqs)
    ensures forall i :: 0 <= i < |SourcesOf(reqs, s)| ==> '+' !in SourcesOf(reqs, s)[i]
  {
    if reqs != [] {
      SourcesPlain(reqs[..|reqs| - 1], s);
    }
  }

  /** The list built so far: one entry per symbol in order of first mention, each naming exactly
      its distinct sources when no source contains the separator. */
  ghost predicate Resolved(reqs: seq<Choice>, all: seq<Choice>)
  {
    && |all| == |Firsts(reqs)|
    && (forall i :: 0 <= i < |all| ==> all[i].symbol == Firsts(reqs)[i])
    && (PlainSources(reqs) ==> forall i :: 0 <= i < |all| ==> all[i].source == Join(SourcesOf(reqs, all[i].symbol), '+'))
  }

  ghost predicate IndexOf(all: seq<Choice>, index: map<string, nat>)
  {
    && (forall i :: 0 <= i < |all| ==> all[i].symbol in index && index[all[i].symbol] == i)
    && (forall s :: s in index ==> index[s] < |all| && all[index[s]].symbol == s)
  }

  /** One request joins the list or names one more source. */
  method Add(all0: seq<Choice>, index0: map<string, nat>, req: Choice, ghost done: seq<Choice>)
    returns (all: seq<Choice>, index: map<string, nat>)
    requires Resolved(done, all0) && IndexOf(all0, index0)
    ensures Resolved(done + [req], all) && IndexOf(all, index)
  {
    all, index := all0, index0;
    ghost var reqs := done + [req];
    assert reqs[..|reqs| - 1] == done;
    FirstsDistinct(done);
    var s := NormalizeSymbol(req.symbol);
    if s.None? {
      Untouched(done, req, all);
      return;
    }
    if s.value in index {
      var i := index[s.value];
      if req.source !in Split(all[i].source, '+') {
        all := all[i := all[i].(source := all[i].source + "+" + req.source)];
      }
      SourceNamed(done, req, all0, i, all);
      return;
    }
    index := index[s.value := |all|];
    all := all + [Choice(s.value, req.source)];
    Introduced(done, req, all0);
  }

  lemma FirstsAppend(done: seq<Choice>, req: Choice)
    ensures var s := NormalizeSymbol(req.symbol);
            Firsts(done + [req]) == if s.None? || s.value in Firsts(done) then Firsts(done) else Firsts(done) + [s.value]
  {
    assert (done + [req])[..|done|] == done;
  }

  lemma SourcesAppend(done: seq<Choice>, req: Choice, s: string)
    ensures SourcesOf(done + [req], s) ==
            if NormalizeSymbol(req.symbol) != Some(s) || req.source in SourcesOf(done, s) then SourcesOf(done, s)
            else SourcesOf(done, s) + [req.source]
  {
    assert (done + [req])[..|done|] == done;
  }

  lemma PlainAppend(done: seq<Choice>, req: Choice)
    ensures PlainSources(done + [req]) <==> PlainSources(done) && '+' !in req.source
  {
    var reqs := done + [req];
    assert reqs[|done|] == req && forall k :: 0 <= k < |done| ==> reqs[k] == done[k];
  }

  lemma Untouched(done: seq<Choice>, req: Choice, all: seq<Choice>)
    requires Resolved(done, all) && NormalizeSymbol(req.symbol).None?
    ensures Resolved(done + [req], all)
  {
    FirstsAppend(done, req);
    PlainAppend(done, req);
    forall k | 0 <= k < |all| ensures SourcesOf(done + [req], all[k].symbol) == SourcesOf(done, all[k].symbol) {
      SourcesAppend(done, req, all[k].symbol);
    }
  }

  /** Over sources without the separator, naming one leaves the list alone exactly when it is on
      it already, and otherwise appends it. */
  lemma MergeJoins(parts: seq<string>, source: string)
    requires parts != [] && '+' !in source && forall i :: 0 <= i < |parts| ==> '+' !in parts[i]
    ensures Merge(Join(parts, '+'), source) == Join(parts, '+') <==> source in parts
    ensures source !in parts ==> Merge(Join(parts, '+'), source) == Join(parts + [source], '+')
  {
    SplitJoin(parts, '+');
    JoinLast(parts, source, '+');
  }

  /** Sources with the separator would be confused both ways: named again they are not recognised,
      and each of their parts passes for named. */
  lemma SeparatorConfuses(a: string, b: string)
    requires '+' !in a && '+' !in b
    ensures var s := a + "+" + b;
            Merge(s, s) != s && Merge(s, a) == s && Merge(s, b) == s
  {
    var s := a + "+" + b;
    SplitAppend(a, '+', b);
    SplitWhole(a, '+');
    assert s == a + ['+'] + b;
    SplitPlain(s, '+');
    assert s[|a|] == '+';
    assert |s + "+" + s| > |s|;
  }

  lemma SourceNamed(done: seq<Choice>, req: Choice, all: seq<Choice>, i: nat, all': seq<Choice>)
    requires Resolved(done, all) && Distinct(Firsts(done)) && i < |all|
    requires NormalizeSymbol(req.symbol) == Some(all[i].symbol)
    requires all' == all[i := all[i].(source := Merge(all[i].source, req.source))]
    ensures Resolved(done + [req], all')
  {
    var sym := all[i].symbol;
    FirstsAppend(done, req);
    PlainAppend(done, req);
    assert sym in Firsts(done);
    if PlainSources(done + [req]) {
      SourcesNonempty(done, sym);
      SourcesPlain(done, sym);
      MergeJoins(SourcesOf(done, sym), req.source);
      forall k | 0 <= k < |all'| ensures all'[k].source == Join(SourcesOf(done + [req], all'[k].symbol), '+') {
        SourcesAppend(done, req, all[k].symbol);
        if k != i {
          assert all[k].symbol != sym by { assert Firsts(done)[k] != Firsts(done)[i]; }
        }
      }
    }
  }

  lemma Introduced(done: seq<Choice>, req: Choice, all: seq<Choice>)
    requires Resolved(done, all) && NormalizeSymbol(req.symbol).Some?
    requires NormalizeSymbol(req.symbol).value !in Firsts(done)
    requires forall s :: s in Firsts(done) <==> exists i :: 0 <= i < |done| && NormalizeSymbol(done[i].symbol) == Some(s)
    ensures Resolved(done + [req], all + [Choice(NormalizeSymbol(req.symbol).value, req.source)])
  {
    var sym := NormalizeSymbol(req.symbol).value;
    UnnamedHasNoSource(done, sym);
    IntroducedNew(done, req, all, sym);
  }

  lemma IntroducedNew(done: seq<Choice>, req: Choice, all: seq<Choice>, sym: string)
    requires Resolved(done, all) && NormalizeSymbol(req.symbol) == Some(sym)
    requires sym !in Firsts(done) && SourcesOf(done, sym) == []
    ensures Resolved(done + [req], all + [Choice(sym, req.source)])
  {
    var all' := all + [Choice(sym, req.source)];
    FirstsAppend(done, req);
    PlainAppend(done, req);
    SourcesAppend(done, req, sym);
    if PlainSources(done) {
      forall k | 0 <= k < |all'| ensures all'[k].source == Join(SourcesOf(done + [req], all'[k].symbol), '+') {
        if k < |all| {
          SourcesAppend(done, req, all[k].symbol);
          assert Firsts(done)[k] in Firsts(done);
        }
      }
    }
  }

  lemma {:induction false} UnnamedHasNoSource(reqs: seq<Choice>, s: string)
    requires forall i :: 0 <= i < |reqs| ==> NormalizeSymbol(reqs[i].symbol) != Some(s)
    ensures SourcesOf(reqs, s) == []
  {
    if reqs != [] {
      UnnamedHasNoSource(reqs[..|reqs| - 1], s);
    }
  }

  function AsRequests(symbols: seq<string>, source: string): seq<Choice>
  {
    MapSeq(symbols, (s: string) => Choice(s, source))
  }

  /** Held underlyings alphabetically, then declared chains, then the research list. */
  function Requests(held: seq<string>, declared: seq<Choice>, explicit: seq<string>): seq<Choice>
  {
    AsRequests(SortStrings(held), "held") + declared + AsRequests(explicit, "explicit")
  }

  /** The requests taken one after the other. */
  method AddAll(reqs: seq<Choice>) returns (all: seq<Choice>)
    ensures Resolved(reqs, all)
  {
    all := [];
    var index: map<string, nat> := map[];
    for i := 0 to |reqs|
      invariant Resolved(reqs[..i], all) && IndexOf(all, index)
    {
      assert reqs[..i + 1] == reqs[..i] + [reqs[i]];
      all, index := Add(all, index, reqs[i], reqs[..i]);
    }
    assert reqs[..|reqs|] == reqs;
  }

  method ResolveSymbols(held: seq<string>, declared: seq<Choice>, explicit: seq<string>)
    returns (selected: seq<Choice>, skipped: seq<Choice>)
    ensures Resolved(Requests(held, declared, explicit), selected + skipped)
    ensures |selected| == Min(12, |selected + skipped|)
    ensures forall i, j :: 0 <= i < j < |selected + skipped| ==> (selected + skipped)[i].symbol != (selected + skipped)[j].symbol
  {
    var reqs := Requests(held, declared, explicit);
    var all := AddAll(reqs);
    ResolvedDistinct(reqs, all);
    if |all| <= MAX_SYMBOLS {
      selected, skipped := all, [];
    } else {
      selected, skipped := all[..MAX_SYMBOLS], all[MAX_SYMBOLS..];
    }
    assert selected + skipped == all;
  }

  lemma ResolvedDistinct(reqs: seq<Choice>, all: seq<Choice>)
    requires Resolved(reqs, all)
    ensures forall i, j :: 0 <= i < j < |all| ==> all[i].symbol != all[j].symbol
  {
    FirstsDistinct(reqs);
  }

  // ----- The order of the symbols -----

  /** Where a list of requests first names a symbol; its length if nowhere. */
  function FirstAt(reqs: seq<Choice>, s: string): nat
  {
    if reqs == [] || NormalizeSymbol(reqs[0].symbol) == Some(s) then 0 else 1 + FirstAt(reqs[1..], s)
  }

  predicate Named(reqs: seq<Choice>, s: string) { FirstAt(reqs, s) < |reqs| }

  lemma {:induction false} FirstAtConcat(a: seq<Choice>, b: seq<Choice>, s: string)
    ensures FirstAt(a, s) <= |a|
    ensures FirstAt(a + b, s) == if Named(a, s) then FirstAt(a, s) else |a| + FirstAt(b, s)
  {
    if a == [] {
      assert a + b == b;
    } else {
      assert (a + b)[1..] == a[1..] + b;
      FirstAtConcat(a[1..], b, s);
    }
  }

  /** The list is in order of first mention, and holds exactly the symbols named. */
  lemma {:induction false} FirstsByMention(reqs: seq<Choice>)
    ensures forall s :: s in Firsts(reqs) <==> Named(reqs, s)
    ensures forall i, j :: 0 <= i < j < |Firsts(reqs)| ==> FirstAt(reqs, Firsts(reqs)[i]) < FirstAt(reqs, Firsts(reqs)[j])
  {
    if reqs != [] {
      var n := |reqs| - 1;
      var init, last := reqs[..n], reqs[n];
      assert reqs == init + [last];
      FirstsByMention(init);
      forall s ensures FirstAt(reqs, s) == if s in Firsts(init) then FirstAt(init, s) else n + FirstAt([last], s) {
        FirstAtConcat(init, [last], s);
      }
      assert [last][1..] == [];
      var before := Firsts(init);
      forall i | 0 <= i < |before| ensures before[i] in before && FirstAt(init, before[i]) < n {
        assert before[i] in before;
      }
    }
  }

  /** Held first, then declared, then from the research list; each part in the order of its own
      list, held ones alphabetically. */
  lemma ResolutionOrder(held: seq<string>, declared: seq<Choice>, explicit: seq<string>, all: seq<Choice>, i: nat, j: nat)
    requires Resolved(Requests(held, declared, explicit), all) && i < j < |all|
    ensures var a, b := all[i].symbol, all[j].symbol;
            var h, e := AsRequests(SortStrings(held), "held"), AsRequests(explicit, "explicit");
            && (Named(h, b) ==> Named(h, a) && FirstAt(h, a) < FirstAt(h, b))
            && (!Named(h, a) && Named(declared, b) ==> Named(declared, a) && (!Named(h, b) ==> FirstAt(declared, a) < FirstAt(declared, b)))
            && (!Named(h, a) && !Named(declared, a) ==> Named(e, a) && !Named(h, b) && !Named(declared, b) && FirstAt(e, a) < FirstAt(e, b))
  {
    var a, b := all[i].symbol, all[j].symbol;
    var h, e := AsRequests(SortStrings(held), "held"), AsRequests(explicit, "explicit");
    var reqs := Requests(held, declared, explicit);
    FirstsByMention(reqs);
    assert Firsts(reqs)[i] == a && Firsts(reqs)[j] == b;
    assert a in Firsts(reqs) && b in Firsts(reqs);
    ThreeLists(h, declared, e, a);
    ThreeLists(h, declared, e, b);
  }

  lemma ThreeLists(h: seq<Choice>, d: seq<Choice>, e: seq<Choice>, s: string)
    ensures FirstAt(h + d + e, s) ==
            if Named(h, s) then FirstAt(h, s) else if Named(d, s) then |h| + FirstAt(d, s) else |h| + |d| + FirstAt(e, s)
    ensures FirstAt(h, s) <= |h| && FirstAt(d, s) <= |d| && FirstAt(e, s) <= |e|
  {
    FirstAtConcat(h + d, e, s);
    FirstAtConcat(h, d, s);
    FirstAtBound(h, s);
    FirstAtBound(d, s);
    FirstAtBound(e, s);
  }

  lemma {:induction false} FirstAtBound(a: seq<Choice>, s: string)
    ensures FirstAt(a, s) <= |a|
  {
    if a != [] {
      FirstAtBound(a[1..], s);
    }
  }

  /** The sources of a symbol are those that named it. */
  lemma {:induction false} SourcesMean(reqs: seq<Choice>, s: string, x: string)
    ensures x in SourcesOf(reqs, s) <==> exists i :: 0 <= i < |reqs| && NormalizeSymbol(reqs[i].symbol) == Some(s) && reqs[i].source == x
  {
    if reqs != [] {
      var n := |reqs| - 1;
      SourcesMean(reqs[..n], s, x);
      assert reqs == reqs[..n] + [reqs[n]];
      if x in SourcesOf(reqs[..n], s) {
        var i :| 0 <= i < n && NormalizeSymbol(reqs[..n][i].symbol) == Some(s) && reqs[..n][i].source == x;
        assert reqs[i] == reqs[..n][i];
      }
      if i :| 0 <= i < |reqs| && NormalizeSymbol(reqs[i].symbol) == Some(s) && reqs[i].source == x {
        if i < n {
          assert reqs[..n][i] == reqs[i];
        }
      }
    }
  }

  /** Held symbols name their source "held", listed ones "explicit", declared ones their own. */
  lemma RequestsMean(held: seq<string>, declared: seq<Choice>, explicit: seq<string>, i: nat)
    requires i < |held| + |declared| + |explicit|
    ensures var reqs := Requests(held, declared, explicit);
            && |SortStrings(held)| == |held| && |reqs| == |held| + |declared| + |explicit|
            && reqs[i] == if i < |held| then Choice(SortStrings(held)[i], "held")
                          else if i < |held| + |declared| then declared[i - |held|]
                          else Choice(explicit[i - |held| - |declared|], "explicit")
  {
    SortContent(ByName(), held);
  }
}
