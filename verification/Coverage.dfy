/** Coverage recomputed from the store: a group-by over stored rows, folded per symbol and in
    total, with the contracts an interrupted run never wrote counted as not attempted. */
module Coverage {
  import opened Sequences
  import opened Contracts

  /** The counts a coverage record carries, one name per count. */
  datatype Field = Attempts | Misses | Quotes | TwoSided | WithIV | WithGreeks | WithOI | StatusIs(status: Status)

  datatype ChainCoverage = ChainCoverage(
    planned: nat, attempted: nat, notAttempted: nat, quoted: nat,
    twoSided: nat, withIV: nat, withGreeks: nat, withOI: nat, byStatus: map<Status, nat>)

  const EMPTY := ChainCoverage(0, 0, 0, 0, 0, 0, 0, 0, map[])

  function Get(c: ChainCoverage, f: Field): nat
  {
    match f
    case Attempts => c.attempted
    case Misses => c.notAttempted
    case Quotes => c.quoted
    case TwoSided => c.twoSided
    case WithIV => c.withIV
    case WithGreeks => c.withGreeks
    case WithOI => c.withOI
    case StatusIs(st) => if st in c.byStatus then c.byStatus[st] else 0
  }

  /** Whether one stored row belongs to a count. */
  predicate Counts(r: Row, f: Field)
  {
    match f
    case Attempts => r.status != NotAttempted
    case Misses => r.status == NotAttempted
    case Quotes => r.status == Quoted
    case TwoSided => r.quote.bid && r.quote.ask
    case WithIV => r.quote.iv
    case WithGreeks => r.quote.delta
    case WithOI => r.quote.openInterest
    case StatusIs(st) => r.status == st
  }

  /** The rows of one symbol a count is made of. */
  function CountsFor(sym: string, f: Field): Row -> bool
  {
    (r: Row) => r.contract.symbol == sym && Counts(r, f)
  }

  // ----- GROUP BY symbol, status -----

  datatype Group = Group(symbol: string, status: Status, n: nat, twoSided: nat, iv: nat, greeks: nat, oi: nat)

  function InGroup(sym: string, st: Status, f: Option<Field>): Row -> bool
  {
    (r: Row) => r.contract.symbol == sym && r.status == st && (f.Some? ==> Counts(r, f.value))
  }

  /** groups is the answer of the grouping query over rows, in any order. */
  ghost predicate Groups(rows: seq<Row>, groups: seq<Group>)
  {
    && (forall i, j :: 0 <= i < j < |groups| ==>
          groups[i].symbol != groups[j].symbol || groups[i].status != groups[j].status)
    && (forall i :: 0 <= i < |groups| ==>
          var g := groups[i];
          && g.n == Count(rows, InGroup(g.symbol, g.status, None))
          && g.twoSided == Count(rows, InGroup(g.symbol, g.status, Some(TwoSided)))
          && g.iv == Count(rows, InGroup(g.symbol, g.status, Some(WithIV)))
          && g.greeks == Count(rows, InGroup(g.symbol, g.status, Some(WithGreeks)))
          && g.oi == Count(rows, InGroup(g.symbol, g.status, Some(WithOI))))
    && (forall i :: 0 <= i < |rows| ==> Grouped(groups, rows[i]))
  }

  ghost predicate Grouped(groups: seq<Group>, r: Row)
  {
    exists j :: 0 <= j < |groups| && groups[j].symbol == r.contract.symbol && groups[j].status == r.status
  }

  /** What a group adds to a count. */
  function Share(g: Group, f: Field): nat
  {
    match f
    case Attempts => if g.status == NotAttempted then 0 else g.n
    case Misses => if g.status == NotAttempted then g.n else 0
    case Quotes => if g.status == Quoted then g.n else 0
    case TwoSided => g.twoSided
    case WithIV => g.iv
    case WithGreeks => g.greeks
    case WithOI => g.oi
    case StatusIs(st) => if g.status == st then g.n else 0
  }

  function ShareFor(sym: string, f: Field): Group -> nat
  {
    (g: Group) => if g.symbol == sym then Share(g, f) else 0
  }

  /** A group's share is the count of its own rows. */
  lemma ShareCounts(rows: seq<Row>, groups: seq<Group>, i: nat, f: Field)
    requires Groups(rows, groups) && i < |groups|
    ensures Share(groups[i], f) == Count(rows, InGroup(groups[i].symbol, groups[i].status, Some(f)))
  {
    var g := groups[i];
    var whole, part := InGroup(g.symbol, g.status, None), InGroup(g.symbol, g.status, Some(f));
    if f.TwoSided? || f.WithIV? || f.WithGreeks? || f.WithOI? {
      // the query counts these columns itself
    } else if Share(g, f) == g.n && (forall r: Row :: whole(r) ==> part(r)) {
      CountSame(rows, whole, part);
    } else {
      CountBounds(rows, part);
    }
  }

  /** Rows already covered by the first i groups. */
  function Seen(groups: seq<Group>, i: nat, sym: string, f: Field): Row -> bool
    requires i <= |groups|
  {
    (r: Row) => r.contract.symbol == sym && Counts(r, f)
                && exists j :: 0 <= j < i && groups[j].symbol == r.contract.symbol && groups[j].status == r.status
  }

  /** Counting two disjoint kinds of rows adds. */
  lemma {:induction false} CountDisjoint(rows: seq<Row>, p: Row -> bool, q: Row -> bool, both: Row -> bool)
    requires forall i :: 0 <= i < |rows| ==> both(rows[i]) == (p(rows[i]) || q(rows[i])) && !(p(rows[i]) && q(rows[i]))
    ensures Count(rows, both) == Count(rows, p) + Count(rows, q)
  {
    if rows != [] {
      CountDisjoint(rows[..|rows| - 1], p, q, both);
    }
  }

  lemma {:induction false} SharesCount(rows: seq<Row>, groups: seq<Group>, i: nat, sym: string, f: Field)
    requires Groups(rows, groups) && i <= |groups|
    ensures Sum(groups[..i], ShareFor(sym, f)) == Count(rows, Seen(groups, i, sym, f))
  {
    if i == 0 {
      CountBounds(rows, Seen(groups, 0, sym, f));
    } else {
      var g := groups[i - 1];
      SharesCount(rows, groups, i - 1, sym, f);
      assert groups[..i][..i - 1] == groups[..i - 1];
      ShareCounts(rows, groups, i - 1, f);
      var added := (r: Row) => g.symbol == sym && InGroup(g.symbol, g.status, Some(f))(r);
      CountDisjoint(rows, Seen(groups, i - 1, sym, f), added, Seen(groups, i, sym, f));
      if g.symbol == sym {
        CountSame(rows, added, InGroup(g.symbol, g.status, Some(f)));
      } else {
        CountBounds(rows, added);
      }
    }
  }

  /** All groups of a symbol together are its rows. */
  lemma GroupsTotal(rows: seq<Row>, groups: seq<Group>, sym: string, f: Field)
    requires Groups(rows, groups)
    ensures Sum(groups, ShareFor(sym, f)) == Count(rows, CountsFor(sym, f))
  {
    SharesCount(rows, groups, |groups|, sym, f);
    assert groups[..|groups|] == groups;
    forall i | 0 <= i < |rows|
      ensures Seen(groups, |groups|, sym, f)(rows[i]) == CountsFor(sym, f)(rows[i])
    {
      assert Grouped(groups, rows[i]);
    }
    CountSame(rows, Seen(groups, |groups|, sym, f), CountsFor(sym, f));
  }

  // ----- addCoverage and fillCoverage -----

  method AddCoverage(c: ChainCoverage, g: Group) returns (r: ChainCoverage)
    ensures r.planned == c.planned
    ensures forall f :: Get(r, f) == Get(c, f) + Share(g, f)
  {
    var byStatus := c.byStatus[g.status := (if g.status in c.byStatus then c.byStatus[g.status] else 0) + g.n];
    r := c.(byStatus := byStatus);
    if g.status == NotAttempted {
      r := r.(notAttempted := r.notAttempted + g.n);
    } else {
      r := r.(attempted := r.attempted + g.n);
    }
    if g.status == Quoted {
      r := r.(quoted := r.quoted + g.n);
    }
    r := r.(twoSided := r.twoSided + g.twoSided, withIV := r.withIV + g.iv,
            withGreeks := r.withGreeks + g.greeks, withOI := r.withOI + g.oi);
  }

  /** A stored discovery record, as far as coverage reads it. */
  datatype SymbolRecord = SymbolRecord(symbol: string, planned: nat)

  datatype SymbolResult = SymbolResult(symbol: string, coverage: ChainCoverage)

  ghost predicate RecordsDistinct(syms: seq<SymbolRecord>)
  {
    forall i, j :: 0 <= i < j < |syms| ==> syms[i].symbol != syms[j].symbol
  }

  ghost predicate ResultsDistinct(rs: seq<SymbolResult>)
  {
    forall i, j :: 0 <= i < j < |rs| ==> rs[i].symbol != rs[j].symbol
  }

  function PlannedOf(): SymbolResult -> nat { (r: SymbolResult) => r.coverage.planned }

  function FieldOf(f: Field): SymbolResult -> nat { (r: SymbolResult) => Get(r.coverage, f) }

  /** index finds each listed symbol and nothing else. */
  ghost predicate Indexed(rs: seq<SymbolResult>, index: map<string, nat>)
  {
    && (forall i :: 0 <= i < |rs| ==> rs[i].symbol in index && index[rs[i].symbol] == i)
    && (forall s :: s in index ==> index[s] < |rs| && rs[index[s]].symbol == s)
  }

  /** Each result holds its groups' shares so far, and the total holds everything. */
  ghost predicate Folded(groups: seq<Group>, rs: seq<SymbolResult>, total: ChainCoverage)
  {
    && (forall k, f :: 0 <= k < |rs| ==> Get(rs[k].coverage, f) == Sum(groups, ShareFor(rs[k].symbol, f)))
    && (forall f :: Get(total, f) == Sum(rs, FieldOf(f)))
    && (forall j :: 0 <= j < |groups| ==> Listed(rs, groups[j].symbol))
  }

  ghost predicate Listed(rs: seq<SymbolResult>, sym: string)
  {
    exists k :: 0 <= k < |rs| && rs[k].symbol == sym
  }

  lemma SumAppend<T>(s: seq<T>, x: T, f: T -> nat)
    ensures Sum(s + [x], f) == Sum(s, f) + f(x)
  {
    assert (s + [x])[..|s|] == s;
  }

  lemma {:induction false} SumZero<T>(s: seq<T>, f: T -> nat)
    requires forall i :: 0 <= i < |s| ==> f(s[i]) == 0
    ensures Sum(s, f) == 0
  {
    if s != [] {
      SumZero(s[..|s| - 1], f);
    }
  }

  /** A symbol no group mentions has no share. */
  lemma UnlistedShares(groups: seq<Group>, sym: string, f: Field)
    requires forall j :: 0 <= j < |groups| ==> groups[j].symbol != sym
    ensures Sum(groups, ShareFor(sym, f)) == 0
  {
    SumZero(groups, ShareFor(sym, f));
  }

  lemma FoldOne(groups: seq<Group>, g: Group, rs: seq<SymbolResult>, total: ChainCoverage, i: nat,
                c: ChainCoverage, total': ChainCoverage)
    requires Folded(groups, rs, total) && ResultsDistinct(rs) && i < |rs| && rs[i].symbol == g.symbol
    requires forall f :: Get(c, f) == Get(rs[i].coverage, f) + Share(g, f)
    requires forall f :: Get(total', f) == Get(total, f) + Share(g, f)
    ensures Folded(groups + [g], rs[i := rs[i].(coverage := c)], total')
  {
    var rs' := rs[i := rs[i].(coverage := c)];
    forall k, f | 0 <= k < |rs'|
      ensures Get(rs'[k].coverage, f) == Sum(groups + [g], ShareFor(rs'[k].symbol, f))
    {
      SumAppend(groups, g, ShareFor(rs[k].symbol, f));
    }
    forall f ensures Get(total', f) == Sum(rs', FieldOf(f)) {
      SumUpdate(rs, i, rs'[i], FieldOf(f));
    }
    forall j | 0 <= j < |groups + [g]| ensures Listed(rs', (groups + [g])[j].symbol) {
      if j < |groups| {
        assert Listed(rs, groups[j].symbol);
        var k :| 0 <= k < |rs| && rs[k].symbol == groups[j].symbol;
        assert rs'[k].symbol == groups[j].symbol;
      } else {
        assert rs'[i].symbol == g.symbol;
      }
    }
  }

  /** Adding an empty result for a symbol seen for the first time. */
  lemma FoldNew(groups: seq<Group>, rs: seq<SymbolResult>, total: ChainCoverage, sym: string, planned: nat)
    requires Folded(groups, rs, total) && !Listed(rs, sym)
    ensures Folded(groups, rs + [SymbolResult(sym, EMPTY.(planned := planned))], total)
  {
    var x := SymbolResult(sym, EMPTY.(planned := planned));
    var rs' := rs + [x];
    forall j | 0 <= j < |groups| ensures Listed(rs', groups[j].symbol) && groups[j].symbol != sym {
      assert Listed(rs, groups[j].symbol);
      var k :| 0 <= k < |rs| && rs[k].symbol == groups[j].symbol;
      assert rs'[k].symbol == groups[j].symbol;
    }
    forall k, f | 0 <= k < |rs'|
      ensures Get(rs'[k].coverage, f) == Sum(groups, ShareFor(rs'[k].symbol, f))
    {
      if k == |rs| {
        UnlistedShares(groups, sym, f);
      }
    }
    forall f ensures Get(total, f) == Sum(rs', FieldOf(f)) {
      SumAppend(rs, x, FieldOf(f));
    }
  }

  /** One symbol's coverage is read off its stored rows; contracts planned and never written
      count as not attempted. */
  ghost predicate Recomputed(rows: seq<Row>, r: SymbolResult)
  {
    && (forall f: Field :: !f.Misses? ==> Get(r.coverage, f) == Count(rows, CountsFor(r.symbol, f)))
    && r.coverage.attempted + r.coverage.notAttempted
       == Max(r.coverage.planned, Count(rows, CountsFor(r.symbol, Attempts)) + Count(rows, CountsFor(r.symbol, Misses)))
  }

  /** The run's totals are the sums over its symbols. */
  ghost predicate Totals(rs: seq<SymbolResult>, total: ChainCoverage)
  {
    total.planned == Sum(rs, PlannedOf()) && forall f :: Get(total, f) == Sum(rs, FieldOf(f))
  }

  method ReadSymbols(syms: seq<SymbolRecord>) returns (rs: seq<SymbolResult>, index: map<string, nat>)
    requires RecordsDistinct(syms)
    ensures |rs| == |syms|
    ensures forall k :: 0 <= k < |syms| ==> rs[k] == SymbolResult(syms[k].symbol, EMPTY.(planned := syms[k].planned))
    ensures Indexed(rs, index)
  {
    rs, index := [], map[];
    for i := 0 to |syms|
      invariant |rs| == i
      invariant forall k :: 0 <= k < i ==> rs[k] == SymbolResult(syms[k].symbol, EMPTY.(planned := syms[k].planned))
      invariant Indexed(rs, index)
    {
      index := index[syms[i].symbol := |rs|];
      rs := rs + [SymbolResult(syms[i].symbol, EMPTY.(planned := syms[i].planned))];
    }
  }

  /** Results only gain symbols at the end, and keep what each planned. */
  ghost predicate Extends(rs: seq<SymbolResult>, rs': seq<SymbolResult>)
  {
    && |rs| <= |rs'|
    && (forall k :: 0 <= k < |rs| ==> rs'[k].symbol == rs[k].symbol && rs'[k].coverage.planned == rs[k].coverage.planned)
    && (forall k :: |rs| <= k < |rs'| ==> rs'[k].coverage.planned == 0)
  }

  method FoldGroup(g: Group, rs0: seq<SymbolResult>, index0: map<string, nat>, total0: ChainCoverage, ghost done: seq<Group>)
    returns (rs: seq<SymbolResult>, index: map<string, nat>, total: ChainCoverage)
    requires ResultsDistinct(rs0) && Indexed(rs0, index0) && Folded(done, rs0, total0)
    ensures ResultsDistinct(rs) && Indexed(rs, index) && Folded(done + [g], rs, total)
    ensures Extends(rs0, rs)
  {
    rs, index := rs0, index0;
    if g.symbol !in index {
      assert !Listed(rs, g.symbol);
      FoldNew(done, rs, total0, g.symbol, 0);
      index := index[g.symbol := |rs|];
      rs := rs + [SymbolResult(g.symbol, EMPTY)];
    }
    var k := index[g.symbol];
    var c := AddCoverage(rs[k].coverage, g);
    total := AddCoverage(total0, g);
    FoldOne(done, g, rs, total0, k, c, total);
    rs := rs[k := rs[k].(coverage := c)];
  }

  method FoldGroups(syms: seq<SymbolRecord>, groups: seq<Group>) returns (rs: seq<SymbolResult>, total: ChainCoverage)
    requires RecordsDistinct(syms)
    ensures |rs| >= |syms| && ResultsDistinct(rs) && Folded(groups, rs, total)
    ensures forall k :: 0 <= k < |syms| ==> rs[k].symbol == syms[k].symbol && rs[k].coverage.planned == syms[k].planned
    ensures forall k :: |syms| <= k < |rs| ==> rs[k].coverage.planned == 0
  {
    var listed, index := ReadSymbols(syms);
    rs, total := listed, EMPTY;
    forall f ensures Sum(rs, FieldOf(f)) == 0 {
      SumZero(rs, FieldOf(f));
    }
    for i := 0 to |groups|
      invariant ResultsDistinct(rs) && Indexed(rs, index)
      invariant Folded(groups[..i], rs, total)
      invariant Extends(listed, rs)
    {
      assert groups[..i + 1] == groups[..i] + [groups[i]];
      rs, index, total := FoldGroup(groups[i], rs, index, total, groups[..i]);
    }
    assert groups[..|groups|] == groups;
  }

  /** Before the correction a result counts exactly its stored rows. */
  ghost predicate CountsRows(rows: seq<Row>, r: SymbolResult)
  {
    forall f: Field :: Get(r.coverage, f) == Count(rows, CountsFor(r.symbol, f))
  }

  /** The correction: planned contracts without a row are not attempted. */
  function WithMissing(c: ChainCoverage): ChainCoverage
  {
    var recorded := c.attempted + c.notAttempted;
    if c.planned > recorded then c.(notAttempted := c.notAttempted + (c.planned - recorded)) else c
  }

  lemma MissingRecomputes(rows: seq<Row>, r: SymbolResult)
    requires CountsRows(rows, r)
    ensures Recomputed(rows, r.(coverage := WithMissing(r.coverage)))
  {
    assert Get(r.coverage, Attempts) == Count(rows, CountsFor(r.symbol, Attempts));
    assert Get(r.coverage, Misses) == Count(rows, CountsFor(r.symbol, Misses));
    forall f: Field | !f.Misses?
      ensures Get(WithMissing(r.coverage), f) == Count(rows, CountsFor(r.symbol, f))
    {
      assert Get(WithMissing(r.coverage), f) == Get(r.coverage, f);
    }
  }

  method CountMissing(folded: seq<SymbolResult>, sums: ChainCoverage) returns (rs: seq<SymbolResult>, total: ChainCoverage)
    requires forall f :: Get(sums, f) == Sum(folded, FieldOf(f))
    ensures |rs| == |folded|
    ensures forall k :: 0 <= k < |rs| ==> rs[k] == folded[k].(coverage := WithMissing(folded[k].coverage))
    ensures Totals(rs, total)
  {
    rs, total := folded, sums.(planned := 0);
    assert forall f :: Get(total, f) == Get(sums, f);
    for i := 0 to |rs|
      invariant |rs| == |folded|
      invariant forall k :: 0 <= k < i ==> rs[k] == folded[k].(coverage := WithMissing(folded[k].coverage))
      invariant forall k :: i <= k < |rs| ==> rs[k] == folded[k]
      invariant forall f :: Get(total, f) == Sum(rs, FieldOf(f))
      invariant total.planned == Sum(rs[..i], PlannedOf())
    {
      var c := rs[i].coverage;
      var recorded := c.attempted + c.notAttempted;
      ghost var before, was := rs, total;
      if c.planned > recorded {
        c := c.(notAttempted := c.notAttempted + (c.planned - recorded));
        total := total.(notAttempted := total.notAttempted + (c.planned - recorded));
      }
      total := total.(planned := total.planned + c.planned);
      rs := rs[i := rs[i].(coverage := c)];
      MissingStep(before, was, i, c, total);
    }
    assert rs[..|rs|] == rs;
  }

  /** The correction of one symbol moves the totals by what it moves the symbol. */
  lemma MissingField(rs: seq<SymbolResult>, was: ChainCoverage, i: nat, c: ChainCoverage, total: ChainCoverage, f: Field)
    requires i < |rs| && c == WithMissing(rs[i].coverage)
    requires Get(was, f) == Sum(rs, FieldOf(f))
    requires total == was.(notAttempted := total.notAttempted, planned := total.planned)
    requires total.notAttempted == was.notAttempted + (c.notAttempted - rs[i].coverage.notAttempted)
    ensures Get(total, f) == Sum(rs[i := rs[i].(coverage := c)], FieldOf(f))
  {
    SumUpdate(rs, i, rs[i].(coverage := c), FieldOf(f));
  }

  lemma MissingStep(rs: seq<SymbolResult>, was: ChainCoverage, i: nat, c: ChainCoverage, total: ChainCoverage)
    requires i < |rs| && c == WithMissing(rs[i].coverage)
    requires forall f :: Get(was, f) == Sum(rs, FieldOf(f))
    requires was.planned == Sum(rs[..i], PlannedOf())
    requires total == was.(notAttempted := total.notAttempted, planned := total.planned)
    requires total.notAttempted == was.notAttempted + (c.notAttempted - rs[i].coverage.notAttempted)
    requires total.planned == was.planned + c.planned
    ensures forall f :: Get(total, f) == Sum(rs[i := rs[i].(coverage := c)], FieldOf(f))
    ensures total.planned == Sum(rs[i := rs[i].(coverage := c)][..i + 1], PlannedOf())
  {
    var x := rs[i].(coverage := c);
    forall f ensures Get(total, f) == Sum(rs[i := x], FieldOf(f)) {
      MissingField(rs, was, i, c, total, f);
    }
    assert rs[i := x][..i + 1] == rs[..i] + [x];
    SumAppend(rs[..i], x, PlannedOf());
  }

  /** The report over the rows a store holds: a result for every record and every symbol with
      rows, each recomputed from the rows, and the totals. */
  ghost predicate Filled(rows: seq<Row>, syms: seq<SymbolRecord>, rs: seq<SymbolResult>, total: ChainCoverage)
  {
    && |rs| >= |syms| && ResultsDistinct(rs)
    && (forall k :: 0 <= k < |syms| ==> rs[k].symbol == syms[k].symbol && rs[k].coverage.planned == syms[k].planned)
    && (forall k :: |syms| <= k < |rs| ==> rs[k].coverage.planned == 0)
    && (forall k :: 0 <= k < |rs| ==> Recomputed(rows, rs[k]))
    && Totals(rs, total)
    && (forall i :: 0 <= i < |rows| ==> Listed(rs, rows[i].contract.symbol))
  }

  method FillCoverage(syms: seq<SymbolRecord>, groups: seq<Group>, ghost rows: seq<Row>)
    returns (rs: seq<SymbolResult>, total: ChainCoverage)
    requires RecordsDistinct(syms) && Groups(rows, groups)
    ensures Filled(rows, syms, rs, total)
  {
    var folded, sums := FoldGroups(syms, groups);
    rs, total := CountMissing(folded, sums);
    forall k | 0 <= k < |rs| ensures Recomputed(rows, rs[k]) {
      forall f: Field ensures Get(folded[k].coverage, f) == Count(rows, CountsFor(folded[k].symbol, f)) {
        GroupsTotal(rows, groups, folded[k].symbol, f);
      }
      MissingRecomputes(rows, folded[k]);
    }
    forall i | 0 <= i < |rows| ensures Listed(rs, rows[i].contract.symbol) {
      assert Grouped(groups, rows[i]);
      assert Listed(folded, rows[i].contract.symbol);
      var k :| 0 <= k < |folded| && folded[k].symbol == rows[i].contract.symbol;
      assert rs[k].symbol == rows[i].contract.symbol;
    }
  }

  /** What a symbol's recomputed coverage counts, column by column. */
  lemma CoverageReads(rows: seq<Row>, r: SymbolResult)
    requires Recomputed(rows, r)
    ensures r.coverage.attempted == Count(rows, (x: Row) => x.contract.symbol == r.symbol && x.status != NotAttempted)
    ensures r.coverage.quoted == Count(rows, (x: Row) => x.contract.symbol == r.symbol && x.status == Quoted)
    ensures r.coverage.twoSided == Count(rows, (x: Row) => x.contract.symbol == r.symbol && x.quote.bid && x.quote.ask)
    ensures r.coverage.withIV == Count(rows, (x: Row) => x.contract.symbol == r.symbol && x.quote.iv)
    ensures r.coverage.withGreeks == Count(rows, (x: Row) => x.contract.symbol == r.symbol && x.quote.delta)
    ensures r.coverage.withOI == Count(rows, (x: Row) => x.contract.symbol == r.symbol && x.quote.openInterest)
  {
    Reads(rows, r, Attempts, (x: Row) => x.contract.symbol == r.symbol && x.status != NotAttempted);
    Reads(rows, r, Quotes, (x: Row) => x.contract.symbol == r.symbol && x.status == Quoted);
    Reads(rows, r, TwoSided, (x: Row) => x.contract.symbol == r.symbol && x.quote.bid && x.quote.ask);
    Reads(rows, r, WithIV, (x: Row) => x.contract.symbol == r.symbol && x.quote.iv);
    Reads(rows, r, WithGreeks, (x: Row) => x.contract.symbol == r.symbol && x.quote.delta);
    Reads(rows, r, WithOI, (x: Row) => x.contract.symbol == r.symbol && x.quote.openInterest);
  }

  lemma Reads(rows: seq<Row>, r: SymbolResult, f: Field, p: Row -> bool)
    requires Recomputed(rows, r) && !f.Misses? && forall x :: p(x) == CountsFor(r.symbol, f)(x)
    ensures Get(r.coverage, f) == Count(rows, p)
  {
    CountSame(rows, p, CountsFor(r.symbol, f));
  }
}
