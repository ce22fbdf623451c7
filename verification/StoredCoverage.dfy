/** The two accountings agree: coverage recomputed from the store against the run itself. */
module StoredCoverage {
  import opened Sequences
  import opened Contracts
  import opened Execution
  import opened Recorder
  import opened RecorderInvariants
  import opened RecorderRuns
  import opened Coverage

  /** The discovery records in the store carry the plan of this run: each symbol once, each with
      the number of contracts the run took from it. */
  ghost predicate PlanStored(cfg: Config, syms: seq<SymbolRecord>)
  {
    && RecordsDistinct(syms)
    && forall k :: 0 <= k < |syms| ==> syms[k].planned == Count(cfg.work, IsSymbol(syms[k].symbol))
  }

  ghost predicate HasRecord(syms: seq<SymbolRecord>, sym: string) { exists k :: 0 <= k < |syms| && syms[k].symbol == sym }

  /** No planned contract belongs to a symbol without a record. */
  ghost predicate PlanComplete(cfg: Config, syms: seq<SymbolRecord>)
  {
    forall i :: 0 <= i < |cfg.work| ==> HasRecord(syms, cfg.work[i].symbol)
  }

  function RowSymbol(sym: string): Row -> bool { (r: Row) => r.contract.symbol == sym }

  /** The stored rows of a symbol never outnumber its plan. */
  lemma StoredWithinPlan(cfg: Config, s: State, sym: string)
    requires Reachable(cfg, s)
    ensures Count(s.persisted, CountsFor(sym, Attempts)) + Count(s.persisted, CountsFor(sym, Misses))
            <= Count(cfg.work, IsSymbol(sym))
  {
    CountDisjoint(s.persisted, CountsFor(sym, Attempts), CountsFor(sym, Misses), RowSymbol(sym));
    var start := ReachableInv(cfg, s);
    CountConcat(s.persisted, s.shared.pending, RowSymbol(sym));
    CountMap(s.log, (e: Entry) => e.row, RowSymbol(sym), JobSymbol(cfg, sym));
    RecordedWithinPlan(cfg, s, sym);
  }

  lemma RecordedWithinPlan(cfg: Config, s: State, sym: string)
    requires Conserved(cfg, s)
    ensures Count(s.log, JobSymbol(cfg, sym)) <= Count(cfg.work, IsSymbol(sym))
  {
    assert SymbolConserved(cfg, s, sym);
    CountConcat(cfg.work[..s.next], cfg.work[s.next..], IsSymbol(sym));
    assert cfg.work == cfg.work[..s.next] + cfg.work[s.next..];
  }

  lemma {:induction false} SumEqual(rs: seq<SymbolResult>, f: SymbolResult -> nat, g: SymbolResult -> nat)
    requires forall k :: 0 <= k < |rs| ==> f(rs[k]) == g(rs[k])
    ensures Sum(rs, f) == Sum(rs, g)
  {
    if rs != [] {
      SumEqual(rs[..|rs| - 1], f, g);
    }
  }

  lemma {:induction false} SumPlus(rs: seq<SymbolResult>, f: SymbolResult -> nat, g: SymbolResult -> nat, h: SymbolResult -> nat)
    requires forall k :: 0 <= k < |rs| ==> h(rs[k]) == f(rs[k]) + g(rs[k])
    ensures Sum(rs, h) == Sum(rs, f) + Sum(rs, g)
  {
    if rs != [] {
      SumPlus(rs[..|rs| - 1], f, g, h);
    }
  }

  /** Whatever was stored when the process died, every recorded symbol's attempted and not
      attempted contracts add up to its plan, and the run's totals to the run's plan. */
  lemma CoverageAtEveryCrash(cfg: Config, s: State, syms: seq<SymbolRecord>, rs: seq<SymbolResult>, total: ChainCoverage)
    requires Reachable(cfg, s) && PlanStored(cfg, syms) && Filled(s.persisted, syms, rs, total)
    requires PlanComplete(cfg, syms) || s.persisted == []
    ensures forall k :: 0 <= k < |rs| ==> rs[k].coverage.attempted + rs[k].coverage.notAttempted == rs[k].coverage.planned
    ensures total.attempted + total.notAttempted == total.planned
  {
    forall k | 0 <= k < |rs|
      ensures rs[k].coverage.attempted + rs[k].coverage.notAttempted == rs[k].coverage.planned
    {
      assert Recomputed(s.persisted, rs[k]);
      StoredWithinPlan(cfg, s, rs[k].symbol);
      if k >= |syms| {
        UnrecordedIsEmpty(cfg, s, syms, rs[k].symbol, rs, k);
      }
    }
    SumPlus(rs, FieldOf(Attempts), FieldOf(Misses), PlannedOf());
    assert total.attempted == Get(total, Attempts) && total.notAttempted == Get(total, Misses);
  }

  /** With no row stored, every record's plan counts as not attempted. */
  lemma CoverageWithoutRows(syms: seq<SymbolRecord>, rs: seq<SymbolResult>, total: ChainCoverage)
    requires Filled([], syms, rs, total)
    ensures forall k :: 0 <= k < |rs| ==>
              rs[k].coverage.attempted == 0 && rs[k].coverage.notAttempted == rs[k].coverage.planned
    ensures total.attempted == 0 && total.notAttempted == total.planned
  {
    forall k | 0 <= k < |rs|
      ensures rs[k].coverage.attempted == 0 && rs[k].coverage.notAttempted == rs[k].coverage.planned
    {
      assert Recomputed([], rs[k]);
      assert Get(rs[k].coverage, Attempts) == 0;
    }
    SumZero(rs, FieldOf(Attempts));
    SumEqual(rs, FieldOf(Misses), PlannedOf());
    assert total.attempted == Get(total, Attempts) && total.notAttempted == Get(total, Misses);
  }

  /** A symbol without a record has no stored row. */
  lemma UnrecordedIsEmpty(cfg: Config, s: State, syms: seq<SymbolRecord>, sym: string, rs: seq<SymbolResult>, k: nat)
    requires PlanComplete(cfg, syms) || s.persisted == []
    requires |syms| <= k < |rs| && rs[k].symbol == sym && ResultsDistinct(rs)
    requires forall j :: 0 <= j < |syms| ==> rs[j].symbol == syms[j].symbol
    requires Reachable(cfg, s)
    ensures Count(s.persisted, CountsFor(sym, Attempts)) == 0 && Count(s.persisted, CountsFor(sym, Misses)) == 0
  {
    StoredWithinPlan(cfg, s, sym);
    if s.persisted != [] {
      UnplannedSymbol(cfg, syms, rs, k);
    }
  }

  // ----- Sums over symbols are counts over everything -----

  function Of<T>(name: T -> string, sym: string, p: T -> bool): T -> bool
  {
    (x: T) => name(x) == sym && p(x)
  }

  function CountOf<T>(items: seq<T>, name: T -> string, p: T -> bool): SymbolResult -> nat
  {
    (r: SymbolResult) => Count(items, Of(name, r.symbol, p))
  }

  function Hit(sym: string): SymbolResult -> nat { (r: SymbolResult) => if r.symbol == sym then 1 else 0 }

  lemma {:induction false} OneHit(rs: seq<SymbolResult>, sym: string)
    requires ResultsDistinct(rs)
    ensures Sum(rs, Hit(sym)) == if Listed(rs, sym) then 1 else 0
  {
    if rs != [] {
      var n := |rs| - 1;
      OneHit(rs[..n], sym);
      assert rs == rs[..n] + [rs[n]];
      if Listed(rs[..n], sym) {
        var k :| 0 <= k < n && rs[..n][k].symbol == sym;
        assert rs[k].symbol == sym && rs[n].symbol != sym;
      }
    }
  }

  /** Distinct symbols that cover the items partition them. */
  lemma {:induction false} SumsToWhole<T>(rs: seq<SymbolResult>, items: seq<T>, name: T -> string, p: T -> bool)
    requires ResultsDistinct(rs)
    requires forall i :: 0 <= i < |items| ==> Listed(rs, name(items[i]))
    ensures Sum(rs, CountOf(items, name, p)) == Count(items, p)
  {
    if items == [] {
      SumZero(rs, CountOf(items, name, p));
    } else {
      var n := |items| - 1;
      var x := items[n];
      SumsToWhole(rs, items[..n], name, p);
      OneHit(rs, name(x));
      if p(x) {
        SumPlus(rs, CountOf(items[..n], name, p), Hit(name(x)), CountOf(items, name, p));
      } else {
        SumEqual(rs, CountOf(items[..n], name, p), CountOf(items, name, p));
      }
    }
  }

  function ContractSymbol(): Contract -> string { (c: Contract) => c.symbol }

  function SymbolOfRow(): Row -> string { (r: Row) => r.contract.symbol }

  function Always<T>(): T -> bool { (x: T) => true }

  function Field1(f: Field): Row -> bool { (r: Row) => Counts(r, f) }

  /** The totals over all symbols count every stored row. */
  lemma TotalsCountRows(rows: seq<Row>, rs: seq<SymbolResult>, total: ChainCoverage, f: Field)
    requires ResultsDistinct(rs) && Totals(rs, total) && !f.Misses?
    requires forall k :: 0 <= k < |rs| ==> Recomputed(rows, rs[k])
    requires forall i :: 0 <= i < |rows| ==> Listed(rs, rows[i].contract.symbol)
    ensures Get(total, f) == Count(rows, Field1(f))
  {
    SumsToWhole(rs, rows, SymbolOfRow(), Field1(f));
    forall k | 0 <= k < |rs|
      ensures FieldOf(f)(rs[k]) == CountOf(rows, SymbolOfRow(), Field1(f))(rs[k])
    {
      assert Recomputed(rows, rs[k]);
      CountSame(rows, CountsFor(rs[k].symbol, f), Of(SymbolOfRow(), rs[k].symbol, Field1(f)));
    }
    SumEqual(rs, FieldOf(f), CountOf(rows, SymbolOfRow(), Field1(f)));
  }

  /** A symbol read back without a record has no contract in the plan. */
  lemma UnplannedSymbol(cfg: Config, syms: seq<SymbolRecord>, rs: seq<SymbolResult>, k: nat)
    requires PlanComplete(cfg, syms) && ResultsDistinct(rs) && |syms| <= k < |rs|
    requires forall j :: 0 <= j < |syms| ==> rs[j].symbol == syms[j].symbol
    ensures Count(cfg.work, IsSymbol(rs[k].symbol)) == 0
  {
    CountBounds(cfg.work, IsSymbol(rs[k].symbol));
    forall i | 0 <= i < |cfg.work| ensures cfg.work[i].symbol != rs[k].symbol {
      var j :| 0 <= j < |syms| && syms[j].symbol == cfg.work[i].symbol;
      assert rs[j].symbol != rs[k].symbol;
    }
  }

  lemma PlannedTotal(cfg: Config, syms: seq<SymbolRecord>, rs: seq<SymbolResult>, rows: seq<Row>, total: ChainCoverage)
    requires PlanStored(cfg, syms) && PlanComplete(cfg, syms) && Filled(rows, syms, rs, total)
    ensures total.planned == |cfg.work|
  {
    forall i | 0 <= i < |cfg.work| ensures Listed(rs, cfg.work[i].symbol) {
      var k :| 0 <= k < |syms| && syms[k].symbol == cfg.work[i].symbol;
      assert rs[k].symbol == cfg.work[i].symbol;
    }
    SumsToWhole(rs, cfg.work, ContractSymbol(), Always<Contract>());
    CountBounds(cfg.work, Always<Contract>());
    forall k | 0 <= k < |rs|
      ensures PlannedOf()(rs[k]) == CountOf(cfg.work, ContractSymbol(), Always<Contract>())(rs[k])
    {
      CountSame(cfg.work, IsSymbol(rs[k].symbol), Of(ContractSymbol(), rs[k].symbol, Always<Contract>()));
      if k >= |syms| {
        UnplannedSymbol(cfg, syms, rs, k);
      }
    }
    SumEqual(rs, PlannedOf(), CountOf(cfg.work, ContractSymbol(), Always<Contract>()));
  }

  /** A run that closes with its store intact recomputes to exactly the outcome it reported. */
  lemma StoreAgreesWithOutcome(
      cfg: Config, s: State, syms: seq<SymbolRecord>, rs: seq<SymbolResult>, total: ChainCoverage, held: bool)
    requires Reachable(cfg, s) && s.closed && s.shared.stop != Some(StoreError)
    requires PlanStored(cfg, syms) && PlanComplete(cfg, syms) && Filled(s.persisted, syms, rs, total)
    ensures var out := Closing(s.shared, held);
            && total.planned == out.planned
            && total.attempted == out.attempted
            && total.quoted == out.quoted
            && total.notAttempted == s.shared.notAttempted
  {
    ClosedCounts(cfg, s);
    PlannedTotal(cfg, syms, rs, s.persisted, total);
    TotalsCountRows(s.persisted, rs, total, Attempts);
    TotalsCountRows(s.persisted, rs, total, Quotes);
    CoverageAtEveryCrash(cfg, s, syms, rs, total);
    assert total.attempted == Get(total, Attempts) && total.quoted == Get(total, Quotes);
  }

  /** In a closed run the live counters count the stored rows. */
  lemma ClosedCounts(cfg: Config, s: State)
    requires Reachable(cfg, s) && s.closed && s.shared.stop != Some(StoreError)
    ensures s.shared.attempted == Count(s.persisted, Field1(Attempts))
    ensures s.shared.quoted == Count(s.persisted, Field1(Quotes))
    ensures s.shared.planned == |cfg.work| == s.shared.attempted + s.shared.notAttempted
  {
    var start := ReachableInv(cfg, s);
    ExactlyOncePersistence(cfg, s);
    CountMap(s.log, (e: Entry) => e.row, Field1(Attempts), Tried);
    CountMap(s.log, (e: Entry) => e.row, Field1(Quotes), WasQuoted);
  }
}
