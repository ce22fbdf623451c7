/** The recorder's append-only tables and the paged reading of recorded rows. */
module Store {
  import opened Sequences
  import opened Contracts
  import opened Execution
  import opened Recorder
  import opened Coverage

  /** One line of the quotes table; its rowid is its position plus one. */
  datatype Stored = Stored(run: nat, row: Row)

  datatype StoredSymbol = StoredSymbol(run: nat, record: SymbolRecord)

  predicate SameKey(a: Stored, b: Stored) { a.run == b.run && KeyOf(a.row.contract) == KeyOf(b.row.contract) }

  /** UNIQUE (run_id, symbol, trading_class, expiry, strike, option_right). */
  predicate QuotesUnique(t: seq<Stored>)
  {
    forall i, j :: 0 <= i < j < |t| ==> !SameKey(t[i], t[j])
  }

  /** PRIMARY KEY (run_id, symbol). */
  predicate SymbolsUnique(t: seq<StoredSymbol>)
  {
    forall i, j :: 0 <= i < j < |t| ==> t[i].run != t[j].run || t[i].record.symbol != t[j].record.symbol
  }

  predicate Conflicts(t: seq<Stored>, x: Stored) { exists i :: 0 <= i < |t| && SameKey(t[i], x) }

  function Stamp(run: nat): Row -> Stored { (r: Row) => Stored(run, r) }

  class Store {
    var symbols: seq<StoredSymbol>
    var quotes: seq<Stored>
    var outcomes: map<nat, Outcome>

    predicate Valid()
      reads this
    {
      QuotesUnique(quotes) && SymbolsUnique(symbols)
    }

    constructor ()
      ensures Valid() && symbols == [] && quotes == [] && outcomes == map[]
    {
      symbols, quotes, outcomes := [], [], map[];
    }

    method RecordSymbol(run: nat, record: SymbolRecord, io: bool) returns (ok: bool)
      requires Valid()
      modifies this`symbols
      ensures Valid()
      ensures ok <==> io && SymbolsUnique(old(symbols) + [StoredSymbol(run, record)])
      ensures symbols == if ok then old(symbols) + [StoredSymbol(run, record)] else old(symbols)
    {
      var x := StoredSymbol(run, record);
      ok := io && forall i :: 0 <= i < |symbols| ==> symbols[i].run != run || symbols[i].record.symbol != record.symbol;
      if ok {
        symbols := symbols + [x];
      } else if io {
        ghost var i :| 0 <= i < |symbols| && symbols[i].run == run && symbols[i].record.symbol == record.symbol;
        assert (symbols + [x])[i] == symbols[i] && (symbols + [x])[|symbols|] == x;
      }
    }

    /** One transaction: every row of the batch or none. */
    method RecordRows(run: nat, rows: seq<Row>, io: bool) returns (ok: bool)
      requires Valid()
      modifies this`quotes
      ensures Valid()
      ensures ok <==> rows == [] || (io && QuotesUnique(old(quotes) + MapSeq(rows, Stamp(run))))
      ensures quotes == if ok then old(quotes) + MapSeq(rows, Stamp(run)) else old(quotes)
    {
      if rows == [] {
        return true;
      }
      ghost var whole := quotes + MapSeq(rows, Stamp(run));
      var staged := quotes;
      for i := 0 to |rows|
        invariant staged == quotes + MapSeq(rows, Stamp(run))[..i]
        invariant QuotesUnique(staged)
      {
        var x := Stored(run, rows[i]);
        if Conflicts(staged, x) {
          ghost var k :| 0 <= k < |staged| && SameKey(staged[k], x);
          assert whole[k] == staged[k] && whole[|staged|] == x;
          return false;
        }
        staged := staged + [x];
      }
      assert MapSeq(rows, Stamp(run))[..|rows|] == MapSeq(rows, Stamp(run));
      if !io {
        return false;
      }
      quotes := staged;
      ok := true;
    }

    method FinishRun(run: nat, out: Outcome, io: bool) returns (ok: bool)
      modifies this`outcomes
      ensures ok <==> io && run !in old(outcomes)
      ensures outcomes == if ok then old(outcomes)[run := out] else old(outcomes)
    {
      ok := io && run !in outcomes;
      if ok {
        outcomes := outcomes[run := out];
      }
    }
  }

  // ----- One run inside the shared table -----

  /** The rows of one run, in recording order. */
  function RowsOf(t: seq<Stored>, run: nat): seq<Row>
  {
    if t == [] then []
    else RowsOf(t[..|t| - 1], run) + (if t[|t| - 1].run == run then [t[|t| - 1].row] else [])
  }

  lemma RowsOfAppend(t: seq<Stored>, x: Stored, run: nat)
    ensures RowsOf(t + [x], run) == RowsOf(t, run) + (if x.run == run then [x.row] else [])
  {
    assert (t + [x])[..|t|] == t;
  }

  /** A batch stamped row by row. */
  lemma StampLast(t: seq<Stored>, run: nat, rows: seq<Row>)
    requires rows != []
    ensures var n := |rows| - 1;
            t + MapSeq(rows, Stamp(run)) == (t + MapSeq(rows[..n], Stamp(run))) + [Stored(run, rows[n])]
  {
  }

  lemma {:induction false} RowsOfConcat(t: seq<Stored>, run: nat, rows: seq<Row>)
    ensures RowsOf(t + MapSeq(rows, Stamp(run)), run) == RowsOf(t, run) + rows
  {
    if rows == [] {
      assert t + MapSeq(rows, Stamp(run)) == t;
    } else {
      var n := |rows| - 1;
      RowsOfConcat(t, run, rows[..n]);
      StampLast(t, run, rows);
      RowsOfAppend(t + MapSeq(rows[..n], Stamp(run)), Stored(run, rows[n]), run);
      assert RowsOf(t, run) + rows[..n] + [rows[n]] == RowsOf(t, run) + rows;
    }
  }

  /** Other runs' batches leave this run's rows alone. */
  lemma {:induction false} RowsOfOther(t: seq<Stored>, run: nat, other: nat, rows: seq<Row>)
    requires other != run
    ensures RowsOf(t + MapSeq(rows, Stamp(other)), run) == RowsOf(t, run)
  {
    if rows == [] {
      assert t + MapSeq(rows, Stamp(other)) == t;
    } else {
      var n := |rows| - 1;
      RowsOfOther(t, run, other, rows[..n]);
      StampLast(t, other, rows);
      RowsOfAppend(t + MapSeq(rows[..n], Stamp(other)), Stored(other, rows[n]), run);
    }
  }

  lemma {:induction false} RowsOfMembers(t: seq<Stored>, run: nat)
    ensures forall i :: 0 <= i < |t| && t[i].run == run ==> t[i].row in RowsOf(t, run)
    ensures forall r :: r in RowsOf(t, run) ==> Stored(run, r) in t
  {
    if t != [] {
      var n := |t| - 1;
      RowsOfMembers(t[..n], run);
      assert t == t[..n] + [t[n]];
      forall i | 0 <= i < |t| && t[i].run == run ensures t[i].row in RowsOf(t, run) {
        if i < n {
          assert t[..n][i] == t[i];
        }
      }
    }
  }

  /** The table constraint seen from one run is the run's own uniqueness. */
  lemma {:induction false} UniqueWithinRun(t: seq<Stored>, run: nat)
    requires QuotesUnique(t)
    ensures KeysUnique(RowsOf(t, run))
  {
    if t != [] {
      var n := |t| - 1;
      UniqueWithinRun(t[..n], run);
      RowsOfMembers(t[..n], run);
      if t[n].run == run {
        forall i | 0 <= i < |RowsOf(t[..n], run)|
          ensures KeyOf(RowsOf(t[..n], run)[i].contract) != KeyOf(t[n].row.contract)
        {
          assert Stored(run, RowsOf(t[..n], run)[i]) in t[..n];
        }
      }
    }
  }

  /** A batch of one run is kept exactly when the run's own rows stay unique: the condition the
      recorder's flush step uses. */
  lemma {:induction false} BatchKept(t: seq<Stored>, run: nat, rows: seq<Row>)
    requires QuotesUnique(t)
    ensures QuotesUnique(t + MapSeq(rows, Stamp(run))) <==> KeysUnique(RowsOf(t, run) + rows)
  {
    if QuotesUnique(t + MapSeq(rows, Stamp(run))) {
      RowsOfConcat(t, run, rows);
      UniqueWithinRun(t + MapSeq(rows, Stamp(run)), run);
    }
    if KeysUnique(RowsOf(t, run) + rows) {
      BatchFits(t, run, rows);
    }
  }

  lemma BatchFits(t: seq<Stored>, run: nat, rows: seq<Row>)
    requires QuotesUnique(t) && KeysUnique(RowsOf(t, run) + rows)
    ensures QuotesUnique(t + MapSeq(rows, Stamp(run)))
  {
    var u, held := t + MapSeq(rows, Stamp(run)), RowsOf(t, run);
    var whole := held + rows;
    RowsOfMembers(t, run);
    forall i, j | 0 <= i < j < |u| ensures !SameKey(u[i], u[j]) {
      if j >= |t| && u[i].run == run {
        assert whole[|held| + j - |t|] == u[j].row;
        if i >= |t| {
          assert whole[|held| + i - |t|] == u[i].row;
        } else {
          var k :| 0 <= k < |held| && held[k] == t[i].row;
          assert whole[k] == u[i].row;
        }
      }
    }
  }

  // ----- The recorder's flush through the store -----

  /** A flush done through the store is the recorder's flush step: the shared state and the run's
      stored rows end up where the step puts them. */
  method FlushThrough(ex: Execution, store: Store, run: nat, io: bool, ghost s: State)
    requires store.Valid() && ex.View() == s.shared && RowsOf(store.quotes, run) == s.persisted
    modifies ex, store`quotes
    ensures store.Valid()
    ensures ex.View() == FlushInto(s, io).shared && RowsOf(store.quotes, run) == FlushInto(s, io).persisted
    ensures forall other :: other != run ==> RowsOf(store.quotes, other) == RowsOf(old(store.quotes), other)
  {
    if ex.pending == [] || ex.stop == Some(StoreError) {
      return;
    }
    var batch := ex.pending;
    BatchKept(store.quotes, run, batch);
    RowsOfConcat(store.quotes, run, batch);
    forall other | other != run ensures RowsOf(store.quotes + MapSeq(batch, Stamp(run)), other) == RowsOf(store.quotes, other) {
      RowsOfOther(store.quotes, other, run, batch);
    }
    var ok := store.RecordRows(run, batch, io);
    assert ok == Stores(s, io);
    var written := ex.Flush(ok);
  }
}
