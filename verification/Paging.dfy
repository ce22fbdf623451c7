/** Cursor paging over the quotes table, and the export loop on top of it. */
module Paging {
  import opened Sequences
  import opened Store

  const ROWS_DEFAULT_LIMIT: nat := 2000
  const ROWS_MAX_LIMIT: nat := 10000

  type Table = seq<Stored>

  /** Rowids after a cursor whose rows match, ascending. */
  function Matching(t: Table, m: Stored -> bool, after: nat): (ids: seq<nat>)
    ensures forall i :: 0 <= i < |ids| ==> after < ids[i] <= |t| && m(t[ids[i] - 1])
  {
    if |t| <= after then []
    else Matching(t[..|t| - 1], m, after) + (if m(t[|t| - 1]) then [|t|] else [])
  }

  predicate Ascending(ids: seq<nat>) { forall i, j :: 0 <= i < j < |ids| ==> ids[i] < ids[j] }

  lemma {:induction false} MatchingAscends(t: Table, m: Stored -> bool, after: nat)
    ensures Ascending(Matching(t, m, after))
  {
    if |t| > after {
      MatchingAscends(t[..|t| - 1], m, after);
    }
  }

  /** No matching row after the cursor is missed. */
  lemma {:induction false} MatchingComplete(t: Table, m: Stored -> bool, after: nat, id: nat)
    requires after < id <= |t| && m(t[id - 1])
    ensures id in Matching(t, m, after)
  {
    if id < |t| {
      MatchingComplete(t[..|t| - 1], m, after, id);
    }
  }

  /** The rows behind rowids. */
  function Fetch(t: Table, ids: seq<nat>): (rows: seq<Stored>)
    requires forall i :: 0 <= i < |ids| ==> 0 < ids[i] <= |t|
    ensures |rows| == |ids|
    ensures forall i :: 0 <= i < |ids| ==> rows[i] == t[ids[i] - 1]
  {
    seq(|ids|, i requires 0 <= i < |ids| => t[ids[i] - 1])
  }

  lemma FetchConcat(t: Table, a: seq<nat>, b: seq<nat>)
    requires forall i :: 0 <= i < |a| ==> 0 < a[i] <= |t|
    requires forall i :: 0 <= i < |b| ==> 0 < b[i] <= |t|
    ensures Fetch(t, a + b) == Fetch(t, a) + Fetch(t, b)
  {
  }

  function Limit(limit: int): nat { if limit <= 0 then ROWS_DEFAULT_LIMIT else limit }

  /** out and next are what one request answers: the next limit matches, and a cursor exactly
      when more remain. */
  ghost predicate IsPage(t: Table, m: Stored -> bool, after: nat, limit: int, out: seq<Stored>, next: Option<nat>)
  {
    var ids := Matching(t, m, after);
    && out == Fetch(t, ids[..Min(|ids|, Limit(limit))])
    && (next.Some? <==> |ids| > Limit(limit))
    && (next.Some? ==> next.value == ids[Limit(limit) - 1])
  }

  /** One page: at most limit matching rows after the cursor; a next cursor exactly when more remain. */
  method Rows(t: Table, m: Stored -> bool, after: nat, limit: int) returns (out: seq<Stored>, next: Option<nat>)
    ensures IsPage(t, m, after, limit, out, next)
  {
    var max := Limit(limit);
    var ids := Matching(t, m, after);
    var fetched := Min(|ids|, max + 1);  // LIMIT max + 1
    out := [];
    var last, more, i := 0, false, 0;
    while i < fetched
      invariant 0 <= i <= fetched && i <= max && |out| == i
      invariant out == Fetch(t, ids[..i])
      invariant i > 0 ==> last == ids[i - 1]
      invariant !more
    {
      if |out| == max {
        more := true;
        break;
      }
      FetchNext(t, ids, i);
      out := out + [t[ids[i] - 1]];
      last := ids[i];
      i := i + 1;
    }
    assert i == Min(|ids|, max);
    next := if more then Some(last) else None;
  }

  lemma FetchNext(t: Table, ids: seq<nat>, i: nat)
    requires i < |ids| && forall k :: 0 <= k < |ids| ==> 0 < ids[k] <= |t|
    ensures Fetch(t, ids[..i + 1]) == Fetch(t, ids[..i]) + [t[ids[i] - 1]]
  {
  }

  /** Continuing after the k-th match leaves the matches after it. */
  lemma {:induction false} MatchingAfter(t: Table, m: Stored -> bool, after: nat, k: nat)
    requires k < |Matching(t, m, after)|
    ensures Matching(t, m, Matching(t, m, after)[k]) == Matching(t, m, after)[k + 1..]
  {
    var ids := Matching(t, m, after);
    var n := |t| - 1;
    var shorter := Matching(t[..n], m, after);
    if k < |shorter| {
      MatchingAfter(t[..n], m, after, k);
      assert ids[k] == shorter[k];
    }
  }

  /** Rows appended later match after all earlier ones. */
  lemma {:induction false} MatchingGrows(t: Table, u: Table, m: Stored -> bool, after: nat)
    requires t <= u
    ensures Matching(t, m, after) <= Matching(u, m, after)
    decreases |u|
  {
    if t == u || |u| <= after {
      assert |t| <= |u|;
      if |u| <= after {
        assert |t| <= after;
      }
    } else {
      assert t <= u[..|u| - 1];
      MatchingGrows(t, u[..|u| - 1], m, after);
    }
  }

  /** The full scan the export stands for. */
  function Scan(t: Table, m: Stored -> bool): seq<Stored> { Fetch(t, Matching(t, m, 0)) }

  /** A scan of a longer table continues the scan of a shorter one. */
  lemma ScanGrows(t: Table, u: Table, m: Stored -> bool)
    requires t <= u
    ensures Scan(t, m) <= Scan(u, m)
  {
    MatchingGrows(t, u, m, 0);
    forall i | 0 <= i < |Matching(t, m, 0)| ensures Scan(t, m)[i] == Scan(u, m)[i] {
      assert t[Matching(t, m, 0)[i] - 1] == u[Matching(t, m, 0)[i] - 1];
    }
  }

  /** Where the first d matches leave the cursor. */
  function CursorAt(t: Table, m: Stored -> bool, d: nat): nat
    requires d <= |Matching(t, m, 0)|
  {
    if d == 0 then 0 else Matching(t, m, 0)[d - 1]
  }

  /** A page read at the cursor holds the next matches of the scan. */
  lemma NextPage(t: Table, m: Stored -> bool, d: nat)
    requires d <= |Matching(t, m, 0)|
    ensures Matching(t, m, CursorAt(t, m, d)) == Matching(t, m, 0)[d..]
  {
    if d > 0 {
      MatchingAfter(t, m, 0, d - 1);
    }
  }

  /** The export stands after the first d matches and has emitted exactly those. */
  ghost predicate Emitted(t: Table, m: Stored -> bool, d: nat, out: seq<Stored>, after: nat)
  {
    && d <= |Matching(t, m, 0)|
    && after == CursorAt(t, m, d)
    && out == Fetch(t, Matching(t, m, 0)[..d])
  }

  function PageEnd(t: Table, m: Stored -> bool, d: nat, limit: int): nat
  {
    Min(|Matching(t, m, 0)|, d + Limit(limit))
  }

  /** A page advances the export; the last page completes it. */
  lemma PageAdvances(t: Table, m: Stored -> bool, d: nat, out: seq<Stored>, after: nat, limit: int,
                     page: seq<Stored>, next: Option<nat>)
    requires Emitted(t, m, d, out, after) && IsPage(t, m, after, limit, page, next)
    ensures next.None? ==> out + page == Scan(t, m)
    ensures next.Some? ==> Emitted(t, m, PageEnd(t, m, d, limit), out + page, next.value)
    ensures next.Some? ==> d < PageEnd(t, m, d, limit)
  {
    var all, e := Matching(t, m, 0), PageEnd(t, m, d, limit);
    NextPage(t, m, d);
    PageGlues(t, all, d, e);
    var rest := all[d..];
    assert Min(|rest|, Limit(limit)) == e - d;
    if next.None? {
      assert e == |all| && all[..e] == all;
    } else {
      LastOfPage(all, d, Limit(limit));
    }
  }

  lemma LastOfPage(all: seq<nat>, d: nat, n: nat)
    requires 0 < n && d + n <= |all|
    ensures all[d..][n - 1] == all[d + n - 1]
  {
  }

  lemma PageGlues(t: Table, all: seq<nat>, d: nat, e: nat)
    requires d <= e <= |all| && forall i :: 0 <= i < |all| ==> 0 < all[i] <= |t|
    ensures Fetch(t, all[..d]) + Fetch(t, all[d..][..e - d]) == Fetch(t, all[..e])
  {
    assert all[d..][..e - d] == all[d..e];
    assert all[..e] == all[..d] + all[d..e];
    FetchConcat(t, all[..d], all[d..e]);
  }

  /** Paging a table nobody writes to any more ends and yields the full scan. */
  method ExportRun(t: Table, m: Stored -> bool, limit: int) returns (out: seq<Stored>)
    ensures out == Scan(t, m)
  {
    out := [];
    var after := 0;
    ghost var d := 0;
    while true
      invariant Emitted(t, m, d, out, after)
      decreases |Matching(t, m, 0)| - d
    {
      var page, next := Rows(t, m, after, limit);
      PageAdvances(t, m, d, out, after, limit, page, next);
      out := out + page;
      if next.None? {
        break;
      }
      after := next.value;
      d := PageEnd(t, m, d, limit);
    }
  }

  /** Each page may see a table that grew since the last one. */
  ghost predicate Growing(snaps: seq<Table>)
  {
    forall i :: 0 <= i < |snaps| - 1 ==> snaps[i] <= snaps[i + 1]
  }

  /** Paging while rows are appended: page i reads snaps[i]. What has been emitted is always a
      prefix of the scan of the last table read, and all of it once the loop ends: nothing twice,
      nothing skipped, recording order kept. */
  method ExportWhileRecording(snaps: seq<Table>, m: Stored -> bool, limit: int)
    returns (out: seq<Stored>, done: bool, pages: nat)
    requires |snaps| > 0 && Growing(snaps)
    ensures 0 < pages <= |snaps|
    ensures done ==> out == Scan(snaps[pages - 1], m)
    ensures !done ==> pages == |snaps| && out <= Scan(snaps[pages - 1], m)
    ensures snaps[0] <= snaps[pages - 1]
  {
    out, done, pages := [], false, 0;
    var after := 0;
    ghost var d := 0;
    while pages < |snaps|
      invariant 0 <= pages <= |snaps|
      invariant pages == 0 ==> d == 0 && after == 0 && out == []
      invariant pages > 0 ==> Emitted(snaps[pages - 1], m, d, out, after) && snaps[0] <= snaps[pages - 1]
    {
      var t := snaps[pages];
      if pages > 0 {
        CarryOver(snaps[pages - 1], t, m, d, out, after);
      }
      var page, next := Rows(t, m, after, limit);
      PageAdvances(t, m, d, out, after, limit, page, next);
      out := out + page;
      pages := pages + 1;
      if next.None? {
        done := true;
        return;
      }
      after := next.value;
      d := PageEnd(t, m, d, limit);
    }
    EmittedPrefix(snaps[pages - 1], m, d, out, after);
  }

  lemma EmittedPrefix(t: Table, m: Stored -> bool, d: nat, out: seq<Stored>, after: nat)
    requires Emitted(t, m, d, out, after)
    ensures out <= Scan(t, m)
  {
  }

  /** Progress made on a table is progress on any longer one. */
  lemma CarryOver(t: Table, u: Table, m: Stored -> bool, d: nat, out: seq<Stored>, after: nat)
    requires t <= u && Emitted(t, m, d, out, after)
    ensures Emitted(u, m, d, out, after)
  {
    MatchingGrows(t, u, m, 0);
    assert Matching(t, m, 0)[..d] == Matching(u, m, 0)[..d];
  }

  function OfRun(run: nat, symbol: string): Stored -> bool
  {
    (x: Stored) => x.run == run && (symbol == "" || x.row.contract.symbol == symbol)
  }

  /** The scans of several runs, one after the other. */
  function Scans(t: Table, runs: seq<nat>, symbol: string): seq<Stored>
  {
    if runs == [] then [] else Scans(t, runs[..|runs| - 1], symbol) + Scan(t, OfRun(runs[|runs| - 1], symbol))
  }

  function Reversed<T>(s: seq<T>): (r: seq<T>)
    ensures |r| == |s| && forall i :: 0 <= i < |s| ==> r[i] == s[|s| - 1 - i]
  {
    seq(|s|, i requires 0 <= i < |s| => s[|s| - 1 - i])
  }

  /** Runs are listed newest first and exported oldest first. */
  method ExportChainRows(t: Table, newestFirst: seq<nat>, symbol: string) returns (out: seq<Stored>)
    ensures out == Scans(t, Reversed(newestFirst), symbol)
  {
    out := [];
    ghost var order := Reversed(newestFirst);
    var i := |newestFirst|;
    while i > 0
      invariant 0 <= i <= |newestFirst|
      invariant out == Scans(t, order[..|newestFirst| - i], symbol)
    {
      i := i - 1;
      var rows := ExportRun(t, OfRun(newestFirst[i], symbol), ROWS_MAX_LIMIT);
      assert order[..|newestFirst| - i][..|newestFirst| - i - 1] == order[..|newestFirst| - i - 1];
      out := out + rows;
    }
    assert order[..|newestFirst|] == order;
  }

  /** Row i of the table is emitted as the k-th row of the scan. */
  predicate EmittedAs(t: Table, m: Stored -> bool, i: nat, k: nat)
  {
    var ids := Matching(t, m, 0);
    k < |ids| && ids[k] == i + 1
  }

  /** A scan emits exactly the matching rows of the table. */
  lemma ScanIsExact(t: Table, m: Stored -> bool, i: nat)
    requires i < |t|
    ensures m(t[i]) <==> exists k: nat :: EmittedAs(t, m, i, k)
    ensures forall k: nat :: EmittedAs(t, m, i, k) ==> Scan(t, m)[k] == t[i]
  {
    if m(t[i]) {
      MatchingComplete(t, m, 0, i + 1);
      var ids := Matching(t, m, 0);
      var k :| 0 <= k < |ids| && ids[k] == i + 1;
      assert EmittedAs(t, m, i, k);
    }
  }

  /** Each once, and in recording order. */
  lemma ScanInOrder(t: Table, m: Stored -> bool, i: nat, j: nat, k: nat, l: nat)
    requires EmittedAs(t, m, i, k) && EmittedAs(t, m, j, l)
    ensures i < j <==> k < l
    ensures i == j <==> k == l
  {
    MatchingAscends(t, m, 0);
  }

  lemma {:induction false} ScanMember(t: Table, m: Stored -> bool, x: Stored)
    ensures x in Scan(t, m) <==> x in t && m(x)
  {
    if x in Scan(t, m) {
      var k :| 0 <= k < |Scan(t, m)| && Scan(t, m)[k] == x;
      assert m(t[Matching(t, m, 0)[k] - 1]);
    }
    if x in t && m(x) {
      var i :| 0 <= i < |t| && t[i] == x;
      ScanIsExact(t, m, i);
      var k: nat :| EmittedAs(t, m, i, k);
      assert Scan(t, m)[k] == x;
    }
  }

  /** The export of some runs holds exactly the rows of those runs, of the symbol asked for if one is. */
  lemma {:induction false} ExportIsExact(t: Table, runs: seq<nat>, symbol: string, x: Stored)
    ensures x in Scans(t, runs, symbol) <==>
            x in t && x.run in runs && (symbol == "" || x.row.contract.symbol == symbol)
  {
    if runs != [] {
      var n := |runs| - 1;
      ExportIsExact(t, runs[..n], symbol, x);
      ScanMember(t, OfRun(runs[n], symbol), x);
      assert runs == runs[..n] + [runs[n]];
    }
  }

  /** Runs are exported one after the other, in the order given. */
  lemma {:induction false} ExportInOrder(t: Table, a: seq<nat>, run: nat, b: seq<nat>, symbol: string)
    ensures Scans(t, a + [run] + b, symbol) == Scans(t, a, symbol) + Scan(t, OfRun(run, symbol)) + Scans(t, b, symbol)
  {
    var all := a + [run] + b;
    if b == [] {
      assert all == a + [run] && all[..|all| - 1] == a;
    } else {
      var n := |b| - 1;
      ExportInOrder(t, a, run, b[..n], symbol);
      assert all[..|all| - 1] == a + [run] + b[..n] && all[|all| - 1] == b[n];
      JoinAssociates(Scans(t, a, symbol) + Scan(t, OfRun(run, symbol)), Scans(t, b[..n], symbol), Scan(t, OfRun(b[n], symbol)));
    }
  }

  /** A page holds as many rows as asked for, 2000 when nothing was asked, or all that are left. */
  lemma PageSize(t: Table, m: Stored -> bool, after: nat, limit: int, out: seq<Stored>, next: Option<nat>)
    requires IsPage(t, m, after, limit, out, next)
    ensures |out| == Min(|Matching(t, m, after)|, if limit <= 0 then 2000 else limit)
  {
  }
}
