/** Which strikes of an expiry are recorded, and their rank by distance from the money. */
module Strikes {
  import opened Sequences
  import opened Sorting

  /** A listed strike as the wire carries it. */
  datatype Listing = Finite(value: real) | NotFinite

  const TICKS: real := 10000.0

  /** The nearest multiple of 0.0001, halves up. */
  function RoundTick(k: real): real
    requires k > 0.0
  {
    (k * TICKS + 0.5).Floor as real / TICKS
  }

  predicate Usable(l: Listing) { l.Finite? && l.value > 0.0 }

  function Rounded(ls: seq<Listing>): seq<real>
  {
    if ls == [] then []
    else
      var l := ls[|ls| - 1];
      Rounded(ls[..|ls| - 1]) + (if Usable(l) then [RoundTick(l.value)] else [])
  }

  /** Adjacent duplicates removed. */
  function Compact(s: seq<real>): seq<real>
  {
    if s == [] then []
    else if |s| > 1 && s[|s| - 2] == s[|s| - 1] then Compact(s[..|s| - 1])
    else Compact(s[..|s| - 1]) + [s[|s| - 1]]
  }

  function Normalized(ls: seq<Listing>): seq<real> { Compact(SortBy(Identity(), Rounded(ls))) }

  method NormalizeStrikes(ls: seq<Listing>) returns (out: seq<real>)
    ensures out == Normalized(ls)
  {
    var kept := [];
    for i := 0 to |ls|
      invariant kept == Rounded(ls[..i])
    {
      assert ls[..i + 1][..i] == ls[..i];
      if ls[i].Finite? && ls[i].value > 0.0 {
        kept := kept + [RoundTick(ls[i].value)];
      }
    }
    assert ls[..|ls|] == ls;
    var sorted := SortBy(Identity(), kept);
    out := [];
    for i := 0 to |sorted|
      invariant out == Compact(sorted[..i])
    {
      assert sorted[..i + 1][..i] == sorted[..i];
      if i == 0 || sorted[i - 1] != sorted[i] {
        out := out + [sorted[i]];
      }
    }
    assert sorted[..|sorted|] == sorted;
  }

  lemma {:induction false} CompactAscends(s: seq<real>)
    requires SortedBy(Identity(), s)
    ensures StrictlyAscending(Compact(s))
    ensures forall x :: x in Compact(s) <==> x in s
    ensures s != [] ==> Compact(s) != [] && Compact(s)[|Compact(s)| - 1] == s[|s| - 1]
  {
    if s != [] {
      var n := |s| - 1;
      CompactAscends(s[..n]);
      assert s == s[..n] + [s[n]];
      if n > 0 {
        assert s[n - 1] == s[..n][n - 1];
        assert s[n - 1] <= s[n] by { assert Identity()(s[n - 1]) <= Identity()(s[n]); }
      }
    }
  }

  lemma {:induction false} RoundedMembers(ls: seq<Listing>, x: real)
    ensures x in Rounded(ls) <==> exists i :: 0 <= i < |ls| && Usable(ls[i]) && RoundTick(ls[i].value) == x
  {
    if ls != [] {
      var n := |ls| - 1;
      RoundedMembers(ls[..n], x);
      assert ls == ls[..n] + [ls[n]];
      if x in Rounded(ls[..n]) {
        var i :| 0 <= i < |ls[..n]| && Usable(ls[..n][i]) && RoundTick(ls[..n][i].value) == x;
        assert ls[i] == ls[..n][i];
      }
      if i :| 0 <= i < |ls| && Usable(ls[i]) && RoundTick(ls[i].value) == x {
        if i < n {
          assert ls[..n][i] == ls[i];
        }
      }
    }
  }

  /** Normalizing yields each usable rounded strike once, ascending. */
  lemma NormalizedIsSet(ls: seq<Listing>)
    ensures StrictlyAscending(Normalized(ls))
    ensures forall x :: x in Normalized(ls) <==> exists i :: 0 <= i < |ls| && Usable(ls[i]) && RoundTick(ls[i].value) == x
  {
    SortByContent(Identity(), Rounded(ls));
    SortByMembers(Identity(), Rounded(ls));
    CompactAscends(SortBy(Identity(), Rounded(ls)));
    forall x
      ensures x in Normalized(ls) <==> exists i :: 0 <= i < |ls| && Usable(ls[i]) && RoundTick(ls[i].value) == x
    {
      RoundedMembers(ls, x);
    }
  }

  lemma NormalizedAscends(ls: seq<Listing>)
    ensures StrictlyAscending(Normalized(ls))
  {
    NormalizedIsSet(ls);
  }

  // ----- The window -----

  function Within(spot: real, pct: real): real -> bool
  {
    (k: real) => spot * (1.0 - pct) <= k <= spot * (1.0 + pct)
  }

  function Filter(s: seq<real>, p: real -> bool): seq<real>
  {
    if s == [] then []
    else Filter(s[..|s| - 1], p) + (if p(s[|s| - 1]) then [s[|s| - 1]] else [])
  }

  lemma {:induction false} FilterMembers(s: seq<real>, p: real -> bool)
    ensures forall x :: x in Filter(s, p) <==> x in s && p(x)
  {
    if s != [] {
      var n := |s| - 1;
      FilterMembers(s[..n], p);
      assert s == s[..n] + [s[n]];
    }
  }

  lemma {:induction false} FilterCount(s: seq<real>, p: real -> bool)
    ensures |Filter(s, p)| == Count(s, p)
  {
    if s != [] {
      FilterCount(s[..|s| - 1], p);
    }
  }

  lemma {:induction false} FilterAscends(s: seq<real>, p: real -> bool)
    requires StrictlyAscending(s)
    ensures StrictlyAscending(Filter(s, p))
  {
    if s != [] {
      var n := |s| - 1;
      FilterAscends(s[..n], p);
      FilterMembers(s[..n], p);
      var f := Filter(s[..n], p);
      forall i | 0 <= i < |f| ensures f[i] < s[n] {
        assert f[i] in f;
        assert f[i] in s[..n];
      }
    }
  }

  method Keep(s: seq<real>, p: real -> bool) returns (r: seq<real>)
    ensures r == Filter(s, p)
  {
    r := [];
    for i := 0 to |s|
      invariant r == Filter(s[..i], p)
    {
      assert s[..i + 1][..i] == s[..i];
      if p(s[i]) {
        r := r + [s[i]];
      }
    }
    assert s[..|s|] == s;
  }

  /** The normalized strikes within the window around spot. */
  function Window(ls: seq<Listing>, spot: real, pct: real): seq<real> { Filter(Normalized(ls), Within(spot, pct)) }

  function Distance(spot: real): real -> real { (k: real) => if k >= spot then k - spot else spot - k }

  // ----- The core -----

  /** The n strikes nearest the money, nearest first. */
  function Core(window: seq<real>, spot: real, n: nat): seq<real>
    requires n <= |window|
  {
    SortByContent(Distance(spot), window);
    SortBy(Distance(spot), window)[..n]
  }

  function NotIn(core: seq<real>): real -> bool { (k: real) => k !in core }

  function Rest(window: seq<real>, core: seq<real>): seq<real> { Filter(window, NotIn(core)) }

  lemma AscendingDistinct(s: seq<real>)
    requires StrictlyAscending(s)
    ensures Distinct(s)
  {
  }

  lemma CoreMembers(window: seq<real>, spot: real, n: nat)
    requires StrictlyAscending(window) && n <= |window|
    ensures var core := Core(window, spot, n);
            |core| == n && Distinct(core) && forall x :: x in core ==> x in window
  {
    var sorted := SortBy(Distance(spot), window);
    SortByContent(Distance(spot), window);
    SortByMembers(Distance(spot), window);
    AscendingDistinct(window);
    DistinctPermutation(window, sorted);
    forall x | x in Core(window, spot, n) ensures x in window {
      assert x in sorted;
    }
  }

  /** The rest is what the core leaves of the window. */
  lemma RestMembers(window: seq<real>, spot: real, n: nat)
    requires StrictlyAscending(window) && n <= |window|
    ensures var core, rest := Core(window, spot, n), Rest(window, Core(window, spot, n));
            && |rest| == |window| - n && StrictlyAscending(rest)
            && (forall x :: x in rest <==> x in window && x !in core)
  {
    var d, sorted, core := Distance(spot), SortBy(Distance(spot), window), Core(window, spot, n);
    SortByContent(d, window);
    AscendingDistinct(window);
    DistinctPermutation(window, sorted);
    FilterMembers(window, NotIn(core));
    FilterCount(window, NotIn(core));
    FilterAscends(window, NotIn(core));
    CountPermutation(window, sorted, NotIn(core));
    SplitCount(sorted, n);
  }

  lemma SplitCount(sorted: seq<real>, n: nat)
    requires Distinct(sorted) && n <= |sorted|
    ensures Count(sorted, NotIn(sorted[..n])) == |sorted| - n
  {
    var core, tail := sorted[..n], sorted[n..];
    assert sorted == core + tail;
    CountConcat(core, tail, NotIn(core));
    forall i | 0 <= i < |core| ensures !NotIn(core)(core[i]) {
      assert core[i] in core;
    }
    CountNone(core, NotIn(core));
    TailApart(sorted, n);
    CountAll(tail, NotIn(core));
  }

  lemma TailApart(sorted: seq<real>, n: nat)
    requires Distinct(sorted) && n <= |sorted|
    ensures forall i :: 0 <= i < |sorted[n..]| ==> NotIn(sorted[..n])(sorted[n..][i])
  {
    var core := sorted[..n];
    forall i | n <= i < |sorted| ensures sorted[i] !in core {
      forall k | 0 <= k < n ensures core[k] != sorted[i] {
        assert core[k] == sorted[k];
      }
    }
  }

  /** Every core strike is nearer the money than every strike outside the core; on a tie, lower. */
  lemma CoreNearest(window: seq<real>, spot: real, n: nat, c: real, x: real)
    requires StrictlyAscending(window) && n <= |window|
    requires c in Core(window, spot, n) && x in window && x !in Core(window, spot, n)
    ensures Before(Distance(spot), c, x)
  {
    var d, sorted := Distance(spot), SortBy(Distance(spot), window);
    SortByMembers(d, window);
    SortByContent(d, window);
    SortByOrdered(d, window);
    var i :| 0 <= i < n && sorted[i] == c;
    assert x in sorted;
    var j :| 0 <= j < |sorted| && sorted[j] == x;
    assert j >= n;
  }

  // ----- The wings -----

  function Product(a: nat, b: nat): nat { a * b }

  function Quotient(a: nat, d: nat): nat
    requires d > 0
  {
    a / d
  }

  /** Index into the rest of the i-th of w wing strikes. */
  function WingIndex(i: nat, n: nat, w: nat): nat
    requires i < w && n > 0
  {
    if w > 1 then Quotient(Product(i, n - 1) + (w - 1) / 2, w - 1) else n / 2
  }

  lemma DivBounds(a: nat, d: nat)
    requires d > 0
    ensures a / d * d <= a < (a / d + 1) * d
  {
    assert a == d * (a / d) + a % d;
  }

  lemma MulLess(a: int, b: int, d: int)
    requires d > 0 && a * d < b * d
    ensures a < b
  {
  }

  /** Numbers at least d apart have different quotients by d. */
  lemma QuotientGap(x: nat, y: nat, d: nat)
    requires d > 0 && x + d <= y
    ensures Quotient(x, d) < Quotient(y, d)
  {
    DivBounds(x, d);
    DivBounds(y, d);
    assert (x / d + 1) * d == x / d * d + d;
    MulLess(x / d + 1, y / d + 1, d);
  }

  lemma MulGap(i: nat, j: nat, m: nat)
    requires i < j
    ensures Product(i, m) + m <= Product(j, m)
  {
    assert (j - i - 1) * m >= 0;
    assert j * m == (j - i - 1) * m + i * m + m;
  }

  /** Each wing index is the nearest whole number to an even spacing. */
  lemma WingEven(i: nat, n: nat, w: nat)
    requires i < w && w > 1 && n > 0
    ensures var e := WingIndex(i, n, w) * (w - 1) - i * (n - 1);
            -(w - 1) <= 2 * e <= w - 1
  {
    DivBounds(i * (n - 1) + (w - 1) / 2, w - 1);
    var q := WingIndex(i, n, w);
    assert (q + 1) * (w - 1) == q * (w - 1) + (w - 1);
  }

  lemma WingEnds(n: nat, w: nat)
    requires w > 1 && n > 0
    ensures WingIndex(0, n, w) == 0 && WingIndex(w - 1, n, w) == n - 1
  {
    var d := w - 1;
    DivBounds(d / 2, d);
    var q := WingIndex(0, n, w);
    assert 0 * (n - 1) == 0;
    MulLess(q, 1, d);
    var r := WingIndex(w - 1, n, w);
    DivBounds(d * (n - 1) + d / 2, d);
    assert (r + 1) * d == r * d + d;
    assert n * d == (n - 1) * d + d;
    MulLess(r, n, d);
    MulLess(n - 2, r, d) by { assert (n - 2) * d == (n - 1) * d - d; }
  }

  lemma WingIncreases(i: nat, j: nat, n: nat, w: nat)
    requires i < j < w <= n
    ensures WingIndex(i, n, w) < WingIndex(j, n, w)
  {
    MulGap(i, j, n - 1);
    QuotientGap(Product(i, n - 1) + (w - 1) / 2, Product(j, n - 1) + (w - 1) / 2, w - 1);
  }

  lemma WingInRange(i: nat, n: nat, w: nat)
    requires i < w <= n
    ensures WingIndex(i, n, w) < n
  {
    if w > 1 {
      WingEnds(n, w);
      if i < w - 1 {
        WingIncreases(i, w - 1, n, w);
      }
    }
  }

  /** The wing strikes taken so far. */
  function Wings(rest: seq<real>, w: nat, upTo: nat): seq<real>
    requires upTo <= w <= |rest|
  {
    if upTo == 0 then []
    else
      WingInRange(upTo - 1, |rest|, w);
      Wings(rest, w, upTo - 1) + [rest[WingIndex(upTo - 1, |rest|, w)]]
  }

  lemma {:induction false} WingsAt(rest: seq<real>, w: nat, upTo: nat)
    requires upTo <= w <= |rest|
    ensures |Wings(rest, w, upTo)| == upTo
    ensures forall k :: 0 <= k < upTo ==> WingIndex(k, |rest|, w) < |rest| && Wings(rest, w, upTo)[k] == rest[WingIndex(k, |rest|, w)]
  {
    if upTo > 0 {
      WingsAt(rest, w, upTo - 1);
      WingInRange(upTo - 1, |rest|, w);
    }
  }

  lemma WingsProps(rest: seq<real>, w: nat)
    requires StrictlyAscending(rest) && w <= |rest|
    ensures |Wings(rest, w, w)| == w && StrictlyAscending(Wings(rest, w, w))
    ensures forall x :: x in Wings(rest, w, w) ==> x in rest
  {
    WingsAt(rest, w, w);
    var wings := Wings(rest, w, w);
    forall i, j | 0 <= i < j < |wings| ensures wings[i] < wings[j] {
      WingIncreases(i, j, |rest|, w);
    }
  }

  // ----- The selection -----

  function CoreCount(maxCount: nat): nat { (maxCount + 1) / 2 }

  /** The nearest half and the wings of an overfull window. */
  function Panel(window: seq<real>, spot: real, maxCount: nat): seq<real>
    requires StrictlyAscending(window) && maxCount < |window|
  {
    var core := Core(window, spot, CoreCount(maxCount));
    CoreMembers(window, spot, CoreCount(maxCount));
    RestMembers(window, spot, CoreCount(maxCount));
    var rest := Rest(window, core);
    SortBy(Identity(), core + Wings(rest, maxCount - |core|, maxCount - |core|))
  }

  /** The selection has exactly maxCount strikes of the window, ascending, and keeps the core. */
  lemma PanelContent(window: seq<real>, spot: real, maxCount: nat)
    requires StrictlyAscending(window) && maxCount < |window|
    ensures var out, core := Panel(window, spot, maxCount), Core(window, spot, CoreCount(maxCount));
            var rest := Rest(window, core);
            && |core| == CoreCount(maxCount) && maxCount - |core| <= |rest|
            && |out| == maxCount && StrictlyAscending(out)
            && (forall x :: x in out <==> x in core || x in Wings(rest, maxCount - |core|, maxCount - |core|))
  {
    var c := CoreCount(maxCount);
    var core := Core(window, spot, c);
    CoreMembers(window, spot, c);
    RestMembers(window, spot, c);
    var rest, w := Rest(window, core), maxCount - c;
    WingsProps(rest, w);
    var wings := Wings(rest, w, w);
    JoinDistinct(core, wings, rest);
    SortDistinct(core + wings);
    SortByContent(Identity(), core + wings);
    SortByMembers(Identity(), core + wings);
  }

  /** Strikes with at least h strikes of the window before them. */
  function Far(window: seq<real>, spot: real, h: nat): real -> bool
  {
    (x: real) => Count(window, BeforeStrike(spot, x)) >= h
  }

  /** The selection of an overfull window: of the half nearest the money every strike; of the
      others, in order, as many as are left, the i-th of w wings at the index that rounds the even
      spacing i * (n - 1) / (w - 1) to the nearest whole number, a single one in the middle. */
  ghost predicate HalfAndWings(window: seq<real>, spot: real, maxCount: nat, out: seq<real>)
  {
    var h := (maxCount + 1) / 2;
    var far := Far(window, spot, h);
    var others, wings := Filter(window, far), Filter(out, far);
    var n, w := |others|, maxCount - h;
    && (forall x :: x in window && Count(window, BeforeStrike(spot, x)) < h ==> x in out)
    && w <= n && |wings| == w
    && (w == 1 ==> wings[0] == others[n / 2])
    && (w > 1 ==> forall i :: 0 <= i < w ==> EvenlyAt(others, wings[i], i, w))
  }

  /** x is the element of s at the rounded i-th of w even steps. */
  ghost predicate EvenlyAt(s: seq<real>, x: real, i: nat, w: nat)
    requires w > 1
  {
    exists k :: 0 <= k < |s| && s[k] == x && IsStep(k, i, |s|, w)
  }

  predicate IsStep(k: int, i: int, n: int, w: int)
  {
    k * (w - 1) <= i * (n - 1) + (w - 1) / 2 < (k + 1) * (w - 1)
  }

  lemma WingIsStep(i: nat, n: nat, w: nat)
    requires i < w && w > 1 && n > 0
    ensures IsStep(WingIndex(i, n, w), i, n, w)
  {
    DivBounds(i * (n - 1) + (w - 1) / 2, w - 1);
  }

  lemma AmongFirst(sorted: seq<real>, n: nat, j: nat)
    requires Distinct(sorted) && n <= |sorted| && j < |sorted|
    ensures sorted[j] in sorted[..n] <==> j < n
  {
    if j < n {
      assert sorted[..n][j] == sorted[j];
    }
  }

  /** The rank of a strike is its place in the distance sort. */
  lemma PlaceIsCount(window: seq<real>, spot: real, x: real) returns (j: nat)
    requires StrictlyAscending(window) && x in window
    ensures var sorted := SortBy(Distance(spot), window);
            j < |sorted| == |window| && sorted[j] == x && j == Count(window, BeforeStrike(spot, x)) && Distinct(sorted)
  {
    var sorted := SortBy(Distance(spot), window);
    SortByContent(Distance(spot), window);
    SortByMembers(Distance(spot), window);
    SortByOrdered(Distance(spot), window);
    OrderedDistinct(sorted, spot);
    assert x in sorted;
    j :| 0 <= j < |sorted| && sorted[j] == x;
    CountPermutation(window, sorted, BeforeStrike(spot, x));
    CountBefore(sorted, spot, j);
  }

  /** The core is the strikes with fewer than n before them. */
  lemma CoreIsNear(window: seq<real>, spot: real, n: nat, x: real)
    requires StrictlyAscending(window) && n <= |window| && x in window
    ensures x in Core(window, spot, n) <==> Count(window, BeforeStrike(spot, x)) < n
  {
    var j := PlaceIsCount(window, spot, x);
    AmongFirst(SortBy(Distance(spot), window), n, j);
  }

  lemma {:induction false} FilterSame(s: seq<real>, p: real -> bool, q: real -> bool)
    requires forall i :: 0 <= i < |s| ==> p(s[i]) == q(s[i])
    ensures Filter(s, p) == Filter(s, q)
  {
    if s != [] {
      FilterSame(s[..|s| - 1], p, q);
    }
  }

  /** Ascending lists of the same strikes are the same list. */
  lemma {:induction false} AscendingUnique(a: seq<real>, b: seq<real>)
    requires StrictlyAscending(a) && StrictlyAscending(b) && forall x :: x in a <==> x in b
    ensures a == b
    decreases |a|
  {
    if b != [] {
      assert b[0] in b;
      assert b[0] in a;
    }
    if a != [] {
      assert a[0] in a;
      assert a[0] in b;
      LastStrike(a, b);
      var p, q := a[..|a| - 1], b[..|b| - 1];
      forall x ensures x in p <==> x in q {
        StrikeApart(a, x);
        StrikeApart(b, x);
      }
      AscendingUnique(p, q);
      assert a == p + [a[|a| - 1]] && b == q + [b[|b| - 1]];
    }
  }

  lemma LastStrike(a: seq<real>, b: seq<real>)
    requires StrictlyAscending(a) && StrictlyAscending(b) && a != [] && b != [] && forall x :: x in a <==> x in b
    ensures a[|a| - 1] == b[|b| - 1]
  {
    var x, y := a[|a| - 1], b[|b| - 1];
    assert x in a && x in b;
    assert y in b && y in a;
  }

  lemma StrikeApart(a: seq<real>, x: real)
    requires StrictlyAscending(a) && a != []
    ensures x in a[..|a| - 1] <==> x in a && x != a[|a| - 1]
  {
    assert a == a[..|a| - 1] + [a[|a| - 1]];
  }

  lemma CoreNotFar(window: seq<real>, spot: real, h: nat, core: seq<real>)
    requires StrictlyAscending(window) && h <= |window| && core == Core(window, spot, h)
    ensures forall x :: x in window ==> (x in core <==> !Far(window, spot, h)(x))
    ensures forall i :: 0 <= i < |window| ==> (window[i] in core <==> !Far(window, spot, h)(window[i]))
  {
    forall x | x in window ensures x in core <==> !Far(window, spot, h)(x) {
      CoreIsNear(window, spot, h, x);
    }
    forall i | 0 <= i < |window| ensures window[i] in core <==> !Far(window, spot, h)(window[i]) {
      CoreIsNear(window, spot, h, window[i]);
    }
  }

  /** The far strikes of the window are the rest, those of the panel the wings. */
  lemma FarOnes(window: seq<real>, spot: real, maxCount: nat)
    requires StrictlyAscending(window) && 0 < maxCount < |window|
    ensures var h := CoreCount(maxCount);
            var far, rest := Far(window, spot, h), Rest(window, Core(window, spot, h));
            && maxCount - h <= |rest| && Filter(window, far) == rest
            && Filter(Panel(window, spot, maxCount), far) == Wings(rest, maxCount - h, maxCount - h)
  {
    var h := CoreCount(maxCount);
    var far, core := Far(window, spot, h), Core(window, spot, h);
    PanelContent(window, spot, maxCount);
    PanelParts(window, spot, maxCount);
    CoreNotFar(window, spot, h, core);
    RestIsFar(window, core, far);
    var rest, w := Rest(window, core), maxCount - h;
    WingsProps(rest, w);
    WingsAreFar(window, core, rest, Wings(rest, w, w), far, Panel(window, spot, maxCount));
  }

  lemma RestIsFar(window: seq<real>, core: seq<real>, far: real -> bool)
    requires forall i :: 0 <= i < |window| ==> (window[i] in core <==> !far(window[i]))
    ensures Filter(window, far) == Rest(window, core)
  {
    FilterSame(window, NotIn(core), far);
  }

  lemma WingsAreFar(window: seq<real>, core: seq<real>, rest: seq<real>, wings: seq<real>, far: real -> bool, out: seq<real>)
    requires StrictlyAscending(out) && StrictlyAscending(wings)
    requires (forall x :: x in core ==> x in window) && (forall x :: x in rest <==> x in window && x !in core)
    requires (forall x :: x in wings ==> x in rest) && (forall x :: x in out <==> x in core || x in wings)
    requires forall x :: x in window ==> (x in core <==> !far(x))
    ensures Filter(out, far) == wings
  {
    FilterMembers(out, far);
    FilterAscends(out, far);
    forall x ensures x in Filter(out, far) <==> x in wings {
      if x in wings {
        assert x in rest;
        assert x in window;
      }
      if x in out && x !in wings {
        assert x in core;
        assert x in window;
      }
    }
    AscendingUnique(Filter(out, far), wings);
  }

  lemma PanelMeans(window: seq<real>, spot: real, maxCount: nat)
    requires StrictlyAscending(window) && 0 < maxCount < |window|
    ensures HalfAndWings(window, spot, maxCount, Panel(window, spot, maxCount))
  {
    var h, out := CoreCount(maxCount), Panel(window, spot, maxCount);
    FarOnes(window, spot, maxCount);
    WingPlaces(Rest(window, Core(window, spot, h)), maxCount - h);
    PanelContent(window, spot, maxCount);
    forall x | x in window && Count(window, BeforeStrike(spot, x)) < h ensures x in out {
      CoreIsNear(window, spot, h, x);
    }
  }

  lemma WingPlaces(rest: seq<real>, w: nat)
    requires w <= |rest|
    ensures |Wings(rest, w, w)| == w
    ensures w == 1 ==> Wings(rest, w, w)[0] == rest[|rest| / 2]
    ensures w > 1 ==> forall i :: 0 <= i < w ==> EvenlyAt(rest, Wings(rest, w, w)[i], i, w)
  {
    WingsAt(rest, w, w);
    if w > 1 {
      forall i | 0 <= i < w ensures EvenlyAt(rest, Wings(rest, w, w)[i], i, w) {
        WingIsStep(i, |rest|, w);
        assert rest[WingIndex(i, |rest|, w)] == Wings(rest, w, w)[i];
      }
    }
  }

  /** n ticks are nearest to k, halves up. */
  predicate NearestTick(k: real, n: int) { n as real - 0.5 <= k * 10000.0 < n as real + 0.5 }

  /** Rounding gives a whole number of ticks, the nearest one. */
  lemma RoundTickMeans(k: real) returns (n: int)
    requires k > 0.0
    ensures RoundTick(k) * 10000.0 == n as real && NearestTick(k, n)
  {
    n := (k * TICKS + 0.5).Floor;
  }

  /** Nothing outside the window is selected, the whole core is, and with at least four strikes
      so are both edges of the window. */
  lemma PanelProps(window: seq<real>, spot: real, maxCount: nat)
    requires StrictlyAscending(window) && maxCount < |window|
    ensures var out := Panel(window, spot, maxCount);
            && |out| == maxCount && StrictlyAscending(out) && (forall x :: x in out ==> x in window)
            && (forall x :: x in Core(window, spot, CoreCount(maxCount)) ==> x in out)
            && (maxCount >= 4 ==> window[0] in out && window[|window| - 1] in out)
  {
    var core := Core(window, spot, CoreCount(maxCount));
    PanelContent(window, spot, maxCount);
    PanelParts(window, spot, maxCount);
    var rest, w := Rest(window, core), maxCount - |core|;
    forall x | x in Panel(window, spot, maxCount) ensures x in window {
      assert x in core || x in Wings(rest, w, w);
    }
    if maxCount >= 4 {
      PanelEdges(window, core, rest, w);
    }
  }

  /** Core, rest and wings are parts of the window. */
  lemma PanelParts(window: seq<real>, spot: real, maxCount: nat)
    requires StrictlyAscending(window) && maxCount < |window|
    ensures var core := Core(window, spot, CoreCount(maxCount));
            var rest, w := Rest(window, core), maxCount - |core|;
            && |core| == CoreCount(maxCount) && w <= |rest| && StrictlyAscending(rest)
            && (forall x :: x in core ==> x in window) && (forall x :: x in rest <==> x in window && x !in core)
            && forall x :: x in Wings(rest, w, w) ==> x in window
  {
    var c := CoreCount(maxCount);
    CoreMembers(window, spot, c);
    RestMembers(window, spot, c);
    WingsProps(Rest(window, Core(window, spot, c)), maxCount - c);
  }

  lemma JoinDistinct(core: seq<real>, wings: seq<real>, rest: seq<real>)
    requires Distinct(core) && StrictlyAscending(wings)
    requires (forall x :: x in wings ==> x in rest) && (forall x :: x in rest ==> x !in core)
    ensures Distinct(core + wings)
  {
    var all := core + wings;
    forall i, j | 0 <= i < j < |all| ensures all[i] != all[j] {
      if i < |core| <= j {
        assert core[i] in core;
        assert wings[j - |core|] in wings;
      }
    }
  }

  lemma PanelEdges(window: seq<real>, core: seq<real>, rest: seq<real>, w: nat)
    requires StrictlyAscending(window) && StrictlyAscending(rest) && 2 <= w <= |rest| && window != []
    requires forall x :: x in rest <==> x in window && x !in core
    ensures window[0] in core || window[0] in Wings(rest, w, w)
    ensures window[|window| - 1] in core || window[|window| - 1] in Wings(rest, w, w)
  {
    var n, wings := |rest|, Wings(rest, w, w);
    assert wings[0] == rest[0] && wings[w - 1] == rest[n - 1] by {
      WingsAt(rest, w, w);
      WingEnds(n, w);
    }
    assert |wings| == w by { WingsAt(rest, w, w); }
    assert rest[0] in wings && rest[n - 1] in wings;
    assert rest[0] in rest && rest[n - 1] in rest;
    if window[0] !in core {
      assert window[0] in rest;
      SameFirst(window, rest);
    }
    if window[|window| - 1] !in core {
      assert window[|window| - 1] in rest;
      SameLast(window, rest);
    }
  }

  lemma SameFirst(s: seq<real>, t: seq<real>)
    requires StrictlyAscending(s) && StrictlyAscending(t) && s != [] && t != [] && s[0] in t && t[0] in s
    ensures s[0] == t[0]
  {
    var i :| 0 <= i < |t| && t[i] == s[0];
    var j :| 0 <= j < |s| && s[j] == t[0];
  }

  lemma SameLast(s: seq<real>, t: seq<real>)
    requires StrictlyAscending(s) && StrictlyAscending(t) && s != [] && t != []
    requires s[|s| - 1] in t && t[|t| - 1] in s
    ensures s[|s| - 1] == t[|t| - 1]
  {
    var i :| 0 <= i < |t| && t[i] == s[|s| - 1];
    var j :| 0 <= j < |s| && s[j] == t[|t| - 1];
  }

  /** What is selected of a list of strikes: of the usable ones, rounded, those within the window;
      all of them if they fit, else half nearest the money and the others evenly spread. */
  ghost predicate Selected(ls: seq<Listing>, spot: real, pct: real, maxCount: nat, out: seq<real>, inWindow: nat)
  {
    var window := Window(ls, spot, pct);
    && (forall x :: x in window <==> ListedWithin(ls, spot, pct, x))
    && inWindow == |window| && |out| == Min(|window|, maxCount)
    && StrictlyAscending(window) && StrictlyAscending(out) && (forall x :: x in out ==> x in window)
    && (|window| <= maxCount ==> out == window)
    && (|window| > maxCount ==>
          && HalfAndWings(window, spot, maxCount, out)
          && (maxCount >= 4 ==> window[0] in out && window[|window| - 1] in out)
          && out == Panel(window, spot, maxCount))
  }

  lemma AllSelected(ls: seq<Listing>, spot: real, pct: real, maxCount: nat)
    requires |Window(ls, spot, pct)| <= maxCount
    ensures Selected(ls, spot, pct, maxCount, Window(ls, spot, pct), |Window(ls, spot, pct)|)
  {
    WindowAscends(ls, spot, pct);
    WindowMembers(ls, spot, pct);
  }

  lemma PanelSelected(ls: seq<Listing>, spot: real, pct: real, maxCount: nat)
    requires StrictlyAscending(Window(ls, spot, pct)) && 0 < maxCount < |Window(ls, spot, pct)|
    ensures Selected(ls, spot, pct, maxCount, Panel(Window(ls, spot, pct), spot, maxCount), |Window(ls, spot, pct)|)
  {
    var window := Window(ls, spot, pct);
    WindowMembers(ls, spot, pct);
    PanelProps(window, spot, maxCount);
    PanelMeans(window, spot, maxCount);
  }

  method SelectStrikes(ls: seq<Listing>, spot: real, pct: real, maxCount: int) returns (out: seq<real>, inWindow: nat)
    ensures spot <= 0.0 || pct <= 0.0 || maxCount <= 0 ==> out == [] && inWindow == 0
    ensures spot > 0.0 && pct > 0.0 && maxCount > 0 ==> Selected(ls, spot, pct, maxCount, out, inWindow)
  {
    if spot <= 0.0 || pct <= 0.0 || maxCount <= 0 {
      return [], 0;
    }
    var normalized := NormalizeStrikes(ls);
    var window := Keep(normalized, Within(spot, pct));
    WindowAscends(ls, spot, pct);
    if |window| <= maxCount {
      AllSelected(ls, spot, pct, maxCount);
      return window, |window|;
    }
    out := Spread(window, spot, maxCount);
    inWindow := |window|;
    PanelSelected(ls, spot, pct, maxCount);
  }

  lemma WindowAscends(ls: seq<Listing>, spot: real, pct: real)
    ensures StrictlyAscending(Window(ls, spot, pct))
  {
    NormalizedAscends(ls);
    FilterAscends(Normalized(ls), Within(spot, pct));
  }

  /** Some usable listing rounds to x, and x lies within the percentage of spot. */
  ghost predicate ListedWithin(ls: seq<Listing>, spot: real, pct: real, x: real)
  {
    && spot * (1.0 - pct) <= x <= spot * (1.0 + pct)
    && exists i :: 0 <= i < |ls| && ls[i].Finite? && ls[i].value > 0.0 && RoundTick(ls[i].value) == x
  }

  lemma WindowMembers(ls: seq<Listing>, spot: real, pct: real)
    ensures forall x :: x in Window(ls, spot, pct) <==> ListedWithin(ls, spot, pct, x)
  {
    forall x ensures x in Window(ls, spot, pct) <==> ListedWithin(ls, spot, pct, x) {
      NormalizedIsSet(ls);
      FilterMembers(Normalized(ls), Within(spot, pct));
      assert x in Normalized(ls) <==> exists i :: 0 <= i < |ls| && Usable(ls[i]) && RoundTick(ls[i].value) == x;
      assert x in Window(ls, spot, pct) <==> x in Normalized(ls) && Within(spot, pct)(x);
    }
  }

  /** The overfull case: half nearest the money, the rest spread over the remaining window. */
  method Spread(window: seq<real>, spot: real, maxCount: nat) returns (out: seq<real>)
    requires StrictlyAscending(window) && 0 < maxCount < |window|
    ensures out == Panel(window, spot, maxCount)
  {
    var byDistance := SortBy(Distance(spot), window);
    SortByContent(Distance(spot), window);
    var coreCount := (maxCount + 1) / 2;
    var core := byDistance[..coreCount];
    CoreMembers(window, spot, coreCount);
    RestMembers(window, spot, coreCount);
    var rest := Keep(window, NotIn(core));
    var wings := maxCount - coreCount;
    var picked := PickWings(rest, wings);
    out := SortBy(Identity(), core + picked);
  }

  method PickWings(rest: seq<real>, wings: nat) returns (picked: seq<real>)
    requires wings <= |rest|
    ensures picked == Wings(rest, wings, wings)
  {
    picked := [];
    for i := 0 to wings
      invariant picked == Wings(rest, wings, i)
    {
      var idx := |rest| / 2;
      if wings > 1 {
        idx := (i * (|rest| - 1) + (wings - 1) / 2) / (wings - 1);
      }
      assert idx == WingIndex(i, |rest|, wings);
      WingInRange(i, |rest|, wings);
      picked := picked + [rest[idx]];
    }
  }

  // ----- Ranks -----

  /** Strikes that come before k: nearer the money, or as near and lower. */
  function BeforeStrike(spot: real, k: real): real -> bool { (x: real) => Before(Distance(spot), x, k) }

  /** Nearer the money by absolute distance; as near, the lower strike goes first. */
  lemma BeforeStrikeMeans(spot: real, k: real, x: real)
    ensures var dx, dk := if x < spot then spot - x else x - spot, if k < spot then spot - k else k - spot;
            BeforeStrike(spot, k)(x) <==> dx < dk || (dx == dk && x < k)
  {
  }

  method Positions(sorted: seq<real>) returns (at: map<real, nat>)
    requires Distinct(sorted)
    ensures forall k :: k in at <==> k in sorted
    ensures forall j :: 0 <= j < |sorted| ==> sorted[j] in at && at[sorted[j]] == j
  {
    at := map[];
    for i := 0 to |sorted|
      invariant forall k :: k in at <==> k in sorted[..i]
      invariant forall j :: 0 <= j < i ==> sorted[j] in at && at[sorted[j]] == j
    {
      assert sorted[..i + 1] == sorted[..i] + [sorted[i]];
      at := at[sorted[i] := i];
    }
    assert sorted[..|sorted|] == sorted;
  }

  lemma OrderedDistinct(sorted: seq<real>, spot: real)
    requires Ordered(Distance(spot), sorted)
    ensures Distinct(sorted)
  {
    forall i, j | 0 <= i < j < |sorted| ensures sorted[i] != sorted[j] {
      assert Before(Distance(spot), sorted[i], sorted[j]);
    }
  }

  /** The rank of a strike is the number of strikes before it. */
  method AtmRanks(strikes: seq<real>, spot: real) returns (ranks: map<real, nat>)
    requires StrictlyAscending(strikes)
    ensures forall k :: k in ranks <==> k in strikes
    ensures forall k :: k in strikes ==> ranks[k] == Count(strikes, BeforeStrike(spot, k))
  {
    var byDistance := SortBy(Distance(spot), strikes);
    SortByOrdered(Distance(spot), strikes);
    SortByContent(Distance(spot), strikes);
    SortByMembers(Distance(spot), strikes);
    OrderedDistinct(byDistance, spot);
    ranks := Positions(byDistance);
    forall k | k in strikes ensures ranks[k] == Count(strikes, BeforeStrike(spot, k)) {
      assert k in byDistance;
      var j :| 0 <= j < |byDistance| && byDistance[j] == k;
      CountPermutation(strikes, byDistance, BeforeStrike(spot, k));
      CountBefore(byDistance, spot, j);
    }
  }

  /** In sorted order exactly the elements to the left come before. */
  lemma CountBefore(sorted: seq<real>, spot: real, j: nat)
    requires Ordered(Distance(spot), sorted) && j < |sorted|
    ensures Count(sorted, BeforeStrike(spot, sorted[j])) == j
  {
    var p, left, right := BeforeStrike(spot, sorted[j]), sorted[..j], sorted[j..];
    assert sorted == left + right;
    CountConcat(left, right, p);
    forall i | 0 <= i < |left| ensures p(left[i]) {
      assert Before(Distance(spot), sorted[i], sorted[j]);
    }
    CountAll(left, p);
    forall i | 0 <= i < |right| ensures !p(right[i]) {
      if i > 0 {
        assert Before(Distance(spot), sorted[j], sorted[j + i]);
      }
    }
    CountNone(right, p);
  }

  lemma CountAll(s: seq<real>, p: real -> bool)
    requires forall i :: 0 <= i < |s| ==> p(s[i])
    ensures Count(s, p) == |s|
  {
    CountBounds(s, p);
  }

  lemma CountNone(s: seq<real>, p: real -> bool)
    requires forall i :: 0 <= i < |s| ==> !p(s[i])
    ensures Count(s, p) == 0
  {
    CountBounds(s, p);
  }
}
