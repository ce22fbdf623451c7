/** Which expiries of an underlying are recorded: the two nearest standard monthlies and the
    nearest weekly. Dates are day numbers. */
module Expiries {
  import opened Sequences
  import opened Text
  import opened Contracts
  import opened Calendar
  import opened Strikes
  import opened Sorting

  /** One listed date and class; a malformed date has no day number. */
  datatype ListedExpiry = ListedExpiry(date: Option<int>, tradingClass: string, strikes: seq<Listing>)

  datatype SelectedExpiry = SelectedExpiry(date: int, tradingClass: string, slot: Slot, strikes: seq<real>)

  /** Strikes by date and class. */
  type Chain = map<int, map<string, seq<Listing>>>

  predicate Lists(ch: Chain, date: int, class_: string) { date in ch && class_ in ch[date] }

  predicate Considered(l: ListedExpiry, today: int) { l.date.Some? && l.date.value > today && l.tradingClass != "" }

  /** Some considered listing names this date and class. */
  ghost predicate Names(listed: seq<ListedExpiry>, today: int, date: int, class_: string)
  {
    exists i :: 0 <= i < |listed| && Considered(listed[i], today)
                && listed[i].date.value == date && listed[i].tradingClass == class_
  }

  /** The strikes the considered listings give a date and class, in listing order. */
  function StrikesOf(listed: seq<ListedExpiry>, today: int, date: int, class_: string): seq<Listing>
  {
    if listed == [] then []
    else
      var l := listed[|listed| - 1];
      StrikesOf(listed[..|listed| - 1], today, date, class_)
      + (if Considered(l, today) && l.date.value == date && l.tradingClass == class_ then l.strikes else [])
  }

  /** How often a class was listed: once per date, or more often while its strikes were empty. */
  function ClassCount(listed: seq<ListedExpiry>, today: int, class_: string): nat
  {
    if listed == [] then 0
    else
      var l, before := listed[|listed| - 1], listed[..|listed| - 1];
      ClassCount(before, today, class_)
      + (if Considered(l, today) && l.tradingClass == class_ && StrikesOf(before, today, l.date.value, class_) == [] then 1 else 0)
  }

  /** The chain holds exactly what the considered listings name; keys lists its dates and counts
      its classes. */
  ghost predicate Collected(listed: seq<ListedExpiry>, today: int, ch: Chain, keys: seq<int>, counts: map<string, nat>)
  {
    && Distinct(keys) && (forall d :: d in keys <==> d in ch)
    && (forall d, c :: Lists(ch, d, c) <==> Names(listed, today, d, c))
    && (forall d :: d in ch ==> d > today && exists c :: c in ch[d])
    && (forall d, c :: Lists(ch, d, c) ==> c in counts && counts[c] > 0)
    && (forall c :: c in counts ==> exists d :: Lists(ch, d, c))
  }

  function StrikesAt(ch: Chain, d: int, c: string): seq<Listing> { if Lists(ch, d, c) then ch[d][c] else [] }

  function CountAt(counts: map<string, nat>, c: string): nat { if c in counts then counts[c] else 0 }

  /** Each date and class carries the strikes of all its listings, and each class its count. */
  ghost predicate Content(listed: seq<ListedExpiry>, today: int, ch: Chain, counts: map<string, nat>)
  {
    && (forall d, c :: StrikesAt(ch, d, c) == StrikesOf(listed, today, d, c))
    && (forall c :: CountAt(counts, c) == ClassCount(listed, today, c))
  }

  lemma ContentExtend(listed: seq<ListedExpiry>, l: ListedExpiry, today: int, d: int, c: string)
    ensures StrikesOf(listed + [l], today, d, c) == StrikesOf(listed, today, d, c)
              + (if Considered(l, today) && l.date.value == d && l.tradingClass == c then l.strikes else [])
    ensures ClassCount(listed + [l], today, c) == ClassCount(listed, today, c)
              + (if Considered(l, today) && l.tradingClass == c && StrikesOf(listed, today, l.date.value, c) == [] then 1 else 0)
  {
    assert (listed + [l])[..|listed|] == listed;
  }

  lemma NamesExtend(listed: seq<ListedExpiry>, l: ListedExpiry, today: int, d: int, c: string)
    ensures Names(listed + [l], today, d, c)
            <==> Names(listed, today, d, c) || (Considered(l, today) && l.date.value == d && l.tradingClass == c)
  {
    var all := listed + [l];
    if Names(listed, today, d, c) {
      var i :| 0 <= i < |listed| && Considered(listed[i], today) && listed[i].date.value == d && listed[i].tradingClass == c;
      assert all[i] == listed[i];
    }
    assert all[|listed|] == l;
  }

  function NextChain(ch: Chain, l: ListedExpiry): Chain
    requires l.date.Some?
  {
    var d, c := l.date.value, l.tradingClass;
    var classes: map<string, seq<Listing>> := if d in ch then ch[d] else map[];
    ch[d := classes[c := StrikesAt(ch, d, c) + l.strikes]]
  }

  function NextKeys(ch: Chain, keys: seq<int>, l: ListedExpiry): seq<int>
    requires l.date.Some?
  {
    if l.date.value in ch then keys else keys + [l.date.value]
  }

  function NextCounts(ch: Chain, counts: map<string, nat>, l: ListedExpiry): map<string, nat>
    requires l.date.Some?
  {
    var c := l.tradingClass;
    if StrikesAt(ch, l.date.value, c) == [] then counts[c := CountAt(counts, c) + 1] else counts
  }

  /** A listing adds its strikes, its date and, while its class had no strikes there, to the count. */
  method PutListing(ch0: Chain, keys0: seq<int>, counts0: map<string, nat>, l: ListedExpiry)
    returns (ch: Chain, keys: seq<int>, counts: map<string, nat>)
    requires l.date.Some?
    ensures ch == NextChain(ch0, l) && keys == NextKeys(ch0, keys0, l) && counts == NextCounts(ch0, counts0, l)
  {
    ch, keys, counts := ch0, keys0, counts0;
    var d, c := l.date.value, l.tradingClass;
    var classes: map<string, seq<Listing>> := if d in ch then ch[d] else map[];
    var before := if c in classes then classes[c] else [];
    if before == [] {
      counts := counts[c := (if c in counts then counts[c] else 0) + 1];
    }
    if d !in ch {
      keys := keys + [d];
    }
    ch := ch[d := classes[c := before + l.strikes]];
  }

  method AddListing(ch0: Chain, keys0: seq<int>, counts0: map<string, nat>, l: ListedExpiry, today: int,
                    ghost done: seq<ListedExpiry>)
    returns (ch: Chain, keys: seq<int>, counts: map<string, nat>)
    requires Collected(done, today, ch0, keys0, counts0) && Content(done, today, ch0, counts0)
    ensures Collected(done + [l], today, ch, keys, counts) && Content(done + [l], today, ch, counts)
  {
    if l.date.None? || l.date.value <= today || l.tradingClass == "" {
      SkippedListing(ch0, keys0, counts0, l, today, done);
      SkippedContent(ch0, counts0, l, today, done);
      return ch0, keys0, counts0;
    }
    AddedListing(ch0, keys0, counts0, l, today, done);
    AddedContent(ch0, counts0, l, today, done);
    ch, keys, counts := PutListing(ch0, keys0, counts0, l);
  }

  lemma SkippedListing(ch: Chain, keys: seq<int>, counts: map<string, nat>, l: ListedExpiry, today: int, done: seq<ListedExpiry>)
    requires Collected(done, today, ch, keys, counts) && !Considered(l, today)
    ensures Collected(done + [l], today, ch, keys, counts)
  {
    forall d, c
      ensures Lists(ch, d, c) <==> Names(done + [l], today, d, c)
    {
      NamesExtend(done, l, today, d, c);
    }
  }

  lemma SkippedContent(ch: Chain, counts: map<string, nat>, l: ListedExpiry, today: int, done: seq<ListedExpiry>)
    requires Content(done, today, ch, counts) && !Considered(l, today)
    ensures Content(done + [l], today, ch, counts)
  {
    forall d, c
      ensures StrikesAt(ch, d, c) == StrikesOf(done + [l], today, d, c)
      ensures CountAt(counts, c) == ClassCount(done + [l], today, c)
    {
      ContentExtend(done, l, today, d, c);
    }
  }

  lemma AddedStrikes(ch0: Chain, l: ListedExpiry, today: int, done: seq<ListedExpiry>, e: int, k: string)
    requires Considered(l, today) && StrikesAt(ch0, e, k) == StrikesOf(done, today, e, k)
    ensures StrikesAt(NextChain(ch0, l), e, k) == StrikesOf(done + [l], today, e, k)
  {
    ContentExtend(done, l, today, e, k);
  }

  lemma AddedCount(ch0: Chain, counts0: map<string, nat>, l: ListedExpiry, today: int, done: seq<ListedExpiry>, k: string)
    requires Considered(l, today) && Content(done, today, ch0, counts0)
    ensures CountAt(NextCounts(ch0, counts0, l), k) == ClassCount(done + [l], today, k)
  {
    var c := l.tradingClass;
    assert StrikesAt(ch0, l.date.value, c) == StrikesOf(done, today, l.date.value, c);
    assert CountAt(counts0, k) == ClassCount(done, today, k);
    ContentExtend(done, l, today, l.date.value, k);
  }

  lemma AddedContent(ch0: Chain, counts0: map<string, nat>, l: ListedExpiry, today: int, done: seq<ListedExpiry>)
    requires Content(done, today, ch0, counts0) && Considered(l, today)
    ensures Content(done + [l], today, NextChain(ch0, l), NextCounts(ch0, counts0, l))
  {
    forall e, k ensures StrikesAt(NextChain(ch0, l), e, k) == StrikesOf(done + [l], today, e, k) {
      AddedStrikes(ch0, l, today, done, e, k);
    }
    forall k ensures CountAt(NextCounts(ch0, counts0, l), k) == ClassCount(done + [l], today, k) {
      AddedCount(ch0, counts0, l, today, done, k);
    }
  }

  /** Updating one date's class adds exactly that pair to what is listed. */
  lemma ListsUpdate(ch0: Chain, l: ListedExpiry, e: int, k: string)
    requires l.date.Some?
    ensures Lists(NextChain(ch0, l), e, k) <==> Lists(ch0, e, k) || (e == l.date.value && k == l.tradingClass)
  {
  }

  lemma DatesUpdate(ch0: Chain, l: ListedExpiry, e: int)
    requires l.date.Some?
    ensures e in NextChain(ch0, l) <==> e in ch0 || e == l.date.value
  {
  }

  /** The classes counted are those listed, each at least once. */
  lemma AddedClasses(ch0: Chain, counts0: map<string, nat>, l: ListedExpiry, k: string)
    requires l.date.Some? && (forall d, c :: Lists(ch0, d, c) ==> c in counts0 && counts0[c] > 0)
    ensures k in NextCounts(ch0, counts0, l) <==> k in counts0 || k == l.tradingClass
    ensures k in NextCounts(ch0, counts0, l) && (k in counts0 ==> counts0[k] > 0) ==> NextCounts(ch0, counts0, l)[k] > 0
  {
    var c := l.tradingClass;
    if StrikesAt(ch0, l.date.value, c) != [] {
      assert Lists(ch0, l.date.value, c);
    }
  }

  lemma AddedListing(ch0: Chain, keys0: seq<int>, counts0: map<string, nat>, l: ListedExpiry, today: int, done: seq<ListedExpiry>)
    requires Collected(done, today, ch0, keys0, counts0) && Considered(l, today)
    ensures Collected(done + [l], today, NextChain(ch0, l), NextKeys(ch0, keys0, l), NextCounts(ch0, counts0, l))
  {
    var d, c := l.date.value, l.tradingClass;
    var ch, keys, counts := NextChain(ch0, l), NextKeys(ch0, keys0, l), NextCounts(ch0, counts0, l);
    forall e ensures e in keys <==> e in ch {
      DatesUpdate(ch0, l, e);
    }
    forall e, k ensures Lists(ch, e, k) <==> Names(done + [l], today, e, k) {
      ListsUpdate(ch0, l, e, k);
      NamesExtend(done, l, today, e, k);
    }
    forall e, k | Lists(ch, e, k) ensures k in counts && counts[k] > 0 {
      ListsUpdate(ch0, l, e, k);
      CountedOnce(ch0, counts0, l, k);
    }
    forall e | e in ch ensures e > today && exists k :: k in ch[e] {
      DateKept(ch0, l, today, e);
    }
    forall k | k in counts ensures exists e :: Lists(ch, e, k) {
      AddedClasses(ch0, counts0, l, k);
      if k == c {
        ListsUpdate(ch0, l, d, c);
        assert Lists(ch, d, c);
      } else {
        var e :| Lists(ch0, e, k);
        ListsUpdate(ch0, l, e, k);
        assert Lists(ch, e, k);
      }
    }
  }

  lemma CountedOnce(ch0: Chain, counts0: map<string, nat>, l: ListedExpiry, k: string)
    requires l.date.Some? && (forall d, c :: Lists(ch0, d, c) ==> c in counts0 && counts0[c] > 0)
    requires (forall c :: c in counts0 ==> exists d :: Lists(ch0, d, c)) && (k in counts0 || k == l.tradingClass)
    ensures k in NextCounts(ch0, counts0, l) && NextCounts(ch0, counts0, l)[k] > 0
  {
    AddedClasses(ch0, counts0, l, k);
    if k in counts0 {
      var d :| Lists(ch0, d, k);
    }
  }

  lemma DateKept(ch0: Chain, l: ListedExpiry, today: int, e: int)
    requires Considered(l, today) && e in NextChain(ch0, l)
    requires forall d :: d in ch0 ==> d > today && exists c :: c in ch0[d]
    ensures e > today && exists k :: k in NextChain(ch0, l)[e]
  {
    if e == l.date.value {
      assert l.tradingClass in NextChain(ch0, l)[e];
    } else {
      assert e in ch0 && NextChain(ch0, l)[e] == ch0[e];
    }
  }

  method Collect(listed: seq<ListedExpiry>, today: int) returns (ch: Chain, keys: seq<int>, counts: map<string, nat>)
    ensures Collected(listed, today, ch, keys, counts) && Content(listed, today, ch, counts)
  {
    ch, keys, counts := map[], [], map[];
    for i := 0 to |listed|
      invariant Collected(listed[..i], today, ch, keys, counts) && Content(listed[..i], today, ch, counts)
    {
      assert listed[..i + 1] == listed[..i] + [listed[i]];
      ch, keys, counts := AddListing(ch, keys, counts, listed[i], today, listed[..i]);
    }
    assert listed[..|listed|] == listed;
  }

  // ----- Sorted keys -----

  predicate Ascends(s: seq<int>) { forall i, j :: 0 <= i < j < |s| ==> s[i] < s[j] }

  function ByNumber(): (int, int) -> bool { (a: int, b: int) => a < b }

  lemma {:induction false} InsertAscends(x: int, s: seq<int>)
    requires Ascends(s) && x !in s
    ensures Ascends(Insert(ByNumber(), x, s))
  {
    if s != [] && s[|s| - 1] > x {
      var n := |s| - 1;
      InsertAscends(x, s[..n]);
      var front := Insert(ByNumber(), x, s[..n]);
      forall i | 0 <= i < |front| ensures front[i] < s[n] {
        assert front[i] in front;
        InsertMember(ByNumber(), x, s[..n], front[i]);
      }
    } else if s != [] {
      assert s[|s| - 1] in s;
    }
  }

  lemma InsertNumber(x: int, s: seq<int>)
    requires Ascends(s) && x !in s
    ensures Ascends(Insert(ByNumber(), x, s))
    ensures forall y :: y in Insert(ByNumber(), x, s) <==> y == x || y in s
  {
    InsertAscends(x, s);
    forall y ensures y in Insert(ByNumber(), x, s) <==> y == x || y in s {
      InsertMember(ByNumber(), x, s, y);
    }
  }

  method SortedKeys(keys: seq<int>) returns (r: seq<int>)
    requires Distinct(keys)
    ensures Ascends(r) && forall x :: x in r <==> x in keys
  {
    r := [];
    for i := 0 to |keys|
      invariant Ascends(r) && forall x :: x in r <==> x in keys[..i]
    {
      assert keys[..i + 1] == keys[..i] + [keys[i]];
      assert keys[i] !in keys[..i];
      InsertNumber(keys[i], r);
      r := Insert(ByNumber(), keys[i], r);
    }
    assert keys[..|keys|] == keys;
  }

  lemma HasLeast(s: set<string>) returns (m: string)
    requires s != {}
    ensures m in s && forall x :: x in s ==> x == m || Less(m, x)
  {
    m :| m in s;
    if s != {m} {
      var n := HasLeast(s - {m});
      LessTotal(m, n);
      if Less(n, m) {
        forall x | x in s ensures x == n || Less(n, x) {
          if x != m && x != n {
            assert x in s - {m};
          }
        }
        m := n;
      } else {
        forall x | x in s ensures x == m || Less(m, x) {
          if x != m && x != n {
            LessTransitive(m, n, x);
          }
        }
      }
    }
  }

  /** The least class name of a nonempty set. */
  method LeastClass(s: set<string>) returns (m: string)
    requires s != {}
    ensures m in s && forall x :: x in s ==> x == m || Less(m, x)
  {
    ghost var least := HasLeast(s);
    m :| m in s && forall x :: x in s ==> x == m || Less(m, x);
  }

  /** The symbol's own class when listed; otherwise the class listed most often, the least name
      among equals. */
  ghost predicate IsPrimary(symbol: string, counts: map<string, nat>, primary: string)
  {
    && primary in counts && (symbol in counts ==> primary == symbol)
    && (symbol !in counts ==>
          forall c :: c in counts ==>
            counts[c] < counts[primary] || (counts[c] == counts[primary] && (c == primary || Less(primary, c))))
  }

  method PrimaryClass(symbol: string, counts: map<string, nat>) returns (primary: string)
    requires counts != map[] && forall c :: c in counts ==> counts[c] > 0
    ensures IsPrimary(symbol, counts, primary)
  {
    if symbol in counts {
      return symbol;
    }
    var left := counts.Keys;
    primary := LeastClass(left);
    left := left - {primary};
    ghost var last := primary;
    while left != {}
      invariant left <= counts.Keys && primary in counts && primary !in left
      invariant forall c :: c in left ==> Less(last, c)
      invariant last in counts && last !in left && (last == primary || Less(primary, last))
      invariant forall c :: c in counts && c !in left ==>
        counts[c] < counts[primary] || (counts[c] == counts[primary] && (c == primary || Less(primary, c)))
      decreases left
    {
      var c := LeastClass(left);
      left := left - {c};
      assert Less(primary, c) by {
        if last != primary {
          LessTransitive(primary, last, c);
        }
      }
      forall x | x in left ensures Less(c, x) && x != c {
        LessTotal(x, c);
      }
      if counts[c] > counts[primary] {
        primary := c;
      }
      last := c;
    }
  }

  // ----- Monthlies -----

  /** The listing that stands for a month's standard expiration: on the day itself, or else on
      the trading day before. */
  function PickMonthly(ch: Chain, primary: string, today: int, days: Sessions, mm: int): Option<int>
  {
    var m := StandardMonthly(mm, days);
    var p := PreviousTradingDay(m, days);
    if m > today && Lists(ch, m, primary) then Some(m)
    else if p > today && Lists(ch, p, primary) then Some(p)
    else None
  }

  /** Picks of different months come in month order, whatever the calendar says. */
  lemma PicksOrdered(ch: Chain, primary: string, today: int, days: Sessions, a: int, b: int)
    requires a < b
    requires PickMonthly(ch, primary, today, days, a).Some? && PickMonthly(ch, primary, today, days, b).Some?
    ensures today < PickMonthly(ch, primary, today, days, a).value < PickMonthly(ch, primary, today, days, b).value
  {
    StandardMonthlyRange(a, days);
    PreviousStaysNear(a, days);
    StandardMonthlyRange(b, days);
    PreviousStaysNear(b, days);
    MonthsApart(a, b);
  }

  /** The distinct months of a list that have a pick, in order of appearance. */
  function Qualifying(pick: int -> bool, months: seq<int>): seq<int>
  {
    if months == [] then []
    else
      var before, mm := Qualifying(pick, months[..|months| - 1]), months[|months| - 1];
      if mm !in before && pick(mm) then before + [mm] else before
  }

  predicate NeverDescends(s: seq<int>) { forall i, j :: 0 <= i < j < |s| ==> s[i] <= s[j] }

  lemma {:induction false} QualifyingMembers(pick: int -> bool, months: seq<int>)
    ensures forall mm :: mm in Qualifying(pick, months) <==> mm in months && pick(mm)
  {
    if months != [] {
      var n := |months| - 1;
      QualifyingMembers(pick, months[..n]);
      assert months == months[..n] + [months[n]];
    }
  }

  /** In date order the qualifying months are listed in ascending order. */
  lemma {:induction false} QualifyingAscends(pick: int -> bool, months: seq<int>)
    requires NeverDescends(months)
    ensures Ascends(Qualifying(pick, months))
  {
    if months != [] {
      var n := |months| - 1;
      QualifyingAscends(pick, months[..n]);
      QualifyingMembers(pick, months[..n]);
      var before := Qualifying(pick, months[..n]);
      forall i | 0 <= i < |before| && months[n] !in before ensures before[i] < months[n] {
        assert before[i] in before;
        assert before[i] in months[..n];
      }
    }
  }

  /** Later months only add to the qualifying list. */
  lemma {:induction false} QualifyingGrows(pick: int -> bool, months: seq<int>, i: nat)
    requires i <= |months|
    ensures Qualifying(pick, months[..i]) <= Qualifying(pick, months)
    decreases |months|
  {
    if i == |months| {
      assert months[..i] == months;
    } else {
      var n := |months| - 1;
      QualifyingGrows(pick, months[..n], i);
      assert months[..n][..i] == months[..i];
    }
  }

  function Has(pick: int -> Option<int>): int -> bool { (mm: int) => pick(mm).Some? }

  function Picker(ch: Chain, primary: string, today: int, days: Sessions): int -> Option<int>
  {
    (mm: int) => PickMonthly(ch, primary, today, days, mm)
  }

  function HasPick(ch: Chain, primary: string, today: int, days: Sessions): int -> bool { Has(Picker(ch, primary, today, days)) }

  function Monthly(ch: Chain, primary: string, today: int, days: Sessions, mm: int, slot: Slot): SelectedExpiry
    requires PickMonthly(ch, primary, today, days, mm).Some?
  {
    var d := PickMonthly(ch, primary, today, days, mm).value;
    SelectedExpiry(d, primary, slot, Normalized(ch[d][primary]))
  }

  /** out holds the picks of the first two of these months. */
  ghost predicate FirstTwo(ch: Chain, primary: string, today: int, days: Sessions, months: seq<int>, out: seq<SelectedExpiry>)
  {
    && |out| == Min(2, |months|)
    && forall k :: 0 <= k < |out| ==>
        && PickMonthly(ch, primary, today, days, months[k]).Some?
        && out[k] == Monthly(ch, primary, today, days, months[k], if k == 0 then Monthly1 else Monthly2)
  }

  function MonthsOf(dates: seq<int>): (r: seq<int>)
    ensures |r| == |dates|
  {
    seq(|dates|, i requires 0 <= i < |dates| => MonthOf(dates[i]))
  }

  lemma MonthsNeverDescend(dates: seq<int>)
    requires Ascends(dates)
    ensures NeverDescends(MonthsOf(dates))
  {
    forall i, j | 0 <= i < j < |dates| ensures MonthsOf(dates)[i] <= MonthsOf(dates)[j] {
      MonthOfMonotone(dates[i], dates[j]);
    }
  }

  /** What a date of the primary class is recorded as. */
  function Entry(ch: Chain, primary: string): (int, Slot) -> SelectedExpiry
  {
    (d: int, slot: Slot) => SelectedExpiry(d, primary, slot, if Lists(ch, d, primary) then Normalized(ch[d][primary]) else [])
  }

  /** out holds the entries of the picks of the first two months. */
  ghost predicate TwoPicked(pick: int -> Option<int>, entry: (int, Slot) -> SelectedExpiry, months: seq<int>,
                            out: seq<SelectedExpiry>)
  {
    && |out| == Min(2, |months|)
    && forall k :: 0 <= k < |out| ==>
         pick(months[k]).Some? && out[k] == entry(pick(months[k]).value, if k == 0 then Monthly1 else Monthly2)
  }

  /** The loop over the listed months, for any way of picking a date of a month. */
  method PickTwo(months: seq<int>, pick: int -> Option<int>, entry: (int, Slot) -> SelectedExpiry)
    returns (out: seq<SelectedExpiry>)
    ensures TwoPicked(pick, entry, Qualifying(Has(pick), months), out)
  {
    out := [];
    var seen: set<int> := {};
    for i := 0 to |months|
      invariant |Qualifying(Has(pick), months[..i])| <= 2 && TwoPicked(pick, entry, Qualifying(Has(pick), months[..i]), out)
      invariant SameMonths(seen, Qualifying(Has(pick), months[..i]))
    {
      if |out| == 2 {
        QualifyingGrows(Has(pick), months, i);
        return;
      }
      QualifyingNext(Has(pick), months, i);
      var p := pick(months[i]);
      if months[i] !in seen && p.Some? {
        SameMonthsNext(seen, Qualifying(Has(pick), months[..i]), months[i]);
        seen := seen + {months[i]};
        var slot := if |out| == 1 then Monthly2 else Monthly1;
        out := out + [entry(p.value, slot)];
      }
    }
    assert months[..|months|] == months;
  }

  method SelectMonthlies(ch: Chain, primary: string, today: int, days: Sessions, months: seq<int>)
    returns (out: seq<SelectedExpiry>)
    ensures FirstTwo(ch, primary, today, days, Qualifying(HasPick(ch, primary, today, days), months), out)
  {
    out := PickTwo(months, Picker(ch, primary, today, days), Entry(ch, primary));
  }

  ghost predicate SameMonths(seen: set<int>, months: seq<int>) { forall mm :: mm in seen <==> mm in months }

  lemma SameMonthsNext(seen: set<int>, months: seq<int>, mm: int)
    requires SameMonths(seen, months)
    ensures SameMonths(seen + {mm}, months + [mm])
  {
  }

  lemma QualifyingNext(pick: int -> bool, months: seq<int>, i: nat)
    requires i < |months|
    ensures var before := Qualifying(pick, months[..i]);
            Qualifying(pick, months[..i + 1]) == if months[i] !in before && pick(months[i]) then before + [months[i]] else before
  {
    assert months[..i + 1][..i] == months[..i];
  }

  /** No qualifying month is skipped: it is one of the two recorded, or comes after both. */
  lemma NoMonthSkipped(ch: Chain, primary: string, today: int, days: Sessions, dates: seq<int>,
                       monthlies: seq<SelectedExpiry>, d: int)
    requires Ascends(dates) && d in dates && PickMonthly(ch, primary, today, days, MonthOf(d)).Some?
    requires FirstTwo(ch, primary, today, days, Qualifying(HasPick(ch, primary, today, days), MonthsOf(dates)), monthlies)
    ensures var pick := PickMonthly(ch, primary, today, days, MonthOf(d)).value;
            || (exists k :: 0 <= k < |monthlies| && monthlies[k].date == pick)
            || (|monthlies| == 2 && monthlies[1].date < pick)
  {
    var p, mm := HasPick(ch, primary, today, days), MonthOf(d);
    var months := Qualifying(p, MonthsOf(dates));
    MonthsNeverDescend(dates);
    QualifyingAscends(p, MonthsOf(dates));
    QualifyingMembers(p, MonthsOf(dates));
    var i :| 0 <= i < |dates| && dates[i] == d;
    assert MonthsOf(dates)[i] == mm;
    assert mm in months;
    var k :| 0 <= k < |months| && months[k] == mm;
    if k < |monthlies| {
      assert monthlies[k].date == PickMonthly(ch, primary, today, days, mm).value;
    } else {
      PicksOrdered(ch, primary, today, days, months[1], mm);
    }
  }

  // ----- The weekly -----

  /** The last listed date of its calendar week. */
  ghost predicate WeekEnd(dates: seq<int>, d: int)
  {
    d in dates && forall e :: e in dates && MondayOf(e) == MondayOf(d) ==> e <= d
  }

  predicate WeeklyDay(d: int, days: Sessions)
  {
    Weekday(d) == FRIDAY || (Weekday(d) == THURSDAY && !TradingDay(days, d + 1))
  }

  /** Days that may serve as the weekly: no standard monthly date and not taken. */
  function Eligible(days: Sessions, taken: seq<int>): int -> bool
  {
    (d: int) => WeeklyDay(d, days) && d != StandardMonthly(MonthOf(d), days) && d !in taken
  }

  ghost predicate WeeklyCandidate(dates: seq<int>, days: Sessions, taken: seq<int>, d: int)
  {
    WeekEnd(dates, d) && Eligible(days, taken)(d)
  }

  /** The weeks of the dates in order, and the last listed date of each. */
  ghost predicate WeeksOf(dates: seq<int>, mondays: seq<int>, end: map<int, int>)
  {
    && Ascends(mondays)
    && (forall w :: w in mondays <==> w in end)
    && (forall w :: w in end ==> WeekEnd(dates, end[w]) && MondayOf(end[w]) == w)
    && (forall d :: d in dates ==> MondayOf(d) in end)
  }

  lemma WeeksExtend(dates: seq<int>, d: int, mondays: seq<int>, end: map<int, int>)
    requires WeeksOf(dates, mondays, end) && forall e :: e in dates ==> e < d
    ensures WeeksOf(dates + [d], if MondayOf(d) in end then mondays else mondays + [MondayOf(d)], end[MondayOf(d) := d])
  {
    var w, end' := MondayOf(d), end[MondayOf(d) := d];
    forall v | v in end' ensures WeekEnd(dates + [d], end'[v]) && MondayOf(end'[v]) == v {
      if v != w {
        assert WeekEnd(dates, end[v]);
      }
    }
    forall i | 0 <= i < |mondays| && w !in end ensures mondays[i] < w {
      assert mondays[i] in mondays;
      assert end[mondays[i]] in dates;
      MondayProps(end[mondays[i]]);
      MondayProps(d);
    }
  }

  method WeekEnds(dates: seq<int>) returns (mondays: seq<int>, end: map<int, int>)
    requires Ascends(dates)
    ensures WeeksOf(dates, mondays, end)
  {
    mondays, end := [], map[];
    for i := 0 to |dates|
      invariant WeeksOf(dates[..i], mondays, end)
    {
      var w := MondayOf(dates[i]);
      assert dates[..i + 1] == dates[..i] + [dates[i]];
      WeeksExtend(dates[..i], dates[i], mondays, end);
      if w !in end {
        mondays := mondays + [w];
      }
      if w !in end || dates[i] > end[w] {
        end := end[w := dates[i]];
      }
    }
    assert dates[..|dates|] == dates;
  }

  /** No week before the i-th ends on an eligible day. */
  predicate NoneBefore(eligible: int -> bool, mondays: seq<int>, end: map<int, int>, i: nat)
  {
    forall k :: 0 <= k < i && k < |mondays| && mondays[k] in end ==> !eligible(end[mondays[k]])
  }

  /** So an eligible week end is that of the i-th week or of a later one. */
  lemma CandidateWeek(dates: seq<int>, eligible: int -> bool, mondays: seq<int>, end: map<int, int>, i: nat, e: int)
    requires WeeksOf(dates, mondays, end) && NoneBefore(eligible, mondays, end, i) && i <= |mondays|
    requires WeekEnd(dates, e) && eligible(e)
    ensures i < |mondays| && mondays[i] in end && end[mondays[i]] <= e
  {
    var k := EntryOf(dates, end, mondays, e);
    assert k >= i;
    assert mondays[i] in mondays;
    LaterWeek(mondays, i, k, end[mondays[i]], e);
  }

  lemma NoWeekEnd(dates: seq<int>, eligible: int -> bool, mondays: seq<int>, end: map<int, int>)
    requires WeeksOf(dates, mondays, end) && NoneBefore(eligible, mondays, end, |mondays|)
    ensures forall e :: WeekEnd(dates, e) ==> !eligible(e)
  {
    forall e | WeekEnd(dates, e) ensures !eligible(e) {
      var k := EntryOf(dates, end, mondays, e);
    }
  }

  /** The earliest eligible week end, if there is one. */
  method FirstWeekEnd(dates: seq<int>, eligible: int -> bool) returns (date: Option<int>)
    requires Ascends(dates)
    ensures date.Some? ==> WeekEnd(dates, date.value) && eligible(date.value)
    ensures forall d :: WeekEnd(dates, d) && eligible(d) ==> date.Some? && date.value <= d
  {
    var mondays, end := WeekEnds(dates);
    for i := 0 to |mondays|
      invariant NoneBefore(eligible, mondays, end, i)
    {
      assert mondays[i] in mondays;
      var d := end[mondays[i]];
      if eligible(d) {
        forall e | WeekEnd(dates, e) && eligible(e) ensures d <= e {
          CandidateWeek(dates, eligible, mondays, end, i, e);
        }
        return Some(d);
      }
    }
    NoWeekEnd(dates, eligible, mondays, end);
    return None;
  }

  /** The earliest candidate, if there is one. */
  method SelectWeekly(dates: seq<int>, days: Sessions, taken: seq<int>) returns (date: Option<int>)
    requires Ascends(dates)
    ensures date.Some? ==> WeeklyCandidate(dates, days, taken, date.value)
    ensures forall d :: WeeklyCandidate(dates, days, taken, d) ==> date.Some? && date.value <= d
  {
    date := FirstWeekEnd(dates, Eligible(days, taken));
  }

  lemma LaterWeek(mondays: seq<int>, i: nat, k: nat, d: int, e: int)
    requires Ascends(mondays) && i <= k < |mondays| && mondays[i] == MondayOf(d) && mondays[k] == MondayOf(e)
    requires i == k ==> d == e
    ensures d <= e
  {
    MondayProps(d);
    MondayProps(e);
  }

  /** A week end is the entry of its own week. */
  lemma EntryOf(dates: seq<int>, end: map<int, int>, mondays: seq<int>, e: int) returns (k: nat)
    requires WeekEnd(dates, e) && WeeksOf(dates, mondays, end)
    ensures k < |mondays| && mondays[k] == MondayOf(e) && MondayOf(e) in end && end[MondayOf(e)] == e
  {
    assert MondayOf(e) in mondays;
    k :| 0 <= k < |mondays| && mondays[k] == MondayOf(e);
  }

  // ----- The selection -----

  function ByDate(): (SelectedExpiry, SelectedExpiry) -> bool { (a: SelectedExpiry, b: SelectedExpiry) => a.date < b.date }

  function InsertExpiry(x: SelectedExpiry, s: seq<SelectedExpiry>): seq<SelectedExpiry> { Insert(ByDate(), x, s) }

  predicate DatesAscend(s: seq<SelectedExpiry>) { forall i, j :: 0 <= i < j < |s| ==> s[i].date < s[j].date }

  lemma {:induction false} InsertExpiryProps(x: SelectedExpiry, s: seq<SelectedExpiry>)
    requires DatesAscend(s) && forall i :: 0 <= i < |s| ==> s[i].date != x.date
    ensures DatesAscend(InsertExpiry(x, s)) && |InsertExpiry(x, s)| == |s| + 1
    ensures forall y :: y in InsertExpiry(x, s) <==> y == x || y in s
  {
    if s != [] {
      var n := |s| - 1;
      assert s == s[..n] + [s[n]];
      if s[n].date > x.date {
        InsertExpiryProps(x, s[..n]);
        assert InsertExpiry(x, s) == InsertExpiry(x, s[..n]) + [s[n]];
        var r := InsertExpiry(x, s[..n]);
        forall i | 0 <= i < |r| ensures r[i].date < s[n].date {
          assert r[i] in r;
        }
      }
    }
  }

  /** The class of a weekly: the primary one when it lists the date, else the first by name. */
  ghost predicate IsWeeklyClass(ch: Chain, date: int, primary: string, class_: string)
  {
    && Lists(ch, date, class_)
    && (Lists(ch, date, primary) ==> class_ == primary)
    && (!Lists(ch, date, primary) ==> forall c :: c in ch[date] ==> c == class_ || Less(class_, c))
  }

  /** How a selection came about: the considered listings, the class of the monthlies, the listed
      dates in order, and what was picked. */
  datatype Selection = Selection(
    chain: Chain, counts: map<string, nat>, primary: string, dates: seq<int>,
    monthlies: seq<SelectedExpiry>, weekly: Option<SelectedExpiry>)

  /** What the selection is made from. */
  ghost predicate Basis(listed: seq<ListedExpiry>, symbol: string, today: int, sel: Selection)
  {
    && Collected(listed, today, sel.chain, sel.dates, sel.counts) && Content(listed, today, sel.chain, sel.counts)
    && Ascends(sel.dates)
    && (sel.dates != [] ==> IsPrimary(symbol, sel.counts, sel.primary))
  }

  function DateOf(): SelectedExpiry -> int { (e: SelectedExpiry) => e.date }

  /** The monthlies are the picks of the two earliest qualifying months; the weekly is the
      earliest candidate week end. */
  ghost predicate Chosen(ch: Chain, primary: string, today: int, days: Sessions, dates: seq<int>,
                         monthlies: seq<SelectedExpiry>, weekly: Option<SelectedExpiry>)
  {
    var taken := MapSeq(monthlies, DateOf());
    && FirstTwo(ch, primary, today, days, Qualifying(HasPick(ch, primary, today, days), MonthsOf(dates)), monthlies)
    && (weekly.Some? ==>
          && WeeklyCandidate(dates, days, taken, weekly.value.date) && weekly.value.slot == Weekly
          && IsWeeklyClass(ch, weekly.value.date, primary, weekly.value.tradingClass)
          && weekly.value.strikes == Normalized(ch[weekly.value.date][weekly.value.tradingClass]))
    && (forall d :: WeeklyCandidate(dates, days, taken, d) ==> weekly.Some? && weekly.value.date <= d)
  }

  /** out is the selection for a symbol: the monthlies and the weekly in date order. */
  ghost predicate Selects(symbol: string, listed: seq<ListedExpiry>, today: int, days: Sessions,
                          out: seq<SelectedExpiry>, sel: Selection)
  {
    && Basis(listed, symbol, today, sel)
    && Chosen(sel.chain, sel.primary, today, days, sel.dates, sel.monthlies, sel.weekly)
    && (forall x :: x in out <==> x in sel.monthlies || sel.weekly == Some(x))
    && DatesAscend(out)
  }

  /** Monthlies come in order, after today, in listed dates. */
  lemma MonthliesOrdered(ch: Chain, primary: string, today: int, days: Sessions, dates: seq<int>, monthlies: seq<SelectedExpiry>)
    requires Ascends(dates)
    requires FirstTwo(ch, primary, today, days, Qualifying(HasPick(ch, primary, today, days), MonthsOf(dates)), monthlies)
    ensures DatesAscend(monthlies) && |monthlies| <= 2
    ensures forall k :: 0 <= k < |monthlies| ==>
              Placed(ch, today, monthlies[k]) && monthlies[k].slot == (if k == 0 then Monthly1 else Monthly2)
  {
    var months := Qualifying(HasPick(ch, primary, today, days), MonthsOf(dates));
    MonthsNeverDescend(dates);
    QualifyingAscends(HasPick(ch, primary, today, days), MonthsOf(dates));
    if |monthlies| == 2 {
      PicksOrdered(ch, primary, today, days, months[0], months[1]);
    }
  }

  method SelectExpiries(symbol: string, listed: seq<ListedExpiry>, today: int, days: Sessions)
    returns (out: seq<SelectedExpiry>, ghost sel: Selection)
    ensures Selects(symbol, listed, today, days, out, sel) && |out| <= 3
    ensures forall i :: 0 <= i < |out| ==>
              out[i].date > today && Names(listed, today, out[i].date, out[i].tradingClass) && StrictlyAscending(out[i].strikes)
  {
    var chain, keys, counts := Collect(listed, today);
    if keys == [] {
      out := [];
      sel := Selection(chain, counts, "", [], [], None);
      NothingListed(chain, "", today, days);
      return;
    }
    ClassesCounted(listed, today, chain, keys, counts);
    var primary := PrimaryClass(symbol, counts);
    var dates := SortedKeys(keys);
    ghost var monthlies, weekly;
    out, monthlies, weekly := Choose(chain, primary, today, days, dates);
    sel := Selection(chain, counts, primary, dates, monthlies, weekly);
    SortedBasis(listed, symbol, today, keys, sel);
    SelectedListed(listed, today, sel, out);
  }

  lemma SelectedListed(listed: seq<ListedExpiry>, today: int, sel: Selection, out: seq<SelectedExpiry>)
    requires Collected(listed, today, sel.chain, sel.dates, sel.counts)
    requires forall i :: 0 <= i < |out| ==> Placed(sel.chain, today, out[i])
    ensures forall i :: 0 <= i < |out| ==>
              out[i].date > today && Names(listed, today, out[i].date, out[i].tradingClass) && StrictlyAscending(out[i].strikes)
  {
    forall i | 0 <= i < |out|
      ensures out[i].date > today && Names(listed, today, out[i].date, out[i].tradingClass) && StrictlyAscending(out[i].strikes)
    {
      assert Placed(sel.chain, today, out[i]);
      assert Lists(sel.chain, out[i].date, out[i].tradingClass);
      NormalizedAscends(sel.chain[out[i].date][out[i].tradingClass]);
    }
  }

  /** An expiry of the chain after today, with its normalized strikes. */
  ghost predicate Placed(ch: Chain, today: int, x: SelectedExpiry)
  {
    x.date > today && Lists(ch, x.date, x.tradingClass) && x.strikes == Normalized(ch[x.date][x.tradingClass])
  }

  method Choose(ch: Chain, primary: string, today: int, days: Sessions, dates: seq<int>)
    returns (out: seq<SelectedExpiry>, ghost monthlies: seq<SelectedExpiry>, ghost weekly: Option<SelectedExpiry>)
    requires Ascends(dates) && (forall d :: d in dates <==> d in ch)
    requires forall d :: d in ch ==> d > today && exists c :: c in ch[d]
    ensures Chosen(ch, primary, today, days, dates, monthlies, weekly)
    ensures forall x :: x in out <==> x in monthlies || weekly == Some(x)
    ensures DatesAscend(out) && |out| <= 3
    ensures forall i :: 0 <= i < |out| ==> Placed(ch, today, out[i])
  {
    var picked := SelectMonthlies(ch, primary, today, days, MonthsOf(dates));
    monthlies := picked;
    MonthliesOrdered(ch, primary, today, days, dates, picked);
    out := picked;
    weekly := None;
    var week := SelectWeekly(dates, days, MapSeq(picked, DateOf()));
    if week.Some? {
      var x := WeeklyExpiry(ch, primary, week.value, dates);
      weekly := Some(x);
      JoinWeekly(ch, today, picked, x);
      out := InsertExpiry(x, picked);
    }
  }

  /** A weekly on a date of its own takes its place among the monthlies. */
  lemma JoinWeekly(ch: Chain, today: int, monthlies: seq<SelectedExpiry>, x: SelectedExpiry)
    requires DatesAscend(monthlies) && |monthlies| <= 2 && x.date !in MapSeq(monthlies, DateOf())
    requires Placed(ch, today, x) && forall k :: 0 <= k < |monthlies| ==> Placed(ch, today, monthlies[k])
    ensures var out := InsertExpiry(x, monthlies);
            && DatesAscend(out) && |out| <= 3 && (forall y :: y in out <==> y in monthlies || y == x)
            && forall i :: 0 <= i < |out| ==> Placed(ch, today, out[i])
  {
    forall i | 0 <= i < |monthlies| ensures monthlies[i].date != x.date {
      assert MapSeq(monthlies, DateOf())[i] == monthlies[i].date;
    }
    InsertExpiryProps(x, monthlies);
    StillPlaced(ch, today, monthlies, x, InsertExpiry(x, monthlies));
  }

  lemma StillPlaced(ch: Chain, today: int, monthlies: seq<SelectedExpiry>, x: SelectedExpiry, out: seq<SelectedExpiry>)
    requires Placed(ch, today, x) && forall k :: 0 <= k < |monthlies| ==> Placed(ch, today, monthlies[k])
    requires forall y :: y in out ==> y == x || y in monthlies
    ensures forall i :: 0 <= i < |out| ==> Placed(ch, today, out[i])
  {
    forall i | 0 <= i < |out| ensures Placed(ch, today, out[i]) {
      assert out[i] in out;
    }
  }

  lemma NothingListed(ch: Chain, primary: string, today: int, days: Sessions)
    ensures Chosen(ch, primary, today, days, [], [], None)
  {
  }

  lemma SortedBasis(listed: seq<ListedExpiry>, symbol: string, today: int, keys: seq<int>, sel: Selection)
    requires Collected(listed, today, sel.chain, keys, sel.counts) && Content(listed, today, sel.chain, sel.counts)
    requires Ascends(sel.dates) && (forall x :: x in sel.dates <==> x in keys) && IsPrimary(symbol, sel.counts, sel.primary)
    ensures Basis(listed, symbol, today, sel)
  {
  }

  lemma ClassesCounted(listed: seq<ListedExpiry>, today: int, ch: Chain, keys: seq<int>, counts: map<string, nat>)
    requires Collected(listed, today, ch, keys, counts) && keys != []
    ensures counts != map[] && forall c :: c in counts ==> counts[c] > 0
  {
    var d := keys[0];
    assert d in keys;
    assert d in ch;
    var c :| c in ch[d];
    assert Lists(ch, d, c);
  }

  method WeeklyExpiry(ch: Chain, primary: string, date: int, ghost dates: seq<int>) returns (x: SelectedExpiry)
    requires date in dates && (forall d :: d in dates <==> d in ch) && (exists c :: c in ch[date])
    ensures x.date == date && x.slot == Weekly && IsWeeklyClass(ch, date, primary, x.tradingClass)
    ensures x.strikes == Normalized(ch[date][x.tradingClass])
  {
    var class_ := primary;
    if !Lists(ch, date, primary) {
      class_ := LeastClass(ch[date].Keys);
    }
    var strikes := NormalizeStrikes(ch[date][class_]);
    x := SelectedExpiry(date, class_, Weekly, strikes);
  }

  // ----- The selection is determined -----

  lemma HasMember<T>(b: seq<T>, a: seq<T>)
    requires b != [] && forall x :: x in b ==> x in a
    ensures a != []
  {
    assert b[0] in b;
  }

  /** Ascending lists of the same numbers are the same list. */
  lemma {:induction false} AscendsUnique(a: seq<int>, b: seq<int>)
    requires Ascends(a) && Ascends(b) && forall x :: x in a <==> x in b
    ensures a == b
    decreases |a|
  {
    if b != [] {
      assert b[0] in b;
      assert b[0] in a;
    }
    if a != [] {
      assert a[0] in a;
      assert a[0] in b;
      SameLast(a, b);
      var p, q := a[..|a| - 1], b[..|b| - 1];
      forall x ensures x in p <==> x in q {
        LastApart(a, x);
        LastApart(b, x);
      }
      AscendsUnique(p, q);
      SameByParts(a, b);
    }
  }

  lemma SameByParts<T>(a: seq<T>, b: seq<T>)
    requires a != [] && b != [] && a[..|a| - 1] == b[..|b| - 1] && a[|a| - 1] == b[|b| - 1]
    ensures a == b
  {
    assert a == a[..|a| - 1] + [a[|a| - 1]] && b == b[..|b| - 1] + [b[|b| - 1]];
  }

  lemma SameLast(a: seq<int>, b: seq<int>)
    requires Ascends(a) && Ascends(b) && a != [] && b != [] && forall x :: x in a <==> x in b
    ensures a[|a| - 1] == b[|b| - 1]
  {
    var x, y := a[|a| - 1], b[|b| - 1];
    assert x in a && x in b;
    assert y in b && y in a;
  }

  lemma LastApart(a: seq<int>, x: int)
    requires Ascends(a) && a != []
    ensures x in a[..|a| - 1] <==> x in a && x != a[|a| - 1]
  {
    assert a == a[..|a| - 1] + [a[|a| - 1]];
  }

  /** Expiries in date order are determined by what they are. */
  lemma {:induction false} DatesUnique(a: seq<SelectedExpiry>, b: seq<SelectedExpiry>)
    requires DatesAscend(a) && DatesAscend(b) && forall x :: x in a <==> x in b
    ensures a == b
    decreases |a|
  {
    if b != [] {
      HasMember(b, a);
    }
    if a != [] {
      HasMember(a, b);
      SameLastExpiry(a, b);
      var p, q := a[..|a| - 1], b[..|b| - 1];
      FrontsAgree(a, p, b, q);
      DatesUnique(p, q);
      SameByParts(a, b);
    }
  }

  lemma FrontsAgree(a: seq<SelectedExpiry>, p: seq<SelectedExpiry>, b: seq<SelectedExpiry>, q: seq<SelectedExpiry>)
    requires DatesAscend(a) && DatesAscend(b) && a != [] && b != [] && a[|a| - 1] == b[|b| - 1] && forall x :: x in a <==> x in b
    requires p == a[..|a| - 1] && q == b[..|b| - 1]
    ensures forall x :: x in p <==> x in q
  {
    forall x ensures x in p <==> x in q {
      LastExpiryApart(a, x);
      LastExpiryApart(b, x);
    }
  }

  lemma SameLastExpiry(a: seq<SelectedExpiry>, b: seq<SelectedExpiry>)
    requires DatesAscend(a) && DatesAscend(b) && a != [] && b != [] && forall x :: x in a <==> x in b
    ensures a[|a| - 1] == b[|b| - 1]
  {
    var x, y := a[|a| - 1], b[|b| - 1];
    assert x in a && y in b;
    var i :| 0 <= i < |b| && b[i] == x;
    var j :| 0 <= j < |a| && a[j] == y;
  }

  lemma LastExpiryApart(a: seq<SelectedExpiry>, x: SelectedExpiry)
    requires DatesAscend(a) && a != []
    ensures x in a[..|a| - 1] <==> x in a && x != a[|a| - 1]
  {
    assert a == a[..|a| - 1] + [a[|a| - 1]];
  }

  lemma PrimaryUnique(symbol: string, counts: map<string, nat>, p: string, q: string)
    requires IsPrimary(symbol, counts, p) && IsPrimary(symbol, counts, q)
    ensures p == q
  {
    LessTotal(p, q);
  }

  lemma ListsUnique(listed: seq<ListedExpiry>, symbol: string, today: int, s: Selection, t: Selection, d: int, c: string)
    requires Basis(listed, symbol, today, s) && Basis(listed, symbol, today, t)
    ensures Lists(s.chain, d, c) <==> Lists(t.chain, d, c)
    ensures Lists(s.chain, d, c) ==> s.chain[d][c] == t.chain[d][c]
  {
    assert Lists(s.chain, d, c) <==> Names(listed, today, d, c);
    assert StrikesAt(s.chain, d, c) == StrikesAt(t.chain, d, c);
  }

  lemma DateListed(listed: seq<ListedExpiry>, symbol: string, today: int, s: Selection, t: Selection, d: int)
    requires Basis(listed, symbol, today, s) && Basis(listed, symbol, today, t) && d in s.chain
    ensures d in t.chain
  {
    var c :| c in s.chain[d];
    ListsUnique(listed, symbol, today, s, t, d, c);
  }

  lemma ClassesUnique(a: map<string, seq<Listing>>, b: map<string, seq<Listing>>)
    requires forall c :: c in a <==> c in b
    requires forall c :: c in a ==> a[c] == b[c]
    ensures a == b
  {
  }

  /** The listings fix the chain. */
  lemma ChainUnique(listed: seq<ListedExpiry>, symbol: string, today: int, s: Selection, t: Selection)
    requires Basis(listed, symbol, today, s) && Basis(listed, symbol, today, t)
    ensures s.chain == t.chain
  {
    forall d ensures d in s.chain <==> d in t.chain {
      if d in s.chain {
        DateListed(listed, symbol, today, s, t, d);
      }
      if d in t.chain {
        DateListed(listed, symbol, today, t, s, d);
      }
    }
    forall d | d in s.chain ensures s.chain[d] == t.chain[d] {
      DateUnique(listed, symbol, today, s, t, d);
    }
  }

  lemma DateUnique(listed: seq<ListedExpiry>, symbol: string, today: int, s: Selection, t: Selection, d: int)
    requires Basis(listed, symbol, today, s) && Basis(listed, symbol, today, t) && d in s.chain && d in t.chain
    ensures s.chain[d] == t.chain[d]
  {
    forall c ensures c in s.chain[d] <==> c in t.chain[d] {
      ListsUnique(listed, symbol, today, s, t, d, c);
    }
    forall c | c in s.chain[d] ensures s.chain[d][c] == t.chain[d][c] {
      ListsUnique(listed, symbol, today, s, t, d, c);
    }
    ClassesUnique(s.chain[d], t.chain[d]);
  }

  lemma CountsUnique(listed: seq<ListedExpiry>, symbol: string, today: int, s: Selection, t: Selection)
    requires Basis(listed, symbol, today, s) && Basis(listed, symbol, today, t) && s.chain == t.chain
    ensures s.counts == t.counts
  {
    forall c ensures c in s.counts <==> c in t.counts {
      if c in s.counts {
        var d :| Lists(s.chain, d, c);
        assert Lists(t.chain, d, c);
      }
      if c in t.counts {
        var d :| Lists(t.chain, d, c);
        assert Lists(s.chain, d, c);
      }
    }
    forall c | c in s.counts ensures s.counts[c] == t.counts[c] {
      assert CountAt(s.counts, c) == CountAt(t.counts, c);
    }
  }

  lemma WeeklyUnique(ch: Chain, primary: string, today: int, days: Sessions, dates: seq<int>, monthlies: seq<SelectedExpiry>,
                     u: Option<SelectedExpiry>, v: Option<SelectedExpiry>)
    requires Chosen(ch, primary, today, days, dates, monthlies, u) && Chosen(ch, primary, today, days, dates, monthlies, v)
    ensures u == v
  {
    if u.Some? && v.Some? {
      LessTotal(u.value.tradingClass, v.value.tradingClass);
    }
  }

  lemma MonthliesUnique(ch: Chain, primary: string, today: int, days: Sessions, months: seq<int>,
                        a: seq<SelectedExpiry>, b: seq<SelectedExpiry>)
    requires FirstTwo(ch, primary, today, days, months, a) && FirstTwo(ch, primary, today, days, months, b)
    ensures a == b
  {
  }

  /** The contract of the selection leaves no choice: listings, symbol, date and calendar
      determine the expiries, their classes and their strikes. */
  lemma SelectionDetermined(symbol: string, listed: seq<ListedExpiry>, today: int, days: Sessions,
                            a: seq<SelectedExpiry>, s: Selection, b: seq<SelectedExpiry>, t: Selection)
    requires Selects(symbol, listed, today, days, a, s) && Selects(symbol, listed, today, days, b, t)
    ensures a == b
  {
    ChainUnique(listed, symbol, today, s, t);
    CountsUnique(listed, symbol, today, s, t);
    AscendsUnique(s.dates, t.dates);
    if s.dates == [] {
      NothingSelected(symbol, listed, today, days, a, s);
      NothingSelected(symbol, listed, today, days, b, t);
    } else {
      PrimaryUnique(symbol, s.counts, s.primary, t.primary);
      MonthliesUnique(s.chain, s.primary, today, days,
                      Qualifying(HasPick(s.chain, s.primary, today, days), MonthsOf(s.dates)), s.monthlies, t.monthlies);
      WeeklyUnique(s.chain, s.primary, today, days, s.dates, s.monthlies, s.weekly, t.weekly);
      DatesUnique(a, b);
    }
  }

  lemma NothingSelected(symbol: string, listed: seq<ListedExpiry>, today: int, days: Sessions,
                        a: seq<SelectedExpiry>, s: Selection)
    requires Selects(symbol, listed, today, days, a, s) && s.dates == []
    ensures a == []
  {
    assert MonthsOf([]) == [];
    assert |s.monthlies| == 0;
    assert s.weekly == None;
    if a != [] {
      HasMember(a, s.monthlies);
    }
  }
}
