/** What a selection of expiries means in terms of the listings and the calendar alone. */
module ExpiryMeaning {
  import opened Sequences
  import opened Contracts
  import opened Text
  import opened Calendar
  import opened Strikes
  import opened Expiries

  ghost predicate ListedDate(listed: seq<ListedExpiry>, today: int, d: int) { exists c :: Names(listed, today, d, c) }

  ghost predicate ListedMonth(listed: seq<ListedExpiry>, today: int, mm: int)
  {
    exists d :: ListedDate(listed, today, d) && MonthOf(d) == mm
  }

  /** The class names the month's standard expiration or the trading day before it. */
  ghost predicate HasMonthly(listed: seq<ListedExpiry>, today: int, days: Sessions, class_: string, mm: int)
  {
    var m := StandardMonthly(mm, days);
    Names(listed, today, m, class_) || Names(listed, today, PreviousTradingDay(m, days), class_)
  }

  /** The date of a month's monthly: the standard expiration when the class names it, else the
      trading day before, which the class then names. */
  ghost predicate StandsFor(listed: seq<ListedExpiry>, today: int, days: Sessions, class_: string, mm: int, date: int)
  {
    var m := StandardMonthly(mm, days);
    if Names(listed, today, m, class_) then date == m
    else date == PreviousTradingDay(m, days) && Names(listed, today, date, class_)
  }

  /** A date that may be the weekly: the last listed one of its week, a Friday, or a Thursday before
      a Friday without trading, not a standard expiration and not taken. */
  ghost predicate EndsWeek(listed: seq<ListedExpiry>, today: int, days: Sessions, taken: seq<SelectedExpiry>, d: int)
  {
    && ListedDate(listed, today, d)
    && (forall e :: ListedDate(listed, today, e) && MondayOf(e) == MondayOf(d) ==> e <= d)
    && (Weekday(d) == 5 || (Weekday(d) == 4 && !TradingDay(days, d + 1)))
    && d != StandardMonthly(MonthOf(d), days)
    && (forall k :: 0 <= k < |taken| ==> taken[k].date != d)
  }

  lemma DatesAreListed(symbol: string, listed: seq<ListedExpiry>, today: int, sel: Selection, d: int)
    requires Basis(listed, symbol, today, sel)
    ensures d in sel.dates <==> ListedDate(listed, today, d)
    ensures forall c :: Lists(sel.chain, d, c) <==> Names(listed, today, d, c)
  {
    assert d in sel.dates <==> d in sel.chain;
    if d in sel.chain {
      var c :| c in sel.chain[d];
      assert Lists(sel.chain, d, c);
      assert Names(listed, today, d, c);
    }
    if c :| Names(listed, today, d, c) {
      assert Lists(sel.chain, d, c);
    }
  }

  lemma NamedIsLater(listed: seq<ListedExpiry>, today: int, d: int, c: string)
    requires Names(listed, today, d, c)
    ensures d > today
  {
  }

  lemma PickMeans(symbol: string, listed: seq<ListedExpiry>, today: int, days: Sessions, sel: Selection, mm: int)
    requires Basis(listed, symbol, today, sel)
    ensures var pick := PickMonthly(sel.chain, sel.primary, today, days, mm);
            && (pick.Some? <==> HasMonthly(listed, today, days, sel.primary, mm))
            && (pick.Some? ==> StandsFor(listed, today, days, sel.primary, mm, pick.value))
  {
    var m := StandardMonthly(mm, days);
    var p := PreviousTradingDay(m, days);
    DatesAreListed(symbol, listed, today, sel, m);
    DatesAreListed(symbol, listed, today, sel, p);
    if Names(listed, today, m, sel.primary) {
      NamedIsLater(listed, today, m, sel.primary);
    }
    if Names(listed, today, p, sel.primary) {
      NamedIsLater(listed, today, p, sel.primary);
    }
  }

  lemma MonthsListed(symbol: string, listed: seq<ListedExpiry>, today: int, sel: Selection, mm: int)
    requires Basis(listed, symbol, today, sel)
    ensures mm in MonthsOf(sel.dates) <==> ListedMonth(listed, today, mm)
  {
    var months := MonthsOf(sel.dates);
    if mm in months {
      var i :| 0 <= i < |months| && months[i] == mm;
      DatesAreListed(symbol, listed, today, sel, sel.dates[i]);
      assert sel.dates[i] in sel.dates;
      assert MonthOf(sel.dates[i]) == mm;
    }
    if d :| ListedDate(listed, today, d) && MonthOf(d) == mm {
      DatesAreListed(symbol, listed, today, sel, d);
      var i :| 0 <= i < |sel.dates| && sel.dates[i] == d;
      assert months[i] == mm;
    }
  }

  /** The monthlies stand for the two earliest months with a listed date in which the primary class
      names the standard expiration or the trading day before; of the two dates the standard one is
      preferred, and no such month is passed over. */
  lemma MonthliesMean(symbol: string, listed: seq<ListedExpiry>, today: int, days: Sessions,
                      out: seq<SelectedExpiry>, sel: Selection) returns (months: seq<int>)
    requires Selects(symbol, listed, today, days, out, sel)
    ensures |months| == |sel.monthlies| <= 2 && (|months| == 2 ==> months[0] < months[1])
    ensures forall k :: 0 <= k < |months| ==>
              && ListedMonth(listed, today, months[k])
              && StandsFor(listed, today, days, sel.primary, months[k], sel.monthlies[k].date)
              && sel.monthlies[k].tradingClass == sel.primary
              && sel.monthlies[k].slot == (if k == 0 then Monthly1 else Monthly2)
              && sel.monthlies[k].strikes == Normalized(StrikesOf(listed, today, sel.monthlies[k].date, sel.primary))
    ensures forall mm :: ListedMonth(listed, today, mm) && HasMonthly(listed, today, days, sel.primary, mm) ==>
              mm in months || (|months| == 2 && months[1] < mm)
  {
    var has, all := HasPick(sel.chain, sel.primary, today, days), MonthsOf(sel.dates);
    var qualifying := Qualifying(has, all);
    MonthsNeverDescend(sel.dates);
    QualifyingAscends(has, all);
    QualifyingMembers(has, all);
    months := qualifying[..|sel.monthlies|];
    forall k | 0 <= k < |months|
      ensures ListedMonth(listed, today, months[k])
      ensures StandsFor(listed, today, days, sel.primary, months[k], sel.monthlies[k].date)
      ensures sel.monthlies[k].strikes == Normalized(StrikesOf(listed, today, sel.monthlies[k].date, sel.primary))
    {
      assert months[k] == qualifying[k] && qualifying[k] in qualifying;
      MonthsListed(symbol, listed, today, sel, months[k]);
      PickMeans(symbol, listed, today, days, sel, months[k]);
      var d := sel.monthlies[k].date;
      assert StrikesAt(sel.chain, d, sel.primary) == StrikesOf(listed, today, d, sel.primary);
    }
    forall mm | ListedMonth(listed, today, mm) && HasMonthly(listed, today, days, sel.primary, mm)
      ensures mm in months || (|months| == 2 && months[1] < mm)
    {
      MonthsListed(symbol, listed, today, sel, mm);
      PickMeans(symbol, listed, today, days, sel, mm);
      assert mm in qualifying;
      LaterOrAmong(qualifying, |sel.monthlies|, mm);
    }
  }

  lemma LaterOrAmong(s: seq<int>, n: nat, x: int)
    requires Ascends(s) && n == Min(2, |s|) && x in s
    ensures x in s[..n] || (n == 2 && s[1] < x)
  {
    var k :| 0 <= k < |s| && s[k] == x;
    if k < n {
      assert s[..n][k] == x;
    }
  }

  /** The weekly is the earliest date that may be one; its class is the primary one when that class
      names the date, else the first by name that does. */
  lemma WeeklyMeans(symbol: string, listed: seq<ListedExpiry>, today: int, days: Sessions, out: seq<SelectedExpiry>, sel: Selection)
    requires Selects(symbol, listed, today, days, out, sel)
    ensures forall d :: EndsWeek(listed, today, days, sel.monthlies, d) ==> sel.weekly.Some? && sel.weekly.value.date <= d
    ensures sel.weekly.Some? ==>
              var x := sel.weekly.value;
              && EndsWeek(listed, today, days, sel.monthlies, x.date) && x.slot == Weekly
              && Names(listed, today, x.date, x.tradingClass)
              && (Names(listed, today, x.date, sel.primary) ==> x.tradingClass == sel.primary)
              && (!Names(listed, today, x.date, sel.primary) ==>
                    forall c :: Names(listed, today, x.date, c) ==> c == x.tradingClass || Less(x.tradingClass, c))
              && x.strikes == Normalized(StrikesOf(listed, today, x.date, x.tradingClass))
  {
    var taken := MapSeq(sel.monthlies, DateOf());
    forall d ensures WeeklyCandidate(sel.dates, days, taken, d) <==> EndsWeek(listed, today, days, sel.monthlies, d) {
      CandidateMeans(symbol, listed, today, days, sel, d);
    }
    if sel.weekly.Some? {
      var x := sel.weekly.value;
      DatesAreListed(symbol, listed, today, sel, x.date);
      assert StrikesAt(sel.chain, x.date, x.tradingClass) == StrikesOf(listed, today, x.date, x.tradingClass);
      forall c | Names(listed, today, x.date, c) ensures c in sel.chain[x.date] {
        assert Lists(sel.chain, x.date, c);
      }
    }
  }

  lemma CandidateMeans(symbol: string, listed: seq<ListedExpiry>, today: int, days: Sessions, sel: Selection, d: int)
    requires Basis(listed, symbol, today, sel)
    ensures WeeklyCandidate(sel.dates, days, MapSeq(sel.monthlies, DateOf()), d)
            <==> EndsWeek(listed, today, days, sel.monthlies, d)
  {
    forall e ensures e in sel.dates <==> ListedDate(listed, today, e) {
      DatesAreListed(symbol, listed, today, sel, e);
    }
    NotTaken(sel.monthlies, d);
  }

  lemma NotTaken(monthlies: seq<SelectedExpiry>, d: int)
    ensures d in MapSeq(monthlies, DateOf()) <==> exists k :: 0 <= k < |monthlies| && monthlies[k].date == d
  {
    var taken := MapSeq(monthlies, DateOf());
    if d in taken {
      var k :| 0 <= k < |taken| && taken[k] == d;
      assert monthlies[k].date == d;
    }
    if k :| 0 <= k < |monthlies| && monthlies[k].date == d {
      assert taken[k] == d;
    }
  }

  /** The primary class: the symbol's own when it is listed, else the one listed most often, the
      first by name among equals. */
  lemma PrimaryMeans(symbol: string, listed: seq<ListedExpiry>, today: int, sel: Selection)
    requires Basis(listed, symbol, today, sel) && sel.dates != []
    ensures ClassCount(listed, today, symbol) > 0 ==> sel.primary == symbol
    ensures ClassCount(listed, today, symbol) == 0 ==>
              forall c :: c == sel.primary || ClassCount(listed, today, c) < ClassCount(listed, today, sel.primary)
                          || (ClassCount(listed, today, c) == ClassCount(listed, today, sel.primary) && Less(sel.primary, c))
  {
    forall c ensures CountAt(sel.counts, c) == ClassCount(listed, today, c) && (c in sel.counts ==> sel.counts[c] > 0) {
      if c in sel.counts {
        var d :| Lists(sel.chain, d, c);
      }
    }
  }

  // ----- What the listings name -----

  /** A listing counts when its date can be read and lies after today and it names a class. */
  lemma NamesMeans(listed: seq<ListedExpiry>, today: int, d: int, c: string)
    ensures Names(listed, today, d, c) <==>
            d > today && c != "" && exists i :: 0 <= i < |listed| && listed[i].date == Some(d) && listed[i].tradingClass == c
  {
    if Names(listed, today, d, c) {
      var i :| 0 <= i < |listed| && Considered(listed[i], today) && listed[i].date.value == d && listed[i].tradingClass == c;
      assert listed[i].date == Some(d);
    }
    if d > today && c != "" {
      if i :| 0 <= i < |listed| && listed[i].date == Some(d) && listed[i].tradingClass == c {
        assert Considered(listed[i], today) && listed[i].date.value == d;
      }
    }
  }

  /** The dates a class is named on. */
  ghost function ClassDates(listed: seq<ListedExpiry>, today: int, c: string): set<int>
  {
    if listed == [] then {}
    else
      var l := listed[|listed| - 1];
      ClassDates(listed[..|listed| - 1], today, c) + (if Considered(l, today) && l.tradingClass == c then {l.date.value} else {})
  }

  lemma {:induction false} StrikesWhereNamed(listed: seq<ListedExpiry>, today: int, d: int, c: string)
    requires forall i :: 0 <= i < |listed| ==> listed[i].strikes != []
    ensures StrikesOf(listed, today, d, c) != [] <==> d in ClassDates(listed, today, c)
  {
    if listed != [] {
      StrikesWhereNamed(listed[..|listed| - 1], today, d, c);
    }
  }

  /** When every listing brings strikes, a class counts once for every date it is named on. */
  lemma {:induction false} ClassCountMeans(listed: seq<ListedExpiry>, today: int, c: string)
    requires forall i :: 0 <= i < |listed| ==> listed[i].strikes != []
    ensures ClassCount(listed, today, c) == |ClassDates(listed, today, c)|
  {
    if listed != [] {
      var before, l := listed[..|listed| - 1], listed[|listed| - 1];
      ClassCountMeans(before, today, c);
      if Considered(l, today) && l.tradingClass == c {
        StrikesWhereNamed(before, today, l.date.value, c);
        if l.date.value in ClassDates(before, today, c) {
          assert ClassDates(listed, today, c) == ClassDates(before, today, c);
        }
      }
    }
  }
}
