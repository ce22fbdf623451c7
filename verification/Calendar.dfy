/** The proleptic Gregorian calendar on day numbers: 1 is Monday, 1 January of year 1. */
module Calendar {
  import opened Sequences

  predicate Leap(y: int) { y % 4 == 0 && (y % 100 != 0 || y % 400 == 0) }

  /** The length of a month; months are numbered 12 * year + month, January being 0. */
  function DaysIn(mm: int): (n: int)
    ensures 28 <= n <= 31
  {
    var m := mm % 12;
    if m == 1 then (if Leap(mm / 12) then 29 else 28)
    else if m in {3, 5, 8, 10} then 30
    else 31
  }

  const JANUARY_1 := 12

  /** The first day of a month, counted from January of year 1. */
  function MonthStart(mm: int): int
    decreases if mm >= JANUARY_1 then mm - JANUARY_1 else JANUARY_1 - mm
  {
    if mm == JANUARY_1 then 1
    else if mm > JANUARY_1 then MonthStart(mm - 1) + DaysIn(mm - 1)
    else MonthStart(mm + 1) - DaysIn(mm)
  }

  lemma MonthLength(mm: int)
    ensures MonthStart(mm + 1) == MonthStart(mm) + DaysIn(mm)
  {
  }

  lemma {:induction false} MonthsApart(a: int, b: int)
    requires a <= b
    ensures MonthStart(a) + 28 * (b - a) <= MonthStart(b)
    decreases b - a
  {
    if a < b {
      MonthsApart(a, b - 1);
      MonthLength(b - 1);
    }
  }

  /** The month a day falls in, searched downwards. */
  function MonthDown(d: int, mm: int): (r: int)
    requires d < MonthStart(mm + 1)
    ensures MonthStart(r) <= d < MonthStart(r + 1)
    decreases MonthStart(mm) - d
  {
    if MonthStart(mm) <= d then mm
    else
      MonthLength(mm - 1);
      MonthDown(d, mm - 1)
  }

  lemma MonthBound(mm: int)
    requires mm >= 24
    ensures MonthStart(mm) >= mm
  {
    MonthsApart(JANUARY_1, mm);
  }

  function MonthOf(d: int): (r: int)
    ensures MonthStart(r) <= d < MonthStart(r + 1)
  {
    var top := Max(d, 24);
    MonthBound(top + 1);
    MonthDown(d, top)
  }

  /** Months do not overlap. */
  lemma MonthUnique(d: int, a: int, b: int)
    requires MonthStart(a) <= d < MonthStart(a + 1) && MonthStart(b) <= d < MonthStart(b + 1)
    ensures a == b
  {
    if a < b {
      MonthsApart(a + 1, b);
    } else if b < a {
      MonthsApart(b + 1, a);
    }
  }

  lemma MonthOfUnique(d: int, mm: int)
    requires MonthStart(mm) <= d < MonthStart(mm + 1)
    ensures MonthOf(d) == mm
  {
    MonthUnique(d, MonthOf(d), mm);
  }

  lemma MonthOfMonotone(c: int, d: int)
    requires c <= d
    ensures MonthOf(c) <= MonthOf(d)
  {
    if MonthOf(d) < MonthOf(c) {
      MonthsApart(MonthOf(d) + 1, MonthOf(c));
    }
  }

  // ----- Weekdays and trading days -----

  const SUNDAY := 0
  const THURSDAY := 4
  const FRIDAY := 5
  const SATURDAY := 6

  function Weekday(d: int): int { d % 7 }

  /** The Monday of a day's week. */
  function MondayOf(d: int): int { d - (Weekday(d) + 6) % 7 }

  lemma MondayProps(d: int)
    ensures Weekday(MondayOf(d)) == 1 && MondayOf(d) <= d <= MondayOf(d) + 6
    ensures forall e :: MondayOf(e) == MondayOf(d) <==> MondayOf(d) <= e <= MondayOf(d) + 6
  {
  }

  /** What the exchange calendar says of a date; unknown outside its coverage. */
  datatype Session = Trades | Rests | Unknown

  type Sessions = int -> Session

  predicate TradingDay(days: Sessions, d: int)
  {
    Weekday(d) != SATURDAY && Weekday(d) != SUNDAY && !days(d).Rests?
  }

  /** The latest trading day among d and the n - 1 days before it, or d - n. */
  function StepBack(days: Sessions, d: int, n: nat): int
    decreases n
  {
    if n == 0 || TradingDay(days, d) then d else StepBack(days, d - 1, n - 1)
  }

  lemma {:induction false} StepBackLatest(days: Sessions, d: int, n: nat)
    ensures d - n <= StepBack(days, d, n) <= d
    ensures forall e :: StepBack(days, d, n) < e <= d ==> !TradingDay(days, e)
    ensures StepBack(days, d, n) > d - n ==> TradingDay(days, StepBack(days, d, n))
    decreases n
  {
    if n > 0 && !TradingDay(days, d) {
      StepBackLatest(days, d - 1, n - 1);
    }
  }

  method StepBackLoop(days: Sessions, from: int, n: nat) returns (d: int)
    ensures d == StepBack(days, from, n)
  {
    d := from;
    for i := 0 to n
      invariant StepBack(days, from, n) == StepBack(days, d, n - i)
    {
      if TradingDay(days, d) {
        return;
      }
      d := d - 1;
    }
  }

  /** The third Friday on or after a day. */
  function ThirdFridayFrom(first: int): int { first + (FRIDAY - Weekday(first) + 7) % 7 + 14 }

  lemma ThirdFridayFromIs(first: int)
    ensures Weekday(ThirdFridayFrom(first)) == FRIDAY && first + 14 <= ThirdFridayFrom(first) <= first + 20
  {
  }

  function ThirdFriday(mm: int): int { ThirdFridayFrom(MonthStart(mm)) }

  /** The third Friday is a Friday on day 15 to 21 of its month. */
  lemma ThirdFridayIs(mm: int)
    ensures Weekday(ThirdFriday(mm)) == FRIDAY
    ensures MonthStart(mm) + 14 <= ThirdFriday(mm) <= MonthStart(mm) + 20
    ensures MonthOf(ThirdFriday(mm)) == mm
  {
    ThirdFridayFromIs(MonthStart(mm));
    MonthLength(mm);
    MonthOfUnique(ThirdFriday(mm), mm);
  }

  /** The month's standard expiration. */
  function StandardMonthly(mm: int, days: Sessions): int { StepBack(days, ThirdFriday(mm), 5) }

  function PreviousTradingDay(d: int, days: Sessions): int { StepBack(days, d - 1, 10) }

  /** The standard expiration stays in its month, on day 10 to 21. */
  lemma StandardMonthlyRange(mm: int, days: Sessions)
    ensures MonthStart(mm) + 9 <= StandardMonthly(mm, days) <= MonthStart(mm) + 20
    ensures MonthOf(StandardMonthly(mm, days)) == mm
  {
    ThirdFridayIs(mm);
    StepBackLatest(days, ThirdFriday(mm), 5);
    MonthLength(mm);
    MonthOfUnique(StandardMonthly(mm, days), mm);
  }

  /** It is the latest trading day up to the third Friday whenever one lies within the five-day window. */
  lemma StandardMonthlyIs(mm: int, days: Sessions)
    ensures forall e :: StandardMonthly(mm, days) < e <= ThirdFriday(mm) ==> !TradingDay(days, e)
    ensures (exists e :: ThirdFriday(mm) - 5 < e <= ThirdFriday(mm) && TradingDay(days, e)) ==>
              TradingDay(days, StandardMonthly(mm, days))
  {
    StepBackLatest(days, ThirdFriday(mm), 5);
  }

  /** The day before the standard expiration reaches back at most into the last days of the month before. */
  lemma PreviousStaysNear(mm: int, days: Sessions)
    ensures MonthStart(mm) - 2 <= PreviousTradingDay(StandardMonthly(mm, days), days) < StandardMonthly(mm, days)
  {
    StandardMonthlyRange(mm, days);
    PreviousNear(StandardMonthly(mm, days), days);
  }

  /** It is the latest trading day before d whenever one of the ten days before d trades. */
  lemma PreviousIs(d: int, days: Sessions)
    ensures forall e :: PreviousTradingDay(d, days) < e < d ==> !TradingDay(days, e)
    ensures (exists e :: d - 11 < e < d && TradingDay(days, e)) ==> TradingDay(days, PreviousTradingDay(d, days))
  {
    StepBackLatest(days, d - 1, 10);
  }

  lemma PreviousNear(d: int, days: Sessions)
    ensures d - 11 <= PreviousTradingDay(d, days) < d
  {
    StepBackLatest(days, d - 1, 10);
  }

  // ----- The Gregorian calendar -----

  /** The months of a year, and February by the leap rule. */
  lemma MonthLengths(y: int, k: nat)
    requires k < 12
    ensures var leap := y % 400 == 0 || (y % 4 == 0 && y % 100 != 0);
            DaysIn(12 * y + k) == [31, if leap then 29 else 28, 31, 30, 31, 30, 31, 31, 30, 31, 30, 31][k]
  {
    assert (12 * y + k) % 12 == k && (12 * y + k) / 12 == y;
  }

  /** Months follow each other without a gap. */
  lemma {:induction false} MonthsOn(mm: int, n: nat)
    ensures MonthStart(mm + n) == MonthStart(mm) + DaysFrom(mm, n)
  {
    if n > 0 {
      MonthsOn(mm, n - 1);
      MonthLength(mm + n - 1);
    }
  }

  /** The days of n months. */
  function DaysFrom(mm: int, n: nat): int { if n == 0 then 0 else DaysFrom(mm, n - 1) + DaysIn(mm + n - 1) }

  lemma QuarterDays(y: int, q: nat)
    requires q < 4
    ensures DaysFrom(12 * y, 3 * q + 3) - DaysFrom(12 * y, 3 * q) == [if Leap(y) then 91 else 90, 91, 92, 92][q]
  {
    var k := 3 * q;
    assert DaysFrom(12 * y, k + 1) == DaysFrom(12 * y, k) + DaysIn(12 * y + k);
    assert DaysFrom(12 * y, k + 2) == DaysFrom(12 * y, k + 1) + DaysIn(12 * y + k + 1);
    assert DaysFrom(12 * y, k + 3) == DaysFrom(12 * y, k + 2) + DaysIn(12 * y + k + 2);
    MonthLengths(y, k);
    MonthLengths(y, k + 1);
    MonthLengths(y, k + 2);
  }

  /** A year has 366 days if it is a leap year and 365 otherwise. */
  lemma YearDays(y: int)
    ensures DaysFrom(12 * y, 12) == if Leap(y) then 366 else 365
  {
    QuarterDays(y, 0);
    QuarterDays(y, 1);
    QuarterDays(y, 2);
    QuarterDays(y, 3);
    assert DaysFrom(12 * y, 0) == 0;
  }

  /** The first of January of year 1 is a Monday. */
  lemma FirstDay()
    ensures MonthStart(12) == 1 && Weekday(1) == 1
  {
  }

  /** Weekends never trade; any other day does unless the exchange calendar says it rests. */
  lemma TradingDayMeans(days: Sessions, d: int)
    ensures TradingDay(days, d) <==> 1 <= d % 7 <= 5 && days(d) != Rests
  {
  }
}
