/** Calendar dates and month stepping, with the day clamped to the month's end. */
module Dates {
  import opened Prelude

  datatype Date = Date(year: int, month: int, day: int)

  predicate IsLeap(year: int)
  {
    year % 4 == 0 && (year % 100 != 0 || year % 400 == 0)
  }

  /** `calendar.monthrange(year, month)[1]`. */
  function LastDay(year: int, month: int): int
  {
    if month == 2 then (if IsLeap(year) then 29 else 28)
    else if month == 4 || month == 6 || month == 9 || month == 11 then 30
    else 31
  }

  predicate Proper(d: Date)
  {
    1 <= d.month <= 12 && 1 <= d.day <= LastDay(d.year, d.month)
  }

  function MonthIndex(d: Date): int { d.year * 12 + d.month - 1 }

  function LastDayOf(index: int): int { LastDay(index / 12, index % 12 + 1) }

  /** The last day of the month that lies `j` months after d's. */
  function MonthEnd(d: Date, j: int): int { LastDayOf(MonthIndex(d) + j) }

  /** Position in calendar order: proper dates compare as their keys do. */
  function Key(d: Date): int { MonthIndex(d) * 31 + d.day }

  predicate After(d: Date, e: Date) { Key(d) > Key(e) }

  lemma KeysOrderDates(d: Date, e: Date)
    requires Proper(d) && Proper(e)
    ensures Key(d) == Key(e) <==> d == e
    ensures Key(d) < Key(e) <==>
            d.year < e.year || (d.year == e.year && (d.month < e.month || (d.month == e.month && d.day < e.day)))
  {
  }

  /** Days before the first of March of `year`, and days from there to the first of the m-th month
      after March, in the proleptic Gregorian calendar. */
  function DaysToMarch(year: int): int { 365 * year + year / 4 - year / 100 + year / 400 }

  function DaysFromMarch(m: int): int { (153 * m + 2) / 5 }

  /** Day number of a date, counting years from March so that the leap day comes last. */
  function Ordinal(d: Date): int
  {
    DaysToMarch(if d.month <= 2 then d.year - 1 else d.year) + DaysFromMarch((d.month + 9) % 12) + d.day
  }

  /** Month lengths, leap years included, are those of the calendar: the first of the next month
      is that many days after the first of this one. */
  lemma MonthsHaveTheirLength(year: int, month: int)
    requires 1 <= month <= 12
    ensures var next := if month == 12 then Date(year + 1, 1, 1) else Date(year, month + 1, 1);
      Ordinal(next) - Ordinal(Date(year, month, 1)) == LastDay(year, month)
  {
    if month == 2 {
      YearLength(year);
      MarchMonths(month);
    } else {
      OtherMonthsGap(DaysToMarch(if month <= 2 then year - 1 else year), month);
    }
  }

  // Within a year from March, only the months matter.
  lemma OtherMonthsGap(toMarch: int, month: int)
    requires 1 <= month <= 12 && month != 2
    ensures var next := if month == 12 then 10 else (month + 10) % 12;
      (toMarch + DaysFromMarch(next) + 1) - (toMarch + DaysFromMarch((month + 9) % 12) + 1) == LastDay(2000, month)
  {
    MarchMonths(month);
  }

  lemma YearLength(year: int)
    ensures DaysToMarch(year) - DaysToMarch(year - 1) == if IsLeap(year) then 366 else 365
  {
    assert year / 4 - (year - 1) / 4 == if year % 4 == 0 then 1 else 0;
    assert year / 100 - (year - 1) / 100 == if year % 100 == 0 then 1 else 0;
    assert year / 400 - (year - 1) / 400 == if year % 400 == 0 then 1 else 0;
    assert (year % 400 == 0 ==> year % 100 == 0) && (year % 100 == 0 ==> year % 4 == 0);
  }

  // Counted from March the months have 31, 30, 31, 30, 31, 31, 30, 31, 30, 31 and 31 days, and the
  // twelfth, February, begins after 337.
  lemma MarchMonths(month: int)
    requires 1 <= month <= 12
    ensures month != 2 ==>
              DaysFromMarch((month % 12 + 10) % 12) - DaysFromMarch((month + 9) % 12) == LastDay(2000, month)
    ensures DaysFromMarch(0) == 0 && DaysFromMarch(11) == 337
  {
    var m := (month + 9) % 12;
    assert m == if month <= 2 then month + 9 else month - 3;
    assert (month % 12 + 10) % 12 == if month == 2 then 0 else m + 1;
  }

  function AddOneMonth(d: Date): Date
  {
    var year := if d.month == 12 then d.year + 1 else d.year;
    var month := if d.month == 12 then 1 else d.month + 1;
    Date(year, month, Min(d.day, LastDay(year, month)))
  }

  /** The closed form that income forecasting uses for several months at once. */
  function AddMonths(d: Date, months: int): Date
  {
    var year := d.year + (d.month - 1 + months) / 12;
    var month := (d.month - 1 + months) % 12 + 1;
    Date(year, month, Min(d.day, LastDay(year, month)))
  }

  /** The billing chain: the signup date, a month later, a month after that, ... */
  function Chain(d: Date, k: nat): Date
  {
    if k == 0 then d else AddOneMonth(Chain(d, k - 1))
  }

  lemma OneMonthLater(d: Date)
    requires Proper(d)
    ensures Proper(AddOneMonth(d)) && MonthIndex(AddOneMonth(d)) == MonthIndex(d) + 1
    ensures AddOneMonth(d).day == Min(d.day, MonthEnd(d, 1))
    ensures After(AddOneMonth(d), d)
  {
  }

  lemma {:induction false} ChainClimbs(d: Date, k: nat)
    requires Proper(d)
    ensures Proper(Chain(d, k)) && MonthIndex(Chain(d, k)) == MonthIndex(d) + k
    ensures After(Chain(d, k + 1), Chain(d, k))
  {
    if k > 0 {
      ChainClimbs(d, k - 1);
      OneMonthLater(Chain(d, k - 1));
    }
    OneMonthLater(Chain(d, k));
  }

  lemma {:induction false} ChainIsIncreasing(d: Date, j: nat, k: nat)
    requires Proper(d) && j < k
    ensures After(Chain(d, k), Chain(d, j))
    decreases k
  {
    ChainClimbs(d, k - 1);
    if j < k - 1 {
      ChainIsIncreasing(d, j, k - 1);
    }
  }

  lemma AddMonthsLandsInMonth(d: Date, k: nat)
    requires Proper(d)
    ensures Proper(AddMonths(d, k)) && MonthIndex(AddMonths(d, k)) == MonthIndex(d) + k
    ensures AddMonths(d, k).day == Min(d.day, MonthEnd(d, k))
  {
    var n := d.month - 1 + k;
    assert (d.year * 12 + n) / 12 == d.year + n / 12 && (d.year * 12 + n) % 12 == n % 12;
  }

  // The day in the chain is the least of the starting day and the month ends passed so far.
  lemma {:induction false} ChainDayIsLeastSoFar(d: Date, k: nat)
    requires Proper(d)
    ensures Chain(d, k).day <= d.day
    ensures forall j :: 1 <= j <= k ==> Chain(d, k).day <= MonthEnd(d, j)
    ensures Chain(d, k).day == d.day || exists j :: 1 <= j <= k && Chain(d, k).day == MonthEnd(d, j)
  {
    if k > 0 {
      ChainDayIsLeastSoFar(d, k - 1);
      ChainClimbs(d, k - 1);
      OneMonthLater(Chain(d, k - 1));
      assert Chain(d, k).day == Min(Chain(d, k - 1).day, MonthEnd(d, k));
    }
  }

  /** Stepping k times lands in the same month as the closed form and never on a later day.
      They agree exactly when no month passed on the way is too short for the closed form's
      day, and so always for a day up to the 28th. */
  lemma SteppingMeetsClosedForm(d: Date, k: nat)
    requires Proper(d)
    ensures MonthIndex(Chain(d, k)) == MonthIndex(AddMonths(d, k))
    ensures Chain(d, k).day <= AddMonths(d, k).day
    ensures Chain(d, k) == AddMonths(d, k) <==>
            forall j :: 1 <= j <= k ==> AddMonths(d, k).day <= MonthEnd(d, j)
    ensures d.day <= 28 ==> Chain(d, k) == AddMonths(d, k)
  {
    ChainClimbs(d, k);
    AddMonthsLandsInMonth(d, k);
    ChainDayIsLeastSoFar(d, k);
    KeysOrderDates(Chain(d, k), AddMonths(d, k));
    if k > 0 {
      assert Chain(d, k).day <= MonthEnd(d, k);
    }
  }

  /** Stepping through February loses the 31st for good; the closed form does not. */
  lemma ClampingSticks()
    ensures Chain(Date(2026, 1, 31), 2) == Date(2026, 3, 28) && AddMonths(Date(2026, 1, 31), 2) == Date(2026, 3, 31)
  {
    assert Chain(Date(2026, 1, 31), 1) == Date(2026, 2, 28);
  }
}
