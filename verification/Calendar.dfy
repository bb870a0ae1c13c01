/** The proleptic Gregorian calendar: a date for every day number, counted from
    1 January of year 1, and the day number of every date. */
module Calendar {

  datatype Date = Date(year: nat, month: nat, day: nat)

  predicate Leap(y: nat) { y % 4 == 0 && (y % 100 != 0 || y % 400 == 0) }

  function DaysIn(y: nat, m: nat): nat {
    if m == 2 then (if Leap(y) then 29 else 28)
    else if m in {4, 6, 9, 11} then 30 else 31
  }

  predicate Valid(d: Date) {
    d.year >= 1 && 1 <= d.month <= 12 && 1 <= d.day <= DaysIn(d.year, d.month)
  }

  function NextDay(d: Date): Date {
    if d.day < DaysIn(d.year, d.month) then d.(day := d.day + 1)
    else if d.month < 12 then Date(d.year, d.month + 1, 1)
    else Date(d.year + 1, 1, 1)
  }

  /** Day 1 is Monday, 1 January of year 1; each day is followed by the next. */
  function DateOf(n: nat): Date {
    if n <= 1 then Date(1, 1, 1) else NextDay(DateOf(n - 1))
  }

  function DaysInYear(y: nat): nat { if Leap(y) then 366 else 365 }

  function DaysBeforeYear(y: nat): nat {
    if y <= 1 then 0 else DaysBeforeYear(y - 1) + DaysInYear(y - 1)
  }

  function DaysBeforeMonth(y: nat, m: nat): nat {
    if m <= 1 then 0 else DaysBeforeMonth(y, m - 1) + DaysIn(y, m - 1)
  }

  function Ordinal(d: Date): nat {
    DaysBeforeYear(d.year) + DaysBeforeMonth(d.year, d.month) + d.day
  }

  lemma MonthsOfYear(y: nat)
    ensures DaysBeforeMonth(y, 2) == 31
    ensures DaysBeforeMonth(y, 3) == 31 + DaysIn(y, 2)
    ensures DaysBeforeMonth(y, 12) + 31 == DaysInYear(y)
  {
    assert DaysBeforeMonth(y, 3) == DaysBeforeMonth(y, 2) + DaysIn(y, 2);
    assert DaysBeforeMonth(y, 5) == DaysBeforeMonth(y, 3) + 61;
    assert DaysBeforeMonth(y, 7) == DaysBeforeMonth(y, 5) + 61;
    assert DaysBeforeMonth(y, 9) == DaysBeforeMonth(y, 7) + 62;
    assert DaysBeforeMonth(y, 11) == DaysBeforeMonth(y, 9) + 61;
    assert DaysBeforeMonth(y, 12) == DaysBeforeMonth(y, 11) + 30;
  }

  lemma NextDayAdvances(d: Date)
    requires Valid(d)
    ensures Valid(NextDay(d)) && Ordinal(NextDay(d)) == Ordinal(d) + 1
  {
    MonthsOfYear(d.year);
  }

  lemma {:induction false} OrdinalOfDateOf(n: nat)
    requires n >= 1
    ensures Valid(DateOf(n)) && Ordinal(DateOf(n)) == n
  {
    if n > 1 {
      OrdinalOfDateOf(n - 1);
      NextDayAdvances(DateOf(n - 1));
    }
  }

  lemma {:induction false} YearsGrow(y: nat, z: nat)
    requires 1 <= y <= z
    ensures DaysBeforeYear(y) + 365 * (z - y) <= DaysBeforeYear(z) <= DaysBeforeYear(y) + 366 * (z - y)
    decreases z - y
  {
    if y < z {
      YearsGrow(y, z - 1);
    }
  }

  lemma {:induction false} MonthsGrow(y: nat, m: nat, n: nat)
    requires 1 <= m < n
    ensures DaysBeforeMonth(y, m) + DaysIn(y, m) <= DaysBeforeMonth(y, n)
    decreases n
  {
    if m < n - 1 { MonthsGrow(y, m, n - 1); }
  }

  /** A day lies within its year. */
  lemma DayWithinYear(d: Date)
    requires Valid(d)
    ensures DaysBeforeYear(d.year) < Ordinal(d) <= DaysBeforeYear(d.year + 1)
  {
    MonthsOfYear(d.year);
    if d.month < 12 { MonthsGrow(d.year, d.month, 12); }
  }

  /** Day numbers order dates by year, then month, then day. */
  lemma EarlierDate(d: Date, e: Date)
    requires Valid(d) && Valid(e)
    requires d.year < e.year || (d.year == e.year && (d.month < e.month || (d.month == e.month && d.day < e.day)))
    ensures Ordinal(d) < Ordinal(e)
  {
    if d.year < e.year {
      DayWithinYear(d);
      DayWithinYear(e);
      YearsGrow(d.year + 1, e.year);
    } else if d.month < e.month {
      MonthsGrow(d.year, d.month, e.month);
    }
  }

  /** The two directions are inverse: every valid date is the date of its day number. */
  lemma DateOfOrdinal(d: Date)
    requires Valid(d)
    ensures Ordinal(d) >= 1 && DateOf(Ordinal(d)) == d
  {
    DayWithinYear(d);
    YearsGrow(1, d.year);
    var e := DateOf(Ordinal(d));
    OrdinalOfDateOf(Ordinal(d));
    if d != e {
      if d.year < e.year || (d.year == e.year && (d.month < e.month || (d.month == e.month && d.day < e.day))) {
        EarlierDate(d, e);
      } else {
        EarlierDate(e, d);
      }
    }
  }

  /** A day number inside a span of years is a date inside that span. */
  lemma YearOfDay(n: nat, from: nat, to: nat)
    requires n >= 1 && 1 <= from <= to
    requires DaysBeforeYear(from) < n <= DaysBeforeYear(to + 1)
    ensures from <= DateOf(n).year <= to
  {
    var d := DateOf(n);
    OrdinalOfDateOf(n);
    DayWithinYear(d);
    if d.year < from { YearsGrow(d.year + 1, from); }
    if d.year > to { YearsGrow(to + 1, d.year); }
  }
}
