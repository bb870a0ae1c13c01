/** What a schedule means, from the outside: the minute it names on the clock, the weekday
    of a date, and the either-day rule as two simpler schedules side by side. */
module CronLaws {
  import opened Wrappers
  import opened Calendar
  import opened CronSchedule
  import opened CronHorizon

  // --- weekdays --------------------------------------------------------------------------

  /** The days of the years before `y`, from the Gregorian leap rule alone. */
  lemma {:induction false} GregorianCount(y: nat)
    requires y >= 1
    ensures DaysBeforeYear(y) == 365 * (y - 1) + LeapDays(y - 1)
  {
    if y > 1 {
      GregorianCount(y - 1);
      LeapCounts(y - 1);
    }
  }

  /** Leap days up to and including year `y`. */
  function LeapDays(y: nat): nat { y / 4 - y / 100 + y / 400 }

  /** There is one more exactly in a leap year. */
  lemma LeapCounts(y: nat)
    requires y >= 1
    ensures LeapDays(y) == LeapDays(y - 1) + if Leap(y) then 1 else 0
  {
    Fourths(y);
    Hundredths(y);
    FourHundredths(y);
    Divisible(y);
  }

  /** Quotients grow by one at a multiple, and only there. */
  lemma Fourths(y: nat)
    requires y >= 1
    ensures y / 4 == (y - 1) / 4 + if y % 4 == 0 then 1 else 0
  {
  }

  lemma Hundredths(y: nat)
    requires y >= 1
    ensures y / 100 == (y - 1) / 100 + if y % 100 == 0 then 1 else 0
  {
  }

  lemma FourHundredths(y: nat)
    requires y >= 1
    ensures y / 400 == (y - 1) / 400 + if y % 400 == 0 then 1 else 0
  {
  }

  lemma Divisible(y: nat)
    ensures y % 100 == 0 ==> y % 4 == 0
    ensures y % 400 == 0 ==> y % 100 == 0
  {
    if y % 100 == 0 { assert y == 4 * (25 * (y / 100)); }
    if y % 400 == 0 { assert y == 100 * (4 * (y / 400)); }
  }

  const MONTH_SHIFT: seq<nat> := [0, 3, 2, 5, 0, 3, 5, 1, 4, 6, 2, 4]

  /** Sakamoto's weekday of a date, Sunday being 0. January and February count with the year
      before. */
  function Weekday(d: Date): nat
    requires Valid(d)
  {
    var y := if d.month < 3 then d.year - 1 else d.year;
    (y + LeapDays(y) + MONTH_SHIFT[d.month - 1] + d.day) % 7
  }

  /** Days before a month, month by month. */
  lemma MonthTable(y: nat)
    ensures var f := DaysIn(y, 2);
            && DaysBeforeMonth(y, 1) == 0 && DaysBeforeMonth(y, 2) == 31 && DaysBeforeMonth(y, 3) == 31 + f
            && DaysBeforeMonth(y, 4) == 62 + f && DaysBeforeMonth(y, 5) == 92 + f && DaysBeforeMonth(y, 6) == 123 + f
            && DaysBeforeMonth(y, 7) == 153 + f && DaysBeforeMonth(y, 8) == 184 + f && DaysBeforeMonth(y, 9) == 215 + f
            && DaysBeforeMonth(y, 10) == 245 + f && DaysBeforeMonth(y, 11) == 276 + f && DaysBeforeMonth(y, 12) == 306 + f
  {
    assert DaysBeforeMonth(y, 3) == DaysBeforeMonth(y, 2) + DaysIn(y, 2);
    assert DaysBeforeMonth(y, 4) == DaysBeforeMonth(y, 3) + 31;
    assert DaysBeforeMonth(y, 5) == DaysBeforeMonth(y, 4) + 30;
    assert DaysBeforeMonth(y, 6) == DaysBeforeMonth(y, 5) + 31;
    assert DaysBeforeMonth(y, 7) == DaysBeforeMonth(y, 6) + 30;
    assert DaysBeforeMonth(y, 8) == DaysBeforeMonth(y, 7) + 31;
    assert DaysBeforeMonth(y, 9) == DaysBeforeMonth(y, 8) + 31;
    assert DaysBeforeMonth(y, 10) == DaysBeforeMonth(y, 9) + 30;
    assert DaysBeforeMonth(y, 11) == DaysBeforeMonth(y, 10) + 31;
    assert DaysBeforeMonth(y, 12) == DaysBeforeMonth(y, 11) + 30;
  }

  /** The remainder of a day number by seven is the weekday of its date, Sunday being 0. */
  lemma WeekdayOfDay(n: nat)
    requires n >= 1
    ensures Valid(DateOf(n)) && n % 7 == Weekday(DateOf(n))
  {
    OrdinalOfDateOf(n);
    OrdinalWeekday(DateOf(n));
  }

  lemma OrdinalWeekday(d: Date)
    requires Valid(d)
    ensures Ordinal(d) % 7 == Weekday(d)
  {
    GregorianCount(d.year);
    LeapCounts(d.year);
    var _ := WeeksBefore(d, LeapDays(d.year - 1), LeapDays(d.year));
  }

  /** Up to a date, whole weeks and Sakamoto's count pass. */
  lemma WeeksBefore(d: Date, before: int, after: int) returns (weeks: int)
    requires Valid(d) && after == before + if Leap(d.year) then 1 else 0
    ensures var counted := (if d.month < 3 then d.year - 1 + before else d.year + after) + MONTH_SHIFT[d.month - 1] + d.day;
            var days := 365 * (d.year - 1) + before + DaysBeforeMonth(d.year, d.month) + d.day;
            days == 7 * weeks + counted && days % 7 == counted % 7
  {
    MonthTable(d.year);
    weeks := 52 * d.year - [52, 48, 44, 40, 35, 31, 27, 22, 18, 14, 9, 5][d.month - 1];
    SevenApart(weeks, (if d.month < 3 then d.year - 1 + before else d.year + after) + MONTH_SHIFT[d.month - 1] + d.day);
  }

  lemma SevenApart(k: int, n: int)
    ensures (7 * k + n) % 7 == n % 7
  {
  }

  // --- what an expression names -------------------------------------------------------------

  /** The days the two day fields permit together, case by case. */
  predicate DayPermitted(c: Cron, d: Date)
    requires Valid(d)
  {
    match (c.dayRestricted, c.weekdayRestricted)
    case (false, false) => true
    case (true, false) => d.day in c.days
    case (false, true) => Weekday(d) in c.weekdays
    case (true, true) => d.day in c.days || Weekday(d) in c.weekdays
  }

  /** The minute at `h:k` on day `n` matches exactly when the expression permits that minute,
      that hour, the month of that date, and the date. */
  lemma MatchesByTheClock(c: Cron, n: nat, h: nat, k: nat)
    requires n >= 1 && h < 24 && k < 60
    ensures var d := DateOf(n);
            && Valid(d)
            && (Matches(c, (n - 1) * 1440 + h * 60 + k) <==>
                  k in c.minutes && h in c.hours && d.month in c.months && DayPermitted(c, d))
  {
    ClockMatches(c, n, h, k);
    DayIsPermitted(c, n);
  }

  lemma ClockMatches(c: Cron, n: nat, h: nat, k: nat)
    requires n >= 1 && h < 24 && k < 60
    ensures Matches(c, (n - 1) * 1440 + h * 60 + k) <==>
              k in c.minutes && h in c.hours && DateOf(n).month in c.months && DayMatches(c, n)
  {
    OnTheClock(n - 1, h, k);
    MatchesAt(c, (n - 1) * MINUTES_PER_DAY + h * 60 + k, n, h, k);
  }

  lemma MatchesAt(c: Cron, m: nat, n: nat, h: nat, k: nat)
    requires DayNumber(m) == n && HourOf(m) == h && MinuteOf(m) == k
    ensures Matches(c, m) <==> k in c.minutes && h in c.hours && DateOf(n).month in c.months && DayMatches(c, n)
  {
  }

  lemma DayIsPermitted(c: Cron, n: nat)
    requires n >= 1
    ensures Valid(DateOf(n)) && (DayMatches(c, n) <==> DayPermitted(c, DateOf(n)))
  {
    WeekdayOfDay(n);
  }

  /** With both day fields restricted, the expression is two simpler ones side by side: one
      that reads the day of the month alone, and one that reads the weekday alone. */
  lemma EitherDay(c: Cron, m: nat)
    requires c.dayRestricted && c.weekdayRestricted
    ensures Matches(c, m) <==> Matches(c.(weekdayRestricted := false), m) || Matches(c.(dayRestricted := false), m)
  {
  }

  function Earlier(a: Option<nat>, b: Option<nat>): Option<nat> {
    if a.None? then b else if b.None? then a else if a.value <= b.value then a else b
  }

  /** A search has one answer. */
  lemma NextIsUnique(c: Cron, moment: nat, r: Option<nat>, s: Option<nat>)
    requires IsNext(c, moment, r) && IsNext(c, moment, s)
    ensures r == s
  {
  }

  /** So its search finds the earlier of what the two simpler searches find, and nothing exactly
      when neither finds anything. */
  lemma EarlierOfTwoSearches(c: Cron, moment: nat, r: Option<nat>, byDay: Option<nat>, byWeekday: Option<nat>)
    requires c.dayRestricted && c.weekdayRestricted
    requires IsNext(c, moment, r)
    requires IsNext(c.(weekdayRestricted := false), moment, byDay) && IsNext(c.(dayRestricted := false), moment, byWeekday)
    ensures r == Earlier(byDay, byWeekday)
  {
    forall m: nat
      ensures Matches(c, m) <==> Matches(c.(weekdayRestricted := false), m) || Matches(c.(dayRestricted := false), m)
    {
      EitherDay(c, m);
    }
    assert IsNext(c, moment, Earlier(byDay, byWeekday));
    NextIsUnique(c, moment, r, Earlier(byDay, byWeekday));
  }

  /** A schedule of midnights finds the coming one when its day matches. */
  lemma MidnightFollows(c: Cron, n: nat, since: nat)
    requires n >= 1 && since < 1440
    requires c.minutes == {0} && c.hours == {0} && DateMatches(c, n + 1)
    ensures IsNext(c, ((n - 1) * 1440 + since) * MICROS_PER_MINUTE, Some(n * 1440))
  {
    var now, found := (n - 1) * 1440 + since, n * 1440;
    OnTheClock(n, 0, 0);
    forall k: nat | k < found && Matches(c, k) ensures k <= now {
      ClockReads(k);
    }
  }

  /** So it is tomorrow, when tomorrow's date is permitted. */
  lemma TomorrowAtMidnight(c: Cron, today: Date)
    requires c.minutes == {0} && c.hours == {0} && Valid(today)
    requires var d := NextDay(today); Valid(d) && d.month in c.months && DayPermitted(c, d)
    ensures Ordinal(today) >= 1 && Ordinal(NextDay(today)) == Ordinal(today) + 1
    ensures IsNext(c, ((Ordinal(today) - 1) * 1440 + 12 * 60) * MICROS_PER_MINUTE, Some(Ordinal(today) * 1440))
  {
    NextDayAdvances(today);
    DateOfOrdinal(NextDay(today));
    DayIsPermitted(c, Ordinal(NextDay(today)));
    MidnightFollows(c, Ordinal(today), 12 * 60);
  }

  /** `0 0 13 * 5` from noon of Sunday, 12 July 2026: the next day is a 13th, and a Monday. */
  lemma FridayOrThirteenth(c: Cron, sunday: Date, monday: Date)
    requires sunday == Date(2026, 7, 12) && monday == Date(2026, 7, 13)
    requires c == Cron({0}, {0}, {13}, {1, 2, 3, 4, 5, 6, 7, 8, 9, 10, 11, 12}, {5}, true, true)
    ensures Weekday(sunday) == 0 && Weekday(monday) == 1 && Ordinal(sunday) >= 1
    ensures IsNext(c, ((Ordinal(sunday) - 1) * 1440 + 12 * 60) * MICROS_PER_MINUTE, Some((Ordinal(monday) - 1) * 1440))
  {
    TomorrowIsTheThirteenth(c, sunday, monday);
    TomorrowAtMidnight(c, sunday);
  }

  lemma TomorrowIsTheThirteenth(c: Cron, sunday: Date, monday: Date)
    requires sunday == Date(2026, 7, 12) && monday == Date(2026, 7, 13)
    requires 13 in c.days && c.dayRestricted && c.weekdayRestricted
    ensures Valid(sunday) && Valid(monday) && monday == NextDay(sunday) && DayPermitted(c, monday)
    ensures Weekday(sunday) == 0 && Weekday(monday) == 1
  {
  }

  // --- what a field permits -------------------------------------------------------------------

  /** The numbers each field takes, Sunday being written 0 or 7. A star stands for all of
      them and, without a step, is the only item that restricts nothing. */
  lemma FieldBounds(f: Field, n: int)
    ensures var bounds := match f case Minute => (0, 59) case Hour => (0, 23) case DayOfMonth => (1, 31)
                          case Month => (1, 12) case DayOfWeek => (0, 7);
            && (ItemError(f, Item(Number(n), 1)).None? <==> bounds.0 <= n <= bounds.1)
            && (Covers(f, Item(Star, 1), n) <==> bounds.0 <= n <= bounds.1)
            && !Restricts(Item(Star, 1)) && Restricts(Item(Number(n), 1))
            && (n > 1 ==> Restricts(Item(Star, n)))
            && (Folded(f, n) != n <==> f == DayOfWeek && n == 7)
  {
  }
}
