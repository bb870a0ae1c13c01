/** When the search finds nothing: which expressions match no day at all, and where the
    four-year horizon is too short. */
module CronHorizon {
  import opened Wrappers
  import opened Calendar
  import opened CronSchedule

  /** Some permitted month contains a permitted day, February counted as 29. */
  predicate SomeDayExists(c: Cron) {
    exists m, d | m in c.months && d in c.days :: d <= DaysIn(4, m)
  }

  /** Only days of the month are restricted. */
  predicate ByDayOnly(c: Cron) { c.dayRestricted && !c.weekdayRestricted }

  predicate Found(c: Cron, moment: nat, m: nat) {
    Matches(c, m) && m * MICROS_PER_MINUTE > moment && WithinHorizon(moment, m)
  }

  /** The day a moment falls on. */
  function Today(moment: nat): nat { DayNumber(moment / MICROS_PER_MINUTE) }

  /** A matching day after today and before the horizon's last day holds a matching minute
      inside the horizon. */
  lemma MatchOnDay(c: Cron, moment: nat, n: nat) returns (m: nat)
    requires WellFormed(c) && DateMatches(c, n)
    requires Today(moment) < n < Today(moment) + HORIZON_DAYS
    ensures Found(c, moment, m)
  {
    var h :| h in c.hours;
    var k :| k in c.minutes;
    m := (n - 1) * MINUTES_PER_DAY + h * 60 + k;
    assert Hour.Permits(h) && Minute.Permits(k);
    OnTheClock(n - 1, h, k);
    var now := moment / MICROS_PER_MINUTE;
    assert now / MINUTES_PER_DAY + 1 <= n - 1;
    assert now < (n - 1) * MINUTES_PER_DAY;
    assert m < n * MINUTES_PER_DAY <= (now / MINUTES_PER_DAY + HORIZON_DAYS) * MINUTES_PER_DAY;
    assert m <= now + HORIZON_DAYS * MINUTES_PER_DAY;
  }

  lemma OnTheClock(day: nat, h: nat, k: nat)
    requires h < 24 && k < 60
    ensures var m := day * MINUTES_PER_DAY + h * 60 + k;
            DayNumber(m) == day + 1 && HourOf(m) == h && MinuteOf(m) == k
  {
    var m := day * MINUTES_PER_DAY + h * 60 + k;
    assert m / 1440 == day;
    assert m % 1440 == h * 60 + k;
    assert m == 60 * (day * 24 + h) + k;
  }

  lemma TodaysYear(moment: nat) returns (y: nat)
    ensures y == DateOf(Today(moment)).year >= 1
    ensures DaysBeforeYear(y) < Today(moment) <= DaysBeforeYear(y + 1)
  {
    y := DateOf(Today(moment)).year;
    OrdinalOfDateOf(Today(moment));
    DayWithinYear(DateOf(Today(moment)));
  }

  /** A date of next year is always inside the horizon. */
  lemma NextYear(moment: nat, month: nat, day: nat) returns (n: nat)
    requires 1 <= month <= 12 && 1 <= day && day <= DaysIn(1, month)
    ensures Today(moment) < n < Today(moment) + HORIZON_DAYS
    ensures DateOf(n) == Date(DateOf(Today(moment)).year + 1, month, day)
  {
    var y := TodaysYear(moment);
    var d := Date(y + 1, month, day);
    DateOfOrdinal(d);
    DayWithinYear(d);
    n := Ordinal(d);
    assert DaysBeforeYear(y + 2) == DaysBeforeYear(y + 1) + DaysInYear(y + 1);
    assert DaysBeforeYear(y + 1) == DaysBeforeYear(y) + DaysInYear(y);
  }

  /** Days that follow each other within a month. */
  lemma {:induction false} LaterThatMonth(d: Date, k: nat)
    requires Valid(d) && d.day + k <= DaysIn(d.year, d.month)
    ensures Ordinal(d.(day := d.day + k)) == Ordinal(d) + k
    ensures DateOf(Ordinal(d) + k) == d.(day := d.day + k)
  {
    DateOfOrdinal(d.(day := d.day + k));
  }

  // --- leap days ------------------------------------------------------------------------

  /** The day number of 29 February. */
  function LeapDay(y: nat): nat { DaysBeforeYear(y) + 60 }

  lemma FebruaryDay(d: Date)
    requires Valid(d) && d.month == 2 && d.day == 29
    ensures Ordinal(d) == DaysBeforeYear(d.year) + 60 && DateOf(Ordinal(d)) == d
  {
    DateOfOrdinal(d);
    MonthsOfYear(d.year);
  }

  lemma LeapDayIs(y: nat)
    requires y >= 1 && Leap(y)
    ensures DateOf(LeapDay(y)) == Date(y, 2, 29)
  {
    FebruaryDay(Date(y, 2, 29));
  }

  lemma LeapDayNumber(n: nat)
    requires n >= 1 && DateOf(n).month == 2 && DateOf(n).day == 29
    ensures n == LeapDay(DateOf(n).year) && Leap(DateOf(n).year) && DateOf(n).year >= 1
  {
    OrdinalOfDateOf(n);
    FebruaryDay(DateOf(n));
  }

  lemma YearStep(y: nat)
    requires y >= 1
    ensures DaysBeforeYear(y + 1) == DaysBeforeYear(y) + DaysInYear(y)
  {
  }

  lemma NotAFourthYear(y: nat, k: nat)
    requires Leap(y) && k % 4 != 0
    ensures !Leap(y + k)
  {
    AfterFourths(y / 4, k);
  }

  lemma AfterFourths(q: nat, k: nat)
    ensures (4 * q + k) % 4 == k % 4
  {
  }

  lemma OneOfTwo(y: nat)
    requires Leap(y)
    ensures Leap(y + 4) || Leap(y + 8)
  {
    FourthYears(y);
    if (y + 4) % 100 == 0 { AfterAHundred((y + 4) / 100); }
  }

  lemma FourthYears(y: nat)
    requires y % 4 == 0
    ensures (y + 4) % 4 == 0 && (y + 8) % 4 == 0
  {
  }

  lemma AfterAHundred(q: nat)
    ensures (100 * q + 4) % 100 == 4
  {
  }

  lemma LeapsAreFourApart(y: nat)
    requires Leap(y)
    ensures !Leap(y + 1) && !Leap(y + 2) && !Leap(y + 3) && !Leap(y + 5) && !Leap(y + 6) && !Leap(y + 7)
    ensures Leap(y + 4) || Leap(y + 8)
  {
    NotAFourthYear(y, 1);
    NotAFourthYear(y, 2);
    NotAFourthYear(y, 3);
    NotAFourthYear(y, 5);
    NotAFourthYear(y, 6);
    NotAFourthYear(y, 7);
    OneOfTwo(y);
  }

  lemma FourSteps(y: nat)
    requires y >= 1
    ensures LeapDay(y + 4)
         == LeapDay(y) + DaysInYear(y) + DaysInYear(y + 1) + DaysInYear(y + 2) + DaysInYear(y + 3)
  {
    YearStep(y);
    YearStep(y + 1);
    YearStep(y + 2);
    YearStep(y + 3);
  }

  /** From one leap day to the next: four years on, or eight. */
  lemma FourYears(y: nat)
    requires y >= 1 && Leap(y)
    ensures LeapDay(y + 4) == LeapDay(y) + 1461
  {
    LeapsAreFourApart(y);
    FourSteps(y);
  }

  lemma EightYears(y: nat)
    requires y >= 1 && Leap(y) && !Leap(y + 4)
    ensures LeapDay(y + 8) == LeapDay(y) + 2921
  {
    FourYears(y);
    LeapsAreFourApart(y);
    FourSteps(y + 4);
  }

  lemma LeapDaysGrow(y: nat, z: nat)
    requires 1 <= y <= z
    ensures LeapDay(y) <= LeapDay(z)
  {
    YearsGrow(y, z);
  }

  // --- the first and the last match of a day ----------------------------------------------

  ghost function Smallest(s: set<nat>): (m: nat)
    requires s != {}
    ensures m in s && forall x | x in s :: m <= x
  {
    var x :| x in s;
    if s == {x} then x
    else
      assert s == (s - {x}) + {x};
      var m := Smallest(s - {x});
      if x < m then x else m
  }

  ghost function Greatest(s: set<nat>): (m: nat)
    requires s != {}
    ensures m in s && forall x | x in s :: x <= m
  {
    var x :| x in s;
    if s == {x} then x
    else
      assert s == (s - {x}) + {x};
      var m := Greatest(s - {x});
      if x > m then x else m
  }

  ghost function DayStart(c: Cron): (k: nat)
    requires WellFormed(c)
    ensures k < MINUTES_PER_DAY
  {
    assert Hour.Permits(Smallest(c.hours)) && Minute.Permits(Smallest(c.minutes));
    Smallest(c.hours) * 60 + Smallest(c.minutes)
  }

  ghost function DayEnd(c: Cron): (k: nat)
    requires WellFormed(c)
    ensures DayStart(c) <= k < MINUTES_PER_DAY
  {
    assert Hour.Permits(Greatest(c.hours)) && Minute.Permits(Greatest(c.minutes));
    Greatest(c.hours) * 60 + Greatest(c.minutes)
  }

  ghost function FirstOn(c: Cron, n: nat): nat
    requires WellFormed(c) && n >= 1
  {
    (n - 1) * MINUTES_PER_DAY + DayStart(c)
  }

  ghost function LastOn(c: Cron, n: nat): nat
    requires WellFormed(c) && n >= 1
  {
    (n - 1) * MINUTES_PER_DAY + DayEnd(c)
  }

  lemma DayEndsMatch(c: Cron, n: nat)
    requires WellFormed(c) && n >= 1 && DateMatches(c, n)
    ensures Matches(c, FirstOn(c, n)) && Matches(c, LastOn(c, n))
  {
    assert Hour.Permits(Smallest(c.hours)) && Minute.Permits(Smallest(c.minutes));
    assert Hour.Permits(Greatest(c.hours)) && Minute.Permits(Greatest(c.minutes));
    OnTheClock(n - 1, Smallest(c.hours), Smallest(c.minutes));
    OnTheClock(n - 1, Greatest(c.hours), Greatest(c.minutes));
  }

  lemma WithinTheDay(c: Cron, m: nat)
    requires WellFormed(c) && Matches(c, m)
    ensures DateMatches(c, DayNumber(m)) && FirstOn(c, DayNumber(m)) <= m <= LastOn(c, DayNumber(m))
  {
    var h, k := HourOf(m), MinuteOf(m);
    assert Smallest(c.hours) <= h <= Greatest(c.hours) && Smallest(c.minutes) <= k <= Greatest(c.minutes);
    ClockReads(m);
  }

  lemma ClockReads(m: nat)
    ensures m == (DayNumber(m) - 1) * MINUTES_PER_DAY + HourOf(m) * 60 + MinuteOf(m)
  {
    assert m % 1440 % 60 == m % 60;
  }

  /** No permitted month contains a permitted day: no minute of any year matches. */
  lemma NothingEverMatches(c: Cron, m: nat)
    requires WellFormed(c) && ByDayOnly(c) && !SomeDayExists(c)
    ensures !Matches(c, m)
  {
    NoDateMatches(c, DayNumber(m));
  }

  lemma NoDateMatches(c: Cron, n: nat)
    requires ByDayOnly(c) && !SomeDayExists(c) && n >= 1
    ensures !DateMatches(c, n)
  {
    OrdinalOfDateOf(n);
    LeapYearsAreLongest(DateOf(n).year, DateOf(n).month);
  }

  lemma LeapYearsAreLongest(y: nat, month: nat)
    ensures DaysIn(y, month) <= DaysIn(4, month)
  {
  }

  /** The first week of a month of next year holds every weekday. */
  lemma WeekdayNextYear(moment: nat, month: nat, w: nat) returns (n: nat)
    requires 1 <= month <= 12 && w <= 6
    ensures Today(moment) < n < Today(moment) + HORIZON_DAYS
    ensures DateOf(n).month == month && n % 7 == w
  {
    var first := NextYear(moment, month, 1);
    var last := NextYear(moment, month, 28);
    OrdinalOfDateOf(first);
    OrdinalOfDateOf(last);
    LaterThatMonth(DateOf(first), 27);
    var k := DaysUntil(first, w);
    LaterThatMonth(DateOf(first), k);
    n := first + k;
  }

  lemma DaysUntil(n: nat, w: nat) returns (k: nat)
    requires w <= 6
    ensures k <= 6 && (n + k) % 7 == w
  {
    k := (w + 7 - n % 7) % 7;
  }

  /** A permitted weekday, or no restriction on days: the first week of a permitted month
      next year holds a match. A permitted day that every year has: so does that day. Only
      29 February may have to wait longer. */
  lemma AlmostAlwaysFound(c: Cron, moment: nat) returns (m: nat)
    requires WellFormed(c)
    requires !ByDayOnly(c) || exists p, d | p in c.months && d in c.days :: d <= DaysIn(1, p)
    ensures Found(c, moment, m)
  {
    var n: nat;
    if ByDayOnly(c) {
      var p, d :| p in c.months && d in c.days && d <= DaysIn(1, p);
      assert Month.Permits(p) && DayOfMonth.Permits(d);
      n := NextYear(moment, p, d);
    } else {
      var p :| p in c.months;
      var w :| w in c.weekdays;
      assert Month.Permits(p);
      n := WeekdayNextYear(moment, p, w);
    }
    m := MatchOnDay(c, moment, n);
  }

  // --- 29 February ------------------------------------------------------------------------

  /** 29 February is the one date that is permitted. */
  predicate OnlyLeapDays(c: Cron) {
    && 2 in c.months && 29 in c.days
    && forall p, d | p in c.months && d in c.days && d <= DaysIn(4, p) :: p == 2 && d == 29
  }

  /** From the last match on a 29 February four years before a year that has none, until the
      first match on the next one, eight years later, comes inside the horizon. */
  ghost predicate InGap(c: Cron, moment: nat, y: nat)
    requires WellFormed(c)
  {
    && y >= 1 && Leap(y) && !Leap(y + 4)
    && LastOn(c, LeapDay(y)) * MICROS_PER_MINUTE <= moment
    && !WithinHorizon(moment, FirstOn(c, LeapDay(y + 8)))
  }

  lemma OnlyLeapDates(c: Cron, n: nat)
    requires WellFormed(c) && ByDayOnly(c) && OnlyLeapDays(c) && n >= 1
    ensures DateMatches(c, n) <==> DateOf(n).month == 2 && DateOf(n).day == 29
  {
    OrdinalOfDateOf(n);
    LeapYearsAreLongest(DateOf(n).year, DateOf(n).month);
  }

  lemma LeapsAround(y: nat, z: nat)
    requires Leap(y) && !Leap(y + 4) && Leap(z)
    ensures z <= y || z >= y + 8
  {
    LeapsAreFourApart(y);
    assert z <= y || z >= y + 8 || z - y in {1, 2, 3, 4, 5, 6, 7};
  }

  /** Inside the gap nothing is found. */
  lemma NoLeapDayAhead(c: Cron, moment: nat, y: nat, m: nat)
    requires WellFormed(c) && ByDayOnly(c) && OnlyLeapDays(c) && InGap(c, moment, y)
    ensures !Found(c, moment, m)
  {
    if Found(c, moment, m) {
      WithinTheDay(c, m);
      OnlyLeapDates(c, DayNumber(m));
      LeapDayNumber(DayNumber(m));
      OutsideTheGap(c, y, DateOf(DayNumber(m)).year);
      assert false;
    }
  }

  lemma OutsideTheGap(c: Cron, y: nat, z: nat)
    requires WellFormed(c) && y >= 1 && z >= 1 && Leap(y) && !Leap(y + 4) && Leap(z)
    ensures LastOn(c, LeapDay(z)) <= LastOn(c, LeapDay(y)) || FirstOn(c, LeapDay(y + 8)) <= FirstOn(c, LeapDay(z))
  {
    LeapsAround(y, z);
    if z <= y { LeapDaysGrow(z, y); } else { LeapDaysGrow(y + 8, z); }
  }

  /** The first leap year whose 29 February still has a match to come, and the leap year
      before it, if there is one. */
  lemma ComingLeapYear(c: Cron, moment: nat) returns (before: nat, z: nat)
    requires WellFormed(c)
    ensures z >= 4 && Leap(z) && LastOn(c, LeapDay(z)) * MICROS_PER_MINUTE > moment
    ensures z == 4 || (&& before >= 1 && Leap(before) && LastOn(c, LeapDay(before)) * MICROS_PER_MINUTE <= moment
                       && (z == before + 4 || (z == before + 8 && !Leap(before + 4))))
  {
    before, z := 0, 4;
    while LastOn(c, LeapDay(z)) * MICROS_PER_MINUTE <= moment
      invariant z >= 4 && Leap(z)
      invariant z == 4 || (&& before >= 1 && Leap(before) && LastOn(c, LeapDay(before)) * MICROS_PER_MINUTE <= moment
                           && (z == before + 4 || (z == before + 8 && !Leap(before + 4))))
      decreases moment - LastOn(c, LeapDay(z)) * MICROS_PER_MINUTE
    {
      LeapsAreFourApart(z);
      FourYears(z);
      if !Leap(z + 4) { EightYears(z); }
      before, z := z, if Leap(z + 4) then z + 4 else z + 8;
    }
  }

  /** Outside every gap the search finds a 29 February. */
  lemma NextLeapDay(c: Cron, moment: nat) returns (m: nat)
    requires WellFormed(c) && ByDayOnly(c) && OnlyLeapDays(c)
    requires forall y: nat :: !InGap(c, moment, y)
    ensures Found(c, moment, m)
  {
    var before, z := ComingLeapYear(c, moment);
    LeapDayIs(z);
    OnlyLeapDates(c, LeapDay(z));
    DayEndsMatch(c, LeapDay(z));
    var first := FirstOn(c, LeapDay(z));
    if first * MICROS_PER_MINUTE > moment {
      m := first;
      assert !InGap(c, moment, before);
      FirstIsNear(c, moment, before, z);
    } else {
      m := LastOn(c, LeapDay(z));
    }
  }

  lemma FirstIsNear(c: Cron, moment: nat, before: nat, z: nat)
    requires WellFormed(c) && z >= 4 && !InGap(c, moment, before)
    requires z == 4 || (&& before >= 1 && Leap(before) && LastOn(c, LeapDay(before)) * MICROS_PER_MINUTE <= moment
                        && (z == before + 4 || (z == before + 8 && !Leap(before + 4))))
    ensures WithinHorizon(moment, FirstOn(c, LeapDay(z)))
  {
    if z == 4 {
      YearsGrow(1, 4);
    } else if z == before + 4 {
      FourYears(before);
      assert FirstOn(c, LeapDay(z)) <= LastOn(c, LeapDay(before)) + 1461 * MINUTES_PER_DAY;
    }
  }

  /** For every expression and every moment: the search raises exactly when only days of the
      month are restricted and either no permitted month, February counted as 29, contains
      a permitted day, or 29 February alone is permitted and the moment lies in a gap. */
  lemma RaisesExactlyWhen(c: Cron, moment: nat)
    requires WellFormed(c)
    ensures (forall m: nat :: !Found(c, moment, m)) <==>
            ByDayOnly(c) && (!SomeDayExists(c) || (OnlyLeapDays(c) && exists y: nat :: InGap(c, moment, y)))
  {
    if ByDayOnly(c) && !SomeDayExists(c) {
      forall m: nat ensures !Found(c, moment, m) { NothingEverMatches(c, m); }
    } else if !ByDayOnly(c) || exists p, d | p in c.months && d in c.days :: d <= DaysIn(1, p) {
      var m := AlmostAlwaysFound(c, moment);
      assert Found(c, moment, m);
      CommonDayIsNoLeapDay(c);
    } else {
      LeapDayIsAllThatIsLeft(c);
      if y: nat :| InGap(c, moment, y) {
        forall m: nat ensures !Found(c, moment, m) { NoLeapDayAhead(c, moment, y, m); }
      } else {
        var m := NextLeapDay(c, moment);
        assert Found(c, moment, m);
      }
    }
  }

  lemma CommonDayIsNoLeapDay(c: Cron)
    ensures (exists p, d | p in c.months && d in c.days :: d <= DaysIn(1, p)) ==> SomeDayExists(c) && !OnlyLeapDays(c)
  {
    if p, d :| p in c.months && d in c.days && d <= DaysIn(1, p) {
      assert d <= DaysIn(4, p);
    }
  }

  lemma LeapDayIsAllThatIsLeft(c: Cron)
    requires WellFormed(c) && SomeDayExists(c)
    requires !exists p, d | p in c.months && d in c.days :: d <= DaysIn(1, p)
    ensures OnlyLeapDays(c)
  {
    forall p, d | p in c.months && d in c.days && d <= DaysIn(4, p) ensures p == 2 && d == 29 {
      assert !(d <= DaysIn(1, p));
    }
  }

  /** A schedule that matches nothing inside the horizon is meant to be one that matches
      nothing. The search raises although a later minute matches exactly when 29 February
      is the only permitted date and the moment lies in a gap. */
  lemma HorizonTooShort(c: Cron, moment: nat)
    requires WellFormed(c)
    ensures (forall m: nat :: !Found(c, moment, m)) && (exists m: nat :: Matches(c, m) && m * MICROS_PER_MINUTE > moment)
            <==> ByDayOnly(c) && OnlyLeapDays(c) && exists y: nat :: InGap(c, moment, y)
  {
    RaisesExactlyWhen(c, moment);
    if ByDayOnly(c) && !SomeDayExists(c) {
      forall m: nat ensures !Matches(c, m) { NothingEverMatches(c, m); }
    }
    if ByDayOnly(c) && OnlyLeapDays(c) {
      if y: nat :| InGap(c, moment, y) {
        LaterLeapDay(c, moment, y);
      }
    }
  }

  lemma LaterLeapDay(c: Cron, moment: nat, y: nat)
    requires WellFormed(c) && ByDayOnly(c) && OnlyLeapDays(c) && InGap(c, moment, y)
    ensures exists m: nat :: Matches(c, m) && m * MICROS_PER_MINUTE > moment
  {
    LeapsAreFourApart(y);
    LeapDayIs(y + 8);
    OnlyLeapDates(c, LeapDay(y + 8));
    DayEndsMatch(c, LeapDay(y + 8));
    assert FirstOn(c, LeapDay(y + 8)) * MICROS_PER_MINUTE > moment;
  }

  // --- where the gaps are -----------------------------------------------------------------

  /** In days: a gap starts on 29 February and ends 1464 days before the next. */
  lemma GapInDays(c: Cron, moment: nat, y: nat)
    requires WellFormed(c) && InGap(c, moment, y)
    ensures LeapDay(y) <= Today(moment) <= LeapDay(y + 8) - HORIZON_DAYS
    ensures y <= DateOf(Today(moment)).year <= y + 4
  {
    EightYears(y);
    FourYears(y);
    YearStep(y + 4);
    var now := moment / MICROS_PER_MINUTE;
    assert LastOn(c, LeapDay(y)) <= now;
    assert now + HORIZON_DAYS * MINUTES_PER_DAY < FirstOn(c, LeapDay(y + 8));
    InDays(now, LeapDay(y), LeapDay(y + 8));
    YearOfDay(Today(moment), y, y + 4);
  }

  lemma InDays(now: nat, from: nat, to: nat)
    requires from >= 1 && (from - 1) * MINUTES_PER_DAY <= now
    requires now + HORIZON_DAYS * MINUTES_PER_DAY < to * MINUTES_PER_DAY
    ensures from <= DayNumber(now) <= to - HORIZON_DAYS
  {
  }

  /** Between 1901 and 2095 there is no gap: the search raises exactly when no date can ever
      match. */
  lemma RaisesInOurTime(c: Cron, moment: nat)
    requires WellFormed(c) && 1901 <= DateOf(Today(moment)).year <= 2095
    ensures (forall m: nat :: !Found(c, moment, m)) <==> ByDayOnly(c) && !SomeDayExists(c)
  {
    RaisesExactlyWhen(c, moment);
    forall y: nat ensures !InGap(c, moment, y) { NoGapInOurTime(c, moment, y); }
  }

  lemma NoGapInOurTime(c: Cron, moment: nat, y: nat)
    requires WellFormed(c) && 1901 <= DateOf(Today(moment)).year <= 2095
    ensures !InGap(c, moment, y)
  {
    GapYears(y);
    if InGap(c, moment, y) {
      GapInDays(c, moment, y);
      assert false;
    }
  }

  lemma GapYears(y: nat)
    ensures 1901 <= y + 4 && y <= 2095 && Leap(y) ==> Leap(y + 4)
  {
    if 1901 <= y + 4 && y <= 2095 && (y + 4) % 100 == 0 { assert (y + 4) / 100 == 20; }
  }

  const LEAP_DAY_ONLY := Cron({0}, {0}, {29}, {2}, {0, 1, 2, 3, 4, 5, 6}, true, false)

  /** From midnight of the last leap day before a year like 1900 or 2100 until day 1457 after
      it, the yearly midnight of 29 February is in the gap. */
  lemma FromTheLastLeapDay(moment: nat, y: nat)
    requires y >= 1 && Leap(y) && !Leap(y + 4)
    requires LeapDay(y) <= Today(moment) < LeapDay(y) + 1457
    ensures WellFormed(LEAP_DAY_ONLY) && ByDayOnly(LEAP_DAY_ONLY) && OnlyLeapDays(LEAP_DAY_ONLY)
    ensures InGap(LEAP_DAY_ONLY, moment, y)
  {
    EightYears(y);
    var c := LEAP_DAY_ONLY;
    assert DayStart(c) == 0 && DayEnd(c) == 0;
    var now := moment / MICROS_PER_MINUTE;
    assert (LeapDay(y) - 1) * MINUTES_PER_DAY <= now < (LeapDay(y) + 1456) * MINUTES_PER_DAY;
  }
}
