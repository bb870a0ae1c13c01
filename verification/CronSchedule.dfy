/** Cron expressions: the values each field permits, and the search for the next matching
    minute. Moments are microseconds and minutes are counted from the start of day 1. */
module CronSchedule {
  import opened Wrappers
  import opened Calendar

  // --- reading a field -------------------------------------------------------------

  datatype Body = Star | Range(first: int, last: int) | Number(n: int)

  /** One list item: a body, and the step after the slash (1 when there is none). */
  datatype Item = Item(body: Body, step: int)

  datatype Field = Minute | Hour | DayOfMonth | Month | DayOfWeek {
    function Low(): int { if this in {DayOfMonth, Month} then 1 else 0 }

    function High(): int {
      match this
      case Minute => 59
      case Hour => 23
      case DayOfMonth => 31
      case Month => 12
      case DayOfWeek => 7
    }

    predicate Permits(n: int) { Low() <= n <= High() }
  }

  datatype CronError = EmptyField | BadStep | OutOfBounds | Backwards

  function Start(f: Field, b: Body): int {
    match b case Star => f.Low() case Range(first, _) => first case Number(n) => n
  }

  function Stop(f: Field, b: Body): int {
    match b case Star => f.High() case Range(_, last) => last case Number(n) => n
  }

  /** Why an item is refused, if it is: the step is read first, then the numbers, then
      their order. */
  function ItemError(f: Field, i: Item): Option<CronError> {
    if i.step < 1 then Some(BadStep)
    else if !f.Permits(Start(f, i.body)) || !f.Permits(Stop(f, i.body)) then Some(OutOfBounds)
    else if Start(f, i.body) > Stop(f, i.body) then Some(Backwards)
    else None
  }

  predicate Covers(f: Field, i: Item, v: int)
    requires i.step >= 1
  {
    Start(f, i.body) <= v <= Stop(f, i.body) && (v - Start(f, i.body)) % i.step == 0
  }

  predicate Restricts(i: Item) { !i.body.Star? || i.step > 1 }

  /** Sunday is written 0 or 7 and means one day. */
  function Folded(f: Field, v: int): int { if f.DayOfWeek? && v == 7 then 0 else v }

  /** Reads a field: on success exactly the values some item covers, and whether any item
      narrows the field; otherwise why the first unreadable item is refused. */
  method ReadField(f: Field, items: seq<Item>) returns (r: Result<(set<nat>, bool), CronError>)
    ensures r.Success? <==> items != [] && forall i | i in items :: ItemError(f, i).None?
    ensures r.Failure? && items != [] ==>
              exists k :: 0 <= k < |items| && ItemError(f, items[k]) == Some(r.error)
                          && forall j | 0 <= j < k :: ItemError(f, items[j]).None?
    ensures r.Success? ==>
              && r.value.0 != {}
              && (forall v | v in r.value.0 :: f.Permits(v) && !(f.DayOfWeek? && v == 7))
              && (forall v: nat :: v in r.value.0 <==> exists i, w :: i in items && i.step >= 1 && Covers(f, i, w) && v == Folded(f, w))
              && (r.value.1 <==> exists i :: i in items && Restricts(i))
  {
    if items == [] {
      return Failure(EmptyField);
    }
    var values: set<nat> := {};
    var restricts := false;
    for k := 0 to |items|
      invariant forall j | 0 <= j < k :: ItemError(f, items[j]).None?
      invariant forall v: nat :: v in values <==> exists j :: 0 <= j < k && Covers(f, items[j], v)
      invariant restricts <==> exists j :: 0 <= j < k && Restricts(items[j])
    {
      var item := items[k];
      var bad := ItemError(f, item);
      if bad.Some? {
        return Failure(bad.value);
      }
      restricts := restricts || Restricts(item);
      var more := Steps(f, item);
      values := values + more;
    }
    assert Start(f, items[0].body) in values by {
      assert Covers(f, items[0], Start(f, items[0].body));
    }
    assert forall v: nat :: v in values <==> exists i :: i in items && i.step >= 1 && Covers(f, i, v);
    var folded := if f.DayOfWeek? && 7 in values then values - {7} + {0} else values;
    FoldedValues(f, items, values, folded);
    return Success((folded, restricts));
  }

  lemma FoldedValues(f: Field, items: seq<Item>, values: set<nat>, folded: set<nat>)
    requires forall i | i in items :: ItemError(f, i).None?
    requires forall v: nat :: v in values <==> exists i :: i in items && i.step >= 1 && Covers(f, i, v)
    requires folded == if f.DayOfWeek? && 7 in values then values - {7} + {0} else values
    ensures forall v: nat :: v in folded <==> exists i, w :: i in items && i.step >= 1 && Covers(f, i, w) && v == Folded(f, w)
    ensures forall v | v in folded :: f.Permits(v) && !(f.DayOfWeek? && v == 7)
  {
    forall v: nat ensures v in folded <==> exists i, w :: i in items && i.step >= 1 && Covers(f, i, w) && v == Folded(f, w) {
      if v in folded {
        var w := if v in values then v else 7;
        assert w in values && v == Folded(f, w);
        var i :| i in items && i.step >= 1 && Covers(f, i, w);
      }
      if i, w :| i in items && i.step >= 1 && Covers(f, i, w) && v == Folded(f, w) {
        assert w in values;
      }
    }
  }

  /** Every step-th value of an item's range. */
  method Steps(f: Field, item: Item) returns (values: set<nat>)
    requires ItemError(f, item).None?
    ensures forall v: nat :: v in values <==> Covers(f, item, v)
  {
    values := {};
    var start, stop, at := Start(f, item.body), Stop(f, item.body), Start(f, item.body);
    while at <= stop
      invariant start <= at && (at - start) % item.step == 0
      invariant forall v: nat :: v in values <==> Covers(f, item, v) && v < at
      decreases stop + item.step - at
    {
      forall v | at <= v < at + item.step ensures Covers(f, item, v) <==> v == at {
        ModGap(at - start, v - at, item.step);
      }
      ModNext(at - start, item.step);
      values := values + {at};
      at := at + item.step;
    }
  }

  lemma MulLe(s: int, x: int, y: int)
    requires s >= 1 && x <= y
    ensures s * x <= s * y
  {
  }

  /** Between two multiples of `step` there is none. */
  lemma ModGap(a: int, d: int, step: int)
    requires step >= 1 && a % step == 0 && 0 <= d < step
    ensures (a + d) % step == d
  {
    var q, p := a / step, (a + d) / step;
    assert step * q == a && step * p + (a + d) % step == a + d;
    if p > q { MulLe(step, q + 1, p); }
    if p < q { MulLe(step, p + 1, q); }
  }

  lemma ModNext(a: int, step: int)
    requires step >= 1 && a % step == 0
    ensures (a + step) % step == 0
  {
    var q, p := a / step, (a + step) / step;
    assert step * q == a && step * p + (a + step) % step == a + step;
    assert step * (q + 1) == a + step;
    if p > q + 1 { MulLe(step, q + 2, p); }
    if p < q + 1 { MulLe(step, p + 1, q + 1); }
  }

  // --- matching ----------------------------------------------------------------------

  datatype Cron = Cron(minutes: set<nat>, hours: set<nat>, days: set<nat>, months: set<nat>, weekdays: set<nat>,
                       dayRestricted: bool, weekdayRestricted: bool)

  /** What reading five fields guarantees. */
  predicate WellFormed(c: Cron) {
    && c.minutes != {} && c.hours != {} && c.days != {} && c.months != {} && c.weekdays != {}
    && (forall v | v in c.minutes :: Minute.Permits(v)) && (forall v | v in c.hours :: Hour.Permits(v))
    && (forall v | v in c.days :: DayOfMonth.Permits(v)) && (forall v | v in c.months :: Month.Permits(v))
    && (forall v | v in c.weekdays :: 0 <= v <= 6)
  }

  const MINUTES_PER_DAY := 1440
  const MICROS_PER_MINUTE := 60_000_000
  const HORIZON_DAYS := 366 * 4

  function DayNumber(m: nat): nat { m / MINUTES_PER_DAY + 1 }

  function HourOf(m: nat): nat { m % MINUTES_PER_DAY / 60 }

  function MinuteOf(m: nat): nat { m % 60 }

  /** The either-day rule: with both day fields restricted, one match is enough. Day 1 is a
      Monday and Sunday is 0. */
  predicate DayMatches(c: Cron, n: nat) {
    var byDay, byWeekday := DateOf(n).day in c.days, n % 7 in c.weekdays;
    if c.dayRestricted && c.weekdayRestricted then byDay || byWeekday
    else if c.dayRestricted then byDay
    else if c.weekdayRestricted then byWeekday
    else true
  }

  predicate DateMatches(c: Cron, n: nat) { DateOf(n).month in c.months && DayMatches(c, n) }

  predicate Matches(c: Cron, m: nat) {
    MinuteOf(m) in c.minutes && HourOf(m) in c.hours && DateOf(DayNumber(m)).month in c.months && DayMatches(c, DayNumber(m))
  }

  predicate WithinHorizon(moment: nat, m: nat) {
    m * MICROS_PER_MINUTE <= moment + HORIZON_DAYS * MINUTES_PER_DAY * MICROS_PER_MINUTE
  }

  // --- the search -----------------------------------------------------------------------

  function Midnight(m: nat): nat { (m / MINUTES_PER_DAY + 1) * MINUTES_PER_DAY }

  function NextHour(m: nat): nat { (m / 60 + 1) * 60 }

  lemma Clock(m: nat)
    ensures m / MINUTES_PER_DAY == m / 60 / 24 && HourOf(m) == m / 60 % 24 < 24
    ensures MinuteOf(m) < 60
  {
    assert m / 60 / 24 == m / 1440;
    assert m % 1440 / 60 == m / 60 % 24;
  }

  lemma Jumps(m: nat)
    ensures m < Midnight(m) && Midnight(m) / MINUTES_PER_DAY == m / MINUTES_PER_DAY + 1
    ensures HourOf(Midnight(m)) == 0 && MinuteOf(Midnight(m)) == 0
    ensures forall k | m <= k < Midnight(m) :: DayNumber(k) == DayNumber(m)
    ensures m < NextHour(m) && NextHour(m) / 60 == m / 60 + 1 && MinuteOf(NextHour(m)) == 0
    ensures forall k | m <= k < NextHour(m) :: k / 60 == m / 60
  {
  }

  predicate NoMatchBetween(c: Cron, from: nat, to: nat) {
    forall k: nat | from <= k < to :: !Matches(c, k)
  }

  /** `r` is the earliest match later than `moment`, or nothing when the horizon holds none. */
  ghost predicate IsNext(c: Cron, moment: nat, r: Option<nat>) {
    && (r.Some? ==>
          && Matches(c, r.value) && r.value * MICROS_PER_MINUTE > moment && WithinHorizon(moment, r.value)
          && forall k: nat | k < r.value && Matches(c, k) :: k * MICROS_PER_MINUTE <= moment)
    && (r.None? ==> forall k: nat | k * MICROS_PER_MINUTE > moment && WithinHorizon(moment, k) :: !Matches(c, k))
  }

  /** The earliest match later than `moment`, or nothing when the horizon holds none: the day
      and hour jumps skip nothing. The search jumps at most
      once per calendar day of the horizon, fewer than 48 times by the hour, and steps
      fewer than 120 single minutes. */
  method NextAfter(c: Cron, moment: nat)
    returns (r: Option<nat>, ghost days: nat, ghost hours: nat, ghost minutes: nat)
    ensures IsNext(c, moment, r)
    ensures days <= HORIZON_DAYS + 1
    ensures WellFormed(c) ==> hours < 48 && minutes < 120
  {
    ghost var start := moment / MICROS_PER_MINUTE + 1;
    var candidate := moment / MICROS_PER_MINUTE + 1;
    days, hours, minutes := 0, 0, 0;
    while WithinHorizon(moment, candidate)
      invariant Searching(c, start, candidate, days, hours, minutes) && days <= HORIZON_DAYS + 1
      decreases moment + HORIZON_DAYS * MINUTES_PER_DAY * MICROS_PER_MINUTE - candidate
    {
      HorizonDays(moment, start, candidate);
      if DateOf(DayNumber(candidate)).month !in c.months || !DayMatches(c, DayNumber(candidate)) {
        SearchDay(c, start, candidate, days, hours, minutes);
        candidate := Midnight(candidate);
        days := days + 1;
      } else if HourOf(candidate) !in c.hours {
        SearchHour(c, start, candidate, days, hours, minutes);
        candidate := NextHour(candidate);
        hours := hours + 1;
      } else if MinuteOf(candidate) !in c.minutes {
        SearchMinute(c, start, candidate, days, hours, minutes);
        candidate := candidate + 1;
        minutes := minutes + 1;
      } else {
        SearchEnds(c, moment, start, candidate, days, hours, minutes);
        return Some(candidate), days, hours, minutes;
      }
    }
    SearchEnds(c, moment, start, candidate, days, hours, minutes);
    return None, days, hours, minutes;
  }

  /** The search has passed no match, and has taken no more steps than it may. */
  ghost predicate Searching(c: Cron, start: nat, at: nat, days: nat, hours: nat, minutes: nat) {
    && start <= at && NoMatchBetween(c, start, at)
    && days <= at / MINUTES_PER_DAY - start / MINUTES_PER_DAY
    && (WellFormed(c) ==> HoursSoFar(c, start, at, hours) && MinutesSoFar(c, start, at, minutes))
  }

  lemma SearchDay(c: Cron, start: nat, at: nat, days: nat, hours: nat, minutes: nat)
    requires Searching(c, start, at, days, hours, minutes) && !DateMatches(c, DayNumber(at))
    ensures at < Midnight(at) && Searching(c, start, Midnight(at), days + 1, hours, minutes)
  {
    DaySkips(c, at);
    if WellFormed(c) { DayCounts(c, start, at, hours, minutes); }
  }

  lemma SearchHour(c: Cron, start: nat, at: nat, days: nat, hours: nat, minutes: nat)
    requires Searching(c, start, at, days, hours, minutes) && DateMatches(c, DayNumber(at)) && HourOf(at) !in c.hours
    ensures at < NextHour(at) && Searching(c, start, NextHour(at), days, hours + 1, minutes)
  {
    HourSkips(c, at);
    if WellFormed(c) { HourCounts(c, start, at, hours, minutes); }
  }

  lemma SearchMinute(c: Cron, start: nat, at: nat, days: nat, hours: nat, minutes: nat)
    requires Searching(c, start, at, days, hours, minutes)
    requires DateMatches(c, DayNumber(at)) && HourOf(at) in c.hours && MinuteOf(at) !in c.minutes
    ensures Searching(c, start, at + 1, days, hours, minutes + 1)
  {
    if WellFormed(c) { MinuteCounts(c, start, at, hours, minutes); }
  }

  lemma SearchEnds(c: Cron, moment: nat, start: nat, at: nat, days: nat, hours: nat, minutes: nat)
    requires start == moment / MICROS_PER_MINUTE + 1 && Searching(c, start, at, days, hours, minutes)
    ensures forall k: nat | k < at && Matches(c, k) :: k * MICROS_PER_MINUTE <= moment
    ensures at * MICROS_PER_MINUTE > moment
    ensures !WithinHorizon(moment, at) ==>
              forall k: nat | k * MICROS_PER_MINUTE > moment && WithinHorizon(moment, k) :: !Matches(c, k)
    ensures WellFormed(c) ==> hours < 48 && minutes < 120
  {
    if WellFormed(c) { StepBounds(c, start, at, hours, minutes); }
    forall k: nat | k < at && Matches(c, k) ensures k * MICROS_PER_MINUTE <= moment {
      assert k < start;
    }
  }

  lemma HorizonDays(moment: nat, start: nat, at: nat)
    requires start == moment / MICROS_PER_MINUTE + 1 && start <= at && WithinHorizon(moment, at)
    ensures at / MINUTES_PER_DAY - start / MINUTES_PER_DAY <= HORIZON_DAYS
  {
    assert at <= start - 1 + HORIZON_DAYS * MINUTES_PER_DAY;
  }

  lemma StepBounds(c: Cron, start: nat, at: nat, hours: nat, minutes: nat)
    requires start <= at && HoursSoFar(c, start, at, hours) && MinutesSoFar(c, start, at, minutes)
    ensures hours < 48 && minutes < 120
  {
    Clock(at);
    Clock(start);
  }

  lemma DaySkips(c: Cron, at: nat)
    requires !DateMatches(c, DayNumber(at))
    ensures NoMatchBetween(c, at, Midnight(at))
    ensures at < Midnight(at) && Midnight(at) / MINUTES_PER_DAY == at / MINUTES_PER_DAY + 1
  {
    Jumps(at);
  }

  lemma HourSkips(c: Cron, at: nat)
    requires HourOf(at) !in c.hours
    ensures NoMatchBetween(c, at, NextHour(at))
    ensures at < NextHour(at) && at / MINUTES_PER_DAY <= NextHour(at) / MINUTES_PER_DAY
  {
    Jumps(at);
    forall k: nat | at <= k < NextHour(at) ensures !Matches(c, k) {
      Clock(k);
      Clock(at);
    }
  }

  /** Hour jumps so far: at most one per hour of the first day, then one per hour of the
      matching day the search has reached. */
  ghost predicate HoursSoFar(c: Cron, start: nat, at: nat, hours: nat) {
    if at / MINUTES_PER_DAY == start / MINUTES_PER_DAY then hours <= at / 60 - start / 60
    else
      && hours <= 24 + HourOf(at)
      && (at % MINUTES_PER_DAY != 0 ==> DateMatches(c, DayNumber(at)))
      && forall h | 0 <= h < HourOf(at) :: h !in c.hours
  }

  /** Minute steps so far: at most those of the first hour, then those of the matching hour
      the search has reached. */
  ghost predicate MinutesSoFar(c: Cron, start: nat, at: nat, minutes: nat) {
    if at / 60 == start / 60 then minutes <= at - start
    else
      && minutes <= 60 + MinuteOf(at)
      && (MinuteOf(at) != 0 ==> DateMatches(c, DayNumber(at)) && HourOf(at) in c.hours)
      && forall m | 0 <= m < MinuteOf(at) :: m !in c.minutes
  }

  lemma DayCounts(c: Cron, start: nat, at: nat, hours: nat, minutes: nat)
    requires start <= at && !DateMatches(c, DayNumber(at))
    requires HoursSoFar(c, start, at, hours) && MinutesSoFar(c, start, at, minutes)
    ensures HoursSoFar(c, start, Midnight(at), hours) && MinutesSoFar(c, start, Midnight(at), minutes)
  {
    Jumps(at);
    Clock(at);
    Clock(start);
  }

  lemma HourCounts(c: Cron, start: nat, at: nat, hours: nat, minutes: nat)
    requires WellFormed(c) && start <= at && DateMatches(c, DayNumber(at)) && HourOf(at) !in c.hours
    requires HoursSoFar(c, start, at, hours) && MinutesSoFar(c, start, at, minutes)
    ensures HoursSoFar(c, start, NextHour(at), hours + 1) && MinutesSoFar(c, start, NextHour(at), minutes)
  {
    Jumps(at);
    Clock(at);
    Clock(start);
    Clock(NextHour(at));
  }

  lemma MinuteCounts(c: Cron, start: nat, at: nat, hours: nat, minutes: nat)
    requires WellFormed(c) && start <= at
    requires DateMatches(c, DayNumber(at)) && HourOf(at) in c.hours && MinuteOf(at) !in c.minutes
    requires HoursSoFar(c, start, at, hours) && MinutesSoFar(c, start, at, minutes)
    ensures HoursSoFar(c, start, at + 1, hours) && MinutesSoFar(c, start, at + 1, minutes + 1)
  {
    Clock(at);
    Clock(at + 1);
    Clock(start);
  }
}
