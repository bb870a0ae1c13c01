/** Sign-in attempts that overlap. An attempt reads its two locks, hashes, and then counts
    against the name and against the source, each in a transaction of its own; those of any
    number of attempts interleave. */
module Overlaps {
  import opened Wrappers
  import opened Throttle

  // --- one counter ------------------------------------------------------------------

  /** An attempt found the counter unlocked; an attempt was counted on it. */
  datatype Entry = Pass(id: nat, at: int) | Miss(id: nat)

  /** One counter, and the attempts past their check that will be counted on it, each with
      the time it was stamped with. */
  datatype Meter = Meter(counter: Option<Counter>, pending: map<nat, int>)

  function Logged(m: Meter, threshold: int, p: Settings, e: Entry): Meter {
    match e
    case Pass(id, at) => m.(pending := m.pending[id := at])
    case Miss(id) =>
      if id !in m.pending then m
      else Meter(Some(Counted(m.counter, threshold, p, m.pending[id])), m.pending - {id})
  }

  function LoggedAll(m: Meter, threshold: int, p: Settings, log: seq<Entry>): Meter
    decreases |log|
  {
    if log == [] then m else LoggedAll(Logged(m, threshold, p, log[0]), threshold, p, log[1..])
  }

  predicate Possible(m: Meter, e: Entry) {
    match e
    case Pass(id, at) => id !in m.pending && !Locked(m.counter, at)
    case Miss(id) => id in m.pending
  }

  predicate Legal(m: Meter, threshold: int, p: Settings, log: seq<Entry>)
    decreases |log|
  {
    log == [] || (Possible(m, log[0]) && Legal(Logged(m, threshold, p, log[0]), threshold, p, log[1..]))
  }

  /** Never more than `n` attempts at once are past their check and not yet counted. */
  predicate AtMost(n: nat, m: Meter, threshold: int, p: Settings, log: seq<Entry>)
    decreases |log|
  {
    |m.pending| <= n && (log == [] || AtMost(n, Logged(m, threshold, p, log[0]), threshold, p, log[1..]))
  }

  /** The stamps of the failures counted, in the order they were counted. */
  function Times(m: Meter, threshold: int, p: Settings, log: seq<Entry>): seq<int>
    decreases |log|
  {
    if log == [] then []
    else (if log[0].Miss? && log[0].id in m.pending then [m.pending[log[0].id]] else [])
         + Times(Logged(m, threshold, p, log[0]), threshold, p, log[1..])
  }

  lemma PassCountsNothing(m: Meter, threshold: int, p: Settings, log: seq<Entry>)
    requires log != [] && log[0].Pass?
    ensures Times(m, threshold, p, log) == Times(Logged(m, threshold, p, log[0]), threshold, p, log[1..])
  {
  }

  lemma MissIsFirst(m: Meter, threshold: int, p: Settings, log: seq<Entry>)
    requires log != [] && log[0].Miss? && log[0].id in m.pending
    ensures var times := Times(m, threshold, p, log);
            && times != [] && times[0] == m.pending[log[0].id]
            && times[1..] == Times(Logged(m, threshold, p, log[0]), threshold, p, log[1..])
  {
  }

  lemma LaterTimes(m: Meter, threshold: int, p: Settings, log: seq<Entry>)
    requires log != []
    ensures forall t | t in Times(Logged(m, threshold, p, log[0]), threshold, p, log[1..]) :: t in Times(m, threshold, p, log)
  {
  }

  // --- attempts that do not disturb each other -----------------------------------------

  /** No failure of another attempt is counted between an attempt's check and its own
      count: the counter is still what the check saw. */
  predicate Undisturbed(m: Meter, seen: map<nat, Option<Counter>>, threshold: int, p: Settings, log: seq<Entry>)
    decreases |log|
  {
    log == [] ||
    match log[0]
    case Pass(id, at) => Undisturbed(Logged(m, threshold, p, log[0]), seen[id := m.counter], threshold, p, log[1..])
    case Miss(id) =>
      id in seen && seen[id] == m.counter && Undisturbed(Logged(m, threshold, p, log[0]), seen, threshold, p, log[1..])
  }

  /** What the checks saw was unlocked. */
  ghost predicate SeenUnlocked(m: Meter, seen: map<nat, Option<Counter>>) {
    forall id | id in m.pending && id in seen :: !Locked(seen[id], m.pending[id])
  }

  /** Then no failure counted meets a lock. */
  lemma {:induction false} UndisturbedIsCounted(m: Meter, seen: map<nat, Option<Counter>>, threshold: int, p: Settings, log: seq<Entry>)
    requires Legal(m, threshold, p, log) && Undisturbed(m, seen, threshold, p, log) && SeenUnlocked(m, seen)
    ensures AllCounted(m.counter, threshold, p, Times(m, threshold, p, log))
    decreases |log|
  {
    if log != [] {
      var m' := Logged(m, threshold, p, log[0]);
      match log[0]
      case Pass(id, at) =>
        PassCountsNothing(m, threshold, p, log);
        UndisturbedIsCounted(m', seen[id := m.counter], threshold, p, log[1..]);
      case Miss(id) =>
        UndisturbedIsCounted(m', seen, threshold, p, log[1..]);
        MissIsFirst(m, threshold, p, log);
    }
  }

  /** One attempt at a time is the plainest case. */
  lemma {:induction false} OneAtATimeIsCounted(m: Meter, threshold: int, p: Settings, log: seq<Entry>)
    requires Legal(m, threshold, p, log) && AtMost(1, m, threshold, p, log)
    requires forall id | id in m.pending :: !Locked(m.counter, m.pending[id])
    ensures AllCounted(m.counter, threshold, p, Times(m, threshold, p, log))
    decreases |log|
  {
    if log != [] {
      var m' := Logged(m, threshold, p, log[0]);
      match log[0]
      case Pass(id, at) =>
        assert |m'.pending| <= 1;
        Alone(m'.pending, id);
        PassCountsNothing(m, threshold, p, log);
        OneAtATimeIsCounted(m', threshold, p, log[1..]);
      case Miss(id) =>
        Alone(m.pending, id);
        OneAtATimeIsCounted(m', threshold, p, log[1..]);
        MissIsFirst(m, threshold, p, log);
    }
  }

  lemma Alone(pending: map<nat, int>, id: nat)
    requires id in pending && |pending| <= 1
    ensures forall other | other in pending :: other == id
  {
    forall other | other in pending ensures other == id {
      assert |pending.Keys - {id}| == 0;
      assert other !in pending.Keys - {id};
    }
  }

  // --- the bound with overlaps --------------------------------------------------------------

  /** Two failures stamped a whole window or a whole lockout apart. */
  ghost predicate Spread(p: Settings, times: seq<int>) {
    exists i, j :: 0 <= i < |times| && 0 <= j < |times| && (times[j] - times[i] >= p.window || times[j] - times[i] >= p.lockout)
  }

  function Larger(a: int, b: int): int { if a < b then b else a }

  /** How many failures can be counted within less than a window and a lockout, with at most
      `n` attempts at once past their check. */
  function Ceiling(threshold: int, n: nat): int { Larger(Effective(threshold), n) + n - 1 }

  function StampedBefore(m: Meter, time: int): set<nat> { set id | id in m.pending && m.pending[id] < time }

  function StampedWithin(m: Meter, from: int, before: int): set<nat> {
    set id | id in m.pending && from <= m.pending[id] < before
  }

  /** What every run keeps of one counter: a lock stands on enough failures, and of the
      attempts its check would have stopped, all but one can have slipped by. */
  ghost predicate Sane(m: Meter, threshold: int, n: nat) {
    && |m.pending| <= n
    && (m.counter.Some? ==>
          && m.counter.value.failures >= 1
          && (m.counter.value.lockedUntil.Some? ==>
                && m.counter.value.failures >= threshold
                && |StampedBefore(m, m.counter.value.lockedUntil.value)| <= n - 1))
  }

  /** How many more failures can be counted with stamps from `lo` to `hi`. */
  function Room(m: Meter, threshold: int, n: nat, lo: int, hi: int): int {
    if m.counter.None? || m.counter.value.last < lo then Ceiling(threshold, n)
    else
      var c := m.counter.value;
      if c.lockedUntil.Some? && c.lockedUntil.value > hi then |StampedWithin(m, lo, hi + 1)|
      else if c.lockedUntil.Some? && c.lockedUntil.value > lo then |StampedWithin(m, lo, c.lockedUntil.value)| + n
      else Larger(threshold - c.failures, 1) + n - 1
  }

  lemma Fewer(a: set<nat>, b: set<nat>)
    requires a <= b
    ensures |a| <= |b|
  {
    assert a + (b - a) == b;
  }

  lemma OneFewer(m: Meter, id: nat)
    requires id in m.pending
    ensures |m.pending - {id}| == |m.pending| - 1
  {
    assert (m.pending - {id}).Keys == m.pending.Keys - {id};
  }

  lemma CountKeepsSane(m: Meter, threshold: int, p: Settings, n: nat, id: nat)
    requires Sane(m, threshold, n) && id in m.pending
    ensures Sane(Logged(m, threshold, p, Miss(id)), threshold, n)
  {
    var m' := Logged(m, threshold, p, Miss(id));
    OneFewer(m, id);
    var held := m'.counter.value.lockedUntil;
    if held.Some? {
      Fewer(StampedBefore(m', held.value), m'.pending.Keys);
      if m.counter.Some? && m.counter.value.lockedUntil == held {
        Fewer(StampedBefore(m', held.value), StampedBefore(m, held.value));
      }
    }
  }

  lemma CheckKeepsSane(m: Meter, threshold: int, p: Settings, n: nat, id: nat, at: int)
    requires Sane(m, threshold, n) && Possible(m, Pass(id, at)) && |m.pending[id := at]| <= n
    ensures Sane(Logged(m, threshold, p, Pass(id, at)), threshold, n)
  {
    var m' := Logged(m, threshold, p, Pass(id, at));
    if m.counter.Some? && m.counter.value.lockedUntil.Some? {
      Fewer(StampedBefore(m', m.counter.value.lockedUntil.value), StampedBefore(m, m.counter.value.lockedUntil.value));
    }
  }

  /** A check that passes adds nobody the lock in force would have stopped. */
  lemma CheckLeavesRoom(m: Meter, threshold: int, p: Settings, n: nat, lo: int, hi: int, id: nat, at: int)
    requires Possible(m, Pass(id, at))
    ensures Room(Logged(m, threshold, p, Pass(id, at)), threshold, n, lo, hi) == Room(m, threshold, n, lo, hi)
  {
    var m' := Logged(m, threshold, p, Pass(id, at));
    if m.counter.Some? && m.counter.value.lockedUntil.Some? {
      var h := m.counter.value.lockedUntil.value;
      assert h > hi ==> StampedWithin(m', lo, hi + 1) == StampedWithin(m, lo, hi + 1);
      assert StampedWithin(m', lo, h) == StampedWithin(m, lo, h);
    }
  }

  /** A count with a stamp in the interval takes one away. */
  lemma CountTakesRoom(m: Meter, threshold: int, p: Settings, n: nat, lo: int, hi: int, id: nat)
    requires Sane(m, threshold, n) && id in m.pending && lo <= m.pending[id] <= hi
    requires hi - lo < p.window && hi - lo < p.lockout
    ensures Room(Logged(m, threshold, p, Miss(id)), threshold, n, lo, hi) + 1 <= Room(m, threshold, n, lo, hi)
  {
    var m' := Logged(m, threshold, p, Miss(id));
    var c' := m'.counter.value;
    OneFewer(m, id);
    Fewer(StampedWithin(m', lo, hi + 1), m'.pending.Keys);
    if c'.lockedUntil.Some? && m.counter.Some? && m.counter.value.lockedUntil == c'.lockedUntil {
      var h := c'.lockedUntil.value;
      OneFewerWithin(m, m', id, lo, hi + 1);
      OneFewerWithin(m, m', id, lo, h);
      OneFewerBefore(m, m', id, h);
      Fewer(StampedWithin(m', lo, h), StampedBefore(m', h));
    }
  }

  lemma OneFewerWithin(m: Meter, m': Meter, id: nat, from: int, before: int)
    requires id in m.pending && m'.pending == m.pending - {id}
    ensures |StampedWithin(m', from, before)| == |StampedWithin(m, from, before)| - if from <= m.pending[id] < before then 1 else 0
  {
    assert StampedWithin(m', from, before) == StampedWithin(m, from, before) - {id};
  }

  lemma OneFewerBefore(m: Meter, m': Meter, id: nat, before: int)
    requires id in m.pending && m'.pending == m.pending - {id}
    ensures |StampedBefore(m', before)| == |StampedBefore(m, before)| - if m.pending[id] < before then 1 else 0
  {
    assert StampedBefore(m', before) == StampedBefore(m, before) - {id};
  }

  lemma RoomIsBounded(m: Meter, threshold: int, n: nat, lo: int, hi: int)
    requires n >= 1 && Sane(m, threshold, n)
    ensures Room(m, threshold, n, lo, hi) <= Ceiling(threshold, n)
  {
    Fewer(StampedWithin(m, lo, hi + 1), m.pending.Keys);
    if m.counter.Some? && m.counter.value.lockedUntil.Some? {
      Fewer(StampedWithin(m, lo, m.counter.value.lockedUntil.value), StampedBefore(m, m.counter.value.lockedUntil.value));
    }
  }

  lemma {:induction false} CountsFitTheRoom(m: Meter, threshold: int, p: Settings, n: nat, log: seq<Entry>, lo: int, hi: int)
    requires Legal(m, threshold, p, log) && AtMost(n, m, threshold, p, log) && Sane(m, threshold, n)
    requires hi - lo < p.window && hi - lo < p.lockout && n >= 1
    requires forall t | t in Times(m, threshold, p, log) :: lo <= t <= hi
    ensures |Times(m, threshold, p, log)| <= Larger(Room(m, threshold, n, lo, hi), 0)
    decreases |log|
  {
    if log != [] {
      var m' := Logged(m, threshold, p, log[0]);
      match log[0] {
      case Pass(id, at) =>
        assert |m'.pending| <= n;
        CheckKeepsSane(m, threshold, p, n, id, at);
        CheckLeavesRoom(m, threshold, p, n, lo, hi, id, at);
        PassCountsNothing(m, threshold, p, log);
      case Miss(id) =>
        MissIsFirst(m, threshold, p, log);
        assert m.pending[id] in Times(m, threshold, p, log);
        CountKeepsSane(m, threshold, p, n, id);
        CountTakesRoom(m, threshold, p, n, lo, hi, id);
      }
      LaterTimes(m, threshold, p, log);
      CountsFitTheRoom(m', threshold, p, n, log[1..], lo, hi);
    }
  }

  lemma Extremes(times: seq<int>) returns (i: nat, j: nat)
    requires times != []
    ensures i < |times| && j < |times| && forall t | t in times :: times[i] <= t <= times[j]
  {
    i, j := 0, 0;
    for k := 1 to |times|
      invariant i < k && j < k && forall l | 0 <= l < k :: times[i] <= times[l] <= times[j]
    {
      if times[k] < times[i] { i := k; }
      if times[k] > times[j] { j := k; }
    }
  }

  /** With at most `n` attempts at once past their check, more failures than the ceiling on
      one counter are never all stamped within less than a window and a lockout. */
  lemma OverlapIsThrottled(m: Meter, threshold: int, p: Settings, n: nat, log: seq<Entry>)
    requires Legal(m, threshold, p, log) && AtMost(n, m, threshold, p, log) && Sane(m, threshold, n) && n >= 1
    requires |Times(m, threshold, p, log)| > Ceiling(threshold, n)
    ensures Spread(p, Times(m, threshold, p, log))
  {
    var times := Times(m, threshold, p, log);
    var i, j := Extremes(times);
    if times[j] - times[i] < p.window && times[j] - times[i] < p.lockout {
      CountsFitTheRoom(m, threshold, p, n, log, times[i], times[j]);
      RoomIsBounded(m, threshold, n, times[i], times[j]);
    }
  }

  // --- the bound is the best there is -------------------------------------------------------

  const NOBODY := Meter(None, map[])

  /** So many failures stamped alike. */
  function Same(at: int, count: nat): seq<int> { seq(count, k => at) }

  /** The log is possible with at most `n` at once, counts failures stamped so, and leaves the
      counter and the attempts under way as in `end`. */
  predicate Plays(n: nat, m: Meter, threshold: int, p: Settings, log: seq<Entry>, times: seq<int>, end: Meter) {
    && Legal(m, threshold, p, log) && AtMost(n, m, threshold, p, log)
    && Times(m, threshold, p, log) == times && LoggedAll(m, threshold, p, log) == end
  }

  lemma PlaysNothing(n: nat, m: Meter, threshold: int, p: Settings)
    requires |m.pending| <= n
    ensures Plays(n, m, threshold, p, [], [], m)
  {
  }

  lemma PlaysFirst(n: nat, m: Meter, threshold: int, p: Settings, e: Entry, rest: seq<Entry>, times: seq<int>, end: Meter)
    requires Possible(m, e) && |m.pending| <= n && Plays(n, Logged(m, threshold, p, e), threshold, p, rest, times, end)
    ensures Plays(n, m, threshold, p, [e] + rest, (if e.Miss? then [m.pending[e.id]] else []) + times, end)
  {
    assert ([e] + rest)[1..] == rest;
  }

  lemma {:induction false} StateJoins(n: nat, m: Meter, threshold: int, p: Settings, a: seq<Entry>, b: seq<Entry>)
    ensures var mid := LoggedAll(m, threshold, p, a);
            && LoggedAll(m, threshold, p, a + b) == LoggedAll(mid, threshold, p, b)
            && (Legal(m, threshold, p, a + b) <==> Legal(m, threshold, p, a) && Legal(mid, threshold, p, b))
            && (AtMost(n, m, threshold, p, a + b) <==> AtMost(n, m, threshold, p, a) && AtMost(n, mid, threshold, p, b))
    decreases |a|
  {
    if a == [] {
      assert a + b == b;
    } else {
      assert (a + b)[1..] == a[1..] + b;
      StateJoins(n, Logged(m, threshold, p, a[0]), threshold, p, a[1..], b);
    }
  }

  lemma {:induction false} TimesJoin(m: Meter, threshold: int, p: Settings, a: seq<Entry>, b: seq<Entry>)
    ensures Times(m, threshold, p, a + b) == Times(m, threshold, p, a) + Times(LoggedAll(m, threshold, p, a), threshold, p, b)
    decreases |a|
  {
    if a == [] {
      assert a + b == b;
    } else {
      assert (a + b)[1..] == a[1..] + b;
      TimesJoin(Logged(m, threshold, p, a[0]), threshold, p, a[1..], b);
    }
  }

  lemma PlaysJoin(n: nat, m: Meter, threshold: int, p: Settings, a: seq<Entry>, ta: seq<int>, mid: Meter,
                  b: seq<Entry>, tb: seq<int>, end: Meter)
    requires Plays(n, m, threshold, p, a, ta, mid) && Plays(n, mid, threshold, p, b, tb, end)
    ensures Plays(n, m, threshold, p, a + b, ta + tb, end)
  {
    StateJoins(n, m, threshold, p, a, b);
    TimesJoin(m, threshold, p, a, b);
  }

  /** Attempts `from`, `from + 1`, ... are counted one after the other. */
  function Leave(count: nat, from: nat): seq<Entry> { if count == 0 then [] else [Miss(from)] + Leave(count - 1, from + 1) }

  /** As many attempts, all stamped `at`, pass their check. */
  function Enter(count: nat, from: nat, at: int): seq<Entry> {
    if count == 0 then [] else [Pass(from, at)] + Enter(count - 1, from + 1, at)
  }

  /** As many attempts at time 0 that do not overlap. */
  function Singles(count: nat, from: nat): seq<Entry> {
    if count == 0 then [] else [Pass(from, 0)] + ([Miss(from)] + Singles(count - 1, from + 1))
  }

  lemma OneMore(pending: map<nat, int>, id: nat, at: int)
    requires id !in pending
    ensures |pending[id := at]| == |pending| + 1
  {
    assert pending[id := at].Keys == pending.Keys + {id};
  }

  lemma {:induction false} AllEnter(n: nat, m: Meter, threshold: int, p: Settings, count: nat, from: nat, at: int) returns (end: Meter)
    requires |m.pending| + count <= n && !Locked(m.counter, at) && forall i | i in m.pending :: i < from
    ensures Plays(n, m, threshold, p, Enter(count, from, at), [], end) && end.counter == m.counter
    ensures |end.pending| == |m.pending| + count
    ensures forall i :: i in end.pending <==> i in m.pending || from <= i < from + count
    ensures forall i | i in end.pending :: end.pending[i] == if i in m.pending then m.pending[i] else at
    decreases count
  {
    if count == 0 {
      end := m;
      PlaysNothing(n, m, threshold, p);
    } else {
      OneMore(m.pending, from, at);
      end := AllEnter(n, Logged(m, threshold, p, Pass(from, at)), threshold, p, count - 1, from + 1, at);
      PlaysFirst(n, m, threshold, p, Pass(from, at), Enter(count - 1, from + 1, at), [], end);
    }
  }

  /** A failure stamped `at` neither starts a new window nor moves the lock. */
  predicate Holds(c: Option<Counter>, threshold: int, p: Settings, at: int) {
    && c.Some? && c.value.failures >= threshold && c.value.last <= at < c.value.last + p.window
    && c.value.lockedUntil.Some? && at < c.value.lockedUntil.value
  }

  lemma {:induction false} AllLeave(n: nat, m: Meter, threshold: int, p: Settings, count: nat, from: nat, at: int) returns (end: Meter)
    requires |m.pending| <= n && forall i | from <= i < from + count :: i in m.pending && m.pending[i] == at
    ensures Plays(n, m, threshold, p, Leave(count, from), Same(at, count), end)
    ensures forall i :: i in end.pending <==> i in m.pending && !(from <= i < from + count)
    decreases count
  {
    if count == 0 {
      end := m;
      PlaysNothing(n, m, threshold, p);
      assert Same(at, 0) == [];
    } else {
      OneFewer(m, from);
      end := AllLeave(n, Logged(m, threshold, p, Miss(from)), threshold, p, count - 1, from + 1, at);
      PlaysFirst(n, m, threshold, p, Miss(from), Leave(count - 1, from + 1), Same(at, count - 1), end);
      assert [at] + Same(at, count - 1) == Same(at, count);
    }
  }

  lemma {:induction false} LeaveKeepsLock(m: Meter, threshold: int, p: Settings, count: nat, from: nat, at: int)
    requires forall i | from <= i < from + count :: i in m.pending && m.pending[i] == at
    requires Holds(m.counter, threshold, p, at)
    ensures var end := LoggedAll(m, threshold, p, Leave(count, from));
            Holds(end.counter, threshold, p, at) && end.counter.value.lockedUntil == m.counter.value.lockedUntil
    decreases count
  {
    if count > 0 { LeaveKeepsLock(Logged(m, threshold, p, Miss(from)), threshold, p, count - 1, from + 1, at); }
  }

  lemma {:induction false} SinglesPlay(n: nat, m: Meter, threshold: int, p: Settings, count: nat, from: nat) returns (end: Meter)
    requires m.pending == map[] && n >= 1 && p.window > 0
    requires m.counter.Some? ==> m.counter.value.lockedUntil.None? && m.counter.value.last == 0 && m.counter.value.failures >= 1
    requires count + (if m.counter.Some? then m.counter.value.failures else 0) < Effective(threshold)
    ensures Plays(n, m, threshold, p, Singles(count, from), Same(0, count), end) && end.pending == map[]
    ensures count == 0 ==> end == m
    ensures count > 0 ==>
              && end.counter.Some? && end.counter.value.lockedUntil.None? && end.counter.value.last == 0
              && end.counter.value.failures == count + if m.counter.Some? then m.counter.value.failures else 0
    decreases count
  {
    if count == 0 {
      end := m;
      PlaysNothing(n, m, threshold, p);
      assert Same(0, 0) == [];
    } else {
      var m1 := Logged(m, threshold, p, Pass(from, 0));
      var m2 := Logged(m1, threshold, p, Miss(from));
      assert m2.pending == map[];
      end := SinglesPlay(n, m2, threshold, p, count - 1, from + 1);
      PlaysFirst(n, m1, threshold, p, Miss(from), Singles(count - 1, from + 1), Same(0, count - 1), end);
      assert [0] + Same(0, count - 1) == Same(0, count);
      PlaysFirst(n, m, threshold, p, Pass(from, 0), [Miss(from)] + Singles(count - 1, from + 1), Same(0, count), end);
    }
  }

  /** `n` attempts that overlap after one failure less than the threshold are all counted, at
      one moment. Up to the threshold that is the ceiling. */
  lemma CeilingIsReached(threshold: int, p: Settings, n: nat) returns (log: seq<Entry>)
    requires p.window > 0 && n >= 1
    ensures Legal(NOBODY, threshold, p, log) && AtMost(n, NOBODY, threshold, p, log)
    ensures Times(NOBODY, threshold, p, log) == Same(0, Effective(threshold) - 1 + n)
    ensures n <= Effective(threshold) ==> Effective(threshold) - 1 + n == Ceiling(threshold, n)
  {
    var count := Effective(threshold) - 1;
    var m1 := SinglesPlay(n, NOBODY, threshold, p, count, 0);
    var overlap, m3 := EnterThenLeave(threshold, p, n, m1, count, 0);
    PlaysJoin(n, NOBODY, threshold, p, Singles(count, 0), Same(0, count), m1, overlap, Same(0, n), m3);
    log := Singles(count, 0) + overlap;
    assert Same(0, count) + Same(0, n) == Same(0, count + n);
  }

  /** The failure that sets a lock at `lockout`, with `n - 1` more attempts already past their
      check and stamped just before. */
  lemma LockWithStragglers(threshold: int, p: Settings, n: nat) returns (log: seq<Entry>, m: Meter, times: seq<int>)
    requires p.window >= p.lockout >= 2 && n >= 1
    ensures Plays(n, NOBODY, threshold, p, log, times, m) && |m.pending| == n - 1
    ensures Holds(m.counter, threshold, p, p.lockout - 1) && m.counter.value.lockedUntil == Some(p.lockout)
    ensures forall i :: i in m.pending <==> Effective(threshold) <= i < Effective(threshold) + n - 1
    ensures forall i | i in m.pending :: m.pending[i] == p.lockout - 1
  {
    var count: nat := Effective(threshold) - 1;
    var m1 := SinglesPlay(n, NOBODY, threshold, p, count, 0);
    var tail, end := LockLast(threshold, p, n, m1, count);
    m := end;
    log, times := Singles(count, 0) + tail, Same(0, count) + [0];
    PlaysJoin(n, NOBODY, threshold, p, Singles(count, 0), Same(0, count), m1, tail, [0], m);
  }

  lemma LockLast(threshold: int, p: Settings, n: nat, m1: Meter, id: nat) returns (log: seq<Entry>, m: Meter)
    requires p.window >= p.lockout >= 2 && n >= 1 && m1.pending == map[]
    requires m1.counter.Some? && m1.counter.value.lockedUntil.None? && m1.counter.value.last == 0
    requires m1.counter.value.failures == Effective(threshold) - 1
    ensures Plays(n, m1, threshold, p, log, [0], m) && |m.pending| == n - 1
    ensures Holds(m.counter, threshold, p, p.lockout - 1) && m.counter.value.lockedUntil == Some(p.lockout)
    ensures forall i :: i in m.pending <==> id < i < id + n
    ensures forall i | i in m.pending :: m.pending[i] == p.lockout - 1
  {
    var m2 := Logged(m1, threshold, p, Pass(id, 0));
    OneMore(m1.pending, id, 0);
    var m3 := AllEnter(n, m2, threshold, p, n - 1, id + 1, p.lockout - 1);
    LockIsSet(m1.counter, threshold, p);
    var enter := Enter(n - 1, id + 1, p.lockout - 1);
    var rest, end := LeaveLast(threshold, p, n, m2, enter, m3, id);
    m := end;
    PlaysFirst(n, m1, threshold, p, Pass(id, 0), rest, [0], m);
    log := [Pass(id, 0)] + rest;
    assert [] + [0] == [0];
  }

  lemma LeaveLast(threshold: int, p: Settings, n: nat, m2: Meter, enter: seq<Entry>, m3: Meter, id: nat)
    returns (log: seq<Entry>, m: Meter)
    requires Plays(n, m2, threshold, p, enter, [], m3) && id in m3.pending && m3.pending[id] == 0 && |m3.pending| <= n
    ensures m == Logged(m3, threshold, p, Miss(id)) && |m.pending| == |m3.pending| - 1
    ensures Plays(n, m2, threshold, p, log, [0], m)
  {
    m := Logged(m3, threshold, p, Miss(id));
    OneFewer(m3, id);
    PlaysNothing(n, m, threshold, p);
    PlaysFirst(n, m3, threshold, p, Miss(id), [], [], m);
    PlaysJoin(n, m2, threshold, p, enter, [], m3, [Miss(id)] + [], [0] + [], m);
    log := enter + ([Miss(id)] + []);
    assert [] + ([0] + []) == [0];
  }

  lemma LockIsSet(c: Option<Counter>, threshold: int, p: Settings)
    requires p.window >= p.lockout >= 2
    requires c.Some? && c.value.lockedUntil.None? && c.value.last == 0 && c.value.failures == Effective(threshold) - 1
    ensures var locked := Some(Counted(c, threshold, p, 0));
            Holds(locked, threshold, p, p.lockout - 1) && locked.value.lockedUntil == Some(p.lockout)
  {
  }

  /** Beyond the threshold the ceiling is reached in the middle of a run, when the window is no
      shorter than the lockout: the attempts that slipped by an old lock are counted, and as
      soon as it ends as many more as may overlap pass, all within two moments. */
  lemma CeilingIsReachedLater(threshold: int, p: Settings, n: nat) returns (before: seq<Entry>, burst: seq<Entry>)
    requires p.window >= p.lockout >= 2 && n >= Effective(threshold)
    ensures Legal(NOBODY, threshold, p, before) && AtMost(n, NOBODY, threshold, p, before)
    ensures var m := LoggedAll(NOBODY, threshold, p, before);
            && Legal(m, threshold, p, burst) && AtMost(n, m, threshold, p, burst)
            && |Times(m, threshold, p, burst)| == Ceiling(threshold, n) && !Spread(p, Times(m, threshold, p, burst))
  {
    var opening, m, times := LockWithStragglers(threshold, p, n);
    before := opening;
    burst := StragglersThenNew(threshold, p, n, m, Effective(threshold));
    TwoMoments(p, n);
  }

  lemma StragglersThenNew(threshold: int, p: Settings, n: nat, m: Meter, first: nat) returns (burst: seq<Entry>)
    requires p.lockout >= 2 && n >= 1 && |m.pending| == n - 1
    requires Holds(m.counter, threshold, p, p.lockout - 1) && m.counter.value.lockedUntil == Some(p.lockout)
    requires forall i :: i in m.pending <==> first <= i < first + n - 1
    requires forall i | i in m.pending :: m.pending[i] == p.lockout - 1
    ensures Legal(m, threshold, p, burst) && AtMost(n, m, threshold, p, burst)
    ensures Times(m, threshold, p, burst) == Same(p.lockout - 1, n - 1) + Same(p.lockout, n)
  {
    var next := first + n - 1;
    var m1 := AllLeave(n, m, threshold, p, n - 1, first, p.lockout - 1);
    LeaveKeepsLock(m, threshold, p, n - 1, first, p.lockout - 1);
    assert m1.pending == map[];
    var newer, m3 := EnterThenLeave(threshold, p, n, m1, next, p.lockout);
    PlaysJoin(n, m, threshold, p, Leave(n - 1, first), Same(p.lockout - 1, n - 1), m1, newer, Same(p.lockout, n), m3);
    burst := Leave(n - 1, first) + newer;
  }

  lemma EnterThenLeave(threshold: int, p: Settings, n: nat, m: Meter, from: nat, at: int) returns (log: seq<Entry>, end: Meter)
    requires m.pending == map[] && !Locked(m.counter, at)
    ensures Plays(n, m, threshold, p, log, Same(at, n), end)
  {
    var mid := AllEnter(n, m, threshold, p, n, from, at);
    end := AllLeave(n, mid, threshold, p, n, from, at);
    log := Enter(n, from, at) + Leave(n, from);
    PlaysJoin(n, m, threshold, p, Enter(n, from, at), [], mid, Leave(n, from), Same(at, n), end);
    assert [] + Same(at, n) == Same(at, n);
  }

  lemma TwoMoments(p: Settings, n: nat)
    requires p.window >= 2 && p.lockout >= 2 && n >= 1
    ensures !Spread(p, Same(p.lockout - 1, n - 1) + Same(p.lockout, n))
  {
    var times := Same(p.lockout - 1, n - 1) + Same(p.lockout, n);
    assert forall k | 0 <= k < |times| :: p.lockout - 1 <= times[k] <= p.lockout;
  }

  /** No more failures than the threshold without a pause is what the lock is for. It holds
      exactly when no two attempts are past their check at once. */
  lemma ThresholdHoldsIffAlone(threshold: int, p: Settings, n: nat)
    requires p.window > 0 && p.lockout > 0 && n >= 1
    ensures (forall log: seq<Entry> | Legal(NOBODY, threshold, p, log) && AtMost(n, NOBODY, threshold, p, log) ::
               |Times(NOBODY, threshold, p, log)| <= Effective(threshold) || Spread(p, Times(NOBODY, threshold, p, log)))
            <==> n == 1
  {
    if n == 1 {
      forall log: seq<Entry> | Legal(NOBODY, threshold, p, log) && AtMost(n, NOBODY, threshold, p, log)
        ensures |Times(NOBODY, threshold, p, log)| <= Effective(threshold) || Spread(p, Times(NOBODY, threshold, p, log))
      {
        if |Times(NOBODY, threshold, p, log)| > Effective(threshold) {
          OverlapIsThrottled(NOBODY, threshold, p, n, log);
        }
      }
    } else {
      var log := CeilingIsReached(threshold, p, n);
      assert |Times(NOBODY, threshold, p, log)| > Effective(threshold) && !Spread(p, Times(NOBODY, threshold, p, log));
    }
  }

  // --- the whole service --------------------------------------------------------------------

  datatype Phase = Checked | NameCounted | Ended(outcome: Outcome)

  datatype Flight = Flight(attempt: Attempt, phase: Phase)

  datatype World = World(counters: Counters, flights: map<nat, Flight>)

  /** The transactions of attempts and administrators. */
  datatype Move =
    | Begin(id: nat, attempt: Attempt)
    | CountName(id: nat)
    | CountSource(id: nat)
    | Succeed(id: nat)
    | Unlock(key: Key)
    | Purge(cutoff: int)

  predicate Right(a: Attempt) { a.verified && a.usable }

  predicate At(w: World, id: nat, phase: Phase) { id in w.flights && w.flights[id].phase == phase }

  function Moved(w: World, id: nat, phase: Phase): map<nat, Flight>
    requires id in w.flights
  {
    w.flights[id := w.flights[id].(phase := phase)]
  }

  function Checking(t: Counters, a: Attempt): Phase {
    var lock := LockOf(t, a);
    if lock.Some? then Ended(LockedOut(lock.value)) else if a.oversized then Ended(Oversized) else Checked
  }

  function Next(w: World, p: Settings, m: Move): World {
    match m
    case Begin(id, a) =>
      if id in w.flights then w else w.(flights := w.flights[id := Flight(a, Checking(w.counters, a))])
    case CountName(id) =>
      if !At(w, id, Checked) || Right(w.flights[id].attempt) then w
      else
        var a := w.flights[id].attempt;
        World(CountOne(w.counters, Key(Subject, a.subject), p, a.now), Moved(w, id, NameCounted))
    case CountSource(id) =>
      if !At(w, id, NameCounted) || Right(w.flights[id].attempt) then w
      else
        var a := w.flights[id].attempt;
        World(if a.source.Some? then CountOne(w.counters, Key(Source, a.source.value), p, a.now) else w.counters,
              Moved(w, id, Ended(BadCredential)))
    case Succeed(id) =>
      if !At(w, id, Checked) || !Right(w.flights[id].attempt) then w
      else World(w.counters - {Key(Subject, w.flights[id].attempt.subject)}, Moved(w, id, Ended(SignedIn)))
    case Unlock(k) => w.(counters := w.counters - {k})
    case Purge(cutoff) => w.(counters := Purged(w.counters, cutoff))
  }

  function Play(w: World, p: Settings, moves: seq<Move>): World
    decreases |moves|
  {
    if moves == [] then w else Play(Next(w, p, moves[0]), p, moves[1..])
  }

  const START := World(map[], map[])

  /** An attempt nothing interrupts is the one step it is meant to be. */
  lemma UninterruptedIsOneStep(w: World, p: Settings, id: nat, a: Attempt)
    requires id !in w.flights
    ensures var end := Next(Next(Next(Next(w, p, Begin(id, a)), p, Succeed(id)), p, CountName(id)), p, CountSource(id));
            && end.counters == Throttle.Step(w.counters, p, a)
            && end.flights == w.flights[id := Flight(a, Ended(OutcomeOf(w.counters, a)))]
  {
  }

  /** Will this attempt still be counted on `k`? */
  predicate Waits(f: Flight, k: Key) {
    CountsOn(f.attempt, k) && !Right(f.attempt) && (f.phase == Checked || (f.phase == NameCounted && k.scope == Source))
  }

  function PendingOn(w: World, k: Key): map<nat, int> {
    map id | id in w.flights && Waits(w.flights[id], k) :: w.flights[id].attempt.now
  }

  function MeterOf(w: World, k: Key): Meter { Meter(Get(w.counters, k), PendingOn(w, k)) }

  /** What a move writes in the log of one counter. */
  function EntryOf(w: World, m: Move, k: Key): seq<Entry> {
    match m
    case Begin(id, a) =>
      if id !in w.flights && Checking(w.counters, a) == Checked && CountsOn(a, k) && !Right(a) then [Pass(id, a.now)] else []
    case CountName(id) => if id in PendingOn(w, k) && At(w, id, Checked) && k.scope == Subject then [Miss(id)] else []
    case CountSource(id) => if id in PendingOn(w, k) && At(w, id, NameCounted) then [Miss(id)] else []
    case _ => []
  }

  function LogOf(w: World, p: Settings, moves: seq<Move>, k: Key): seq<Entry>
    decreases |moves|
  {
    if moves == [] then [] else EntryOf(w, moves[0], k) + LogOf(Next(w, p, moves[0]), p, moves[1..], k)
  }

  /** This move deletes the counter: a sign-in under the name, an administrator, or a purge. */
  predicate Clears(w: World, m: Move, k: Key) {
    match m
    case Succeed(id) => At(w, id, Checked) && Right(w.flights[id].attempt) && k == Key(Subject, w.flights[id].attempt.subject)
    case Unlock(key) => key == k
    case Purge(cutoff) => k in w.counters && w.counters[k].last < cutoff
    case _ => false
  }

  predicate NeverCleared(w: World, p: Settings, moves: seq<Move>, k: Key)
    decreases |moves|
  {
    moves == [] || (!Clears(w, moves[0], k) && NeverCleared(Next(w, p, moves[0]), p, moves[1..], k))
  }

  /** The meter moves by the entry, if there is one. */
  predicate Follows(before: Meter, after: Meter, threshold: int, p: Settings, e: seq<Entry>) {
    if e == [] then after == before
    else |e| == 1 && Possible(before, e[0]) && after == Logged(before, threshold, p, e[0])
  }

  lemma PendingAfter(w: World, w': World, id: nat, phase: Phase, k: Key)
    requires id in w.flights && w'.flights == Moved(w, id, phase)
    ensures PendingOn(w', k)
         == if Waits(w'.flights[id], k) then PendingOn(w, k)[id := w.flights[id].attempt.now] else PendingOn(w, k) - {id}
  {
  }

  lemma PendingWith(w: World, w': World, id: nat, k: Key)
    requires id !in w.flights && id in w'.flights && w'.flights == w.flights[id := w'.flights[id]]
    ensures PendingOn(w', k)
         == if Waits(w'.flights[id], k) then PendingOn(w, k)[id := w'.flights[id].attempt.now] else PendingOn(w, k)
  {
  }

  lemma BeginIsLogged(w: World, p: Settings, id: nat, a: Attempt, k: Key)
    ensures Follows(MeterOf(w, k), MeterOf(Next(w, p, Begin(id, a)), k), p.Threshold(k.scope), p, EntryOf(w, Begin(id, a), k))
  {
    if id !in w.flights { PendingWith(w, Next(w, p, Begin(id, a)), id, k); }
  }

  lemma NameIsLogged(w: World, p: Settings, id: nat, k: Key)
    ensures Follows(MeterOf(w, k), MeterOf(Next(w, p, CountName(id)), k), p.Threshold(k.scope), p, EntryOf(w, CountName(id), k))
  {
    if At(w, id, Checked) && !Right(w.flights[id].attempt) {
      PendingAfter(w, Next(w, p, CountName(id)), id, NameCounted, k);
      if k.scope == Source && id in PendingOn(w, k) {
        assert PendingOn(w, k)[id := w.flights[id].attempt.now] == PendingOn(w, k);
      }
      if id !in PendingOn(w, k) { assert PendingOn(w, k) - {id} == PendingOn(w, k); }
    }
  }

  lemma SourceIsLogged(w: World, p: Settings, id: nat, k: Key)
    ensures Follows(MeterOf(w, k), MeterOf(Next(w, p, CountSource(id)), k), p.Threshold(k.scope), p, EntryOf(w, CountSource(id), k))
  {
    if At(w, id, NameCounted) && !Right(w.flights[id].attempt) {
      PendingAfter(w, Next(w, p, CountSource(id)), id, Ended(BadCredential), k);
      if id !in PendingOn(w, k) { assert PendingOn(w, k) - {id} == PendingOn(w, k); }
    }
  }

  lemma SuccessIsLogged(w: World, p: Settings, id: nat, k: Key)
    ensures PendingOn(Next(w, p, Succeed(id)), k) == PendingOn(w, k)
  {
    if At(w, id, Checked) && Right(w.flights[id].attempt) {
      PendingAfter(w, Next(w, p, Succeed(id)), id, Ended(SignedIn), k);
    }
  }

  /** What the service does to one counter is what its log says. */
  lemma MoveIsLogged(w: World, p: Settings, m: Move, k: Key)
    requires !Clears(w, m, k)
    ensures Follows(MeterOf(w, k), MeterOf(Next(w, p, m), k), p.Threshold(k.scope), p, EntryOf(w, m, k))
  {
    match m
    case Begin(id, a) => BeginIsLogged(w, p, id, a, k);
    case CountName(id) => NameIsLogged(w, p, id, k);
    case CountSource(id) => SourceIsLogged(w, p, id, k);
    case Succeed(id) => SuccessIsLogged(w, p, id, k);
    case _ =>
  }

  /** Over a run that never deletes the counter: its failures are those of a possible log,
      overlapping no more than the attempts do. */
  lemma {:induction false} FailuresAreLogged(w: World, p: Settings, moves: seq<Move>, k: Key)
    requires NeverCleared(w, p, moves, k)
    ensures Legal(MeterOf(w, k), p.Threshold(k.scope), p, LogOf(w, p, moves, k))
    ensures MeterOf(Play(w, p, moves), k) == LoggedAll(MeterOf(w, k), p.Threshold(k.scope), p, LogOf(w, p, moves, k))
    decreases |moves|
  {
    if moves != [] {
      var w', e := Next(w, p, moves[0]), EntryOf(w, moves[0], k);
      MoveIsLogged(w, p, moves[0], k);
      FailuresAreLogged(w', p, moves[1..], k);
      Prepended(e, LogOf(w', p, moves[1..], k));
    }
  }

  lemma Prepended(e: seq<Entry>, rest: seq<Entry>)
    requires |e| <= 1
    ensures e == [] ==> e + rest == rest
    ensures e != [] ==> e + rest != [] && (e + rest)[0] == e[0] && (e + rest)[1..] == rest
  {
  }

  /** Never more than `n` attempts at once are past their check and still to be counted on
      this counter. */
  predicate AtMostPending(n: nat, w: World, p: Settings, moves: seq<Move>, k: Key)
    decreases |moves|
  {
    |PendingOn(w, k)| <= n && (moves == [] || AtMostPending(n, Next(w, p, moves[0]), p, moves[1..], k))
  }

  lemma {:induction false} PendingIsLogged(n: nat, w: World, p: Settings, moves: seq<Move>, k: Key)
    requires NeverCleared(w, p, moves, k) && AtMostPending(n, w, p, moves, k)
    ensures AtMost(n, MeterOf(w, k), p.Threshold(k.scope), p, LogOf(w, p, moves, k))
    decreases |moves|
  {
    if moves != [] {
      var w', e := Next(w, p, moves[0]), EntryOf(w, moves[0], k);
      MoveIsLogged(w, p, moves[0], k);
      PendingIsLogged(n, w', p, moves[1..], k);
      Prepended(e, LogOf(w', p, moves[1..], k));
    }
  }

  lemma MoveKeepsSane(n: nat, w: World, p: Settings, m: Move, k: Key)
    requires Sane(MeterOf(w, k), p.Threshold(k.scope), n) && |PendingOn(Next(w, p, m), k)| <= n
    ensures Sane(MeterOf(Next(w, p, m), k), p.Threshold(k.scope), n)
  {
    if Clears(w, m, k) {
      assert Get(Next(w, p, m).counters, k) == None;
    } else {
      MoveIsLogged(w, p, m, k);
      var e := EntryOf(w, m, k);
      if e != [] {
        match e[0]
        case Pass(id, at) => CheckKeepsSane(MeterOf(w, k), p.Threshold(k.scope), p, n, id, at);
        case Miss(id) => CountKeepsSane(MeterOf(w, k), p.Threshold(k.scope), p, n, id);
      }
    }
  }

  lemma {:induction false} RunKeepsSane(n: nat, w: World, p: Settings, moves: seq<Move>, k: Key)
    requires Sane(MeterOf(w, k), p.Threshold(k.scope), n) && AtMostPending(n, w, p, moves, k)
    ensures Sane(MeterOf(Play(w, p, moves), k), p.Threshold(k.scope), n)
    decreases |moves|
  {
    if moves != [] {
      assert |PendingOn(Next(w, p, moves[0]), k)| <= n;
      MoveKeepsSane(n, w, p, moves[0], k);
      RunKeepsSane(n, Next(w, p, moves[0]), p, moves[1..], k);
    }
  }

  /** When failures were counted against one name or source. */
  function FailureTimes(w: World, p: Settings, moves: seq<Move>, k: Key): seq<int> {
    Times(MeterOf(w, k), p.Threshold(k.scope), p, LogOf(w, p, moves, k))
  }

  /** Over any run of attempts by anybody from anywhere, overlapping as they may: in any part
      of it that does not delete the counter, more failures than the ceiling, counted
      against one name or one source, span a whole window or a whole lockout. */
  lemma EveryBurstIsThrottled(p: Settings, before: seq<Move>, burst: seq<Move>, k: Key, n: nat)
    requires n >= 1
    requires AtMostPending(n, START, p, before, k) && AtMostPending(n, Play(START, p, before), p, burst, k)
    requires NeverCleared(Play(START, p, before), p, burst, k)
    requires |FailureTimes(Play(START, p, before), p, burst, k)| > Ceiling(p.Threshold(k.scope), n)
    ensures Spread(p, FailureTimes(Play(START, p, before), p, burst, k))
  {
    var w := Play(START, p, before);
    assert PendingOn(START, k) == map[];
    RunKeepsSane(n, START, p, before, k);
    FailuresAreLogged(w, p, burst, k);
    PendingIsLogged(n, w, p, burst, k);
    OverlapIsThrottled(MeterOf(w, k), p.Threshold(k.scope), p, n, LogOf(w, p, burst, k));
  }

  /** The failures counted in a run none of which meets a lock. */
  lemma CountedBurstIsThrottled(w: World, p: Settings, burst: seq<Move>, k: Key, i: nat)
    requires AllCounted(Get(w.counters, k), p.Threshold(k.scope), p, FailureTimes(w, p, burst, k))
    requires i + Effective(p.Threshold(k.scope)) + 1 <= |FailureTimes(w, p, burst, k)|
    ensures HasGap(p, FailureTimes(w, p, burst, k)[i..i + Effective(p.Threshold(k.scope)) + 1])
  {
    BurstInside(Get(w.counters, k), p.Threshold(k.scope), p, FailureTimes(w, p, burst, k), i);
  }

  /** When no other failure is counted between an attempt's check and its count, of any
      `threshold + 1` consecutive failures two neighbours are a window or a lockout apart. */
  lemma UndisturbedBurstIsThrottled(w: World, p: Settings, burst: seq<Move>, k: Key, i: nat)
    requires NeverCleared(w, p, burst, k) && PendingOn(w, k) == map[]
    requires Undisturbed(MeterOf(w, k), map[], p.Threshold(k.scope), p, LogOf(w, p, burst, k))
    requires i + Effective(p.Threshold(k.scope)) + 1 <= |FailureTimes(w, p, burst, k)|
    ensures HasGap(p, FailureTimes(w, p, burst, k)[i..i + Effective(p.Threshold(k.scope)) + 1])
  {
    FailuresAreLogged(w, p, burst, k);
    UndisturbedIsCounted(MeterOf(w, k), map[], p.Threshold(k.scope), p, LogOf(w, p, burst, k));
    CountedBurstIsThrottled(w, p, burst, k, i);
  }

  /** Which is so when attempts on the counter come one at a time. */
  lemma OneAtATimeIsThrottled(w: World, p: Settings, burst: seq<Move>, k: Key, i: nat)
    requires NeverCleared(w, p, burst, k) && PendingOn(w, k) == map[] && AtMostPending(1, w, p, burst, k)
    requires i + Effective(p.Threshold(k.scope)) + 1 <= |FailureTimes(w, p, burst, k)|
    ensures HasGap(p, FailureTimes(w, p, burst, k)[i..i + Effective(p.Threshold(k.scope)) + 1])
  {
    FailuresAreLogged(w, p, burst, k);
    PendingIsLogged(1, w, p, burst, k);
    OneAtATimeIsCounted(MeterOf(w, k), p.Threshold(k.scope), p, LogOf(w, p, burst, k));
    CountedBurstIsThrottled(w, p, burst, k, i);
  }

  /** A wrong guess at one name, from nowhere in particular. */
  const GUESS := Attempt("a", None, false, false, true, 0)

  const ALL_BEGIN := [Begin(0, GUESS), Begin(1, GUESS), Begin(2, GUESS)]

  const ALL_COUNT := [CountName(0), CountName(1), CountName(2)]

  lemma ThreeMoves(w: World, p: Settings, a: Move, b: Move, c: Move, k: Key)
    ensures Play(w, p, [a, b, c]) == Next(Next(Next(w, p, a), p, b), p, c)
    ensures LogOf(w, p, [a, b, c], k)
         == EntryOf(w, a, k) + (EntryOf(Next(w, p, a), b, k) + EntryOf(Next(Next(w, p, a), p, b), c, k))
  {
    assert [a, b, c][1..] == [b, c] && [b, c][1..] == [c] && [c][1..] == [];
    var w2 := Next(Next(w, p, a), p, b);
    assert Play(w2, p, [c]) == Play(Next(w2, p, c), p, []);
    assert LogOf(w2, p, [c], k) == EntryOf(w2, c, k) + LogOf(Next(w2, p, c), p, [], k);
  }

  lemma ThreeMisses(m: Meter, threshold: int, p: Settings)
    requires m.pending == map[0 := 0, 1 := 0, 2 := 0]
    ensures Times(m, threshold, p, [Miss(0), Miss(1), Miss(2)]) == [0, 0, 0]
  {
    var end := AllLeave(3, m, threshold, p, 3, 0, 0);
    assert Leave(1, 2) == [Miss(2)] + Leave(0, 3);
    assert Leave(3, 0) == [Miss(0)] + ([Miss(1)] + Leave(1, 2)) == [Miss(0), Miss(1), Miss(2)];
    assert Same(0, 3) == [0, 0, 0];
  }

  lemma ThreeBegin(p: Settings)
    ensures Play(START, p, ALL_BEGIN)
         == World(map[], map[0 := Flight(GUESS, Checked), 1 := Flight(GUESS, Checked), 2 := Flight(GUESS, Checked)])
  {
    ThreeMoves(START, p, Begin(0, GUESS), Begin(1, GUESS), Begin(2, GUESS), Key(Subject, "a"));
    assert Checking(map[], GUESS) == Checked;
  }

  lemma CountOneGuess(w: World, p: Settings, id: nat)
    requires At(w, id, Checked) && w.flights[id].attempt == GUESS
    ensures var k := Key(Subject, "a");
            && EntryOf(w, CountName(id), k) == [Miss(id)]
            && Next(w, p, CountName(id)).counters == w.counters[k := Counted(Get(w.counters, k), p.subjectThreshold, p, 0)]
            && Next(w, p, CountName(id)).flights == w.flights[id := Flight(GUESS, NameCounted)]
  {
  }

  /** Overlapping, three guesses all pass a lock that two failures set. */
  lemma ThreeGuessesAtOnce(p: Settings)
    requires p.subjectThreshold == 2 && p.window > 0 && p.lockout > 0
    ensures var k := Key(Subject, "a");
            var w := Play(START, p, ALL_BEGIN);
            && FailureTimes(w, p, ALL_COUNT, k) == [0, 0, 0]
            && k in Play(w, p, ALL_COUNT).counters && Play(w, p, ALL_COUNT).counters[k].failures == 3
  {
    var k := Key(Subject, "a");
    var w := Play(START, p, ALL_BEGIN);
    ThreeBegin(p);
    var w1 := Next(w, p, CountName(0));
    var w2 := Next(w1, p, CountName(1));
    CountOneGuess(w, p, 0);
    CountOneGuess(w1, p, 1);
    CountOneGuess(w2, p, 2);
    ThreeMoves(w, p, CountName(0), CountName(1), CountName(2), k);
    assert PendingOn(w, k) == map[0 := 0, 1 := 0, 2 := 0];
    assert LogOf(w, p, ALL_COUNT, k) == [Miss(0), Miss(1), Miss(2)];
    ThreeMisses(MeterOf(w, k), p.Threshold(Subject), p);
  }
}
