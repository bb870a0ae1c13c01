/** Dropping counters that are over, while attempts are under way. */
module Purges {
  import opened Wrappers
  import opened Throttle
  import opened Overlaps

  /** A move, and when it is made. */
  datatype Timed = Timed(at: int, move: Move)

  predicate InOrder(from: int, run: seq<Timed>, to: int)
    decreases |run|
  {
    from <= to && (run == [] || (from <= run[0].at && InOrder(run[0].at, run[1..], to)))
  }

  function PlayTimed(w: World, p: Settings, run: seq<Timed>): World
    decreases |run|
  {
    if run == [] then w else PlayTimed(Next(w, p, run[0].move), p, run[1..])
  }

  predicate Soon(w: World, limit: int, id: nat, at: int) {
    id in w.flights && !w.flights[id].phase.Ended? ==> at <= w.flights[id].attempt.now + limit
  }

  /** Attempts are stamped when they are checked, and counted at most `limit` later. */
  predicate Prompt(w: World, limit: int, e: Timed) {
    match e.move
    case Begin(_, a) => a.now == e.at
    case CountName(id) => Soon(w, limit, id, e.at)
    case CountSource(id) => Soon(w, limit, id, e.at)
    case _ => true
  }

  predicate AllPrompt(w: World, p: Settings, limit: int, run: seq<Timed>)
    decreases |run|
  {
    run == [] || (Prompt(w, limit, run[0]) && AllPrompt(Next(w, p, run[0].move), p, limit, run[1..]))
  }

  // --- locks do not outlast their counters ----------------------------------------------

  predicate Bounded(c: Counter, p: Settings, limit: int, clock: int) {
    && c.last <= clock
    && (c.lockedUntil.Some? ==> c.lockedUntil.value <= clock + p.lockout
                                && c.lockedUntil.value <= c.last + p.lockout + limit)
  }

  ghost predicate AllBounded(w: World, p: Settings, limit: int, clock: int) {
    && (forall k | k in w.counters :: Bounded(w.counters[k], p, limit, clock))
    && (forall id | id in w.flights :: w.flights[id].attempt.now <= clock)
  }

  lemma CountedIsBounded(c: Option<Counter>, threshold: int, p: Settings, limit: int, now: int, clock: int)
    requires now <= clock <= now + limit && (c.Some? ==> Bounded(c.value, p, limit, clock))
    ensures Bounded(Counted(c, threshold, p, now), p, limit, clock)
  {
  }

  lemma MoveKeepsBounded(w: World, p: Settings, limit: int, e: Timed, clock: int)
    requires AllBounded(w, p, limit, clock) && clock <= e.at && Prompt(w, limit, e)
    ensures AllBounded(Next(w, p, e.move), p, limit, e.at)
  {
    match e.move
    case CountName(id) =>
      if At(w, id, Checked) {
        var k := Key(Subject, w.flights[id].attempt.subject);
        CountedIsBounded(Get(w.counters, k), p.subjectThreshold, p, limit, w.flights[id].attempt.now, e.at);
      }
    case CountSource(id) =>
      if At(w, id, NameCounted) && w.flights[id].attempt.source.Some? {
        var k := Key(Source, w.flights[id].attempt.source.value);
        CountedIsBounded(Get(w.counters, k), p.sourceThreshold, p, limit, w.flights[id].attempt.now, e.at);
      }
    case _ =>
  }

  lemma {:induction false} LocksStayBounded(w: World, p: Settings, limit: int, run: seq<Timed>, from: int, to: int)
    requires AllBounded(w, p, limit, from) && InOrder(from, run, to) && AllPrompt(w, p, limit, run)
    ensures AllBounded(PlayTimed(w, p, run), p, limit, to)
    decreases |run|
  {
    if run != [] {
      MoveKeepsBounded(w, p, limit, run[0], from);
      LocksStayBounded(Next(w, p, run[0].move), p, limit, run[1..], run[0].at, to);
    }
  }

  // --- what a purge may forget ------------------------------------------------------------

  /** No failure stamped from `stamps` on adds to this counter, and no check from `checks` on
      meets its lock. */
  predicate Over(c: Counter, p: Settings, stamps: int, checks: int) {
    c.last + p.window <= stamps && (c.lockedUntil.Some? ==> c.lockedUntil.value <= checks)
  }

  /** `s` is `t` without some counters that are over. */
  ghost predicate Forgets(t: Counters, s: Counters, p: Settings, stamps: int, checks: int) {
    && (forall k | k in s :: k in t && s[k] == t[k])
    && (forall k | k in t && k !in s :: Over(t[k], p, stamps, checks))
  }

  lemma CountUnseen(t: Counters, s: Counters, p: Settings, k: Key, stamp: int, stamps: int, checks: int)
    requires Forgets(t, s, p, stamps, checks) && stamp >= stamps
    ensures Forgets(CountOne(t, k, p, stamp), CountOne(s, k, p, stamp), p, stamps, checks)
  {
  }

  lemma CheckUnseen(t: Counters, s: Counters, p: Settings, a: Attempt, stamps: int, checks: int)
    requires Forgets(t, s, p, stamps, checks) && a.now >= checks
    ensures Checking(t, a) == Checking(s, a)
  {
  }

  /** Two worlds alike but for forgotten counters stay so. */
  lemma MoveUnseen(w: World, v: World, p: Settings, limit: int, e: Timed, now: int)
    requires v.flights == w.flights && Forgets(w.counters, v.counters, p, now - limit, now)
    requires now <= e.at && Prompt(w, limit, e)
    ensures Next(v, p, e.move).flights == Next(w, p, e.move).flights
    ensures Forgets(Next(w, p, e.move).counters, Next(v, p, e.move).counters, p, now - limit, now)
  {
    match e.move
    case Begin(id, a) => CheckUnseen(w.counters, v.counters, p, a, now - limit, now);
    case CountName(id) =>
      if At(w, id, Checked) {
        var a := w.flights[id].attempt;
        CountUnseen(w.counters, v.counters, p, Key(Subject, a.subject), a.now, now - limit, now);
      }
    case CountSource(id) =>
      if At(w, id, NameCounted) && w.flights[id].attempt.source.Some? {
        var a := w.flights[id].attempt;
        CountUnseen(w.counters, v.counters, p, Key(Source, a.source.value), a.now, now - limit, now);
      }
    case _ =>
  }

  lemma {:induction false} PurgedIsUnseen(w: World, v: World, p: Settings, limit: int, run: seq<Timed>, now: int, from: int, to: int)
    requires v.flights == w.flights && Forgets(w.counters, v.counters, p, now - limit, now)
    requires now <= from && InOrder(from, run, to) && AllPrompt(w, p, limit, run)
    ensures PlayTimed(v, p, run).flights == PlayTimed(w, p, run).flights
    decreases |run|
  {
    if run != [] {
      MoveUnseen(w, v, p, limit, run[0], now);
      PurgedIsUnseen(Next(w, p, run[0].move), Next(v, p, run[0].move), p, limit, run[1..], now, run[0].at, to);
    }
  }

  /** A run with a purge in it, whose attempts take at most `limit` each. */
  datatype Trial = Trial(from: int, history: seq<Timed>, now: int, later: seq<Timed>, to: int)

  predicate Possible(p: Settings, limit: int, r: Trial) {
    && InOrder(r.from, r.history, r.now) && AllPrompt(START, p, limit, r.history)
    && InOrder(r.now, r.later, r.to) && AllPrompt(PlayTimed(START, p, r.history), p, limit, r.later)
  }

  /** No attempt, under way at the purge or later, ends differently for it. */
  predicate Unseen(p: Settings, r: Trial) {
    var w := PlayTimed(START, p, r.history);
    PlayTimed(Next(w, p, Purge(DefaultCutoff(p, r.now))), p, r.later).flights == PlayTimed(w, p, r.later).flights
  }

  function Patience(p: Settings): int { if p.window < p.lockout then p.window else p.lockout }

  /** A purge at the default cutoff, after any history and with any attempts under way, never
      changes the outcome of one, as long as none takes longer from its check to its count
      than the shorter of window and lockout, and one more. */
  lemma PurgeIsInvisible(p: Settings, limit: int, r: Trial)
    requires limit <= Patience(p) + 1 && Possible(p, limit, r)
    ensures Unseen(p, r)
  {
    var w := PlayTimed(START, p, r.history);
    LocksStayBounded(START, p, limit, r.history, r.from, r.now);
    PurgedIsUnseen(w, Next(w, p, Purge(DefaultCutoff(p, r.now))), p, limit, r.later, r.now, r.now, r.to);
  }

  // --- and when it shows ----------------------------------------------------------------------

  function Guess(now: int): Attempt { Attempt("a", None, false, false, true, now) }

  /** At a later cutoff a counter still inside its window is forgotten. */
  lemma EagerPurgeIsVisible(p: Settings, now: int)
    requires p.window > 1 && p.lockout > 0 && p.subjectThreshold == 2
    ensures var t := Step(map[], p, Guess(now - 1));
            OutcomeOf(Step(Purged(t, now), p, Guess(now)), Guess(now)) != OutcomeOf(Step(t, p, Guess(now)), Guess(now))
  {
    var k := Key(Subject, "a");
    var t := Step(map[], p, Guess(now - 1));
    assert t[k] == Counter(1, now - 1, now - 1, None);
    assert Step(t, p, Guess(now))[k].lockedUntil == Some(now + p.lockout);
    assert Step(Purged(t, now), p, Guess(now))[k].lockedUntil == None;
  }

  // --- playing runs ------------------------------------------------------------------------

  lemma {:induction false} PlayJoins(w: World, p: Settings, limit: int, a: seq<Timed>, b: seq<Timed>)
    ensures PlayTimed(w, p, a + b) == PlayTimed(PlayTimed(w, p, a), p, b)
    ensures AllPrompt(w, p, limit, a + b) <==> AllPrompt(w, p, limit, a) && AllPrompt(PlayTimed(w, p, a), p, limit, b)
    decreases |a|
  {
    if a == [] {
      assert a + b == b;
    } else {
      assert (a + b)[1..] == a[1..] + b;
      PlayJoins(Next(w, p, a[0].move), p, limit, a[1..], b);
    }
  }

  lemma {:induction false} OrderJoins(from: int, a: seq<Timed>, mid: int, b: seq<Timed>, to: int)
    requires InOrder(from, a, mid) && InOrder(mid, b, to)
    ensures InOrder(from, a + b, to)
    decreases |a|
  {
    if a == [] {
      assert a + b == b;
      if b != [] { OrderLater(mid, b, to, from); }
    } else {
      assert (a + b)[1..] == a[1..] + b;
      OrderJoins(a[0].at, a[1..], mid, b, to);
    }
  }

  lemma OrderLater(from: int, b: seq<Timed>, to: int, earlier: int)
    requires InOrder(from, b, to) && earlier <= from
    ensures InOrder(earlier, b, to)
  {
  }

  lemma PlayFirst(w: World, p: Settings, limit: int, e: Timed, rest: seq<Timed>)
    ensures PlayTimed(w, p, [e] + rest) == PlayTimed(Next(w, p, e.move), p, rest)
    ensures AllPrompt(w, p, limit, [e] + rest) <==> Prompt(w, limit, e) && AllPrompt(Next(w, p, e.move), p, limit, rest)
    ensures forall from, to :: InOrder(from, [e] + rest, to) <==> from <= to && from <= e.at && InOrder(e.at, rest, to)
  {
    assert ([e] + rest)[1..] == rest;
  }

  /** Everything happens to one name. */
  const NAME := Key(Subject, "a")

  lemma GuessBegins(w: World, p: Settings, limit: int, id: nat, now: int)
    requires id !in w.flights && !Locked(Get(w.counters, NAME), now)
    ensures Next(w, p, Begin(id, Guess(now))) == w.(flights := w.flights[id := Flight(Guess(now), Checked)])
    ensures Prompt(w, limit, Timed(now, Begin(id, Guess(now))))
  {
  }

  lemma GuessIsCounted(w: World, p: Settings, limit: int, id: nat, stamp: int, at: int)
    requires id in w.flights && w.flights[id] == Flight(Guess(stamp), Checked)
    ensures Next(w, p, CountName(id))
         == World(w.counters[NAME := Counted(Get(w.counters, NAME), p.subjectThreshold, p, stamp)],
                  w.flights[id := Flight(Guess(stamp), NameCounted)])
    ensures at <= stamp + limit ==> Prompt(w, limit, Timed(at, CountName(id)))
  {
  }

  // --- a window no longer than the lockout: a lock is forgotten ------------------------------

  /** A slow attempt and two quick ones are checked, ... */
  function ThreeChecks(p: Settings): seq<Timed> {
    var late := p.window + 2;
    [Timed(0, Begin(0, Guess(0)))] + ([Timed(late, Begin(1, Guess(late)))] + ([Timed(late, Begin(2, Guess(late)))] + []))
  }

  /** ... the quick ones set the lock, and the slow one, counted last, dates it back. */
  function ThreeCounts(p: Settings): seq<Timed> {
    var late := p.window + 2;
    [Timed(late, CountName(1))] + ([Timed(late, CountName(2))] + ([Timed(late, CountName(0))] + []))
  }

  function ThreeUnderWay(p: Settings): map<nat, Flight> {
    var late := p.window + 2;
    map[0 := Flight(Guess(0), Checked), 1 := Flight(Guess(late), Checked), 2 := Flight(Guess(late), Checked)]
  }

  lemma ThreeAreChecked(p: Settings, limit: int)
    requires p.window >= 1
    ensures PlayTimed(START, p, ThreeChecks(p)) == World(map[], ThreeUnderWay(p))
    ensures AllPrompt(START, p, limit, ThreeChecks(p)) && InOrder(0, ThreeChecks(p), p.window + 2)
  {
    var late := p.window + 2;
    var e0, e1, e2 := Timed(0, Begin(0, Guess(0))), Timed(late, Begin(1, Guess(late))), Timed(late, Begin(2, Guess(late)));
    GuessBegins(START, p, limit, 0, 0);
    var w1 := Next(START, p, e0.move);
    GuessBegins(w1, p, limit, 1, late);
    var w2 := Next(w1, p, e1.move);
    GuessBegins(w2, p, limit, 2, late);
    PlayFirst(w2, p, limit, e2, []);
    PlayFirst(w1, p, limit, e1, [e2] + []);
    PlayFirst(START, p, limit, e0, [e1] + ([e2] + []));
  }

  lemma ThreeAreCounted(w: World, p: Settings, limit: int)
    requires w == World(map[], ThreeUnderWay(p)) && p.subjectThreshold == 2 && 1 <= p.window <= p.lockout && limit >= p.window + 2
    ensures var end := PlayTimed(w, p, ThreeCounts(p));
            end.counters == map[NAME := Counter(3, p.window + 2, 0, Some(p.window + 2 + p.lockout))] && 3 !in end.flights
    ensures AllPrompt(w, p, limit, ThreeCounts(p)) && InOrder(p.window + 2, ThreeCounts(p), p.window + p.lockout + 1)
  {
    var late := p.window + 2;
    var e1, e2, e0 := Timed(late, CountName(1)), Timed(late, CountName(2)), Timed(late, CountName(0));
    GuessIsCounted(w, p, limit, 1, late, late);
    var w1 := Next(w, p, e1.move);
    GuessIsCounted(w1, p, limit, 2, late, late);
    var w2 := Next(w1, p, e2.move);
    GuessIsCounted(w2, p, limit, 0, 0, late);
    PlayFirst(w2, p, limit, e0, []);
    PlayFirst(w1, p, limit, e2, [e0] + []);
    PlayFirst(w, p, limit, e1, [e2] + ([e0] + []));
  }

  /** A check tells a counter that locks from one that does not. */
  lemma CheckTells(w: World, v: World, p: Settings, limit: int, id: nat, now: int)
    requires id !in w.flights && id !in v.flights && Locked(Get(w.counters, NAME), now) && !Locked(Get(v.counters, NAME), now)
    ensures var check := [Timed(now, Begin(id, Guess(now)))];
            && AllPrompt(w, p, limit, check) && InOrder(now, check, now)
            && PlayTimed(v, p, check).flights != PlayTimed(w, p, check).flights
  {
    var e := Timed(now, Begin(id, Guess(now)));
    assert [e] == [e] + [];
    PlayFirst(w, p, limit, e, []);
    PlayFirst(v, p, limit, e, []);
    assert Next(w, p, e.move).flights[id].phase == Ended(LockedOut(Subject));
    assert Next(v, p, e.move).flights[id].phase == Checked;
  }

  /** An attempt two longer than the window lets the default purge drop a lock in force. */
  lemma LockIsForgotten(p: Settings, limit: int) returns (r: Trial)
    requires p.subjectThreshold == 2 && 1 <= p.window <= p.lockout && limit >= p.window + 2
    ensures Possible(p, limit, r) && !Unseen(p, r)
  {
    var now := p.window + p.lockout + 1;
    r := Trial(0, ThreeChecks(p) + ThreeCounts(p), now, [Timed(now, Begin(3, Guess(now)))], now);
    ThreeAreChecked(p, limit);
    ThreeAreCounted(PlayTimed(START, p, ThreeChecks(p)), p, limit);
    PlayJoins(START, p, limit, ThreeChecks(p), ThreeCounts(p));
    OrderJoins(0, ThreeChecks(p), p.window + 2, ThreeCounts(p), now);
    var w := PlayTimed(START, p, r.history);
    CheckTells(w, Next(w, p, Purge(DefaultCutoff(p, now))), p, limit, 3, now);
  }

  // --- a lockout shorter than the window: a failure is forgotten -----------------------------

  /** The stamp of the `j`th attempt of the chain: the first falls just inside the window of a
      failure at 0, each of the others one later. */
  function StampOf(p: Settings, j: nat): int { p.window - 2 + j }

  function Checks(p: Settings, n: nat, j: nat): seq<Timed> {
    if n == 0 then [] else [Timed(StampOf(p, j), Begin(j, Guess(StampOf(p, j))))] + Checks(p, n - 1, j + 1)
  }

  function CountsAt(now: int, n: nat, j: nat): seq<Timed> {
    if n == 0 then [] else [Timed(now, CountName(j))] + CountsAt(now, n - 1, j + 1)
  }

  /** Attempts `j` to `j + n - 1` are past their check and not yet counted. */
  predicate Waiting(w: World, p: Settings, n: nat, j: nat) {
    forall i | j <= i < j + n :: i in w.flights && w.flights[i] == Flight(Guess(StampOf(p, i)), Checked)
  }

  lemma {:induction false} ChainIsChecked(w: World, p: Settings, limit: int, n: nat, j: nat)
    requires n >= 1 && (forall i | i in w.flights :: i < j) && (NAME in w.counters ==> w.counters[NAME].lockedUntil.None?)
    ensures var end := PlayTimed(w, p, Checks(p, n, j));
            && end.counters == w.counters && Waiting(end, p, n, j)
            && (forall i | i in end.flights :: i < j + n) && (forall i | i in w.flights :: i in end.flights && end.flights[i] == w.flights[i])
    ensures AllPrompt(w, p, limit, Checks(p, n, j)) && InOrder(StampOf(p, j), Checks(p, n, j), StampOf(p, j + n - 1))
    decreases n
  {
    var e := Timed(StampOf(p, j), Begin(j, Guess(StampOf(p, j))));
    var w' := Next(w, p, e.move);
    GuessBegins(w, p, limit, j, StampOf(p, j));
    PlayFirst(w, p, limit, e, Checks(p, n - 1, j + 1));
    if n > 1 {
      ChainIsChecked(w', p, limit, n - 1, j + 1);
      OrderLater(StampOf(p, j + 1), Checks(p, n - 1, j + 1), StampOf(p, j + n - 1), StampOf(p, j));
    } else {
      assert Checks(p, n - 1, j + 1) == [];
    }
  }

  /** The counter after attempts `j` to `j + n - 1` of the chain are counted on it. */
  function Chained(c: Option<Counter>, p: Settings, n: nat, j: nat): Option<Counter>
    decreases n
  {
    if n == 0 then c else Chained(Some(Counted(c, p.subjectThreshold, p, StampOf(p, j))), p, n - 1, j + 1)
  }

  /** Counting the chain is that, and no attempt takes longer than the first of them. */
  lemma {:induction false} ChainIsCounted(w: World, p: Settings, limit: int, n: nat, j: nat, now: int)
    requires Waiting(w, p, n, j) && now <= StampOf(p, j) + limit
    ensures var end := PlayTimed(w, p, CountsAt(now, n, j));
            Get(end.counters, NAME) == Chained(Get(w.counters, NAME), p, n, j) && end.flights.Keys == w.flights.Keys
    ensures AllPrompt(w, p, limit, CountsAt(now, n, j)) && InOrder(now, CountsAt(now, n, j), now)
    decreases n
  {
    if n > 0 {
      var e := Timed(now, CountName(j));
      GuessIsCounted(w, p, limit, j, StampOf(p, j), now);
      ChainIsCounted(Next(w, p, e.move), p, limit, n - 1, j + 1, now);
      PlayFirst(w, p, limit, e, CountsAt(now, n - 1, j + 1));
    }
  }

  /** One later than the last failure, each still counts in its window; the counter locks at
      the end if that makes enough failures. */
  lemma {:induction false} ChainAddsUp(c: Counter, p: Settings, n: nat, j: nat)
    requires n >= 1 && j >= 1 && p.window > 1 && c.last == StampOf(p, j - 1) && c.lockedUntil.None?
    requires c.failures + n <= p.subjectThreshold
    ensures var d := Chained(Some(c), p, n, j);
            d.Some? && d.value.lockedUntil
                       == if c.failures + n == p.subjectThreshold then Some(StampOf(p, j + n - 1) + p.lockout) else None
    decreases n
  {
    var d := Counted(Some(c), p.subjectThreshold, p, StampOf(p, j));
    if n > 1 { ChainAddsUp(d, p, n - 1, j + 1); } else { assert Chained(Some(d), p, 0, j + 1) == Some(d); }
  }

  /** The chain from its first attempt: onto a failure at 0, or onto nothing. */
  lemma ChainFromTheFirst(w: World, p: Settings, limit: int, n: nat, now: int)
    requires n >= 2 && p.window > 1 && Waiting(w, p, n, 1) && now <= StampOf(p, 1) + limit && p.subjectThreshold == n + 1
    requires w.counters in {map[], map[NAME := Counter(1, 0, 0, None)]}
    ensures var end := PlayTimed(w, p, CountsAt(now, n, 1));
            && NAME in end.counters && end.flights.Keys == w.flights.Keys
            && end.counters[NAME].lockedUntil == if w.counters == map[] then None else Some(StampOf(p, n) + p.lockout)
    ensures AllPrompt(w, p, limit, CountsAt(now, n, 1)) && InOrder(now, CountsAt(now, n, 1), now)
  {
    ChainIsCounted(w, p, limit, n, 1, now);
    ChainAddsUp(Counted(Get(w.counters, NAME), p.subjectThreshold, p, StampOf(p, 1)), p, n - 1, 2);
  }

  /** One failure at 0, and a chain of attempts up to the moment of the purge. */
  function FailureThenChain(p: Settings, n: nat): seq<Timed> {
    ([Timed(0, Begin(0, Guess(0)))] + ([Timed(0, CountName(0))] + [])) + Checks(p, n, 1)
  }

  lemma FailureThenChainPlays(p: Settings, limit: int, n: nat)
    requires n >= 1 && p.subjectThreshold >= 2 && p.window > 1 && limit >= 0
    ensures var end := PlayTimed(START, p, FailureThenChain(p, n));
            && end.counters == map[NAME := Counter(1, 0, 0, None)] && Waiting(end, p, n, 1) && n + 1 !in end.flights
    ensures AllPrompt(START, p, limit, FailureThenChain(p, n)) && InOrder(0, FailureThenChain(p, n), StampOf(p, n))
  {
    var e0, e1 := Timed(0, Begin(0, Guess(0))), Timed(0, CountName(0));
    var opening := [e0] + ([e1] + []);
    GuessBegins(START, p, limit, 0, 0);
    var w1 := Next(START, p, e0.move);
    GuessIsCounted(w1, p, limit, 0, 0, 0);
    var w2 := Next(w1, p, e1.move);
    PlayFirst(w1, p, limit, e1, []);
    PlayFirst(START, p, limit, e0, [e1] + []);
    assert w2.counters == map[NAME := Counter(1, 0, 0, None)] && w2.flights.Keys == {0};
    ChainIsChecked(w2, p, limit, n, 1);
    PlayJoins(START, p, limit, opening, Checks(p, n, 1));
    OrderJoins(0, opening, StampOf(p, 1), Checks(p, n, 1), StampOf(p, n));
  }

  /** An attempt two longer than the lockout lets the default purge drop a failure that still
      counts: the chain carries it past the purge, to the threshold. */
  lemma FailureIsForgotten(p: Settings, limit: int) returns (r: Trial)
    requires 1 <= p.lockout < p.window && p.subjectThreshold == p.lockout + 4 && limit >= p.lockout + 2
    ensures Possible(p, limit, r) && !Unseen(p, r)
  {
    var n: nat := p.lockout + 3;
    var now := StampOf(p, n);
    var counts := CountsAt(now, n, 1);
    var last := [Timed(now, Begin(n + 1, Guess(now)))];
    r := Trial(0, FailureThenChain(p, n), now, counts + last, now);
    FailureThenChainPlays(p, limit, n);
    var w := PlayTimed(START, p, r.history);
    var v := Next(w, p, Purge(DefaultCutoff(p, now)));
    assert v == World(map[], w.flights);
    ChainFromTheFirst(w, p, limit, n, now);
    ChainFromTheFirst(v, p, limit, n, now);
    CheckTells(PlayTimed(w, p, counts), PlayTimed(v, p, counts), p, limit, n + 1, now);
    PlayJoins(w, p, limit, counts, last);
    PlayJoins(v, p, limit, counts, last);
    OrderJoins(now, counts, now, last, now);
  }

  // --- exactly when it shows -------------------------------------------------------------------

  /** At every threshold, no run whose attempts take at most `limit` shows the default purge. */
  ghost predicate NeverShows(window: int, lockout: int, limit: int) {
    forall p: Settings, r: Trial | p.window == window && p.lockout == lockout && Possible(p, limit, r) :: Unseen(p, r)
  }

  /** The default purge is invisible exactly when every attempt is counted at most one later
      than the shorter of window and lockout after its check. */
  lemma PurgeIsInvisibleIff(window: int, lockout: int, limit: int)
    requires window >= 1 && lockout >= 1
    ensures NeverShows(window, lockout, limit) <==> limit <= (if window < lockout then window else lockout) + 1
  {
    if limit <= (if window < lockout then window else lockout) + 1 {
      forall p: Settings, r: Trial | p.window == window && p.lockout == lockout && Possible(p, limit, r) ensures Unseen(p, r) {
        PurgeIsInvisible(p, limit, r);
      }
    } else if window <= lockout {
      var p := Settings(2, 2, window, lockout);
      var r := LockIsForgotten(p, limit);
      assert Possible(p, limit, r) && !Unseen(p, r);
    } else {
      var p := Settings(lockout + 4, lockout + 4, window, lockout);
      var r := FailureIsForgotten(p, limit);
      assert Possible(p, limit, r) && !Unseen(p, r);
    }
  }
}
