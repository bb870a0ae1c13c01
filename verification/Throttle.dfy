/** The sign-in throttle: failures counted against a name and a source inside a sliding
    window, a lock once a threshold is met, and the purge of counters that are over. */
module Throttle {
  import opened Wrappers

  datatype Scope = Subject | Source

  datatype Key = Key(scope: Scope, value: string)

  datatype Counter = Counter(failures: nat, first: int, last: int, lockedUntil: Option<int>)

  datatype Settings = Settings(subjectThreshold: int, sourceThreshold: int, window: int, lockout: int) {
    function Threshold(s: Scope): int { if s.Subject? then subjectThreshold else sourceThreshold }
  }

  type Counters = map<Key, Counter>

  predicate Locked(c: Option<Counter>, now: int) {
    c.Some? && c.value.lockedUntil.Some? && c.value.lockedUntil.value > now
  }

  /** One more failure on a counter. */
  function Counted(c: Option<Counter>, threshold: int, p: Settings, now: int): Counter {
    if c.None? || c.value.last + p.window <= now then Counter(1, now, now, None)
    else
      var failures := c.value.failures + 1;
      var held := c.value.lockedUntil;
      Counter(failures, c.value.first, now,
              if failures >= threshold && (held.None? || held.value <= now) then Some(now + p.lockout) else held)
  }

  function Get(t: Counters, k: Key): Option<Counter> { if k in t then Some(t[k]) else None }

  // --- one counter ----------------------------------------------------------------

  /** Failures at these times are all counted: none of them meets a lock. */
  predicate AllCounted(c: Option<Counter>, threshold: int, p: Settings, times: seq<int>)
    decreases |times|
  {
    times == [] ||
    (!Locked(c, times[0]) && AllCounted(Some(Counted(c, threshold, p, times[0])), threshold, p, times[1..]))
  }

  function After(c: Option<Counter>, threshold: int, p: Settings, times: seq<int>): Option<Counter>
    decreases |times|
  {
    if times == [] then c else After(Some(Counted(c, threshold, p, times[0])), threshold, p, times[1..])
  }

  /** Two neighbours a whole window or a whole lockout apart. */
  ghost predicate HasGap(p: Settings, times: seq<int>) {
    exists j :: 0 <= j < |times| - 1 && (times[j + 1] - times[j] >= p.window || times[j + 1] - times[j] >= p.lockout)
  }

  lemma GapLater(p: Settings, times: seq<int>)
    requires |times| > 0 && HasGap(p, times[1..])
    ensures HasGap(p, times)
  {
    var rest := times[1..];
    var j :| 0 <= j < |rest| - 1 && (rest[j + 1] - rest[j] >= p.window || rest[j + 1] - rest[j] >= p.lockout);
    assert times[j + 1] == rest[j] && times[j + 2] == rest[j + 1];
  }

  /** The failure that can lock: never the first of a window, whatever the setting. */
  function Effective(threshold: int): nat { if threshold < 2 then 2 else threshold }

  /** A counter that already stands at `c.failures`, and the failures that follow it. */
  lemma {:induction false} GapAfterCounter(c: Counter, threshold: int, p: Settings, times: seq<int>)
    requires AllCounted(Some(c), threshold, p, times)
    requires |times| + c.failures > Effective(threshold) && |times| >= 1
    requires c.failures >= Effective(threshold) ==> c.lockedUntil.Some? && c.lockedUntil.value >= c.last + p.lockout
    ensures HasGap(p, [c.last] + times)
    decreases |times|
  {
    var all := [c.last] + times;
    var now := times[0];
    assert all[0] == c.last && all[1] == now;
    if now - c.last < p.window && now - c.last < p.lockout {
      var d := Counted(Some(c), threshold, p, now);
      assert d.failures == c.failures + 1 && d.last == now;
      GapAfterCounter(d, threshold, p, times[1..]);
      assert all[1..] == [d.last] + times[1..];
      GapLater(p, all);
    }
  }

  /** When no failure meets a lock, any run of one more failure than the threshold (two, when
      it is set to one) contains a pause as long as the window or the lockout, whatever the
      counter held before. */
  lemma GuessingIsThrottled(c: Option<Counter>, threshold: int, p: Settings, times: seq<int>)
    requires |times| == Effective(threshold) + 1
    requires AllCounted(c, threshold, p, times)
    ensures HasGap(p, times)
  {
    var d := Counted(c, threshold, p, times[0]);
    assert times == [d.last] + times[1..];
    GapAfterCounter(d, threshold, p, times[1..]);
  }

  /** So it does wherever the run of failures stands in a longer one. */
  lemma BurstInside(c: Option<Counter>, threshold: int, p: Settings, times: seq<int>, i: nat)
    requires i + Effective(threshold) + 1 <= |times| && AllCounted(c, threshold, p, times)
    ensures HasGap(p, times[i..i + Effective(threshold) + 1])
  {
    var before, burst, rest := times[..i], times[i..i + Effective(threshold) + 1], times[i + Effective(threshold) + 1..];
    assert times == before + (burst + rest);
    CountedParts(c, threshold, p, before, burst + rest);
    var d := After(c, threshold, p, before);
    CountedParts(d, threshold, p, burst, rest);
    GuessingIsThrottled(d, threshold, p, burst);
  }

  /** A threshold of one is not met by the first failure of a window: two failures can
      follow each other without a pause. The configured minimum is one. */
  lemma ThresholdOneCountsTwice(p: Settings)
    requires p.window > 1 && p.lockout > 1
    ensures AllCounted(None, 1, p, [0, 1]) && !HasGap(p, [0, 1])
  {
    var c := Counted(None, 1, p, 0);
    assert [0, 1][1..] == [1] && [1][1..] == [];
    assert AllCounted(Some(c), 1, p, [1]);
  }

  /** Parts of a counted run are counted runs. */
  lemma {:induction false} CountedParts(c: Option<Counter>, threshold: int, p: Settings, a: seq<int>, b: seq<int>)
    ensures AllCounted(c, threshold, p, a + b) <==>
            AllCounted(c, threshold, p, a) && AllCounted(After(c, threshold, p, a), threshold, p, b)
    ensures After(c, threshold, p, a + b) == After(After(c, threshold, p, a), threshold, p, b)
    decreases |a|
  {
    if a == [] {
      assert a + b == b;
    } else {
      assert (a + b)[1..] == a[1..] + b;
      CountedParts(Some(Counted(c, threshold, p, a[0])), threshold, p, a[1..], b);
    }
  }

  /** Within a window, a counter counts every failure; it locks at the effective threshold, for
      one lockout from that failure, and not before. */
  lemma {:induction false} LocksAtTheThreshold(c: Counter, threshold: int, p: Settings, times: seq<int>)
    requires c.lockedUntil.None? && 1 <= c.failures && |times| + c.failures <= Effective(threshold)
    requires times != [] ==> times[0] - c.last < p.window
    requires forall k | 1 <= k < |times| :: times[k] - times[k - 1] < p.window
    ensures var d := After(Some(c), threshold, p, times);
            && d.Some? && d.value.failures == c.failures + |times| && d.value.first == c.first
            && d.value.last == (if times == [] then c.last else times[|times| - 1])
            && d.value.lockedUntil == if times != [] && d.value.failures == Effective(threshold)
                                      then Some(d.value.last + p.lockout) else None
    decreases |times|
  {
    if times != [] {
      var d := Counted(Some(c), threshold, p, times[0]);
      if |times| == 1 {
        assert times[1..] == [] && After(Some(d), threshold, p, []) == Some(d);
        assert d.last == times[0] && d.failures == c.failures + 1;
      } else {
        LocksAtTheThreshold(d, threshold, p, times[1..]);
      }
    }
  }

  /** After a window without a failure the count starts again, whatever stood before, lock and
      all. */
  lemma WindowStartsAgain(c: Option<Counter>, threshold: int, p: Settings, now: int)
    requires c.Some? ==> now - c.value.last >= p.window
    ensures Counted(c, threshold, p, now) == Counter(1, now, now, None)
  {
  }

  // --- signing in ---------------------------------------------------------------------

  /** One attempt: who is named, from where, and whether the password is oversized, right,
      and the account usable. */
  datatype Attempt = Attempt(subject: string, source: Option<string>, oversized: bool, verified: bool, usable: bool, now: int)

  datatype Outcome = LockedOut(scope: Scope) | Oversized | SignedIn | BadCredential

  /** The counters a failure is counted on; an empty name or source has none. */
  predicate CountsOn(a: Attempt, k: Key) {
    k.value != "" && (k == Key(Subject, a.subject) || (a.source.Some? && k == Key(Source, a.source.value)))
  }

  function LockOf(t: Counters, a: Attempt): Option<Scope> {
    if Locked(Get(t, Key(Subject, a.subject)), a.now) then Some(Subject)
    else if a.source.Some? && a.source.value != "" && Locked(Get(t, Key(Source, a.source.value)), a.now) then Some(Source)
    else None
  }

  function OutcomeOf(t: Counters, a: Attempt): Outcome {
    var lock := LockOf(t, a);
    if lock.Some? then LockedOut(lock.value)
    else if a.oversized then Oversized
    else if a.verified && a.usable then SignedIn
    else BadCredential
  }

  function CountOne(t: Counters, k: Key, p: Settings, now: int): Counters {
    if k.value == "" then t else t[k := Counted(Get(t, k), p.Threshold(k.scope), p, now)]
  }

  function Failed(t: Counters, p: Settings, a: Attempt): Counters {
    var named := CountOne(t, Key(Subject, a.subject), p, a.now);
    if a.source.Some? then CountOne(named, Key(Source, a.source.value), p, a.now) else named
  }

  function Step(t: Counters, p: Settings, a: Attempt): Counters {
    match OutcomeOf(t, a)
    case SignedIn => t - {Key(Subject, a.subject)}
    case BadCredential => Failed(t, p, a)
    case _ => t
  }

  /** What an attempt does to each counter: a sign-in forgets the name's and no other; a wrong
      password is counted on the name's and on the source's; and one that was refused before
      its password was looked at leaves every counter alone. */
  lemma AttemptCounts(t: Counters, p: Settings, a: Attempt, k: Key)
    ensures var outcome, after := OutcomeOf(t, a), Get(Step(t, p, a), k);
            var name, source := Key(Subject, a.subject), if a.source.Some? then Key(Source, a.source.value) else Key(Source, "");
            && (outcome == SignedIn ==> after == if k == name then None else Get(t, k))
            && (outcome == BadCredential ==>
                  after == if k.value != "" && (k == name || k == source)
                           then Some(Counted(Get(t, k), if k.scope == Subject then p.subjectThreshold else p.sourceThreshold, p, a.now))
                           else Get(t, k))
            && (outcome != SignedIn && outcome != BadCredential ==> after == Get(t, k))
  {
  }

  /** What an attempt comes to: locks first, the name's before the source's, then the length of
      the password, and only then whether it is right and the account usable. */
  lemma OutcomeReads(t: Counters, a: Attempt)
    ensures var name, source := Key(Subject, a.subject), if a.source.Some? then Key(Source, a.source.value) else Key(Source, "");
            var nameLocked := name in t && t[name].lockedUntil.Some? && t[name].lockedUntil.value > a.now;
            var sourceLocked := && source.value != "" && source in t && t[source].lockedUntil.Some?
                                && t[source].lockedUntil.value > a.now;
            OutcomeOf(t, a) == if nameLocked then LockedOut(Subject)
                               else if sourceLocked then LockedOut(Source)
                               else if a.oversized then Oversized
                               else if a.verified && a.usable then SignedIn
                               else BadCredential
  {
  }

  // --- purging --------------------------------------------------------------------------

  /** Drop counters whose last failure is before the cutoff. */
  function Purged(t: Counters, cutoff: int): Counters {
    map k | k in t && t[k].last >= cutoff :: t[k]
  }

  function DefaultCutoff(p: Settings, now: int): int { now - p.window - p.lockout }
}
