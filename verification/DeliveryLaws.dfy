/** When a webhook delivery is handed out, and when it is not: waits, leases, parking and what
    a redelivery gives back, over every run that leaves the row alone. */
module DeliveryLaws {
  import opened Wrappers
  import opened Deliveries
  import opened DeliveryRuns

  /** The run leaves row `k` as it is. */
  predicate Undisturbed(o: Outbox, es: seq<Event>, k: nat)
    requires k < |o.rows|
    decreases |es|
  {
    es == [] || var o' := Step(o, es[0]); k < |o'.rows| && o'.rows[k] == o.rows[k] && Undisturbed(o', es[1..], k)
  }

  lemma {:induction false} StandsThrough(o: Outbox, es: seq<Event>, k: nat)
    requires k < |o.rows| && Undisturbed(o, es, k)
    ensures k < |Run(o, es).rows| && Run(o, es).rows[k] == o.rows[k]
    decreases |es|
  {
    if es != [] { StandsThrough(Step(o, es[0]), es[1..], k); }
  }

  /** Nothing but its own wait keeps row `k` back: its subscription is enabled and not parked,
      and no earlier row of that subscription is queued or in flight. */
  predicate Unblocked(o: Outbox, k: nat)
    requires k < |o.rows|
  {
    var b := o.rows[k].subscription;
    && b < |o.subscriptions| && o.subscriptions[b].enabled && o.subscriptions[b].parkedAt.None?
    && forall j | 0 <= j < k && o.rows[j].subscription == b :: o.rows[j].state !in {Pending, Delivering}
  }

  /** A claim takes row `k`, or one with a lower number. */
  predicate TakesItOrEarlier(o: Outbox, now: int, k: nat) {
    var taken := TakenBy(o, Claim(now));
    taken.Some? && taken.value <= k
  }

  /** Row `k` is never handed out before `due`. From then on, unless something blocks it, a
      claim passes it over only for an earlier row. */
  ghost predicate HandedOutFrom(o: Outbox, k: nat, due: int)
    requires k < |o.rows|
  {
    forall now :: && (TakenBy(o, Claim(now)) == Some(k) ==> now >= due && Unblocked(o, k))
                  && (now >= due && Unblocked(o, k) ==> TakesItOrEarlier(o, now, k))
  }

  /** Row `k` is not handed out at all. */
  ghost predicate NeverHandedOut(o: Outbox, k: nat) { forall now :: TakenBy(o, Claim(now)) != Some(k) }

  /** What a row's columns say of the moment. */
  lemma DueFrom(o: Outbox, k: nat, due: int)
    requires k < |o.rows|
    requires || (o.rows[k].state == Pending && o.rows[k].nextAttemptAt == Some(due))
             || (o.rows[k].state == Delivering && o.rows[k].claimedAt == Some(due - CLAIM_LEASE - 1))
    ensures HandedOutFrom(o, k, due)
  {
    forall now
      ensures TakenBy(o, Claim(now)) == Some(k) ==> now >= due && Unblocked(o, k)
      ensures now >= due && Unblocked(o, k) ==> TakesItOrEarlier(o, now, k)
    {
      assert Claimable(o, k, now) <==> now >= due && Unblocked(o, k);
    }
  }

  /** The same after any run that leaves the row alone. */
  lemma DueAfter(o: Outbox, es: seq<Event>, k: nat, due: int)
    requires k < |o.rows| && Undisturbed(o, es, k)
    requires || (o.rows[k].state == Pending && o.rows[k].nextAttemptAt == Some(due))
             || (o.rows[k].state == Delivering && o.rows[k].claimedAt == Some(due - CLAIM_LEASE - 1))
    ensures k < |Run(o, es).rows| && HandedOutFrom(Run(o, es), k, due)
  {
    StandsThrough(o, es, k);
    DueFrom(Run(o, es), k, due);
  }

  // --- a claim and its outcome -----------------------------------------------------------

  /** A claimed row carries the moment and one attempt more, and is out of every dispatcher's
      reach until its claim is settled or five minutes have passed: a dispatcher that died is
      replaced then, and not before. */
  lemma LostClaimIsTakenOver(o: Outbox, at: int, k: nat, es: seq<Event>)
    requires TakenBy(o, Claim(at)) == Some(k)
    ensures var o' := Step(o, Claim(at));
            && o'.rows[k] == o.rows[k].(state := Delivering, claimedAt := Some(at), attempts := o.rows[k].attempts + 1)
            && (Undisturbed(o', es, k) ==>
                  k < |Run(o', es).rows| && HandedOutFrom(Run(o', es), k, at + 5 * 60 + 1))
  {
    var o' := Step(o, Claim(at));
    if Undisturbed(o', es, k) { DueAfter(o', es, k, at + CLAIM_LEASE + 1); }
  }

  /** The row's claim is not settled within the run: it stays in flight and is not queued
      again by anybody. */
  predicate ClaimStands(o: Outbox, es: seq<Event>, k: nat)
    requires k < |o.rows|
    decreases |es|
  {
    es == [] || var o' := Step(o, es[0]);
                && k < |o'.rows| && o'.rows[k].state == Delivering && o'.rows[k].claimedAt == o.rows[k].claimedAt
                && ClaimStands(o', es[1..], k)
  }

  lemma {:induction false} ClaimStandsThrough(o: Outbox, es: seq<Event>, k: nat)
    requires k < |o.rows| && o.rows[k].state == Delivering && ClaimStands(o, es, k)
    ensures var rows := Run(o, es).rows;
            k < |rows| && rows[k].state == Delivering && rows[k].claimedAt == o.rows[k].claimedAt
    decreases |es|
  {
    if es != [] { ClaimStandsThrough(Step(o, es[0]), es[1..], k); }
  }

  /** Two claims of one row with no outcome between them are more than five minutes apart. */
  lemma ClaimsALeaseApart(o: Outbox, at: int, es: seq<Event>, now: int, k: nat)
    requires TakenBy(o, Claim(at)) == Some(k)
    requires ClaimStands(Step(o, Claim(at)), es, k)
    requires TakenBy(Run(Step(o, Claim(at)), es), Claim(now)) == Some(k)
    ensures now - at > 5 * 60
  {
    ClaimStandsThrough(Step(o, Claim(at)), es, k);
  }

  /** Only the outcomes of its own claim, a take-over and nothing else end a claim: no other
      step touches a row in flight. */
  lemma OnlyOutcomesSettle(o: Outbox, e: Event, k: nat)
    requires k < |o.rows| && o.rows[k].state == Delivering
    requires TakenBy(o, e) != Some(k) && !(Settles(e) && e.claim.row == k)
    ensures k < |Step(o, e).rows| && Step(o, e).rows[k] == o.rows[k]
  {
  }

  /** A failed try below the ceiling is repeated after ten seconds, one minute, five, and then
      half an hour, not a second earlier. */
  lemma RetryWaits(o: Outbox, c: Claimed, now: int, es: seq<Event>)
    requires Enabled(o, Retry(c, now)) && 1 <= c.attempts
    requires Undisturbed(Step(o, Retry(c, now)), es, c.row)
    ensures var wait := if c.attempts == 1 then 10 else if c.attempts == 2 then 60 else if c.attempts == 3 then 300 else 1800;
            var o' := Run(Step(o, Retry(c, now)), es);
            && c.row < |o'.rows| && o'.rows[c.row].attempts == c.attempts && HandedOutFrom(o', c.row, now + wait)
  {
    var o' := Step(o, Retry(c, now));
    DueAfter(o', es, c.row, now + Backoff(c.attempts));
    StandsThrough(o', es, c.row);
  }

  /** Delivered, or given up at the fifth try: a settled row leaves its subscription as it was
      and is not handed out again. */
  lemma SettledIsOver(o: Outbox, e: Event, es: seq<Event>)
    requires Enabled(o, e) && (e.Deliver? || e.GiveUp?)
    requires Undisturbed(Step(o, e), es, e.claim.row)
    ensures var k, o' := e.claim.row, Run(Step(o, e), es);
            && k < |o'.rows| && o'.rows[k] == o.rows[k].(state := if e.Deliver? then Delivered else Failed, claimedAt := None)
            && Step(o, e).subscriptions == o.subscriptions
            && NeverHandedOut(o', k)
    ensures e.GiveUp? ==> e.claim.attempts >= 5
  {
    StandsThrough(Step(o, e), es, e.claim.row);
  }

  // --- owing and parking --------------------------------------------------------------------

  /** An event is owed to a subscription that is enabled, not parked, asked for its type, and
      watches its connection or all of them. Its row is due at once. */
  lemma FanOutOwes(o: Outbox, e: Fact, now: int, k: nat)
    requires |o.rows| <= k < |Step(o, FanOut(e, now)).rows|
    ensures var o' := Step(o, FanOut(e, now));
            var d := o'.rows[k];
            && d.subscription < |o.subscriptions| && d.eventId == e.eventId && d.attempts == 0
            && var s := o.subscriptions[d.subscription];
               && s.enabled && s.parkedAt.None? && e.eventType in s.eventTypes
               && (s.connectionId.None? || s.connectionId == e.connectionId)
               && HandedOutFrom(o', k, now)
  {
    var o' := Step(o, FanOut(e, now));
    FannedOutRows(o.subscriptions, e, now, |o.subscriptions|);
    assert o'.rows[k] == FannedOut(o.subscriptions, e, now, |o.subscriptions|)[k - |o.rows|];
    DueFrom(o', k, now);
  }

  /** And nobody who asked is left out: the run of one event either writes a row for every
      subscription it is owed to, or writes nothing because one has its row already. */
  lemma FanOutReaches(o: Outbox, e: Fact, now: int, b: nat)
    requires b < |o.subscriptions|
    requires var s := o.subscriptions[b];
             && s.enabled && s.parkedAt.None? && e.eventType in s.eventTypes
             && (s.connectionId.None? || s.connectionId == e.connectionId)
    ensures var rows := Step(o, FanOut(e, now)).rows;
            || (exists k :: 0 <= k < |rows| && rows[k].subscription == b && rows[k].eventId == e.eventId)
            || (rows == o.rows && exists a :: 0 <= a < |o.subscriptions| && a != b && HasRow(o.rows, a, e.eventId))
  {
    var rows := Step(o, FanOut(e, now)).rows;
    var owed := FannedOut(o.subscriptions, e, now, |o.subscriptions|);
    if Recordable(o, e) {
      OwedInFanOut(o.subscriptions, e, now, |o.subscriptions|, b);
      var k :| 0 <= k < |owed| && owed[k] == NewRow(b, e, now);
      assert rows[|o.rows| + k] == owed[k];
    } else {
      var a :| 0 <= a < |o.subscriptions| && OwesTo(o.subscriptions[a], e) && HasRow(o.rows, a, e.eventId);
    }
  }

  lemma {:induction false} OwedInFanOut(subscriptions: seq<Subscription>, e: Fact, now: int, n: nat, b: nat)
    requires b < n <= |subscriptions| && OwesTo(subscriptions[b], e)
    ensures exists k :: 0 <= k < |FannedOut(subscriptions, e, now, n)| && FannedOut(subscriptions, e, now, n)[k] == NewRow(b, e, now)
  {
    var front := FannedOut(subscriptions, e, now, n - 1);
    if b == n - 1 {
      assert FannedOut(subscriptions, e, now, n)[|front|] == NewRow(b, e, now);
    } else {
      OwedInFanOut(subscriptions, e, now, n - 1, b);
      var k :| 0 <= k < |front| && front[k] == NewRow(b, e, now);
      assert FannedOut(subscriptions, e, now, n)[k] == front[k];
    }
  }

  /** The third give-up in a row parks the subscription: its queued rows are set aside, the
      others and everybody else's stay. Below it only the count moves. */
  lemma ThirdGiveUpParks(o: Outbox, b: nat, now: int)
    requires b < |o.subscriptions| && o.subscriptions[b].parkedAt.None?
    ensures var s, o' := o.subscriptions[b], Step(o, CountFailure(b, now));
            && |o'.subscriptions| == |o.subscriptions| && |o'.rows| == |o.rows|
            && (forall a | 0 <= a < |o.subscriptions| && a != b :: o'.subscriptions[a] == o.subscriptions[a])
            && o'.subscriptions[b] == s.(failures := s.failures + 1, parkedAt := if s.failures < 2 then None else Some(now))
            && forall k | 0 <= k < |o.rows| ::
                 && (o.rows[k].subscription == b && o.rows[k].state == Pending && s.failures >= 2 ==>
                       o'.rows[k].state == Parked && NeverHandedOut(o', k))
                 && (!(o.rows[k].subscription == b && o.rows[k].state == Pending && s.failures >= 2) ==>
                       o'.rows[k] == o.rows[k])
  {
  }

  /** A success in between starts the count again. */
  lemma SuccessForgives(o: Outbox, b: nat, now: int)
    requires b < |o.subscriptions| && o.subscriptions[b].parkedAt.None?
    ensures var o' := Step(Step(o, Succeed(b)), CountFailure(b, now));
            o'.rows == o.rows && o'.subscriptions[b] == o.subscriptions[b].(failures := 1)
  {
  }

  /** Parked and resumed: the queue of the subscription is what it was, every row in it due at
      the moment of the resume with the attempts it had, and its count starts again. */
  lemma ParkedAndResumed(o: Outbox, b: nat, parked: int, now: int, k: nat)
    requires b < |o.subscriptions| && o.subscriptions[b].failures == 2 && o.subscriptions[b].parkedAt.None?
    requires k < |o.rows| && o.rows[k].subscription == b && o.rows[k].state == Pending
    ensures var o' := Step(Step(o, CountFailure(b, parked)), Resume(b, now));
            && o'.subscriptions[b] == o.subscriptions[b].(failures := 0, enabled := true)
            && |o'.rows| == |o.rows|
            && o'.rows[k] == o.rows[k].(nextAttemptAt := Some(now), claimedAt := None)
            && HandedOutFrom(o', k, now)
            && Queue(o', b) == Queue(o, b)
  {
    var o' := Step(Step(o, CountFailure(b, parked)), Resume(b, now));
    DueFrom(o', k, now);
    WaitingAgrees(o.rows, o'.rows, b, 0, |o.rows|);
  }

  /** A row sent again starts afresh: no attempts, due now. One that is not settled, and every
      other row, is left alone. */
  lemma RedeliveredIsDueNow(o: Outbox, k: nat, now: int)
    requires k < |o.rows|
    ensures var o' := Step(o, Redeliver(k, now));
            && o'.subscriptions == o.subscriptions && |o'.rows| == |o.rows|
            && (forall j | 0 <= j < |o.rows| && j != k :: o'.rows[j] == o.rows[j])
            && (o.rows[k].state !in {Delivered, Failed} ==> o'.rows[k] == o.rows[k])
            && (o.rows[k].state in {Delivered, Failed} ==>
                  && o'.rows[k].state == Pending && o'.rows[k].attempts == 0
                  && o'.rows[k].eventId == o.rows[k].eventId && HandedOutFrom(o', k, now))
  {
    var o' := Step(o, Redeliver(k, now));
    if o.rows[k].state in {Delivered, Failed} { DueFrom(o', k, now); }
  }
}
