/** The relational claim behaves as one first-in-first-out queue per subscription, a dead
    endpoint is parked after a bounded number of claims, and what redelivery changes. */
module DeliveryRuns {
  import opened Wrappers
  import opened Deliveries

  // --- the queue of one subscription ----------------------------------------------

  /** Delivered or given up: nothing more is owed on this row. */
  predicate Over(d: Delivery) { d.state in {Delivered, Failed} }

  predicate Unsettled(rows: seq<Delivery>, k: nat, b: nat)
    requires k < |rows|
  {
    rows[k].subscription == b && !Over(rows[k])
  }

  /** The rows still to be sent to subscription `b`, among those numbered `from` up to `to`. */
  function Waiting(rows: seq<Delivery>, b: nat, from: nat, to: nat): seq<nat>
    requires from <= to <= |rows|
    decreases |rows| - from
  {
    if from == to then [] else (if Unsettled(rows, from, b) then [from] else []) + Waiting(rows, b, from + 1, to)
  }

  function Queue(o: Outbox, b: nat): seq<nat> { Waiting(o.rows, b, 0, |o.rows|) }

  lemma {:induction false} WaitingIsOrdered(rows: seq<Delivery>, b: nat, from: nat, to: nat)
    requires from <= to <= |rows|
    ensures forall k | 0 <= k < |Waiting(rows, b, from, to)| ::
              from <= Waiting(rows, b, from, to)[k] < to && Unsettled(rows, Waiting(rows, b, from, to)[k], b)
    ensures forall j, k | 0 <= j < k < |Waiting(rows, b, from, to)| ::
              Waiting(rows, b, from, to)[j] < Waiting(rows, b, from, to)[k]
    ensures forall k | from <= k < to && Unsettled(rows, k, b) :: k in Waiting(rows, b, from, to)
    decreases |rows| - from
  {
    if from < to { WaitingIsOrdered(rows, b, from + 1, to); }
  }

  lemma {:induction false} WaitingSplits(rows: seq<Delivery>, b: nat, from: nat, mid: nat, to: nat)
    requires from <= mid <= to <= |rows|
    ensures Waiting(rows, b, from, to) == Waiting(rows, b, from, mid) + Waiting(rows, b, mid, to)
    decreases |rows| - from
  {
    if from < mid { WaitingSplits(rows, b, from + 1, mid, to); }
  }

  /** The queue reads nothing of a row but whether it is unsettled and whose it is. */
  lemma {:induction false} WaitingAgrees(rows: seq<Delivery>, rows': seq<Delivery>, b: nat, from: nat, to: nat)
    requires from <= to <= |rows| && to <= |rows'|
    requires forall k | from <= k < to :: Unsettled(rows, k, b) == Unsettled(rows', k, b)
    ensures Waiting(rows, b, from, to) == Waiting(rows', b, from, to)
    decreases |rows| - from
  {
    if from < to {
      assert Unsettled(rows, from, b) == Unsettled(rows', from, b);
      WaitingAgrees(rows, rows', b, from + 1, to);
    }
  }

  lemma {:induction false} NothingWaiting(rows: seq<Delivery>, b: nat, from: nat, to: nat)
    requires from <= to <= |rows|
    requires forall k | from <= k < to :: !Unsettled(rows, k, b)
    ensures Waiting(rows, b, from, to) == []
    decreases |rows| - from
  {
    if from < to { NothingWaiting(rows, b, from + 1, to); }
  }

  // --- the invariant ----------------------------------------------------------------

  /** Row `k` is the first of its subscription that is not over. */
  ghost predicate IsHead(rows: seq<Delivery>, k: nat)
    requires k < |rows|
  {
    forall j | 0 <= j < k :: rows[j].subscription == rows[k].subscription ==> Over(rows[j])
  }

  /** Only the head of a queue is ever in flight or has ever been claimed, and rows are set
      aside only while their subscription is parked. */
  ghost predicate InOrder(o: Outbox) {
    && (forall k | 0 <= k < |o.rows| && !Over(o.rows[k]) && o.rows[k].attempts > 0 :: IsHead(o.rows, k))
    && (forall k | 0 <= k < |o.rows| && o.rows[k].state == Delivering ::
          o.rows[k].attempts > 0 && o.rows[k].claimedAt.Some?)
    && (forall k | 0 <= k < |o.rows| && o.rows[k].state in {Pending, Parked} :: o.rows[k].attempts < MAX_ATTEMPTS)
    && (forall k | 0 <= k < |o.rows| && o.rows[k].state == Parked ::
          var b := o.rows[k].subscription;
          b < |o.subscriptions| && o.subscriptions[b].parkedAt.Some?)
    && (forall b | 0 <= b < |o.subscriptions| && o.subscriptions[b].parkedAt.None? :: o.subscriptions[b].failures < PARK_AFTER)
  }

  /** With rows set aside only under parked subscriptions, nothing earlier owed means
      nothing earlier unsettled: the claimed row is the head. */
  lemma ClaimTakesHead(o: Outbox, now: int)
    requires InOrder(o) && Candidate(o, now).Some?
    ensures IsHead(o.rows, Candidate(o, now).value)
    ensures !Over(o.rows[Candidate(o, now).value])
  {
    var k := Candidate(o, now).value;
    forall j | 0 <= j < k && o.rows[j].subscription == o.rows[k].subscription ensures Over(o.rows[j]) {
      assert !Owed(o.rows[j]);
    }
  }

  lemma RowStepKeepsOrder(o: Outbox, k: nat, d: Delivery)
    requires InOrder(o) && k < |o.rows| && IsHead(o.rows, k) && !Over(o.rows[k])
    requires d.subscription == o.rows[k].subscription
    requires d.state == Delivering ==> d.attempts > 0 && d.claimedAt.Some?
    requires d.state == Pending ==> d.attempts < MAX_ATTEMPTS
    requires d.state != Parked
    ensures InOrder(PutRow(o, k, d))
  {
    var rows := PutRow(o, k, d).rows;
    forall j | 0 <= j < |rows| && !Over(rows[j]) && rows[j].attempts > 0 ensures IsHead(rows, j) {
      if j != k {
        assert IsHead(o.rows, j);
        if k < j && rows[k].subscription == rows[j].subscription { assert false; }
      }
    }
  }

  lemma AppendKeepsOrder(o: Outbox, more: seq<Delivery>)
    requires InOrder(o)
    requires forall d | d in more :: d.state == Pending && d.attempts == 0
    ensures InOrder(o.(rows := o.rows + more))
  {
    var rows := o.rows + more;
    assert forall k | |o.rows| <= k < |rows| :: rows[k] in more;
    forall k | 0 <= k < |rows| && !Over(rows[k]) && rows[k].attempts > 0 ensures IsHead(rows, k) {
      assert IsHead(o.rows, k);
    }
  }

  lemma {:induction false} FannedOutRows(subscriptions: seq<Subscription>, e: Fact, now: int, n: nat)
    requires n <= |subscriptions|
    ensures forall d | d in FannedOut(subscriptions, e, now, n) ::
              && d.state == Pending && d.attempts == 0 && d.eventId == e.eventId
              && d.subscription < n && OwesTo(subscriptions[d.subscription], e)
    ensures forall j, k | 0 <= j < k < |FannedOut(subscriptions, e, now, n)| ::
              FannedOut(subscriptions, e, now, n)[j].subscription < FannedOut(subscriptions, e, now, n)[k].subscription
    ensures forall b | 0 <= b < n && OwesTo(subscriptions[b], e) ::
              NewRow(b, e, now) in FannedOut(subscriptions, e, now, n)
  {
    if n > 0 { FannedOutRows(subscriptions, e, now, n - 1); }
  }

  lemma SweepKeepsHeads(rows: seq<Delivery>, rows': seq<Delivery>)
    requires |rows'| == |rows|
    requires forall k | 0 <= k < |rows| :: && rows'[k].subscription == rows[k].subscription
                                           && rows'[k].attempts == rows[k].attempts
                                           && (Over(rows'[k]) <==> Over(rows[k]))
    requires forall k | 0 <= k < |rows| && !Over(rows[k]) && rows[k].attempts > 0 :: IsHead(rows, k)
    ensures forall k | 0 <= k < |rows'| && !Over(rows'[k]) && rows'[k].attempts > 0 :: IsHead(rows', k)
  {
    forall k | 0 <= k < |rows'| && !Over(rows'[k]) && rows'[k].attempts > 0 ensures IsHead(rows', k) {
      assert IsHead(rows, k);
    }
  }

  lemma SubscriptionKeepsOrder(o: Outbox, b: nat, s: Subscription)
    requires InOrder(o) && b < |o.subscriptions|
    requires s.parkedAt == o.subscriptions[b].parkedAt && s.failures <= o.subscriptions[b].failures
    ensures InOrder(o.(subscriptions := o.subscriptions[b := s]))
  {
  }

  lemma CountingKeepsOrder(o: Outbox, b: nat, now: int)
    requires InOrder(o) && b < |o.subscriptions|
    ensures InOrder(FailureCounted(o, b, now))
  {
    SweepKeepsHeads(o.rows, FailureCounted(o, b, now).rows);
  }

  lemma ResumingKeepsOrder(o: Outbox, b: nat, now: int)
    requires InOrder(o) && b < |o.subscriptions|
    ensures InOrder(Resumed(o, b, now))
  {
    SweepKeepsHeads(o.rows, Resumed(o, b, now).rows);
  }

  lemma StepKeepsOrder(o: Outbox, e: Event)
    requires InOrder(o) && Enabled(o, e) && !e.Redeliver?
    ensures InOrder(Step(o, e))
  {
    match e
    case FanOut(fact, now) =>
      FannedOutRows(o.subscriptions, fact, now, |o.subscriptions|);
      AppendKeepsOrder(o, FannedOut(o.subscriptions, fact, now, |o.subscriptions|));
    case Ping(b, eventId, now) =>
      AppendKeepsOrder(o, [NewRow(b, Fact(eventId, "ping", None), now)]);
    case Claim(now) =>
      if Candidate(o, now).Some? {
        ClaimTakesHead(o, now);
        RowStepKeepsOrder(o, Candidate(o, now).value, ClaimedRow(o.rows[Candidate(o, now).value], now));
      }
    case Deliver(c) => RowStepKeepsOrder(o, c.row, Settled(o.rows[c.row], Delivered));
    case Retry(c, now) => RowStepKeepsOrder(o, c.row, Retried(o.rows[c.row], now));
    case GiveUp(c) => RowStepKeepsOrder(o, c.row, Settled(o.rows[c.row], Failed));
    case Succeed(b) =>
      if b < |o.subscriptions| { SubscriptionKeepsOrder(o, b, o.subscriptions[b].(failures := 0)); }
    case SetEnabled(b, enabled) =>
      if b < |o.subscriptions| { SubscriptionKeepsOrder(o, b, o.subscriptions[b].(enabled := enabled)); }
    case CountFailure(b, now) => if b < |o.subscriptions| { CountingKeepsOrder(o, b, now); }
    case Resume(b, now) => if b < |o.subscriptions| { ResumingKeepsOrder(o, b, now); }
    case _ =>
  }

  /** At most one row per subscription is in flight, and it is the head of its queue. */
  lemma OneInFlight(o: Outbox, j: nat, k: nat)
    requires InOrder(o) && j < |o.rows| && k < |o.rows|
    requires o.rows[j].subscription == o.rows[k].subscription
    requires o.rows[j].state == Delivering
    ensures o.rows[k].state == Delivering ==> j == k
    ensures Queue(o, o.rows[j].subscription) != [] && Queue(o, o.rows[j].subscription)[0] == j
  {
    assert IsHead(o.rows, j);
    HeadOfQueue(o, j);
    if o.rows[k].state == Delivering {
      assert IsHead(o.rows, k);
    }
  }

  lemma HeadOfQueue(o: Outbox, k: nat)
    requires k < |o.rows| && IsHead(o.rows, k) && !Over(o.rows[k])
    ensures var b := o.rows[k].subscription;
            Queue(o, b) == [k] + Waiting(o.rows, b, k + 1, |o.rows|)
  {
    var b := o.rows[k].subscription;
    WaitingSplits(o.rows, b, 0, k, |o.rows|);
    NothingWaiting(o.rows, b, 0, k);
  }

  // --- refinement of a FIFO queue -------------------------------------------------------

  /** What a step appends to the queue of `b`, and what it removes. */
  function Entering(o: Outbox, e: Event, b: nat): seq<nat> {
    if |Step(o, e).rows| <= |o.rows| then [] else Waiting(Step(o, e).rows, b, |o.rows|, |Step(o, e).rows|)
  }

  function Leaving(o: Outbox, e: Event, b: nat): seq<nat> {
    if (e.Deliver? || e.GiveUp?) && e.claim.row < |o.rows| && o.rows[e.claim.row].subscription == b
    then [e.claim.row] else []
  }

  /** A step that removes nothing from the queue of `b` changes no old row's place in it. */
  lemma OldRowsStay(o: Outbox, e: Event, b: nat)
    requires Enabled(o, e) && !e.Redeliver? && Leaving(o, e, b) == []
    ensures |o.rows| <= |Step(o, e).rows|
    ensures forall k | 0 <= k < |o.rows| :: Unsettled(o.rows, k, b) == Unsettled(Step(o, e).rows, k, b)
  {
    if e.Claim? && Candidate(o, e.now).Some? { assert Owed(o.rows[Candidate(o, e.now).value]); }
  }

  lemma HeadLeaves(o: Outbox, e: Event, b: nat)
    requires InOrder(o) && Enabled(o, e) && Leaving(o, e, b) != []
    ensures Leaving(o, e, b) + Queue(Step(o, e), b) == Queue(o, b)
  {
    var o', k := Step(o, e), e.claim.row;
    assert IsHead(o.rows, k);
    HeadOfQueue(o, k);
    assert |o'.rows| == |o.rows| && forall j | 0 <= j < |o.rows| && j != k :: o'.rows[j] == o.rows[j];
    WaitingSplits(o'.rows, b, 0, k + 1, |o'.rows|);
    NothingWaiting(o'.rows, b, 0, k + 1);
    WaitingAgrees(o.rows, o'.rows, b, k + 1, |o.rows|);
  }

  /** Every step either leaves the queue of `b` alone, appends to its end, or removes its
      head; and a claim takes the head. */
  lemma StepRefinesFifo(o: Outbox, e: Event, b: nat)
    requires InOrder(o) && Enabled(o, e) && !e.Redeliver?
    ensures Leaving(o, e, b) + Queue(Step(o, e), b) == Queue(o, b) + Entering(o, e, b)
    ensures TakenBy(o, e).Some? && o.rows[TakenBy(o, e).value].subscription == b ==>
              Queue(o, b) != [] && Queue(o, b)[0] == TakenBy(o, e).value
  {
    var o' := Step(o, e);
    if Leaving(o, e, b) != [] {
      HeadLeaves(o, e, b);
    } else {
      OldRowsStay(o, e, b);
      WaitingAgrees(o.rows, o'.rows, b, 0, |o.rows|);
      WaitingSplits(o'.rows, b, 0, |o.rows|, |o'.rows|);
    }
    if TakenBy(o, e).Some? && o.rows[TakenBy(o, e).value].subscription == b {
      ClaimTakesHead(o, e.now);
      HeadOfQueue(o, TakenBy(o, e).value);
    }
  }

  function Entered(o: Outbox, es: seq<Event>, b: nat): seq<nat>
    decreases |es|
  {
    if es == [] then [] else Entering(o, es[0], b) + Entered(Step(o, es[0]), es[1..], b)
  }

  function Left(o: Outbox, es: seq<Event>, b: nat): seq<nat>
    decreases |es|
  {
    if es == [] then [] else Leaving(o, es[0], b) + Left(Step(o, es[0]), es[1..], b)
  }

  /** Over any run without redelivery, whatever the interleaving of dispatchers, crashes,
      give-ups, parking and resuming: what was settled, in the order it was settled,
      followed by what is still waiting, is what was waiting at the start followed by what
      was written since, in the order it was written. */
  lemma {:induction false} DeliveriesAreFifo(o: Outbox, es: seq<Event>, b: nat)
    requires InOrder(o) && Legal(o, es) && NoRedelivery(es)
    ensures Left(o, es, b) + Queue(Run(o, es), b) == Queue(o, b) + Entered(o, es, b)
    ensures InOrder(Run(o, es))
    decreases |es|
  {
    if es != [] {
      var o' := Step(o, es[0]);
      StepKeepsOrder(o, es[0]);
      StepRefinesFifo(o, es[0], b);
      DeliveriesAreFifo(o', es[1..], b);
      Chain(Leaving(o, es[0], b), Left(o', es[1..], b), Queue(Run(o, es), b), Queue(o', b),
            Entered(o', es[1..], b), Queue(o, b), Entering(o, es[0], b));
    }
  }

  lemma Chain(leaving: seq<nat>, left: seq<nat>, last: seq<nat>, middle: seq<nat>,
              entered: seq<nat>, first: seq<nat>, entering: seq<nat>)
    requires leaving + middle == first + entering
    requires left + last == middle + entered
    ensures (leaving + left) + last == first + (entering + entered)
  {
    assert (leaving + left) + last == leaving + (left + last);
    assert leaving + (middle + entered) == (leaving + middle) + entered;
    assert (first + entering) + entered == first + (entering + entered);
  }

  predicate Increasing(s: seq<nat>) { forall j, k | 0 <= j < k < |s| :: s[j] < s[k] }

  predicate Between(s: seq<nat>, low: nat, high: nat) { forall k | 0 <= k < |s| :: low <= s[k] < high }

  lemma StepEntries(o: Outbox, e: Event, b: nat)
    ensures |o.rows| <= |Step(o, e).rows|
    ensures Increasing(Entering(o, e, b)) && Between(Entering(o, e, b), |o.rows|, |Step(o, e).rows|)
  {
    var o' := Step(o, e);
    if |o'.rows| > |o.rows| { WaitingIsOrdered(o'.rows, b, |o.rows|, |o'.rows|); }
  }

  lemma IncreasingJoin(a: seq<nat>, b: seq<nat>, mid: nat)
    requires Increasing(a) && Increasing(b)
    requires forall k | 0 <= k < |a| :: a[k] < mid
    requires forall k | 0 <= k < |b| :: mid <= b[k]
    ensures Increasing(a + b)
  {
  }

  lemma {:induction false} EntriesAreNew(o: Outbox, es: seq<Event>, b: nat)
    ensures Increasing(Entered(o, es, b))
    ensures forall k | 0 <= k < |Entered(o, es, b)| :: |o.rows| <= Entered(o, es, b)[k]
    decreases |es|
  {
    if es != [] {
      var o' := Step(o, es[0]);
      StepEntries(o, es[0], b);
      EntriesAreNew(o', es[1..], b);
      IncreasingJoin(Entering(o, es[0], b), Entered(o', es[1..], b), |o'.rows|);
    }
  }

  /** Rows of one subscription settle in strictly increasing sequence order. */
  lemma SettledInSequence(o: Outbox, es: seq<Event>, b: nat)
    requires InOrder(o) && Legal(o, es) && NoRedelivery(es)
    ensures Increasing(Left(o, es, b))
  {
    DeliveriesAreFifo(o, es, b);
    EntriesAreNew(o, es, b);
    WaitingIsOrdered(o.rows, b, 0, |o.rows|);
    var all := Queue(o, b) + Entered(o, es, b);
    IncreasingJoin(Queue(o, b), Entered(o, es, b), |o.rows|);
    assert forall k | 0 <= k < |Left(o, es, b)| :: Left(o, es, b)[k] == all[k];
  }

  // --- the claim ----------------------------------------------------------------------

  /** What a claim may take of one subscription depends on that subscription and its rows
      alone, with or without redelivery: nothing other consumers do can hold it back. */
  lemma ClaimsAreIsolated(o: Outbox, o': Outbox, k: nat, now: int)
    requires k < |o.rows| && k < |o'.rows| && o'.rows[k] == o.rows[k]
    requires var b := o.rows[k].subscription;
             && (b < |o.subscriptions| <==> b < |o'.subscriptions|)
             && (b < |o.subscriptions| ==> o'.subscriptions[b] == o.subscriptions[b])
             && (forall j | 0 <= j < k :: o.rows[j].subscription == b ==> o'.rows[j] == o.rows[j])
             && (forall j | 0 <= j < k :: o'.rows[j].subscription == b ==> o'.rows[j] == o.rows[j])
    ensures Claimable(o, k, now) == Claimable(o', k, now)
    ensures Claimable(o, k, now) ==> Candidate(o, now).Some? && Candidate(o', now).Some?
  {
    if Overtakes(o.rows, k) {
      var j :| 0 <= j < k && o.rows[j].subscription == o.rows[k].subscription && Owed(o.rows[j]);
      assert o'.rows[j] == o.rows[j];
    }
    if Overtakes(o'.rows, k) {
      var j :| 0 <= j < k && o'.rows[j].subscription == o'.rows[k].subscription && Owed(o'.rows[j]);
      assert o'.rows[j] == o.rows[j];
    }
  }

  lemma StepKeepsEvent(o: Outbox, e: Event, k: nat)
    requires k < |o.rows|
    ensures k < |Step(o, e).rows|
    ensures Step(o, e).rows[k].eventId == o.rows[k].eventId && Step(o, e).rows[k].subscription == o.rows[k].subscription
  {
  }

  /** Rows are never removed, and never change their event or their subscription. */
  lemma {:induction false} EventsAreKept(o: Outbox, es: seq<Event>, k: nat)
    requires k < |o.rows|
    ensures k < |Run(o, es).rows|
    ensures Run(o, es).rows[k].eventId == o.rows[k].eventId && Run(o, es).rows[k].subscription == o.rows[k].subscription
    decreases |es|
  {
    if es != [] {
      StepKeepsEvent(o, es[0], k);
      EventsAreKept(Step(o, es[0]), es[1..], k);
    }
  }

  // --- redelivery ------------------------------------------------------------------------

  /** Nothing earlier is owed under a row in flight, which makes it the only one. */
  ghost predicate SingleFlight(o: Outbox) {
    forall k | 0 <= k < |o.rows| && o.rows[k].state == Delivering :: !Overtakes(o.rows, k)
  }

  /** A row put back at its old position keeps that exactly when nothing later of the same
      subscription is in flight. */
  lemma RedeliveryKeepsSingleFlightIff(o: Outbox, k: nat, now: int)
    requires SingleFlight(o) && k < |o.rows| && Redeliverable(o.rows[k])
    ensures SingleFlight(Step(o, Redeliver(k, now))) <==>
            forall j | k < j < |o.rows| :: o.rows[j].subscription == o.rows[k].subscription ==> o.rows[j].state != Delivering
  {
    var o' := Step(o, Redeliver(k, now));
    forall j | 0 <= j < |o.rows| && o.rows[j].state == Delivering
      ensures Overtakes(o'.rows, j) <==> k < j && o.rows[j].subscription == o.rows[k].subscription
    {
      assert !Overtakes(o.rows, j);
      if k < j && o.rows[j].subscription == o.rows[k].subscription { assert Owed(o'.rows[k]); }
      if Overtakes(o'.rows, j) {
        var i :| 0 <= i < j && o'.rows[i].subscription == o'.rows[j].subscription && Owed(o'.rows[i]);
        assert i == k || Owed(o.rows[i]);
      }
    }
    assert forall j | 0 <= j < |o.rows| :: j != k ==> o'.rows[j] == o.rows[j];
  }

  /** Each redelivery that takes effect meets that guard: nothing later of the same
      subscription is in flight. */
  predicate Guarded(o: Outbox, e: Event) {
    e.Redeliver? && e.row < |o.rows| && Redeliverable(o.rows[e.row]) ==>
      forall j | e.row < j < |o.rows| :: o.rows[j].subscription == o.rows[e.row].subscription ==> o.rows[j].state != Delivering
  }

  predicate AllGuarded(o: Outbox, es: seq<Event>)
    decreases |es|
  {
    es == [] || (Guarded(o, es[0]) && AllGuarded(Step(o, es[0]), es[1..]))
  }

  /** A row in flight is the first of its subscription that is not over, and rows are set
      aside only while their subscription is parked. */
  ghost predicate InFlightFirst(o: Outbox) {
    && (forall k | 0 <= k < |o.rows| && o.rows[k].state == Delivering :: IsHead(o.rows, k))
    && (forall k | 0 <= k < |o.rows| && o.rows[k].state == Parked ::
          o.rows[k].subscription < |o.subscriptions| && o.subscriptions[o.rows[k].subscription].parkedAt.Some?)
  }

  lemma FirstTaken(o: Outbox, now: int)
    requires InFlightFirst(o) && Candidate(o, now).Some?
    ensures IsHead(o.rows, Candidate(o, now).value) && !Over(o.rows[Candidate(o, now).value])
  {
    var k := Candidate(o, now).value;
    forall j | 0 <= j < k && o.rows[j].subscription == o.rows[k].subscription ensures Over(o.rows[j]) {
      assert !Owed(o.rows[j]);
    }
  }

  /** Rewriting one row: at the head of its queue, or without putting it back in front of a
      row in flight. */
  lemma RowKeepsFirst(o: Outbox, k: nat, d: Delivery)
    requires InFlightFirst(o) && k < |o.rows| && d.subscription == o.rows[k].subscription && d.state != Parked
    requires d.state == Delivering ==> IsHead(o.rows, k)
    requires Over(o.rows[k]) && !Over(d) ==>
               forall j | k < j < |o.rows| :: o.rows[j].subscription == d.subscription ==> o.rows[j].state != Delivering
    ensures InFlightFirst(PutRow(o, k, d))
  {
    var rows := PutRow(o, k, d).rows;
    forall j | 0 <= j < |rows| && rows[j].state == Delivering ensures IsHead(rows, j) {
      if j != k { assert IsHead(o.rows, j); }
    }
  }

  lemma AppendKeepsFirst(o: Outbox, more: seq<Delivery>)
    requires InFlightFirst(o) && forall d | d in more :: d.state == Pending
    ensures InFlightFirst(o.(rows := o.rows + more))
  {
    var rows := o.rows + more;
    assert forall k | |o.rows| <= k < |rows| :: rows[k] in more;
    forall k | 0 <= k < |rows| && rows[k].state == Delivering ensures IsHead(rows, k) {
      assert IsHead(o.rows, k);
    }
  }

  /** Parking and resuming settle nothing and put nothing in flight. */
  lemma SweepKeepsFirst(o: Outbox, o': Outbox)
    requires InFlightFirst(o) && |o'.rows| == |o.rows|
    requires forall k | 0 <= k < |o.rows| :: && o'.rows[k].subscription == o.rows[k].subscription
                                             && (Over(o'.rows[k]) <==> Over(o.rows[k]))
                                             && (o'.rows[k].state == Delivering ==> o.rows[k].state == Delivering)
    requires forall k | 0 <= k < |o'.rows| && o'.rows[k].state == Parked ::
               o'.rows[k].subscription < |o'.subscriptions| && o'.subscriptions[o'.rows[k].subscription].parkedAt.Some?
    ensures InFlightFirst(o')
  {
    forall k | 0 <= k < |o'.rows| && o'.rows[k].state == Delivering ensures IsHead(o'.rows, k) {
      assert IsHead(o.rows, k);
    }
  }

  lemma SubscriptionsKeepFirst(o: Outbox, e: Event)
    requires InFlightFirst(o) && (e.Succeed? || e.SetEnabled?)
    ensures InFlightFirst(Step(o, e))
  {
    SweepKeepsFirst(o, Step(o, e));
  }

  lemma StepKeepsFirst(o: Outbox, e: Event)
    requires InFlightFirst(o) && Enabled(o, e) && Guarded(o, e)
    ensures InFlightFirst(Step(o, e))
  {
    match e
    case FanOut(fact, now) =>
      FannedOutRows(o.subscriptions, fact, now, |o.subscriptions|);
      AppendKeepsFirst(o, FannedOut(o.subscriptions, fact, now, |o.subscriptions|));
    case Ping(b, eventId, now) => AppendKeepsFirst(o, [NewRow(b, Fact(eventId, "ping", None), now)]);
    case Claim(now) =>
      if Candidate(o, now).Some? {
        FirstTaken(o, now);
        RowKeepsFirst(o, Candidate(o, now).value, ClaimedRow(o.rows[Candidate(o, now).value], now));
      }
    case Deliver(c) => RowKeepsFirst(o, c.row, Settled(o.rows[c.row], Delivered));
    case Retry(c, now) => RowKeepsFirst(o, c.row, Retried(o.rows[c.row], now));
    case GiveUp(c) => RowKeepsFirst(o, c.row, Settled(o.rows[c.row], Failed));
    case Redeliver(k, now) => if k < |o.rows| && Redeliverable(o.rows[k]) { RowKeepsFirst(o, k, Requeued(o.rows[k], now)); }
    case Succeed(b) => SubscriptionsKeepFirst(o, e);
    case SetEnabled(b, enabled) => SubscriptionsKeepFirst(o, e);
    case CountFailure(b, now) => if b < |o.subscriptions| { SweepKeepsFirst(o, FailureCounted(o, b, now)); }
    case Resume(b, now) => if b < |o.subscriptions| { SweepKeepsFirst(o, Resumed(o, b, now)); }
  }

  /** In every run whose redeliveries meet the guard, whatever else interleaves with them, at
      most one row per subscription is in flight at any time, and nothing earlier is owed. */
  lemma {:induction false} GuardedRedeliveryIsSingleFlight(o: Outbox, es: seq<Event>)
    requires InFlightFirst(o) && Legal(o, es) && AllGuarded(o, es)
    ensures var o' := Run(o, es);
            && SingleFlight(o')
            && forall j, k | 0 <= j < |o'.rows| && 0 <= k < |o'.rows| && o'.rows[j].state == Delivering && o'.rows[k].state == Delivering ::
                 o'.rows[j].subscription == o'.rows[k].subscription ==> j == k
    decreases |es|
  {
    if es == [] {
      FirstIsSingle(o);
    } else {
      StepKeepsFirst(o, es[0]);
      GuardedRedeliveryIsSingleFlight(Step(o, es[0]), es[1..]);
    }
  }

  lemma FirstIsSingle(o: Outbox)
    requires InFlightFirst(o)
    ensures SingleFlight(o)
    ensures forall j, k | 0 <= j < |o.rows| && 0 <= k < |o.rows| && o.rows[j].state == Delivering && o.rows[k].state == Delivering ::
              o.rows[j].subscription == o.rows[k].subscription ==> j == k
  {
    forall k | 0 <= k < |o.rows| && o.rows[k].state == Delivering ensures !Overtakes(o.rows, k) {
      assert IsHead(o.rows, k);
    }
    forall j, k | 0 <= j < |o.rows| && 0 <= k < |o.rows| && o.rows[j].state == Delivering && o.rows[k].state == Delivering
                  && o.rows[j].subscription == o.rows[k].subscription
      ensures j == k
    {
      assert IsHead(o.rows, j) && IsHead(o.rows, k);
    }
  }

  lemma RunFirst(o: Outbox, e: Event, rest: seq<Event>)
    ensures Run(o, [e] + rest) == Run(Step(o, e), rest)
    ensures Legal(o, [e] + rest) <==> Enabled(o, e) && Legal(Step(o, e), rest)
  {
    assert ([e] + rest)[1..] == rest;
  }

  /** A delivery that is claimed and settled, from an empty outbox. */
  lemma FirstDelivered(s: Subscription, now: int)
    requires s.Live() && s.Wants(Fact("a", "t", None))
    ensures var o := Outbox([s], []);
            var es := [FanOut(Fact("a", "t", None), now), Claim(now), Deliver(Claimed(0, 1, now))];
            Legal(o, es) && Run(o, es) == Outbox([s], [Delivery(0, "a", Delivered, 1, Some(now), None)])
  {
    var o, fact := Outbox([s], []), Fact("a", "t", None);
    var o1 := Step(o, FanOut(fact, now));
    assert FannedOut([s], fact, now, 1) == FannedOut([s], fact, now, 0) + [NewRow(0, fact, now)];
    assert o1 == Outbox([s], [NewRow(0, fact, now)]);
    assert Claimable(o1, 0, now) && Candidate(o1, now) == Some(0);
    var o2 := Step(o1, Claim(now));
    assert o2 == Outbox([s], [Delivery(0, "a", Delivering, 1, Some(now), Some(now))]);
    RunFirst(o2, Deliver(Claimed(0, 1, now)), []);
    RunFirst(o1, Claim(now), [Deliver(Claimed(0, 1, now))]);
    RunFirst(o, FanOut(fact, now), [Claim(now), Deliver(Claimed(0, 1, now))]);
  }

  /** The next event is claimed too, and then the first is sent again. */
  lemma SecondClaimed(s: Subscription, now: int)
    requires s.Live() && s.Wants(Fact("b", "t", None))
    ensures var first := Delivery(0, "a", Delivered, 1, Some(now), None);
            var o := Outbox([s], [first]);
            var es := [FanOut(Fact("b", "t", None), now), Claim(now)];
            && Legal(o, es)
            && Run(o, es) == Outbox([s], [first, Delivery(0, "b", Delivering, 1, Some(now), Some(now))])
  {
    var first := Delivery(0, "a", Delivered, 1, Some(now), None);
    var o, fact := Outbox([s], [first]), Fact("b", "t", None);
    var o1 := Step(o, FanOut(fact, now));
    assert FannedOut([s], fact, now, 1) == FannedOut([s], fact, now, 0) + [NewRow(0, fact, now)];
    assert o1 == Outbox([s], [first, NewRow(0, fact, now)]);
    assert !Claimable(o1, 0, now) && Claimable(o1, 1, now) && Candidate(o1, now) == Some(1);
    RunFirst(Step(o1, Claim(now)), Claim(now), []);
    RunFirst(o1, Claim(now), []);
    RunFirst(o, FanOut(fact, now), [Claim(now)]);
  }

  /** When a redelivery does not meet the guard, the next claim can put two rows of one
      subscription in flight: a run of the service from an empty outbox. */
  lemma RedeliveryCanDoubleFlight(now: int)
    ensures var s := Subscription(true, None, 0, None, {"t"});
            var o1 := Run(Outbox([s], []), [FanOut(Fact("a", "t", None), now), Claim(now), Deliver(Claimed(0, 1, now))]);
            var o2 := Run(o1, [FanOut(Fact("b", "t", None), now), Claim(now)]);
            var o3 := Run(o2, [Redeliver(0, now), Claim(now)]);
            && SingleFlight(o2) && |o3.rows| == 2
            && o3.rows[0].state == Delivering && o3.rows[1].state == Delivering
  {
    var s := Subscription(true, None, 0, None, {"t"});
    FirstDelivered(s, now);
    SecondClaimed(s, now);
    BothInFlight(s, now);
  }

  lemma BothInFlight(s: Subscription, now: int)
    requires s.Live()
    ensures var o := Outbox([s], [Delivery(0, "a", Delivered, 1, Some(now), None),
                                  Delivery(0, "b", Delivering, 1, Some(now), Some(now))]);
            var o' := Run(o, [Redeliver(0, now), Claim(now)]);
            && SingleFlight(o) && |o'.rows| == 2
            && o'.rows[0].state == Delivering && o'.rows[1].state == Delivering
  {
    var o := Outbox([s], [Delivery(0, "a", Delivered, 1, Some(now), None), Delivery(0, "b", Delivering, 1, Some(now), Some(now))]);
    var a := Step(o, Redeliver(0, now));
    assert a.rows[0] == Delivery(0, "a", Pending, 0, Some(now), None);
    assert Claimable(a, 0, now) && Candidate(a, now) == Some(0);
    RunFirst(a, Claim(now), []);
    RunFirst(o, Redeliver(0, now), [Claim(now)]);
  }

  // --- a dead endpoint stops ----------------------------------------------------------------

  /** A claim of a queued row, not one taken over from a dispatcher that died. */
  predicate FreshClaim(o: Outbox, e: Event, b: nat) {
    TakenBy(o, e).Some? && o.rows[TakenBy(o, e).value].subscription == b && o.rows[TakenBy(o, e).value].state == Pending
  }

  function FreshClaims(o: Outbox, es: seq<Event>, b: nat): nat
    decreases |es|
  {
    if es == [] then 0
    else (if FreshClaim(o, es[0], b) then 1 else 0) + FreshClaims(Step(o, es[0]), es[1..], b)
  }

  function Resumes(es: seq<Event>, b: nat): nat {
    if es == [] then 0 else (if es[0].Resume? && es[0].subscription == b then 1 else 0) + Resumes(es[1..], b)
  }

  /** The tries the head of the queue has used up. */
  function Used(o: Outbox, b: nat): nat {
    var q := Queue(o, b);
    WaitingIsOrdered(o.rows, b, 0, |o.rows|);
    if q == [] then 0
    else if o.rows[q[0]].attempts < MAX_ATTEMPTS then o.rows[q[0]].attempts else MAX_ATTEMPTS
  }

  /** Claims that a subscription which never answers can still cause before it is parked. */
  function TriesLeft(o: Outbox, b: nat): nat
    requires InOrder(o) && b < |o.subscriptions|
  {
    var s := o.subscriptions[b];
    if s.parkedAt.Some? then 0 else (PARK_AFTER - s.failures) * MAX_ATTEMPTS - Used(o, b)
  }

  /** Subscription `b` never answers with success; a give-up is counted at once; and nothing
      is redelivered. */
  predicate NeverAnswers(o: Outbox, es: seq<Event>, b: nat)
    decreases |es|
  {
    es == [] ||
    (&& !es[0].Redeliver? && es[0] != Succeed(b)
     && (es[0].Deliver? ==> es[0].claim.row < |o.rows| && o.rows[es[0].claim.row].subscription != b)
     && (es[0].GiveUp? && es[0].claim.row < |o.rows| && o.rows[es[0].claim.row].subscription == b ==>
           |es| > 1 && es[1].CountFailure? && es[1].subscription == b)
     && NeverAnswers(Step(o, es[0]), es[1..], b))
  }

  /** What the head of the queue has used depends on the head alone. */
  lemma UsedByHead(o: Outbox, b: nat, k: nat)
    requires k < |o.rows| && o.rows[k].subscription == b && IsHead(o.rows, k) && !Over(o.rows[k])
    ensures Used(o, b) == if o.rows[k].attempts < MAX_ATTEMPTS then o.rows[k].attempts else MAX_ATTEMPTS
  {
    HeadOfQueue(o, k);
  }

  lemma UsedUnchanged(o: Outbox, o': Outbox, b: nat)
    requires |o.rows| <= |o'.rows|
    requires forall k | 0 <= k < |o.rows| :: && Unsettled(o.rows, k, b) == Unsettled(o'.rows, k, b)
                                             && (Unsettled(o.rows, k, b) ==> o'.rows[k].attempts == o.rows[k].attempts)
    requires forall k | |o.rows| <= k < |o'.rows| :: o'.rows[k].attempts == 0
    ensures Used(o', b) == Used(o, b)
  {
    WaitingIsOrdered(o.rows, b, 0, |o.rows|);
    WaitingIsOrdered(o'.rows, b, |o.rows|, |o'.rows|);
    WaitingIsOrdered(o'.rows, b, 0, |o'.rows|);
    WaitingAgrees(o.rows, o'.rows, b, 0, |o.rows|);
    WaitingSplits(o'.rows, b, 0, |o.rows|, |o'.rows|);
  }

  /** A claim from queue `b` takes its head: a fresh one uses up a try. */
  lemma ClaimUsesATry(o: Outbox, e: Event, b: nat)
    requires InOrder(o) && TakenBy(o, e).Some? && o.rows[TakenBy(o, e).value].subscription == b
    ensures Step(o, e).subscriptions == o.subscriptions
    ensures Used(Step(o, e), b) >= Used(o, b) + if FreshClaim(o, e, b) then 1 else 0
  {
    var k := TakenBy(o, e).value;
    ClaimTakesHead(o, e.now);
    UsedByHead(o, b, k);
    assert IsHead(Step(o, e).rows, k);
    UsedByHead(Step(o, e), b, k);
  }

  /** Any other step that settles nothing of `b` leaves what its head has used. */
  lemma NothingUsed(o: Outbox, e: Event, b: nat)
    requires Enabled(o, e) && !e.Redeliver? && Leaving(o, e, b) == []
    requires !(TakenBy(o, e).Some? && o.rows[TakenBy(o, e).value].subscription == b)
    ensures Used(Step(o, e), b) == Used(o, b)
  {
    var o' := Step(o, e);
    OldRowsStay(o, e, b);
    if e.FanOut? {
      FannedOutRows(o.subscriptions, e.fact, e.now, |o.subscriptions|);
      assert forall k | |o.rows| <= k < |o'.rows| :: o'.rows[k] in FannedOut(o.subscriptions, e.fact, e.now, |o.subscriptions|);
    }
    UsedUnchanged(o, o', b);
  }

  lemma SubscriptionAfter(o: Outbox, e: Event, b: nat)
    requires b < |o.subscriptions| && e != Succeed(b)
    ensures b < |Step(o, e).subscriptions|
    ensures var s, s' := o.subscriptions[b], Step(o, e).subscriptions[b];
            (e.Resume? && e.subscription == b)
            || ((s.parkedAt.Some? ==> s'.parkedAt.Some?) && s.failures <= s'.failures)
  {
  }

  /** Steps other than a give-up: a fresh claim costs a try, nothing but a resume adds any. */
  lemma StepSpendsTries(o: Outbox, e: Event, b: nat)
    requires InOrder(o) && Enabled(o, e) && b < |o.subscriptions|
    requires !e.Redeliver? && e != Succeed(b) && Leaving(o, e, b) == []
    ensures InOrder(Step(o, e)) && b < |Step(o, e).subscriptions|
    ensures TriesLeft(Step(o, e), b) + (if FreshClaim(o, e, b) then 1 else 0)
            <= TriesLeft(o, b) + if e.Resume? && e.subscription == b then PARK_AFTER * MAX_ATTEMPTS else 0
  {
    StepKeepsOrder(o, e);
    SubscriptionAfter(o, e, b);
    if TakenBy(o, e).Some? && o.rows[TakenBy(o, e).value].subscription == b {
      ClaimUsesATry(o, e, b);
      assert o.subscriptions[b].parkedAt.None?;
    } else {
      NothingUsed(o, e, b);
    }
  }

  /** What waits behind the head was never claimed. */
  lemma BehindTheHead(o: Outbox, k: nat, next: nat)
    requires InOrder(o) && k < |o.rows| && next < |o.rows| && k != next
    requires o.rows[next].subscription == o.rows[k].subscription && !Over(o.rows[k]) && !Over(o.rows[next])
    requires IsHead(o.rows, k)
    ensures o.rows[next].attempts == 0
  {
  }

  /** Giving up and counting it, together: the head has used its whole set of tries, and the
      next one starts afresh. */
  lemma GiveUpAndCount(o: Outbox, e: Event, count: Event, b: nat)
    requires InOrder(o) && Enabled(o, e) && b < |o.subscriptions|
    requires e.GiveUp? && o.rows[e.claim.row].subscription == b
    requires count.CountFailure? && count.subscription == b
    ensures InOrder(Step(Step(o, e), count)) && b < |Step(Step(o, e), count).subscriptions|
    ensures TriesLeft(Step(Step(o, e), count), b) <= TriesLeft(o, b)
  {
    var k := e.claim.row;
    var a := Step(o, e);
    StepKeepsOrder(o, e);
    StepKeepsOrder(a, count);
    assert IsHead(o.rows, k);
    UsedByHead(o, b, k);
    var o' := Step(a, count);
    if a.subscriptions[b].failures + 1 < PARK_AFTER && a.subscriptions[b].parkedAt.None? {
      WaitingIsOrdered(o'.rows, b, 0, |o'.rows|);
      if Queue(o', b) != [] {
        var next := Queue(o', b)[0];
        BehindTheHead(o, k, next);
      }
    }
  }

  /** An endpoint that never answers 2xx is freshly claimed at most
      `PARK_AFTER * MAX_ATTEMPTS` times, and as often again for every time an operator
      resumes it: then it is parked, and a parked subscription is never claimed. */
  lemma {:induction false} DeadEndpointStops(o: Outbox, es: seq<Event>, b: nat)
    requires InOrder(o) && Legal(o, es) && NeverAnswers(o, es, b) && b < |o.subscriptions|
    ensures FreshClaims(o, es, b) <= TriesLeft(o, b) + PARK_AFTER * MAX_ATTEMPTS * Resumes(es, b)
    ensures TriesLeft(o, b) <= PARK_AFTER * MAX_ATTEMPTS == 15
    decreases |es|
  {
    if es != [] {
      var a := Step(o, es[0]);
      if Leaving(o, es[0], b) == [] {
        StepSpendsTries(o, es[0], b);
        DeadEndpointStops(a, es[1..], b);
      } else {
        var rest := es[1..];
        assert es[1] == rest[0];
        GiveUpAndCount(o, es[0], es[1], b);
        DeadEndpointStops(Step(a, es[1]), rest[1..], b);
      }
    }
  }

  /** Parked means unclaimable: no claim takes a row of a parked subscription. */
  lemma ParkedIsNeverClaimed(o: Outbox, e: Event, b: nat)
    requires b < |o.subscriptions| && o.subscriptions[b].parkedAt.Some?
    ensures TakenBy(o, e).Some? ==> o.rows[TakenBy(o, e).value].subscription != b
    ensures b < |Step(o, e).subscriptions|
    ensures !(e.Resume? && e.subscription == b) ==> Step(o, e).subscriptions[b].parkedAt.Some?
  {
  }
}
