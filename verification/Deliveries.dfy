/** Webhook deliveries: the outbox rows, the subscriptions they are owed to, and every step
    that claims, settles, parks, revives or re-queues them. */
module Deliveries {
  import opened Wrappers

  const CLAIM_LEASE := 5 * 60

  /** How often one row is tried. */
  const MAX_ATTEMPTS := 5

  /** How many give-ups without a success in between park a subscription. */
  const PARK_AFTER := 3

  const BACKOFF: seq<nat> := [10, 60, 300, 1800]

  function Backoff(attempts: int): nat {
    var capped := if attempts < |BACKOFF| then attempts else |BACKOFF|;
    BACKOFF[if capped < 1 then 0 else capped - 1]
  }

  datatype State = Pending | Delivering | Delivered | Failed | Parked

  datatype Delivery = Delivery(subscription: nat, eventId: string, state: State, attempts: nat,
                               nextAttemptAt: Option<int>, claimedAt: Option<int>)

  datatype Subscription = Subscription(enabled: bool, parkedAt: Option<int>, failures: nat,
                                       connectionId: Option<string>, eventTypes: set<string>)
  {
    predicate Live() { enabled && parkedAt.None? }

    predicate Wants(e: Fact) {
      e.eventType in eventTypes && (connectionId.None? || connectionId == e.connectionId)
    }
  }

  /** The audit event a delivery reports. */
  datatype Fact = Fact(eventId: string, eventType: string, connectionId: Option<string>)

  /** Positions are the ids: deliveries stand in sequence-number order. */
  datatype Outbox = Outbox(subscriptions: seq<Subscription>, rows: seq<Delivery>)

  datatype Claimed = Claimed(row: nat, attempts: nat, claimedAt: int)

  /** Still owed to the endpoint and not set aside. */
  predicate Owed(d: Delivery) { d.state in {Pending, Delivering} }

  predicate Due(d: Delivery, now: int) {
    || (d.state == Pending && (d.nextAttemptAt.None? || d.nextAttemptAt.value <= now))
    || (d.state == Delivering && d.claimedAt.Some? && d.claimedAt.value < now - CLAIM_LEASE)
  }

  /** Something earlier is owed to the same subscription. */
  predicate Overtakes(rows: seq<Delivery>, k: nat)
    requires k < |rows|
  {
    exists j | 0 <= j < k :: rows[j].subscription == rows[k].subscription && Owed(rows[j])
  }

  predicate Claimable(o: Outbox, k: nat, now: int)
    requires k < |o.rows|
  {
    && Due(o.rows[k], now)
    && o.rows[k].subscription < |o.subscriptions| && o.subscriptions[o.rows[k].subscription].Live()
    && !Overtakes(o.rows, k)
  }

  /** The lowest-numbered claimable row among the first `n`. */
  function CandidateBelow(o: Outbox, now: int, n: nat): (c: Option<nat>)
    requires n <= |o.rows|
    ensures c.Some? ==> c.value < n && Claimable(o, c.value, now) && forall j | 0 <= j < c.value :: !Claimable(o, j, now)
    ensures c.None? ==> forall j | 0 <= j < n :: !Claimable(o, j, now)
  {
    if n == 0 then None
    else
      var earlier := CandidateBelow(o, now, n - 1);
      if earlier.Some? then earlier else if Claimable(o, n - 1, now) then Some(n - 1) else None
  }

  function Candidate(o: Outbox, now: int): Option<nat> { CandidateBelow(o, now, |o.rows|) }

  function ClaimedRow(d: Delivery, now: int): Delivery {
    d.(state := Delivering, claimedAt := Some(now), attempts := d.attempts + 1)
  }

  predicate Holds(d: Delivery, c: Claimed) {
    d.state == Delivering && d.attempts == c.attempts && d.claimedAt == Some(c.claimedAt)
  }

  function Settled(d: Delivery, state: State): Delivery { d.(state := state, claimedAt := None) }

  function Retried(d: Delivery, now: int): Delivery {
    d.(state := Pending, claimedAt := None, nextAttemptAt := Some(now + Backoff(d.attempts)))
  }

  // --- writing what is owed --------------------------------------------------------

  function NewRow(subscription: nat, e: Fact, now: int): Delivery {
    Delivery(subscription, e.eventId, Pending, 0, Some(now), None)
  }

  predicate OwesTo(s: Subscription, e: Fact) { s.Live() && s.Wants(e) }

  /** One queued row for every live subscription among the first `n` that asked for it. */
  function FannedOut(subscriptions: seq<Subscription>, e: Fact, now: int, n: nat): seq<Delivery>
    requires n <= |subscriptions|
  {
    if n == 0 then []
    else FannedOut(subscriptions, e, now, n - 1)
         + if OwesTo(subscriptions[n - 1], e) then [NewRow(n - 1, e, now)] else []
  }

  /** The unique constraint: one row per subscription and event. */
  predicate HasRow(rows: seq<Delivery>, subscription: nat, eventId: string) {
    exists k | 0 <= k < |rows| :: rows[k].subscription == subscription && rows[k].eventId == eventId
  }

  predicate Recordable(o: Outbox, e: Fact) {
    forall b | 0 <= b < |o.subscriptions| && OwesTo(o.subscriptions[b], e) :: !HasRow(o.rows, b, e.eventId)
  }

  // --- parking -----------------------------------------------------------------------

  /** The queued rows of a subscription are set aside with it ... */
  function ParkedRows(rows: seq<Delivery>, b: nat): seq<Delivery> {
    seq(|rows|, k requires 0 <= k < |rows| =>
      if rows[k].subscription == b && rows[k].state == Pending then rows[k].(state := Parked, claimedAt := None)
      else rows[k])
  }

  /** ... and come back when an operator resumes it. */
  function RevivedRows(rows: seq<Delivery>, b: nat, now: int): seq<Delivery> {
    seq(|rows|, k requires 0 <= k < |rows| =>
      if rows[k].subscription == b && rows[k].state == Parked then rows[k].(state := Pending, nextAttemptAt := Some(now))
      else rows[k])
  }

  /** One give-up more; at the limit the subscription and its queued rows are parked. */
  function FailureCounted(o: Outbox, b: nat, now: int): Outbox
    requires b < |o.subscriptions|
  {
    var s := o.subscriptions[b].(failures := o.subscriptions[b].failures + 1);
    if s.failures < PARK_AFTER then o.(subscriptions := o.subscriptions[b := s])
    else
      Outbox(o.subscriptions[b := if s.parkedAt.None? then s.(parkedAt := Some(now)) else s],
             ParkedRows(o.rows, b))
  }

  function Resumed(o: Outbox, b: nat, now: int): Outbox
    requires b < |o.subscriptions|
  {
    Outbox(o.subscriptions[b := o.subscriptions[b].(parkedAt := None, failures := 0, enabled := true)],
           RevivedRows(o.rows, b, now))
  }

  // --- redelivery ---------------------------------------------------------------------

  /** Only rows that were settled, well or badly, can be redelivered. */
  predicate Redeliverable(d: Delivery) { d.state in {Delivered, Failed} }

  function Requeued(d: Delivery, now: int): Delivery {
    if Redeliverable(d) then d.(state := Pending, attempts := 0, nextAttemptAt := Some(now), claimedAt := None) else d
  }

  // --- one step ------------------------------------------------------------------------

  datatype Event =
    | FanOut(fact: Fact, now: int)
    | Ping(subscription: nat, eventId: string, now: int)
    | Claim(now: int)
    | Deliver(claim: Claimed)
    | Retry(claim: Claimed, now: int)
    | GiveUp(claim: Claimed)
    | Succeed(subscription: nat)
    | CountFailure(subscription: nat, now: int)
    | SetEnabled(subscription: nat, enabled: bool)
    | Resume(subscription: nat, now: int)
    | Redeliver(row: nat, now: int)

  function PutRow(o: Outbox, k: nat, d: Delivery): Outbox {
    if k < |o.rows| then o.(rows := o.rows[k := d]) else o
  }

  function Step(o: Outbox, e: Event): Outbox {
    match e
    case FanOut(fact, now) =>
      if Recordable(o, fact)
      then o.(rows := o.rows + FannedOut(o.subscriptions, fact, now, |o.subscriptions|)) else o
    case Ping(b, eventId, now) =>
      if b < |o.subscriptions| && o.subscriptions[b].Live()
      then o.(rows := o.rows + [NewRow(b, Fact(eventId, "ping", None), now)]) else o
    case Claim(now) =>
      var c := Candidate(o, now);
      if c.Some? then PutRow(o, c.value, ClaimedRow(o.rows[c.value], now)) else o
    case Deliver(c) => if c.row < |o.rows| then PutRow(o, c.row, Settled(o.rows[c.row], Delivered)) else o
    case Retry(c, now) => if c.row < |o.rows| then PutRow(o, c.row, Retried(o.rows[c.row], now)) else o
    case GiveUp(c) => if c.row < |o.rows| then PutRow(o, c.row, Settled(o.rows[c.row], Failed)) else o
    case Succeed(b) =>
      if b < |o.subscriptions| then o.(subscriptions := o.subscriptions[b := o.subscriptions[b].(failures := 0)]) else o
    case CountFailure(b, now) => if b < |o.subscriptions| then FailureCounted(o, b, now) else o
    case SetEnabled(b, enabled) =>
      if b < |o.subscriptions|
      then o.(subscriptions := o.subscriptions[b := o.subscriptions[b].(enabled := enabled)]) else o
    case Resume(b, now) => if b < |o.subscriptions| then Resumed(o, b, now) else o
    case Redeliver(k, now) => if k < |o.rows| then PutRow(o, k, Requeued(o.rows[k], now)) else o
  }

  predicate Settles(e: Event) { e.Deliver? || e.Retry? || e.GiveUp? }

  /** A dispatcher settles a row it still holds, and gives up exactly at the ceiling. */
  predicate Enabled(o: Outbox, e: Event) {
    && (Settles(e) ==> e.claim.row < |o.rows| && Holds(o.rows[e.claim.row], e.claim))
    && (e.Retry? ==> e.claim.attempts < MAX_ATTEMPTS)
    && (e.GiveUp? ==> e.claim.attempts >= MAX_ATTEMPTS)
  }

  function Run(o: Outbox, es: seq<Event>): Outbox
    decreases |es|
  {
    if es == [] then o else Run(Step(o, es[0]), es[1..])
  }

  predicate Legal(o: Outbox, es: seq<Event>)
    decreases |es|
  {
    es == [] || (Enabled(o, es[0]) && Legal(Step(o, es[0]), es[1..]))
  }

  predicate NoRedelivery(es: seq<Event>) { forall e | e in es :: !e.Redeliver? }

  /** The row a claim takes, if this event is a claim that takes one. */
  function TakenBy(o: Outbox, e: Event): Option<nat> {
    if e.Claim? then Candidate(o, e.now) else None
  }
}
