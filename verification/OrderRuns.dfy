/** What holds over whole runs of the order lifecycle: what a closed order never does
    again, how many messages one order can send, and how often it can be claimed. */
module OrderRuns {
  import opened Wrappers
  import opened Schemes
  import opened StatusReports
  import opened Orders
  import opened OrderInvariant

  lemma WorkersKeepIdentity(t: Tables, e: Event, i: nat)
    requires i < |t.orders| && (e.Claim? || e.Open? || e.Submit?)
    ensures i < |Step(t, e).orders| && SameIdentity(Step(t, e).orders[i], t.orders[i])
  {
  }

  lemma FailuresKeepIdentity(t: Tables, e: Event, i: nat)
    requires i < |t.orders| && (e.Refuse? || e.RetryLater? || e.FallBack?)
    ensures i < |Step(t, e).orders| && SameIdentity(Step(t, e).orders[i], t.orders[i])
  {
  }

  lemma DecisionsKeepIdentity(t: Tables, e: Event, i: nat)
    requires i < |t.orders| && (e.Accept? || e.Answer? || e.Replay? || e.Apply?)
    ensures i < |Step(t, e).orders| && SameIdentity(Step(t, e).orders[i], t.orders[i])
  {
  }

  lemma ReturnsKeepIdentity(t: Tables, e: Event, i: nat)
    requires i < |t.orders| && (e.Book? || e.Suspect? || e.Confirm? || e.Dismiss?)
    ensures i < |Step(t, e).orders| && SameIdentity(Step(t, e).orders[i], t.orders[i])
  {
  }

  /** Rows are never removed and keep what was fixed at acceptance. */
  lemma StepKeepsIdentity(t: Tables, e: Event, i: nat)
    requires i < |t.orders|
    ensures i < |Step(t, e).orders| && SameIdentity(Step(t, e).orders[i], t.orders[i])
  {
    if e.Claim? || e.Open? || e.Submit? {
      WorkersKeepIdentity(t, e, i);
    } else if e.Refuse? || e.RetryLater? || e.FallBack? {
      FailuresKeepIdentity(t, e, i);
    } else if e.Accept? || e.Answer? || e.Replay? || e.Apply? {
      DecisionsKeepIdentity(t, e, i);
    } else {
      ReturnsKeepIdentity(t, e, i);
    }
  }

  // --- closed orders -------------------------------------------------------------

  /** Money is under way or has come back: the order was returned, or acknowledged with a
      status that says more than that the file was checked. */
  predicate Closed(o: Order) {
    o.state == Returned ||
    (o.state == Acknowledged && !(o.bankStatus.Some? && Revocable(o.bankStatus.value)))
  }

  /** What a step may do to a closed order: nothing that reopens it. */
  predicate StaysClosed(o: Order, o': Order) {
    Closed(o') && (o.state == Returned ==> o'.state == Returned) && o'.message == o.message
  }

  lemma WorkersLeaveClosed(t: Tables, e: Event, i: nat)
    requires e.Claim? || Reports(e) || e.FallBack?
    requires Enabled(t, e) && i < |t.orders| && Closed(t.orders[i])
    ensures i < |Step(t, e).orders| && Step(t, e).orders[i] == t.orders[i] && TakenBy(t, e) != Some(i)
  {
  }

  lemma OthersKeepClosed(t: Tables, e: Event, i: nat)
    requires !e.Claim? && !Reports(e) && !e.FallBack?
    requires i < |t.orders| && Closed(t.orders[i])
    ensures i < |Step(t, e).orders| && StaysClosed(t.orders[i], Step(t, e).orders[i])
  {
  }

  lemma StepKeepsClosed(t: Tables, e: Event, i: nat)
    requires Enabled(t, e) && i < |t.orders| && Closed(t.orders[i])
    ensures i < |Step(t, e).orders| && Closed(Step(t, e).orders[i])
    ensures t.orders[i].state == Returned ==> Step(t, e).orders[i].state == Returned
    ensures Step(t, e).orders[i].message == t.orders[i].message
    ensures TakenBy(t, e) != Some(i)
  {
    if e.Claim? || Reports(e) || e.FallBack? { WorkersLeaveClosed(t, e, i); } else { OthersKeepClosed(t, e, i); }
  }

  /** Once an order is closed, no sequence of claims, lease expiries, replays, reports,
      bookings, confirmations or dismissals hands one of its messages to a worker again,
      and `Returned` is never left. */
  lemma {:induction false} ClosedForGood(t: Tables, es: seq<Event>, i: nat)
    requires Legal(t, es) && i < |t.orders| && Closed(t.orders[i])
    ensures Handed(t, es, i) == []
    ensures i < |Run(t, es).orders| && Closed(Run(t, es).orders[i])
    ensures t.orders[i].state == Returned ==> Run(t, es).orders[i].state == Returned
    decreases |es|
  {
    if es != [] {
      StepKeepsClosed(t, es[0], i);
      ClosedForGood(Step(t, es[0]), es[1..], i);
    }
  }

  // --- at most two messages ----------------------------------------------------------

  /** This step promotes the reserve of order `i`. */
  predicate Promotes(t: Tables, e: Event, i: nat) {
    e.FallBack? && e.claim.order == i && MayFallBack(t, e.claim, e.profiles, e.returnCode)
  }

  predicate AllAre(messages: seq<string>, m: string) {
    forall k | 0 <= k < |messages| :: messages[k] == m
  }

  lemma MessageChangesOnlyByPromotion(t: Tables, e: Event, i: nat)
    requires Inv(t) && Enabled(t, e) && i < |t.orders|
    ensures i < |Step(t, e).orders|
    ensures !Promotes(t, e, i) ==> Step(t, e).orders[i].message == t.orders[i].message
    ensures Promotes(t, e, i) ==>
              && |t.attempts[i]| == 2 && t.attempts[i][0].message == t.orders[i].message
              && Step(t, e).orders[i].message == t.attempts[i][1].message
              && Step(t, e).orders[i].message.scheme == Normal
  {
    if RewritesOneRow(e) {
      OnlyTheTarget(t, e);
      if Target(t, e) == Some(i) { TargetStaysConsistent(t, e, i); }
    } else if Promotes(t, e, i) {
      ReserveIsSecond(t.orders[i], t.attempts[i]);
    }
  }

  /** A normal order has nothing to fall back to: it carries one message for ever. */
  lemma {:induction false} NormalKeepsItsMessage(t: Tables, es: seq<Event>, i: nat)
    requires Inv(t) && Legal(t, es) && i < |t.orders| && t.orders[i].message.scheme != Instant
    ensures AllAre(Handed(t, es, i), t.orders[i].message.msgId)
    ensures i < |Run(t, es).orders| && Run(t, es).orders[i].message == t.orders[i].message
    decreases |es|
  {
    if es != [] {
      StepKeepsInv(t, es[0]);
      MessageChangesOnlyByPromotion(t, es[0], i);
      NormalKeepsItsMessage(Step(t, es[0]), es[1..], i);
    }
  }

  /** The run hands out one message of order `i` only. */
  ghost predicate OneMessage(t: Tables, es: seq<Event>, i: nat)
    requires i < |t.orders|
  {
    AllAre(Handed(t, es, i), t.orders[i].message.msgId)
  }

  /** At step `k` the run replaces the message of order `i` by its reserve: before, only
      the first message is handed out; after, only the second, and they differ. The step
      is a `fall_back` whose every condition holds in the state it meets. */
  ghost predicate ReplacedAt(t: Tables, es: seq<Event>, i: nat, k: nat)
    requires i < |t.orders|
  {
    && k < |es|
    && i in t.attempts && |t.attempts[i]| == 2 && t.orders[i].requested == InstantOrNormal
    && var first := t.orders[i].message.msgId;
       var second := t.attempts[i][1].message.msgId;
       var before := Run(t, es[..k]);
       && first != second
       && Promotes(before, es[k], i)
       && AllAre(Handed(t, es[..k], i), first)
       && AllAre(Handed(Step(before, es[k]), es[k + 1..], i), second)
       && Handed(t, es, i) == Handed(t, es[..k], i) + Handed(Step(before, es[k]), es[k + 1..], i)
  }

  /** A step that is no promotion of `i` keeps the attempts of `i` and their messages. */
  lemma ReserveStays(t: Tables, e: Event, i: nat)
    requires i in t.attempts && i < |t.orders| && !Promotes(t, e, i)
    ensures i in Step(t, e).attempts && |Step(t, e).attempts[i]| == |t.attempts[i]|
    ensures forall n | 0 <= n < |t.attempts[i]| :: Step(t, e).attempts[i][n].message == t.attempts[i][n].message
  {
    if RewritesOneRow(e) { OnlyTheTarget(t, e); }
  }

  lemma ReplacedNow(t: Tables, es: seq<Event>, i: nat)
    requires Inv(t) && Legal(t, es) && i < |t.orders| && es != [] && Promotes(t, es[0], i)
    ensures ReplacedAt(t, es, i, 0)
  {
    StepKeepsInv(t, es[0]);
    MessageChangesOnlyByPromotion(t, es[0], i);
    NormalKeepsItsMessage(Step(t, es[0]), es[1..], i);
    assert es[..0] == [];
    assert MsgIdAt(t, i, 0) != MsgIdAt(t, i, 1);
    ReserveIsSecond(t.orders[i], t.attempts[i]);
    assert TakenBy(t, es[0]) == None;
  }

  lemma ReplacedLater(t: Tables, es: seq<Event>, i: nat, k: nat)
    requires i < |t.orders| && es != [] && !Promotes(t, es[0], i)
    requires i in t.attempts && |t.attempts[i]| == 2
    requires i < |Step(t, es[0]).orders| && Step(t, es[0]).orders[i].message == t.orders[i].message
    requires Step(t, es[0]).orders[i].requested == t.orders[i].requested
    requires i in Step(t, es[0]).attempts && |Step(t, es[0]).attempts[i]| == 2
    requires Step(t, es[0]).attempts[i][1].message == t.attempts[i][1].message
    requires ReplacedAt(Step(t, es[0]), es[1..], i, k)
    ensures ReplacedAt(t, es, i, k + 1)
  {
    assert es[..k + 1][1..] == es[1..][..k];
    assert es[1..][k] == es[k + 1];
    assert es[1..][k + 1..] == es[k + 2..];
  }

  lemma AnyOtherStep(t: Tables, es: seq<Event>, i: nat, k: nat)
    requires i < |t.orders| && i in t.attempts && es != [] && !Promotes(t, es[0], i)
    requires i < |Step(t, es[0]).orders| && Step(t, es[0]).orders[i].message == t.orders[i].message
    requires OneMessage(Step(t, es[0]), es[1..], i) || ReplacedAt(Step(t, es[0]), es[1..], i, k)
    ensures OneMessage(t, es, i) || ReplacedAt(t, es, i, k + 1)
  {
    if !OneMessage(Step(t, es[0]), es[1..], i) {
      ReserveStays(t, es[0], i);
      StepKeepsIdentity(t, es[0], i);
      ReplacedLater(t, es, i, k);
    }
  }

  /** Over any run with any number of reclaims, retries and replays, one order sends at
      most two messages: either one all along, or one until a single promotion and another
      from then on. */
  lemma {:induction false} AtMostTwoMessages(t: Tables, es: seq<Event>, i: nat) returns (k: nat)
    requires Inv(t) && Legal(t, es) && i < |t.orders|
    ensures OneMessage(t, es, i) || ReplacedAt(t, es, i, k)
    decreases |es|
  {
    k := 0;
    if es != [] {
      if Promotes(t, es[0], i) {
        ReplacedNow(t, es, i);
      } else {
        NoPromotion(t, es[0], i);
        var k' := AtMostTwoMessages(Step(t, es[0]), es[1..], i);
        AnyOtherStep(t, es, i, k');
        k := k' + 1;
      }
    }
  }

  lemma NoPromotion(t: Tables, e: Event, i: nat)
    requires Inv(t) && Enabled(t, e) && i < |t.orders| && !Promotes(t, e, i)
    ensures Inv(Step(t, e)) && i < |Step(t, e).orders| && Step(t, e).orders[i].message == t.orders[i].message
  {
    StepKeepsInv(t, e);
    MessageChangesOnlyByPromotion(t, e, i);
  }

  // --- an open transaction pins the message -------------------------------------------

  /** This step forgets the transaction of order `i`: an operator's replay takes effect, or
      a worker records that the bank assigned none. */
  predicate ForgetsTransaction(t: Tables, e: Event, i: nat)
    requires i < |t.orders|
  {
    || (e == Replay(i) && Replayable(t.orders[i]))
    || (e.Open? && e.claim.order == i && e.transactionId.None?)
  }

  predicate NothingForgotten(t: Tables, es: seq<Event>, i: nat)
    requires i < |t.orders|
    decreases |es|
  {
    es == [] || (!ForgetsTransaction(t, es[0], i)
                 && i < |Step(t, es[0]).orders| && NothingForgotten(Step(t, es[0]), es[1..], i))
  }

  lemma TransactionStays(t: Tables, e: Event, i: nat)
    requires i < |t.orders|
    requires t.orders[i].transactionId.Some? && !ForgetsTransaction(t, e, i)
    ensures !Promotes(t, e, i)
    ensures i < |Step(t, e).orders| && Step(t, e).orders[i].transactionId.Some?
  {
  }

  /** Once the bank has assigned a transaction, and until an operator replays the order, no
      run promotes a second message: all that is handed out is the message the bank may
      already have. */
  lemma {:induction false} OpenTransactionPinsMessage(t: Tables, es: seq<Event>, i: nat)
    requires Inv(t) && Legal(t, es) && i < |t.orders|
    requires t.orders[i].transactionId.Some? && NothingForgotten(t, es, i)
    ensures AllAre(Handed(t, es, i), t.orders[i].message.msgId)
    ensures i < |Run(t, es).orders| && Run(t, es).orders[i].message == t.orders[i].message
    decreases |es|
  {
    if es != [] {
      var t' := Step(t, es[0]);
      StepKeepsInv(t, es[0]);
      MessageChangesOnlyByPromotion(t, es[0], i);
      TransactionStays(t, es[0], i);
      OpenTransactionPinsMessage(t', es[1..], i);
      assert Run(t, es) == Run(t', es[1..]);
    }
  }

  lemma ReserveIsHeld(o: Order, rows: seq<Attempt>)
    requires Agrees(o, rows)
    ensures FirstIn(rows, Planned).Some? <==> o.requested == InstantOrNormal && o.message.scheme == Instant
  {
    if o.requested == InstantOrNormal && o.message.scheme == Instant { assert rows[1].state == Planned; }
  }

  /** A replay forgets the transaction but not the order id. Whatever made an order replayable,
      at its next claim it can send its second message exactly when it still holds a reserve,
      the code is a definitive refusal and no order id stands on the row: the transaction the
      bank did assign is no obstacle any more. */
  lemma ReplayReopensTheFallback(t: Tables, i: nat, worker: string, now: int, profiles: Profiles, returnCode: Option<string>)
    requires Inv(t) && i < |t.orders| && Replayable(t.orders[i])
    requires Candidate(Step(t, Replay(i)).orders, now, CLAIM_LEASE) == Some(i)
    ensures var t1 := Step(Step(t, Replay(i)), Claim(worker, now));
            var o := t.orders[i];
            && i < |t1.orders|
            && (Promotes(t1, FallBack(Claimed(i, t1.orders[i], worker, t1.orders[i].attempts, now), profiles, returnCode), i)
                <==> && profiles.RefusesInstant(returnCode) && o.bankOrderId.None?
                     && o.requested == InstantOrNormal && o.message.scheme == Instant)
  {
    ReserveIsHeld(t.orders[i], t.attempts[i]);
    ReplayedRow(t, i);
    PromotesOnceClaimed(Step(t, Replay(i)), i, worker, now, profiles, returnCode);
  }

  lemma ReplayedRow(t: Tables, i: nat)
    requires i < |t.orders| && Replayable(t.orders[i])
    ensures Step(t, Replay(i)) == t.(orders := t.orders[i := Replayed(t.orders[i])])
  {
  }

  lemma PromotesOnceClaimed(t: Tables, i: nat, worker: string, now: int, profiles: Profiles, returnCode: Option<string>)
    requires Candidate(t.orders, now, CLAIM_LEASE) == Some(i) && i in t.attempts
    ensures var t1 := Step(t, Claim(worker, now));
            var o := t.orders[i];
            && i < |t1.orders|
            && (Promotes(t1, FallBack(Claimed(i, t1.orders[i], worker, t1.orders[i].attempts, now), profiles, returnCode), i)
                <==> && profiles.RefusesInstant(returnCode) && o.message.scheme == Instant && FirstIn(t.attempts[i], Planned).Some?
                     && o.transactionId.None? && o.bankOrderId.None?)
  {
  }

  // --- the order id on the row ----------------------------------------------------------

  /** An open writes an order id only when the bank gave one; a submit always writes. */
  predicate WritesOrderId(e: Event, i: nat) {
    || (e.Submit? && e.claim.order == i)
    || (e.Open? && e.claim.order == i && e.bankOrderId.Some? && e.bankOrderId.value != "")
  }

  lemma OrderIdAfterStep(t: Tables, e: Event, i: nat)
    requires i < |t.orders|
    ensures i < |Step(t, e).orders|
    ensures Step(t, e).orders[i].bankOrderId == if WritesOrderId(e, i) then e.bankOrderId else t.orders[i].bankOrderId
  {
  }

  /** Over any run, replays and reports included, the order id on a row is the one its last
      writer wrote -- the `k`th event, counted from 1 -- or, if there was none, the one it
      had. */
  lemma {:induction false} OrderIdOnTheRow(t: Tables, es: seq<Event>, i: nat) returns (k: nat)
    requires i < |t.orders|
    ensures i < |Run(t, es).orders| && k <= |es| && forall j | k <= j < |es| :: !WritesOrderId(es[j], i)
    ensures k == 0 ==> Run(t, es).orders[i].bankOrderId == t.orders[i].bankOrderId
    ensures k > 0 ==> WritesOrderId(es[k - 1], i) && Run(t, es).orders[i].bankOrderId == es[k - 1].bankOrderId
    decreases |es|
  {
    k := 0;
    if es != [] {
      OrderIdAfterStep(t, es[0], i);
      var later := OrderIdOnTheRow(Step(t, es[0]), es[1..], i);
      k := if later > 0 then later + 1 else if WritesOrderId(es[0], i) then 1 else 0;
      assert forall j | 1 <= j < |es| :: es[j] == es[1..][j - 1];
    }
  }

  /** The held order is opened and given an order id, submitted without one, and refused by
      the bank's report. */
  function SubmittedAndRefused(c: Claimed, transactionId: string, bankOrderId: string, returnCode: Option<string>,
                               writtenAt: Option<int>): seq<Event> {
    [Open(c, Some(transactionId), Some(bankOrderId)), Submit(c, None, returnCode),
     Apply(c.order, Report(Some("RJCT"), [], writtenAt))]
  }

  lemma RefusedAfterSubmit(t: Tables, c: Claimed, transactionId: string, bankOrderId: string, returnCode: Option<string>,
                           writtenAt: Option<int>)
    requires c.order < |t.orders| && Holds(t.orders[c.order], c)
    ensures var es := SubmittedAndRefused(c, transactionId, bankOrderId, returnCode, writtenAt);
            var o, o' := t.orders[c.order], Run(t, es).orders;
            && Legal(t, es) && |o'| == |t.orders|
            && o'[c.order].state == Rejected && o'[c.order].bankOrderId.None?
            && o'[c.order].transactionId == Some(transactionId)
            && o'[c.order].requested == o.requested && o'[c.order].message == o.message
  {
    var e1, e2 := Open(c, Some(transactionId), Some(bankOrderId)), Submit(c, None, returnCode);
    var e3 := Apply(c.order, Report(Some("RJCT"), [], writtenAt));
    var t1 := Step(t, e1);
    var t2 := Step(t1, e2);
    assert Holds(t1.orders[c.order], c);
    RunFirst(t2, e3, [], 0);
    RunFirst(t1, e2, [e3], 0);
    RunFirst(t, e1, [e2, e3], 0);
    assert StatusReports.Resolve(Report(Some("RJCT"), [], writtenAt)) == Outcome(Some(Rejects), Some("RJCT"));
    assert SubmittedAndRefused(c, transactionId, bankOrderId, returnCode, writtenAt) == [e1] + ([e2] + [e3]);
  }

  /** So an order id the bank gave does not last: a submit without one takes it off the row,
      and after a refusal and a replay the next claim can fall back with every definitive
      code. */
  lemma SubmitTakesTheOrderIdAway(t: Tables, c: Claimed, transactionId: string, bankOrderId: string, returnCode: Option<string>,
                                  writtenAt: Option<int>, worker: string, now: int, profiles: Profiles, code: Option<string>)
    requires Inv(t) && c.order < |t.orders| && Holds(t.orders[c.order], c)
    requires t.orders[c.order].requested == InstantOrNormal && t.orders[c.order].message.scheme == Instant
    requires var t' := Run(t, SubmittedAndRefused(c, transactionId, bankOrderId, returnCode, writtenAt));
             Candidate(Step(t', Replay(c.order)).orders, now, CLAIM_LEASE) == Some(c.order)
    ensures var i := c.order;
            var es := SubmittedAndRefused(c, transactionId, bankOrderId, returnCode, writtenAt);
            var t1 := Step(Step(Run(t, es), Replay(i)), Claim(worker, now));
            && Legal(t, es) && i < |t1.orders|
            && (Promotes(t1, FallBack(Claimed(i, t1.orders[i], worker, t1.orders[i].attempts, now), profiles, code), i)
                <==> profiles.RefusesInstant(code))
  {
    var es := SubmittedAndRefused(c, transactionId, bankOrderId, returnCode, writtenAt);
    RefusedAfterSubmit(t, c, transactionId, bankOrderId, returnCode, writtenAt);
    RunKeepsInv(t, es);
    ReplayReopensTheFallback(Run(t, es), c.order, worker, now, profiles, code);
  }

  // --- how often one order is claimed ----------------------------------------------------

  /** A claim of an order that was queued, not one taken over from a worker that is gone. */
  predicate FreshClaim(t: Tables, e: Event, i: nat) {
    TakenBy(t, e) == Some(i) && t.orders[i].state == Accepted
  }

  function FreshClaims(t: Tables, es: seq<Event>, i: nat): nat
    decreases |es|
  {
    if es == [] then 0
    else (if FreshClaim(t, es[0], i) then 1 else 0) + FreshClaims(Step(t, es[0]), es[1..], i)
  }

  /** Claims taken over from a worker that was not heard from for a whole lease. */
  function LostClaims(t: Tables, es: seq<Event>, i: nat): nat
    decreases |es|
  {
    if es == [] then 0
    else (if TakenBy(t, es[0]) == Some(i) && t.orders[i].state == Submitting then 1 else 0)
         + LostClaims(Step(t, es[0]), es[1..], i)
  }

  function Replays(t: Tables, es: seq<Event>, i: nat): nat
    decreases |es|
  {
    if es == [] then 0
    else (if es[0] == Replay(i) && i < |t.orders| && Replayable(t.orders[i]) then 1 else 0)
         + Replays(Step(t, es[0]), es[1..], i)
  }

  /** Tries left: those of the live message, and a whole set more while a reserve is held. */
  function TriesLeft(t: Tables, i: nat): nat
    requires i < |t.orders|
  {
    var o := t.orders[i];
    (if |RowsOf(t, i)| == 2 && o.message.scheme == Instant then MAX_ATTEMPTS else 0)
    + if o.attempts < MAX_ATTEMPTS then MAX_ATTEMPTS - o.attempts else 0
  }

  lemma StepSpendsTries(t: Tables, e: Event, i: nat)
    requires Inv(t) && Enabled(t, e) && i < |t.orders|
    ensures i < |Step(t, e).orders|
    ensures TriesLeft(Step(t, e), i) + (if FreshClaim(t, e, i) then 1 else 0)
            <= TriesLeft(t, i) + if e == Replay(i) && Replayable(t.orders[i]) then MAX_ATTEMPTS else 0
  {
    if Promotes(t, e, i) {
      FallBackKeepsInv(t, e.claim, e.profiles, e.returnCode);
    } else {
      ReserveStays(t, e, i);
      MessageChangesOnlyByPromotion(t, e, i);
      AttemptsSpent(t, e, i);
    }
  }

  /** Only a replay and a promotion give attempts back; a fresh claim costs one. */
  lemma AttemptsSpent(t: Tables, e: Event, i: nat)
    requires i < |t.orders| && !Promotes(t, e, i)
    ensures i < |Step(t, e).orders|
    ensures Step(t, e).orders[i].attempts >= t.orders[i].attempts || (e == Replay(i) && Replayable(t.orders[i]))
    ensures FreshClaim(t, e, i) ==> Step(t, e).orders[i].attempts == t.orders[i].attempts + 1
  {
  }

  /** In any run an order is freshly claimed at most as often as it has tries left, plus a
      set of tries for every replay; every other claim took over from a lost worker. For a
      new order without replays or lost workers that is at most twice `MAX_ATTEMPTS`. */
  lemma {:induction false} ClaimsAreBounded(t: Tables, es: seq<Event>, i: nat)
    requires Inv(t) && Legal(t, es) && i < |t.orders|
    ensures |Handed(t, es, i)| == FreshClaims(t, es, i) + LostClaims(t, es, i)
    ensures FreshClaims(t, es, i) <= TriesLeft(t, i) + MAX_ATTEMPTS * Replays(t, es, i)
    ensures TriesLeft(t, i) <= 2 * MAX_ATTEMPTS
    decreases |es|
  {
    if es != [] {
      StepKeepsInv(t, es[0]);
      StepSpendsTries(t, es[0], i);
      ClaimsAreBounded(Step(t, es[0]), es[1..], i);
    }
  }

  /** After its last try any failure the holder reports is final. */
  lemma LastTryIsFinal(t: Tables, c: Claimed, returnCode: Option<string>, now: int)
    requires Inv(t) && Enabled(t, RetryLater(c, returnCode, now))
    ensures var o := Step(t, RetryLater(c, returnCode, now)).orders[c.order];
            && (o.state == Failed <==> t.orders[c.order].attempts >= MAX_ATTEMPTS)
            && (o.state == Accepted <==> t.orders[c.order].attempts < MAX_ATTEMPTS)
  {
  }

  /** `n` workers in a row that claim the same order and die. */
  function LostWorkers(n: nat, worker: string, from: int): seq<Event> {
    if n == 0 then [] else [Claim(worker, from)] + LostWorkers(n - 1, worker, from + CLAIM_LEASE + 1)
  }

  /** The ceiling is not met by losing workers: an order that is the only one in the table and
      is lost every time it is claimed is claimed without end. `attempts`
      counts those claims, but only a failure report compares it with the ceiling. */
  lemma {:induction false} LostWorkersAreUnbounded(t: Tables, n: nat, worker: string, from: int)
    requires |t.orders| == 1 && Claimable(t.orders[0], from, CLAIM_LEASE)
    ensures Legal(t, LostWorkers(n, worker, from))
    ensures |Handed(t, LostWorkers(n, worker, from), 0)| == n
    ensures |Run(t, LostWorkers(n, worker, from)).orders| == 1
    ensures Run(t, LostWorkers(n, worker, from)).orders[0].attempts == t.orders[0].attempts + n
    decreases n
  {
    if n > 0 {
      var t' := LostOnce(t, worker, from);
      RunFirst(t, Claim(worker, from), LostWorkers(n - 1, worker, from + CLAIM_LEASE + 1), 0);
      LostWorkersAreUnbounded(t', n - 1, worker, from + CLAIM_LEASE + 1);
    }
  }

  /** Claimed and not heard of for a lease, the order can be claimed again. */
  lemma LostOnce(t: Tables, worker: string, from: int) returns (t': Tables)
    requires |t.orders| == 1 && Claimable(t.orders[0], from, CLAIM_LEASE)
    ensures TakenBy(t, Claim(worker, from)) == Some(0)
    ensures t' == Step(t, Claim(worker, from))
    ensures && |t'.orders| == 1 && t'.orders[0].attempts == t.orders[0].attempts + 1
            && Claimable(t'.orders[0], from + CLAIM_LEASE + 1, CLAIM_LEASE)
  {
    t' := Step(t, Claim(worker, from));
    assert Candidate(t.orders, from, CLAIM_LEASE) == Some(0);
  }

  /** So it is from the start of the service: one order is accepted, and its workers die. */
  lemma LostFromTheStart(q: Request, profiles: Profiles, instruction: Instruction, first: Letter, second: Letter, n: nat,
                         worker: string, from: int)
    requires Schemes.Resolve(profiles, instruction).Success? && first.msgId != second.msgId
    ensures var es := [Accept(q, profiles, instruction, first, second)] + LostWorkers(n, worker, from);
            Legal(EMPTY, es) && |Handed(EMPTY, es, 0)| == n
  {
    var e := Accept(q, profiles, instruction, first, second);
    var t := Step(EMPTY, e);
    assert Insertable(EMPTY, q, Schemes.Resolve(profiles, instruction).value, first, second);
    LostWorkersAreUnbounded(t, n, worker, from);
    var es := [e] + LostWorkers(n, worker, from);
    assert es[1..] == LostWorkers(n, worker, from);
  }

  /** The run leaves the claim on order `i` as it is. */
  predicate ClaimStands(t: Tables, es: seq<Event>, i: nat)
    requires i < |t.orders|
    decreases |es|
  {
    es == [] || var t' := Step(t, es[0]);
                && i < |t'.orders| && t'.orders[i].state == Submitting && t'.orders[i].claimedAt == t.orders[i].claimedAt
                && ClaimStands(t', es[1..], i)
  }

  /** Two claims of one order with no outcome between them are more than a lease apart. */
  lemma {:induction false} ClaimsALeaseApart(t: Tables, worker: string, at: int, es: seq<Event>, other: string, now: int, i: nat)
    requires TakenBy(t, Claim(worker, at)) == Some(i)
    requires ClaimStands(Step(t, Claim(worker, at)), es, i)
    requires TakenBy(Run(Step(t, Claim(worker, at)), es), Claim(other, now)) == Some(i)
    ensures now - at > CLAIM_LEASE
  {
    ClaimStandsThrough(Step(t, Claim(worker, at)), es, i);
  }

  lemma {:induction false} ClaimStandsThrough(t: Tables, es: seq<Event>, i: nat)
    requires i < |t.orders| && t.orders[i].state == Submitting && ClaimStands(t, es, i)
    ensures var o := Run(t, es).orders;
            i < |o| && o[i].state == Submitting && o[i].claimedAt == t.orders[i].claimedAt
    decreases |es|
  {
    if es != [] { ClaimStandsThrough(Step(t, es[0]), es[1..], i); }
  }
}
