/** The dispatcher and the redelivery service as they run: methods that rewrite the
    delivery rows and the subscriptions in place, each proved against its step. */
module DeliveryTables {
  import opened Wrappers
  import opened Deliveries
  import DeliveryRuns

  class WebhookTables {
    var subscriptions: seq<Subscription>
    var rows: seq<Delivery>

    ghost function View(): Outbox
      reads this
    {
      Outbox(subscriptions, rows)
    }

    constructor (subscriptions: seq<Subscription>)
      ensures View() == Outbox(subscriptions, [])
    {
      this.subscriptions, rows := subscriptions, [];
    }

    /** Owe one event to every live subscription that asked for it, or refuse the whole
        event when one of them already has it. */
    method FanOut(fact: Fact, now: int) returns (ok: bool)
      modifies this`rows
      ensures ok == Recordable(old(View()), fact)
      ensures View() == Step(old(View()), Event.FanOut(fact, now))
    {
      var more := [];
      ok := true;
      for b := 0 to |subscriptions|
        invariant more == FannedOut(subscriptions, fact, now, b)
        invariant ok <==> forall j | 0 <= j < b && OwesTo(subscriptions[j], fact) :: !HasRow(rows, j, fact.eventId)
        invariant rows == old(rows)
      {
        if subscriptions[b].Live() && subscriptions[b].Wants(fact) {
          ok := ok && !HasRow(rows, b, fact.eventId);
          more := more + [NewRow(b, fact, now)];
        }
      }
      if ok {
        rows := rows + more;
      }
    }

    /** Is something earlier still owed to the subscription of row `k`? */
    method EarlierOwed(k: nat) returns (owed: bool)
      requires k < |rows|
      ensures owed == Overtakes(rows, k)
    {
      var j := 0;
      while j < k && !(rows[j].subscription == rows[k].subscription && rows[j].state in {Pending, Delivering})
        invariant 0 <= j <= k
        invariant forall i | 0 <= i < j :: !(rows[i].subscription == rows[k].subscription && Owed(rows[i]))
      {
        j := j + 1;
      }
      return j < k;
    }

    /** The row is queued and its wait is over, or it has been in flight for longer than five
        minutes. */
    static predicate OpenTo(d: Delivery, now: int) {
      || (d.state == Pending && (d.nextAttemptAt.Some? ==> d.nextAttemptAt.value <= now))
      || (d.state == Delivering && d.claimedAt.Some? && now - d.claimedAt.value > 5 * 60)
    }

    /** Claims the first row that is due under a live subscription with nothing earlier owed. */
    method Claim(now: int) returns (claimed: Option<Claimed>)
      modifies this`rows
      ensures View() == Step(old(View()), Event.Claim(now))
      ensures claimed.None? ==> forall k | 0 <= k < |rows| :: !Claimable(View(), k, now)
      ensures claimed.Some? ==> TakenBy(old(View()), Event.Claim(now)) == Some(claimed.value.row)
                                && claimed.value.row < |rows| && Holds(rows[claimed.value.row], claimed.value)
      ensures claimed.Some? ==> claimed.value.row < |old(rows)| && OpenTo(old(rows)[claimed.value.row], now)
    {
      for k := 0 to |rows|
        invariant rows == old(rows)
        invariant forall j | 0 <= j < k :: !Claimable(View(), j, now)
      {
        var d := rows[k];
        if Due(d, now) && d.subscription < |subscriptions| && subscriptions[d.subscription].Live() {
          var overtaking := EarlierOwed(k);
          if !overtaking {
            assert Claimable(View(), k, now);
            d := d.(state := Delivering, claimedAt := Some(now), attempts := d.attempts + 1);
            rows := rows[k := d];
            return Some(Claimed(k, d.attempts, now));
          }
        }
      }
      return None;
    }

    /** The endpoint took it: settle the row, then clear the subscription's count. */
    method Delivered(c: Claimed)
      requires Enabled(View(), Deliver(c))
      modifies this
      ensures View() == Step(Step(old(View()), Deliver(c)), Succeed(old(rows[c.row]).subscription))
    {
      rows := rows[c.row := rows[c.row].(state := State.Delivered, claimedAt := None)];
      var b := rows[c.row].subscription;
      if b < |subscriptions| {
        subscriptions := subscriptions[b := subscriptions[b].(failures := 0)];
      }
    }

    /** Below the ceiling the row is queued again behind its backoff; at the ceiling it fails,
        and the subscription is charged. */
    method RetryLater(c: Claimed, now: int)
      requires c.row < |rows| && Holds(rows[c.row], c)
      modifies this
      ensures c.attempts < MAX_ATTEMPTS ==> View() == Step(old(View()), Retry(c, now))
      ensures c.attempts >= MAX_ATTEMPTS ==>
                View() == Step(Step(old(View()), GiveUp(c)), CountFailure(old(rows[c.row]).subscription, now))
    {
      if c.attempts >= MAX_ATTEMPTS {
        rows := rows[c.row := rows[c.row].(state := Failed, claimedAt := None)];
        var b := rows[c.row].subscription;
        SubscriptionFailed(b, now);
      } else {
        var d := rows[c.row].(state := Pending, claimedAt := None);
        rows := rows[c.row := d.(nextAttemptAt := Some(now + Backoff(c.attempts)))];
      }
    }

    /** Charges one give-up, and at the limit parks the subscription with its queued rows. */
    method SubscriptionFailed(b: nat, now: int)
      modifies this
      ensures View() == Step(old(View()), CountFailure(b, now))
    {
      if b >= |subscriptions| {
        return;
      }
      var s := subscriptions[b];
      s := s.(failures := s.failures + 1);
      if s.failures >= PARK_AFTER {
        if s.parkedAt.None? {
          s := s.(parkedAt := Some(now));
        }
        var parked := [];
        for k := 0 to |rows|
          invariant |parked| == k && rows == old(rows)
          invariant forall j | 0 <= j < k :: parked[j] == ParkedRows(rows, b)[j]
        {
          var d := rows[k];
          if d.subscription == b && d.state == Pending {
            d := d.(state := Parked, claimedAt := None);
          }
          parked := parked + [d];
        }
        assert parked == ParkedRows(rows, b);
        rows := parked;
      }
      subscriptions := subscriptions[b := s];
    }

    /** Requeues one settled row of a live subscription that it belongs to. */
    method Redeliver(b: nat, k: nat, now: int) returns (ok: bool)
      modifies this`rows
      ensures ok <==> k < |old(rows)| && old(rows)[k].subscription == b && b < |subscriptions|
                      && subscriptions[b].Live() && Redeliverable(old(rows)[k])
      ensures View() == if ok then Step(old(View()), Event.Redeliver(k, now)) else old(View())
    {
      if k >= |rows| || rows[k].subscription != b || b >= |subscriptions| || !subscriptions[b].Live() {
        return false;
      }
      ok := Redeliverable(rows[k]);
      if ok {
        Requeue(k, now);
      }
    }

    method Requeue(k: nat, now: int)
      requires k < |rows|
      modifies this`rows
      ensures View() == Step(old(View()), Event.Redeliver(k, now))
    {
      if rows[k].state in {State.Delivered, Failed} {
        var d := rows[k].(state := Pending, attempts := 0);
        rows := rows[k := d.(nextAttemptAt := Some(now), claimedAt := None)];
      }
    }

    /** The row subscription `b` holds for this event, if it has one. */
    method FindRow(b: nat, eventId: string, bound: nat) returns (r: Option<nat>)
      requires bound <= |rows|
      ensures r.Some? ==> r.value < bound && rows[r.value].subscription == b && rows[r.value].eventId == eventId
      ensures r.None? ==> forall k | 0 <= k < bound :: !(rows[k].subscription == b && rows[k].eventId == eventId)
    {
      for k := 0 to bound
        invariant forall j | 0 <= j < k :: !(rows[j].subscription == b && rows[j].eventId == eventId)
      {
        if rows[k].subscription == b && rows[k].eventId == eventId {
          return Some(k);
        }
      }
      return None;
    }

    /** One row per subscription and event. */
    ghost predicate OneRowEach()
      reads this`rows
    {
      RowsDistinct(rows)
    }

    static ghost predicate RowsDistinct(rows: seq<Delivery>) {
      forall j, k | 0 <= j < k < |rows| :: !(rows[j].subscription == rows[k].subscription && rows[j].eventId == rows[k].eventId)
    }

    /** Subscription `b` has a row for this event that is not over. */
    static ghost predicate Reached(rows: seq<Delivery>, b: int, eventId: string) {
      exists k :: 0 <= k < |rows| && rows[k].subscription == b && rows[k].eventId == eventId && !DeliveryRuns.Over(rows[k])
    }

    /** Whatever became of the event before, every live subscription that asked for it ends
        with a row for it that is not over, and still with one row per event. Rows of other
        events are not touched, and `queued` counts the rows put back or added. */
    method ResendOrder(fact: Fact, now: int) returns (queued: nat)
      requires OneRowEach()
      modifies this`rows
      ensures OneRowEach()
      ensures |old(rows)| <= |rows|
      ensures forall k | 0 <= k < |old(rows)| :: rows[k] == old(rows)[k] || rows[k] == Requeued(old(rows)[k], now)
      ensures forall k | 0 <= k < |old(rows)| && old(rows)[k].eventId != fact.eventId :: rows[k] == old(rows)[k]
      ensures forall b | 0 <= b < |subscriptions| && OwesTo(subscriptions[b], fact) :: Reached(rows, b, fact.eventId)
      ensures queued == |rows| - |old(rows)| + |set k | 0 <= k < |old(rows)| && rows[k] != old(rows)[k]|
    {
      queued := 0;
      ghost var before := rows;
      ghost var requeued: set<int> := {};
      var missing: seq<Delivery> := [];
      for b := 0 to |subscriptions|
        invariant Served(subscriptions, before, rows, requeued, missing, b, fact, now)
        invariant queued == |requeued|
      {
        if subscriptions[b].Live() && subscriptions[b].Wants(fact) {
          var held := FindRow(b, fact.eventId, |rows|);
          if held.None? {
            ServedByAdding(subscriptions, before, rows, requeued, missing, b, fact, now);
            missing := missing + [NewRow(b, fact, now)];
          } else if Redeliverable(rows[held.value]) {
            ServedByRequeueing(subscriptions, before, rows, requeued, missing, b, held.value, fact, now);
            Requeue(held.value, now);
            requeued := requeued + {held.value};
            queued := queued + 1;
          } else {
            assert Reached(rows, b, fact.eventId);
            ServedAlready(subscriptions, before, rows, requeued, missing, b, fact, now);
          }
        } else {
          ServedAlready(subscriptions, before, rows, requeued, missing, b, fact, now);
        }
      }
      ghost var kept := rows;
      rows := rows + missing;
      queued := queued + |missing|;
      Joined(before, kept, requeued, missing, |subscriptions|, fact, now);
      RequeuedAreChanged(before, kept, requeued, missing, |subscriptions|, fact, now);
    }

    /** Where the service stands after the first `b` subscriptions. */
    static ghost predicate Served(subscriptions: seq<Subscription>, before: seq<Delivery>, rows: seq<Delivery>, requeued: set<int>,
                                  missing: seq<Delivery>, b: nat, fact: Fact, now: int) {
      && b <= |subscriptions|
      && RequeuedExactly(before, rows, requeued, b, fact, now)
      && MissingRows(before, missing, b, fact, now)
      && forall a | 0 <= a < b && OwesTo(subscriptions[a], fact) ::
           Reached(rows, a, fact.eventId) || Reached(missing, a, fact.eventId)
    }

    static lemma ServedAlready(subscriptions: seq<Subscription>, before: seq<Delivery>, rows: seq<Delivery>, requeued: set<int>,
                               missing: seq<Delivery>, b: nat, fact: Fact, now: int)
      requires Served(subscriptions, before, rows, requeued, missing, b, fact, now) && b < |subscriptions|
      requires OwesTo(subscriptions[b], fact) ==> Reached(rows, b, fact.eventId)
      ensures Served(subscriptions, before, rows, requeued, missing, b + 1, fact, now)
    {
      SoFarWidens(before, rows, requeued, missing, b, fact, now);
    }

    static lemma ServedByAdding(subscriptions: seq<Subscription>, before: seq<Delivery>, rows: seq<Delivery>, requeued: set<int>,
                                missing: seq<Delivery>, b: nat, fact: Fact, now: int)
      requires Served(subscriptions, before, rows, requeued, missing, b, fact, now) && b < |subscriptions|
      requires forall k | 0 <= k < |rows| :: !(rows[k].subscription == b && rows[k].eventId == fact.eventId)
      ensures Served(subscriptions, before, rows, requeued, missing + [NewRow(b, fact, now)], b + 1, fact, now)
    {
      SoFarWidens(before, rows, requeued, missing, b, fact, now);
      assert forall k | 0 <= k < |before| :: before[k].subscription == rows[k].subscription && before[k].eventId == rows[k].eventId;
      MissingGrows(before, missing, missing + [NewRow(b, fact, now)], b, fact, now);
    }

    static lemma ServedByRequeueing(subscriptions: seq<Subscription>, before: seq<Delivery>, rows: seq<Delivery>, requeued: set<int>,
                                    missing: seq<Delivery>, b: nat, k: nat, fact: Fact, now: int)
      requires Served(subscriptions, before, rows, requeued, missing, b, fact, now) && b < |subscriptions|
      requires k < |rows| && rows[k].subscription == b && rows[k].eventId == fact.eventId && Redeliverable(rows[k])
      ensures k !in requeued
      ensures Served(subscriptions, before, rows[k := Requeued(rows[k], now)], requeued + {k}, missing, b + 1, fact, now)
    {
      SoFarWidens(before, rows, requeued, missing, b, fact, now);
      RequeueReaches(rows, rows[k := Requeued(rows[k], now)], k, now);
      RequeuedGrows(before, rows, requeued, k, b, fact, now);
    }

    static lemma SoFarWidens(before: seq<Delivery>, rows: seq<Delivery>, requeued: set<int>, missing: seq<Delivery>, b: nat, fact: Fact, now: int)
      requires RequeuedExactly(before, rows, requeued, b, fact, now) && MissingRows(before, missing, b, fact, now)
      ensures RequeuedExactly(before, rows, requeued, b + 1, fact, now) && MissingRows(before, missing, b + 1, fact, now)
    {
    }

    static lemma RequeuedGrows(before: seq<Delivery>, rows: seq<Delivery>, requeued: set<int>, k: nat, b: nat, fact: Fact, now: int)
      requires RequeuedExactly(before, rows, requeued, b, fact, now)
      requires k < |rows| && rows[k].subscription == b && rows[k].eventId == fact.eventId && Redeliverable(rows[k])
      ensures k !in requeued
      ensures RequeuedExactly(before, rows[k := Requeued(rows[k], now)], requeued + {k}, b + 1, fact, now)
    {
    }

    static lemma RequeuedAreChanged(before: seq<Delivery>, kept: seq<Delivery>, requeued: set<int>, missing: seq<Delivery>, b: nat, fact: Fact, now: int)
      requires RequeuedExactly(before, kept, requeued, b, fact, now)
      ensures var rows := kept + missing;
              && |before| <= |rows| && requeued == (set k | 0 <= k < |before| && rows[k] != before[k])
              && (forall k | 0 <= k < |before| :: rows[k] == before[k] || rows[k] == Requeued(before[k], now))
              && (forall k | 0 <= k < |before| && before[k].eventId != fact.eventId :: rows[k] == before[k])
    {
      var rows := kept + missing;
      assert forall k | 0 <= k < |before| :: rows[k] == kept[k];
    }

    /** The rows put back so far: of this event, of the subscriptions already served. */
    static ghost predicate RequeuedExactly(before: seq<Delivery>, rows: seq<Delivery>, requeued: set<int>, b: nat, fact: Fact, now: int) {
      && |rows| == |before|
      && (forall k | 0 <= k < |rows| :: rows[k] == if k in requeued then Requeued(before[k], now) else before[k])
      && (forall k | k in requeued :: 0 <= k < |before| && before[k].subscription < b
                                      && before[k].eventId == fact.eventId && Redeliverable(before[k]))
    }

    /** The rows to add so far: one each for subscriptions that hold none. */
    static ghost predicate MissingRows(before: seq<Delivery>, missing: seq<Delivery>, b: nat, fact: Fact, now: int) {
      && (forall j | 0 <= j < |missing| ::
            missing[j] == NewRow(missing[j].subscription, fact, now) && missing[j].subscription < b)
      && (forall j, k | 0 <= j < k < |missing| :: missing[j].subscription < missing[k].subscription)
      && (forall j, k | 0 <= j < |missing| && 0 <= k < |before| ::
            !(before[k].subscription == missing[j].subscription && before[k].eventId == fact.eventId))
    }

    static lemma MissingGrows(before: seq<Delivery>, shorter: seq<Delivery>, missing: seq<Delivery>, b: nat, fact: Fact, now: int)
      requires MissingRows(before, shorter, b, fact, now)
      requires missing == shorter + [NewRow(b, fact, now)]
      requires forall k | 0 <= k < |before| :: !(before[k].subscription == b && before[k].eventId == fact.eventId)
      ensures MissingRows(before, missing, b + 1, fact, now)
      ensures Reached(missing, b, fact.eventId)
      ensures forall a | Reached(shorter, a, fact.eventId) :: Reached(missing, a, fact.eventId)
    {
      assert missing[|shorter|] == NewRow(b, fact, now);
      forall a | Reached(shorter, a, fact.eventId) ensures Reached(missing, a, fact.eventId) {
        var k :| 0 <= k < |shorter| && shorter[k].subscription == a && shorter[k].eventId == fact.eventId
                 && !DeliveryRuns.Over(shorter[k]);
        assert missing[k] == shorter[k];
      }
    }

    static lemma RequeueReaches(earlier: seq<Delivery>, later: seq<Delivery>, k: nat, now: int)
      requires k < |earlier| && later == earlier[k := Requeued(earlier[k], now)] && Redeliverable(earlier[k])
      ensures Reached(later, earlier[k].subscription, earlier[k].eventId)
      ensures forall a, eventId | Reached(earlier, a, eventId) :: Reached(later, a, eventId)
    {
      assert later[k] == Requeued(earlier[k], now);
      forall a, eventId | Reached(earlier, a, eventId) ensures Reached(later, a, eventId) {
        var j :| 0 <= j < |earlier| && earlier[j].subscription == a && earlier[j].eventId == eventId
                 && !DeliveryRuns.Over(earlier[j]);
        assert later[j] == earlier[j];
      }
    }

    static lemma Joined(before: seq<Delivery>, kept: seq<Delivery>, requeued: set<int>, missing: seq<Delivery>, b: nat, fact: Fact, now: int)
      requires RequeuedExactly(before, kept, requeued, b, fact, now) && MissingRows(before, missing, b, fact, now)
      requires RowsDistinct(before)
      ensures RowsDistinct(kept + missing)
      ensures forall a | Reached(kept, a, fact.eventId) || Reached(missing, a, fact.eventId) ::
                Reached(kept + missing, a, fact.eventId)
    {
      var all := kept + missing;
      forall j, k | 0 <= j < k < |all|
        ensures !(all[j].subscription == all[k].subscription && all[j].eventId == all[k].eventId)
      {
        assert j < |kept| ==> all[j].subscription == before[j].subscription && all[j].eventId == before[j].eventId;
        assert k < |kept| ==> all[k].subscription == before[k].subscription && all[k].eventId == before[k].eventId;
      }
      forall a | Reached(kept, a, fact.eventId) || Reached(missing, a, fact.eventId)
        ensures Reached(all, a, fact.eventId)
      {
        if Reached(kept, a, fact.eventId) {
          var k :| 0 <= k < |kept| && kept[k].subscription == a && kept[k].eventId == fact.eventId && !DeliveryRuns.Over(kept[k]);
          assert all[k] == kept[k];
        } else {
          var j :| 0 <= j < |missing| && missing[j].subscription == a && missing[j].eventId == fact.eventId
                   && !DeliveryRuns.Over(missing[j]);
          assert all[|kept| + j] == missing[j];
        }
      }
    }
  }
}
