/** The same steps as they are taken: methods that rewrite rows of the two tables in place,
    each proved against its step. `OrderQueue`, `OrderStore`, the status reconciler and the
    return matcher all work on these two tables. */
module OrderTables {
  import opened Wrappers
  import opened Schemes
  import opened StatusReports
  import opened Orders

  class PaymentTables {
    var orders: seq<Order>
    var attempts: map<nat, seq<Attempt>>

    ghost function View(): Tables
      reads this
    {
      Tables(orders, attempts)
    }

    constructor ()
      ensures View() == EMPTY
    {
      orders, attempts := [], map[];
    }

    // --- the request path ------------------------------------------------------

    /** The documents of one order: the live one, and the reserve when the decision holds
        one, numbered from 1. */
    method Build(q: Request, d: Decision, letters: seq<Letter>) returns (rows: seq<Attempt>, live: Message)
      requires |letters| == 2
      ensures rows == InitialAttempts(q, d, letters[0], letters[1])
      ensures live == rows[0].message
    {
      var planned := [(d.effective, Live)];
      if d.fallback.Some? {
        planned := planned + [(d.fallback.value, Planned)];
      }
      rows := [];
      live := MessageOf(q, letters[0], d.effective);
      for number := 0 to |planned|
        invariant |rows| == number
        invariant forall k | 0 <= k < number ::
                    rows[k] == Attempt(planned[k].1, MessageOf(q, letters[k], planned[k].0), None)
        invariant live == MessageOf(q, letters[0], d.effective)
      {
        var (scheme, state) := planned[number];
        var message := MessageOf(q, letters[number], scheme);
        rows := rows + [Attempt(state, message, None)];
        if state == Live {
          live := message;
        }
      }
    }

    /** An order and its attempts go in together, or not at all when a unique constraint
        stands against them. */
    method Insert(q: Request, d: Decision, letters: seq<Letter>) returns (inserted: bool)
      requires |letters| == 2
      modifies this
      ensures inserted == Insertable(old(View()), q, d, letters[0], letters[1])
      ensures View() == if inserted then Inserted(old(View()), q, d, letters[0], letters[1]) else old(View())
    {
      var t := Tables(orders, attempts);
      inserted := Insertable(t, q, d, letters[0], letters[1]);
      if inserted {
        var rows, live := Build(q, d, letters);
        attempts := attempts[|orders| := rows];
        orders := orders + [InitialOrder(q, d, letters[0]).(message := live)];
      }
    }

    /** From `Failed` or `Rejected` to `Accepted`, with a fresh set of tries. */
    method Replay(i: nat) returns (ok: bool)
      modifies this`orders
      ensures ok <==> i < |old(orders)| && Replayable(old(orders[i]))
      ensures View() == Step(old(View()), Event.Replay(i))
    {
      ok := i < |orders| && orders[i].state in {Failed, Rejected};
      if ok {
        var o := orders[i];
        o := o.(state := Accepted, workerId := None, claimedAt := None);
        o := o.(nextAttemptAt := None, attempts := 0, transactionId := None);
        orders := orders[i := o];
      }
    }

    // --- the worker ----------------------------------------------------------------

    /** Claims the first row in table order that is due, or that a worker has held for longer
        than a lease. */
    method Claim(worker: string, now: int) returns (claimed: Option<Claimed>)
      modifies this`orders
      ensures View() == Step(old(View()), Event.Claim(worker, now))
      ensures claimed.None? ==> forall j | 0 <= j < |orders| :: !Claimable(orders[j], now, CLAIM_LEASE)
      ensures claimed.Some? ==>
                && TakenBy(old(View()), Event.Claim(worker, now)) == Some(claimed.value.order)
                && claimed.value.order < |orders|
                && claimed.value.row == orders[claimed.value.order]
                && Holds(orders[claimed.value.order], claimed.value)
    {
      var k := 0;
      while k < |orders| && !Claimable(orders[k], now, CLAIM_LEASE)
        invariant 0 <= k <= |orders|
        invariant forall j | 0 <= j < k :: !Claimable(orders[j], now, CLAIM_LEASE)
      {
        k := k + 1;
      }
      if k == |orders| {
        return None;
      }
      var o := orders[k];
      o := o.(state := Submitting, workerId := Some(worker), claimedAt := Some(now), attempts := o.attempts + 1);
      orders := orders[k := o];
      return Some(Claimed(k, o, worker, o.attempts, now));
    }

    /** Writes the transaction id, and an order id only when there is one. */
    method Opened(c: Claimed, transactionId: Option<string>, bankOrderId: Option<string>)
      requires Enabled(View(), Open(c, transactionId, bankOrderId))
      modifies this`orders
      ensures View() == Step(old(View()), Open(c, transactionId, bankOrderId))
      ensures c.order < |orders| && orders[c.order].transactionId == transactionId
      ensures bankOrderId.Some? && bankOrderId.value != "" ==> orders[c.order].bankOrderId == bankOrderId
    {
      var o := orders[c.order].(transactionId := transactionId);
      if bankOrderId.Some? && bankOrderId.value != "" {
        o := o.(bankOrderId := bankOrderId);
      }
      orders := orders[c.order := o];
    }

    /** A state outside the queue for the order, and the return code for its live attempt. */
    method Settle(c: Claimed, state: State, returnCode: Option<string>)
      requires c.order < |orders| && Holds(orders[c.order], c)
      modifies this
      ensures orders == old(orders)[c.order := Settled(old(orders[c.order]), state, returnCode)]
      ensures attempts == Step(old(View()), Answer(c.order, returnCode)).attempts
    {
      var o := orders[c.order].(state := state, workerId := None, claimedAt := None, nextAttemptAt := None);
      orders := orders[c.order := o.(returnCode := returnCode)];
      Answered(c.order, returnCode);
    }

    method Answered(i: nat, returnCode: Option<string>)
      modifies this`attempts
      ensures View() == Step(old(View()), Answer(i, returnCode))
    {
      if i in attempts {
        var rows := attempts[i];
        var written := [];
        for k := 0 to |rows|
          invariant |written| == k
          invariant forall j | 0 <= j < k :: written[j] == Orders.Answered(rows, returnCode)[j]
        {
          written := written + [if rows[k].state == Live then rows[k].(returnCode := returnCode) else rows[k]];
        }
        assert written == Orders.Answered(rows, returnCode);
        attempts := attempts[i := written];
      }
    }

    /** The bank took the file. */
    method Submitted(c: Claimed, bankOrderId: Option<string>, returnCode: Option<string>)
      requires Enabled(View(), Submit(c, bankOrderId, returnCode))
      modifies this
      ensures View() == Step(Step(old(View()), Submit(c, bankOrderId, returnCode)), Answer(c.order, returnCode))
    {
      Settle(c, State.Submitted, returnCode);
      orders := orders[c.order := orders[c.order].(bankOrderId := bankOrderId)];
    }

    /** A final refusal. */
    method Refused(c: Claimed, returnCode: Option<string>)
      requires Enabled(View(), Refuse(c, returnCode))
      modifies this
      ensures View() == Step(Step(old(View()), Refuse(c, returnCode)), Answer(c.order, returnCode))
    {
      Settle(c, State.Rejected, returnCode);
    }

    /** Below the ceiling the order is queued again behind its backoff; at the ceiling it fails. */
    method RetryLater(c: Claimed, returnCode: Option<string>, now: int)
      requires Enabled(View(), Event.RetryLater(c, returnCode, now))
      modifies this
      ensures c.attempts < MAX_ATTEMPTS ==> View() == Step(old(View()), Event.RetryLater(c, returnCode, now))
      ensures c.attempts >= MAX_ATTEMPTS ==>
                View() == Step(Step(old(View()), Event.RetryLater(c, returnCode, now)), Answer(c.order, returnCode))
    {
      if c.attempts >= MAX_ATTEMPTS {
          Settle(c, Failed, returnCode);
      } else {
        var wait := Backoff(c.attempts);
        var o := orders[c.order].(state := Accepted, workerId := None, claimedAt := None);
        o := o.(nextAttemptAt := Some(now + wait), returnCode := returnCode);
        orders := orders[c.order := o];
      }
    }

    /** The first attempt of an order in this state. */
    method FindAttempt(i: nat, state: AttemptState) returns (r: Option<nat>)
      ensures r == FirstIn(RowsOf(View(), i), state)
    {
      if i !in attempts {
        return None;
      }
      var rows := attempts[i];
      for k := 0 to |rows|
        invariant forall j | 0 <= j < k :: rows[j].state != state
      {
        if rows[k].state == state {
          return Some(k);
        }
      }
      return None;
    }

    /** The reserve becomes the live attempt exactly when every guard holds; otherwise nothing
        changes. */
    method FallBack(c: Claimed, profiles: Profiles, returnCode: Option<string>) returns (promoted: bool)
      modifies this
      ensures promoted == MayFallBack(old(View()), c, profiles, returnCode)
      ensures View() == Step(old(View()), Event.FallBack(c, profiles, returnCode))
    {
      if !profiles.RefusesInstant(returnCode) {
        return false;
      }
      if c.row.message.scheme != Instant {
        return false;
      }
      var reserve := FindAttempt(c.order, Planned);
      if reserve.None? || c.order >= |orders| {
        return false;
      }
      var rows := attempts[c.order];
      var o := orders[c.order];
      if !(o.state == Submitting && o.workerId == Some(c.worker) && o.message.scheme == Instant
           && o.transactionId.None? && o.bankOrderId.None?) {
        return false;
      }
      o := o.(state := Accepted, workerId := None, claimedAt := None, nextAttemptAt := None, transactionId := None);
      o := o.(attempts := 0, message := rows[reserve.value].message, returnCode := returnCode);
      orders := orders[c.order := o];
      var promotedRows := [];
      for k := 0 to |rows|
        invariant |promotedRows| == k
        invariant forall j | 0 <= j < k :: promotedRows[j] == Promoted(rows, reserve.value, returnCode)[j]
      {
        var row := rows[k];
        if row.state == Live {
          row := row.(state := Superseded, returnCode := returnCode);
        } else if k == reserve.value {
          row := row.(state := Live);
        }
        promotedRows := promotedRows + [row];
      }
      assert promotedRows == Promoted(rows, reserve.value, returnCode);
      attempts := attempts[c.order := promotedRows];
      return true;
    }

    // --- the bank and the operator -----------------------------------------------------

    /** One report applied: its guard fails when the order has already moved. */
    method Move(i: nat, report: Report) returns (moved: bool)
      modifies this`orders
      ensures moved <==> i < |old(orders)| && ReportMoves(old(orders)[i], StatusReports.Resolve(report), report.writtenAt)
      ensures View() == Step(old(View()), Apply(i, report))
    {
      var outcome := StatusReports.Resolve(report);
      if outcome.verdict.None? || i >= |orders| {
        return false;
      }
      var o := orders[i];
      var revoked := Revoked(o, outcome.verdict.value, report.writtenAt);
      moved := if revoked.None? then o.state in {Accepted, State.Submitted}
               else o.state == Acknowledged && o.bankStatus == revoked;
      if moved {
        o := o.(state := if outcome.verdict.value == Acknowledges then Acknowledged else Rejected);
        o := o.(bankStatus := outcome.status, reportedAt := report.writtenAt);
        o := o.(workerId := None, claimedAt := None, nextAttemptAt := None);
        orders := orders[i := o];
      }
    }

    /** A booked credit that names this order; only the whole sum moves it. */
    method Return(i: nat, amount: Option<real>, currency: Option<string>) returns (moved: bool)
      modifies this`orders
      ensures moved <==> i < |old(orders)| && Whole(old(orders)[i], amount, currency) && ReturnsFrom(old(orders)[i])
      ensures View() == Step(old(View()), Book(i, amount, currency))
    {
      if i >= |orders| {
        return false;
      }
      var o := orders[i];
      moved := Whole(o, amount, currency) && o.state in {State.Submitted, Acknowledged};
      if moved {
        orders := orders[i := o.(state := Returned, workerId := None, claimedAt := None, nextAttemptAt := None)];
      }
    }

    /** An open suspicion becomes a return. */
    method Confirm(i: nat) returns (ok: bool)
      modifies this`orders
      ensures ok <==> View() != old(View())
      ensures View() == Step(old(View()), Event.Confirm(i))
    {
      if i >= |orders| {
        return false;
      }
      var o := orders[i];
      ok := o.state in {State.Submitted, Acknowledged} && o.suspicion.raisedAt.Some? && o.suspicion.dismissedAt.None?;
      if ok {
        orders := orders[i := o.(state := Returned)];
      }
    }

    /** A suspicion is opened unless this booking already opened one. */
    method Raise(i: nat, entryRef: Option<string>, now: int) returns (raised: bool)
      modifies this`orders
      ensures raised <==> i < |old(orders)| && ReturnsFrom(old(orders)[i]) && Fresh(old(orders)[i].suspicion, entryRef)
      ensures View() == Step(old(View()), Suspect(i, entryRef, now))
    {
      if i >= |orders| {
        return false;
      }
      var o := orders[i];
      raised := o.state in {State.Submitted, Acknowledged} && Fresh(o.suspicion, entryRef);
      if raised {
        orders := orders[i := o.(suspicion := Suspicion(Some(now), entryRef, None))];
      }
    }

    /** An open suspicion is closed, and the order stays where it is. */
    method Dismiss(i: nat, now: int) returns (ok: bool)
      modifies this`orders
      ensures ok <==> i < |old(orders)| && OpenSuspicion(old(orders)[i]) && old(orders)[i].state != Returned
      ensures View() == Step(old(View()), Event.Dismiss(i, now))
    {
      if i >= |orders| {
        return false;
      }
      var o := orders[i];
      ok := o.suspicion.raisedAt.Some? && o.suspicion.dismissedAt.None? && o.state != Returned;
      if ok {
        o := o.(suspicion := o.suspicion.(dismissedAt := Some(now)));
        orders := orders[i := o];
      }
    }
  }
}
