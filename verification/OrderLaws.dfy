/** What each step does to an order, in terms of what a caller sees afterwards: when the order
    is handed out again, which transaction stands on its row, and what ends it. */
module OrderLaws {
  import opened Wrappers
  import opened Schemes
  import opened StatusReports
  import opened Orders
  import opened OrderInvariant
  import opened OrderRuns

  /** The run leaves the row of order `i` as it is. */
  predicate Undisturbed(t: Tables, es: seq<Event>, i: nat)
    requires i < |t.orders|
    decreases |es|
  {
    es == [] || var t' := Step(t, es[0]);
                i < |t'.orders| && t'.orders[i] == t.orders[i] && Undisturbed(t', es[1..], i)
  }

  lemma {:induction false} StandsThrough(t: Tables, es: seq<Event>, i: nat)
    requires i < |t.orders| && Undisturbed(t, es, i)
    ensures i < |Run(t, es).orders| && Run(t, es).orders[i] == t.orders[i]
    decreases |es|
  {
    if es != [] { StandsThrough(Step(t, es[0]), es[1..], i); }
  }

  // --- when an order is handed out -------------------------------------------------------

  /** A claim takes order `i`, or an older one that is due too. */
  predicate TakesItOrOlder(t: Tables, worker: string, at: int, i: nat) {
    var taken := TakenBy(t, Claim(worker, at));
    taken.Some? && taken.value <= i
  }

  /** An order is handed out from the moment its wait is over: never before, and from then on
      it is only passed over for an older one. */
  ghost predicate HandedOutFrom(t: Tables, i: nat, due: int) {
    forall worker, at :: && (TakenBy(t, Claim(worker, at)) == Some(i) ==> at >= due)
                         && (at >= due ==> TakesItOrOlder(t, worker, at, i))
  }

  /** What the queue's rows say of the moment. */
  lemma DueFrom(t: Tables, i: nat, due: int)
    requires i < |t.orders|
    requires || (t.orders[i].state == Accepted && t.orders[i].nextAttemptAt == Some(due))
             || (t.orders[i].state == Submitting && t.orders[i].claimedAt == Some(due - CLAIM_LEASE - 1))
    ensures HandedOutFrom(t, i, due)
  {
  }

  /** A failed try is repeated after half a minute, two, ten, and then half an hour: not a
      second earlier, however the other orders move meanwhile. */
  lemma RetryWaits(t: Tables, c: Claimed, returnCode: Option<string>, now: int, es: seq<Event>)
    requires Enabled(t, RetryLater(c, returnCode, now)) && 1 <= c.attempts < MAX_ATTEMPTS
    requires Undisturbed(Step(t, RetryLater(c, returnCode, now)), es, c.order)
    ensures var wait := if c.attempts == 1 then 30 else if c.attempts == 2 then 120 else if c.attempts == 3 then 600 else 1800;
            HandedOutFrom(Run(Step(t, RetryLater(c, returnCode, now)), es), c.order, now + wait)
  {
    var t' := Step(t, RetryLater(c, returnCode, now));
    StandsThrough(t', es, c.order);
    DueFrom(Run(t', es), c.order, now + Backoff(c.attempts));
  }

  /** A claim nobody reports on is taken over after a quarter of an hour, not before. */
  lemma LostClaimIsTakenOver(t: Tables, worker: string, at: int, i: nat, es: seq<Event>)
    requires TakenBy(t, Claim(worker, at)) == Some(i)
    requires Undisturbed(Step(t, Claim(worker, at)), es, i)
    ensures Step(t, Claim(worker, at)).orders[i]
         == t.orders[i].(state := Submitting, workerId := Some(worker), claimedAt := Some(at), attempts := t.orders[i].attempts + 1)
    ensures HandedOutFrom(Run(Step(t, Claim(worker, at)), es), i, at + 15 * 60 + 1)
  {
    StandsThrough(Step(t, Claim(worker, at)), es, i);
    DueFrom(Run(Step(t, Claim(worker, at)), es), i, at + CLAIM_LEASE + 1);
  }

  /** The order waits for nothing. */
  ghost predicate DueAtOnce(t: Tables, i: nat) { forall worker, at :: TakesItOrOlder(t, worker, at, i) }

  /** A replayed order is due at once, with all its tries, its message and its order id, and
      without its transaction; and only a failed or rejected one is replayed. */
  lemma ReplayIsDueAtOnce(t: Tables, i: nat, es: seq<Event>)
    requires i < |t.orders|
    ensures var t' := Step(t, Replay(i));
            && (t.orders[i].state !in {Failed, Rejected} ==> t' == t)
            && (t.orders[i].state in {Failed, Rejected} ==>
                  && t'.orders[i].attempts == 0 && t'.orders[i].transactionId.None?
                  && t'.orders[i].message == t.orders[i].message && t'.orders[i].bankOrderId == t.orders[i].bankOrderId
                  && (Undisturbed(t', es, i) ==> DueAtOnce(Run(t', es), i)))
  {
    var t' := Step(t, Replay(i));
    if t.orders[i].state in {Failed, Rejected} {
      if Undisturbed(t', es, i) { StandsThrough(t', es, i); }
    } else {
      assert t.orders[i := t.orders[i]] == t.orders;
    }
  }

  /** An order that is over is never handed out. */
  lemma OverIsNeverHandedOut(t: Tables, i: nat, worker: string, at: int)
    requires i < |t.orders| && t.orders[i].state !in {Accepted, Submitting}
    ensures TakenBy(t, Claim(worker, at)) != Some(i)
  {
  }

  /** The three outcomes that end a claim for good, and what they leave. */
  lemma OutcomesEnd(t: Tables, c: Claimed, bankOrderId: Option<string>, returnCode: Option<string>, now: int)
    requires c.order < |t.orders| && Holds(t.orders[c.order], c)
    ensures var o := t.orders[c.order];
            var submitted := Step(t, Submit(c, bankOrderId, returnCode)).orders[c.order];
            var refused := Step(t, Refuse(c, returnCode)).orders[c.order];
            var retried := Step(t, RetryLater(c, returnCode, now)).orders[c.order];
            && submitted.state == Submitted && submitted.bankOrderId == bankOrderId && submitted.returnCode == returnCode
            && refused.state == Rejected && refused.bankOrderId == o.bankOrderId && refused.returnCode == returnCode
            && retried.state == (if c.attempts >= 5 then Failed else Accepted) && retried.returnCode == returnCode
            && forall o' | o' in {submitted, refused, retried} ::
                 && o'.workerId.None? && o'.claimedAt.None?
                 && o'.transactionId == o.transactionId && o'.message == o.message && o'.attempts == o.attempts
  {
  }

  // --- acceptance --------------------------------------------------------------------------

  /** An order as the bank has not seen it: what was asked for, the first letter as its
      message, and every other column empty. */
  predicate Newborn(o: Order, q: Request, d: Decision, first: Letter) {
    && o.connectionId == q.connectionId && o.idempotencyKey == q.idempotencyKey && o.fingerprint == q.fingerprint
    && o.controlSum == q.controlSum && o.currency == q.currency && o.requested == d.requested
    && o.message.msgId == first.msgId && o.message.document == first.document && o.message.scheme == d.effective
    && o.message.paymentInformationId
       == (if q.paymentInformationId.Some? then q.paymentInformationId.value else first.msgId)
    && o.attempts == 0 && o.transactionId.None? && o.bankOrderId.None? && o.bankStatus.None? && o.suspicion.raisedAt.None?
  }

  /** An order is accepted exactly when the scheme can be had, its key is new under its
      connection and no message id was used before. It starts due at once, with what was
      asked for, the first letter as its message and nothing from the bank. */
  lemma AcceptanceCreates(t: Tables, q: Request, profiles: Profiles, instruction: Instruction, first: Letter, second: Letter)
    ensures var d := Schemes.Resolve(profiles, instruction);
            var t' := Step(t, Accept(q, profiles, instruction, first, second));
            var free := && (forall j | 0 <= j < |t.orders| ::
                              t.orders[j].connectionId != q.connectionId || t.orders[j].idempotencyKey != q.idempotencyKey)
                        && (forall i, n | i in t.attempts && 0 <= n < |t.attempts[i]| :: t.attempts[i][n].message.msgId != first.msgId)
                        && (d.Success? && d.value.fallback.Some? ==>
                              first.msgId != second.msgId
                              && forall i, n | i in t.attempts && 0 <= n < |t.attempts[i]| :: t.attempts[i][n].message.msgId != second.msgId);
            && (!(d.Success? && free) ==> t' == t)
            && (d.Success? && free ==>
                  && |t'.orders| == |t.orders| + 1 && t'.orders[..|t.orders|] == t.orders
                  && Newborn(t'.orders[|t.orders|], q, d.value, first) && DueAtOnce(t', |t.orders|))
  {
  }

  /** A live attempt for the order's message, and one in reserve if there is a scheme to fall
      back to, with the second letter. */
  predicate StartsWith(rows: seq<Attempt>, message: Message, second: Letter, fallback: Option<Scheme>) {
    && |rows| == (if fallback.Some? then 2 else 1)
    && rows[0].state == Live && rows[0].message == message && rows[0].returnCode.None?
    && (fallback.Some? ==>
          && rows[1].state == Planned && rows[1].message.scheme == fallback.value
          && rows[1].message.msgId == second.msgId && rows[1].message.document == second.document)
  }

  /** The reserve an order is accepted with carries the second letter. */
  lemma AcceptanceKeepsAReserve(t: Tables, q: Request, profiles: Profiles, instruction: Instruction, first: Letter, second: Letter)
    requires var t' := Step(t, Accept(q, profiles, instruction, first, second)); |t'.orders| == |t.orders| + 1
    ensures var d := Schemes.Resolve(profiles, instruction);
            var t' := Step(t, Accept(q, profiles, instruction, first, second));
            && d.Success? && |t.orders| in t'.attempts
            && (forall i | i in t.attempts && i != |t.orders| :: i in t'.attempts && t'.attempts[i] == t.attempts[i])
            && StartsWith(t'.attempts[|t.orders|], t'.orders[|t.orders|].message, second, d.value.fallback)
  {
  }

  // --- the transaction on the row ----------------------------------------------------------

  /** Opening records what the bank assigned, whether or not an order id came with it. */
  lemma OpenRecords(t: Tables, c: Claimed, transactionId: Option<string>, bankOrderId: Option<string>)
    requires Enabled(t, Open(c, transactionId, bankOrderId))
    ensures var o, t' := t.orders[c.order], Step(t, Open(c, transactionId, bankOrderId));
            && t'.attempts == t.attempts && |t'.orders| == |t.orders|
            && (forall j | 0 <= j < |t.orders| && j != c.order :: t'.orders[j] == t.orders[j])
            && t'.orders[c.order]
               == o.(transactionId := transactionId,
                     bankOrderId := if bankOrderId in {None, Some("")} then o.bankOrderId else bankOrderId)
  {
  }

  /** An open writes the transaction; a replay that takes effect and a promotion clear it. */
  predicate WritesTransaction(t: Tables, e: Event, i: nat)
    requires i < |t.orders|
  {
    (e.Open? && e.claim.order == i) || (e == Replay(i) && t.orders[i].state in {Failed, Rejected}) || Promotes(t, e, i)
  }

  lemma TransactionAfterStep(t: Tables, e: Event, i: nat)
    requires i < |t.orders|
    ensures i < |Step(t, e).orders|
    ensures Step(t, e).orders[i].transactionId
         == if !WritesTransaction(t, e, i) then t.orders[i].transactionId else if e.Open? then e.transactionId else None
  {
  }

  /** Over any run, the transaction on a row is that of its last open, unless a replay or a
      promotion came later; `k` counts up to that last writer. */
  lemma {:induction false} TransactionOnTheRow(t: Tables, es: seq<Event>, i: nat) returns (k: nat)
    requires i < |t.orders|
    ensures i < |Run(t, es).orders| && k <= |es|
    ensures k == 0 ==> Run(t, es).orders[i].transactionId == t.orders[i].transactionId
    ensures k > 0 ==>
              && i < |Run(t, es[..k - 1]).orders| && WritesTransaction(Run(t, es[..k - 1]), es[k - 1], i)
              && Run(t, es).orders[i].transactionId == if es[k - 1].Open? then es[k - 1].transactionId else None
    ensures forall j | k <= j < |es| ::
              i < |Run(t, es[..j]).orders| && !WritesTransaction(Run(t, es[..j]), es[j], i)
    decreases |es|
  {
    k := 0;
    if es != [] {
      TransactionAfterStep(t, es[0], i);
      var later := TransactionOnTheRow(Step(t, es[0]), es[1..], i);
      k := if later > 0 then later + 1 else if WritesTransaction(t, es[0], i) then 1 else 0;
      assert es[..0] == [];
      forall j | 1 <= j <= |es| ensures Run(t, es[..j]) == Run(Step(t, es[0]), es[1..][..j - 1]) {
        assert es[..j] == [es[0]] + es[1..][..j - 1];
        RunFirst(t, es[0], es[1..][..j - 1], i);
      }
    }
  }

  /** From the moment the bank assigns a transaction, and as long as nothing forgets it, no
      step promotes the reserve and only the message it was opened with is handed out. */
  lemma OpenPinsTheMessage(t: Tables, c: Claimed, transactionId: string, bankOrderId: Option<string>, es: seq<Event>, n: nat)
    requires Inv(t) && Enabled(t, Open(c, Some(transactionId), bankOrderId))
    requires Legal(Step(t, Open(c, Some(transactionId), bankOrderId)), es) && n < |es|
    requires NothingForgotten(Step(t, Open(c, Some(transactionId), bankOrderId)), es, c.order)
    ensures var t' := Step(t, Open(c, Some(transactionId), bankOrderId));
            && AllAre(Handed(t', es, c.order), t.orders[c.order].message.msgId)
            && !Promotes(Run(t', es[..n]), es[n], c.order)
  {
    var e := Open(c, Some(transactionId), bankOrderId);
    OpenRecords(t, c, Some(transactionId), bankOrderId);
    StepKeepsInv(t, e);
    OpenTransactionPinsMessage(Step(t, e), es, c.order);
    NothingPromotes(Step(t, e), es, c.order, n);
  }

  lemma {:induction false} NothingPromotes(t: Tables, es: seq<Event>, i: nat, n: nat)
    requires i < |t.orders| && t.orders[i].transactionId.Some? && NothingForgotten(t, es, i) && n < |es|
    ensures !Promotes(Run(t, es[..n]), es[n], i)
    decreases |es|
  {
    TransactionStays(t, es[0], i);
    if n == 0 {
      assert es[..0] == [];
    } else {
      assert es[..n] == [es[0]] + es[1..][..n - 1];
      RunFirst(t, es[0], es[1..][..n - 1], i);
      NothingPromotes(Step(t, es[0]), es[1..], i, n - 1);
    }
  }

  // --- the fallback ----------------------------------------------------------------------------

  /** A fallback changes nothing unless the code is on the connection's list, the claiming
      worker still has the order, it is instant, the bank has neither transaction nor order
      id for it, and a reserve is held. */
  lemma FallBackNeedsEveryGuard(t: Tables, c: Claimed, profiles: Profiles, returnCode: Option<string>)
    requires Inv(t) && c.order < |t.orders| && c.row.message == t.orders[c.order].message
    ensures var o := t.orders[c.order];
            Step(t, FallBack(c, profiles, returnCode)) != t <==>
              && returnCode.Some? && returnCode.value != "" && returnCode.value in profiles.refusalCodes
              && o.state == Submitting && o.workerId == Some(c.worker)
              && o.requested == InstantOrNormal && o.message.scheme == Instant
              && o.transactionId.None? && o.bankOrderId.None?
  {
    ReserveIsHeld(t.orders[c.order], t.attempts[c.order]);
  }

  /** And when it does, the order is due at once with all its tries and the reserve's message;
      the refused attempt keeps the code it was refused with. */
  lemma PromotionHandsOver(t: Tables, c: Claimed, profiles: Profiles, returnCode: Option<string>, es: seq<Event>)
    requires Inv(t) && Promotes(t, FallBack(c, profiles, returnCode), c.order)
    ensures var i, t' := c.order, Step(t, FallBack(c, profiles, returnCode));
            var before, rows := t.attempts[i], t'.attempts[i];
            && |before| == 2 && |rows| == 2
            && t'.orders[i].message == before[1].message && t'.orders[i].attempts == 0 && t'.orders[i].returnCode == returnCode
            && rows[0] == before[0].(state := Superseded, returnCode := returnCode) && rows[1] == before[1].(state := Live)
            && (Undisturbed(t', es, i) ==> DueAtOnce(Run(t', es), i))
  {
    var i, t' := c.order, Step(t, FallBack(c, profiles, returnCode));
    ReserveIsSecond(t.orders[i], t.attempts[i]);
    if Undisturbed(t', es, i) { StandsThrough(t', es, i); }
  }

  /** An answer is written on the live attempt, and on no other. */
  lemma AnswerIsOnTheLiveAttempt(t: Tables, i: nat, returnCode: Option<string>, n: nat)
    requires Inv(t) && i < |t.orders| && n < |t.attempts[i]|
    ensures var rows := Step(t, Answer(i, returnCode)).attempts[i];
            && |rows| == |t.attempts[i]| && Step(t, Answer(i, returnCode)).orders == t.orders
            && rows[n] == if t.attempts[i][n].message.msgId == t.orders[i].message.msgId
                          then t.attempts[i][n].(returnCode := returnCode) else t.attempts[i][n]
  {
    var live := if t.attempts[i][0].state == Live then 0 else 1;
    assert t.attempts[i][live].message == t.orders[i].message;
    assert MsgIdAt(t, i, live) == MsgIdAt(t, i, n) ==> live == n;
  }

  // --- the bank and the operator ----------------------------------------------------------------

  /** What a group status does to a submitted order, code by code. Interim and unknown codes
      move nothing. */
  lemma GroupStatusDecides(t: Tables, i: nat, code: string, at: Option<int>)
    requires i < |t.orders| && t.orders[i].state == Submitted
    ensures var o := Step(t, Apply(i, Report(Some(code), [], at))).orders[i];
            if code in {"RJCT", "CANC"} then o.state == Rejected && o.bankStatus == Some(code)
            else if code in {"ACTC", "ACCP", "ACFC"} then o.state == Acknowledged && o.bankStatus == Some(code) && !Closed(o)
            else if code in {"ACSP", "ACSC", "ACCC", "ACWC", "ACWP", "ACPD", "PART", "PATC"}
            then o.state == Acknowledged && o.bankStatus == Some(code) && Closed(o)
            else o == t.orders[i]
    ensures var o := Step(t, Apply(i, Report(Some(code), [], at))).orders[i];
            o.state != Submitted ==> o.reportedAt == at && o.workerId.None? && o.message == t.orders[i].message
  {
    var r := Report(Some(code), [], at);
    assert StatusReports.Resolve(r).status == Some(code);
    CodeReads(code);
  }

  /** An acknowledged order moves again exactly when a refusal that is dated later than its
      acknowledgement meets one that only said the file was checked. */
  lemma RefusalRevokes(t: Tables, i: nat, code: string, at: Option<int>)
    requires i < |t.orders| && t.orders[i].state == Acknowledged
    ensures var o, o' := t.orders[i], Step(t, Apply(i, Report(Some(code), [], at))).orders[i];
            if && code in {"RJCT", "CANC"} && o.bankStatus in {Some("ACTC"), Some("ACCP"), Some("ACFC")}
               && o.reportedAt.Some? && at.Some? && o.reportedAt.value < at.value
            then o'.state == Rejected && o'.bankStatus == Some(code) && o'.reportedAt == at
            else o' == o
  {
    CodeReads(code);
    assert StatusReports.Resolve(Report(Some(code), [], at)).status == Some(code);
  }

  /** A report never moves an order that is being submitted, or is over in any other way. */
  lemma ReportsLeaveAlone(t: Tables, i: nat, report: Report)
    requires i < |t.orders| && t.orders[i].state in {Submitting, Rejected, Failed, Returned}
    ensures Step(t, Apply(i, report)).orders[i] == t.orders[i]
  {
  }

  lemma CodeReads(code: string)
    ensures var reading := DispositionOf(code);
            if code in {"RJCT", "CANC"} then reading == Some(Refuses)
            else if code in {"PART", "PATC"} then reading == Some(Partial)
            else if code in {"ACTC", "ACCP", "ACFC", "ACSP", "ACSC", "ACCC", "ACWC", "ACWP", "ACPD"} then reading == Some(Accepts)
            else reading in {None, Some(Undecided)}
  {
  }

  /** A booking returns an order exactly when the bank has it or took it and the booking is of
      the full sum, in its currency or in none. */
  lemma BookingReturns(t: Tables, i: nat, amount: Option<real>, currency: Option<string>)
    requires i < |t.orders|
    ensures var o, o' := t.orders[i], Step(t, Book(i, amount, currency)).orders[i];
            && (o'.state == Returned <==>
                  || o.state == Returned
                  || (&& o.state in {Submitted, Acknowledged} && amount == Some(o.controlSum)
                      && (currency == None || currency == Some("") || currency == Some(o.currency))))
            && (o'.state != Returned ==> o' == o)
  {
  }

  /** A first booking opens a suspicion, a second one leaves it as it is, and confirming it
      returns the order. */
  lemma SuspicionOpens(t: Tables, i: nat, entryRef: Option<string>, other: Option<string>, at: int, later: int)
    requires i < |t.orders| && t.orders[i].state in {Submitted, Acknowledged} && t.orders[i].suspicion.raisedAt.None?
    ensures var raised := Step(t, Suspect(i, entryRef, at));
            && Step(t, Confirm(i)) == t
            && raised.orders[i] == t.orders[i].(suspicion := Suspicion(Some(at), entryRef, None))
            && Step(raised, Suspect(i, other, later)) == raised
            && Step(raised, Confirm(i)).orders[i].state == Returned
  {
    var raised := Step(t, Suspect(i, entryRef, at));
    assert t.orders[i := t.orders[i]] == t.orders && raised.orders[i := raised.orders[i]] == raised.orders;
  }

  /** A person closes it without touching the order. The same booking then does not open it
      again, and another one does. */
  lemma SuspicionCloses(t: Tables, i: nat, entryRef: string, other: string, at: int, closed: int, later: int)
    requires i < |t.orders| && t.orders[i].state in {Submitted, Acknowledged}
    requires t.orders[i].suspicion == Suspicion(Some(at), Some(entryRef), None)
    ensures var dismissed := Step(t, Dismiss(i, closed));
            && dismissed.orders[i] == t.orders[i].(suspicion := Suspicion(Some(at), Some(entryRef), Some(closed)))
            && Step(dismissed, Confirm(i)) == dismissed && Step(dismissed, Suspect(i, Some(entryRef), later)) == dismissed
            && (other != entryRef ==> Step(dismissed, Suspect(i, Some(other), later)).orders[i].suspicion
                                      == Suspicion(Some(later), Some(other), None))
  {
    var dismissed := Step(t, Dismiss(i, closed));
    assert dismissed.orders[i := dismissed.orders[i]] == dismissed.orders;
  }

  /** And only an order the bank has or took can be suspected, confirmed or returned. */
  lemma OnlyTakenOrdersReturn(t: Tables, i: nat, entryRef: Option<string>, now: int)
    requires i < |t.orders| && t.orders[i].state !in {Submitted, Acknowledged}
    ensures Step(t, Suspect(i, entryRef, now)) == t && Step(t, Confirm(i)) == t
  {
    assert t.orders[i := t.orders[i]] == t.orders;
  }
}
