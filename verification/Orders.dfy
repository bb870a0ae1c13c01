/** The payment order lifecycle: the order rows, the attempt rows beside them, and every
    step that reads or writes either, one database transaction at a time. */
module Orders {
  import opened Wrappers
  import opened Schemes
  import opened StatusReports

  /** Seconds a claim is good for. */
  const CLAIM_LEASE := 15 * 60

  /** Claims of one message before it is called undeliverable. */
  const MAX_ATTEMPTS := 5

  const BACKOFF: seq<nat> := [30, 120, 600, 1800]

  function Backoff(attempts: int): nat {
    var capped := if attempts < |BACKOFF| then attempts else |BACKOFF|;
    BACKOFF[if capped < 1 then 0 else capped - 1]
  }

  datatype State = Accepted | Submitting | Submitted | Rejected | Acknowledged | Failed | Returned

  datatype AttemptState = Planned | Live | Superseded

  /** One built message: what the bank deduplicates on, and the bytes it gets. */
  datatype Message = Message(msgId: string, paymentInformationId: string, document: string, scheme: Scheme)

  datatype Attempt = Attempt(state: AttemptState, message: Message, returnCode: Option<string>)

  /** A possible return, to be confirmed or dismissed. */
  datatype Suspicion = Suspicion(raisedAt: Option<int>, entryRef: Option<string>, dismissedAt: Option<int>)

  datatype Order = Order(
    connectionId: string, idempotencyKey: string, fingerprint: string, requested: Scheme,
    controlSum: real, currency: string,
    state: State, message: Message,
    workerId: Option<string>, claimedAt: Option<int>, nextAttemptAt: Option<int>, attempts: nat,
    transactionId: Option<string>, bankOrderId: Option<string>, returnCode: Option<string>,
    bankStatus: Option<string>, reportedAt: Option<int>,
    suspicion: Suspicion)

  /** What a claim hands the worker: the row as it was taken, and the claim's bookkeeping. */
  datatype Claimed = Claimed(order: nat, row: Order, worker: string, attempts: nat, claimedAt: int)

  /** The tables. A row's position is its order id; the attempts of an order stand in
      `attempt_no` order. */
  datatype Tables = Tables(orders: seq<Order>, attempts: map<nat, seq<Attempt>>)

  // --- claiming ---------------------------------------------------------------

  predicate Claimable(o: Order, now: int, lease: int) {
    || (o.state == Accepted && (o.nextAttemptAt.None? || o.nextAttemptAt.value <= now))
    || (o.state == Submitting && o.claimedAt.Some? && o.claimedAt.value < now - lease)
  }

  /** The oldest claimable order. */
  function Candidate(orders: seq<Order>, now: int, lease: int): (c: Option<nat>)
    ensures c.Some? ==> c.value < |orders| && Claimable(orders[c.value], now, lease)
                        && forall j | 0 <= j < c.value :: !Claimable(orders[j], now, lease)
    ensures c.None? ==> forall j | 0 <= j < |orders| :: !Claimable(orders[j], now, lease)
  {
    if orders == [] then None
    else
      var last := |orders| - 1;
      var earlier := Candidate(orders[..last], now, lease);
      if earlier.Some? then earlier
      else if Claimable(orders[last], now, lease) then Some(last)
      else None
  }

  function ClaimedRow(o: Order, worker: string, now: int): Order {
    o.(state := Submitting, workerId := Some(worker), claimedAt := Some(now), attempts := o.attempts + 1)
  }

  /** The caller of an outcome still holds the claim it was handed. */
  predicate Holds(o: Order, c: Claimed) {
    o.state == Submitting && o.workerId == Some(c.worker) && o.claimedAt == Some(c.claimedAt) && o.attempts == c.attempts
  }

  // --- outcomes ---------------------------------------------------------------

  function Opened(o: Order, transactionId: Option<string>, bankOrderId: Option<string>): Order {
    o.(transactionId := transactionId,
       bankOrderId := if bankOrderId.Some? && bankOrderId.value != "" then bankOrderId else o.bankOrderId)
  }

  function Settled(o: Order, state: State, returnCode: Option<string>): Order {
    o.(state := state, workerId := None, claimedAt := None, nextAttemptAt := None, returnCode := returnCode)
  }

  function Retried(o: Order, attempts: nat, returnCode: Option<string>, now: int): Order {
    if attempts >= MAX_ATTEMPTS then Settled(o, Failed, returnCode)
    else o.(state := Accepted, workerId := None, claimedAt := None,
            nextAttemptAt := Some(now + Backoff(attempts)), returnCode := returnCode)
  }

  /** The live attempt carries the bank's answer. */
  function Answered(rows: seq<Attempt>, returnCode: Option<string>): seq<Attempt> {
    seq(|rows|, k requires 0 <= k < |rows| =>
      if rows[k].state == Live then rows[k].(returnCode := returnCode) else rows[k])
  }

  // --- the fallback -------------------------------------------------------------

  /** The first attempt in this state, by attempt number. */
  function FirstIn(rows: seq<Attempt>, state: AttemptState): (r: Option<nat>)
    ensures r.Some? ==> r.value < |rows| && rows[r.value].state == state
                        && forall k | 0 <= k < r.value :: rows[k].state != state
    ensures r.None? ==> forall k | 0 <= k < |rows| :: rows[k].state != state
  {
    if rows == [] then None
    else
      var last := |rows| - 1;
      var earlier := FirstIn(rows[..last], state);
      if earlier.Some? then earlier else if rows[last].state == state then Some(last) else None
  }

  function RowsOf(t: Tables, i: nat): seq<Attempt> {
    if i in t.attempts then t.attempts[i] else []
  }

  /** Every guard of a fallback. */
  predicate MayFallBack(t: Tables, c: Claimed, codes: Profiles, returnCode: Option<string>) {
    && codes.RefusesInstant(returnCode)
    && c.row.message.scheme == Instant
    && FirstIn(RowsOf(t, c.order), Planned).Some?
    && c.order < |t.orders|
    && var o := t.orders[c.order];
       && o.state == Submitting && o.workerId == Some(c.worker) && o.message.scheme == Instant
       && o.transactionId.None? && o.bankOrderId.None?
  }

  function Promoted(rows: seq<Attempt>, reserve: nat, returnCode: Option<string>): seq<Attempt>
    requires reserve < |rows|
  {
    seq(|rows|, k requires 0 <= k < |rows| =>
      if rows[k].state == Live then rows[k].(state := Superseded, returnCode := returnCode)
      else if k == reserve then rows[k].(state := Live)
      else rows[k])
  }

  function FellBack(o: Order, reserve: Message, returnCode: Option<string>): Order {
    o.(state := Accepted, workerId := None, claimedAt := None, nextAttemptAt := None, transactionId := None,
       attempts := 0, message := reserve, returnCode := returnCode)
  }

  // --- operators and the bank --------------------------------------------------

  predicate Replayable(o: Order) { o.state in {Failed, Rejected} }

  function Replayed(o: Order): Order {
    o.(state := Accepted, workerId := None, claimedAt := None, nextAttemptAt := None, attempts := 0,
       transactionId := None)
  }

  /** A refusal overturns an acknowledgement that only says the file was checked, when both
      are dated and the refusal is later. */
  predicate Overturns(o: Order, verdict: Verdict, writtenAt: Option<int>) {
    && verdict == Rejects && writtenAt.Some?
    && o.state == Acknowledged && o.bankStatus.Some? && Revocable(o.bankStatus.value)
    && o.reportedAt.Some? && o.reportedAt.value < writtenAt.value
  }

  /** The status of the acknowledgement a refusal overturns, read before the update. */
  function Revoked(o: Order, verdict: Verdict, writtenAt: Option<int>): (r: Option<string>)
    ensures r.Some? <==> Overturns(o, verdict, writtenAt)
    ensures r.Some? ==> r == o.bankStatus
  {
    if verdict != Rejects || writtenAt.None? then None
    else if o.state != Acknowledged || o.bankStatus.None? || !Revocable(o.bankStatus.value)
            || o.reportedAt.None? || writtenAt.value <= o.reportedAt.value then None
    else o.bankStatus
  }

  predicate ReportMoves(o: Order, outcome: Outcome, writtenAt: Option<int>) {
    outcome.verdict.Some? &&
    (Overturns(o, outcome.verdict.value, writtenAt) || o.state in {Accepted, Submitted})
  }

  /** A verdict on the row, with the status and the date it rests on. */
  function Decided(o: Order, outcome: Outcome, writtenAt: Option<int>): Order {
    o.(state := if outcome.verdict == Some(Acknowledges) then Acknowledged else Rejected,
       bankStatus := outcome.status, reportedAt := writtenAt,
       workerId := None, claimedAt := None, nextAttemptAt := None)
  }

  function Reported(o: Order, outcome: Outcome, writtenAt: Option<int>): Order {
    if ReportMoves(o, outcome, writtenAt) then Decided(o, outcome, writtenAt) else o
  }

  predicate ReturnsFrom(o: Order) { o.state in {Submitted, Acknowledged} }

  /** The booking is of the order's full sum, in its currency or in none. */
  predicate Whole(o: Order, amount: Option<real>, currency: Option<string>) {
    && (currency.Some? && currency.value != "" ==> currency.value == o.currency)
    && amount == Some(o.controlSum)
  }

  function Booked(o: Order, amount: Option<real>, currency: Option<string>): Order {
    if Whole(o, amount, currency) && ReturnsFrom(o)
    then o.(state := Returned, workerId := None, claimedAt := None, nextAttemptAt := None)
    else o
  }

  /** May this booking raise a suspicion: none was raised, or the last one was dismissed
      and named another entry. An absent entry reference compares as unknown in SQL, so it
      is never another one. */
  predicate Fresh(s: Suspicion, entryRef: Option<string>) {
    || s.raisedAt.None?
    || (s.dismissedAt.Some? && s.entryRef.Some?
        && s.entryRef.value != if entryRef.Some? then entryRef.value else "")
  }

  function Suspected(o: Order, entryRef: Option<string>, now: int): Order {
    if ReturnsFrom(o) && Fresh(o.suspicion, entryRef)
    then o.(suspicion := Suspicion(Some(now), entryRef, None))
    else o
  }

  predicate OpenSuspicion(o: Order) { o.suspicion.raisedAt.Some? && o.suspicion.dismissedAt.None? }

  function Confirmed(o: Order): Order {
    if ReturnsFrom(o) && OpenSuspicion(o) then o.(state := Returned) else o
  }

  function Dismissed(o: Order, now: int): Order {
    if OpenSuspicion(o) && o.state != Returned
    then o.(suspicion := o.suspicion.(dismissedAt := Some(now)))
    else o
  }

  // --- acceptance -----------------------------------------------------------------

  /** The parts of a message that are minted at acceptance. */
  datatype Letter = Letter(msgId: string, document: string)

  datatype Request = Request(connectionId: string, idempotencyKey: string, fingerprint: string,
                             controlSum: real, currency: string, paymentInformationId: Option<string>)

  function MessageOf(q: Request, letter: Letter, scheme: Scheme): Message {
    Message(letter.msgId, if q.paymentInformationId.Some? then q.paymentInformationId.value else letter.msgId,
            letter.document, scheme)
  }

  /** The attempts an accepted order starts with: the live one, and its reserve if the
      decision holds one. */
  function InitialAttempts(q: Request, d: Decision, first: Letter, second: Letter): seq<Attempt> {
    [Attempt(Live, MessageOf(q, first, d.effective), None)] +
    if d.fallback.Some? then [Attempt(Planned, MessageOf(q, second, d.fallback.value), None)] else []
  }

  function InitialOrder(q: Request, d: Decision, first: Letter): Order {
    Order(q.connectionId, q.idempotencyKey, q.fingerprint, d.requested, q.controlSum, q.currency,
          Accepted, MessageOf(q, first, d.effective), None, None, None, 0, None, None, None, None, None,
          Suspicion(None, None, None))
  }

  predicate KeyTaken(t: Tables, connectionId: string, key: string) {
    exists j | 0 <= j < |t.orders| :: t.orders[j].connectionId == connectionId && t.orders[j].idempotencyKey == key
  }

  predicate MsgIdTaken(t: Tables, msgId: string) {
    exists i, n | i in t.attempts && 0 <= n < |t.attempts[i]| :: t.attempts[i][n].message.msgId == msgId
  }

  /** The unique constraints an insert meets: one order per connection and key, one attempt
      per message id. */
  predicate Insertable(t: Tables, q: Request, d: Decision, first: Letter, second: Letter) {
    && !KeyTaken(t, q.connectionId, q.idempotencyKey)
    && !MsgIdTaken(t, first.msgId)
    && (d.fallback.Some? ==> !MsgIdTaken(t, second.msgId) && first.msgId != second.msgId)
  }

  function Inserted(t: Tables, q: Request, d: Decision, first: Letter, second: Letter): Tables {
    Tables(t.orders + [InitialOrder(q, d, first)],
           t.attempts[|t.orders| := InitialAttempts(q, d, first, second)])
  }

  // --- one step ---------------------------------------------------------------------

  datatype Event =
    | Accept(request: Request, profiles: Profiles, instruction: Instruction, first: Letter, second: Letter)
    | Claim(worker: string, now: int)
    | Open(claim: Claimed, transactionId: Option<string>, bankOrderId: Option<string>)
    | Submit(claim: Claimed, bankOrderId: Option<string>, returnCode: Option<string>)
    | Refuse(claim: Claimed, returnCode: Option<string>)
    | RetryLater(claim: Claimed, returnCode: Option<string>, now: int)
    | Answer(order: nat, returnCode: Option<string>)
    | FallBack(claim: Claimed, profiles: Profiles, returnCode: Option<string>)
    | Replay(order: nat)
    | Apply(order: nat, report: Report)
    | Book(order: nat, amount: Option<real>, currency: Option<string>)
    | Suspect(order: nat, entryRef: Option<string>, now: int)
    | Confirm(order: nat)
    | Dismiss(order: nat, now: int)

  /** What an event makes of the row it is about. */
  function RowAfter(o: Order, e: Event): Order {
    match e
    case Claim(worker, now) => ClaimedRow(o, worker, now)
    case Open(_, transactionId, bankOrderId) => Opened(o, transactionId, bankOrderId)
    case Submit(_, bankOrderId, returnCode) => Settled(o, Submitted, returnCode).(bankOrderId := bankOrderId)
    case Refuse(_, returnCode) => Settled(o, Rejected, returnCode)
    case RetryLater(c, returnCode, now) => Retried(o, c.attempts, returnCode, now)
    case Replay(_) => if Replayable(o) then Replayed(o) else o
    case Apply(_, report) => Reported(o, StatusReports.Resolve(report), report.writtenAt)
    case Book(_, amount, currency) => Booked(o, amount, currency)
    case Suspect(_, entryRef, now) => Suspected(o, entryRef, now)
    case Confirm(_) => Confirmed(o)
    case Dismiss(_, now) => Dismissed(o, now)
    case _ => o
  }

  predicate Reports(e: Event) { e.Open? || e.Submit? || e.Refuse? || e.RetryLater? }

  /** Events that rewrite at most one order row and no attempt. */
  predicate RewritesOneRow(e: Event) { !e.Accept? && !e.FallBack? && !e.Answer? }

  /** The row such an event is about: for a claim, the oldest claimable one. */
  function Target(t: Tables, e: Event): Option<nat>
    requires RewritesOneRow(e)
  {
    if e.Claim? then Candidate(t.orders, e.now, CLAIM_LEASE) else if Reports(e) then Some(e.claim.order) else Some(e.order)
  }

  /** An `UPDATE ... WHERE order_id = i`: a missing row changes nothing. */
  function Rewritten(t: Tables, e: Event): Tables
    requires RewritesOneRow(e)
  {
    var i := Target(t, e);
    if i.Some? && i.value < |t.orders| then t.(orders := t.orders[i.value := RowAfter(t.orders[i.value], e)]) else t
  }

  function Step(t: Tables, e: Event): Tables {
    match e
    case Accept(q, profiles, instruction, first, second) =>
      var d := Schemes.Resolve(profiles, instruction);
      if d.Success? && Insertable(t, q, d.value, first, second) then Inserted(t, q, d.value, first, second) else t
    case Answer(i, returnCode) =>
      if i in t.attempts then t.(attempts := t.attempts[i := Answered(t.attempts[i], returnCode)]) else t
    case FallBack(c, profiles, returnCode) =>
      if MayFallBack(t, c, profiles, returnCode) then
        var rows := RowsOf(t, c.order);
        var reserve := FirstIn(rows, Planned).value;
        Tables(t.orders[c.order := FellBack(t.orders[c.order], rows[reserve].message, returnCode)],
               t.attempts[c.order := Promoted(rows, reserve, returnCode)])
      else t
    case _ => Rewritten(t, e)
  }

  /** The four outcomes that update by order id alone are reported by the worker that
      still holds the claim. Every other step carries its own guard. */
  predicate Enabled(t: Tables, e: Event) {
    Reports(e) ==> e.claim.order < |t.orders| && Holds(t.orders[e.claim.order], e.claim)
  }

  const EMPTY := Tables([], map[])

  // --- runs ----------------------------------------------------------------------------

  function Run(t: Tables, es: seq<Event>): Tables
    decreases |es|
  {
    if es == [] then t else Run(Step(t, es[0]), es[1..])
  }

  predicate Legal(t: Tables, es: seq<Event>)
    decreases |es|
  {
    es == [] || (Enabled(t, es[0]) && Legal(Step(t, es[0]), es[1..]))
  }

  /** The order a claim takes, if this event is a claim that takes one. */
  function TakenBy(t: Tables, e: Event): Option<nat> {
    if e.Claim? then Candidate(t.orders, e.now, CLAIM_LEASE) else None
  }

  /** The messages of order `i` that this run hands to workers, in order. */
  function Handed(t: Tables, es: seq<Event>, i: nat): seq<string>
    decreases |es|
  {
    if es == [] then []
    else (if TakenBy(t, es[0]) == Some(i) then [t.orders[i].message.msgId] else []) + Handed(Step(t, es[0]), es[1..], i)
  }

  lemma RunFirst(t: Tables, e: Event, rest: seq<Event>, i: nat)
    ensures Run(t, [e] + rest) == Run(Step(t, e), rest)
    ensures Legal(t, [e] + rest) <==> Enabled(t, e) && Legal(Step(t, e), rest)
    ensures Handed(t, [e] + rest, i)
         == (if TakenBy(t, e) == Some(i) then [t.orders[i].message.msgId] else []) + Handed(Step(t, e), rest, i)
  {
    assert ([e] + rest)[1..] == rest;
  }

  /** A run is its parts: the tables it leaves and whether it is legal ... */
  lemma {:induction false} RunSplits(t: Tables, a: seq<Event>, b: seq<Event>)
    ensures Run(t, a + b) == Run(Run(t, a), b)
    ensures Legal(t, a + b) <==> Legal(t, a) && Legal(Run(t, a), b)
    decreases |a|
  {
    if a == [] {
      assert a + b == b;
    } else {
      assert (a + b)[1..] == a[1..] + b;
      RunSplits(Step(t, a[0]), a[1..], b);
    }
  }

  /** ... and the messages it hands out. */
  lemma {:induction false} HandedSplits(t: Tables, a: seq<Event>, b: seq<Event>, i: nat)
    ensures Handed(t, a + b, i) == Handed(t, a, i) + Handed(Run(t, a), b, i)
    decreases |a|
  {
    if a == [] {
      assert a + b == b;
    } else {
      assert (a + b)[1..] == a[1..] + b;
      HandedSplits(Step(t, a[0]), a[1..], b, i);
    }
  }
}
