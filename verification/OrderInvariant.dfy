/** What every reachable state of the order tables keeps: each order agrees with its
    attempts, and no message id is used twice. */
module OrderInvariant {
  import opened Wrappers
  import opened Schemes
  import opened Orders

  /** An order and its attempt rows are one fact. Either the first attempt is live, with a
      reserve exactly while the order may still fall back; or it was refused and replaced
      by the second. */
  predicate Agrees(o: Order, rows: seq<Attempt>) {
    || (&& 1 <= |rows| <= 2
        && rows[0].state == Live && rows[0].message == o.message
        && (|rows| == 2 <==> o.requested == InstantOrNormal && o.message.scheme == Instant)
        && (|rows| == 2 ==> rows[1].state == Planned && rows[1].message.scheme == Normal))
    || (&& |rows| == 2 && o.requested == InstantOrNormal
        && rows[0].state == Superseded && rows[0].message.scheme == Instant
        && rows[1].state == Live && rows[1].message == o.message && o.message.scheme == Normal)
  }

  /** The claim columns are set exactly while the order is being submitted, and an order
      back on the queue still has a try left. */
  predicate ClaimColumns(o: Order) {
    && (o.state == Submitting <==> o.claimedAt.Some?)
    && (o.claimedAt.Some? <==> o.workerId.Some?)
    && (o.state == Accepted ==> o.attempts < MAX_ATTEMPTS)
    && (o.state == Submitting ==> o.attempts >= 1)
  }

  function MsgIdAt(t: Tables, i: nat, n: nat): string
    requires i in t.attempts && n < |t.attempts[i]|
  {
    t.attempts[i][n].message.msgId
  }

  ghost predicate DistinctMsgIds(t: Tables) {
    forall i, n, j, m | i in t.attempts && 0 <= n < |t.attempts[i]| && j in t.attempts && 0 <= m < |t.attempts[j]| ::
      MsgIdAt(t, i, n) == MsgIdAt(t, j, m) ==> i == j && n == m
  }

  ghost predicate DistinctKeys(t: Tables) {
    forall i, j :: 0 <= i < j < |t.orders| ==>
      !(t.orders[i].connectionId == t.orders[j].connectionId && t.orders[i].idempotencyKey == t.orders[j].idempotencyKey)
  }

  ghost predicate Inv(t: Tables) {
    && (forall i: nat :: i in t.attempts <==> i < |t.orders|)
    && (forall i | 0 <= i < |t.orders| :: Agrees(t.orders[i], t.attempts[i]) && ClaimColumns(t.orders[i]))
    && DistinctMsgIds(t)
    && DistinctKeys(t)
  }

  /** The columns fixed at acceptance. */
  predicate SameIdentity(a: Order, b: Order) {
    && a.connectionId == b.connectionId && a.idempotencyKey == b.idempotencyKey && a.fingerprint == b.fingerprint
    && a.requested == b.requested && a.controlSum == b.controlSum && a.currency == b.currency
  }

  /** Attempts that keep their message ids keep them distinct. */
  lemma DistinctKept(t: Tables, t': Tables, i: nat, rows: seq<Attempt>)
    requires DistinctMsgIds(t) && i in t.attempts && |rows| == |t.attempts[i]|
    requires t'.attempts == t.attempts[i := rows]
    requires forall n | 0 <= n < |rows| :: rows[n].message.msgId == MsgIdAt(t, i, n)
    ensures DistinctMsgIds(t')
  {
    forall a, n, b, m | a in t'.attempts && 0 <= n < |t'.attempts[a]| && b in t'.attempts && 0 <= m < |t'.attempts[b]|
                        && MsgIdAt(t', a, n) == MsgIdAt(t', b, m)
      ensures a == b && n == m
    {
      assert MsgIdAt(t, a, n) == MsgIdAt(t, b, m);
    }
  }

  lemma DistinctKeysKept(t: Tables, t': Tables)
    requires DistinctKeys(t) && |t'.orders| == |t.orders|
    requires forall i | 0 <= i < |t.orders| :: SameIdentity(t'.orders[i], t.orders[i])
    ensures DistinctKeys(t')
  {
    forall i, j | 0 <= i < j < |t'.orders|
      ensures !(t'.orders[i].connectionId == t'.orders[j].connectionId && t'.orders[i].idempotencyKey == t'.orders[j].idempotencyKey)
    {
      assert SameIdentity(t'.orders[i], t.orders[i]) && SameIdentity(t'.orders[j], t.orders[j]);
    }
  }

  /** Rewriting one order and its attempts keeps the invariant when the two still agree,
      the claim columns are consistent and no identity or message id changes. */
  lemma RewriteKeepsInv(t: Tables, i: nat, o: Order, rows: seq<Attempt>)
    requires Inv(t) && i < |t.orders| && |rows| == |t.attempts[i]|
    requires forall n | 0 <= n < |rows| :: rows[n].message == t.attempts[i][n].message
    requires SameIdentity(o, t.orders[i]) && Agrees(o, rows) && ClaimColumns(o)
    ensures Inv(Tables(t.orders[i := o], t.attempts[i := rows]))
  {
    var t' := Tables(t.orders[i := o], t.attempts[i := rows]);
    DistinctKept(t, t', i, rows);
    DistinctKeysKept(t, t');
  }

  /** New attempts with new message ids, distinct among themselves, keep them all distinct. */
  lemma AppendKeepsMsgIds(t: Tables, t': Tables, i: nat, rows: seq<Attempt>)
    requires DistinctMsgIds(t) && i !in t.attempts && t'.attempts == t.attempts[i := rows]
    requires forall n | 0 <= n < |rows| :: !MsgIdTaken(t, rows[n].message.msgId)
    requires forall n, m | 0 <= n < m < |rows| :: rows[n].message.msgId != rows[m].message.msgId
    ensures DistinctMsgIds(t')
  {
    forall a, n, b, m | a in t'.attempts && 0 <= n < |t'.attempts[a]| && b in t'.attempts && 0 <= m < |t'.attempts[b]|
                        && MsgIdAt(t', a, n) == MsgIdAt(t', b, m)
      ensures a == b && n == m
    {
      if a != i && b != i { assert MsgIdAt(t, a, n) == MsgIdAt(t, b, m); }
    }
  }

  lemma InsertKeepsMsgIds(t: Tables, q: Request, d: Decision, first: Letter, second: Letter)
    requires DistinctMsgIds(t) && |t.orders| !in t.attempts && Insertable(t, q, d, first, second)
    ensures DistinctMsgIds(Inserted(t, q, d, first, second))
  {
    AppendKeepsMsgIds(t, Inserted(t, q, d, first, second), |t.orders|, InitialAttempts(q, d, first, second));
  }

  lemma InsertKeepsInv(t: Tables, q: Request, d: Decision, first: Letter, second: Letter)
    requires Inv(t) && Insertable(t, q, d, first, second)
    requires d.effective != InstantOrNormal
    requires d.fallback.Some? <==> d.requested == InstantOrNormal && d.effective == Instant
    requires d.fallback.Some? ==> d.fallback.value == Normal
    ensures Inv(Inserted(t, q, d, first, second))
  {
    var t' := Inserted(t, q, d, first, second);
    InsertKeepsMsgIds(t, q, d, first, second);
    forall i, j | 0 <= i < j < |t'.orders|
      ensures !(t'.orders[i].connectionId == t'.orders[j].connectionId && t'.orders[i].idempotencyKey == t'.orders[j].idempotencyKey)
    {
      if j == |t.orders| { assert t'.orders[i] == t.orders[i]; }
    }
  }

  /** Agreement before a promotion: the first attempt is live, the second its reserve. */
  lemma ReserveIsSecond(o: Order, rows: seq<Attempt>)
    requires Agrees(o, rows) && o.message.scheme == Instant && FirstIn(rows, Planned).Some?
    ensures |rows| == 2 && rows[0].message == o.message && FirstIn(rows, Planned) == Some(1)
    ensures o.requested == InstantOrNormal && rows[0].state == Live
    ensures rows[1].state == Planned && rows[1].message.scheme == Normal
  {
  }

  lemma PromotionAgrees(o: Order, rows: seq<Attempt>, returnCode: Option<string>)
    requires |rows| == 2 && rows[0].state == Live && rows[0].message.scheme == Instant && rows[1].state == Planned
    requires o.requested == InstantOrNormal && rows[1].message.scheme == Normal
    ensures Agrees(FellBack(o, rows[1].message, returnCode), Promoted(rows, 1, returnCode))
    ensures |Promoted(rows, 1, returnCode)| == 2
    ensures forall n | 0 <= n < 2 :: Promoted(rows, 1, returnCode)[n].message == rows[n].message
  {
  }

  /** The promotion swaps which attempt is live and rewrites the order in the same step. */
  lemma FallBackKeepsInv(t: Tables, c: Claimed, profiles: Profiles, returnCode: Option<string>)
    requires Inv(t) && MayFallBack(t, c, profiles, returnCode)
    ensures Inv(Step(t, FallBack(c, profiles, returnCode)))
    ensures t.attempts[c.order][0].message == t.orders[c.order].message
    ensures |t.attempts[c.order]| == 2 && FirstIn(t.attempts[c.order], Planned) == Some(1)
  {
    var o, rows := t.orders[c.order], t.attempts[c.order];
    ReserveIsSecond(o, rows);
    PromotionAgrees(o, rows, returnCode);
    RewriteKeepsInv(t, c.order, FellBack(o, rows[1].message, returnCode), Promoted(rows, 1, returnCode));
  }

  lemma AnswerKeepsAgreement(o: Order, rows: seq<Attempt>, returnCode: Option<string>)
    requires Agrees(o, rows)
    ensures Agrees(o, Answered(rows, returnCode))
    ensures |Answered(rows, returnCode)| == |rows|
    ensures forall k | 0 <= k < |rows| :: Answered(rows, returnCode)[k].message == rows[k].message
  {
  }

  lemma AnswerKeepsInv(t: Tables, i: nat, returnCode: Option<string>)
    requires Inv(t)
    ensures Inv(Step(t, Answer(i, returnCode)))
  {
    if i in t.attempts {
      AnswerKeepsAgreement(t.orders[i], t.attempts[i], returnCode);
      assert t.orders[i := t.orders[i]] == t.orders;
      RewriteKeepsInv(t, i, t.orders[i], Answered(t.attempts[i], returnCode));
    }
  }

  lemma OnlyTheTarget(t: Tables, e: Event)
    requires RewritesOneRow(e)
    ensures var i := Target(t, e);
            Step(t, e) == if i.Some? && i.value < |t.orders| then
                            t.(orders := t.orders[i.value := Step(t, e).orders[i.value]])
                          else t
  {
  }

  /** Same identity, same message, consistent claim columns. */
  predicate KeepsRow(o: Order, o': Order) { SameIdentity(o', o) && o'.message == o.message && ClaimColumns(o') }

  lemma OutcomeKeepsRow(t: Tables, e: Event, i: nat)
    requires e.Claim? || Reports(e)
    requires Enabled(t, e) && Target(t, e) == Some(i) && i < |t.orders| && ClaimColumns(t.orders[i])
    ensures |Step(t, e).orders| == |t.orders| && KeepsRow(t.orders[i], Step(t, e).orders[i])
  {
  }

  lemma DecisionKeepsRow(t: Tables, e: Event, i: nat)
    requires e.Replay? || e.Apply?
    requires Target(t, e) == Some(i) && i < |t.orders| && ClaimColumns(t.orders[i])
    ensures |Step(t, e).orders| == |t.orders| && KeepsRow(t.orders[i], Step(t, e).orders[i])
  {
  }

  lemma ReturnKeepsRow(t: Tables, e: Event, i: nat)
    requires e.Book? || e.Suspect? || e.Confirm? || e.Dismiss?
    requires Target(t, e) == Some(i) && i < |t.orders| && ClaimColumns(t.orders[i])
    ensures |Step(t, e).orders| == |t.orders| && KeepsRow(t.orders[i], Step(t, e).orders[i])
  {
  }

  lemma TargetStaysConsistent(t: Tables, e: Event, i: nat)
    requires RewritesOneRow(e) && Enabled(t, e) && Target(t, e) == Some(i) && i < |t.orders| && ClaimColumns(t.orders[i])
    ensures |Step(t, e).orders| == |t.orders| && KeepsRow(t.orders[i], Step(t, e).orders[i])
  {
    if e.Claim? || Reports(e) {
      OutcomeKeepsRow(t, e, i);
    } else if e.Replay? || e.Apply? {
      DecisionKeepsRow(t, e, i);
    } else {
      ReturnKeepsRow(t, e, i);
    }
  }

  lemma StepKeepsInv(t: Tables, e: Event)
    requires Inv(t) && Enabled(t, e)
    ensures Inv(Step(t, e))
  {
    match e
    case Accept(q, profiles, instruction, first, second) =>
      DecisionShape(profiles, instruction);
      var d := Schemes.Resolve(profiles, instruction);
      if d.Success? && Insertable(t, q, d.value, first, second) {
        InsertKeepsInv(t, q, d.value, first, second);
      }
    case FallBack(c, profiles, returnCode) =>
      if MayFallBack(t, c, profiles, returnCode) { FallBackKeepsInv(t, c, profiles, returnCode); }
    case Answer(i, returnCode) => AnswerKeepsInv(t, i, returnCode);
    case _ => RewritingKeepsInv(t, e);
  }

  lemma RewritingKeepsInv(t: Tables, e: Event)
    requires Inv(t) && Enabled(t, e) && RewritesOneRow(e)
    ensures Inv(Step(t, e))
  {
    OnlyTheTarget(t, e);
    var i := Target(t, e);
    if i.Some? && i.value < |t.orders| {
      TargetStaysConsistent(t, e, i.value);
      assert t.attempts[i.value := t.attempts[i.value]] == t.attempts;
      RewriteKeepsInv(t, i.value, Step(t, e).orders[i.value], t.attempts[i.value]);
    }
  }

  /** Whatever the interleaving of workers, operators and bank answers. */
  lemma {:induction false} RunKeepsInv(t: Tables, es: seq<Event>)
    requires Inv(t) && Legal(t, es)
    ensures Inv(Run(t, es))
    decreases |es|
  {
    if es != [] {
      StepKeepsInv(t, es[0]);
      RunKeepsInv(Step(t, es[0]), es[1..]);
    }
  }

  /** The attempts of one order that are in `state`, by number. */
  function InState(rows: seq<Attempt>, state: AttemptState): set<nat> {
    set n: nat | n < |rows| && rows[n].state == state
  }

  /** What agreement says about the three attempt states. */
  lemma AttemptCensus(o: Order, rows: seq<Attempt>)
    requires Agrees(o, rows)
    ensures exists live :: InState(rows, Live) == {live} && rows[live].message == o.message
    ensures InState(rows, Planned) != {} <==> o.requested == InstantOrNormal && o.message.scheme == Instant
    ensures |InState(rows, Planned) + InState(rows, Superseded)| <= 1
  {
    var live := if rows[0].state == Live then 0 else 1;
    assert InState(rows, Live) == {live};
    assert |rows| == 1 ==> InState(rows, Planned) + InState(rows, Superseded) == {};
    assert |rows| == 2 ==> InState(rows, Planned) + InState(rows, Superseded) == {1 - live};
    assert 1 in InState(rows, Planned) <==> |rows| == 2 && live == 0;
  }

  /** In every state reachable from empty tables, by any legal run: each order has exactly
      one live attempt, carrying the order's own message; a reserve exists exactly while
      `InstantOrNormal` was asked for and the order is still instant; at most one attempt
      was superseded; and the message ids of all attempts of all orders are distinct. */
  lemma EveryReachableStateAgrees(es: seq<Event>, i: nat)
    requires Legal(EMPTY, es)
    requires i < |Run(EMPTY, es).orders|
    ensures var t := Run(EMPTY, es);
            && i in t.attempts
            && (exists live :: InState(t.attempts[i], Live) == {live} && t.attempts[i][live].message == t.orders[i].message)
            && (InState(t.attempts[i], Planned) != {} <==>
                  t.orders[i].requested == InstantOrNormal && t.orders[i].message.scheme == Instant)
            && |InState(t.attempts[i], Planned) + InState(t.attempts[i], Superseded)| <= 1
            && DistinctMsgIds(t)
  {
    RunKeepsInv(EMPTY, es);
    AttemptCensus(Run(EMPTY, es).orders[i], Run(EMPTY, es).attempts[i]);
  }
}
