/** Sequences of bank status reports about one order: repetition, order of arrival, and
    how often they can move it. */
module ReportRuns {
  import opened Wrappers
  import opened StatusReports
  import opened Orders
  import opened OrderRuns

  function ApplyAll(o: Order, reports: seq<Report>): Order
    decreases |reports|
  {
    if reports == [] then o else ApplyAll(Applied(o, reports[0]), reports[1..])
  }

  function Applied(o: Order, r: Report): Order { Reported(o, Resolve(r), r.writtenAt) }

  /** How many of the reports move the order; each move is one event. */
  function Moves(o: Order, reports: seq<Report>): nat
    decreases |reports|
  {
    if reports == [] then 0
    else (if ReportMoves(o, Resolve(reports[0]), reports[0].writtenAt) then 1 else 0)
         + Moves(Applied(o, reports[0]), reports[1..])
  }

  /** A report sent twice moves the order once. */
  lemma RepeatedReportIsIgnored(o: Order, r: Report)
    ensures !ReportMoves(Applied(o, r), Resolve(r), r.writtenAt)
    ensures Applied(Applied(o, r), r) == Applied(o, r)
  {
  }

  /** How many moves reports can still make: submitted to acknowledged to rejected. */
  function MovesLeft(o: Order): nat {
    match o.state
    case Accepted => 2
    case Submitted => 2
    case Acknowledged => 1
    case _ => 0
  }

  lemma {:induction false} AtMostTwoMoves(o: Order, reports: seq<Report>)
    ensures Moves(o, reports) <= MovesLeft(o) <= 2
    decreases |reports|
  {
    if reports != [] { AtMostTwoMoves(Applied(o, reports[0]), reports[1..]); }
  }

  predicate Accepting(r: Report) { Resolve(r).verdict == Some(Acknowledges) }

  predicate Refusing(r: Report) { Resolve(r).verdict == Some(Rejects) }

  /** Every acceptance only says the file was checked, every deciding report is dated, and
      every refusal was written after every acceptance. */
  ghost predicate RefusedAfterChecking(reports: seq<Report>) {
    && (forall r | r in reports && Accepting(r) :: Revocable(Resolve(r).status.value))
    && (forall r | r in reports && Resolve(r).verdict.Some? :: r.writtenAt.Some?)
    && (forall a, b | a in reports && b in reports && Accepting(a) && Refusing(b) ::
          a.writtenAt.value < b.writtenAt.value)
  }

  /** The order is where these reports can have put it: untouched, or acknowledged by one
      that every refusal among them is later than. */
  ghost predicate Overturnable(o: Order, reports: seq<Report>) {
    || o.state == Submitted
    || (&& o.state == Acknowledged && o.bankStatus.Some? && Revocable(o.bankStatus.value)
        && o.reportedAt.Some?
        && forall b | b in reports && Refusing(b) :: b.writtenAt.Some? && o.reportedAt.value < b.writtenAt.value)
  }

  /** In whatever order such reports arrive and however often each is repeated, the refusal
      wins: the order ends rejected, after one move or two. */
  lemma {:induction false} LateRefusalWins(o: Order, reports: seq<Report>)
    requires RefusedAfterChecking(reports) && Overturnable(o, reports)
    requires exists r :: r in reports && Refusing(r)
    ensures ApplyAll(o, reports).state == Rejected
    ensures Moves(o, reports) == 1 || (Moves(o, reports) == 2 && o.state == Submitted)
    decreases |reports|
  {
    var first, rest := reports[0], reports[1..];
    assert first in reports && forall r | r in rest :: r in reports;
    if Refusing(first) {
      RejectedStays(Applied(o, first), rest);
    } else {
      assert forall r | r in reports :: r == first || r in rest;
      StillOverturnable(o, first, rest);
      LateRefusalWins(Applied(o, first), rest);
    }
  }

  /** A report that is no refusal leaves the order where a later refusal still reaches it. */
  lemma StillOverturnable(o: Order, first: Report, rest: seq<Report>)
    requires !Refusing(first) && Overturnable(o, rest)
    requires Accepting(first) ==> Revocable(Resolve(first).status.value) && first.writtenAt.Some?
    requires Accepting(first) ==>
               forall b | b in rest && Refusing(b) :: b.writtenAt.Some? && first.writtenAt.value < b.writtenAt.value
    ensures Overturnable(Applied(o, first), rest)
    ensures ReportMoves(o, Resolve(first), first.writtenAt) ==> o.state == Submitted && Applied(o, first).state == Acknowledged
    ensures !ReportMoves(o, Resolve(first), first.writtenAt) ==> Applied(o, first) == o
  {
  }

  lemma {:induction false} RejectedStays(o: Order, reports: seq<Report>)
    requires o.state == Rejected
    ensures ApplyAll(o, reports) == o && Moves(o, reports) == 0
    decreases |reports|
  {
    if reports != [] { RejectedStays(Applied(o, reports[0]), reports[1..]); }
  }

  /** The first transaction's status decides what a later refusal can do. After a unanimous
      acknowledgement without a group status, a refusal dated later makes the order
      replayable exactly when that first status only says the file was checked; otherwise
      no sequence of steps ever hands the order out again, whatever its other transactions
      say. */
  lemma FirstTransactionDecides(t: Tables, i: nat, r: Report, refusal: Report, es: seq<Event>)
    requires i < |t.orders| && t.orders[i].state in {Accepted, Submitted}
    requires r.group.None? && Transactions(r.blocks) != [] && AllTaken(Transactions(r.blocks)) && r.writtenAt.Some?
    requires Refusing(refusal) && refusal.writtenAt.Some? && r.writtenAt.value < refusal.writtenAt.value
    ensures var first := Transactions(r.blocks)[0].value;
            var t1 := Step(t, Apply(i, r));
            var t2 := Step(t1, Apply(i, refusal));
            && t1.orders[i].state == Acknowledged
            && (Revocable(first) <==> Replayable(t2.orders[i]))
            && (!Revocable(first) ==> t2 == t1 && Closed(t1.orders[i]))
            && (!Revocable(first) && Legal(t1, es) ==> Handed(t1, es, i) == [])
  {
    FirstStatusIsRecorded(r);
    var t1 := Step(t, Apply(i, r));
    assert t1.orders[i] == Applied(t.orders[i], r);
    if !Revocable(Transactions(r.blocks)[0].value) {
      assert t1.orders[i := t1.orders[i]] == t1.orders;
      if Legal(t1, es) { ClosedForGood(t1, es, i); }
    }
  }

  /** Reports without a group status record the first transaction's status, so the order of
      the transactions inside one report decides whether the order is closed. The same two
      statuses, listed the other way round, leave it open to a later refusal, and so to a
      replay. */
  lemma TransactionOrderDecides(o: Order, at: int)
    requires o.state == Submitted
    ensures var settling := Report(None, [Block(None, [Some("ACSP"), Some("ACCP")])], Some(at));
            var checked := Report(None, [Block(None, [Some("ACCP"), Some("ACSP")])], Some(at));
            var refusal := Report(Some("RJCT"), [], Some(at + 1));
            && Closed(ApplyAll(o, [settling, refusal]))
            && Replayable(ApplyAll(o, [checked, refusal]))
  {
    var settling := Report(None, [Block(None, [Some("ACSP"), Some("ACCP")])], Some(at));
    var checked := Report(None, [Block(None, [Some("ACCP"), Some("ACSP")])], Some(at));
    var refusal := Report(Some("RJCT"), [], Some(at + 1));
    OneBlock([Some("ACSP"), Some("ACCP")]);
    OneBlock([Some("ACCP"), Some("ACSP")]);
    assert Unanimous(settling.blocks) == Some("ACSP");
    assert Unanimous(checked.blocks) == Some("ACCP");
    TwoReports(o, settling, refusal);
    TwoReports(o, checked, refusal);
  }

  lemma TwoReports(o: Order, a: Report, b: Report)
    ensures ApplyAll(o, [a, b]) == Applied(Applied(o, a), b)
  {
    assert [a, b][1..] == [b] && [b][1..] == [];
    assert ApplyAll(Applied(o, a), [b]) == ApplyAll(Applied(Applied(o, a), b), []);
  }

  lemma OneBlock(transactions: seq<Option<string>>)
    ensures Transactions([Block(None, transactions)]) == transactions
  {
    assert [Block(None, transactions)][1..] == [];
    assert Transactions([]) == [];
  }
}
