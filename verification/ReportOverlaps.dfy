/** Reports whose applications overlap. Applying one reads, in a transaction of its own, which
    acknowledgement it would overturn, and then updates the order in another. */
module ReportOverlaps {
  import opened Wrappers
  import opened StatusReports
  import opened Orders
  import opened ReportRuns

  /** A report that has read, and what it read. */
  datatype Reading = Reading(report: Report, revoked: Option<string>)

  datatype World = World(order: Order, readings: map<nat, Reading>)

  datatype Move = Look(id: nat, report: Report) | Write(id: nat)

  function Looked(o: Order, r: Report): Reading {
    var verdict := Resolve(r).verdict;
    Reading(r, if verdict.Some? then Revoked(o, verdict.value, r.writtenAt) else None)
  }

  /** The guard of the update: an untouched order, or the very acknowledgement that was read. */
  predicate Writes(o: Order, rd: Reading) {
    Resolve(rd.report).verdict.Some? &&
    if rd.revoked.None? then o.state in {Accepted, Submitted} else o.state == Acknowledged && o.bankStatus == rd.revoked
  }

  function Written(o: Order, rd: Reading): Order {
    if Writes(o, rd) then Decided(o, Resolve(rd.report), rd.report.writtenAt) else o
  }

  function Next(w: World, m: Move): World {
    match m
    case Look(id, r) => if id in w.readings then w else w.(readings := w.readings[id := Looked(w.order, r)])
    case Write(id) => if id in w.readings then w.(order := Written(w.order, w.readings[id])) else w
  }

  function Play(w: World, ms: seq<Move>): World
    decreases |ms|
  {
    if ms == [] then w else Play(Next(w, ms[0]), ms[1..])
  }

  // --- undisturbed -------------------------------------------------------------------------

  /** What was read still holds when it is used. */
  predicate Current(w: World, m: Move) { m.Write? && m.id in w.readings ==> w.readings[m.id] == Looked(w.order, w.readings[m.id].report) }

  predicate AllCurrent(w: World, ms: seq<Move>)
    decreases |ms|
  {
    ms == [] || (Current(w, ms[0]) && AllCurrent(Next(w, ms[0]), ms[1..]))
  }

  /** The reports in the order in which they are written. */
  function WrittenReports(w: World, ms: seq<Move>): seq<Report>
    decreases |ms|
  {
    if ms == [] then []
    else (if ms[0].Write? && ms[0].id in w.readings then [w.readings[ms[0].id].report] else [])
         + WrittenReports(Next(w, ms[0]), ms[1..])
  }

  lemma CurrentIsApplied(o: Order, r: Report)
    ensures Written(o, Looked(o, r)) == Applied(o, r)
  {
  }

  /** When no other report moves the order between a report's read and its update, applying is
      one step, in the order of the updates. */
  lemma {:induction false} CurrentIsSequential(w: World, ms: seq<Move>)
    requires AllCurrent(w, ms)
    ensures Play(w, ms).order == ApplyAll(w.order, WrittenReports(w, ms))
    decreases |ms|
  {
    if ms != [] {
      var w' := Next(w, ms[0]);
      CurrentIsSequential(w', ms[1..]);
      var rest := WrittenReports(w', ms[1..]);
      if ms[0].Write? && ms[0].id in w.readings {
        var r := w.readings[ms[0].id].report;
        CurrentIsApplied(w.order, r);
        assert [r] + rest == WrittenReports(w, ms) && ([r] + rest)[1..] == rest;
      } else {
        assert WrittenReports(w, ms) == rest;
      }
    }
  }

  // --- overtaken -----------------------------------------------------------------------------

  /** The refusals that are read in this run, and the dates they were written at. */
  ghost predicate RefusalsLater(o: Order, ms: seq<Move>) {
    forall k | 0 <= k < |ms| && ms[k].Look? && Refusing(ms[k].report) ::
      ms[k].report.writtenAt.Some? && o.reportedAt.Some? && o.reportedAt.value < ms[k].report.writtenAt.value
  }

  /** Every read has its own number. */
  ghost predicate OwnNumbers(w: World, ms: seq<Move>) {
    && (forall k | 0 <= k < |ms| && ms[k].Look? :: ms[k].id !in w.readings)
    && (forall j, k | 0 <= j < k < |ms| && ms[j].Look? && ms[k].Look? :: ms[j].id != ms[k].id)
  }

  /** A refusal that this world already read finds the acknowledgement when it writes. */
  predicate Awaits(w: World, id: nat) {
    id in w.readings && Refusing(w.readings[id].report) && w.readings[id].revoked == w.order.bankStatus
  }

  /** Some refusal is yet to be written that was read, or will be, under this acknowledgement. */
  ghost predicate RefusalComes(w: World, ms: seq<Move>) {
    || (exists k :: 0 <= k < |ms| && ms[k].Write? && Awaits(w, ms[k].id))
    || (exists j, k :: 0 <= j < k < |ms| && ms[j].Look? && Refusing(ms[j].report) && ms[k] == Write(ms[j].id))
  }

  /** The order stands acknowledged by a report that only says the file was checked; readings
      taken before it overturn nothing. */
  predicate Checked(w: World) {
    && w.order.state == Acknowledged && w.order.bankStatus.Some? && Revocable(w.order.bankStatus.value)
    && w.order.reportedAt.Some?
    && forall id | id in w.readings ::
         w.readings[id].revoked.None? || (w.readings[id].revoked == w.order.bankStatus && Refusing(w.readings[id].report))
  }

  lemma LookedUnderCheck(w: World, id: nat, r: Report)
    requires Checked(w) && id !in w.readings
    requires Refusing(r) ==> r.writtenAt.Some? && w.order.reportedAt.value < r.writtenAt.value
    ensures Checked(Next(w, Look(id, r)))
    ensures Awaits(Next(w, Look(id, r)), id) <==> Refusing(r)
    ensures forall other | other != id :: Awaits(Next(w, Look(id, r)), other) == Awaits(w, other)
  {
  }

  lemma WrittenUnderCheck(w: World, id: nat)
    requires Checked(w)
    ensures if Awaits(w, id) then Next(w, Write(id)).order.state == Rejected else Next(w, Write(id)) == w
  {
  }

  lemma {:induction false} RejectedStaysSo(w: World, ms: seq<Move>)
    requires w.order.state == Rejected
    ensures Play(w, ms).order.state == Rejected
    decreases |ms|
  {
    if ms != [] { RejectedStaysSo(Next(w, ms[0]), ms[1..]); }
  }

  lemma StillComes(w: World, ms: seq<Move>)
    requires Checked(w) && ms != [] && ms[0].Look? && OwnNumbers(w, ms) && RefusalsLater(w.order, ms)
    requires RefusalComes(w, ms)
    ensures RefusalComes(Next(w, ms[0]), ms[1..])
  {
    var w', rest := Next(w, ms[0]), ms[1..];
    LookedUnderCheck(w, ms[0].id, ms[0].report);
    assert forall k | 1 <= k < |ms| :: ms[k] == rest[k - 1];
    if k :| 0 <= k < |ms| && ms[k].Write? && Awaits(w, ms[k].id) {
      assert rest[k - 1].Write? && Awaits(w', rest[k - 1].id);
    } else {
      var j, k :| 0 <= j < k < |ms| && ms[j].Look? && Refusing(ms[j].report) && ms[k] == Write(ms[j].id);
      if j == 0 {
        assert rest[k - 1].Write? && Awaits(w', rest[k - 1].id);
      } else {
        assert rest[j - 1].Look? && rest[k - 1] == Write(rest[j - 1].id);
      }
    }
  }

  lemma CameAlready(w: World, ms: seq<Move>)
    requires Checked(w) && ms != [] && ms[0].Look? && OwnNumbers(w, ms) && RefusalsLater(w.order, ms)
    requires RefusalComes(Next(w, ms[0]), ms[1..])
    ensures RefusalComes(w, ms)
  {
    var w', rest := Next(w, ms[0]), ms[1..];
    LookedUnderCheck(w, ms[0].id, ms[0].report);
    assert forall k | 1 <= k < |ms| :: ms[k] == rest[k - 1];
    if k :| 0 <= k < |rest| && rest[k].Write? && Awaits(w', rest[k].id) {
      if rest[k].id == ms[0].id {
        assert ms[k + 1] == Write(ms[0].id);
      } else {
        assert ms[k + 1].Write? && Awaits(w, ms[k + 1].id);
      }
    } else {
      var j, k :| 0 <= j < k < |rest| && rest[j].Look? && Refusing(rest[j].report) && rest[k] == Write(rest[j].id);
      assert ms[j + 1].Look? && ms[k + 1] == Write(ms[j + 1].id);
    }
  }

  lemma ComesAfterLook(w: World, ms: seq<Move>)
    requires Checked(w) && ms != [] && ms[0].Look? && OwnNumbers(w, ms) && RefusalsLater(w.order, ms)
    ensures RefusalComes(w, ms) <==> RefusalComes(Next(w, ms[0]), ms[1..])
  {
    if RefusalComes(w, ms) { StillComes(w, ms); }
    if RefusalComes(Next(w, ms[0]), ms[1..]) { CameAlready(w, ms); }
  }

  lemma ComesAfterWrite(w: World, ms: seq<Move>)
    requires ms != [] && ms[0].Write? && !Awaits(w, ms[0].id)
    ensures RefusalComes(w, ms) <==> RefusalComes(w, ms[1..])
  {
    var rest := ms[1..];
    assert forall k | 1 <= k < |ms| :: ms[k] == rest[k - 1];
    if k :| 0 <= k < |rest| && rest[k].Write? && Awaits(w, rest[k].id) {
      assert ms[k + 1].Write? && Awaits(w, ms[k + 1].id);
    }
    if j, k :| 0 <= j < k < |rest| && rest[j].Look? && Refusing(rest[j].report) && rest[k] == Write(rest[j].id) {
      assert ms[j + 1].Look? && ms[k + 1] == Write(ms[j + 1].id);
    }
    if k :| 0 <= k < |ms| && ms[k].Write? && Awaits(w, ms[k].id) {
      assert rest[k - 1].Write? && Awaits(w, rest[k - 1].id);
    }
    if j, k :| 0 <= j < k < |ms| && ms[j].Look? && Refusing(ms[j].report) && ms[k] == Write(ms[j].id) {
      assert rest[j - 1].Look? && rest[k - 1] == Write(rest[j - 1].id);
    }
  }

  /** Under such an acknowledgement, later-dated refusals reject the order exactly when one of
      them is written that was read under it. One that was read before is lost. */
  lemma {:induction false} RefusedExactlyWhenReadSince(w: World, ms: seq<Move>)
    requires Checked(w) && OwnNumbers(w, ms) && RefusalsLater(w.order, ms)
    ensures Play(w, ms).order.state == Rejected <==> RefusalComes(w, ms)
    ensures !RefusalComes(w, ms) ==> Play(w, ms).order == w.order
    decreases |ms|
  {
    if ms != [] {
      var w', rest := Next(w, ms[0]), ms[1..];
      assert forall k | 0 <= k < |rest| :: rest[k] == ms[k + 1];
      match ms[0]
      case Look(id, r) =>
        ComesAfterLook(w, ms);
        LookedUnderCheck(w, id, r);
        RefusedExactlyWhenReadSince(w', rest);
      case Write(id) =>
        WrittenUnderCheck(w, id);
        if Awaits(w, id) {
          RejectedStaysSo(w', rest);
          assert ms[0].Write? && Awaits(w, ms[0].id);
        } else {
          ComesAfterWrite(w, ms);
          RefusedExactlyWhenReadSince(w, rest);
        }
    }
  }

  // --- from the start ------------------------------------------------------------------------

  /** While the order is untouched, no read finds anything to overturn. */
  lemma {:induction false} NothingReadYet(w: World, ms: seq<Move>)
    requires Play(w, ms).order.state == Submitted && forall id | id in w.readings :: w.readings[id].revoked.None?
    ensures w.order.state == Submitted && Play(w, ms).order == w.order
    ensures forall id | id in Play(w, ms).readings :: Play(w, ms).readings[id].revoked.None?
    decreases |ms|
  {
    if ms != [] {
      if Next(w, ms[0]).order.state != Submitted { NeverUntouchedAgain(Next(w, ms[0]), ms[1..]); }
      NothingReadYet(Next(w, ms[0]), ms[1..]);
    }
  }

  lemma {:induction false} NeverUntouchedAgain(w: World, ms: seq<Move>)
    requires w.order.state != Submitted
    ensures Play(w, ms).order.state != Submitted
    decreases |ms|
  {
    if ms != [] { NeverUntouchedAgain(Next(w, ms[0]), ms[1..]); }
  }

  /** A submitted order, reports applied in any overlap, and the first update that moves it.
      With revocable acceptances and refusals dated after them, the order ends rejected
      exactly when that first update is a refusal's, or some refusal is both read and
      written after it. */
  lemma RefusalWinsExactlyWhen(o: Order, before: seq<Move>, id: nat, after: seq<Move>)
    requires o.state == Submitted
    requires var w := Play(World(o, map[]), before);
             && w.order.state == Submitted && id in w.readings
             && (Refusing(w.readings[id].report) ||
                 (&& Accepting(w.readings[id].report) && Revocable(Resolve(w.readings[id].report).status.value)
                  && w.readings[id].report.writtenAt.Some?
                  && RefusalsLater(Next(w, Write(id)).order, after) && OwnNumbers(w, after)))
    ensures var w := Play(World(o, map[]), before);
            Play(Next(w, Write(id)), after).order.state == Rejected <==>
              || Refusing(w.readings[id].report)
              || exists j, k :: 0 <= j < k < |after| && after[j].Look? && Refusing(after[j].report) && after[k] == Write(after[j].id)
  {
    var w := Play(World(o, map[]), before);
    NothingReadYet(World(o, map[]), before);
    if Refusing(w.readings[id].report) {
      RejectedStaysSo(Next(w, Write(id)), after);
    } else {
      RefusedExactlyWhenReadSince(Next(w, Write(id)), after);
    }
  }

  /** A refusal that reads before the acceptance it should overturn is written is lost: the
      order stays acknowledged, although the refusal was dated later and written last. */
  lemma RefusalCanBeLost(o: Order)
    requires o.state == Submitted
    ensures var accepted, refused := Report(Some("ACCP"), [], Some(1)), Report(Some("RJCT"), [], Some(2));
            Play(World(o, map[]), [Look(0, refused), Look(1, accepted), Write(1), Write(0)]).order.state == Acknowledged
  {
    var accepted, refused := Report(Some("ACCP"), [], Some(1)), Report(Some("RJCT"), [], Some(2));
    var w := World(o, map[]);
    FourMoves(w, Look(0, refused), Look(1, accepted), Write(1), Write(0));
    var w2 := Next(Next(w, Look(0, refused)), Look(1, accepted));
    assert w2.order == o && w2.readings == map[0 := Reading(refused, None), 1 := Reading(accepted, None)];
    var w3 := Next(w2, Write(1));
    assert w3.order.state == Acknowledged && w3.readings[0] == Reading(refused, None);
    assert Next(w3, Write(0)).order == w3.order;
    assert Play(w, [Look(0, refused), Look(1, accepted), Write(1), Write(0)]) == Next(w3, Write(0));
  }

  lemma FourMoves(w: World, a: Move, b: Move, c: Move, d: Move)
    ensures Play(w, [a, b, c, d]) == Next(Next(Next(Next(w, a), b), c), d)
  {
    assert [a, b, c, d][1..] == [b, c, d] && [b, c, d][1..] == [c, d] && [c, d][1..] == [d] && [d][1..] == [];
    var w1 := Next(w, a);
    var w2 := Next(w1, b);
    var w3 := Next(w2, c);
    assert Play(w3, [d]) == Play(Next(w3, d), []);
    assert Play(w2, [c, d]) == Play(w3, [d]);
    assert Play(w1, [b, c, d]) == Play(w2, [c, d]);
  }
}
