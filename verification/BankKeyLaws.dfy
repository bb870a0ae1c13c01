/** What an operation on the bank's keys that runs to its end leaves behind, row by row, and
    what the service works with afterwards. */
module BankKeyLaws {
  import opened Wrappers
  import opened BankKeys

  /** Nothing is waiting to be compared. */
  predicate NothingStaged(rows: seq<Row>) { forall k | 0 <= k < |rows| :: rows[k].status != Pending }

  /** Of the rows that were there, the staged ones are superseded and the others are as they
      were. */
  predicate StageCleared(before: seq<Row>, after: seq<Row>) {
    && |before| <= |after|
    && forall k | 0 <= k < |before| ::
         after[k] == if before[k].status == Pending then before[k].(status := Superseded) else before[k]
  }

  // --- what is resolved does not hang on what is staged --------------------------------------

  lemma {:induction false} KeyAtKept(rows: seq<Row>, rows': seq<Row>, v: Version, g: nat)
    requires |rows| <= |rows'| && KeyAt(rows, v, g).Some?
    requires forall k | 0 <= k < |rows| :: rows'[k].version == rows[k].version && rows'[k].generation == rows[k].generation
                                           && rows'[k].key == rows[k].key
    ensures KeyAt(rows', v, g) == KeyAt(rows, v, g)
  {
    if !(rows[0].version == v && rows[0].generation == g) { KeyAtKept(rows[1..], rows'[1..], v, g); }
  }

  lemma {:induction false} HighestKept(rows: seq<Row>, rows': seq<Row>, v: Version)
    requires |rows| <= |rows'| && forall k | |rows| <= k < |rows'| :: rows'[k].status != Active
    requires forall k | 0 <= k < |rows| :: rows'[k].version == rows[k].version && rows'[k].generation == rows[k].generation
                                           && (rows'[k].status == Active <==> rows[k].status == Active)
    ensures Highest(rows', v, Active) == Highest(rows, v, Active)
    decreases |rows'|
  {
    if |rows'| > |rows| {
      HighestKept(rows, rows'[..|rows'| - 1], v);
    } else if rows' != [] {
      HighestKept(rows[..|rows| - 1], rows'[..|rows| - 1], v);
    }
  }

  lemma ResolvedKept(rows: seq<Row>, rows': seq<Row>)
    requires |rows| <= |rows'| && forall k | |rows| <= k < |rows'| :: rows'[k].status != Active
    requires StageCleared(rows, rows')
    ensures Resolved(rows') == Resolved(rows)
  {
    HighestKept(rows, rows', X002);
    HighestKept(rows, rows', E002);
    var x, e := Highest(rows, X002, Active), Highest(rows, E002, Active);
    if x.Some? && e.Some? {
      KeyAtKept(rows, rows', X002, x.value);
      KeyAtKept(rows, rows', E002, e.value);
    }
  }

  // --- setting the staged rows aside ----------------------------------------------------------

  /** The row after the first `n` of the listed ones were superseded. */
  function SetAside(row: Row, staged: seq<Ref>, n: nat): Row
    requires n <= |staged|
  {
    if exists j :: 0 <= j < n && staged[j] == Ref(row.version, row.generation) then row.(status := Superseded) else row
  }

  lemma {:induction false} SetAsideExactly(r: Ring, staged: seq<Ref>, n: nat)
    requires n <= |staged|
    ensures var r' := CommitAll(r, Restate(staged, Superseded)[..n]);
            && |r'.rows| == |r.rows| && r'.downloads == r.downloads && r'.vouched == r.vouched
            && forall k | 0 <= k < |r.rows| :: r'.rows[k] == SetAside(r.rows[k], staged, n)
    decreases n
  {
    var ws := Restate(staged, Superseded);
    if n == 0 {
      assert ws[..0] == [];
    } else {
      SetAsideExactly(r, staged, n - 1);
      CommitStep(r, ws, n - 1);
      assert ws[n - 1] == SetStatus(staged[n - 1].version, staged[n - 1].generation, Superseded);
    }
  }

  /** Superseding everything staged does that and no more. */
  lemma StageIsCleared(r: Ring)
    requires Sound(r)
    ensures var r' := CommitAll(r, Restate(Staged(r.rows), Superseded));
            && |r'.rows| == |r.rows| && r'.downloads == r.downloads && r'.vouched == r.vouched
            && StageCleared(r.rows, r'.rows) && NothingStaged(r'.rows)
  {
    var staged := Staged(r.rows);
    assert Restate(staged, Superseded)[..|staged|] == Restate(staged, Superseded);
    SetAsideExactly(r, staged, |staged|);
    StagedNames(r.rows);
    forall k: nat | k < |r.rows|
      ensures SetAside(r.rows[k], staged, |staged|)
           == if r.rows[k].status == Pending then r.rows[k].(status := Superseded) else r.rows[k]
    {
      ListedIffStaged(r, k);
    }
  }

  lemma ListedIffStaged(r: Ring, k: nat)
    requires Sound(r) && k < |r.rows|
    ensures Ref(r.rows[k].version, r.rows[k].generation) in Staged(r.rows) <==> r.rows[k].status == Pending
  {
    if r.rows[k].status == Pending {
      PendingIsStaged(r, k);
    } else {
      StagedNames(r.rows);
    }
  }

  // --- a refusal ------------------------------------------------------------------------------

  /** A refusal that finishes: nothing is staged any more, every other row is as it was, and so
      is what the service works with. */
  lemma DeclinedIsSetAside(r: Ring, steps: nat)
    requires Sound(r) && steps >= 2
    ensures var r' := Performed(r, Run(Decline, steps));
            && |r'.rows| == |r.rows| && StageCleared(r.rows, r'.rows) && NothingStaged(r'.rows)
            && r'.downloads == r.downloads && r'.vouched == r.vouched && Resolved(r'.rows) == Resolved(r.rows)
  {
    StageIsCleared(r);
    ResolvedKept(r.rows, CommitAll(r, Restate(Staged(r.rows), Superseded)).rows);
  }

  /** With nothing staged, confirmations and refusals make no transaction and vouch for
      nothing. */
  lemma {:induction false} NothingHappens(r: Ring, runs: seq<Run>)
    requires NothingStaged(r.rows) && forall run | run in runs :: !run.op.Stage?
    ensures PerformedAll(r, runs) == r
    decreases |runs|
  {
    if runs != [] {
      assert runs[0] in runs;
      assert Script(r, runs[0].op) == [] && Vouched(r, runs[0].op) == r;
      NothingHappens(r, runs[1..]);
    }
  }

  /** So a declined pair is never trusted: until something is staged again, whatever is
      confirmed or declined, and however far it gets, the ring stays as the refusal left it. */
  lemma DeclinedStaysDeclined(r: Ring, steps: nat, runs: seq<Run>)
    requires Sound(r) && steps >= 2 && forall run | run in runs :: !run.op.Stage?
    ensures PerformedAll(Performed(r, Run(Decline, steps)), runs) == Performed(r, Run(Decline, steps))
    ensures Resolved(PerformedAll(Performed(r, Run(Decline, steps)), runs).rows) == Resolved(r.rows)
  {
    DeclinedIsSetAside(r, steps);
    NothingHappens(Performed(r, Run(Decline, steps)), runs);
  }

  // --- a staging --------------------------------------------------------------------------------

  /** A staging that finishes: exactly the new pair is staged, each key under its own version,
      both under one generation that was never used. What was staged is set aside, nothing is
      vouched for, and what the service works with is what it was. */
  lemma StagedIsThePair(r: Ring, pair: Pair, steps: nat)
    requires Sound(r) && steps >= 4
    ensures var r' := Performed(r, Run(Stage(pair), steps));
            && |r'.rows| == |r.rows| + 2 && StageCleared(r.rows, r'.rows)
            && var g := r'.rows[|r.rows|].generation;
               && (forall k | 0 <= k < |r.rows| :: r.rows[k].generation < g)
               && r'.rows[|r.rows|] == Row(X002, g, Pending, pair.authentication)
               && r'.rows[|r.rows| + 1] == Row(E002, g, Pending, pair.encryption)
               && r'.downloads == r.downloads[g := pair] && r'.vouched == r.vouched
               && Highest(r'.rows, X002, Pending) == Some(g) == Highest(r'.rows, E002, Pending)
               && Resolved(r'.rows) == Resolved(r.rows)
  {
    var g := NextGeneration(r.rows);
    var cleared := CommitAll(r, Restate(Staged(r.rows), Superseded));
    StageIsCleared(r);
    CommitJoins(r, Restate(Staged(r.rows), Superseded), [Insert(X002, g, Pending, pair), Insert(E002, g, Pending, pair)]);
    var w, v := Insert(X002, g, Pending, pair), Insert(E002, g, Pending, pair);
    TwoCommits(cleared, w, v);
    var r' := Performed(r, Run(Stage(pair), steps));
    assert Script(r, Stage(pair)) == Restate(Staged(r.rows), Superseded) + [w, v];
    assert r' == Commit(Commit(cleared, w), v);
    assert forall k | 0 <= k < |r.rows| :: r'.rows[k] == cleared.rows[k];
    ResolvedKept(r.rows, r'.rows);
  }

  lemma TwoCommits(r: Ring, w: Write, v: Write)
    ensures CommitAll(r, [w, v]) == Commit(Commit(r, w), v)
  {
    var a := Commit(r, w);
    assert [w, v][1..] == [v] && [v][1..] == [] && CommitAll(Commit(a, v), []) == Commit(a, v);
    assert CommitAll(a, [v]) == Commit(a, v);
  }

  // --- a confirmation ----------------------------------------------------------------------------

  /** A confirmation that finishes: the rows of the staged generation are active and vouched
      for, those that were active are superseded, and no other row is touched. */
  lemma ConfirmedExactly(r: Ring, steps: nat)
    requires Sound(r) && BothStaged(r.rows) && steps >= 4
    ensures var r' := Performed(r, Run(Confirm(true), steps));
            var g := Highest(r.rows, X002, Pending).value;
            && |r'.rows| == |r.rows| && r'.downloads == r.downloads && r'.vouched == r.vouched + {g}
            && forall k | 0 <= k < |r.rows| ::
                 r'.rows[k] == r.rows[k].(status := if r.rows[k].generation == g then Active
                                                    else if r.rows[k].status == Active then Superseded
                                                    else r.rows[k].status)
  {
    var g := Highest(r.rows, X002, Pending).value;
    StagedPairIsOne(r, g, Highest(r.rows, E002, Pending).value);
    ConfirmingIs(r.rows);
    var r0 := Vouched(r, Confirm(true));
    FirstFour(r0, Confirming(r.rows));
    assert Confirming(r.rows)[..4] == Confirming(r.rows);
    forall k: nat | k < |r.rows|
      ensures ConfirmedRing(r0, g).rows[k]
           == r.rows[k].(status := if r.rows[k].generation == g then Active
                                   else if r.rows[k].status == Active then Superseded
                                   else r.rows[k].status)
    {
      ConfirmedRow(r0, g, k);
    }
  }

  /** A comparison that fails, or one before both keys are staged, changes nothing. */
  lemma MismatchChangesNothing(r: Ring, matches: bool, steps: nat)
    requires !matches || !BothStaged(r.rows)
    ensures Performed(r, Run(Confirm(matches), steps)) == r
  {
    var run := Run(Confirm(matches), steps);
    var script := Script(r, run.op);
    assert run.op.matches == matches && script == [] && Vouched(r, run.op) == r;
    assert Performed(r, run) == CommitAll(r, script);
  }

  /** From download to trust: the pair staged and then confirmed is the pair the service
      works with ... */
  lemma StagedThenConfirmed(r: Ring, pair: Pair, s: nat, t: nat)
    requires Sound(r) && s >= 4 && t >= 4
    ensures Resolved(Performed(Performed(r, Run(Stage(pair), s)), Run(Confirm(true), t)).rows) == Some(pair)
  {
    StagedIsThePair(r, pair, s);
    PerformedKeepsSound(r, Run(Stage(pair), s));
    ConfirmedPair(Performed(r, Run(Stage(pair), s)), pair, t);
  }

  lemma ConfirmedPair(staged: Ring, pair: Pair, t: nat)
    requires Sound(staged) && BothStaged(staged.rows) && t >= 4
    requires var g := Highest(staged.rows, X002, Pending).value; g in staged.downloads && staged.downloads[g] == pair
    ensures Resolved(Performed(staged, Run(Confirm(true), t)).rows) == Some(pair)
  {
    ConfirmingIs(staged.rows);
    ConfirmedIsResolved(staged);
    VouchingKeepsRows(staged, Vouched(staged, Confirm(true)), Confirming(staged.rows));
  }

  /** ... and declined instead, it leaves the service with what it had. */
  lemma StagedThenDeclined(r: Ring, pair: Pair, s: nat, t: nat)
    requires Sound(r) && s >= 4 && t >= 2
    ensures Resolved(Performed(Performed(r, Run(Stage(pair), s)), Run(Decline, t)).rows) == Resolved(r.rows)
  {
    StagedIsThePair(r, pair, s);
    PerformedKeepsSound(r, Run(Stage(pair), s));
    DeclinedIsSetAside(Performed(r, Run(Stage(pair), s)), t);
  }

  /** What is vouched for is remembered beside the rows, and no transaction reads it. */
  lemma {:induction false} VouchingKeepsRows(a: Ring, b: Ring, ws: seq<Write>)
    requires a.rows == b.rows
    ensures CommitAll(a, ws).rows == CommitAll(b, ws).rows
    decreases |ws|
  {
    if ws != [] { VouchingKeepsRows(Commit(a, ws[0]), Commit(b, ws[0]), ws[1..]); }
  }

  // --- the direct path -----------------------------------------------------------------------------

  /** Storing a pair that was already compared ends with that pair in use, whatever was there. */
  lemma AcceptedIsResolved(r: Ring, pair: Pair)
    requires Sound(r)
    ensures Resolved(AfterAccepting(r, pair, 4).rows) == Some(pair)
  {
    var g, n := NextGeneration(r.rows), |r.rows|;
    FirstFour(r, Accepting(r.rows, pair));
    var rows := AfterAccepting(r, pair, 4).rows;
    assert |rows| == n + 2;
    assert rows[n] == Row(X002, g, Active, pair.authentication) && rows[n + 1] == Row(E002, g, Active, pair.encryption);
    assert forall k | 0 <= k < n :: rows[k].generation < g && rows[k].status != Active;
    ActiveResolves(rows, g, pair);
  }
}
