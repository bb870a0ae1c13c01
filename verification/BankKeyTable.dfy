/** The bank key operations as they run: one row update per transaction, any of which may be
    the last. `steps` is how many transactions the process lives to make. */
module BankKeyTable {
  import opened Wrappers
  import opened BankKeys

  class KeyTable {
    var rows: seq<Row>
    ghost var downloads: map<nat, Pair>
    ghost var vouched: set<nat>

    ghost function View(): Ring
      reads this
    {
      Ring(rows, downloads, vouched)
    }

    ghost predicate Valid()
      reads this
    {
      Sound(View())
    }

    constructor ()
      ensures Valid() && View() == EMPTY
    {
      rows, downloads, vouched := [], map[], {};
    }

    method SetStatus(v: Version, generation: nat, status: Status)
      modifies this`rows
      ensures View() == Commit(old(View()), Write.SetStatus(v, generation, status))
    {
      var restated := [];
      for k := 0 to |rows|
        invariant |restated| == k && rows == old(rows)
        invariant forall j | 0 <= j < k :: restated[j] == Restated(rows, Write.SetStatus(v, generation, status))[j]
      {
        var row := rows[k];
        restated := restated + [if row.version == v && row.generation == generation then row.(status := status) else row];
      }
      assert restated == Restated(rows, Write.SetStatus(v, generation, status));
      rows := restated;
    }

    method Supersede(v: Version)
      modifies this`rows
      ensures View() == Commit(old(View()), Write.Supersede(v))
    {
      var restated := [];
      for k := 0 to |rows|
        invariant |restated| == k && rows == old(rows)
        invariant forall j | 0 <= j < k :: restated[j] == Restated(rows, Write.Supersede(v))[j]
      {
        var row := rows[k];
        restated := restated + [if row.version == v && row.status == Active then row.(status := Superseded) else row];
      }
      assert restated == Restated(rows, Write.Supersede(v));
      rows := restated;
    }

    method Store(v: Version, generation: nat, status: Status, pair: Pair)
      modifies this
      ensures View() == Commit(old(View()), Insert(v, generation, status, pair))
    {
      rows := rows + [Row(v, generation, status, pair.Of(v))];
      downloads := downloads[generation := pair];
    }

    /** Every staged row, in table order. */
    method StagedRows() returns (staged: seq<Ref>)
      requires Valid()
      ensures staged == Staged(rows)
    {
      var e := StagedOfVersion(E002);
      var x := StagedOfVersion(X002);
      return e + x;
    }

    method StagedOfVersion(v: Version) returns (staged: seq<Ref>)
      requires Valid()
      ensures staged == StagedOf(rows, v)
    {
      staged := [];
      for k := 0 to |rows|
        invariant staged == [] ==> forall j | 0 <= j < k :: !(rows[j].version == v && rows[j].status == Pending)
        invariant staged != [] ==> exists j :: 0 <= j < k && rows[j].version == v && rows[j].status == Pending
                                               && staged == [Ref(v, rows[j].generation)]
      {
        if rows[k].version == v && rows[k].status == Pending {
          staged := staged + [Ref(v, rows[k].generation)];
        }
      }
      if staged != [] {
        var j :| 0 <= j < |rows| && rows[j].version == v && rows[j].status == Pending && staged == [Ref(v, rows[j].generation)];
        StagedIsAll(View(), j);
      }
    }

    /** The state after `done` transactions of a script. */
    ghost predicate Reached(start: Ring, script: seq<Write>, done: nat)
      reads this
    {
      done <= |script| && View() == CommitAll(start, script[..done])
    }

    /** Store what a download delivered. */
    method Stage(pair: Pair, steps: nat)
      requires Valid()
      modifies this
      ensures Valid() && View() == Performed(old(View()), Run(Operation.Stage(pair), steps))
    {
      ghost var start := View();
      ghost var script := Staging(rows, pair);
      PerformedKeepsSound(start, Run(Operation.Stage(pair), steps));
      var staged := StagedRows();
      var generation := NextGeneration(rows);
      var done := 0;
      assert script[..|script|] == script;
      while done < |staged|
        invariant done <= |staged| && done <= steps && Reached(start, script, done)
      {
        if done == steps {
          return;
        }
        CommitStep(start, script, done);
        SetStatus(staged[done].version, staged[done].generation, Superseded);
        done := done + 1;
      }
      if done == steps {
        return;
      }
      CommitStep(start, script, done);
      Store(X002, generation, Pending, pair);
      if done + 1 == steps {
        return;
      }
      CommitStep(start, script, done + 1);
      Store(E002, generation, Pending, pair);
    }

    /** A matching comparison makes the staged pair active, one transaction at a time; any other
        changes nothing. */
    method Confirm(matches: bool, steps: nat)
      requires Valid()
      modifies this
      ensures Valid() && View() == Performed(old(View()), Run(Operation.Confirm(matches), steps))
    {
      ghost var start := View();
      PerformedKeepsSound(start, Run(Operation.Confirm(matches), steps));
      var staged := StagedRows();
      if |staged| != 2 || !matches {
        return;
      }
      vouched := vouched + {staged[0].generation, staged[1].generation};
      start := View();
      assert start == Vouched(old(View()), Operation.Confirm(true));
      ghost var script := Confirming(rows);
      assert script[..|script|] == script && |script| == 4;
      if steps == 0 {
        return;
      }
      CommitStep(start, script, 0);
      Supersede(X002);
      if steps == 1 {
        return;
      }
      CommitStep(start, script, 1);
      Supersede(E002);
      var done := 0;
      while done < 2
        invariant done <= 2 && done + 2 <= steps && Reached(start, script, done + 2)
      {
        if done + 2 == steps {
          return;
        }
        CommitStep(start, script, done + 2);
        SetStatus(staged[done].version, staged[done].generation, Active);
        done := done + 1;
      }
    }

    /** Everything staged goes out of use. */
    method Decline(steps: nat)
      requires Valid()
      modifies this
      ensures Valid() && View() == Performed(old(View()), Run(Operation.Decline, steps))
    {
      ghost var start := View();
      ghost var script := Declining(rows);
      PerformedKeepsSound(start, Run(Operation.Decline, steps));
      var staged := StagedRows();
      var done := 0;
      assert script[..|script|] == script;
      while done < |staged|
        invariant done <= |staged| && done <= steps && Reached(start, script, done)
      {
        if done == steps {
          return;
        }
        CommitStep(start, script, done);
        SetStatus(staged[done].version, staged[done].generation, Superseded);
        done := done + 1;
      }
    }

    /** The two keys the service works with, or nothing. */
    method Resolve() returns (pair: Option<Pair>)
      requires Valid()
      ensures pair == Resolved(rows)
      ensures pair.Some? ==> exists g :: g in vouched && g in downloads && downloads[g] == pair.value
    {
      var x, e := Highest(rows, X002, Active), Highest(rows, E002, Active);
      if x.None? || e.None? {
        return None;
      }
      var a, b := KeyAt(rows, X002, x.value), KeyAt(rows, E002, e.value);
      if a.None? || b.None? {
        return None;
      }
      ResolvedFromOne(View());
      return Some(Pair(a.value, b.value));
    }
  }
}
