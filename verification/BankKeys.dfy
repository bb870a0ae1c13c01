/** The bank's keys at rest: staged as they arrive, trusted once compared. Every operation is
    several small transactions in a row, and a crash may fall between any two. */
module BankKeys {
  import opened Wrappers

  datatype Version = X002 | E002

  datatype Status = Active | Pending | Superseded

  datatype Row = Row(version: Version, generation: nat, status: Status, key: string)

  /** What one download delivered. */
  datatype Pair = Pair(authentication: string, encryption: string) {
    function Of(v: Version): string { if v.X002? then authentication else encryption }
  }

  /** The bank rows of one connection, with what is remembered about them: which download
      each generation came from, and which generations somebody vouched for. */
  datatype Ring = Ring(rows: seq<Row>, downloads: map<nat, Pair>, vouched: set<nat>)

  // --- single transactions -----------------------------------------------------------

  datatype Write =
    | SetStatus(version: Version, generation: nat, status: Status)
    | Supersede(version: Version)
    | Insert(version: Version, generation: nat, status: Status, pair: Pair)

  function Restated(rows: seq<Row>, w: Write): seq<Row>
    requires !w.Insert?
  {
    seq(|rows|, k requires 0 <= k < |rows| =>
      if w.SetStatus? && rows[k].version == w.version && rows[k].generation == w.generation then rows[k].(status := w.status)
      else if w.Supersede? && rows[k].version == w.version && rows[k].status == Active then rows[k].(status := Superseded)
      else rows[k])
  }

  function Commit(r: Ring, w: Write): Ring {
    if w.Insert? then
      r.(rows := r.rows + [Row(w.version, w.generation, w.status, w.pair.Of(w.version))],
         downloads := r.downloads[w.generation := w.pair])
    else r.(rows := Restated(r.rows, w))
  }

  function CommitAll(r: Ring, ws: seq<Write>): Ring
    decreases |ws|
  {
    if ws == [] then r else CommitAll(Commit(r, ws[0]), ws[1..])
  }

  // --- reading ---------------------------------------------------------------------------

  /** The generation of a version's row in this status, if there is one: the highest. */
  function Highest(rows: seq<Row>, v: Version, status: Status): (g: Option<nat>)
    ensures g.None? <==> forall k | 0 <= k < |rows| :: !(rows[k].version == v && rows[k].status == status)
    ensures g.Some? ==> exists k :: 0 <= k < |rows| && rows[k] == Row(v, g.value, status, rows[k].key)
    ensures g.Some? ==> forall k | 0 <= k < |rows| && rows[k].version == v && rows[k].status == status ::
                          rows[k].generation <= g.value
  {
    if rows == [] then None
    else
      var last := rows[|rows| - 1];
      var before := Highest(rows[..|rows| - 1], v, status);
      if last.version != v || last.status != status then before
      else if before.Some? && before.value > last.generation then before
      else Some(last.generation)
  }

  function NextGeneration(rows: seq<Row>): (g: nat)
    ensures g >= 1 && forall k | 0 <= k < |rows| :: rows[k].generation < g
  {
    if rows == [] then 1
    else
      var before := NextGeneration(rows[..|rows| - 1]);
      if before <= rows[|rows| - 1].generation then rows[|rows| - 1].generation + 1 else before
  }

  function KeyAt(rows: seq<Row>, v: Version, g: nat): (key: Option<string>)
    ensures key.Some? ==> exists k :: 0 <= k < |rows| && rows[k].version == v && rows[k].generation == g && rows[k].key == key.value
    ensures key.None? ==> forall k | 0 <= k < |rows| :: !(rows[k].version == v && rows[k].generation == g)
  {
    if rows == [] then None
    else if rows[0].version == v && rows[0].generation == g then Some(rows[0].key)
    else KeyAt(rows[1..], v, g)
  }

  /** The pair the service authenticates and encrypts with, or nothing. */
  function Resolved(rows: seq<Row>): Option<Pair> {
    var x, e := Highest(rows, X002, Active), Highest(rows, E002, Active);
    if x.None? || e.None? then None
    else
      var a, b := KeyAt(rows, X002, x.value), KeyAt(rows, E002, e.value);
      if a.Some? && b.Some? then Some(Pair(a.value, b.value)) else None
  }

  datatype Ref = Ref(version: Version, generation: nat)

  /** The staged rows, in the order the table lists them: by version, then generation. */
  function Staged(rows: seq<Row>): seq<Ref> { StagedOf(rows, E002) + StagedOf(rows, X002) }

  function StagedOf(rows: seq<Row>, v: Version): seq<Ref> {
    var g := Highest(rows, v, Pending);
    if g.Some? then [Ref(v, g.value)] else []
  }

  // --- the operations, as the transactions they make ------------------------------------

  function Restate(staged: seq<Ref>, status: Status): seq<Write> {
    seq(|staged|, k requires 0 <= k < |staged| => SetStatus(staged[k].version, staged[k].generation, status))
  }

  /** Store what a download delivered, vouched for by nobody; what was staged before goes. */
  function Staging(rows: seq<Row>, pair: Pair): seq<Write> {
    var g := NextGeneration(rows);
    Restate(Staged(rows), Superseded) + [Insert(X002, g, Pending, pair), Insert(E002, g, Pending, pair)]
  }

  predicate BothStaged(rows: seq<Row>) {
    Highest(rows, X002, Pending).Some? && Highest(rows, E002, Pending).Some?
  }

  /** Trust the staged pair: what was active goes first. */
  function Confirming(rows: seq<Row>): seq<Write> {
    [Supersede(X002), Supersede(E002)] + Restate(Staged(rows), Active)
  }

  function Declining(rows: seq<Row>): seq<Write> { Restate(Staged(rows), Superseded) }

  /** Store a pair that was already compared, one version after the other. */
  function Accepting(rows: seq<Row>, pair: Pair): seq<Write> {
    var g := NextGeneration(rows);
    [Supersede(X002), Insert(X002, g, Active, pair), Supersede(E002), Insert(E002, g, Active, pair)]
  }

  datatype Operation = Stage(pair: Pair) | Confirm(matches: bool) | Decline

  /** The transactions of an operation. A comparison that fails, or one with nothing to
      compare, makes none. */
  function Script(r: Ring, op: Operation): seq<Write> {
    match op
    case Stage(pair) => Staging(r.rows, pair)
    case Confirm(matches) => if matches && BothStaged(r.rows) then Confirming(r.rows) else []
    case Decline => Declining(r.rows)
  }

  /** A successful comparison vouches for the staged generation. */
  function Vouched(r: Ring, op: Operation): Ring {
    if op.Confirm? && op.matches && BothStaged(r.rows)
    then r.(vouched := r.vouched + {Highest(r.rows, X002, Pending).value, Highest(r.rows, E002, Pending).value})
    else r
  }

  /** An operation that crashed after `steps` of its transactions, or finished. */
  datatype Run = Run(op: Operation, steps: nat)

  function Performed(r: Ring, run: Run): Ring {
    var script := Script(r, run.op);
    CommitAll(Vouched(r, run.op), if run.steps < |script| then script[..run.steps] else script)
  }

  function PerformedAll(r: Ring, runs: seq<Run>): Ring
    decreases |runs|
  {
    if runs == [] then r else PerformedAll(Performed(r, runs[0]), runs[1..])
  }

  // --- what holds at every boundary --------------------------------------------------------

  /** The rows in this status are of one generation, at most one per version. */
  ghost predicate OneGeneration(rows: seq<Row>, status: Status) {
    forall j, k | 0 <= j < k < |rows| && rows[j].status == status && rows[k].status == status ::
      rows[j].generation == rows[k].generation && rows[j].version != rows[k].version
  }

  ghost predicate Sound(r: Ring) {
    && OneGeneration(r.rows, Active) && OneGeneration(r.rows, Pending)
    && (forall j, k | 0 <= j < k < |r.rows| ::
          !(r.rows[j].version == r.rows[k].version && r.rows[j].generation == r.rows[k].generation))
    && (forall k | 0 <= k < |r.rows| :: r.rows[k].generation in r.downloads
                                        && r.rows[k].key == r.downloads[r.rows[k].generation].Of(r.rows[k].version))
    && (forall k | 0 <= k < |r.rows| && r.rows[k].status == Active :: r.rows[k].generation in r.vouched)
  }

  const EMPTY := Ring([], map[], {})

  lemma CommitStep(r: Ring, ws: seq<Write>, n: nat)
    requires n < |ws|
    ensures CommitAll(r, ws[..n + 1]) == Commit(CommitAll(r, ws[..n]), ws[n])
    decreases n
  {
    if n == 0 {
      assert ws[..1] == [ws[0]] && ws[..1][1..] == [] && ws[..0] == [];
      assert CommitAll(Commit(r, ws[0]), []) == Commit(r, ws[0]);
    } else {
      assert ws[..n + 1][1..] == ws[1..][..n] && ws[..n][1..] == ws[1..][..n - 1];
      CommitStep(Commit(r, ws[0]), ws[1..], n - 1);
    }
  }

  /** Setting a staged row aside, or superseding, only takes rows out of use. */
  lemma SetAsideKeepsSound(r: Ring, w: Write)
    requires Sound(r) && (w.Supersede? || (w.SetStatus? && w.status == Superseded))
    ensures Sound(Commit(r, w))
  {
  }

  lemma InsertKeepsSound(r: Ring, w: Write)
    requires Sound(r) && w.Insert?
    requires forall k | 0 <= k < |r.rows| && r.rows[k].status == w.status ::
               r.rows[k].generation == w.generation && r.rows[k].version != w.version
    requires forall k | 0 <= k < |r.rows| && r.rows[k].generation == w.generation ::
               r.rows[k].version != w.version && r.downloads[w.generation] == w.pair
    requires w.status == Active ==> w.generation in r.vouched
    ensures Sound(Commit(r, w))
  {
  }

  /** Activating a staged row, when whatever else is active is its counterpart. */
  lemma ActivateKeepsSound(r: Ring, w: Write)
    requires Sound(r) && w.SetStatus? && w.status == Active && w.generation in r.vouched
    requires forall k | 0 <= k < |r.rows| && r.rows[k].status == Active ::
               r.rows[k].generation == w.generation && r.rows[k].version != w.version
    ensures Sound(Commit(r, w))
  {
  }

  // --- staging --------------------------------------------------------------------------

  /** Under soundness the listed rows are all the staged ones, so setting them aside clears
      the stage. */
  lemma StagedIsAll(r: Ring, k: nat)
    requires Sound(r) && k < |r.rows| && r.rows[k].status == Pending
    ensures Highest(r.rows, r.rows[k].version, Pending) == Some(r.rows[k].generation)
  {
  }

  lemma StagedNames(rows: seq<Row>)
    ensures forall w | w in Staged(rows) :: Highest(rows, w.version, Pending) == Some(w.generation)
    ensures forall v: Version | Highest(rows, v, Pending).Some? :: Ref(v, Highest(rows, v, Pending).value) in Staged(rows)
  {
  }

  lemma PendingIsStaged(r: Ring, k: nat)
    requires Sound(r) && k < |r.rows| && r.rows[k].status == Pending
    ensures Ref(r.rows[k].version, r.rows[k].generation) in Staged(r.rows)
  {
    StagedIsAll(r, k);
    StagedNames(r.rows);
  }

  /** `later` is `r` with some rows taken out of use, and no row brought into use. */
  ghost predicate Fewer(r: Ring, later: Ring) {
    && |later.rows| == |r.rows| && later.downloads == r.downloads && later.vouched == r.vouched
    && forall k | 0 <= k < |r.rows| ::
         && later.rows[k].version == r.rows[k].version && later.rows[k].generation == r.rows[k].generation
         && (later.rows[k].status == r.rows[k].status || later.rows[k].status == Superseded)
  }

  lemma SetAsideOne(r: Ring, mid: Ring, w: Write)
    requires Fewer(r, mid) && w.SetStatus? && w.status == Superseded
    ensures Fewer(r, Commit(mid, w))
    ensures forall k | 0 <= k < |r.rows| && mid.rows[k].status == Superseded :: Commit(mid, w).rows[k].status == Superseded
    ensures forall k | 0 <= k < |r.rows| && Ref(r.rows[k].version, r.rows[k].generation) == Ref(w.version, w.generation) ::
              Commit(mid, w).rows[k].status == Superseded
  {
  }

  lemma {:induction false} SetAsideAll(r: Ring, staged: seq<Ref>, n: nat)
    requires n <= |staged|
    ensures var r' := CommitAll(r, Restate(staged, Superseded)[..n]);
            && Fewer(r, r')
            && forall k, j | 0 <= k < |r.rows| && 0 <= j < n && staged[j] == Ref(r.rows[k].version, r.rows[k].generation) ::
                 r'.rows[k].status == Superseded
    decreases n
  {
    var ws := Restate(staged, Superseded);
    if n == 0 {
      assert ws[..0] == [];
    } else {
      SetAsideAll(r, staged, n - 1);
      CommitStep(r, ws, n - 1);
      SetAsideOne(r, CommitAll(r, ws[..n - 1]), ws[n - 1]);
    }
  }

  lemma {:induction false} SetAsideAllKeepsSound(r: Ring, staged: seq<Ref>, n: nat)
    requires Sound(r) && n <= |staged|
    ensures Sound(CommitAll(r, Restate(staged, Superseded)[..n]))
    decreases n
  {
    var ws := Restate(staged, Superseded);
    if n == 0 {
      assert ws[..0] == [];
    } else {
      SetAsideAllKeepsSound(r, staged, n - 1);
      CommitStep(r, ws, n - 1);
      SetAsideKeepsSound(CommitAll(r, ws[..n - 1]), ws[n - 1]);
    }
  }

  lemma {:induction false} CommitJoins(r: Ring, a: seq<Write>, b: seq<Write>)
    ensures CommitAll(r, a + b) == CommitAll(CommitAll(r, a), b)
    decreases |a|
  {
    if a == [] {
      assert a + b == b;
    } else {
      assert (a + b)[1..] == a[1..] + b;
      CommitJoins(Commit(r, a[0]), a[1..], b);
    }
  }

  /** The stage once it is clear, and the two inserts that follow. */
  lemma InsertPair(cleared: Ring, pair: Pair, g: nat)
    requires Sound(cleared)
    requires forall k | 0 <= k < |cleared.rows| :: cleared.rows[k].status != Pending && cleared.rows[k].generation < g
    ensures var x := Commit(cleared, Insert(X002, g, Pending, pair));
            Sound(x) && Sound(Commit(x, Insert(E002, g, Pending, pair)))
  {
    var w, v := Insert(X002, g, Pending, pair), Insert(E002, g, Pending, pair);
    InsertKeepsSound(cleared, w);
    InsertKeepsSound(Commit(cleared, w), v);
  }

  lemma StageEmpty(r: Ring, cleared: Ring)
    requires Sound(r) && cleared == CommitAll(r, Restate(Staged(r.rows), Superseded))
    ensures Sound(cleared) && |cleared.rows| == |r.rows|
    ensures forall k | 0 <= k < |cleared.rows| ::
              cleared.rows[k].status != Pending && cleared.rows[k].generation < NextGeneration(r.rows)
  {
    var staged := Staged(r.rows);
    SetAsideAll(r, staged, |staged|);
    SetAsideAllKeepsSound(r, staged, |staged|);
    assert Restate(staged, Superseded)[..|staged|] == Restate(staged, Superseded);
    forall k: nat | k < |r.rows| ensures cleared.rows[k].status != Pending {
      if r.rows[k].status == Pending { PendingIsStaged(r, k); }
    }
  }

  lemma StageKeepsSound(r: Ring, pair: Pair, n: nat)
    requires Sound(r) && n <= |Staging(r.rows, pair)|
    ensures Sound(CommitAll(r, Staging(r.rows, pair)[..n]))
  {
    var staged, g := Staged(r.rows), NextGeneration(r.rows);
    var ws := Staging(r.rows, pair);
    var m := |staged|;
    if n <= m {
      assert ws[..n] == Restate(staged, Superseded)[..n];
      SetAsideAllKeepsSound(r, staged, n);
    } else {
      var cleared := CommitAll(r, ws[..m]);
      assert ws[..m] == Restate(staged, Superseded);
      StageEmpty(r, cleared);
      InsertPair(cleared, pair, g);
      CommitStep(r, ws, m);
      if n == m + 2 { CommitStep(r, ws, m + 1); }
    }
  }

  // --- confirming -----------------------------------------------------------------------

  /** The five states of a confirmation: nothing done, one version superseded, both, one
      staged key active, both. */
  lemma ConfirmStates(r: Ring, g: nat)
    requires Sound(r) && g in r.vouched
    ensures var a := Commit(r, Supersede(X002));
            var b := Commit(a, Supersede(E002));
            var c := Commit(b, SetStatus(E002, g, Active));
            Sound(a) && Sound(b) && Sound(c) && Sound(Commit(c, SetStatus(X002, g, Active)))
  {
    var a := Commit(r, Supersede(X002));
    SetAsideKeepsSound(r, Supersede(X002));
    var b := Commit(a, Supersede(E002));
    SetAsideKeepsSound(a, Supersede(E002));
    assert forall k | 0 <= k < |b.rows| :: b.rows[k].status != Active;
    ActivateKeepsSound(b, SetStatus(E002, g, Active));
    ActivateKeepsSound(Commit(b, SetStatus(E002, g, Active)), SetStatus(X002, g, Active));
  }

  lemma ConfirmingIs(rows: seq<Row>)
    requires BothStaged(rows)
    ensures Confirming(rows) == [Supersede(X002), Supersede(E002),
                                 SetStatus(E002, Highest(rows, E002, Pending).value, Active),
                                 SetStatus(X002, Highest(rows, X002, Pending).value, Active)]
  {
  }

  lemma ConfirmKeepsSound(r: Ring, n: nat)
    requires Sound(r) && BothStaged(r.rows) && n <= |Confirming(r.rows)|
    ensures Sound(CommitAll(Vouched(r, Confirm(true)), Confirming(r.rows)[..n]))
  {
    var x, e := Highest(r.rows, X002, Pending).value, Highest(r.rows, E002, Pending).value;
    StagedPairIsOne(r, x, e);
    ConfirmingIs(r.rows);
    var r0 := Vouched(r, Confirm(true));
    assert Sound(r0);
    ConfirmStates(r0, x);
    FourSound(r0, Confirming(r.rows), n);
  }

  lemma FourSound(r: Ring, ws: seq<Write>, n: nat)
    requires |ws| == 4 && n <= 4 && Sound(r)
    requires var a := Commit(r, ws[0]);
             var b := Commit(a, ws[1]);
             var c := Commit(b, ws[2]);
             Sound(a) && Sound(b) && Sound(c) && Sound(Commit(c, ws[3]))
    ensures Sound(CommitAll(r, ws[..n]))
  {
    FirstFour(r, ws);
  }

  /** The states after the first transactions of a script of four. */
  lemma FirstFour(r: Ring, ws: seq<Write>)
    requires |ws| == 4
    ensures CommitAll(r, ws[..0]) == r
    ensures CommitAll(r, ws[..1]) == Commit(r, ws[0])
    ensures CommitAll(r, ws[..2]) == Commit(Commit(r, ws[0]), ws[1])
    ensures CommitAll(r, ws[..3]) == Commit(Commit(Commit(r, ws[0]), ws[1]), ws[2])
    ensures CommitAll(r, ws[..4]) == Commit(Commit(Commit(Commit(r, ws[0]), ws[1]), ws[2]), ws[3])
  {
    CommitStep(r, ws, 0);
    CommitStep(r, ws, 1);
    CommitStep(r, ws, 2);
    CommitStep(r, ws, 3);
  }

  lemma StagedPairIsOne(r: Ring, x: nat, e: nat)
    requires Sound(r) && Highest(r.rows, X002, Pending) == Some(x) && Highest(r.rows, E002, Pending) == Some(e)
    ensures x == e
  {
  }

  // --- at every transaction boundary -------------------------------------------------------

  function StepsTaken(r: Ring, run: Run): nat {
    var script := Script(r, run.op);
    if run.steps < |script| then run.steps else |script|
  }

  lemma PerformedIsAPrefix(r: Ring, run: Run)
    ensures StepsTaken(r, run) <= |Script(r, run.op)|
    ensures Performed(r, run) == CommitAll(Vouched(r, run.op), Script(r, run.op)[..StepsTaken(r, run)])
  {
    var script := Script(r, run.op);
    assert script[..|script|] == script;
  }

  lemma PerformedKeepsSound(r: Ring, run: Run)
    requires Sound(r)
    ensures Sound(Performed(r, run))
  {
    PerformedIsAPrefix(r, run);
    var n := StepsTaken(r, run);
    match run.op
    case Stage(pair) => StageKeepsSound(r, pair, n);
    case Confirm(matches) =>
      if matches && BothStaged(r.rows) { ConfirmKeepsSound(r, n); }
    case Decline => SetAsideAllKeepsSound(r, Staged(r.rows), n);
  }

  /** At every transaction boundary of any sequence of stagings, confirmations and refusals,
      each of which may crash anywhere: the active keys are of one generation, the staged
      ones are of one generation, and what the service resolves is nothing, or the pair of
      one download that somebody vouched for. */
  lemma {:induction false} ResolvedIsOneDownload(r: Ring, runs: seq<Run>)
    requires Sound(r)
    ensures var end := PerformedAll(r, runs);
            && Sound(end)
            && (Resolved(end.rows).Some? ==>
                  exists g :: g in end.vouched && g in end.downloads && Resolved(end.rows).value == end.downloads[g])
    decreases |runs|
  {
    if runs == [] {
      if Resolved(r.rows).Some? { ResolvedFromOne(r); }
    } else {
      PerformedKeepsSound(r, runs[0]);
      ResolvedIsOneDownload(Performed(r, runs[0]), runs[1..]);
    }
  }

  lemma ResolvedFromOne(r: Ring)
    requires Sound(r) && Resolved(r.rows).Some?
    ensures exists g :: g in r.vouched && g in r.downloads && Resolved(r.rows).value == r.downloads[g]
  {
    var x, e := Highest(r.rows, X002, Active).value, Highest(r.rows, E002, Active).value;
    var i :| 0 <= i < |r.rows| && r.rows[i] == Row(X002, x, Active, r.rows[i].key);
    var j :| 0 <= j < |r.rows| && r.rows[j] == Row(E002, e, Active, r.rows[j].key);
    assert x == e;
    assert Resolved(r.rows).value == r.downloads[x];
  }

  /** Each version has one active row, of this generation. */
  ghost predicate ActiveAt(rows: seq<Row>, g: nat) {
    && (forall k | 0 <= k < |rows| && rows[k].status == Active :: rows[k].generation == g)
    && HasActive(rows, X002) && HasActive(rows, E002)
  }

  ghost predicate HasActive(rows: seq<Row>, v: Version) {
    exists k :: 0 <= k < |rows| && rows[k].version == v && rows[k].status == Active
  }

  lemma ActiveResolves(rows: seq<Row>, g: nat, pair: Pair)
    requires ActiveAt(rows, g)
    requires forall k | 0 <= k < |rows| && rows[k].generation == g :: rows[k].key == pair.Of(rows[k].version)
    ensures Resolved(rows) == Some(pair)
  {
    var x, e := Highest(rows, X002, Active), Highest(rows, E002, Active);
    assert x == Some(g) && e == Some(g);
  }

  /** A confirmation that finishes makes the staged pair the resolved one. */
  lemma ConfirmedIsResolved(r: Ring)
    requires Sound(r) && BothStaged(r.rows)
    ensures var g := Highest(r.rows, X002, Pending).value;
            g in r.downloads && Resolved(CommitAll(r, Confirming(r.rows)).rows) == Some(r.downloads[g])
  {
    var x, e := Highest(r.rows, X002, Pending).value, Highest(r.rows, E002, Pending).value;
    StagedPairIsOne(r, x, e);
    ConfirmingIs(r.rows);
    FirstFour(r, Confirming(r.rows));
    assert Confirming(r.rows)[..4] == Confirming(r.rows);
    var end := CommitAll(r, Confirming(r.rows));
    ConfirmedRows(r, x);
    ActiveResolves(end.rows, x, r.downloads[x]);
  }

  /** What a confirmation does to each row: its generation becomes active, what was active
      is superseded. */
  lemma ConfirmedRow(r: Ring, g: nat, k: nat)
    requires k < |r.rows|
    ensures var end := Commit(Commit(Commit(Commit(r, Supersede(X002)), Supersede(E002)),
                                     SetStatus(E002, g, Active)), SetStatus(X002, g, Active));
            && |end.rows| == |r.rows|
            && end.rows[k] == r.rows[k].(status := if r.rows[k].generation == g then Active
                                                   else if r.rows[k].status == Active then Superseded
                                                   else r.rows[k].status)
  {
  }

  /** The ring after a confirmation of generation `g`. */
  function ConfirmedRing(r: Ring, g: nat): Ring {
    Commit(Commit(Commit(Commit(r, Supersede(X002)), Supersede(E002)), SetStatus(E002, g, Active)), SetStatus(X002, g, Active))
  }

  lemma ConfirmedStays(r: Ring, g: nat, k: nat)
    requires k < |r.rows|
    ensures var end := ConfirmedRing(r, g);
            && |end.rows| == |r.rows|
            && end.rows[k].generation == r.rows[k].generation && end.rows[k].key == r.rows[k].key
            && end.rows[k].version == r.rows[k].version
            && (end.rows[k].status == Active <==> r.rows[k].generation == g)
  {
    ConfirmedRow(r, g, k);
  }

  lemma ConfirmedHas(r: Ring, g: nat, v: Version)
    requires Highest(r.rows, v, Pending) == Some(g)
    ensures HasActive(ConfirmedRing(r, g).rows, v)
  {
    var i :| 0 <= i < |r.rows| && r.rows[i] == Row(v, g, Pending, r.rows[i].key);
    ConfirmedStays(r, g, i);
  }

  lemma ConfirmedRows(r: Ring, g: nat)
    requires Sound(r) && Highest(r.rows, X002, Pending) == Highest(r.rows, E002, Pending) == Some(g)
    ensures var end := ConfirmedRing(r, g);
            && ActiveAt(end.rows, g) && g in r.downloads
            && forall k | 0 <= k < |end.rows| && end.rows[k].generation == g :: end.rows[k].key == r.downloads[g].Of(end.rows[k].version)
  {
    ConfirmedHas(r, g, X002);
    ConfirmedHas(r, g, E002);
    var end := ConfirmedRing(r, g);
    forall k: nat | k < |r.rows|
      ensures end.rows[k].status == Active ==> end.rows[k].generation == g
      ensures end.rows[k].generation == g ==> end.rows[k].key == r.downloads[g].Of(end.rows[k].version)
    {
      ConfirmedStays(r, g, k);
    }
  }

  // --- the direct path ------------------------------------------------------------------------

  /** The rows after the first `n` transactions. */
  function AfterAccepting(r: Ring, pair: Pair, n: nat): Ring
    requires n <= 4
  {
    CommitAll(r, Accepting(r.rows, pair)[..n])
  }

  /** Storing an already compared pair replaces one version after the other. Its crash points
      all leave the active keys on one generation exactly when no `E002` key was active at
      the start. */
  lemma AcceptIsSafeIff(r: Ring, pair: Pair)
    requires Sound(r)
    ensures (forall n: nat | n <= 4 :: OneGeneration(AfterAccepting(r, pair, n).rows, Active)) <==>
            Highest(r.rows, E002, Active).None?
  {
    var g := NextGeneration(r.rows);
    var ws := Accepting(r.rows, pair);
    FirstFour(r, ws);
    var r2 := Commit(Commit(r, ws[0]), ws[1]);
    assert |r2.rows| == |r.rows| + 1 && r2.rows[|r.rows|].generation == g && r2.rows[|r.rows|].status == Active;
    if Highest(r.rows, E002, Active).None? {
      AcceptStates(r, pair, g);
      forall n: nat | n <= 4 ensures OneGeneration(AfterAccepting(r, pair, n).rows, Active) {
        assert n == 0 || n == 1 || n == 2 || n == 3 || n == 4;
      }
    } else {
      var k :| 0 <= k < |r.rows| && r.rows[k].version == E002 && r.rows[k].status == Active;
      assert r2.rows[k] == r.rows[k];
      assert !OneGeneration(AfterAccepting(r, pair, 2).rows, Active);
    }
  }

  lemma AcceptStates(r: Ring, pair: Pair, g: nat)
    requires Sound(r) && Highest(r.rows, E002, Active).None?
    ensures var a := Commit(r, Supersede(X002));
            var b := Commit(a, Insert(X002, g, Active, pair));
            var c := Commit(b, Supersede(E002));
            var d := Commit(c, Insert(E002, g, Active, pair));
            && OneGeneration(a.rows, Active) && OneGeneration(b.rows, Active)
            && OneGeneration(c.rows, Active) && OneGeneration(d.rows, Active)
  {
    var a := Commit(r, Supersede(X002));
    assert forall k | 0 <= k < |a.rows| :: a.rows[k].status != Active;
  }
}
