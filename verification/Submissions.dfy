/** Concurrent submissions under one idempotency key. A submission is three database
    transactions -- look the key up, insert, and after a lost race look it up again -- and
    those of any number of submissions, and of every other step of the service, interleave. */
module Submissions {
  import opened Wrappers
  import opened Schemes
  import opened Orders
  import opened OrderInvariant
  import OrderRuns

  datatype Outcome = Created(order: nat) | Repeated(order: nat) | Conflict(order: nat) | NotRecorded | Unavailable

  datatype Phase = Started | Searched | LostRace | Done(outcome: Outcome)

  datatype Submission = Submission(request: Request, phase: Phase)

  /** `creators` remembers which submission inserted each order row. */
  datatype World = World(tables: Tables, submissions: map<nat, Submission>, creators: seq<nat>)

  datatype Move =
    | Arrive(id: nat, request: Request)
    | Find(id: nat)
    | Insert(id: nat, profiles: Profiles, instruction: Instruction, first: Letter, second: Letter)
    | FindAgain(id: nat)
    | Other(event: Event)

  predicate HasKey(o: Order, q: Request) {
    o.connectionId == q.connectionId && o.idempotencyKey == q.idempotencyKey
  }

  function Lookup(orders: seq<Order>, q: Request): (r: Option<nat>)
    ensures r.Some? ==> r.value < |orders| && HasKey(orders[r.value], q)
    ensures r.None? ==> forall i | 0 <= i < |orders| :: !HasKey(orders[i], q)
  {
    if orders == [] then None
    else
      var last := |orders| - 1;
      if HasKey(orders[last], q) then Some(last) else Lookup(orders[..last], q)
  }

  /** A second submission under a key is a repetition when its fingerprint is the order's, and
      a conflict when it is not. */
  function Judged(orders: seq<Order>, i: nat, q: Request): Outcome
    requires i < |orders|
  {
    if orders[i].fingerprint == q.fingerprint then Repeated(i) else Conflict(i)
  }

  function Advance(w: World, id: nat, phase: Phase): World
    requires id in w.submissions
  {
    w.(submissions := w.submissions[id := w.submissions[id].(phase := phase)])
  }

  predicate At(w: World, id: nat, phase: Phase) {
    id in w.submissions && w.submissions[id].phase == phase
  }

  function Next(w: World, m: Move): World {
    match m
    case Arrive(id, q) =>
      if id in w.submissions then w else w.(submissions := w.submissions[id := Submission(q, Started)])
    case Find(id) =>
      if !At(w, id, Started) then w else
      var q := w.submissions[id].request;
      var found := Lookup(w.tables.orders, q);
      Advance(w, id, if found.Some? then Done(Judged(w.tables.orders, found.value, q)) else Searched)
    case Insert(id, profiles, instruction, first, second) =>
      if !At(w, id, Searched) then w else
      var q := w.submissions[id].request;
      var d := Resolve(profiles, instruction);
      if d.Failure? then Advance(w, id, Done(Unavailable))
      else if Insertable(w.tables, q, d.value, first, second) then
        Advance(w, id, Done(Created(|w.tables.orders|)))
          .(tables := Step(w.tables, Accept(q, profiles, instruction, first, second)), creators := w.creators + [id])
      else Advance(w, id, LostRace)
    case FindAgain(id) =>
      if !At(w, id, LostRace) then w else
      var q := w.submissions[id].request;
      var found := Lookup(w.tables.orders, q);
      Advance(w, id, Done(if found.Some? then Judged(w.tables.orders, found.value, q) else NotRecorded))
    case Other(e) => w.(tables := Step(w.tables, e))
  }

  /** Orders come into being by submission only; every other step keeps its own terms. */
  predicate Allowed(w: World, m: Move) {
    m.Other? ==> !m.event.Accept? && Enabled(w.tables, m.event)
  }

  function Play(w: World, ms: seq<Move>): World
    decreases |ms|
  {
    if ms == [] then w else Play(Next(w, ms[0]), ms[1..])
  }

  predicate AllAllowed(w: World, ms: seq<Move>)
    decreases |ms|
  {
    ms == [] || (Allowed(w, ms[0]) && AllAllowed(Next(w, ms[0]), ms[1..]))
  }

  const START := World(EMPTY, map[], [])

  predicate Consistent(orders: seq<Order>, s: Submission) {
    s.phase.Done? ==>
      match s.phase.outcome
      case Created(i) => i < |orders| && HasKey(orders[i], s.request) && orders[i].fingerprint == s.request.fingerprint
      case Repeated(i) => i < |orders| && HasKey(orders[i], s.request) && orders[i].fingerprint == s.request.fingerprint
      case Conflict(i) => i < |orders| && HasKey(orders[i], s.request) && orders[i].fingerprint != s.request.fingerprint
      case NotRecorded => true
      case Unavailable => true
  }

  /** Each order was created by one submission, and by no other. */
  ghost predicate Recorded(w: World) {
    && |w.creators| == |w.tables.orders|
    && (forall id | id in w.submissions :: Consistent(w.tables.orders, w.submissions[id]))
    && (forall i | 0 <= i < |w.creators| :: At(w, w.creators[i], Done(Created(i))))
    && (forall id | id in w.submissions && w.submissions[id].phase.Done? && w.submissions[id].phase.outcome.Created? ::
          var i := w.submissions[id].phase.outcome.order;
          i < |w.creators| && w.creators[i] == id)
  }

  ghost predicate Sound(w: World) { Inv(w.tables) && Recorded(w) }

  lemma OtherKeepsLength(t: Tables, e: Event)
    requires !e.Accept?
    ensures |Step(t, e).orders| == |t.orders|
  {
    if RewritesOneRow(e) { OnlyTheTarget(t, e); }
  }

  lemma OtherKeepsOrders(t: Tables, e: Event)
    requires !e.Accept?
    ensures |Step(t, e).orders| == |t.orders|
    ensures forall i | 0 <= i < |t.orders| :: SameIdentity(Step(t, e).orders[i], t.orders[i])
  {
    OtherKeepsLength(t, e);
    forall i: nat | i < |t.orders| ensures SameIdentity(Step(t, e).orders[i], t.orders[i]) {
      OrderRuns.StepKeepsIdentity(t, e, i);
    }
  }

  /** Moving a submission on without touching the tables. */
  lemma AdvanceKeepsRecorded(w: World, id: nat, phase: Phase)
    requires Recorded(w) && id in w.submissions && !w.submissions[id].phase.Done?
    requires Consistent(w.tables.orders, w.submissions[id].(phase := phase))
    requires phase.Done? ==> !phase.outcome.Created?
    ensures Recorded(Advance(w, id, phase))
  {
    var w' := Advance(w, id, phase);
    forall i | 0 <= i < |w'.creators| ensures At(w', w'.creators[i], Done(Created(i))) {
      assert At(w, w.creators[i], Done(Created(i)));
    }
  }

  /** The order the insert adds, and who made it. */
  lemma CreateKeepsRecorded(w: World, w': World, id: nat)
    requires Recorded(w) && At(w, id, Searched)
    requires |w'.tables.orders| == |w.tables.orders| + 1 && w'.tables.orders[..|w.tables.orders|] == w.tables.orders
    requires w'.creators == w.creators + [id]
    requires w'.submissions == w.submissions[id := w.submissions[id].(phase := Done(Created(|w.tables.orders|)))]
    requires var q, o := w.submissions[id].request, w'.tables.orders[|w.tables.orders|];
             HasKey(o, q) && o.fingerprint == q.fingerprint
    ensures Recorded(w')
  {
    forall i | 0 <= i < |w'.creators| ensures At(w', w'.creators[i], Done(Created(i))) {
      if i < |w.creators| { assert At(w, w.creators[i], Done(Created(i))); }
    }
    assert forall i | 0 <= i < |w.tables.orders| :: w'.tables.orders[i] == w'.tables.orders[..|w.tables.orders|][i];
    forall other | other in w'.submissions ensures Consistent(w'.tables.orders, w'.submissions[other]) {
      if other != id { assert Consistent(w.tables.orders, w.submissions[other]); }
    }
  }

  lemma CreateKeepsSound(w: World, id: nat, profiles: Profiles, instruction: Instruction, first: Letter, second: Letter)
    requires Sound(w) && At(w, id, Searched)
    requires var d := Resolve(profiles, instruction);
             d.Success? && Insertable(w.tables, w.submissions[id].request, d.value, first, second)
    ensures Sound(Next(w, Insert(id, profiles, instruction, first, second)))
  {
    var q := w.submissions[id].request;
    var w' := Next(w, Insert(id, profiles, instruction, first, second));
    StepKeepsInv(w.tables, Accept(q, profiles, instruction, first, second));
    assert w'.tables == Inserted(w.tables, q, Resolve(profiles, instruction).value, first, second);
    CreateKeepsRecorded(w, w', id);
  }

  lemma OtherKeepsRecorded(w: World, w': World)
    requires Recorded(w) && w'.submissions == w.submissions && w'.creators == w.creators
    requires |w'.tables.orders| == |w.tables.orders|
    requires forall i | 0 <= i < |w.tables.orders| :: SameIdentity(w'.tables.orders[i], w.tables.orders[i])
    ensures Recorded(w')
  {
    forall id | id in w'.submissions ensures Consistent(w'.tables.orders, w'.submissions[id]) {
      assert Consistent(w.tables.orders, w.submissions[id]);
    }
    forall i | 0 <= i < |w'.creators| ensures At(w', w'.creators[i], Done(Created(i))) {
      assert At(w, w.creators[i], Done(Created(i)));
    }
  }

  lemma OtherKeepsSound(w: World, e: Event)
    requires Sound(w) && Allowed(w, Other(e))
    ensures Sound(Next(w, Other(e)))
  {
    OtherKeepsOrders(w.tables, e);
    StepKeepsInv(w.tables, e);
    OtherKeepsRecorded(w, Next(w, Other(e)));
  }

  lemma ArriveKeepsRecorded(w: World, id: nat, q: Request)
    requires Recorded(w)
    ensures Recorded(Next(w, Arrive(id, q)))
  {
    var w' := Next(w, Arrive(id, q));
    forall i | 0 <= i < |w'.creators| ensures At(w', w'.creators[i], Done(Created(i))) {
      assert At(w, w.creators[i], Done(Created(i)));
    }
  }

  lemma LookingKeepsRecorded(w: World, m: Move)
    requires Recorded(w) && (m.Find? || m.FindAgain?)
    ensures Recorded(Next(w, m)) && Next(w, m).tables == w.tables
  {
    if At(w, m.id, if m.Find? then Started else LostRace) {
      AdvanceKeepsRecorded(w, m.id, Next(w, m).submissions[m.id].phase);
    }
  }

  lemma InsertKeepsSound(w: World, id: nat, profiles: Profiles, instruction: Instruction, first: Letter, second: Letter)
    requires Sound(w)
    ensures Sound(Next(w, Insert(id, profiles, instruction, first, second)))
  {
    if At(w, id, Searched) {
      var d := Resolve(profiles, instruction);
      if d.Success? && Insertable(w.tables, w.submissions[id].request, d.value, first, second) {
        CreateKeepsSound(w, id, profiles, instruction, first, second);
      } else {
        AdvanceKeepsRecorded(w, id, if d.Failure? then Done(Unavailable) else LostRace);
      }
    }
  }

  lemma NextKeepsSound(w: World, m: Move)
    requires Sound(w) && Allowed(w, m)
    ensures Sound(Next(w, m))
  {
    match m
    case Other(e) => OtherKeepsSound(w, e);
    case Arrive(id, q) => ArriveKeepsRecorded(w, id, q);
    case Find(_) => LookingKeepsRecorded(w, m);
    case FindAgain(_) => LookingKeepsRecorded(w, m);
    case Insert(id, profiles, instruction, first, second) => InsertKeepsSound(w, id, profiles, instruction, first, second);
  }

  lemma {:induction false} PlayKeepsSound(w: World, ms: seq<Move>)
    requires Sound(w) && AllAllowed(w, ms)
    ensures Sound(Play(w, ms))
    decreases |ms|
  {
    if ms != [] {
      NextKeepsSound(w, ms[0]);
      PlayKeepsSound(Next(w, ms[0]), ms[1..]);
    }
  }

  /** The caller was given an order. */
  predicate Succeeded(s: Submission) {
    s.phase.Done? && (s.phase.outcome.Created? || s.phase.outcome.Repeated?)
  }

  /** What two submissions under one connection and key were told, once both are recorded. */
  lemma TwoUnderOneKey(w: World, a: nat, b: nat)
    requires Recorded(w) && DistinctKeys(w.tables) && a in w.submissions && b in w.submissions
    requires w.submissions[a].request.connectionId == w.submissions[b].request.connectionId
    requires w.submissions[a].request.idempotencyKey == w.submissions[b].request.idempotencyKey
    requires Succeeded(w.submissions[a])
    ensures var (x, y) := (w.submissions[a], w.submissions[b]);
            && (Succeeded(y) ==>
                  && x.phase.outcome.order == y.phase.outcome.order
                  && x.request.fingerprint == y.request.fingerprint
                  && (x.phase.outcome.Created? && y.phase.outcome.Created? ==> a == b))
            && (x.request.fingerprint != y.request.fingerprint ==>
                  y.phase.Done? ==> y.phase.outcome in {Conflict(x.phase.outcome.order), NotRecorded, Unavailable})
            && At(w, w.creators[x.phase.outcome.order], Done(Created(x.phase.outcome.order)))
  {
    assert Consistent(w.tables.orders, w.submissions[a]) && Consistent(w.tables.orders, w.submissions[b]);
  }

  /** For every interleaving: two submissions that succeed under one connection and key are
      given the same order; a success means the payload is the one that order was made
      from, a conflict that it is not; and one submission -- one only -- created it. */
  lemma OneOrderPerKey(ms: seq<Move>, a: nat, b: nat)
    requires AllAllowed(START, ms)
    requires a in Play(START, ms).submissions && b in Play(START, ms).submissions
    requires var w := Play(START, ms);
             && w.submissions[a].request.connectionId == w.submissions[b].request.connectionId
             && w.submissions[a].request.idempotencyKey == w.submissions[b].request.idempotencyKey
    ensures var w := Play(START, ms);
            var (x, y) := (w.submissions[a], w.submissions[b]);
            && (Succeeded(x) && Succeeded(y) ==>
                  && x.phase.outcome.order == y.phase.outcome.order
                  && x.request.fingerprint == y.request.fingerprint
                  && (x.phase.outcome.Created? && y.phase.outcome.Created? ==> a == b))
            && (Succeeded(x) && x.request.fingerprint != y.request.fingerprint ==>
                  y.phase.Done? ==> y.phase.outcome in {Conflict(x.phase.outcome.order), NotRecorded, Unavailable})
            && (Succeeded(x) ==> exists c :: At(w, c, Done(Created(x.phase.outcome.order))))
  {
    PlayKeepsSound(START, ms);
    if Succeeded(Play(START, ms).submissions[a]) { TwoUnderOneKey(Play(START, ms), a, b); }
  }

  /** At most one order row per connection and key, whatever the interleaving. */
  lemma KeyOwnsOneOrder(ms: seq<Move>, i: nat, j: nat)
    requires AllAllowed(START, ms)
    requires i < |Play(START, ms).tables.orders| && j < |Play(START, ms).tables.orders|
    requires var o := Play(START, ms).tables.orders;
             o[i].connectionId == o[j].connectionId && o[i].idempotencyKey == o[j].idempotencyKey
    ensures i == j
  {
    PlayKeepsSound(START, ms);
  }

  /** A submission nobody interrupts: it finds the order its key already owns and is judged by
      it, or is refused for its scheme, or creates the next order; only a message id that was
      used before leaves it without one. */
  lemma UninterruptedIsJudged(w: World, id: nat, q: Request, profiles: Profiles, instruction: Instruction, first: Letter, second: Letter)
    requires id !in w.submissions
    ensures var end := Next(Next(Next(Next(w, Arrive(id, q)), Find(id)), Insert(id, profiles, instruction, first, second)), FindAgain(id));
            var owned := Lookup(w.tables.orders, q);
            var d := Resolve(profiles, instruction);
            && id in end.submissions && end.submissions[id].request == q && end.submissions[id].phase.Done?
            && var outcome := end.submissions[id].phase.outcome;
               (if owned.Some? then
                 && end.tables == w.tables
                 && (w.tables.orders[owned.value].fingerprint == q.fingerprint ==> outcome == Repeated(owned.value))
                 && (w.tables.orders[owned.value].fingerprint != q.fingerprint ==> outcome == Conflict(owned.value))
               else if d.Failure? then end.tables == w.tables && outcome == Unavailable
               else if MsgIdTaken(w.tables, first.msgId)
                       || (d.value.fallback.Some? && (MsgIdTaken(w.tables, second.msgId) || first.msgId == second.msgId))
               then end.tables == w.tables && outcome == NotRecorded
               else outcome == Created(|w.tables.orders|) && end.creators == w.creators + [id]
                    && |end.tables.orders| == |w.tables.orders| + 1)
  {
    var w1 := Next(w, Arrive(id, q));
    var w2 := Next(w1, Find(id));
    assert w1.submissions[id].request == q && w1.tables == w.tables;
    if Lookup(w.tables.orders, q).None? { assert !KeyTaken(w.tables, q.connectionId, q.idempotencyKey); }
  }
}
