/** Reading one bank status report (pain.002): which disposition each ISO 20022 status
    carries, which level of the report decides, and what it does to the order. */
module StatusReports {
  import opened Wrappers

  datatype Disposition = Accepts | Refuses | Partial | Undecided

  /** The reading of each known code; an unknown one has none. */
  function DispositionOf(code: string): Option<Disposition> {
    if code in {"ACTC", "ACCP", "ACFC", "ACSP", "ACSC", "ACCC", "ACWC", "ACWP", "ACPD"} then Some(Accepts)
    else if code in {"PART", "PATC"} then Some(Partial)
    else if code in {"RJCT", "CANC"} then Some(Refuses)
    else if code in {"RCVD", "PDNG", "BLCK"} then Some(Undecided)
    else None
  }

  /** The acknowledgements that only say the file was checked. */
  predicate Revocable(code: string) { code in {"ACTC", "ACCP", "ACFC"} }

  datatype Block = Block(status: Option<string>, transactions: seq<Option<string>>)

  /** One normalised report: the group status, the payment blocks with their transactions,
      and when the bank wrote it. */
  datatype Report = Report(group: Option<string>, blocks: seq<Block>, writtenAt: Option<int>)

  datatype Verdict = Acknowledges | Rejects

  datatype Outcome = Outcome(verdict: Option<Verdict>, status: Option<string>)

  function Reading(status: Option<string>): Option<Disposition> {
    if status.Some? then DispositionOf(status.value) else None
  }

  predicate Taken(status: Option<string>) { Reading(status) in {Some(Accepts), Some(Partial)} }

  predicate Refused(status: Option<string>) { Reading(status) == Some(Refuses) }

  function VerdictOf(d: Disposition): Option<Verdict> {
    match d
    case Accepts => Some(Acknowledges)
    case Partial => Some(Acknowledges)
    case Refuses => Some(Rejects)
    case Undecided => None
  }

  // --- the levels below the group -----------------------------------------

  function Transactions(blocks: seq<Block>): seq<Option<string>> {
    if blocks == [] then [] else blocks[0].transactions + Transactions(blocks[1..])
  }

  function BlockStatuses(blocks: seq<Block>): seq<Option<string>> {
    seq(|blocks|, k requires 0 <= k < |blocks| => blocks[k].status)
  }

  predicate AllTaken(level: seq<Option<string>>) { forall k | 0 <= k < |level| :: Taken(level[k]) }

  predicate AllRefused(level: seq<Option<string>>) { forall k | 0 <= k < |level| :: Refused(level[k]) }

  /** A level decides when it is not empty and is all taken or all refused; its first code
      then stands for it. */
  function LevelHead(level: seq<Option<string>>): Option<string> {
    if level != [] && (AllTaken(level) || AllRefused(level)) then level[0] else None
  }

  function Unanimous(blocks: seq<Block>): Option<string> {
    var head := LevelHead(Transactions(blocks));
    if head.Some? then head else LevelHead(BlockStatuses(blocks))
  }

  function Resolve(r: Report): Outcome {
    var status := if r.group.Some? then r.group else Unanimous(r.blocks);
    var reading := Reading(status);
    Outcome(if reading.Some? then VerdictOf(reading.value) else None, status)
  }

  // --- the tally ------------------------------------------------------------

  function CountTaken(statuses: seq<Option<string>>): nat {
    if statuses == [] then 0
    else CountTaken(statuses[..|statuses| - 1]) + if Taken(statuses[|statuses| - 1]) then 1 else 0
  }

  function CountRefused(statuses: seq<Option<string>>): nat {
    if statuses == [] then 0
    else CountRefused(statuses[..|statuses| - 1]) + if Refused(statuses[|statuses| - 1]) then 1 else 0
  }

  /** Each status is counted once: as taken, as refused, or, unknown and absent ones too, as
      undecided. */
  method Tally(statuses: seq<Option<string>>) returns (accepted: nat, rejected: nat, pending: nat)
    ensures accepted == CountTaken(statuses) && rejected == CountRefused(statuses)
    ensures accepted + rejected + pending == |statuses|
  {
    accepted, rejected, pending := 0, 0, 0;
    for k := 0 to |statuses|
      invariant accepted == CountTaken(statuses[..k]) && rejected == CountRefused(statuses[..k])
      invariant accepted + rejected + pending == k
    {
      assert statuses[..k + 1][..k] == statuses[..k];
      var known := Reading(statuses[k]);
      if known.None? {
        pending := pending + 1;
      } else if known.value in {Accepts, Partial} {
        accepted := accepted + 1;
      } else if known.value == Refuses {
        rejected := rejected + 1;
      } else {
        pending := pending + 1;
      }
    }
    assert statuses[..|statuses|] == statuses;
  }

  /** The tally tells unanimity: all of a level is taken, or refused, exactly when the
      count reaches its length. */
  lemma {:induction false} TallyShowsUnanimity(level: seq<Option<string>>)
    ensures CountTaken(level) + CountRefused(level) <= |level|
    ensures CountTaken(level) == |level| <==> AllTaken(level)
    ensures CountRefused(level) == |level| <==> AllRefused(level)
  {
    if level != [] {
      var front := level[..|level| - 1];
      TallyShowsUnanimity(front);
      assert forall k | 0 <= k < |front| :: front[k] == level[k];
    }
  }

  // --- what a verdict rests on ------------------------------------------------

  /** A rejection always rests on a refusal the bank wrote: at the group, on every
      transaction, or on every payment block. A partially accepted file is an
      acknowledgement, never the replayable `rejected`. */
  lemma RejectionRestsOnRefusal(r: Report)
    ensures Resolve(r).verdict == Some(Rejects) ==>
              || Refused(r.group)
              || (r.group.None? && Transactions(r.blocks) != [] && AllRefused(Transactions(r.blocks)))
              || (r.group.None? && r.blocks != [] && AllRefused(BlockStatuses(r.blocks)))
    ensures Reading(r.group) == Some(Partial) ==> Resolve(r).verdict == Some(Acknowledges)
    ensures Resolve(r).verdict == Some(Acknowledges) <==> Taken(Resolve(r).status)
    ensures Resolve(r).verdict == Some(Rejects) <==> Refused(Resolve(r).status)
  {
  }

  /** Transactions that do not agree decide nothing themselves: the report is then decided
      by its payment blocks, exactly when those are all taken or all refused. */
  lemma DisagreementFallsToBlocks(r: Report)
    requires r.group.None? && Transactions(r.blocks) != []
    requires !AllTaken(Transactions(r.blocks)) && !AllRefused(Transactions(r.blocks))
    ensures Resolve(r).verdict.Some? <==> AllTaken(BlockStatuses(r.blocks)) || AllRefused(BlockStatuses(r.blocks))
    ensures Resolve(r).verdict == Some(Acknowledges) <==> AllTaken(BlockStatuses(r.blocks))
    ensures Resolve(r).verdict == Some(Rejects) <==> AllRefused(BlockStatuses(r.blocks))
  {
    assert r.blocks != [];
    assert BlockStatuses(r.blocks)[0] == r.blocks[0].status;
  }

  /** When a report decides at all, level by level: the whole condition under which
      "anything less than unanimity leaves the order alone" fails is the second line. */
  lemma DecidesExactlyWhen(r: Report)
    requires r.group.None?
    ensures var below, blocks := Transactions(r.blocks), BlockStatuses(r.blocks);
            Resolve(r).verdict.Some? <==>
              || (below != [] && (AllTaken(below) || AllRefused(below)))
              || (r.blocks != [] && (AllTaken(blocks) || AllRefused(blocks)))
  {
    var below := Transactions(r.blocks);
    if below != [] && !AllTaken(below) && !AllRefused(below) {
      DisagreementFallsToBlocks(r);
    } else if below == [] && r.blocks != [] {
      assert BlockStatuses(r.blocks)[0] == r.blocks[0].status;
    }
  }

  /** So a report rejects an order one of whose transactions the bank took exactly when the
      transactions disagree and every block is refused. */
  lemma RejectsDespiteTaken(r: Report)
    requires r.group.None?
    ensures var below := Transactions(r.blocks);
            Resolve(r).verdict == Some(Rejects) && (exists k :: 0 <= k < |below| && Taken(below[k])) <==>
              && (exists k :: 0 <= k < |below| && Taken(below[k])) && !AllTaken(below)
              && r.blocks != [] && AllRefused(BlockStatuses(r.blocks))
  {
    var below := Transactions(r.blocks);
    if below != [] && !AllTaken(below) && !AllRefused(below) { DisagreementFallsToBlocks(r); }
  }

  /** And it acknowledges an order one of whose transactions the bank refused, or left
      undecided, exactly when every block is taken. */
  lemma AcknowledgesDespiteOthers(r: Report)
    requires r.group.None?
    ensures var below := Transactions(r.blocks);
            Resolve(r).verdict == Some(Acknowledges) && (exists k :: 0 <= k < |below| && !Taken(below[k])) <==>
              && (exists k :: 0 <= k < |below| && !Taken(below[k])) && !AllRefused(below)
              && r.blocks != [] && AllTaken(BlockStatuses(r.blocks))
  {
    var below := Transactions(r.blocks);
    if below != [] && !AllTaken(below) && !AllRefused(below) { DisagreementFallsToBlocks(r); }
  }

  /** Transactions the bank took and refused, under a block it refused, or took. */
  lemma DisagreeingTransactionsCanReject()
    ensures forall code | code in {"RJCT", "ACCP"} ::
              var r := Report(None, [Block(Some(code), [Some("ACCP"), Some("RJCT")])], None);
              && Taken(Transactions(r.blocks)[0]) && Refused(Transactions(r.blocks)[1])
              && Resolve(r).verdict == Some(if code == "RJCT" then Rejects else Acknowledges)
  {
    forall code | code in {"RJCT", "ACCP"}
      ensures var r := Report(None, [Block(Some(code), [Some("ACCP"), Some("RJCT")])], None);
              && Transactions(r.blocks) == [Some("ACCP"), Some("RJCT")]
              && Resolve(r).verdict == Some(if code == "RJCT" then Rejects else Acknowledges)
    {
      var r := Report(None, [Block(Some(code), [Some("ACCP"), Some("RJCT")])], None);
      assert r.blocks[1..] == [] && Transactions(r.blocks[1..]) == [];
      assert Transactions(r.blocks) == [Some("ACCP"), Some("RJCT")];
      assert Transactions(r.blocks)[0] == Some("ACCP") && Transactions(r.blocks)[1] == Some("RJCT");
      assert BlockStatuses(r.blocks)[0] == Some(code);
      DisagreementFallsToBlocks(r);
    }
  }

  /** Unanimously taken transactions acknowledge the order, and the status on record is the
      first one's. */
  lemma FirstStatusIsRecorded(r: Report)
    requires r.group.None? && Transactions(r.blocks) != [] && AllTaken(Transactions(r.blocks))
    ensures Resolve(r) == Outcome(Some(Acknowledges), Transactions(r.blocks)[0])
  {
  }
}
