/** Payment schemes: the one decision that fixes the shape of a new order, taken before
    anything is signed. */
module Schemes {
  import opened Wrappers

  datatype Scheme = Normal | Instant | InstantOrNormal {
    predicate WantsInstant() { this != Normal }
  }

  /** One transfer of an instruction, as far as the decision reads it. */
  datatype Transfer = Transfer(amount: real, scheme: Option<Scheme>)

  datatype Instruction = Instruction(scheme: Option<Scheme>, transfers: seq<Transfer>)

  /** The instant profile of a connection; only its ceiling takes part in the decision. */
  datatype InstantProfile = InstantProfile(maxAmount: Option<real>)

  datatype Profiles = Profiles(default_: Scheme, instant: Option<InstantProfile>, refusalCodes: set<string>) {

    /** Membership of the whitelist; no code, or an empty one, is not a refusal. */
    predicate RefusesInstant(returnCode: Option<string>) {
      returnCode.Some? && returnCode.value != "" && returnCode.value in refusalCodes
    }
  }

  datatype Reason = Requested | ConnectionDefault | NoInstantProfile | AboveInstantCeiling

  datatype Refusal = MixedSchemes | InstantUnsupported | AboveCeiling

  datatype Decision = Decision(requested: Scheme, effective: Scheme, fallback: Option<Scheme>,
                               reason: Reason, perTransaction: bool, downgraded: bool)

  /** What a transfer that names no scheme of its own asks for. */
  function MessageScheme(profiles: Profiles, instruction: Instruction): Scheme {
    if instruction.scheme.Some? then instruction.scheme.value else profiles.default_
  }

  function WantedScheme(message: Scheme, t: Transfer): Scheme {
    if t.scheme.Some? then t.scheme.value else message
  }

  function WantedSchemes(message: Scheme, transfers: seq<Transfer>): set<Scheme> {
    set k | 0 <= k < |transfers| :: WantedScheme(message, transfers[k])
  }

  predicate NamedOnTransfer(instruction: Instruction) {
    exists k | 0 <= k < |instruction.transfers| :: instruction.transfers[k].scheme.Some?
  }

  /** The scheme the whole message asks for, unless its transfers disagree. */
  function RequestedScheme(profiles: Profiles, instruction: Instruction): Result<Scheme, Refusal> {
    var message := MessageScheme(profiles, instruction);
    if |WantedSchemes(message, instruction.transfers)| > 1 then Failure(MixedSchemes)
    else if instruction.transfers == [] then Success(message)
    else Success(WantedScheme(message, instruction.transfers[0]))
  }

  predicate OverCeiling(profile: InstantProfile, transfers: seq<Transfer>) {
    profile.maxAmount.Some? &&
    exists k | 0 <= k < |transfers| :: transfers[k].amount > profile.maxAmount.value
  }

  function Resolve(profiles: Profiles, instruction: Instruction): Result<Decision, Refusal> {
    var asked := RequestedScheme(profiles, instruction);
    if asked.Failure? then Failure(asked.error) else
    var requested := asked.value;
    var perTransaction := NamedOnTransfer(instruction);
    var origin := if perTransaction || instruction.scheme.Some? then Requested else ConnectionDefault;
    if !requested.WantsInstant() then
      Success(Decision(requested, Normal, None, origin, perTransaction, false))
    else if profiles.instant.None? then
      if requested != InstantOrNormal then Failure(InstantUnsupported)
      else Success(Decision(requested, Normal, None, NoInstantProfile, perTransaction, true))
    else if OverCeiling(profiles.instant.value, instruction.transfers) then
      if requested != InstantOrNormal then Failure(AboveCeiling)
      else Success(Decision(requested, Normal, None, AboveInstantCeiling, perTransaction, true))
    else
      Success(Decision(requested, Instant, if requested == InstantOrNormal then Some(Normal) else None,
                       origin, perTransaction, false))
  }

  /** Unanimous transfers leave one wanted scheme, and it is everybody's. */
  lemma SingleWantedScheme(message: Scheme, transfers: seq<Transfer>)
    ensures |WantedSchemes(message, transfers)| > 1 <==>
            exists j, k :: 0 <= j < |transfers| && 0 <= k < |transfers| &&
                           WantedScheme(message, transfers[j]) != WantedScheme(message, transfers[k])
  {
    var wanted := WantedSchemes(message, transfers);
    if |wanted| > 1 {
      var a :| a in wanted;
      var rest := wanted - {a};
      assert |rest| == |wanted| - 1;
      assert rest != {};
      var b :| b in rest;
      var j :| 0 <= j < |transfers| && WantedScheme(message, transfers[j]) == a;
      var k :| 0 <= k < |transfers| && WantedScheme(message, transfers[k]) == b;
    } else {
      forall j, k | 0 <= j < |transfers| && 0 <= k < |transfers|
        ensures WantedScheme(message, transfers[j]) == WantedScheme(message, transfers[k])
      {
        var a, b := WantedScheme(message, transfers[j]), WantedScheme(message, transfers[k]);
        assert a in wanted && b in wanted;
        assert |wanted - {a}| == 0;
        assert b !in wanted - {a};
      }
    }
  }

  /** What a decision means to the rest of the service: every transfer asked for the
      scheme it names, a reserve exists exactly for an instant order that allowed one, and
      an instant order fits the profile it is sent under. */
  lemma DecisionShape(profiles: Profiles, instruction: Instruction)
    ensures var d := Resolve(profiles, instruction);
            d.Success? ==>
              && d.value.effective != InstantOrNormal
              && (forall k | 0 <= k < |instruction.transfers| ::
                    WantedScheme(MessageScheme(profiles, instruction), instruction.transfers[k]) == d.value.requested)
              && (d.value.fallback.Some? <==> d.value.requested == InstantOrNormal && d.value.effective == Instant)
              && (d.value.fallback.Some? ==> d.value.fallback.value == Normal)
              && (d.value.requested == Normal ==> d.value.effective == Normal)
              && (d.value.requested == Instant ==> d.value.effective == Instant)
              && (d.value.downgraded <==> d.value.requested.WantsInstant() && d.value.effective == Normal)
              && (d.value.effective == Instant ==>
                    && profiles.instant.Some?
                    && forall k | 0 <= k < |instruction.transfers| ::
                         profiles.instant.value.maxAmount.Some? ==>
                           instruction.transfers[k].amount <= profiles.instant.value.maxAmount.value)
  {
    SingleWantedScheme(MessageScheme(profiles, instruction), instruction.transfers);
  }

  /** When a submission is refused: two transfers disagree, or plain instant was asked for
      and cannot be done. `InstantOrNormal` on its own is never refused. */
  lemma RefusedExactlyWhen(profiles: Profiles, instruction: Instruction)
    ensures var message := MessageScheme(profiles, instruction);
            var mixed := exists j, k :: 0 <= j < |instruction.transfers| && 0 <= k < |instruction.transfers| &&
                           WantedScheme(message, instruction.transfers[j]) != WantedScheme(message, instruction.transfers[k]);
            var instant := if instruction.transfers == [] then message == Instant
                           else WantedScheme(message, instruction.transfers[0]) == Instant;
            Resolve(profiles, instruction).Failure? <==>
              mixed || (instant && (profiles.instant.None? || OverCeiling(profiles.instant.value, instruction.transfers)))
  {
    SingleWantedScheme(MessageScheme(profiles, instruction), instruction.transfers);
  }

  /** Who names the scheme: the transfer itself, or else the message, or else the connection. */
  lemma NearestNameDecides(profiles: Profiles, instruction: Instruction)
    ensures var d := Resolve(profiles, instruction);
            d.Success? ==>
              && (forall k | 0 <= k < |instruction.transfers| ::
                    d.value.requested == if instruction.transfers[k].scheme.Some? then instruction.transfers[k].scheme.value
                                         else if instruction.scheme.Some? then instruction.scheme.value
                                         else profiles.default_)
              && (instruction.transfers == [] ==>
                    d.value.requested == if instruction.scheme.Some? then instruction.scheme.value else profiles.default_)
              && (d.value.perTransaction <==>
                    exists k :: 0 <= k < |instruction.transfers| && instruction.transfers[k].scheme.Some?)
  {
    SingleWantedScheme(MessageScheme(profiles, instruction), instruction.transfers);
  }

  /** Why a decision came out as it did. It names a downgrade first: no instant profile, or a
      transfer above the profile's ceiling; otherwise whether anybody asked. */
  lemma ReasonIsTheCause(profiles: Profiles, instruction: Instruction)
    ensures var d := Resolve(profiles, instruction);
            d.Success? ==>
              d.value.reason ==
                if d.value.downgraded && profiles.instant.None? then NoInstantProfile
                else if d.value.downgraded then AboveInstantCeiling
                else if d.value.perTransaction || instruction.scheme.Some? then Requested
                else ConnectionDefault
    ensures var d := Resolve(profiles, instruction);
            d.Success? && d.value.reason == AboveInstantCeiling ==>
              && profiles.instant.Some? && profiles.instant.value.maxAmount.Some?
              && exists k :: 0 <= k < |instruction.transfers|
                             && instruction.transfers[k].amount > profiles.instant.value.maxAmount.value
  {
  }

  /** Which refusal is raised: disagreement first, then the missing profile, then the ceiling. */
  lemma RefusalNamesTheCause(profiles: Profiles, instruction: Instruction)
    ensures var d := Resolve(profiles, instruction);
            var message := MessageScheme(profiles, instruction);
            d.Failure? ==>
              d.error == if (exists j, k :: 0 <= j < |instruction.transfers| && 0 <= k < |instruction.transfers| &&
                                            WantedScheme(message, instruction.transfers[j])
                                            != WantedScheme(message, instruction.transfers[k])) then MixedSchemes
                         else if profiles.instant.None? then InstantUnsupported
                         else AboveCeiling
  {
    SingleWantedScheme(MessageScheme(profiles, instruction), instruction.transfers);
  }
}
