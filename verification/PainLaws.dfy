/** What a bank reads in a payment besides its transfers: the message's own marks, addresses,
    banks and payment type codes; and what trimming and normalising do to a text. */
module PainLaws {
  import opened Wrappers
  import opened Documents
  import opened PainRead
  import Pain001

  // --- texts ----------------------------------------------------------------------------

  /** Cleaning takes the spaces off both ends and nothing else. */
  lemma CleanTrims(s: string) returns (before: string, words: string, after: string)
    ensures s == before + words + after
    ensures (forall c | c in before :: IsSpace(c)) && (forall c | c in after :: IsSpace(c))
    ensures words != "" ==> !IsSpace(words[0]) && !IsSpace(words[|words| - 1])
    ensures Clean(s) == if words == "" then None else Some(words)
  {
    before := StartTrimmed(s);
    var rest := TrimStart(s);
    after := EndTrimmed(rest);
    words := TrimEnd(rest);
    if words != "" { assert words[0] == rest[0]; }
  }

  lemma {:induction false} StartTrimmed(s: string) returns (before: string)
    ensures s == before + TrimStart(s) && forall c | c in before :: IsSpace(c)
    ensures TrimStart(s) != "" ==> !IsSpace(TrimStart(s)[0])
  {
    before := "";
    if s != "" && IsSpace(s[0]) {
      var more := StartTrimmed(s[1..]);
      before := [s[0]] + more;
    }
  }

  lemma {:induction false} EndTrimmed(s: string) returns (after: string)
    ensures s == TrimEnd(s) + after && forall c | c in after :: IsSpace(c)
    ensures TrimEnd(s) != "" ==> !IsSpace(TrimEnd(s)[|TrimEnd(s)| - 1])
  {
    after := "";
    if s != "" && IsSpace(s[|s| - 1]) {
      var more := EndTrimmed(s[..|s| - 1]);
      after := more + [s[|s| - 1]];
    }
  }

  /** Normalising works letter by letter ... */
  lemma NormalisedJoins(a: string, b: string)
    ensures Pain001.Normalised(a + b) == Pain001.Normalised(a) + Pain001.Normalised(b)
  {
    WithoutSpacesJoins(a, b);
  }

  lemma {:induction false} WithoutSpacesJoins(a: string, b: string)
    ensures Pain001.WithoutSpaces(a + b) == Pain001.WithoutSpaces(a) + Pain001.WithoutSpaces(b)
    decreases |a|
  {
    if a == "" {
      assert a + b == b;
    } else {
      assert (a + b)[0] == a[0] && (a + b)[1..] == a[1..] + b;
      WithoutSpacesJoins(a[1..], b);
    }
  }

  /** ... and drops a space, raises a small letter and keeps any other character. */
  lemma NormalisedLetter(c: char)
    ensures Pain001.Normalised([c]) == if IsSpace(c) then "" else if 'a' <= c <= 'z' then [(c as int - 32) as char] else [c]
  {
    var bare := Pain001.WithoutSpaces([c]);
    assert [c][1..] == "" && Pain001.WithoutSpaces("") == "";
    assert bare == if IsSpace(c) then "" else [c];
    assert Pain001.Uppercase(bare) == if IsSpace(c) then "" else [Pain001.Upper(c)];
  }

  // --- the message --------------------------------------------------------------------------

  /** How the payment is to be made: as a transfer, and booked in one sum or one by one. */
  lemma PaymentFactsRead(i: Pain001.Instruction, s: Pain001.Stamp, profile: Option<Pain001.Profile>, perTransaction: bool)
    ensures var payment := Some(Pain001.PaymentNode(i, s, profile, perTransaction));
            && TextAt(payment, [PmtMtd]) == Some("TRF")
            && TextAt(payment, [BtchBookg]) == Some(if i.batchBooking then "true" else "false")
  {
    FactReads(i, s, profile, perTransaction, 1, "TRF");
    FactReads(i, s, profile, perTransaction, 2, if i.batchBooking then "true" else "false");
  }

  lemma FactReads(i: Pain001.Instruction, s: Pain001.Stamp, profile: Option<Pain001.Profile>, perTransaction: bool, k: nat, text: string)
    requires k < 5 && text != "" && forall c | c in text :: !IsSpace(c)
    requires Pain001.PaymentFacts(i, s)[k] == Leaf(Pain001.PaymentFacts(i, s)[k].tag, text)
    ensures TextAt(Some(Pain001.PaymentNode(i, s, profile, perTransaction)), [Pain001.PaymentFacts(i, s)[k].tag]) == Some(text)
  {
    var fact := Pain001.PaymentFacts(i, s)[k];
    FactNamed(i, s, profile, perTransaction, k);
    TextThrough(Pain001.PaymentNode(i, s, profile, perTransaction), [fact.tag], fact);
    CleanKeeps(text);
  }

  /** The marks of the message, and who submits it. */
  lemma HeaderReads(i: Pain001.Instruction, s: Pain001.Stamp)
    ensures var header := Some(Pain001.HeaderNode(i, s));
            && TextAt(header, [MsgId]) == Clean(s.messageId) && TextAt(header, [CreDtTm]) == Clean(s.createdAt)
            && TextAt(header, [InitgPty, Nm]) == Clean(i.debtor.name)
  {
    var header := Pain001.HeaderNode(i, s);
    NamedOnly(header.children, MsgId, 0);
    NamedOnly(header.children, CreDtTm, 1);
    NamedOnly(header.children, InitgPty, 4);
    TextThrough(header, [MsgId], header.children[0]);
    TextThrough(header, [CreDtTm], header.children[1]);
    var initiating := header.children[4];
    assert [InitgPty, Nm][1..] == [Nm];
    TextThrough(header, [InitgPty, Nm], initiating);
    NamedOnly(initiating.children, Nm, 0);
    TextThrough(initiating, [Nm], initiating.children[0]);
  }

  // --- parties and banks ------------------------------------------------------------------------

  /** An address reads back field by field, the optional ones where they are given. */
  lemma AddressReads(a: Pain001.Address)
    ensures var node := Some(Pain001.AddressNode(a));
            && TextAt(node, [StrtNm]) == CleanGiven(a.street) && TextAt(node, [BldgNb]) == CleanGiven(a.building)
            && TextAt(node, [PstCd]) == CleanGiven(a.postalCode)
            && TextAt(node, [TwnNm]) == Clean(a.town) && TextAt(node, [Ctry]) == Clean(a.country)
  {
    var node := Pain001.AddressNode(a);
    forall tag | tag in {StrtNm, BldgNb, PstCd, TwnNm, Ctry}
      ensures Named(node.children, tag)
           == if tag == StrtNm then Pain001.LeafIf(StrtNm, a.street) else if tag == BldgNb then Pain001.LeafIf(BldgNb, a.building)
              else if tag == PstCd then Pain001.LeafIf(PstCd, a.postalCode)
              else if tag == TwnNm then [Leaf(TwnNm, a.town)] else [Leaf(Ctry, a.country)]
    {
      var town := [Leaf(TwnNm, a.town), Leaf(Ctry, a.country)];
      NamedFour(Pain001.LeafIf(StrtNm, a.street), Pain001.LeafIf(BldgNb, a.building), Pain001.LeafIf(PstCd, a.postalCode), town, tag);
      NamedLeaf(StrtNm, a.street, tag);
      NamedLeaf(BldgNb, a.building, tag);
      NamedLeaf(PstCd, a.postalCode, tag);
      NamedTwo(town[0], town[1], tag);
    }
    OptionalLeaf(node, StrtNm, a.street);
    OptionalLeaf(node, BldgNb, a.building);
    OptionalLeaf(node, PstCd, a.postalCode);
    TextThrough(node, [TwnNm], Leaf(TwnNm, a.town));
    TextThrough(node, [Ctry], Leaf(Ctry, a.country));
  }

  /** A party has its address exactly when one was given. */
  lemma PartyAddress(tag: Tag, p: Pain001.Party)
    ensures Find(Pain001.PartyNode(tag, p), [PstlAdr])
         == if p.address.Some? then Some(Pain001.AddressNode(p.address.value)) else None
  {
    var node := Pain001.PartyNode(tag, p);
    NamedJoins([Leaf(Nm, p.name)], node.children[1..], PstlAdr);
    assert node.children == [Leaf(Nm, p.name)] + node.children[1..];
    NamedOne(Leaf(Nm, p.name), PstlAdr);
    if p.address.Some? {
      NamedOne(Pain001.AddressNode(p.address.value), PstlAdr);
      FindThrough(node, [PstlAdr], Pain001.AddressNode(p.address.value));
    } else {
      FindNone(node, [PstlAdr]);
    }
  }

  /** The creditor's bank is named by its BIC, when one was given. */
  lemma CreditorBankReads(t: Pain001.Transaction, own: Option<Pain001.Profile>)
    ensures TextAt(Some(Pain001.TransactionNode(t, own)), [CdtrAgt, FinInstnId, BICFI]) == CleanGiven(t.creditorBic)
  {
    var node := Pain001.TransactionNode(t, own);
    OptionalParts(t, own);
    PartsByTag(Pain001.IdentificationNode(t), Pain001.PaymentTypeNodes(own), Pain001.AmountNode(t),
               Pain001.AgentNodes(CdtrAgt, t.creditorBic), Pain001.PartyNode(Cdtr, t.creditor),
               Pain001.AccountNode(CdtrAcct, t.creditorIban), Pain001.RemittanceNodes(t), CdtrAgt);
    if Pain001.Given(t.creditorBic) {
      var agent := Pain001.AgentNodes(CdtrAgt, t.creditorBic)[0];
      var institution := agent.children[0];
      assert [CdtrAgt, FinInstnId, BICFI][1..] == [FinInstnId, BICFI] && [FinInstnId, BICFI][1..] == [BICFI];
      NamedOne(institution, FinInstnId);
      NamedOne(institution.children[0], BICFI);
      TextThrough(node, [CdtrAgt, FinInstnId, BICFI], agent);
      TextThrough(agent, [FinInstnId, BICFI], institution);
      TextThrough(institution, [BICFI], institution.children[0]);
    } else {
      NoText(node, [CdtrAgt, FinInstnId, BICFI]);
    }
  }

  // --- the payment type ---------------------------------------------------------------------------

  /** A code stands under `Cd` or under `Prtry`, as its profile says, and not under the other. */
  predicate ReadsCode(node: Node, tag: Tag, code: Option<Pain001.Code>) {
    && TextAt(Some(node), [tag, Cd]) == (if code.Some? && !code.value.proprietary then Clean(code.value.value) else None)
    && TextAt(Some(node), [tag, Prtry]) == (if code.Some? && code.value.proprietary then Clean(code.value.value) else None)
  }

  lemma CodeReadsBack(node: Node, tag: Tag, code: Option<Pain001.Code>)
    requires Named(node.children, tag) == Pain001.CodeNodes(tag, code)
    ensures ReadsCode(node, tag, code)
  {
    assert [tag, Cd][1..] == [Cd] && [tag, Prtry][1..] == [Prtry];
    if code.Some? {
      var inside := Pain001.CodeNodes(tag, code)[0];
      var leaf := inside.children[0];
      NamedOne(leaf, Cd);
      NamedOne(leaf, Prtry);
      TextThrough(node, [tag, Cd], inside);
      TextThrough(node, [tag, Prtry], inside);
      if code.value.proprietary {
        NoText(inside, [Cd]);
        TextThrough(inside, [Prtry], leaf);
      } else {
        TextThrough(inside, [Cd], leaf);
        NoText(inside, [Prtry]);
      }
    } else {
      NoText(node, [tag, Cd]);
      NoText(node, [tag, Prtry]);
    }
  }

  /** A payment type is written when the profile has anything to put in it, and then reads back
      as the profile: its priority, and each code in its own place. */
  lemma PaymentTypeReads(p: Pain001.Profile)
    ensures var nodes := Pain001.PaymentTypeNodes(Some(p));
            if !Present(p.priority) && p.serviceLevel.None? && p.localInstrument.None? && p.categoryPurpose.None?
            then nodes == []
            else |nodes| == 1 && nodes[0].tag == PmtTpInf && TextAt(Some(nodes[0]), [InstrPrty]) == CleanGiven(p.priority)
                 && ReadsCode(nodes[0], SvcLvl, p.serviceLevel) && ReadsCode(nodes[0], LclInstrm, p.localInstrument)
                 && ReadsCode(nodes[0], CtgyPurp, p.categoryPurpose)
  {
    var nodes := Pain001.PaymentTypeNodes(Some(p));
    if nodes != [] { TypeReadsBack(nodes[0], p); }
  }

  lemma NamedCode(own: Tag, code: Option<Pain001.Code>, tag: Tag)
    ensures Named(Pain001.CodeNodes(own, code), tag) == if own == tag then Pain001.CodeNodes(own, code) else []
  {
    NamedMaybe(Pain001.CodeNodes(own, code), own, tag);
  }

  lemma TypeReadsBack(node: Node, p: Pain001.Profile)
    requires node.children == Pain001.LeafIf(InstrPrty, p.priority) + Pain001.CodeNodes(SvcLvl, p.serviceLevel)
                              + Pain001.CodeNodes(LclInstrm, p.localInstrument) + Pain001.CodeNodes(CtgyPurp, p.categoryPurpose)
    ensures TextAt(Some(node), [InstrPrty]) == CleanGiven(p.priority)
    ensures ReadsCode(node, SvcLvl, p.serviceLevel) && ReadsCode(node, LclInstrm, p.localInstrument)
    ensures ReadsCode(node, CtgyPurp, p.categoryPurpose)
  {
    TypeByTag(node, p, InstrPrty);
    TypeByTag(node, p, SvcLvl);
    TypeByTag(node, p, LclInstrm);
    TypeByTag(node, p, CtgyPurp);
    OptionalLeaf(node, InstrPrty, p.priority);
    CodeReadsBack(node, SvcLvl, p.serviceLevel);
    CodeReadsBack(node, LclInstrm, p.localInstrument);
    CodeReadsBack(node, CtgyPurp, p.categoryPurpose);
  }

  lemma TypeByTag(node: Node, p: Pain001.Profile, tag: Tag)
    requires node.children == Pain001.LeafIf(InstrPrty, p.priority) + Pain001.CodeNodes(SvcLvl, p.serviceLevel)
                              + Pain001.CodeNodes(LclInstrm, p.localInstrument) + Pain001.CodeNodes(CtgyPurp, p.categoryPurpose)
    requires tag in {InstrPrty, SvcLvl, LclInstrm, CtgyPurp}
    ensures Named(node.children, tag)
         == if tag == InstrPrty then Pain001.LeafIf(InstrPrty, p.priority)
            else if tag == SvcLvl then Pain001.CodeNodes(SvcLvl, p.serviceLevel)
            else if tag == LclInstrm then Pain001.CodeNodes(LclInstrm, p.localInstrument)
            else Pain001.CodeNodes(CtgyPurp, p.categoryPurpose)
  {
    NamedFour(Pain001.LeafIf(InstrPrty, p.priority), Pain001.CodeNodes(SvcLvl, p.serviceLevel),
              Pain001.CodeNodes(LclInstrm, p.localInstrument), Pain001.CodeNodes(CtgyPurp, p.categoryPurpose), tag);
    NamedLeaf(InstrPrty, p.priority, tag);
    NamedCode(SvcLvl, p.serviceLevel, tag);
    NamedCode(LclInstrm, p.localInstrument, tag);
    NamedCode(CtgyPurp, p.categoryPurpose, tag);
  }

  // --- the debtor's bank -----------------------------------------------------------------------------

  /** The institution a Swiss or Liechtenstein account names, its characters 5 to 9. */
  predicate NamesItsBank(iban: string) {
    && |iban| == 21 && (iban[0..2] == "CH" || iban[0..2] == "LI")
    && forall k | 4 <= k < 9 :: '0' <= iban[k] <= '9'
  }

  /** The debtor's bank is named by its BIC; without one, a payment that declares SEPA says that
      none is provided, and any other names the bank of a Swiss account by its number. Only
      what is left goes unnamed. */
  lemma DebtorAgentNamed(i: Pain001.Instruction, profile: Option<Pain001.Profile>)
    ensures var agent, iban := Some(Pain001.DebtorAgentNode(i, profile)), Pain001.Normalised(i.debtorIban);
            var bic := Present(i.debtorBic);
            var sepa := profile.Some? && profile.value.serviceLevel == Some(Pain001.Code("SEPA", false));
            var swiss := NamesItsBank(iban);
            && (agent.value.children[0].children == [] <==> !bic && !sepa && !swiss)
            && TextAt(agent, [FinInstnId, BICFI]) == (if bic then Clean(i.debtorBic.value) else None)
            && TextAt(agent, [FinInstnId, Othr, Id]) == (if !bic && sepa then Some("NOTPROVIDED") else None)
            && TextAt(agent, [FinInstnId, ClrSysMmbId, MmbId]) == (if !bic && !sepa && swiss then Some(iban[4..9]) else None)
            && TextAt(agent, [FinInstnId, ClrSysMmbId, ClrSysId, Cd])
               == (if !bic && !sepa && swiss then Some("CHBCC") else None)
  {
    var agent := Pain001.DebtorAgentNode(i, profile);
    var institution := agent.children[0];
    NamedOne(institution, FinInstnId);
    assert [FinInstnId, BICFI][1..] == [BICFI] && [FinInstnId, Othr, Id][1..] == [Othr, Id];
    assert [FinInstnId, ClrSysMmbId, MmbId][1..] == [ClrSysMmbId, MmbId];
    assert [FinInstnId, ClrSysMmbId, ClrSysId, Cd][1..] == [ClrSysMmbId, ClrSysId, Cd];
    TextThrough(agent, [FinInstnId, BICFI], institution);
    TextThrough(agent, [FinInstnId, Othr, Id], institution);
    TextThrough(agent, [FinInstnId, ClrSysMmbId, MmbId], institution);
    TextThrough(agent, [FinInstnId, ClrSysMmbId, ClrSysId, Cd], institution);
    SwissBank(i.debtorIban);
    InstitutionReads(institution, i, profile);
  }

  lemma SwissBank(iban: string)
    ensures var s := Pain001.Normalised(iban);
            Pain001.SwissInstitution(iban) == if NamesItsBank(s) then Some(s[4..9]) else None
  {
    var s := Pain001.Normalised(iban);
    if |s| == 21 {
      assert forall k | 4 <= k < 9 :: s[4..9][k - 4] == s[k] && s[k] in s[4..9];
      assert (forall k | 4 <= k < 9 :: '0' <= s[k] <= '9') ==> Pain001.AllDigits(s[4..9]);
      assert s[..2] == s[0..2];
    }
  }

  lemma InstitutionReads(institution: Node, i: Pain001.Instruction, profile: Option<Pain001.Profile>)
    requires institution == Pain001.DebtorAgentNode(i, profile).children[0]
    ensures var bic, sepa, iid := Pain001.Given(i.debtorBic), Pain001.DeclaresSepa(profile), Pain001.SwissInstitution(i.debtorIban);
            var node := Some(institution);
            && TextAt(node, [BICFI]) == (if bic then Clean(i.debtorBic.value) else None)
            && TextAt(node, [Othr, Id]) == (if !bic && sepa then Some("NOTPROVIDED") else None)
            && TextAt(node, [ClrSysMmbId, MmbId]) == (if !bic && !sepa then iid else None)
            && TextAt(node, [ClrSysMmbId, ClrSysId, Cd]) == (if !bic && !sepa && iid.Some? then Some("CHBCC") else None)
  {
    var bic, sepa, iid := Pain001.Given(i.debtorBic), Pain001.DeclaresSepa(profile), Pain001.SwissInstitution(i.debtorIban);
    if bic {
      BicReads(institution, i.debtorBic.value);
    } else if sepa {
      AbsenceReads(institution);
    } else if iid.Some? {
      ClearingReads(institution, iid.value);
    } else {
      NothingUnder(institution, [BICFI]);
      NothingUnder(institution, [Othr, Id]);
      NothingUnder(institution, [ClrSysMmbId, MmbId]);
      NothingUnder(institution, [ClrSysMmbId, ClrSysId, Cd]);
    }
  }

  lemma BicReads(institution: Node, bic: string)
    requires institution.children == [Leaf(BICFI, bic)]
    ensures TextAt(Some(institution), [BICFI]) == Clean(bic) && TextAt(Some(institution), [Othr, Id]) == None
    ensures TextAt(Some(institution), [ClrSysMmbId, MmbId]) == None && TextAt(Some(institution), [ClrSysMmbId, ClrSysId, Cd]) == None
  {
    NamedOne(institution.children[0], BICFI);
    TextThrough(institution, [BICFI], institution.children[0]);
    NothingUnder(institution, [Othr, Id]);
    NothingUnder(institution, [ClrSysMmbId, MmbId]);
    NothingUnder(institution, [ClrSysMmbId, ClrSysId, Cd]);
  }

  lemma AbsenceReads(institution: Node)
    requires institution.children == [Element(Othr, [Leaf(Id, "NOTPROVIDED")])]
    ensures TextAt(Some(institution), [Othr, Id]) == Some("NOTPROVIDED") && TextAt(Some(institution), [BICFI]) == None
    ensures TextAt(Some(institution), [ClrSysMmbId, MmbId]) == None && TextAt(Some(institution), [ClrSysMmbId, ClrSysId, Cd]) == None
  {
    var inside := institution.children[0];
    NamedOne(inside, Othr);
    assert [Othr, Id][1..] == [Id];
    TextThrough(institution, [Othr, Id], inside);
    NamedOne(inside.children[0], Id);
    TextThrough(inside, [Id], inside.children[0]);
    CleanKeeps("NOTPROVIDED");
    NothingUnder(institution, [BICFI]);
    NothingUnder(institution, [ClrSysMmbId, MmbId]);
    NothingUnder(institution, [ClrSysMmbId, ClrSysId, Cd]);
  }

  lemma ClearingReads(institution: Node, iid: string)
    requires |iid| == 5 && Pain001.AllDigits(iid)
    requires institution.children == [Element(ClrSysMmbId, [Element(ClrSysId, [Leaf(Cd, "CHBCC")]), Leaf(MmbId, iid)])]
    ensures TextAt(Some(institution), [ClrSysMmbId, MmbId]) == Some(iid)
    ensures TextAt(Some(institution), [ClrSysMmbId, ClrSysId, Cd]) == Some("CHBCC")
    ensures TextAt(Some(institution), [BICFI]) == None && TextAt(Some(institution), [Othr, Id]) == None
  {
    var member := institution.children[0];
    NamedOne(member, ClrSysMmbId);
    assert [ClrSysMmbId, MmbId][1..] == [MmbId] && [ClrSysMmbId, ClrSysId, Cd][1..] == [ClrSysId, Cd];
    TextThrough(institution, [ClrSysMmbId, MmbId], member);
    TextThrough(institution, [ClrSysMmbId, ClrSysId, Cd], member);
    MemberReads(member, iid);
    NothingUnder(institution, [BICFI]);
    NothingUnder(institution, [Othr, Id]);
  }

  /** Nothing is found under a tag no child has. */
  lemma NothingUnder(node: Node, path: seq<Tag>)
    requires path != [] && forall k | 0 <= k < |node.children| :: node.children[k].tag != path[0]
    ensures TextAt(Some(node), path) == None
  {
    NoneNamed(node.children, path[0]);
    NoText(node, path);
  }

  lemma MemberReads(member: Node, iid: string)
    requires |iid| == 5 && Pain001.AllDigits(iid)
    requires member.children == [Element(ClrSysId, [Leaf(Cd, "CHBCC")]), Leaf(MmbId, iid)]
    ensures TextAt(Some(member), [MmbId]) == Some(iid) && TextAt(Some(member), [ClrSysId, Cd]) == Some("CHBCC")
  {
    var system := member.children[0];
    NamedTwo(system, member.children[1], MmbId);
    NamedTwo(system, member.children[1], ClrSysId);
    TextThrough(member, [MmbId], member.children[1]);
    assert forall c | c in iid :: !IsSpace(c);
    CleanKeeps(iid);
    assert [ClrSysId, Cd][1..] == [Cd];
    TextThrough(member, [ClrSysId, Cd], system);
    NamedOne(system.children[0], Cd);
    TextThrough(system, [Cd], system.children[0]);
    CleanKeeps("CHBCC");
  }
}
