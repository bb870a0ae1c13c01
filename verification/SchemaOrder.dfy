/** The schema fixes the order in which the parts of an element stand, and an element out of
    place makes the document invalid. Every document that is built keeps it throughout. */
module SchemaOrder {
  import opened Wrappers
  import opened Documents
  import Pain001

  /** The parts of each element, in the order of pain.001.001.09. */
  function Sequence(parent: Tag): seq<Tag> {
    if parent == Document then [CstmrCdtTrfInitn]
    else if parent == CstmrCdtTrfInitn then [GrpHdr, PmtInf]
    else if parent == GrpHdr then [MsgId, CreDtTm, NbOfTxs, CtrlSum, InitgPty]
    else if parent == InitgPty then [Nm, PstlAdr, CtctDtls]
    else if parent == CtctDtls then [Othr]
    else if parent == Othr then [ChanlTp, Id]
    else if parent == PmtInf then
      [PmtInfId, PmtMtd, BtchBookg, NbOfTxs, CtrlSum, PmtTpInf, ReqdExctnDt, Dbtr, DbtrAcct, DbtrAgt, CdtTrfTxInf]
    else if parent == PmtTpInf then [InstrPrty, SvcLvl, LclInstrm, CtgyPurp]
    else if parent == SvcLvl || parent == LclInstrm || parent == CtgyPurp || parent == CdOrPrtry then [Cd, Prtry]
    else if parent == ReqdExctnDt then [Dt]
    else if parent == Dbtr || parent == Cdtr then [Nm, PstlAdr]
    else if parent == PstlAdr then [StrtNm, BldgNb, PstCd, TwnNm, Ctry]
    else if parent == DbtrAcct || parent == CdtrAcct then [Id]
    else if parent == Id then [IBAN]
    else if parent == DbtrAgt || parent == CdtrAgt then [FinInstnId]
    else if parent == FinInstnId then [BICFI, ClrSysMmbId, Othr]
    else if parent == ClrSysMmbId then [ClrSysId, MmbId]
    else if parent == ClrSysId then [Cd]
    else if parent == CdtTrfTxInf then [PmtId, PmtTpInf, Amt, CdtrAgt, Cdtr, CdtrAcct, RmtInf]
    else if parent == PmtId then [InstrId, EndToEndId]
    else if parent == Amt then [InstdAmt]
    else if parent == RmtInf then [Ustrd, Strd]
    else if parent == Strd then [CdtrRefInf, AddtlRmtInf]
    else if parent == CdtrRefInf then [Tp, Ref]
    else if parent == Tp then [CdOrPrtry]
    else []
  }

  /** These siblings stand in this order; a part may be absent, and a part may be repeated. */
  predicate StandIn(nodes: seq<Node>, order: seq<Tag>)
    decreases |nodes| + |order|
  {
    nodes == [] || (order != [] && if nodes[0].tag == order[0] then StandIn(nodes[1..], order) else StandIn(nodes, order[1..]))
  }

  /** The element and everything in it stand in the schema's order. */
  predicate InOrder(node: Node) {
    StandIn(node.children, Sequence(node.tag)) && forall k | 0 <= k < |node.children| :: InOrder(node.children[k])
  }

  predicate AllInOrder(nodes: seq<Node>) { forall k | 0 <= k < |nodes| :: InOrder(nodes[k]) }

  // --- siblings ---------------------------------------------------------------------------

  lemma {:induction false} StandLater(nodes: seq<Node>, before: seq<Tag>, order: seq<Tag>)
    requires StandIn(nodes, order) && forall k | 0 <= k < |nodes| :: nodes[k].tag !in before
    ensures StandIn(nodes, before + order)
    decreases |before|
  {
    if before == [] {
      assert before + order == order;
    } else if nodes != [] {
      assert (before + order)[1..] == before[1..] + order;
      StandLater(nodes, before[1..], order);
    }
  }

  /** Two runs of siblings under two parts of the order, the second with tags of its own. */
  lemma {:induction false} StandJoined(a: seq<Node>, b: seq<Node>, x: seq<Tag>, y: seq<Tag>)
    requires StandIn(a, x) && StandIn(b, y) && forall k | 0 <= k < |b| :: b[k].tag !in x
    ensures StandIn(a + b, x + y)
    decreases |a| + |x|
  {
    if a == [] {
      assert a + b == b;
      StandLater(b, x, y);
    } else if a[0].tag == x[0] {
      assert (a + b)[1..] == a[1..] + b;
      StandJoined(a[1..], b, x, y);
    } else {
      assert (x + y)[1..] == x[1..] + y;
      StandJoined(a, b, x[1..], y);
    }
  }

  /** Any number of siblings with the one tag that may stand here. */
  lemma {:induction false} StandAlike(nodes: seq<Node>, tag: Tag)
    requires forall k | 0 <= k < |nodes| :: nodes[k].tag == tag
    ensures StandIn(nodes, [tag])
    decreases |nodes|
  {
    if nodes != [] { StandAlike(nodes[1..], tag); }
  }

  /** At most one part with this tag, in order inside. */
  predicate Part(nodes: seq<Node>, tag: Tag) {
    (forall k | 0 <= k < |nodes| :: nodes[k].tag == tag) && AllInOrder(nodes)
  }

  /** One more part at the end. */
  lemma PartAdded(nodes: seq<Node>, order: seq<Tag>, more: seq<Node>, tag: Tag)
    requires StandIn(nodes, order) && AllInOrder(nodes) && Part(more, tag) && tag !in order
    ensures StandIn(nodes + more, order + [tag]) && AllInOrder(nodes + more)
  {
    StandAlike(more, tag);
    StandJoined(nodes, more, order, [tag]);
  }

  lemma Optional(tag: Tag, text: Option<string>)
    ensures Part(Pain001.LeafIf(tag, text), tag)
  {
  }

  /** An element with one part. */
  lemma Wraps(node: Node, inside: Node)
    requires node.children == [inside] && InOrder(inside) && inside.tag in Sequence(node.tag)
    ensures InOrder(node)
  {
    StandSingle(inside, Sequence(node.tag));
  }

  lemma {:induction false} StandSingle(x: Node, order: seq<Tag>)
    requires x.tag in order
    ensures StandIn([x], order)
    decreases |order|
  {
    if x.tag == order[0] {
      assert [x][1..] == [];
    } else {
      StandSingle(x, order[1..]);
    }
  }

  /** Two parts, three, four or five, each in its own place. */
  lemma Two(node: Node, a: seq<Node>, x: Tag, b: seq<Node>, y: Tag)
    requires node.children == a + b && Sequence(node.tag) == [x, y] && x != y
    requires Part(a, x) && Part(b, y)
    ensures InOrder(node)
  {
    StandAlike(a, x);
    PartAdded(a, [x], b, y);
    assert [x] + [y] == [x, y];
  }

  lemma StandFour(a: seq<Node>, x: Tag, b: seq<Node>, y: Tag, c: seq<Node>, z: Tag, d: seq<Node>, w: Tag)
    requires x != y && z !in {x, y} && w !in {x, y, z}
    requires Part(a, x) && Part(b, y) && Part(c, z) && Part(d, w)
    ensures StandIn(a + b + c + d, [x, y, z, w]) && AllInOrder(a + b + c + d)
  {
    assert [x, y, z] + [w] == [x, y, z, w];
    StandThree(a, x, b, y, c, z);
    PartAdded(a + b + c, [x, y, z], d, w);
  }

  lemma StandThree(a: seq<Node>, x: Tag, b: seq<Node>, y: Tag, c: seq<Node>, z: Tag)
    requires x != y && z !in {x, y}
    requires Part(a, x) && Part(b, y) && Part(c, z)
    ensures StandIn(a + b + c, [x, y, z]) && AllInOrder(a + b + c)
  {
    assert [x] + [y] == [x, y] && [x, y] + [z] == [x, y, z];
    StandAlike(a, x);
    PartAdded(a, [x], b, y);
    PartAdded(a + b, [x, y], c, z);
  }

  lemma StandFive(a: seq<Node>, x: Tag, b: seq<Node>, y: Tag, c: seq<Node>, z: Tag, d: seq<Node>, w: Tag, e: seq<Node>, v: Tag)
    requires x != y && z !in {x, y} && w !in {x, y, z} && v !in {x, y, z, w}
    requires Part(a, x) && Part(b, y) && Part(c, z) && Part(d, w) && Part(e, v)
    ensures StandIn(a + b + c + d + e, [x, y, z, w, v]) && AllInOrder(a + b + c + d + e)
  {
    StandFour(a, x, b, y, c, z, d, w);
    PartAdded(a + b + c + d, [x, y, z, w], e, v);
    assert [x, y, z, w] + [v] == [x, y, z, w, v];
  }

  /** Two runs of parts, one after the other. */
  lemma RunsJoined(a: seq<Node>, b: seq<Node>, x: seq<Tag>, y: seq<Tag>)
    requires StandIn(a, x) && AllInOrder(a) && StandIn(b, y) && AllInOrder(b)
    requires forall tag | tag in y :: tag !in x
    ensures StandIn(a + b, x + y) && AllInOrder(a + b)
  {
    TagsOf(b, y);
    StandJoined(a, b, x, y);
  }

  lemma {:induction false} TagsOf(nodes: seq<Node>, order: seq<Tag>)
    requires StandIn(nodes, order)
    ensures forall k | 0 <= k < |nodes| :: nodes[k].tag in order
    decreases |nodes| + |order|
  {
    if nodes != [] {
      if nodes[0].tag == order[0] {
        TagsOf(nodes[1..], order);
        assert forall k | 1 <= k < |nodes| :: nodes[k] == nodes[1..][k - 1];
      } else {
        TagsOf(nodes, order[1..]);
      }
    }
  }

  // --- the parts of a payment -------------------------------------------------------------------

  lemma AddressInOrder(a: Pain001.Address)
    ensures InOrder(Pain001.AddressNode(a))
  {
    Optional(StrtNm, a.street);
    Optional(BldgNb, a.building);
    Optional(PstCd, a.postalCode);
    StandFive(Pain001.LeafIf(StrtNm, a.street), StrtNm, Pain001.LeafIf(BldgNb, a.building), BldgNb,
              Pain001.LeafIf(PstCd, a.postalCode), PstCd, [Leaf(TwnNm, a.town)], TwnNm, [Leaf(Ctry, a.country)], Ctry);
    assert Pain001.AddressNode(a).children
        == Pain001.LeafIf(StrtNm, a.street) + Pain001.LeafIf(BldgNb, a.building) + Pain001.LeafIf(PstCd, a.postalCode)
           + [Leaf(TwnNm, a.town)] + [Leaf(Ctry, a.country)];
  }

  lemma PartyInOrder(tag: Tag, p: Pain001.Party)
    requires tag in {Dbtr, Cdtr}
    ensures InOrder(Pain001.PartyNode(tag, p))
  {
    var address := if p.address.Some? then [Pain001.AddressNode(p.address.value)] else [];
    if p.address.Some? { AddressInOrder(p.address.value); }
    Two(Pain001.PartyNode(tag, p), [Leaf(Nm, p.name)], Nm, address, PstlAdr);
  }

  lemma AccountInOrder(tag: Tag, iban: string)
    requires tag in {DbtrAcct, CdtrAcct}
    ensures InOrder(Pain001.AccountNode(tag, iban))
  {
    var inside := Pain001.AccountNode(tag, iban).children[0];
    Wraps(inside, inside.children[0]);
    Wraps(Pain001.AccountNode(tag, iban), inside);
  }

  lemma AgentInOrder(bic: Option<string>)
    ensures Part(Pain001.AgentNodes(CdtrAgt, bic), CdtrAgt)
  {
    if Pain001.Given(bic) {
      var agent := Pain001.AgentNodes(CdtrAgt, bic)[0];
      Wraps(agent.children[0], agent.children[0].children[0]);
      Wraps(agent, agent.children[0]);
    }
  }

  lemma CodeInOrder(tag: Tag, code: Option<Pain001.Code>)
    requires tag in {SvcLvl, LclInstrm, CtgyPurp}
    ensures Part(Pain001.CodeNodes(tag, code), tag)
  {
    if code.Some? {
      var node := Pain001.CodeNodes(tag, code)[0];
      Wraps(node, node.children[0]);
    }
  }

  lemma PaymentTypeInOrder(profile: Option<Pain001.Profile>)
    ensures Part(Pain001.PaymentTypeNodes(profile), PmtTpInf)
  {
    if Pain001.PaymentTypeNodes(profile) != [] {
      var p, node := profile.value, Pain001.PaymentTypeNodes(profile)[0];
      Optional(InstrPrty, p.priority);
      CodeInOrder(SvcLvl, p.serviceLevel);
      CodeInOrder(LclInstrm, p.localInstrument);
      CodeInOrder(CtgyPurp, p.categoryPurpose);
      StandFour(Pain001.LeafIf(InstrPrty, p.priority), InstrPrty, Pain001.CodeNodes(SvcLvl, p.serviceLevel), SvcLvl,
                Pain001.CodeNodes(LclInstrm, p.localInstrument), LclInstrm, Pain001.CodeNodes(CtgyPurp, p.categoryPurpose), CtgyPurp);
    }
  }

  lemma IdentificationInOrder(t: Pain001.Transaction)
    ensures InOrder(Pain001.IdentificationNode(t))
  {
    var node := Pain001.IdentificationNode(t);
    Optional(InstrId, t.instructionId);
    var end := node.children[|Pain001.LeafIf(InstrId, t.instructionId)|];
    Two(node, Pain001.LeafIf(InstrId, t.instructionId), InstrId, [end], EndToEndId);
  }

  lemma ReferenceInOrder(t: Pain001.Transaction)
    ensures InOrder(Pain001.ReferenceNode(t))
  {
    var node := Pain001.ReferenceNode(t);
    var tp := node.children[0];
    Wraps(tp.children[0], tp.children[0].children[0]);
    Wraps(tp, tp.children[0]);
    Two(node, [tp], Tp, [node.children[1]], Ref);
  }

  lemma RemittanceInOrder(t: Pain001.Transaction)
    ensures Part(Pain001.RemittanceNodes(t), RmtInf)
  {
    if Pain001.RemittanceNodes(t) != [] {
      var node := Pain001.RemittanceNodes(t)[0];
      var structured := node.children[|Pain001.LeafIf(Ustrd, t.remittance)|..];
      Optional(Ustrd, t.remittance);
      if Pain001.Structured(t) {
        ReferenceInOrder(t);
        Optional(AddtlRmtInf, t.additional);
        Two(structured[0], [Pain001.ReferenceNode(t)], CdtrRefInf, Pain001.LeafIf(AddtlRmtInf, t.additional), AddtlRmtInf);
      }
      Two(node, Pain001.LeafIf(Ustrd, t.remittance), Ustrd, structured, Strd);
    }
  }

  lemma TransactionInOrder(t: Pain001.Transaction, own: Option<Pain001.Profile>)
    ensures InOrder(Pain001.TransactionNode(t, own))
  {
    var identification, amount := [Pain001.IdentificationNode(t)], [Pain001.AmountNode(t)];
    var kind, agent, remittance := Pain001.PaymentTypeNodes(own), Pain001.AgentNodes(CdtrAgt, t.creditorBic), Pain001.RemittanceNodes(t);
    var creditor, account := [Pain001.PartyNode(Cdtr, t.creditor)], [Pain001.AccountNode(CdtrAcct, t.creditorIban)];
    IdentificationInOrder(t);
    PaymentTypeInOrder(own);
    Wraps(amount[0], amount[0].children[0]);
    AgentInOrder(t.creditorBic);
    PartyInOrder(Cdtr, t.creditor);
    AccountInOrder(CdtrAcct, t.creditorIban);
    RemittanceInOrder(t);
    Seven(Pain001.TransactionNode(t, own), identification, kind, amount, agent, creditor, account, remittance);
  }

  lemma Seven(node: Node, a: seq<Node>, b: seq<Node>, c: seq<Node>, d: seq<Node>, e: seq<Node>, f: seq<Node>, g: seq<Node>)
    requires node.tag == CdtTrfTxInf && node.children == a + b + c + d + (e + f) + g
    requires Part(a, PmtId) && Part(b, PmtTpInf) && Part(c, Amt) && Part(d, CdtrAgt) && Part(e, Cdtr) && Part(f, CdtrAcct) && Part(g, RmtInf)
    ensures InOrder(node)
  {
    StandFour(a, PmtId, b, PmtTpInf, c, Amt, d, CdtrAgt);
    StandThree(e, Cdtr, f, CdtrAcct, g, RmtInf);
    SevenJoined(a + b + c + d, e + f + g);
    Grouped(a + b + c + d, e, f, g);
  }

  lemma SevenJoined(a: seq<Node>, b: seq<Node>)
    requires StandIn(a, [PmtId, PmtTpInf, Amt, CdtrAgt]) && AllInOrder(a)
    requires StandIn(b, [Cdtr, CdtrAcct, RmtInf]) && AllInOrder(b)
    ensures StandIn(a + b, Sequence(CdtTrfTxInf)) && AllInOrder(a + b)
  {
    RunsJoined(a, b, [PmtId, PmtTpInf, Amt, CdtrAgt], [Cdtr, CdtrAcct, RmtInf]);
    assert [PmtId, PmtTpInf, Amt, CdtrAgt] + [Cdtr, CdtrAcct, RmtInf] == Sequence(CdtTrfTxInf);
  }

  lemma Grouped(a: seq<Node>, b: seq<Node>, c: seq<Node>, d: seq<Node>)
    ensures a + (b + c + d) == a + (b + c) + d
  {
  }

  // --- the document ---------------------------------------------------------------------------------

  lemma ContactInOrder(version: Option<string>)
    ensures Part(Pain001.ContactNodes(version), CtctDtls)
  {
    if Pain001.ContactNodes(version) != [] {
      var contact := Pain001.ContactNodes(version)[0];
      var a, b := contact.children[0], contact.children[1];
      Two(a, [a.children[0]], ChanlTp, [a.children[1]], Id);
      Two(b, [b.children[0]], ChanlTp, [b.children[1]], Id);
      StandAlike(contact.children, Othr);
    }
  }

  lemma HeaderInOrder(i: Pain001.Instruction, s: Pain001.Stamp)
    ensures InOrder(Pain001.HeaderNode(i, s))
  {
    var c := Pain001.HeaderNode(i, s).children;
    InitiatorInOrder(c[4], i.debtor.name, s.softwareVersion);
    StandFive([c[0]], MsgId, [c[1]], CreDtTm, [c[2]], NbOfTxs, [c[3]], CtrlSum, [c[4]], InitgPty);
    assert c == [c[0]] + [c[1]] + [c[2]] + [c[3]] + [c[4]];
  }

  lemma InitiatorInOrder(node: Node, name: string, version: Option<string>)
    requires node == Element(InitgPty, [Leaf(Nm, name)] + Pain001.ContactNodes(version))
    ensures InOrder(node)
  {
    ContactInOrder(version);
    StandAlike(Pain001.ContactNodes(version), CtctDtls);
    StandSingle(Leaf(Nm, name), [Nm, PstlAdr]);
    PartAdded([Leaf(Nm, name)], [Nm, PstlAdr], Pain001.ContactNodes(version), CtctDtls);
    assert [Nm, PstlAdr] + [CtctDtls] == Sequence(InitgPty);
  }

  lemma FactsInOrder(i: Pain001.Instruction, s: Pain001.Stamp)
    ensures StandIn(Pain001.PaymentFacts(i, s), [PmtInfId, PmtMtd, BtchBookg, NbOfTxs, CtrlSum])
    ensures AllInOrder(Pain001.PaymentFacts(i, s))
  {
    var c := Pain001.PaymentFacts(i, s);
    StandFive([c[0]], PmtInfId, [c[1]], PmtMtd, [c[2]], BtchBookg, [c[3]], NbOfTxs, [c[4]], CtrlSum);
    assert c == [c[0]] + [c[1]] + [c[2]] + [c[3]] + [c[4]];
  }

  lemma DebtorAgentInOrder(i: Pain001.Instruction, profile: Option<Pain001.Profile>)
    ensures InOrder(Pain001.DebtorAgentNode(i, profile))
  {
    var agent := Pain001.DebtorAgentNode(i, profile);
    var institution, iid := agent.children[0], Pain001.SwissInstitution(i.debtorIban);
    if institution.children != [] {
      var inside := institution.children[0];
      if inside.tag == Othr {
        Wraps(inside, inside.children[0]);
      } else if inside.tag == ClrSysMmbId {
        MemberInOrder(inside, iid.value);
      }
      Wraps(institution, inside);
    }
    Wraps(agent, institution);
  }

  lemma MemberInOrder(member: Node, iid: string)
    requires member == Element(ClrSysMmbId, [Element(ClrSysId, [Leaf(Cd, "CHBCC")]), Leaf(MmbId, iid)])
    ensures InOrder(member)
  {
    var system := member.children[0];
    Wraps(system, system.children[0]);
    Two(member, [system], ClrSysId, [member.children[1]], MmbId);
  }

  lemma PayerInOrder(i: Pain001.Instruction, profile: Option<Pain001.Profile>)
    ensures StandIn(Pain001.PayerNodes(i, profile), [ReqdExctnDt, Dbtr, DbtrAcct, DbtrAgt])
    ensures AllInOrder(Pain001.PayerNodes(i, profile))
  {
    var c := Pain001.PayerNodes(i, profile);
    Wraps(c[0], c[0].children[0]);
    PartyInOrder(Dbtr, i.debtor);
    AccountInOrder(DbtrAcct, i.debtorIban);
    DebtorAgentInOrder(i, profile);
    StandFour([c[0]], ReqdExctnDt, [c[1]], Dbtr, [c[2]], DbtrAcct, [c[3]], DbtrAgt);
    assert c == [c[0]] + [c[1]] + [c[2]] + [c[3]];
  }

  lemma TransactionsInOrder(ts: seq<Pain001.Transaction>, own: Option<Pain001.Profile>)
    ensures Part(Pain001.TransactionNodes(ts, own), CdtTrfTxInf)
  {
    forall k: nat | k < |ts| ensures InOrder(Pain001.TransactionNodes(ts, own)[k]) {
      TransactionInOrder(ts[k], own);
    }
  }

  const FACTS := [PmtInfId, PmtMtd, BtchBookg, NbOfTxs, CtrlSum]
  const PAYER := [ReqdExctnDt, Dbtr, DbtrAcct, DbtrAgt]

  lemma PaymentInOrder(i: Pain001.Instruction, s: Pain001.Stamp, profile: Option<Pain001.Profile>, perTransaction: bool)
    ensures InOrder(Pain001.PaymentNode(i, s, profile, perTransaction))
  {
    var facts, payer := Pain001.PaymentFacts(i, s), Pain001.PayerNodes(i, profile);
    var kind := if perTransaction then [] else Pain001.PaymentTypeNodes(profile);
    var transfers := Pain001.TransactionNodes(i.transactions, if perTransaction then profile else None);
    FactsInOrder(i, s);
    PayerInOrder(i, profile);
    PaymentTypeInOrder(profile);
    TransactionsInOrder(i.transactions, if perTransaction then profile else None);
    FourRuns(facts, FACTS, kind, PmtTpInf, payer, PAYER, transfers, CdtTrfTxInf);
    PaymentSequence();
    Regrouped(facts, kind, payer, transfers);
  }

  lemma PaymentSequence()
    ensures (FACTS + [PmtTpInf]) + (PAYER + [CdtTrfTxInf]) == Sequence(PmtInf)
  {
  }

  lemma Regrouped(a: seq<Node>, b: seq<Node>, c: seq<Node>, d: seq<Node>)
    ensures (a + b) + (c + d) == a + b + c + d
  {
  }

  lemma FourRuns(a: seq<Node>, x: seq<Tag>, b: seq<Node>, y: Tag, c: seq<Node>, z: seq<Tag>, d: seq<Node>, w: Tag)
    requires StandIn(a, x) && AllInOrder(a) && Part(b, y) && StandIn(c, z) && AllInOrder(c) && Part(d, w)
    requires y !in x && w !in z && w !in x && w != y && forall tag | tag in z :: tag !in x && tag != y
    ensures StandIn((a + b) + (c + d), (x + [y]) + (z + [w])) && AllInOrder((a + b) + (c + d))
  {
    PartAdded(a, x, b, y);
    PartAdded(c, z, d, w);
    RunsJoined(a + b, c + d, x + [y], z + [w]);
  }

  /** Every document stands in the schema's order, whatever is in it. */
  lemma DocumentInOrder(i: Pain001.Instruction, s: Pain001.Stamp, profile: Option<Pain001.Profile>, perTransaction: bool)
    ensures InOrder(Pain001.DocumentNode(i, s, profile, perTransaction))
  {
    var root := Pain001.DocumentNode(i, s, profile, perTransaction);
    var header, payment := Pain001.HeaderNode(i, s), Pain001.PaymentNode(i, s, profile, perTransaction);
    HeaderInOrder(i, s);
    PaymentInOrder(i, s, profile, perTransaction);
    Two(root.children[0], [header], GrpHdr, [payment], PmtInf);
    Wraps(root, root.children[0]);
  }
}
