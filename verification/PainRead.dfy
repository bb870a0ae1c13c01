/** Reading a stored pain.001.001.09 message back, and what that says of the builder: the
    reader finds again whom the instruction pays, how much and under which references. */
module PainRead {
  import opened Wrappers
  import opened Documents
  import opened Amounts
  import opened AmountLaws
  import Pain001

  datatype Party = Party(name: Option<string>, iban: Option<string>)

  datatype Transfer = Transfer(creditor: Party, amount: Option<string>, currency: Option<string>, endToEndId: Option<string>,
                               instructionId: Option<string>, remittance: Option<string>, referenceType: Option<string>,
                               reference: Option<string>)

  datatype Summary = Summary(debtor: Party, transfers: seq<Transfer>, paymentInformationId: Option<string>,
                             executionDate: Option<string>)

  function ReadReferenceType(reference: Option<Node>): Option<string> {
    OrElse(TextAt(reference, [Tp, CdOrPrtry, Prtry]), TextAt(reference, [Tp, CdOrPrtry, Cd]))
  }

  function ReadRemittance(node: Node): Option<string> {
    OrElse(TextAt(Some(node), [RmtInf, Ustrd]), TextAt(Some(node), [RmtInf, Strd, AddtlRmtInf]))
  }

  function ReadTransfer(node: Node): Transfer {
    var amount := Find(node, [Amt, InstdAmt]);
    var reference := Find(node, [RmtInf, Strd, CdtrRefInf]);
    Transfer(Party(TextAt(Some(node), [Cdtr, Nm]), TextAt(Some(node), [CdtrAcct, Id, IBAN])),
             OwnText(amount), if amount.Some? then amount.value.currency else None,
             TextAt(Some(node), [PmtId, EndToEndId]), TextAt(Some(node), [PmtId, InstrId]),
             ReadRemittance(node), ReadReferenceType(reference), TextAt(reference, [Ref]))
  }

  function ReadTransfers(nodes: seq<Node>): seq<Transfer> {
    seq(|nodes|, k requires 0 <= k < |nodes| => ReadTransfer(nodes[k]))
  }

  function ReadPayment(payment: Node): Summary {
    Summary(Party(TextAt(Some(payment), [Dbtr, Nm]), TextAt(Some(payment), [DbtrAcct, Id, IBAN])),
            ReadTransfers(Named(payment.children, CdtTrfTxInf)),
            TextAt(Some(payment), [PmtInfId]), TextAt(Some(payment), [ReqdExctnDt, Dt]))
  }

  function Summarise(root: Node): Option<Summary> {
    var payments := Descendants(root, PmtInf);
    if payments == [] then None else Some(ReadPayment(payments[0]))
  }

  // --- what a reader should see ---------------------------------------------------------

  function CleanGiven(s: Option<string>): Option<string> { if s.Some? then Clean(s.value) else None }

  predicate Present(s: Option<string>) { s.Some? && |s.value| > 0 }

  /** The amount asked for, in the minor units of its currency. */
  predicate ShowsAmount(text: Option<string>, asked: Decimal, currency: string) {
    && text.Some?
    && var written := DecimalOf(text.value);
       written.Some? && written.value.scale == MinorUnits(currency) && Denotes(written.value, asked)
  }

  predicate ShowsReferences(r: Transfer, t: Pain001.Transaction) {
    var structured := t.referenceType != Pain001.NoReference && Present(t.reference);
    && r.endToEndId == Clean(if Present(t.endToEndId) then t.endToEndId.value else "NOTPROVIDED")
    && r.instructionId == CleanGiven(t.instructionId)
    && r.remittance == OrElse(CleanGiven(t.remittance), if structured then CleanGiven(t.additional) else None)
    && r.referenceType == (if !structured then None else if t.referenceType == Pain001.QRR then Some("QRR") else Some("SCOR"))
    && r.reference == if structured then Clean(Pain001.Normalised(t.reference.value)) else None
  }

  /** `r` shows the transfer that was asked for: whom it pays, how much of which currency, its
      references and its message. */
  predicate Shows(r: Transfer, t: Pain001.Transaction) {
    && r.creditor == Party(Clean(t.creditor.name), Clean(Pain001.Normalised(t.creditorIban)))
    && r.currency == Some(t.currency) && ShowsAmount(r.amount, t.amount, t.currency)
    && ShowsReferences(r, t)
  }

  // --- what the reader returns, field by field ---------------------------------------------

  function Words(t: Pain001.Transaction): Option<string> {
    OrElse(CleanGiven(t.remittance), if Pain001.Structured(t) then CleanGiven(t.additional) else None)
  }

  function Seen(t: Pain001.Transaction): Transfer {
    Transfer(Party(Clean(t.creditor.name), Clean(Pain001.Normalised(t.creditorIban))),
             Some(FormatAmount(t.amount, t.currency)), Some(t.currency),
             Clean(if Pain001.Given(t.endToEndId) then t.endToEndId.value else Pain001.NOT_PROVIDED),
             CleanGiven(t.instructionId), Words(t),
             if !Pain001.Structured(t) then None else if t.referenceType == Pain001.QRR then Some("QRR") else Some("SCOR"),
             if !Pain001.Structured(t) then None else Clean(Pain001.Normalised(t.reference.value)))
  }

  function SeenAll(ts: seq<Pain001.Transaction>): seq<Transfer> {
    seq(|ts|, k requires 0 <= k < |ts| => Seen(ts[k]))
  }

  function Expected(i: Pain001.Instruction, s: Pain001.Stamp): Summary {
    Summary(Party(Clean(i.debtor.name), Clean(Pain001.Normalised(i.debtorIban))), SeenAll(i.transactions),
            Clean(if Pain001.Given(s.paymentInformationId) then s.paymentInformationId.value else s.messageId),
            Clean(i.executionDate))
  }

  lemma AmountShows(a: Decimal, currency: string)
    ensures ShowsAmount(Some(FormatAmount(a, currency)), a, currency)
  {
    WrittenAmountDenotes(a, currency);
  }

  lemma ReferencesShow(t: Pain001.Transaction)
    ensures ShowsReferences(Seen(t), t)
  {
  }

  lemma SeenShows(t: Pain001.Transaction)
    ensures Shows(Seen(t), t)
  {
    AmountShows(t.amount, t.currency);
    ReferencesShow(t);
  }

  // --- one transfer -------------------------------------------------------------------

  lemma TextThrough(node: Node, path: seq<Tag>, x: Node)
    requires path != [] && Named(node.children, path[0]) == [x]
    ensures TextAt(Some(node), path) == if |path| == 1 then OwnText(Some(x)) else TextAt(Some(x), path[1..])
  {
    FindThrough(node, path, x);
  }

  lemma NoText(node: Node, path: seq<Tag>)
    requires path != [] && Named(node.children, path[0]) == []
    ensures TextAt(Some(node), path) == None
  {
    FindNone(node, path);
  }

  lemma NamedLeaf(tag: Tag, text: Option<string>, wanted: Tag)
    ensures Named(Pain001.LeafIf(tag, text), wanted) == if tag == wanted then Pain001.LeafIf(tag, text) else []
  {
    if Pain001.Given(text) { NamedOne(Leaf(tag, text.value), wanted); }
  }

  /** An optional leaf reads as the words it was given. */
  lemma OptionalLeaf(node: Node, tag: Tag, text: Option<string>)
    requires Named(node.children, tag) == Pain001.LeafIf(tag, text)
    ensures TextAt(Some(node), [tag]) == CleanGiven(text)
  {
    if Pain001.Given(text) {
      TextThrough(node, [tag], Leaf(tag, text.value));
    } else {
      NoText(node, [tag]);
    }
  }

  lemma AccountReads(tag: Tag, iban: string)
    ensures TextAt(Some(Pain001.AccountNode(tag, iban)), [Id, IBAN]) == Clean(Pain001.Normalised(iban))
  {
    var node := Pain001.AccountNode(tag, iban);
    var inside := node.children[0];
    NamedOne(inside, Id);
    NamedOne(inside.children[0], IBAN);
    TextThrough(node, [Id, IBAN], inside);
    assert [Id, IBAN][1..] == [IBAN];
    TextThrough(inside, [IBAN], inside.children[0]);
  }

  lemma PartyReads(tag: Tag, p: Pain001.Party)
    ensures TextAt(Some(Pain001.PartyNode(tag, p)), [Nm]) == Clean(p.name)
  {
    var node := Pain001.PartyNode(tag, p);
    NamedOnly(node.children, Nm, 0);
    TextThrough(node, [Nm], node.children[0]);
  }

  lemma IdentificationReads(t: Pain001.Transaction)
    ensures var node := Pain001.IdentificationNode(t);
            && TextAt(Some(node), [EndToEndId]) == Seen(t).endToEndId
            && TextAt(Some(node), [InstrId]) == CleanGiven(t.instructionId)
  {
    var node := Pain001.IdentificationNode(t);
    var end := Leaf(EndToEndId, if Pain001.Given(t.endToEndId) then t.endToEndId.value else Pain001.NOT_PROVIDED);
    forall tag | tag in {InstrId, EndToEndId}
      ensures Named(node.children, tag) == if tag == InstrId then Pain001.LeafIf(InstrId, t.instructionId) else [end]
    {
      NamedJoins(Pain001.LeafIf(InstrId, t.instructionId), [end], tag);
      NamedLeaf(InstrId, t.instructionId, tag);
      NamedOne(end, tag);
    }
    OptionalLeaf(node, InstrId, t.instructionId);
    TextThrough(node, [EndToEndId], end);
  }

  lemma AmountReads(t: Pain001.Transaction)
    ensures var amount := Find(Pain001.AmountNode(t), [InstdAmt]);
            && amount.Some? && amount.value.currency == Some(t.currency)
            && OwnText(amount) == Some(FormatAmount(t.amount, t.currency))
  {
    var node := Pain001.AmountNode(t);
    NamedOne(node.children[0], InstdAmt);
    FindThrough(node, [InstdAmt], node.children[0]);
    AmountIsClean(t.amount, t.currency);
  }

  lemma AmountIsClean(a: Decimal, currency: string)
    ensures Clean(FormatAmount(a, currency)) == Some(FormatAmount(a, currency))
  {
    var m := MinorUnits(currency);
    var text := Formatted(Quantized(a, m), m);
    FormattedShape(Quantized(a, m), m);
    assert forall c | c in text :: !IsSpace(c);
    CleanKeeps(text);
  }

  /** The reference type, under whichever of the two elements it was written. */
  lemma TypeReads(choice: Node, kind: Node)
    requires choice.children == [kind] && kind.tag in {Prtry, Cd}
    ensures OrElse(TextAt(Some(choice), [Prtry]), TextAt(Some(choice), [Cd])) == OwnText(Some(kind))
  {
    NamedOne(kind, Prtry);
    NamedOne(kind, Cd);
    if kind.tag == Prtry {
      TextThrough(choice, [Prtry], kind);
      NoText(choice, [Cd]);
    } else {
      NoText(choice, [Prtry]);
      TextThrough(choice, [Cd], kind);
    }
  }

  lemma TypeFound(reference: Node, tp: Node, choice: Node, rest: Node, last: Tag)
    requires reference.children == [tp, rest] && tp.tag == Tp && rest.tag == Ref
    requires tp.children == [choice] && choice.tag == CdOrPrtry
    ensures TextAt(Some(reference), [Tp, CdOrPrtry, last]) == TextAt(Some(choice), [last])
    ensures TextAt(Some(reference), [Ref]) == OwnText(Some(rest))
  {
    NamedTwo(tp, rest, Tp);
    NamedTwo(tp, rest, Ref);
    NamedOne(choice, CdOrPrtry);
    TextThrough(reference, [Tp, CdOrPrtry, last], tp);
    assert [Tp, CdOrPrtry, last][1..] == [CdOrPrtry, last];
    TextThrough(tp, [CdOrPrtry, last], choice);
    assert [CdOrPrtry, last][1..] == [last];
    TextThrough(reference, [Ref], rest);
  }

  lemma KindIsClean()
    ensures Clean("QRR") == Some("QRR") && Clean("SCOR") == Some("SCOR")
  {
    CleanKeeps("QRR");
    CleanKeeps("SCOR");
  }

  lemma ReferenceReads(t: Pain001.Transaction)
    requires Pain001.Structured(t)
    ensures var reference := Pain001.ReferenceNode(t);
            && ReadReferenceType(Some(reference)) == Seen(t).referenceType
            && TextAt(Some(reference), [Ref]) == Seen(t).reference
  {
    var node := Pain001.ReferenceNode(t);
    var tp := node.children[0];
    var choice := tp.children[0];
    TypeFound(node, tp, choice, node.children[1], Prtry);
    TypeFound(node, tp, choice, node.children[1], Cd);
    TypeReads(choice, choice.children[0]);
    KindIsClean();
  }

  /** What the remittance element holds, by tag. */
  lemma RemittanceHolds(t: Pain001.Transaction, structured: seq<Node>, node: Node)
    requires node.children == Pain001.LeafIf(Ustrd, t.remittance) + structured
    requires structured == [] || (|structured| == 1 && structured[0].tag == Strd)
    ensures Named(node.children, Ustrd) == Pain001.LeafIf(Ustrd, t.remittance)
    ensures Named(node.children, Strd) == structured
  {
    forall tag | tag in {Ustrd, Strd}
      ensures Named(node.children, tag) == if tag == Ustrd then Pain001.LeafIf(Ustrd, t.remittance) else structured
    {
      NamedJoins(Pain001.LeafIf(Ustrd, t.remittance), structured, tag);
      NamedLeaf(Ustrd, t.remittance, tag);
      if structured != [] { NamedOne(structured[0], tag); }
    }
  }

  lemma StructuredReads(strd: Node, reference: Node, additional: Option<string>)
    requires reference.tag == CdtrRefInf && strd.children == [reference] + Pain001.LeafIf(AddtlRmtInf, additional)
    ensures TextAt(Some(strd), [AddtlRmtInf]) == CleanGiven(additional)
    ensures Find(strd, [CdtrRefInf]) == Some(reference)
  {
    forall tag | tag in {CdtrRefInf, AddtlRmtInf}
      ensures Named(strd.children, tag)
           == if tag == CdtrRefInf then [reference] else Pain001.LeafIf(AddtlRmtInf, additional)
    {
      NamedJoins([reference], Pain001.LeafIf(AddtlRmtInf, additional), tag);
      NamedLeaf(AddtlRmtInf, additional, tag);
      NamedOne(reference, tag);
    }
    OptionalLeaf(strd, AddtlRmtInf, additional);
    FindThrough(strd, [CdtrRefInf], reference);
  }

  function StructuredPart(t: Pain001.Transaction): seq<Node> {
    if Pain001.Structured(t) then
      [Element(Strd, [Pain001.ReferenceNode(t)] + Pain001.LeafIf(AddtlRmtInf, t.additional))]
    else []
  }

  /** Inside the remittance element: the message, and beside a structured reference the
      additional words. */
  lemma RemittanceReads(t: Pain001.Transaction, node: Node)
    requires node.children == Pain001.LeafIf(Ustrd, t.remittance) + StructuredPart(t)
    ensures OrElse(TextAt(Some(node), [Ustrd]), TextAt(Some(node), [Strd, AddtlRmtInf])) == Words(t)
    ensures Find(node, [Strd, CdtrRefInf]) == if Pain001.Structured(t) then Some(Pain001.ReferenceNode(t)) else None
  {
    RemittanceHolds(t, StructuredPart(t), node);
    OptionalLeaf(node, Ustrd, t.remittance);
    if Pain001.Structured(t) {
      var strd := StructuredPart(t)[0];
      assert [Strd, AddtlRmtInf][1..] == [AddtlRmtInf] && [Strd, CdtrRefInf][1..] == [CdtrRefInf];
      TextThrough(node, [Strd, AddtlRmtInf], strd);
      FindThrough(node, [Strd, CdtrRefInf], strd);
      StructuredReads(strd, Pain001.ReferenceNode(t), t.additional);
    } else {
      NoText(node, [Strd, AddtlRmtInf]);
      FindNone(node, [Strd, CdtrRefInf]);
    }
  }

  /** Six runs of siblings, searched one after the other. */
  lemma NamedSix(a: seq<Node>, b: seq<Node>, c: seq<Node>, d: seq<Node>, e: seq<Node>, f: seq<Node>, tag: Tag)
    ensures Named(a + b + c + d + e + f, tag)
         == Named(a, tag) + Named(b, tag) + Named(c, tag) + Named(d, tag) + Named(e, tag) + Named(f, tag)
  {
    NamedJoins(a, b, tag);
    NamedJoins(a + b, c, tag);
    NamedJoins(a + b + c, d, tag);
    NamedJoins(a + b + c + d, e, tag);
    NamedJoins(a + b + c + d + e, f, tag);
  }

  /** At most one element, with this tag. */
  predicate AtMostOne(nodes: seq<Node>, tag: Tag) { nodes == [] || (|nodes| == 1 && nodes[0].tag == tag) }

  lemma NamedMaybe(nodes: seq<Node>, own: Tag, tag: Tag)
    requires AtMostOne(nodes, own)
    ensures Named(nodes, tag) == if own == tag then nodes else []
  {
    if nodes != [] { NamedOne(nodes[0], tag); }
  }

  /** The parts of a transfer, by tag, whichever optional parts are there. */
  lemma PartsByTag(identification: Node, kind: seq<Node>, amount: Node, agent: seq<Node>, creditor: Node, account: Node,
                   remittance: seq<Node>, tag: Tag)
    requires identification.tag == PmtId && amount.tag == Amt && creditor.tag == Cdtr && account.tag == CdtrAcct
    requires AtMostOne(kind, PmtTpInf) && AtMostOne(agent, CdtrAgt) && AtMostOne(remittance, RmtInf)
    ensures Named([identification] + kind + [amount] + agent + [creditor, account] + remittance, tag)
         == if tag == PmtId then [identification] else if tag == PmtTpInf then kind else if tag == Amt then [amount]
            else if tag == CdtrAgt then agent else if tag == Cdtr then [creditor] else if tag == CdtrAcct then [account]
            else if tag == RmtInf then remittance else []
  {
    NamedSix([identification], kind, [amount], agent, [creditor, account], remittance, tag);
    NamedOne(identification, tag);
    NamedMaybe(kind, PmtTpInf, tag);
    NamedOne(amount, tag);
    NamedMaybe(agent, CdtrAgt, tag);
    NamedTwo(creditor, account, tag);
    NamedMaybe(remittance, RmtInf, tag);
  }

  lemma OptionalParts(t: Pain001.Transaction, own: Option<Pain001.Profile>)
    ensures AtMostOne(Pain001.PaymentTypeNodes(own), PmtTpInf)
    ensures AtMostOne(Pain001.AgentNodes(CdtrAgt, t.creditorBic), CdtrAgt)
    ensures AtMostOne(Pain001.RemittanceNodes(t), RmtInf)
  {
  }

  lemma TransactionByTag(t: Pain001.Transaction, own: Option<Pain001.Profile>, tag: Tag)
    requires tag in {PmtId, Amt, Cdtr, CdtrAcct, RmtInf}
    ensures Named(Pain001.TransactionNode(t, own).children, tag)
         == if tag == PmtId then [Pain001.IdentificationNode(t)]
            else if tag == Amt then [Pain001.AmountNode(t)]
            else if tag == Cdtr then [Pain001.PartyNode(Cdtr, t.creditor)]
            else if tag == CdtrAcct then [Pain001.AccountNode(CdtrAcct, t.creditorIban)]
            else Pain001.RemittanceNodes(t)
  {
    OptionalParts(t, own);
    PartsByTag(Pain001.IdentificationNode(t), Pain001.PaymentTypeNodes(own), Pain001.AmountNode(t),
               Pain001.AgentNodes(CdtrAgt, t.creditorBic), Pain001.PartyNode(Cdtr, t.creditor),
               Pain001.AccountNode(CdtrAcct, t.creditorIban), Pain001.RemittanceNodes(t), tag);
  }

  lemma RemittancePart(t: Pain001.Transaction, node: Node)
    requires Named(node.children, RmtInf) == Pain001.RemittanceNodes(t)
    ensures ReadRemittance(node) == Words(t)
    ensures Find(node, [RmtInf, Strd, CdtrRefInf])
         == if Pain001.Structured(t) then Some(Pain001.ReferenceNode(t)) else None
  {
    assert [RmtInf, Ustrd][1..] == [Ustrd];
    assert [RmtInf, Strd, AddtlRmtInf][1..] == [Strd, AddtlRmtInf];
    assert [RmtInf, Strd, CdtrRefInf][1..] == [Strd, CdtrRefInf];
    if Pain001.RemittanceNodes(t) == [] {
      NoText(node, [RmtInf, Ustrd]);
      NoText(node, [RmtInf, Strd, AddtlRmtInf]);
      FindNone(node, [RmtInf, Strd, CdtrRefInf]);
    } else {
      var inside := Pain001.RemittanceNodes(t)[0];
      RemittanceReads(t, inside);
      TextThrough(node, [RmtInf, Ustrd], inside);
      TextThrough(node, [RmtInf, Strd, AddtlRmtInf], inside);
      FindThrough(node, [RmtInf, Strd, CdtrRefInf], inside);
    }
  }

  /** One transfer, read back. */
  lemma TransferReads(t: Pain001.Transaction, own: Option<Pain001.Profile>)
    ensures Shows(ReadTransfer(Pain001.TransactionNode(t, own)), t)
  {
    TransferIsSeen(t, own);
    SeenShows(t);
  }

  lemma TransferIsSeen(t: Pain001.Transaction, own: Option<Pain001.Profile>)
    ensures ReadTransfer(Pain001.TransactionNode(t, own)) == Seen(t)
  {
    var node := Pain001.TransactionNode(t, own);
    TransactionByTag(t, own, PmtId);
    TransactionByTag(t, own, Amt);
    TransactionByTag(t, own, Cdtr);
    TransactionByTag(t, own, CdtrAcct);
    TransactionByTag(t, own, RmtInf);
    assert [Amt, InstdAmt][1..] == [InstdAmt] && [Cdtr, Nm][1..] == [Nm];
    assert [CdtrAcct, Id, IBAN][1..] == [Id, IBAN];
    assert [PmtId, EndToEndId][1..] == [EndToEndId] && [PmtId, InstrId][1..] == [InstrId];
    FindThrough(node, [Amt, InstdAmt], Pain001.AmountNode(t));
    AmountReads(t);
    TextThrough(node, [Cdtr, Nm], Pain001.PartyNode(Cdtr, t.creditor));
    PartyReads(Cdtr, t.creditor);
    TextThrough(node, [CdtrAcct, Id, IBAN], Pain001.AccountNode(CdtrAcct, t.creditorIban));
    AccountReads(CdtrAcct, t.creditorIban);
    TextThrough(node, [PmtId, EndToEndId], Pain001.IdentificationNode(t));
    TextThrough(node, [PmtId, InstrId], Pain001.IdentificationNode(t));
    IdentificationReads(t);
    RemittancePart(t, node);
    if Pain001.Structured(t) { ReferenceReads(t); }
  }

  // --- the whole document ---------------------------------------------------------------

  lemma {:induction false} NothingInside(nodes: seq<Node>, tag: Tag)
    requires forall k | 0 <= k < |nodes| :: nodes[k].tag != tag && DescendantsOf(nodes[k].children, tag) == []
    ensures DescendantsOf(nodes, tag) == []
    decreases |nodes|
  {
    if nodes != [] { NothingInside(nodes[1..], tag); }
  }

  lemma LeavesHoldNothing(nodes: seq<Node>, tag: Tag)
    requires forall k | 0 <= k < |nodes| :: nodes[k].tag != tag && nodes[k].children == []
    ensures DescendantsOf(nodes, tag) == []
  {
    NothingInside(nodes, tag);
  }

  lemma ContactHasNoPayment(version: Option<string>)
    ensures DescendantsOf(Pain001.ContactNodes(version), PmtInf) == []
  {
    var contact := Pain001.ContactNodes(version);
    if contact != [] {
      var others := contact[0].children;
      LeavesHoldNothing(others[0].children, PmtInf);
      LeavesHoldNothing(others[1].children, PmtInf);
      NothingInside(others, PmtInf);
      NothingInside(contact, PmtInf);
    }
  }

  lemma HeaderHasNoPayment(i: Pain001.Instruction, s: Pain001.Stamp)
    ensures DescendantsOf(Pain001.HeaderNode(i, s).children, PmtInf) == []
  {
    var header := Pain001.HeaderNode(i, s).children;
    var name, contact := Leaf(Nm, i.debtor.name), Pain001.ContactNodes(s.softwareVersion);
    ContactHasNoPayment(s.softwareVersion);
    assert ([name] + contact)[1..] == contact;
    NothingInside(header, PmtInf);
  }

  /** The reader's search lands on the payment that was built. */
  lemma FirstOfTwo(root: Node, initiation: Node, header: Node, payment: Node)
    requires root.children == [initiation] && initiation.children == [header, payment]
    requires initiation.tag != PmtInf && header.tag != PmtInf && payment.tag == PmtInf
    requires DescendantsOf(header.children, PmtInf) == []
    ensures Descendants(root, PmtInf) != [] && Descendants(root, PmtInf)[0] == payment
  {
    assert [header, payment][1..] == [payment];
    assert [initiation][1..] == [];
    var below := DescendantsOf([header, payment], PmtInf);
    assert below == [] + [] + DescendantsOf([payment], PmtInf);
    assert Descendants(root, PmtInf) == [] + below + [];
  }

  /** The payment's own parts and its transfers, by tag. */
  lemma PaymentHolds(i: Pain001.Instruction, s: Pain001.Stamp, profile: Option<Pain001.Profile>, perTransaction: bool, tag: Tag)
    ensures Named(Pain001.PaymentNode(i, s, profile, perTransaction).children, tag)
         == Named(Pain001.PaymentFacts(i, s), tag)
            + (if tag == PmtTpInf && !perTransaction then Pain001.PaymentTypeNodes(profile) else [])
            + Named(Pain001.PayerNodes(i, profile), tag)
            + (if tag == CdtTrfTxInf then Pain001.TransactionNodes(i.transactions, if perTransaction then profile else None)
               else [])
  {
    var kind := if perTransaction then [] else Pain001.PaymentTypeNodes(profile);
    var nodes := Pain001.TransactionNodes(i.transactions, if perTransaction then profile else None);
    assert forall k | 0 <= k < |nodes| :: nodes[k].tag == CdtTrfTxInf;
    NamedFour(Pain001.PaymentFacts(i, s), kind, Pain001.PayerNodes(i, profile), nodes, tag);
    NamedMaybe(kind, PmtTpInf, tag);
    if tag == CdtTrfTxInf { AllNamed(nodes, tag); } else { NoneNamed(nodes, tag); }
  }

  lemma NamedFour(a: seq<Node>, b: seq<Node>, c: seq<Node>, d: seq<Node>, tag: Tag)
    ensures Named(a + b + c + d, tag) == Named(a, tag) + Named(b, tag) + Named(c, tag) + Named(d, tag)
  {
    NamedJoins(a, b, tag);
    NamedJoins(a + b, c, tag);
    NamedJoins(a + b + c, d, tag);
  }

  predicate FactTags(facts: seq<Node>) {
    && |facts| == 5
    && facts[0].tag == PmtInfId && facts[1].tag == PmtMtd && facts[2].tag == BtchBookg && facts[3].tag == NbOfTxs
    && facts[4].tag == CtrlSum
  }

  predicate PayerTags(payer: seq<Node>) {
    && |payer| == 4
    && payer[0].tag == ReqdExctnDt && payer[1].tag == Dbtr && payer[2].tag == DbtrAcct && payer[3].tag == DbtrAgt
  }

  lemma FactAlone(facts: seq<Node>, payer: seq<Node>, k: nat)
    requires FactTags(facts) && PayerTags(payer) && k < 5
    ensures Named(facts, facts[k].tag) == [facts[k]] && Named(payer, facts[k].tag) == []
    ensures facts[k].tag != PmtTpInf && facts[k].tag != CdtTrfTxInf
  {
    NamedOnly(facts, facts[k].tag, k);
    NoneNamed(payer, facts[k].tag);
  }

  lemma PayerAlone(facts: seq<Node>, payer: seq<Node>, k: nat)
    requires FactTags(facts) && PayerTags(payer) && k < 4
    ensures Named(payer, payer[k].tag) == [payer[k]] && Named(facts, payer[k].tag) == []
    ensures payer[k].tag != PmtTpInf && payer[k].tag != CdtTrfTxInf
  {
    NamedOnly(payer, payer[k].tag, k);
    NoneNamed(facts, payer[k].tag);
  }

  lemma FactNamed(i: Pain001.Instruction, s: Pain001.Stamp, profile: Option<Pain001.Profile>, perTransaction: bool, k: nat)
    requires k < 5
    ensures var fact := Pain001.PaymentFacts(i, s)[k];
            Named(Pain001.PaymentNode(i, s, profile, perTransaction).children, fact.tag) == [fact]
  {
    var facts, payer := Pain001.PaymentFacts(i, s), Pain001.PayerNodes(i, profile);
    FactAlone(facts, payer, k);
    PaymentHolds(i, s, profile, perTransaction, facts[k].tag);
  }

  lemma PayerNamed(i: Pain001.Instruction, s: Pain001.Stamp, profile: Option<Pain001.Profile>, perTransaction: bool, k: nat)
    requires k < 4
    ensures var part := Pain001.PayerNodes(i, profile)[k];
            Named(Pain001.PaymentNode(i, s, profile, perTransaction).children, part.tag) == [part]
  {
    var facts, payer := Pain001.PaymentFacts(i, s), Pain001.PayerNodes(i, profile);
    PayerAlone(facts, payer, k);
    PaymentHolds(i, s, profile, perTransaction, payer[k].tag);
  }

  lemma TransfersRead(ts: seq<Pain001.Transaction>, own: Option<Pain001.Profile>)
    ensures ReadTransfers(Pain001.TransactionNodes(ts, own)) == SeenAll(ts)
  {
    var nodes := Pain001.TransactionNodes(ts, own);
    forall k | 0 <= k < |ts| ensures ReadTransfers(nodes)[k] == SeenAll(ts)[k] {
      TransferIsSeen(ts[k], own);
    }
  }

  lemma FactsByTag(i: Pain001.Instruction, s: Pain001.Stamp, profile: Option<Pain001.Profile>, perTransaction: bool)
    ensures var c := Pain001.PaymentNode(i, s, profile, perTransaction).children;
            var facts := Pain001.PaymentFacts(i, s);
            Named(c, PmtInfId) == [facts[0]] && Named(c, NbOfTxs) == [facts[3]] && Named(c, CtrlSum) == [facts[4]]
  {
    FactNamed(i, s, profile, perTransaction, 0);
    FactNamed(i, s, profile, perTransaction, 3);
    FactNamed(i, s, profile, perTransaction, 4);
  }

  lemma PayerByTag(i: Pain001.Instruction, s: Pain001.Stamp, profile: Option<Pain001.Profile>, perTransaction: bool)
    ensures var c := Pain001.PaymentNode(i, s, profile, perTransaction).children;
            var payer := Pain001.PayerNodes(i, profile);
            Named(c, ReqdExctnDt) == [payer[0]] && Named(c, Dbtr) == [payer[1]] && Named(c, DbtrAcct) == [payer[2]]
  {
    PayerNamed(i, s, profile, perTransaction, 0);
    PayerNamed(i, s, profile, perTransaction, 1);
    PayerNamed(i, s, profile, perTransaction, 2);
  }

  lemma TransfersByTag(i: Pain001.Instruction, s: Pain001.Stamp, profile: Option<Pain001.Profile>, perTransaction: bool)
    ensures Named(Pain001.PaymentNode(i, s, profile, perTransaction).children, CdtTrfTxInf)
         == Pain001.TransactionNodes(i.transactions, if perTransaction then profile else None)
  {
    NoneNamed(Pain001.PaymentFacts(i, s), CdtTrfTxInf);
    NoneNamed(Pain001.PayerNodes(i, profile), CdtTrfTxInf);
    PaymentHolds(i, s, profile, perTransaction, CdtTrfTxInf);
  }

  lemma PaymentTexts(i: Pain001.Instruction, s: Pain001.Stamp, profile: Option<Pain001.Profile>, perTransaction: bool)
    ensures var payment := Some(Pain001.PaymentNode(i, s, profile, perTransaction));
            && TextAt(payment, [Dbtr, Nm]) == Clean(i.debtor.name)
            && TextAt(payment, [DbtrAcct, Id, IBAN]) == Clean(Pain001.Normalised(i.debtorIban))
            && TextAt(payment, [PmtInfId]) == Expected(i, s).paymentInformationId
            && TextAt(payment, [ReqdExctnDt, Dt]) == Clean(i.executionDate)
  {
    var payment := Pain001.PaymentNode(i, s, profile, perTransaction);
    var date := Pain001.PayerNodes(i, profile)[0];
    FactsByTag(i, s, profile, perTransaction);
    PayerByTag(i, s, profile, perTransaction);
    assert [Dbtr, Nm][1..] == [Nm] && [ReqdExctnDt, Dt][1..] == [Dt] && [DbtrAcct, Id, IBAN][1..] == [Id, IBAN];
    TextThrough(payment, [PmtInfId], Pain001.PaymentFacts(i, s)[0]);
    TextThrough(payment, [ReqdExctnDt, Dt], date);
    NamedOne(date.children[0], Dt);
    TextThrough(date, [Dt], date.children[0]);
    TextThrough(payment, [Dbtr, Nm], Pain001.PayerNodes(i, profile)[1]);
    PartyReads(Dbtr, i.debtor);
    TextThrough(payment, [DbtrAcct, Id, IBAN], Pain001.PayerNodes(i, profile)[2]);
    AccountReads(DbtrAcct, i.debtorIban);
  }

  /** Reading back what was built yields the debtor and every transfer in order, each with the
      amount asked for, its currency, its references and its message. */
  lemma ReadsBack(i: Pain001.Instruction, s: Pain001.Stamp, profile: Option<Pain001.Profile>, perTransaction: bool)
    ensures var summary := Summarise(Pain001.DocumentNode(i, s, profile, perTransaction));
            && summary.Some?
            && summary.value.debtor == Party(Clean(i.debtor.name), Clean(Pain001.Normalised(i.debtorIban)))
            && |summary.value.transfers| == |i.transactions|
            && (forall k | 0 <= k < |i.transactions| :: Shows(summary.value.transfers[k], i.transactions[k]))
            && summary.value.paymentInformationId
               == Clean(if Present(s.paymentInformationId) then s.paymentInformationId.value else s.messageId)
            && summary.value.executionDate == Clean(i.executionDate)
  {
    SummaryIs(i, s, profile, perTransaction);
    forall k: nat | k < |i.transactions| ensures Shows(SeenAll(i.transactions)[k], i.transactions[k]) {
      SeenShows(i.transactions[k]);
    }
  }

  lemma SummaryIs(i: Pain001.Instruction, s: Pain001.Stamp, profile: Option<Pain001.Profile>, perTransaction: bool)
    ensures Summarise(Pain001.DocumentNode(i, s, profile, perTransaction)) == Some(Expected(i, s))
  {
    var root := Pain001.DocumentNode(i, s, profile, perTransaction);
    var payment := Pain001.PaymentNode(i, s, profile, perTransaction);
    HeaderHasNoPayment(i, s);
    FirstOfTwo(root, root.children[0], Pain001.HeaderNode(i, s), payment);
    TransfersByTag(i, s, profile, perTransaction);
    TransfersRead(i.transactions, if perTransaction then profile else None);
    PaymentTexts(i, s, profile, perTransaction);
  }

  // --- what a bank reads besides ----------------------------------------------------------

  lemma PaymentTypeOfPayment(i: Pain001.Instruction, s: Pain001.Stamp, profile: Option<Pain001.Profile>, perTransaction: bool)
    ensures Named(Pain001.PaymentNode(i, s, profile, perTransaction).children, PmtTpInf)
         == (if perTransaction then [] else Pain001.PaymentTypeNodes(profile))
  {
    NoneNamed(Pain001.PaymentFacts(i, s), PmtTpInf);
    NoneNamed(Pain001.PayerNodes(i, profile), PmtTpInf);
    PaymentHolds(i, s, profile, perTransaction, PmtTpInf);
  }

  lemma PaymentTypeOfTransfer(t: Pain001.Transaction, own: Option<Pain001.Profile>)
    ensures Named(Pain001.TransactionNode(t, own).children, PmtTpInf) == Pain001.PaymentTypeNodes(own)
  {
    OptionalParts(t, own);
    PartsByTag(Pain001.IdentificationNode(t), Pain001.PaymentTypeNodes(own), Pain001.AmountNode(t),
               Pain001.AgentNodes(CdtrAgt, t.creditorBic), Pain001.PartyNode(Cdtr, t.creditor),
               Pain001.AccountNode(CdtrAcct, t.creditorIban), Pain001.RemittanceNodes(t), PmtTpInf);
  }

  lemma NoProfileNoType()
    ensures Pain001.PaymentTypeNodes(None) == []
  {
  }

  /** The payment type stands on the payment or on every transfer, never on both, and is the
      same wherever it stands. */
  lemma PaymentTypePlace(i: Pain001.Instruction, s: Pain001.Stamp, profile: Option<Pain001.Profile>, perTransaction: bool, k: nat)
    requires k < |i.transactions|
    ensures var payment := Pain001.PaymentNode(i, s, profile, perTransaction);
            var transfers := Named(payment.children, CdtTrfTxInf);
            && Named(payment.children, PmtTpInf) == (if perTransaction then [] else Pain001.PaymentTypeNodes(profile))
            && |transfers| == |i.transactions|
            && Named(transfers[k].children, PmtTpInf) == (if perTransaction then Pain001.PaymentTypeNodes(profile) else [])
  {
    PaymentTypeOfPayment(i, s, profile, perTransaction);
    TransfersByTag(i, s, profile, perTransaction);
    PaymentTypeOfTransfer(i.transactions[k], if perTransaction then profile else None);
    NoProfileNoType();
  }

  /** A payment type is written only with something in it. */
  lemma PaymentTypeIsNeverEmpty(profile: Option<Pain001.Profile>)
    ensures forall node | node in Pain001.PaymentTypeNodes(profile) :: node.children != []
  {
  }

  // --- counts and control sums ------------------------------------------------------------

  /** What the transfers of a summary come to, as their amounts are written. */
  function TotalRead(transfers: seq<Transfer>): real {
    if transfers == [] then 0.0
    else
      var amount := transfers[|transfers| - 1].amount;
      var written := if amount.Some? then DecimalOf(amount.value) else None;
      TotalRead(transfers[..|transfers| - 1]) + if written.Some? then Value(written.value) else 0.0
  }

  lemma {:induction false} TotalIsRead(ts: seq<Pain001.Transaction>)
    requires forall k | 0 <= k < |ts| :: ts[k].amount.scale <= MinorUnits(ts[k].currency)
    ensures TotalRead(SeenAll(ts)) == Total(Pain001.AmountsOf(ts))
    decreases |ts|
  {
    if ts != [] {
      var front, last := ts[..|ts| - 1], ts[|ts| - 1];
      TotalIsRead(front);
      assert SeenAll(ts)[..|ts| - 1] == SeenAll(front);
      assert Pain001.AmountsOf(ts)[..|ts| - 1] == Pain001.AmountsOf(front);
      WrittenAmountDenotes(last.amount, last.currency);
    }
  }

  /** Where a header and a payment carry their count and control sum. */
  function CountsOf(part: Node): (Option<string>, Option<string>) {
    (TextAt(Some(part), [NbOfTxs]), TextAt(Some(part), [CtrlSum]))
  }

  function Written(i: Pain001.Instruction, s: Pain001.Stamp): (Option<string>, Option<string>) {
    (Some(Digits(|i.transactions|)), Some(Pain001.ControlSum(i, s.currency)))
  }

  lemma LeavesCarry(part: Node, i: Pain001.Instruction, s: Pain001.Stamp)
    requires Named(part.children, NbOfTxs) == [Leaf(NbOfTxs, Digits(|i.transactions|))]
    requires Named(part.children, CtrlSum) == [Leaf(CtrlSum, Pain001.ControlSum(i, s.currency))]
    ensures CountsOf(part) == Written(i, s)
  {
    AmountIsClean(Sum(Pain001.AmountsOf(i.transactions)), s.currency);
    CountIsClean(|i.transactions|);
    TextThrough(part, [NbOfTxs], Leaf(NbOfTxs, Digits(|i.transactions|)));
    TextThrough(part, [CtrlSum], Leaf(CtrlSum, Pain001.ControlSum(i, s.currency)));
  }

  lemma BothCarryTheSame(i: Pain001.Instruction, s: Pain001.Stamp, profile: Option<Pain001.Profile>, perTransaction: bool)
    ensures CountsOf(Pain001.HeaderNode(i, s)) == Written(i, s)
    ensures CountsOf(Pain001.PaymentNode(i, s, profile, perTransaction)) == Written(i, s)
  {
    var header := Pain001.HeaderNode(i, s);
    NamedOnly(header.children, NbOfTxs, 2);
    NamedOnly(header.children, CtrlSum, 3);
    LeavesCarry(header, i, s);
    FactsByTag(i, s, profile, perTransaction);
    LeavesCarry(Pain001.PaymentNode(i, s, profile, perTransaction), i, s);
  }

  lemma CountIsClean(n: nat)
    ensures Clean(Digits(n)) == Some(Digits(n))
  {
    assert forall c | c in Digits(n) :: !IsSpace(c);
    CleanKeeps(Digits(n));
  }

  /** Both control sums denote the sum of the amounts asked for, rounded once when it is finer
      than the currency's minor units. */
  lemma ControlSumDenotes(i: Pain001.Instruction, s: Pain001.Stamp, profile: Option<Pain001.Profile>, perTransaction: bool)
    ensures var counts := CountsOf(Pain001.HeaderNode(i, s));
            var asked := Sum(Pain001.AmountsOf(i.transactions));
            && CountsOf(Pain001.PaymentNode(i, s, profile, perTransaction)) == counts
            && Value(asked) == Total(Pain001.AmountsOf(i.transactions))
            && counts.1.Some? && DecimalOf(counts.1.value).Some? && Denotes(DecimalOf(counts.1.value).value, asked)
            && DecimalOf(counts.1.value).value.scale == MinorUnits(s.currency)
  {
    BothCarryTheSame(i, s, profile, perTransaction);
    SumIsTotal(Pain001.AmountsOf(i.transactions));
    WrittenAmountDenotes(Sum(Pain001.AmountsOf(i.transactions)), s.currency);
  }

  /** Both counts are the number of transfers the document carries, and with one currency and
      amounts in its minor units both control sums are exactly the sum of the amounts written
      and of the amounts asked for. */
  lemma CountsAgree(i: Pain001.Instruction, s: Pain001.Stamp, profile: Option<Pain001.Profile>, perTransaction: bool)
    requires forall k | 0 <= k < |i.transactions| :: i.transactions[k].currency == s.currency
    requires InMinorUnits(Pain001.AmountsOf(i.transactions), MinorUnits(s.currency))
    ensures var counts := CountsOf(Pain001.HeaderNode(i, s));
            var summary := Summarise(Pain001.DocumentNode(i, s, profile, perTransaction));
            && CountsOf(Pain001.PaymentNode(i, s, profile, perTransaction)) == counts
            && summary.Some? && counts.0.Some? && counts.1.Some?
            && DecimalOf(counts.0.value) == Some(Decimal(|summary.value.transfers|, 0))
            && DecimalOf(counts.1.value).Some?
            && Value(DecimalOf(counts.1.value).value) == TotalRead(summary.value.transfers)
            && TotalRead(summary.value.transfers) == Total(Pain001.AmountsOf(i.transactions))
  {
    SummaryIs(i, s, profile, perTransaction);
    BothCarryTheSame(i, s, profile, perTransaction);
    FormattedReads(|i.transactions|, 0);
    ControlSumIsExact(Pain001.AmountsOf(i.transactions), MinorUnits(s.currency));
    ControlSumDenotes(i, s, profile, perTransaction);
    forall k: nat | k < |i.transactions| ensures i.transactions[k].amount.scale <= MinorUnits(i.transactions[k].currency) {
      assert Pain001.AmountsOf(i.transactions)[k] == i.transactions[k].amount;
    }
    TotalIsRead(i.transactions);
  }
}
