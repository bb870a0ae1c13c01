/** Building a pain.001.001.09 message: one debit, one execution date, any number of credit
    transfers, in the element order the schema fixes. */
module Pain001 {
  import opened Wrappers
  import opened Documents
  import opened Amounts

  datatype Address = Address(street: Option<string>, building: Option<string>, postalCode: Option<string>,
                             town: string, country: string)

  datatype Party = Party(name: string, address: Option<Address>)

  datatype ReferenceType = QRR | SCOR | NoReference

  datatype Transaction = Transaction(
    amount: Decimal, currency: string, creditor: Party, creditorIban: string, creditorBic: Option<string>,
    endToEndId: Option<string>, instructionId: Option<string>, referenceType: ReferenceType, reference: Option<string>,
    remittance: Option<string>, additional: Option<string>)

  datatype Instruction = Instruction(debtor: Party, debtorIban: string, debtorBic: Option<string>, executionDate: string,
                                     transactions: seq<Transaction>, batchBooking: bool)

  datatype Code = Code(value: string, proprietary: bool)

  /** The codes of the scheme a document is sent under. */
  datatype Profile = Profile(priority: Option<string>, serviceLevel: Option<Code>, localInstrument: Option<Code>,
                             categoryPurpose: Option<Code>)
  {
    predicate EmitsPaymentType() {
      Given(priority) || serviceLevel.Some? || localInstrument.Some? || categoryPurpose.Some?
    }
  }

  const NOT_PROVIDED := "NOTPROVIDED"

  /** Present and not empty. */
  predicate Given(s: Option<string>) { s.Some? && s.value != "" }

  function WithoutSpaces(s: string): (r: string)
    ensures forall c | c in r :: !IsSpace(c)
  {
    if s == "" then "" else (if IsSpace(s[0]) then "" else [s[0]]) + WithoutSpaces(s[1..])
  }

  function Upper(c: char): char { if 'a' <= c <= 'z' then 'A' + (c - 'a') else c }

  function Uppercase(s: string): (r: string)
    ensures |r| == |s| && forall k | 0 <= k < |s| :: r[k] == Upper(s[k])
  {
    seq(|s|, k requires 0 <= k < |s| => Upper(s[k]))
  }

  /** IBANs and references: presentation spaces removed, upper case. */
  function Normalised(s: string): (r: string)
    ensures forall c | c in r :: !IsSpace(c)
  {
    var bare := WithoutSpaces(s);
    assert forall k | 0 <= k < |bare| :: bare[k] in bare;
    Uppercase(bare)
  }

  function LeafIf(tag: Tag, text: Option<string>): seq<Node> { if Given(text) then [Leaf(tag, text.value)] else [] }

  function AddressNode(a: Address): Node {
    Element(PstlAdr, LeafIf(StrtNm, a.street) + LeafIf(BldgNb, a.building) + LeafIf(PstCd, a.postalCode)
                     + [Leaf(TwnNm, a.town), Leaf(Ctry, a.country)])
  }

  function PartyNode(tag: Tag, p: Party): Node {
    Element(tag, [Leaf(Nm, p.name)] + if p.address.Some? then [AddressNode(p.address.value)] else [])
  }

  function AccountNode(tag: Tag, iban: string): Node { Element(tag, [Element(Id, [Leaf(IBAN, Normalised(iban))])]) }

  function AgentNodes(tag: Tag, bic: Option<string>): seq<Node> {
    if Given(bic) then [Element(tag, [Element(FinInstnId, [Leaf(BICFI, bic.value)])])] else []
  }

  function CodeNodes(tag: Tag, code: Option<Code>): seq<Node> {
    if code.Some? then [Element(tag, [Leaf(if code.value.proprietary then Prtry else Cd, code.value.value)])] else []
  }

  function PaymentTypeNodes(profile: Option<Profile>): seq<Node> {
    if profile.None? || !profile.value.EmitsPaymentType() then []
    else
      [Element(PmtTpInf, LeafIf(InstrPrty, profile.value.priority) + CodeNodes(SvcLvl, profile.value.serviceLevel)
                         + CodeNodes(LclInstrm, profile.value.localInstrument)
                         + CodeNodes(CtgyPurp, profile.value.categoryPurpose))]
  }

  predicate Structured(t: Transaction) { t.referenceType != NoReference && Given(t.reference) }

  function ReferenceNode(t: Transaction): Node {
    var kind := if t.referenceType == QRR then Leaf(Prtry, "QRR") else Leaf(Cd, "SCOR");
    Element(CdtrRefInf, [Element(Tp, [Element(CdOrPrtry, [kind])]),
                         Leaf(Ref, Normalised(if t.reference.Some? then t.reference.value else ""))])
  }

  /** Remittance is structured or unstructured, or absent; the additional words go beside a
      structured reference only. */
  function RemittanceNodes(t: Transaction): seq<Node> {
    if !Structured(t) && !Given(t.remittance) then []
    else
      [Element(RmtInf, LeafIf(Ustrd, t.remittance)
        + if Structured(t) then [Element(Strd, [ReferenceNode(t)] + LeafIf(AddtlRmtInf, t.additional))] else [])]
  }

  function AmountNode(t: Transaction): Node {
    Element(Amt, [Node(InstdAmt, Some(FormatAmount(t.amount, t.currency)), Some(t.currency), [])])
  }

  function IdentificationNode(t: Transaction): Node {
    Element(PmtId, LeafIf(InstrId, t.instructionId)
                   + [Leaf(EndToEndId, if Given(t.endToEndId) then t.endToEndId.value else NOT_PROVIDED)])
  }

  function TransactionNode(t: Transaction, profile: Option<Profile>): Node {
    Element(CdtTrfTxInf, [IdentificationNode(t)] + PaymentTypeNodes(profile) + [AmountNode(t)]
                         + AgentNodes(CdtrAgt, t.creditorBic)
                         + [PartyNode(Cdtr, t.creditor), AccountNode(CdtrAcct, t.creditorIban)] + RemittanceNodes(t))
  }

  function TransactionNodes(ts: seq<Transaction>, profile: Option<Profile>): seq<Node> {
    seq(|ts|, k requires 0 <= k < |ts| => TransactionNode(ts[k], profile))
  }

  predicate DeclaresSepa(profile: Option<Profile>) {
    profile.Some? && profile.value.serviceLevel == Some(Code("SEPA", false))
  }

  predicate AllDigits(s: string) { forall c | c in s :: IsDigit(c) }

  /** The institution a Swiss or Liechtenstein IBAN names: its characters 5 to 9. */
  function SwissInstitution(iban: string): Option<string> {
    var s := Normalised(iban);
    if |s| == 21 && s[..2] in {"CH", "LI"} && AllDigits(s[4..9]) then Some(s[4..9]) else None
  }

  /** The debtor's bank: its BIC, or under SEPA a declared absence, or the institution the
      account names, or nothing. */
  function DebtorAgentNode(i: Instruction, profile: Option<Profile>): Node {
    var iid := SwissInstitution(i.debtorIban);
    Element(DbtrAgt, [Element(FinInstnId,
      if Given(i.debtorBic) then [Leaf(BICFI, i.debtorBic.value)]
      else if DeclaresSepa(profile) then [Element(Othr, [Leaf(Id, NOT_PROVIDED)])]
      else if iid.Some? then [Element(ClrSysMmbId, [Element(ClrSysId, [Leaf(Cd, "CHBCC")]), Leaf(MmbId, iid.value)])]
      else [])])
  }

  /** What is minted for one message, and the currency picked from those it uses. */
  datatype Stamp = Stamp(messageId: string, createdAt: string, paymentInformationId: Option<string>,
                         softwareVersion: Option<string>, currency: string)

  function AmountsOf(ts: seq<Transaction>): seq<Decimal> { seq(|ts|, k requires 0 <= k < |ts| => ts[k].amount) }

  function ControlSum(i: Instruction, currency: string): string { FormatAmount(Sum(AmountsOf(i.transactions)), currency) }

  function ContactNodes(version: Option<string>): seq<Node> {
    if !Given(version) then []
    else
      [Element(CtctDtls, [Element(Othr, [Leaf(ChanlTp, "NAME"), Leaf(Id, "painfree")]),
                          Element(Othr, [Leaf(ChanlTp, "VRSN"), Leaf(Id, version.value)])])]
  }

  function HeaderNode(i: Instruction, s: Stamp): Node {
    Element(GrpHdr, [Leaf(MsgId, s.messageId), Leaf(CreDtTm, s.createdAt), Leaf(NbOfTxs, Digits(|i.transactions|)),
                     Leaf(CtrlSum, ControlSum(i, s.currency)),
                     Element(InitgPty, [Leaf(Nm, i.debtor.name)] + ContactNodes(s.softwareVersion))])
  }

  /** The parts of a payment that name it and count it. */
  function PaymentFacts(i: Instruction, s: Stamp): seq<Node> {
    [Leaf(PmtInfId, if Given(s.paymentInformationId) then s.paymentInformationId.value else s.messageId),
     Leaf(PmtMtd, "TRF"), Leaf(BtchBookg, if i.batchBooking then "true" else "false"),
     Leaf(NbOfTxs, Digits(|i.transactions|)), Leaf(CtrlSum, ControlSum(i, s.currency))]
  }

  /** The parts that say when, and who pays from where. */
  function PayerNodes(i: Instruction, profile: Option<Profile>): seq<Node> {
    [Element(ReqdExctnDt, [Leaf(Dt, i.executionDate)]), PartyNode(Dbtr, i.debtor), AccountNode(DbtrAcct, i.debtorIban),
     DebtorAgentNode(i, profile)]
  }

  function PaymentHead(i: Instruction, s: Stamp, profile: Option<Profile>, perTransaction: bool): seq<Node> {
    PaymentFacts(i, s) + (if perTransaction then [] else PaymentTypeNodes(profile)) + PayerNodes(i, profile)
  }

  function PaymentNode(i: Instruction, s: Stamp, profile: Option<Profile>, perTransaction: bool): Node {
    Element(PmtInf, PaymentHead(i, s, profile, perTransaction)
                    + TransactionNodes(i.transactions, if perTransaction then profile else None))
  }

  function DocumentNode(i: Instruction, s: Stamp, profile: Option<Profile>, perTransaction: bool): Node {
    Element(Document, [Element(CstmrCdtTrfInitn, [HeaderNode(i, s), PaymentNode(i, s, profile, perTransaction)])])
  }

  method Header(i: Instruction, s: Stamp, count: string, controlSum: string) returns (header: seq<Node>)
    requires count == Digits(|i.transactions|) && controlSum == ControlSum(i, s.currency)
    ensures header == HeaderNode(i, s).children
  {
    header := [Leaf(MsgId, s.messageId)];
    header := header + [Leaf(CreDtTm, s.createdAt)];
    header := header + [Leaf(NbOfTxs, count)];
    header := header + [Leaf(CtrlSum, controlSum)];
    var initiating := [Leaf(Nm, i.debtor.name)] + ContactNodes(s.softwareVersion);
    header := header + [Element(InitgPty, initiating)];
  }

  lemma NodesGrow(ts: seq<Transaction>, k: nat, own: Option<Profile>)
    requires k < |ts|
    ensures TransactionNodes(ts[..k + 1], own) == TransactionNodes(ts[..k], own) + [TransactionNode(ts[k], own)]
  {
    var left := TransactionNodes(ts[..k + 1], own);
    var before := TransactionNodes(ts[..k], own);
    var node := TransactionNode(ts[k], own);
    assert |left| == k + 1 && left[k] == node;
    forall j | 0 <= j < k ensures left[j] == before[j] {
      assert ts[..k + 1][j] == ts[..k][j];
    }
    OneMore(left, before, node);
  }

  lemma OneMore(longer: seq<Node>, shorter: seq<Node>, last: Node)
    requires |longer| == |shorter| + 1 && longer[|shorter|] == last
    requires forall j | 0 <= j < |shorter| :: longer[j] == shorter[j]
    ensures longer == shorter + [last]
  {
  }

  method Transactions(head: seq<Node>, ts: seq<Transaction>, own: Option<Profile>) returns (payment: seq<Node>)
    ensures payment == head + TransactionNodes(ts, own)
  {
    payment := head;
    for k := 0 to |ts|
      invariant payment == head + TransactionNodes(ts[..k], own)
    {
      NodesGrow(ts, k, own);
      Joined(head, TransactionNodes(ts[..k], own), [TransactionNode(ts[k], own)]);
      payment := payment + [TransactionNode(ts[k], own)];
    }
    assert ts[..|ts|] == ts;
  }

  /** Render the instruction, appending element after element. */
  method Build(i: Instruction, s: Stamp, profile: Option<Profile>, perTransaction: bool) returns (root: Node)
    ensures root == DocumentNode(i, s, profile, perTransaction)
  {
    var count := Digits(|i.transactions|);
    var controlSum := ControlSum(i, s.currency);
    var header := Header(i, s, count, controlSum);
    var payment := [Leaf(PmtInfId, if Given(s.paymentInformationId) then s.paymentInformationId.value else s.messageId),
                    Leaf(PmtMtd, "TRF"), Leaf(BtchBookg, if i.batchBooking then "true" else "false"),
                    Leaf(NbOfTxs, count), Leaf(CtrlSum, controlSum)];
    if !perTransaction {
      payment := payment + PaymentTypeNodes(profile);
    }
    payment := payment + PayerNodes(i, profile);
    assert payment == PaymentHead(i, s, profile, perTransaction);
    payment := Transactions(payment, i.transactions, if perTransaction then profile else None);
    root := Element(Document, [Element(CstmrCdtTrfInitn, [Element(GrpHdr, header), Element(PmtInf, payment)])]);
  }
}
