/** XML elements as the payment builder writes them and the reader searches them: the
    elements of pain.001.001.09 in one namespace, with the text each holds itself. */
module Documents {
  import opened Wrappers

  /** Element names, numbered: only whether two agree matters. */
  newtype Tag = t: int | 0 <= t < 58

  const Document: Tag := 0
  const CstmrCdtTrfInitn: Tag := 1
  const GrpHdr: Tag := 2
  const MsgId: Tag := 3
  const CreDtTm: Tag := 4
  const NbOfTxs: Tag := 5
  const CtrlSum: Tag := 6
  const InitgPty: Tag := 7
  const Nm: Tag := 8
  const CtctDtls: Tag := 9
  const Othr: Tag := 10
  const ChanlTp: Tag := 11
  const Id: Tag := 12
  const PmtInf: Tag := 13
  const PmtInfId: Tag := 14
  const PmtMtd: Tag := 15
  const BtchBookg: Tag := 16
  const PmtTpInf: Tag := 17
  const InstrPrty: Tag := 18
  const SvcLvl: Tag := 19
  const LclInstrm: Tag := 20
  const CtgyPurp: Tag := 21
  const Cd: Tag := 22
  const Prtry: Tag := 23
  const ReqdExctnDt: Tag := 24
  const Dt: Tag := 25
  const Dbtr: Tag := 26
  const DbtrAcct: Tag := 27
  const DbtrAgt: Tag := 28
  const FinInstnId: Tag := 29
  const BICFI: Tag := 30
  const ClrSysMmbId: Tag := 31
  const ClrSysId: Tag := 32
  const MmbId: Tag := 33
  const IBAN: Tag := 34
  const PstlAdr: Tag := 35
  const StrtNm: Tag := 36
  const BldgNb: Tag := 37
  const PstCd: Tag := 38
  const TwnNm: Tag := 39
  const Ctry: Tag := 40
  const CdtTrfTxInf: Tag := 41
  const PmtId: Tag := 42
  const InstrId: Tag := 43
  const EndToEndId: Tag := 44
  const Amt: Tag := 45
  const InstdAmt: Tag := 46
  const CdtrAgt: Tag := 47
  const Cdtr: Tag := 48
  const CdtrAcct: Tag := 49
  const RmtInf: Tag := 50
  const Ustrd: Tag := 51
  const Strd: Tag := 52
  const CdtrRefInf: Tag := 53
  const Tp: Tag := 54
  const CdOrPrtry: Tag := 55
  const Ref: Tag := 56
  const AddtlRmtInf: Tag := 57

  datatype Node = Node(tag: Tag, text: Option<string>, currency: Option<string>, children: seq<Node>)

  function Leaf(tag: Tag, text: string): Node { Node(tag, Some(text), None, []) }

  function Element(tag: Tag, children: seq<Node>): Node { Node(tag, None, None, children) }

  /** The children with this tag, in order. */
  function Named(nodes: seq<Node>, tag: Tag): seq<Node> {
    if nodes == [] then [] else (if nodes[0].tag == tag then [nodes[0]] else []) + Named(nodes[1..], tag)
  }

  /** Every element a path of tags leads to from these siblings, in document order. */
  function Matching(nodes: seq<Node>, path: seq<Tag>): seq<Node>
    requires path != []
    decreases |path|, 1, 0
  {
    if |path| == 1 then Named(nodes, path[0]) else MatchingUnder(Named(nodes, path[0]), path[1..])
  }

  function MatchingUnder(parents: seq<Node>, path: seq<Tag>): seq<Node>
    requires path != []
    decreases |path|, 2, |parents|
  {
    if parents == [] then [] else Matching(parents[0].children, path) + MatchingUnder(parents[1..], path)
  }

  function First(nodes: seq<Node>): Option<Node> { if nodes == [] then None else Some(nodes[0]) }

  function Find(node: Node, path: seq<Tag>): Option<Node>
    requires path != []
  {
    First(Matching(node.children, path))
  }

  /** Every descendant with this tag, in document order. */
  function Descendants(node: Node, tag: Tag): seq<Node> { DescendantsOf(node.children, tag) }

  function DescendantsOf(nodes: seq<Node>, tag: Tag): seq<Node> {
    if nodes == [] then []
    else
      (if nodes[0].tag == tag then [nodes[0]] else [])
      + DescendantsOf(nodes[0].children, tag) + DescendantsOf(nodes[1..], tag)
  }

  // --- text ---------------------------------------------------------------------------

  predicate IsSpace(c: char) { c in {' ', '\t', '\n', '\r', '\U{0B}', '\U{0C}'} }

  function TrimStart(s: string): string {
    if s != "" && IsSpace(s[0]) then TrimStart(s[1..]) else s
  }

  function TrimEnd(s: string): string {
    if s != "" && IsSpace(s[|s| - 1]) then TrimEnd(s[..|s| - 1]) else s
  }

  /** The words of a text, or nothing when there are none. */
  function Clean(s: string): Option<string> {
    var t := TrimEnd(TrimStart(s));
    if t == "" then None else Some(t)
  }

  function OwnText(node: Option<Node>): Option<string> {
    if node.None? || node.value.text.None? then None else Clean(node.value.text.value)
  }

  function TextAt(node: Option<Node>, path: seq<Tag>): Option<string>
    requires path != []
  {
    if node.None? then None else OwnText(Find(node.value, path))
  }

  function OrElse(a: Option<string>, b: Option<string>): Option<string> { if a.Some? then a else b }

  /** A text without spaces is its own words. */
  lemma CleanKeeps(s: string)
    requires s != "" && forall c | c in s :: !IsSpace(c)
    ensures Clean(s) == Some(s)
  {
    assert s[0] in s && s[|s| - 1] in s;
  }

  // --- searching what was built ---------------------------------------------------------

  lemma Joined(a: seq<Node>, b: seq<Node>, c: seq<Node>)
    ensures (a + b) + c == a + (b + c)
  {
  }

  lemma {:induction false} NamedJoins(a: seq<Node>, b: seq<Node>, tag: Tag)
    ensures Named(a + b, tag) == Named(a, tag) + Named(b, tag)
    decreases |a|
  {
    if a == [] {
      assert a + b == b;
    } else {
      var first := if a[0].tag == tag then [a[0]] else [];
      assert (a + b)[0] == a[0] && (a + b)[1..] == a[1..] + b;
      NamedJoins(a[1..], b, tag);
      Joined(first, Named(a[1..], tag), Named(b, tag));
    }
  }

  lemma {:induction false} NoneNamed(nodes: seq<Node>, tag: Tag)
    requires forall k | 0 <= k < |nodes| :: nodes[k].tag != tag
    ensures Named(nodes, tag) == []
    decreases |nodes|
  {
    if nodes != [] { NoneNamed(nodes[1..], tag); }
  }

  lemma {:induction false} AllNamed(nodes: seq<Node>, tag: Tag)
    requires forall k | 0 <= k < |nodes| :: nodes[k].tag == tag
    ensures Named(nodes, tag) == nodes
    decreases |nodes|
  {
    if nodes != [] { AllNamed(nodes[1..], tag); }
  }

  lemma NamedOne(x: Node, tag: Tag)
    ensures Named([x], tag) == if x.tag == tag then [x] else []
  {
    assert [x][1..] == [];
  }

  lemma NamedTwo(x: Node, y: Node, tag: Tag)
    ensures Named([x, y], tag) == (if x.tag == tag then [x] else []) + (if y.tag == tag then [y] else [])
  {
    NamedJoins([x], [y], tag);
    NamedOne(x, tag);
    NamedOne(y, tag);
    assert [x] + [y] == [x, y];
  }

  /** The only child with a tag, wherever it stands. */
  lemma NamedOnly(nodes: seq<Node>, tag: Tag, k: nat)
    requires k < |nodes| && nodes[k].tag == tag
    requires forall j | 0 <= j < |nodes| && j != k :: nodes[j].tag != tag
    ensures Named(nodes, tag) == [nodes[k]]
  {
    var before, after := nodes[..k], nodes[k + 1..];
    assert nodes == before + ([nodes[k]] + after);
    NamedJoins(before, [nodes[k]] + after, tag);
    NamedJoins([nodes[k]], after, tag);
    NoneNamed(before, tag);
    NoneNamed(after, tag);
    AllNamed([nodes[k]], tag);
  }

  /** A path through an only child is the path on from that child. */
  lemma FindThrough(node: Node, path: seq<Tag>, x: Node)
    requires path != [] && Named(node.children, path[0]) == [x]
    ensures Find(node, path) == if |path| == 1 then Some(x) else Find(x, path[1..])
  {
    if |path| > 1 {
      assert [x][1..] == [];
      assert MatchingUnder([], path[1..]) == [];
      assert MatchingUnder([x], path[1..]) == Matching(x.children, path[1..]) + [];
    }
  }

  lemma FindNone(node: Node, path: seq<Tag>)
    requires path != [] && Named(node.children, path[0]) == []
    ensures Find(node, path) == None
  {
    if |path| > 1 { assert MatchingUnder([], path[1..]) == []; }
  }
}
