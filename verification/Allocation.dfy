/** What the copy allocates: the blocks of each node it makes, in the order of its three passes. */
module Allocation {
  import opened FileTree
  import W = CoverageWalk
  import opened Coverage

  const BLOCK: nat := 4096

  /** What n bytes occupy: whole blocks, and at least one. */
  function Block(n: nat): (r: nat)
    ensures r >= n && r >= 4096 && r % 4096 == 0 && (r == 4096 || r < n + 4096)
  {
    if n == 0 then BLOCK else (n + BLOCK - 1) / BLOCK * BLOCK
  }

  /** The pass that copies an item: directories, files, links; exclusions are copied by none. */
  function Pass(i: W.Item): nat {
    match i
    case Directory(_, _, _, _) => 0
    case Entry(_, _, _, FileDetail(_, _, _, _, _)) => 1
    case Entry(_, _, _, LinkDetail(_)) => 2
    case Excluded(_, _, _) => 3
  }

  /** Recorded bytes of an entry: a file's length, or the length of a link's text. */
  function Size(i: W.Item): nat
    requires i.Entry?
  {
    if i.detail.FileDetail? then i.detail.size else |i.detail.info.target|
  }

  function Occupies(i: W.Item): nat {
    match i
    case Directory(_, _, _, _) => BLOCK
    case Entry(_, _, _, _) => Block(Size(i))
    case Excluded(_, _, _) => 0
  }

  /** What copying an item adds; a root that is already there is not made again. */
  function Cost(i: W.Item): nat {
    if i.Directory? && i.at == [] then 0 else Occupies(i)
  }

  /** The allocations of one pass, in order. */
  function PassWrites(records: seq<Record>, pass: nat): seq<nat> {
    if records == [] then []
    else
      var front, r := records[..|records| - 1], records[|records| - 1];
      PassWrites(front, pass) + if Pass(r.item) == pass then [Cost(r.item)] else []
  }

  function Sum(s: seq<nat>): nat {
    if s == [] then 0 else s[0] + Sum(s[1..])
  }

  lemma {:induction false} SumConcat(a: seq<nat>, b: seq<nat>)
    ensures Sum(a + b) == Sum(a) + Sum(b)
  {
    if a == [] {
      assert a + b == b;
    } else {
      assert (a + b)[1..] == a[1..] + b;
      SumConcat(a[1..], b);
    }
  }

  /** One record more. */
  lemma PassWritesNext(records: seq<Record>, pass: nat, k: nat)
    requires k < |records|
    ensures Sum(PassWrites(records[..k + 1], pass))
            == Sum(PassWrites(records[..k], pass)) + if Pass(records[k].item) == pass then Cost(records[k].item) else 0
  {
    assert records[..k + 1][..k] == records[..k];
    SumConcat(PassWrites(records[..k], pass), [Cost(records[k].item)]);
    assert [Cost(records[k].item)][1..] == [];
    assert PassWrites(records[..k], pass) + [] == PassWrites(records[..k], pass);
    assert records[..k + 1][k] == records[k];
  }

  /** The transaction directory and its three roots. */
  const OPENING: seq<nat> := [BLOCK, BLOCK, BLOCK, BLOCK]

  function CopyWrites(records: seq<Record>): seq<nat> {
    OPENING + PassWrites(records, 0) + PassWrites(records, 1) + PassWrites(records, 2)
  }

  lemma CopyWritesSum(records: seq<Record>)
    ensures Sum(CopyWrites(records))
            == 4 * BLOCK + Sum(PassWrites(records, 0)) + Sum(PassWrites(records, 1)) + Sum(PassWrites(records, 2))
  {
    var a, b, c := PassWrites(records, 0), PassWrites(records, 1), PassWrites(records, 2);
    SumConcat(OPENING, a);
    SumConcat(OPENING + a, b);
    SumConcat(OPENING + a + b, c);
    assert OPENING == [BLOCK] + [BLOCK] + [BLOCK] + [BLOCK];
    SumConcat([BLOCK], [BLOCK]);
    SumConcat([BLOCK] + [BLOCK], [BLOCK]);
    SumConcat([BLOCK] + [BLOCK] + [BLOCK], [BLOCK]);
    assert Sum([BLOCK]) == BLOCK;
  }

  // ---------------------------------------------------------------- what a tree occupies

  function NodeBlocks(n: Node): nat {
    match n.kind
    case Regular(bytes) => Block(|bytes|)
    case Link(text) => Block(|text|)
    case _ => BLOCK
  }

  ghost function Usage(t: Tree): nat
    decreases |t|
  {
    if t == map[] then 0
    else
      var p :| p in t;
      NodeBlocks(t[p]) + Usage(t - {p})
  }

  /** Whichever path is counted first. */
  lemma {:induction false} UsageOf(t: Tree, p: Path)
    requires p in t
    ensures Usage(t) == NodeBlocks(t[p]) + Usage(t - {p})
    decreases |t|
  {
    var q :| q in t && Usage(t) == NodeBlocks(t[q]) + Usage(t - {q});
    if q != p {
      UsageOf(t - {q}, p);
      UsageOf(t - {p}, q);
      assert t - {q} - {p} == t - {p} - {q};
    }
  }

  lemma UsageGrows(t: Tree, p: Path, n: Node)
    requires p !in t
    ensures Usage(t[p := n]) == Usage(t) + NodeBlocks(n)
  {
    UsageOf(t[p := n], p);
    assert t[p := n] - {p} == t;
  }

  lemma UsageSame(t: Tree, p: Path, n: Node)
    requires p in t && NodeBlocks(n) == NodeBlocks(t[p])
    ensures Usage(t[p := n]) == Usage(t)
  {
    UsageOf(t, p);
    UsageOf(t[p := n], p);
    assert t[p := n] - {p} == t - {p};
  }
}
