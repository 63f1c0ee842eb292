/** Materializing a manifest: directories, then files, then links, each made in a new staging area, and each directory
    given its recorded mode before anything is put in it. The copy of a problem-free source completes exactly when those
    modes allow it, and it is then exactly the copy the round trip speaks of. */
module BackupCopy {
  import opened FileTree
  import W = CoverageWalk
  import opened Coverage
  import opened CoverageTheorems
  import opened CoverageRoundTrip
  import opened ManifestDistinct
  import opened ManifestOrder
  import opened Allocation

  // ---------------------------------------------------------------- file-system steps

  /** The owner may look names up in a directory of this mode: 0o100. */
  predicate MaySearch(mode: nat) {
    mode / 64 % 2 == 1
  }

  /** The owner may also make entries in it: 0o300. */
  predicate MayFill(mode: nat) {
    mode / 64 % 4 == 3
  }

  /** By octal digits, it is the owner's digit that decides: 1, 3, 5 or 7 to search, 3 or 7 to fill. */
  lemma OwnerDigitDecides(before: nat, owner: nat, group: nat, others: nat)
    requires owner < 8 && group < 8 && others < 8
    ensures var mode := ((before * 8 + owner) * 8 + group) * 8 + others;
            (MaySearch(mode) <==> owner in {1, 3, 5, 7}) && (MayFill(mode) <==> owner in {3, 7})
  {
    Octal(before * 8 + owner, group * 8 + others);
    LastTwoBits(before * 2 + owner / 4, owner % 4);
    LastBit(before * 4 + owner / 2, owner % 2);
  }

  lemma LastTwoBits(high: nat, low: nat)
    requires low < 4
    ensures (high * 4 + low) % 4 == low
  {
  }

  lemma LastBit(high: nat, low: nat)
    requires low < 2
    ensures (high * 2 + low) % 2 == low
  {
  }

  /** Every directory on the way, as far as there is one, lets the owner through. */
  predicate Passable(c: Tree, p: Path) {
    forall i :: 0 <= i < |p| && p[..i] in c ==> MaySearch(c[p[..i]].mode)
  }

  /** Exclusive creation of a new name in its directory. */
  function Create(c: Tree, p: Path, n: Node): Option<Tree> {
    if p == [] || p in c || !IsDirectory(c, Parent(p)) || !MayFill(c[Parent(p)].mode) then None else Some(c[p := n])
  }

  /** mkdir -p: missing prefixes are created with `mode`; a prefix that is no directory is an error. */
  function MakeDirectories(h: W.Host, c: Tree, p: Path, mode: nat, device: nat): Option<Tree> {
    if p in c then (if c[p].kind.Directory? then Some(c) else None)
    else if p == [] then None
    else
      match MakeDirectories(h, c, Parent(p), mode, device)
      case None => None
      case Some(above) => Create(above, p, NewDirectory(h, mode, device))
  }

  /** mkdir -p, then chmod of the directory itself. */
  function PutDirectory(h: W.Host, c: Tree, p: Path, mode: nat, device: nat): Option<Tree> {
    match MakeDirectories(h, c, p, mode, device)
    case None => None
    case Some(made) => Some(made[p := NewDirectory(h, mode, device)])
  }

  /** A bounded read of a regular source file. */
  function ReadFile(t: Tree, p: Path): Option<seq<char>> {
    if p in t && t[p].kind.Regular? && |t[p].kind.bytes| <= W.MAX_FILE then Some(t[p].kind.bytes) else None
  }

  lemma ReadFileIs(t: Tree, p: Path, bytes: seq<char>)
    ensures ReadFile(t, p) == Some(bytes) <==> p in t && t[p].kind == Regular(bytes) && |bytes| <= 536870912
  {
  }

  /** Parents first, then exclusive creation: a path that exists is never replaced. */
  function PutFile(h: W.Host, c: Tree, p: Path, bytes: seq<char>, mode: nat, mtime: int, device: nat): Option<Tree> {
    match MakeDirectories(h, c, Parent(p), PRIVATE, device)
    case None => None
    case Some(made) => Create(made, p, Node(Regular(bytes), mode, h.owner, device, mtime))
  }

  /** Copy of one record into the staging tree of its root. */
  function Put(h: W.Host, i: W.Item, t: Tree, device: nat, c: Tree): Option<Tree> {
    if !Passable(c, i.at) then None
    else
      match i
      case Directory(p, mode, _, _) => PutDirectory(h, c, p, mode, device)
      case Entry(p, mode, _, LinkDetail(info)) => Create(c, p, NewLink(h, info.target, device))
      case Entry(p, mode, _, FileDetail(_, _, _, _, mtime)) =>
        (match ReadFile(t, p)
         case None => None
         case Some(bytes) => PutFile(h, c, p, bytes, mode, mtime, device))
      case Excluded(_, _, _) => None
  }

  function With(copy: Roots, root: W.Root, c: Tree): (r: Roots)
    ensures forall other: W.Root :: r.At(other) == if other == root then c else copy.At(other)
  {
    match root
    case StateRoot => copy.(state := c)
    case AgentsRoot => copy.(agents := c)
    case WorkerRoot => copy.(worker := c)
  }

  // ---------------------------------------------------------------- what a manifest must offer

  predicate Liftable(records: seq<Record>, source: Roots, k: nat)
    requires k < |records|
  {
    var r := records[k];
    var t, p := source.At(r.root), r.item.at;
    && p in t && (p == [] ==> r.item.Directory?)
    && (p != [] ==> HeldRecord(records, k) || (Parent(p) == [] && !Copied(records, r.root, [])))
    && (Pass(r.item) == 1 ==> ReadFile(t, p).Some? && r.item.detail.size == |t[p].kind.bytes|)
  }

  /** No path twice, every file readable at its recorded length, every directory before what lies in it. */
  ghost predicate Copyable(records: seq<Record>, source: Roots) {
    && DistinctRecords(records)
    && forall k :: 0 <= k < |records| && !records[k].item.Excluded? ==> Liftable(records, source, k)
  }

  predicate Holds(d: Record, r: Record) {
    d.root == r.root && d.item.Directory? && r.item.at != [] && d.item.at == Parent(r.item.at)
  }

  /** The directory that holds record k, if it is recorded, lets its owner make entries in it. */
  predicate Admits(records: seq<Record>, k: nat)
    requires k < |records|
  {
    forall j :: 0 <= j < |records| && Holds(records[j], records[k]) ==> MayFill(records[j].item.mode)
  }

  /** Every recorded directory with something recorded in it has the owner's write and search bits. */
  predicate Fillable(records: seq<Record>) {
    forall k :: 0 <= k < |records| && !records[k].item.Excluded? ==> Admits(records, k)
  }

  lemma ReadyIsCopyable(s: Setup, held: set<Path>, roots: Roots)
    requires Ready(s, held, roots)
    ensures Copyable(Records(s, held, roots), roots)
  {
    hide Records, ProblemFree, Walked, HeldRecord;
    ReadyIsWalked(s, held, roots);
    ManifestIsDistinct(s, held, roots);
    var records := Records(s, held, roots);
    forall k | 0 <= k < |records| && !records[k].item.Excluded? ensures Liftable(records, roots, k) {
      var r := records[k];
      assert r in records;
      RecordIsInTree(s, held, roots, r);
      if r.item.at == [] { RootIsDirectory(s, held, roots, r); }
      ManifestInOrder(s, held, roots, k);
      if r.root != W.StateRoot { NoOtherRoot(s, held, roots, r.root); }
      if Pass(r.item) == 1 { FileIsReadable(s, held, roots, r); }
    }
  }

  /** The agents and worker roots themselves are not recorded. */
  lemma NoOtherRoot(s: Setup, held: set<Path>, roots: Roots, root: W.Root)
    requires Sound(roots) && Walked(s, held, roots) && root != W.StateRoot
    ensures !Copied(Records(s, held, roots), root, [])
  {
    hide Records, Walked, PolicyOf, From, Starts;
    if Copied(Records(s, held, roots), root, []) {
      var r := CopiedRecord(Records(s, held, roots), root, []);
      if Fixed(held, roots, r) { FixedPlace(held, roots, r); }
      var i, p := Origin(s, held, roots, r);
      FromPlace(s, held, roots, i, p, r);
    }
  }

  lemma FileIsReadable(s: Setup, held: set<Path>, roots: Roots, r: Record)
    requires Sound(roots) && Walked(s, held, roots) && r in Records(s, held, roots) && Pass(r.item) == 1
    ensures ReadFile(roots.At(r.root), r.item.at).Some?
    ensures r.item.detail.size == |roots.At(r.root)[r.item.at].kind.bytes|
  {
    hide Records, PolicyOf, Walked, W.Visit, W.Inspect, ReadFile, Starts;
    if Fixed(held, roots, r) { FixedPlace(held, roots, r); }
    var i, p := Origin(s, held, roots, r);
    FromPlace(s, held, roots, i, p, r);
    var f := PolicyOf(held, roots)[i];
    FileItem(WalkOf(s, held, f), roots.At(f.root), r.item);
  }

  lemma FileItem(w: W.Walk, t: Tree, i: W.Item)
    requires WellFormed(t) && i.at in t && W.Inspect(w, t, i.at).items == [i] && Pass(i) == 1
    ensures ReadFile(t, i.at).Some? && i.detail.size == |t[i.at].kind.bytes|
  {
    hide W.Inspect;
    W.InspectDescribes(w, t, i);
  }

  // ---------------------------------------------------------------- the copy in progress

  predicate Done(records: seq<Record>, pass: nat, next: nat, k: nat)
    requires k < |records|
  {
    var own := Pass(records[k].item);
    own < 3 && (own < pass || (own == pass && k < next))
  }

  predicate DoneAt(records: seq<Record>, root: W.Root, pass: nat, next: nat, p: Path) {
    exists k :: 0 <= k < |records| && records[k].root == root && Done(records, pass, next, k) && records[k].item.at == p
  }

  /** Mid-copy: beside the root exactly the finished records are there, each copied and in a directory that admits
      it. */
  ghost predicate Partial(h: W.Host, records: seq<Record>, source: Roots, device: nat, root: W.Root, pass: nat,
                          next: nat, c: Tree)
    requires Copyable(records, source)
  {
    && (forall p :: p in c <==> p == [] || DoneAt(records, root, pass, next, p))
    && IsDirectory(c, []) && (!DoneAt(records, root, pass, next, []) ==> c[[]] == NewDirectory(h, PRIVATE, device))
    && (forall k :: 0 <= k < |records| && records[k].root == root && Done(records, pass, next, k) ==>
          Standing(h, records, source, device, c, k))
  }

  predicate Standing(h: W.Host, records: seq<Record>, source: Roots, device: nat, c: Tree, k: nat)
    requires k < |records|
  {
    var i, t := records[k].item, source.At(records[k].root);
    && !i.Excluded? && i.at in t && i.at in c && c[i.at] == CopyNode(h, t, i, device)
    && (i.at != [] ==> IsDirectory(c, Parent(i.at)) && MayFill(c[Parent(i.at)].mode))
  }

  /** The directory that is to hold the next record is there, with its recorded mode. */
  lemma HolderStands(h: W.Host, records: seq<Record>, source: Roots, device: nat, pass: nat, next: nat, c: Tree)
    requires Copyable(records, source) && next < |records| && Pass(records[next].item) == pass < 3
    requires records[next].item.at != []
    requires Partial(h, records, source, device, records[next].root, pass, next, c)
    ensures var p := records[next].item.at;
            IsDirectory(c, Parent(p)) && p !in c && (MayFill(c[Parent(p)].mode) <==> Admits(records, next))
  {
    var r := records[next];
    var p, root := r.item.at, r.root;
    assert Liftable(records, source, next);
    if HeldRecord(records, next) {
      var j :| 0 <= j < next && records[j].root == root && records[j].item.Directory?
          && records[j].item.at == Parent(p);
      assert Standing(h, records, source, device, c, j);
      forall i | 0 <= i < |records| && records[i].root == root && records[i].item.at == Parent(p)
        ensures i == j
      {
        SameIndex(records, i, j);
      }
    } else {
      Unrecorded(records, root, pass, next);
    }
    NotYet(records, pass, next);
  }

  lemma NotYet(records: seq<Record>, pass: nat, next: nat)
    requires DistinctRecords(records) && next < |records| && Pass(records[next].item) == pass
    ensures !DoneAt(records, records[next].root, pass, next, records[next].item.at)
  {
    forall k | 0 <= k < |records| && records[k].root == records[next].root
        && records[k].item.at == records[next].item.at
      ensures !Done(records, pass, next, k)
    {
      SameIndex(records, k, next);
    }
  }

  lemma Unrecorded(records: seq<Record>, root: W.Root, pass: nat, next: nat)
    requires !Copied(records, root, [])
    ensures forall j :: 0 <= j < |records| && records[j].root == root && records[j].item.Directory? ==>
        records[j].item.at != []
    ensures !DoneAt(records, root, pass, next, [])
  {
  }

  lemma SameIndex(records: seq<Record>, d: nat, k: nat)
    requires DistinctRecords(records) && d < |records| && k < |records|
    requires records[d].root == records[k].root && records[d].item.at == records[k].item.at
    ensures d == k
  {
  }

  /** Every directory in the copy so far that holds something admits its owner, so the way to the next record is open if
      its own directory is. */
  lemma WayIsPassable(h: W.Host, records: seq<Record>, source: Roots, device: nat, root: W.Root, pass: nat, next: nat,
                      c: Tree, p: Path)
    requires Copyable(records, source) && Partial(h, records, source, device, root, pass, next, c)
    requires p != [] && IsDirectory(c, Parent(p)) && MayFill(c[Parent(p)].mode)
    ensures Passable(c, p)
  {
    forall i | 0 <= i < |p| && p[..i] in c ensures MaySearch(c[p[..i]].mode) {
      AncestorMaySearch(h, records, source, device, root, pass, next, c, p, i);
    }
  }

  lemma {:induction false} AncestorMaySearch(h: W.Host, records: seq<Record>, source: Roots, device: nat, root: W.Root,
                                             pass: nat, next: nat, c: Tree, p: Path, i: nat)
    requires Copyable(records, source) && Partial(h, records, source, device, root, pass, next, c)
    requires i < |p| && IsDirectory(c, Parent(p)) && MayFill(c[Parent(p)].mode)
    ensures p[..i] in c && MaySearch(c[p[..i]].mode)
    decreases |p|
  {
    hide Copyable, CopyNode, MayFill, MaySearch, Done;
    var q := Parent(p);
    FillIsSearch(c[q].mode);
    if p[..i] != q {
      var k :| 0 <= k < |records| && records[k].root == root && Done(records, pass, next, k) && records[k].item.at == q;
      assert Standing(h, records, source, device, c, k);
      assert q[..i] == p[..i];
      AncestorMaySearch(h, records, source, device, root, pass, next, c, q, i);
    }
  }

  lemma FillIsSearch(mode: nat)
    requires MayFill(mode)
    ensures MaySearch(mode)
  {
  }

  /** One step of a pass succeeds exactly when the directory that is to hold the record admits it, and then makes
      exactly the record's path. */
  lemma PutExactly(h: W.Host, records: seq<Record>, source: Roots, device: nat, pass: nat, next: nat, c: Tree)
    requires Copyable(records, source) && next < |records| && Pass(records[next].item) == pass < 3
    requires Partial(h, records, source, device, records[next].root, pass, next, c)
    ensures var r := records[next]; var made := Put(h, r.item, source.At(r.root), device, c);
            && (made.Some? <==> Admits(records, next))
            && r.item.at in source.At(r.root)
            && (made.Some? ==> made.value == c[r.item.at := CopyNode(h, source.At(r.root), r.item, device)])
            && (r.item.at in c <==> r.item.at == [])
            && (made.Some? && r.item.at != [] ==>
                IsDirectory(c, Parent(r.item.at)) && MayFill(c[Parent(r.item.at)].mode))
  {
    hide Copyable, Partial, Admits, Passable, MayFill;
    var r := records[next];
    var p := r.item.at;
    assert Liftable(records, source, next) by { NextIsLiftable(records, source, next); }
    if p == [] {
      RootStep(h, records, source, device, pass, next, c);
    } else {
      HolderStands(h, records, source, device, pass, next, c);
      if MayFill(c[Parent(p)].mode) { WayIsPassable(h, records, source, device, r.root, pass, next, c, p); }
      assert MakeDirectories(h, c, Parent(p), PRIVATE, device) == Some(c);
      assert r.item.Directory? ==> MakeDirectories(h, c, Parent(p), r.item.mode, device) == Some(c);
    }
  }

  lemma NextIsLiftable(records: seq<Record>, source: Roots, next: nat)
    requires Copyable(records, source) && next < |records| && !records[next].item.Excluded?
    ensures Liftable(records, source, next)
  {
  }

  lemma RootStep(h: W.Host, records: seq<Record>, source: Roots, device: nat, pass: nat, next: nat, c: Tree)
    requires Copyable(records, source) && next < |records| && Pass(records[next].item) == pass < 3
    requires records[next].item.at == []
    requires Partial(h, records, source, device, records[next].root, pass, next, c)
    ensures Passable(c, []) && Admits(records, next) && IsDirectory(c, []) && records[next].item.Directory?
  {
    assert Liftable(records, source, next);
  }

  lemma PutKeeps(h: W.Host, records: seq<Record>, source: Roots, device: nat, pass: nat, next: nat, c: Tree, c': Tree)
    requires Copyable(records, source) && next < |records| && Pass(records[next].item) == pass < 3
    requires Partial(h, records, source, device, records[next].root, pass, next, c)
    requires Put(h, records[next].item, source.At(records[next].root), device, c) == Some(c')
    ensures Partial(h, records, source, device, records[next].root, pass, next + 1, c')
  {
    hide Put, CopyNode, Admits, MayFill, DoneAt, Done, Copied, HeldRecord, Copyable, Standing, Pass, NewDirectory;
    PutExactly(h, records, source, device, pass, next, c);
    var r := records[next];
    var root := r.root;
    PassedIsKept(r.item);
    CopyOfDirectory(h, source.At(root), r.item, device);
    NextIsLiftable(records, source, next);
    assert c' == c[r.item.at := CopyNode(h, source.At(root), r.item, device)];
    assert IsDirectory(c', []);
    DoneNext(records, root, pass, next, []);
    forall p ensures p in c' <==> p == [] || DoneAt(records, root, pass, next + 1, p) {
      DoneNext(records, root, pass, next, p);
    }
    forall k | 0 <= k < |records| && records[k].root == root && Done(records, pass, next + 1, k)
      ensures Standing(h, records, source, device, c', k)
    {
      if k == next {
        NextStands(h, records, source, device, next, c, c');
      } else {
        DoneBefore(records, pass, next, k);
        StandingStays(h, records, source, device, pass, next, c, c', k);
      }
    }
  }

  lemma PassedIsKept(i: W.Item)
    requires Pass(i) < 3
    ensures !i.Excluded?
  {
  }

  lemma DoneBefore(records: seq<Record>, pass: nat, next: nat, k: nat)
    requires k < |records| && k != next && Done(records, pass, next + 1, k)
    ensures Done(records, pass, next, k)
  {
  }

  lemma NextStands(h: W.Host, records: seq<Record>, source: Roots, device: nat, next: nat, c: Tree, c': Tree)
    requires next < |records| && !records[next].item.Excluded? && records[next].item.at in source.At(records[next].root)
    requires c' == c[records[next].item.at := CopyNode(h, source.At(records[next].root), records[next].item, device)]
    requires records[next].item.at != [] ==>
      IsDirectory(c, Parent(records[next].item.at)) && MayFill(c[Parent(records[next].item.at)].mode)
    ensures Standing(h, records, source, device, c', next)
  {
  }

  /** What stood stands: the step changes no finished path, nor the directory of one. */
  lemma StandingStays(h: W.Host, records: seq<Record>, source: Roots, device: nat, pass: nat, next: nat, c: Tree,
                      c': Tree, k: nat)
    requires Copyable(records, source) && next < |records| && k < |records| && k != next
    requires records[k].root == records[next].root
    requires !records[next].item.Excluded? && Done(records, pass, next, k) && Pass(records[next].item) == pass
    requires Standing(h, records, source, device, c, k)
    requires records[next].item.at in source.At(records[next].root)
    requires (records[next].item.at in c <==> records[next].item.at == [])
    requires c' == c[records[next].item.at := CopyNode(h, source.At(records[next].root), records[next].item, device)]
    ensures Standing(h, records, source, device, c', k)
  {
    hide CopyNode, MayFill;
    var r := records[next];
    assert records[k].item.at != r.item.at by { if records[k].item.at == r.item.at { SameIndex(records, k, next); } }
    if r.item.at == [] {
      assert Liftable(records, source, next);
      RootIsFirst(records, source, next, k);
    }
  }

  lemma CopyOfDirectory(h: W.Host, t: Tree, i: W.Item, device: nat)
    requires i.at in t
    ensures i.Directory? ==> CopyNode(h, t, i, device).kind.Directory?
  {
  }

  lemma DoneNext(records: seq<Record>, root: W.Root, pass: nat, next: nat, p: Path)
    requires next < |records| && Pass(records[next].item) == pass < 3 && records[next].root == root
    ensures DoneAt(records, root, pass, next + 1, p) <==>
            DoneAt(records, root, pass, next, p) || p == records[next].item.at
  {
    assert Done(records, pass, next + 1, next);
    if DoneAt(records, root, pass, next, p) {
      var k :| 0 <= k < |records| && records[k].root == root && Done(records, pass, next, k) && records[k].item.at == p;
      assert Done(records, pass, next + 1, k);
    }
    if DoneAt(records, root, pass, next + 1, p) {
      var k :| 0 <= k < |records| && records[k].root == root && Done(records, pass, next + 1, k)
          && records[k].item.at == p;
      assert k == next || Done(records, pass, next, k);
    }
  }

  /** A recorded root comes before everything directly in it. */
  lemma RootIsFirst(records: seq<Record>, source: Roots, next: nat, k: nat)
    requires Copyable(records, source) && next < |records| && k < |records| && records[k].root == records[next].root
    requires records[next].item.Directory? && records[next].item.at == [] && !records[k].item.Excluded?
    ensures Parent(records[k].item.at) == [] && records[k].item.at != [] ==> next < k
  {
    assert Liftable(records, source, k) && Copied(records, records[next].root, []);
    if Parent(records[k].item.at) == [] && records[k].item.at != [] {
      var j :| 0 <= j < k && records[j].root == records[k].root && records[j].item.Directory?
          && records[j].item.at == Parent(records[k].item.at);
      SameIndex(records, j, next);
    }
  }

  // ---------------------------------------------------------------- the passes

  ghost predicate AllPartial(h: W.Host, records: seq<Record>, source: Roots, device: nat, pass: nat, next: nat,
                             copy: Roots)
    requires Copyable(records, source)
  {
    forall root: W.Root :: Partial(h, records, source, device, root, pass, next, copy.At(root))
  }

  /** The same records are finished. */
  ghost predicate SameDone(records: seq<Record>, pass: nat, next: nat, pass': nat, next': nat, root: W.Root) {
    forall k :: 0 <= k < |records| && records[k].root == root ==>
        (Done(records, pass, next, k) <==> Done(records, pass', next', k))
  }

  lemma SameDoneKeeps(h: W.Host, records: seq<Record>, source: Roots, device: nat, root: W.Root, pass: nat, next: nat,
                      pass': nat, next': nat, c: Tree)
    requires Copyable(records, source) && SameDone(records, pass, next, pass', next', root)
    requires Partial(h, records, source, device, root, pass, next, c)
    ensures Partial(h, records, source, device, root, pass', next', c)
  {
    hide Standing;
    forall p ensures DoneAt(records, root, pass, next, p) <==> DoneAt(records, root, pass', next', p) {
      if k :| 0 <= k < |records| && records[k].root == root && Done(records, pass, next, k) && records[k].item.at == p {
        assert Done(records, pass', next', k);
      }
      if k :| 0 <= k < |records| && records[k].root == root && Done(records, pass', next', k) &&
              records[k].item.at == p {
        assert Done(records, pass, next, k);
      }
    }
  }

  /** A record of another pass changes nothing in this one. */
  lemma SkipKeeps(h: W.Host, records: seq<Record>, source: Roots, device: nat, pass: nat, next: nat, copy: Roots)
    requires Copyable(records, source) && next < |records| && Pass(records[next].item) != pass
    requires AllPartial(h, records, source, device, pass, next, copy)
    ensures AllPartial(h, records, source, device, pass, next + 1, copy)
  {
    forall root: W.Root ensures Partial(h, records, source, device, root, pass, next + 1, copy.At(root)) {
      SameDoneKeeps(h, records, source, device, root, pass, next, pass, next + 1, copy.At(root));
    }
  }

  lemma NextPass(h: W.Host, records: seq<Record>, source: Roots, device: nat, pass: nat, copy: Roots)
    requires Copyable(records, source) && AllPartial(h, records, source, device, pass, |records|, copy)
    ensures AllPartial(h, records, source, device, pass + 1, 0, copy)
  {
    forall root: W.Root ensures Partial(h, records, source, device, root, pass + 1, 0, copy.At(root)) {
      SameDoneKeeps(h, records, source, device, root, pass, |records|, pass + 1, 0, copy.At(root));
    }
  }

  lemma StepKeeps(h: W.Host, records: seq<Record>, source: Roots, device: nat, pass: nat, next: nat, copy: Roots)
    requires Copyable(records, source) && next < |records| && Pass(records[next].item) == pass < 3
    requires AllPartial(h, records, source, device, pass, next, copy)
    ensures var r := records[next]; var made := Put(h, r.item, source.At(r.root), device, copy.At(r.root));
            && (made.Some? <==> Admits(records, next))
            && (made.Some? ==> AllPartial(h, records, source, device, pass, next + 1, With(copy, r.root, made.value)))
            && (made.Some? ==> Total(With(copy, r.root, made.value)) == Total(copy) + Cost(r.item))
  {
    hide Put, Admits, Partial, Copyable;
    var r := records[next];
    assert Partial(h, records, source, device, r.root, pass, next, copy.At(r.root));
    PutExactly(h, records, source, device, pass, next, copy.At(r.root));
    var made := Put(h, r.item, source.At(r.root), device, copy.At(r.root));
    if made.Some? {
      PutKeeps(h, records, source, device, pass, next, copy.At(r.root), made.value);
      PutCosts(h, records, source, device, pass, next, copy.At(r.root));
      forall root: W.Root | root != r.root
        ensures Partial(h, records, source, device, root, pass, next + 1, copy.At(root))
      {
        assert Partial(h, records, source, device, root, pass, next, copy.At(root));
        OtherRootSame(records, pass, next, root);
        SameDoneKeeps(h, records, source, device, root, pass, next, pass, next + 1, copy.At(root));
      }
    }
  }

  lemma OtherRootSame(records: seq<Record>, pass: nat, next: nat, root: W.Root)
    requires next < |records| && records[next].root != root
    ensures SameDone(records, pass, next, pass, next + 1, root)
  {
  }

  /** What the three staging trees occupy. */
  ghost function Total(copy: Roots): nat {
    Usage(copy.state) + Usage(copy.agents) + Usage(copy.worker)
  }

  /** A step allocates the blocks of the one node it makes, and none for a root that is there already. */
  lemma PutCosts(h: W.Host, records: seq<Record>, source: Roots, device: nat, pass: nat, next: nat, c: Tree)
    requires Copyable(records, source) && next < |records| && Pass(records[next].item) == pass < 3
    requires Partial(h, records, source, device, records[next].root, pass, next, c)
    requires Put(h, records[next].item, source.At(records[next].root), device, c).Some?
    ensures Usage(Put(h, records[next].item, source.At(records[next].root), device, c).value) == Usage(c)
        + Cost(records[next].item)
  {
    hide Put, Admits, Usage, Partial, Copyable;
    PutExactly(h, records, source, device, pass, next, c);
    var r := records[next];
    var node := CopyNode(h, source.At(r.root), r.item, device);
    NextIsLiftable(records, source, next);
    if r.item.at == [] {
      RootStep(h, records, source, device, pass, next, c);
      UsageSame(c, [], node);
    } else {
      UsageGrows(c, r.item.at, node);
    }
  }

  // ---------------------------------------------------------------- the copy

  function EmptyRoot(h: W.Host, device: nat): Tree {
    map[[] := NewDirectory(h, PRIVATE, device)]
  }

  function Staging(h: W.Host, device: nat): Roots {
    Roots(EmptyRoot(h, device), EmptyRoot(h, device), EmptyRoot(h, device))
  }

  /** Three empty private directories of the copier's own: rwx for the owner, nothing for anybody else. */
  lemma StagingIs(h: W.Host, device: nat)
    ensures var roots := Staging(h, device);
            && roots.state.Keys == {[]} && roots.agents == roots.state && roots.worker == roots.state
            && roots.state[[]].kind == Kind.Directory && roots.state[[]].mode == (7 * 8 + 0) * 8 + 0
            && roots.state[[]].owner == h.owner && roots.state[[]].device == device
  {
  }

  lemma StagingStarts(h: W.Host, records: seq<Record>, source: Roots, device: nat)
    requires Copyable(records, source)
    ensures AllPartial(h, records, source, device, 0, 0, Staging(h, device)) && Total(Staging(h, device)) == 3 * BLOCK
  {
    var c := EmptyRoot(h, device);
    UsageOf(c, []);
    assert c - {[]} == map[];
    assert Usage(map[]) == 0;
    forall root: W.Root ensures Partial(h, records, source, device, root, 0, 0, Staging(h, device).At(root)) {}
  }

  lemma FinishedIsCopy(h: W.Host, records: seq<Record>, source: Roots, device: nat, copy: Roots)
    requires Copyable(records, source) && AllPartial(h, records, source, device, 3, 0, copy)
    ensures AreCopies(h, records, source, device, copy)
  {
    hide CopyNode;
    forall root: W.Root ensures IsCopy(h, records, source.At(root), root, device, copy.At(root)) {
      assert Partial(h, records, source, device, root, 3, 0, copy.At(root));
      FinishedRoot(h, records, source, device, root, copy.At(root));
    }
    assert IsCopy(h, records, source.At(W.StateRoot), W.StateRoot, device, copy.At(W.StateRoot));
    assert IsCopy(h, records, source.At(W.AgentsRoot), W.AgentsRoot, device, copy.At(W.AgentsRoot));
    assert IsCopy(h, records, source.At(W.WorkerRoot), W.WorkerRoot, device, copy.At(W.WorkerRoot));
  }

  lemma FinishedRoot(h: W.Host, records: seq<Record>, source: Roots, device: nat, root: W.Root, c: Tree)
    requires Copyable(records, source) && Partial(h, records, source, device, root, 3, 0, c)
    ensures IsCopy(h, records, source.At(root), root, device, c)
  {
    hide CopyNode;
    forall p ensures DoneAt(records, root, 3, 0, p) <==> Copied(records, root, p) {
      if k :| 0 <= k < |records| && records[k].root == root && !records[k].item.Excluded? && records[k].item.at == p {
        assert Done(records, 3, 0, k);
      }
    }
    forall r | r in records && r.root == root && !r.item.Excluded?
      ensures r.item.at in source.At(root) && r.item.at in c
      ensures c[r.item.at] == CopyNode(h, source.At(root), r.item, device)
    {
      var k :| 0 <= k < |records| && records[k] == r;
      assert Done(records, 3, 0, k) && Standing(h, records, source, device, c, k);
    }
  }

  /** All records of this pass up to `next` find a directory that admits them. */
  predicate AdmittedIn(records: seq<Record>, pass: nat, next: nat)
    requires next <= |records|
  {
    forall k :: 0 <= k < next && Pass(records[k].item) == pass ==> Admits(records, k)
  }

  /** One of the three loops over the manifest: it completes exactly when every record of its pass is admitted, and then
      has copied them and allocated their blocks. */
  method CopyPass(h: W.Host, records: seq<Record>, source: Roots, device: nat, pass: nat, start: Roots)
    returns (copy: Option<Roots>)
    requires pass < 3
    ensures Copyable(records, source) && AllPartial(h, records, source, device, pass, 0, start) ==>
              && (copy.Some? <==> AdmittedIn(records, pass, |records|))
              && (copy.Some? ==> AllPartial(h, records, source, device, pass + 1, 0, copy.value)
                                 && Total(copy.value) == Total(start) + Sum(PassWrites(records, pass)))
  {
    hide Put, Partial, Copyable, Done, Admits, Total, PassWrites;
    var roots := start;
    ghost var fine := Copyable(records, source) && AllPartial(h, records, source, device, pass, 0, start);
    NoWrites(pass);
    assert records[..0] == [];
    for next := 0 to |records|
      invariant fine ==> AllPartial(h, records, source, device, pass, next, roots) && AdmittedIn(records, pass, next)
      invariant fine ==> Total(roots) == Total(start) + Sum(PassWrites(records[..next], pass))
    {
      var r := records[next];
      PassWritesNext(records, pass, next);
      if Pass(r.item) == pass {
        if fine { StepKeeps(h, records, source, device, pass, next, roots); }
        match Put(h, r.item, source.At(r.root), device, roots.At(r.root)) {
          case None => return None;
          case Some(made) => roots := With(roots, r.root, made);
        }
      } else if fine {
        SkipKeeps(h, records, source, device, pass, next, roots);
      }
    }
    assert records[..|records|] == records;
    if fine { NextPass(h, records, source, device, pass, roots); }
    return Some(roots);
  }

  lemma NoWrites(pass: nat)
    ensures Sum(PassWrites([], pass)) == 0
  {
  }

  /** materializeManifest: three new private roots, then directories, files and links in turn. It completes exactly
      when every directory admits what is recorded in it; the copy is then exact, and has allocated what is planned
      for it. */
  method Materialize(h: W.Host, records: seq<Record>, source: Roots, device: nat) returns (copy: Option<Roots>)
    ensures Copyable(records, source) ==>
              && (copy.Some? <==> Fillable(records))
              && (copy.Some? ==> AreCopies(h, records, source, device, copy.value)
                                 && BLOCK + Total(copy.value) == Sum(CopyWrites(records)))
  {
    hide Copyable, AllPartial, AreCopies, Total, PassWrites, CopyWrites, AdmittedIn, Fillable;
    ghost var fine := Copyable(records, source);
    FillableIs(records);
    CopyWritesSum(records);
    if fine { StagingStarts(h, records, source, device); }
    copy := CopyPass(h, records, source, device, 0, Staging(h, device));
    if copy.None? { return; }
    copy := CopyPass(h, records, source, device, 1, copy.value);
    if copy.None? { return; }
    copy := CopyPass(h, records, source, device, 2, copy.value);
    if copy.Some? && fine { FinishedIsCopy(h, records, source, device, copy.value); }
  }

  lemma FillableIs(records: seq<Record>)
    ensures Fillable(records) <==>
            AdmittedIn(records, 0, |records|) && AdmittedIn(records, 1, |records|) && AdmittedIn(records, 2, |records|)
  {
    forall k | 0 <= k < |records| ensures !records[k].item.Excluded? <==> Pass(records[k].item) < 3 {}
  }

  /** A copy can be copied again under the same manifest. */
  lemma CopyIsCopyable(h: W.Host, records: seq<Record>, source: Roots, device: nat, copy: Roots)
    requires Copyable(records, source) && AreCopies(h, records, source, device, copy)
    ensures Copyable(records, copy)
  {
    hide HeldRecord, IsCopy, AreCopies, Copied, CopyNode;
    forall k | 0 <= k < |records| && !records[k].item.Excluded? ensures Liftable(records, copy, k) {
      var r := records[k];
      CopyAt(h, records, source, device, copy, r.root);
      assert r in records && Liftable(records, source, k);
      CopiedNode(h, records, source.At(r.root), r.root, device, copy.At(r.root), r);
      CopyReads(h, source.At(r.root), r.item, device, copy.At(r.root));
    }
  }

  lemma CopiedNode(h: W.Host, records: seq<Record>, t: Tree, root: W.Root, device: nat, c: Tree, r: Record)
    requires IsCopy(h, records, t, root, device, c) && r in records && r.root == root && !r.item.Excluded?
    ensures r.item.at in t && r.item.at in c && c[r.item.at] == CopyNode(h, t, r.item, device)
  {
  }

  lemma CopyReads(h: W.Host, t: Tree, i: W.Item, device: nat, c: Tree)
    requires i.at in t && !i.Excluded? && i.at in c && c[i.at] == CopyNode(h, t, i, device)
    ensures Pass(i) == 1 ==> ReadFile(c, i.at) == ReadFile(t, i.at) && c[i.at].kind == t[i.at].kind
  {
  }
}
