/** The backup round trip: inspecting a faithful copy of a problem-free manifest finds the same manifest again. */
module CoverageRoundTrip {
  import opened FileTree
  import opened Names
  import opened LinkInspection
  import opened Exclusions
  import W = CoverageWalk
  import opened Families
  import opened Coverage
  import opened CoverageTheorems
  import C = CoverageCopy
  import L = CoverageLinks

  /** Private directories the copy starts from: 0o700. */
  const PRIVATE: nat := 448

  function NewDirectory(h: W.Host, mode: nat, device: nat): Node {
    Node(Kind.Directory, mode, h.owner, device, 0)
  }

  function NewLink(h: W.Host, text: string, device: nat): Node {
    Node(Link(text), h.linkMode, h.owner, device, 0)
  }

  /** What copying one recorded item from a source tree makes. Files keep their bytes and modification time; links are
      made from their recorded text. */
  function CopyNode(h: W.Host, t: Tree, i: W.Item, device: nat): Node
    requires i.at in t && !i.Excluded?
  {
    if i.Directory? then NewDirectory(h, i.mode, device)
    else if i.detail.LinkDetail? then NewLink(h, i.detail.info.target, device)
    else Node(t[i.at].kind, i.mode, h.owner, device, i.detail.mtime)
  }

  predicate Copied(records: seq<Record>, root: W.Root, p: Path) {
    exists k :: 0 <= k < |records| && records[k].root == root && !records[k].item.Excluded? && records[k].item.at == p
  }

  /** A tree that holds exactly the recorded paths of one root, each copied from t, under a private root. */
  ghost predicate IsCopy(h: W.Host, records: seq<Record>, t: Tree, root: W.Root, device: nat, c: Tree) {
    && (forall p :: p in c <==> p == [] || Copied(records, root, p))
    && (!Copied(records, root, []) ==> [] in c && c[[]] == NewDirectory(h, PRIVATE, device))
    && (forall r :: r in records && r.root == root && !r.item.Excluded? ==>
          r.item.at in t && r.item.at in c && c[r.item.at] == CopyNode(h, t, r.item, device))
  }

  ghost predicate AreCopies(h: W.Host, records: seq<Record>, roots: Roots, device: nat, copy: Roots) {
    && IsCopy(h, records, roots.state, W.StateRoot, device, copy.state)
    && IsCopy(h, records, roots.agents, W.AgentsRoot, device, copy.agents)
    && IsCopy(h, records, roots.worker, W.WorkerRoot, device, copy.worker)
  }

  lemma CopyAt(h: W.Host, records: seq<Record>, roots: Roots, device: nat, copy: Roots, root: W.Root)
    requires AreCopies(h, records, roots, device, copy)
    ensures IsCopy(h, records, roots.At(root), root, device, copy.At(root))
  {
  }

  /** What the round trip assumes about the source: a stable well-formed tree, a problem-free inspection, and proper
      locks. */
  ghost predicate Ready(s: Setup, held: set<Path>, roots: Roots) {
    Sound(roots) && ProblemFree(s, held, roots) && LocksOk(held, roots.state)
  }

  lemma ReadyIsWalked(s: Setup, held: set<Path>, roots: Roots)
    requires Ready(s, held, roots)
    ensures Sound(roots) && Walked(s, held, roots)
  {
  }

  lemma ReadyIsClosed(s: Setup, held: set<Path>, roots: Roots)
    requires Ready(s, held, roots)
    ensures NamesKnown(held, roots) && TasksOk(s.host, roots.state, held)
  {
  }

  lemma CopiedRecord(records: seq<Record>, root: W.Root, p: Path) returns (r: Record)
    requires Copied(records, root, p)
    ensures r in records && r.root == root && !r.item.Excluded? && r.item.at == p
  {
    var k :| 0 <= k < |records| && records[k].root == root && !records[k].item.Excluded? && records[k].item.at == p;
    r := records[k];
  }

  lemma RecordIsCopied(records: seq<Record>, r: Record)
    requires r in records && !r.item.Excluded?
    ensures Copied(records, r.root, r.item.at)
  {
    var k :| 0 <= k < |records| && records[k] == r;
  }

  // ---------------------------------------------------------------- the copy under one start

  /** Under a start, the copied paths are the open ones. */
  lemma CopiedIsOpen(s: Setup, held: set<Path>, roots: Roots, i: nat, start: Path, p: Path)
    requires Sound(roots) && Walked(s, held, roots) && IsStart(s, held, roots, i, start) && start <= p
    ensures var f := PolicyOf(held, roots)[i];
            Copied(Records(s, held, roots), f.root, p) ==> p in roots.At(f.root) && W.Open(WalkOf(s, held, f), start, p)
  {
    hide InspectLink, Policy, RuleFor;
    var f := PolicyOf(held, roots)[i];
    if Copied(Records(s, held, roots), f.root, p) {
      var r := CopiedRecord(Records(s, held, roots), f.root, p);
      StartShape(s, held, roots, i, start);
      assert !Fixed(held, roots,
          r) by { if Fixed(held, roots,
              r) { FixedPlace(held, roots, r); FixedIsNoStart(s, held, roots, i, start, p); } }
      var j, q := Origin(s, held, roots, r);
      FromPlace(s, held, roots, j, q, r);
      OneStart(s, held, roots, i, start, j, q, p);
      FromIsOpen(s, held, roots, i, start, r);
    }
  }

  lemma FixedIsNoStart(s: Setup, held: set<Path>, roots: Roots, i: nat, start: Path, p: Path)
    requires IsStart(s, held, roots, i, start) && start <= p && PolicyOf(held, roots)[i].root == W.StateRoot
    ensures p != [] && p != [TASKS]
  {
    StartShape(s, held, roots, i, start);
    assert p[0] == start[0];
  }

  lemma FromIsOpen(s: Setup, held: set<Path>, roots: Roots, i: nat, p: Path, r: Record)
    requires Sound(roots) && From(s, held, roots, i, p, r) && !r.item.Excluded?
    ensures var f := PolicyOf(held, roots)[i]; r.item.at in roots.At(f.root) && W.Open(WalkOf(s, held, f), p, r.item.at)
  {
    var f := PolicyOf(held, roots)[i];
    var w, t := WalkOf(s, held, f), roots.At(f.root);
    W.ReachedIsClear(w, t, p, r.item.at);
    W.ClearInspect(w, t, r.item.at);
  }

  lemma OpenIsCopied(s: Setup, held: set<Path>, roots: Roots, i: nat, start: Path, p: Path)
    requires Sound(roots) && Walked(s, held, roots) && IsStart(s, held, roots, i, start)
    requires var f := PolicyOf(held, roots)[i]; p in roots.At(f.root) && W.Open(WalkOf(s, held, f), start, p)
    ensures Copied(Records(s, held, roots), PolicyOf(held, roots)[i].root, p)
  {
    hide Records, PolicyOf;
    var f := PolicyOf(held, roots)[i];
    AncestorsAreDirectories(roots.At(f.root), p, start);
    ReachedIsRecorded(s, held, roots, i, start, p);
    var r :| r in Records(s, held, roots) && r.root == f.root && r.item.at == p
             && (r.item.Excluded? <==> RuleFor(f.id, p, s.options.ctx).Some?);
    RecordIsCopied(Records(s, held, roots), r);
  }

  /** A copied item mirrors its source. */
  lemma CopyMirrors(w: W.Walk, t: Tree, i: W.Item, device: nat)
    requires WellFormed(t) && i.at in t && !i.Excluded? && W.Clear(W.Inspect(w, t, i.at))
    requires W.Inspect(w, t, i.at).items == [i]
    ensures C.Mirrors(w.host, t[i.at], CopyNode(w.host, t, i, device))
    ensures CopyNode(w.host, t, i, device).device == device
  {
    hide W.Inspect;
    W.InspectDescribes(w, t, i);
    SamePermissions(t[i.at].mode);
  }

  lemma SamePermissions(mode: nat)
    ensures Permissions(Permissions(mode)) == Permissions(mode)
  {
  }

  /** Below each start the copy of a problem-free source is a faithful copy. */
  lemma CopyIsFaithful(s: Setup, held: set<Path>, roots: Roots, device: nat, copy: Roots, i: nat, start: Path)
    requires Ready(s, held, roots) && AreCopies(s.host, Records(s, held, roots), roots, device, copy) && Sound(copy)
    requires IsStart(s, held, roots, i, start)
    ensures var f := PolicyOf(held, roots)[i]; C.Copies(WalkOf(s, held, f), roots.At(f.root), start, copy.At(f.root))
  {
    hide Records, PolicyOf, ProblemFree, IsCopy, AreCopies, W.Open;
    ReadyIsWalked(s, held, roots);
    var f := PolicyOf(held, roots)[i];
    var w, t, c := WalkOf(s, held, f), roots.At(f.root), copy.At(f.root);
    CopyAt(s.host, Records(s, held, roots), roots, device, copy, f.root);
    CopyIsOneVolume(s.host, Records(s, held, roots), t, f.root, device, c);
    forall p | start <= p ensures C.CopiesAt(w, t, start, c, p) {
      CopyAtPath(s, held, roots, device, c, i, start, p);
    }
  }

  lemma CopyAtPath(s: Setup, held: set<Path>, roots: Roots, device: nat, c: Tree, i: nat, start: Path, p: Path)
    requires Ready(s, held, roots) && IsStart(s, held, roots, i, start) && start <= p
    requires IsCopy(s.host, Records(s, held, roots), roots.At(PolicyOf(held, roots)[i].root),
        PolicyOf(held, roots)[i].root, device, c)
    ensures var f := PolicyOf(held, roots)[i]; C.CopiesAt(WalkOf(s, held, f), roots.At(f.root), start, c, p)
  {
    hide Records, PolicyOf, ProblemFree;
    ReadyIsWalked(s, held, roots);
    var f := PolicyOf(held, roots)[i];
    var w, t := WalkOf(s, held, f), roots.At(f.root);
    StartIsNotEmpty(s, held, roots, i, start);
    CopiedIsOpen(s, held, roots, i, start, p);
    if p in t && W.Open(w, start, p) {
      OpenIsCopied(s, held, roots, i, start, p);
      var r := CopiedRecord(Records(s, held, roots), f.root, p);
      RecordIsFaithful(s, held, roots, i, start, r);
      CopyMirrors(w, t, r.item, device);
    }
  }

  lemma StartIsNotEmpty(s: Setup, held: set<Path>, roots: Roots, i: nat, start: Path)
    requires IsStart(s, held, roots, i, start)
    ensures start != []
  {
    StartShape(s, held, roots, i, start);
  }

  /** A record below a start is that walk's own record of its path. */
  lemma RecordIsFaithful(s: Setup, held: set<Path>, roots: Roots, i: nat, start: Path, r: Record)
    requires Sound(roots) && Walked(s, held, roots) && IsStart(s, held, roots, i, start) && start <= r.item.at
    requires r in Records(s, held, roots) && r.root == PolicyOf(held, roots)[i].root
    ensures From(s, held, roots, i, start, r)
    ensures var f := PolicyOf(held, roots)[i];
            && W.Clear(W.Inspect(WalkOf(s, held, f), roots.At(f.root), r.item.at))
            && W.Inspect(WalkOf(s, held, f), roots.At(f.root), r.item.at).items == [r.item]
            && r.item.at in roots.At(f.root)
  {
    StartIsNotEmpty(s, held, roots, i, start);
    assert !Fixed(held, roots, r) by {
      if Fixed(held, roots, r) { FixedPlace(held, roots, r); FixedIsNoStart(s, held, roots, i, start, r.item.at); }
    }
    var j, q := Origin(s, held, roots, r);
    FromPlace(s, held, roots, j, q, r);
    OneStart(s, held, roots, i, start, j, q, r.item.at);
    var f := PolicyOf(held, roots)[i];
    W.ReachedIsClear(WalkOf(s, held, f), roots.At(f.root), start, r.item.at);
  }

  lemma CopyIsOneVolume(h: W.Host, records: seq<Record>, t: Tree, root: W.Root, device: nat, c: Tree)
    requires IsCopy(h, records, t, root, device, c)
    ensures C.OneVolume(c)
  {
    forall p | p in c ensures c[p].device == device {
      if Copied(records, root, p) {
        var r := CopiedRecord(records, root, p);
      }
    }
  }

  // ---------------------------------------------------------------- the copy is a well-formed tree

  lemma CopyIsSound(s: Setup, held: set<Path>, roots: Roots, device: nat, copy: Roots)
    requires Ready(s, held, roots) && AreCopies(s.host, Records(s, held, roots), roots, device, copy)
    ensures Sound(copy)
  {
    hide Records, ProblemFree;
    forall root: W.Root ensures WellFormed(copy.At(root)) {
      CopyAt(s.host, Records(s, held, roots), roots, device, copy, root);
      CopyIsWellFormed(s, held, roots, device, root, copy.At(root));
    }
    assert WellFormed(copy.At(W.StateRoot)) && WellFormed(copy.At(W.AgentsRoot)) && WellFormed(copy.At(W.WorkerRoot));
  }

  lemma CopyIsWellFormed(s: Setup, held: set<Path>, roots: Roots, device: nat, root: W.Root, c: Tree)
    requires Ready(s, held, roots) && IsCopy(s.host, Records(s, held, roots), roots.At(root), root, device, c)
    ensures WellFormed(c)
  {
    hide Records, ProblemFree, Policy, LinksStay, LocksOk;
    ReadyIsWalked(s, held, roots);
    var records := Records(s, held, roots);
    assert IsDirectory(c, []) by {
      if Copied(records, root, []) {
        var r := CopiedRecord(records, root, []);
        RootIsDirectory(s, held, roots, r);
      }
    }
    forall p | p in c ensures Hangs(c, p) {
      if p != [] {
        var r := CopiedRecord(records, root, p);
        ParentIsCopied(s, held, roots, r);
        if Parent(p) != [] {
          var d :| d in records && d.root == root && d.item.Directory? && d.item.at == Parent(p);
          assert c[Parent(p)] == CopyNode(s.host, roots.At(root), d.item, device);
        }
      }
    }
  }

  lemma RootIsDirectory(s: Setup, held: set<Path>, roots: Roots, r: Record)
    requires Sound(roots) && Walked(s, held, roots) && r in Records(s, held, roots) && r.item.at == []
    ensures r.item.Directory?
  {
    if Fixed(held, roots, r) {
      FixedPlace(held, roots, r);
    } else {
      var i, p := Origin(s, held, roots, r);
      FromPlace(s, held, roots, i, p, r);
    }
  }

  /** The directory above a copied path is the root, or is itself recorded. */
  lemma ParentIsCopied(s: Setup, held: set<Path>, roots: Roots, r: Record)
    requires Sound(roots) && Walked(s, held, roots) && r in Records(s, held, roots) && r.item.at != []
    requires !r.item.Excluded?
    ensures ValidName(Last(r.item.at))
    ensures Parent(r.item.at) == [] || exists d ::
        d in Records(s, held, roots) && d.root == r.root && d.item.Directory?
        && d.item.at == Parent(r.item.at)
  {
    hide Records, PolicyOf, StateStart, Starts;
    if Fixed(held, roots, r) {
      FixedPlace(held, roots, r);
      assert Hangs(roots.state, r.item.at);
    } else {
      var i, p := Origin(s, held, roots, r);
      FromPlace(s, held, roots, i, p, r);
      assert Hangs(roots.At(r.root), r.item.at);
      if p == r.item.at {
        ParentOfStart(s, held, roots, i, p);
      } else {
        ParentOfOpen(s, held, roots, i, p, r);
      }
    }
  }

  lemma ParentOfStart(s: Setup, held: set<Path>, roots: Roots, i: nat, p: Path)
    requires Sound(roots) && IsStart(s, held, roots, i, p) && p in roots.At(PolicyOf(held, roots)[i].root)
    ensures Parent(p) == [] || exists d ::
        d in Records(s, held, roots) && d.root == PolicyOf(held, roots)[i].root
        && d.item.Directory? && d.item.at == Parent(p)
  {
    hide IsResidue, W.ListNames, Policy, Starts, FamilyRecords, RootRecord;
    StartShape(s, held, roots, i, p);
    if |p| == 2 {
      assert Hangs(roots.state, p) && Parent(p) == [TASKS];
      assert TasksRecord(roots.state, held)[0] in Records(s, held, roots);
    }
  }

  lemma ParentOfOpen(s: Setup, held: set<Path>, roots: Roots, i: nat, p: Path, r: Record)
    requires Sound(roots) && Walked(s, held, roots) && From(s, held, roots, i, p, r) && p < r.item.at
    requires !r.item.Excluded?
    ensures exists d ::
        d in Records(s, held, roots) && d.root == r.root && d.item.Directory? && d.item.at == Parent(r.item.at)
  {
    hide Records, PolicyOf, Walked, W.Visit, W.Inspect;
    var f := PolicyOf(held, roots)[i];
    var w, t, q := WalkOf(s, held, f), roots.At(f.root), Parent(r.item.at);
    assert Hangs(t, r.item.at) && W.Open(w, p, q);
    W.ReachedIsClear(w, t, p, q);
    W.ClearInspect(w, t, q);
    var d := Record(f.id, f.root, W.Inspect(w, t, q).items[0]);
    assert W.Inspect(w, t, q).items == [d.item];
    assert From(s, held, roots, i, p, d);
    RecordsAre(s, held, roots, d);
    assert d in Records(s, held, roots) && d.item.Directory?;
  }

  // ---------------------------------------------------------------- links of the copy

  predicate LinkRecord(r: Record) {
    r.item.Entry? && r.item.detail.LinkDetail?
  }

  /** All that the inspection of the link looked at was copied, or it had no target anyway. */
  ghost predicate LinkStays(records: seq<Record>, t: Tree, policy: LinkPolicy, r: Record)
    requires LinkRecord(r)
  {
    r.item.detail.info.resolution.NoKernelTarget?
    || forall q :: q in L.Met(t, r.item.at, policy) ==> Copied(records, r.root, q)
  }

  ghost predicate LinksStay(records: seq<Record>, roots: Roots, policy: LinkPolicy) {
    forall r :: r in records && LinkRecord(r) ==> LinkStays(records, roots.At(r.root), policy, r)
  }

  /** The copy of one root lies within its source. */
  lemma CopyIsWithin(s: Setup, held: set<Path>, roots: Roots, device: nat, copy: Roots, root: W.Root)
    requires Backup(s, held, roots, device, copy)
    ensures L.Within(roots.At(root), copy.At(root), device)
  {
    hide Records, ProblemFree, Policy, IsCopy, W.Inspect, LocksOk, LinksStay;
    ReadyIsWalked(s, held, roots);
    var t, c, records := roots.At(root), copy.At(root), Records(s, held, roots);
    CopyAt(s.host, records, roots, device, copy, root);
    CopyIsOneVolume(s.host, records, t, root, device, c);
    CopyVolumes(s.host, records, roots, device, copy);
    forall q | q in c ensures q in t && c[q].kind == t[q].kind && c[q].device == device {
      if q == [] {
        assert IsDirectory(t, []) && IsDirectory(c, []);
      } else {
        var r := CopiedRecord(records, root, q);
        CopiedKind(s, held, roots, device, r);
      }
    }
  }

  lemma CopiedKind(s: Setup, held: set<Path>, roots: Roots, device: nat, r: Record)
    requires Sound(roots) && Walked(s, held, roots) && r in Records(s, held, roots) && !r.item.Excluded?
    ensures r.item.at in roots.At(r.root)
    ensures CopyNode(s.host, roots.At(r.root), r.item, device).kind == roots.At(r.root)[r.item.at].kind
  {
    hide Records, PolicyOf, W.Visit, Walked, InspectLink, Starts, RuleFor;
    if Fixed(held, roots, r) {
      FixedPlace(held, roots, r);
      FixedIsDirectory(held, roots, r);
    } else {
      var i, p := Origin(s, held, roots, r);
      FromPlace(s, held, roots, i, p, r);
      var f := PolicyOf(held, roots)[i];
      W.ReachedIsClear(WalkOf(s, held, f), roots.At(f.root), p, r.item.at);
      CopyMirrors(WalkOf(s, held, f), roots.At(f.root), r.item, device);
    }
  }

  lemma FixedIsDirectory(held: set<Path>, roots: Roots, r: Record)
    requires Sound(roots) && Fixed(held, roots, r)
    ensures IsDirectory(roots.state, r.item.at)
  {
  }

  /** A recorded link, and what was inspected there. */
  lemma RecordedLink(s: Setup, held: set<Path>, roots: Roots, r: Record)
    requires Sound(roots) && Walked(s, held, roots) && r in Records(s, held, roots) && LinkRecord(r)
    ensures r.item.at in roots.At(r.root) && roots.At(r.root)[r.item.at].kind.Link?
    ensures InspectLink(roots.At(r.root), r.item.at, s.options.policy) == Accepted(r.item.detail.info)
  {
    hide Records, PolicyOf, W.Visit, Walked, From, InspectLink, Starts, RuleFor;
    if Fixed(held, roots, r) { FixedPlace(held, roots, r); }
    var i, p := Origin(s, held, roots, r);
    FromPlace(s, held, roots, i, p, r);
    FromInspects(s, held, roots, i, p, r);
    LinkItem(WalkOf(s, held, PolicyOf(held, roots)[i]), roots.At(r.root), r.item);
  }

  lemma FromInspects(s: Setup, held: set<Path>, roots: Roots, i: nat, p: Path, r: Record)
    requires Sound(roots) && From(s, held, roots, i, p, r)
    ensures var w, t := WalkOf(s, held, PolicyOf(held, roots)[i]), roots.At(r.root);
            r.item.at in t && W.Clear(W.Inspect(w, t, r.item.at)) && W.Inspect(w, t, r.item.at).items == [r.item]
  {
    var f := PolicyOf(held, roots)[i];
    W.ReachedIsClear(WalkOf(s, held, f), roots.At(f.root), p, r.item.at);
  }

  lemma LinkItem(w: W.Walk, t: Tree, i: W.Item)
    requires WellFormed(t) && i.at in t && W.Clear(W.Inspect(w, t, i.at)) && W.Inspect(w, t, i.at).items == [i]
    requires i.Entry?
    ensures t[i.at].kind.Link? <==> i.detail.LinkDetail?
    ensures i.detail.LinkDetail? ==> InspectLink(t, i.at, w.options.policy) == Accepted(i.detail.info)
  {
  }

  /** A link in both trees, inspected alike. */
  predicate InspectedAlike(t: Tree, c: Tree, p: Path, policy: LinkPolicy)
    requires WellFormed(t) && WellFormed(c)
  {
    p in t && t[p].kind.Link? && p in c && c[p].kind.Link? && InspectLink(c, p, policy) == InspectLink(t, p, policy)
  }

  /** A recorded link is inspected alike in the copy exactly when it stays. */
  lemma LinkIsAlike(s: Setup, held: set<Path>, roots: Roots, device: nat, copy: Roots, r: Record)
    requires Backup(s, held, roots, device, copy) && r in Records(s, held, roots) && LinkRecord(r)
    ensures InspectedAlike(roots.At(r.root), copy.At(r.root), r.item.at, s.options.policy) <==>
            LinkStays(Records(s, held, roots), roots.At(r.root), s.options.policy, r)
  {
    hide Records, ProblemFree, Policy, InspectLink, IsCopy, L.Met, WellFormed, Copied, LocksOk, FamilyReport;
    ReadyIsWalked(s, held, roots);
    var t, c, policy, records := roots.At(r.root), copy.At(r.root), s.options.policy, Records(s, held, roots);
    RecordedLink(s, held, roots, r);
    CopyIsWithin(s, held, roots, device, copy, r.root);
    CopyHolds(s, held, roots, device, copy, r);
    L.LinkAlikeExactly(t, c, device, r.item.at, policy);
    forall q | q in L.Met(t, r.item.at, policy) ensures q in c <==> Copied(records, r.root, q) {
      MetIsCopied(s, held, roots, device, copy, r, q);
    }
  }

  lemma CopyHolds(s: Setup, held: set<Path>, roots: Roots, device: nat, copy: Roots, r: Record)
    requires Backup(s, held, roots, device, copy) && r in Records(s, held, roots) && !r.item.Excluded?
    ensures r.item.at in copy.At(r.root)
  {
    hide Records, ProblemFree, Policy;
    CopyAt(s.host, Records(s, held, roots), roots, device, copy, r.root);
  }

  lemma MetIsCopied(s: Setup, held: set<Path>, roots: Roots, device: nat, copy: Roots, r: Record, q: Path)
    requires Backup(s, held, roots, device, copy) && q in L.Met(roots.At(r.root), r.item.at, s.options.policy)
    ensures q in copy.At(r.root) <==> Copied(Records(s, held, roots), r.root, q)
  {
    hide Records, ProblemFree, Policy;
    CopyAt(s.host, Records(s, held, roots), roots, device, copy, r.root);
    assert q != [];
  }

  /** With nothing but dependency links and preserved links, and then neither owner exclusions nor locks held in the
      preserved home, every link stays. The default policy has dependency links only. */
  lemma UsualLinksStay(s: Setup, held: set<Path>, roots: Roots)
    requires Ready(s, held, roots) && L.OnlyPreserves(s.options.policy)
    requires s.options.policy.rules != [] ==> !s.options.ctx.owner && forall h :: h in held ==> !(OPAQUE <= h)
    ensures LinksStay(Records(s, held, roots), roots, s.options.policy)
  {
    hide Records, ProblemFree, Policy, L.Met;
    forall r, q | && r in Records(s, held, roots) && LinkRecord(r)
                  && q in L.Met(roots.At(r.root), r.item.at, s.options.policy)
      ensures Copied(Records(s, held, roots), r.root, q)
    {
      UsualLinkStays(s, held, roots, r, q);
    }
  }

  lemma UsualLinkStays(s: Setup, held: set<Path>, roots: Roots, r: Record, q: Path)
    requires Ready(s, held, roots) && L.OnlyPreserves(s.options.policy)
    requires s.options.policy.rules != [] ==> !s.options.ctx.owner && forall h :: h in held ==> !(OPAQUE <= h)
    requires r in Records(s, held, roots) && LinkRecord(r) && q in L.Met(roots.At(r.root), r.item.at, s.options.policy)
    ensures Copied(Records(s, held, roots), r.root, q)
  {
    hide Records, ProblemFree, PolicyOf, InspectLink, W.Visit, W.Inspect, W.Open, From, Starts;
    ReadyIsWalked(s, held, roots);
    var t, policy, p := roots.At(r.root), s.options.policy, r.item.at;
    RecordedLink(s, held, roots, r);
    L.AcceptedLink(t, p, policy);
    L.AcceptedIsOneOfTwo(t, p, policy);
    if Fixed(held, roots, r) { FixedPlace(held, roots, r); }
    var i, start := Origin(s, held, roots, r);
    FromPlace(s, held, roots, i, start, r);
    LinkOrigin(s, held, roots, i, start, r, q);
    OpenIsCopied(s, held, roots, i, start, q);
  }

  lemma LinkOrigin(s: Setup, held: set<Path>, roots: Roots, i: nat, start: Path, r: Record, q: Path)
    requires Ready(s, held, roots) && r in Records(s, held, roots) && From(s, held, roots, i, start, r) && LinkRecord(r)
    requires var t, p, policy := roots.At(r.root), r.item.at, s.options.policy;
             && p in t && t[p].kind.Link? && InspectLink(t, p, policy) == Accepted(r.item.detail.info)
             && q in L.Met(t, p, policy) && PolicyFor(p, policy).Some?
             && var boundary := PolicyFor(p, policy).value.boundary;
                && boundary <= Parent(p) && boundary < q && q in t
                && (|| (InDependencies(p) && boundary == p[..4] && r.item.detail.info.requiredTarget
                        && r.item.detail.info.resolved.Some?)
                    || (boundary == OPAQUE && !s.options.ctx.owner && forall h :: h in held ==> !(OPAQUE <= h)))
    ensures W.Open(WalkOf(s, held, PolicyOf(held, roots)[i]), start, q)
  {
    hide Records, ProblemFree, PolicyOf, InspectLink, W.Visit, W.Inspect, W.Open, L.Met;
    ReadyIsWalked(s, held, roots);
    var f, t, p := PolicyOf(held, roots)[i], roots.At(r.root), r.item.at;
    var w := WalkOf(s, held, f);
    FromPlace(s, held, roots, i, start, r);
    AncestorsAreDirectories(t, p, start);
    StartIsOpen(s, held, roots, i, start);
    WalkLocks(s, held, roots, f);
    if InDependencies(p) {
      FromIsOpen(s, held, roots, i, start, r);
      if q in w.held {
        L.FileIsTarget(t, p, s.options.policy, q);
        CoveredIsNotHeld(s, held, roots, r, q);
      }
      L.DependenciesAreOpen(w, t, start, p, q);
    } else {
      PreservedStart(s, held, roots, i, start);
      L.PreservedIsOpen(w, t, q);
    }
  }

  /** Only one start lies above the preserved home. */
  lemma PreservedStart(s: Setup, held: set<Path>, roots: Roots, i: nat, start: Path)
    requires IsStart(s, held, roots, i, start) && start != [] && start[0] == OPAQUE[0]
    ensures start == OPAQUE
  {
    hide PolicyOf, PLISTS, Shaped, W.ListNames, IsResidue;
    StartShape(s, held, roots, i, start);
    assert "tasks"[0] == 't' && "compat-home"[0] == 'c';
  }

  /** The target of a required link is recorded, so it is no held lock. */
  lemma CoveredIsNotHeld(s: Setup, held: set<Path>, roots: Roots, r: Record, q: Path)
    requires Ready(s, held, roots) && r in Records(s, held, roots) && LinkRecord(r) && r.item.detail.info.requiredTarget
    requires r.item.detail.info.resolved == Some(q)
    ensures q !in HeldIn(held, r.root)
  {
    hide Records, ProblemFree, Policy;
    ReadyIsWalked(s, held, roots);
    ReadyCovers(s, held, roots);
    TargetIsCovered(Records(s, held, roots), r, q);
    var target := CopiedRecord(Records(s, held, roots), r.root, q);
    if r.root == W.StateRoot { RecordedIsOwned(s, held, roots, target); }
  }

  lemma ReadyCovers(s: Setup, held: set<Path>, roots: Roots)
    requires Ready(s, held, roots)
    ensures TargetsCovered(Records(s, held, roots))
  {
  }

  lemma TargetIsCovered(records: seq<Record>, r: Record, target: Path)
    requires TargetsCovered(records) && r in records && LinkRecord(r)
    requires r.item.detail.info.requiredTarget && r.item.detail.info.resolved == Some(target)
    ensures Copied(records, r.root, target)
  {
    var k :| 0 <= k < |records| && records[k] == r;
    assert Covers(records, records[k].root, target);
  }

  // ---------------------------------------------------------------- walking the copy

  /** No rule applies at a start. */
  lemma StartIsOpen(s: Setup, held: set<Path>, roots: Roots, i: nat, start: Path)
    requires Sound(roots) && IsStart(s, held, roots, i, start) && start in roots.At(PolicyOf(held, roots)[i].root)
    ensures W.Open(WalkOf(s, held, PolicyOf(held, roots)[i]), start, start)
    ensures start != [] && (start[0] == "runtime" ==> start == ["runtime"] && PolicyOf(held, roots)[i].id == "runtime")
  {
    hide PolicyOf, W.ListNames, PLISTS;
    var f := PolicyOf(held, roots)[i];
    StartShape(s, held, roots, i, start);
    NamesOnTheWay(roots.At(f.root), start);
    if f.root == W.AgentsRoot { PlistNames(start); }
    assert "config.json"[0] == 'c' && "runtime"[0] == 'r' && TASKS == "tasks" && "tasks"[0] == 't';
    assert TASKS in PROTECTED_TOP;
    if RuleFor(f.id, start, s.options.ctx).Some? { RulesStayClear(f.id, start, s.options.ctx); }
  }

  lemma PlistNames(p: Path)
    requires p in PLISTS
    ensures |p| == 1 && p[0] != "" && p[0][0] == 'c'
  {
    assert SERVICE_PREFIX[0] == 'c';
  }

  ghost predicate Backup(s: Setup, held: set<Path>, roots: Roots, device: nat, copy: Roots) {
    Ready(s, held, roots) && AreCopies(s.host, Records(s, held, roots), roots, device, copy) && Sound(copy)
  }

  /** A start is in the copy when it is at the source, and mirrors it. */
  lemma StartAlike(s: Setup, held: set<Path>, roots: Roots, device: nat, copy: Roots, i: nat, start: Path)
    requires Backup(s, held, roots, device, copy) && IsStart(s, held, roots, i, start)
    ensures var f := PolicyOf(held, roots)[i];
            var t, c := roots.At(f.root), copy.At(f.root);
            (start in c <==> start in t) && (start in t ==> C.Mirrors(s.host, t[start], c[start]))
  {
    hide Records, PolicyOf, W.Visit, W.Inspect, ProblemFree, IsCopy;
    var f := PolicyOf(held, roots)[i];
    var w, t, c := WalkOf(s, held, f), roots.At(f.root), copy.At(f.root);
    CopyIsFaithful(s, held, roots, device, copy, i, start);
    assert C.CopiesAt(w, t, start, c, start);
    if start in t { StartIsOpen(s, held, roots, i, start); }
  }

  /** A backup whose links all stay. */
  ghost predicate Steady(s: Setup, held: set<Path>, roots: Roots, device: nat, copy: Roots) {
    Backup(s, held, roots, device, copy) && LinksStay(Records(s, held, roots), roots, s.options.policy)
  }

  lemma StartLinksAlike(s: Setup, held: set<Path>, roots: Roots, device: nat, copy: Roots, i: nat, start: Path)
    requires Steady(s, held, roots, device, copy) && IsStart(s, held, roots, i, start)
    ensures var f := PolicyOf(held, roots)[i];
            C.LinksAlike(WalkOf(s, held, f), roots.At(f.root), start, copy.At(f.root))
  {
    hide Records, PolicyOf, ProblemFree, IsCopy, InspectLink, LinkStays;
    ReadyIsWalked(s, held, roots);
    var f := PolicyOf(held, roots)[i];
    var w, t, c := WalkOf(s, held, f), roots.At(f.root), copy.At(f.root);
    forall p | start <= p && W.Open(w, start, p) ensures C.LinkAlike(w, t, c, p) {
      if p in t && t[p].kind.Link? {
        OpenIsCopied(s, held, roots, i, start, p);
        var r := CopiedRecord(Records(s, held, roots), f.root, p);
        OpenLink(s, held, roots, i, start, r);
        LinkIsAlike(s, held, roots, device, copy, r);
      }
    }
  }

  lemma OpenLink(s: Setup, held: set<Path>, roots: Roots, i: nat, start: Path, r: Record)
    requires Sound(roots) && Walked(s, held, roots) && IsStart(s, held, roots, i, start) && start <= r.item.at
    requires r in Records(s, held, roots) && r.root == PolicyOf(held, roots)[i].root && !r.item.Excluded?
    requires r.item.at in roots.At(r.root) && roots.At(r.root)[r.item.at].kind.Link?
    ensures LinkRecord(r)
  {
    hide Records, PolicyOf, W.Visit, Walked;
    RecordIsFaithful(s, held, roots, i, start, r);
    W.ClearInspect(WalkOf(s, held, PolicyOf(held, roots)[i]), roots.At(r.root), r.item.at);
  }

  /** A walk of the copy from any start repeats the source's walk, exclusions aside. */
  lemma StartWalksAlike(s: Setup, held: set<Path>, roots: Roots, device: nat, copy: Roots, i: nat, start: Path)
    requires Steady(s, held, roots, device, copy) && IsStart(s, held, roots, i, start)
    requires start in roots.At(PolicyOf(held, roots)[i].root)
    ensures var f := PolicyOf(held, roots)[i];
            W.Visit(WalkOf(s, {}, f), copy.At(f.root), start)
            == W.Report(C.Kept(s.host, W.Visit(WalkOf(s, held, f), roots.At(f.root), start).items), [], None)
  {
    hide Records, PolicyOf, W.Visit, W.Inspect, ProblemFree, IsCopy, LinksStay;
    ReadyIsWalked(s, held, roots);
    var f := PolicyOf(held, roots)[i];
    var w := WalkOf(s, held, f);
    CopyIsFaithful(s, held, roots, device, copy, i, start);
    StartIsThere(s, held, roots, i, start);
    StartIsOpen(s, held, roots, i, start);
    StartLinksAlike(s, held, roots, device, copy, i, start);
    C.VisitAlike(w, roots.At(f.root), start, copy.At(f.root), start);
    assert WalkOf(s, {}, f) == C.WithoutLocks(w);
  }

  /** tasks/ lists the same names in the copy. */
  lemma TasksListAlike(s: Setup, held: set<Path>, roots: Roots, device: nat, copy: Roots)
    requires Backup(s, held, roots, device, copy)
    ensures W.ListNames(copy.state, {}, [TASKS]) == W.ListNames(roots.state, held, [TASKS])
  {
    hide Records, PolicyOf, ProblemFree, IsCopy, Backup, W.Inspect;
    var mine, theirs := W.ListNames(copy.state, {}, [TASKS]), W.ListNames(roots.state, held, [TASKS]);
    W.ListedNames(copy.state, {}, [TASKS]);
    W.ListedNames(roots.state, held, [TASKS]);
    forall n ensures n in mine <==> n in theirs {
      assert [TASKS] + [n] == [TASKS, n];
      TaskNameAlike(s, held, roots, device, copy, n);
    }
    assert Elements(mine) == Elements(theirs);
    SortedIsUnique(mine, theirs);
  }

  lemma TaskNameAlike(s: Setup, held: set<Path>, roots: Roots, device: nat, copy: Roots, n: Name)
    requires Backup(s, held, roots, device, copy)
    ensures [TASKS, n] in copy.state <==> [TASKS, n] in roots.state && [TASKS, n] !in held
  {
    hide Backup;
    if [TASKS, n] in roots.state && [TASKS, n] !in held { ListedTaskIsCopied(s, held, roots, device, copy, n); }
    if [TASKS, n] in copy.state { CopiedTaskIsListed(s, held, roots, device, copy, n); }
  }

  lemma ListedTaskIsCopied(s: Setup, held: set<Path>, roots: Roots, device: nat, copy: Roots, n: Name)
    requires Backup(s, held, roots, device, copy) && [TASKS, n] in roots.state && [TASKS, n] !in held
    ensures [TASKS, n] in copy.state
  {
    hide Records, PolicyOf, W.Visit, ProblemFree, IsCopy, NamesKnown, TaskNameOk, IsStart;
    ReadyIsClosed(s, held, roots);
    ReadyIsWalked(s, held, roots);
    var p := [TASKS, n];
    assert [TASKS] + [n] == p;
    W.ListedNames(roots.state, held, [TASKS]);
    assert Hangs(roots.state, p) && Parent(p) == [TASKS];
    assert TaskNameOk(s.host, roots.state, n);
    var i := TaskStart(s, held, roots, n);
    StartAlike(s, held, roots, device, copy, i, p);
  }

  lemma CopiedTaskIsListed(s: Setup, held: set<Path>, roots: Roots, device: nat, copy: Roots, n: Name)
    requires Backup(s, held, roots, device, copy) && [TASKS, n] in copy.state
    ensures [TASKS, n] in roots.state && [TASKS, n] !in held
  {
    hide Records, PolicyOf, W.Visit, ProblemFree, FamilyReport, Sound, WellFormed;
    ReadyIsWalked(s, held, roots);
    CopyAt(s.host, Records(s, held, roots), roots, device, copy, W.StateRoot);
    var r := CopiedRecord(Records(s, held, roots), W.StateRoot, [TASKS, n]);
    RecordedIsOwned(s, held, roots, r);
    RecordIsInTree(s, held, roots, r);
  }

  /** The state root lists the same names in the copy. */
  lemma StateListsAlike(s: Setup, held: set<Path>, roots: Roots, device: nat, copy: Roots)
    requires Backup(s, held, roots, device, copy)
    ensures StateNames(copy.state, {}) == StateNames(roots.state, held)
  {
    hide Records, PolicyOf, ProblemFree, IsCopy;
    var mine, theirs := StateNames(copy.state, {}), StateNames(roots.state, held);
    forall n ensures n in Elements(mine) <==> n in Elements(theirs) {
      assert [] + [n] == [n];
      StateNameAlike(s, held, roots, device, copy, n);
    }
    SortedIsUnique(mine, theirs);
  }

  lemma StateNameAlike(s: Setup, held: set<Path>, roots: Roots, device: nat, copy: Roots, n: Name)
    requires Backup(s, held, roots, device, copy)
    ensures [n] in copy.state <==> [n] in roots.state && [n] !in held && n != CONTROL
  {
    hide InspectLink, FamilyReport, PLISTS, Sound, Records, ProblemFree;
    if [n] in roots.state && [n] !in held && n != CONTROL { ListedIsCopied(s, held, roots, device, copy, n); }
    if [n] in copy.state { CopiedIsListed(s, held, roots, device, copy, n); }
  }

  lemma ListedIsCopied(s: Setup, held: set<Path>, roots: Roots, device: nat, copy: Roots, n: Name)
    requires Backup(s, held, roots, device, copy) && [n] in roots.state && [n] !in held && n != CONTROL
    ensures [n] in copy.state
  {
    hide Records, PolicyOf, W.Visit, ProblemFree, IsStart, NamesKnown, TasksOk, Policy, PLISTS;
    ReadyIsClosed(s, held, roots);
    var p := [n];
    if n == TASKS {
      TasksAreCopied(s, held, roots);
    } else {
      var i, start := StartAbove(s, held, roots, p);
      StartIsNotEmpty(s, held, roots, i, start);
      assert start == p;
      StartAlike(s, held, roots, device, copy, i, p);
    }
  }

  lemma CopiedIsListed(s: Setup, held: set<Path>, roots: Roots, device: nat, copy: Roots, n: Name)
    requires Backup(s, held, roots, device, copy) && [n] in copy.state
    ensures [n] in roots.state && [n] !in held && n != CONTROL
  {
    hide Records, PolicyOf, ProblemFree, Starts, W.ListNames, RuleFor, WellFormed;
    ReadyIsWalked(s, held, roots);
    var r := CopiedRecord(Records(s, held, roots), W.StateRoot, [n]);
    RecordedIsOwned(s, held, roots, r);
    RecordIsInTree(s, held, roots, r);
  }

  lemma TasksAreCopied(s: Setup, held: set<Path>, roots: Roots)
    requires Sound(roots) && TasksOk(s.host, roots.state, held) && [TASKS] in roots.state
    ensures Copied(Records(s, held, roots), W.StateRoot, [TASKS])
  {
    var r := TasksRecord(roots.state, held)[0];
    assert r in Records(s, held, roots);
    RecordIsCopied(Records(s, held, roots), r);
  }

  lemma RecordIsInTree(s: Setup, held: set<Path>, roots: Roots, r: Record)
    requires Sound(roots) && Walked(s, held, roots) && r in Records(s, held, roots)
    ensures r.item.at in roots.At(r.root)
  {
    hide Records, PolicyOf, From;
    if Fixed(held, roots, r) {
      FixedPlace(held, roots, r);
    } else {
      var i, p := Origin(s, held, roots, r);
      FromPlace(s, held, roots, i, p, r);
    }
  }

  /** Residue is recognised again in the copy. */
  lemma {:induction false} ResiduesAlike(h: W.Host, a: Tree, b: Tree, names: seq<Name>, base: Name)
    requires forall n :: n in names && TaskNameOk(h, a, n) ==> IsResidue(h, a, n, base) == IsResidue(h, b, n, base)
    requires forall n :: n in names ==> TaskNameOk(h, a, n)
    ensures Residues(h, a, names, base) == Residues(h, b, names, base)
  {
    if names != [] {
      ResiduesAlike(h, a, b, names[1..], base);
    }
  }

  lemma StartsAlike(s: Setup, held: set<Path>, roots: Roots, device: nat, copy: Roots, i: nat)
    requires Backup(s, held, roots, device, copy) && i < |PolicyOf(held, roots)|
    ensures Starts(s.host, copy.state, {}, PolicyOf(held, roots)[i])
        == Starts(s.host, roots.state, held, PolicyOf(held, roots)[i])
  {
    hide Records, PolicyOf, W.Visit, Backup, TaskNameOk, IsResidue, W.ListNames;
    var f := PolicyOf(held, roots)[i];
    TasksListAlike(s, held, roots, device, copy);
    var names := W.ListNames(roots.state, held, [TASKS]);
    if f.relative == STORE || f.relative == EVENTS {
      forall n | n in names
        ensures TaskNameOk(s.host, roots.state, n)
        ensures IsResidue(s.host, roots.state, n, f.relative[1]) == IsResidue(s.host, copy.state, n, f.relative[1])
      {
        ResidueAlike(s, held, roots, device, copy, n, f.relative[1]);
      }
      ResiduesAlike(s.host, roots.state, copy.state, names, f.relative[1]);
    }
  }

  lemma ResidueAlike(s: Setup, held: set<Path>, roots: Roots, device: nat, copy: Roots, n: Name, base: Name)
    requires Backup(s, held, roots, device, copy) && n in W.ListNames(roots.state, held, [TASKS])
    ensures TaskNameOk(s.host, roots.state, n)
    ensures IsResidue(s.host, roots.state, n, base) == IsResidue(s.host, copy.state, n, base)
  {
    hide Records, PolicyOf, W.Visit, ProblemFree, IsCopy, NamesKnown, Policy, W.ListNames;
    ReadyIsClosed(s, held, roots);
    W.ListedNames(roots.state, held, [TASKS]);
    assert [TASKS] + [n] == [TASKS, n];
    assert Hangs(roots.state, [TASKS, n]) && Parent([TASKS, n]) == [TASKS];
    assert TaskNameOk(s.host, roots.state, n);
    var i := TaskStart(s, held, roots, n);
    StartAlike(s, held, roots, device, copy, i, [TASKS, n]);
  }

  // ---------------------------------------------------------------- inspecting the copy

  lemma {:induction false} VisitAllAlike(w: W.Walk, w': W.Walk, t: Tree, c: Tree, paths: seq<Path>)
    requires WellFormed(t) && WellFormed(c) && W.Clear(VisitAll(w, t, paths))
    requires forall k :: 0 <= k < |paths| ==>
        W.Visit(w', c, paths[k]) == W.Report(C.Kept(w.host, W.Visit(w, t, paths[k]).items), [], None)
    ensures VisitAll(w', c, paths) == W.Report(C.Kept(w.host, VisitAll(w, t, paths).items), [], None)
  {
    if paths != [] {
      W.ClearThen(W.Visit(w, t, paths[0]), VisitAll(w, t, paths[1..]));
      VisitAllAlike(w, w', t, c, paths[1..]);
      C.KeptConcat(w.host, W.Visit(w, t, paths[0]).items, VisitAll(w, t, paths[1..]).items);
    }
  }

  /** Each family is found in the copy as at the source, exclusions aside, and without problems. */
  lemma FamilyAlike(s: Setup, held: set<Path>, roots: Roots, device: nat, copy: Roots, i: nat)
    requires Steady(s, held, roots, device, copy) && i < |PolicyOf(held, roots)|
    ensures var f := PolicyOf(held, roots)[i];
            && FamilyReport(s, {}, copy, f).items == C.Kept(s.host, FamilyReport(s, held, roots, f).items)
            && FamilyProblems(f, copy.At(f.root), FamilyReport(s, {}, copy, f)) == []
  {
    hide Records, PolicyOf, W.Visit, ProblemFree, IsCopy, Starts, WellFormed, Policy, LinksStay, FamilyProblems;
    ReadyIsWalked(s, held, roots);
    var f := PolicyOf(held, roots)[i];
    var w, w', t, c := WalkOf(s, held, f), WalkOf(s, {}, f), roots.At(f.root), copy.At(f.root);
    var starts := Starts(s.host, roots.state, held, f);
    FamilyWalk(s, held, roots, i);
    StartsAlike(s, held, roots, device, copy, i);
    if W.Clear(FamilyReport(s, held, roots, f)) {
      forall k | 0 <= k < |starts|
        ensures W.Visit(w', c, starts[k]) == W.Report(C.Kept(s.host, W.Visit(w, t, starts[k]).items), [], None)
      {
        VisitAllClear(w, t, starts, k);
        StartWalksAlike(s, held, roots, device, copy, i, starts[k]);
      }
      VisitAllAlike(w, w', t, c, starts);
      ClearFamilyIsFine(s.host, f, c, FamilyReport(s, held, roots, f).items);
    } else {
      AbsentFamily(s, held, roots, device, copy, i);
    }
  }

  lemma ClearFamilyIsFine(h: W.Host, f: W.Family, c: Tree, items: seq<W.Item>)
    requires f.required ==> HasEntry(items)
    ensures FamilyProblems(f, c, W.Report(C.Kept(h, items), [], None)) == []
  {
    var kept := C.Kept(h, items);
    forall k | 0 <= k < |kept| ensures !kept[k].Excluded? { var i := C.KeptComesFrom(h, items, kept[k]); }
    if f.required {
      var k :| 0 <= k < |items| && items[k].Entry?;
      C.KeptHolds(h, items, items[k]);
      var j :| 0 <= j < |kept| && kept[j] == C.Renewed(h, items[k]);
    }
  }

  lemma BackupIsSound(s: Setup, held: set<Path>, roots: Roots, device: nat, copy: Roots)
    requires Backup(s, held, roots, device, copy)
    ensures Sound(copy)
  {
  }

  lemma MissingVisit(w: W.Walk, t: Tree, p: Path)
    requires WellFormed(t) && p !in t
    ensures W.Visit(w, t, p) == W.Throw(W.Missing)
  {
  }

  lemma AbsentFamily(s: Setup, held: set<Path>, roots: Roots, device: nat, copy: Roots, i: nat)
    requires Backup(s, held, roots, device, copy) && i < |PolicyOf(held, roots)|
    requires var f := PolicyOf(held, roots)[i];
             !f.required && f.id != "services" && f.relative !in roots.At(f.root)
                 && FamilyReport(s, held, roots, f).items == []
    ensures var f := PolicyOf(held, roots)[i];
            FamilyReport(s, {}, copy, f).items == []
                && FamilyProblems(f, copy.At(f.root), FamilyReport(s, {}, copy, f)) == []
  {
    hide Records, PolicyOf, ProblemFree, IsCopy, W.Visit, Backup;
    var f := PolicyOf(held, roots)[i];
    assert Starts(s.host, roots.state, held, f)[0] == f.relative;
    StartAlike(s, held, roots, device, copy, i, f.relative);
    MissingVisit(WalkOf(s, {}, f), copy.At(f.root), f.relative) by { BackupIsSound(s, held, roots, device, copy); }
    assert Starts(s.host, copy.state, {}, f)[0] == f.relative;
  }

  function RenewedRecord(h: W.Host, r: Record): Record {
    r.(item := C.Renewed(h, r.item))
  }

  /** What a copy shows of these records: exclusions left out, everything newly made. */
  function KeptRecords(h: W.Host, rs: seq<Record>): seq<Record> {
    if rs == [] then [] else (if rs[0].item.Excluded? then [] else [RenewedRecord(h, rs[0])]) + KeptRecords(h, rs[1..])
  }

  lemma {:induction false} KeptRecordHolds(h: W.Host, rs: seq<Record>, r: Record)
    requires r in rs && !r.item.Excluded?
    ensures RenewedRecord(h, r) in KeptRecords(h, rs)
  {
    if r != rs[0] { KeptRecordHolds(h, rs[1..], r); }
  }

  lemma {:induction false} KeptRecordComesFrom(h: W.Host, rs: seq<Record>, k: Record) returns (r: Record)
    requires k in KeptRecords(h, rs)
    ensures r in rs && !r.item.Excluded? && k == RenewedRecord(h, r)
  {
    if !rs[0].item.Excluded? && k == RenewedRecord(h, rs[0]) {
      r := rs[0];
    } else {
      r := KeptRecordComesFrom(h, rs[1..], k);
    }
  }

  lemma {:induction false} KeptRecordsConcat(h: W.Host, a: seq<Record>, b: seq<Record>)
    ensures KeptRecords(h, a + b) == KeptRecords(h, a) + KeptRecords(h, b)
  {
    if a == [] {
      assert a + b == b;
    } else {
      assert (a + b)[0] == a[0] && (a + b)[1..] == a[1..] + b;
      KeptRecordsConcat(h, a[1..], b);
    }
  }

  lemma StampFirst(f: W.Family, i: W.Item, rest: seq<W.Item>)
    ensures Stamp(f, [i] + rest) == [Record(f.id, f.root, i)] + Stamp(f, rest)
  {
  }

  lemma {:induction false} StampKept(h: W.Host, f: W.Family, items: seq<W.Item>)
    ensures Stamp(f, C.Kept(h, items)) == KeptRecords(h, Stamp(f, items))
  {
    hide Stamp;
    if items == [] {
      assert Stamp(f, []) == [];
    } else {
      var i, rest := items[0], items[1..];
      StampKept(h, f, rest);
      StampFirst(f, i, rest);
      StampFirst(f, C.Renewed(h, i), C.Kept(h, rest));
      assert items == [i] + rest;
      assert ([Record(f.id, f.root, i)] + Stamp(f, rest))[1..] == Stamp(f, rest);
    }
  }

  lemma {:induction false} FamiliesAlike(s: Setup, held: set<Path>, roots: Roots, device: nat, copy: Roots, from: nat)
    requires Steady(s, held, roots, device, copy) && from <= |PolicyOf(held, roots)|
    ensures FamilyRecords(s, {}, copy, PolicyOf(held, roots)[from..])
        == KeptRecords(s.host, FamilyRecords(s, held, roots, PolicyOf(held, roots)[from..]))
    ensures AllFamilyProblems(s, {}, copy, PolicyOf(held, roots)[from..]) == []
    decreases |PolicyOf(held, roots)| - from
  {
    hide Records, PolicyOf, ProblemFree, IsCopy, FamilyReport, FamilyProblems;
    var rest := PolicyOf(held, roots)[from..];
    if rest != [] {
      assert rest[0] == PolicyOf(held, roots)[from] && rest[1..] == PolicyOf(held, roots)[from + 1..];
      FamilyAlike(s, held, roots, device, copy, from);
      FamiliesAlike(s, held, roots, device, copy, from + 1);
      StampKept(s.host, rest[0], FamilyReport(s, held, roots, rest[0]).items);
      KeptRecordsConcat(s.host, Stamp(rest[0], FamilyReport(s, held, roots, rest[0]).items),
          FamilyRecords(s, held, roots, rest[1..]));
    }
  }

  lemma RootRecordAlike(s: Setup, held: set<Path>, roots: Roots, device: nat, copy: Roots)
    requires Backup(s, held, roots, device, copy)
    ensures RootRecord(copy.state, {}) == RenewedRecord(s.host, RootRecord(roots.state, held))
    ensures TasksRecord(copy.state, {}) == KeptRecords(s.host, TasksRecord(roots.state, held))
  {
    hide PolicyOf, ProblemFree, StateNames, FamilyRecords, IsCopy, W.ListNames, Policy;
    StateListsAlike(s, held, roots, device, copy);
    TasksListAlike(s, held, roots, device, copy);
    var records := Records(s, held, roots);
    assert RootRecord(roots.state, held) in records;
    NodeOf(s.host, records, roots.state, device, copy.state, RootRecord(roots.state, held));
    if IsDirectory(roots.state, [TASKS]) {
      var r := TasksRecord(roots.state, held)[0];
      assert r in records;
      NodeOf(s.host, records, roots.state, device, copy.state, r);
    } else if [TASKS] in copy.state {
      TasksNeedDirectory(s, held, roots, device, copy);
    }
  }

  lemma NodeOf(h: W.Host, records: seq<Record>, t: Tree, device: nat, c: Tree, r: Record)
    requires IsCopy(h, records, t, W.StateRoot, device, c) && r in records && r.root == W.StateRoot && r.item.Directory?
    ensures r.item.at in t && r.item.at in c && c[r.item.at] == NewDirectory(h, r.item.mode, device)
  {
  }

  /** tasks/ is copied only as a directory. */
  lemma TasksNeedDirectory(s: Setup, held: set<Path>, roots: Roots, device: nat, copy: Roots)
    requires Backup(s, held, roots, device, copy) && [TASKS] in copy.state
    ensures IsDirectory(roots.state, [TASKS])
  {
    StateNameAlike(s, held, roots, device, copy, TASKS);
  }

  lemma RootIsKept(h: W.Host, state: Tree, held: set<Path>)
    requires [] in state
    ensures KeptRecords(h, [RootRecord(state, held)]) == [RenewedRecord(h, RootRecord(state, held))]
  {
    assert KeptRecords(h, []) == [];
  }

  lemma RecordsAlike(s: Setup, held: set<Path>, roots: Roots, device: nat, copy: Roots)
    requires Steady(s, held, roots, device, copy)
    ensures Records(s, {}, copy) == KeptRecords(s.host, Records(s, held, roots))
    ensures PolicyOf({}, copy) == PolicyOf(held, roots)
  {
    hide ProblemFree, IsCopy, FamilyRecords, Policy, KeptRecords, RootRecord, TasksRecord, StateNames;
    StateListsAlike(s, held, roots, device, copy);
    RootRecordAlike(s, held, roots, device, copy);
    FamiliesAlike(s, held, roots, device, copy, 0);
    var policy := PolicyOf(held, roots);
    assert policy[0..] == policy;
    var root, tasks, rest := [RootRecord(roots.state, held)], TasksRecord(roots.state, held),
        FamilyRecords(s, held, roots, policy);
    KeptRecordsConcat(s.host, root + tasks, rest);
    KeptRecordsConcat(s.host, root, tasks);
    RootIsKept(s.host, roots.state, held);
  }

  // ---------------------------------------------------------------- the copy has no problems either

  lemma KeptCovers(h: W.Host, rs: seq<Record>, root: W.Root, p: Path)
    requires Covers(rs, root, p)
    ensures Covers(KeptRecords(h, rs), root, p)
  {
    var k :| 0 <= k < |rs| && rs[k].root == root && rs[k].item.at == p
             && (rs[k].item.Directory? || (rs[k].item.Entry? && rs[k].item.detail.FileDetail?));
    KeptRecordHolds(h, rs, rs[k]);
    var j :| 0 <= j < |KeptRecords(h, rs)| && KeptRecords(h, rs)[j] == RenewedRecord(h, rs[k]);
  }

  lemma KeptHasFile(h: W.Host, rs: seq<Record>, p: Path)
    requires HasFile(rs, p)
    ensures HasFile(KeptRecords(h, rs), p)
  {
    var k :| 0 <= k < |rs| && rs[k].item.Entry? && rs[k].item.detail.FileDetail? && rs[k].item.at == p;
    KeptRecordHolds(h, rs, rs[k]);
    var j :| 0 <= j < |KeptRecords(h, rs)| && KeptRecords(h, rs)[j] == RenewedRecord(h, rs[k]);
  }

  lemma KeptHasEntryAt(h: W.Host, rs: seq<Record>, p: Path)
    requires HasEntryAt(rs, p)
    ensures HasEntryAt(KeptRecords(h, rs), p)
  {
    var k :| 0 <= k < |rs| && rs[k].root == W.StateRoot && rs[k].item.Entry? && rs[k].item.at == p;
    KeptRecordHolds(h, rs, rs[k]);
    var j :| 0 <= j < |KeptRecords(h, rs)| && KeptRecords(h, rs)[j] == RenewedRecord(h, rs[k]);
  }

  lemma KeptTargets(h: W.Host, rs: seq<Record>)
    requires TargetsCovered(rs)
    ensures TargetsCovered(KeptRecords(h, rs)) && TargetsKept(KeptRecords(h, rs))
  {
    var kept := KeptRecords(h, rs);
    forall k | 0 <= k < |kept| ensures !kept[k].item.Excluded? { var r := KeptRecordComesFrom(h, rs, kept[k]); }
    forall i | 0 <= i < |kept| && kept[i].item.Entry? && kept[i].item.detail.LinkDetail?
               && kept[i].item.detail.info.requiredTarget && kept[i].item.detail.info.resolved.Some?
      ensures Covers(kept, kept[i].root, kept[i].item.detail.info.resolved.value)
    {
      var r := KeptRecordComesFrom(h, rs, kept[i]);
      var k :| 0 <= k < |rs| && rs[k] == r;
      KeptCovers(h, rs, rs[k].root, rs[k].item.detail.info.resolved.value);
    }
  }

  lemma KeptRequirements(h: W.Host, rs: seq<Record>, policy: seq<W.Family>)
    requires HistoricalComplete(rs, policy) && MandatoryPresent(rs)
    ensures HistoricalComplete(KeptRecords(h, rs), policy) && MandatoryPresent(KeptRecords(h, rs))
  {
    forall i, k | 0 <= i < |policy| && 0 <= k < |PLISTS| && policy[i].id == "historical-preservation"
      ensures HasFile(KeptRecords(h, rs), policy[i].relative + PLISTS[k])
    {
      KeptHasFile(h, rs, policy[i].relative + PLISTS[k]);
    }
    forall k | 0 <= k < |MANDATORY|
      ensures HasEntryAt(KeptRecords(h, rs), MANDATORY[k])
    {
      KeptHasEntryAt(h, rs, MANDATORY[k]);
    }
  }

  lemma CopyNamesKnown(s: Setup, held: set<Path>, roots: Roots, device: nat, copy: Roots)
    requires Backup(s, held, roots, device, copy)
    ensures NamesKnown({}, copy) && ControlOk(copy.state, {}) && TasksOk(s.host, copy.state, {})
  {
    hide Records, Policy, ProblemFree, Known, IsCopy, W.ListNames;
    ReadyIsClosed(s, held, roots);
    StateListsAlike(s, held, roots, device, copy);
    forall n | n in Children(copy.agents, []) ensures AgentNameOk(n) { CopiedAgent(s, held, roots, device, copy, n); }
    forall n | n in Children(copy.worker, [])
      ensures WorkerNameOk(copy.worker, n)
    {
      CopiedWorker(s, held, roots, device, copy, n);
    }
    assert [CONTROL] !in copy.state by { StateNameAlike(s, held, roots, device, copy, CONTROL); }
    if [TASKS] in copy.state { CopyTasksOk(s, held, roots, device, copy); }
  }

  lemma CopiedAgent(s: Setup, held: set<Path>, roots: Roots, device: nat, copy: Roots, n: Name)
    requires Backup(s, held, roots, device, copy) && n in Children(copy.agents, [])
    ensures AgentNameOk(n)
  {
    hide Backup;
    assert [] + [n] == [n] && copy.At(W.AgentsRoot) == copy.agents;
    CopiedStart(s, held, roots, device, copy, W.AgentsRoot, n);
  }

  lemma CopiedWorker(s: Setup, held: set<Path>, roots: Roots, device: nat, copy: Roots, n: Name)
    requires Backup(s, held, roots, device, copy) && n in Children(copy.worker, [])
    ensures WorkerNameOk(copy.worker, n)
  {
    hide Backup;
    assert [] + [n] == [n] && copy.At(W.WorkerRoot) == copy.worker;
    CopiedStart(s, held, roots, device, copy, W.WorkerRoot, n);
  }

  lemma CopyTasksOk(s: Setup, held: set<Path>, roots: Roots, device: nat, copy: Roots)
    requires Backup(s, held, roots, device, copy) && [TASKS] in copy.state
    ensures TasksOk(s.host, copy.state, {})
  {
    hide Records, Policy, ProblemFree, IsCopy;
    TasksListAlike(s, held, roots, device, copy);
    RootRecordAlike(s, held, roots, device, copy);
    TasksNeedDirectory(s, held, roots, device, copy);
    forall n | n in W.ListNames(copy.state, {}, [TASKS]) ensures TaskNameOk(s.host, copy.state, n) {
      ResidueAlike(s, held, roots, device, copy, n, STORE[1]);
      ResidueAlike(s, held, roots, device, copy, n, EVENTS[1]);
    }
  }

  /** The copied agents and worker roots hold only what their families start from. */
  lemma CopiedStart(s: Setup, held: set<Path>, roots: Roots, device: nat, copy: Roots, root: W.Root, n: Name)
    requires Backup(s, held, roots, device, copy) && root != W.StateRoot && [n] in copy.At(root)
    ensures root == W.AgentsRoot ==> [n] in PLISTS
    ensures root == W.WorkerRoot ==> n == "config.json"
  {
    hide Records, PolicyOf, ProblemFree, From, InspectLink;
    ReadyIsWalked(s, held, roots);
    CopyAt(s.host, Records(s, held, roots), roots, device, copy, root);
    var r := CopiedRecord(Records(s, held, roots), root, [n]);
    if Fixed(held, roots, r) { FixedPlace(held, roots, r); }
    var i, p := Origin(s, held, roots, r);
    FromPlace(s, held, roots, i, p, r);
    StartShape(s, held, roots, i, p);
    assert p == [n];
  }

  /** BACKUP ROUND TRIP, for every link policy and every choice of exclusions. The copy of a problem-free source has the
      same families, and inspects without problems to the same records in the same order, exclusions left out, if and
      only if every recorded link stays. */
  lemma BackupRoundTrip(s: Setup, held: set<Path>, roots: Roots, device: nat, copy: Roots)
    requires Ready(s, held, roots) && AreCopies(s.host, Records(s, held, roots), roots, device, copy)
    ensures Sound(copy)
    ensures var again, first := InspectCoverage(s, {}, copy), InspectCoverage(s, held, roots);
            && again.families == first.families && again.volumes == [device, device, device]
            && (LinksStay(first.records, roots, s.options.policy) <==>
                again.problems == [] && again.records == KeptRecords(s.host, first.records))
  {
    hide Records, Policy, IsCopy, AllFamilyProblems, ProblemFree, LinksStay;
    CopyIsSound(s, held, roots, device, copy);
    StateListsAlike(s, held, roots, device, copy);
    CopyVolumes(s.host, Records(s, held, roots), roots, device, copy);
    EmptyProblems(s, {}, copy);
    if LinksStay(Records(s, held, roots), roots, s.options.policy) {
      SteadyIsAlike(s, held, roots, device, copy);
    } else if ProblemFree(s, {}, copy) && Records(s, {}, copy) == KeptRecords(s.host, Records(s, held, roots)) {
      AlikeIsSteady(s, held, roots, device, copy);
    }
  }

  lemma SteadyIsAlike(s: Setup, held: set<Path>, roots: Roots, device: nat, copy: Roots)
    requires Steady(s, held, roots, device, copy)
    ensures ProblemFree(s, {}, copy) && Records(s, {}, copy) == KeptRecords(s.host, Records(s, held, roots))
  {
    hide Records, Policy, IsCopy, AllFamilyProblems, LinksStay, WellFormed;
    RecordsAlike(s, held, roots, device, copy);
    CopyNamesKnown(s, held, roots, device, copy);
    FamiliesAlike(s, held, roots, device, copy, 0);
    var policy := PolicyOf(held, roots);
    assert policy[0..] == policy;
    KeptTargets(s.host, Records(s, held, roots));
    KeptRequirements(s.host, Records(s, held, roots), policy);
  }

  lemma AlikeIsSteady(s: Setup, held: set<Path>, roots: Roots, device: nat, copy: Roots)
    requires Backup(s, held, roots, device, copy) && ProblemFree(s, {}, copy)
    requires Records(s, {}, copy) == KeptRecords(s.host, Records(s, held, roots))
    ensures LinksStay(Records(s, held, roots), roots, s.options.policy)
  {
    hide Records, Policy, IsCopy, LinkStays, InspectLink, FamilyReport, PLISTS, MANDATORY, Sound;
    forall r | r in Records(s, held, roots) && LinkRecord(r)
      ensures LinkStays(Records(s, held, roots), roots.At(r.root), s.options.policy, r)
    {
      KeptRecordHolds(s.host, Records(s, held, roots), r);
      ConfirmedLinkStays(s, held, roots, device, copy, r, RenewedRecord(s.host, r));
    }
  }

  /** A link that the inspection of the copy describes as the source's did stays. */
  lemma ConfirmedLinkStays(s: Setup, held: set<Path>, roots: Roots, device: nat, copy: Roots, r: Record, seen: Record)
    requires Backup(s, held, roots, device, copy) && Walked(s, {}, copy)
    requires r in Records(s, held, roots) && LinkRecord(r) && seen in Records(s, {}, copy) && LinkRecord(seen)
    requires seen.root == r.root && seen.item.at == r.item.at && seen.item.detail == r.item.detail
    ensures LinkStays(Records(s, held, roots), roots.At(r.root), s.options.policy, r)
  {
    hide Records, Policy, IsCopy, LinkStays, ProblemFree, Walked;
    ReadyIsWalked(s, held, roots);
    RecordedLink(s, held, roots, r);
    RecordedLink(s, {}, copy, seen);
    LinkIsAlike(s, held, roots, device, copy, r);
  }

  lemma CopyVolumes(h: W.Host, records: seq<Record>, roots: Roots, device: nat, copy: Roots)
    requires AreCopies(h, records, roots, device, copy)
    ensures [] in copy.state && [] in copy.agents && [] in copy.worker
    ensures copy.state[[]].device == device && copy.agents[[]].device == device && copy.worker[[]].device == device
  {
    forall root: W.Root ensures [] in copy.At(root) && copy.At(root)[[]].device == device {
      CopyAt(h, records, roots, device, copy, root);
      if Copied(records, root, []) { var r := CopiedRecord(records, root, []); }
    }
    assert [] in copy.At(W.StateRoot) && [] in copy.At(W.AgentsRoot) && [] in copy.At(W.WorkerRoot);
    assert copy.At(W.StateRoot)[[]].device == device && copy.At(W.AgentsRoot)[[]].device == device
        && copy.At(W.WorkerRoot)[[]].device == device;
  }

  lemma CopyOfCopyAt(h: W.Host, records: seq<Record>, t: Tree, root: W.Root, device: nat, a: Tree, b: Tree)
    requires IsCopy(h, records, t, root, device, a) && IsCopy(h, records, a, root, device, b)
    ensures b == a
  {
    hide Copied;
    forall p | p in a ensures p in b && a[p] == b[p] {
      if Copied(records, root, p) { var r := CopiedRecord(records, root, p); }
    }
    assert a.Keys == b.Keys;
  }

  /** Copying the copy again gives the same tree. */
  lemma CopyOfCopyIsCopy(h: W.Host, records: seq<Record>, roots: Roots, device: nat, copy: Roots, twice: Roots)
    requires AreCopies(h, records, roots, device, copy) && AreCopies(h, records, copy, device, twice)
    ensures twice == copy
  {
    hide IsCopy;
    forall root: W.Root ensures twice.At(root) == copy.At(root) {
      CopyAt(h, records, roots, device, copy, root);
      CopyAt(h, records, copy, device, twice, root);
      CopyOfCopyAt(h, records, roots.At(root), root, device, copy.At(root), twice.At(root));
    }
    assert twice.At(W.StateRoot) == copy.At(W.StateRoot) && twice.At(W.AgentsRoot) == copy.At(W.AgentsRoot)
        && twice.At(W.WorkerRoot) == copy.At(W.WorkerRoot);
  }
}
