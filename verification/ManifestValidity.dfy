/** validateManifest: the structural checks a stored manifest must pass before it is trusted, and exactly which
    manifests of problem-free inspections pass them. */
module ManifestValidity {
  import opened FileTree
  import opened Names
  import opened Exclusions
  import opened AtomicNames
  import W = CoverageWalk
  import opened Families
  import opened Coverage
  import opened CoverageTheorems
  import opened ManifestDistinct
  import C = CoverageCopy

  /** Clean relative names. */
  predicate CleanPath(p: Path) {
    forall i :: 0 <= i < |p| ==> ValidName(p[i])
  }

  /** The entry sits where its family may have entries: at or under the family's place, or, marked as residue, beside
      the family's file under a temporary name of that file. */
  predicate InFamily(h: W.Host, f: W.Family, e: Record) {
    && e.family == f.id && e.root == f.root
    && (f.relative <= e.item.at
        || (&& Marked(e.item) && e.item.at != [] && f.relative != [] && Parent(e.item.at) == Parent(f.relative)
            && TemporaryOf(Last(e.item.at)).Some? && TemporaryOf(Last(e.item.at)).value.base == Last(f.relative)))
  }

  predicate Marked(i: W.Item) {
    i.Entry? && i.detail.FileDetail? && i.detail.residue
  }

  predicate ValidEntry(h: W.Host, policy: seq<W.Family>, e: Record) {
    && e.item.at != [] && CleanPath(e.item.at) && SafePath(e.item.at)
    && (exists i :: 0 <= i < |policy| && InFamily(h, policy[i], e))
    && (Marked(e.item) ==> TemporaryOf(Last(e.item.at)).Some?)
  }

  /** A recorded exclusion: in the state root, by a rule the options switch on, where that rule may reach. */
  predicate ValidExclusion(ctx: Context, x: Record) {
    && x.root == W.StateRoot && x.item.Excluded?
    && if OwnerRule(x.item.rule) then ctx.owner && PrefixAllowed(x.item.at)
       else ctx.currentOnly && |x.item.at| == 3 && x.item.at[..2] == ["runtime", "releases"]
  }

  predicate EntryUnder(records: seq<Record>, x: Record) {
    exists k :: 0 <= k < |records| && records[k].item.Entry? && records[k].root == x.root
        && x.item.at <= records[k].item.at
  }

  predicate FamilyHasEntry(records: seq<Record>, f: W.Family) {
    exists k :: 0 <= k < |records| && records[k].item.Entry? && records[k].family == f.id
  }

  predicate ValidManifest(h: W.Host, ctx: Context, m: Manifest) {
    && m.problems == []
    && (exists k :: 0 <= k < |m.records| && IsStateRoot(m.records[k]) && m.families == Policy(m.records[k].item.names))
    && DistinctRecords(m.records)
    && (forall k :: 0 <= k < |m.records| && m.records[k].item.Excluded? ==>
          ValidExclusion(ctx, m.records[k]) && !EntryUnder(m.records, m.records[k]))
    && (forall k :: 0 <= k < |m.records| && m.records[k].item.Entry? ==> ValidEntry(h, m.families, m.records[k]))
    && (forall i :: 0 <= i < |m.families| && m.families[i].required ==> FamilyHasEntry(m.records, m.families[i]))
    && MandatoryPresent(m.records)
    && (forall k :: 0 <= k < |m.records| && m.records[k].item.Directory? ==> ValidDirectory(m.records[k].item))
  }

  /** A recorded directory: a path without dots, also between backslashes, and names that are names even then. */
  predicate ValidDirectory(i: W.Item)
    requires i.Directory?
  {
    && CleanPath(i.at) && (forall k :: 0 <= k < |i.at| ==> "." !in Pieces(i.at[k]) && ".." !in Pieces(i.at[k]))
    && (forall k :: 0 <= k < |i.names| ==> Plain(i.names[k]) && i.names[k] != "." && i.names[k] != "..")
  }

  /** No recorded directory lists a name with a backslash. */
  predicate PlainListings(records: seq<Record>) {
    forall k :: 0 <= k < |records| && records[k].item.Directory? ==> PlainNames(records[k].item.names)
  }

  predicate PlainNames(names: seq<Name>) {
    forall i :: 0 <= i < |names| ==> '\\' !in names[i]
  }

  predicate IsStateRoot(r: Record) {
    r.root == W.StateRoot && r.item.Directory? && r.item.at == []
  }

  // ---------------------------------------------------------------- each check in turn

  lemma RecordIsClean(s: Setup, held: set<Path>, roots: Roots, r: Record)
    requires Sound(roots) && Walked(s, held, roots) && r in Records(s, held, roots)
    ensures CleanPath(r.item.at)
  {
    hide Records, PolicyOf, Walked, From;
    if Fixed(held, roots, r) {
      FixedPlace(held, roots, r);
    } else {
      var i, p := Origin(s, held, roots, r);
      FromPlace(s, held, roots, i, p, r);
    }
    assert WellFormed(roots.At(r.root));
    NamesOnTheWay(roots.At(r.root), r.item.at);
  }

  predicate PlainPath(p: Path) {
    forall i :: 0 <= i < |p| ==> '\\' !in p[i]
  }

  lemma PlainPathIsSafe(p: Path)
    requires PlainPath(p) && CleanPath(p)
    ensures SafePath(p) && forall k :: 0 <= k < |p| ==> "." !in Pieces(p[k]) && ".." !in Pieces(p[k])
  {
    forall k | 0 <= k < |p| ensures Pieces(p[k]) == [p[k]] {}
  }

  /** The directory above a walked record lists it. */
  lemma ParentLists(s: Setup, held: set<Path>, roots: Roots, i: nat, p: Path, r: Record) returns (d: Record)
    requires Sound(roots) && Walked(s, held, roots) && From(s, held, roots, i, p, r) && p < r.item.at
    requires !r.item.Excluded?
    ensures d in Records(s, held, roots) && d.item.Directory? && d.item.at == Parent(r.item.at)
    ensures Last(r.item.at) in d.item.names
  {
    hide Records, PolicyOf, Walked, W.Visit, W.Inspect;
    var f := PolicyOf(held, roots)[i];
    var w, t, q := WalkOf(s, held, f), roots.At(f.root), Parent(r.item.at);
    assert Hangs(t, r.item.at) && W.Open(w, p, q);
    W.ReachedIsClear(w, t, p, q);
    W.ClearInspect(w, t, q);
    d := Record(f.id, f.root, W.Inspect(w, t, q).items[0]);
    assert W.Inspect(w, t, q).items == [d.item];
    assert From(s, held, roots, i, p, d);
    RecordsAre(s, held, roots, d);
    RecordIsListed(w, t, p, r.item);
  }

  lemma RecordIsListed(w: W.Walk, t: Tree, top: Path, r: W.Item)
    requires WellFormed(t) && W.Records(w, t, top, r) && top < r.at && !r.Excluded?
    requires W.Clear(W.Inspect(w, t, Parent(r.at))) && W.Clear(W.Visit(w, t, top)) && IsDirectory(t, Parent(r.at))
    ensures W.Inspect(w, t, Parent(r.at)).items[0].Directory?
    ensures Last(r.at) in W.Inspect(w, t, Parent(r.at)).items[0].names
  {
    hide W.Visit, W.Inspect, WellFormed;
    var q, n := Parent(r.at), Last(r.at);
    assert q + [n] == r.at;
    W.ReachedIsClear(w, t, top, r.at);
    W.ClearInspect(w, t, r.at);
    W.ClearInspect(w, t, q);
    assert W.Open(w, top, q);
    W.InspectDescribes(w, t, W.Inspect(w, t, q).items[0]);
    W.ListedNames(t, w.held, q);
    C.KeepFilters(w, q, W.ListNames(t, w.held, q));
  }

  lemma PlistsArePlain()
    ensures forall p :: p in PLISTS ==> PlainPath(p)
  {
    var prefix := SERVICE_PREFIX;
    assert Plain(prefix) && Plain("coordinator.plist") && Plain("worker.plist") && Plain("gateway.plist");
    assert Plain("node.plist") && Plain("oauth-canary.plist");
  }

  lemma StartIsPlain(s: Setup, held: set<Path>, roots: Roots, i: nat, p: Path)
    requires Sound(roots) && IsStart(s, held, roots, i, p) && p in roots.At(PolicyOf(held, roots)[i].root)
    requires PlainListings(Records(s, held, roots))
    ensures PlainPath(p)
  {
    hide PolicyOf, Records, W.ListNames, IsResidue, Plain;
    StartShape(s, held, roots, i, p);
    PlistsArePlain();
    MoreNamesArePlain();
    var f := PolicyOf(held, roots)[i];
    if f.root == W.StateRoot {
      if |p| == 1 {
        TopStartIsPlain(s, held, roots, i);
      } else if p != f.relative {
        assert Hangs(roots.state, p) && Parent(p) == [TASKS];
        TasksListed(s, held, roots);
        assert p == [TASKS, p[1]];
      }
    }
  }

  lemma TasksListed(s: Setup, held: set<Path>, roots: Roots)
    requires Sound(roots) && IsDirectory(roots.state, [TASKS]) && PlainListings(Records(s, held, roots))
    ensures PlainNames(W.ListNames(roots.state, held, [TASKS]))
  {
    hide FamilyRecords, Policy;
    var r := TasksRecord(roots.state, held)[0];
    assert r == Records(s, held, roots)[1];
  }

  lemma TopStartIsPlain(s: Setup, held: set<Path>, roots: Roots, i: nat)
    requires Sound(roots) && i < |PolicyOf(held, roots)| && PolicyOf(held, roots)[i].root == W.StateRoot
    requires |PolicyOf(held, roots)[i].relative| == 1 && PlainListings(Records(s, held, roots))
    ensures PlainPath(PolicyOf(held, roots)[i].relative)
  {
    hide Records, Policy;
    var names := StateNames(roots.state, held);
    PolicyIsPlain(names, i);
    RootComesFirst(s, held, roots);
    assert PlainNames(Records(s, held, roots)[0].item.names);
  }

  lemma TasksIsPlain()
    ensures PlainPath([TASKS]) && PlainPath([])
  {
    MoreNamesArePlain();
  }

  lemma ListedIsPlain(records: seq<Record>, d: Record, n: Name)
    requires PlainListings(records) && d in records && d.item.Directory? && n in d.item.names
    ensures '\\' !in n
  {
    var k :| 0 <= k < |records| && records[k] == d;
    assert PlainNames(d.item.names);
  }

  /** A recorded path is plain, or hangs under a listed name in a recorded directory. */
  lemma PlainOrListed(s: Setup, held: set<Path>, roots: Roots, r: Record)
    returns (plain: bool, d: Record)
    requires Sound(roots) && Walked(s, held, roots) && r in Records(s, held, roots) && !r.item.Excluded?
    requires PlainListings(Records(s, held, roots))
    ensures plain ==> PlainPath(r.item.at)
    ensures !plain ==> && d in Records(s, held, roots) && d.item.Directory? && r.item.at != []
                       && d.item.at == Parent(r.item.at) && Last(r.item.at) in d.item.names
  {
    hide Records, PolicyOf, Walked, From, PlainListings, PlainPath, StateStart, IsStart, RootRecord, TasksRecord,
         Starts, W.Inspect;
    plain, d := true, r;
    if Fixed(held, roots, r) {
      FixedPlace(held, roots, r);
      TasksIsPlain();
    } else {
      var i, p := Origin(s, held, roots, r);
      FromPlace(s, held, roots, i, p, r);
      if p == r.item.at {
        StartIsPlain(s, held, roots, i, p);
      } else {
        d := ParentLists(s, held, roots, i, p, r);
        plain := false;
      }
    }
  }

  /** Where every listed name is plain, every recorded path is. */
  lemma {:induction false} RecordIsPlain(s: Setup, held: set<Path>, roots: Roots, r: Record)
    requires Sound(roots) && Walked(s, held, roots) && r in Records(s, held, roots) && !r.item.Excluded?
    requires PlainListings(Records(s, held, roots))
    ensures PlainPath(r.item.at)
    decreases |r.item.at|
  {
    hide Records, Walked, PlainListings, PlainPath, WellFormed;
    var plain, d := PlainOrListed(s, held, roots, r);
    if !plain {
      RecordIsPlain(s, held, roots, d);
      ListedIsPlain(Records(s, held, roots), d, Last(r.item.at));
      PlainStep(d.item.at, Last(r.item.at));
      assert r.item.at == d.item.at + [Last(r.item.at)];
    }
  }

  lemma PlainStep(p: Path, n: Name)
    requires PlainPath(p) && '\\' !in n
    ensures PlainPath(p + [n])
  {
  }

  /** What a walk records as an entry is one file or link, and a file is marked as residue exactly when it is. */
  lemma EntryIsMarked(w: W.Walk, t: Tree, i: W.Item)
    requires WellFormed(t) && i.at in t && i.at != [] && W.Inspect(w, t, i.at).items == [i] && i.Entry?
    ensures Marked(i) <==>
            t[i.at].kind.Regular? && !W.OpaquePayload(w.family.id, i.at)
                && W.Orphaned(w.host, Last(i.at), t[i.at].mtime)
    ensures !t[i.at].kind.Directory?
  {
  }

  lemma EntryIsValid(s: Setup, held: set<Path>, roots: Roots, r: Record)
    requires Sound(roots) && Walked(s, held, roots) && r in Records(s, held, roots) && r.item.Entry?
    requires PlainListings(Records(s, held, roots))
    ensures ValidEntry(s.host, PolicyOf(held, roots), r)
  {
    hide Records, PolicyOf, Walked, W.Inspect, PlainListings, PlainPath, CleanPath, SafePath, InFamily, Marked;
    RecordIsClean(s, held, roots, r);
    RecordIsPlain(s, held, roots, r);
    PlainPathIsSafe(r.item.at);
    var i := EntryHasFamily(s, held, roots, r);
  }

  /** The entry lies in the family whose walk recorded it. */
  lemma EntryHasFamily(s: Setup, held: set<Path>, roots: Roots, r: Record) returns (i: nat)
    requires Sound(roots) && Walked(s, held, roots) && r in Records(s, held, roots) && r.item.Entry?
    ensures r.item.at != [] && i < |PolicyOf(held, roots)| && InFamily(s.host, PolicyOf(held, roots)[i], r)
    ensures Marked(r.item) ==> TemporaryOf(Last(r.item.at)).Some?
  {
    hide Records, PolicyOf, Walked, W.Visit, W.Inspect, W.OpaquePayload, StateStart, Starts, PLISTS;
    if Fixed(held, roots, r) { FixedPlace(held, roots, r); }
    var p: Path;
    i, p := Origin(s, held, roots, r);
    FromPlace(s, held, roots, i, p, r);
    StartShape(s, held, roots, i, p);
    var f := PolicyOf(held, roots)[i];
    EntryIsMarked(WalkOf(s, held, f), roots.At(f.root), r.item);
    if !(f.relative <= p) { ResidueIsInFamily(s, held, roots, i, p, r); }
  }

  /** A start that is not the family's own place is a dead writer's file, recorded as residue. */
  lemma ResidueIsInFamily(s: Setup, held: set<Path>, roots: Roots, i: nat, p: Path, r: Record)
    requires Sound(roots) && From(s, held, roots, i, p, r) && r.item.Entry? && !(PolicyOf(held, roots)[i].relative <= p)
    ensures InFamily(s.host, PolicyOf(held, roots)[i], r)
  {
    hide PolicyOf, W.Visit, W.Inspect, W.OpaquePayload, W.ListNames, RuleFor, Shaped, Policy, ReadHead, IsTail, Starts,
         WellFormed;
    var f := PolicyOf(held, roots)[i];
    var w, t := WalkOf(s, held, f), roots.At(f.root);
    FromPlace(s, held, roots, i, p, r);
    StartShape(s, held, roots, i, p);
    assert f.root == W.StateRoot && p[0] == TASKS && IsResidue(s.host, roots.state, p[1], f.relative[1]);
    assert p == [TASKS, p[1]] && Parent(p) == [TASKS] == Parent(f.relative) && Last(p) == p[1];
    W.NothingBelow(w, t, p, r.item.at);
    assert r.item.at == p;
    EntryIsMarked(w, t, r.item);
    TaskFamiliesAreOpen(f, p);
  }

  lemma TaskFamiliesAreOpen(f: W.Family, p: Path)
    requires Shaped(f) && f.relative in {STORE, EVENTS} && |p| == 2
    ensures !W.OpaquePayload(f.id, p)
  {
    assert "tasks"[0] == 't' && "events"[0] == 'e' && "compatibility"[0] == 'c';
  }

  lemma ExclusionIsValid(s: Setup, held: set<Path>, roots: Roots, x: Record)
    requires Sound(roots) && Walked(s, held, roots) && x in Records(s, held, roots) && x.item.Excluded?
    ensures ValidExclusion(s.options.ctx, x) && !EntryUnder(Records(s, held, roots), x)
  {
    hide Records, Walked, ValidExclusion, From, Policy, Starts;
    if Fixed(held, roots, x) { FixedPlace(held, roots, x); }
    var i, p := Origin(s, held, roots, x);
    FromRuleIsValid(s, held, roots, i, p, x);
    var records := Records(s, held, roots);
    forall k | 0 <= k < |records| && records[k].root == x.root && x.item.at <= records[k].item.at
      ensures !records[k].item.Entry?
    {
      NothingInsideExclusion(s, held, roots, x, records[k]);
    }
  }

  lemma FromRuleIsValid(s: Setup, held: set<Path>, roots: Roots, i: nat, p: Path, x: Record)
    requires Sound(roots) && From(s, held, roots, i, p, x) && x.item.Excluded?
    ensures ValidExclusion(s.options.ctx, x)
  {
    hide PolicyOf, W.Visit, W.Inspect, RuleFor, PrefixAllowed, Shaped;
    FromPlace(s, held, roots, i, p, x);
    StartShape(s, held, roots, i, p);
    var f := PolicyOf(held, roots)[i];
    var w, t := WalkOf(s, held, f), roots.At(f.root);
    ExcludedIsClear(s, held, roots, i, p, x);
    RuleIsRecorded(w, t, x.item);
    assert WellFormed(t);
    NamesOnTheWay(t, x.item.at);
    RulesStayClear(f.id, x.item.at, s.options.ctx);
    OnlyStateIsExcluded(f, x.item.at, s.options.ctx);
  }

  lemma RuleIsRecorded(w: W.Walk, t: Tree, x: W.Item)
    requires WellFormed(t) && W.Inspect(w, t, x.at).items == [x] && x.Excluded? && W.Clear(W.Inspect(w, t, x.at))
    ensures RuleFor(w.family.id, x.at, w.options.ctx) == Some(x.rule)
  {
  }

  lemma OnlyStateIsExcluded(f: W.Family, p: Path, ctx: Context)
    requires Shaped(f) && RuleFor(f.id, p, ctx).Some?
    ensures f.root == W.StateRoot
  {
    assert "services"[0] == 's' && "worker"[0] == 'w' && "compatibility"[0] == 'c' && "checkpoints"[0] == 'c'
        && "runtime"[0] == 'r';
  }

  lemma FamilyRecordIsRecord(s: Setup, held: set<Path>, roots: Roots, r: Record)
    requires Sound(roots) && r in FamilyRecords(s, held, roots, PolicyOf(held, roots))
    ensures r in Records(s, held, roots)
  {
    hide FamilyRecords, Policy;
  }

  lemma RequiredIsPresent(s: Setup, held: set<Path>, roots: Roots, i: nat)
    requires Sound(roots) && Walked(s, held, roots) && i < |PolicyOf(held, roots)| && PolicyOf(held, roots)[i].required
    ensures FamilyHasEntry(Records(s, held, roots), PolicyOf(held, roots)[i])
  {
    hide PolicyOf, Walked, W.Visit, FamilyReport, W.Inspect;
    FamilyWalk(s, held, roots, i);
    var f := PolicyOf(held, roots)[i];
    var items := FamilyReport(s, held, roots, f).items;
    var j :| 0 <= j < |items| && items[j].Entry?;
    var r := Record(f.id, f.root, items[j]);
    FamilyRecordsAre(s, held, roots, PolicyOf(held, roots), r);
    FamilyRecordIsRecord(s, held, roots, r);
    var k :| 0 <= k < |Records(s, held, roots)| && Records(s, held, roots)[k] == r;
  }

  lemma DirectoryIsValid(s: Setup, held: set<Path>, roots: Roots, k: nat)
    requires Sound(roots) && Walked(s, held, roots) && k < |Records(s, held, roots)|
    requires Records(s, held, roots)[k].item.Directory?
    requires PlainListings(Records(s, held, roots))
    ensures ValidDirectory(Records(s, held, roots)[k].item)
  {
    hide Records, Walked, PolicyOf;
    var r := Records(s, held, roots)[k];
    RecordIsClean(s, held, roots, r);
    RecordIsPlain(s, held, roots, r);
    PlainPathIsSafe(r.item.at);
    forall j | 0 <= j < |r.item.names| ensures ValidName(r.item.names[j]) { ListedIsName(s, held, roots, r, j); }
    assert PlainNames(r.item.names);
  }

  /** Listed names are names. */
  lemma ListedIsName(s: Setup, held: set<Path>, roots: Roots, r: Record, j: nat)
    requires Sound(roots) && Walked(s, held, roots) && r in Records(s, held, roots) && r.item.Directory?
    requires j < |r.item.names|
    ensures ValidName(r.item.names[j])
  {
    hide Records, Walked, PolicyOf, From, RootRecord, TasksRecord;
    var t, n := roots.At(r.root), r.item.names[j];
    assert n in r.item.names;
    if Fixed(held, roots, r) {
      FixedListed(held, roots, r, n);
    } else {
      var i, p := Origin(s, held, roots, r);
      WalkedListed(s, held, roots, i, p, r, n);
    }
    assert WellFormed(t);
    assert Hangs(t, r.item.at + [n]) && Last(r.item.at + [n]) == n;
  }

  lemma WalkedListed(s: Setup, held: set<Path>, roots: Roots, i: nat, p: Path, r: Record, n: Name)
    requires Sound(roots) && From(s, held, roots, i, p, r) && r.item.Directory? && n in r.item.names
    ensures r.item.at + [n] in roots.At(r.root)
  {
    hide PolicyOf, W.Visit, W.Inspect, WellFormed, W.Reached;
    var w, t := WalkOf(s, held, PolicyOf(held, roots)[i]), roots.At(r.root);
    W.InspectDescribes(w, t, r.item);
    W.ListedNames(t, w.held, r.item.at);
    C.KeepFilters(w, r.item.at, W.ListNames(t, w.held, r.item.at));
  }

  lemma FixedListed(held: set<Path>, roots: Roots, r: Record, n: Name)
    requires Sound(roots) && Fixed(held, roots, r) && n in r.item.names
    ensures r.root == W.StateRoot && r.item.at + [n] in roots.state
  {
    FixedPlace(held, roots, r);
    W.ListedNames(roots.state, held, [TASKS]);
    var names := StateNames(roots.state, held);
    assert n in names ==> n in Elements(names);
    assert [] + [n] == [n];
  }

  /** WHICH MANIFESTS ARE VALID. The manifest of a problem-free inspection, under every option setting, passes
      validation if and only if no directory it records lists a name with a backslash. */
  lemma ProblemFreeIsValid(s: Setup, held: set<Path>, roots: Roots)
    requires Sound(roots) && InspectCoverage(s, held, roots).problems == []
    ensures ValidManifest(s.host, s.options.ctx, InspectCoverage(s, held, roots)) <==>
            PlainListings(InspectCoverage(s, held, roots).records)
  {
    hide Records, Policy, ValidManifest, PlainListings, ProblemFree;
    EmptyProblems(s, held, roots);
    if PlainListings(Records(s, held, roots)) { PlainIsValid(s, held, roots, InspectCoverage(s, held, roots)); }
    if ValidManifest(s.host, s.options.ctx, InspectCoverage(s, held, roots)) {
      ValidIsPlain(s.host, s.options.ctx, InspectCoverage(s, held, roots));
    }
  }

  lemma ValidIsPlain(h: W.Host, ctx: Context, m: Manifest)
    requires ValidManifest(h, ctx, m)
    ensures PlainListings(m.records)
  {
    hide ValidEntry, ValidExclusion, EntryUnder, FamilyHasEntry, DistinctRecords, MandatoryPresent, Policy, IsStateRoot;
    forall k | 0 <= k < |m.records| && m.records[k].item.Directory? ensures PlainNames(m.records[k].item.names) {
      assert ValidDirectory(m.records[k].item);
    }
  }

  lemma PlainIsValid(s: Setup, held: set<Path>, roots: Roots, m: Manifest)
    requires Sound(roots) && ProblemFree(s, held, roots) && PlainListings(Records(s, held, roots))
    requires m.records == Records(s, held, roots) && m.families == PolicyOf(held, roots) && m.problems == []
    ensures ValidManifest(s.host, s.options.ctx, m)
  {
    hide Records, PolicyOf, ProblemFree, ValidEntry, ValidExclusion, EntryUnder, FamilyHasEntry, DistinctRecords,
         PlainListings, ValidDirectory, MandatoryPresent, IsStateRoot, Policy, StateNames, W.Inspect, W.Visit,
         WellFormed;
    var records, policy := m.records, m.families;
    Unproblematic(s, held, roots);
    ManifestIsDistinct(s, held, roots);
    RootComesFirst(s, held, roots);
    forall k | 0 <= k < |records|
      ensures records[k].item.Excluded? ==>
        ValidExclusion(s.options.ctx, records[k]) && !EntryUnder(records, records[k])
      ensures records[k].item.Entry? ==> ValidEntry(s.host, policy, records[k])
      ensures records[k].item.Directory? ==> ValidDirectory(records[k].item)
    {
      if records[k].item.Excluded? { ExclusionIsValid(s, held, roots, records[k]); }
      if records[k].item.Entry? { EntryIsValid(s, held, roots, records[k]); }
      if records[k].item.Directory? { DirectoryIsValid(s, held, roots, k); }
    }
    forall i | 0 <= i < |policy| && policy[i].required ensures FamilyHasEntry(records, policy[i]) {
      RequiredIsPresent(s, held, roots, i);
    }
  }

  lemma Unproblematic(s: Setup, held: set<Path>, roots: Roots)
    requires Sound(roots) && ProblemFree(s, held, roots)
    ensures Walked(s, held, roots) && MandatoryPresent(Records(s, held, roots))
  {
    hide Records, Policy;
  }

  lemma RootComesFirst(s: Setup, held: set<Path>, roots: Roots)
    requires Sound(roots)
    ensures Records(s, held, roots) != [] && IsStateRoot(Records(s, held, roots)[0])
    ensures Records(s, held, roots)[0].item.names == StateNames(roots.state, held)
    ensures Policy(Records(s, held, roots)[0].item.names) == PolicyOf(held, roots)
  {
    hide Policy, StateNames, FamilyRecords, TasksRecord;
  }
}
