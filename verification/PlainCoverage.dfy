/** The inspection in plain terms: exactly when it reports no problem, exactly what it then records, and what it says
    about locks and writes in progress. Nothing here is stated through the functions of the inspection. */
module PlainCoverage {
  import opened FileTree
  import opened Names
  import opened LinkInspection
  import opened Exclusions
  import opened AtomicNames
  import W = CoverageWalk
  import opened Families
  import opened Coverage
  import opened CoverageTheorems
  import opened PlainRules
  import opened PlainWalk
  import opened PlainFamilies

  // ---------------------------------------------------------------- the families of a state root

  /** A family of the table, or a preserved directory that is there. */
  ghost predicate FamilyOf(state: Tree, held: set<Path>, f: W.Family) {
    || f in FAMILIES
    || exists n :: [n] in state && [n] !in held && Preserves(n) && f == Required("historical-preservation", [n])
  }

  lemma FamilyOfIs(held: set<Path>, roots: Roots, f: W.Family)
    ensures f in PolicyOf(held, roots) <==> FamilyOf(roots.state, held, f)
  {
    hide Policy, FAMILIES, Preserves, StateNames;
    var names := StateNames(roots.state, held);
    PolicyIs(names, f);
    forall n | Preserves(n) ensures n in names <==> [n] in roots.state && [n] !in held {
      StateNamesAre(roots.state, held, n);
      PreservesNoControl(n);
    }
  }

  lemma PreservesNoControl(n: Name)
    requires Preserves(n)
    ensures n != "checkpoint" && n != "" && n[0] == 'm'
  {
  }

  lemma FamilyAt(held: set<Path>, roots: Roots, f: W.Family) returns (i: nat)
    requires FamilyOf(roots.state, held, f)
    ensures i < |PolicyOf(held, roots)| && PolicyOf(held, roots)[i] == f
  {
    hide FamilyOf, PolicyOf;
    FamilyOfIs(held, roots, f);
    i :| 0 <= i < |PolicyOf(held, roots)| && PolicyOf(held, roots)[i] == f;
  }

  lemma IsOneOfThem(held: set<Path>, roots: Roots, i: nat)
    requires i < |PolicyOf(held, roots)|
    ensures FamilyOf(roots.state, held, PolicyOf(held, roots)[i])
    ensures PolicyOf(held, roots)[i].id == "services" ==> PolicyOf(held, roots)[i] == SERVICES
  {
    hide FamilyOf, Policy;
    FamilyOfIs(held, roots, PolicyOf(held, roots)[i]);
    PolicyShaped(StateNames(roots.state, held), i);
    ServicesId(PolicyOf(held, roots)[i]);
  }

  ghost predicate FamiliesFine(s: Setup, held: set<Path>, roots: Roots)
    requires Sound(roots)
  {
    forall f :: FamilyOf(roots.state, held, f) ==> FamilyFine(s, held, roots, f)
  }

  lemma {:induction false} NoProblems(s: Setup, held: set<Path>, roots: Roots, policy: seq<W.Family>)
    requires Sound(roots)
    requires forall i :: 0 <= i < |policy| ==>
      FamilyProblems(policy[i], roots.At(policy[i].root), FamilyReport(s, held, roots, policy[i])) == []
    ensures AllFamilyProblems(s, held, roots, policy) == []
  {
    hide FamilyProblems, FamilyReport, Sound;
    if policy != [] { NoProblems(s, held, roots, policy[1..]); }
  }

  lemma FamiliesAre(s: Setup, held: set<Path>, roots: Roots)
    requires Sound(roots)
    ensures Walked(s, held, roots) <==> FamiliesFine(s, held, roots)
  {
    hide FamilyOf, PolicyOf, FamilyProblems, FamilyReport, FamilyFine, AllFamilyProblems, Sound;
    var policy := PolicyOf(held, roots);
    forall i | 0 <= i < |policy|
      ensures FamilyOf(roots.state, held, policy[i])
      ensures FamilyProblems(policy[i], roots.At(policy[i].root), FamilyReport(s, held, roots, policy[i])) == [] <==>
              FamilyFine(s, held, roots, policy[i])
    {
      IsOneOfThem(held, roots, i);
      FamilyIs(s, held, roots, policy[i]);
    }
    if Walked(s, held, roots) {
      forall f | FamilyOf(roots.state, held, f) ensures FamilyFine(s, held, roots, f) {
        var i := FamilyAt(held, roots, f);
        NoFamilyProblems(s, held, roots, policy, i);
      }
    }
    if FamiliesFine(s, held, roots) {
      NoProblems(s, held, roots, policy);
    }
  }

  // ---------------------------------------------------------------- what is recorded

  /** The state root and tasks/ are recorded by themselves, with the names that are neither held nor the control
      directory. */
  ghost predicate OwnLine(held: set<Path>, roots: Roots, r: Record)
    requires Sound(roots)
  {
    && r.family == "" && r.root == W.StateRoot && r.item.Directory? && (r.item.at == [] || r.item.at == ["tasks"])
    && IsDirectory(roots.state, r.item.at)
    && r.item.mode == roots.state[r.item.at].mode % 512 && r.item.owner == roots.state[r.item.at].owner
    && Sorted(r.item.names)
    && forall n :: n in r.item.names <==>
         && r.item.at + [n] in roots.state && r.item.at + [n] !in held
         && (r.item.at == [] ==> n != "checkpoint")
  }

  /** Written by the walk of a family from one of its starts. */
  ghost predicate LineOf(s: Setup, held: set<Path>, roots: Roots, f: W.Family, start: Path, r: Record)
    requires Sound(roots)
  {
    && r.family == f.id && r.root == f.root && BeginsAt(s.host, roots.state, held, f, start)
    && r.item.at in roots.At(f.root) && Followed(WalkIn(s, held, f), start, r.item.at)
    && Written(WalkIn(s, held, f), roots.At(f.root), r.item)
  }

  ghost predicate Recorded(s: Setup, held: set<Path>, roots: Roots, r: Record)
    requires Sound(roots)
  {
    || OwnLine(held, roots, r)
    || exists f, start :: FamilyOf(roots.state, held, f) && LineOf(s, held, roots, f, start, r)
  }

  lemma OwnLineIs(held: set<Path>, roots: Roots, r: Record)
    requires Sound(roots)
    ensures OwnLine(held, roots, r) <==> Fixed(held, roots, r)
  {
    RootIsDirectory(roots.state);
    hide WellFormed, Sorted, StateNames, W.ListNames;
    if r.item.Directory? && (OwnLine(held, roots, r) || Fixed(held, roots, r)) {
      if r.item.at == [] { RootLineIs(held, roots, r.item.names); } else { TasksLineIs(held, roots, r.item.names); }
    }
  }

  lemma RootIsDirectory(t: Tree)
    requires WellFormed(t)
    ensures IsDirectory(t, [])
  {
  }

  lemma RootLineIs(held: set<Path>, roots: Roots, names: seq<Name>)
    ensures names == StateNames(roots.state, held) <==>
            && Sorted(names)
            && forall n :: n in names <==> [] + [n] in roots.state && [] + [n] !in held && n != "checkpoint"
  {
    forall n ensures n in StateNames(roots.state, held) <==> [n] in roots.state && [n] !in held && n != "checkpoint" {
      StateNamesAre(roots.state, held, n);
    }
    hide Less;
    forall n: Name ensures [] + [n] == [n] {}
    if && Sorted(names)
       && forall n :: n in names <==> [] + [n] in roots.state && [] + [n] !in held && n != "checkpoint" {
      SameNames(names, StateNames(roots.state, held));
    }
  }

  lemma TasksLineIs(held: set<Path>, roots: Roots, names: seq<Name>)
    ensures names == W.ListNames(roots.state, held, ["tasks"]) <==>
            Sorted(names) && forall n :: n in names <==> ["tasks"] + [n] in roots.state && ["tasks"] + [n] !in held
  {
    hide Less;
    var listed := W.ListNames(roots.state, held, ["tasks"]);
    W.ListedNames(roots.state, held, ["tasks"]);
    if && Sorted(names)
       && forall n :: n in names <==> ["tasks"] + [n] in roots.state && ["tasks"] + [n] !in held {
      SameNames(names, listed);
    }
  }

  /** A family that is fine and has a path below one of its starts is walked well from there. */
  lemma StartWalksWell(s: Setup, held: set<Path>, roots: Roots, f: W.Family, start: Path, p: Path)
    requires Sound(roots) && FamilyFine(s, held, roots, f) && (f.id == "services" ==> f.required)
    requires f.required || f.relative == start
    requires BeginsAt(s.host, roots.state, held, f, start) && start <= p && p in roots.At(f.root)
    ensures WalksWell(WalkIn(s, held, f), roots.At(f.root), start)
  {
    hide BeginsAt, WalksWell, Carries;
    AncestorsAreDirectories(roots.At(f.root), p, start);
  }

  /** Only the task files, which are required, have starts besides their own place. */
  lemma OptionalBeginsOnce(held: set<Path>, roots: Roots, h: W.Host, f: W.Family, start: Path)
    requires FamilyOf(roots.state, held, f) && BeginsAt(h, roots.state, held, f, start)
    ensures f.id == "services" ==> f.required
    ensures f.required || f.relative == start
  {
    hide FamilyOf, BeginsAt, Policy, Starts;
    var i := FamilyAt(held, roots, f);
    IsOneOfThem(held, roots, i);
    BeginsIs(h, roots.state, held, f, start);
    var s: Setup := Setup(h, W.Options(EVERYTHING, LinkPolicy(1, [])));
    assert IsStart(s, held, roots, i, start);
    StartShape(s, held, roots, i, start);
  }

  lemma LineIsFrom(s: Setup, held: set<Path>, roots: Roots, i: nat, start: Path, r: Record)
    requires Sound(roots) && FamiliesFine(s, held, roots) && i < |PolicyOf(held, roots)|
    ensures From(s, held, roots, i, start, r) <==> LineOf(s, held, roots, PolicyOf(held, roots)[i], start, r)
  {
    hide FamilyOf, PolicyOf, FamilyFine, BeginsAt, Starts, W.Visit, W.Inspect, Followed, Written, W.Reached, Fine,
         WellFormed;
    var f := PolicyOf(held, roots)[i];
    var w, t := WalkIn(s, held, f), roots.At(f.root);
    IsOneOfThem(held, roots, i);
    BeginsIs(s.host, roots.state, held, f, start);
    FollowedIs(w, start, r.item.at);
    if BeginsAt(s.host, roots.state, held, f, start) && r.item.at in t && Followed(w, start, r.item.at) {
      OptionalBeginsOnce(held, roots, s.host, f, start);
      FollowedIsBelow(w, start, r.item.at);
      StartWalksWell(s, held, roots, f, start, r.item.at);
      WalksWellIs(w, t, start);
      WellIsFine(w, t, start, r.item.at);
      ItemIs(w, t, r.item);
    }
  }

  lemma WellIsFine(w: W.Walk, t: Tree, start: Path, p: Path)
    requires WellFormed(t) && WalksWell(w, t, start) && p in t && Followed(w, start, p)
    ensures Fine(w, t, p) && (p != start ==> p != [] && Settled(w, t, p))
  {
    hide Fine, Settled, WellFormed;
  }

  /** THE RECORDS IN PLAIN TERMS. Where every family is fine, the manifest holds the two lines of its own and exactly
      what the walks write. */
  lemma {:induction false} RecordsPlainly(s: Setup, held: set<Path>, roots: Roots, r: Record)
    requires Sound(roots) && FamiliesFine(s, held, roots)
    ensures r in InspectCoverage(s, held, roots).records <==> Recorded(s, held, roots, r)
  {
    hide FamilyOf, PolicyOf, From, LineOf, OwnLine, Fixed, Records, FamiliesFine, InspectCoverage, Sound;
    FamiliesAre(s, held, roots);
    EmptyProblems(s, held, roots);
    RecordsAre(s, held, roots, r);
    OwnLineIs(held, roots, r);
    FixedIs(held, roots, r);
    if i, p :| From(s, held, roots, i, p, r) {
      FromIsIndexed(s, held, roots, i, p, r);
      IsOneOfThem(held, roots, i);
      LineIsFrom(s, held, roots, i, p, r);
    }
    if f, start :| FamilyOf(roots.state, held, f) && LineOf(s, held, roots, f, start, r) {
      var i := FamilyAt(held, roots, f);
      LineIsFrom(s, held, roots, i, start, r);
    }
  }

  lemma FixedIs(held: set<Path>, roots: Roots, r: Record)
    requires Sound(roots)
    ensures Fixed(held, roots, r) <==> r == RootRecord(roots.state, held) || r in TasksRecord(roots.state, held)
  {
    hide RootRecord, TasksRecord;
  }

  lemma FromIsIndexed(s: Setup, held: set<Path>, roots: Roots, i: nat, p: Path, r: Record)
    requires Sound(roots) && From(s, held, roots, i, p, r)
    ensures i < |PolicyOf(held, roots)|
  {
    hide W.Visit, W.Records;
  }

  // ---------------------------------------------------------------- links, mandatory files, preserved directories

  ghost predicate NeedsTarget(r: Record) {
    && r.item.Entry? && r.item.detail.LinkDetail? && r.item.detail.info.requiredTarget
    && r.item.detail.info.resolved.Some?
  }

  /** Every required link's target is a recorded file or directory of the same root, in no recorded exclusion. */
  ghost predicate TargetsThere(rs: seq<Record>) {
    forall r :: r in rs && NeedsTarget(r) ==>
      var target := r.item.detail.info.resolved.value;
      && (exists c :: c in rs && c.root == r.root && c.item.at == target && !c.item.Excluded?
                      && !(c.item.Entry? && c.item.detail.LinkDetail?))
      && (forall x :: x in rs && x.root == r.root && x.item.Excluded? ==> !(x.item.at <= target))
  }

  lemma TargetsAre(rs: seq<Record>)
    ensures TargetsCovered(rs) && TargetsKept(rs) <==> TargetsThere(rs)
  {
    forall root: W.Root, p: Path
      ensures Covers(rs, root, p) <==> exists c :: c in rs && c.root == root && c.item.at == p && !c.item.Excluded?
                                                   && !(c.item.Entry? && c.item.detail.LinkDetail?)
    {
      CoversIs(rs, root, p);
    }
    forall root: W.Root, p: Path
      ensures Excludes(rs, root, p) <==> exists x :: x in rs && x.root == root && x.item.Excluded? && x.item.at <= p
    {
      ExcludesIs(rs, root, p);
    }
    hide Covers, Excludes;
  }

  lemma CoversIs(rs: seq<Record>, root: W.Root, p: Path)
    ensures Covers(rs, root, p) <==> exists c :: c in rs && c.root == root && c.item.at == p && !c.item.Excluded?
                                                 && !(c.item.Entry? && c.item.detail.LinkDetail?)
  {
    if c :| c in rs && c.root == root && c.item.at == p && !c.item.Excluded?
            && !(c.item.Entry? && c.item.detail.LinkDetail?) {
      var i :| 0 <= i < |rs| && rs[i] == c;
    }
  }

  lemma ExcludesIs(rs: seq<Record>, root: W.Root, p: Path)
    ensures Excludes(rs, root, p) <==> exists x :: x in rs && x.root == root && x.item.Excluded? && x.item.at <= p
  {
    if x :| x in rs && x.root == root && x.item.Excluded? && x.item.at <= p {
      var i :| 0 <= i < |rs| && rs[i] == x;
    }
  }

  const MUST: seq<Path> := [
    ["results", "manifest.json"], ["nodes", "macbook-air.local.env"], ["nodes", "macbook-air.local.access.json"],
    ["nodes", "macbook-air.local.transport.ed25519.pem"], ["nodes", "macbook-air.local.transport.ed25519.pub.pem"],
    ["receipts", "macbook-air.local.jsonl"], ["receipts", "macbook-air.local.ed25519.pem"],
    ["receipts", "macbook-air.local.ed25519.pub.pem"]]

  /** A file, or also a link, directly in a top directory of the state root, that is not held. */
  ghost predicate FileIn(state: Tree, held: set<Path>, p: Path) {
    p in state && p !in held && state[p].kind.Regular?
  }

  ghost predicate EntryIn(state: Tree, held: set<Path>, p: Path) {
    p in state && p !in held && (state[p].kind.Regular? || state[p].kind.Link?)
  }

  ghost predicate MandatoryThere(state: Tree, held: set<Path>) {
    forall k :: 0 <= k < |MUST| ==> EntryIn(state, held, MUST[k])
  }

  /** Each preserved directory has all five property lists. */
  ghost predicate PreservedWhole(state: Tree, held: set<Path>) {
    forall n, k :: [n] in state && [n] !in held && Preserves(n) && 0 <= k < 5 ==> FileIn(state, held, [n, Service(k)])
  }

  /** A family of one top directory that no rule touches. */
  ghost predicate Untouched(state: Tree, held: set<Path>, f: W.Family, top: Name) {
    && FamilyOf(state, held, f) && f.root == W.StateRoot && f.relative == [top] && f.required
    && f.id !in {"services", "runtime", "compatibility", "checkpoints"}
  }

  lemma NothingLeftOut(family: string, p: Path, ctx: Context)
    requires family !in {"runtime", "compatibility", "checkpoints"}
    ensures !LeftOut(family, p, ctx)
  {
  }

  lemma FollowedOneDown(w: W.Walk, top: Name, n: Name)
    requires w.family.id !in {"runtime", "compatibility", "checkpoints"}
    ensures Followed(w, [top], [top, n]) <==> [top, n] !in w.held
  {
    hide LeftOut;
    var p := [top, n];
    assert p[..1] == [top] && p[..2] == p;
    NothingLeftOut(w.family.id, [top], w.options.ctx);
  }

  lemma BeginsAtTop(h: W.Host, state: Tree, held: set<Path>, f: W.Family, top: Name)
    requires f.relative == [top] && f.id != "services"
    ensures BeginsAt(h, state, held, f, [top])
  {
  }

  /** What lies in such a directory is recorded by it, as what it is. */
  lemma TopHolds(s: Setup, held: set<Path>, roots: Roots, f: W.Family, top: Name, n: Name) returns (r: Record)
    requires Sound(roots) && FamiliesFine(s, held, roots) && Untouched(roots.state, held, f, top)
    requires EntryIn(roots.state, held, [top, n])
    ensures r in InspectCoverage(s, held, roots).records && r.root == W.StateRoot && r.item.at == [top, n]
    ensures r.item.Entry? && (r.item.detail.FileDetail? <==> roots.state[[top, n]].kind.Regular?)
  {
    hide FamilyOf, FamilyFine, BeginsAt, W.Visit, W.Inspect, Followed, Written, Fine, LeftOut, InspectCoverage,
         WellFormed;
    var w, t, p := WalkIn(s, held, f), roots.state, [top, n];
    BeginsAtTop(s.host, t, held, f, top);
    FollowedOneDown(w, top, n);
    StartWalksWell(s, held, roots, f, [top], p);
    WalksWellIs(w, t, [top]);
    WellIsFine(w, t, [top], p);
    NothingLeftOut(f.id, p, s.options.ctx);
    FineIs(w, t, p);
    var i := CarriedEntry(w, t, p);
    ItemIs(w, t, i);
    r := Record(f.id, f.root, i);
    assert LineOf(s, held, roots, f, [top], r);
    RecordsPlainly(s, held, roots, r);
  }

  /** And conversely. */
  lemma HeldByTop(s: Setup, held: set<Path>, roots: Roots, f: W.Family, top: Name, n: Name, r: Record)
    requires Sound(roots) && FamiliesFine(s, held, roots) && Untouched(roots.state, held, f, top)
    requires r in InspectCoverage(s, held, roots).records && r.root == W.StateRoot && r.item.at == [top, n]
    requires r.item.Entry? && top != "tasks"
    ensures EntryIn(roots.state, held, [top, n])
    ensures r.item.detail.FileDetail? ==> FileIn(roots.state, held, [top, n])
  {
    hide FamilyOf, FamilyFine, BeginsAt, Followed, LeftOut, InspectCoverage, PolicyOf, W.Visit, W.Inspect,
         FamiliesFine, From, Untouched;
    RecordsPlainly(s, held, roots, r);
    var g, start :| FamilyOf(roots.state, held, g) && LineOf(s, held, roots, g, start, r);
    FollowedIsBelow(WalkIn(s, held, g), start, r.item.at);
    OwnersMeet(s, held, roots, f, g, top, n, start);
    FollowedOneDown(WalkIn(s, held, f), top, n);
  }

  /** The family that owns a top name is the only one with starts there. */
  lemma OwnersMeet(s: Setup, held: set<Path>, roots: Roots, f: W.Family, g: W.Family, top: Name, n: Name, start: Path)
    requires Untouched(roots.state, held, f, top) && FamilyOf(roots.state, held, g) && g.root == W.StateRoot
    requires BeginsAt(s.host, roots.state, held, g, start) && start <= [top, n]
    ensures f == g && start == [top]
    ensures f.root == W.StateRoot && f.id !in {"runtime", "compatibility", "checkpoints"}
  {
    hide FamilyOf, BeginsAt, PolicyOf, Starts;
    var i := FamilyAt(held, roots, f);
    var j := FamilyAt(held, roots, g);
    BeginsAtTop(s.host, roots.state, held, f, top);
    BeginsIs(s.host, roots.state, held, f, [top]);
    BeginsIs(s.host, roots.state, held, g, start);
    OneStart(s, held, roots, i, [top], j, start, [top, n]);
  }

  lemma MustOwner(state: Tree, held: set<Path>, k: nat) returns (f: W.Family)
    requires k < |MUST|
    ensures |MUST[k]| == 2 && MUST[k][0] != "tasks" && Untouched(state, held, f, MUST[k][0])
  {
    hide FAMILIES;
    MustTop(k);
    f := FAMILIES[if k == 0 then 2 else if k < 5 then 4 else 3];
  }

  lemma MustTop(k: nat)
    requires k < |MUST|
    ensures |MUST[k]| == 2 && |MUST| == 8 && |FAMILIES| == 26 && MUST[k][0] != "tasks"
    ensures var f := FAMILIES[if k == 0 then 2 else if k < 5 then 4 else 3];
            && f.root == W.StateRoot && f.relative == [MUST[k][0]] && f.required
            && f.id !in {"services", "runtime", "compatibility", "checkpoints"}
  {
    assert "results"[0] == 'r' && "results"[2] == 's' && "receipts"[2] == 'c' && "nodes"[0] == 'n' && "tasks"[0] == 't';
    assert "enrollment"[0] == 'e' && "services"[0] == 's' && "runtime"[1] == 'u' && "compatibility"[0] == 'c';
  }

  lemma MandatoryIs(s: Setup, held: set<Path>, roots: Roots)
    requires Sound(roots) && FamiliesFine(s, held, roots)
    ensures MandatoryPresent(InspectCoverage(s, held, roots).records) <==> MandatoryThere(roots.state, held)
  {
    hide InspectCoverage, FamiliesFine, Untouched, EntryIn, HasEntryAt, MANDATORY, MUST, Sound;
    var rs := InspectCoverage(s, held, roots).records;
    MustIs();
    forall k | 0 <= k < |MUST| ensures HasEntryAt(rs, MUST[k]) <==> EntryIn(roots.state, held, MUST[k]) {
      MustIsThere(s, held, roots, k);
    }
  }

  lemma MustIs()
    ensures MANDATORY == MUST
  {
  }

  lemma MustIsThere(s: Setup, held: set<Path>, roots: Roots, k: nat)
    requires Sound(roots) && FamiliesFine(s, held, roots) && k < |MUST|
    ensures HasEntryAt(InspectCoverage(s, held, roots).records, MUST[k]) <==> EntryIn(roots.state, held, MUST[k])
  {
    hide InspectCoverage, FamiliesFine, Untouched, EntryIn, MUST, Sound;
    var rs, p := InspectCoverage(s, held, roots).records, MUST[k];
    var f := MustOwner(roots.state, held, k);
    assert p == [p[0], p[1]];
    if EntryIn(roots.state, held, p) {
      var r := TopHolds(s, held, roots, f, p[0], p[1]);
      var i :| 0 <= i < |rs| && rs[i] == r;
    }
    if HasEntryAt(rs, p) {
      var i :| 0 <= i < |rs| && rs[i].root == W.StateRoot && rs[i].item.Entry? && rs[i].item.at == p;
      HeldByTop(s, held, roots, f, p[0], p[1], rs[i]);
    }
  }

  lemma HistoricalIs(s: Setup, held: set<Path>, roots: Roots)
    requires Sound(roots) && FamiliesFine(s, held, roots)
    ensures HistoricalComplete(InspectCoverage(s, held, roots).records, PolicyOf(held, roots)) <==>
            PreservedWhole(roots.state, held)
  {
    hide InspectCoverage, FamiliesFine, PolicyOf, HasFile, FileIn, PLISTS, Sound, Preserves, FamilyOf, Service;
    var rs, policy := InspectCoverage(s, held, roots).records, PolicyOf(held, roots);
    PlistsAre();
    if HistoricalComplete(rs, policy) {
      forall n, k | [n] in roots.state && [n] !in held && Preserves(n) && 0 <= k < 5
        ensures FileIn(roots.state, held, [n, Service(k)])
      {
        var f := Required("historical-preservation", [n]);
        PreservedIsFamily(roots.state, held, n);
        var i := FamilyAt(held, roots, f);
        assert HasFile(rs, policy[i].relative + PLISTS[k]);
        PlistIsThere(s, held, roots, n, k);
      }
    }
    if PreservedWhole(roots.state, held) {
      forall i, k | 0 <= i < |policy| && 0 <= k < |PLISTS| && policy[i].id == "historical-preservation"
        ensures HasFile(rs, policy[i].relative + PLISTS[k])
      {
        IsOneOfThem(held, roots, i);
        var n := HistoricalIsPreserved(roots.state, held, policy[i]);
        assert FileIn(roots.state, held, [n, Service(k)]);
        PlistIsThere(s, held, roots, n, k);
      }
    }
  }

  lemma PreservedIsFamily(state: Tree, held: set<Path>, n: Name)
    requires [n] in state && [n] !in held && Preserves(n)
    ensures FamilyOf(state, held, Required("historical-preservation", [n]))
    ensures Untouched(state, held, Required("historical-preservation", [n]), n) && n != "tasks"
  {
    hide FAMILIES, Preserves;
    PreservesNoControl(n);
    assert "historical-preservation"[0] == 'h' && "tasks"[0] == 't';
  }

  lemma HistoricalIsPreserved(state: Tree, held: set<Path>, f: W.Family) returns (n: Name)
    requires FamilyOf(state, held, f) && f.id == "historical-preservation"
    ensures f.relative == [n] && [n] in state && [n] !in held && Preserves(n)
  {
    hide FAMILIES, Preserves;
    if f in FAMILIES { NoFixedIsHistorical(f); }
    n :| [n] in state && [n] !in held && Preserves(n) && f == Required("historical-preservation", [n]);
  }

  lemma NoFixedIsHistorical(f: W.Family)
    requires f in FAMILIES
    ensures f.id != "historical-preservation"
  {
    hide FAMILIES;
    TableEnds();
    AllTopFacts();
    var i :| 0 <= i < |FAMILIES| && FAMILIES[i] == f;
    if 2 <= i < 24 { TopIsTable(i - 2); }
    assert |"historical-preservation"| == 23;
  }

  lemma PlistIsThere(s: Setup, held: set<Path>, roots: Roots, n: Name, k: nat)
    requires Sound(roots) && FamiliesFine(s, held, roots) && k < 5 && |PLISTS| == 5
    requires [n] in roots.state && [n] !in held && Preserves(n)
    ensures HasFile(InspectCoverage(s, held, roots).records, [n] + PLISTS[k]) <==>
            FileIn(roots.state, held, [n, Service(k)])
  {
    hide InspectCoverage, FamiliesFine, Untouched, PLISTS, Sound, Preserves, FamilyOf, Service;
    PlistsAre();
    var rs, f, p := InspectCoverage(s, held, roots).records, Required("historical-preservation", [n]), [n, Service(k)];
    PreservedIsFamily(roots.state, held, n);
    assert [n] + PLISTS[k] == p;
    if FileIn(roots.state, held, p) {
      var r := TopHolds(s, held, roots, f, n, Service(k));
      var i :| 0 <= i < |rs| && rs[i] == r;
    }
    if HasFile(rs, p) {
      var i :| 0 <= i < |rs| && rs[i].item.Entry? && rs[i].item.detail.FileDetail? && rs[i].item.at == p;
      OnlyInState(s, held, roots, n, rs[i]);
      HeldByTop(s, held, roots, f, n, Service(k), rs[i]);
    }
  }

  /** No other root has a path that begins with a preserved directory's name. */
  lemma OnlyInState(s: Setup, held: set<Path>, roots: Roots, n: Name, r: Record)
    requires Sound(roots) && FamiliesFine(s, held, roots) && r in InspectCoverage(s, held, roots).records
    requires Preserves(n) && r.item.at != [] && r.item.at[0] == n
    ensures r.root == W.StateRoot
  {
    hide InspectCoverage, FamiliesFine, FamilyOf, BeginsAt, Preserves, PolicyOf, Starts, FAMILIES;
    RecordsPlainly(s, held, roots, r);
    PreservesNoControl(n);
    if !OwnLine(held, roots, r) {
      var f, start :| FamilyOf(roots.state, held, f) && LineOf(s, held, roots, f, start, r);
      FollowedIsBelow(WalkIn(s, held, f), start, r.item.at);
      var i := FamilyAt(held, roots, f);
      BeginsIs(s.host, roots.state, held, f, start);
      StartShape(s, held, roots, i, start);
      assert start[0] == n;
      OtherStarts(start);
    }
  }

  lemma OtherStarts(start: Path)
    requires start != [] && start[0] != "" && start[0][0] == 'm'
    ensures start !in PLISTS && start != ["config.json"]
  {
    PlistsAre();
    hide PLISTS;
    assert forall k :: 0 <= k < 5 ==> PLISTS[k][0] == Service(k) && Service(k)[0] == 'c';
  }

  // ---------------------------------------------------------------- the inspection

  /** Nothing to object to, in plain terms: the roots hold known names only, every family is fine, required links lead
      to what is recorded, and the mandatory files and the preserved property lists are there. */
  ghost predicate Covered(s: Setup, held: set<Path>, roots: Roots)
    requires Sound(roots)
  {
    && StateClosed(roots.state, held) && AgentsClosed(roots.agents) && WorkerClosed(roots.worker)
    && ControlClosed(roots.state, held) && TasksClosed(s.host, roots.state, held)
    && FamiliesFine(s, held, roots)
    && TargetsThere(InspectCoverage(s, held, roots).records)
    && PreservedWhole(roots.state, held) && MandatoryThere(roots.state, held)
  }

  /** NO PROBLEM IN PLAIN TERMS, both ways, for all roots, options and held locks. */
  lemma {:induction false} ProblemFreeIs(s: Setup, held: set<Path>, roots: Roots)
    requires Sound(roots)
    ensures InspectCoverage(s, held, roots).problems == [] <==> Covered(s, held, roots)
  {
    hide NamesKnown, ControlOk, TasksOk, AllFamilyProblems, TargetsCovered, TargetsKept, HistoricalComplete,
         MandatoryPresent, Records, Policy, StateNames, Sound, StateClosed, AgentsClosed, WorkerClosed, ControlClosed,
         TasksClosed, FamiliesFine, TargetsThere, PreservedWhole, MandatoryThere, InspectCoverage;
    EmptyProblems(s, held, roots);
    NamesAreKnown(held, roots);
    ControlIs(roots.state, held);
    TasksAre(s.host, roots.state, held);
    FamiliesAre(s, held, roots);
    if FamiliesFine(s, held, roots) {
      TargetsAre(InspectCoverage(s, held, roots).records);
      HistoricalIs(s, held, roots);
      MandatoryIs(s, held, roots);
    }
  }

  // ---------------------------------------------------------------- locks and writes in progress

  /** NO LOCK IS RECORDED. A problem-free inspection records no file named *.lock outside sealed payload, and a file
      named *.tmp only when an atomic write left it behind whose writer is gone or came later. */
  lemma {:induction false} NoLockIsRecorded(s: Setup, held: set<Path>, roots: Roots, r: Record)
    requires Sound(roots) && InspectCoverage(s, held, roots).problems == []
    requires r in InspectCoverage(s, held, roots).records && r.item.Entry? && r.item.at != []
    requires r.family !in {"runtime", "compatibility", "checkpoints"}
    ensures var n := r.item.at[|r.item.at| - 1];
            && !EndsWith(n, ".lock")
            && (EndsWith(n, ".tmp") ==>
                  && r.item.detail.FileDetail?
                  && exists base, pid :: NamesTemporary(n, base, pid)
                                         && (!s.host.alive(pid) || s.host.startedAfter(pid, r.item.detail.mtime)))
  {
    hide InspectCoverage, FamilyOf, BeginsAt, Followed, LeftOut, LeftOutBy, FamilyFine, PolicyOf, Fine, Sealed,
         EndsWith, NamesTemporary, WalksWell, Covered, W.OpaquePayload, SafePath, InspectLink;
    ProblemFreeIs(s, held, roots);
    CoveredIsFine(s, held, roots);
    RecordsPlainly(s, held, roots, r);
    var f, start :| FamilyOf(roots.state, held, f) && LineOf(s, held, roots, f, start, r);
    var w, t, p := WalkIn(s, held, f), roots.At(f.root), r.item.at;
    if p == start {
      StartIsNoLock(s, held, roots, f, start);
    } else {
      OptionalBeginsOnce(held, roots, s.host, f, start);
      FollowedIsBelow(w, start, p);
      StartWalksWell(s, held, roots, f, start, p);
      WellIsFine(w, t, start, p);
      NotSealed(f.id, p);
    }
  }

  lemma CoveredIsFine(s: Setup, held: set<Path>, roots: Roots)
    requires Sound(roots) && Covered(s, held, roots)
    ensures FamiliesFine(s, held, roots)
  {
    hide FamiliesFine, TargetsThere, InspectCoverage;
  }

  lemma NotSealed(family: string, p: Path)
    requires family !in {"runtime", "compatibility", "checkpoints"}
    ensures !Sealed(family, p)
  {
  }

  /** A start is no lock, and no temporary but what an interrupted write of a task file left behind. */
  lemma StartIsNoLock(s: Setup, held: set<Path>, roots: Roots, f: W.Family, start: Path)
    requires FamilyOf(roots.state, held, f) && BeginsAt(s.host, roots.state, held, f, start)
    ensures start != [] && !EndsWith(start[|start| - 1], ".lock")
    ensures EndsWith(start[|start| - 1], ".tmp") ==>
      f.root == W.StateRoot && start in roots.state && Abandoned(s.host, start[|start| - 1], roots.state[start])
  {
    hide FamilyOf, FAMILIES, EndsWith, Orphan;
    if f.id == "services" {
      var k :| 0 <= k < 5 && start == [Service(k)];
      ServiceEnds(k);
    } else if start == f.relative {
      PlaceEnds(roots.state, held, f);
    } else {
      var base := f.relative[1];
      ResidueEnds(s.host, roots.state, start[1], base);
      assert start == ["tasks", start[1]];
      TaskFamilyRoot(roots.state, held, f);
    }
  }

  lemma TaskFamilyRoot(state: Tree, held: set<Path>, f: W.Family)
    requires FamilyOf(state, held, f) && f.relative in {["tasks", "store.json"], ["tasks", "events.jsonl"]}
    ensures f.root == W.StateRoot
  {
    hide Preserves, FAMILIES;
    TableEnds();
    if f in FAMILIES {
      var i :| 0 <= i < |FAMILIES| && FAMILIES[i] == f;
      if 0 < i < 24 { TableTop(i); }
    }
  }

  lemma ResidueEnds(h: W.Host, state: Tree, n: Name, base: Name)
    requires LeftBy(h, state, n, base)
    ensures !EndsWith(n, ".lock") && ["tasks", n] in state && Abandoned(h, n, state[["tasks", n]])
  {
    hide NamesTemporary, TemporaryOf;
    var pid :| NamesTemporary(n, base, pid) && (!h.alive(pid) || h.startedAfter(pid, state[["tasks", n]].mtime));
    TemporaryIs(n, base, pid);
    TemporaryEnds(n);
  }

  lemma ServiceEnds(k: nat)
    requires k < 5
    ensures !EndsWith(Service(k), ".lock") && !EndsWith(Service(k), ".tmp")
  {
    LastLetter(Service(k));
  }

  lemma LastLetter(n: Name)
    ensures n == "" || n[|n| - 1] != 'k' ==> !EndsWith(n, ".lock")
    ensures n == "" || n[|n| - 1] != 'p' ==> !EndsWith(n, ".tmp")
  {
    assert |n| >= 5 ==> n[|n| - 5..][4] == n[|n| - 1];
    assert |n| >= 4 ==> n[|n| - 4..][3] == n[|n| - 1];
  }

  lemma PlaceEnds(state: Tree, held: set<Path>, f: W.Family)
    requires FamilyOf(state, held, f) && f.id != "services"
    ensures f.relative != [] && !EndsWith(f.relative[|f.relative| - 1], ".lock")
    ensures !EndsWith(f.relative[|f.relative| - 1], ".tmp")
  {
    if f in FAMILIES {
      TableEnds();
      TablePlace(f);
    } else {
      var n :| [n] in state && [n] !in held && Preserves(n) && f == Required("historical-preservation", [n]);
      PreservedEnds(n);
    }
  }

  lemma TablePlace(f: W.Family)
    requires f in FAMILIES && f.id != "services"
    ensures f.relative != [] && !EndsWith(f.relative[|f.relative| - 1], ".lock")
    ensures !EndsWith(f.relative[|f.relative| - 1], ".tmp")
  {
    hide FAMILIES, EndsWith;
    TableEnds();
    var i :| 0 <= i < |FAMILIES| && FAMILIES[i] == f;
    if 2 <= i < 24 {
      TopIsTable(i - 2);
      AllTopFacts();
      var n := TopFamily(i - 2).relative[0];
      LastLetter(n);
      TopIsNoLock(n);
    } else {
      LastLetter("store.json");
      LastLetter("events.jsonl");
      LastLetter("config.json");
    }
  }

  lemma TopIsNoLock(n: Name)
    requires |n| > 3 && (n[|n| - 1] != 'k' || n[|n| - 3] != 'o')
    ensures !EndsWith(n, ".lock")
  {
    assert |n| >= 5 ==> n[|n| - 5..][4] == n[|n| - 1] && n[|n| - 5..][2] == n[|n| - 3];
  }

  lemma PreservedEnds(n: Name)
    requires Preserves(n)
    ensures !EndsWith(n, ".lock") && !EndsWith(n, ".tmp")
  {
    PreservesIs(n);
    assert Alphanumeric(n[26]) && Alphanumeric(n[27]);
    assert n[|n| - 5..][0] == n[26] && n[|n| - 4..][0] == n[27];
  }

  // ---------------------------------------------------------------- and every such name is reported

  /** A walk that gets to an unsettled path reports it, or was cut short by an error. */
  lemma {:induction false} UnsettledIsSeen(w: W.Walk, t: Tree, top: Path, p: Path)
    requires WellFormed(t) && p in t && p != top && W.Reached(w, top, p) && W.Transitory(w, t, p)
    ensures W.Visit(w, t, top).thrown.Some? || W.Transient(w.family.id) in W.Visit(w, t, top).problems
    decreases Beneath(t, top), 1, 0
  {
    hide W.Inspect, W.VisitNames, RuleFor, W.Transitory, W.ListNames;
    var n := p[|top|];
    AncestorsAreDirectories(t, p, top);
    AncestorsAreDirectories(t, p, top + [n]);
    W.ReachedBelow(w, top, n, p);
    W.ListedNames(t, w.held, top);
    OpenDirectory(w, t, top);
    if W.Inspect(w, t, top).thrown.None? { NameIsSeen(w, t, top, W.ListNames(t, w.held, top), n, p); }
  }

  lemma OpenDirectory(w: W.Walk, t: Tree, p: Path)
    requires WellFormed(t) && IsDirectory(t, p) && RuleFor(w.family.id, p, w.options.ctx).None?
    ensures || W.Inspect(w, t, p).thrown.Some?
            || (|W.Inspect(w, t, p).items| == 1 && W.Inspect(w, t, p).items[0].Directory?)
    ensures W.Inspect(w, t, p).thrown.Some? ==> W.Inspect(w, t, p).items == []
  {
  }

  lemma {:induction false} NameIsSeen(w: W.Walk, t: Tree, dir: Path, names: seq<Name>, n: Name, p: Path)
    requires WellFormed(t) && dir in t && forall k :: 0 <= k < |names| ==> dir + [names[k]] in t
    requires n in names && p in t && dir + [n] <= p && W.Reached(w, dir + [n], p) && W.Transitory(w, t, p)
    ensures || W.VisitNames(w, t, dir, names).thrown.Some?
            || W.Transient(w.family.id) in W.VisitNames(w, t, dir, names).problems
    decreases Beneath(t, dir), 0, |names|
  {
    hide W.Inspect, RuleFor, W.Transitory, W.Visit, W.Reached;
    ChildIsSmaller(t, dir, names[0]);
    if names[0] == n {
      if !W.Transitory(w, t, dir + [n]) { UnsettledIsSeen(w, t, dir + [n], p); }
    } else {
      NameIsSeen(w, t, dir, names[1..], n, p);
    }
  }

  /** EVERY LOCK IS REPORTED. A path that the walk of a family follows to, that is not settled, puts the family's
      transient problem into the manifest; unless an error cut the walk short, and then that is a problem too. */
  lemma {:induction false} UnsettledIsReported(s: Setup, held: set<Path>, roots: Roots, f: W.Family, start: Path,
                                               p: Path)
    requires Sound(roots) && FamilyOf(roots.state, held, f) && BeginsAt(s.host, roots.state, held, f, start)
    requires p in roots.At(f.root) && p != [] && p != start && Followed(WalkIn(s, held, f), start, p)
    requires !Settled(WalkIn(s, held, f), roots.At(f.root), p)
    ensures var problems := InspectCoverage(s, held, roots).problems;
            && (W.Transient(f.id) in problems || W.FamilyError(f.id) in problems)
            && (FamilyReport(s, held, roots, f).thrown.None? ==> W.Transient(f.id) in problems)
  {
    hide InspectCoverage, FamilyOf, BeginsAt, FamilyReport, PolicyOf, Starts, W.Visit, VisitAll, Followed, W.Transitory,
         Settled, W.Reached, FamilyProblems, WellFormed;
    var w, t, starts := WalkIn(s, held, f), roots.At(f.root), Starts(s.host, roots.state, held, f);
    var i := FamilyAt(held, roots, f);
    SettledIs(w, t, p);
    FollowedIs(w, start, p);
    BeginsIs(s.host, roots.state, held, f, start);
    UnsettledIsSeen(w, t, start, p);
    var k :| 0 <= k < |starts| && starts[k] == start;
    StartIsSeen(w, t, starts, k);
    ReportIsSeen(s, held, roots, f, start, p);
    FamilyIsSeen(s, held, roots, PolicyOf(held, roots), i);
    ProblemIsListed(s, held, roots);
  }

  lemma {:induction false} StartIsSeen(w: W.Walk, t: Tree, starts: seq<Path>, k: nat)
    requires WellFormed(t) && k < |starts|
    requires W.Visit(w, t, starts[k]).thrown.Some? || W.Transient(w.family.id) in W.Visit(w, t, starts[k]).problems
    ensures || VisitAll(w, t, starts).thrown.Some? || W.Transient(w.family.id) in VisitAll(w, t, starts).problems
  {
    hide W.Visit;
    if k > 0 { StartIsSeen(w, t, starts[1..], k - 1); }
  }

  lemma ReportIsSeen(s: Setup, held: set<Path>, roots: Roots, f: W.Family, start: Path, p: Path)
    requires Sound(roots) && FamilyOf(roots.state, held, f) && BeginsAt(s.host, roots.state, held, f, start)
    requires p in roots.At(f.root) && Followed(WalkIn(s, held, f), start, p)
    requires var r := VisitAll(WalkIn(s, held, f), roots.At(f.root), Starts(s.host, roots.state, held, f));
             r.thrown.Some? || W.Transient(f.id) in r.problems
    ensures var report := FamilyReport(s, held, roots, f);
            var problems := FamilyProblems(f, roots.At(f.root), report);
            && (report.thrown.None? ==> W.Transient(f.id) in problems)
            && (report.thrown.Some? ==> W.FamilyError(f.id) in problems)
  {
    hide FamilyOf, BeginsAt, VisitAll, Starts, Followed;
    OptionalBeginsOnce(held, roots, s.host, f, start);
    FollowedIsBelow(WalkIn(s, held, f), start, p);
    AncestorsAreDirectories(roots.At(f.root), p, start);
    assert FamilyReport(s, held, roots, f)
        == VisitAll(WalkIn(s, held, f), roots.At(f.root), Starts(s.host, roots.state, held, f));
  }

  lemma {:induction false} FamilyIsSeen(s: Setup, held: set<Path>, roots: Roots, policy: seq<W.Family>, i: nat)
    requires Sound(roots) && i < |policy|
    ensures var f := policy[i];
            forall x :: x in FamilyProblems(f, roots.At(f.root), FamilyReport(s, held, roots, f)) ==>
                x in AllFamilyProblems(s, held, roots, policy)
  {
    hide FamilyProblems, FamilyReport, Sound;
    if i > 0 { FamilyIsSeen(s, held, roots, policy[1..], i - 1); }
  }

  lemma ProblemIsListed(s: Setup, held: set<Path>, roots: Roots)
    requires Sound(roots)
    ensures forall x :: x in AllFamilyProblems(s, held, roots, PolicyOf(held, roots)) ==>
              x in InspectCoverage(s, held, roots).problems
  {
    hide AllFamilyProblems, ClosedWorld, TargetsCovered, TargetsKept, HistoricalComplete,
         MandatoryPresent, Records, Policy, StateNames, Sound;
  }

  // ---------------------------------------------------------------- which problem is which

  /** A name in the control directory or in tasks/ that has no place there. */
  ghost predicate StrayControl(state: Tree, held: set<Path>, n: Name) {
    && ["checkpoint"] in state && state[["checkpoint"]].kind.Directory? && state[["checkpoint"]].mode % 64 == 0
    && ["checkpoint", n] in state && ["checkpoint", n] !in held
    && !(n in {"node.sock", "gateway.sock"} && state[["checkpoint", n]].kind.Socket?)
  }

  ghost predicate StrayTask(h: W.Host, state: Tree, held: set<Path>, n: Name) {
    && ["tasks"] in state && state[["tasks"]].kind.Directory? && ["tasks", n] in state && ["tasks", n] !in held
    && n !in {"store.json", "events.jsonl"}
    && !LeftBy(h, state, n, "store.json") && !LeftBy(h, state, n, "events.jsonl")
  }

  lemma StraysPlainly(h: W.Host, state: Tree, held: set<Path>, n: Name)
    ensures n in ControlStrays(state, held) <==> StrayControl(state, held, n)
    ensures n in TaskStrays(h, state, held) <==> StrayTask(h, state, held, n)
  {
    hide W.ListNames, IsResidue, LeftBy;
    W.ListedNames(state, held, ["checkpoint"]);
    W.ListedNames(state, held, ["tasks"]);
    assert ["checkpoint"] + [n] == ["checkpoint", n] && ["tasks"] + [n] == ["tasks", n];
    LeftByIs(h, state, n, "store.json");
    LeftByIs(h, state, n, "events.jsonl");
  }

  /** The codes of a family. */
  predicate OfFamily(x: W.Problem) {
    x.Transient? || x.HidesAuthoritative? || x.LinkRefused? || x.FamilyError? || x.RemovesRequired? || x.EmptyRequired?
  }

  lemma {:induction false} VisitCodes(w: W.Walk, t: Tree, p: Path)
    requires WellFormed(t)
    ensures forall x :: x in W.Visit(w, t, p).problems ==> OfFamily(x)
    decreases Beneath(t, p), 1, 0
  {
    hide W.VisitNames, W.ListNames, InspectLink, WellFormed, RuleFor, W.OpaquePayload, W.Orphaned, SafePath, W.Keep;
    if p in t { NamesCodes(w, t, p, W.ListNames(t, w.held, p)); }
  }

  lemma {:induction false} NamesCodes(w: W.Walk, t: Tree, dir: Path, names: seq<Name>)
    requires WellFormed(t) && dir in t && forall k :: 0 <= k < |names| ==> dir + [names[k]] in t
    ensures forall x :: x in W.VisitNames(w, t, dir, names).problems ==> OfFamily(x)
    decreases Beneath(t, dir), 0, |names|
  {
    hide W.Visit, W.Transitory;
    if names != [] {
      ChildIsSmaller(t, dir, names[0]);
      VisitCodes(w, t, dir + [names[0]]);
      NamesCodes(w, t, dir, names[1..]);
    }
  }

  lemma {:induction false} AllCodes(w: W.Walk, t: Tree, paths: seq<Path>)
    requires WellFormed(t)
    ensures forall x :: x in VisitAll(w, t, paths).problems ==> OfFamily(x)
  {
    hide W.Visit;
    if paths != [] {
      VisitCodes(w, t, paths[0]);
      AllCodes(w, t, paths[1..]);
    }
  }

  lemma {:induction false} FamilyCodes(s: Setup, held: set<Path>, roots: Roots, policy: seq<W.Family>)
    requires Sound(roots)
    ensures forall x :: x in AllFamilyProblems(s, held, roots, policy) ==> OfFamily(x)
  {
    hide VisitAll, Starts, HasEntry, HasExclusion;
    if policy != [] {
      var f := policy[0];
      AllCodes(WalkOf(s, held, f), roots.At(f.root), Starts(s.host, roots.state, held, f));
      FamilyCodes(s, held, roots, policy[1..]);
    }
  }

  /** WHICH PROBLEM IS WHICH, for the codes that belong to no family. */
  lemma {:induction false} CodesAre(s: Setup, held: set<Path>, roots: Roots)
    requires Sound(roots)
    ensures var problems, state := InspectCoverage(s, held, roots).problems, roots.state;
            && (W.UnknownFamily in problems <==>
                || !StateClosed(state, held) || !AgentsClosed(roots.agents) || !WorkerClosed(roots.worker)
                || (exists n :: StrayControl(state, held, n) && !EndsWith(n, ".lock") && !EndsWith(n, ".recovery"))
                || (exists n :: StrayTask(s.host, state, held, n) && !EndsWith(n, ".lock") && !EndsWith(n, ".tmp")))
            && (W.ControlInvalid in problems <==>
                ["checkpoint"] in state
                && !(state[["checkpoint"]].kind.Directory? && state[["checkpoint"]].mode % 64 == 0))
            && (W.ControlTransient in problems <==>
                exists n :: StrayControl(state, held, n) && (EndsWith(n, ".lock") || EndsWith(n, ".recovery")))
            && (W.ParentInvalid in problems <==> ["tasks"] in state && !state[["tasks"]].kind.Directory?)
            && ((exists n :: StrayTask(s.host, state, held, n) && (EndsWith(n, ".lock") || EndsWith(n, ".tmp"))) ==>
                W.Transient("tasks") in problems)
  {
    hide InspectCoverage, ClosedWorld, StateClosed, AgentsClosed, WorkerClosed, StrayControl, StrayTask, EndsWith;
    ClosedCodes(s.host, held, roots);
    ClosedIsListed(s, held, roots);
  }

  lemma ClosedIsListed(s: Setup, held: set<Path>, roots: Roots)
    requires Sound(roots)
    ensures forall x :: x in ClosedWorld(s.host, held, roots) ==> x in InspectCoverage(s, held, roots).problems
    ensures forall x :: x in {W.UnknownFamily, W.ControlInvalid, W.ControlTransient, W.ParentInvalid} ==>
              (x in InspectCoverage(s, held, roots).problems <==> x in ClosedWorld(s.host, held, roots))
  {
    hide AllFamilyProblems, ClosedWorld, TargetsCovered, TargetsKept, HistoricalComplete, MandatoryPresent, Records,
         Policy, StateNames, Sound;
    FamilyCodes(s, held, roots, PolicyOf(held, roots));
  }

  lemma ClosedCodes(h: W.Host, held: set<Path>, roots: Roots)
    ensures var problems, state := ClosedWorld(h, held, roots), roots.state;
            && (W.UnknownFamily in problems <==>
                || !StateClosed(state, held) || !AgentsClosed(roots.agents) || !WorkerClosed(roots.worker)
                || (exists n :: StrayControl(state, held, n) && !EndsWith(n, ".lock") && !EndsWith(n, ".recovery"))
                || (exists n :: StrayTask(h, state, held, n) && !EndsWith(n, ".lock") && !EndsWith(n, ".tmp")))
            && (W.ControlInvalid in problems <==>
                ["checkpoint"] in state
                && !(state[["checkpoint"]].kind.Directory? && state[["checkpoint"]].mode % 64 == 0))
            && (W.ControlTransient in problems <==>
                exists n :: StrayControl(state, held, n) && (EndsWith(n, ".lock") || EndsWith(n, ".recovery")))
            && (W.ParentInvalid in problems <==> ["tasks"] in state && !state[["tasks"]].kind.Directory?)
            && (W.Transient("tasks") in problems <==>
                exists n :: StrayTask(h, state, held, n) && (EndsWith(n, ".lock") || EndsWith(n, ".tmp")))
  {
    hide NamesKnown, StateClosed, AgentsClosed, WorkerClosed, StrayControl, StrayTask, EndsWith, ControlStrays,
         TaskStrays;
    NamesAreKnown(held, roots);
    forall n ensures n in ControlStrays(roots.state, held) <==> StrayControl(roots.state, held, n) {
      StraysPlainly(h, roots.state, held, n);
    }
    forall n ensures n in TaskStrays(h, roots.state, held) <==> StrayTask(h, roots.state, held, n) {
      StraysPlainly(h, roots.state, held, n);
    }
    ClosedListed(h, held, roots);
  }

  /** A check lists its own code and no other. */
  lemma ClosedListed(h: W.Host, held: set<Path>, roots: Roots)
    ensures var problems, control, tasks
              := ClosedWorld(h, held, roots), ControlStrays(roots.state, held), TaskStrays(h, roots.state, held);
            && (W.UnknownFamily in problems <==>
                || !NamesKnown(held, roots) || (exists n :: n in control && !ControlPassing(n))
                || (exists n :: n in tasks && !W.TransientName(n)))
            && (W.ControlInvalid in problems <==> !ControlPrivate(roots.state))
            && (W.ControlTransient in problems <==> exists n :: n in control && ControlPassing(n))
            && (W.ParentInvalid in problems <==> [TASKS] in roots.state && !IsDirectory(roots.state, [TASKS]))
            && (W.Transient(TASKS) in problems <==> exists n :: n in tasks && W.TransientName(n))
  {
    hide NamesKnown, ControlStrays, TaskStrays, ControlPassing, W.TransientName, ControlPrivate, IsDirectory;
  }
}
