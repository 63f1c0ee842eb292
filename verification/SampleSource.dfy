/** A small owner tree that inspects without problems, with four things left open: the mode and the owner of one
    directory, the mode of one link, and one file name. It shows that the theorems about backups speak of something, and
    where they draw the line. */
module SampleSource {
  import opened FileTree
  import opened Names
  import opened LinkInspection
  import opened LinkExamples
  import opened Exclusions
  import opened AtomicNames
  import W = CoverageWalk
  import C = CoverageCopy
  import opened Families
  import opened Coverage
  import opened CoverageTheorems
  import opened CoverageRoundTrip
  import opened CoverageVerify
  import opened CoverageSoundness
  import opened ManifestDistinct
  import opened ManifestValidity
  import opened BackupCopy

  const HOST := W.Host(bytes => "", bytes => Some(None), pid => false, (pid, mtime) => false, 493, OWNER)

  const SETUP := Setup(HOST, W.Options(EVERYTHING, LinkPolicy(1, [])))

  const RESULTS: Path := ["results"]

  /** What is left open: results/ has this mode, this owner and a file of this name, the link has this mode. */
  datatype Variant = Variant(resultsMode: nat, owner: nat, linkMode: nat, extra: Name)

  /** Directories of the sample; every other path is a file, except the one link. */
  const FOLDERS: set<Path> := {[], [TASKS], RESULTS, ["receipts"], ["nodes"], ["runtime"], ["runtime", "releases"],
                               ["runtime", "releases", "r"], MODULES}

  function TopPaths(): set<Path> {
    set i | 0 <= i < 22 :: TopFamily(i).relative
  }

  function MandatoryPaths(): set<Path> {
    set k | 0 <= k < |MANDATORY| :: MANDATORY[k]
  }

  function AgentPaths(): set<Path> {
    {[]} + set k | 0 <= k < |PLISTS| :: PLISTS[k]
  }

  function StatePaths(extra: Name): set<Path> {
    TopPaths() + MandatoryPaths() + FOLDERS + {STORE, EVENTS, At("a"), At("b"), RESULTS + [extra]}
  }

  function NodeAt(p: Path, v: Variant): Node {
    if p == RESULTS then Node(Kind.Directory, v.resultsMode, v.owner, 1, 0)
    else if p in FOLDERS then FOLDER
    else if p == At("b") then Node(Link("a"), v.linkMode, OWNER, 1, 0)
    else Node(Regular(""), 420, OWNER, 1, 0)
  }

  function Sample(v: Variant): Roots {
    Roots(map p | p in StatePaths(v.extra) :: NodeAt(p, v),
          map p | p in AgentPaths() :: if p == [] then FOLDER else Node(Regular(""), 420, OWNER, 1, 0),
          map[[] := FOLDER, ["config.json"] := Node(Regular(""), 420, OWNER, 1, 0)])
  }

  /** A name that can stand in results/ without being anything else. */
  predicate Usable(extra: Name) {
    ValidName(extra) && SafeName(extra) && Quiet(extra) && extra != "manifest.json"
  }

  /** Neither a lock nor a temporary file. */
  predicate Quiet(n: Name) {
    n != "" && n[|n| - 1] != 'k' && n[|n| - 1] != 'p'
  }

  lemma QuietIsSettled(n: Name)
    requires Quiet(n)
    ensures !W.TransientName(n)
  {
    assert |n| >= 5 ==> n[|n| - 5..][4] == n[|n| - 1];
    assert |n| >= 4 ==> n[|n| - 4..][3] == n[|n| - 1];
  }

  // ---------------------------------------------------------------- the paths

  /** What each path of the state root is. */
  predicate Placed(p: Path, extra: Name) {
    || p == [] || p == [TASKS] || p == STORE || p == EVENTS
    || (|p| == 1 && p in TopPaths())
    || (|p| == 2 && p[0] in {"results", "receipts", "nodes"} && ValidName(p[1]) && SafeName(p[1]) && Quiet(p[1]))
    || p == ["runtime", "releases"] || p == ["runtime", "releases", "r"] || p == MODULES || p == At("a") || p == At("b")
  }

  lemma MandatoryArePlaced(k: nat)
    requires k < |MANDATORY|
    ensures |MANDATORY[k]| == 2 && MANDATORY[k][0] in {"results", "receipts", "nodes"}
    ensures ValidName(MANDATORY[k][1]) && '\\' !in MANDATORY[k][1] && Quiet(MANDATORY[k][1])
  {
    MandatoryNames();
  }

  lemma MandatoryNames()
    ensures Plain("manifest.json") && Plain("macbook-air.local.env") && Plain("macbook-air.local.access.json")
    ensures Plain("macbook-air.local.transport.ed25519.pem") && Plain("macbook-air.local.transport.ed25519.pub.pem")
    ensures Plain("macbook-air.local.jsonl") && Plain("macbook-air.local.ed25519.pem")
    ensures Plain("macbook-air.local.ed25519.pub.pem")
  {
  }

  lemma TopsAreThere()
    ensures TopFamily(0).relative == RESULTS && TopFamily(1).relative == ["receipts"]
    ensures TopFamily(2).relative == ["nodes"] && TopFamily(10).relative == ["runtime"]
    ensures RESULTS in TopPaths() && ["receipts"] in TopPaths() && ["nodes"] in TopPaths() && ["runtime"] in TopPaths()
  {
    assert TopFamily(0).relative in TopPaths() && TopFamily(1).relative in TopPaths()
        && TopFamily(2).relative in TopPaths() && TopFamily(10).relative in TopPaths();
  }

  lemma PathsArePlaced(extra: Name, p: Path)
    requires Usable(extra) && p in StatePaths(extra)
    ensures Placed(p, extra)
  {
    hide TopList, MANDATORY;
    TopsAreThere();
    if p in TopPaths() {
      var i :| 0 <= i < 22 && p == TopFamily(i).relative;
      AllTopFacts();
    } else if p in MandatoryPaths() {
      var k :| 0 <= k < |MANDATORY| && p == MANDATORY[k];
      MandatoryArePlaced(k);
    }
  }

  lemma LiteralsAreNames()
    ensures ValidName("releases") && ValidName("r") && ValidName("node_modules") && ValidName("a") && ValidName("b")
    ensures '\\' !in "releases" && '\\' !in "r" && '\\' !in "node_modules" && '\\' !in "a" && '\\' !in "b"
    ensures Quiet("releases") && Quiet("r") && Quiet("node_modules") && Quiet("a") && Quiet("b")
  {
  }

  lemma PlainIsName(n: Name)
    requires Plain(n) && |n| > 2
    ensures ValidName(n) && SafeName(n)
  {
    assert '\\' !in n;
    assert Pieces(n) == [n];
  }

  lemma FixedNames()
    ensures ValidName(TASKS) && SafeName(TASKS) && ValidName(STORE[1]) && SafeName(STORE[1]) && ValidName(EVENTS[1])
    ensures SafeName(EVENTS[1])
    ensures ValidName("results") && SafeName("results") && ValidName("receipts") && SafeName("receipts")
    ensures ValidName("nodes") && SafeName("nodes")
    ensures ValidName("runtime") && SafeName("runtime")
  {
    hide Plain;
    NamesArePlain();
    MoreNamesArePlain();
    PlainIsName("tasks");
    PlainIsName("store.json");
    PlainIsName("events.jsonl");
    PlainIsName("results");
    PlainIsName("receipts");
    PlainIsName("nodes");
    PlainIsName("runtime");
  }

  /** Every component is a legal, safe name. */
  lemma PlacedIsSafe(p: Path, extra: Name)
    requires Placed(p, extra)
    ensures SafePath(p) && forall i :: 0 <= i < |p| ==> ValidName(p[i])
  {
    hide TopList, SafeName, ValidName, Quiet;
    FixedNames();
    LiteralsAreSafe();
    if |p| == 1 && p in TopPaths() {
      var i :| 0 <= i < 22 && p == TopFamily(i).relative;
      TopIsSafe(i);
    }
  }

  lemma LiteralsAreSafe()
    ensures ValidName("releases") && ValidName("r") && ValidName("node_modules") && ValidName("a") && ValidName("b")
    ensures SafeName("releases") && SafeName("r") && SafeName("node_modules") && SafeName("a") && SafeName("b")
  {
    hide ValidName, SafeName, Quiet;
    LiteralsAreNames();
    StraightIsSafe("releases");
    StraightIsSafe("r");
    StraightIsSafe("node_modules");
    StraightIsSafe("a");
    StraightIsSafe("b");
  }

  lemma StraightIsSafe(n: Name)
    requires ValidName(n) && '\\' !in n
    ensures SafeName(n)
  {
    assert Pieces(n) == [n];
  }

  lemma TopIsSafe(i: nat)
    requires i < 22
    ensures |TopFamily(i).relative| == 1 && ValidName(TopFamily(i).relative[0]) && SafeName(TopFamily(i).relative[0])
  {
    hide TopList;
    TopIsPlain(i);
    AllTopFacts();
    PlainIsName(TopFamily(i).relative[0]);
  }

  // ---------------------------------------------------------------- the trees are sound

  lemma FolderIsThere(v: Variant, p: Path)
    requires p in FOLDERS
    ensures IsDirectory(Sample(v).state, p)
  {
    hide TopList, MANDATORY;
  }

  lemma StateHangs(v: Variant, p: Path)
    requires Usable(v.extra) && p in StatePaths(v.extra)
    ensures Hangs(Sample(v).state, p)
  {
    hide TopList, MANDATORY, Usable, StatePaths, TopPaths, SafeName, ValidName, NodeAt;
    PathsArePlaced(v.extra, p);
    PlacedIsSafe(p, v.extra);
    if p != [] {
      assert Parent(p) in FOLDERS by { ParentIsFolder(p, v.extra); }
      FolderIsThere(v, Parent(p));
    }
  }

  lemma ParentIsFolder(p: Path, extra: Name)
    requires Placed(p, extra) && p != []
    ensures Parent(p) in FOLDERS
  {
    hide TopList;
    if |p| == 2 && p[0] in {"results", "receipts", "nodes"} { assert Parent(p) == [p[0]]; }
    if p == STORE || p == EVENTS { assert Parent(p) == [TASKS]; }
    if p == At("a") || p == At("b") { assert Parent(p) == MODULES; }
    if p == MODULES { assert Parent(p) == ["runtime", "releases", "r"]; }
    if p == ["runtime", "releases", "r"] { assert Parent(p) == ["runtime", "releases"]; }
    if p == ["runtime", "releases"] { assert Parent(p) == ["runtime"]; }
  }

  lemma AgentsAreSound(v: Variant)
    ensures WellFormed(Sample(v).agents)
  {
    var t := Sample(v).agents;
    forall p | p in t ensures Hangs(t, p) {
      if p != [] {
        var k :| 0 <= k < |PLISTS| && p == PLISTS[k];
        PlistIsName(k);
        assert Parent(p) == [];
      }
    }
  }

  lemma PlistIsName(k: nat)
    requires k < |PLISTS|
    ensures |PLISTS[k]| == 1 && ValidName(PLISTS[k][0]) && SafeName(PLISTS[k][0])
  {
    PlistsArePlain();
    assert PLISTS[k] in PLISTS && PlainPath(PLISTS[k]);
    var prefix := SERVICE_PREFIX;
    assert Plain(prefix) && Plain("coordinator.plist") && Plain("worker.plist") && Plain("gateway.plist");
    assert Plain("node.plist") && Plain("oauth-canary.plist");
    PlainIsName(PLISTS[k][0]);
  }

  lemma SampleIsSound(v: Variant)
    requires Usable(v.extra)
    ensures Sound(Sample(v))
  {
    hide TopList, MANDATORY, StatePaths, NodeAt, PLISTS;
    var roots := Sample(v);
    forall p | p in roots.state ensures Hangs(roots.state, p) { StateHangs(v, p); }
    FolderIsThere(v, []);
    AgentsAreSound(v);
    MoreNamesArePlain();
    PlainIsName("config.json");
    assert WellFormed(roots.worker) by {
      forall p | p in roots.worker ensures Hangs(roots.worker, p) {}
    }
  }

  // ---------------------------------------------------------------- every walk is clear

  /** A walk that would find nothing to object to. */
  ghost predicate Calm(w: W.Walk, t: Tree, top: Path)
    requires WellFormed(t)
  {
    && top in t && w.held == {} && w.options.ctx == EVERYTHING
    && forall q :: q in t && top <= q ==> CalmAt(w, t, top, q)
  }

  ghost predicate CalmAt(w: W.Walk, t: Tree, top: Path, q: Path)
    requires WellFormed(t) && q in t && top <= q
  {
    W.Clear(W.Inspect(w, t, q)) && (q != top && q != [] ==> !W.Transitory(w, t, q))
  }

  lemma CalmIsClear(w: W.Walk, t: Tree, p: Path)
    requires WellFormed(t) && Calm(w, t, p)
    ensures W.Clear(W.Visit(w, t, p))
  {
    hide W.Inspect, W.Transitory, W.Visit;
    forall q | q in t && W.Reached(w, p, q) ensures W.Calm(w, t, p, q) { assert CalmAt(w, t, p, q); }
    W.CalmIsClear(w, t, p);
  }

  lemma {:induction false} AllOpen(w: W.Walk, top: Path, p: Path)
    requires w.held == {} && w.options.ctx == EVERYTHING && top <= p
    ensures W.Open(w, top, p) && W.Reached(w, top, p)
    decreases |p|
  {
    if p != top { AllOpen(w, top, Parent(p)); }
  }

  function Walking(f: W.Family): W.Walk {
    WalkOf(SETUP, {}, f)
  }

  lemma SiblingLink(v: Variant)
    requires Usable(v.extra)
    ensures var t := Sample(v).state;
            && WellFormed(t) && At("a") in t && At("b") in t && t[At("a")].kind == Regular("")
            && t[At("b")].kind == Link("a")
            && InspectLink(t, At("b"), SETUP.options.policy)
                == Accepted(LinkInfo("a", Some(At("a")), false, RuntimeDependency, true, Internal))
  {
    hide TopList, MANDATORY, TopPaths, MandatoryPaths;
    SampleIsSound(v);
    FolderIsThere(v, MODULES);
    AtIs("a");
    AtIs("b");
    var t := Sample(v).state;
    assert At("a") in StatePaths(v.extra) && At("b") in StatePaths(v.extra);
    SiblingIsAccepted(t, SETUP.options.policy);
  }

  /** Nothing in the state root is objected to, whichever family walks it. */
  lemma StateIsCalm(v: Variant, f: W.Family, top: Path)
    requires Usable(v.extra) && top in StatePaths(v.extra) && top != []
    ensures WellFormed(Sample(v).state)
    ensures Calm(Walking(f), Sample(v).state, top)
  {
    hide TopList, MANDATORY, StatePaths, NodeAt, W.Inspect, W.Transitory;
    SampleIsSound(v);
    var t := Sample(v).state;
    forall q | q in t && top <= q ensures CalmAt(Walking(f), t, top, q) {
      StateIsClear(v, f, q);
      if q != top { NotTransient(v, f, top, q); }
    }
  }

  lemma StateIsClear(v: Variant, f: W.Family, q: Path)
    requires Usable(v.extra) && q in StatePaths(v.extra)
    ensures WellFormed(Sample(v).state)
    ensures W.Clear(W.Inspect(Walking(f), Sample(v).state, q))
  {
    hide TopList, MANDATORY, StatePaths, InspectLink, SafePath;
    SampleIsSound(v);
    FolderIsThere(v, []);
    PathsArePlaced(v.extra, q);
    PlacedIsSafe(q, v.extra);
    SiblingLink(v);
  }

  lemma NotTransient(v: Variant, f: W.Family, top: Path, q: Path)
    requires Usable(v.extra) && top in StatePaths(v.extra) && q in StatePaths(v.extra) && top < q && top != []
    ensures !W.Transitory(Walking(f), Sample(v).state, q)
  {
    hide TopList, MANDATORY, StatePaths, NodeAt, Quiet;
    PathsArePlaced(v.extra, q);
    LiteralsAreNames();
    TaskFilesAreQuiet();
    QuietIsSettled(Last(q));
  }

  lemma TaskFilesAreQuiet()
    ensures Quiet(STORE[1]) && Quiet(EVENTS[1])
  {
  }

  // ---------------------------------------------------------------- every family is fine

  /** The policy has the fixed families only. */
  lemma PolicyIsFixed(v: Variant)
    requires Usable(v.extra)
    ensures |PolicyOf({}, Sample(v))| == 26
  {
    hide TopList, MANDATORY, StatePaths, NodeAt, Policy, Sample;
    var names := StateNames(Sample(v).state, {});
    PolicyLength(names);
    if Preserved(names) != [] {
      var n := Preserved(names)[0];
      assert n in Preserved(names) && n in Elements(names);
      assert [] + [n] == [n];
      ShortName(v, n);
    }
  }

  lemma ShortName(v: Variant, n: Name)
    requires Usable(v.extra) && [n] in Sample(v).state
    ensures |n| < 31 && (n == TASKS || exists i :: 0 <= i < 22 && TopFamily(i).relative == [n])
  {
    hide TopList, MANDATORY, StatePaths, NodeAt;
    PathsArePlaced(v.extra, [n]);
    AllTopFacts();
    if n != TASKS {
      assert [n] in TopPaths();
      var i :| 0 <= i < 22 && [n] == TopFamily(i).relative;
    }
  }

  /** A path whose recording gives a family an entry. */
  function Proof(f: W.Family): Path {
    if f.root == W.AgentsRoot then PLISTS[0]
    else if f.relative == RESULTS then MANDATORY[0]
    else if f.relative == ["receipts"] then MANDATORY[5]
    else if f.relative == ["nodes"] then MANDATORY[1]
    else if f.relative == ["runtime"] then At("a")
    else f.relative
  }

  lemma ProofIsThere(extra: Name, i: nat)
    requires i < 22
    ensures var p := Proof(TopFamily(i));
            TopFamily(i).relative <= p && p in StatePaths(extra) && p !in FOLDERS && p != At("b")
                && TopFamily(i).relative in StatePaths(extra)
  {
    hide MANDATORY, TopList;
    var f := TopFamily(i);
    AllTopFacts();
    assert f.relative in TopPaths();
    MandatoryShape();
    if f.relative == ["runtime"] { assert At("a")[..1] == ["runtime"]; AtIs("a"); AtIs("b"); }
  }

  lemma MandatoryShape()
    ensures |MANDATORY| == 8 && MANDATORY[0][..1] == RESULTS && MANDATORY[5][..1] == ["receipts"]
    ensures MANDATORY[1][..1] == ["nodes"]
    ensures |MANDATORY[0]| == 2 && |MANDATORY[5]| == 2 && |MANDATORY[1]| == 2
    ensures MANDATORY[0] in MandatoryPaths() && MANDATORY[5] in MandatoryPaths() && MANDATORY[1] in MandatoryPaths()
  {
  }

  /** Each start of each family is there and its walk is calm. */
  lemma StartIsCalm(v: Variant, i: nat, start: Path)
    requires Usable(v.extra) && IsStart(SETUP, {}, Sample(v), i, start)
    ensures var roots := Sample(v);
            var f := PolicyOf({}, roots)[i];
            Sound(roots) && Calm(Walking(f), roots.At(f.root), start)
  {
    hide TopList, MANDATORY, StatePaths, NodeAt, PolicyOf, Sample, Calm, PLISTS;
    var roots := Sample(v);
    SampleIsSound(v);
    StartShape(SETUP, {}, roots, i, start);
    var f := PolicyOf({}, roots)[i];
    match f.root
    case StateRoot =>
      StartIsPath(v, i, start);
      StateIsCalm(v, f, start);
    case AgentsRoot => AgentIsCalm(v, f, start);
    case WorkerRoot => WorkerIsCalm(v, f);
  }

  lemma StartIsPath(v: Variant, i: nat, start: Path)
    requires Usable(v.extra) && IsStart(SETUP, {}, Sample(v), i, start)
    requires PolicyOf({}, Sample(v))[i].root == W.StateRoot
    ensures start in StatePaths(v.extra) && start != []
  {
    hide TopList, MANDATORY, NodeAt, Policy, Sample, PLISTS, TopPaths, IsResidue, Starts, Shaped, W.ListNames,
         IsHistorical, OwnsTop;
    var roots := Sample(v);
    StartShape(SETUP, {}, roots, i, start);
    if |start| == 2 {
      forall base | IsResidue(HOST, roots.state, start[1], base) ensures [TASKS, start[1]] in StatePaths(v.extra) {
        ResidueIsThere(v, start[1], base);
      }
      assert start == [start[0], start[1]];
    }
    if |start| == 1 {
      PolicyIsFixed(v);
      PolicyAt(StateNames(roots.state, {}), i);
      PolicyLength(StateNames(roots.state, {}));
      assert start == TopFamily(i - 2).relative;
      TopPath(i - 2);
    }
  }

  lemma ResidueIsThere(v: Variant, n: Name, base: Name)
    requires IsResidue(HOST, Sample(v).state, n, base)
    ensures [TASKS, n] in StatePaths(v.extra)
  {
    hide StatePaths, NodeAt, TemporaryOf;
  }

  lemma TopPath(i: nat)
    requires i < 22
    ensures TopFamily(i).relative in TopPaths()
  {
    hide TopList;
  }

  lemma AgentIsCalm(v: Variant, f: W.Family, p: Path)
    requires Usable(v.extra) && p in PLISTS
    ensures var t := Sample(v).agents; WellFormed(t) && Calm(Walking(f), t, p)
  {
    hide TopList, MANDATORY, StatePaths, NodeAt, PLISTS, SafePath;
    SampleIsSound(v);
    var t := Sample(v).agents;
    var k :| 0 <= k < |PLISTS| && PLISTS[k] == p;
    PlistIsSafe(k);
    forall q | q in t && p <= q ensures CalmAt(Walking(f), t, p, q) {
      AgentPathIsShort(q);
      assert q == p;
    }
  }

  lemma PlistIsSafe(k: nat)
    requires k < |PLISTS|
    ensures SafePath(PLISTS[k]) && |PLISTS[k]| == 1
  {
    hide PLISTS;
    PlistIsName(k);
  }

  lemma AgentPathIsShort(p: Path)
    requires p in AgentPaths()
    ensures |p| <= 1 && (p in PLISTS ==> p != [])
  {
    if p != [] {
      var k :| 0 <= k < |PLISTS| && p == PLISTS[k];
    }
  }

  lemma WorkerIsCalm(v: Variant, f: W.Family)
    requires Usable(v.extra)
    ensures var t := Sample(v).worker; WellFormed(t) && Calm(Walking(f), t, ["config.json"])
  {
    hide TopList, MANDATORY, StatePaths, NodeAt, PLISTS;
    SampleIsSound(v);
    var t := Sample(v).worker;
    MoreNamesArePlain();
    PlainIsName("config.json");
    forall q | q in t && ["config.json"] <= q ensures CalmAt(Walking(f), t, ["config.json"], q) {}
  }

  /** Every path under a start is in its family's report. */
  lemma PathIsReported(v: Variant, i: nat, start: Path, p: Path)
    returns (item: W.Item)
    requires Usable(v.extra) && IsStart(SETUP, {}, Sample(v), i, start) && start <= p
    requires p in Sample(v).At(PolicyOf({}, Sample(v))[i].root)
    ensures var roots := Sample(v); var f := PolicyOf({}, roots)[i];
            && Sound(roots) && W.Clear(FamilyReport(SETUP, {}, roots, f))
            && item in FamilyReport(SETUP, {}, roots, f).items
            && W.Clear(W.Inspect(Walking(f), roots.At(f.root), p))
            && W.Inspect(Walking(f), roots.At(f.root), p).items == [item]
  {
    hide TopList, MANDATORY, StatePaths, NodeAt, PolicyOf, Sample, Calm, PLISTS, W.Visit, W.Inspect, Starts, W.Records,
         VisitAll, Walking, Usable;
    var roots := Sample(v);
    var f := PolicyOf({}, roots)[i];
    FamilyIsCalm(v, i);
    StartIsCalm(v, i, start);
    item := CalmItem(Walking(f), roots.At(f.root), start, p);
    var starts := Starts(SETUP.host, roots.state, {}, f);
    var k :| 0 <= k < |starts| && starts[k] == start;
    ReportIs(roots, f);
    VisitAllRecords(Walking(f), roots.At(f.root), starts, item);
  }

  /** A calm walk records everything below its top. */
  lemma CalmItem(w: W.Walk, t: Tree, top: Path, p: Path) returns (item: W.Item)
    requires WellFormed(t) && Calm(w, t, top) && p in t && top <= p
    ensures W.Inspect(w, t, p).items == [item] && W.Records(w, t, top, item)
    ensures W.Clear(W.Inspect(w, t, p)) && W.Clear(W.Visit(w, t, top))
  {
    hide W.Inspect, W.Visit, W.Transitory;
    CalmIsClear(w, t, top);
    assert CalmAt(w, t, top, p);
    W.ClearInspect(w, t, p);
    AllOpen(w, top, p);
    item := W.Inspect(w, t, p).items[0];
    assert W.Inspect(w, t, p).items == [item];
  }

  lemma ReportIs(roots: Roots, f: W.Family)
    requires Sound(roots)
    ensures FamilyReport(SETUP, {}, roots, f)
        == VisitAll(Walking(f), roots.At(f.root), Starts(SETUP.host, roots.state, {}, f))
  {
  }

  lemma FamilyIsCalm(v: Variant, i: nat)
    requires Usable(v.extra) && i < |PolicyOf({}, Sample(v))|
    ensures var roots := Sample(v);
            Sound(roots) && W.Clear(FamilyReport(SETUP, {}, roots, PolicyOf({}, roots)[i]))
  {
    hide TopList, MANDATORY, StatePaths, NodeAt, PolicyOf, Sample, Calm, PLISTS, W.Visit, Starts;
    SampleIsSound(v);
    var roots := Sample(v);
    var f := PolicyOf({}, roots)[i];
    var starts := Starts(SETUP.host, roots.state, {}, f);
    forall k | 0 <= k < |starts| ensures W.Clear(W.Visit(Walking(f), roots.At(f.root), starts[k])) {
      StartIsCalm(v, i, starts[k]);
      CalmIsClear(Walking(f), roots.At(f.root), starts[k]);
    }
    AllClear(Walking(f), roots.At(f.root), starts);
  }

  // ---------------------------------------------------------------- the whole inspection

  lemma FamilyIsFine(v: Variant, i: nat)
    requires Usable(v.extra) && i < |PolicyOf({}, Sample(v))|
    ensures var roots := Sample(v); var f := PolicyOf({}, roots)[i];
            Sound(roots) && FamilyProblems(f, roots.At(f.root), FamilyReport(SETUP, {}, roots, f)) == []
  {
    hide TopList, MANDATORY, StatePaths, NodeAt, PolicyOf, Sample, PLISTS, W.Visit, W.Inspect, FamilyReport, Usable;
    var roots := Sample(v);
    var f := PolicyOf({}, roots)[i];
    FamilyIsCalm(v, i);
    var start, p := FamilyProof(v, i);
    var item := PathIsReported(v, i, start, p);
    EntryThere(Walking(f), roots.At(f.root), p, item, FamilyReport(SETUP, {}, roots, f).items);
  }

  lemma EntryThere(w: W.Walk, t: Tree, p: Path, item: W.Item, items: seq<W.Item>)
    requires WellFormed(t) && p in t && t[p].kind.Regular? && W.Inspect(w, t, p).items == [item] && item in items
    requires w.options.ctx == EVERYTHING
    ensures HasEntry(items)
  {
    DefaultExcludes(w.family.id, p);
  }

  lemma DefaultExcludes(family: string, p: Path)
    ensures RuleFor(family, p, EVERYTHING).None?
  {
  }

  /** A start of each family, and a file below it. */
  lemma FamilyProof(v: Variant, i: nat) returns (start: Path, p: Path)
    requires Usable(v.extra) && i < |PolicyOf({}, Sample(v))|
    ensures var roots := Sample(v); var f := PolicyOf({}, roots)[i];
            && IsStart(SETUP, {}, roots, i, start) && start <= p && p in roots.At(f.root)
            && roots.At(f.root)[p].kind.Regular?
  {
    hide TopList, MANDATORY, PolicyOf, StateNames, Sample, StatePaths, PLISTS, Proof, Usable;
    var roots := Sample(v);
    var f := PolicyOf({}, roots)[i];
    var names := StateNames(roots.state, {});
    PolicyIs(roots);
    PolicyIsFixed(v);
    PolicyAt(names, i);
    PolicyLength(names);
    if i == 24 {
      AgentFile(v);
      start, p := PLISTS[0], PLISTS[0];
    } else if i == 25 {
      start := ["config.json"];
      p := start;
      WorkerFile(v);
      RelativeIsStart(roots, i) by { assert "worker"[0] == 'w' && "services"[0] == 's'; }
    } else if i < 2 {
      start, p := f.relative, f.relative;
      TaskFiles(v.extra);
      StateFile(v, p);
      RelativeIsStart(roots, i) by { assert "tasks"[0] == 't' && "events"[0] == 'e' && "services"[0] == 's'; }
    } else {
      start, p := f.relative, Proof(f);
      ProofIsThere(v.extra, i - 2);
      TopIsNoService(i - 2);
      StateFile(v, p);
      RelativeIsStart(roots, i);
    }
  }

  lemma RelativeIsStart(roots: Roots, i: nat)
    requires i < |PolicyOf({}, roots)| && PolicyOf({}, roots)[i].id != "services"
    ensures IsStart(SETUP, {}, roots, i, PolicyOf({}, roots)[i].relative)
  {
    hide PolicyOf;
    assert Starts(SETUP.host, roots.state, {}, PolicyOf({}, roots)[i])[0] == PolicyOf({}, roots)[i].relative;
  }

  lemma StateFile(v: Variant, p: Path)
    requires p in StatePaths(v.extra) && p !in FOLDERS && p != At("b")
    ensures p in Sample(v).state
    ensures Sample(v).state[p].kind == Regular("")
  {
    hide StatePaths, FOLDERS;
    FoldersHold();
  }

  lemma FoldersHold()
    ensures RESULTS in FOLDERS
  {
  }

  lemma TaskFiles(extra: Name)
    ensures STORE in StatePaths(extra) && STORE !in FOLDERS && STORE != At("b")
    ensures EVENTS in StatePaths(extra) && EVENTS !in FOLDERS && EVENTS != At("b")
  {
    hide TopList, MANDATORY;
    assert STORE[0] == "tasks" && "tasks"[0] == 't' && "runtime"[0] == 'r' && |STORE| == 2 && |EVENTS| == 2;
    AtIs("b");
  }

  lemma AgentFile(v: Variant)
    ensures var t := Sample(v).agents;
            |PLISTS| == 5 && PLISTS[0] != [] && PLISTS[0] in t && t[PLISTS[0]].kind == Regular("")
  {
  }

  lemma WorkerFile(v: Variant)
    ensures var t := Sample(v).worker;
        ["config.json"] in t && t[["config.json"]].kind == Regular("")
  {
  }

  lemma PolicyIs(roots: Roots)
    ensures PolicyOf({}, roots) == Policy(StateNames(roots.state, {}))
  {
  }

  lemma TopIsNoService(i: nat)
    requires i < 22
    ensures TopFamily(i).id != "services" && TopFamily(i).root == W.StateRoot && |TopFamily(i).relative| == 1
  {
    hide TopList;
    AllTopFacts();
  }

  lemma {:induction false} AllFine(roots: Roots, policy: seq<W.Family>)
    requires Sound(roots) && forall i :: 0 <= i < |policy| ==>
      FamilyProblems(policy[i], roots.At(policy[i].root), FamilyReport(SETUP, {}, roots, policy[i])) == []
    ensures AllFamilyProblems(SETUP, {}, roots, policy) == []
  {
    hide FamilyProblems, FamilyReport;
    if policy != [] { AllFine(roots, policy[1..]); }
  }

  lemma SampleIsWalked(v: Variant)
    requires Usable(v.extra)
    ensures Sound(Sample(v)) && Walked(SETUP, {}, Sample(v))
  {
    hide TopList, MANDATORY, StatePaths, NodeAt, PolicyOf, Sample, PLISTS, FamilyProblems, FamilyReport, Usable;
    var roots := Sample(v);
    SampleIsSound(v);
    forall i | 0 <= i < |PolicyOf({}, roots)|
      ensures FamilyProblems(PolicyOf({}, roots)[i], roots.At(PolicyOf({}, roots)[i].root),
          FamilyReport(SETUP, {}, roots, PolicyOf({}, roots)[i])) == []
    {
      FamilyIsFine(v, i);
    }
    AllFine(roots, PolicyOf({}, roots));
  }

  /** Every path under a start has its record, as inspected there. */
  lemma PathIsRecorded(v: Variant, i: nat, start: Path, p: Path) returns (r: Record)
    requires Usable(v.extra) && IsStart(SETUP, {}, Sample(v), i, start) && start <= p
    requires p in Sample(v).At(PolicyOf({}, Sample(v))[i].root)
    ensures var roots := Sample(v); var f := PolicyOf({}, roots)[i];
            && Sound(roots) && r in Records(SETUP, {}, roots) && r.root == f.root && r.item.at == p
            && W.Inspect(Walking(f), roots.At(f.root), p).items == [r.item]
  {
    hide TopList, MANDATORY, StatePaths, NodeAt, PolicyOf, Sample, PLISTS, W.Inspect, FamilyReport, Usable, Records,
         Walking;
    var roots := Sample(v);
    var f := PolicyOf({}, roots)[i];
    var item := PathIsReported(v, i, start, p);
    r := Record(f.id, f.root, item);
    W.ClearInspect(Walking(f), roots.At(f.root), p);
    FamilyRecordsAre(SETUP, {}, roots, PolicyOf({}, roots), r);
    FamilyRecordIsRecord(SETUP, {}, roots, r);
  }

  /** The same for a path below a top-level name of the state root. */
  lemma StatePathIsRecorded(v: Variant, i: nat, p: Path) returns (r: Record)
    requires Usable(v.extra) && i < 22 && TopFamily(i).relative <= p && p in StatePaths(v.extra)
    ensures var roots := Sample(v);
            && Sound(roots) && r in Records(SETUP, {}, roots) && r.root == W.StateRoot && r.item.at == p
            && W.Inspect(Walking(TopFamily(i)), roots.state, p).items == [r.item]
  {
    hide TopList, MANDATORY, StatePaths, NodeAt, PolicyOf, PLISTS, W.Inspect, FamilyReport, Usable, Records, Walking,
         StateNames;
    var roots := Sample(v);
    var names := StateNames(roots.state, {});
    PolicyIs(roots);
    PolicyLength(names);
    PolicyAt(names, i + 2);
    TopIsNoService(i);
    RelativeIsStart(roots, i + 2);
    r := PathIsRecorded(v, i + 2, TopFamily(i).relative, p);
  }

  lemma FileRecord(f: W.Family, t: Tree, p: Path, item: W.Item)
    requires WellFormed(t) && p in t && t[p].kind.Regular? && W.Inspect(Walking(f), t, p).items == [item]
    ensures item.Entry? && item.detail.FileDetail? && item.at == p
  {
    DefaultExcludes(f.id, p);
  }

  lemma NamesAreKnown(v: Variant)
    requires Usable(v.extra)
    ensures NamesKnown({}, Sample(v))
  {
    hide TopList, MANDATORY, StatePaths, NodeAt, Policy, PLISTS;
    var roots := Sample(v);
    var names := StateNames(roots.state, {});
    forall n | n in names ensures Known(Policy(names), n) {
      assert n in Elements(names) && [] + [n] == [n];
      ShortName(v, n);
      PolicyLength(names);
      if n == TASKS {
        PolicyAt(names, 0);
      } else {
        var i :| 0 <= i < 22 && TopFamily(i).relative == [n];
        TopIsNoService(i);
        PolicyAt(names, i + 2);
      }
    }
    forall n | n in Children(roots.agents, []) ensures AgentNameOk(n) { assert [] + [n] == [n]; AgentName(n); }
    forall n | n in Children(roots.worker, []) ensures WorkerNameOk(roots.worker, n) { assert [] + [n] == [n]; }
  }

  lemma AgentName(n: Name)
    requires [n] in AgentPaths()
    ensures [n] in PLISTS
  {
  }

  lemma TasksAreOk(v: Variant)
    requires Usable(v.extra)
    ensures ControlOk(Sample(v).state, {})
    ensures TasksOk(HOST, Sample(v).state, {})
  {
    hide TopList, MANDATORY, StatePaths, NodeAt, W.ListNames, Sample, TaskNameOk, Usable;
    var t := Sample(v).state;
    NoControl(v);
    FolderIsThere(v, [TASKS]);
    W.ListedNames(t, {}, [TASKS]);
    forall n | n in W.ListNames(t, {}, [TASKS]) ensures TaskNameOk(HOST, t, n) {
      assert [TASKS] + [n] == [TASKS, n];
      TaskName(v, n);
    }
  }

  lemma NoControl(v: Variant)
    requires Usable(v.extra)
    ensures [CONTROL] !in Sample(v).state
  {
    hide TopList, MANDATORY, StatePaths, NodeAt, Sample;
    AllTopFacts();
    assert "tasks"[0] == 't' && "checkpoint"[0] == 'c';
    if [CONTROL] in Sample(v).state { ShortName(v, CONTROL); }
  }

  lemma TaskName(v: Variant, n: Name)
    requires Usable(v.extra) && [TASKS, n] in Sample(v).state
    ensures TaskNameOk(HOST, Sample(v).state, n)
  {
    hide TopList, MANDATORY, StatePaths, NodeAt;
    PathsArePlaced(v.extra, [TASKS, n]);
    assert "tasks"[0] == 't' && "results"[0] == 'r' && "receipts"[0] == 'r' && "nodes"[0] == 'n' && "runtime"[0] == 'r';
  }

  /** Every mandatory file is recorded. */
  lemma MandatoryAreRecorded(v: Variant)
    requires Usable(v.extra) && Sound(Sample(v))
    ensures MandatoryPresent(Records(SETUP, {}, Sample(v)))
  {
    hide TopList, MANDATORY, StatePaths, NodeAt, Sample, Records, Usable, W.Inspect;
    var roots := Sample(v);
    forall k | 0 <= k < |MANDATORY| ensures HasEntryAt(Records(SETUP, {}, roots), MANDATORY[k]) {
      var i := MandatoryOwner(v.extra, k);
      var r := StatePathIsRecorded(v, i, MANDATORY[k]);
      StateFile(v, MANDATORY[k]);
      FileRecord(TopFamily(i), roots.state, MANDATORY[k], r.item);
      var j :| 0 <= j < |Records(SETUP, {}, roots)| && Records(SETUP, {}, roots)[j] == r;
    }
  }

  lemma MandatoryOwner(extra: Name, k: nat) returns (i: nat)
    requires k < |MANDATORY|
    ensures i < 22 && TopFamily(i).relative <= MANDATORY[k] && MANDATORY[k] in StatePaths(extra)
    ensures MANDATORY[k] !in FOLDERS && MANDATORY[k] != At("b")
  {
    hide MANDATORY, TopList, Usable;
    TopsAreThere();
    MandatoryArePlaced(k);
    AtIs("b");
    var p := MANDATORY[k];
    assert p in MandatoryPaths();
    assert p[..1] == [p[0]];
    assert "runtime"[0] == 'r' && "results"[2] == 's' && "receipts"[2] == 'c' && "runtime"[2] == 'n'
        && "nodes"[0] == 'n';
    i := if p[0] == "results" then 0 else if p[0] == "receipts" then 1 else 2;
  }

  /** The only link is b, and its target is recorded. */
  lemma TargetsAreCovered(v: Variant)
    requires Usable(v.extra) && Sound(Sample(v))
    ensures TargetsCovered(Records(SETUP, {}, Sample(v)))
    ensures TargetsKept(Records(SETUP, {}, Sample(v)))
  {
    hide TopList, MANDATORY, StatePaths, NodeAt, Sample, Records, Usable, W.Inspect, Walked;
    var roots := Sample(v);
    var records := Records(SETUP, {}, roots);
    SampleIsWalked(v);
    TargetRecorded(v);
    forall k | 0 <= k < |records| ensures !records[k].item.Excluded? { NothingExcluded(roots, records[k]); }
    forall k | 0 <= k < |records| && records[k].item.Entry? && records[k].item.detail.LinkDetail?
      ensures records[k].root == W.StateRoot && records[k].item.detail.info.resolved == Some(At("a"))
    {
      LinkIsB(v, records[k]);
    }
  }

  lemma TargetRecorded(v: Variant)
    requires Usable(v.extra) && Sound(Sample(v))
    ensures Covers(Records(SETUP, {}, Sample(v)), W.StateRoot, At("a"))
  {
    hide TopList, MANDATORY, NodeAt, Sample, Records, Usable, W.Inspect, TopPaths, MandatoryPaths;
    var roots := Sample(v);
    TopsAreThere();
    AtIs("a");
    AtIs("b");
    assert ["runtime"] <= At("a") && At("a") in StatePaths(v.extra) && At("a") !in FOLDERS && At("a") != At("b");
    var r := StatePathIsRecorded(v, 10, At("a"));
    StateFile(v, At("a"));
    FileRecord(TopFamily(10), roots.state, At("a"), r.item);
    var j :| 0 <= j < |Records(SETUP, {}, roots)| && Records(SETUP, {}, roots)[j] == r;
  }

  /** Under the default options no exclusion is recorded at all. */
  lemma NothingExcluded(roots: Roots, r: Record)
    requires Sound(roots) && Walked(SETUP, {}, roots) && r in Records(SETUP, {}, roots)
    ensures !r.item.Excluded?
  {
    DefaultRecordsNoExclusion(SETUP, {}, roots, r);
  }

  lemma LinkIsB(v: Variant, r: Record)
    requires Usable(v.extra) && Sound(Sample(v)) && Walked(SETUP, {}, Sample(v))
    requires r in Records(SETUP, {}, Sample(v)) && LinkRecord(r)
    ensures r.root == W.StateRoot && r.item.at == At("b") && r.item.detail.info.resolved == Some(At("a"))
  {
    hide TopList, MANDATORY, StatePaths, Sample, Records, Usable, Walked, InspectLink;
    RecordedLink(SETUP, {}, Sample(v), r);
    OnlyLink(v, r.root, r.item.at);
    SiblingLink(v);
  }

  lemma OnlyLink(v: Variant, root: W.Root, p: Path)
    requires p in Sample(v).At(root) && Sample(v).At(root)[p].kind.Link?
    ensures root == W.StateRoot && p == At("b")
  {
    hide StatePaths, AgentPaths;
  }

  lemma NoHistory(v: Variant)
    requires Usable(v.extra) && Sound(Sample(v))
    ensures HistoricalComplete(Records(SETUP, {}, Sample(v)),
        PolicyOf({}, Sample(v)))
  {
    hide TopList, Policy, Records, Sample, Usable;
    var roots := Sample(v);
    var names := StateNames(roots.state, {});
    PolicyIsFixed(v);
    forall i | 0 <= i < |PolicyOf({}, roots)| ensures PolicyOf({}, roots)[i].id != "historical-preservation" {
      PolicyAt(names, i);
      if 2 <= i < 24 { PolicyLength(names); TopIsNotHistorical(i - 2); }
      assert "historical-preservation"[0] == 'h' && "tasks"[0] == 't' && "events"[0] == 'e' && "services"[0] == 's'
          && "worker"[0] == 'w';
    }
  }

  lemma TopIsNotHistorical(i: nat)
    requires i < 22
    ensures TopFamily(i).id != "historical-preservation"
  {
    assert "historical-preservation"[0] == 'h';
  }

  /** THE SAMPLE IS READY, whatever the two modes and the name are. */
  lemma SampleIsReady(v: Variant)
    requires Usable(v.extra)
    ensures Ready(SETUP, {}, Sample(v))
  {
    hide TopList, MANDATORY, StatePaths, NodeAt, Sample, Records, Usable, Policy, NamesKnown, ControlOk, TasksOk,
         AllFamilyProblems,
         TargetsCovered, TargetsKept, HistoricalComplete, MandatoryPresent;
    SampleIsWalked(v);
    NamesAreKnown(v);
    TasksAreOk(v);
    TargetsAreCovered(v);
    NoHistory(v);
    MandatoryAreRecorded(v);
  }

  // ---------------------------------------------------------------- where the theorems draw the line

  lemma ReadySample(v: Variant)
    requires Usable(v.extra)
    ensures Ready(SETUP, {}, Sample(v)) && Walked(SETUP, {}, Sample(v))
    ensures InspectCoverage(SETUP, {}, Sample(v)).problems == []
    ensures InspectCoverage(SETUP, {}, Sample(v)).records == Records(SETUP, {}, Sample(v))
    ensures InspectCoverage(SETUP, {}, Sample(v)).volumes == [1, 1, 1]
    ensures LinksStay(Records(SETUP, {}, Sample(v)), Sample(v), SETUP.options.policy)
  {
    hide ProblemFree, Records, Usable, Policy, StatePaths, AgentPaths, LinksStay, InspectLink, PolicyOf, FamilyReport,
         MANDATORY;
    SampleIsReady(v);
    ReadyIsWalked(SETUP, {}, Sample(v));
    ReadyInspects(SETUP, {}, Sample(v));
    UsualLinksStay(SETUP, {}, Sample(v));
  }

  /** A name with a backslash, a\\b, and one without. */
  lemma SampleNames()
    ensures Usable("a\\b") && '\\' in "a\\b"
    ensures Usable("x") && '\\' !in "x"
  {
    assert "a\\b"[1] == '\\' && "a\\b"[1..] == "\\b" && "\\b"[1..] == "b" && "b"[1..] == "";
    assert Pieces("") == [""] && Pieces("b") == ["b"] && Pieces("\\b") == ["", "b"] && ["", "b"][1..] == ["b"];
    assert Pieces("a\\b") == ["a" + ""] + ["b"] && "a" + "" == "a";
    assert "a\\b"[0] == 'a' && "manifest.json"[0] == 'm' && Pieces("x") == ["x"];
  }

  /** With a file results/a\\b the inspection has no problem, and the manifest is not valid. */
  lemma BackslashIsRefused() returns (v: Variant)
    ensures Sound(Sample(v)) && InspectCoverage(SETUP, {}, Sample(v)).problems == []
    ensures !ValidManifest(SETUP.host, SETUP.options.ctx, InspectCoverage(SETUP, {}, Sample(v)))
  {
    hide InspectCoverage, ValidManifest, Sample, Records, PlainListings, Usable, ProblemFree, SETUP;
    v := Variant(493, OWNER, 493, "a\\b");
    SampleNames();
    ReadySample(v);
    ProblemFreeIsValid(SETUP, {}, Sample(v));
    ExtraIsListed(v);
  }

  /** The record of results/ lists the extra name. */
  lemma ExtraIsListed(v: Variant)
    requires Usable(v.extra) && Sound(Sample(v)) && '\\' in v.extra
    ensures !PlainListings(Records(SETUP, {}, Sample(v)))
  {
    hide TopList, MANDATORY, NodeAt, Sample, Records, TopPaths, MandatoryPaths;
    var r := ResultsRecord(v);
    var k :| 0 <= k < |Records(SETUP, {}, Sample(v))| && Records(SETUP, {}, Sample(v))[k] == r;
    var j :| 0 <= j < |r.item.names| && r.item.names[j] == v.extra;
    assert !PlainNames(r.item.names);
  }

  lemma ResultsRecord(v: Variant) returns (r: Record)
    requires Usable(v.extra) && Sound(Sample(v))
    ensures r in Records(SETUP, {}, Sample(v)) && r.root == W.StateRoot && r.item.Directory? && r.item.at == RESULTS
    ensures r.item.mode == Permissions(v.resultsMode) && r.item.owner == v.owner && v.extra in r.item.names
  {
    hide TopList, MANDATORY, Records, TopPaths, MandatoryPaths, W.ListNames, Usable, Placed, InspectLink, PLISTS,
         Sound;
    var t, w := Sample(v).state, Walking(TopFamily(0));
    TopsAreThere();
    FoldersHold();
    assert RESULTS in StatePaths(v.extra) && RESULTS + [v.extra] in StatePaths(v.extra);
    r := StatePathIsRecorded(v, 0, RESULTS);
    DefaultExcludes(TopFamily(0).id, RESULTS);
    W.ListedNames(t, {}, RESULTS);
    ListingIsSorted(t, {}, RESULTS);
    C.KeepFilters(w, RESULTS, W.ListNames(t, {}, RESULTS));
    DefaultExcludes(TopFamily(0).id, RESULTS + [v.extra]);
  }

  /** What is recorded is what new items show exactly when the link has the mode of a new link and results/ belongs to
      the copier. */
  lemma NewExactly(v: Variant)
    requires Usable(v.extra) && Sound(Sample(v))
    ensures AllAsNew(HOST, Records(SETUP, {}, Sample(v))) <==>
            Permissions(v.linkMode) == Permissions(HOST.linkMode) && v.owner == HOST.owner
  {
    hide TopList, MANDATORY, Sample, NodeAt, Records, TopPaths, MandatoryPaths, Usable, W.Inspect, Permissions, Walked,
         Policy, FamilyReport, PLISTS;
    var records := Records(SETUP, {}, Sample(v));
    ReadySample(v);
    var d := ResultsRecord(v);
    var i :| 0 <= i < |records| && records[i] == d;
    var l := LinkIsRecorded(v);
    var j :| 0 <= j < |records| && records[j] == l;
    if Permissions(v.linkMode) == Permissions(HOST.linkMode) && v.owner == HOST.owner {
      forall k | 0 <= k < |records| ensures AsNew(HOST, records[k].item) {
        RecordDescribes(SETUP, {}, Sample(v), records[k]);
        OwnerIs(v, records[k].root, records[k].item.at);
      }
    }
  }

  /** Everything but results/ belongs to the copier, and a link has the mode left open. */
  lemma OwnerIs(v: Variant, root: W.Root, p: Path)
    requires p in Sample(v).At(root)
    ensures var n := Sample(v).At(root)[p];
            (v.owner == OWNER ==> n.owner == OWNER) && (n.kind.Link? ==> n.mode == v.linkMode)
  {
    hide StatePaths, AgentPaths;
  }

  lemma LinkIsRecorded(v: Variant) returns (r: Record)
    requires Usable(v.extra) && Sound(Sample(v))
    ensures r in Records(SETUP, {}, Sample(v)) && LinkRecord(r) && r.item.mode == Permissions(v.linkMode)
  {
    hide TopList, MANDATORY, NodeAt, Sample, Records, TopPaths, MandatoryPaths, Usable, W.Inspect;
    SampleIsWalked(v);
    TopsAreThere();
    AtIs("b");
    assert ["runtime"] <= At("b") && At("b") in StatePaths(v.extra);
    r := StatePathIsRecorded(v, 10, At("b"));
    SiblingLink(v);
    LinkEntry(TopFamily(10), Sample(v).state, At("b"), r.item);
    OwnerIs(v, W.StateRoot, At("b"));
  }

  lemma LinkEntry(f: W.Family, t: Tree, p: Path, item: W.Item)
    requires WellFormed(t) && p in t && t[p].kind.Link? && W.Inspect(Walking(f), t, p).items == [item]
    ensures item.Entry? && item.detail.LinkDetail? && item.at == p && item.mode == Permissions(t[p].mode)
  {
    hide InspectLink;
    DefaultExcludes(f.id, p);
  }

  /** 0o500 denies its owner, and 0o700 is not the mode of a new link. */
  lemma SampleModes()
    ensures !MayFill(Permissions(320)) && Permissions(448) != Permissions(HOST.linkMode)
  {
  }

  /** With a link of mode 0o700, or a directory of another owner, source and copy both inspect without problems, and no
      copy verifies. */
  lemma OldIsRefused(v: Variant, device: nat, copy: Roots)
    requires v == Variant(493, OWNER, 448, "x") || v == Variant(493, OWNER + 1, 493, "x")
    requires Sound(Sample(v)) && AreCopies(SETUP.host, Records(SETUP, {}, Sample(v)), Sample(v), device, copy)
    ensures Sound(copy) && InspectCoverage(SETUP, {}, copy).problems == []
    ensures InspectCoverage(SETUP, {}, Sample(v)).problems == []
    ensures !Verified(SETUP.host, SETUP.options, InspectCoverage(SETUP, {}, Sample(v)),
                      InspectCoverage(SETUP, {}, copy), true)
  {
    hide InspectCoverage, Verified, Sample, Records, AreCopies, Usable, Permissions;
    SampleNames();
    SampleModes();
    RefusedUnlessNew(v, device, copy);
  }

  lemma RefusedUnlessNew(v: Variant, device: nat, copy: Roots)
    requires Usable(v.extra) && (Permissions(v.linkMode) != Permissions(HOST.linkMode) || v.owner != HOST.owner)
    requires Sound(Sample(v)) && AreCopies(SETUP.host, Records(SETUP, {}, Sample(v)), Sample(v), device, copy)
    ensures Sound(copy) && InspectCoverage(SETUP, {}, copy).problems == []
    ensures InspectCoverage(SETUP, {}, Sample(v)).problems == []
    ensures !Verified(SETUP.host, SETUP.options, InspectCoverage(SETUP, {}, Sample(v)),
                      InspectCoverage(SETUP, {}, copy), true)
  {
    hide InspectCoverage, Verified, Sample, Records, PlainListings, AreCopies, AllAsNew, Usable, ProblemFree, LinksStay,
         Permissions;
    ReadySample(v);
    BackupRoundTrip(SETUP, {}, Sample(v), device, copy);
    BackupVerifies(SETUP, {}, Sample(v), device, copy);
    NewExactly(v);
  }

  /** With a results directory of mode 0o500 and a file in it the inspection has no problem, and the copy cannot be
      made. */
  lemma ReadOnlyDirectoryStops() returns (v: Variant)
    ensures Sound(Sample(v)) && InspectCoverage(SETUP, {}, Sample(v)).problems == []
    ensures Copyable(InspectCoverage(SETUP, {}, Sample(v)).records, Sample(v))
    ensures !Fillable(InspectCoverage(SETUP, {}, Sample(v)).records)
  {
    hide InspectCoverage, Sample, Records, Copyable, Fillable, Usable, ProblemFree, Permissions, MayFill, LinksStay;
    v := Variant(320, OWNER, 493, "x");
    SampleNames();
    SampleModes();
    ReadySample(v);
    ReadyIsCopyable(SETUP, {}, Sample(v));
    ResultsHoldExtra(v);
  }

  lemma ResultsHoldExtra(v: Variant)
    requires Usable(v.extra) && Sound(Sample(v)) && !MayFill(Permissions(v.resultsMode))
    ensures !Fillable(Records(SETUP, {}, Sample(v)))
  {
    hide Sample, Records, TopList, MANDATORY, TopPaths, MandatoryPaths, W.Inspect, Usable, MayFill, Permissions,
         Fillable, Admits;
    TopsAreThere();
    FoldersHold();
    assert RESULTS + [v.extra] in StatePaths(v.extra);
    var d := ResultsRecord(v);
    var r := StatePathIsRecorded(v, 0, RESULTS + [v.extra]);
    ExtraIsFile(v);
    FileRecord(TopFamily(0), Sample(v).state, RESULTS + [v.extra], r.item);
    assert Parent(RESULTS + [v.extra]) == RESULTS;
    Unfillable(Records(SETUP, {}, Sample(v)), d, r);
  }

  lemma Unfillable(records: seq<Record>, d: Record, r: Record)
    requires d in records && r in records && Holds(d, r) && !MayFill(d.item.mode) && !r.item.Excluded?
    ensures !Fillable(records)
  {
    var j :| 0 <= j < |records| && records[j] == d;
    var k :| 0 <= k < |records| && records[k] == r;
    assert !Admits(records, k);
  }

  lemma ExtraIsFile(v: Variant)
    ensures RESULTS + [v.extra] in Sample(v).state
    ensures Sample(v).state[RESULTS + [v.extra]].kind == Regular("")
  {
    hide TopList, MANDATORY, TopPaths, MandatoryPaths;
    var p := RESULTS + [v.extra];
    assert |p| == 2 && p[0] == "results" && "results"[0] == 'r' && "results"[2] == 's' && "runtime"[2] == 'n';
    AtIs("b");
  }

  /** And with none of these the backup is made and verifies. */
  lemma SampleVerifies(copy: Roots) returns (v: Variant)
    ensures Sound(Sample(v)) && Copyable(Records(SETUP, {}, Sample(v)), Sample(v))
    ensures Fillable(Records(SETUP, {}, Sample(v)))
    ensures AreCopies(SETUP.host, Records(SETUP, {}, Sample(v)), Sample(v), 1, copy) ==>
      && Sound(copy)
      && Verified(SETUP.host, SETUP.options, InspectCoverage(SETUP, {}, Sample(v)), InspectCoverage(SETUP, {}, copy),
                  true)
  {
    hide InspectCoverage, Verified, Sample, Records, PlainListings, AreCopies, AllAsNew, Usable, ProblemFree, Fillable,
         Copyable, LinksStay, Walked;
    v := Variant(493, OWNER, 493, "x");
    SampleNames();
    ReadySample(v);
    ReadyIsCopyable(SETUP, {}, Sample(v));
    NewExactly(v);
    SampleIsPlain(v);
    SampleIsFillable(v);
    if AreCopies(SETUP.host, Records(SETUP, {}, Sample(v)), Sample(v), 1, copy) {
      BackupVerifies(SETUP, {}, Sample(v), 1, copy);
    }
  }

  /** A recorded directory lists what is there. */
  lemma DirectoryRecord(v: Variant, r: Record, n: Name)
    requires Usable(v.extra) && Sound(Sample(v)) && Walked(SETUP, {}, Sample(v))
    requires r in Records(SETUP, {}, Sample(v)) && r.item.Directory? && n in r.item.names
    ensures r.root == W.StateRoot && r.item.at + [n] in Sample(v).state
  {
    hide TopList, MANDATORY, StatePaths, NodeAt, Sample, Records, Usable, W.Visit, W.Inspect, Walked, PolicyOf,
         RootRecord, TasksRecord;
    var roots := Sample(v);
    if Fixed({}, roots, r) {
      FixedPlace({}, roots, r);
      FixedListed({}, roots, r, n);
    } else {
      var i, p := Origin(SETUP, {}, roots, r);
      FromPlace(SETUP, {}, roots, i, p, r);
      RecordDescribes(SETUP, {}, roots, r);
      FolderIsInState(v, r.root, r.item.at);
      WalkedListed(SETUP, {}, roots, i, p, r, n);
    }
  }

  lemma FolderIsInState(v: Variant, root: W.Root, p: Path)
    requires p in Sample(v).At(root) && Sample(v).At(root)[p].kind.Directory? && p != []
    ensures root == W.StateRoot
  {
    hide StatePaths, NodeAt, AgentPaths;
  }

  lemma SampleIsPlain(v: Variant)
    requires Usable(v.extra) && '\\' !in v.extra && Sound(Sample(v)) && Walked(SETUP, {}, Sample(v))
    ensures PlainListings(Records(SETUP, {}, Sample(v)))
  {
    hide TopList, MANDATORY, StatePaths, NodeAt, Records, Walked;
    var records := Records(SETUP, {}, Sample(v));
    forall k | 0 <= k < |records| && records[k].item.Directory? ensures PlainNames(records[k].item.names) {
      var names := records[k].item.names;
      forall i | 0 <= i < |names| ensures '\\' !in names[i] {
        assert names[i] in names;
        DirectoryRecord(v, records[k], names[i]);
        LastIsPlain(v.extra, records[k].item.at + [names[i]]);
      }
    }
  }

  lemma LastIsPlain(extra: Name, p: Path)
    requires Usable(extra) && '\\' !in extra && p in StatePaths(extra) && p != []
    ensures '\\' !in Last(p)
  {
    hide TopList, MANDATORY, Usable, Plain;
    NamesArePlain();
    MoreNamesArePlain();
    PlainHasNone();
    LiteralsAreNames();
    if p in TopPaths() {
      var i :| 0 <= i < 22 && p == TopFamily(i).relative;
      TopIsPlain(i);
      PlainMeans(p[0]);
    } else if p in MandatoryPaths() {
      var k :| 0 <= k < |MANDATORY| && p == MANDATORY[k];
      MandatoryArePlaced(k);
    }
  }

  lemma PlainMeans(n: Name)
    requires Plain(n)
    ensures '\\' !in n
  {
  }

  lemma PlainHasNone()
    ensures '\\' !in TASKS && '\\' !in STORE[1] && '\\' !in EVENTS[1] && '\\' !in "results" && '\\' !in "receipts"
    ensures '\\' !in "nodes" && '\\' !in "runtime"
  {
  }

  lemma SampleIsFillable(v: Variant)
    requires Usable(v.extra) && v.resultsMode == 493 && Sound(Sample(v)) && Walked(SETUP, {}, Sample(v))
    ensures Fillable(Records(SETUP, {}, Sample(v)))
  {
    hide TopList, MANDATORY, StatePaths, Sample, Records, Walked, Usable;
    var records := Records(SETUP, {}, Sample(v));
    forall j | 0 <= j < |records| && records[j].item.Directory? ensures MayFill(records[j].item.mode) {
      RecordDescribes(SETUP, {}, Sample(v), records[j]);
      FolderMode(v, records[j].root, records[j].item.at);
    }
  }

  lemma FolderMode(v: Variant, root: W.Root, p: Path)
    requires p in Sample(v).At(root) && Sample(v).At(root)[p].kind.Directory? && v.resultsMode == 493
    ensures Sample(v).At(root)[p].mode == 493
  {
    hide StatePaths, AgentPaths;
  }
}
