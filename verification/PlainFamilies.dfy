/** The families, the closed-world checks and one family's verdict in plain terms. */
module PlainFamilies {
  import opened FileTree
  import opened Names
  import opened LinkInspection
  import opened Exclusions
  import opened AtomicNames
  import W = CoverageWalk
  import opened Families
  import opened Coverage
  import opened PlainRules
  import opened PlainWalk

  // ---------------------------------------------------------------- the families

  /** An owner-state family under its own place in the state root, as the policy lists it: required or optional. */
  function Required(id: string, at: Path): W.Family {
    W.Family(id, W.StateRoot, at, true, false)
  }

  function Optional(id: string, at: Path): W.Family {
    W.Family(id, W.StateRoot, at, false, false)
  }

  function Derived(id: string, at: Path): W.Family {
    W.Family(id, W.StateRoot, at, false, true)
  }

  const FAMILIES: seq<W.Family> := [
    Required("tasks", ["tasks", "store.json"]), Required("events", ["tasks", "events.jsonl"]),
    Required("results", ["results"]), Required("receipts", ["receipts"]), Required("enrollment", ["nodes"]),
    Required("node-auth", ["node-auth.json"]), Optional("revocations", ["revoked-nodes.json"]),
    Required("oauth", ["oauth.json"]), Required("secrets", ["secrets.env"]), Required("plans", ["plans"]),
    Required("recovery", ["recovery"]), Required("coordinator", ["coordinator"]), Required("runtime", ["runtime"]),
    Required("audit", ["audit.jsonl"]), Required("checkpoints", ["checkpoints"]),
    Required("install-status", ["install-macos.status.json"]), Required("activity", ["activity"]),
    Optional("compatibility", ["compat-home"]), Optional("install-rollback", ["install-rollback"]),
    Optional("canary", ["oauth-canary.json"]), Derived("canary-status", ["oauth-canary-status.json"]),
    Derived("oauth-health", ["oauth-health.json"]), Derived("logs", ["logs"]), Optional("traces", ["traces"]),
    W.Family("services", W.AgentsRoot, [], true, false), W.Family("worker", W.WorkerRoot, ["config.json"], true, false)]

  /** Six letters or digits after a fixed beginning. */
  ghost predicate Preserves(n: Name) {
    exists x :: |x| == 6 && n == "macos-hardening-rollback-" + x && forall i :: 0 <= i < 6 ==>
        0x41 <= x[i] as int <= 0x5a || 0x61 <= x[i] as int <= 0x7a || 0x30 <= x[i] as int <= 0x39
  }

  lemma PreservesIs(n: Name)
    ensures IsHistorical(n) <==> Preserves(n)
  {
    if IsHistorical(n) { assert n == HISTORICAL + n[25..]; }
    if Preserves(n) {
      var x :| |x| == 6 && n == "macos-hardening-rollback-" + x && forall i :: 0 <= i < 6 ==>
          0x41 <= x[i] as int <= 0x5a || 0x61 <= x[i] as int <= 0x7a || 0x30 <= x[i] as int <= 0x39;
      assert forall i :: 25 <= i < 31 ==> n[i] == x[i - 25];
    }
  }

  /** A family of the policy: one of the table, or a preserved directory among the names. */
  ghost predicate IsFamily(names: seq<Name>, f: W.Family) {
    f in FAMILIES || exists n :: n in names && Preserves(n) && f == Required("historical-preservation", [n])
  }

  lemma TopIsTable(i: nat)
    requires i < 22
    ensures TopFamily(i) == FAMILIES[i + 2]
  {
  }

  lemma FixedIsTable(names: seq<Name>, i: nat)
    requires i < 26
    ensures |Policy(names)| >= 26 && Policy(names)[i] == FAMILIES[i]
  {
    hide FAMILIES, TopList;
    PolicyLength(names);
    PolicyAt(names, i);
    TableEnds();
    if 2 <= i < 24 { TopIsTable(i - 2); }
  }

  lemma TableEnds()
    ensures |FAMILIES| == 26
    ensures FAMILIES[0] == W.Family("tasks", W.StateRoot, STORE, true, false)
    ensures FAMILIES[1] == W.Family("events", W.StateRoot, EVENTS, true, false)
    ensures FAMILIES[24] == SERVICES && FAMILIES[25] == WORKER
  {
  }

  /** THE POLICY IN PLAIN TERMS. */
  lemma PolicyIs(names: seq<Name>, f: W.Family)
    ensures f in Policy(names) <==> IsFamily(names, f)
  {
    hide FAMILIES, Policy, IsHistorical, Preserves;
    var policy := Policy(names);
    TableEnds();
    PolicyLength(names);
    forall n ensures IsHistorical(n) <==> Preserves(n) { PreservesIs(n); }
    if f in policy {
      var i :| 0 <= i < |policy| && policy[i] == f;
      if i < 26 {
        FixedIsTable(names, i);
      } else {
        PolicyAt(names, i);
        assert Preserved(names)[i - 26] in Preserved(names);
      }
    }
    if f in FAMILIES {
      var i :| 0 <= i < |FAMILIES| && FAMILIES[i] == f;
      FixedIsTable(names, i);
    } else if IsFamily(names, f) {
      var n :| n in names && Preserves(n) && f == Required("historical-preservation", [n]);
      assert n in Preserved(names);
      var k :| 0 <= k < |Preserved(names)| && Preserved(names)[k] == n;
      PolicyAt(names, 26 + k);
    }
  }

  // ---------------------------------------------------------------- the closed-world checks

  /** The mapped names of the state root, in the order of the table. */
  const TOPS: seq<Name> := [
    "tasks", "results", "receipts", "nodes", "node-auth.json", "revoked-nodes.json", "oauth.json", "secrets.env",
    "plans", "recovery", "coordinator", "runtime", "audit.jsonl", "checkpoints", "install-macos.status.json",
    "activity", "compat-home", "install-rollback", "oauth-canary.json", "oauth-canary-status.json",
    "oauth-health.json", "logs", "traces"]

  const ROLES: seq<string> := ["coordinator", "worker", "gateway", "node", "oauth-canary"]

  function Service(k: nat): Name
    requires k < 5
  {
    "com.stinkyweasel.dex-reach." + ROLES[k] + ".plist"
  }

  lemma PlistsAre()
    ensures |PLISTS| == 5 && forall k :: 0 <= k < 5 ==> PLISTS[k] == [Service(k)]
  {
    hide SERVICE_PREFIX;
    assert SERVICE_PREFIX == "com.stinkyweasel.dex-reach." by { SameText(); }
    assert Service(0) == SERVICE_PREFIX + "coordinator.plist" && Service(1) == SERVICE_PREFIX + "worker.plist";
    assert Service(2) == SERVICE_PREFIX + "gateway.plist" && Service(3) == SERVICE_PREFIX + "node.plist";
    assert Service(4) == SERVICE_PREFIX + "oauth-canary.plist";
  }

  lemma SameText()
    ensures SERVICE_PREFIX == "com.stinkyweasel.dex-reach."
  {
  }

  /** Every name of the state root that is not held is mapped, or is the control directory. */
  ghost predicate StateClosed(state: Tree, held: set<Path>) {
    forall n :: [n] in state && [n] !in held && n != "checkpoint" ==> n in TOPS || Preserves(n)
  }

  ghost predicate AgentsClosed(agents: Tree) {
    forall n: Name :: [n] in agents && "com.stinkyweasel.dex-reach." <= n ==> exists k :: 0 <= k < 5 && n == Service(k)
  }

  ghost predicate WorkerClosed(worker: Tree) {
    forall n :: [n] in worker ==> n == "config.json" || (n == "worker.sock" && worker[[n]].kind.Socket?)
  }

  /** The control directory is private and holds the two sockets and held locks only. */
  ghost predicate ControlClosed(state: Tree, held: set<Path>) {
    ["checkpoint"] in state ==>
      && state[["checkpoint"]].kind.Directory? && state[["checkpoint"]].mode % 64 == 0
      && forall n :: ["checkpoint", n] in state && ["checkpoint", n] !in held ==>
           n in {"node.sock", "gateway.sock"} && state[["checkpoint", n]].kind.Socket?
  }

  /** What an interrupted atomic write of tasks/`base` left behind. */
  ghost predicate LeftBy(h: W.Host, state: Tree, n: Name, base: Name) {
    && ["tasks", n] in state && state[["tasks", n]].kind.Regular?
    && exists pid :: NamesTemporary(n, base, pid)
                     && (!h.alive(pid) || h.startedAfter(pid, state[["tasks", n]].mtime))
  }

  /** tasks/ holds its two files, what interrupted writes of them left behind, and held locks only. */
  ghost predicate TasksClosed(h: W.Host, state: Tree, held: set<Path>) {
    ["tasks"] in state ==>
      && state[["tasks"]].kind.Directory?
      && forall n :: ["tasks", n] in state && ["tasks", n] !in held ==>
           || n in {"store.json", "events.jsonl"}
           || LeftBy(h, state, n, "store.json") || LeftBy(h, state, n, "events.jsonl")
  }

  lemma StateNamesAre(state: Tree, held: set<Path>, n: Name)
    ensures n in StateNames(state, held) <==> [n] in state && [n] !in held && n != "checkpoint"
  {
    var names := StateNames(state, held);
    assert n in names <==> n in Elements(names);
    assert [] + [n] == [n];
  }

  lemma {:induction false} KnownIs(names: seq<Name>, n: Name)
    requires n in names
    ensures Known(Policy(names), n) <==> n in TOPS || Preserves(n)
  {
    hide Policy, FAMILIES, TOPS, Preserves;
    if Known(Policy(names), n) {
      var i :| && 0 <= i < |Policy(names)| && Policy(names)[i].root == W.StateRoot && Policy(names)[i].relative != []
               && Policy(names)[i].relative[0] == n;
      PolicyIs(names, Policy(names)[i]);
      if Policy(names)[i] in FAMILIES { TableTops(Policy(names)[i]); }
    }
    if n in TOPS {
      var f := TopOwner(n);
      PolicyIs(names, f);
    } else if Preserves(n) {
      PolicyIs(names, Required("historical-preservation", [n]));
    }
  }

  lemma TableTop(i: nat)
    requires 0 < i < 24
    ensures FAMILIES[i].root == W.StateRoot && FAMILIES[i].relative != [] && FAMILIES[i].relative[0] == TOPS[i - 1]
  {
  }

  lemma TableTops(f: W.Family)
    requires f in FAMILIES && f.root == W.StateRoot
    ensures f.relative != [] && f.relative[0] in TOPS
  {
    hide FAMILIES;
    TableEnds();
    var i :| 0 <= i < |FAMILIES| && FAMILIES[i] == f;
    if 0 < i < 24 { TableTop(i); }
  }

  lemma TopOwner(n: Name) returns (f: W.Family)
    requires n in TOPS
    ensures f in FAMILIES && f.root == W.StateRoot && f.relative != [] && f.relative[0] == n
  {
    hide FAMILIES;
    TableEnds();
    var k :| 0 <= k < |TOPS| && TOPS[k] == n;
    TableTop(k + 1);
    f := FAMILIES[k + 1];
  }

  lemma NamesAreKnown(held: set<Path>, roots: Roots)
    ensures NamesKnown(held, roots) <==>
            StateClosed(roots.state, held) && AgentsClosed(roots.agents) && WorkerClosed(roots.worker)
  {
    hide Policy, Known, StateNames, StateClosed, AgentsClosed, WorkerClosed, AgentNameOk, WorkerNameOk;
    StateIsClosed(roots.state, held);
    AgentsAreClosed(roots.agents);
    WorkerIsClosed(roots.worker);
  }

  lemma StateIsClosed(state: Tree, held: set<Path>)
    ensures (forall n :: n in StateNames(state, held) ==> Known(Policy(StateNames(state, held)), n)) <==>
            StateClosed(state, held)
  {
    hide Policy, Known, StateNames, TOPS, Preserves;
    var names := StateNames(state, held);
    forall n ensures n in names <==> [n] in state && [n] !in held && n != "checkpoint" {
      StateNamesAre(state, held, n);
    }
    forall n | n in names ensures Known(Policy(names), n) <==> n in TOPS || Preserves(n) { KnownIs(names, n); }
  }

  lemma AgentsAreClosed(agents: Tree)
    ensures (forall n :: n in Children(agents, []) ==> AgentNameOk(n)) <==> AgentsClosed(agents)
  {
    hide AgentNameOk, Service;
    forall n ensures AgentNameOk(n) <==>
      ("com.stinkyweasel.dex-reach." <= n ==> exists k :: 0 <= k < 5 && n == Service(k)) { AgentNameIs(n); }
    forall n ensures n in Children(agents, []) <==> [n] in agents { assert [] + [n] == [n]; }
  }

  lemma WorkerIsClosed(worker: Tree)
    ensures (forall n :: n in Children(worker, []) ==> WorkerNameOk(worker, n)) <==> WorkerClosed(worker)
  {
    forall n ensures n in Children(worker, []) <==> [n] in worker { assert [] + [n] == [n]; }
  }

  lemma AgentNameIs(n: Name)
    ensures AgentNameOk(n) <==> ("com.stinkyweasel.dex-reach." <= n ==> exists k :: 0 <= k < 5 && n == Service(k))
  {
    PlistsAre();
    SameText();
    hide PLISTS, SERVICE_PREFIX, Service;
    if k :| 0 <= k < 5 && n == Service(k) { assert PLISTS[k] == [n]; }
    if [n] in PLISTS {
      var k :| 0 <= k < |PLISTS| && PLISTS[k] == [n];
      assert [n][0] == Service(k);
    }
  }

  lemma ControlIs(state: Tree, held: set<Path>)
    ensures ControlOk(state, held) <==> ControlClosed(state, held)
  {
    hide W.ListNames;
    W.ListedNames(state, held, ["checkpoint"]);
    assert forall n: Name :: ["checkpoint"] + [n] == ["checkpoint", n];
  }

  lemma LeftByIs(h: W.Host, state: Tree, n: Name, base: Name)
    ensures IsResidue(h, state, n, base) <==> LeftBy(h, state, n, base)
  {
    hide TemporaryOf, NamesTemporary;
    forall b, pid ensures TemporaryOf(n) == Some(Temporary(b, pid)) <==> NamesTemporary(n, b, pid) {
      TemporaryIs(n, b, pid);
    }
    if TemporaryOf(n).Some? {
      TemporaryEnds(n);
      NoTaskFileIsTemporary(n);
      var t := TemporaryOf(n).value;
      assert NamesTemporary(n, t.base, t.pid);
    }
  }

  lemma NoTaskFileIsTemporary(n: Name)
    requires EndsWith(n, ".tmp")
    ensures n != "store.json" && n != "events.jsonl"
  {
    assert n[|n| - 1] == n[|n| - 4..][3] == 'p';
  }

  lemma TasksAre(h: W.Host, state: Tree, held: set<Path>)
    ensures TasksOk(h, state, held) <==> TasksClosed(h, state, held)
  {
    hide W.ListNames, IsResidue, LeftBy;
    W.ListedNames(state, held, ["tasks"]);
    assert forall n: Name :: ["tasks"] + [n] == ["tasks", n];
    forall n, base ensures IsResidue(h, state, n, base) <==> LeftBy(h, state, n, base) { LeftByIs(h, state, n, base); }
  }

  // ---------------------------------------------------------------- where a family begins, and its verdict

  /** The walk of a family: held files matter in the state root only. */
  function WalkIn(s: Setup, held: set<Path>, f: W.Family): W.Walk {
    W.Walk(s.host, s.options, f, if f.root == W.StateRoot then held else {})
  }

  /** The five services begin at their property lists, any other family at its own place; a task file also at what
      interrupted writes of it left behind. */
  ghost predicate BeginsAt(h: W.Host, state: Tree, held: set<Path>, f: W.Family, p: Path) {
    if f.id == "services" then exists k :: 0 <= k < 5 && p == [Service(k)]
    else
      || p == f.relative
      || (f.relative in {["tasks", "store.json"], ["tasks", "events.jsonl"]} && |p| == 2 && p[0] == "tasks"
          && p !in held && LeftBy(h, state, p[1], f.relative[1]))
  }

  lemma BeginsIs(h: W.Host, state: Tree, held: set<Path>, f: W.Family, p: Path)
    ensures p in Starts(h, state, held, f) <==> BeginsAt(h, state, held, f, p)
  {
    hide W.ListNames, IsResidue, LeftBy, Residues, PLISTS, Service;
    PlistsAre();
    if f.id == "services" {
      if p in PLISTS { var k :| 0 <= k < |PLISTS| && PLISTS[k] == p; }
    } else if f.relative == STORE || f.relative == EVENTS {
      ResiduesAre(h, state, held, f.relative[1], p);
    }
  }

  lemma ResiduesAre(h: W.Host, state: Tree, held: set<Path>, base: Name, p: Path)
    ensures p in Residues(h, state, W.ListNames(state, held, [TASKS]), base) <==>
            |p| == 2 && p[0] == "tasks" && p !in held && LeftBy(h, state, p[1], base)
  {
    hide W.ListNames, IsResidue, LeftBy;
    W.ListedNames(state, held, [TASKS]);
    forall n ensures IsResidue(h, state, n, base) <==> LeftBy(h, state, n, base) { LeftByIs(h, state, n, base); }
    if |p| == 2 && p[0] == "tasks" {
      assert p == [TASKS, p[1]] == [TASKS] + [p[1]];
      if LeftBy(h, state, p[1], base) { LeftByIsThere(h, state, p[1], base); }
    }
    if p in Residues(h, state, W.ListNames(state, held, [TASKS]), base) {
      var n :| n in W.ListNames(state, held, [TASKS]) && IsResidue(h, state, n, base) && p == [TASKS, n];
      assert [TASKS, n] == [TASKS] + [n];
    }
  }

  lemma LeftByIsThere(h: W.Host, state: Tree, n: Name, base: Name)
    requires LeftBy(h, state, n, base)
    ensures ["tasks", n] in state
  {
  }

  /** Everything the walk from a start follows is fine and settled. */
  ghost predicate WalksWell(w: W.Walk, t: Tree, start: Path)
    requires WellFormed(t)
  {
    start in t && forall p :: p in t && Followed(w, start, p) ==> Fine(w, t, p) && (p != start ==> Settled(w, t, p))
  }

  /** A file or a link that the walk from a start follows and does not leave out. */
  ghost predicate Carries(w: W.Walk, t: Tree, start: Path, p: Path) {
    && p in t && Followed(w, start, p) && !LeftOut(w.family.id, p, w.options.ctx)
    && (t[p].kind.Regular? || t[p].kind.Link?)
  }

  /** An optional family may be absent; a family that is there is walked well from each of its starts, and a required
      one carries something. */
  ghost predicate FamilyFine(s: Setup, held: set<Path>, roots: Roots, f: W.Family)
    requires Sound(roots)
  {
    var w, t := WalkIn(s, held, f), roots.At(f.root);
    && (f.required || f.relative in t ==>
          forall start :: BeginsAt(s.host, roots.state, held, f, start) ==> WalksWell(w, t, start))
    && (f.required ==> exists start, p :: BeginsAt(s.host, roots.state, held, f, start) && Carries(w, t, start, p))
  }

  lemma ClearReportIs(s: Setup, held: set<Path>, roots: Roots, f: W.Family)
    requires Sound(roots)
    ensures W.Clear(FamilyReport(s, held, roots, f)) <==>
            forall start :: BeginsAt(s.host, roots.state, held, f, start) ==>
              WalksWell(WalkIn(s, held, f), roots.At(f.root), start)
  {
    hide W.Visit, VisitAll, Starts, BeginsAt, WalksWell, WellFormed;
    var w, t, starts := WalkOf(s, held, f), roots.At(f.root), Starts(s.host, roots.state, held, f);
    forall p ensures p in starts <==> BeginsAt(s.host, roots.state, held, f, p) {
      BeginsIs(s.host, roots.state, held, f, p);
    }
    forall p ensures W.Clear(W.Visit(w, t, p)) <==> WalksWell(w, t, p) { WalksWellIs(w, t, p); }
    if W.Clear(FamilyReport(s, held, roots, f)) {
      forall start | start in starts ensures WalksWell(w, t, start) {
        var k :| 0 <= k < |starts| && starts[k] == start;
        VisitAllClear(w, t, starts, k);
      }
    }
    if forall start :: start in starts ==> WalksWell(w, t, start) {
      AllClear(w, t, starts);
    }
  }

  lemma WalksWellIs(w: W.Walk, t: Tree, p: Path)
    requires WellFormed(t)
    ensures W.Clear(W.Visit(w, t, p)) <==> WalksWell(w, t, p)
  {
    hide W.Visit, WellFormed, Fine, Settled, Followed;
    ClearIs(w, t, p);
  }

  /** An entry is recorded exactly where one is carried. */
  lemma EntryIsCarried(s: Setup, held: set<Path>, roots: Roots, f: W.Family)
    requires Sound(roots) && W.Clear(FamilyReport(s, held, roots, f))
    ensures HasEntry(FamilyReport(s, held, roots, f).items) <==>
            exists start, p :: BeginsAt(s.host, roots.state, held, f, start)
                               && Carries(WalkIn(s, held, f), roots.At(f.root), start, p)
  {
    hide FamilyReport, BeginsAt, Carries, HasEntry, WellFormed;
    if HasEntry(FamilyReport(s, held, roots, f).items) {
      var start, p := SomeCarried(s, held, roots, f);
    }
    if start, p :| BeginsAt(s.host, roots.state, held, f, start)
                   && Carries(WalkIn(s, held, f), roots.At(f.root), start, p) {
      SomeEntry(s, held, roots, f, start, p);
    }
  }

  lemma SomeCarried(s: Setup, held: set<Path>, roots: Roots, f: W.Family) returns (start: Path, p: Path)
    requires Sound(roots) && W.Clear(FamilyReport(s, held, roots, f))
    requires HasEntry(FamilyReport(s, held, roots, f).items)
    ensures BeginsAt(s.host, roots.state, held, f, start) && Carries(WalkIn(s, held, f), roots.At(f.root), start, p)
  {
    hide W.Visit, W.Inspect, VisitAll, Starts, BeginsAt, WellFormed, LeftOut, RuleFor, W.Reached, Followed;
    var w, t, starts := WalkOf(s, held, f), roots.At(f.root), Starts(s.host, roots.state, held, f);
    var items := VisitAll(w, t, starts).items;
    var k :| 0 <= k < |items| && items[k].Entry?;
    VisitAllRecords(w, t, starts, items[k]);
    var j :| 0 <= j < |starts| && W.Records(w, t, starts[j], items[k]);
    start, p := starts[j], items[k].at;
    BeginsIs(s.host, roots.state, held, f, start);
    FollowedIs(w, start, p);
    EntryKind(w, t, items[k]);
  }

  lemma SomeEntry(s: Setup, held: set<Path>, roots: Roots, f: W.Family, start: Path, p: Path)
    requires Sound(roots) && W.Clear(FamilyReport(s, held, roots, f))
    requires BeginsAt(s.host, roots.state, held, f, start) && Carries(WalkIn(s, held, f), roots.At(f.root), start, p)
    ensures HasEntry(FamilyReport(s, held, roots, f).items)
  {
    hide W.Visit, W.Inspect, VisitAll, Starts, BeginsAt, WellFormed, LeftOut, RuleFor, W.Reached, Followed;
    var w, t, starts := WalkOf(s, held, f), roots.At(f.root), Starts(s.host, roots.state, held, f);
    var items := VisitAll(w, t, starts).items;
    BeginsIs(s.host, roots.state, held, f, start);
    var j :| 0 <= j < |starts| && starts[j] == start;
    FollowedIs(w, start, p);
    VisitAllClear(w, t, starts, j);
    W.ReachedIsClear(w, t, start, p);
    var i := CarriedEntry(w, t, p);
    assert W.Records(w, t, starts[j], i);
    VisitAllRecords(w, t, starts, i);
    var k :| 0 <= k < |items| && items[k] == i;
  }

  lemma EntryKind(w: W.Walk, t: Tree, i: W.Item)
    requires WellFormed(t) && i.at in t && W.Inspect(w, t, i.at).items == [i] && i.Entry?
    ensures !LeftOut(w.family.id, i.at, w.options.ctx) && (t[i.at].kind.Regular? || t[i.at].kind.Link?)
  {
    hide RuleFor, LeftOut, InspectLink, WellFormed, W.OpaquePayload, W.Orphaned, SafePath, W.Keep, W.ListNames;
    LeftOutIs(w.family.id, i.at, w.options.ctx);
  }

  lemma CarriedEntry(w: W.Walk, t: Tree, p: Path) returns (i: W.Item)
    requires WellFormed(t) && p in t && W.Clear(W.Inspect(w, t, p)) && !LeftOut(w.family.id, p, w.options.ctx)
    requires t[p].kind.Regular? || t[p].kind.Link?
    ensures W.Inspect(w, t, p).items == [i] && i.Entry? && i.at == p && (i.detail.FileDetail? <==> t[p].kind.Regular?)
  {
    hide RuleFor, LeftOut, InspectLink, WellFormed, W.OpaquePayload, W.Orphaned, SafePath, W.Keep, W.ListNames;
    LeftOutIs(w.family.id, p, w.options.ctx);
    i := W.Inspect(w, t, p).items[0];
  }

  /** ONE FAMILY IN PLAIN TERMS: it reports no problem exactly when it is fine. */
  lemma FamilyIs(s: Setup, held: set<Path>, roots: Roots, f: W.Family)
    requires Sound(roots) && (f.id == "services" ==> f.required)
    ensures FamilyProblems(f, roots.At(f.root), FamilyReport(s, held, roots, f)) == [] <==>
            FamilyFine(s, held, roots, f)
  {
    hide FamilyReport, BeginsAt, WalksWell, Carries, WellFormed;
    ClearReportIs(s, held, roots, f);
    if W.Clear(FamilyReport(s, held, roots, f)) { EntryIsCarried(s, held, roots, f); }
    if !f.required && f.relative !in roots.At(f.root) { AbsentThrows(s, held, roots, f); }
  }

  lemma AbsentThrows(s: Setup, held: set<Path>, roots: Roots, f: W.Family)
    requires Sound(roots) && f.id != "services" && f.relative !in roots.At(f.root)
    ensures FamilyReport(s, held, roots, f) == W.Throw(W.Missing)
  {
    hide WellFormed;
    assert W.Visit(WalkOf(s, held, f), roots.At(f.root), f.relative) == W.Throw(W.Missing);
    assert Starts(s.host, roots.state, held, f)[0] == f.relative;
  }
}
