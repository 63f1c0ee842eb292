/** Owner-state coverage: the inspection of the state, agents and worker roots into a manifest, and the theorem that a
    problem-free inspection leaves nothing out. The tree is taken as stable while it is inspected. */
module Coverage {
  import opened FileTree
  import opened Names
  import opened LinkInspection
  import opened Exclusions
  import opened AtomicNames
  import opened CoverageWalk
  import opened Families

  datatype Roots = Roots(state: Tree, agents: Tree, worker: Tree) {
    function At(r: Root): Tree {
      match r
      case StateRoot => state
      case AgentsRoot => agents
      case WorkerRoot => worker
    }
  }

  predicate Sound(roots: Roots) {
    WellFormed(roots.state) && WellFormed(roots.agents) && WellFormed(roots.worker)
  }

  datatype Setup = Setup(host: Host, options: Options)

  /** One manifest line: the family that owns it ("" for the state root and tasks/), its root, and the item. */
  datatype Record = Record(family: string, root: Root, item: Item)

  datatype Manifest = Manifest(records: seq<Record>, problems: seq<Problem>, volumes: seq<nat>, families: seq<Family>)

  const PLISTS: seq<Path> := [[SERVICE_PREFIX + "coordinator.plist"], [SERVICE_PREFIX + "worker.plist"],
                              [SERVICE_PREFIX + "gateway.plist"], [SERVICE_PREFIX + "node.plist"],
                              [SERVICE_PREFIX + "oauth-canary.plist"]]

  const MANDATORY: seq<Path> := [
    ["results", "manifest.json"], ["nodes", "macbook-air.local.env"], ["nodes", "macbook-air.local.access.json"],
    ["nodes", "macbook-air.local.transport.ed25519.pem"], ["nodes", "macbook-air.local.transport.ed25519.pub.pem"],
    ["receipts", "macbook-air.local.jsonl"], ["receipts", "macbook-air.local.ed25519.pem"],
    ["receipts", "macbook-air.local.ed25519.pub.pem"]]

  // ---------------------------------------------------------------- the closed-world checks

  function StateNames(state: Tree, held: set<Path>): seq<Name> {
    Listing(set n | n in Children(state, []) && [n] !in held && n != CONTROL)
  }

  predicate Known(policy: seq<Family>, n: Name) {
    exists i :: 0 <= i < |policy| && policy[i].root == StateRoot && policy[i].relative != []
        && policy[i].relative[0] == n
  }

  predicate AgentNameOk(n: Name) {
    SERVICE_PREFIX <= n ==> [n] in PLISTS
  }

  predicate WorkerNameOk(worker: Tree, n: Name) {
    n == "config.json" || (n == "worker.sock" && [n] in worker && worker[[n]].kind.Socket?)
  }

  predicate ControlNameOk(state: Tree, n: Name) {
    (n == "node.sock" || n == "gateway.sock") && [CONTROL, n] in state && state[[CONTROL, n]].kind.Socket?
  }

  /** mode & 0o077 == 0 */
  predicate OwnerOnly(mode: nat) {
    mode % 64 == 0
  }

  predicate ControlOk(state: Tree, held: set<Path>) {
    [CONTROL] in state ==>
      && state[[CONTROL]].kind.Directory? && OwnerOnly(state[[CONTROL]].mode)
      && forall n :: n in ListNames(state, held, [CONTROL]) ==> ControlNameOk(state, n)
  }

  /** A dead writer's temporary for the given task file. */
  predicate IsResidue(h: Host, state: Tree, n: Name, base: Name) {
    && n != STORE[1] && n != EVENTS[1] && TemporaryOf(n).Some? && TemporaryOf(n).value.base == base
    && [TASKS, n] in state && state[[TASKS, n]].kind.Regular? && Orphaned(h, n, state[[TASKS, n]].mtime)
  }

  predicate TaskNameOk(h: Host, state: Tree, n: Name) {
    n == STORE[1] || n == EVENTS[1] || IsResidue(h, state, n, STORE[1]) || IsResidue(h, state, n, EVENTS[1])
  }

  function Residues(h: Host, state: Tree, names: seq<Name>, base: Name): (ps: seq<Path>)
    ensures forall p :: p in ps <==> exists n :: n in names && IsResidue(h, state, n, base) && p == [TASKS, n]
  {
    if names == [] then []
    else
      assert forall n :: n in names <==> n == names[0] || n in names[1..];
      (if IsResidue(h, state, names[0], base) then [[TASKS, names[0]]] else []) + Residues(h, state, names[1..], base)
  }

  // ---------------------------------------------------------------- the families

  /** Every path a family's walk starts from. */
  function Starts(h: Host, state: Tree, held: set<Path>, f: Family): seq<Path> {
    if f.id == "services" then PLISTS
    else
      [f.relative]
      + (if f.relative == STORE || f.relative == EVENTS
          then Residues(h, state, ListNames(state, held, [TASKS]), f.relative[1]) else [])
  }

  function HeldIn(held: set<Path>, r: Root): set<Path> {
    if r == StateRoot then held else {}
  }

  function WalkOf(s: Setup, held: set<Path>, f: Family): Walk {
    Walk(s.host, s.options, f, HeldIn(held, f.root))
  }

  function VisitAll(w: Walk, t: Tree, paths: seq<Path>): Report
    requires WellFormed(t)
  {
    if paths == [] then NOTHING else Then(Visit(w, t, paths[0]), VisitAll(w, t, paths[1..]))
  }

  function FamilyReport(s: Setup, held: set<Path>, roots: Roots, f: Family): Report
    requires Sound(roots)
  {
    VisitAll(WalkOf(s, held, f), roots.At(f.root), Starts(s.host, roots.state, held, f))
  }

  predicate HasEntry(items: seq<Item>) {
    exists i :: 0 <= i < |items| && items[i].Entry?
  }

  predicate HasExclusion(items: seq<Item>) {
    exists i :: 0 <= i < |items| && items[i].Excluded?
  }

  function Check(ok: bool, p: Problem): seq<Problem> {
    if ok then [] else [p]
  }

  /** Only an absent optional family may be missing; a required one must hold an entry. */
  function FamilyProblems(f: Family, t: Tree, r: Report): seq<Problem> {
    var absent := r.thrown == Some(Missing) && (f.id == "services" || f.relative !in t);
    r.problems
    + Check(r.thrown.None? || (absent && !f.required), FamilyError(f.id))
    + Check(!(f.required && r.thrown.None? && HasExclusion(r.items) && !HasEntry(r.items)), RemovesRequired)
    + Check(!(f.required && r.thrown.None? && !HasExclusion(r.items) && !HasEntry(r.items)), EmptyRequired(f.id))
  }

  function Stamp(f: Family, items: seq<Item>): (rs: seq<Record>)
    ensures |rs| == |items| && forall i :: 0 <= i < |items| ==> rs[i] == Record(f.id, f.root, items[i])
  {
    seq(|items|, i requires 0 <= i < |items| => Record(f.id, f.root, items[i]))
  }

  function FamilyRecords(s: Setup, held: set<Path>, roots: Roots, policy: seq<Family>): seq<Record>
    requires Sound(roots)
  {
    if policy == [] then []
    else Stamp(policy[0], FamilyReport(s, held, roots, policy[0]).items) + FamilyRecords(s, held, roots, policy[1..])
  }

  function AllFamilyProblems(s: Setup, held: set<Path>, roots: Roots, policy: seq<Family>): seq<Problem>
    requires Sound(roots)
  {
    if policy == [] then []
    else
      FamilyProblems(policy[0], roots.At(policy[0].root), FamilyReport(s, held, roots, policy[0]))
      + AllFamilyProblems(s, held, roots, policy[1..])
  }

  // ---------------------------------------------------------------- the manifest

  function RootRecord(state: Tree, held: set<Path>): Record
    requires [] in state
  {
    var top := state[[]];
    Record("", StateRoot, Item.Directory([], Permissions(top.mode), top.owner, StateNames(state, held)))
  }

  /** tasks/ holds file families, so it is recorded by itself and is closed-world. */
  function TasksRecord(state: Tree, held: set<Path>): seq<Record> {
    if !IsDirectory(state, [TASKS]) then []
    else
      var tasks := state[[TASKS]];
      [Record("", StateRoot,
              Item.Directory([TASKS], Permissions(tasks.mode), tasks.owner, ListNames(state, held, [TASKS])))]
  }

  predicate Covers(records: seq<Record>, root: Root, p: Path) {
    exists i :: 0 <= i < |records| && records[i].root == root && records[i].item.at == p
                && (records[i].item.Directory? || (records[i].item.Entry? && records[i].item.detail.FileDetail?))
  }

  predicate Excludes(records: seq<Record>, root: Root, p: Path) {
    exists i :: 0 <= i < |records| && records[i].root == root && records[i].item.Excluded? && records[i].item.at <= p
  }

  predicate RequiredTarget(r: Record, target: Path) {
    r.item.Entry? && r.item.detail.LinkDetail? && r.item.detail.info.requiredTarget
        && r.item.detail.info.resolved == Some(target)
  }

  predicate TargetsCovered(records: seq<Record>) {
    forall i :: 0 <= i < |records| && records[i].item.Entry? && records[i].item.detail.LinkDetail?
                && records[i].item.detail.info.requiredTarget && records[i].item.detail.info.resolved.Some? ==>
      Covers(records, records[i].root, records[i].item.detail.info.resolved.value)
  }

  predicate TargetsKept(records: seq<Record>) {
    forall i :: 0 <= i < |records| && records[i].item.Entry? && records[i].item.detail.LinkDetail?
                && records[i].item.detail.info.requiredTarget && records[i].item.detail.info.resolved.Some? ==>
      !Excludes(records, records[i].root, records[i].item.detail.info.resolved.value)
  }

  predicate HasEntryAt(records: seq<Record>, p: Path) {
    exists i :: 0 <= i < |records| && records[i].root == StateRoot && records[i].item.Entry? && records[i].item.at == p
  }

  /** In whichever root, but a file and no link. */
  predicate HasFile(records: seq<Record>, p: Path) {
    exists i :: 0 <= i < |records| && records[i].item.Entry? && records[i].item.detail.FileDetail?
                && records[i].item.at == p
  }

  predicate HistoricalComplete(records: seq<Record>, policy: seq<Family>) {
    forall i, k :: 0 <= i < |policy| && 0 <= k < |PLISTS| && policy[i].id == "historical-preservation" ==>
      HasFile(records, policy[i].relative + PLISTS[k])
  }

  predicate MandatoryPresent(records: seq<Record>) {
    forall k :: 0 <= k < |MANDATORY| ==> HasEntryAt(records, MANDATORY[k])
  }

  function Records(s: Setup, held: set<Path>, roots: Roots): seq<Record>
    requires Sound(roots)
  {
    [RootRecord(roots.state, held)] + TasksRecord(roots.state, held)
    + FamilyRecords(s, held, roots, Policy(StateNames(roots.state, held)))
  }

  predicate NamesKnown(held: set<Path>, roots: Roots) {
    var names := StateNames(roots.state, held);
    && (forall n :: n in names ==> Known(Policy(names), n))
    && (forall n :: n in Children(roots.agents, []) ==> AgentNameOk(n))
    && (forall n :: n in Children(roots.worker, []) ==> WorkerNameOk(roots.worker, n))
  }

  predicate TasksOk(h: Host, state: Tree, held: set<Path>) {
    [TASKS] in state ==>
      && IsDirectory(state, [TASKS])
      && forall n :: n in ListNames(state, held, [TASKS]) ==> TaskNameOk(h, state, n)
  }

  /** What a name that has no place in a closed directory is: a lock or a write under way, or unknown. */
  predicate ControlPassing(n: Name) {
    EndsWith(n, ".lock") || EndsWith(n, ".recovery")
  }

  predicate ControlPrivate(state: Tree) {
    [CONTROL] in state ==> state[[CONTROL]].kind.Directory? && OwnerOnly(state[[CONTROL]].mode)
  }

  /** The listed names of the control directory, when it is looked into, that have no place there. */
  function ControlStrays(state: Tree, held: set<Path>): set<Name> {
    if [CONTROL] !in state || !ControlPrivate(state) then {}
    else set n | n in ListNames(state, held, [CONTROL]) && !ControlNameOk(state, n)
  }

  function TaskStrays(h: Host, state: Tree, held: set<Path>): set<Name> {
    if !IsDirectory(state, [TASKS]) then {}
    else set n | n in ListNames(state, held, [TASKS]) && !TaskNameOk(h, state, n)
  }

  /** The closed-world checks. One code stands for all its occurrences. */
  function ClosedWorld(h: Host, held: set<Path>, roots: Roots): seq<Problem> {
    var control, tasks := ControlStrays(roots.state, held), TaskStrays(h, roots.state, held);
    Check(NamesKnown(held, roots) && (forall n :: n in control ==> ControlPassing(n))
          && (forall n :: n in tasks ==> TransientName(n)), UnknownFamily)
    + Check(ControlPrivate(roots.state), ControlInvalid)
    + Check(forall n :: n in control ==> !ControlPassing(n), ControlTransient)
    + Check([TASKS] in roots.state ==> IsDirectory(roots.state, [TASKS]), ParentInvalid)
    + Check(forall n :: n in tasks ==> !TransientName(n), Transient(TASKS))
  }

  lemma ClosedWorldIs(h: Host, held: set<Path>, roots: Roots)
    ensures ClosedWorld(h, held, roots) == [] <==>
            NamesKnown(held, roots) && ControlOk(roots.state, held) && TasksOk(h, roots.state, held)
  {
    hide NamesKnown, ControlNameOk, TaskNameOk, ListNames, OwnerOnly, ControlPassing, TransientName;
    var control, tasks := ControlStrays(roots.state, held), TaskStrays(h, roots.state, held);
    assert control == {} <==> forall n :: n in control ==> ControlPassing(n) && !ControlPassing(n);
    assert tasks == {} <==> forall n :: n in tasks ==> TransientName(n) && !TransientName(n);
    StraysAre(h, roots.state, held);
  }

  lemma StraysAre(h: Host, state: Tree, held: set<Path>)
    ensures ControlOk(state, held) <==> ControlPrivate(state) && ControlStrays(state, held) == {}
    ensures TasksOk(h, state, held) <==>
            ([TASKS] in state ==> IsDirectory(state, [TASKS])) && TaskStrays(h, state, held) == {}
  {
    hide ControlNameOk, TaskNameOk, ListNames, OwnerOnly;
    assert forall n :: n in ControlStrays(state, held) ==> n in ListNames(state, held, [CONTROL]);
    if ControlPrivate(state) && [CONTROL] in state && ControlStrays(state, held) == {} {
      forall n | n in ListNames(state, held, [CONTROL]) ensures ControlNameOk(state, n) {
        assert n !in ControlStrays(state, held);
      }
    }
    if IsDirectory(state, [TASKS]) && TaskStrays(h, state, held) == {} {
      forall n | n in ListNames(state, held, [TASKS]) ensures TaskNameOk(h, state, n) {
        assert n !in TaskStrays(h, state, held);
      }
    }
  }

  /** The inspection. */
  function InspectCoverage(s: Setup, held: set<Path>, roots: Roots): Manifest
    requires Sound(roots)
  {
    var policy := Policy(StateNames(roots.state, held));
    var records := Records(s, held, roots);
    Manifest(records,
             ClosedWorld(s.host, held, roots)
             + AllFamilyProblems(s, held, roots, policy)
             + Check(TargetsCovered(records), TargetNotCovered)
             + Check(TargetsKept(records), TargetExcluded)
             + Check(HistoricalComplete(records, policy), HistoricalIncomplete)
             + Check(MandatoryPresent(records), MissingDependency),
             [roots.state[[]].device, roots.agents[[]].device, roots.worker[[]].device], policy)
  }

  /** What an empty problem list says. */
  ghost predicate ProblemFree(s: Setup, held: set<Path>, roots: Roots)
    requires Sound(roots)
  {
    var policy, records := Policy(StateNames(roots.state, held)), Records(s, held, roots);
    && NamesKnown(held, roots) && ControlOk(roots.state, held) && TasksOk(s.host, roots.state, held)
    && AllFamilyProblems(s, held, roots, policy) == []
    && TargetsCovered(records) && TargetsKept(records) && HistoricalComplete(records, policy)
    && MandatoryPresent(records)
  }

  lemma EmptyProblems(s: Setup, held: set<Path>, roots: Roots)
    requires Sound(roots)
    ensures InspectCoverage(s, held, roots).problems == [] <==> ProblemFree(s, held, roots)
    ensures InspectCoverage(s, held, roots).records == Records(s, held, roots)
  {
    hide NamesKnown, ControlOk, TasksOk, AllFamilyProblems, TargetsCovered, TargetsKept, HistoricalComplete,
         MandatoryPresent, Records, Policy, StateNames, Sound, ClosedWorld;
    ClosedWorldIs(s.host, held, roots);
  }

  // ---------------------------------------------------------------- what the families record

  lemma {:induction false} NoFamilyProblems(s: Setup, held: set<Path>, roots: Roots, policy: seq<Family>, i: nat)
    requires Sound(roots) && AllFamilyProblems(s, held, roots, policy) == [] && i < |policy|
    ensures FamilyProblems(policy[i], roots.At(policy[i].root), FamilyReport(s, held, roots, policy[i])) == []
  {
    hide FamilyProblems, FamilyReport, Sound;
    var own := FamilyProblems(policy[0], roots.At(policy[0].root), FamilyReport(s, held, roots, policy[0]));
    var rest := AllFamilyProblems(s, held, roots, policy[1..]);
    assert own + rest == [];
    assert |own + rest| == |own| + |rest|;
    if i > 0 { NoFamilyProblems(s, held, roots, policy[1..], i - 1); }
  }

  lemma {:induction false} FamilyRecordsAre(s: Setup, held: set<Path>, roots: Roots, policy: seq<Family>, r: Record)
    requires Sound(roots)
    ensures r in FamilyRecords(s, held, roots, policy) <==>
            exists i :: 0 <= i < |policy| && r.family == policy[i].id && r.root == policy[i].root
                        && r.item in FamilyReport(s, held, roots, policy[i]).items
  {
    hide FamilyReport, Stamp, Sound;
    if policy != [] {
      FamilyRecordsAre(s, held, roots, policy[1..], r);
      var own := FamilyReport(s, held, roots, policy[0]).items;
      StampHolds(policy[0], own, r);
      assert policy == [policy[0]] + policy[1..];
      assert forall i :: 0 < i < |policy| ==> policy[i] == policy[1..][i - 1];
      if r in FamilyRecords(s, held, roots, policy[1..]) {
        var i :| 0 <= i < |policy[1..]| && r.family == policy[1..][i].id && r.root == policy[1..][i].root
                 && r.item in FamilyReport(s, held, roots, policy[1..][i]).items;
        assert policy[i + 1] == policy[1..][i];
      }
    }
  }

  lemma StampHolds(f: Family, items: seq<Item>, r: Record)
    ensures r in Stamp(f, items) <==> r.family == f.id && r.root == f.root && r.item in items
  {
    if r.family == f.id && r.root == f.root && r.item in items {
      var i :| 0 <= i < |items| && items[i] == r.item;
      assert Stamp(f, items)[i] == r;
    }
  }

  lemma {:induction false} VisitAllClear(w: Walk, t: Tree, paths: seq<Path>, k: nat)
    requires WellFormed(t) && Clear(VisitAll(w, t, paths)) && k < |paths|
    ensures Clear(Visit(w, t, paths[k])) && paths[k] in t
  {
    ClearThen(Visit(w, t, paths[0]), VisitAll(w, t, paths[1..]));
    if k > 0 { VisitAllClear(w, t, paths[1..], k - 1); } else { ClearVisit(w, t, paths[0]); }
  }

  lemma {:induction false} AllClear(w: Walk, t: Tree, paths: seq<Path>)
    requires WellFormed(t) && forall k :: 0 <= k < |paths| ==> Clear(Visit(w, t, paths[k]))
    ensures Clear(VisitAll(w, t, paths))
  {
    hide Visit;
    if paths != [] {
      AllClear(w, t, paths[1..]);
      ClearThen(Visit(w, t, paths[0]), VisitAll(w, t, paths[1..]));
    }
  }

  /** A clear sequence of walks records what each of them records. */
  lemma {:induction false} VisitAllRecords(w: Walk, t: Tree, paths: seq<Path>, i: Item)
    requires WellFormed(t) && Clear(VisitAll(w, t, paths))
    ensures i in VisitAll(w, t, paths).items <==>
            exists k :: 0 <= k < |paths| && CoverageWalk.Records(w, t, paths[k], i)
  {
    if paths != [] {
      ClearThen(Visit(w, t, paths[0]), VisitAll(w, t, paths[1..]));
      ClearVisitRecords(w, t, paths[0], i);
      VisitAllRecords(w, t, paths[1..], i);
      assert forall k :: 0 < k < |paths| ==> paths[k] == paths[1..][k - 1];
      if k :| 0 <= k < |paths[1..]| && CoverageWalk.Records(w, t, paths[1..][k], i) {
        assert paths[k + 1] == paths[1..][k];
      }
    }
  }

  /** A family without problems was walked clear, or is optional and absent. */
  lemma FamilyIsClear(s: Setup, held: set<Path>, roots: Roots, f: Family)
    requires Sound(roots)
    requires FamilyProblems(f, roots.At(f.root), FamilyReport(s, held, roots, f)) == []
    requires (f.id == "services" ==> f.required)
    ensures var r := FamilyReport(s, held, roots, f);
            || Clear(r)
            || (!f.required && f.id != "services" && f.relative !in roots.At(f.root) && r.items == [])
    ensures f.required ==> Clear(FamilyReport(s, held, roots, f)) && HasEntry(FamilyReport(s, held, roots, f).items)
  {
    var r := FamilyReport(s, held, roots, f);
    if f.id != "services" && f.relative !in roots.At(f.root) {
      assert Visit(WalkOf(s, held, f), roots.At(f.root), f.relative) == Throw(Missing);
      assert Starts(s.host, roots.state, held, f)[0] == f.relative;
    }
  }
}
