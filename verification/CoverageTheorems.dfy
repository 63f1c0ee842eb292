/** What a problem-free inspection guarantees: nothing is silently dropped, and exclusions hide nothing they may not. */
module CoverageTheorems {
  import opened FileTree
  import opened Names
  import opened LinkInspection
  import opened Exclusions
  import W = CoverageWalk
  import opened Families
  import opened Coverage
  import L = CoverageLinks

  /** Locks are regular files named *.lock. */
  ghost predicate LocksOk(held: set<Path>, state: Tree) {
    forall h :: h in held ==> h != [] && EndsWith(Last(h), ".lock") && (h in state ==> state[h].kind.Regular?)
  }

  function PolicyOf(held: set<Path>, roots: Roots): seq<W.Family> {
    Policy(StateNames(roots.state, held))
  }

  /** No family reported a problem. */
  ghost predicate Walked(s: Setup, held: set<Path>, roots: Roots)
    requires Sound(roots)
  {
    AllFamilyProblems(s, held, roots, PolicyOf(held, roots)) == []
  }

  /** A path that the walk of family number i starts from. */
  predicate IsStart(s: Setup, held: set<Path>, roots: Roots, i: nat, p: Path) {
    i < |PolicyOf(held, roots)| && p in Starts(s.host, roots.state, held, PolicyOf(held, roots)[i])
  }

  /** A start in the state root: an owned top-level name, one of the two task files, or residue of one of them. */
  predicate StateStart(s: Setup, held: set<Path>, roots: Roots, f: W.Family, p: Path) {
    || (|p| == 1 && p == f.relative && OwnsTop(f.id, p[0]))
    || (|p| == 2 && p[0] == TASKS && f.relative in {STORE, EVENTS} && f.required
        && (p == f.relative || (p[1] in W.ListNames(roots.state, held, [TASKS])
            && IsResidue(s.host, roots.state, p[1], f.relative[1]))))
  }

  lemma StartShape(s: Setup, held: set<Path>, roots: Roots, i: nat, p: Path)
    requires IsStart(s, held, roots, i, p)
    ensures Shaped(PolicyOf(held, roots)[i]) && p != []
    ensures match PolicyOf(held, roots)[i].root
            case StateRoot => && StateStart(s, held, roots, PolicyOf(held, roots)[i], p)
                              && PolicyOf(held, roots)[i].id != "services"
            case AgentsRoot => |p| == 1 && p in PLISTS && PolicyOf(held, roots)[i] == SERVICES
            case WorkerRoot => p == ["config.json"] && PolicyOf(held, roots)[i] == WORKER
  {
    hide Policy, W.ListNames, IsResidue, Starts;
    var f := PolicyOf(held, roots)[i];
    PolicyShaped(StateNames(roots.state, held), i);
    ServicesId(f);
    StartsAre(s.host, roots.state, held, f, p);
  }

  lemma StartsAre(h: W.Host, state: Tree, held: set<Path>, f: W.Family, p: Path)
    requires p in Starts(h, state, held, f)
    ensures f.id == "services" ==> p in PLISTS
    ensures f.id != "services" && p != f.relative ==>
      && f.relative in {STORE, EVENTS} && |p| == 2 && p[0] == TASKS
      && p[1] in W.ListNames(state, held, [TASKS]) && IsResidue(h, state, p[1], f.relative[1])
  {
    hide W.ListNames, IsResidue;
    if f.id != "services" && p != f.relative {
      assert p in Residues(h, state, W.ListNames(state, held, [TASKS]), f.relative[1]);
    }
  }

  lemma ServicesId(f: W.Family)
    requires Shaped(f)
    ensures f.id == "services" <==> f == SERVICES
  {
    assert "tasks"[0] == 't' && "events"[0] == 'e' && "worker"[0] == 'w' && "services"[0] == 's';
  }

  lemma StateNamesDistinct(held: set<Path>, roots: Roots)
    ensures Distinct(StateNames(roots.state, held))
  {
    SortedIsDistinct(StateNames(roots.state, held));
  }

  /** A path lies under at most one start: starts never nest and no two families share one. */
  lemma OneStart(s: Setup, held: set<Path>, roots: Roots, i: nat, p: Path, j: nat, q: Path, x: Path)
    requires IsStart(s, held, roots, i, p) && IsStart(s, held, roots, j, q) && p <= x && q <= x
    requires PolicyOf(held, roots)[i].root == PolicyOf(held, roots)[j].root
    ensures i == j && p == q
  {
    hide IsResidue, W.ListNames, Policy, PLISTS;
    StartShape(s, held, roots, i, p);
    StartShape(s, held, roots, j, q);
    var f, g := PolicyOf(held, roots)[i], PolicyOf(held, roots)[j];
    assert p[0] == x[0] == q[0];
    assert p == q by {
      assert |p| == |q|;
      assert p == x[..|p|] && q == x[..|q|];
    }
    StateNamesDistinct(held, roots);
    if i < j { PolicyDistinct(StateNames(roots.state, held), i, j); }
    if j < i { PolicyDistinct(StateNames(roots.state, held), j, i); }
    if f.root == W.StateRoot && |p| == 2 { SameTaskFamily(s, held, roots, f, g, p); }
    assert f.root == g.root && f.relative == g.relative;
  }

  lemma SameTaskFamily(s: Setup, held: set<Path>, roots: Roots, f: W.Family, g: W.Family, p: Path)
    requires |p| == 2 && f.relative in {STORE, EVENTS} && g.relative in {STORE, EVENTS}
    requires p == f.relative || IsResidue(s.host, roots.state, p[1], f.relative[1])
    requires p == g.relative || IsResidue(s.host, roots.state, p[1], g.relative[1])
    ensures f.relative == g.relative
  {
  }

  /** An item recorded by the walk of family i from start p. */
  ghost predicate From(s: Setup, held: set<Path>, roots: Roots, i: nat, p: Path, r: Record)
    requires Sound(roots)
  {
    && IsStart(s, held, roots, i, p)
    && var f := PolicyOf(held, roots)[i];
       && r.family == f.id && r.root == f.root
       && W.Clear(W.Visit(WalkOf(s, held, f), roots.At(f.root), p))
       && W.Records(WalkOf(s, held, f), roots.At(f.root), p, r.item)
  }

  lemma RecordedIsFrom(s: Setup, held: set<Path>, roots: Roots, r: Record) returns (i: nat, p: Path)
    requires Sound(roots) && Walked(s, held, roots) && r in FamilyRecords(s, held, roots, PolicyOf(held, roots))
    ensures From(s, held, roots, i, p, r)
  {
    hide PolicyOf, W.Visit, W.Inspect, W.Records, Starts, FamilyRecords, Walked;
    var policy := PolicyOf(held, roots);
    FamilyRecordsAre(s, held, roots, policy, r);
    i :| 0 <= i < |policy| && r.family == policy[i].id && r.root == policy[i].root
         && r.item in FamilyReport(s, held, roots, policy[i]).items;
    FamilyWalk(s, held, roots, i);
    var w, t, starts := WalkOf(s, held, policy[i]), roots.At(policy[i].root),
        Starts(s.host, roots.state, held, policy[i]);
    VisitAllRecords(w, t, starts, r.item);
    var k :| 0 <= k < |starts| && W.Records(w, t, starts[k], r.item);
    VisitAllClear(w, t, starts, k);
    p := starts[k];
  }

  lemma FromIsRecorded(s: Setup, held: set<Path>, roots: Roots, r: Record, i: nat, p: Path)
    requires Sound(roots) && Walked(s, held, roots) && From(s, held, roots, i, p, r)
    ensures r in FamilyRecords(s, held, roots, PolicyOf(held, roots))
  {
    hide PolicyOf, W.Visit, W.Inspect, Starts, VisitAll, FamilyRecords, Walked;
    var policy := PolicyOf(held, roots);
    FamilyRecordsAre(s, held, roots, policy, r);
    var w, t, starts := WalkOf(s, held, policy[i]), roots.At(policy[i].root),
        Starts(s.host, roots.state, held, policy[i]);
    W.ClearVisit(w, t, p);
    StartIsThere(s, held, roots, i, p);
    VisitAllRecords(w, t, starts, r.item);
    var k :| 0 <= k < |starts| && starts[k] == p;
    assert r.item in FamilyReport(s, held, roots, policy[i]).items;
  }

  /** A manifest without family problems holds the state root, tasks/, and exactly what the walks record. */
  lemma RecordsAre(s: Setup, held: set<Path>, roots: Roots, r: Record)
    requires Sound(roots) && Walked(s, held, roots)
    ensures r in Records(s, held, roots) <==>
            || r == RootRecord(roots.state, held) || r in TasksRecord(roots.state, held)
            || exists i, p :: From(s, held, roots, i, p, r)
  {
    hide From, RootRecord, TasksRecord, Walked, Policy, FamilyRecords;
    if r in FamilyRecords(s, held, roots, PolicyOf(held, roots)) {
      var i, p := RecordedIsFrom(s, held, roots, r);
    }
    if i, p :| From(s, held, roots, i, p, r) {
      FromIsRecorded(s, held, roots, r, i, p);
    }
  }

  /** Each family was walked clear, or is optional and absent. */
  lemma FamilyWalk(s: Setup, held: set<Path>, roots: Roots, i: nat)
    requires Sound(roots) && Walked(s, held, roots) && i < |PolicyOf(held, roots)|
    ensures var f := PolicyOf(held, roots)[i];
            || W.Clear(FamilyReport(s, held, roots, f))
            || (!f.required && f.id != "services" && f.relative !in roots.At(f.root)
                && FamilyReport(s, held, roots, f).items == [])
    ensures var f := PolicyOf(held, roots)[i];
            f.required ==> W.Clear(FamilyReport(s, held, roots, f)) && HasEntry(FamilyReport(s, held, roots, f).items)
  {
    hide Policy, FamilyReport, Sound, WellFormed;
    NoFamilyProblems(s, held, roots, PolicyOf(held, roots), i);
    PolicyShaped(StateNames(roots.state, held), i);
    ServicesId(PolicyOf(held, roots)[i]);
    FamilyIsClear(s, held, roots, PolicyOf(held, roots)[i]);
  }

  /** A start that exists belongs to a family that was walked clear. */
  lemma StartIsThere(s: Setup, held: set<Path>, roots: Roots, i: nat, p: Path)
    requires Sound(roots) && Walked(s, held, roots) && IsStart(s, held, roots, i, p)
    requires p in roots.At(PolicyOf(held, roots)[i].root)
    ensures W.Clear(FamilyReport(s, held, roots, PolicyOf(held, roots)[i]))
    ensures W.Clear(W.Visit(WalkOf(s, held, PolicyOf(held, roots)[i]), roots.At(PolicyOf(held, roots)[i].root), p))
  {
    var f := PolicyOf(held, roots)[i];
    FamilyWalk(s, held, roots, i);
    StartShape(s, held, roots, i, p);
    assert W.Clear(FamilyReport(s, held, roots, f)) by {
      if !f.required { assert p == f.relative; }
    }
    var starts := Starts(s.host, roots.state, held, f);
    var k :| 0 <= k < |starts| && starts[k] == p;
    VisitAllClear(WalkOf(s, held, f), roots.At(f.root), starts, k);
  }

  // ---------------------------------------------------------------- one record a path

  /** The two records that no walk makes. */
  predicate Fixed(held: set<Path>, roots: Roots, r: Record)
    requires [] in roots.state
  {
    r == RootRecord(roots.state, held) || r in TasksRecord(roots.state, held)
  }

  lemma FixedPlace(held: set<Path>, roots: Roots, r: Record)
    requires Sound(roots) && Fixed(held, roots, r)
    ensures r.root == W.StateRoot && r.item.Directory? && (r.item.at == [] || r.item.at == [TASKS])
    ensures r.item.at in roots.state
  {
  }

  /** Any other record was made by a walk, at or below its start. */
  lemma Origin(s: Setup, held: set<Path>, roots: Roots, r: Record) returns (i: nat, p: Path)
    requires Sound(roots) && Walked(s, held, roots) && r in Records(s, held, roots) && !Fixed(held, roots, r)
    ensures From(s, held, roots, i, p, r)
  {
    RecordsAre(s, held, roots, r);
    i, p :| From(s, held, roots, i, p, r);
  }

  lemma FromPlace(s: Setup, held: set<Path>, roots: Roots, i: nat, p: Path, r: Record)
    requires Sound(roots) && From(s, held, roots, i, p, r)
    ensures p != [] && p <= r.item.at && r.item.at in roots.At(r.root) && r.item.at[0] == p[0]
    ensures IsStart(s, held, roots, i, p) && PolicyOf(held, roots)[i].root == r.root
    ensures r.root == W.StateRoot ==> StateStart(s, held, roots, PolicyOf(held, roots)[i], p) && r.item.at != [TASKS]
  {
    StartShape(s, held, roots, i, p);
  }

  lemma FromDetermines(s: Setup, held: set<Path>, roots: Roots, i: nat, p: Path, a: Record, b: Record)
    requires Sound(roots) && From(s, held, roots, i, p, a) && From(s, held, roots, i, p, b) && a.item.at == b.item.at
    ensures a == b
  {
  }

  /** The manifest names each path at most once. */
  lemma OneRecordAPath(s: Setup, held: set<Path>, roots: Roots, a: Record, b: Record)
    requires Sound(roots) && Walked(s, held, roots)
    requires a in Records(s, held, roots) && b in Records(s, held, roots) && a.root == b.root && a.item.at == b.item.at
    ensures a == b
  {
    hide From, Records, PolicyOf, StateStart, Fixed, Walked, IsStart;
    if Fixed(held, roots, a) || Fixed(held, roots, b) {
      FixedOnce(s, held, roots, a, b);
      FixedOnce(s, held, roots, b, a);
    } else {
      var i, p := Origin(s, held, roots, a);
      FromPlace(s, held, roots, i, p, a);
      var j, q := Origin(s, held, roots, b);
      FromPlace(s, held, roots, j, q, b);
      OneStart(s, held, roots, i, p, j, q, a.item.at);
      FromDetermines(s, held, roots, i, p, a, b);
    }
  }

  lemma FixedOnce(s: Setup, held: set<Path>, roots: Roots, a: Record, b: Record)
    requires Sound(roots) && Walked(s, held, roots)
    requires b in Records(s, held, roots) && a.root == b.root && a.item.at == b.item.at
    ensures Fixed(held, roots, a) ==> a == b
  {
    hide From, Records, PolicyOf, StateStart, Walked, IsStart, Starts, W.ListNames, RuleFor;
    if Fixed(held, roots, a) {
      FixedPlace(held, roots, a);
      if Fixed(held, roots, b) {
        FixedPlace(held, roots, b);
      } else {
        var j, q := Origin(s, held, roots, b);
        FromPlace(s, held, roots, j, q, b);
      }
    }
  }

  // ---------------------------------------------------------------- nothing is silently dropped

  ghost predicate AtDirectory(records: seq<Record>, p: Path) {
    exists r :: r in records && r.root == W.StateRoot && r.item.Directory? && r.item.at == p
  }

  ghost predicate AtEntry(records: seq<Record>, p: Path) {
    exists r :: r in records && r.root == W.StateRoot && r.item.Entry? && r.item.at == p
  }

  ghost predicate InExclusion(records: seq<Record>, p: Path) {
    exists r :: r in records && r.root == W.StateRoot && r.item.Excluded? && r.item.at <= p
  }

  predicate InControl(p: Path) {
    p != [] && p[0] == CONTROL
  }

  /** A path of the state root that is neither the root, tasks/, the control directory nor a held lock lies under a
      start. */
  lemma StartAbove(s: Setup, held: set<Path>, roots: Roots, p: Path) returns (i: nat, start: Path)
    requires Sound(roots) && NamesKnown(held, roots) && TasksOk(s.host, roots.state, held) && LocksOk(held, roots.state)
    requires p in roots.state && p != [] && p != [TASKS] && !InControl(p) && p !in held
    ensures IsStart(s, held, roots, i, start) && PolicyOf(held, roots)[i].root == W.StateRoot && start <= p
    ensures start in roots.state
  {
    hide PolicyOf, NamesKnown, TasksOk, IsStart, LocksOk;
    if p[0] == TASKS {
      start := p[..2];
      AncestorsAreDirectories(roots.state, p, start);
      TaskNameAbove(s, held, roots, p);
      i := TaskStart(s, held, roots, p[1]);
    } else {
      i := KnownFamily(held, roots, p);
      start := PolicyOf(held, roots)[i].relative;
      TopStart(s, held, roots, i);
      assert start == p[..1];
      AncestorsAreDirectories(roots.state, p, start);
    }
  }

  lemma KnownFamily(held: set<Path>, roots: Roots, p: Path) returns (i: nat)
    requires Sound(roots) && NamesKnown(held, roots) && LocksOk(held, roots.state)
    requires p in roots.state && p != [] && !InControl(p) && p !in held
    ensures i < |PolicyOf(held, roots)| && PolicyOf(held, roots)[i].root == W.StateRoot
    ensures PolicyOf(held, roots)[i].relative != [] && PolicyOf(held, roots)[i].relative[0] == p[0]
  {
    hide WellFormed, Policy, PLISTS, TasksOk;
    AncestorsAreDirectories(roots.state, p, p[..1]);
    assert p[..1] == [p[0]] && [p[0]] !in held;
    assert [] + [p[0]] == [p[0]];
    assert p[0] in Elements(StateNames(roots.state, held));
    assert Known(PolicyOf(held, roots), p[0]);
    i :| 0 <= i < |PolicyOf(held, roots)| && PolicyOf(held, roots)[i].root == W.StateRoot
         && PolicyOf(held, roots)[i].relative != [] && PolicyOf(held, roots)[i].relative[0] == p[0];
  }

  lemma TopStart(s: Setup, held: set<Path>, roots: Roots, i: nat)
    requires i < |PolicyOf(held, roots)| && PolicyOf(held, roots)[i].root == W.StateRoot
    requires PolicyOf(held, roots)[i].relative != [] && PolicyOf(held, roots)[i].relative[0] != TASKS
    ensures |PolicyOf(held, roots)[i].relative| == 1 && IsStart(s, held, roots, i, PolicyOf(held, roots)[i].relative)
  {
    var f := PolicyOf(held, roots)[i];
    PolicyShaped(StateNames(roots.state, held), i);
    ServicesId(f);
    assert Starts(s.host, roots.state, held, f)[0] == f.relative;
  }

  lemma TaskNameAbove(s: Setup, held: set<Path>, roots: Roots, p: Path)
    requires Sound(roots) && TasksOk(s.host, roots.state, held) && LocksOk(held, roots.state)
    requires p in roots.state && |p| >= 2 && p[0] == TASKS && p !in held
    ensures p[..2] == [TASKS, p[1]] && p[1] in W.ListNames(roots.state, held, [TASKS])
    ensures TaskNameOk(s.host, roots.state, p[1])
  {
    var state := roots.state;
    AncestorsAreDirectories(state, p, p[..2]);
    AncestorsAreDirectories(state, p, p[..1]);
    assert p[..1] == [TASKS] && p[..2] == [TASKS] + [p[1]] && [TASKS] + [p[1]] == [TASKS, p[1]];
    W.ListedNames(state, held, [TASKS]);
  }

  lemma TaskStart(s: Setup, held: set<Path>, roots: Roots, n: Name) returns (i: nat)
    requires Sound(roots) && n in W.ListNames(roots.state, held, [TASKS]) && TaskNameOk(s.host, roots.state, n)
    ensures IsStart(s, held, roots, i, [TASKS, n]) && PolicyOf(held, roots)[i].root == W.StateRoot
  {
    hide W.ListNames, PLISTS, Sound;
    var state, names := roots.state, StateNames(roots.state, held);
    var listed := W.ListNames(state, held, [TASKS]);
    PolicyAt(names, 0);
    PolicyAt(names, 1);
    i := if n == STORE[1] || (n != EVENTS[1] && IsResidue(s.host, state, n, STORE[1])) then 0 else 1;
    var f := PolicyOf(held, roots)[i];
    assert "tasks"[0] == 't' && "events"[0] == 'e' && "services"[0] == 's';
    if n == STORE[1] || n == EVENTS[1] {
      assert Starts(s.host, state, held, f)[0] == [TASKS, n];
    } else {
      assert [TASKS, n] in Residues(s.host, state, listed, f.relative[1]);
    }
  }

  lemma WalkLocks(s: Setup, held: set<Path>, roots: Roots, f: W.Family)
    requires Sound(roots) && LocksOk(held, roots.state)
    ensures forall q :: q in WalkOf(s, held, f).held && q in roots.At(f.root) ==> roots.At(f.root)[q].kind.Regular?
  {
  }

  /** Every path has at least one of its five fates. */
  lemma SomeFate(s: Setup, held: set<Path>, roots: Roots, p: Path)
    requires Sound(roots) && ProblemFree(s, held, roots) && LocksOk(held, roots.state) && p in roots.state
    ensures var records := Records(s, held, roots);
            AtDirectory(records, p) || AtEntry(records, p) || InExclusion(records, p) || p in held || InControl(p)
  {
    hide FamilyRecords, Policy, LocksOk, WellFormed, InspectLink, FamilyReport, W.ListNames, PLISTS, MANDATORY;
    var records, state := Records(s, held, roots), roots.state;
    if p == [] {
      assert RootRecord(state, held) in records;
    } else if p == [TASKS] {
      assert TasksRecord(state, held)[0] in records;
    } else if !InControl(p) && p !in held {
      FateBelowStart(s, held, roots, p);
    }
  }

  lemma FateBelowStart(s: Setup, held: set<Path>, roots: Roots, p: Path)
    requires Sound(roots) && Walked(s, held, roots) && NamesKnown(held, roots) && TasksOk(s.host, roots.state, held)
    requires LocksOk(held, roots.state) && p in roots.state && p != [] && p != [TASKS] && !InControl(p) && p !in held
    ensures var records := Records(s, held, roots);
            AtDirectory(records, p) || AtEntry(records, p) || InExclusion(records, p)
  {
    hide Records, PolicyOf, NamesKnown, TasksOk, LocksOk, Walked, W.Visit, W.Inspect;
    var i, start := StartAbove(s, held, roots, p);
    var f := PolicyOf(held, roots)[i];
    var w := WalkOf(s, held, f);
    WalkLocks(s, held, roots, f);
    W.NothingEscapesVisit(w, roots.state, start, p);
    var q := p;
    if !W.Open(w, start, p) {
      q :| start <= q <= p && W.Reached(w, start, q) && RuleFor(w.family.id, q, w.options.ctx).Some?;
      AncestorsAreDirectories(roots.state, p, q);
    }
    ReachedIsRecorded(s, held, roots, i, start, q);
  }

  lemma ReachedIsRecorded(s: Setup, held: set<Path>, roots: Roots, i: nat, start: Path, q: Path)
    requires Sound(roots) && Walked(s, held, roots) && IsStart(s, held, roots, i, start)
    requires start in roots.At(PolicyOf(held, roots)[i].root) && q in roots.At(PolicyOf(held, roots)[i].root)
    requires W.Reached(WalkOf(s, held, PolicyOf(held, roots)[i]), start, q)
    ensures exists r :: && r in Records(s, held, roots) && r.root == PolicyOf(held, roots)[i].root && r.item.at == q
                        && (r.item.Excluded? <==> RuleFor(PolicyOf(held, roots)[i].id, q, s.options.ctx).Some?)
  {
    hide W.Inspect, W.Visit, W.Reached, Policy, RootRecord, TasksRecord, FamilyRecords;
    var f := PolicyOf(held, roots)[i];
    var w, t := WalkOf(s, held, f), roots.At(f.root);
    StartIsThere(s, held, roots, i, start);
    W.ReachedIsClear(w, t, start, q);
    W.ClearInspect(w, t, q);
    var r := Record(f.id, f.root, W.Inspect(w, t, q).items[0]);
    assert W.Inspect(w, t, q).items == [r.item];
    assert From(s, held, roots, i, start, r);
    FromIsRecorded(s, held, roots, r, i, start);
  }

  /** A record is never beneath a recorded exclusion, and exclusions do not nest. */
  lemma NothingInsideExclusion(s: Setup, held: set<Path>, roots: Roots, x: Record, r: Record)
    requires Sound(roots) && Walked(s, held, roots)
    requires x in Records(s, held, roots) && r in Records(s, held, roots) && x.root == r.root
    requires x.item.Excluded? && x.item.at <= r.item.at
    ensures r == x
  {
    hide From, Records, PolicyOf, StateStart;
    if x.item.at == r.item.at {
      OneRecordAPath(s, held, roots, x, r);
    } else {
      if Fixed(held, roots, x) { FixedPlace(held, roots, x); }
      var i, p := Origin(s, held, roots, x);
      FromPlace(s, held, roots, i, p, x);
      if Fixed(held, roots, r) { FixedPlace(held, roots, r); }
      var j, q := Origin(s, held, roots, r);
      FromPlace(s, held, roots, j, q, r);
      OneStart(s, held, roots, i, p, j, q, r.item.at);
      NotBelowExclusion(s, held, roots, i, p, x, r);
    }
  }

  lemma NotBelowExclusion(s: Setup, held: set<Path>, roots: Roots, i: nat, p: Path, x: Record, r: Record)
    requires Sound(roots) && From(s, held, roots, i, p, x) && From(s, held, roots, i, p, r)
    requires x.item.at <= r.item.at && x.item.Excluded?
    ensures x.item.at == r.item.at
  {
    hide PolicyOf, W.Visit, W.Inspect, StateStart;
    var f := PolicyOf(held, roots)[i];
    var w := WalkOf(s, held, f);
    ExcludedIsClear(s, held, roots, i, p, x);
    W.ClearInspect(w, roots.At(f.root), x.item.at);
    if x.item.at < r.item.at {
      L.OpenPrefix(w, p, Parent(r.item.at), x.item.at);
    }
  }

  lemma ExcludedIsClear(s: Setup, held: set<Path>, roots: Roots, i: nat, p: Path, x: Record)
    requires Sound(roots) && From(s, held, roots, i, p, x)
    ensures W.Clear(W.Inspect(WalkOf(s, held, PolicyOf(held, roots)[i]), roots.At(PolicyOf(held, roots)[i].root),
        x.item.at))
  {
    hide InspectLink, Policy, PLISTS;
    var f := PolicyOf(held, roots)[i];
    W.ReachedIsClear(WalkOf(s, held, f), roots.At(f.root), p, x.item.at);
  }

  /** Nothing recorded is a held lock or lies in the control directory. */
  lemma RecordedIsOwned(s: Setup, held: set<Path>, roots: Roots, r: Record)
    requires Sound(roots) && Walked(s, held, roots) && LocksOk(held, roots.state)
    requires r in Records(s, held, roots) && r.root == W.StateRoot
    ensures r.item.at !in held && !InControl(r.item.at)
  {
    hide From, Records, PolicyOf, StateStart, RootRecord, TasksRecord;
    TaskFilesAreNoLocks();
    if Fixed(held, roots, r) {
      FixedPlace(held, roots, r);
    } else {
      var i, p := Origin(s, held, roots, r);
      FromIsOwned(s, held, roots, i, p, r);
    }
  }

  lemma FromIsOwned(s: Setup, held: set<Path>, roots: Roots, i: nat, p: Path, r: Record)
    requires Sound(roots) && From(s, held, roots, i, p, r) && r.root == W.StateRoot && LocksOk(held, roots.state)
    ensures r.item.at !in held && !InControl(r.item.at)
  {
    hide StateStart, W.Visit;
    FromPlace(s, held, roots, i, p, r);
    StartIsNoLock(s, held, roots, PolicyOf(held, roots)[i], p);
    StartIsNotControl(s, held, roots, PolicyOf(held, roots)[i], p);
  }

  lemma StartIsNotControl(s: Setup, held: set<Path>, roots: Roots, f: W.Family, p: Path)
    requires StateStart(s, held, roots, f, p)
    ensures p[0] != CONTROL
  {
    assert "tasks"[0] == 't' && "checkpoint"[0] == 'c';
  }

  lemma StartIsNoLock(s: Setup, held: set<Path>, roots: Roots, f: W.Family, p: Path)
    requires LocksOk(held, roots.state) && StateStart(s, held, roots, f, p)
    ensures p !in held
  {
    hide W.ListNames, IsResidue, EndsWith;
    TaskFilesAreNoLocks();
    assert p in held ==> EndsWith(Last(p), ".lock");
    if |p| == 2 && p != f.relative {
      W.ListedNames(roots.state, held, [TASKS]);
      assert [TASKS] + [p[1]] == p;
    }
  }

  lemma TaskFilesAreNoLocks()
    ensures !EndsWith(STORE[1], ".lock") && !EndsWith(EVENTS[1], ".lock") && !EndsWith(TASKS, ".lock")
    ensures TASKS != CONTROL
  {
    assert "tasks"[0] == 't' && "checkpoint"[0] == 'c';
    assert "tasks"[0..][4] == 's';
    assert STORE[1] == "store.json" && EVENTS[1] == "events.jsonl";
    assert "store.json"[5..][4] == 'n' && "events.jsonl"[7..][4] == 'l';
  }

  function Count(b: bool): nat {
    if b then 1 else 0
  }

  /** NOTHING IS SILENTLY DROPPED. After a problem-free inspection every path under the state root is exactly one of: a
      recorded directory, a recorded entry, at or inside a recorded exclusion, the control directory or what lies in it,
      or a lock this process holds. */
  lemma NothingIsDropped(s: Setup, held: set<Path>, roots: Roots, p: Path)
    requires Sound(roots) && InspectCoverage(s, held, roots).problems == [] && LocksOk(held, roots.state)
    requires p in roots.state
    ensures var records := InspectCoverage(s, held, roots).records;
            Count(AtDirectory(records, p)) + Count(AtEntry(records, p)) + Count(InExclusion(records, p))
                + Count(InControl(p))
            + Count(p in held && !InExclusion(records, p) && !InControl(p)) == 1
    ensures InControl(p) ==>
      p == [CONTROL] || (|p| == 2 && (p in held || ControlNameOk(roots.state, p[1])))
  {
    hide InspectLink, Policy, FamilyReport, PLISTS, MANDATORY, Records;
    EmptyProblems(s, held, roots);
    SomeFate(s, held, roots, p);
    OnlyOneFate(s, held, roots, p);
    if InControl(p) { ControlIsClosed(held, roots.state, p); }
  }

  /** A recorded path is recorded once, outside exclusions, locks and the control directory. */
  lemma OnlyOneFate(s: Setup, held: set<Path>, roots: Roots, p: Path)
    requires Sound(roots) && Walked(s, held, roots) && LocksOk(held, roots.state)
    ensures var records := Records(s, held, roots);
            && !(AtDirectory(records, p) && AtEntry(records, p))
            && (AtDirectory(records, p) || AtEntry(records, p) ==>
                  !InExclusion(records, p) && p !in held && !InControl(p))
            && (InExclusion(records, p) ==> !InControl(p))
  {
    hide Records, Walked, LocksOk, InControl;
    var records := Records(s, held, roots);
    if r :| r in records && r.root == W.StateRoot && !r.item.Excluded? && r.item.at == p {
      RecordedIsOwned(s, held, roots, r);
      forall q | q in records && q.root == W.StateRoot && q.item.at == p ensures q == r {
        OneRecordAPath(s, held, roots, q, r);
      }
      forall x | x in records && x.root == W.StateRoot && x.item.Excluded? && x.item.at <= p ensures x == r {
        NothingInsideExclusion(s, held, roots, x, r);
      }
    }
    forall x | x in records && x.root == W.StateRoot && x.item.Excluded? && x.item.at <= p ensures !InControl(p) {
      ExclusionIsNotControl(s, held, roots, x, p);
    }
  }

  lemma ExclusionIsNotControl(s: Setup, held: set<Path>, roots: Roots, x: Record, p: Path)
    requires Sound(roots) && Walked(s, held, roots) && LocksOk(held, roots.state)
    requires x in Records(s, held, roots) && x.root == W.StateRoot && x.item.Excluded? && x.item.at <= p
    ensures !InControl(p)
  {
    hide Records, PolicyOf, From, StateStart, Walked, LocksOk, RootRecord, TasksRecord, Starts, W.ListNames, RuleFor;
    RecordedIsOwned(s, held, roots, x);
    if Fixed(held, roots, x) { FixedPlace(held, roots, x); }
    var i, q := Origin(s, held, roots, x);
    FromPlace(s, held, roots, i, q, x);
  }

  lemma ControlIsClosed(held: set<Path>, state: Tree, p: Path)
    requires WellFormed(state) && ControlOk(state, held) && LocksOk(held, state) && p in state && InControl(p)
    ensures p == [CONTROL] || (|p| == 2 && (p in held || ControlNameOk(state, p[1])))
  {
    AncestorsAreDirectories(state, p, [CONTROL]);
    if p != [CONTROL] {
      var q := p[..2];
      AncestorsAreDirectories(state, p, q);
      assert q == [CONTROL] + [p[1]] && [CONTROL] + [p[1]] == [CONTROL, p[1]];
      W.ListedNames(state, held, [CONTROL]);
      assert q in held || ControlNameOk(state, p[1]);
    }
  }

  // ---------------------------------------------------------------- exclusions are safe

  /** EXCLUSION SAFETY, for every option setting. In a problem-free manifest recorded exclusions form an antichain and
      nothing is recorded beneath one; none is a retained release or a protected prefix; no authoritative path lies in
      one; and no required link resolves into one. */
  lemma ExclusionsAreSafe(s: Setup, held: set<Path>, roots: Roots, x: Record)
    requires Sound(roots) && InspectCoverage(s, held, roots).problems == []
    requires x in InspectCoverage(s, held, roots).records && x.item.Excluded?
    ensures forall r :: r in InspectCoverage(s, held, roots).records && r.root == x.root && x.item.at <= r.item.at ==>
        r == x
    ensures forall p :: p in roots.At(x.root) && x.item.at <= p ==> p != [] && !Authoritative(p)
    ensures if OwnerRule(x.item.rule) then s.options.ctx.owner && PrefixAllowed(x.item.at)
            else && |x.item.at| == 3 && x.item.at[..2] == ["runtime", "releases"]
                 && x.item.at[2] !in s.options.ctx.retained
    ensures forall r, target ::
      (r in InspectCoverage(s, held, roots).records && r.root == x.root && RequiredTarget(r, target)) ==>
        !(x.item.at <= target)
  {
    hide Records, InspectCoverage, Policy, InspectLink, FamilyReport, MANDATORY;
    EmptyProblems(s, held, roots);
    var records := Records(s, held, roots);
    forall r | r in records && r.root == x.root && x.item.at <= r.item.at ensures r == x {
      NothingInsideExclusion(s, held, roots, x, r);
    }
    if Fixed(held, roots, x) { FixedPlace(held, roots, x); }
    ExclusionIsLegal(s, held, roots, x);
    forall r, target | r in records && r.root == x.root && RequiredTarget(r, target) ensures !(x.item.at <= target) {
      TargetOutside(records, x, r, target);
    }
  }

  /** Under the default options a problem-free manifest holds no exclusion: everything there is is recorded itself. */
  lemma DefaultRecordsNoExclusion(s: Setup, held: set<Path>, roots: Roots, r: Record)
    requires Sound(roots) && Walked(s, held, roots) && s.options.ctx == EVERYTHING && r in Records(s, held, roots)
    ensures !r.item.Excluded?
  {
    hide Records, PolicyOf, Walked, W.Visit, W.Inspect, Starts;
    if Fixed(held, roots, r) {
      FixedPlace(held, roots, r);
    } else {
      var i, p := Origin(s, held, roots, r);
      FromPlace(s, held, roots, i, p, r);
      var f := PolicyOf(held, roots)[i];
      ExcludedIsClear(s, held, roots, i, p, r);
      W.ClearInspect(WalkOf(s, held, f), roots.At(f.root), r.item.at);
    }
  }

  lemma ExclusionIsLegal(s: Setup, held: set<Path>, roots: Roots, x: Record)
    requires Sound(roots) && Walked(s, held, roots) && x in Records(s, held, roots) && !Fixed(held, roots, x)
    requires x.item.Excluded?
    ensures forall p :: p in roots.At(x.root) && x.item.at <= p ==> p != [] && !Authoritative(p)
    ensures if OwnerRule(x.item.rule) then s.options.ctx.owner && PrefixAllowed(x.item.at)
            else && |x.item.at| == 3 && x.item.at[..2] == ["runtime", "releases"]
                 && x.item.at[2] !in s.options.ctx.retained
  {
    hide Records, PolicyOf, W.Inspect, W.Visit, StateStart, RuleFor, Walked;
    var i, p := Origin(s, held, roots, x);
    FromPlace(s, held, roots, i, p, x);
    var f := PolicyOf(held, roots)[i];
    ExcludedIsClear(s, held, roots, i, p, x);
    LegalExclusion(WalkOf(s, held, f), roots.At(f.root), x.item);
  }

  /** A clear record of an excluded path. */
  lemma LegalExclusion(w: W.Walk, t: Tree, x: W.Item)
    requires WellFormed(t) && W.Clear(W.Inspect(w, t, x.at)) && W.Inspect(w, t, x.at).items == [x] && x.Excluded?
    ensures forall p :: p in t && x.at <= p ==> p != [] && !Authoritative(p)
    ensures if OwnerRule(x.rule) then w.options.ctx.owner && PrefixAllowed(x.at)
            else |x.at| == 3 && x.at[..2] == ["runtime", "releases"] && x.at[2] !in w.options.ctx.retained
  {
    W.ClearInspect(w, t, x.at);
    NamesOnTheWay(t, x.at);
    assert RuleFor(w.family.id, x.at, w.options.ctx) == Some(x.rule);
    RulesStayClear(w.family.id, x.at, w.options.ctx);
    forall q | q in t && x.at <= q ensures q != [] && !Authoritative(q) {
      assert q in Beneath(t, x.at);
    }
  }

  lemma TargetOutside(records: seq<Record>, x: Record, r: Record, target: Path)
    requires TargetsKept(records) && x in records && r in records && x.item.Excluded? && r.root == x.root
    requires RequiredTarget(r, target)
    ensures !(x.item.at <= target)
  {
    var k :| 0 <= k < |records| && records[k] == r;
    assert !Excludes(records, records[k].root, target);
    var m :| 0 <= m < |records| && records[m] == x;
  }

  lemma {:induction false} NamesOnTheWay(t: Tree, p: Path)
    requires WellFormed(t) && p in t
    ensures forall i :: 0 <= i < |p| ==> ValidName(p[i])
  {
    if p != [] {
      assert Hangs(t, p);
      NamesOnTheWay(t, Parent(p));
      assert p == Parent(p) + [Last(p)];
    }
  }
}
