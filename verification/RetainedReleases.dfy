/** Which runtime releases may never be excluded: the one all five agents run and its single rollback target, read
    from the agents' property lists and the rollback snapshots. They are kept under every option, and a copy names
    the same two. */
module RetainedReleases {
  import opened FileTree
  import opened Names
  import opened LinkInspection
  import opened Exclusions
  import W = CoverageWalk
  import C = CoverageCopy
  import opened Families
  import opened Coverage
  import opened CoverageTheorems
  import opened CoverageRoundTrip

  /** The working directory a property list declares: the install root it lies in, and the release. */
  datatype Declared = Declared(root: string, id: Name)

  /** The fields of a rollback snapshot that are looked at; None is absent or of another type. */
  datatype Snapshot = Snapshot(schema: Option<int>, candidate: Option<string>, previous: Option<string>)

  /** Property-list and JSON reading, and the install root the agents are checked against. */
  datatype Reader = Reader(declared: seq<char> -> Option<Declared>, snapshot: seq<char> -> Option<Snapshot>,
                    installRoot: string)

  datatype Text = Content(bytes: seq<char>) | Absent | Broken

  /** Reading a file: absent only where its directory is there. */
  function ReadText(t: Tree, p: Path): Text {
    if p in t then (if t[p].kind.Regular? then Content(t[p].kind.bytes) else Broken)
    else if IsDirectory(t, Parent(p)) then Absent
    else Broken
  }

  /** The release one agent runs. */
  function RunBy(rd: Reader, agents: Tree, p: Path): Option<Name> {
    match ReadText(agents, p)
    case Content(bytes) =>
      (match rd.declared(bytes)
       case Some(d) => if d.root == rd.installRoot && ReleaseId(d.id) then Some(d.id) else None
       case None => None)
    case _ => None
  }

  predicate AllRun(rd: Reader, agents: Tree, id: Name) {
    forall k :: 0 <= k < |PLISTS| ==> RunBy(rd, agents, PLISTS[k]) == Some(id)
  }

  const ROLLBACK: Path := ["runtime", "rollback"]

  function SnapshotAt(n: Name): Path {
    ["runtime", "rollback", n, "snapshot.json"]
  }

  function ReleaseAt(id: Name): Path {
    ["runtime", "releases", id]
  }

  datatype Target = Names(previous: Name) | Other | Fails

  /** What one entry of the rollback directory says about the current release. */
  function TargetOf(rd: Reader, state: Tree, current: Name, n: Name): Target {
    match ReadText(state, SnapshotAt(n))
    case Absent => Other
    case Broken => Fails
    case Content(bytes) =>
      (match rd.snapshot(bytes)
       case None => Fails
       case Some(s) =>
         if s.schema != Some(1) || s.candidate != Some(current) then Other
         else if current != n || s.previous.None? || !ReleaseId(s.previous.value) then Fails
         else Names(s.previous.value))
  }

  /** The current release and its rollback target, with everything retainedRuntimeReleases insists on. */
  ghost predicate Determined(rd: Reader, roots: Roots, current: Name, previous: Name) {
    && AllRun(rd, roots.agents, current) && RollsBack(rd, roots.state, current, previous)
    && previous != current && IsDirectory(roots.state, ReleaseAt(current))
    && IsDirectory(roots.state, ReleaseAt(previous))
  }

  lemma DeterminedOnce(rd: Reader, roots: Roots, a: Name, b: Name, c: Name, d: Name)
    requires Determined(rd, roots, a, b) && Determined(rd, roots, c, d)
    ensures a == c && b == d
  {
    assert RunBy(rd, roots.agents, PLISTS[0]) == Some(a) == Some(c);
  }

  /** The first loop: the one release that all five agents run. */
  method CurrentRelease(rd: Reader, agents: Tree) returns (current: Option<Name>)
    ensures forall id :: AllRun(rd, agents, id) <==> current == Some(id)
  {
    hide RunBy;
    current := RunBy(rd, agents, PLISTS[0]);
    if current.None? { return None; }
    for k := 0 to |PLISTS|
      invariant forall j :: 0 <= j < k ==> RunBy(rd, agents, PLISTS[j]) == current
    {
      if RunBy(rd, agents, PLISTS[k]) != current { return None; }
    }
  }

  /** What the rollback directory says of a release: one target, and nothing amiss. */
  ghost predicate RollsBack(rd: Reader, state: Tree, current: Name, previous: Name) {
    && IsDirectory(state, ROLLBACK)
    && (forall n :: n in Children(state, ROLLBACK) ==> !TargetOf(rd, state, current, n).Fails?)
    && (forall n :: n in Children(state, ROLLBACK) && TargetOf(rd, state, current, n).Names? ==> n == current)
    && current in Children(state, ROLLBACK) && TargetOf(rd, state, current, current) == Names(previous)
  }

  /** The second loop. */
  method RollbackTarget(rd: Reader, state: Tree, current: Name) returns (target: Option<Name>)
    ensures forall previous :: RollsBack(rd, state, current, previous) <==> target == Some(previous)
  {
    hide TargetOf, IsDirectory, Children, Listing;
    target := None;
    if !IsDirectory(state, ROLLBACK) { return None; }
    var candidates := Listing(Children(state, ROLLBACK));
    assert forall n :: n in Children(state, ROLLBACK) <==> n in Elements(candidates);
    for k := 0 to |candidates|
      invariant forall j :: 0 <= j < k ==> !TargetOf(rd, state, current, candidates[j]).Fails?
      invariant forall j :: 0 <= j < k && TargetOf(rd, state, current, candidates[j]).Names? ==>
        candidates[j] == current && target == Some(TargetOf(rd, state, current, current).previous)
      invariant target.Some? ==> current in candidates && TargetOf(rd, state, current, current) == Names(target.value)
    {
      var found := TargetOf(rd, state, current, candidates[k]);
      NamedIsCurrent(rd, state, current, candidates[k]);
      if found.Fails? {
        assert candidates[k] in Elements(candidates);
        return None;
      }
      if found.Names? { target := Some(found.previous); }
    }
  }

  /** retainedRuntimeReleases: None where it throws. */
  method RetainedRuntimeReleases(rd: Reader, roots: Roots) returns (ids: Option<(Name, Name)>)
    ensures forall current, previous :: Determined(rd, roots, current, previous) <==> ids == Some((current, previous))
  {
    hide AllRun, RollsBack;
    var current := CurrentRelease(rd, roots.agents);
    if current.None? { return None; }
    var previous := RollbackTarget(rd, roots.state, current.value);
    if previous.None? || previous.value == current.value { return None; }
    if !IsDirectory(roots.state, ReleaseAt(current.value)) || !IsDirectory(roots.state, ReleaseAt(previous.value)) {
      return None;
    }
    ids := Some((current.value, previous.value));
  }

  lemma NamedIsCurrent(rd: Reader, state: Tree, current: Name, n: Name)
    ensures TargetOf(rd, state, current, n).Names? ==> n == current
  {
  }

  // ---------------------------------------------------------------- the options of an inspection

  /** What a caller of the inspection chooses. */
  datatype Choice = Choice(owner: bool, currentOnly: bool, policy: LinkPolicy)

  /** The retained releases these roots determine; None where they do not. */
  ghost function Retained(rd: Reader, roots: Roots): Option<set<Name>> {
    if exists c, p :: Determined(rd, roots, c, p) then
      var c, p :| Determined(rd, roots, c, p); Some({c, p})
    else None
  }

  lemma RetainedAre(rd: Reader, roots: Roots, current: Name, previous: Name)
    requires Determined(rd, roots, current, previous)
    ensures Retained(rd, roots) == Some({current, previous})
  {
    var c, p :| Determined(rd, roots, c, p) && Retained(rd, roots) == Some({c, p});
    DeterminedOnce(rd, roots, c, p, current, previous);
  }

  /** The walk's options: retained releases are resolved before anything is walked, and only when the choice needs
      them. */
  ghost function SetupOf(rd: Reader, h: W.Host, choice: Choice, roots: Roots): Option<Setup> {
    if !choice.currentOnly then Some(Setup(h, W.Options(Context(choice.owner, false, {}), choice.policy)))
    else match Retained(rd, roots)
      case None => None
      case Some(ids) => Some(Setup(h, W.Options(Context(choice.owner, true, ids), choice.policy)))
  }

  // ---------------------------------------------------------------- retained releases are kept

  /** Only the context of the options depends on the roots. */
  lemma SetupIs(rd: Reader, h: W.Host, choice: Choice, roots: Roots, s: Setup)
    requires SetupOf(rd, h, choice, roots) == Some(s)
    ensures s == Setup(h, W.Options(s.options.ctx, choice.policy))
  {
  }

  /** The options are the caller's choices, with the two determined releases where superseded ones are left out. */
  lemma SetupPlainly(rd: Reader, h: W.Host, choice: Choice, roots: Roots, s: Setup)
    ensures SetupOf(rd, h, choice, roots) == Some(s) <==>
            && s.host == h && s.options.policy == choice.policy && s.options.ctx.owner == choice.owner
            && s.options.ctx.currentOnly == choice.currentOnly
            && if choice.currentOnly then exists c, p :: Determined(rd, roots, c, p) && s.options.ctx.retained == {c, p}
               else s.options.ctx.retained == {}
  {
    hide Determined;
    if c, p :| Determined(rd, roots, c, p) { RetainedAre(rd, roots, c, p); }
    forall c, p | Determined(rd, roots, c, p) ensures Retained(rd, roots) == Some({c, p}) {
      RetainedAre(rd, roots, c, p);
    }
  }

  /** Nothing at or below a retained release is excluded, under any choice. */
  lemma RetainedIsNotExcluded(rd: Reader, h: W.Host, choice: Choice, held: set<Path>, roots: Roots, current: Name,
                              previous: Name, p: Path)
    requires Sound(roots) && Determined(rd, roots, current, previous) && SetupOf(rd, h, choice, roots).Some?
    requires Walked(SetupOf(rd, h, choice, roots).value, held, roots)
    requires ReleaseAt(current) <= p || ReleaseAt(previous) <= p
    ensures !InExclusion(Records(SetupOf(rd, h, choice, roots).value, held, roots), p)
  {
    hide Records, PolicyOf, Walked, From, Determined;
    var s := SetupOf(rd, h, choice, roots).value;
    RetainedAre(rd, roots, current, previous);
    forall x | x in Records(s, held, roots) && x.root == W.StateRoot && x.item.Excluded? ensures !(x.item.at <= p) {
      if Fixed(held, roots, x) { FixedPlace(held, roots, x); }
      ExcludedIsElsewhere(s, held, roots, x);
    }
  }

  /** An exclusion below runtime/ is a release that is not retained. */
  lemma ExcludedIsElsewhere(s: Setup, held: set<Path>, roots: Roots, x: Record)
    requires Sound(roots) && Walked(s, held, roots) && x in Records(s, held, roots) && x.item.Excluded?
    requires !Fixed(held, roots, x)
    ensures |x.item.at| >= 2
    ensures x.item.at[0] == "runtime" ==>
      |x.item.at| == 3 && x.item.at[1] == "releases" && x.item.at[2] !in s.options.ctx.retained
          && s.options.ctx.currentOnly
  {
    hide Records, PolicyOf, Walked, W.Visit, W.Inspect;
    var i, p := Origin(s, held, roots, x);
    FromPlace(s, held, roots, i, p, x);
    var f := PolicyOf(held, roots)[i];
    ExcludedIsClear(s, held, roots, i, p, x);
    RuleOf(WalkOf(s, held, f), roots.At(f.root), x.item);
  }

  lemma RuleOf(w: W.Walk, t: Tree, x: W.Item)
    requires WellFormed(t) && W.Clear(W.Inspect(w, t, x.at)) && W.Inspect(w, t, x.at).items == [x] && x.Excluded?
    ensures |x.at| >= 2
    ensures x.at[0] == "runtime" ==>
      |x.at| == 3 && x.at[1] == "releases" && x.at[2] !in w.options.ctx.retained && w.options.ctx.currentOnly
  {
    hide InspectLink, W.ListNames, WellFormed;
    assert "runtime"[0] == 'r' && "compat-home"[0] == 'c' && "checkpoints"[0] == 'c';
  }

  /** RETAINED RELEASES ARE KEPT WHOLE. After a problem-free inspection, under any choice, every path of the release the
      agents run and of its rollback target is recorded, or is a lock this process holds. */
  lemma RetainedIsRecorded(rd: Reader, h: W.Host, choice: Choice, held: set<Path>, roots: Roots, current: Name,
                           previous: Name, p: Path)
    requires Sound(roots) && Determined(rd, roots, current, previous) && SetupOf(rd, h, choice, roots).Some?
    requires InspectCoverage(SetupOf(rd, h, choice, roots).value, held, roots).problems == []
    requires LocksOk(held, roots.state)
    requires p in roots.state && (ReleaseAt(current) <= p || ReleaseAt(previous) <= p)
    ensures var records := InspectCoverage(SetupOf(rd, h, choice, roots).value, held, roots).records;
            AtDirectory(records, p) || AtEntry(records, p) || p in held
  {
    hide Records, Policy, Walked, Determined, InspectLink, FamilyReport, MANDATORY;
    var s := SetupOf(rd, h, choice, roots).value;
    EmptyProblems(s, held, roots);
    assert Walked(s, held, roots) by { EmptyIsWalked(s, held, roots); }
    RetainedIsNotExcluded(rd, h, choice, held, roots, current, previous, p);
    NothingIsDropped(s, held, roots, p);
    assert !InControl(p) by { assert p[0] == "runtime" && "runtime"[0] == 'r' && "checkpoint"[0] == 'c'; }
  }

  lemma EmptyIsWalked(s: Setup, held: set<Path>, roots: Roots)
    requires Sound(roots) && ProblemFree(s, held, roots)
    ensures Walked(s, held, roots)
  {
  }

  // ---------------------------------------------------------------- the copy determines the same two

  const RUNTIME: Path := ["runtime"]

  lemma RuntimeIsStart(s: Setup, held: set<Path>, roots: Roots)
    ensures IsStart(s, held, roots, 12, RUNTIME) && PolicyOf(held, roots)[12].root == W.StateRoot
    ensures PolicyOf(held, roots)[12].id == "runtime"
  {
    hide Policy;
    FixedFamilies(StateNames(roots.state, held));
    assert "runtime"[0] == 'r' && "services"[0] == 's';
  }

  lemma AgentIsStart(s: Setup, held: set<Path>, roots: Roots, k: nat)
    requires k < |PLISTS|
    ensures IsStart(s, held, roots, 24, PLISTS[k]) && PolicyOf(held, roots)[24].root == W.AgentsRoot
  {
    hide Policy;
    FixedFamilies(StateNames(roots.state, held));
  }

  /** Below runtime/, what no rule excludes and is no lock is copied as it is. */
  lemma RuntimeAlike(s: Setup, held: set<Path>, roots: Roots, device: nat, copy: Roots, p: Path)
    requires Backup(s, held, roots, device, copy) && RUNTIME <= p
    requires |p| >= 3 && p[1] == "releases" ==> p[2] in s.options.ctx.retained || !s.options.ctx.currentOnly
    ensures p in copy.state ==> p in roots.state
    ensures p in roots.state && p !in held ==> p in copy.state && copy.state[p].kind == roots.state[p].kind
  {
    hide Records, PolicyOf, ProblemFree, IsCopy, W.Open;
    RuntimeIsStart(s, held, roots);
    CopyIsFaithful(s, held, roots, device, copy, 12, RUNTIME);
    var w := WalkOf(s, held, PolicyOf(held, roots)[12]);
    assert C.CopiesAt(w, roots.state, RUNTIME, copy.state, p);
    if p in roots.state && p !in held { RuntimeIsOpen(w, roots.state, p); }
  }

  lemma {:induction false} RuntimeIsOpen(w: W.Walk, t: Tree, p: Path)
    requires WellFormed(t) && p in t && p !in w.held && RUNTIME <= p && w.family.id == "runtime"
    requires forall q :: q in w.held && q in t ==> t[q].kind.Regular?
    requires |p| >= 3 && p[1] == "releases" ==> p[2] in w.options.ctx.retained || !w.options.ctx.currentOnly
    ensures W.Open(w, RUNTIME, p)
    decreases |p|
  {
    NoRule(p, w.options.ctx);
    if p != RUNTIME {
      assert Hangs(t, p) && Parent(p) !in w.held;
      RuntimeIsOpen(w, t, Parent(p));
    }
  }

  lemma NoRule(p: Path, ctx: Context)
    requires |p| >= 3 && p[1] == "releases" ==> p[2] in ctx.retained || !ctx.currentOnly
    ensures RuleFor("runtime", p, ctx).None?
  {
    assert "runtime"[0] == 'r' && "compatibility"[0] == 'c' && "checkpoints"[0] == 'c';
  }

  lemma AgentsAlike(rd: Reader, s: Setup, held: set<Path>, roots: Roots, device: nat, copy: Roots, id: Name)
    requires Backup(s, held, roots, device, copy) && AllRun(rd, roots.agents, id)
    ensures AllRun(rd, copy.agents, id)
  {
    hide Records, PolicyOf, W.Visit, ProblemFree, IsCopy, Starts;
    forall k | 0 <= k < |PLISTS| ensures RunBy(rd, copy.agents, PLISTS[k]) == Some(id) {
      assert RunBy(rd, roots.agents, PLISTS[k]) == Some(id);
      AgentIsStart(s, held, roots, k);
      StartAlike(s, held, roots, device, copy, 24, PLISTS[k]);
    }
  }

  /** An entry of the rollback directory that does not fail is a real directory, so no lock, and is copied with what its
      snapshot says. */
  lemma TargetAlike(rd: Reader, s: Setup, held: set<Path>, roots: Roots, device: nat, copy: Roots, current: Name,
                    n: Name)
    requires Backup(s, held, roots, device, copy) && n in Children(roots.state, ROLLBACK)
    requires !TargetOf(rd, roots.state, current, n).Fails?
    ensures n in Children(copy.state, ROLLBACK)
    ensures TargetOf(rd, copy.state, current, n) == TargetOf(rd, roots.state, current, n)
  {
    hide Records, ProblemFree, IsCopy, Policy;
    var dir, file := ROLLBACK + [n], SnapshotAt(n);
    assert Parent(file) == dir && dir == ["runtime", "rollback", n] && "rollback"[0] == 'r' && "rollback"[2] == 'l'
        && "releases"[2] == 'l';
    assert "rollback"[1] == 'o' && "releases"[1] == 'e';
    if file in roots.state { assert Hangs(roots.state, file); }
    assert IsDirectory(roots.state, dir);
    NoLock(held, roots.state, file, dir);
    RuntimeAlike(s, held, roots, device, copy, dir);
    RuntimeAlike(s, held, roots, device, copy, file);
  }

  lemma NoLock(held: set<Path>, state: Tree, file: Path, dir: Path)
    requires LocksOk(held, state) && IsDirectory(state, dir) && file != [] && Last(file) == "snapshot.json"
    ensures file !in held && dir !in held
  {
    assert file in held ==> EndsWith("snapshot.json", ".lock");
    assert "snapshot.json"[8..][4] == 'n' && ".lock"[4] == 'k';
  }

  lemma RollbackAlike(rd: Reader, s: Setup, held: set<Path>, roots: Roots, device: nat, copy: Roots, current: Name,
                      previous: Name)
    requires Backup(s, held, roots, device, copy) && RollsBack(rd, roots.state, current, previous)
    ensures RollsBack(rd, copy.state, current, previous)
  {
    hide Records, ProblemFree, IsCopy, Policy, TargetOf;
    assert ROLLBACK !in held by { assert LocksOk(held, roots.state); }
    RuntimeAlike(s, held, roots, device, copy, ROLLBACK);
    forall n | n in Children(copy.state, ROLLBACK)
      ensures n in Children(roots.state, ROLLBACK)
      ensures TargetOf(rd, copy.state, current, n) == TargetOf(rd, roots.state, current, n)
    {
      assert "rollback"[1] == 'o' && "releases"[1] == 'e';
      RuntimeAlike(s, held, roots, device, copy, ROLLBACK + [n]);
      TargetAlike(rd, s, held, roots, device, copy, current, n);
    }
    TargetAlike(rd, s, held, roots, device, copy, current, current);
  }

  lemma ReleaseAlike(s: Setup, held: set<Path>, roots: Roots, device: nat, copy: Roots, id: Name)
    requires Backup(s, held, roots, device, copy) && IsDirectory(roots.state, ReleaseAt(id))
    requires id in s.options.ctx.retained || !s.options.ctx.currentOnly
    ensures IsDirectory(copy.state, ReleaseAt(id))
  {
    hide Records, ProblemFree, IsCopy, Policy;
    assert ReleaseAt(id) !in held by { assert LocksOk(held, roots.state); }
    RuntimeAlike(s, held, roots, device, copy, ReleaseAt(id));
  }

  /** THE COPY RETAINS THE SAME. Inspecting the copy under the same choice resolves to the same options. */
  lemma SetupAlike(rd: Reader, h: W.Host, choice: Choice, held: set<Path>, roots: Roots, device: nat, copy: Roots)
    requires SetupOf(rd, h, choice, roots).Some? && Ready(SetupOf(rd, h, choice, roots).value, held, roots)
    requires AreCopies(h, Records(SetupOf(rd, h, choice, roots).value, held, roots), roots, device, copy)
    ensures SetupOf(rd, h, choice, copy) == SetupOf(rd, h, choice, roots)
  {
    hide Records, ProblemFree, IsCopy, Policy, AllRun, RollsBack;
    var s := SetupOf(rd, h, choice, roots).value;
    CopyIsSound(s, held, roots, device, copy);
    if choice.currentOnly {
      var current, previous :| Determined(rd, roots, current, previous);
      RetainedAre(rd, roots, current, previous);
      AgentsAlike(rd, s, held, roots, device, copy, current);
      RollbackAlike(rd, s, held, roots, device, copy, current, previous);
      ReleaseAlike(s, held, roots, device, copy, current);
      ReleaseAlike(s, held, roots, device, copy, previous);
      RetainedAre(rd, copy, current, previous);
    }
  }
}
