/** The inspection as it runs: lists that grow while families are walked, an error that ends a family's walk early, and
    the checks over the finished lists. It is proved to produce the manifest of Coverage. */
module Inspector {
  import opened FileTree
  import opened Names
  import opened Families
  import opened CoverageWalk
  import opened Coverage

  lemma ThenIsAssociative(a: Report, b: Report, c: Report)
    ensures Then(Then(a, b), c) == Then(a, Then(b, c))
  {
  }

  lemma NothingThen(a: Report)
    ensures Then(NOTHING, a) == a && Then(a, NOTHING) == a
  {
  }

  lemma {:induction false} VisitNamesSplit(w: Walk, t: Tree, dir: Path, names: seq<Name>, k: nat)
    requires WellFormed(t) && dir in t && forall i :: 0 <= i < |names| ==> dir + [names[i]] in t
    requires k <= |names|
    ensures forall i :: 0 <= i < k ==> dir + [names[..k][i]] in t
    ensures forall i :: 0 <= i < |names| - k ==> dir + [names[k..][i]] in t
    ensures VisitNames(w, t, dir, names) == Then(VisitNames(w, t, dir, names[..k]), VisitNames(w, t, dir, names[k..]))
  {
    hide VisitName, Then;
    if k == 0 {
      assert names[..0] == [] && names[0..] == names;
      NothingThen(VisitNames(w, t, dir, names));
    } else {
      assert names[1..][..k - 1] == names[..k][1..] && names[1..][k - 1..] == names[k..] && names[..k][0] == names[0];
      VisitNamesSplit(w, t, dir, names[1..], k - 1);
      ThenIsAssociative(VisitName(w, t, dir, names[0]), VisitNames(w, t, dir, names[1..k]),
          VisitNames(w, t, dir, names[k..]));
    }
  }

  /** The part already walked, and one name more. */
  lemma VisitNamesNext(w: Walk, t: Tree, dir: Path, names: seq<Name>, k: nat)
    requires WellFormed(t) && dir in t && forall i :: 0 <= i < |names| ==> dir + [names[i]] in t
    requires k < |names|
    ensures VisitNames(w, t, dir, names[..k + 1])
        == Then(VisitNames(w, t, dir, names[..k]), VisitName(w, t, dir, names[k]))
  {
    hide VisitName, Then;
    var upto := names[..k + 1];
    VisitNamesSplit(w, t, dir, upto, k);
    assert upto[..k] == names[..k] && upto[k..] == [names[k]];
    assert [names[k]][1..] == [];
    NothingThen(VisitName(w, t, dir, names[k]));
  }

  lemma {:induction false} VisitAllNext(w: Walk, t: Tree, paths: seq<Path>, k: nat)
    requires WellFormed(t) && k < |paths|
    ensures VisitAll(w, t, paths[..k + 1]) == Then(VisitAll(w, t, paths[..k]), Visit(w, t, paths[k]))
  {
    hide Visit, Then;
    if k > 0 {
      assert paths[1..][..k] == paths[..k + 1][1..] && paths[1..][..k - 1] == paths[..k][1..];
      VisitAllNext(w, t, paths[1..], k - 1);
      ThenIsAssociative(Visit(w, t, paths[0]), VisitAll(w, t, paths[1..][..k - 1]), Visit(w, t, paths[k]));
    } else {
      assert paths[..1][1..] == [] && paths[..0] == [];
      NothingThen(Visit(w, t, paths[0]));
    }
  }

  /** Once an error is thrown nothing more is gathered. */
  lemma {:induction false} ThrownEarly(w: Walk, t: Tree, dir: Path, names: seq<Name>, k: nat)
    requires WellFormed(t) && dir in t && forall i :: 0 <= i < |names| ==> dir + [names[i]] in t
    requires k <= |names| && VisitNames(w, t, dir, names[..k]).thrown.Some?
    ensures VisitNames(w, t, dir, names) == VisitNames(w, t, dir, names[..k])
  {
    VisitNamesSplit(w, t, dir, names, k);
  }

  lemma {:induction false} ThrownEarlyAll(w: Walk, t: Tree, paths: seq<Path>, k: nat)
    requires WellFormed(t) && k <= |paths| && VisitAll(w, t, paths[..k]).thrown.Some?
    ensures VisitAll(w, t, paths) == VisitAll(w, t, paths[..k])
  {
    hide Visit;
    if k > 0 {
      assert paths[1..][..k - 1] == paths[..k][1..];
      if Visit(w, t, paths[0]).thrown.None? { ThrownEarlyAll(w, t, paths[1..], k - 1); }
    }
  }

  lemma {:induction false} RecordsConcat(s: Setup, held: set<Path>, roots: Roots, a: seq<Family>, b: seq<Family>)
    requires Sound(roots)
    ensures FamilyRecords(s, held, roots, a + b) == FamilyRecords(s, held, roots, a) + FamilyRecords(s, held, roots, b)
    ensures AllFamilyProblems(s, held, roots, a + b) == AllFamilyProblems(s, held, roots, a)
        + AllFamilyProblems(s, held, roots, b)
  {
    hide FamilyReport, FamilyProblems, Stamp, Sound;
    if a == [] {
      assert a + b == b;
    } else {
      assert (a + b)[1..] == a[1..] + b && (a + b)[0] == a[0];
      RecordsConcat(s, held, roots, a[1..], b);
    }
  }

  lemma RecordsNext(s: Setup, held: set<Path>, roots: Roots, policy: seq<Family>, k: nat)
    requires Sound(roots) && k < |policy|
    ensures var f, r := policy[k], FamilyReport(s, held, roots, policy[k]);
            && FamilyRecords(s, held, roots, policy[..k + 1]) == FamilyRecords(s, held, roots, policy[..k])
                + Stamp(f, r.items)
            && AllFamilyProblems(s, held, roots, policy[..k + 1])
               == AllFamilyProblems(s, held, roots, policy[..k]) + FamilyProblems(f, roots.At(f.root), r)
  {
    assert policy[..k + 1] == policy[..k] + [policy[k]];
    RecordsConcat(s, held, roots, policy[..k], [policy[k]]);
    assert [policy[k]][1..] == [];
  }

  /** The lists before and after a report was gathered. */
  predicate Gathered(items: seq<Item>, problems: seq<Problem>, r: Report, items': seq<Item>, problems': seq<Problem>) {
    items' == items + r.items && problems' == problems + r.problems
  }

  lemma GatheredThen(items: seq<Item>, problems: seq<Problem>, a: Report, items': seq<Item>, problems': seq<Problem>,
                     b: Report, items'': seq<Item>, problems'': seq<Problem>)
    requires Gathered(items, problems, a, items', problems') && a.thrown.None?
    requires Gathered(items', problems', b, items'', problems'')
    ensures Gathered(items, problems, Then(a, b), items'', problems'') && Then(a, b).thrown == b.thrown
  {
    assert (items + a.items) + b.items == items + (a.items + b.items);
    assert (problems + a.problems) + b.problems == problems + (a.problems + b.problems);
  }

  lemma GatheredNothing(items: seq<Item>, problems: seq<Problem>)
    ensures Gathered(items, problems, NOTHING, items, problems) && NOTHING.thrown.None?
  {
  }

  class Inspection {
    /** Items of the family being walked, and its problems so far. */
    var items: seq<Item>
    var problems: seq<Problem>

    constructor ()
      ensures items == [] && problems == []
    {
      items, problems := [], [];
    }

    /** `visit`: gathers what the walk of p records, and returns the error that ended it, if one did. */
    method VisitPath(w: Walk, t: Tree, p: Path) returns (thrown: Option<Thrown>)
      requires WellFormed(t)
      modifies this
      ensures Gathered(old(items), old(problems), Visit(w, t, p), items, problems)
      ensures thrown == Visit(w, t, p).thrown
      decreases Beneath(t, p), 1
    {
      hide Inspect, VisitNames, Then;
      var own := Inspect(w, t, p);
      items, problems := items + own.items, problems + own.problems;
      if own.items == [] || !own.items[0].Directory? {
        return own.thrown;
      }
      DirectoryIsThere(w, t, p);
      label recorded:
      thrown := VisitListed(w, t, p, ListNames(t, w.held, p));
      GatheredThen(old(items), old(problems), own, old@recorded(items), old@recorded(problems),
                   VisitNames(w, t, p, ListNames(t, w.held, p)), items, problems);
    }

    /** The names of one directory in order, up to the first error. */
    method VisitListed(w: Walk, t: Tree, dir: Path, names: seq<Name>) returns (thrown: Option<Thrown>)
      requires WellFormed(t) && dir in t && forall i :: 0 <= i < |names| ==> dir + [names[i]] in t
      modifies this
      ensures Gathered(old(items), old(problems), VisitNames(w, t, dir, names), items, problems)
      ensures thrown == VisitNames(w, t, dir, names).thrown
      decreases Beneath(t, dir), 0
    {
      hide Gathered, Visit, Then, Transitory, Beneath, VisitNames;
      assert names[..0] == [];
      NoNames(w, t, dir);
      GatheredNothing(items, problems);
      for k := 0 to |names|
        invariant VisitNames(w, t, dir, names[..k]).thrown.None?
        invariant Gathered(old(items), old(problems), VisitNames(w, t, dir, names[..k]), items, problems)
      {
        VisitNamesNext(w, t, dir, names, k);
        ghost var items0, problems0 := items, problems;
        if Transitory(w, t, dir + [names[k]]) {
          problems := problems + [Transient(w.family.id)];
          thrown := None;
          GatheredTransient(items0, problems0, w.family.id);
        } else {
          ChildIsSmaller(t, dir, names[k]);
          thrown := VisitPath(w, t, dir + [names[k]]);
        }
        GatheredThen(old(items), old(problems), VisitNames(w, t, dir, names[..k]), items0, problems0,
                     VisitName(w, t, dir, names[k]), items, problems);
        if thrown.Some? {
          ThrownEarly(w, t, dir, names, k + 1);
          return thrown;
        }
      }
      assert names[..|names|] == names;
      return None;
    }

    /** All starting paths of one family, up to the first error. */
    method VisitStarts(w: Walk, t: Tree, paths: seq<Path>) returns (thrown: Option<Thrown>)
      requires WellFormed(t)
      modifies this
      ensures Gathered(old(items), old(problems), VisitAll(w, t, paths), items, problems)
      ensures thrown == VisitAll(w, t, paths).thrown
    {
      hide Visit, Then, Gathered;
      GatheredNothing(items, problems);
      for k := 0 to |paths|
        invariant VisitAll(w, t, paths[..k]).thrown.None?
        invariant Gathered(old(items), old(problems), VisitAll(w, t, paths[..k]), items, problems)
      {
        VisitAllNext(w, t, paths, k);
        ghost var items0, problems0 := items, problems;
        thrown := VisitPath(w, t, paths[k]);
        GatheredThen(old(items), old(problems), VisitAll(w, t, paths[..k]), items0, problems0, Visit(w, t, paths[k]),
            items, problems);
        if thrown.Some? {
          ThrownEarlyAll(w, t, paths, k + 1);
          return thrown;
        }
      }
      assert paths[..|paths|] == paths;
      return None;
    }
  }

  lemma NoNames(w: Walk, t: Tree, dir: Path)
    requires WellFormed(t) && dir in t
    ensures VisitNames(w, t, dir, []) == NOTHING
  {
  }

  lemma GatheredTransient(items: seq<Item>, problems: seq<Problem>, family: string)
    ensures Gathered(items, problems, Report([], [Transient(family)], None), items, problems + [Transient(family)])
  {
  }

  lemma DirectoryIsThere(w: Walk, t: Tree, p: Path)
    requires WellFormed(t) && Inspect(w, t, p).items != [] && Inspect(w, t, p).items[0].Directory?
    ensures p in t && Inspect(w, t, p).thrown.None?
  {
  }

  lemma NoFamilies(s: Setup, held: set<Path>, roots: Roots)
    requires Sound(roots)
    ensures FamilyRecords(s, held, roots, []) == [] && AllFamilyProblems(s, held, roots, []) == []
  {
  }

  lemma Append<T>(a: seq<T>, b: seq<T>, c: seq<T>)
    ensures (a + b) + c == a + (b + c)
  {
  }

  /** The loop over required links: each target recorded by itself, and none in an exclusion. */
  method ScanTargets(records: seq<Record>) returns (covered: bool, kept: bool)
    ensures covered == TargetsCovered(records) && kept == TargetsKept(records)
  {
    hide Covers, Excludes;
    covered, kept := true, true;
    for k := 0 to |records|
      invariant covered == forall i :: 0 <= i < k && NeedsTarget(records[i]) ==>
        Covers(records, records[i].root, TargetOf(records[i]))
      invariant kept == forall i :: 0 <= i < k && NeedsTarget(records[i]) ==>
        !Excludes(records, records[i].root, TargetOf(records[i]))
    {
      if NeedsTarget(records[k]) {
        if !Covers(records, records[k].root, TargetOf(records[k])) { covered := false; }
        if Excludes(records, records[k].root, TargetOf(records[k])) { kept := false; }
      }
    }
  }

  predicate NeedsTarget(r: Record) {
    r.item.Entry? && r.item.detail.LinkDetail? && r.item.detail.info.requiredTarget && r.item.detail.info.resolved.Some?
  }

  function TargetOf(r: Record): Path
    requires NeedsTarget(r)
  {
    r.item.detail.info.resolved.value
  }

  /** The loops over preserved directories and over mandatory files. */
  method ScanFiles(records: seq<Record>, policy: seq<Family>) returns (complete: bool, present: bool)
    ensures complete == HistoricalComplete(records, policy) && present == MandatoryPresent(records)
  {
    hide HasFile, HasEntryAt, PLISTS, MANDATORY;
    complete, present := true, true;
    for i := 0 to |policy|
      invariant complete == forall j, k ::
        (0 <= j < i && 0 <= k < |PLISTS| && policy[j].id == "historical-preservation") ==>
          HasFile(records, policy[j].relative + PLISTS[k])
    {
      if policy[i].id == "historical-preservation" {
        ghost var before := complete;
        for k := 0 to |PLISTS|
          invariant complete == (before && forall n :: 0 <= n < k ==> HasFile(records, policy[i].relative + PLISTS[n]))
        {
          if !HasFile(records, policy[i].relative + PLISTS[k]) { complete := false; }
        }
      }
    }
    for k := 0 to |MANDATORY|
      invariant present == forall n :: 0 <= n < k ==> HasEntryAt(records, MANDATORY[n])
    {
      if !HasEntryAt(records, MANDATORY[k]) { present := false; }
    }
  }

  /** `inspectCoverage`: the state root and tasks/ first, then family by family, then the checks over the whole. */
  method RunInspection(s: Setup, held: set<Path>, roots: Roots) returns (m: Manifest)
    requires Sound(roots)
    ensures m == InspectCoverage(s, held, roots)
  {
    hide FamilyProblems, Policy, Starts, VisitAll, WalkOf, Stamp, FamilyRecords, AllFamilyProblems, NamesKnown,
         ClosedWorld,
         TargetsCovered, TargetsKept, HistoricalComplete, MandatoryPresent, StateNames, TasksRecord;
    NoFamilies(s, held, roots);
    var names := StateNames(roots.state, held);
    var policy := Policy(names);
    var early := ClosedWorld(s.host, held, roots);
    var first := [RootRecord(roots.state, held)] + TasksRecord(roots.state, held);
    var records, problems := first, early;
    assert policy[..0] == [];
    for k := 0 to |policy|
      invariant records == first + FamilyRecords(s, held, roots, policy[..k])
      invariant problems == early + AllFamilyProblems(s, held, roots, policy[..k])
    {
      var f := policy[k];
      var walk := new Inspection();
      var thrown := walk.VisitStarts(WalkOf(s, held, f), roots.At(f.root), Starts(s.host, roots.state, held, f));
      var report := Report(walk.items, walk.problems, thrown);
      assert report == FamilyReport(s, held, roots, f);
      RecordsNext(s, held, roots, policy, k);
      Append(first, FamilyRecords(s, held, roots, policy[..k]), Stamp(f, report.items));
      Append(early, AllFamilyProblems(s, held, roots, policy[..k]), FamilyProblems(f, roots.At(f.root), report));
      records := records + Stamp(f, report.items);
      problems := problems + FamilyProblems(f, roots.At(f.root), report);
    }
    assert policy[..|policy|] == policy;
    assert records == Coverage.Records(s, held, roots);
    var covered, kept := ScanTargets(records);
    var complete, present := ScanFiles(records, policy);
    problems := problems + Check(covered, TargetNotCovered) + Check(kept, TargetExcluded)
                + Check(complete, HistoricalIncomplete) + Check(present, MissingDependency);
    m := Manifest(records, problems, [roots.state[[]].device, roots.agents[[]].device, roots.worker[[]].device],
        policy);
  }
}
