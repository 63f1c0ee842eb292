/** A whole backup: resolve the options, inspect the source, copy it, and inspect the copy under the same choice. */
module BackupRun {
  import opened FileTree
  import W = CoverageWalk
  import opened Exclusions
  import opened Coverage
  import opened CoverageTheorems
  import opened CoverageRoundTrip
  import opened CoverageVerify
  import opened ManifestValidity
  import opened RetainedReleases
  import opened BackupCopy
  import Inspector

  /** The options of an inspection; None where resolving them throws. */
  method ResolveSetup(rd: Reader, h: W.Host, choice: Choice, roots: Roots) returns (s: Option<Setup>)
    ensures s == SetupOf(rd, h, choice, roots)
  {
    if !choice.currentOnly { return Some(Setup(h, W.Options(Context(choice.owner, false, {}), choice.policy))); }
    var ids := RetainedRuntimeReleases(rd, roots);
    if ids.None? { return None; }
    RetainedAre(rd, roots, ids.value.0, ids.value.1);
    s := Some(Setup(h, W.Options(Context(choice.owner, true, {ids.value.0, ids.value.1}), choice.policy)));
  }

  /** THE BACKUP, END TO END, for every choice of exclusions and link policy. Without problems the copy completes
      exactly when every recorded directory admits what is recorded in it. It then holds exactly the manifest, resolves
      to the same options, and inspects to the same records, without problems, exactly when every recorded link stays.
      Verification accepts it exactly when besides it lies on its source's volumes, everything recorded is what new
      items show, and no listed name holds a backslash. */
  method BackUp(rd: Reader, h: W.Host, choice: Choice, held: set<Path>, roots: Roots, device: nat)
    returns (m: Option<Manifest>, copy: Option<Roots>, observed: Option<Manifest>)
    requires Sound(roots) && LocksOk(held, roots.state)
    ensures m.Some? <==> SetupOf(rd, h, choice, roots).Some?
    ensures m.Some? ==> m.value == InspectCoverage(SetupOf(rd, h, choice, roots).value, held, roots)
    ensures copy.Some? <==> m.Some? && m.value.problems == [] && Fillable(m.value.records)
    ensures copy.Some? ==>
      && AreCopies(h, m.value.records, roots, device, copy.value) && Sound(copy.value)
      && SetupOf(rd, h, choice, copy.value) == SetupOf(rd, h, choice, roots)
      && observed == Some(InspectCoverage(SetupOf(rd, h, choice, copy.value).value, {}, copy.value))
      && (LinksStay(m.value.records, roots, choice.policy) <==>
          observed.value.problems == [] && observed.value.records == KeptRecords(h, m.value.records))
      && (Verified(h, SetupOf(rd, h, choice, roots).value.options, m.value, observed.value, true) <==>
          && m.value.volumes == [device, device, device] && AllAsNew(h, m.value.records)
          && PlainListings(m.value.records) && LinksStay(m.value.records, roots, choice.policy))
  {
    hide InspectCoverage, Verified, AreCopies, Copyable, Fillable, PlainListings, AllAsNew, SetupOf, Sound, LinksStay;
    m, copy, observed := None, None, None;
    var s := ResolveSetup(rd, h, choice, roots);
    if s.None? { return; }
    var manifest := Inspector.RunInspection(s.value, held, roots);
    m := Some(manifest);
    if manifest.problems != [] { return; }
    ProblemFreeIsReady(rd, h, choice, s.value, held, roots);
    ReadyIsCopyable(s.value, held, roots);
    copy := Materialize(h, manifest.records, roots, device);
    if copy.None? { return; }
    BackupRoundTrip(s.value, held, roots, device, copy.value);
    BackupVerifies(s.value, held, roots, device, copy.value);
    SetupAlike(rd, h, choice, held, roots, device, copy.value);
    var again := ResolveSetup(rd, h, choice, copy.value);
    var seen := Inspector.RunInspection(again.value, {}, copy.value);
    observed := Some(seen);
  }

  lemma ProblemFreeIsReady(rd: Reader, h: W.Host, choice: Choice, s: Setup, held: set<Path>, roots: Roots)
    requires Sound(roots) && LocksOk(held, roots.state) && SetupOf(rd, h, choice, roots) == Some(s)
    requires InspectCoverage(s, held, roots).problems == []
    ensures Ready(s, held, roots) && s.host == h && s.options.policy == choice.policy
    ensures InspectCoverage(s, held, roots).records == Records(s, held, roots)
  {
    hide ProblemFree, Records, InspectCoverage, SetupOf, LocksOk, Sound;
    EmptyProblems(s, held, roots);
    SetupIs(rd, h, choice, roots, s);
  }

  /** And the copy is copied unchanged. */
  method CopyAgain(h: W.Host, records: seq<Record>, roots: Roots, device: nat, copy: Roots)
    returns (again: Option<Roots>)
    requires Copyable(records, roots) && Fillable(records) && AreCopies(h, records, roots, device, copy)
    ensures again == Some(copy)
  {
    hide Copyable, Fillable, AreCopies;
    CopyIsCopyable(h, records, roots, device, copy);
    again := Materialize(h, records, copy, device);
    CopyOfCopyIsCopy(h, records, roots, device, copy, again.value);
  }
}
