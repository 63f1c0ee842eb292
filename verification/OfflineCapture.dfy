/** The offline capture as a run, from the first append to the outcome: what is inspected, copied and verified on the
    way, and what a certificate therefore says about the owner state. */
module OfflineCapture {
  import opened FileTree
  import opened EvidenceLog
  import opened TransactionStore
  import W = CoverageWalk
  import C = Coverage
  import CoverageTheorems
  import RT = CoverageRoundTrip
  import V = CoverageVerify
  import S = CoverageSoundness
  import RR = RetainedReleases
  import Inspector
  import BackupRun

  datatype Answer = Yes | No | Throws

  /** The checks that are not modelled further, in their order: source binding, destination and quiescence; the writers'
      locks; what runs after the fence; quiescence again; budget, capacity and destination; what runs after the copy;
      its sync; the restored application; quiescence and destination once more; and the release of the locks. */
  datatype Check = Entry | Locks | AfterFence | Quiescent | Budget | AfterCopy | Synced | Restored | StillQuiescent
                   | DestinationKept | Released

  /** What is to be captured, and under which options. */
  datatype Request = Request(host: W.Host, reader: RR.Reader, choice: RR.Choice, held: set<Path>)

  /** By call number: how each check ends that is not modelled, and what the source is. Then the digest and the text of
      a manifest, what the copy and the restore leave behind, whatever that is, and the digest of a directory. */
  datatype World = World(answer: nat -> Answer, source: nat -> C.Roots, seal: C.Manifest -> string,
                         text: C.Manifest -> seq<char>, generation: string -> string, copied: Tree, restored: Tree,
                         digest: Tree -> Option<string>)

  // ---------------------------------------------------------------- the transaction directory

  /** The tree in one directory of a tree. */
  function Inside(t: Tree, n: Name): Tree {
    var paths := set p | p in t && p != [] && p[0] == n :: p[1..];
    map q | q in paths && [n] + q in t :: t[[n] + q]
  }

  /** The three captured roots in a transaction directory. */
  function RootsIn(t: Tree): C.Roots {
    C.Roots(Inside(t, "state"), Inside(t, "agents"), Inside(t, "worker"))
  }

  const MANIFEST: Path := ["manifest.private.json"]

  /** The directory with the manifest stored beside the roots. */
  function WithManifest(h: W.Host, t: Tree, text: seq<char>): Tree
    requires [] in t
  {
    t[MANIFEST := Node(Regular(text), 384, h.owner, t[[]].device, 0)]
  }

  /** The three roots are what lies in the directories of their names. */
  lemma RootsAre(t: Tree, q: Path)
    ensures var roots := RootsIn(t);
            && (q in roots.state <==> ["state"] + q in t) && (q in roots.state ==> roots.state[q] == t[["state"] + q])
            && (q in roots.agents <==> ["agents"] + q in t)
            && (q in roots.agents ==> roots.agents[q] == t[["agents"] + q])
            && (q in roots.worker <==> ["worker"] + q in t)
            && (q in roots.worker ==> roots.worker[q] == t[["worker"] + q])
  {
    hide Inside;
    InsideIs(t, "state", q);
    InsideIs(t, "agents", q);
    InsideIs(t, "worker", q);
  }

  lemma InsideIs(t: Tree, n: Name, q: Path)
    ensures q in Inside(t, n) <==> [n] + q in t
    ensures q in Inside(t, n) ==> Inside(t, n)[q] == t[[n] + q]
  {
    assert ([n] + q)[1..] == q && ([n] + q)[0] == n;
  }

  /** The manifest is stored as a file of its own, readable by its owner alone, and nothing else changes. */
  lemma ManifestIs(h: W.Host, t: Tree, text: seq<char>)
    requires [] in t
    ensures var file := ["manifest.private.json"]; var with := WithManifest(h, t, text);
            && file in with && with[file].kind == Regular(text) && with[file].mode == (6 * 8 + 0) * 8 + 0
            && with[file].owner == h.owner && with[file].device == t[[]].device
            && forall p :: p != file ==> (p in with <==> p in t) && (p in t ==> with[p] == t[p])
  {
  }

  lemma RootsBesideManifest(h: W.Host, t: Tree, text: seq<char>)
    requires [] in t
    ensures RootsIn(WithManifest(h, t, text)) == RootsIn(t)
  {
    hide Inside;
    assert MANIFEST[0][0] == 'm' && "state"[0] == 's' && "agents"[0] == 'a' && "worker"[0] == 'w';
    var node := WithManifest(h, t, text)[MANIFEST];
    InsideElsewhere(t, MANIFEST, node, "state");
    InsideElsewhere(t, MANIFEST, node, "agents");
    InsideElsewhere(t, MANIFEST, node, "worker");
  }

  lemma InsideElsewhere(t: Tree, p: Path, node: Node, n: Name)
    requires p != [] && p[0] != n
    ensures Inside(t[p := node], n) == Inside(t, n)
  {
    assert forall q :: ([n] + q)[0] == n;
    var a := set q | q in t && q != [] && q[0] == n :: q[1..];
    var b := set q | q in t[p := node] && q != [] && q[0] == n :: q[1..];
    assert a == b;
  }

  // ---------------------------------------------------------------- what was established

  /** The source as inspected, its options and manifest, the transaction directory and the restored one as verified,
      and the source as verified last. */
  datatype Proof = Proof(setup: C.Setup, inspected: C.Roots, manifest: C.Manifest, verified: Tree, restored: Tree,
                         last: C.Roots)

  /** verifyCoverage accepts these roots under the manifest's own options. */
  ghost predicate Accepts(q: Request, s: C.Setup, m: C.Manifest, held: set<Path>, roots: C.Roots, isCopy: bool) {
    && C.Sound(roots) && RR.SetupOf(q.reader, q.host, q.choice, roots) == Some(s)
    && V.Verified(q.host, s.options, m, C.InspectCoverage(s, held, roots), isCopy)
  }

  /** The manifest is what an inspection of the source gives, without problems. */
  ghost predicate Inspected(q: Request, s: C.Setup, m: C.Manifest, roots: C.Roots) {
    && C.Sound(roots) && RR.SetupOf(q.reader, q.host, q.choice, roots) == Some(s)
    && m == C.InspectCoverage(s, q.held, roots) && m.problems == []
  }

  lemma InspectedUnder(q: Request, s: C.Setup, m: C.Manifest, roots: C.Roots)
    requires Inspected(q, s, m, roots)
    ensures s.host == q.host && s.options.policy == q.choice.policy
  {
    hide C.InspectCoverage, RR.SetupOf, C.Sound;
    RR.SetupIs(q.reader, q.host, q.choice, roots, s);
  }

  ghost predicate Proven(q: Request, p: Proof) {
    && Inspected(q, p.setup, p.manifest, p.inspected)
    && Accepts(q, p.setup, p.manifest, {}, RootsIn(p.verified), true)
    && Accepts(q, p.setup, p.manifest, {}, RootsIn(p.restored), true)
    && Accepts(q, p.setup, p.manifest, q.held, p.last, false)
  }

  /** What that says of the trees: the transaction directory and, at the end, the source hold everything recorded as it
      was when it was inspected, and the captured state root holds nothing else. */
  ghost predicate Preserved(p: Proof) {
    && S.Reproduces(p.manifest.records, p.inspected, RootsIn(p.verified))
    && S.Reproduces(p.manifest.records, p.inspected, p.last)
    && forall x :: x in RootsIn(p.verified).state ==>
         RT.Copied(p.manifest.records, W.StateRoot, x) || CoverageTheorems.InControl(x)
  }

  lemma ProvenIsPreserved(q: Request, p: Proof)
    requires Proven(q, p) && S.Collisionless(q.host)
    ensures Preserved(p)
  {
    hide V.Verified, C.InspectCoverage, S.Reproduces, RR.Retained;
    S.VerifiedReproduces(p.setup, q.held, p.inspected, {}, RootsIn(p.verified), true);
    S.VerifiedReproduces(p.setup, q.held, p.inspected, q.held, p.last, false);
  }

  /** The checks passed under the locks, and those from the copy on. */
  const UNDER_LOCKS := [AfterFence, Quiescent, Budget, AfterCopy, Synced, Restored, StillQuiescent, DestinationKept]
  const FROM_COPY := [AfterCopy, Synced, Restored, StillQuiescent, DestinationKept]

  lemma Joined(a: seq<Check>, b: seq<Check>, c: seq<Check>, d: seq<Check>)
    ensures a + b + c == a + (b + c) && a + b + c + d == a + (b + c + d)
    ensures [AfterFence, Quiescent, Budget] + FROM_COPY == UNDER_LOCKS
  {
  }

  datatype Outcome = Refused | FailedUncertain | BackupCertified(manifest: string, artifact: string)

  /** A call returns or throws. */
  datatype Result = Returned(outcome: Outcome) | Threw

  class Capture {
    const evidence: Evidence
    const request: Request
    const world: World
    var calls: nat
    /** The flag that decides between refusal and failure. */
    var started: bool
    /** A byte may have been copied. */
    ghost var copying: bool
    /** The transaction directory as last checked before certification. */
    ghost var checked: Option<Tree>
    /** What the run has established when it certifies. */
    ghost var proof: Option<Proof>
    /** The checks that were passed, in order. */
    ghost var passed: seq<Check>

    constructor (evidence: Evidence, request: Request, world: World)
      requires evidence.Valid() && evidence.memory == Memory(None, None)
      ensures Valid() && this.evidence == evidence && this.world == world && !started && !copying && passed == []
    {
      this.evidence, this.request, this.world := evidence, request, world;
      calls, started, copying, checked, proof, passed := 0, false, false, None, None, [];
    }

    /** A started run has its CAPTURING record; only a started run whose expectation is stored copies. */
    ghost predicate Valid()
      reads this, evidence
    {
      && evidence.Valid()
      && (started ==> Holds(evidence.disk.chain, Capturing))
      && (copying ==> started && evidence.memory.expectation.Some?)
    }

    /** What the outcome says about the evidence. */
    ghost predicate Told(outcome: Outcome)
      reads this, evidence
    {
      match outcome
      case Refused => !started && !copying && evidence.Ends(RefusedState)
      case FailedUncertain => started && evidence.Ends(FailedState)
      case BackupCertified(manifest, artifact) =>
        && started && evidence.Ends(Certified)
        && evidence.memory == Memory(Some(Expect(manifest, world.generation(manifest))), Some((manifest, artifact)))
        && checked.Some? && world.digest(checked.value) == Some(artifact)
        && proof.Some? && Proven(request, proof.value) && manifest == world.seal(proof.value.manifest)
        && proof.value.restored == world.restored && [] in proof.value.verified
        && (Undisturbed(evidence.script) ==> evidence.disk.staging == checked == Some(Stored()))
    }

    /** The transaction directory as captured. */
    ghost function Stored(): Tree
      requires proof.Some? && [] in proof.value.verified
      reads this
    {
      WithManifest(request.host, proof.value.verified, world.text(proof.value.manifest))
    }

    ghost predicate Certifies(r: Result) {
      r.Returned? && r.outcome.BackupCertified?
    }

    /** What the source inspects to as it is at first: None where that throws. */
    ghost function Found(): Option<(C.Setup, C.Manifest)> {
      if !C.Sound(world.source(0)) then None
      else
        var s := RR.SetupOf(request.reader, request.host, request.choice, world.source(0));
        if s.None? then None else Some((s.value, C.InspectCoverage(s.value, request.held, world.source(0))))
    }

    /** Nothing stands in the way: every check passes, every write works, nobody interferes, the source stands still and
        inspects without problems, and the copy, the restored copy and the source all verify. */
    ghost predicate Fair() {
      && Calm(evidence.script) && (forall n :: world.answer(n) == Yes)
      && (forall n :: world.source(n) == world.source(0))
      && Found().Some? && [] in world.copied
      && var (s, m) := Found().value;
         && m.problems == [] && Accepts(request, s, m, {}, RootsIn(world.copied), true)
         && Accepts(request, s, m, {}, RootsIn(world.restored), true)
         && Accepts(request, s, m, request.held, world.source(0), false)
         && world.digest(WithManifest(request.host, world.copied, world.text(m))).Some?
    }

    /** The log ends in this state and takes more. */
    predicate At(state: State)
      reads evidence
    {
      evidence.Ends(state) && !evidence.disk.torn
    }

    /** Neither an expectation nor a transaction directory. */
    predicate Untouched()
      reads evidence
    {
      evidence.disk.expectation.None? && evidence.disk.staging.None?
    }

    lemma FoundIsSound()
      requires Found().Some?
      ensures C.Sound(world.source(0))
    {
      hide C.InspectCoverage, RR.SetupOf, C.Sound;
    }

    /** A check that passes, fails or throws, while others act. */
    method Ask(check: Check) returns (a: Answer)
      requires Valid()
      modifies this`calls, this`passed, evidence`disk, evidence`clock
      ensures Valid() && (Closed(old(evidence.disk).chain) ==> evidence.disk.chain == old(evidence.disk).chain)
      ensures Undisturbed(evidence.script) ==> evidence.disk.staging == old(evidence.disk).staging
      ensures Calm(evidence.script) ==> evidence.disk == old(evidence.disk)
      ensures a == world.answer(old(calls)) && passed == if a.Yes? then old(passed) + [check] else old(passed)
    {
      a := world.answer(calls);
      calls := calls + 1;
      if a.Yes? { passed := passed + [check]; }
      evidence.Await();
      if started { HoldsStays(old(evidence.disk).chain, evidence.disk.chain, Capturing); }
    }

    method Append(state: State, data: Data := Data(None, None)) returns (ok: bool)
      requires Valid()
      modifies evidence`disk, evidence`clock
      ensures Valid() && (ok ==> evidence.Ends(state)) && (ok && state.Prepared? ==> evidence.origin.chain == [])
      ensures Undisturbed(evidence.script) ==> evidence.disk.staging == old(evidence.disk).staging
      ensures Calm(evidence.script) && Takes(old(evidence.disk), state) ==>
        ok && evidence.disk == old(evidence.disk).(made := true, chain := evidence.disk.chain)
    {
      ok := evidence.Append(state, data);
      if started { HoldsStays(old(evidence.disk).chain, evidence.disk.chain, Capturing); }
    }

    method Refuse() returns (r: Result)
      requires Valid() && !started
      modifies evidence`disk, evidence`clock
      ensures Valid() && (r.Threw? || (r == Returned(Refused) && Told(Refused)))
    {
      var ok := Append(RefusedState);
      r := if ok then Returned(Refused) else Threw;
    }

    /** The body of the try block: from the destination checks to the release of the locks. */
    method Attempt() returns (r: Result)
      requires Valid() && !started && !copying && evidence.memory == Memory(None, None)
      modifies this, evidence
      ensures Valid() && (r.Returned? ==> Told(r.outcome))
      ensures Undisturbed(evidence.script) && old(evidence.disk).staging.Some? ==> !started && !copying && !Certifies(r)
      ensures Certifies(r) ==> passed == old(passed) + ([Entry, Locks] + UNDER_LOCKS + [Released])
      ensures Fair() && old(At(Prepared)) && old(Untouched()) ==> Certifies(r)
    {
      hide Holds, Proven, WithManifest, Good, Keeps, Remembers, Accepts, Found, RootsIn, Told;
      var a := Ask(Entry);
      if a.Throws? { return Threw; }
      if a.No? { r := Refuse(); return r; }
      var ok := Append(Acknowledged);
      if !ok { return Threw; }
      a := Ask(Locks);
      if !a.Yes? { return Threw; }
      ghost var before := old(passed);
      assert passed == before + [Entry, Locks];
      r := WithLocks();
      r := Release(r);
      if Certifies(r) { Joined(before, [Entry, Locks], UNDER_LOCKS, [Released]); }
    }

    /** The locks are released: what was told stands, or an exception takes its place. */
    method Release(told: Result) returns (r: Result)
      requires Valid() && (told.Returned? ==> Told(told.outcome))
      modifies this`calls, this`passed, evidence`disk, evidence`clock
      ensures Valid() && (r.Returned? ==> r == told && Told(r.outcome) && passed == old(passed) + [Released])
      ensures (forall n :: world.answer(n) == Yes) ==> r == told
    {
      hide Holds, Proven, WithManifest, Good, Keeps, Remembers;
      var a := Ask(Released);
      r := if a.Yes? then told else Threw;
    }

    /** The source as it is now, or an exception where a root is no directory. */
    method Source() returns (roots: Option<C.Roots>)
      requires Valid()
      modifies this`calls
      ensures Valid() && (roots.Some? ==> C.Sound(roots.value))
      ensures (forall n :: world.source(n) == world.source(0)) && C.Sound(world.source(0)) ==>
        roots == Some(world.source(0))
    {
      hide C.Sound;
      calls := calls + 1;
      roots := if C.Sound(world.source(calls)) then Some(world.source(calls)) else None;
    }

    /** inspectCoverage of the source: None where it throws. */
    method Observe() returns (found: Option<(C.Setup, C.Manifest)>, ghost roots: C.Roots)
      requires Valid()
      modifies this`calls
      ensures Valid() && (found.Some? && found.value.1.problems == [] ==>
                            Inspected(request, found.value.0, found.value.1, roots))
      ensures (forall n :: world.source(n) == world.source(0)) && Found().Some? ==> found == Found()
    {
      hide C.InspectCoverage, RR.SetupOf, C.Sound;
      var now := Source();
      if now.None? { return None, C.Roots(map[], map[], map[]); }
      var s := BackupRun.ResolveSetup(request.reader, request.host, request.choice, now.value);
      if s.None? { return None, now.value; }
      var m := Inspector.RunInspection(s.value, request.held, now.value);
      found, roots := Some((s.value, m)), now.value;
    }

    /** Everything done while the locks are held. */
    method WithLocks() returns (r: Result)
      requires Valid() && !started && !copying && evidence.memory == Memory(None, None)
      modifies this, evidence
      ensures Valid() && (r.Returned? ==> Told(r.outcome))
      ensures Undisturbed(evidence.script) && old(evidence.disk).staging.Some? ==> !started && !copying && !Certifies(r)
      ensures Certifies(r) ==> passed == old(passed) + UNDER_LOCKS
      ensures Fair() && old(At(Acknowledged)) && old(Untouched()) ==> Certifies(r)
    {
      hide Good, Keeps, Remembers, Proven, Inspected, Accepts, WithManifest, RootsIn, Found, Told;
      var ok := Append(Fenced);
      if !ok { return Threw; }
      var a := Ask(AfterFence);
      if !a.Yes? { return Threw; }
      var found, inspected := Observe();
      if found.None? { return Threw; }
      var (setup, manifest) := found.value;
      if manifest.problems != [] { r := Refuse(); return r; }
      // losing quiescence throws
      a := Ask(Quiescent);
      if !a.Yes? { return Threw; }
      a := Ask(Budget);
      if a.Throws? { return Threw; }
      if a.No? || evidence.disk.staging.Some? { r := Refuse(); return r; }
      ghost var before := old(passed);
      assert passed == before + [AfterFence, Quiescent, Budget];
      r := Begin(setup, manifest, inspected);
      if Certifies(r) { Joined(before, [AfterFence, Quiescent, Budget], FROM_COPY, []); }
    }

    /** The expectation and CAPTURING are stored before anything is copied. */
    method Begin(setup: C.Setup, manifest: C.Manifest, ghost inspected: C.Roots) returns (r: Result)
      requires Valid() && !started && !copying && evidence.memory == Memory(None, None)
      requires Inspected(request, setup, manifest, inspected)
      modifies this, evidence
      ensures Valid() && (r.Returned? ==> Certifies(r) && Told(r.outcome))
      ensures Certifies(r) ==> passed == old(passed) + FROM_COPY
      ensures Fair() && Found() == Some((setup, manifest)) && old(At(Fenced)) && old(Untouched()) ==> Certifies(r)
    {
      hide Good, Keeps, Remembers, Proven, Inspected, Accepts, WithManifest, RootsIn, Found, Told;
      var seal := world.seal(manifest);
      var ok := evidence.StoreExpectation(seal, world.generation(seal));
      if !ok { return Threw; }
      ok := Append(Capturing);
      if !ok { return Threw; }
      assert Holds(evidence.disk.chain, Capturing);
      started := true;
      r := Copy(setup, manifest, inspected);
    }

    /** The copy, whatever it leaves behind; its verification; and its record. */
    method Copy(setup: C.Setup, manifest: C.Manifest, ghost inspected: C.Roots) returns (r: Result)
      requires Valid() && started && Inspected(request, setup, manifest, inspected)
      requires var seal := world.seal(manifest);
               evidence.memory == Memory(Some(Expect(seal, world.generation(seal))), None)
      modifies this, evidence
      ensures Valid() && started && (r.Returned? ==> Certifies(r) && Told(r.outcome))
      ensures Certifies(r) ==> passed == old(passed) + FROM_COPY
      ensures Fair() && Found() == Some((setup, manifest)) && old(At(Capturing)) && old(evidence.disk).staging.None? ==>
        Certifies(r)
    {
      hide Good, Holds, HasCaptured, Remembers, Accepts, Inspected, WithManifest, RootsIn, Found, Told;
      InspectedUnder(request, setup, manifest, inspected);
      if evidence.disk.staging.Some? { return Threw; }
      copying := true;
      Place(world.copied);
      var a := Ask(AfterCopy);
      if !a.Yes? || evidence.disk.staging.None? || [] !in evidence.disk.staging.value { return Threw; }
      var copy := evidence.disk.staging.value;
      var ok := Verify(setup, manifest, {}, RootsIn(copy), true);
      if !ok { return Threw; }
      r := Keep(setup, manifest, inspected, copy);
    }

    /** The verified copy gains its manifest and is recorded. */
    method Keep(setup: C.Setup, manifest: C.Manifest, ghost inspected: C.Roots, copy: Tree) returns (r: Result)
      requires Valid() && started && Inspected(request, setup, manifest, inspected) && [] in copy
      requires Accepts(request, setup, manifest, {}, RootsIn(copy), true)
      requires var seal := world.seal(manifest);
               evidence.memory == Memory(Some(Expect(seal, world.generation(seal))), None)
      modifies this, evidence
      ensures Valid() && started && (r.Returned? ==> Certifies(r) && Told(r.outcome))
      ensures Certifies(r) ==> passed == old(passed) + [Synced, Restored, StillQuiescent, DestinationKept]
      ensures Fair() && Found() == Some((setup, manifest)) && copy == world.copied && old(At(Capturing)) ==>
        Certifies(r)
    {
      hide Good, Holds, HasCaptured, Remembers, Accepts, Inspected, WithManifest, RootsIn, Found, Told;
      Place(WithManifest(request.host, copy, world.text(manifest)));
      var a := Ask(Synced);
      if !a.Yes? || evidence.disk.staging.None? { return Threw; }
      var artifact := world.digest(evidence.disk.staging.value);
      if artifact.None? { return Threw; }
      ghost var before := evidence.disk.chain;
      var ok := evidence.AppendCaptured(world.seal(manifest), artifact.value);
      HoldsStays(before, evidence.disk.chain, Capturing);
      if !ok { return Threw; }
      r := Certify(setup, manifest, artifact.value, inspected, copy);
    }

    method Place(content: Tree)
      requires Valid()
      modifies evidence`disk
      ensures Valid() && evidence.disk == old(evidence.disk).(staging := Some(content))
    {
      evidence.Fill(content);
    }

    /** verifyCoverage: a root that is no directory throws, as everything does that it does not accept. */
    method Verify(setup: C.Setup, manifest: C.Manifest, held: set<Path>, roots: C.Roots, isCopy: bool)
      returns (ok: bool)
      requires setup.host == request.host && setup.options.policy == request.choice.policy
      ensures ok <==> Accepts(request, setup, manifest, held, roots, isCopy)
    {
      hide V.Verified, C.InspectCoverage, RR.SetupOf, C.Sound;
      if !C.Sound(roots) { return false; }
      var s := BackupRun.ResolveSetup(request.reader, request.host, request.choice, roots);
      if s.None? || s.value.options.ctx != setup.options.ctx { return false; }
      RR.SetupIs(request.reader, request.host, request.choice, roots, s.value);
      var observed := Inspector.RunInspection(setup, held, roots);
      ok := V.Verified(request.host, setup.options, manifest, observed, isCopy);
    }

    /** The transaction directory was verified and recorded, and is still that unless others changed it. */
    ghost predicate Captured(setup: C.Setup, manifest: C.Manifest, artifact: string, inspected: C.Roots, copy: Tree)
      reads this, evidence
    {
      && started && Inspected(request, setup, manifest, inspected) && [] in copy
      && Accepts(request, setup, manifest, {}, RootsIn(copy), true)
      && (Undisturbed(evidence.script) ==>
            && evidence.disk.staging == Some(WithManifest(request.host, copy, world.text(manifest)))
            && world.digest(evidence.disk.staging.value) == Some(artifact))
      && var seal := world.seal(manifest);
         evidence.memory == Memory(Some(Expect(seal, world.generation(seal))), Some((seal, artifact)))
    }

    /** The restore check, the source once more, and the last word. */
    method Certify(setup: C.Setup, manifest: C.Manifest, artifact: string, ghost inspected: C.Roots, ghost copy: Tree)
      returns (r: Result)
      requires Valid() && Captured(setup, manifest, artifact, inspected, copy)
      modifies this`calls, this`checked, this`proof, this`passed, evidence`disk, evidence`clock
      ensures Valid() && (r.Returned? ==> Certifies(r) && Told(r.outcome))
      ensures Certifies(r) ==> passed == old(passed) + [Restored, StillQuiescent, DestinationKept]
      ensures Fair() && Found() == Some((setup, manifest)) && old(At(State.Captured)) ==> Certifies(r)
    {
      hide Good, Holds, Keeps, Remembers, Accepts, Inspected, WithManifest, RootsIn, Found, Told;
      InspectedUnder(request, setup, manifest, inspected);
      var a := Ask(Restored);
      if !a.Yes? { return Threw; }
      var ok := Verify(setup, manifest, {}, RootsIn(world.restored), true);
      if !ok { return Threw; }
      ok := Append(RestoreVerified);
      if !ok { return Threw; }
      r := LastWord(setup, manifest, artifact, inspected, copy);
    }

    /** Still quiescent, the source unchanged, the backup and its destination unchanged. */
    method LastWord(setup: C.Setup, manifest: C.Manifest, artifact: string, ghost inspected: C.Roots, ghost copy: Tree)
      returns (r: Result)
      requires Valid() && Captured(setup, manifest, artifact, inspected, copy)
      requires Accepts(request, setup, manifest, {}, RootsIn(world.restored), true)
      modifies this`calls, this`checked, this`proof, this`passed, evidence`disk, evidence`clock
      ensures Valid() && (r.Returned? ==> Certifies(r) && Told(r.outcome))
      ensures Certifies(r) ==> passed == old(passed) + [StillQuiescent, DestinationKept]
      ensures Fair() && Found() == Some((setup, manifest)) && old(At(RestoreVerified)) ==> Certifies(r)
    {
      hide Good, Holds, Keeps, Remembers, Accepts, Inspected, WithManifest, RootsIn, Found, C.Sound, Calm, Undisturbed;
      InspectedUnder(request, setup, manifest, inspected);
      if Fair() {
        CalmIsUndisturbed(evidence.script);
        FoundIsSound();
      }
      var a := Ask(StillQuiescent);
      if !a.Yes? { return Threw; }
      // source unchanged, backup bytes unchanged
      var last := Source();
      if last.None? { return Threw; }
      var ok := Verify(setup, manifest, request.held, last.value, false);
      if !ok || evidence.disk.staging.None? || world.digest(evidence.disk.staging.value) != Some(artifact) {
        return Threw;
      }
      checked := evidence.disk.staging;
      proof := Some(Proof(setup, inspected, manifest, copy, world.restored, last.value));
      a := Ask(DestinationKept);
      if !a.Yes? { return Threw; }
      ok := Append(Certified, Data(Some(world.seal(manifest)), Some(artifact)));
      r := if ok then Returned(BackupCertified(world.seal(manifest), artifact)) else Threw;
    }

    /** What a certificate says. */
    lemma CertifiedMeans(manifest: string, artifact: string)
      requires Valid() && Told(BackupCertified(manifest, artifact))
      ensures Sealed(evidence.l, evidence.disk, manifest, artifact)
      ensures checked.Some? && world.digest(checked.value) == Some(artifact)
      ensures Reconcile(evidence.l, world.digest, evidence.disk).Some?
      ensures Reconcile(evidence.l, world.digest, evidence.disk) == Some(CertifiedVerified) <==>
              evidence.disk.staging.Some? && world.digest(evidence.disk.staging.value) == Some(artifact)
      ensures proof.Some? && Proven(request, proof.value) && manifest == world.seal(proof.value.manifest)
      ensures S.Collisionless(request.host) ==> Preserved(proof.value)
      ensures [] in proof.value.verified && RootsIn(Stored()) == RootsIn(proof.value.verified)
      ensures Undisturbed(evidence.script) ==>
        && evidence.disk.staging == Some(Stored())
        && Reconcile(evidence.l, world.digest, evidence.disk) == Some(CertifiedVerified)
      ensures proof.value.restored == world.restored
    {
      hide Built, HasCaptured, Proven, Preserved, WithManifest, RootsIn, Accepts, Found, Reconcile, S.Collisionless;
      SealedReconciles(evidence.l, world.digest, evidence.disk, manifest, artifact, []);
      if S.Collisionless(request.host) { ProvenIsPreserved(request, proof.value); }
      RootsBesideManifest(request.host, proof.value.verified, world.text(proof.value.manifest));
    }

    /** What the log and the memory say at any time. */
    lemma RunSays()
      requires Valid()
      ensures Good(evidence.l, evidence.disk) && Keeps(evidence.origin, evidence.disk)
      ensures evidence.Ends(RefusedState) ==> !Holds(evidence.disk.chain, Capturing)
      ensures copying ==>
        Holds(evidence.disk.chain, Capturing) && evidence.disk.expectation.Some?
            && evidence.disk.expectation.value.Expect?
    {
      hide Built, HasCaptured;
      PathShape(evidence.l.h, evidence.l.node, evidence.l.txn, evidence.disk.chain);
      assert evidence.Ends(RefusedState) ==> Holds(evidence.disk.chain, RefusedState);
    }

    /** OUTCOME, LOG AND DISK AGREE. Threw is an exception that reaches the caller: the log was unusable, or a write
        failed while the outcome was being reported.
        - A valid request that is refused started no copy: the log ends in REFUSED and holds no CAPTURING.
        - An uncertain failure ends the log in FAILED after CAPTURING.
        - A certified backup is sealed: see SealedReconciles for what reconciliation then says, for good. Its
          certificate names the manifest of an inspection of the source without problems; the transaction directory
          was verified against it, and so was the source, last of all: both held everything recorded as inspected, and
          the backup nothing else. Unless others change the transaction directory, it is what was verified, with the
          manifest in it, and reconciliation says so.
        - It is certified only after every check was passed, in order; and where nothing stands in the way, it is.
        - No byte is copied before both the expectation and CAPTURING are stored.
        - A transaction that already has evidence is never taken up again, one that already has a directory is refused,
          and an invalid request touches nothing. */
    method Run(validRequest: bool) returns (r: Result)
      requires Valid() && evidence.disk == evidence.origin && !started && !copying && passed == []
      requires evidence.memory == Memory(None, None)
      modifies this, evidence
      ensures Good(evidence.l, evidence.disk) && Keeps(old(evidence.disk), evidence.disk)
      ensures validRequest && r == Returned(Refused) ==>
        !copying && evidence.Ends(RefusedState) && !Holds(evidence.disk.chain, Capturing)
      ensures r == Returned(FailedUncertain) ==>
        evidence.Ends(FailedState) && Holds(evidence.disk.chain, Capturing)
      ensures r.Returned? && r.outcome.BackupCertified? ==>
        && Sealed(evidence.l, evidence.disk, r.outcome.manifest, r.outcome.artifact)
        && checked.Some? && world.digest(checked.value) == Some(r.outcome.artifact)
        && Reconcile(evidence.l, world.digest, evidence.disk).Some?
        && (Reconcile(evidence.l, world.digest, evidence.disk) == Some(CertifiedVerified) <==>
            evidence.disk.staging.Some? && world.digest(evidence.disk.staging.value) == Some(r.outcome.artifact))
        && proof.Some? && Proven(request, proof.value) && r.outcome.manifest == world.seal(proof.value.manifest)
        && (S.Collisionless(request.host) ==> Preserved(proof.value))
        && [] in proof.value.verified && RootsIn(Stored()) == RootsIn(proof.value.verified)
        && (Undisturbed(evidence.script) ==>
              && evidence.disk.staging == Some(Stored())
              && Reconcile(evidence.l, world.digest, evidence.disk) == Some(CertifiedVerified))
      ensures Certifies(r) ==>
        && passed == [Entry, Locks, AfterFence, Quiescent, Budget, AfterCopy, Synced, Restored, StillQuiescent,
                      DestinationKept, Released]
        && proof.value.restored == world.restored
      ensures validRequest && Fair() && old(evidence.disk) == Disk(false, [], false, None, None) ==> Certifies(r)
      ensures copying ==>
        Holds(evidence.disk.chain, Capturing) && evidence.disk.expectation.Some?
            && evidence.disk.expectation.value.Expect?
      ensures validRequest && old(evidence.disk).chain != [] ==> r.Threw? && !copying
      ensures Undisturbed(evidence.script) && old(evidence.disk).staging.Some? ==>
        !copying && (r.Threw? || r == Returned(Refused))
      ensures !validRequest ==> r == Returned(Refused) && evidence.disk == old(evidence.disk) && !copying
    {
      hide Good, Keeps, Remembers, Proven, Preserved, WithManifest, RootsIn, Accepts, Found, Told, Sealed, Reconcile,
           S.Collisionless;
      if !validRequest { return Returned(Refused); }
      var ok := Append(Prepared);
      if !ok { return Threw; }
      r := Attempt();
      if r.Threw? {
        if started {
          ok := Append(FailedState);
          r := if ok then Returned(FailedUncertain) else Threw;
        } else {
          r := Refuse();
        }
      }
      if Certifies(r) {
        CertifiedMeans(r.outcome.manifest, r.outcome.artifact);
      } else if r.Returned? {
        ToldPlainly(r.outcome);
      }
      RunSays();
    }

    lemma ToldPlainly(outcome: Outcome)
      ensures Told(outcome) && outcome.Refused? ==> !started && !copying && evidence.Ends(RefusedState)
      ensures Told(outcome) && outcome.FailedUncertain? ==> started && evidence.Ends(FailedState)
    {
    }
  }

  /** Why Run speaks of valid requests: an invalid request is answered REFUSED before the log is looked at, so it is
      also the answer beside a log that already holds CAPTURING. */
  method InvalidRequestBesideCapturing(l: Log, script: Script, request: Request, world: World)
    returns (c: Capture, r: Result)
    ensures r == Returned(Refused) && Holds(c.evidence.disk.chain, Capturing)
  {
    var chain := [];
    var path := [Prepared, Acknowledged, Fenced, Capturing];
    for i := 0 to 4
      invariant Built(l.h, l.node, l.txn, chain) && |chain| == i
      invariant i > 0 ==> End(chain).body.state == path[i - 1]
    {
      NextRecordBuilds(l.h, l.node, l.txn, chain, path[i], "", "", Data(None, None));
      chain := chain + [NextRecord(l.h, l.node, l.txn, chain, path[i], "", "", Data(None, None))];
    }
    assert chain[3].body.state == Capturing;
    var evidence := new Evidence(l, script, "", Disk(true, chain, false, None, None));
    c := new Capture(evidence, request, world);
    r := c.Run(false);
  }
}
