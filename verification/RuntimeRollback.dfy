/** Crash-repeatable runtime rollback: a snapshot of five service definitions and one optional worker
    configuration, and a restore that admits exactly the mixes of old and candidate files. Replacing a file is
    atomic; any run may stop between two replacements. */
module RuntimeRollback {
  import opened FileTree
  import opened LinkInspection

  type Bytes = seq<char>

  /** A file by its directory and base name. */
  datatype FilePath = FilePath(dir: string, name: string)

  type Files = map<FilePath, Bytes>

  datatype Label = Coordinator | Worker | Gateway | NodeService | OauthCanary | Unknown(text: string)

  const REQUIRED: set<Label> := {Coordinator, Worker, Gateway, NodeService, OauthCanary}

  datatype Service = Service(role: Label, target: FilePath)

  /** What a service definition declares: its working directory and the one release all its paths name. */
  datatype Plist = Plist(root: string, release: string)

  /** The host's digests, plist reading, release verification and directory layout. `verified` is the digest of
      a retained release that still verifies; `candidate` the digest of a candidate that does. */
  datatype Host = Host(sha: Bytes -> string, parse: (Bytes, Label) -> Option<Plist>,
                       verified: string -> Option<string>, candidate: string -> Option<string>,
                       releaseRoot: string -> string, agentsDir: string, configAllowed: FilePath -> bool)

  /** SHA-256 taken as collision free; a definition declares one label; the worker configuration never lies in
      the agents directory. */
  ghost predicate Sound(h: Host) {
    && (forall a, b :: h.sha(a) == h.sha(b) ==> a == b)
    && (forall text, l, m :: h.parse(text, l).Some? && h.parse(text, m).Some? ==> l == m)
    && (forall p :: h.configAllowed(p) ==> p.dir != h.agentsDir)
  }

  datatype SavedFile = SavedFile(path: FilePath, previous: Bytes, previousSha: string, candidateSha: string)

  datatype SavedConfig = SavedConfig(path: FilePath, previous: Option<Bytes>, previousSha: Option<string>,
                         candidateSha: string)

  datatype Snapshot = Snapshot(candidateId: string, candidateSha: string, previousId: string, previousSha: string,
                               services: map<Label, SavedFile>, config: SavedConfig)

  function ReleaseOf(h: Host, text: Bytes, role: Label, root: Option<string>): Option<string> {
    var p := h.parse(text, role);
    if p.Some? && ReleaseId(p.value.release) && (root.None? || p.value.root == root.value) then Some(p.value.release)
        else None
  }

  /** A retained release, against the digest a transaction recorded when there is one. */
  function VerifyRetained(h: Host, id: string, expected: Option<string>): Option<string> {
    var d := h.verified(id);
    if d.Some? && (expected.None? || expected == d) then d else None
  }

  function IndexOf(services: seq<Service>, l: Label): (i: nat)
    requires Serves(services, l)
    ensures i < |services| && services[i].role == l
  {
    if services[0].role == l then 0
    else
      assert forall k :: 0 < k < |services| ==> services[1..][k - 1] == services[k];
      1 + IndexOf(services[1..], l)
  }

  predicate Serves(services: seq<Service>, l: Label) {
    exists i :: 0 <= i < |services| && services[i].role == l
  }

  /** Five services, exactly one for each required label. */
  predicate ExactLabels(services: seq<Service>) {
    && |services| == 5
    && (forall i :: 0 <= i < |services| ==> services[i].role in REQUIRED)
    && (forall i, j :: 0 <= i < j < |services| ==> services[i].role != services[j].role)
    && (forall l :: l in REQUIRED ==> Serves(services, l))
  }

  function Lookup(files: Files, p: FilePath): Option<Bytes> {
    if p in files then Some(files[p]) else None
  }

  // ---------------------------------------------------------------- taking the snapshot

  datatype Install = Install(candidateId: string, candidateRoot: string, services: seq<Service>,
                             plists: map<Label, Bytes>, configPath: FilePath, config: Bytes)

  predicate ServiceReady(h: Host, input: Install, files: Files, s: Service) {
    && s.target.dir == h.agentsDir && s.role in input.plists && input.plists[s.role] != []
    && ReleaseOf(h, input.plists[s.role], s.role, Some(input.candidateRoot)) == Some(input.candidateId)
    && s.target in files
  }

  predicate PreviousRelease(h: Host, input: Install, files: Files, id: string) {
    && ReleaseId(id) && id != input.candidateId
    && forall i :: 0 <= i < |input.services| ==>
         && input.services[i].target in files
         && ReleaseOf(h, files[input.services[i].target], input.services[i].role, Some(h.releaseRoot(id))) == Some(id)
  }

  /** The snapshot of the active files, or None for any refusal. It reads; it writes no active file. */
  function Prepare(h: Host, input: Install, files: Files): Option<Snapshot> {
    if !ReleaseId(input.candidateId) || !ExactLabels(input.services)
        || input.candidateRoot != h.releaseRoot(input.candidateId)
       || h.candidate(input.candidateId).None?
       || exists i :: 0 <= i < |input.services| && !ServiceReady(h, input, files, input.services[i]) then None
    else
      var first := ReleaseOf(h, files[input.services[0].target], input.services[0].role, None);
      if first.None? || !PreviousRelease(h, input, files, first.value) || !h.configAllowed(input.configPath) then None
      else
        var previousSha := VerifyRetained(h, first.value, None);
        if previousSha.None? then None
        else Some(Snapshot(input.candidateId, h.candidate(input.candidateId).value, first.value, previousSha.value,
                           SavedServices(h, input, files, input.services), SaveConfig(h, input, files)))
  }

  function SaveConfig(h: Host, input: Install, files: Files): SavedConfig {
    var before := Lookup(files, input.configPath);
    SavedConfig(input.configPath, before, if before.Some? then Some(h.sha(before.value)) else None, h.sha(input.config))
  }

  function SaveService(h: Host, input: Install, files: Files, s: Service): SavedFile
    requires ServiceReady(h, input, files, s)
  {
    SavedFile(s.target, files[s.target], h.sha(files[s.target]), h.sha(input.plists[s.role]))
  }

  function SavedServices(h: Host, input: Install, files: Files, services: seq<Service>): (saved: map<Label, SavedFile>)
    requires ExactLabels(services) && forall i :: 0 <= i < |services| ==> ServiceReady(h, input, files, services[i])
    ensures saved.Keys == REQUIRED
    ensures forall i :: 0 <= i < |services| ==> saved[services[i].role] == SaveService(h, input, files, services[i])
  {
    IndexIsOwn(services);
    map l | l in REQUIRED :: SaveService(h, input, files, services[IndexOf(services, l)])
  }

  lemma IndexIsOwn(services: seq<Service>)
    requires ExactLabels(services)
    ensures forall i :: 0 <= i < |services| ==>
        Serves(services, services[i].role) && IndexOf(services, services[i].role) == i
  {
  }

  /** What taking a snapshot insists on, in plain terms: all five agents run one other release, which verifies, and the
      candidate's definitions name the candidate. */
  ghost predicate Preparable(h: Host, input: Install, files: Files, previous: string) {
    && ReleaseId(input.candidateId) && ReleaseId(previous) && previous != input.candidateId
    && input.candidateRoot == h.releaseRoot(input.candidateId) && h.candidate(input.candidateId).Some?
    && h.verified(previous).Some? && h.configAllowed(input.configPath) && ExactLabels(input.services)
    && forall i :: 0 <= i < |input.services| ==>
         var role, target := input.services[i].role, input.services[i].target;
         && target.dir == h.agentsDir && target in files && role in input.plists && input.plists[role] != []
         && h.parse(input.plists[role], role) == Some(Plist(h.releaseRoot(input.candidateId), input.candidateId))
         && h.parse(files[target], role) == Some(Plist(h.releaseRoot(previous), previous))
  }

  /** A snapshot is taken exactly then, and names that release with the digest it verifies with. */
  lemma PreparedPlainly(h: Host, input: Install, files: Files, previous: string)
    ensures Prepare(h, input, files).Some? && Prepare(h, input, files).value.previousId == previous <==>
            Preparable(h, input, files, previous)
    ensures Prepare(h, input, files).Some? ==>
      var s := Prepare(h, input, files).value;
      && s.candidateId == input.candidateId && h.candidate(s.candidateId) == Some(s.candidateSha)
      && h.verified(s.previousId) == Some(s.previousSha)
  {
    hide ReleaseId, SavedServices, SaveConfig;
    if Prepare(h, input, files).Some? && Prepare(h, input, files).value.previousId == previous {
      forall i | 0 <= i < |input.services|
        ensures var role, target := input.services[i].role, input.services[i].target;
                && target.dir == h.agentsDir && target in files && role in input.plists && input.plists[role] != []
                && h.parse(input.plists[role], role) == Some(Plist(h.releaseRoot(input.candidateId), input.candidateId))
                && h.parse(files[target], role) == Some(Plist(h.releaseRoot(previous), previous))
      {
        assert ServiceReady(h, input, files, input.services[i]);
      }
    }
    if Preparable(h, input, files, previous) {
      assert h.parse(files[input.services[0].target], input.services[0].role).Some?;
      assert PreviousRelease(h, input, files, previous);
    }
  }

  // ---------------------------------------------------------------- restoring

  datatype Restore = Restore(snapshotKey: string, candidateId: Option<string>, services: seq<Service>,
                     configPath: FilePath)

  /** A replacement, or a removal when there is no content. */
  datatype Write = Write(path: FilePath, content: Option<Bytes>)

  predicate ValidSnapshot(h: Host, s: Snapshot) {
    && ReleaseId(s.candidateId) && ReleaseId(s.previousId) && s.candidateId != s.previousId
    && s.services.Keys == REQUIRED
    && (forall l :: l in s.services ==>
          && h.sha(s.services[l].previous) == s.services[l].previousSha
          && ReleaseOf(h, s.services[l].previous, l, None) == Some(s.previousId))
    && (if s.config.previous.None? then s.config.previousSha.None?
        else s.config.previousSha == Some(h.sha(s.config.previous.value)))
  }

  /** What preflight asks of the request and the retained release, apart from the active files. */
  predicate Requested(h: Host, s: Snapshot, r: Restore) {
    && ValidSnapshot(h, s)
    && (r.candidateId.None? || r.candidateId.value == s.candidateId) && r.snapshotKey == s.candidateId
    && ExactLabels(r.services) && VerifyRetained(h, s.previousId, Some(s.previousSha)).Some?
    && (forall l :: l in s.services ==>
          ReleaseOf(h, s.services[l].previous, l, Some(h.releaseRoot(s.previousId))).Some?)
    && (forall i :: 0 <= i < |r.services| ==>
          && r.services[i].target.dir == h.agentsDir && r.services[i].role in s.services
          && s.services[r.services[i].role].path == r.services[i].target)
    && h.configAllowed(r.configPath) && r.configPath == s.config.path
  }

  /** Every active file is, by digest, the recorded old or the recorded candidate; an absent configuration counts
      as old when it was absent before. */
  predicate Mixed(h: Host, s: Snapshot, files: Files) {
    && (forall l :: l in s.services ==>
          var f := s.services[l];
          f.path in files && (h.sha(files[f.path]) == f.previousSha || h.sha(files[f.path]) == f.candidateSha))
    && var now := if s.config.path in files then Some(h.sha(files[s.config.path])) else None;
       now == s.config.previousSha || now == Some(s.config.candidateSha)
  }

  predicate Named(s: Snapshot, r: Restore) {
    forall i :: 0 <= i < |r.services| ==> r.services[i].role in s.services
  }

  /** The replacements of a restore: each service definition in the request's order, then the configuration. */
  function Plan(s: Snapshot, r: Restore): (plan: seq<Write>)
    requires Named(s, r)
    ensures |plan| == |r.services| + 1
    ensures forall i :: 0 <= i < |r.services| ==>
      plan[i] == Write(r.services[i].target, Some(s.services[r.services[i].role].previous))
    ensures plan[|r.services|] == Write(r.configPath, s.config.previous)
  {
    seq(|r.services|, i requires 0 <= i < |r.services| =>
      Write(r.services[i].target, Some(s.services[r.services[i].role].previous)))
    + [Write(r.configPath, s.config.previous)]
  }

  /** What a restore will write, or None when it refuses. */
  function Preflight(h: Host, s: Snapshot, r: Restore, files: Files): Option<seq<Write>> {
    if !Requested(h, s, r) || !Mixed(h, s, files) then None else Some(Plan(s, r))
  }

  function Apply(files: Files, w: Write): Files {
    if w.content.Some? then files[w.path := w.content.value] else files - {w.path}
  }

  function ApplyAll(files: Files, ws: seq<Write>): Files
    decreases |ws|
  {
    if ws == [] then files else ApplyAll(Apply(files, ws[0]), ws[1..])
  }

  predicate Installable(input: Install) {
    forall i :: 0 <= i < |input.services| ==> input.services[i].role in input.plists
  }

  /** The installer's replacements, in its order: configuration first, then each service definition. */
  function InstallWrites(input: Install): seq<Write>
    requires Installable(input)
  {
    [Write(input.configPath, Some(input.config))]
    + seq(|input.services|, i requires 0 <= i < |input.services| =>
        Write(input.services[i].target, Some(input.plists[input.services[i].role])))
  }

  /** Stop an install or an admitted restore after n replacements; the retained releases may verify otherwise by
      then. */
  datatype Action = PartialInstall(n: nat) | PartialRestore(n: nat, verified: string -> Option<string>)

  /** The same host at another time. */
  function Later(h: Host, verified: string -> Option<string>): Host {
    h.(verified := verified)
  }

  function Take<T>(s: seq<T>, n: nat): seq<T> {
    if n <= |s| then s[..n] else s
  }

  function Step(h: Host, input: Install, s: Snapshot, r: Restore, files: Files, a: Action): Files
    requires Installable(input)
  {
    match a
    case PartialInstall(n) => ApplyAll(files, Take(InstallWrites(input), n))
    case PartialRestore(n, verified) =>
      var plan := Preflight(Later(h, verified), s, r, files);
      if plan.None? then files else ApplyAll(files, Take(plan.value, n))
  }

  function Run(h: Host, input: Install, s: Snapshot, r: Restore, files: Files, actions: seq<Action>): Files
    requires Installable(input)
    decreases |actions|
  {
    if actions == [] then files
    else Run(h, input, s, r, Step(h, input, s, r, files, actions[0]), actions[1..])
  }

  // ---------------------------------------------------------------- proofs

  /** What the snapshot holds about the i-th service, and that its definition names only its own label. */
  ghost predicate ServiceCaptured(h: Host, input: Install, start: Files, s: Snapshot, i: nat)
    requires i < |input.services|
  {
    var service := input.services[i];
    && ServiceReady(h, input, start, service)
    && service.role in s.services && s.services[service.role] == SaveService(h, input, start, service)
    && h.parse(start[service.target], service.role).Some?
    && ReleaseOf(h, start[service.target], service.role, None) == Some(s.previousId)
    && ReleaseOf(h, start[service.target], service.role, Some(h.releaseRoot(s.previousId))).Some?
  }

  ghost predicate Captured(h: Host, input: Install, start: Files, s: Snapshot) {
    && ReleaseId(s.candidateId) && ReleaseId(s.previousId) && s.candidateId != s.previousId
    && s.candidateId == input.candidateId && ExactLabels(input.services) && s.services.Keys == REQUIRED
    && h.verified(s.previousId) == Some(s.previousSha)
    && s.config == SaveConfig(h, input, start) && h.configAllowed(input.configPath)
    && forall i :: 0 <= i < |input.services| ==> ServiceCaptured(h, input, start, s, i)
  }

  lemma PrepareCaptures(h: Host, input: Install, start: Files)
    requires Prepare(h, input, start).Some?
    ensures Captured(h, input, start, Prepare(h, input, start).value)
  {
    var s := Prepare(h, input, start).value;
    forall i | 0 <= i < |input.services| ensures ServiceCaptured(h, input, start, s, i) {
      assert ServiceReady(h, input, start, input.services[i]);
    }
  }

  /** The installed service behind a label of the snapshot. */
  lemma CapturedLabel(h: Host, input: Install, start: Files, s: Snapshot, l: Label) returns (i: nat)
    requires Captured(h, input, start, s) && l in REQUIRED
    ensures i < |input.services| && input.services[i].role == l && ServiceCaptured(h, input, start, s, i)
  {
    assert Serves(input.services, l);
    i :| 0 <= i < |input.services| && input.services[i].role == l;
  }

  /** Every snapshot that Prepare takes passes validation. */
  lemma PreparedSnapshotIsValid(h: Host, input: Install, start: Files, s: Snapshot)
    requires Captured(h, input, start, s)
    ensures ValidSnapshot(h, s)
  {
    forall l | l in s.services
      ensures h.sha(s.services[l].previous) == s.services[l].previousSha
      ensures ReleaseOf(h, s.services[l].previous, l, None) == Some(s.previousId)
    {
      var i := CapturedLabel(h, input, start, s, l);
    }
  }

  /** A request that names the snapshot, its five services and its configuration. */
  ghost predicate MatchingRequest(input: Install, r: Restore) {
    && r.snapshotKey == input.candidateId && (r.candidateId.None? || r.candidateId.value == input.candidateId)
    && r.configPath == input.configPath && ExactLabels(r.services)
    && forall i :: 0 <= i < |r.services| ==> r.services[i] in input.services
  }

  /** A matching request is in order exactly when the retained release still has the digest it had. */
  lemma RequestIsAdmissible(h: Host, input: Install, start: Files, s: Snapshot, r: Restore,
                            verified: string -> Option<string>)
    requires Captured(h, input, start, s) && MatchingRequest(input, r)
    ensures Requested(Later(h, verified), s, r) <==> verified(s.previousId) == Some(s.previousSha)
  {
    PreparedSnapshotIsValid(h, input, start, s);
    forall l | l in s.services
      ensures ReleaseOf(h, s.services[l].previous, l, Some(h.releaseRoot(s.previousId))).Some?
    {
      var i := CapturedLabel(h, input, start, s, l);
    }
    forall i | 0 <= i < |r.services|
      ensures r.services[i].target.dir == h.agentsDir && r.services[i].role in s.services
              && s.services[r.services[i].role].path == r.services[i].target
    {
      RequestedService(h, input, start, s, r, i);
    }
  }

  /** Each path holds what it held at the snapshot, or what the installer writes there. */
  ghost predicate Between(input: Install, start: Files, files: Files)
    requires Installable(input)
  {
    forall p :: Lookup(files, p) == Lookup(start, p) || Write(p, Lookup(files, p)) in InstallWrites(input)
  }

  lemma {:induction false} WritesStayBetween(input: Install, start: Files, files: Files, ws: seq<Write>)
    requires Installable(input)
    requires Between(input, start, files)
    requires forall i :: 0 <= i < |ws| ==> ws[i] in InstallWrites(input) || ws[i].content == Lookup(start, ws[i].path)
    ensures Between(input, start, ApplyAll(files, ws))
    decreases |ws|
  {
    if ws != [] {
      var next := Apply(files, ws[0]);
      assert forall p :: Lookup(next, p) == if p == ws[0].path then ws[0].content else Lookup(files, p);
      assert Between(input, start, next);
      WritesStayBetween(input, start, next, ws[1..]);
    }
  }

  /** Writes that all carry a goal's content bring exactly their paths to that goal. */
  lemma {:induction false} WritesReachGoal(goal: Files, files: Files, ws: seq<Write>, p: FilePath)
    requires forall i :: 0 <= i < |ws| ==> ws[i].content == Lookup(goal, ws[i].path)
    ensures Lookup(ApplyAll(files, ws), p) ==
            if exists i :: 0 <= i < |ws| && ws[i].path == p then Lookup(goal, p) else Lookup(files, p)
    decreases |ws|
  {
    if ws != [] {
      var next := Apply(files, ws[0]);
      assert Lookup(next, p) == if p == ws[0].path then ws[0].content else Lookup(files, p);
      WritesReachGoal(goal, next, ws[1..], p);
      if i :| 0 <= i < |ws| && ws[i].path == p {
        if i > 0 { assert ws[1..][i - 1].path == p; }
      }
      if i :| 0 <= i < |ws[1..]| && ws[1..][i].path == p { assert ws[i + 1].path == p; }
    }
  }

  /** What a restore writes is what was there when the snapshot was taken. */
  lemma PlanIsTheStart(h: Host, input: Install, start: Files, s: Snapshot, r: Restore)
    requires Captured(h, input, start, s) && MatchingRequest(input, r)
    ensures Named(s, r)
    ensures forall i :: 0 <= i < |Plan(s, r)| ==> Plan(s, r)[i].content == Lookup(start, Plan(s, r)[i].path)
  {
    forall i | 0 <= i < |r.services|
      ensures r.services[i].role in s.services
      ensures Lookup(start, r.services[i].target) == Some(s.services[r.services[i].role].previous)
    {
      RequestedService(h, input, start, s, r, i);
    }
  }

  lemma RequestedService(h: Host, input: Install, start: Files, s: Snapshot, r: Restore, i: nat)
    requires Captured(h, input, start, s) && MatchingRequest(input, r) && i < |r.services|
    ensures r.services[i].role in s.services && r.services[i].target.dir == h.agentsDir
    ensures s.services[r.services[i].role].path == r.services[i].target
    ensures Lookup(start, r.services[i].target) == Some(s.services[r.services[i].role].previous)
  {
    var j :| 0 <= j < |input.services| && input.services[j] == r.services[i];
    assert ServiceCaptured(h, input, start, s, j);
  }

  /** No two services share a target: the definition there names only one label. */
  lemma TargetsAreDistinct(h: Host, input: Install, start: Files, s: Snapshot, i: nat, j: nat)
    requires Sound(h) && Captured(h, input, start, s) && i < |input.services| && j < |input.services|
    requires input.services[i].target == input.services[j].target
    ensures i == j
  {
    assert ServiceCaptured(h, input, start, s, i) && ServiceCaptured(h, input, start, s, j);
    assert input.services[i].role == input.services[j].role;
  }

  /** Which replacement of the installer reached a path. */
  lemma InstalledBy(input: Install, w: Write) returns (k: nat)
    requires Installable(input) && w in InstallWrites(input)
    ensures k <= |input.services|
    ensures k == |input.services| ==> w == Write(input.configPath, Some(input.config))
    ensures k < |input.services| ==> w == Write(input.services[k].target, Some(input.plists[input.services[k].role]))
  {
    var m :| 0 <= m < |InstallWrites(input)| && InstallWrites(input)[m] == w;
    k := if m == 0 then |input.services| else m - 1;
  }

  lemma CapturedIsInstallable(h: Host, input: Install, start: Files, s: Snapshot)
    requires Captured(h, input, start, s)
    ensures Installable(input)
  {
    forall i | 0 <= i < |input.services| ensures input.services[i].role in input.plists {
      assert ServiceCaptured(h, input, start, s, i);
    }
  }

  /** Being between start and candidate is being admissible. */
  lemma BetweenIsMixed(h: Host, input: Install, start: Files, s: Snapshot, files: Files)
    requires Sound(h) && Captured(h, input, start, s) && Installable(input) && Between(input, start, files)
    ensures Mixed(h, s, files)
  {
    forall l | l in s.services
      ensures var f := s.services[l];
              f.path in files && (h.sha(files[f.path]) == f.previousSha || h.sha(files[f.path]) == f.candidateSha)
    {
      var i := CapturedLabel(h, input, start, s, l);
      var p := input.services[i].target;
      if Lookup(files, p) != Lookup(start, p) {
        var k := InstalledBy(input, Write(p, Lookup(files, p)));
        assert k < |input.services|;
        TargetsAreDistinct(h, input, start, s, i, k);
      }
    }
    var c := input.configPath;
    if Lookup(files, c) != Lookup(start, c) {
      var k := InstalledBy(input, Write(c, Lookup(files, c)));
      assert k < |input.services| ==> ServiceCaptured(h, input, start, s, k);
      assert k == |input.services|;
    }
  }

  lemma {:induction false} RunsStayBetween(h: Host, input: Install, start: Files, s: Snapshot, r: Restore, files: Files,
                                           actions: seq<Action>)
    requires Captured(h, input, start, s) && MatchingRequest(input, r) && Installable(input)
    requires Between(input, start, files)
    ensures Between(input, start, Run(h, input, s, r, files, actions))
    decreases |actions|
  {
    if actions != [] {
      StepStaysBetween(h, input, start, s, r, files, actions[0]);
      RunsStayBetween(h, input, start, s, r, Step(h, input, s, r, files, actions[0]), actions[1..]);
    }
  }

  lemma StepStaysBetween(h: Host, input: Install, start: Files, s: Snapshot, r: Restore, files: Files, a: Action)
    requires Captured(h, input, start, s) && MatchingRequest(input, r) && Installable(input)
    requires Between(input, start, files)
    ensures Between(input, start, Step(h, input, s, r, files, a))
  {
    hide Between, Captured, MatchingRequest, InstallWrites, Plan;
    match a
    case PartialInstall(n) =>
      var ws := InstallWrites(input);
      assert forall i :: 0 <= i < |Take(ws, n)| ==> Take(ws, n)[i] == ws[i] && ws[i] in ws;
      WritesStayBetween(input, start, files, Take(ws, n));
    case PartialRestore(n, verified) =>
      PlanIsTheStart(h, input, start, s, r);
      var plan := Plan(s, r);
      assert forall i :: 0 <= i < |Take(plan, n)| ==> Take(plan, n)[i] == plan[i];
      WritesStayBetween(input, start, files, Take(plan, n));
  }

  /** A full restore from anywhere between brings back the start, whole: agents, configuration or its absence, and
      nothing else changed. */
  lemma RestoreReachesStart(h: Host, input: Install, start: Files, s: Snapshot, r: Restore, files: Files,
                            verified: string -> Option<string>)
    requires Sound(h) && Captured(h, input, start, s) && MatchingRequest(input, r) && Installable(input)
    requires Between(input, start, files) && verified(s.previousId) == Some(s.previousSha)
    ensures var plan := Preflight(Later(h, verified), s, r, files);
            plan.Some? && ApplyAll(files, plan.value) == start
  {
    hide Requested, Named, ExactLabels, MatchingRequest, Installable, Sound;
    RequestIsAdmissible(h, input, start, s, r, verified);
    BetweenIsMixed(h, input, start, s, files);
    PlanIsTheStart(h, input, start, s, r);
    var end := ApplyAll(files, Plan(s, r));
    forall p ensures Lookup(end, p) == Lookup(start, p) {
      WritesReachGoal(start, files, Plan(s, r), p);
      if Lookup(files, p) != Lookup(start, p) {
        var k := InstalledBy(input, Write(p, Lookup(files, p)));
        PlanCovers(input, s, r, k);
      }
    }
    SameLookups(end, start);
  }

  /** Whatever the installer may have written, the plan writes. */
  lemma PlanCovers(input: Install, s: Snapshot, r: Restore, k: nat)
    requires ExactLabels(input.services) && MatchingRequest(input, r) && k <= |input.services| && Named(s, r)
    ensures var p := if k == |input.services| then input.configPath else input.services[k].target;
            exists i :: 0 <= i < |Plan(s, r)| && Plan(s, r)[i].path == p
  {
    if k == |input.services| {
      assert Plan(s, r)[|r.services|].path == input.configPath;
    } else {
      assert Serves(r.services, input.services[k].role);
      var i := IndexOf(r.services, input.services[k].role);
      assert r.services[i] in input.services;
      SameRole(input.services, k, r.services[i]);
      assert Plan(s, r)[i].path == input.services[k].target;
    }
  }

  lemma SameRole(services: seq<Service>, k: nat, s: Service)
    requires ExactLabels(services) && k < |services| && s in services && s.role == services[k].role
    ensures s == services[k]
  {
  }

  lemma SameLookups(a: Files, b: Files)
    requires forall p :: Lookup(a, p) == Lookup(b, p)
    ensures a == b
  {
    forall p ensures (p in a <==> p in b) && (p in a ==> a[p] == b[p]) { assert Lookup(a, p) == Lookup(b, p); }
  }

  /** CRASH-REPEATABLE ROLLBACK. After any sequence of installs and restores, each stopped after any replacement, a
      matching restore is admitted, as long as the retained release still has its digest, and completes to exactly the
      files the snapshot was taken from; once there, restoring again is admitted and changes nothing. */
  lemma RollbackIsCrashRepeatable(h: Host, input: Install, start: Files, r: Restore, actions: seq<Action>,
                                  verified: string -> Option<string>)
    requires Sound(h) && Prepare(h, input, start).Some? && MatchingRequest(input, r)
    requires var id := Prepare(h, input, start).value.previousId; verified(id) == h.verified(id)
    ensures Installable(input)
    ensures var s := Prepare(h, input, start).value;
            var files := Run(h, input, s, r, start, actions);
            var plan := Preflight(Later(h, verified), s, r, files);
            && plan.Some? && ApplyAll(files, plan.value) == start
            && Preflight(Later(h, verified), s, r, start) == plan && ApplyAll(start, plan.value) == start
  {
    var s := Prepare(h, input, start).value;
    PrepareCaptures(h, input, start);
    CapturedIsInstallable(h, input, start, s);
    RunsStayBetween(h, input, start, s, r, start, actions);
    RestoreReachesStart(h, input, start, s, r, Run(h, input, s, r, start, actions), verified);
    RestoreReachesStart(h, input, start, s, r, start, verified);
  }

  /** Given a matching request, a restore is admitted exactly when each of the six files holds its old or its
      candidate bytes (an absent configuration is old when it was absent), and the retained release has the digest it
      had when the snapshot was taken; one foreign byte, or another tree there, refuses it. */
  lemma RestoreIsAdmittedExactly(h: Host, input: Install, start: Files, r: Restore, files: Files,
                                 verified: string -> Option<string>)
    requires Sound(h) && Prepare(h, input, start).Some? && MatchingRequest(input, r)
    ensures Installable(input)
    ensures var s := Prepare(h, input, start).value;
            Preflight(Later(h, verified), s, r, files).Some? <==>
            && (forall i :: 0 <= i < |input.services| ==> Owned(input, start, files, i))
            && (Lookup(files, input.configPath) == Lookup(start, input.configPath)
                || Lookup(files, input.configPath) == Some(input.config))
            && verified(s.previousId) == h.verified(s.previousId)
  {
    hide Prepare, Requested, Mixed, Owned, Captured, MatchingRequest;
    var s := Prepare(h, input, start).value;
    PrepareCaptures(h, input, start);
    CapturedIsInstallable(h, input, start, s);
    RequestIsAdmissible(h, input, start, s, r, verified);
    MixedExactly(h, input, start, s, files);
    MixedLater(h, verified, s, files);
    CapturedDigest(h, input, start, s);
  }

  lemma MixedLater(h: Host, verified: string -> Option<string>, s: Snapshot, files: Files)
    ensures Mixed(Later(h, verified), s, files) <==> Mixed(h, s, files)
  {
  }

  lemma CapturedDigest(h: Host, input: Install, start: Files, s: Snapshot)
    requires Captured(h, input, start, s)
    ensures h.verified(s.previousId) == Some(s.previousSha)
  {
  }

  /** What a restore insists on, whatever snapshot it is given, in plain terms: of the snapshot, of the active files and
      of the request. */
  ghost predicate Restorable(h: Host, s: Snapshot, r: Restore, files: Files) {
    SnapshotSound(h, s) && FilesOwned(h, s, files) && RequestFits(h, s, r)
  }

  ghost predicate SnapshotSound(h: Host, s: Snapshot) {
    && ReleaseId(s.candidateId) && ReleaseId(s.previousId) && s.candidateId != s.previousId
    && s.services.Keys == {Coordinator, Worker, Gateway, NodeService, OauthCanary}
    && h.verified(s.previousId) == Some(s.previousSha)
    && (forall l :: l in s.services ==>
          && h.sha(s.services[l].previous) == s.services[l].previousSha
          && h.parse(s.services[l].previous, l) == Some(Plist(h.releaseRoot(s.previousId), s.previousId)))
    && (match s.config.previous
        case Some(bytes) => s.config.previousSha == Some(h.sha(bytes))
        case None => s.config.previousSha == None)
  }

  ghost predicate FilesOwned(h: Host, s: Snapshot, files: Files) {
    && (forall l :: l in s.services ==>
          && s.services[l].path in files
          && h.sha(files[s.services[l].path]) in {s.services[l].previousSha, s.services[l].candidateSha})
    && (if s.config.path in files
        then h.sha(files[s.config.path]) == s.config.candidateSha
             || s.config.previousSha == Some(h.sha(files[s.config.path]))
        else s.config.previousSha == None)
  }

  ghost predicate RequestFits(h: Host, s: Snapshot, r: Restore) {
    && r.snapshotKey == s.candidateId && r.candidateId in {None, Some(s.candidateId)} && r.configPath == s.config.path
    && h.configAllowed(r.configPath) && |r.services| == 5
    && (forall l :: l in {Coordinator, Worker, Gateway, NodeService, OauthCanary} ==> Asked(s, r, l))
    && forall i :: 0 <= i < 5 ==> r.services[i].target.dir == h.agentsDir
  }

  /** The request names the recorded definition of this label. */
  ghost predicate Asked(s: Snapshot, r: Restore, l: Label) {
    l in s.services && exists i :: 0 <= i < |r.services| && r.services[i] == Service(l, s.services[l].path)
  }

  lemma AdmittedPlainly(h: Host, s: Snapshot, r: Restore, files: Files)
    ensures Preflight(h, s, r, files).Some? <==> Restorable(h, s, r, files)
  {
    hide Requested, Mixed, SnapshotSound, FilesOwned, RequestFits;
    OwnedIsMixed(h, s, files);
    if Requested(h, s, r) {
      RequestedIsSound(h, s, r);
      RequestedFits(h, s, r);
    }
    if SnapshotSound(h, s) && RequestFits(h, s, r) { RestorableIsRequested(h, s, r); }
  }

  lemma OwnedIsMixed(h: Host, s: Snapshot, files: Files)
    ensures Mixed(h, s, files) <==> FilesOwned(h, s, files)
  {
  }

  lemma RequestedIsSound(h: Host, s: Snapshot, r: Restore)
    requires Requested(h, s, r)
    ensures SnapshotSound(h, s)
  {
    hide ReleaseId, ReleaseOf, ExactLabels;
    assert ValidSnapshot(h, s) && h.verified(s.previousId) == Some(s.previousSha);
    assert s.services.Keys == {Coordinator, Worker, Gateway, NodeService, OauthCanary};
    forall l | l in s.services
      ensures h.parse(s.services[l].previous, l) == Some(Plist(h.releaseRoot(s.previousId), s.previousId))
    {
      assert ReleaseOf(h, s.services[l].previous, l, None) == Some(s.previousId);
      assert ReleaseOf(h, s.services[l].previous, l, Some(h.releaseRoot(s.previousId))).Some?;
      ReadBack(h, s.services[l].previous, l, h.releaseRoot(s.previousId), s.previousId);
    }
    assert s.config.previous.Some? ==> s.config.previousSha == Some(h.sha(s.config.previous.value));
    assert s.config.previous.None? ==> s.config.previousSha == None;
  }

  lemma ReadBack(h: Host, text: Bytes, l: Label, root: string, id: string)
    requires ReleaseOf(h, text, l, None) == Some(id) && ReleaseOf(h, text, l, Some(root)).Some?
    ensures h.parse(text, l) == Some(Plist(root, id))
  {
  }

  lemma RequestedFits(h: Host, s: Snapshot, r: Restore)
    requires Requested(h, s, r)
    ensures RequestFits(h, s, r)
  {
    hide ReleaseId, ReleaseOf, VerifyRetained, Asked;
    forall l | l in REQUIRED ensures Asked(s, r, l) { LabelIsAsked(h, s, r, l); }
    assert r.candidateId == None || r.candidateId == Some(s.candidateId);
  }

  lemma LabelIsAsked(h: Host, s: Snapshot, r: Restore, l: Label)
    requires Requested(h, s, r) && l in REQUIRED
    ensures Asked(s, r, l)
  {
    hide ReleaseId, ReleaseOf, VerifyRetained;
    assert Serves(r.services, l);
    var i :| 0 <= i < |r.services| && r.services[i].role == l;
    assert r.services[i] == Service(l, s.services[l].path);
  }

  lemma RestorableIsRequested(h: Host, s: Snapshot, r: Restore)
    requires SnapshotSound(h, s) && RequestFits(h, s, r)
    ensures Requested(h, s, r)
  {
    hide ReleaseId, ExactLabels;
    FiveServices(s, r);
    forall l | l in s.services
      ensures ReleaseOf(h, s.services[l].previous, l, None) == Some(s.previousId)
      ensures ReleaseOf(h, s.services[l].previous, l, Some(h.releaseRoot(s.previousId))).Some?
    {
      assert h.parse(s.services[l].previous, l) == Some(Plist(h.releaseRoot(s.previousId), s.previousId));
    }
  }

  /** Five services that cover five labels are one for each. */
  lemma FiveServices(s: Snapshot, r: Restore)
    requires s.services.Keys == {Coordinator, Worker, Gateway, NodeService, OauthCanary} && |r.services| == 5
    requires forall l :: l in {Coordinator, Worker, Gateway, NodeService, OauthCanary} ==> Asked(s, r, l)
    ensures ExactLabels(r.services)
    ensures forall i :: 0 <= i < 5 ==>
      r.services[i].role in s.services && s.services[r.services[i].role].path == r.services[i].target
  {
    var a := PlaceOf(s, r, Coordinator);
    var b := PlaceOf(s, r, Worker);
    var c := PlaceOf(s, r, Gateway);
    var d := PlaceOf(s, r, NodeService);
    var e := PlaceOf(s, r, OauthCanary);
    FivePlaces(a, b, c, d, e);
    AllServed(s, r, a, b, c, d, e);
  }

  lemma PlaceOf(s: Snapshot, r: Restore, l: Label) returns (i: int)
    requires |r.services| == 5 && l in s.services && Asked(s, r, l)
    ensures 0 <= i < 5 && r.services[i] == Service(l, s.services[l].path)
  {
    i :| 0 <= i < 5 && r.services[i] == Service(l, s.services[l].path);
  }

  lemma {:induction false} AllServed(s: Snapshot, r: Restore, a: int, b: int, c: int, d: int, e: int)
    requires s.services.Keys == REQUIRED && |r.services| == 5
    requires 0 <= a < 5 && 0 <= b < 5 && 0 <= c < 5 && 0 <= d < 5 && 0 <= e < 5
    requires r.services[a] == Service(Coordinator, s.services[Coordinator].path)
    requires r.services[b] == Service(Worker, s.services[Worker].path)
    requires r.services[c] == Service(Gateway, s.services[Gateway].path)
    requires r.services[d] == Service(NodeService, s.services[NodeService].path)
    requires r.services[e] == Service(OauthCanary, s.services[OauthCanary].path)
    requires forall i :: 0 <= i < 5 ==> OneOf(i, a, b, c, d, e)
    ensures ExactLabels(r.services)
    ensures forall i :: 0 <= i < 5 ==>
      r.services[i].role in s.services && s.services[r.services[i].role].path == r.services[i].target
  {
    forall i | 0 <= i < 5
      ensures r.services[i].role in REQUIRED && s.services[r.services[i].role].path == r.services[i].target
    {
      assert OneOf(i, a, b, c, d, e);
    }
    forall i, j | 0 <= i < j < 5 ensures r.services[i].role != r.services[j].role {
      assert OneOf(i, a, b, c, d, e) && OneOf(j, a, b, c, d, e);
    }
    forall l | l in REQUIRED ensures Serves(r.services, l) {
      match l
      case Coordinator => assert r.services[a].role == l;
      case Worker => assert r.services[b].role == l;
      case Gateway => assert r.services[c].role == l;
      case NodeService => assert r.services[d].role == l;
      case OauthCanary => assert r.services[e].role == l;
    }
  }

  predicate OneOf(i: int, a: int, b: int, c: int, d: int, e: int) {
    i == a || i == b || i == c || i == d || i == e
  }

  lemma FivePlaces(a: int, b: int, c: int, d: int, e: int)
    requires 0 <= a < 5 && 0 <= b < 5 && 0 <= c < 5 && 0 <= d < 5 && 0 <= e < 5
    requires a != b && a != c && a != d && a != e && b != c && b != d && b != e && c != d && c != e && d != e
    ensures forall i :: 0 <= i < 5 ==> OneOf(i, a, b, c, d, e)
  {
    var places, all := {a, b, c, d, e}, {0, 1, 2, 3, 4};
    assert |places| == 5;
    AllOf(places, all);
    forall i | 0 <= i < 5 ensures OneOf(i, a, b, c, d, e) {
      assert i in all;
    }
  }

  lemma {:induction false} AllOf<T>(a: set<T>, b: set<T>)
    requires a <= b
    ensures |a| <= |b| && (|a| == |b| ==> a == b)
  {
    if a != {} {
      var x :| x in a;
      AllOf(a - {x}, b - {x});
    }
  }

  lemma MixedExactly(h: Host, input: Install, start: Files, s: Snapshot, files: Files)
    requires Sound(h) && Captured(h, input, start, s) && Installable(input)
    ensures Mixed(h, s, files) <==>
      && (forall i :: 0 <= i < |input.services| ==> Owned(input, start, files, i))
      && (Lookup(files, input.configPath) == Lookup(start, input.configPath)
          || Lookup(files, input.configPath) == Some(input.config))
  {
    if Mixed(h, s, files) {
      forall i | 0 <= i < |input.services| ensures Owned(input, start, files, i) {
        assert ServiceCaptured(h, input, start, s, i);
      }
    }
    if forall i :: 0 <= i < |input.services| ==> Owned(input, start, files, i) {
      forall l | l in s.services
        ensures var f := s.services[l];
                f.path in files && (h.sha(files[f.path]) == f.previousSha || h.sha(files[f.path]) == f.candidateSha)
      {
        var i := CapturedLabel(h, input, start, s, l);
        assert Owned(input, start, files, i);
      }
    }
  }

  /** The i-th service's file holds its old or its candidate bytes. */
  predicate Owned(input: Install, start: Files, files: Files, i: nat)
    requires i < |input.services| && Installable(input)
  {
    var p := input.services[i].target;
    p in files && (Lookup(files, p) == Lookup(start, p) || files[p] == input.plists[input.services[i].role])
  }

  /** The active files, replaced in place. */
  class ActiveFiles {
    var files: Files

    constructor (initial: Files)
      ensures files == initial
    {
      files := initial;
    }

    /** Replace files one by one; a crash stops before replacement number `crash`. */
    method WriteAll(writes: seq<Write>, crash: Option<nat>) returns (done: bool)
      modifies this
      ensures files == ApplyAll(old(files), if crash.Some? then Take(writes, crash.value) else writes)
      ensures done <==> crash.None? || crash.value >= |writes|
    {
      var todo := writes;
      var left: Option<nat> := crash;
      while todo != []
        invariant left.Some? <==> crash.Some?
        invariant left.Some? ==> (left.value >= |todo| <==> crash.value >= |writes|)
        invariant ApplyAll(old(files), if crash.Some? then Take(writes, crash.value) else writes)
               == ApplyAll(files, if left.Some? then Take(todo, left.value) else todo)
        decreases |todo|
      {
        if left == Some(0) { return false; }
        ghost var now := if left.Some? then Take(todo, left.value) else todo;
        assert now != [] && now[0] == todo[0];
        assert now[1..] == if left.Some? then Take(todo[1..], left.value - 1) else todo[1..];
        files := Apply(files, todo[0]);
        todo := todo[1..];
        if left.Some? { left := Some(left.value - 1); }
      }
      done := true;
    }

    /** Everything is checked before the first replacement, so a refusal writes nothing. */
    method RestoreSnapshot(h: Host, s: Snapshot, r: Restore, crash: Option<nat>) returns (ok: bool)
      modifies this
      ensures match Preflight(h, s, r, old(files))
              case None => !ok && files == old(files)
              case Some(plan) =>
                && files == ApplyAll(old(files), if crash.Some? then Take(plan, crash.value) else plan)
                && (ok <==> crash.None? || crash.value >= |plan|)
      ensures !Restorable(h, s, r, old(files)) ==> !ok && files == old(files)
    {
      AdmittedPlainly(h, s, r, files);
      var plan := Preflight(h, s, r, files);
      if plan.None? { return false; }
      ok := WriteAll(plan.value, crash);
    }
  }
}
