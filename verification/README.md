# DEX Reach recovery engine: a verified model

This project models the backup, rollback and evidence engine of DEX Reach (`scripts/lib` and its event client) in Dafny
and proves what its documentation promises, over every input, every run and every interleaving. `dafny verify
dfyconfig.toml` checks all of it.

The model has six parts, and beside each of them what it computes in plain terms: exact characterisations, with the names,
limits and rules written out and without the functions that compute them.

* **Owner-state coverage, copy and verification.** The three owner roots are maps from paths to nodes. `CoverageWalk`,
  `Families` and `Coverage` say what an inspection records and objects to; `Inspector` is the inspection as it runs, with
  growing lists and early errors; `RetainedReleases` reads from the agents and the rollback snapshots which releases may
  never be excluded; `BackupCopy` rebuilds a tree from a manifest in three passes, as far as directory modes let it;
  `ManifestValidity` and `CoverageVerify` are the checks of a stored manifest. The theorems: nothing is silently dropped
  (`CoverageTheorems`), exclusions hide nothing they may not, a manifest lists no path twice and every directory before
  what lies in it (`ManifestDistinct`, `ManifestOrder`), its order does not matter beyond that (`ManifestSorting`), and
  exactly which manifests are valid and which backups are made and verify, under every link policy and every choice of
  exclusions (`CoverageLinks`, `CoverageRoundTrip`, `BackupRun`); and whatever verifies does hold its source
  (`CoverageSoundness`). `PlainRules`, `PlainWalk`, `PlainFamilies` and `PlainCoverage` say exactly when an inspection has no
  problem, what it records, and what it makes of locks and writes in progress (whose names `AtomicNames` reads back);
  `PlainVerify` does so for validation, verification and the retained releases. `SampleSource` is a concrete owner tree
  with all these properties, and on each side of every line they draw.
* **Symbolic links.** `SymlinkResolver` holds the bounded worklist resolver, a reference that expands each link before any
  later `..`, and the exact relation between the two; `KernelResolution` adds what a kernel makes of trailing slashes;
  `LinkInspection` builds the link policy on it, `PlainLinks` says exactly which links it accepts and as what, and
  `LinkExamples` shows where policy and kernel part.
* **Rollback.** `TreeFingerprint` proves the record stream behind a release fingerprint uniquely decodable;
  `RuntimeRollback` proves restores repeatable from every mixture a stopped install or restore can leave.
* **Evidence and protocols.** `EvidenceLog` and `EvidenceConcurrency` treat the hash-chained log alone and under
  interleaved, stopping appenders. `TransactionStore` puts it beside the expectation store and the destination, and
  `ArtifactDigest` says what a matching destination digest means; `OfflineCapture` and `WriterCheckpoint` (with
  `CheckpointParticipant`) run the two capture protocols against it, with a failure possible at every call and other
  processes acting between any two; both are shown to certify only after every check was passed, in order, and to certify
  whenever nothing stands in the way. `OfflineCapture` inspects and verifies the trees themselves, so its certificate speaks
  of the owner state. `WriterCohort` is the in-process cohort.
* **Space.** `Allocation` is what the copy allocates; `StorageBudget` ties it to the storage plan and the free-space demand.
* **Gates and the event stream.** `AuditGate`, `HostedChecks` and `EventStream`.

Outside effects enter as parameters: digests, JSON and property-list parsing, letter case, process liveness, directory
order, and, for the protocols, scripts that say by call number how each call ends and what others do meanwhile; every
theorem holds for all of them. Digests are taken as collision free where a claim needs it, and the claim then says so.

Properties one might expect that do not hold as first stated, with an input that shows it, and the exact statement:

* The resolver refuses a link met a second time even when the visit is not cyclic (`RevisitIsRefused`), so it arrives
  exactly when the reference arrives along a trail that meets no link twice (`ResolverIsExact`).
* It also drops trailing slashes: `b -> a/` is accepted where `a` is a file, which no kernel follows (`SlashIsAccepted`). Its
  arrivals are the kernel's exactly unless they end at no directory under a trailing slash (`VerdictMeaning`).
* A problem-free inspection of a directory that lists a name with a backslash gives a manifest that validation refuses
  (`BackslashIsRefused`); a problem-free manifest is valid if and only if no listed name has one (`ProblemFreeIsValid`).
* The copy belongs to the copier and its links have the mode of new links, and verification compares owners and modes, so
  a link of another mode or a file of another owner spoils the backup (`OldIsRefused`). The copy also leaves out exclusions
  and held locks, so a link whose inspection looked at one of these is described differently there
  (`LostTargetIsDangling`). A backup verifies if and
  only if it lies on its source's volumes, everything recorded is what new items show, no recorded link looked at anything
  left out, unless it had no target anyway, and no listed name has a backslash (`BackupVerifies`). The last but one holds
  under the default link policy, and with links preserved in the compatibility home, unless something there is left out
  (`UsualLinksStay`).
* Directories get their recorded mode before anything is put in them, so a directory its owner may not write to stops the
  copy (`ReadOnlyDirectoryStops`); it completes if and only if no such directory holds anything (`Materialize`).
* An invalid offline request is answered REFUSED before the log is read, so that answer may stand beside a log that already
  holds CAPTURING (`InvalidRequestBesideCapturing`); `Capture.Run` states the claim for valid requests, and that invalid
  ones touch nothing.
* A writer that dies while a freeze is inspecting does not stop the boundary from being minted (`DeathDuringFreeze`), and a
  validation under way when the cohort is poisoned still succeeds (`ValidationOutlivesPoison`); from the poisoning on, only
  validations already under way succeed, each at most once (`CohortIsSafe`).

## Model

| member | source | states |
|---|---|---|
| SymlinkResolver.Walk | scripts/lib/recovery-symlinks.ts:37-60 | the worklist loop ends on every tree, equals its specification, observes exactly the existing paths it looks at, all strictly inside the boundary, and arrives inside it with no link on the way |
| SymlinkResolver.ArrivalIsPhysical | scripts/lib/recovery-symlinks.ts:37-60 | whenever the resolver arrives, the reference resolution exists and arrives at the same path |
| SymlinkResolver.TrailDecides | scripts/lib/recovery-symlinks.ts:37-60 | wherever the reference reaches a target, the resolver's verdict is the first objection met on the reference's trail, in the code's order of checks |
| SymlinkResolver.ClearMeansTame | scripts/lib/recovery-symlinks.ts:45-57 | a trail meets no objection if and only if it never climbs from the boundary, stays on one volume, and expands at most 64 relative links, none twice |
| SymlinkResolver.ResolverIsExact | scripts/lib/recovery-symlinks.ts:37-60 | the resolver arrives if and only if the reference reaches that path along an admitted trail |
| SymlinkResolver.ComponentMeaning | scripts/lib/recovery-symlinks.ts:37-60 | each verdict against component-by-component resolution from the link's own directory: arrivals, no target, climbing out, inadmissible trail |
| FileTree.SplitAtSlash | scripts/lib/recovery-symlinks.ts:40-41 | splitting a text splits it on both sides of any slash, so repeated and trailing slashes vanish |
| KernelResolution.FollowIsResolve | scripts/lib/recovery-symlinks.ts:31-36 | kernel resolution, trailing slashes included, is component-by-component resolution except at something that is no directory under a trailing slash |
| KernelResolution.KernelReaches | scripts/lib/recovery-symlinks.ts:31-36 | where components resolve, the kernel reaches the same path if and only if it is a directory or the link is not read under a trailing slash |
| KernelResolution.VerdictMeaning | scripts/lib/recovery-symlinks.ts:37-60 | where the resolver arrives the kernel arrives, and nowhere else, exactly unless that is no directory under a trailing slash; dangling or mistyped links have no kernel target; an escape climbs out of the boundary if it resolves at all; a cycle or excessive depth meets a link twice or too many |
| LinkExamples.RevisitIsRefused | scripts/lib/recovery-symlinks.ts:50-50 | a link among a release's dependencies that the kernel follows without any cycle and the policy refuses |
| LinkExamples.SlashIsAccepted | scripts/lib/recovery-symlinks.ts:40-41 | a link `b -> a/` to a file, accepted with target `a`, for which the kernel finds nothing |
| LinkInspection.RequiredLinkIsSound | scripts/lib/recovery-symlinks.ts:90-110 | an accepted required link names a real file or directory inside the boundary, on its volume, with no link on the way, that does not contain the link; the kernel goes there and nowhere else, exactly unless it is a file under a trailing slash |
| LinkInspection.RequiredLinkIsExact | scripts/lib/recovery-symlinks.ts:90-110 | for a required rule with a real boundary, acceptance if and only if the text is relative and a tame resolution ends at such a target; and which accepted links the kernel can follow |
| LinkInspection.OpaqueDescriptionIsSound | scripts/lib/recovery-symlinks.ts:70-81 | what each recorded classification of an opaque link, INTERNAL, DANGLING, ESCAPES_BOUNDARY or CYCLE, says about what the kernel finds |
| PlainLinks.RuleApplies | scripts/lib/recovery-symlinks.ts:19-24 | in a release's dependencies its own rule applies, confined to them; elsewhere the first supplied rule whose prefix the path continues |
| PlainLinks.UsableIs | scripts/lib/recovery-symlinks.ts:26-29 | a rule is usable if and only if its boundary is a clean relative path its prefix lies in, opaque and without target for compat-home alone, with a target for every other |
| PlainLinks.AcceptedExactly | scripts/lib/recovery-symlinks.ts:70-110 | which links are accepted, both ways, opaque ones included, and every field recorded about them |
| Names.SortedIsUnique | scripts/lib/recovery-coverage.ts:108-108 | a sorted listing is determined by its set of names |
| Names.AnyOrderListsTheSame | scripts/lib/runtime-rollback.ts:133-134 | sorting removes every trace of the order in which a directory was read |
| Names.LessIs | scripts/lib/audit-exceptions.ts:133-133 | the order of names is decided at the first difference, and a name that runs out first comes first |
| TreeFingerprint.EncodeInjective | scripts/lib/runtime-rollback.ts:127-155 | the record stream is uniquely decodable, even with newlines in names and link texts |
| TreeFingerprint.LinkTextCutOnce | scripts/lib/runtime-rollback.ts:140-141 | where a link text ends is determined although the text may hold newlines |
| TreeFingerprint.FingerprintIdentifiesTree | scripts/lib/runtime-rollback.ts:127-155 | two supported trees give the same stream if and only if they agree on paths, kinds, permissions, contents and link texts |
| TreeFingerprint.RecordsAreThePaths | scripts/lib/runtime-rollback.ts:127-155 | the records are exactly the described paths of the tree |
| TreeFingerprint.Visit | scripts/lib/runtime-rollback.ts:132-151 | the recursive traversal feeds exactly the records below a directory, or refuses, for any listing order |
| TreeFingerprint.Fingerprint | scripts/lib/runtime-rollback.ts:127-155 | the traversal yields the tree's stream whatever order directories are read in, and refuses exactly the trees with a special entry |
| RuntimeRollback.PreparedSnapshotIsValid | scripts/lib/runtime-rollback.ts:433-475 | a snapshot taken by prepare passes validation |
| RuntimeRollback.RestoreIsAdmittedExactly | scripts/lib/runtime-rollback.ts:477-513 | at any later time, with other retained releases verifying or not, a matching restore is admitted if and only if each of the six files holds its old or its candidate content, absence included, and the previous release still verifies with the recorded digest (scripts/lib/runtime-rollback.ts:333-350) |
| RuntimeRollback.AdmittedPlainly | scripts/lib/runtime-rollback.ts:477-513 | whatever the snapshot, a restore is admitted if and only if the snapshot is sound and its previous release verifies with the recorded digest, all files are owned, and the request names exactly the five recorded definitions |
| RuntimeRollback.PreparedPlainly | scripts/lib/runtime-rollback.ts:352-432 | a snapshot is taken if and only if all five agents run one other release that verifies and the candidate's definitions name the candidate; and which digests it records |
| RuntimeRollback.RollbackIsCrashRepeatable | scripts/lib/runtime-rollback.ts:352-527 | after any sequence of stopped installs and restores, at times when the retained release verifies or does not, restore is admitted if it still verifies as recorded, ends with exactly the saved files, and repeating it changes nothing |
| RuntimeRollback.RunsStayBetween | scripts/install-macos.ts:173-181 | every file stays old or candidate through any sequence of stopped installs and restores |
| RuntimeRollback.ActiveFiles.WriteAll | scripts/lib/runtime-rollback.ts:520-527 | replacements in order, stopping after any number of them |
| RuntimeRollback.ActiveFiles.RestoreSnapshot | scripts/lib/runtime-rollback.ts:515-527 | a restore writes no file unless it is admissible in plain terms, the recorded digest of the previous release included; an admitted one applies its plan |
| EvidenceLog.LastDigestBindsChain | scripts/lib/recovery-evidence.ts:49-78 | two valid chains with equal last digests are equal record by record |
| EvidenceLog.PathShape | scripts/lib/recovery-evidence.ts:16-22 | a built history has at most seven records, is closed by a terminal state, certifies only after the full path, and never both refuses and captures |
| EvidenceLog.TableIs | scripts/lib/recovery-evidence.ts:16-22 | the transition table: the next step, a failure before the end, a refusal before CAPTURING, and nothing else |
| EvidenceLog.ClosedIsFinal | scripts/lib/recovery-evidence.ts:16-22 | no built chain extends one that ends in a terminal state |
| EvidenceLog.ReadIsExact | scripts/lib/recovery-evidence.ts:63-78 | reading returns a chain if and only if the directory stores exactly that valid chain |
| EvidenceLog.ChainPlainly | scripts/lib/recovery-evidence.ts:63-78 | a chain is valid if and only if each record has version, node, transaction, number, own digest, predecessor's digest and a permitted state |
| EvidenceLog.TransactionLog.ReadChain | scripts/lib/recovery-evidence.ts:63-78 | the validation loop computes the specification of reading |
| EvidenceLog.TransactionLog.Append | scripts/lib/recovery-evidence.ts:49-61 | an append adds one legal record to the chain read, with the state, time, holder and data given, or changes nothing |
| EvidenceConcurrency.StepKeeps | scripts/lib/recovery-evidence.ts:31-61 | each file-system call of each appender keeps the settled chain and at most one torn slot |
| EvidenceConcurrency.EvidenceIsAppendOnly | scripts/lib/recovery-evidence.ts:31-78 | over all interleavings and stops, no record changes, later readings extend earlier ones, while reading is refused so is every append, and a chain once read closed reads the same for good |
| EvidenceConcurrency.AloneAppends | scripts/lib/recovery-evidence.ts:49-61 | an append left alone adds exactly its record if its state may follow and the transaction has records or no directory yet, and otherwise leaves the directory as it is |
| TransactionStore.OthersKeep | scripts/lib/recovery-evidence.ts:31-94 | whatever others do, records and expectations stay, and a closed chain stays closed and readable |
| TransactionStore.SealedReconciles | scripts/lib/recovery-evidence.ts:135-151 | a certified transaction can be read for good, and reconciles as verified if and only if the destination has the recorded digest |
| TransactionStore.ReconcilesExactly | scripts/lib/recovery-evidence.ts:135-151 | every verdict on every reachable disk, both ways: none for a torn slot or a certified chain beside a corrupt expectation, unknown for no record, refused and failed where the chain ends so, verified and changed for certified chains, interrupted for every other |
| TransactionStore.CapturingIsNoRefusal | scripts/lib/recovery-evidence.ts:135-151 | a transaction that reached CAPTURING is never reported as refused, whatever others do afterwards |
| ArtifactDigest.DigestIdentifiesTree | scripts/lib/recovery-evidence.ts:108-128 | two trees have the same artifact digest if and only if both can be digested and they agree on paths, kinds, permissions, contents and link texts |
| ArtifactDigest.VerifiedMeansUnchanged | scripts/lib/recovery-evidence.ts:108-151 | a sealed transaction reconciles as verified if and only if the destination still agrees with the certified tree |
| TransactionStore.Evidence.Append | scripts/lib/recovery-evidence.ts:49-61 | success means the log now ends in that record; failure may have written it, torn it or written nothing, and history is kept in every case |
| TransactionStore.Evidence.StoreExpectation | scripts/lib/recovery-evidence.ts:89-93 | success means the expectation is stored; a second one is never written |
| OfflineCapture.Capture.Run | scripts/lib/recovery-offline-capture.ts:104-189 | in every run outcome, log and disk agree: refused, uncertain and certified each mean what the log ends with; nothing is copied before expectation and CAPTURING; a used transaction is never taken up again and one that has a directory is refused. A certificate names the manifest of a problem-free inspection of the source; the transaction directory, the restored one and, last, the source were verified against it, so directory and source held everything recorded as inspected and the backup nothing else; it is given only after all eleven checks were passed in order, and is given when nothing stands in the way; unless others change it, the transaction directory is what was verified and reconciles as such |
| OfflineCapture.ProvenIsPreserved | scripts/lib/recovery-offline-capture.ts:157-176 | what the two verifications of a certified run say of the trees |
| OfflineCapture.RootsAre | scripts/lib/recovery-capture.ts:17-18 | the three captured roots are exactly what lies in the directories of their names |
| OfflineCapture.InvalidRequestBesideCapturing | scripts/lib/recovery-offline-capture.ts:107-107 | a run in which an invalid request is refused beside a log holding CAPTURING |
| CheckpointParticipant.AdvanceIsLater | src/shared/checkpoint.ts:82-109 | through any moves of a participant its counters only grow within one process, and nothing is written without an operation |
| CheckpointParticipant.ClosedIsDraining | src/shared/checkpoint.ts:79-96 | while a hold stands and nothing continues, no operation begins: what is in flight can only end |
| CheckpointParticipant.PrepareAcknowledges | src/shared/checkpoint.ts:118-142 | prepare acknowledges if and only if it drained and its hold stands, with its own counters |
| CheckpointParticipant.QuietBetween | src/shared/checkpoint.ts:118-142 | between two attestations of one boot and generation with nothing in flight, the participant is idle at every moment and writes nothing |
| WriterCheckpoint.AttestedTwiceIsQuiet | scripts/lib/recovery-checkpoint.ts:175-209 | the same over a whole history and all participants |
| WriterCheckpoint.Holder.Prepare | scripts/lib/recovery-checkpoint.ts:176-183 | an accepted acknowledgement was true of that participant at a moment of the run |
| WriterCheckpoint.Holder.Reattest | scripts/lib/recovery-checkpoint.ts:203-209 | success means every participant matched its acknowledgement at a later moment |
| WriterCheckpoint.Holder.Run | scripts/lib/recovery-checkpoint.ts:138-241 | certification implies sealed evidence naming the manifest and generations, acknowledgements from the processes that said hello without a fault since closing, attestations under the hold before the first byte and after the last, and no participant operation or write from before the inspection until after the copy; it comes only after all checks in order, and does come when nothing stands in the way; refusals copied nothing |
| WriterCohort.NextKeeps | scripts/lib/recovery-consistency.ts:31-60 | every uninterrupted stretch of every caller keeps the cohort's invariant |
| WriterCohort.CohortIsSafe | scripts/lib/recovery-consistency.ts:24-62 | frozen and poisoned never revert, no write after freezing, at most one boundary and only after eight checkpoints later than the last write, only that boundary is ever validated, with its fingerprint; once poisoned only validations already under way succeed, each at most once |
| WriterCohort.DeathDuringFreeze | scripts/lib/recovery-consistency.ts:42-52 | a run that mints a boundary in a poisoned cohort |
| WriterCohort.ValidationOutlivesPoison | scripts/lib/recovery-consistency.ts:54-60 | a run in which a validation under way succeeds in a poisoned cohort |
| WriterCohort.SyntheticWriterCohort.WriteAdmitted | scripts/lib/recovery-consistency.ts:31-33 | the object stays in a state some run of the cohort reaches; a write is admitted only into a clean, unfrozen cohort and leaves no checkpoint standing |
| WriterCohort.SyntheticWriterCohort.WriteEnded | scripts/lib/recovery-consistency.ts:34-36 | a write that ends was in a cohort never frozen and without boundary; success moves the generation on, failure poisons |
| WriterCohort.SyntheticWriterCohort.TakeCheckpoint | scripts/lib/recovery-consistency.ts:38-41 | a checkpoint is taken only while no write is under way and after the last one ended; otherwise nothing changes |
| WriterCohort.SyntheticWriterCohort.WriterDied | scripts/lib/recovery-consistency.ts:42-42 | from then on nothing is admitted, checkpointed, frozen or taken up for validation, and nothing cleans the cohort |
| WriterCohort.SyntheticWriterCohort.AllCheckpointed | scripts/lib/recovery-consistency.ts:45-45 | the loop decides whether every writer's checkpoint is of the current generation |
| WriterCohort.SyntheticWriterCohort.FreezeBegun | scripts/lib/recovery-consistency.ts:43-46 | freezing begins if and only if the cohort is clean and unfrozen, no write is under way and every writer's checkpoint stands |
| WriterCohort.SyntheticWriterCohort.FreezeEnded | scripts/lib/recovery-consistency.ts:47-51 | a proven inspection gives the cohort's only boundary, at the frozen generation; otherwise it has none and is poisoned |
| WriterCohort.SyntheticWriterCohort.ValidateBegun | scripts/lib/recovery-consistency.ts:53-56 | validation is taken up only for this cohort's one boundary, unaltered, in a clean frozen cohort |
| WriterCohort.SyntheticWriterCohort.ValidateEnded | scripts/lib/recovery-consistency.ts:57-59 | success only for that boundary, at its generation, with the source showing its fingerprint; a changed source poisons |
| Exclusions.RulesStayClear | scripts/lib/recovery-exclusions.ts:31-80 | owner rules never reach protected authority; the runtime rule reaches only unretained release directories |
| PlainRules.RuleIs | scripts/lib/recovery-exclusions.ts:39-80 | each exclusion rule applies to exactly the paths it names, under the option that switches it on |
| PlainRules.AuthorityIs | scripts/lib/recovery-exclusions.ts:48-67 | a path is authority if and only if its name is one of those patterns or it is one of those places |
| RetainedReleases.CurrentRelease | scripts/lib/recovery-exclusions.ts:116-128 | the loop finds a release if and only if all five agents run that one |
| RetainedReleases.RollbackTarget | scripts/lib/recovery-exclusions.ts:129-141 | the loop finds a target if and only if nothing is amiss in the rollback directory and exactly one snapshot names one for the current release |
| RetainedReleases.RetainedRuntimeReleases | scripts/lib/recovery-exclusions.ts:113-147 | two releases are returned if and only if agents, snapshots and release directories determine them, and they are the ones determined |
| PlainVerify.DeterminedIs | scripts/lib/recovery-exclusions.ts:113-147 | when two releases are determined, read off the property lists, the snapshots and the release directories |
| RetainedReleases.SetupPlainly | scripts/lib/recovery-coverage.ts:94-97 | the options of an inspection are the caller's choices, with the two determined releases where superseded ones are left out |
| RetainedReleases.RetainedIsNotExcluded | scripts/lib/recovery-exclusions.ts:69-80 | nothing at or below the running release or its rollback target is excluded, whatever is chosen |
| RetainedReleases.RetainedIsRecorded | scripts/lib/recovery-coverage.ts:94-102 | after a problem-free inspection under any choice, every path of both retained releases is recorded, or is a held lock |
| RetainedReleases.SetupAlike | scripts/lib/recovery-coverage.ts:282-283 | a copy of a problem-free source determines the same retained releases, so verification re-inspects under the same options |
| CoverageWalk.ClearVisitRecords | scripts/lib/recovery-coverage.ts:155-201 | a walk without problems records exactly the paths reached through listed, unexcluded directories |
| CoverageWalk.NothingEscapesVisit | scripts/lib/recovery-coverage.ts:155-190 | every path under the top is walked, lies in a recorded exclusion, or is a held lock |
| AtomicNames.TemporaryIs | scripts/lib/recovery-coverage.ts:55-73 | a name is a temporary of a file by a process if and only if it is spelled `<file>.<pid>.<version-4 uuid>.tmp` |
| AtomicNames.PidIsRead | scripts/lib/recovery-coverage.ts:55-71 | process ids are read back as written, one to ten digits |
| PlainRules.SealedIs | scripts/lib/recovery-coverage.ts:46-46 | which paths are payload nobody reads |
| PlainRules.SettledIs | scripts/lib/recovery-coverage.ts:186-186 | a name is let pass if and only if it is sealed payload, or neither `*.lock` nor a `*.tmp` other than a file whose writer is gone or came later |
| PlainRules.SafeNameIs | scripts/lib/recovery-reconciliation.ts:70-70 | a name is safe if and only if no piece between backslashes is empty, `.` or `..` |
| PlainWalk.FineIs | scripts/lib/recovery-coverage.ts:155-200 | what is objected to at one path: volume, special files, links, size, names, JSON, and authority in what is left out |
| PlainWalk.ClearIs | scripts/lib/recovery-coverage.ts:155-201 | a walk is clear if and only if its top exists and every path followed from it is fine and settled |
| PlainWalk.ItemIs | scripts/lib/recovery-coverage.ts:158-200 | the record of a fine path, field by field |
| Families.PolicyShaped | scripts/lib/recovery-coverage.ts:14-38 | every family owns one top-level name, a task file, or the services or worker root |
| Families.PolicyDistinct | scripts/lib/recovery-coverage.ts:14-38 | no two families start at the same place |
| PlainFamilies.PolicyIs | scripts/lib/recovery-coverage.ts:14-38 | the families, required and optional, and their places, as a table, with the preserved directories |
| CoverageTheorems.OneStart | scripts/lib/recovery-coverage.ts:202-205 | a path lies under at most one family's starting path |
| CoverageTheorems.RecordsAre | scripts/lib/recovery-coverage.ts:103-218 | without family problems the manifest holds the state root, tasks/ and exactly what the walks record |
| CoverageTheorems.OneRecordAPath | scripts/lib/recovery-coverage.ts:151-218 | a path has at most one record |
| CoverageTheorems.NothingIsDropped | scripts/lib/recovery-coverage.ts:103-218 | after a problem-free inspection every path of the state root has exactly one of the five fates |
| CoverageTheorems.NothingInsideExclusion | scripts/lib/recovery-coverage.ts:158-165 | nothing is recorded at or beneath a recorded exclusion but itself |
| CoverageTheorems.ExclusionsAreSafe | scripts/lib/recovery-coverage.ts:155-235 | for every option setting exclusions form an antichain, spare retained releases and authority, and no required link resolves into one |
| CoverageTheorems.DefaultRecordsNoExclusion | scripts/lib/recovery-exclusions.ts:69-80 | under the default options the manifest holds no exclusion |
| PlainFamilies.FamilyIs | scripts/lib/recovery-coverage.ts:151-217 | one family reports no problem if and only if it is optional and absent, or is walked well from each start and, if required, carries a file or a link |
| PlainCoverage.ProblemFreeIs | scripts/lib/recovery-coverage.ts:90-247 | an inspection reports no problem if and only if the three roots, the control directory and tasks/ hold known names only, every family is fine, required links lead to what is recorded, and the mandatory files and preserved property lists are there |
| PlainCoverage.RecordsPlainly | scripts/lib/recovery-coverage.ts:103-218 | the manifest then holds exactly the lines for the state root and tasks/ and what the walks write |
| PlainCoverage.NoLockIsRecorded | scripts/lib/recovery-coverage.ts:186-186 | a problem-free inspection records no `*.lock` outside sealed families, and a `*.tmp` only if its writer is gone or came later |
| PlainCoverage.UnsettledIsReported | scripts/lib/recovery-coverage.ts:184-188 | a lock or live temporary that a walk follows to is reported as transient in its family, or the walk was cut short by an error that is reported |
| PlainCoverage.CodesAre | scripts/lib/recovery-coverage.ts:109-150 | which of the problems that belong to no family is reported when |
| Inspector.Inspection.VisitPath | scripts/lib/recovery-coverage.ts:155-201 | the recursive visit appends what the walk specifies and throws where it specifies |
| Inspector.Inspection.VisitListed | scripts/lib/recovery-coverage.ts:184-188 | the loop over a directory's names, up to the first error |
| Inspector.Inspection.VisitStarts | scripts/lib/recovery-coverage.ts:202-206 | the starting paths of one family, up to the first error |
| Inspector.ScanTargets | scripts/lib/recovery-coverage.ts:230-235 | the loop over required links finds whether each target is recorded itself and whether one lies in an exclusion |
| Inspector.ScanFiles | scripts/lib/recovery-coverage.ts:242-243 | the loops find whether every preserved directory holds its property lists as files and whether every mandatory path has an entry |
| Inspector.RunInspection | scripts/lib/recovery-coverage.ts:90-247 | the running inspection produces the specified manifest, records in the order of the walk |
| CoverageCopy.VisitAlike | scripts/lib/recovery-coverage.ts:155-201 | walking a faithful copy records the same items, exclusions left out |
| CoverageLinks.WalkInCopy | scripts/lib/recovery-symlinks.ts:37-60 | in a tree that holds part of another, the resolver goes the same way if everything it looked at is there, and otherwise finds something missing |
| CoverageLinks.LinkAlikeExactly | scripts/lib/recovery-symlinks.ts:90-110 | an accepted link is described the same in a copy if and only if everything its inspection looked at was copied, or it had no target |
| CoverageRoundTrip.CopyIsSound | scripts/lib/recovery-capture.ts:25-36 | the copy is a well-formed tree |
| CoverageRoundTrip.CopyIsFaithful | scripts/lib/recovery-capture.ts:25-36 | below every starting path the copy mirrors the open part of the source |
| LinkExamples.LostTargetIsDangling | scripts/lib/recovery-symlinks.ts:70-81 | a preserved link recorded as INTERNAL at the source and as DANGLING in a copy without its target |
| CoverageRoundTrip.UsualLinksStay | scripts/lib/recovery-symlinks.ts:12-23 | with dependency links, and with links preserved in the compatibility home unless owner exclusions are on or a lock is held there, every link looked at copied paths only |
| CoverageRoundTrip.BackupRoundTrip | scripts/lib/recovery-capture.ts:25-36 | under every link policy and choice of exclusions, the copy of a problem-free source has the same families, and inspects without problems to the same records in order, newly owned, if and only if every recorded link stays |
| CoverageRoundTrip.CopyOfCopyIsCopy | scripts/lib/recovery-capture.ts:25-36 | copying the copy gives the same trees |
| CoverageVerify.ConfirmedExactly | scripts/lib/recovery-coverage.ts:292-301 | a recorded entry or directory is confirmed by the copy if and only if it belongs to the copier and, for a link, has the mode of new links |
| PlainVerify.ValidIs | scripts/lib/recovery-coverage.ts:249-275 | validation clause by clause, both ways |
| PlainVerify.VerifiedIs | scripts/lib/recovery-coverage.ts:277-303 | verification accepts if and only if the manifest is valid, there is no problem, volumes and exclusions are the same, and recorded and observed lines match one another in every compared field |
| PlainVerify.VerifiedAgree | scripts/lib/recovery-coverage.ts:277-303 | two manifests that verify against one observation say the same but for modification times |
| CoverageVerify.BackupVerifies | scripts/lib/recovery-coverage.ts:277-303 | verification, manifest validation included, accepts the copy if and only if it lies on its source's volumes, everything recorded has the copier's ownership and links the mode of new links, every link stays, and no listed name has a backslash |
| CoverageSoundness.VerifiedReproduces | scripts/lib/recovery-coverage.ts:277-303 | whatever tree verifies against the manifest of a source, as a copy or as the source again, holds everything recorded with its kind, contents, link text, permissions and owner, and its state root nothing else but control files, held locks and, at the source, recorded exclusions |
| CoverageSoundness.ObservedIsRecorded | scripts/lib/recovery-coverage.ts:286-291 | equal counts and a confirmation for every record leave no observed record unaccounted for |
| CoverageSoundness.SourceVerifies | scripts/lib/recovery-coverage.ts:277-303 | an unchanged problem-free source verifies if and only if no listed name has a backslash |
| ManifestDistinct.ManifestIsDistinct | scripts/lib/recovery-coverage.ts:256-257 | a problem-free manifest lists no path twice |
| ManifestOrder.ManifestInOrder | scripts/lib/recovery-coverage.ts:184-188 | every record comes after that of the directory that holds it, but for what lies directly in the unrecorded agents and worker roots |
| ManifestValidity.ProblemFreeIsValid | scripts/lib/recovery-coverage.ts:249-275 | under every option, the manifest of a problem-free inspection passes validation if and only if no directory it records lists a name with a backslash |
| ManifestSorting.SortingIsIrrelevant | scripts/lib/recovery-coverage.ts:241-244 | however entries and exclusions are sorted, validity, the copy, its completion and its verification are the same |
| BackupCopy.ReadyIsCopyable | scripts/lib/recovery-capture.ts:25-36 | the manifest of a problem-free source lists no path twice, every directory before what lies in it, and files readable at their recorded lengths |
| BackupCopy.PutExactly | scripts/lib/recovery-capture.ts:29-34 | one step of the copy succeeds if and only if the directory that is to hold the record lets its owner write, and adds exactly that path |
| BackupCopy.OwnerDigitDecides | scripts/lib/recovery-capture.ts:29-33 | which octal digits of a mode let its owner search and fill a directory |
| BackupCopy.PutKeeps | scripts/lib/recovery-capture.ts:29-34 | one copied record keeps the copy in progress: nothing unrecorded, everything finished exact |
| BackupCopy.CopyPass | scripts/lib/recovery-capture.ts:29-34 | each pass completes if and only if every record of it is admitted by its directory; it then leaves its records copied and has allocated their blocks |
| BackupCopy.Materialize | scripts/lib/recovery-capture.ts:25-36 | the copy of a copyable manifest completes if and only if every recorded directory with something in it has its owner's write and search bits; it then holds exactly the recorded paths, modes, bytes, times and link texts, and occupies exactly what is planned |
| BackupRun.BackUp | scripts/lib/recovery-capture.ts:25-36 | options, inspection, copy, re-inspection and verification end to end, under every link policy and choice of exclusions: when each succeeds, as an exact condition on the source and its manifest |
| BackupRun.CopyAgain | scripts/lib/recovery-capture.ts:25-36 | copying the copy succeeds and changes nothing |
| SampleSource.SampleIsReady | scripts/lib/recovery-coverage.ts:14-38 | a concrete owner tree inspects without problems, whatever the mode and owner of one directory, the mode of one link, and one file name |
| SampleSource.BackslashIsRefused | scripts/lib/recovery-coverage.ts:271-272 | with the name `a\b` the inspection has no problem and the manifest is not valid |
| SampleSource.OldIsRefused | scripts/lib/recovery-coverage.ts:293-301 | with a link of mode 0o700 or a directory of another owner no copy verifies |
| SampleSource.ReadOnlyDirectoryStops | scripts/lib/recovery-capture.ts:29-33 | with a directory of mode 0o500 the copy cannot complete |
| SampleSource.SampleVerifies | scripts/lib/recovery-coverage.ts:277-303 | with none of these the copy can be made, and verifies |
| Allocation.Block | scripts/lib/recovery-storage.ts:6-6 | block rounding: whole blocks, at least one, less than a block too much |
| StorageBudget.Required | scripts/lib/c14-recovery-preflight.ts:48-54 | there is a demand if and only if all figures are natural, the reserve is at least 2 GiB and the total a safe integer; it is the sum of all figures but the retained one |
| StorageBudget.PassesAreWhole | scripts/lib/recovery-storage.ts:7-7 | the three passes together write no more than the payload |
| StorageBudget.PayloadIs | scripts/lib/recovery-storage.ts:7-7 | and the payload is exactly that and a block for each recorded root |
| StorageBudget.PlanIs | scripts/lib/recovery-storage.ts:4-21 | the plan and the estimate figure by figure, the estimate's payload eleven tenths rounded up |
| StorageBudget.ReserveIsKept | scripts/lib/recovery-offline-capture.ts:141-145 | after every single write of an admitted capture and its restore check, free space is at least the reserve and what candidate and dependencies need |
| StorageBudget.CopyLeavesReserve | scripts/lib/recovery-offline-capture.ts:141-145 | and the finished copy occupies exactly its part of those writes, so it leaves the reserve |
| StorageBudget.EstimateDominates | scripts/lib/recovery-storage.ts:16-21 | the estimate covers the plan of the same manifest and of any grown by up to a tenth |
| EventStream.CutGoesOn | scripts/c14-event-client.ts:17-20 | cutting may stop at any character and go on with the remainder |
| EventStream.CutIsWhole | scripts/c14-event-client.ts:19-20 | frames, their breaks and the rest are the whole text |
| EventStream.CutIsOnly | scripts/c14-event-client.ts:19-20 | and no other reading of the text as frames exists |
| EventStream.FieldIsFirstMatch | scripts/c14-event-client.ts:21-23 | a field is the first match of its pattern in the text of the frame |
| EventStream.FrameSays | scripts/c14-event-client.ts:21-27 | the kind, cursor and data of a frame read off its text; without data it is silent |
| EventStream.FrameRoundTrip | scripts/c14-event-client.ts:21-25 | the frame written for a kind, a cursor and data reads back as them, also without a kind or a cursor |
| EventStream.CursorIs | scripts/c14-event-client.ts:22-22 | a cursor is tev_ and 24 lower-case hexadecimal digits |
| EventStream.DeliverOneMore | scripts/c14-event-client.ts:19-28 | what one frame more delivers and does to the cursor |
| EventStream.ConsumedIsDelivered | scripts/c14-event-client.ts:15-31 | reading finishes if and only if every frame is readable and no remainder exceeds the limit, and then delivers what the whole text delivers |
| EventStream.ChunkInvariance | scripts/c14-event-client.ts:7-34 | two chunkings of one text that finish deliver the same events and cursor |
| EventStream.IncompleteFrameIsSilent | scripts/c14-event-client.ts:19-28 | an incomplete last frame is neither delivered nor moves the cursor |
| EventStream.FrameLimit | scripts/c14-event-client.ts:29-29 | an incomplete frame is waited for up to 65536 UTF-16 units and refused beyond |
| EventStream.TakeFrames | scripts/c14-event-client.ts:19-28 | the inner loop delivers exactly the complete frames of the buffer |
| EventStream.ConsumeTaskEvents | scripts/c14-event-client.ts:7-34 | the nested loops compute the specified outcome |
| AuditGate.ParseExceptionFile | scripts/lib/audit-exceptions.ts:48-72 | a file is accepted if and only if each entry is acceptable and no advisory is excepted twice at a path; then no finding is excepted twice |
| AuditGate.AcceptablePlainly | scripts/lib/audit-exceptions.ts:57-69 | which entries are acceptable, with their fields, advisory and date formats and paths spelled out, and what is read from them |
| AuditGate.Scan | scripts/lib/audit-exceptions.ts:92-106 | one entry yields exactly its blocking findings, and a failure for each unlocated one |
| AuditGate.Collect | scripts/lib/audit-exceptions.ts:89-107 | all findings, all entries affected through dependencies, and the number of blocking entries |
| AuditGate.MatchFindings | scripts/lib/audit-exceptions.ts:115-121 | a failure for each finding without exception, and which exceptions were used |
| AuditGate.CheckExceptions | scripts/lib/audit-exceptions.ts:131-139 | no failure if and only if every exception is current, used and still reported |
| AuditGate.OneToOne | scripts/lib/audit-exceptions.ts:115-136 | all findings matched and all exceptions used is a one-to-one match |
| AuditGate.EvaluateAudit | scripts/lib/audit-exceptions.ts:78-142 | the gate passes if and only if findings and exceptions, and affected nodes and approved dependents, coincide, all current, located and counted |
| AuditGate.PassesPlainly | scripts/lib/audit-exceptions.ts:78-142 | the pass condition read off severities, advisories, nodes, exceptions, lockfile and date |
| AuditGate.PassesEarlier | scripts/lib/audit-exceptions.ts:133-133 | passing on a date implies passing on every earlier date |
| HostedChecks.AggregateCheckRuns | scripts/lib/c14-recovery-preflight.ts:110-120 | a name aggregates to its only row's outcome, or to AMBIGUOUS |
| HostedChecks.ExactShaCheckRows | scripts/lib/c14-recovery-preflight.ts:62-90 | the loops produce exactly the specified rows, or none for unreadable evidence |
| HostedChecks.SuccessIsExact | scripts/lib/c14-recovery-preflight.ts:62-90 | a required name is SUCCESS if and only if exactly one owning run succeeded and, for a job, exactly one check run in its suite did |
| HostedChecks.JobSucceeds | scripts/lib/c14-recovery-preflight.ts:62-90 | a job gate is SUCCESS if and only if exactly one push run to main of this commit in this repository and workflow file succeeded, and exactly one check run of its name by github-actions in its suite did |
| HostedChecks.AnalysisSucceeds | scripts/lib/c14-recovery-preflight.ts:62-90 | the same for the CodeQL gate, which is the workflow run itself |
| HostedChecks.OrderIsIrrelevant | scripts/lib/c14-recovery-preflight.ts:62-120 | the verdict on each gate is independent of the order of both lists |

## Left out

- Changes while the source is being inspected: the tree is stable, so the `consistent` flag, inode and change-time comparisons and the second read of every entry (scripts/lib/recovery-coverage.ts:219-229, 236-240) are not modelled.
- Inode numbers and change times; file modification times are kept, because residue depends on them. User and group are one number, and in the inventory of an exclusion the size of a directory is 0.
- Repeated problem codes: one closed-world problem stands for all its occurrences, and family statuses and the numbering of historical family ids are not recorded.
- Regular expressions on property lists, JSON text, UTF-8 decoding, base64 and real digests: parameters or injective functions.
- Names.LessIs: names are ordered by code point, not by UTF-16 unit.
- TransactionStore.ReconcilesExactly: the artifact status and the last recorded state that reconciliation returns besides its verdict are not part of it.
- Held locks are taken to be regular files named `*.lock`, as the lock code makes them.
- Inspector.RunInspection: leaves entries and exclusions in the order of the walk; `SortingIsIrrelevant` says why a locale's order, which is no part of the model, makes no difference.
- KernelResolution.VerdictMeaning: a kernel's own limit on nested links and empty link texts, which no platform stores, are not modelled.
- RetainedReleases.RetainedRuntimeReleases: property lists and snapshots reached through a link are refused here, where the code follows the link; under the default link policy the inspection objects to such links itself.
- ArtifactDigest.DigestIdentifiesTree: the walk is a function, the same traversal as in `TreeFingerprint.Visit`; no loop of its own.
- BackupCopy.Materialize: on values, not on a mutable file system; the copier is the owner of everything and not root, its reads are never denied, the umask and directory times are not modelled, and the `beforeFile` hook does nothing.
- `captureSynthetic`'s in-memory ledger and receipts: a map from transaction to state, which one reading settles. In the checkpoint its copy and checks are single fallible steps.
- CheckpointParticipant.AdvanceIsLater: participants are values, several at once and with their history, rather than one mutable object; timers appear as the possibility of losing a hold.
- WriterCheckpoint.Holder.Run: replies that fail signature verification count as lost; signatures are taken as unforgeable and boot ids as never reused. The checkpoint records its final states with errors swallowed, so its REFUSED says nothing about the log's last record.
- OfflineCapture.Capture.Run: which check failed and its reason code are not modelled; quiescence, budget, destination and application checks are each one call that passes, fails or throws. What the copy and the restore leave behind is arbitrary: the verification is what counts. A transaction directory whose roots are no directories counts as an exception.
- Socket framing and buffering of the participant channel, nested lock acquisition and lock timeouts: single fallible steps.
- StorageBudget.ReserveIsKept: a directory occupies one block, sizes are exact integers, and evidence records are not charged to the destination volume. The estimate's factor is exactly 1.1, not its nearest binary fraction.
- EventStream.ConsumeTaskEvents: takes decoded text; HTTP status, cancellation and exceptions thrown by the receiver are not modelled.
- HostedChecks.AggregateCheckRuns: names inherited by every JavaScript object, which the aggregation would call ambiguous, are not modelled.
- AuditGate.EvaluateAudit: titles and severities of findings are not carried into messages.
- Installation, reload, activation and maintenance scripts, user interface, OAuth, gateway, task store and access policy; `evaluatePreflight`, `destinationBlockers` and `ownershipBlockers`, which are flat conjunctions.
