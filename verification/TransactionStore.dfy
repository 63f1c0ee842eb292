/** One transaction's durable evidence as a capture protocol drives it: every write may fail before, half-way through or
    after its effect, and between any two calls other processes may act on the evidence directory, the expectation store
    and the destination. Reconciliation reads what was left. */
module TransactionStore {
  import opened FileTree
  import opened EvidenceLog

  datatype Log = Log(h: Hash, node: string, txn: string)

  /** One stored expectation file; Corrupt is one whose writing stopped half-way. */
  datatype Expectation = Corrupt | Expect(manifest: string, generation: string)

  /** Everything durable about one transaction: its evidence slots (complete records, then perhaps one torn slot), its
      expectation, and the transaction directory in the destination. */
  datatype Disk = Disk(made: bool, chain: seq<Record>, torn: bool, expectation: Option<Expectation>,
                  staging: Option<Tree>)

  /** What another process may do. Slots and expectations are only ever created exclusively; a slot is created only
      by an appender whose record may follow the chain, so never after a terminal record, and receives that record.
      The destination may change in any way. */
  datatype Event =
    | MakeDirectory
    | CreateSlot
    | FinishSlot(state: State, at: string, holder: string, data: Data)
    | StoreExpectation(expectation: Expectation)
    | ChangeStaging(content: Option<Tree>)

  function Apply(l: Log, d: Disk, e: Event): Disk {
    match e
    case MakeDirectory => d.(made := true)
    case CreateSlot => if d.made && !Closed(d.chain) then d.(torn := true) else d
    case FinishSlot(state, at, holder, data) =>
      if d.torn && MayAppend(d.chain, state)
      then d.(torn := false, chain := d.chain + [NextRecord(l.h, l.node, l.txn, d.chain, state, at, holder, data)])
          else d
    case StoreExpectation(x) => if d.expectation.None? then d.(expectation := Some(x)) else d
    case ChangeStaging(content) => d.(staging := content)
  }

  function ApplyAll(l: Log, d: Disk, events: seq<Event>): Disk
    decreases |events|
  {
    if events == [] then d else ApplyAll(l, Apply(l, d, events[0]), events[1..])
  }

  predicate Good(l: Log, d: Disk) {
    && Built(l.h, l.node, l.txn, d.chain) && (!d.made ==> d.chain == [] && !d.torn)
    && (Closed(d.chain) ==> !d.torn)
  }

  function Fulls(rs: seq<Record>): (slots: seq<Slot>)
    ensures Stores(slots, rs)
  {
    seq(|rs|, i requires 0 <= i < |rs| => Full(rs[i]))
  }

  function DirectoryOf(d: Disk): Directory {
    if !d.made then Absent else Numbered(Fulls(d.chain) + if d.torn then [Torn] else [])
  }

  function ReadDisk(l: Log, d: Disk): Option<seq<Record>> {
    Read(l.h, l.node, l.txn, DirectoryOf(d))
  }

  /** A torn slot refuses every reading; otherwise the chain is read back whole. */
  lemma ReadIsChain(l: Log, d: Disk)
    requires Good(l, d)
    ensures ReadDisk(l, d) == if d.torn then None else Some(d.chain)
  {
    if d.torn {
      assert (Fulls(d.chain) + [Torn])[|d.chain|] == Torn;
      if ReadDisk(l, d).Some? {
        ReadIsExact(l.h, l.node, l.txn, DirectoryOf(d), ReadDisk(l, d).value);
      }
    } else {
      ReadIsExact(l.h, l.node, l.txn, DirectoryOf(d), d.chain);
      assert Fulls(d.chain) + [] == Fulls(d.chain);
    }
  }

  /** What lasts: a record stays where it is, an expectation stays as it is. */
  predicate Keeps(d: Disk, d': Disk) {
    d.chain <= d'.chain && (d.made ==> d'.made) && (d.expectation.Some? ==> d'.expectation == d.expectation)
  }

  lemma EventKeeps(l: Log, d: Disk, e: Event)
    requires Good(l, d)
    ensures Good(l, Apply(l, d, e)) && Keeps(d, Apply(l, d, e)) && (Closed(d.chain) ==> Apply(l, d, e).chain == d.chain)
  {
    hide Built, NextRecord;
    if e.FinishSlot? && d.torn && MayAppend(d.chain, e.state) {
      NextRecordBuilds(l.h, l.node, l.txn, d.chain, e.state, e.at, e.holder, e.data);
    }
  }

  lemma {:induction false} OthersKeep(l: Log, d: Disk, events: seq<Event>)
    requires Good(l, d)
    ensures var d' := ApplyAll(l, d, events); Good(l, d') && Keeps(d, d') && (Closed(d.chain) ==> d'.chain == d.chain)
    decreases |events|
  {
    hide Good, Apply;
    if events != [] {
      EventKeeps(l, d, events[0]);
      OthersKeep(l, Apply(l, d, events[0]), events[1..]);
    }
  }

  /** Events that leave the destination alone. */
  predicate Elsewhere(events: seq<Event>) {
    forall i :: 0 <= i < |events| ==> !events[i].ChangeStaging?
  }

  lemma {:induction false} StagingStays(l: Log, d: Disk, events: seq<Event>)
    requires Elsewhere(events)
    ensures ApplyAll(l, d, events).staging == d.staging
    decreases |events|
  {
    if events != [] {
      assert !events[0].ChangeStaging?;
      StagingStays(l, Apply(l, d, events[0]), events[1..]);
    }
  }

  // ---------------------------------------------------------------- reconciliation after the fact

  datatype Verdict = Unknown | CertifiedVerified | CertifiedArtifactChanged | WasRefused | WasFailed
                     | UncertainInterrupted

  function FindCaptured(rs: seq<Record>): Option<Data> {
    if rs == [] then None else if rs[0].body.state.Captured? then Some(rs[0].body.data) else FindCaptured(rs[1..])
  }

  datatype Artifact = NoArtifact | MatchesRecord | Differs | PresentUnrecorded

  /** The bytes actually present against the digest recorded at CAPTURED; an unreadable artifact differs. */
  function ArtifactStatus(digest: Tree -> Option<string>, rs: seq<Record>, staging: Option<Tree>): Artifact {
    var recorded := FindCaptured(rs);
    if staging.None? then NoArtifact
    else if recorded.None? || recorded.value.artifactDigest.None? then PresentUnrecorded
    else if digest(staging.value) == recorded.value.artifactDigest then MatchesRecord else Differs
  }

  /** None where reading a store throws. */
  function Reconcile(l: Log, digest: Tree -> Option<string>, d: Disk): Option<Verdict> {
    var read := ReadDisk(l, d);
    if read.None? then None
    else
      var rs := read.value;
      if rs == [] then Some(Unknown)
      else
        match End(rs).body.state
        case Certified =>
          (match d.expectation
           case None => Some(CertifiedArtifactChanged)
           case Some(Corrupt) => None
           case Some(Expect(manifest, _)) =>
             var captured := FindCaptured(rs);
             Some(if ArtifactStatus(digest, rs, d.staging).MatchesRecord? && captured.Some?
                 && captured.value.manifestDigest == Some(manifest)
                  then CertifiedVerified else CertifiedArtifactChanged))
        case RefusedState => Some(WasRefused)
        case FailedState => Some(WasFailed)
        case _ => Some(UncertainInterrupted)
  }

  lemma {:induction false} FindOnly(rs: seq<Record>, k: nat)
    requires k < |rs| && rs[k].body.state.Captured? && forall i :: 0 <= i < k ==> !rs[i].body.state.Captured?
    ensures FindCaptured(rs) == Some(rs[k].body.data)
  {
    if k > 0 { FindOnly(rs[1..], k - 1); }
  }

  /** A chain that is certified and whose CAPTURED record carries these digests, beside the matching expectation. */
  ghost predicate Sealed(l: Log, d: Disk, manifest: string, artifact: string) {
    && Good(l, d) && d.chain != [] && End(d.chain).body.state.Certified?
    && d.expectation.Some? && d.expectation.value.Expect? && d.expectation.value.manifest == manifest
    && HasCaptured(d.chain, manifest, artifact)
  }

  ghost predicate HasCaptured(rs: seq<Record>, manifest: string, artifact: string) {
    exists k :: 0 <= k < |rs| && rs[k].body.state.Captured? && rs[k].body.data == Data(Some(manifest), Some(artifact))
  }

  lemma CapturedIsFound(l: Log, rs: seq<Record>, manifest: string, artifact: string)
    requires Built(l.h, l.node, l.txn, rs) && HasCaptured(rs, manifest, artifact)
    ensures FindCaptured(rs) == Some(Data(Some(manifest), Some(artifact)))
  {
    PathShape(l.h, l.node, l.txn, rs);
    var k :| 0 <= k < |rs| && rs[k].body.state.Captured? && rs[k].body.data == Data(Some(manifest), Some(artifact));
    FindOnly(rs, k);
  }

  /** CERTIFICATION LASTS. Whatever others do afterwards, a sealed transaction can be read, and it reconciles as
      verified exactly while the transaction directory has the certified digest. */
  lemma SealedReconciles(l: Log, digest: Tree -> Option<string>, d: Disk, manifest: string, artifact: string,
                         later: seq<Event>)
    requires Sealed(l, d, manifest, artifact)
    ensures var d' := ApplyAll(l, d, later);
            && Sealed(l, d', manifest, artifact)
            && Reconcile(l, digest, d').Some?
            && (Reconcile(l, digest, d') == Some(CertifiedVerified) <==>
                d'.staging.Some? && digest(d'.staging.value) == Some(artifact))
  {
    var d' := ApplyAll(l, d, later);
    OthersKeep(l, d, later);
    ReadIsChain(l, d');
    CapturedIsFound(l, d'.chain, manifest, artifact);
  }

  /** The last recorded state is one of these. */
  predicate EndsIn(d: Disk, states: set<State>) {
    d.chain != [] && End(d.chain).body.state in states
  }

  /** WHAT RECONCILIATION SAYS, for every disk. It throws exactly where a slot is torn, or a certificate stands beside a
      corrupt expectation. A refusal or failure is reported exactly where it is the last record; a chain that was left
      open is uncertain, whatever lies in the destination; and a certificate is verified exactly where the destination
      has the digest and the expectation the manifest that CAPTURED recorded. */
  lemma ReconcilesExactly(l: Log, digest: Tree -> Option<string>, d: Disk)
    requires Good(l, d)
    ensures var verdict := Reconcile(l, digest, d);
            && (verdict.None? <==> d.torn || (EndsIn(d, {Certified}) && d.expectation == Some(Corrupt)))
            && (verdict == Some(Unknown) <==> !d.torn && d.chain == [])
            && (verdict == Some(WasRefused) <==> !d.torn && EndsIn(d, {RefusedState}))
            && (verdict == Some(WasFailed) <==> !d.torn && EndsIn(d, {FailedState}))
            && (verdict == Some(UncertainInterrupted) <==>
                !d.torn && EndsIn(d, {Prepared, Acknowledged, Fenced, Capturing, Captured, RestoreVerified}))
            && (verdict == Some(CertifiedVerified) <==>
                && EndsIn(d, {Certified}) && d.staging.Some? && digest(d.staging.value).Some?
                && d.expectation.Some? && d.expectation.value.Expect?
                && HasCaptured(d.chain, d.expectation.value.manifest, digest(d.staging.value).value))
            && (verdict == Some(CertifiedArtifactChanged) ==> EndsIn(d, {Certified}))
  {
    hide ReadDisk, Built;
    ReadIsChain(l, d);
    if EndsIn(d, {Certified}) {
      assert Closed(d.chain);
      CapturedOnce(l, d.chain);
      if d.staging.Some? && digest(d.staging.value).Some? && d.expectation.Some? && d.expectation.value.Expect? {
        var manifest, artifact := d.expectation.value.manifest, digest(d.staging.value).value;
        if HasCaptured(d.chain, manifest, artifact) { CapturedIsFound(l, d.chain, manifest, artifact); }
      }
    }
  }

  /** A certified chain has a CAPTURED record, and it is the one that is found. */
  lemma CapturedOnce(l: Log, rs: seq<Record>)
    requires Built(l.h, l.node, l.txn, rs) && rs != [] && End(rs).body.state.Certified?
    ensures FindCaptured(rs).Some?
    ensures forall m, a :: FindCaptured(rs) == Some(Data(Some(m), Some(a))) ==> HasCaptured(rs, m, a)
  {
    assert Holds(rs, Certified) by { assert rs[|rs| - 1].body.state == Certified; }
    PathShape(l.h, l.node, l.txn, rs);
    FindOnly(rs, 4);
  }

  /** A transaction that reached CAPTURING is never reported as refused, whatever others do afterwards: a refusal
      promises that nothing was copied. */
  lemma CapturingIsNoRefusal(l: Log, digest: Tree -> Option<string>, d: Disk, later: seq<Event>)
    requires Good(l, d) && Holds(d.chain, Capturing)
    ensures Reconcile(l, digest, ApplyAll(l, d, later)) != Some(WasRefused)
  {
    hide Reconcile;
    var d' := ApplyAll(l, d, later);
    OthersKeep(l, d, later);
    HoldsStays(d.chain, d'.chain, Capturing);
    ReconcilesExactly(l, digest, d');
    assert EndsIn(d', {RefusedState}) ==> Holds(d'.chain, RefusedState);
    PathShape(l.h, l.node, l.txn, d'.chain);
  }

  // ---------------------------------------------------------------- the protocol's own writes

  /** What happens to one of the protocol's writes. */
  datatype Fault = Works | FailsBefore | StopsHalfway | FailsAfter

  /** By call number: what others do meanwhile, and how each write ends. */
  datatype Script = Script(others: nat -> seq<Event>, fault: nat -> Fault)

  /** Nobody else ever touches the destination. */
  ghost predicate Undisturbed(script: Script) {
    forall n :: Elsewhere(script.others(n))
  }

  /** Nobody else acts, and every write works. */
  ghost predicate Calm(script: Script) {
    forall n :: script.others(n) == [] && script.fault(n) == Works
  }

  lemma CalmIsUndisturbed(script: Script)
    requires Calm(script)
    ensures Undisturbed(script)
  {
  }

  /** The log takes a record in this state. */
  predicate Takes(d: Disk, state: State) {
    !d.torn && MayAppend(d.chain, state) && (d.chain == [] ==> !d.made)
  }

  /** What was promised before the copy began, and what CAPTURED recorded of it. */
  datatype Memory = Memory(expectation: Option<Expectation>, captured: Option<(string, string)>)

  ghost predicate Remembers(d: Disk, m: Memory) {
    && (m.expectation.Some? ==> d.expectation == m.expectation)
    && (m.captured.Some? ==> HasCaptured(d.chain, m.captured.value.0, m.captured.value.1))
  }

  lemma KeepsMemory(origin: Disk, d: Disk, d': Disk, m: Memory)
    requires Keeps(origin, d) && Keeps(d, d') && Remembers(d, m)
    ensures Keeps(origin, d') && Remembers(d', m)
  {
    if m.captured.Some? { CapturedStays(d.chain, d'.chain, m.captured.value.0, m.captured.value.1); }
  }

  lemma CapturedLast(rs: seq<Record>, manifest: string, artifact: string)
    requires rs != [] && End(rs).body.state.Captured? && End(rs).body.data == Data(Some(manifest), Some(artifact))
    ensures HasCaptured(rs, manifest, artifact)
  {
  }

  lemma CapturedStays(rs: seq<Record>, rs': seq<Record>, manifest: string, artifact: string)
    requires rs <= rs' && HasCaptured(rs, manifest, artifact)
    ensures HasCaptured(rs', manifest, artifact)
  {
    var k :| 0 <= k < |rs| && rs[k].body.state.Captured? && rs[k].body.data == Data(Some(manifest), Some(artifact));
    assert rs'[k] == rs[k];
  }

  class Evidence {
    const l: Log
    const script: Script
    const holder: string
    /** The disk as the protocol found it. */
    ghost const origin: Disk
    var disk: Disk
    var clock: nat
    ghost var memory: Memory

    constructor (l: Log, script: Script, holder: string, disk: Disk)
      requires Good(l, disk)
      ensures Valid() && this.l == l && this.script == script && this.disk == disk && origin == disk
      ensures memory == Memory(None, None)
    {
      this.l, this.script, this.holder, this.disk, this.origin := l, script, holder, disk, disk;
      clock, memory := 0, Memory(None, None);
    }

    /** History is kept, and so is what was promised. */
    ghost predicate Valid()
      reads this
    {
      && Good(l, disk) && Keeps(origin, disk) && Remembers(disk, memory)
      && (memory.expectation.Some? ==> memory.expectation.value.Expect?)
    }

    /** The log's last record is in this state. */
    predicate Ends(state: State)
      reads this
    {
      disk.chain != [] && End(disk.chain).body.state == state
    }

    /** An await: others act. */
    method Await()
      requires Valid()
      modifies this`disk, this`clock
      ensures Valid() && Keeps(old(disk), disk) && (Closed(old(disk).chain) ==> disk.chain == old(disk).chain)
      ensures Undisturbed(script) ==> disk.staging == old(disk).staging
      ensures Calm(script) ==> disk == old(disk)
    {
      hide Good, HasCaptured;
      if Undisturbed(script) { StagingStays(l, disk, script.others(clock)); }
      OthersKeep(l, disk, script.others(clock));
      KeepsMemory(origin, disk, ApplyAll(l, disk, script.others(clock)), memory);
      disk := ApplyAll(l, disk, script.others(clock));
      clock := clock + 1;
    }

    /** `log.append` among other appenders; false where it throws, which does not mean nothing was written. */
    method Append(state: State, data: Data) returns (ok: bool)
      requires Valid()
      modifies this`disk, this`clock
      ensures Valid() && Keeps(old(disk), disk)
      ensures ok ==> Ends(state) && End(disk.chain).body.data == data
      ensures ok && state.Prepared? ==> origin.chain == []
      ensures Undisturbed(script) ==> disk.staging == old(disk).staging
      ensures Calm(script) && Takes(old(disk), state) ==> ok && disk == old(disk).(made := true, chain := disk.chain)
    {
      hide Built, HasCaptured, ReadDisk;
      Await();
      ReadIsChain(l, disk);
      var existing := ReadDisk(l, disk);
      if existing.None? || !MayAppend(existing.value, state) { return false; }
      var rs := existing.value;
      if rs == [] {
        if disk.made { return false; }
        disk := disk.(made := true);
      }
      Await();
      if disk.torn || |disk.chain| > |rs| { return false; }
      assert disk.chain == rs;
      var fault := script.fault(clock);
      clock := clock + 1;
      if fault.FailsBefore? { return false; }
      if fault.StopsHalfway? {
        disk := disk.(torn := true);
        return false;
      }
      Write(state, data);
      ok := fault.Works?;
    }

    /** The record lands in the slot it was planned for. */
    method Write(state: State, data: Data)
      requires Valid() && MayAppend(disk.chain, state) && disk.made && !disk.torn
      modifies this`disk
      ensures Valid() && Keeps(old(disk), disk) && Ends(state) && End(disk.chain).body.data == data
      ensures Front(disk.chain) == old(disk).chain && disk == old(disk).(chain := disk.chain)
    {
      hide Built, HasCaptured;
      var record := NextRecord(l.h, l.node, l.txn, disk.chain, state, "", holder, data);
      NextRecordBuilds(l.h, l.node, l.txn, disk.chain, state, "", holder, data);
      var grown := disk.(chain := disk.chain + [record]);
      KeepsMemory(origin, disk, grown, memory);
      disk := grown;
    }

    /** CAPTURED, with the digests of what was copied. */
    method AppendCaptured(manifest: string, artifact: string) returns (ok: bool)
      requires Valid()
      modifies this`disk, this`clock, this`memory
      ensures Valid() && Keeps(old(disk), disk) && memory.expectation == old(memory).expectation
      ensures ok ==> memory.captured == Some((manifest, artifact)) && Ends(Captured)
      ensures Calm(script) && Takes(old(disk), Captured) ==> ok && disk == old(disk).(made := true, chain := disk.chain)
      ensures Undisturbed(script) ==> disk.staging == old(disk).staging
    {
      hide Good, HasCaptured;
      ok := Append(Captured, Data(Some(manifest), Some(artifact)));
      if ok {
        CapturedLast(disk.chain, manifest, artifact);
        memory := memory.(captured := Some((manifest, artifact)));
      }
    }

    /** `expectations.record`: exclusive creation. */
    method StoreExpectation(manifest: string, generation: string) returns (ok: bool)
      requires Valid() && memory.expectation.None?
      modifies this`disk, this`clock, this`memory
      ensures Valid() && Keeps(old(disk), disk) && memory.captured == old(memory).captured
      ensures memory.expectation == if ok then Some(Expect(manifest, generation)) else None
      ensures Calm(script) && old(disk).expectation.None? ==>
        ok && disk == old(disk).(expectation := Some(Expect(manifest, generation)))
    {
      hide HasCaptured, Built;
      Await();
      var fault := script.fault(clock);
      clock := clock + 1;
      if disk.expectation.Some? || fault.FailsBefore? { return false; }
      var stored := if fault.StopsHalfway? then Corrupt else Expect(manifest, generation);
      disk := disk.(expectation := Some(stored));
      if fault.Works? { memory := memory.(expectation := Some(stored)); }
      ok := fault.Works?;
    }

    /** The copy creates the transaction directory. */
    method Fill(content: Tree)
      requires Valid()
      modifies this`disk
      ensures Valid() && disk == old(disk).(staging := Some(content))
    {
      disk := disk.(staging := Some(content));
    }
  }

  lemma HoldsStays(rs: seq<Record>, rs': seq<Record>, state: State)
    requires rs <= rs' && Holds(rs, state)
    ensures Holds(rs', state)
  {
    var i :| 0 <= i < |rs| && rs[i].body.state == state;
    assert rs'[i].body.state == state;
  }
}
