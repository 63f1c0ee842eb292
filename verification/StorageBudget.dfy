/** Space admission: the storage plan of a manifest, the free space it demands, and why a capture that was admitted
    never eats into the reserve. Sizes are whole bytes, allocated in blocks; nobody else writes to the volume
    meanwhile. */
module StorageBudget {
  import opened FileTree
  import W = CoverageWalk
  import opened Coverage
  import opened Allocation
  import BackupCopy

  const RESERVE: nat := 2 * 1024 * 1024 * 1024
  const STAGING: nat := 128 * 1024 * 1024
  const SLACK: nat := 64 * 1024
  const MAX_SAFE: nat := 9007199254740991

  datatype Space = Space(candidate: int, dependency: int, retained: int, backup: int, restore: int, staging: int,
                   reserve: int)

  function Payload(records: seq<Record>): nat {
    if records == [] then 0 else Payload(records[..|records| - 1]) + Occupies(records[|records| - 1].item)
  }

  function Budget(payload: nat, json: nat, candidate: int): Space {
    Space(candidate, 0, 0, payload + Block(json) + SLACK, payload, STAGING, RESERVE)
  }

  /** recoveryStoragePlan: only a manifest without problems has a known size. `json` is the length of its text. */
  function Plan(m: Manifest, json: nat): Option<Space> {
    if m.problems != [] then None else Some(Budget(Payload(m.records), json, 0))
  }

  /** recoveryStorageEstimate: a tenth more, from any manifest. */
  function Estimate(m: Manifest, json: nat, candidate: int): Space {
    Budget((Payload(m.records) * 11 + 9) / 10, json, candidate)
  }

  predicate SafeSize(v: int) {
    0 <= v <= MAX_SAFE
  }

  /** requiredFreeBytes: None where it throws. Retained data is already stored and needs no free space. */
  function Required(p: Space): (r: Option<nat>)
    ensures r.Some? <==>
            && p.candidate >= 0 && p.dependency >= 0 && 0 <= p.retained <= 9007199254740991
            && p.backup >= 0 && p.restore >= 0 && p.staging >= 0 && p.reserve >= 2147483648
            && p.candidate + p.dependency + p.backup + p.restore + p.staging + p.reserve <= 9007199254740991
    ensures r.Some? ==> r.value - p.reserve - p.staging - p.restore - p.backup == p.candidate + p.dependency
    ensures r.Some? ==> p.candidate >= 0 && p.dependency >= 0 && p.reserve >= RESERVE
  {
    if !(&& SafeSize(p.candidate) && SafeSize(p.dependency) && SafeSize(p.retained) && SafeSize(p.backup)
         && SafeSize(p.restore) && SafeSize(p.staging) && SafeSize(p.reserve)) || p.reserve < RESERVE
    then None
    else
      var total := p.candidate + p.dependency + p.backup + p.restore + p.staging + p.reserve;
      if total > MAX_SAFE then None else Some(total)
  }

  /** The budget check of the capture: the approved figures cover the plan of the manifest taken under the fence. */
  predicate Covers(space: Space, plan: Space) {
    space.backup >= plan.backup && space.restore >= plan.restore && space.staging >= plan.staging
  }

  /** Budget and capacity both pass. */
  predicate Admitted(m: Manifest, json: nat, space: Space, free: nat) {
    && Plan(m, json).Some? && Covers(space, Plan(m, json).value)
    && Required(space).Some? && free >= Required(space).value
  }

  // ---------------------------------------------------------------- the plan in plain terms

  /** Recorded roots: what is planned for and not made again. */
  function RootRecords(records: seq<Record>): nat {
    if records == [] then 0
    else
      var r := records[|records| - 1].item;
      RootRecords(records[..|records| - 1]) + if r.Directory? && r.at == [] then 1 else 0
  }

  /** The payload is what the three passes write and a block for each recorded root, neither more nor less. */
  lemma {:induction false} PayloadIs(records: seq<Record>)
    ensures Payload(records) == Sum(PassWrites(records, 0)) + Sum(PassWrites(records, 1)) + Sum(PassWrites(records, 2))
                                + 4096 * RootRecords(records)
  {
    if records != [] {
      var n := |records| - 1;
      assert records[..n + 1] == records;
      PayloadIs(records[..n]);
      PassWritesNext(records, 0, n);
      PassWritesNext(records, 1, n);
      PassWritesNext(records, 2, n);
    }
  }

  /** The plan and the estimate, figure by figure; the estimate's payload is eleven tenths, rounded up. */
  lemma PlanIs(m: Manifest, json: nat, candidate: int)
    ensures Plan(m, json).Some? <==> m.problems == []
    ensures m.problems == [] ==>
      Plan(m, json).value == Space(0, 0, 0, Payload(m.records) + Block(json) + 65536, Payload(m.records), 134217728,
                                   2147483648)
    ensures var e := Estimate(m, json, candidate);
            && e.restore * 10 >= Payload(m.records) * 11 > (e.restore - 1) * 10
            && e == Space(candidate, 0, 0, e.restore + Block(json) + 65536, e.restore, 134217728, 2147483648)
  {
  }

  // ---------------------------------------------------------------- what a capture allocates, write by write

  /** The copy, its manifest file, and then the restore check. */
  function CaptureWrites(records: seq<Record>, json: nat): seq<nat> {
    CopyWrites(records) + [Block(json)] + CopyWrites(records)
  }

  lemma {:induction false} PassesAreWhole(records: seq<Record>)
    ensures Sum(PassWrites(records, 0)) + Sum(PassWrites(records, 1)) + Sum(PassWrites(records, 2)) <= Payload(records)
  {
    if records != [] {
      var n := |records| - 1;
      assert records[..n + 1] == records;
      PassesAreWhole(records[..n]);
      PassWritesNext(records, 0, n);
      PassWritesNext(records, 1, n);
      PassWritesNext(records, 2, n);
    }
  }

  lemma CopyTakes(records: seq<Record>)
    ensures Sum(CopyWrites(records)) <= Payload(records) + 4 * BLOCK
  {
    CopyWritesSum(records);
    PassesAreWhole(records);
  }

  /** RESERVE IS NEVER EATEN. Through every write of an admitted capture and of its restore check, what is left stays
      at or above the reserve and what the candidate and its dependencies need besides. */
  lemma ReserveIsKept(m: Manifest, json: nat, space: Space, free: nat, n: nat)
    requires Admitted(m, json, space, free) && n <= |CaptureWrites(m.records, json)|
    ensures free - Sum(CaptureWrites(m.records, json)[..n]) >= RESERVE + space.candidate + space.dependency >= RESERVE
  {
    hide Payload, CopyWrites, Block, Required;
    var writes := CaptureWrites(m.records, json);
    assert writes == writes[..n] + writes[n..];
    SumConcat(writes[..n], writes[n..]);
    CaptureTakes(m.records, json);
  }

  lemma CaptureTakes(records: seq<Record>, json: nat)
    ensures var plan := Budget(Payload(records), json, 0);
            Sum(CaptureWrites(records, json)) <= plan.backup + plan.restore + plan.staging
  {
    hide Payload, CopyWrites, Block;
    CopyTakes(records);
    SumConcat(CopyWrites(records), [Block(json)]);
    SumConcat(CopyWrites(records) + [Block(json)], CopyWrites(records));
    assert Sum([Block(json)]) == Block(json);
  }

  /** The same for what the copy really leaves on the volume: its nodes and its transaction directory occupy exactly
      what was planned for it, and leave the reserve. */
  method CopyLeavesReserve(h: W.Host, m: Manifest, source: Roots, device: nat, json: nat, space: Space, free: nat)
    returns (copy: Option<Roots>)
    requires Admitted(m, json, space, free) && BackupCopy.Copyable(m.records, source)
    ensures copy.Some? <==> BackupCopy.Fillable(m.records)
    ensures copy.Some? ==> BLOCK + BackupCopy.Total(copy.value) == Sum(CopyWrites(m.records))
    ensures copy.Some? ==> free - (BLOCK + BackupCopy.Total(copy.value)) >= RESERVE
  {
    hide Payload, CopyWrites, Block, Required, Admitted, BackupCopy.Copyable, BackupCopy.Fillable, BackupCopy.Total;
    var records := m.records;
    var writes := CaptureWrites(records, json);
    assert writes[..|CopyWrites(records)|] == CopyWrites(records);
    ReserveIsKept(m, json, space, free, |CopyWrites(records)|);
    copy := BackupCopy.Materialize(h, records, source, device);
  }

  /** The estimate made before the fence covers the plan of the same manifest, and of any whose payload has grown by
      no more than a tenth and whose text fits the same blocks. */
  lemma EstimateDominates(before: Manifest, json: nat, candidate: int, fenced: Manifest, json': nat)
    requires fenced.problems == [] && Block(json') <= Block(json)
    requires 10 * Payload(fenced.records) <= 11 * Payload(before.records)
    ensures Covers(Estimate(before, json, candidate), Plan(fenced, json').value)
  {
  }
}
