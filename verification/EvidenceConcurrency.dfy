/** Any number of appenders on one transaction's evidence directory, interleaved between their file-system calls,
    each free to stop for good at any point. */
module EvidenceConcurrency {
  import opened FileTree
  import opened EvidenceLog

  /** Where an appender stands, with the chain it read and the record it will write: about to make the directory,
      about to create its slot, or holding a created slot it has not finished writing. */
  datatype Phase = Idle
    | Planned(record: Record)
    | Ready(basis: seq<Record>, record: Record)
    | Writing(basis: seq<Record>, record: Record)

  datatype System = System(directory: Directory, phases: map<nat, Phase>)

  datatype Step =
    | Begin(pid: nat, state: State, at: string, holder: string, data: Data)
    | MakeDirectory(pid: nat)
    | CreateSlot(pid: nat)
    | FinishSlot(pid: nat)
    | Stop(pid: nat)

  datatype Log = Log(h: Hash, node: string, txn: string)

  const EMPTY := System(Absent, map[])

  function PhaseOf(sys: System, pid: nat): Phase {
    if pid in sys.phases then sys.phases[pid] else Idle
  }

  function With(sys: System, pid: nat, phase: Phase): System {
    sys.(phases := sys.phases[pid := phase])
  }

  /** One file-system call of one appender. A refused call ends that append. */
  function Next(l: Log, sys: System, step: Step): System {
    var phase := PhaseOf(sys, step.pid);
    match step
    case Begin(pid, state, at, holder, data) =>
      var existing := Read(l.h, l.node, l.txn, sys.directory);
      if !phase.Idle? || existing.None? || !MayAppend(existing.value, state) then sys
      else
        var record := NextRecord(l.h, l.node, l.txn, existing.value, state, at, holder, data);
        With(sys, pid, if existing.value == [] then Planned(record) else Ready(existing.value, record))
    case MakeDirectory(pid) =>
      if !phase.Planned? then sys
      else if !sys.directory.Absent? then With(sys, pid, Idle)
      else With(sys.(directory := Numbered([])), pid, Ready([], phase.record))
    case CreateSlot(pid) =>
      if !phase.Ready? then sys
      else if !sys.directory.Numbered? || phase.record.body.sequence < |sys.directory.slots| then With(sys, pid, Idle)
      else if phase.record.body.sequence > |sys.directory.slots| then With(sys.(directory := Broken), pid, Idle)
      else With(sys.(directory := Numbered(sys.directory.slots + [Torn])), pid, Writing(phase.basis, phase.record))
    case FinishSlot(pid) =>
      if !phase.Writing? || !sys.directory.Numbered? || phase.record.body.sequence >= |sys.directory.slots| then sys
      else With(sys.(directory := Numbered(sys.directory.slots[phase.record.body.sequence := Full(phase.record)])), pid,
          Idle)
    case Stop(pid) => With(sys, pid, Idle)
  }

  function Run(l: Log, sys: System, steps: seq<Step>): System
    decreases |steps|
  {
    if steps == [] then sys else Run(l, Next(l, sys, steps[0]), steps[1..])
  }

  // ---------------------------------------------------------------- the invariant

  /** The slots hold `settled`, and after it at most one slot that is still torn. */
  predicate HoldsUpTo(slots: seq<Slot>, settled: seq<Record>) {
    && |settled| <= |slots| <= |settled| + 1
    && Stores(slots[..|settled|], settled)
    && (|slots| == |settled| + 1 ==> slots[|settled|] == Torn)
  }

  predicate Extension(l: Log, basis: seq<Record>, r: Record) {
    Links(l.h, l.node, l.txn, basis, r) && (basis == [] ==> r.body.state.Prepared?)
  }

  ghost predicate PhaseOk(l: Log, d: Directory, settled: seq<Record>, phase: Phase) {
    match phase
    case Idle => true
    case Planned(record) => Extension(l, [], record)
    case Ready(basis, record) => d.Numbered? && basis <= settled && Extension(l, basis, record)
    case Writing(basis, record) =>
      d.Numbered? && basis == settled && |d.slots| == |settled| + 1 && Extension(l, basis, record)
  }

  /** `settled` is the chain built so far; the torn slot, if any, belongs to at most one appender, which extends it, so
      there is none after a terminal record. */
  ghost predicate Inv(l: Log, sys: System, settled: seq<Record>) {
    && Built(l.h, l.node, l.txn, settled)
    && (match sys.directory
        case Absent => settled == []
        case Numbered(slots) => HoldsUpTo(slots, settled) && (Closed(settled) ==> |slots| == |settled|)
        case Broken => false)
    && (forall pid :: pid in sys.phases ==> PhaseOk(l, sys.directory, settled, sys.phases[pid]))
    && (forall p, q :: p in sys.phases && q in sys.phases && sys.phases[p].Writing? && sys.phases[q].Writing? ==>
        p == q)
  }

  lemma TornIsNotStored(slots: seq<Slot>, rs: seq<Record>, i: nat)
    requires i < |slots| && slots[i].Torn?
    ensures !Stores(slots, rs)
  {
    assert |slots| == |rs| ==> slots[i] != Full(rs[i]);
  }

  /** What a reader sees: the settled chain, or a refusal while a slot is torn. */
  lemma ReadSeesSettled(l: Log, sys: System, settled: seq<Record>)
    requires Inv(l, sys, settled)
    ensures var r := Read(l.h, l.node, l.txn, sys.directory);
            if sys.directory.Numbered? && |sys.directory.slots| > |settled| then r == None else r == Some(settled)
  {
    if sys.directory.Numbered? {
      var slots := sys.directory.slots;
      if |slots| > |settled| {
        var r := Read(l.h, l.node, l.txn, sys.directory);
        if r.Some? {
          TornIsNotStored(slots, r.value, |settled|);
          ReadIsExact(l.h, l.node, l.txn, sys.directory, r.value);
        }
      } else {
        assert slots[..|settled|] == slots;
        ReadIsExact(l.h, l.node, l.txn, sys.directory, settled);
      }
    }
  }

  lemma BeginKeeps(l: Log, sys: System, settled: seq<Record>, step: Step)
    requires Inv(l, sys, settled) && step.Begin?
    ensures Inv(l, Next(l, sys, step), settled)
  {
    ReadSeesSettled(l, sys, settled);
  }

  lemma MakeDirectoryKeeps(l: Log, sys: System, settled: seq<Record>, step: Step)
    requires Inv(l, sys, settled) && step.MakeDirectory?
    ensures Inv(l, Next(l, sys, step), settled)
  {
  }

  /** Exclusive creation: an appender whose slot is the next one read the whole settled chain, and nothing is torn. */
  lemma CreateSlotKeeps(l: Log, sys: System, settled: seq<Record>, step: Step)
    requires Inv(l, sys, settled) && step.CreateSlot?
    ensures Inv(l, Next(l, sys, step), settled)
  {
    var phase := PhaseOf(sys, step.pid);
    if phase.Ready? && sys.directory.Numbered? && phase.record.body.sequence == |sys.directory.slots| {
      var slots := sys.directory.slots;
      assert |phase.basis| == |slots| && |settled| == |slots|;
      assert phase.basis == settled;
      assert (slots + [Torn])[..|settled|] == slots[..|settled|];
    }
  }

  lemma ExtensionBuilds(l: Log, settled: seq<Record>, r: Record)
    requires Built(l.h, l.node, l.txn, settled) && Extension(l, settled, r)
    ensures Built(l.h, l.node, l.txn, settled + [r]) && r.body.sequence == |settled|
  {
    ChainExtends(l.h, l.node, l.txn, settled, r);
  }

  lemma SlotFilled(slots: seq<Slot>, settled: seq<Record>, r: Record)
    requires HoldsUpTo(slots, settled) && |slots| == |settled| + 1
    ensures HoldsUpTo(slots[|settled| := Full(r)], settled + [r])
  {
    var slots', settled' := slots[|settled| := Full(r)], settled + [r];
    assert slots'[..|settled'|] == slots';
    forall i | 0 <= i < |settled'| ensures slots'[i] == Full(settled'[i]) {
      if i < |settled| { assert slots[..|settled|][i] == Full(settled[i]); }
    }
  }

  lemma FinishSlotKeeps(l: Log, sys: System, settled: seq<Record>, step: Step) returns (settled': seq<Record>)
    requires Inv(l, sys, settled) && step.FinishSlot?
    ensures Inv(l, Next(l, sys, step), settled') && settled <= settled'
  {
    hide Built, Extension;
    var phase := PhaseOf(sys, step.pid);
    settled' := settled;
    if phase.Writing? {
      var slots, r := sys.directory.slots, phase.record;
      settled' := settled + [r];
      ExtensionBuilds(l, settled, r);
      SlotFilled(slots, settled, r);
    }
  }

  lemma StepKeeps(l: Log, sys: System, settled: seq<Record>, step: Step) returns (settled': seq<Record>)
    requires Inv(l, sys, settled)
    ensures Inv(l, Next(l, sys, step), settled') && settled <= settled'
  {
    settled' := settled;
    match step {
      case Begin(_, _, _, _, _) => BeginKeeps(l, sys, settled, step);
      case MakeDirectory(_) => MakeDirectoryKeeps(l, sys, settled, step);
      case CreateSlot(_) => CreateSlotKeeps(l, sys, settled, step);
      case FinishSlot(_) => settled' := FinishSlotKeeps(l, sys, settled, step);
      case Stop(_) =>
    }
  }

  lemma {:induction false} RunKeeps(l: Log, sys: System, settled: seq<Record>, steps: seq<Step>)
    returns (settled': seq<Record>)
    requires Inv(l, sys, settled)
    ensures Inv(l, Run(l, sys, steps), settled') && settled <= settled'
    decreases |steps|
  {
    settled' := settled;
    if steps != [] {
      var mid := StepKeeps(l, sys, settled, steps[0]);
      settled' := RunKeeps(l, Next(l, sys, steps[0]), mid, steps[1..]);
    }
  }

  lemma BuiltSettled(l: Log, sys: System, settled: seq<Record>)
    requires Inv(l, sys, settled)
    ensures Built(l.h, l.node, l.txn, settled)
    ensures Closed(settled) && sys.directory.Numbered? ==> |sys.directory.slots| == |settled|
  {
  }

  lemma EmptyIsFine(l: Log)
    ensures Inv(l, EMPTY, [])
  {
  }

  lemma RefusesAppend(l: Log, sys: System, step: Step)
    requires step.Begin? && Read(l.h, l.node, l.txn, sys.directory).None?
    ensures Next(l, sys, step) == sys
  {
  }

  /** EVIDENCE UNDER CONCURRENCY AND CRASHES. Take any run, then any continuation of it. No written record is ever
      changed; the directory never breaks; each later reading is a built chain extending every earlier reading, or a
      refusal, and while reading is refused so is every new append; a chain read closed reads the same for good. */
  lemma EvidenceIsAppendOnly(l: Log, before: seq<Step>, after: seq<Step>)
    ensures var early := Run(l, EMPTY, before); var late := Run(l, early, after);
            && !late.directory.Broken?
            && (early.directory.Numbered? ==>
                late.directory.Numbered?
                && |early.directory.slots| <= |late.directory.slots|)
            && (early.directory.Numbered? ==>
                  forall i :: 0 <= i < |early.directory.slots| && early.directory.slots[i].Full? ==>
                    late.directory.slots[i] == early.directory.slots[i])
            && var a, b := Read(l.h, l.node, l.txn, early.directory), Read(l.h, l.node, l.txn, late.directory);
               && (b.Some? ==> Built(l.h, l.node, l.txn, b.value))
               && (a.Some? && b.Some? ==> a.value <= b.value)
               && (a.Some? && Closed(a.value) ==> b == a)
               && (b.None? ==> forall step: Step :: step.Begin? ==> Next(l, late, step) == late)
  {
    hide Run, Next, Read, Built;
    var early := Run(l, EMPTY, before);
    EmptyIsFine(l);
    var settled := RunKeeps(l, EMPTY, [], before);
    var late := Run(l, early, after);
    var settled' := RunKeeps(l, early, settled, after);
    ReadSeesSettled(l, early, settled);
    ReadSeesSettled(l, late, settled');
    forall step: Step | step.Begin? && Read(l.h, l.node, l.txn, late.directory).None?
      ensures Next(l, late, step) == late
    {
      RefusesAppend(l, late, step);
    }
    BuiltSettled(l, late, settled');
    if Closed(settled) { ClosedIsFinal(l.h, l.node, l.txn, settled, settled'); }
    if early.directory.Numbered? {
      DirectoryStays(l, early, settled, after);
      forall i | 0 <= i < |early.directory.slots| && early.directory.slots[i].Full?
        ensures late.directory.slots[i] == early.directory.slots[i]
      {
        assert early.directory.slots[..|settled|][i] == early.directory.slots[i];
        assert late.directory.slots[..|settled'|][i] == late.directory.slots[i];
        assert settled'[i] == settled[i];
      }
    }
  }

  /** A directory once made stays, and its slots are never removed. */
  lemma {:induction false} DirectoryStays(l: Log, sys: System, settled: seq<Record>, steps: seq<Step>)
    requires Inv(l, sys, settled) && sys.directory.Numbered?
    ensures Run(l, sys, steps).directory.Numbered?
    ensures |sys.directory.slots| <= |Run(l, sys, steps).directory.slots|
    decreases |steps|
  {
    if steps != [] {
      var mid := StepKeeps(l, sys, settled, steps[0]);
      DirectoryStays(l, Next(l, sys, steps[0]), mid, steps[1..]);
    }
  }

  // ---------------------------------------------------------------- an append that is left alone

  /** AN APPEND SUCCEEDS WHEN LEFT ALONE. From any settled state without a torn slot, the calls of one append by an idle
      process, with nobody in between, add exactly its record, if its state may follow and the transaction has records
      already or has no directory yet; and otherwise they leave the directory as it is. */
  lemma {:induction false} AloneAppends(l: Log, sys: System, settled: seq<Record>, pid: nat, state: State, at: string,
                                        holder: string, data: Data)
    requires Inv(l, sys, settled) && PhaseOf(sys, pid).Idle?
    requires sys.directory.Numbered? ==> |sys.directory.slots| == |settled|
    ensures var after := Run(l, sys, [Begin(pid, state, at, holder, data), MakeDirectory(pid), CreateSlot(pid),
                                      FinishSlot(pid)]);
            && PhaseOf(after, pid).Idle?
            && if MayAppend(settled, state) && (settled != [] || sys.directory.Absent?)
               then && after.directory.Numbered?
                    && Stores(after.directory.slots,
                              settled + [NextRecord(l.h, l.node, l.txn, settled, state, at, holder, data)])
               else after.directory == sys.directory
  {
    hide Inv, MayAppend, Read;
    ReadSeesSettled(l, sys, settled);
    DirectoryIs(l, sys, settled);
    var begin := Begin(pid, state, at, holder, data);
    FourSteps(l, sys, begin, MakeDirectory(pid), CreateSlot(pid), FinishSlot(pid));
  }

  lemma DirectoryIs(l: Log, sys: System, settled: seq<Record>)
    requires Inv(l, sys, settled) && (sys.directory.Numbered? ==> |sys.directory.slots| == |settled|)
    ensures sys.directory.Absent? ==> settled == []
    ensures !sys.directory.Absent? ==> sys.directory.Numbered? && Stores(sys.directory.slots, settled)
  {
    if sys.directory.Numbered? { assert sys.directory.slots[..|settled|] == sys.directory.slots; }
  }

  lemma FourSteps(l: Log, sys: System, a: Step, b: Step, c: Step, d: Step)
    ensures Run(l, sys, [a, b, c, d]) == Next(l, Next(l, Next(l, Next(l, sys, a), b), c), d)
  {
    hide Next;
    var one, two, three := Next(l, sys, a), Next(l, Next(l, sys, a), b), Next(l, Next(l, Next(l, sys, a), b), c);
    assert [a, b, c, d][1..] == [b, c, d] && [b, c, d][1..] == [c, d] && [c, d][1..] == [d];
    assert Run(l, three, [d]) == Next(l, three, d) by { assert [d][1..] == []; }
    assert Run(l, two, [c, d]) == Run(l, three, [d]);
    assert Run(l, one, [b, c, d]) == Run(l, two, [c, d]);
  }
}
