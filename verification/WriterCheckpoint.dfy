/** The writer checkpoint, holder side: admission is closed and drained in every participant, their acknowledgements
    are collected, the expectation is stored, the copy is made, and every participant attests once more. Replies may
    be lost, late or forged at any point, participants go on moving between any two calls, and every write may fail. */
module WriterCheckpoint {
  import opened FileTree
  import opened EvidenceLog
  import opened TransactionStore
  import opened CheckpointParticipant

  // ---------------------------------------------------------------- moments

  type Moment = seq<Participant>

  ghost predicate Ordered(history: seq<Moment>, n: nat) {
    && (forall t :: 0 <= t < |history| ==> |history[t]| == n)
    && (forall t, k :: 0 <= t < |history| && 0 <= k < n ==> Sane(history[t][k]))
    && (forall t, u, k :: 0 <= t <= u < |history| && 0 <= k < n ==> Later(history[t][k], history[u][k]))
  }

  lemma OrderedExtends(history: seq<Moment>, n: nat, next: Moment)
    requires Ordered(history, n) && history != [] && |next| == n
    requires forall k :: 0 <= k < n ==> Sane(next[k]) && Later(history[|history| - 1][k], next[k])
    ensures Ordered(history + [next], n)
  {
    hide Later, Sane;
    var grown, last := history + [next], |history| - 1;
    forall t, u, k | 0 <= t <= u < |grown| && 0 <= k < n ensures Later(grown[t][k], grown[u][k]) {
      if u == |history| {
        if t < u { LaterIsTransitive(history[t][k], history[last][k], next[k]); } else { LaterIsReflexive(next[k]); }
      }
    }
  }

  lemma LaterIsReflexive(p: Participant)
    ensures Later(p, p)
  {
  }

  /** Admission is closed for this transaction. */
  predicate HeldFor(p: Participant, txn: string) {
    p.hold.Some? && p.hold.value.txn == txn
  }

  /** Held since it closed admission, and without a fault from then on. */
  predicate FaultlessAt(m: Moment, k: nat, txn: string) {
    k < |m| && m[k].hold == Some(Hold(txn, m[k].faults))
  }

  /** At these moments these participants were held for the transaction and matched their acknowledgements. */
  ghost predicate Attested(history: seq<Moment>, n: nat, txn: string, acks: seq<Ack>, at: seq<nat>) {
    && |acks| == |at| <= n
    && (forall k :: 0 <= k < |at| ==>
          && at[k] < |history| && |history[at[k]]| == n && Matches(history[at[k]][k], acks[k])
          && HeldFor(history[at[k]][k], txn))
  }

  lemma AttestedStays(history: seq<Moment>, n: nat, txn: string, acks: seq<Ack>, at: seq<nat>, next: Moment)
    requires Attested(history, n, txn, acks, at)
    ensures Attested(history + [next], n, txn, acks, at)
  {
    forall k | 0 <= k < |at| ensures (history + [next])[at[k]] == history[at[k]] {}
  }

  /** From its acknowledgement to its last attestation, each participant was idle in the same process at the same
      generation, and wrote nothing. */
  ghost predicate Quiet(history: seq<Moment>, n: nat, acks: seq<Ack>, from: seq<nat>, upto: seq<nat>) {
    && |acks| == |from| == |upto| == n
    && (forall k :: 0 <= k < n ==> from[k] < |history| && upto[k] < |history|)
    && (forall k, t :: 0 <= k < n && from[k] <= t <= upto[k] ==> QuietAt(history, n, acks, from, k, t))
  }

  predicate QuietAt(history: seq<Moment>, n: nat, acks: seq<Ack>, from: seq<nat>, k: nat, t: nat)
    requires |acks| == |from| == n && k < n && from[k] < |history| && t < |history|
  {
    && |history[t]| == |history[from[k]]| == n
    && Matches(history[t][k], acks[k]) && history[t][k].writes == history[from[k]][k].writes
  }

  /** Acknowledgements, then the inspection, then the copy from its first to its last byte, then the attestations. */
  predicate InOrder(n: nat, ackAt: seq<nat>, manifestAt: nat, copyFrom: nat, copyTo: nat, attestedAt: seq<nat>) {
    |ackAt| == |attestedAt| == n && forall k :: 0 <= k < n ==> ackAt[k] < manifestAt < copyFrom < copyTo < attestedAt[k]
  }

  /** CHECKPOINT SAFETY, the counting argument over a whole history. */
  lemma AttestedTwiceIsQuiet(history: seq<Moment>, n: nat, txn: string, acks: seq<Ack>, from: seq<nat>,
                             upto: seq<nat>)
    requires Ordered(history, n) && |acks| == n
    requires Attested(history, n, txn, acks, from) && Attested(history, n, txn, acks, upto)
    ensures Quiet(history, n, acks, from, upto)
  {
    hide Later, Matches, Sane;
    forall k, t | 0 <= k < n && from[k] <= t <= upto[k]
      ensures QuietAt(history, n, acks, from, k, t)
    {
      assert Later(history[from[k]][k], history[t][k]) && Later(history[t][k], history[upto[k]][k]);
      QuietBetween(history[from[k]][k], history[t][k], history[upto[k]][k], acks[k]);
    }
  }

  // ---------------------------------------------------------------- the holder

  /** By call number: what each participant does meanwhile, how checks end, whether a reply is lost, late or badly
      signed, whether a drain finishes in time; and what is inspected, copied and digested. */
  datatype World = World(moves: (nat, nat) -> seq<Move>, passes: nat -> bool, arrives: nat -> bool,
                         drained: nat -> bool, txn: string, manifest: string, generation: seq<Ack> -> string,
                         copied: Tree, digest: Tree -> Option<string>)

  /** The holder's checks in their order: nobody at work; the writers' locks; the inspection is free of problems; the
      copy, its verification and the rehearsed restore; the stored expectation is still that; the release of the locks.
      Messages to participants are calls besides. */
  datatype Check = NobodyAtWork | Locks | SourceInspected | CopyVerified | ExpectationStands | Released | Message

  datatype Outcome = Refused | FailedUncertain | CertifiedSynthetic(manifest: string, artifact: string)

  datatype Result = Returned(outcome: Outcome) | Threw

  class Holder {
    const evidence: Evidence
    const world: World
    /** How many participants the roster names. */
    const n: nat
    var participants: Moment
    var calls: nat
    var hellos: seq<Ack>
    var acks: seq<Ack>
    /** The stage variable: the copy may have begun. */
    var capturing: bool
    ghost var copying: bool
    ghost var history: seq<Moment>
    /** The moments of the acknowledgements, of the attestations before the copy and of the latest ones, of the
        inspection, and of the copy. */
    ghost var ackAt: seq<nat>
    ghost var boundaryAt: seq<nat>
    ghost var attestedAt: seq<nat>
    ghost var manifestAt: nat
    ghost var copyFrom: nat
    ghost var copyTo: nat
    /** The checks that were passed, in order. */
    ghost var passed: seq<Check>

    constructor (evidence: Evidence, world: World, participants: Moment)
      requires evidence.Valid() && evidence.memory == Memory(None, None) && forall k :: 0 <= k < |participants| ==>
        Sane(participants[k])
      ensures Valid() && this.evidence == evidence && this.world == world && n == |participants| && Fresh()
    {
      this.evidence, this.world, this.participants, n := evidence, world, participants, |participants|;
      calls, hellos, acks, capturing, copying := 0, [], [], false, false;
      history, ackAt, boundaryAt, attestedAt, manifestAt := [participants], [], [], [], 0;
      copyFrom, copyTo, passed := 0, 0, [];
    }

    ghost predicate Fresh()
      reads this
    {
      hellos == [] && acks == [] && !capturing && passed == []
    }

    /** Nothing stands in the way: every check passes, every message arrives, drains finish, participants do nothing of
        their own, every write works, nobody interferes, and the copy can be digested. */
    ghost predicate Fair() {
      && Calm(evidence.script) && (forall c :: world.passes(c) && world.arrives(c) && world.drained(c))
      && (forall c, k :: world.moves(c, k) == []) && world.digest(world.copied).Some?
    }

    /** Participants from the k-th on are idle and not held by anybody. */
    ghost predicate Free(k: nat)
      reads this
    {
      forall i :: k <= i < |participants| ==>
        participants[i].hold.None? && participants[i].begun == participants[i].generation
    }

    /** The first k participants are held for this transaction, as they acknowledged. */
    ghost predicate HeldUpTo(k: nat)
      reads this`participants, this`acks
    {
      k <= |participants| && k <= |acks| && forall i :: 0 <= i < k ==>
        && participants[i].hold == Some(Hold(world.txn, participants[i].faults)) && Matches(participants[i], acks[i])
    }

    /** The first k participants are those that said hello. */
    ghost predicate Known(k: nat)
      reads this
    {
      k <= |participants| && k <= |hellos| && forall i :: 0 <= i < k ==>
        hellos[i].boot == participants[i].boot && hellos[i].pid == participants[i].pid
    }

    predicate At(state: State)
      reads evidence
    {
      evidence.Ends(state) && !evidence.disk.torn
    }

    ghost predicate Certifies(r: Result) {
      r.Returned? && r.outcome.CertifiedSynthetic?
    }

    /** The history is ordered and ends now, and every acknowledgement so far was true when it was given. */
    ghost predicate Watching()
      reads this
    {
      && history != [] && Ordered(history, n) && history[|history| - 1] == participants
      && |ackAt| == |acks| && Attested(history, n, world.txn, acks, ackAt) && Introduced()
    }

    /** Each acknowledgement came from the process that had said hello, which had met no fault since it closed. */
    ghost predicate Introduced()
      reads this`hellos, this`acks, this`ackAt, this`history
    {
      |acks| <= |ackAt| && |acks| <= |hellos| && forall k :: 0 <= k < |acks| ==>
        && acks[k].boot == hellos[k].boot && acks[k].pid == hellos[k].pid
        && ackAt[k] < |history| && FaultlessAt(history[ackAt[k]], k, world.txn)
    }

    /** Only a capturing holder copies, and only after its expectation is stored. */
    ghost predicate Valid()
      reads this, evidence
    {
      && evidence.Valid() && Watching()
      && (capturing ==> evidence.memory.expectation.Some? && Holds(evidence.disk.chain, Capturing))
      && (copying ==> capturing)
    }

    ghost function Now(): nat
      reads this
      requires history != []
    {
      |history| - 1
    }

    /** Time passes for the participants. */
    method Elapse()
      requires Watching()
      modifies this`participants, this`history, this`calls
      ensures Watching() && |history| > |old(history)|
      ensures forall x, y :: old(Attested(history, n, world.txn, x, y)) ==> Attested(history, n, world.txn, x, y)
      ensures (forall c, k :: world.moves(c, k) == []) ==> participants == old(participants)
    {
      hide Attested;
      var ps, c := participants, calls;
      var next := seq(n, k requires 0 <= k < |ps| => Advance(ps[k], world.moves(c, k)));
      Record(next) by {
        forall k | 0 <= k < n ensures Sane(next[k]) && Later(participants[k], next[k]) {
          AdvanceIsLater(participants[k], world.moves(calls, k));
        }
      }
      calls := calls + 1;
      assert (forall c, k :: world.moves(c, k) == []) ==> forall k :: 0 <= k < n ==> next[k] == ps[k];
    }

    /** A new moment. */
    method Record(next: Moment)
      requires Watching() && |next| == n && forall k :: 0 <= k < n ==> Sane(next[k]) && Later(participants[k], next[k])
      modifies this`participants, this`history
      ensures Watching() && participants == next && |history| == |old(history)| + 1
      ensures forall x, y :: old(Attested(history, n, world.txn, x, y)) ==> Attested(history, n, world.txn, x, y)
    {
      hide Attested, Ordered;
      OrderedExtends(history, n, next);
      forall x, y | Attested(history, n, world.txn, x, y) ensures Attested(history + [next], n, world.txn, x, y) {
        AttestedStays(history, n, world.txn, x, y, next);
      }
      participants := next;
      history := history + [next];
    }

    /** A check or an input-output step, which may throw. */
    method Ask(check: Check) returns (ok: bool)
      requires Valid()
      modifies this`participants, this`history, this`calls, this`passed, evidence`disk, evidence`clock
      ensures Valid() && |history| > |old(history)|
      ensures Closed(old(evidence.disk).chain) ==> evidence.disk.chain == old(evidence.disk).chain
      ensures forall x, y :: old(Attested(history, n, world.txn, x, y)) ==> Attested(history, n, world.txn, x, y)
      ensures passed == if ok && !check.Message? then old(passed) + [check] else old(passed)
      ensures Fair() ==> ok && evidence.disk == old(evidence.disk) && participants == old(participants)
    {
      hide Attested, Holds;
      ok := world.passes(calls);
      if ok && !check.Message? { passed := passed + [check]; }
      evidence.Await();
      if capturing { HoldsStays(old(evidence.disk).chain, evidence.disk.chain, Capturing); }
      Elapse();
    }

    /** `hello` to participant k: who it is. */
    method Hello(k: nat) returns (ok: bool)
      requires Valid() && Idle() && k == |hellos| < n
      modifies this`participants, this`history, this`calls, this`hellos, this`passed, evidence`disk, evidence`clock
      ensures Valid() && Idle() && (ok ==> |hellos| == k + 1) && passed == old(passed)
      ensures Fair() && old(Known(k)) ==>
        ok && Known(k + 1) && evidence.disk == old(evidence.disk) && participants == old(participants)
    {
      hide Attested, Ordered, Good, Keeps, Remembers, Holds;
      ok := Ask(Message);
      SaneNow();
      if !ok || !world.arrives(calls) { return false; }
      hellos := hellos + [Ack(participants[k].boot, participants[k].pid, 0)];
      ok := Ask(Message);
    }

    /** `prepare` to participant k: it closes admission, drains, and answers when it can. The answer counts only
        under the key of the process that said hello, and only when it reports nothing in flight and no fault. */
    method Prepare(k: nat) returns (ok: bool)
      requires Valid() && Idle() && k == |acks| < n && |hellos| == n
      modifies this`participants, this`history, this`calls, this`acks, this`ackAt, this`passed, evidence`disk,
          evidence`clock
      ensures Valid() && Idle() && (ok ==> |acks| == k + 1) && passed == old(passed)
      ensures Fair() && old(Known(n) && HeldUpTo(k) && Free(k)) ==>
        ok && Known(n) && HeldUpTo(k + 1) && Free(k + 1) && evidence.disk == old(evidence.disk)
    {
      hide Attested, Ordered, Good, Keeps, Remembers, Holds, Introduced;
      ok := Ask(Message);
      SaneNow();
      Record(participants[k := Next(participants[k], Close(world.txn))]) by {
        CloseIsLater(participants, n, k, world.txn);
      }
      var drained := world.drained(calls);
      var arrives := world.arrives(calls);
      Elapse();
      SaneNow();
      var reply := PrepareReply(participants[k], world.txn, drained);
      if !ok || !arrives || reply.RefusedReply? { return false; }
      if reply.ack.boot != hellos[k].boot || reply.ack.pid != hellos[k].pid || reply.inFlight != 0
          || reply.faults != 0 {
        return false;
      }
      Accept(k, reply.ack);
      ok := Ask(Message);
    }

    /** A counted acknowledgement is true now. */
    method Accept(k: nat, ack: Ack)
      requires Valid() && Idle() && k == |acks| < n && |hellos| == n && |participants| == n
      requires Matches(participants[k], ack) && FaultlessAt(participants, k, world.txn)
      requires ack.boot == hellos[k].boot && ack.pid == hellos[k].pid
      modifies this`acks, this`ackAt
      ensures Valid() && Idle() && acks == old(acks) + [ack]
    {
      hide Attested, Ordered, Good, Keeps, Remembers, Holds, Matches;
      AckIsTrue(history, n, world.txn, acks, ackAt, ack);
      acks, ackAt := acks + [ack], ackAt + [Now()];
    }

    /** `verify` to every participant in turn. */
    method Reattest() returns (ok: bool)
      requires Valid() && |acks| == n
      modifies this`participants, this`history, this`calls, this`attestedAt, this`passed, evidence`disk, evidence`clock
      ensures Valid() && |history| > |old(history)| && passed == old(passed)
      ensures ok ==>
        |attestedAt| == n && Attested(history, n, world.txn, acks, attestedAt) && forall k :: 0 <= k < |attestedAt| ==>
            attestedAt[k] >= |old(history)|
      ensures forall x, y :: old(Attested(history, n, world.txn, x, y)) ==> Attested(history, n, world.txn, x, y)
      ensures Fair() && old(HeldUpTo(n)) ==> ok && HeldUpTo(n) && evidence.disk == old(evidence.disk)
    {
      hide Attested, Matches, Ordered, Good, Keeps, Remembers, Holds;
      attestedAt := [];
      ok := Ask(Message);
      NoneAttested(history, n, world.txn);
      for k := 0 to n
        invariant Valid() && |history| > |old(history)| && passed == old(passed)
        invariant ok ==> |attestedAt| == k && Attested(history, n, world.txn, acks[..k], attestedAt)
        invariant ok ==> forall i :: 0 <= i < |attestedAt| ==> attestedAt[i] >= |old(history)|
        invariant forall x, y :: old(Attested(history, n, world.txn, x, y)) ==> Attested(history, n, world.txn, x, y)
        invariant Fair() && old(HeldUpTo(n)) ==>
          ok && participants == old(participants) && evidence.disk == old(evidence.disk)
      {
        ok := Verify(k, ok);
      }
      assert acks[..n] == acks;
    }

    method Verify(k: nat, before: bool) returns (ok: bool)
      requires Valid() && |acks| == n && k < n
      requires before ==> |attestedAt| == k && Attested(history, n, world.txn, acks[..k], attestedAt)
      modifies this`participants, this`history, this`calls, this`attestedAt, this`passed, evidence`disk, evidence`clock
      ensures Valid() && |history| > |old(history)| && passed == old(passed)
      ensures ok ==> before && |attestedAt| == k + 1 && Attested(history, n, world.txn, acks[..k + 1], attestedAt)
      ensures ok ==> attestedAt[..k] == old(attestedAt) && attestedAt[k] >= |old(history)|
      ensures forall x, y :: old(Attested(history, n, world.txn, x, y)) ==> Attested(history, n, world.txn, x, y)
      ensures Fair() && before && old(HeldUpTo(n)) ==>
        ok && participants == old(participants) && evidence.disk == old(evidence.disk)
    {
      hide Attested, Ordered, Good, Keeps, Remembers, Holds, Introduced;
      ok := Ask(Message);
      SaneNow();
      var (held, ack, inFlight) := VerifyReply(participants[k], world.txn);
      if !before || !ok || !world.arrives(calls) || !held || inFlight != 0 || ack != acks[k] { return false; }
      AckIsTrue(history, n, world.txn, acks[..k], attestedAt, ack);
      assert acks[..k] + [acks[k]] == acks[..k + 1];
      attestedAt := attestedAt + [Now()];
      ok := Ask(Message);
    }

    method Append(state: State) returns (ok: bool)
      requires Valid()
      modifies this`participants, this`history, this`calls, evidence`disk, evidence`clock
      ensures Valid() && |history| > |old(history)| && (ok ==> evidence.Ends(state))
      ensures (ok && state.Prepared? ==> evidence.origin.chain == [])
      ensures forall x, y :: old(Attested(history, n, world.txn, x, y)) ==> Attested(history, n, world.txn, x, y)
      ensures Fair() && Takes(old(evidence.disk), state) ==>
        && ok && participants == old(participants)
        && evidence.disk == old(evidence.disk).(made := true, chain := evidence.disk.chain)
    {
      hide Attested, Holds;
      Elapse();
      ok := evidence.Append(state, Data(None, None));
      if capturing { HoldsStays(old(evidence.disk).chain, evidence.disk.chain, Capturing); }
    }

    /** `refuse`: the stage decides the outcome; a failure to record it is swallowed. */
    method Refuse() returns (r: Result)
      requires Valid()
      modifies this`participants, this`history, this`calls, evidence`disk, evidence`clock
      ensures Valid() && r == Returned(if capturing then FailedUncertain else Refused) && Said(r.outcome)
    {
      var ok := Append(if capturing then FailedState else RefusedState);
      r := Returned(if capturing then FailedUncertain else Refused);
    }

    /** What an outcome says. Certification: the evidence is complete, the expectation names this manifest and these
        generations, and each participant matched its acknowledgement before the inspection and again after the copy. */
    ghost predicate Said(outcome: Outcome)
      reads this, evidence
    {
      match outcome
      case Refused => !capturing
      case FailedUncertain => capturing
      case CertifiedSynthetic(manifest, artifact) =>
        && capturing && evidence.Ends(Certified)
        && evidence.memory == Memory(Some(Expect(manifest, world.generation(acks))), Some((manifest, artifact)))
        && Settled()
    }

    ghost predicate Settled()
      reads this
    {
      && |acks| == n && Attested(history, n, world.txn, acks, attestedAt)
      && InOrder(n, ackAt, manifestAt, copyFrom, copyTo, attestedAt) && Bounded()
    }

    /** Every participant attested between the inspection and the first byte of the copy. */
    ghost predicate Bounded()
      reads this
    {
      && Attested(history, n, world.txn, acks, boundaryAt) && copyFrom < |history|
      && forall k :: 0 <= k < |boundaryAt| ==> manifestAt < boundaryAt[k] <= copyFrom
    }

    ghost predicate Acknowledged()
      reads this
    {
      |acks| == |ackAt| == n && forall k :: 0 <= k < n ==> ackAt[k] < manifestAt
    }

    /** Introductions, then acknowledgements: every participant's answer is true at its own moment. */
    method Gather() returns (ok: bool)
      requires Valid() && Idle() && hellos == [] && acks == [] && !capturing
      modifies this`participants, this`history, this`calls, this`hellos, this`acks, this`ackAt, this`passed,
          evidence`disk, evidence`clock
      ensures Valid() && Idle() && (ok ==> |acks| == n) && passed == old(passed)
      ensures Fair() && old(Free(0)) ==> ok && HeldUpTo(n) && evidence.disk == old(evidence.disk)
    {
      hide Attested, Ordered, Good, Keeps, Remembers, Holds, Matches;
      ok := true;
      for k := 0 to n
        invariant Valid() && Idle() && acks == [] && (ok ==> |hellos| == k) && passed == old(passed)
        invariant Fair() && old(Free(0)) ==> ok && Free(0) && Known(k) && evidence.disk == old(evidence.disk)
      {
        if ok { ok := Hello(k); }
      }
      for k := 0 to n
        invariant Valid() && Idle() && (ok ==> |hellos| == n && |acks| == k) && passed == old(passed)
        invariant Fair() && old(Free(0)) ==>
          ok && Known(n) && HeldUpTo(k) && Free(k) && evidence.disk == old(evidence.disk)
      {
        if ok { ok := Prepare(k); }
      }
    }

    /** The body of the try block. */
    method Attempt() returns (r: Result)
      requires Valid() && Idle() && Fresh()
      modifies this, evidence
      ensures Valid() && (r.Returned? ==> Said(r.outcome))
      ensures Certifies(r) ==>
        passed == [NobodyAtWork, Locks, SourceInspected, CopyVerified, ExpectationStands, Released]
      ensures Fair() && old(Free(0) && At(Prepared) && Untouched()) ==> Certifies(r)
    {
      hide Attested, Ordered, Good, Keeps, Remembers, Holds, InOrder, HeldUpTo, Said;
      var ok := Ask(NobodyAtWork);
      if !ok { r := Refuse(); return r; }
      ok := Gather();
      if !ok { return Threw; }
      r := Fence();
    }

    /** All have acknowledged: the locks are taken, and let go at the end. */
    method Fence() returns (r: Result)
      requires Valid() && Idle() && |acks| == n
      modifies this, evidence
      ensures Valid() && (r.Returned? ==> Said(r.outcome))
      ensures Certifies(r) ==>
        passed == old(passed) + [Locks, SourceInspected, CopyVerified, ExpectationStands, Released]
      ensures Fair() && old(HeldUpTo(n) && At(Prepared) && Untouched()) ==> Certifies(r)
    {
      hide Attested, Ordered, Good, Keeps, Remembers, Holds, InOrder, HeldUpTo, Said, Introduced;
      var ok := Append(State.Acknowledged);
      if !ok { return Threw; }
      ok := Ask(Locks);
      if !ok { return Threw; }
      if Fair() && old(HeldUpTo(n) && At(Prepared) && Untouched()) { HeldStays(n); }
      r := WithLocks();
      ok := Release();
      if !ok { return Threw; }
    }

    lemma AcksArePast()
      requires Watching()
      ensures forall k :: 0 <= k < |ackAt| ==> ackAt[k] < |history|
    {
    }

    twostate lemma HeldStays(k: nat)
      requires participants == old(participants) && acks == old(acks) && old(HeldUpTo(k))
      ensures HeldUpTo(k)
    {
    }

    predicate Untouched()
      reads evidence
    {
      evidence.disk.expectation.None? && evidence.disk.staging.None?
    }

    /** Letting go of the locks changes nothing an outcome says. */
    method Release() returns (ok: bool)
      requires Valid()
      modifies this`participants, this`history, this`calls, this`passed, evidence`disk, evidence`clock
      ensures Valid() && forall outcome :: old(Said(outcome)) ==> Said(outcome)
      ensures (ok ==> passed == old(passed) + [Released]) && (Fair() ==> ok)
    {
      hide Attested, Ordered, Good, Keeps, Remembers, Holds, InOrder;
      ok := Ask(Released);
    }

    /** While the locks are held: inspection, expectation, CAPTURING. */
    method WithLocks() returns (r: Result)
      requires Valid() && Idle() && |acks| == n
      modifies this, evidence
      ensures Valid() && (r.Returned? ==> Said(r.outcome))
      ensures Certifies(r) ==> passed == old(passed) + [SourceInspected, CopyVerified, ExpectationStands]
      ensures Fair() && old(HeldUpTo(n) && At(State.Acknowledged) && Untouched()) ==> Certifies(r)
    {
      hide Ordered, Good, Keeps, Remembers, Attested, Said, HeldUpTo, Introduced;
      AcksArePast();
      var ok := Append(Fenced);
      if !ok { return Threw; }
      manifestAt := Now();
      ok := Ask(SourceInspected);
      if !ok { r := Refuse(); return r; }
      if Fair() && old(HeldUpTo(n) && At(State.Acknowledged) && Untouched()) { HeldStays(n); }
      r := Begin();
    }

    /** The expectation and CAPTURING are stored before anything is copied. */
    method Begin() returns (r: Result)
      requires Valid() && Idle() && Acknowledged() && manifestAt < Now()
      modifies this, evidence
      ensures Valid() && (r.Returned? ==> Said(r.outcome))
      ensures Certifies(r) ==> passed == old(passed) + [CopyVerified, ExpectationStands]
      ensures Fair() && old(HeldUpTo(n) && At(State.Fenced) && Untouched()) ==> Certifies(r)
    {
      hide Ordered, Good, Keeps, Remembers, Attested, Said, HeldUpTo, Introduced;
      var ok := evidence.StoreExpectation(world.manifest, world.generation(acks));
      if !ok { return Threw; }
      ok := Append(Capturing);
      if !ok { return Threw; }
      assert Holds(evidence.disk.chain, Capturing);
      capturing := true;
      if Fair() && old(HeldUpTo(n) && At(State.Fenced) && Untouched()) { HeldStays(n); }
      r := Copy(world.manifest);
    }

    /** The copy between two attestations, then the last records. */
    method Copy(manifest: string) returns (r: Result)
      requires Valid() && capturing && Acknowledged() && manifestAt < Now()
      requires evidence.memory == Memory(Some(Expect(manifest, world.generation(acks))), None)
      modifies this, evidence
      ensures Valid() && (r.Returned? ==> Said(r.outcome))
      ensures Certifies(r) ==> passed == old(passed) + [CopyVerified, ExpectationStands]
      ensures Fair() && old(HeldUpTo(n) && At(Capturing)) && old(evidence.disk).staging.None? ==> Certifies(r)
    {
      hide Attested, Ordered, Good, Remembers, Holds, HeldUpTo, Said, Keeps, HasCaptured;
      // boundary validation before the copy
      var ok := Reattest();
      if !ok || evidence.disk.staging.Some? { return Threw; }
      boundaryAt, copyFrom := attestedAt, Now();
      assert Bounded() by { AttestedIsPast(history, n, world.txn, acks, attestedAt); }
      r := CopyBytes(manifest);
    }

    method CopyBytes(manifest: string) returns (r: Result)
      requires Valid() && capturing && Acknowledged() && manifestAt < copyFrom == Now() && Bounded()
      requires evidence.memory == Memory(Some(Expect(manifest, world.generation(acks))), None)
      modifies this, evidence
      ensures Valid() && (r.Returned? ==> Said(r.outcome))
      ensures Certifies(r) ==> passed == old(passed) + [CopyVerified, ExpectationStands]
      ensures Fair() && old(HeldUpTo(n) && At(Capturing)) ==> Certifies(r)
    {
      hide Attested, Ordered, Good, Remembers, Holds, HeldUpTo, Said, Keeps, HasCaptured, Introduced;
      copying := true;
      evidence.Fill(world.copied);
      var ok := Ask(CopyVerified);
      if !ok || evidence.disk.staging.None? { return Threw; }
      var artifact := world.digest(evidence.disk.staging.value);
      if artifact.None? { return Threw; }
      copyTo := Now();
      if Fair() && old(HeldUpTo(n)) { HeldStays(n); }
      r := Conclude(manifest, artifact.value);
    }

    /** Every participant attests once more, and the copy is recorded. */
    method Conclude(manifest: string, artifact: string) returns (r: Result)
      requires Valid() && capturing && Acknowledged() && manifestAt < copyFrom < copyTo < |history| && Bounded()
      requires evidence.memory == Memory(Some(Expect(manifest, world.generation(acks))), None)
      modifies this, evidence
      ensures Valid() && (r.Returned? ==> Said(r.outcome))
      ensures Certifies(r) ==> passed == old(passed) + [ExpectationStands]
      ensures Fair() && old(HeldUpTo(n) && At(Capturing)) ==> Certifies(r)
    {
      hide Attested, Ordered, Good, Remembers, Holds, HasCaptured, Matches, Said, Introduced;
      var ok := Reattest();
      if !ok { return Threw; }
      ghost var before := evidence.disk.chain;
      ok := evidence.AppendCaptured(manifest, artifact);
      HoldsStays(before, evidence.disk.chain, Capturing);
      if !ok { return Threw; }
      r := Certify(manifest, artifact);
    }

    /** The stored expectation is compared once more, and the log closed. */
    method Certify(manifest: string, artifact: string) returns (r: Result)
      requires Valid() && capturing && Settled()
      requires evidence.memory == Memory(Some(Expect(manifest, world.generation(acks))), Some((manifest, artifact)))
      modifies this`participants, this`history, this`calls, this`passed, evidence`disk, evidence`clock
      ensures Valid() && (r.Returned? ==> Said(r.outcome))
      ensures Certifies(r) ==> passed == old(passed) + [ExpectationStands]
      ensures Fair() && old(At(State.Captured)) ==> Certifies(r)
    {
      hide Attested, Ordered, Good, Keeps, Remembers, Holds, InOrder, Introduced;
      var ok := Ask(ExpectationStands);
      if !ok { r := Refuse(); return r; }
      ok := Append(RestoreVerified);
      if !ok { return Threw; }
      ok := Append(Certified);
      r := if ok then Returned(CertifiedSynthetic(manifest, artifact)) else Threw;
    }

    /** CHECKPOINT SAFETY. Whatever is lost, late or forged, however participants move and whichever writes fail:
        - a certified checkpoint is sealed, its expectation names its manifest and the acknowledged generations, and
          from its acknowledgement, before the inspection, to its last attestation, after the copy, every participant
          was the same idle process at the same generation and wrote nothing; each acknowledgement came from the
          process that had said hello, and without a fault since it closed; and every participant attested before the
          first byte, too;
        - no byte is copied before the expectation is stored and CAPTURING is on the log;
        - a refusal copied nothing;
        - it is certified only after every check was passed, in order; and where nothing stands in the way and all
          participants are idle and free, it is. */
    method Run() returns (r: Result)
      requires Valid() && Idle() && Fresh()
      modifies this, evidence
      ensures Good(evidence.l, evidence.disk) && Keeps(evidence.origin, evidence.disk) && Ordered(history, n)
      ensures r.Returned? && r.outcome.CertifiedSynthetic? ==>
        && Sealed(evidence.l, evidence.disk, r.outcome.manifest, r.outcome.artifact)
        && evidence.disk.expectation.value.generation == world.generation(acks)
        && Quiet(history, n, acks, ackAt, attestedAt)
        && Attested(history, n, world.txn, acks, ackAt) && Attested(history, n, world.txn, acks, attestedAt)
        && InOrder(n, ackAt, manifestAt, copyFrom, copyTo, attestedAt) && |hellos| >= n
        && Attested(history, n, world.txn, acks, boundaryAt)
        && (forall k :: 0 <= k < n ==> manifestAt < boundaryAt[k] <= copyFrom)
        && forall k :: 0 <= k < n ==>
             && acks[k].boot == hellos[k].boot && acks[k].pid == hellos[k].pid
             && FaultlessAt(history[ackAt[k]], k, world.txn)
      ensures Certifies(r) ==>
        passed == [NobodyAtWork, Locks, SourceInspected, CopyVerified, ExpectationStands, Released]
      ensures Fair() && old(Free(0)) && old(evidence.disk) == Disk(false, [], false, None, None) ==> Certifies(r)
      ensures copying ==>
        evidence.disk.expectation.Some? && evidence.disk.expectation.value.Expect?
            && Holds(evidence.disk.chain, Capturing)
      ensures r.Threw? || r == Returned(Refused) ==> !copying
    {
      hide Attested, Ordered, Good, Holds, InOrder;
      var ok := Append(Prepared);
      if !ok { return Threw; }
      r := Attempt();
      if r.Threw? { r := Refuse(); }
      if r.outcome.CertifiedSynthetic? {
        assert Settled();
        AttestedIsPast(history, n, world.txn, acks, boundaryAt);
        AttestedTwiceIsQuiet(history, n, world.txn, acks, ackAt, attestedAt);
      }
    }

    lemma SaneNow()
      requires Watching()
      ensures |participants| == n && forall k :: 0 <= k < n ==> Sane(participants[k])
    {
    }

    /** Nothing promised, nothing copied yet. */
    ghost predicate Idle()
      reads this, evidence
    {
      !capturing && !copying && evidence.memory == Memory(None, None)
    }
  }

  lemma CloseIsLater(ps: Moment, n: nat, k: nat, txn: string)
    requires |ps| == n && k < n && forall i :: 0 <= i < n ==> Sane(ps[i])
    ensures var next := ps[k := Next(ps[k], Close(txn))]; forall i :: 0 <= i < n ==>
        Sane(next[i]) && Later(ps[i], next[i])
  {
  }

  lemma AttestedIsPast(history: seq<Moment>, n: nat, txn: string, acks: seq<Ack>, at: seq<nat>)
    requires Attested(history, n, txn, acks, at)
    ensures |at| == |acks| && forall k :: 0 <= k < |at| ==> at[k] <= |history| - 1
  {
  }

  lemma NoneAttested(history: seq<Moment>, n: nat, txn: string)
    ensures Attested(history, n, txn, [], [])
  {
  }

  lemma AckIsTrue(history: seq<Moment>, n: nat, txn: string, acks: seq<Ack>, at: seq<nat>, ack: Ack)
    requires Attested(history, n, txn, acks, at) && history != [] && |history[|history| - 1]| == n && |acks| < n
    requires Matches(history[|history| - 1][|acks|], ack) && HeldFor(history[|history| - 1][|acks|], txn)
    ensures Attested(history, n, txn, acks + [ack], at + [|history| - 1])
  {
  }
}
