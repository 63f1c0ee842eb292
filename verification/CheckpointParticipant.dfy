/** A writer process that takes part in checkpoints: its admission gate, its operation counters, and why two
    attestations with the same boot and generation and nothing in flight leave no room for a write between them. */
module CheckpointParticipant {
  import opened FileTree

  datatype Hold = Hold(txn: string, faultsAtClose: nat)

  /** `generation` counts the operations that ended, well or not, so begun - generation are in flight. `boot` numbers
      the successive processes behind one role; boot ids are never reused. `writes` counts changes to owner state. */
  datatype Participant = Participant(boot: nat, pid: nat, begun: nat, generation: nat, faults: nat, hold: Option<Hold>,
                         writes: nat)

  predicate Sane(p: Participant) {
    p.generation <= p.begun && (p.hold.Some? ==> p.hold.value.faultsAtClose <= p.faults)
  }

  /** What may happen inside a participant: new work (also deferred or periodic), continued work, the end of an
      operation, a write by one, another holder's prepare, the loss of a hold by expiry, release or connection close,
      a restart. */
  datatype Move =
    | Admit | Continue | Finish(ok: bool) | WriteState | Close(txn: string) | Lapse | Restart(pid: nat)

  function Next(p: Participant, m: Move): Participant {
    match m
    case Admit => if p.hold.None? then p.(begun := p.begun + 1) else p
    case Continue => p.(begun := p.begun + 1)
    case Finish(ok) =>
      if p.generation < p.begun
      then p.(generation := p.generation + 1, faults := if !ok && p.hold.Some? then p.faults + 1 else p.faults) else p
    case WriteState => if p.generation < p.begun then p.(writes := p.writes + 1) else p
    case Close(txn) => if p.hold.None? then p.(hold := Some(Hold(txn, p.faults))) else p
    case Lapse => p.(hold := None)
    case Restart(pid) => Participant(p.boot + 1, pid, 0, 0, 0, None, p.writes)
  }

  function Advance(p: Participant, moves: seq<Move>): Participant
    decreases |moves|
  {
    if moves == [] then p else Advance(Next(p, moves[0]), moves[1..])
  }

  /** p' may be a later state of p. Writes need an operation: with none begun since an idle p, nothing was written. */
  predicate Later(p: Participant, p': Participant) {
    || p.boot < p'.boot
    || (&& p.boot == p'.boot && p.pid == p'.pid && p.begun <= p'.begun && p.generation <= p'.generation
        && p.faults <= p'.faults
        && (p.generation == p'.begun ==> p.writes == p'.writes))
  }

  lemma LaterIsTransitive(p: Participant, q: Participant, r: Participant)
    requires Sane(p) && Sane(q) && Later(p, q) && Later(q, r)
    ensures Later(p, r)
  {
  }

  lemma {:induction false} AdvanceIsLater(p: Participant, moves: seq<Move>)
    requires Sane(p)
    ensures Sane(Advance(p, moves)) && Later(p, Advance(p, moves))
    decreases |moves|
  {
    if moves != [] {
      AdvanceIsLater(Next(p, moves[0]), moves[1..]);
      LaterIsTransitive(p, Next(p, moves[0]), Advance(p, moves));
    }
  }

  /** CLOSED MEANS DRAINING. While a hold stands and nothing continues, no operation begins: what is in flight can only
      end, and the hold, and who holds it, stay. */
  lemma {:induction false} ClosedIsDraining(p: Participant, moves: seq<Move>)
    requires Sane(p) && p.hold.Some?
    requires forall i :: 0 <= i < |moves| ==> !moves[i].Continue? && !moves[i].Lapse? && !moves[i].Restart?
    ensures var q := Advance(p, moves);
            && q.hold == p.hold && q.begun == p.begun && q.boot == p.boot && q.pid == p.pid
            && p.generation <= q.generation <= q.begun && p.faults <= q.faults
            && (p.generation == p.begun ==> q == p)
    decreases |moves|
  {
    if moves != [] {
      var q := Next(p, moves[0]);
      assert !moves[0].Continue? && !moves[0].Lapse? && !moves[0].Restart?;
      assert forall i :: 0 <= i < |moves| - 1 ==> moves[1..][i] == moves[i + 1];
      ClosedIsDraining(q, moves[1..]);
    }
  }

  /** Each move, field by field. */
  lemma MovesAre(p: Participant, txn: string, pid: nat)
    requires Sane(p)
    ensures Next(p, Admit).begun == p.begun + (if p.hold.None? then 1 else 0) && Next(p, Continue).begun == p.begun + 1
    ensures p.generation < p.begun ==>
      && Next(p, Finish(true)) == p.(generation := p.generation + 1)
      && Next(p, Finish(false)).generation == p.generation + 1
      && Next(p, Finish(false)).faults == p.faults + (if p.hold.Some? then 1 else 0)
      && Next(p, WriteState).writes == p.writes + 1
    ensures p.generation == p.begun ==> forall ok :: Next(p, Finish(ok)) == p == Next(p, WriteState)
    ensures p.hold.None? ==> Next(p, Close(txn)) == p.(hold := Some(Hold(txn, p.faults)))
    ensures p.hold.Some? ==> Next(p, Close(txn)) == p
    ensures Next(p, Lapse) == p.(hold := None)
    ensures var q := Next(p, Restart(pid)); q.boot > p.boot && q.pid == pid && q.begun == q.generation && q.hold.None?
  {
  }

  /** What an acknowledgement fixes. */
  datatype Ack = Ack(boot: nat, pid: nat, generation: nat)

  /** Idle, in the acknowledged process, at the acknowledged generation. */
  predicate Matches(p: Participant, a: Ack) {
    p.boot == a.boot && p.pid == a.pid && p.generation == a.generation && p.begun == p.generation
  }

  /** Between two moments that match one acknowledgement, every moment matches it and nothing was written. */
  lemma QuietBetween(p: Participant, q: Participant, r: Participant, a: Ack)
    requires Sane(p) && Sane(q) && Sane(r) && Matches(p, a) && Later(p, q) && Later(q, r) && Matches(r, a)
    ensures Matches(q, a) && q.writes == p.writes
  {
  }

  datatype Reply = AckReply(ack: Ack, inFlight: nat, faults: nat) | RefusedReply

  /** The end of `prepare`, some time after admission was closed: refused when the drain timed out or the hold was
      lost. */
  function PrepareReply(p: Participant, txn: string, drained: bool): Reply
    requires Sane(p)
  {
    if !drained || p.hold.None? || p.hold.value.txn != txn then RefusedReply
    else AckReply(Ack(p.boot, p.pid, p.generation), p.begun - p.generation, p.faults - p.hold.value.faultsAtClose)
  }

  /** Exactly when `prepare` acknowledges, and with what. */
  lemma PrepareAcknowledges(p: Participant, txn: string, drained: bool)
    requires Sane(p)
    ensures PrepareReply(p, txn, drained).AckReply? <==> drained && exists faults :: p.hold == Some(Hold(txn, faults))
    ensures PrepareReply(p, txn, drained).AckReply? ==>
      var r := PrepareReply(p, txn, drained);
      && r.ack.boot == p.boot && r.ack.pid == p.pid && r.ack.generation == p.generation
      && r.inFlight + p.generation == p.begun && r.faults + p.hold.value.faultsAtClose == p.faults
  {
    if p.hold.Some? { assert p.hold == Some(Hold(p.hold.value.txn, p.hold.value.faultsAtClose)); }
  }

  /** `verify`: a re-attestation. */
  function VerifyReply(p: Participant, txn: string): (bool, Ack, nat)
    requires Sane(p)
  {
    (p.hold.Some? && p.hold.value.txn == txn, Ack(p.boot, p.pid, p.generation), p.begun - p.generation)
  }
}
