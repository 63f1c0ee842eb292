/** The synthetic writer cohort: writes, checkpoints, freezing and validation, interleaved at their await points by any
    number of callers. */
module WriterCohort {
  import opened FileTree

  /** Every writer that must take part. */
  function Roster(): set<string> {
    {"tasks-results-events", "receipts", "coordinator", "policy-grants-budgets-plans",
     "enrollment-revocation", "oauth", "runtime-installer", "activity-audit-trace-checkpoints"}
  }

  /** What freezing registers. `id` stands for the identity of the boundary object. */
  datatype Boundary = Boundary(id: nat, generation: nat, fingerprint: string)

  /** The fields of the cohort. */
  datatype Cohort = Cohort(generation: nat, active: nat, poisoned: bool, frozen: bool, checkpoints: map<string, nat>,
                           boundaries: seq<Boundary>)

  /** What an inspection came to. */
  datatype Inspected = Throws | Unproven | Seen(fingerprint: string)

  // ---------------------------------------------------------------- the code between two awaits; None where it throws

  function BeginWrite(c: Cohort, writer: string): Option<Cohort> {
    if writer !in Roster() || c.frozen || c.poisoned then None
    else Some(c.(active := c.active + 1, checkpoints := map[]))
  }

  function EndWrite(c: Cohort, ok: bool): Cohort
    requires c.active > 0
  {
    (if ok then c.(generation := c.generation + 1) else c.(poisoned := true)).(active := c.active - 1)
  }

  function Checkpoint(c: Cohort, writer: string): Option<Cohort> {
    if writer !in Roster() || c.active > 0 || c.frozen || c.poisoned then None
    else Some(c.(checkpoints := c.checkpoints[writer := c.generation]))
  }

  function Died(c: Cohort): Cohort {
    c.(poisoned := true, checkpoints := map[])
  }

  function BeginFreeze(c: Cohort): Option<Cohort> {
    if c.active > 0 || c.frozen || c.poisoned || exists w ::
        w in Roster()
        && (w !in c.checkpoints || c.checkpoints[w] != c.generation)
    then None else Some(c.(frozen := true))
  }

  function EndFreeze(c: Cohort, i: Inspected): Cohort {
    if i.Seen? then c.(boundaries := c.boundaries + [Boundary(|c.boundaries|, c.generation, i.fingerprint)])
    else c.(poisoned := true)
  }

  /** `presented` is the fingerprint of the manifest the boundary object carries by now. */
  predicate BeginValidate(c: Cohort, id: nat, presented: string) {
    && id < |c.boundaries| && !c.poisoned && c.frozen && c.active == 0
    && c.boundaries[id].generation == c.generation && presented == c.boundaries[id].fingerprint
  }

  function EndValidate(c: Cohort, b: Boundary, i: Inspected): (Cohort, bool) {
    if i.Throws? then (c, false)
    else if i == Seen(b.fingerprint) then (c, true)
    else (c.(poisoned := true), false)
  }

  // ---------------------------------------------------------------- the guards in plain terms

  const WRITERS: seq<string> := [
    "tasks-results-events", "receipts", "coordinator", "policy-grants-budgets-plans", "enrollment-revocation", "oauth",
    "runtime-installer", "activity-audit-trace-checkpoints"]

  lemma RosterIs(w: string)
    ensures w in Roster() <==> w in WRITERS
  {
  }

  /** What each call insists on, and what it then leaves. */
  lemma GuardsAre(c: Cohort, writer: string)
    ensures BeginWrite(c, writer).Some? <==> writer in WRITERS && !c.frozen && !c.poisoned
    ensures BeginWrite(c, writer).Some? ==>
      BeginWrite(c, writer).value == c.(active := c.active + 1, checkpoints := map[])
    ensures Checkpoint(c, writer).Some? <==> writer in WRITERS && c.active == 0 && !c.frozen && !c.poisoned
    ensures Checkpoint(c, writer).Some? ==>
      Checkpoint(c, writer).value == c.(checkpoints := c.checkpoints[writer := c.generation])
    ensures BeginFreeze(c).Some? <==> && c.active == 0 && !c.frozen && !c.poisoned
                                      && forall w :: w in WRITERS ==>
                                           w in c.checkpoints && c.checkpoints[w] == c.generation
    ensures BeginFreeze(c).Some? ==> BeginFreeze(c).value == c.(frozen := true)
  {
    forall w ensures w in Roster() <==> w in WRITERS { RosterIs(w); }
    hide Roster, WRITERS;
  }

  /** How each wait ends. */
  lemma EndsAre(c: Cohort, ok: bool, i: Inspected, id: nat, presented: string, b: Boundary)
    ensures c.active > 0 ==>
      && EndWrite(c, ok).active + 1 == c.active && EndWrite(c, ok).checkpoints == c.checkpoints
      && EndWrite(c, ok).generation == c.generation + (if ok then 1 else 0)
      && EndWrite(c, ok).poisoned == (c.poisoned || !ok) && EndWrite(c, ok).frozen == c.frozen
    ensures Died(c).poisoned && Died(c).checkpoints == map[] && Died(c).boundaries == c.boundaries
    ensures match i
            case Seen(fingerprint) =>
              EndFreeze(c, i) == c.(boundaries := c.boundaries + [Boundary(|c.boundaries|, c.generation, fingerprint)])
            case _ => EndFreeze(c, i) == c.(poisoned := true)
    ensures BeginValidate(c, id, presented) <==>
            && c.frozen && !c.poisoned && c.active == 0 && id < |c.boundaries|
            && c.boundaries[id] == Boundary(c.boundaries[id].id, c.generation, presented)
    ensures match i
            case Throws => EndValidate(c, b, i) == (c, false)
            case Unproven => EndValidate(c, b, i) == (c.(poisoned := true), false)
            case Seen(f) =>
              EndValidate(c, b, i) == (if f == b.fingerprint then (c, true) else (c.(poisoned := true), false))
  {
  }

  // ---------------------------------------------------------------- whole runs

  /** Where a caller waits: in its write's action, in a freeze's or a validation's inspection. */
  datatype Task = Idle | Writing | Freezing | Validating(boundary: Boundary)

  datatype Step =
    | WriteBegins(pid: nat, writer: string) | WriteEnds(pid: nat, ok: bool)
    | CheckpointTaken(writer: string) | WriterDies
    | FreezeBegins(pid: nat) | FreezeEnds(pid: nat, inspected: Inspected)
    | ValidateBegins(pid: nat, id: nat, presented: string) | ValidateEnds(pid: nat, inspected: Inspected)

  /** The cohort with its callers, and a record of when things happened: the last end of a write, each writer's last
      checkpoint, the moment of freezing, and what was validated. */
  datatype System = System(cohort: Cohort, tasks: map<nat, Task>, now: nat, lastEnd: nat, checkedAt: map<string, nat>,
                           frozenAt: Option<nat>, validated: seq<Validation>)

  /** A successful validation: the boundary, and the fingerprint its inspection saw. */
  datatype Validation = Validation(boundary: Boundary, seen: string)

  const IDLE := System(Cohort(0, 0, false, false, map[], []), map[], 1, 0, map[], None, [])

  function TaskOf(s: System, pid: nat): Task {
    if pid in s.tasks then s.tasks[pid] else Idle
  }

  function Next(s: System, step: Step): System {
    Act(s, step).(now := s.now + 1)
  }

  function Act(s: System, step: Step): System {
    var c := s.cohort;
    match step
    case WriteBegins(pid, writer) =>
      var r := BeginWrite(c, writer);
      if TaskOf(s, pid) != Idle || r.None? then s else s.(cohort := r.value, tasks := s.tasks[pid := Writing])
    case WriteEnds(pid, ok) =>
      if TaskOf(s, pid) != Writing || c.active == 0 then s
      else s.(cohort := EndWrite(c, ok), tasks := s.tasks[pid := Idle], lastEnd := s.now)
    case CheckpointTaken(writer) =>
      var r := Checkpoint(c, writer);
      if r.None? then s else s.(cohort := r.value, checkedAt := s.checkedAt[writer := s.now])
    case WriterDies => s.(cohort := Died(c))
    case FreezeBegins(pid) =>
      var r := BeginFreeze(c);
      if TaskOf(s, pid) != Idle || r.None? then s
      else s.(cohort := r.value, tasks := s.tasks[pid := Freezing], frozenAt := Some(s.now))
    case FreezeEnds(pid, i) =>
      if TaskOf(s, pid) != Freezing then s else s.(cohort := EndFreeze(c, i), tasks := s.tasks[pid := Idle])
    case ValidateBegins(pid, id, presented) =>
      if TaskOf(s, pid) != Idle || !BeginValidate(c, id, presented) then s
      else s.(tasks := s.tasks[pid := Validating(c.boundaries[id])])
    case ValidateEnds(pid, i) =>
      var task := TaskOf(s, pid);
      if !task.Validating? then s
      else
        var (c', ok) := EndValidate(c, task.boundary, i);
        var more := if ok then [Validation(task.boundary, i.fingerprint)] else [];
        s.(cohort := c', tasks := s.tasks[pid := Idle], validated := s.validated + more)
  }

  function Run(s: System, steps: seq<Step>): System
    decreases |steps|
  {
    if steps == [] then s else Run(Next(s, steps[0]), steps[1..])
  }

  /** The callers now in a write. */
  function Writers(s: System): set<nat> {
    set pid | pid in s.tasks && s.tasks[pid].Writing?
  }

  function Freezers(s: System): set<nat> {
    set pid | pid in s.tasks && s.tasks[pid].Freezing?
  }

  /** A checkpoint that stands was taken after the last write ended, at the current generation. */
  predicate CheckpointsStand(s: System) {
    && (s.cohort.checkpoints != map[] ==> s.cohort.active == 0)
    && (forall w :: w in s.cohort.checkpoints ==>
          s.cohort.checkpoints[w] == s.cohort.generation && w in s.checkedAt && s.lastEnd < s.checkedAt[w] < s.now)
  }

  /** The moment of freezing came after every writer's last checkpoint, and those after the last write ended. */
  predicate FrozenProperly(s: System) {
    s.cohort.frozen ==>
      && s.frozenAt.Some? && s.cohort.active == 0
      && forall w :: w in Roster() ==> w in s.checkedAt && s.lastEnd < s.checkedAt[w] < s.frozenAt.value
  }

  /** One boundary or one freeze under way, never both, and neither before freezing. */
  predicate OneBoundary(s: System) {
    && |s.cohort.boundaries| + |Freezers(s)| <= (if s.cohort.frozen then 1 else 0)
    && (forall i :: 0 <= i < |s.cohort.boundaries| ==>
          s.cohort.boundaries[i].id == i && s.cohort.boundaries[i].generation == s.cohort.generation)
  }

  predicate OnlyMinted(s: System) {
    && (forall pid :: pid in s.tasks && s.tasks[pid].Validating? ==> s.tasks[pid].boundary in s.cohort.boundaries)
    && (forall v :: v in s.validated ==> v.boundary in s.cohort.boundaries && v.seen == v.boundary.fingerprint)
  }

  predicate Inv(s: System) {
    && s.cohort.active == |Writers(s)| && s.lastEnd < s.now && (s.frozenAt.Some? ==> s.frozenAt.value < s.now)
    && CheckpointsStand(s) && FrozenProperly(s) && OneBoundary(s) && OnlyMinted(s)
  }

  function Count(b: bool): int {
    if b then 1 else 0
  }

  lemma OneChanges(a: set<nat>, b: set<nat>, pid: nat)
    requires forall q :: q != pid ==> (q in a <==> q in b)
    ensures |b| == |a| - Count(pid in a) + Count(pid in b)
  {
    assert a - {pid} == b - {pid};
    assert |a - {pid}| == |a| - Count(pid in a) && |b - {pid}| == |b| - Count(pid in b);
  }

  /** A caller moves from one task to another. */
  lemma TaskChanges(s: System, s': System, pid: nat, task: Task)
    requires s'.tasks == s.tasks[pid := task]
    ensures |Writers(s')| == |Writers(s)| - Count(TaskOf(s, pid).Writing?) + Count(task.Writing?)
    ensures |Freezers(s')| == |Freezers(s)| - Count(TaskOf(s, pid).Freezing?) + Count(task.Freezing?)
    ensures |Validators(s')| == |Validators(s)| - Count(TaskOf(s, pid).Validating?) + Count(task.Validating?)
  {
    OneChanges(Writers(s), Writers(s'), pid);
    OneChanges(Freezers(s), Freezers(s'), pid);
    OneChanges(Validators(s), Validators(s'), pid);
  }

  /** What one step, and so any run, leaves standing. */
  predicate Forward(s: System, s': System) {
    && (s.cohort.frozen ==> s'.cohort.frozen) && (s.cohort.poisoned ==> s'.cohort.poisoned)
    && s.cohort.boundaries <= s'.cohort.boundaries && s.validated <= s'.validated
    && (s.cohort.frozen ==>
        s'.cohort.generation == s.cohort.generation && s'.lastEnd == s.lastEnd && s'.frozenAt == s.frozenAt
                            && s'.checkedAt == s.checkedAt && Writers(s') == Writers(s) == {})
    && (s.cohort.poisoned ==> |s'.validated| + |Validators(s')| <= |s.validated| + |Validators(s)|)
  }

  function Validators(s: System): set<nat> {
    set pid | pid in s.tasks && s.tasks[pid].Validating?
  }

  lemma TasksOnly(s: System, now: nat)
    ensures var s' := s.(now := now);
        Writers(s') == Writers(s) && Freezers(s') == Freezers(s) && Validators(s') == Validators(s)
  {
  }

  lemma NobodyActive(s: System, s': System)
    ensures |Writers(s)| == 0 ==> Writers(s) == {}
    ensures |Writers(s')| == 0 ==> Writers(s') == {}
    ensures s.tasks == s'.tasks ==>
      Writers(s) == Writers(s') && Freezers(s) == Freezers(s') && Validators(s) == Validators(s')
  {
  }

  lemma WriteBeginsKeeps(s: System, step: Step)
    requires Inv(s) && step.WriteBegins?
    ensures Inv(Next(s, step)) && Forward(s, Next(s, step))
  {
    hide Roster, Writers, Freezers, Validators;
    var a := Act(s, step);
    if a.tasks != s.tasks { TaskChanges(s, a, step.pid, a.tasks[step.pid]); }
    TasksOnly(a, s.now + 1);
    NobodyActive(s, Next(s, step));
  }

  lemma WriteEndsKeeps(s: System, step: Step)
    requires Inv(s) && step.WriteEnds?
    ensures Inv(Next(s, step)) && Forward(s, Next(s, step))
  {
    hide Roster, Writers, Freezers, Validators;
    var a := Act(s, step);
    if a.tasks != s.tasks { TaskChanges(s, a, step.pid, a.tasks[step.pid]); }
    TasksOnly(a, s.now + 1);
    NobodyActive(s, Next(s, step));
  }

  lemma FreezeBeginsKeeps(s: System, step: Step)
    requires Inv(s) && step.FreezeBegins?
    ensures Inv(Next(s, step)) && Forward(s, Next(s, step))
  {
    hide Roster, Writers, Freezers, Validators;
    var a := Act(s, step);
    if a.tasks != s.tasks { TaskChanges(s, a, step.pid, a.tasks[step.pid]); }
    TasksOnly(a, s.now + 1);
    NobodyActive(s, Next(s, step));
  }

  lemma FreezeEndsKeeps(s: System, step: Step)
    requires Inv(s) && step.FreezeEnds?
    ensures Inv(Next(s, step)) && Forward(s, Next(s, step))
  {
    hide Roster, Writers, Freezers, Validators;
    var a := Act(s, step);
    if a.tasks != s.tasks { TaskChanges(s, a, step.pid, a.tasks[step.pid]); }
    TasksOnly(a, s.now + 1);
    NobodyActive(s, Next(s, step));
  }

  lemma ValidateBeginsKeeps(s: System, step: Step)
    requires Inv(s) && step.ValidateBegins?
    ensures Inv(Next(s, step)) && Forward(s, Next(s, step))
  {
    hide Roster, Writers, Freezers, Validators;
    var a := Act(s, step);
    if a.tasks != s.tasks { TaskChanges(s, a, step.pid, a.tasks[step.pid]); }
    TasksOnly(a, s.now + 1);
    NobodyActive(s, Next(s, step));
  }

  lemma ValidateEndsKeeps(s: System, step: Step)
    requires Inv(s) && step.ValidateEnds?
    ensures Inv(Next(s, step)) && Forward(s, Next(s, step))
  {
    hide Roster, Writers, Freezers, Validators;
    var a := Act(s, step);
    if a.tasks != s.tasks { TaskChanges(s, a, step.pid, a.tasks[step.pid]); }
    TasksOnly(a, s.now + 1);
    NobodyActive(s, Next(s, step));
  }

  lemma CheckpointKeeps(s: System, step: Step)
    requires Inv(s) && (step.CheckpointTaken? || step.WriterDies?)
    ensures Inv(Next(s, step)) && Forward(s, Next(s, step))
  {
    hide Roster;
    assert Writers(Next(s, step)) == Writers(s) && Freezers(Next(s, step)) == Freezers(s)
        && Validators(Next(s, step)) == Validators(s);
  }

  lemma NextKeeps(s: System, step: Step)
    requires Inv(s)
    ensures Inv(Next(s, step)) && Forward(s, Next(s, step))
  {
    hide Inv, Forward, Next;
    match step
    case WriteBegins(_, _) => WriteBeginsKeeps(s, step);
    case WriteEnds(_, _) => WriteEndsKeeps(s, step);
    case CheckpointTaken(_) => CheckpointKeeps(s, step);
    case WriterDies => CheckpointKeeps(s, step);
    case FreezeBegins(_) => FreezeBeginsKeeps(s, step);
    case FreezeEnds(_, _) => FreezeEndsKeeps(s, step);
    case ValidateBegins(_, _, _) => ValidateBeginsKeeps(s, step);
    case ValidateEnds(_, _) => ValidateEndsKeeps(s, step);
  }

  lemma ForwardIsTransitive(a: System, b: System, c: System)
    requires Forward(a, b) && Forward(b, c)
    ensures Forward(a, c)
  {
  }

  lemma {:induction false} RunKeeps(s: System, steps: seq<Step>)
    requires Inv(s)
    ensures Inv(Run(s, steps)) && Forward(s, Run(s, steps))
    decreases |steps|
  {
    hide Inv, Forward, Next;
    if steps == [] {
      ForwardIsReflexive(s);
    } else {
      NextKeeps(s, steps[0]);
      RunKeeps(Next(s, steps[0]), steps[1..]);
      ForwardIsTransitive(s, Next(s, steps[0]), Run(s, steps));
    }
  }

  lemma ForwardIsReflexive(s: System)
    requires Inv(s)
    ensures Forward(s, s)
  {
    assert s.cohort.active == 0 ==> Writers(s) == {};
  }

  lemma StartIsFine()
    ensures Inv(IDLE)
  {
    assert Writers(IDLE) == {} && Freezers(IDLE) == {};
  }

  /** WRITER COHORT SAFETY, for every run and every later part of it. Frozen and poisoned never revert; from freezing
      on no write begins or ends and the generation stands; at most one boundary is ever minted, after freezing, and
      before that all eight writers checkpointed after the last write ended; whatever is validated is that boundary,
      at the frozen generation, and the source then showed its fingerprint; and once poisoned, no validation succeeds
      but those already under way, each at most once. */
  lemma CohortIsSafe(before: seq<Step>, after: seq<Step>)
    ensures var s := Run(IDLE, before); var e := Run(s, after);
            && (s.cohort.frozen ==> e.cohort.frozen) && (s.cohort.poisoned ==> e.cohort.poisoned)
            && (s.cohort.frozen ==>
                Writers(e) == {} && e.cohort.generation == s.cohort.generation && e.lastEnd == s.lastEnd)
            && |e.cohort.boundaries| <= 1 && s.cohort.boundaries <= e.cohort.boundaries
            && (forall b :: b in e.cohort.boundaries ==>
                  && e.cohort.frozen && e.frozenAt.Some? && b.generation == e.cohort.generation
                  && forall w :: w in Roster() ==> w in e.checkedAt && e.lastEnd < e.checkedAt[w] < e.frozenAt.value)
            && (forall v :: v in e.validated ==>
                e.cohort.boundaries == [v.boundary] && v.seen == v.boundary.fingerprint)
            && (s.cohort.poisoned ==> |e.validated| <= |s.validated| + |Validators(s)|)
  {
    hide Roster, Run, Next, Writers, Freezers, Validators;
    StartIsFine();
    RunKeeps(IDLE, before);
    RunKeeps(Run(IDLE, before), after);
  }

  lemma {:induction false} RunOn(s: System, steps: seq<Step>, step: Step)
    ensures Run(s, steps + [step]) == Next(Run(s, steps), step)
    decreases |steps|
  {
    if steps == [] {
      assert Run(Next(s, step), ([] + [step])[1..]) == Next(s, step);
    } else {
      assert (steps + [step])[0] == steps[0] && (steps + [step])[1..] == steps[1..] + [step];
      RunOn(Next(s, steps[0]), steps[1..], step);
    }
  }

  /** A cohort in which these writers have checkpointed, and nothing else happened. */
  lemma {:induction false} Checkpointed(ws: set<string>) returns (steps: seq<Step>)
    requires ws <= Roster()
    ensures Run(IDLE, steps).cohort == Cohort(0, 0, false, false, map w | w in ws :: 0, [])
    ensures Run(IDLE, steps).tasks == map[]
    ensures Run(IDLE, steps).validated == []
  {
    hide Roster;
    steps := [];
    if ws != {} {
      var w :| w in ws;
      steps := Checkpointed(ws - {w});
      RunOn(IDLE, steps, CheckpointTaken(w));
      steps := steps + [CheckpointTaken(w)];
    }
  }

  /** A writer that dies while the freeze is inspecting does not stop the boundary from being minted: the cohort is then
      poisoned and, as CohortIsSafe says, never validates it. */
  lemma DeathDuringFreeze() returns (steps: seq<Step>)
    ensures Run(IDLE, steps).cohort.poisoned && |Run(IDLE, steps).cohort.boundaries| == 1
    ensures Validators(Run(IDLE, steps)) == {}
  {
    hide Roster;
    steps := Checkpointed(Roster());
    RunOn(IDLE, steps, FreezeBegins(0));
    RunOn(IDLE, steps + [FreezeBegins(0)], WriterDies);
    RunOn(IDLE, steps + [FreezeBegins(0)] + [WriterDies], FreezeEnds(0, Seen("")));
    steps := steps + [FreezeBegins(0)] + [WriterDies] + [FreezeEnds(0, Seen(""))];
  }

  /** A cohort frozen and inspected, with one boundary and nobody at work. */
  lemma Minted() returns (steps: seq<Step>)
    ensures var s := Run(IDLE, steps);
            && s.cohort.boundaries == [Boundary(0, 0, "")] && s.cohort.frozen && !s.cohort.poisoned
            && s.cohort.active == 0
            && s.cohort.generation == 0 && TaskOf(s, 0) == Idle && s.validated == []
  {
    hide Roster;
    steps := Checkpointed(Roster());
    RunOn(IDLE, steps, FreezeBegins(0));
    RunOn(IDLE, steps + [FreezeBegins(0)], FreezeEnds(0, Seen("")));
    steps := steps + [FreezeBegins(0)] + [FreezeEnds(0, Seen(""))];
  }

  /** And a validation under way does succeed in a poisoned cohort: the poison is looked at before its inspection
      only. */
  lemma ValidationOutlivesPoison() returns (steps: seq<Step>, last: Step)
    ensures Run(IDLE, steps).cohort.poisoned && Run(IDLE, steps).validated == []
    ensures |Run(IDLE, steps + [last]).validated| == 1
  {
    hide Roster, Run;
    steps := Minted();
    RunOn(IDLE, steps, ValidateBegins(0, 0, ""));
    RunOn(IDLE, steps + [ValidateBegins(0, 0, "")], WriterDies);
    steps := steps + [ValidateBegins(0, 0, "")] + [WriterDies];
    last := ValidateEnds(0, Seen(""));
    RunOn(IDLE, steps, last);
  }

  // ---------------------------------------------------------------- the cohort object

  /** The cohort as its callers use it: each method is one uninterrupted stretch of the asynchronous operation it is
      named for, by the caller `pid`. `steps` is everything that happened to the object, so CohortIsSafe speaks of
      every state it can be in. */
  class SyntheticWriterCohort {
    var generation: nat
    var active: nat
    var poisoned: bool
    var frozen: bool
    var checkpoints: map<string, nat>
    var boundaries: seq<Boundary>
    ghost var steps: seq<Step>

    /** The cohort, its callers and their history. */
    ghost function Sys(): System
      reads this
    {
      Run(IDLE, steps)
    }

    /** The fields are what the history makes of them, and the invariant of all runs holds. */
    ghost predicate Valid()
      reads this
    {
      Inv(Sys()) && Sys().cohort == Cohort(generation, active, poisoned, frozen, checkpoints, boundaries)
    }

    constructor ()
      ensures Valid() && steps == []
    {
      generation, active, poisoned, frozen, checkpoints, boundaries, steps := 0, 0, false, false, map[], [], [];
      new;
      StartIsFine();
    }

    /** The history grows by one step. */
    ghost method Happened(step: Step)
      requires Inv(Sys())
      modifies this`steps
      ensures steps == old(steps) + [step] && Sys() == Next(old(Sys()), step)
      ensures Inv(Sys()) && Forward(old(Sys()), Sys())
    {
      RunOn(IDLE, steps, step);
      NextKeeps(Sys(), step);
      steps := steps + [step];
    }

    /** A write is admitted only into a clean, unfrozen cohort; every checkpoint taken before it is void from then
        on. */
    method WriteAdmitted(pid: nat, writer: string) returns (ok: bool)
      requires Valid() && TaskOf(Sys(), pid) == Idle
      modifies this
      ensures Valid() && Forward(old(Sys()), Sys()) && steps == old(steps) + [WriteBegins(pid, writer)]
      ensures ok <==> TaskOf(Sys(), pid) == Writing
      ensures ok ==> !old(frozen) && !old(poisoned) && active > 0 && forall w :: w in Roster() ==> w !in checkpoints
    {
      hide Inv, Forward;
      ok := writer in Roster() && !frozen && !poisoned;
      if ok {
        active := active + 1;
        checkpoints := map[];
      }
      Happened(WriteBegins(pid, writer));
    }

    /** A write under way means the cohort never was frozen; its end counts, or poisons. */
    method WriteEnded(pid: nat, ok: bool)
      requires Valid() && TaskOf(Sys(), pid) == Writing
      modifies this
      ensures Valid() && Forward(old(Sys()), Sys()) && steps == old(steps) + [WriteEnds(pid, ok)]
      ensures !frozen && boundaries == [] && TaskOf(Sys(), pid) == Idle
      ensures if ok then generation > old(generation) else poisoned && generation == old(generation)
    {
      hide Forward, Roster;
      WritingIsActive(Sys(), pid);
      if ok { generation := generation + 1; } else { poisoned := true; }
      active := active - 1;
      Happened(WriteEnds(pid, ok));
    }

    /** A checkpoint is taken only between writes, after the last one ended. */
    method TakeCheckpoint(writer: string) returns (ok: bool)
      requires Valid()
      modifies this
      ensures Valid() && Forward(old(Sys()), Sys()) && steps == old(steps) + [CheckpointTaken(writer)]
      ensures ok ==> Writers(Sys()) == {} && writer in Sys().checkedAt && Sys().checkedAt[writer] > Sys().lastEnd
      ensures !ok ==> Sys() == old(Sys()).(now := old(Sys()).now + 1)
    {
      hide Forward, Roster, Writers;
      ok := writer in Roster() && active == 0 && !frozen && !poisoned;
      if ok { checkpoints := checkpoints[writer := generation]; }
      NobodyActive(Sys(), Sys());
      ghost var before := Sys();
      Happened(CheckpointTaken(writer));
      NobodyActive(before, Sys());
    }

    /** A death spoils the cohort for good: nothing is admitted, checkpointed, frozen or taken up for validation
        again. */
    method WriterDied()
      requires Valid()
      modifies this
      ensures Valid() && Forward(old(Sys()), Sys()) && steps == old(steps) + [WriterDies]
      ensures forall step: Step :: Next(Sys(), step).cohort.poisoned
      ensures forall step: Step ::
        (step.WriteBegins? || step.CheckpointTaken? || step.FreezeBegins? || step.ValidateBegins?) ==>
          Act(Sys(), step) == Sys()
    {
      hide Inv, Forward, Roster;
      poisoned := true;
      checkpoints := map[];
      Happened(WriterDies);
    }

    /** Whether every writer's checkpoint is of the current generation. */
    method AllCheckpointed() returns (ok: bool)
      ensures ok <==> forall w :: w in Roster() ==> w in checkpoints && checkpoints[w] == generation
    {
      hide Roster;
      ok := true;
      var waiting := Roster();
      while ok && waiting != {}
        invariant waiting <= Roster()
        invariant ok ==> forall w :: w in Roster() && w !in waiting ==> w in checkpoints && checkpoints[w] == generation
        invariant !ok ==> exists w :: w in Roster() && (w !in checkpoints || checkpoints[w] != generation)
        decreases |waiting|, ok
      {
        var w :| w in waiting;
        ok := w in checkpoints && checkpoints[w] == generation;
        waiting := waiting - {w};
      }
    }

    /** Freezing begins if and only if the cohort is clean and idle and every writer's checkpoint stands. */
    method FreezeBegun(pid: nat) returns (ok: bool)
      requires Valid() && TaskOf(Sys(), pid) == Idle
      modifies this
      ensures Valid() && Forward(old(Sys()), Sys()) && steps == old(steps) + [FreezeBegins(pid)]
      ensures ok <==> && !old(frozen) && !old(poisoned) && old(Writers(Sys())) == {}
                      && forall w :: w in Roster() ==> w in old(checkpoints)
      ensures ok ==> frozen
    {
      hide Forward, Roster, Writers;
      NobodyActive(Sys(), Sys());
      ok := active == 0 && !frozen && !poisoned;
      if ok { ok := AllCheckpointed(); }
      if ok { frozen := true; }
      Happened(FreezeBegins(pid));
    }

    /** The one boundary of this cohort, at its frozen generation; without a proven inspection there is none, ever. */
    method FreezeEnded(pid: nat, i: Inspected) returns (b: Option<Boundary>)
      requires Valid() && TaskOf(Sys(), pid) == Freezing
      modifies this
      ensures Valid() && Forward(old(Sys()), Sys()) && steps == old(steps) + [FreezeEnds(pid, i)]
      ensures i.Seen? <==> b.Some?
      ensures if b.Some? then boundaries == [b.value] && b.value.generation == generation
          && b.value.fingerprint == i.fingerprint
              else boundaries == [] && poisoned
    {
      hide Forward, Roster;
      FreezingIsAlone(Sys(), pid);
      if i.Seen? {
        b := Some(Boundary(|boundaries|, generation, i.fingerprint));
        boundaries := boundaries + [b.value];
      } else {
        poisoned := true;
        b := None;
      }
      Happened(FreezeEnds(pid, i));
    }

    /** Validation is taken up only for the boundary of this cohort, presented unaltered, in a clean frozen cohort. */
    method ValidateBegun(pid: nat, id: nat, presented: string) returns (ok: bool)
      requires Valid() && TaskOf(Sys(), pid) == Idle
      modifies this
      ensures Valid() && Forward(old(Sys()), Sys()) && steps == old(steps) + [ValidateBegins(pid, id, presented)]
      ensures ok <==> TaskOf(Sys(), pid).Validating?
      ensures ok ==> !poisoned && frozen && boundaries == [TaskOf(Sys(), pid).boundary]
                     && TaskOf(Sys(), pid).boundary.fingerprint == presented
    {
      hide Forward, Roster;
      ok := && id < |boundaries| && !poisoned && frozen && active == 0
            && boundaries[id].generation == generation && presented == boundaries[id].fingerprint;
      Happened(ValidateBegins(pid, id, presented));
    }

    /** A validation succeeds only for the one boundary, at the frozen generation, with the source showing its
        fingerprint; a source that shows another one spoils the cohort. */
    method ValidateEnded(pid: nat, b: Boundary, i: Inspected) returns (ok: bool)
      requires Valid() && TaskOf(Sys(), pid) == Validating(b)
      modifies this
      ensures Valid() && Forward(old(Sys()), Sys()) && steps == old(steps) + [ValidateEnds(pid, i)]
      ensures ok ==> boundaries == [b] && b.generation == generation && i == Seen(b.fingerprint)
      ensures !ok && !i.Throws? ==> poisoned
    {
      hide Forward, Roster;
      ok := i == Seen(b.fingerprint);
      if !ok && !i.Throws? { poisoned := true; }
      Happened(ValidateEnds(pid, i));
    }
  }

  lemma WritingIsActive(s: System, pid: nat)
    requires Inv(s) && TaskOf(s, pid) == Writing
    ensures s.cohort.active > 0 && !s.cohort.frozen && s.cohort.boundaries == []
  {
    assert pid in Writers(s);
  }

  lemma FreezingIsAlone(s: System, pid: nat)
    requires Inv(s) && TaskOf(s, pid) == Freezing
    ensures s.cohort.boundaries == [] && s.cohort.frozen
  {
    assert pid in Freezers(s);
  }
}
