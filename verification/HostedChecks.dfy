/** The hosted gates of a release candidate: exact-commit evidence from workflow and check runs, normalised into rows
    and aggregated by name so that no run can mask another. */
module HostedChecks {
  import opened FileTree

  /** toUpperCase and toLowerCase. */
  datatype Casing = Casing(upper: string -> string, lower: string -> string)

  datatype Workflow = Workflow(sha: string, event: string, branch: string, repository: string, name: string,
                      path: string,
                               suite: int, status: string, conclusion: Option<string>)

  datatype CheckRun = CheckRun(name: string, sha: string, suite: int, app: string, status: string,
                      conclusion: Option<string>)

  /** An element of a list read from JSON. */
  datatype Entry<T> = Malformed | Fine(value: T)

  datatype Listing<T> = NoListing | Listing(total: int, entries: seq<Entry<T>>)

  /** A required name, and the workflow whose run must own it. */
  datatype Gate = Gate(name: string, workflow: string, file: string)

  const CI := ".github/workflows/ci.yml"
  const ANALYSIS := ".github/workflows/codeql.yml"
  const GATES: seq<Gate> := [
    Gate("validate", "DEX validation", CI), Gate("runtime-proof", "DEX validation", CI),
        Gate("reproducible-build", "DEX validation", CI),
    Gate("analyze", "CodeQL", ANALYSIS), Gate("CodeQL", "CodeQL", ANALYSIS)]

  /** A row as the aggregation takes it; None is an absent field. */
  datatype Row = Row(name: Option<string>, context: Option<string>, status: Option<string>, state: Option<string>,
                 conclusion: Option<string>)

  function Stated(name: string, status: string, conclusion: string): Row {
    Row(Some(name), None, Some(status), None, Some(conclusion))
  }

  // ---------------------------------------------------------------- filters

  function Filter<T>(s: seq<T>, p: T -> bool): seq<T> {
    if s == [] then [] else Filter(s[..|s| - 1], p) + if p(s[|s| - 1]) then [s[|s| - 1]] else []
  }

  lemma FilterNext<T>(s: seq<T>, p: T -> bool, i: nat)
    requires i < |s|
    ensures Filter(s[..i + 1], p) == Filter(s[..i], p) + if p(s[i]) then [s[i]] else []
  {
    assert s[..i + 1][..i] == s[..i];
  }

  lemma {:induction false} FilterConcat<T>(a: seq<T>, b: seq<T>, p: T -> bool)
    ensures Filter(a + b, p) == Filter(a, p) + Filter(b, p)
  {
    if b == [] {
      assert a + b == a && Filter(a, p) + [] == Filter(a, p);
    } else {
      var front := b[..|b| - 1];
      assert (a + b)[..|a + b| - 1] == a + front;
      FilterConcat(a, front, p);
    }
  }

  /** A filter sees only which elements there are, not their order. */
  lemma {:induction false} FilterCounts<T>(s: seq<T>, p: T -> bool, x: T)
    ensures multiset(Filter(s, p))[x] == if p(x) then multiset(s)[x] else 0
  {
    if s != [] {
      var front, end := s[..|s| - 1], s[|s| - 1];
      assert s == front + [end];
      FilterCounts(front, p, x);
    }
  }

  /** The same elements in another order. */
  ghost predicate Same<T>(a: seq<T>, b: seq<T>) {
    multiset(a) == multiset(b)
  }

  lemma Extensional<T>(a: multiset<T>, b: multiset<T>)
    requires forall e :: a[e] == b[e]
    ensures a == b
  {
  }

  lemma FilterIsStable<T>(a: seq<T>, b: seq<T>, p: T -> bool)
    requires Same(a, b)
    ensures Same(Filter(a, p), Filter(b, p)) && |Filter(a, p)| == |Filter(b, p)|
    ensures |Filter(a, p)| == 1 ==> Filter(a, p) == Filter(b, p)
  {
    hide Filter;
    var x, y := Filter(a, p), Filter(b, p);
    var mx: multiset<T>, my: multiset<T> := multiset(x), multiset(y);
    forall e: T ensures mx[e] == my[e] {
      FilterCounts(a, p, e);
      FilterCounts(b, p, e);
    }
    Extensional(mx, my);
    SameOne(x, y);
  }

  lemma SameOne<T>(x: seq<T>, y: seq<T>)
    requires Same(x, y)
    ensures |x| == |y| && (|x| == 1 ==> x == y)
  {
    SameLength(x, y);
    if |x| == 1 {
      assert x[0] in multiset(x);
      assert x[0] in y;
    }
  }

  lemma SameLength<T>(a: seq<T>, b: seq<T>)
    requires Same(a, b)
    ensures |a| == |b|
  {
    assert |multiset(a)| == |a| && |multiset(b)| == |b|;
  }

  // ---------------------------------------------------------------- aggregation

  function NameOf(r: Row): string {
    if r.name.Some? then r.name.value else if r.context.Some? then r.context.value else ""
  }

  function Named(name: string): Row -> bool {
    r => NameOf(r) == name
  }

  function Outcome(r: Row): string {
    var completed := if r.status.None? then r.state.Some? else r.status.value == "COMPLETED";
    if !completed then "INCOMPLETE"
    else if r.conclusion.Some? then r.conclusion.value else if r.state.Some? then r.state.value else ""
  }

  function Lookup(seen: map<string, string>, name: string): Option<string> {
    if name in seen then Some(seen[name]) else None
  }

  /** What the rows say about one name: nothing, the outcome of its only row, or that there are several. */
  function Verdict(rows: seq<Row>, name: string): Option<string> {
    var own := Filter(rows, Named(name));
    if name == "" || own == [] then None else if |own| == 1 then Some(Outcome(own[0])) else Some("AMBIGUOUS")
  }

  /** aggregateCheckRuns */
  method AggregateCheckRuns(rows: seq<Row>) returns (seen: map<string, string>)
    ensures forall name :: Lookup(seen, name) == Verdict(rows, name)
  {
    seen := map[];
    for i := 0 to |rows|
      invariant forall name :: Lookup(seen, name) == Verdict(rows[..i], name)
    {
      var row := rows[i];
      var name := NameOf(row);
      ghost var before := seen;
      if name != "" {
        seen := seen[name := if name in seen then "AMBIGUOUS" else Outcome(row)];
      }
      forall other ensures Lookup(seen, other) == Verdict(rows[..i + 1], other) {
        assert Lookup(before, other) == Verdict(rows[..i], other);
        FilterNext(rows, Named(other), i);
      }
    }
    assert rows[..|rows|] == rows;
  }

  // ---------------------------------------------------------------- rows for one commit

  predicate IsSha(s: string) {
    |s| == 40 && forall i :: 0 <= i < 40 ==> '0' <= s[i] <= '9' || 'a' <= s[i] <= 'f'
  }

  /** A push to main of exactly this commit, in this repository. */
  function OfCommit(c: Casing, sha: string): Workflow -> bool {
    (w: Workflow) => w.sha == sha && w.event == "push" && w.branch == "main"
        && c.lower(w.repository) == "westkitty/dex-reach"
  }

  function OfGate(g: Gate): Workflow -> bool {
    (w: Workflow) => w.name == g.workflow && w.path == g.file
  }

  function Owns(c: Casing, sha: string, g: Gate): Workflow -> bool {
    (w: Workflow) => OfCommit(c, sha)(w) && OfGate(g)(w)
  }

  /** A run of the named job, by GitHub's own runner, in the owner's suite and for this commit. */
  function Matches(sha: string, g: Gate, suite: int): CheckRun -> bool {
    (r: CheckRun) => r.name == g.name && r.sha == sha && r.suite == suite && r.app == "github-actions"
  }

  function Text(conclusion: Option<string>): string {
    if conclusion.Some? then conclusion.value else ""
  }

  function RunRow(c: Casing, g: Gate, r: CheckRun): Row {
    Stated(g.name, c.upper(r.status), c.upper(Text(r.conclusion)))
  }

  function RunRows(c: Casing, g: Gate, runs: seq<CheckRun>): (rows: seq<Row>)
    ensures |rows| == |runs| && forall i :: 0 <= i < |runs| ==> rows[i] == RunRow(c, g, runs[i])
  {
    seq(|runs|, i requires 0 <= i < |runs| => RunRow(c, g, runs[i]))
  }

  predicate IsJob(g: Gate) {
    g.name != "CodeQL"
  }

  predicate Succeeded(w: Workflow) {
    w.status == "completed" && w.conclusion == Some("success")
  }

  /** Whether the check runs are looked at for a gate. */
  predicate NeedsRuns(own: seq<Workflow>, g: Gate) {
    |own| == 1 && IsJob(g) && Succeeded(own[0])
  }

  function GateRows(c: Casing, sha: string, own: seq<Workflow>, runs: seq<CheckRun>, g: Gate): seq<Row> {
    if |own| != 1 then [Stated(g.name, "COMPLETED", if own == [] then "MISSING" else "AMBIGUOUS")]
    else if !IsJob(g) then [Stated(g.name, c.upper(own[0].status), c.upper(Text(own[0].conclusion)))]
    else if !Succeeded(own[0]) then [Stated(g.name, "COMPLETED", "WORKFLOW_NOT_SUCCESS")]
    else RunRows(c, g, Filter(runs, Matches(sha, g, own[0].suite)))
  }

  function AllRows(c: Casing, sha: string, ws: seq<Workflow>, runs: seq<CheckRun>, gates: seq<Gate>): seq<Row> {
    if gates == [] then []
    else
      var front, g := gates[..|gates| - 1], gates[|gates| - 1];
      AllRows(c, sha, ws, runs, front) + GateRows(c, sha, Filter(ws, Owns(c, sha, g)), runs, g)
  }

  function Fines<T>(entries: seq<Entry<T>>): seq<T> {
    if entries == [] then []
    else Fines(entries[..|entries| - 1]) + if entries[|entries| - 1].Fine? then [entries[|entries| - 1].value] else []
  }

  predicate AllFine<T>(entries: seq<Entry<T>>) {
    forall i :: 0 <= i < |entries| ==> entries[i].Fine?
  }

  predicate Counted<T>(l: Listing<T>) {
    l.Listing? && l.total == |l.entries|
  }

  predicate SomeGateNeedsRuns(c: Casing, sha: string, ws: seq<Workflow>, gates: seq<Gate>) {
    exists i :: 0 <= i < |gates| && NeedsRuns(Filter(ws, Owns(c, sha, gates[i])), gates[i])
  }

  /** The evidence can be read: a full commit id, complete lists, no malformed workflow run, and no malformed check
      run where check runs are looked at. */
  predicate Readable(c: Casing, sha: string, checks: Listing<CheckRun>, workflows: Listing<Workflow>) {
    && IsSha(sha) && Counted(checks) && Counted(workflows) && AllFine(workflows.entries)
    && (SomeGateNeedsRuns(c, sha, Fines(workflows.entries), GATES) ==> AllFine(checks.entries))
  }

  function Rows(c: Casing, sha: string, checks: Listing<CheckRun>, workflows: Listing<Workflow>): seq<Row> {
    if !Readable(c, sha, checks, workflows) then []
    else AllRows(c, sha, Fines(workflows.entries), Fines(checks.entries), GATES)
  }

  lemma {:induction false} FilterTwice<T>(s: seq<T>, p: T -> bool, q: T -> bool, both: T -> bool)
    requires forall x :: both(x) <==> p(x) && q(x)
    ensures Filter(Filter(s, p), q) == Filter(s, both)
  {
    if s != [] {
      var front, end := s[..|s| - 1], s[|s| - 1];
      FilterTwice(front, p, q, both);
      FilterConcat(Filter(front, p), if p(end) then [end] else [], q);
      assert Filter([end], q) == if q(end) then [end] else [];
      assert Filter<T>([], q) == [];
    }
  }

  /** exactShaCheckRows */
  method ExactShaCheckRows(c: Casing, sha: string, checks: Listing<CheckRun>, workflows: Listing<Workflow>)
    returns (rows: seq<Row>)
    ensures rows == Rows(c, sha, checks, workflows)
  {
    hide GateRows, NeedsRuns, IsSha, Filter, Fines, AllFine, Owns, SomeGateNeedsRuns;
    if !IsSha(sha) || !Counted(checks) || !Counted(workflows) { return []; }
    var pushed := Pushed(c, sha, workflows.entries);
    if pushed.None? { return []; }
    ghost var ws, runs := Fines(workflows.entries), Fines(checks.entries);
    rows := [];
    NoGates(c, sha, ws);
    for k := 0 to |GATES|
      invariant rows == AllRows(c, sha, ws, runs, GATES[..k])
      invariant SomeGateNeedsRuns(c, sha, ws, GATES[..k]) ==> AllFine(checks.entries)
    {
      var g := GATES[k];
      assert GATES[..k + 1][..k] == GATES[..k];
      var own := Filter(pushed.value, OfGate(g));
      OwnersOf(c, sha, ws, g);
      var added := RowsOfGate(c, sha, own, checks.entries, g);
      NeedsNext(c, sha, ws, k);
      if added.None? { return []; }
      rows := rows + added.value;
    }
    assert GATES[..|GATES|] == GATES;
  }

  lemma OwnersOf(c: Casing, sha: string, ws: seq<Workflow>, g: Gate)
    ensures Filter(Filter(ws, OfCommit(c, sha)), OfGate(g)) == Filter(ws, Owns(c, sha, g))
  {
    FilterTwice(ws, OfCommit(c, sha), OfGate(g), Owns(c, sha, g));
  }

  lemma NoGates(c: Casing, sha: string, ws: seq<Workflow>)
    ensures !SomeGateNeedsRuns(c, sha, ws, GATES[..0])
  {
  }

  /** The first loop: the workflow runs of this commit, or None where a malformed one is met. */
  method Pushed(c: Casing, sha: string, entries: seq<Entry<Workflow>>) returns (pushed: Option<seq<Workflow>>)
    ensures pushed == if AllFine(entries) then Some(Filter(Fines(entries), OfCommit(c, sha))) else None
  {
    hide Filter, Fines, OfCommit;
    var p := OfCommit(c, sha);
    var kept: seq<Workflow> := [];
    NoneYet<Workflow>(p);
    for i := 0 to |entries|
      invariant AllFine(entries[..i]) && kept == Filter(Fines(entries[..i]), p)
    {
      FinesNext(entries, i);
      if entries[i].Malformed? { return None; }
      FilterConcat(Fines(entries[..i]), [entries[i].value], p);
      FilterOne(entries[i].value, p);
      if p(entries[i].value) { kept := kept + [entries[i].value]; }
    }
    assert entries[..|entries|] == entries;
    pushed := Some(kept);
  }

  lemma NoneYet<T>(p: T -> bool)
    ensures Fines<T>([]) == [] && Filter<T>([], p) == [] && AllFine<T>([])
  {
  }

  /** One turn of the gate loop; None where a malformed check run is met. */
  method RowsOfGate(c: Casing, sha: string, own: seq<Workflow>, entries: seq<Entry<CheckRun>>, g: Gate)
    returns (rows: Option<seq<Row>>)
    ensures rows == if NeedsRuns(own, g) && !AllFine(entries) then None
        else Some(GateRows(c, sha, own, Fines(entries), g))
  {
    hide Filter, Fines, Matches, RunRow;
    if |own| != 1 { return Some([Stated(g.name, "COMPLETED", if own == [] then "MISSING" else "AMBIGUOUS")]); }
    var owner := own[0];
    if !IsJob(g) { return Some([Stated(g.name, c.upper(owner.status), c.upper(Text(owner.conclusion)))]); }
    if !Succeeded(owner) { return Some([Stated(g.name, "COMPLETED", "WORKFLOW_NOT_SUCCESS")]); }
    var p := Matches(sha, g, owner.suite);
    var added: seq<Row> := [];
    NoneYet<CheckRun>(p);
    for i := 0 to |entries|
      invariant AllFine(entries[..i]) && added == RunRows(c, g, Filter(Fines(entries[..i]), p))
    {
      FinesNext(entries, i);
      if entries[i].Malformed? { return None; }
      var r := entries[i].value;
      FilterConcat(Fines(entries[..i]), [r], p);
      FilterOne(r, p);
      if p(r) { added := added + [RunRow(c, g, r)]; }
    }
    assert entries[..|entries|] == entries;
    rows := Some(added);
  }

  lemma FinesNext<T>(entries: seq<Entry<T>>, i: nat)
    requires i < |entries|
    ensures Fines(entries[..i + 1]) == Fines(entries[..i]) + if entries[i].Fine? then [entries[i].value] else []
    ensures AllFine(entries[..i + 1]) <==> AllFine(entries[..i]) && entries[i].Fine?
    ensures entries[i].Malformed? ==> !AllFine(entries)
  {
    assert entries[..i + 1][..i] == entries[..i];
    assert forall j :: 0 <= j < i ==> entries[..i + 1][j] == entries[..i][j];
  }

  lemma FilterOne<T>(x: T, p: T -> bool)
    ensures Filter([x], p) == if p(x) then [x] else []
  {
    assert [x][..0] == [];
  }

  lemma NeedsNext(c: Casing, sha: string, ws: seq<Workflow>, k: nat)
    requires k < |GATES|
    ensures SomeGateNeedsRuns(c, sha, ws, GATES[..k + 1]) <==>
            SomeGateNeedsRuns(c, sha, ws, GATES[..k]) || NeedsRuns(Filter(ws, Owns(c, sha, GATES[k])), GATES[k])
    ensures SomeGateNeedsRuns(c, sha, ws, GATES[..k + 1]) ==> SomeGateNeedsRuns(c, sha, ws, GATES)
  {
    hide NeedsRuns, Filter;
    var a, b := GATES[..k], GATES[..k + 1];
    assert forall i :: 0 <= i < k ==> b[i] == a[i] == GATES[i];
    assert b[k] == GATES[k];
    if i :| 0 <= i < |a| && NeedsRuns(Filter(ws, Owns(c, sha, a[i])), a[i]) { assert b[i] == a[i]; }
    if i :| 0 <= i < |b| && NeedsRuns(Filter(ws, Owns(c, sha, b[i])), b[i]) {
      assert b[i] == GATES[i];
      if i < k { assert a[i] == b[i]; }
    }
  }

  // ---------------------------------------------------------------- what the aggregate means

  /** What one gate comes to. */
  function GateVerdict(c: Casing, sha: string, own: seq<Workflow>, runs: seq<CheckRun>, g: Gate): Option<string> {
    if |own| != 1 then Some(if own == [] then "MISSING" else "AMBIGUOUS")
    else if !IsJob(g) then Some(Outcome(Stated(g.name, c.upper(own[0].status), c.upper(Text(own[0].conclusion)))))
    else if !Succeeded(own[0]) then Some("WORKFLOW_NOT_SUCCESS")
    else
      var found := Filter(runs, Matches(sha, g, own[0].suite));
      if found == [] then None else if |found| == 1 then Some(Outcome(RunRow(c, g, found[0]))) else Some("AMBIGUOUS")
  }

  lemma {:induction false} FilterAll<T>(s: seq<T>, p: T -> bool)
    requires forall i :: 0 <= i < |s| ==> p(s[i])
    ensures Filter(s, p) == s
  {
    if s != [] {
      FilterAll(s[..|s| - 1], p);
      assert s == s[..|s| - 1] + [s[|s| - 1]];
    }
  }

  lemma {:induction false} FilterNone<T>(s: seq<T>, p: T -> bool)
    requires forall i :: 0 <= i < |s| ==> !p(s[i])
    ensures Filter(s, p) == []
  {
    if s != [] { FilterNone(s[..|s| - 1], p); }
  }

  lemma GateRowsAreNamed(c: Casing, sha: string, own: seq<Workflow>, runs: seq<CheckRun>, g: Gate)
    ensures forall i :: 0 <= i < |GateRows(c, sha, own, runs, g)| ==>
        NameOf(GateRows(c, sha, own, runs, g)[i]) == g.name
  {
    hide Filter;
  }

  lemma SameNames(rows: seq<Row>, own: string, name: string)
    requires forall i :: 0 <= i < |rows| ==> NameOf(rows[i]) == own
    ensures Filter(rows, Named(name)) == if own == name then rows else []
  {
    if own == name { FilterAll(rows, Named(name)); } else { FilterNone(rows, Named(name)); }
  }

  /** Of all rows, those under a gate's name are that gate's own. */
  lemma {:induction false} OwnRows(c: Casing, sha: string, ws: seq<Workflow>, runs: seq<CheckRun>, gates: seq<Gate>,
                                   name: string)
    requires forall i, j :: 0 <= i < j < |gates| ==> gates[i].name != gates[j].name
    ensures (forall i :: 0 <= i < |gates| ==> gates[i].name != name) ==>
      Filter(AllRows(c, sha, ws, runs, gates), Named(name)) == []
    ensures forall i :: 0 <= i < |gates| && gates[i].name == name ==>
              Filter(AllRows(c, sha, ws, runs, gates), Named(name))
                  == GateRows(c, sha, Filter(ws, Owns(c, sha, gates[i])), runs, gates[i])
  {
    hide GateRows, Filter, Named;
    FilterNone<Row>([], Named(name));
    if gates != [] {
      var front, g := gates[..|gates| - 1], gates[|gates| - 1];
      var own := GateRows(c, sha, Filter(ws, Owns(c, sha, g)), runs, g);
      OwnRows(c, sha, ws, runs, front, name);
      GateRowsAreNamed(c, sha, Filter(ws, Owns(c, sha, g)), runs, g);
      FilterConcat(AllRows(c, sha, ws, runs, front), own, Named(name));
      assert forall i :: 0 <= i < |front| ==> front[i] == gates[i];
      SameNames(own, g.name, name);
    }
  }

  lemma GateNames()
    ensures forall i, j :: 0 <= i < j < |GATES| ==> GATES[i].name != GATES[j].name
    ensures forall i :: 0 <= i < |GATES| ==> GATES[i].name != ""
  {
    assert GATES[0].name[0] == 'v' && GATES[1].name[1] == 'u' && GATES[2].name[1] == 'e' && GATES[3].name[0] == 'a'
        && GATES[4].name[0] == 'C';
    assert GATES[1].name[0] == 'r' && GATES[2].name[0] == 'r';
  }

  lemma VerdictIsGates(c: Casing, sha: string, checks: Listing<CheckRun>, workflows: Listing<Workflow>, k: nat)
    requires k < |GATES|
    ensures Verdict(Rows(c, sha, checks, workflows), GATES[k].name)
            == if !Readable(c, sha, checks, workflows) then None
               else GateVerdict(c, sha, Filter(Fines(workflows.entries), Owns(c, sha, GATES[k])), Fines(checks.entries),
                   GATES[k])
  {
    hide Filter, Readable;
    GateNames();
    if Readable(c, sha, checks, workflows) {
      Lists(c, sha, checks, workflows);
      OwnRows(c, sha, Fines(workflows.entries), Fines(checks.entries), GATES, GATES[k].name);
    } else {
      FilterNone<Row>([], Named(GATES[k].name));
    }
  }

  /** Exactly one push run of the owning workflow on main for this commit, and it succeeded; for a job, also exactly
      one check run of that name in its suite, completed successfully. */
  predicate Satisfied(c: Casing, sha: string, ws: seq<Workflow>, runs: seq<CheckRun>, g: Gate) {
    var own := Filter(ws, Owns(c, sha, g));
    && |own| == 1
    && if IsJob(g) then
         var found := Filter(runs, Matches(sha, g, own[0].suite));
         && Succeeded(own[0]) && |found| == 1
         && c.upper(found[0].status) == "COMPLETED" && c.upper(Text(found[0].conclusion)) == "SUCCESS"
       else c.upper(own[0].status) == "COMPLETED" && c.upper(Text(own[0].conclusion)) == "SUCCESS"
  }

  /** HOSTED CHECKS CANNOT BE MASKED. A required name aggregates to SUCCESS if and only if the evidence is readable and
      exactly its own run satisfies it. */
  lemma SuccessIsExact(c: Casing, sha: string, checks: Listing<CheckRun>, workflows: Listing<Workflow>, k: nat)
    requires k < |GATES|
    ensures Verdict(Rows(c, sha, checks, workflows), GATES[k].name) == Some("SUCCESS") <==>
            Readable(c, sha, checks, workflows)
                && Satisfied(c, sha, Fines(workflows.entries), Fines(checks.entries), GATES[k])
  {
    hide Filter, Readable, Verdict, Rows;
    VerdictIsGates(c, sha, checks, workflows, k);
    Literals();
  }

  lemma Literals()
    ensures "SUCCESS" != "MISSING" && "SUCCESS" != "AMBIGUOUS" && "SUCCESS" != "WORKFLOW_NOT_SUCCESS"
    ensures "SUCCESS" != "INCOMPLETE"
  {
    assert "SUCCESS"[0] == 'S' && "MISSING"[0] == 'M' && "AMBIGUOUS"[0] == 'A' && "WORKFLOW_NOT_SUCCESS"[0] == 'W'
        && "INCOMPLETE"[0] == 'I';
  }

  lemma {:induction false} FinesCount<T>(s: seq<Entry<T>>, x: T)
    ensures multiset(Fines(s))[x] == multiset(s)[Fine(x)]
  {
    if s != [] {
      var front, end := s[..|s| - 1], s[|s| - 1];
      assert s == front + [end];
      FinesCount(front, x);
    }
  }

  lemma FinesAreSame<T>(a: seq<Entry<T>>, b: seq<Entry<T>>)
    requires Same(a, b)
    ensures Same(Fines(a), Fines(b)) && (AllFine(a) <==> AllFine(b))
  {
    var mx: multiset<T>, my: multiset<T> := multiset(Fines(a)), multiset(Fines(b));
    forall e: T ensures mx[e] == my[e] {
      FinesCount(a, e);
      FinesCount(b, e);
    }
    Extensional(mx, my);
    FineCarries(a, b);
    FineCarries(b, a);
  }

  lemma FineCarries<T>(a: seq<Entry<T>>, b: seq<Entry<T>>)
    requires Same(a, b)
    ensures AllFine(a) ==> AllFine(b)
  {
    forall i | 0 <= i < |b| ensures AllFine(a) ==> b[i].Fine? {
      assert b[i] in multiset(b);
      assert b[i] in a;
    }
  }

  ghost predicate Reordered<T>(a: Listing<T>, b: Listing<T>) {
    if a.NoListing? then b.NoListing? else b.Listing? && b.total == a.total && Same(a.entries, b.entries)
  }

  /** The verdict on every gate is the same whatever the order of either list. */
  lemma OrderIsIrrelevant(c: Casing, sha: string, checks: Listing<CheckRun>, checks': Listing<CheckRun>,
                          workflows: Listing<Workflow>, workflows': Listing<Workflow>, k: nat)
    requires k < |GATES| && Reordered(checks, checks') && Reordered(workflows, workflows')
    ensures Verdict(Rows(c, sha, checks, workflows), GATES[k].name)
        == Verdict(Rows(c, sha, checks', workflows'), GATES[k].name)
  {
    hide Filter, Verdict, Rows, Readable;
    VerdictIsGates(c, sha, checks, workflows, k);
    VerdictIsGates(c, sha, checks', workflows', k);
    ReadableEitherWay(c, sha, checks, checks', workflows, workflows');
    if Readable(c, sha, checks, workflows) {
      Lists(c, sha, checks, workflows);
      FinesAreSame(checks.entries, checks'.entries);
      FinesAreSame(workflows.entries, workflows'.entries);
      GateEitherWay(c, sha, Fines(workflows.entries), Fines(workflows'.entries), Fines(checks.entries),
          Fines(checks'.entries), GATES[k]);
    }
  }

  lemma Lists(c: Casing, sha: string, checks: Listing<CheckRun>, workflows: Listing<Workflow>)
    requires Readable(c, sha, checks, workflows)
    ensures checks.Listing? && workflows.Listing?
  {
  }

  lemma GateEitherWay(c: Casing, sha: string, ws: seq<Workflow>, ws': seq<Workflow>, runs: seq<CheckRun>,
                      runs': seq<CheckRun>, g: Gate)
    requires Same(ws, ws') && Same(runs, runs')
    ensures GateVerdict(c, sha, Filter(ws, Owns(c, sha, g)), runs, g)
        == GateVerdict(c, sha, Filter(ws', Owns(c, sha, g)), runs', g)
    ensures NeedsRuns(Filter(ws, Owns(c, sha, g)), g) == NeedsRuns(Filter(ws', Owns(c, sha, g)), g)
  {
    hide Filter;
    FilterIsStable(ws, ws', Owns(c, sha, g));
    var own := Filter(ws, Owns(c, sha, g));
    if |own| == 1 { FilterIsStable(runs, runs', Matches(sha, g, own[0].suite)); }
  }

  lemma ReadableEitherWay(c: Casing, sha: string, checks: Listing<CheckRun>, checks': Listing<CheckRun>,
                          workflows: Listing<Workflow>, workflows': Listing<Workflow>)
    requires Reordered(checks, checks') && Reordered(workflows, workflows')
    ensures Readable(c, sha, checks, workflows) <==> Readable(c, sha, checks', workflows')
  {
    hide Filter, NeedsRuns;
    if checks.Listing? && workflows.Listing? {
      FinesAreSame(checks.entries, checks'.entries);
      FinesAreSame(workflows.entries, workflows'.entries);
      SameLength(checks.entries, checks'.entries);
      SameLength(workflows.entries, workflows'.entries);
      var ws, ws' := Fines(workflows.entries), Fines(workflows'.entries);
      forall i | 0 <= i < |GATES|
        ensures NeedsRuns(Filter(ws, Owns(c, sha, GATES[i])), GATES[i])
            == NeedsRuns(Filter(ws', Owns(c, sha, GATES[i])), GATES[i])
      {
        GateEitherWay(c, sha, ws, ws', [], [], GATES[i]);
      }
    }
  }

  // ---------------------------------------------------------------- in plain terms

  /** A run of this workflow for a push of this commit to main of the one repository. */
  function Pushes(c: Casing, sha: string, workflow: string, file: string): Workflow -> bool {
    (w: Workflow) =>
      && w.sha == sha && w.event == "push" && w.branch == "main" && c.lower(w.repository) == "westkitty/dex-reach"
      && w.name == workflow && w.path == file
  }

  /** A run of this job for this commit in this suite, by GitHub's own runner. */
  function RunsJob(name: string, sha: string, suite: int): CheckRun -> bool {
    (r: CheckRun) => r.name == name && r.sha == sha && r.suite == suite && r.app == "github-actions"
  }

  /** Entry i is the only one that satisfies p. */
  ghost predicate Only<T(!new)>(entries: seq<Entry<T>>, p: T -> bool, i: nat) {
    && i < |entries| && entries[i].Fine? && p(entries[i].value)
    && forall j :: 0 <= j < |entries| && entries[j].Fine? && p(entries[j].value) ==> j == i
  }

  lemma {:induction false} FilterOnce<T(!new)>(entries: seq<Entry<T>>, p: T -> bool)
    ensures |Filter(Fines(entries), p)| == 1 <==> exists i: nat :: Only(entries, p, i)
    ensures forall i: nat :: Only(entries, p, i) ==> Filter(Fines(entries), p) == [entries[i].value]
    ensures Filter(Fines(entries), p) == [] <==>
            forall i :: 0 <= i < |entries| && entries[i].Fine? ==> !p(entries[i].value)
  {
    if entries == [] {
      assert Filter<T>([], p) == [];
    } else {
      var front, end := entries[..|entries| - 1], entries[|entries| - 1];
      FilterOnce(front, p);
      OneMore(front, end, p);
      assert entries == front + [end];
      forall i: nat | Only(entries, p, i) ensures Filter(Fines(entries), p) == [entries[i].value] {
        if i < |front| { assert Only(front, p, i); }
      }
      if |Filter(Fines(entries), p)| == 1 {
        if end.Fine? && p(end.value) {
          assert Filter(Fines(front), p) == [];
          assert Only(entries, p, |front|);
        } else {
          var i: nat :| Only(front, p, i);
          assert Only(entries, p, i);
        }
      }
    }
  }

  lemma OneMore<T>(front: seq<Entry<T>>, end: Entry<T>, p: T -> bool)
    ensures Filter(Fines(front + [end]), p) ==
            Filter(Fines(front), p) + if end.Fine? && p(end.value) then [end.value] else []
  {
    assert (front + [end])[..|front|] == front;
    if end.Fine? {
      FilterConcat(Fines(front), [end.value], p);
      FilterOne(end.value, p);
    } else {
      assert Fines(front) + [] == Fines(front);
    }
  }

  /** The jobs: name, workflow and file. */
  const JOBS: seq<(string, string, string)> := [
    ("validate", "DEX validation", ".github/workflows/ci.yml"),
    ("runtime-proof", "DEX validation", ".github/workflows/ci.yml"),
    ("reproducible-build", "DEX validation", ".github/workflows/ci.yml"),
    ("analyze", "CodeQL", ".github/workflows/codeql.yml")]

  /** Workflow run i is the only one that owns the job, and it completed successfully. */
  ghost predicate OwnedBy(c: Casing, sha: string, entries: seq<Entry<Workflow>>, job: (string, string, string), i: nat)
  {
    && Only(entries, Pushes(c, sha, job.1, job.2), i)
    && entries[i].value.status == "completed" && entries[i].value.conclusion == Some("success")
  }

  /** The evidence is complete: a full commit id, lists that are as long as they say, and nothing malformed where it is
      looked at. */
  ghost predicate Complete(c: Casing, sha: string, checks: Listing<CheckRun>, workflows: Listing<Workflow>) {
    && |sha| == 40 && (forall x :: x in sha ==> x in "0123456789abcdef")
    && checks.Listing? && checks.total == |checks.entries|
    && workflows.Listing? && workflows.total == |workflows.entries|
    && (forall i :: 0 <= i < |workflows.entries| ==> workflows.entries[i].Fine?)
    && ((exists k: nat, i: nat :: 0 <= k < 4 && OwnedBy(c, sha, workflows.entries, JOBS[k], i)) ==>
          forall i :: 0 <= i < |checks.entries| ==> checks.entries[i].Fine?)
  }

  lemma HexDigit(x: char)
    ensures '0' <= x <= '9' || 'a' <= x <= 'f' <==> x in "0123456789abcdef"
  {
    var all := "0123456789abcdef";
    assert all[0] == '0' && all[1] == '1' && all[2] == '2' && all[3] == '3' && all[4] == '4' && all[5] == '5';
    assert all[6] == '6' && all[7] == '7' && all[8] == '8' && all[9] == '9' && all[10] == 'a' && all[11] == 'b';
    assert all[12] == 'c' && all[13] == 'd' && all[14] == 'e' && all[15] == 'f';
  }

  lemma ShaIs(sha: string)
    ensures IsSha(sha) <==> |sha| == 40 && forall x :: x in sha ==> x in "0123456789abcdef"
  {
    if IsSha(sha) {
      forall x | x in sha ensures x in "0123456789abcdef" {
        var i :| 0 <= i < |sha| && sha[i] == x;
        HexDigit(x);
      }
    }
    if |sha| == 40 && forall x :: x in sha ==> x in "0123456789abcdef" {
      forall i | 0 <= i < 40 ensures '0' <= sha[i] <= '9' || 'a' <= sha[i] <= 'f' {
        assert sha[i] in sha;
        HexDigit(sha[i]);
      }
    }
  }

  lemma OnlyAlike<T(!new)>(entries: seq<Entry<T>>, p: T -> bool, q: T -> bool)
    requires forall x :: p(x) <==> q(x)
    ensures forall i: nat :: Only(entries, p, i) <==> Only(entries, q, i)
  {
  }

  /** A gate's owners in plain terms. */
  lemma OwnersPlainly(c: Casing, sha: string, entries: seq<Entry<Workflow>>, g: Gate)
    ensures var own, p := Filter(Fines(entries), Owns(c, sha, g)), Pushes(c, sha, g.workflow, g.file);
            && (|own| == 1 <==> exists i: nat :: Only(entries, p, i))
            && (forall i: nat :: Only(entries, p, i) ==> own == [entries[i].value])
  {
    hide Filter, Fines;
    FilterOnce(entries, Owns(c, sha, g));
    forall w: Workflow ensures Owns(c, sha, g)(w) <==> Pushes(c, sha, g.workflow, g.file)(w) {
      assert OfCommit(c, sha)(w) <==> && w.sha == sha && w.event == "push" && w.branch == "main"
                                      && c.lower(w.repository) == "westkitty/dex-reach";
      assert OfGate(g)(w) <==> w.name == g.workflow && w.path == g.file;
    }
    OnlyAlike(entries, Owns(c, sha, g), Pushes(c, sha, g.workflow, g.file));
  }

  lemma RunsPlainly(sha: string, entries: seq<Entry<CheckRun>>, g: Gate, suite: int)
    ensures var found, p := Filter(Fines(entries), Matches(sha, g, suite)), RunsJob(g.name, sha, suite);
            && (|found| == 1 <==> exists i: nat :: Only(entries, p, i))
            && (forall i: nat :: Only(entries, p, i) ==> found == [entries[i].value])
  {
    hide Filter, Fines;
    FilterOnce(entries, Matches(sha, g, suite));
    OnlyAlike(entries, Matches(sha, g, suite), RunsJob(g.name, sha, suite));
  }

  lemma JobsAreGates(k: nat)
    requires k < 4
    ensures |JOBS| == 4 && |GATES| == 5 && GATES[k].name == JOBS[k].0 && GATES[k].workflow == JOBS[k].1
    ensures GATES[k].file == JOBS[k].2
    ensures IsJob(GATES[k]) && GATES[4] == Gate("CodeQL", "CodeQL", ".github/workflows/codeql.yml")
  {
    assert "CodeQL"[0] == 'C' && "validate"[0] == 'v' && "runtime-proof"[0] == 'r' && "reproducible-build"[0] == 'r';
    assert "analyze"[0] == 'a';
  }

  lemma NeedsPlainly(c: Casing, sha: string, entries: seq<Entry<Workflow>>, k: nat)
    requires k < 4
    ensures |GATES| == 5
    ensures NeedsRuns(Filter(Fines(entries), Owns(c, sha, GATES[k])), GATES[k]) <==>
            exists i: nat :: OwnedBy(c, sha, entries, JOBS[k], i)
  {
    hide Filter, Fines, JOBS, GATES, Pushes, Owns, IsJob;
    JobsAreGates(k);
    OwnersPlainly(c, sha, entries, GATES[k]);
    var p := Pushes(c, sha, JOBS[k].1, JOBS[k].2);
    if NeedsRuns(Filter(Fines(entries), Owns(c, sha, GATES[k])), GATES[k]) {
      var i: nat :| Only(entries, p, i);
      assert OwnedBy(c, sha, entries, JOBS[k], i);
    }
  }

  lemma ReadablePlainly(c: Casing, sha: string, checks: Listing<CheckRun>, workflows: Listing<Workflow>)
    ensures Readable(c, sha, checks, workflows) <==> Complete(c, sha, checks, workflows)
  {
    hide IsSha, Filter, Fines, NeedsRuns, OwnedBy, GATES, JOBS;
    ShaIs(sha);
    if workflows.Listing? {
      var entries := workflows.entries;
      JobsAreGates(0);
      assert !IsJob(GATES[4]);
      LastNeedsNone(Filter(Fines(entries), Owns(c, sha, GATES[4])));
      forall k | 0 <= k < 4
        ensures NeedsRuns(Filter(Fines(entries), Owns(c, sha, GATES[k])), GATES[k]) <==>
                exists i: nat :: OwnedBy(c, sha, entries, JOBS[k], i)
      {
        NeedsPlainly(c, sha, entries, k);
      }
      SomeNeeds(c, sha, entries);
    }
  }

  lemma LastNeedsNone(own: seq<Workflow>)
    ensures |GATES| == 5 && !NeedsRuns(own, GATES[4])
  {
  }

  lemma {:induction false} SomeNeeds(c: Casing, sha: string, entries: seq<Entry<Workflow>>)
    requires |GATES| == 5 && |JOBS| == 4 && !NeedsRuns(Filter(Fines(entries), Owns(c, sha, GATES[4])), GATES[4])
    requires forall k :: 0 <= k < 4 ==>
      (NeedsRuns(Filter(Fines(entries), Owns(c, sha, GATES[k])), GATES[k]) <==>
       exists i: nat :: OwnedBy(c, sha, entries, JOBS[k], i))
    ensures SomeGateNeedsRuns(c, sha, Fines(entries), GATES) <==>
            exists k: nat, i: nat :: 0 <= k < 4 && OwnedBy(c, sha, entries, JOBS[k], i)
  {
    hide Filter, Fines, NeedsRuns, OwnedBy, GATES, JOBS;
    if SomeGateNeedsRuns(c, sha, Fines(entries), GATES) {
      var k :| 0 <= k < |GATES| && NeedsRuns(Filter(Fines(entries), Owns(c, sha, GATES[k])), GATES[k]);
      assert k < 4;
      var i: nat :| OwnedBy(c, sha, entries, JOBS[k], i);
    }
  }

  /** HOSTED SUCCESS IN PLAIN TERMS, for a job: the evidence is complete, exactly one push run of the job's workflow on
      main of the repository is for this commit, and it succeeded, and exactly one check run of that name is in its
      suite, and it succeeded. */
  lemma JobSucceeds(c: Casing, sha: string, checks: Listing<CheckRun>, workflows: Listing<Workflow>, k: nat)
    requires k < 4
    ensures Verdict(Rows(c, sha, checks, workflows), JOBS[k].0) == Some("SUCCESS") <==>
            && Complete(c, sha, checks, workflows)
            && exists i: nat, j: nat ::
                 && OwnedBy(c, sha, workflows.entries, JOBS[k], i)
                 && Only(checks.entries, RunsJob(JOBS[k].0, sha, workflows.entries[i].value.suite), j)
                 && c.upper(checks.entries[j].value.status) == "COMPLETED"
                 && c.upper(Text(checks.entries[j].value.conclusion)) == "SUCCESS"
  {
    hide Rows, Verdict, Filter, Fines, Readable, Complete, GATES, JOBS, Owns, Matches, Pushes, RunsJob, IsJob;
    JobsAreGates(k);
    SuccessIsExact(c, sha, checks, workflows, k);
    ReadablePlainly(c, sha, checks, workflows);
    if Readable(c, sha, checks, workflows) {
      Lists(c, sha, checks, workflows);
      JobSatisfied(c, sha, checks.entries, workflows.entries, k);
    }
  }

  lemma JobSatisfied(c: Casing, sha: string, checks: seq<Entry<CheckRun>>, workflows: seq<Entry<Workflow>>, k: nat)
    requires k < 4
    ensures |GATES| == 5
    ensures Satisfied(c, sha, Fines(workflows), Fines(checks), GATES[k]) <==>
            exists i: nat, j: nat ::
              && OwnedBy(c, sha, workflows, JOBS[k], i)
              && Only(checks, RunsJob(JOBS[k].0, sha, workflows[i].value.suite), j)
              && c.upper(checks[j].value.status) == "COMPLETED"
              && c.upper(Text(checks[j].value.conclusion)) == "SUCCESS"
  {
    hide Filter, Fines, GATES, JOBS, Owns, Matches, Pushes, RunsJob, IsJob, Text;
    JobsAreGates(k);
    OwnersPlainly(c, sha, workflows, GATES[k]);
    if i: nat :| Only(workflows, Pushes(c, sha, JOBS[k].1, JOBS[k].2), i) {
      RunsPlainly(sha, checks, GATES[k], workflows[i].value.suite);
      if Satisfied(c, sha, Fines(workflows), Fines(checks), GATES[k]) {
        var j: nat :| Only(checks, RunsJob(JOBS[k].0, sha, workflows[i].value.suite), j);
        assert OwnedBy(c, sha, workflows, JOBS[k], i);
      }
    }
  }

  /** And for the analysis as a whole: exactly one push run of its workflow, and it succeeded. */
  lemma AnalysisSucceeds(c: Casing, sha: string, checks: Listing<CheckRun>, workflows: Listing<Workflow>)
    ensures Verdict(Rows(c, sha, checks, workflows), "CodeQL") == Some("SUCCESS") <==>
            && Complete(c, sha, checks, workflows)
            && exists i: nat ::
                 && Only(workflows.entries, Pushes(c, sha, "CodeQL", ".github/workflows/codeql.yml"), i)
                 && c.upper(workflows.entries[i].value.status) == "COMPLETED"
                 && c.upper(Text(workflows.entries[i].value.conclusion)) == "SUCCESS"
  {
    hide Rows, Verdict, Filter, Fines, Readable, Complete, Owns, Matches, Pushes, Text;
    JobsAreGates(0);
    SuccessIsExact(c, sha, checks, workflows, 4);
    ReadablePlainly(c, sha, checks, workflows);
    if Readable(c, sha, checks, workflows) {
      Lists(c, sha, checks, workflows);
      OwnersPlainly(c, sha, workflows.entries, GATES[4]);
    }
  }

  /** What one row says: INCOMPLETE unless its status is COMPLETED, or it has no status but a state; then its
      conclusion, or else its state. */
  lemma OutcomeIs(r: Row)
    ensures r.status == Some("COMPLETED") && r.conclusion.Some? ==> Outcome(r) == r.conclusion.value
    ensures r.status.Some? && r.status != Some("COMPLETED") ==> Outcome(r) == "INCOMPLETE"
    ensures r.status.None? && r.state.None? ==> Outcome(r) == "INCOMPLETE"
    ensures r.status.None? && r.state.Some? ==>
      Outcome(r) == if r.conclusion.Some? then r.conclusion.value else r.state.value
    ensures r.status == Some("COMPLETED") && r.conclusion.None? ==>
      Outcome(r) == if r.state.Some? then r.state.value else ""
    ensures NameOf(r) == if r.name.Some? then r.name.value else if r.context.Some? then r.context.value else ""
  {
  }
}
