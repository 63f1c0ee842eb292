/** The dependency-audit gate: a production audit report passes only when its blocking findings and the owner's
    exceptions match exactly. Severities, advisory ids read from URLs and node lists are taken as already extracted
    from the JSON. */
module AuditGate {
  import opened FileTree
  import opened Names

  // ---------------------------------------------------------------- the report

  /** One reason a package is affected: through another package, or by an advisory of its own, whose id is None when its
      URL names no GHSA advisory. */
  datatype Via = Through | Advisory(name: Option<string>, severity: string, id: Option<string>)

  datatype Vulnerability = Vulnerability(name: string, severity: string, via: seq<Via>, nodes: seq<string>)

  /** A declared count that is no number never agrees. */
  datatype Count = Number(n: int) | NotANumber

  datatype Report = Unusable | Report(vulnerabilities: seq<Vulnerability>, declared: Option<Count>)

  datatype Finding = Finding(advisory: string, package: string, path: string)

  datatype Exception = Exception(advisory: string, package: string, path: string, version: string,
                                 dependents: seq<string>, approvedOn: string, expiresOn: string)

  predicate Blocking(severity: string) {
    severity == "high" || severity == "critical"
  }

  predicate Blocks(a: Via) {
    a.Advisory? && Blocking(a.severity)
  }

  predicate Direct(v: Vulnerability) {
    exists j :: 0 <= j < |v.via| && Blocks(v.via[j])
  }

  /** Affected only through a dependency. */
  predicate Propagated(v: Vulnerability) {
    !Direct(v) && Blocking(v.severity)
  }

  function PackageOf(v: Vulnerability, a: Via): string
    requires a.Advisory?
  {
    if a.name.Some? then a.name.value else v.name
  }

  // ---------------------------------------------------------------- what the gate promises

  predicate FoundBy(v: Vulnerability, f: Finding) {
    f.path in v.nodes && exists j ::
        0 <= j < |v.via| && Blocks(v.via[j]) && v.via[j].id == Some(f.advisory)
        && PackageOf(v, v.via[j]) == f.package
  }

  predicate Found(vs: seq<Vulnerability>, f: Finding) {
    exists i :: 0 <= i < |vs| && FoundBy(vs[i], f)
  }

  function Triple(e: Exception): Finding {
    Finding(e.advisory, e.package, e.path)
  }

  predicate Excepted(es: seq<Exception>, f: Finding) {
    exists i :: 0 <= i < |es| && Triple(es[i]) == f
  }

  predicate Reached(vs: seq<Vulnerability>, node: string) {
    exists i :: 0 <= i < |vs| && Propagated(vs[i]) && node in vs[i].nodes
  }

  predicate Approved(es: seq<Exception>, node: string) {
    exists i :: 0 <= i < |es| && node in es[i].dependents
  }

  /** Every blocking advisory has a GHSA id, and every blocking entry says where it sits. */
  predicate Located(v: Vulnerability) {
    && (forall j :: 0 <= j < |v.via| && Blocks(v.via[j]) ==> v.via[j].id.Some? && v.nodes != [])
    && (Propagated(v) ==> v.nodes != [])
  }

  function BlockingEntries(vs: seq<Vulnerability>): nat {
    if vs == [] then 0 else BlockingEntries(vs[..|vs| - 1]) + if Blocking(vs[|vs| - 1].severity) then 1 else 0
  }

  /** Approved for the version the lockfile has, and not past its date. */
  predicate Current(e: Exception, lock: map<string, string>, today: string) {
    !Less(e.expiresOn, today) && e.path in lock && lock[e.path] == e.version
  }

  ghost predicate Passes(r: Report, es: seq<Exception>, lock: map<string, string>, today: string) {
    && r.Report?
    && (forall i :: 0 <= i < |r.vulnerabilities| ==> Located(r.vulnerabilities[i]))
    && (r.declared.Some? ==> r.declared.value == Number(BlockingEntries(r.vulnerabilities)))
    && NoRepeats(es)
    && SameFindings(r.vulnerabilities, es) && SameDependents(r.vulnerabilities, es)
    && (forall i :: 0 <= i < |es| ==> Current(es[i], lock, today))
  }

  ghost predicate SameFindings(vs: seq<Vulnerability>, es: seq<Exception>) {
    forall f :: Found(vs, f) <==> Excepted(es, f)
  }

  ghost predicate SameDependents(vs: seq<Vulnerability>, es: seq<Exception>) {
    forall node :: Reached(vs, node) <==> Approved(es, node)
  }

  /** Passing on a date is passing on every earlier date. */
  lemma {:induction false} PassesEarlier(r: Report, es: seq<Exception>, lock: map<string, string>, today: string,
                                         earlier: string)
    requires Passes(r, es, lock, today) && (earlier == today || Less(earlier, today))
    ensures Passes(r, es, lock, earlier)
  {
    forall i | 0 <= i < |es| ensures Current(es[i], lock, earlier) {
      assert Current(es[i], lock, today);
      if Less(es[i].expiresOn, earlier) && earlier != today { LessTransitive(es[i].expiresOn, earlier, today); }
    }
  }

  // ---------------------------------------------------------------- the gate

  datatype Failure = Failure(code: string, subject: string)

  datatype Gate = Gate(ok: bool, findings: seq<Finding>, excepted: seq<Finding>, failures: seq<Failure>)

  /** The first exception for a finding. */
  function First(es: seq<Exception>, f: Finding): (r: Option<nat>)
    ensures r.Some? ==> r.value < |es| && Triple(es[r.value]) == f && forall i :: 0 <= i < r.value ==>
      Triple(es[i]) != f
    ensures r.None? <==> !Excepted(es, f)
  {
    if es == [] then None
    else if Triple(es[0]) == f then Some(0)
    else
      assert forall i :: 0 < i < |es| ==> es[i] == es[1..][i - 1];
      assert Excepted(es[1..], f) <==> Excepted(es, f) by {
        if i :| 0 <= i < |es[1..]| && Triple(es[1..][i]) == f { assert Triple(es[i + 1]) == f; }
      }
      match First(es[1..], f)
      case None => None
      case Some(i) => Some(i + 1)
  }

  /** The findings of one entry: each blocking advisory with an id, at each node. */
  method Scan(v: Vulnerability) returns (findings: seq<Finding>, direct: bool, failures: seq<Failure>)
    ensures forall f :: f in findings <==> FoundBy(v, f)
    ensures direct == Direct(v)
    ensures failures == [] <==> forall j :: 0 <= j < |v.via| && Blocks(v.via[j]) ==> v.via[j].id.Some? && v.nodes != []
  {
    findings, direct, failures := [], false, [];
    for j := 0 to |v.via|
      invariant forall f :: f in findings <==> FoundBy(v.(via := v.via[..j]), f)
      invariant direct == exists k :: 0 <= k < j && Blocks(v.via[k])
      invariant failures == [] <==> forall k :: 0 <= k < j && Blocks(v.via[k]) ==> v.via[k].id.Some? && v.nodes != []
    {
      var a := v.via[j];
      assert v.via[..j + 1] == v.via[..j] + [a];
      FoundNext(v, j);
      if Blocks(a) {
        direct := true;
        if a.id.None? {
          failures := failures + [Failure("without GHSA url", v.name)];
        } else {
          if v.nodes == [] { failures := failures + [Failure("without node paths", v.name)]; }
          var added := seq(|v.nodes|,
              k requires 0 <= k < |v.nodes| => Finding(a.id.value, PackageOf(v, a), v.nodes[k]));
          assert forall f :: f in added <==>
              f.path in v.nodes && f.advisory == a.id.value && f.package == PackageOf(v, a) by {
            forall f: Finding | f.path in v.nodes && f.advisory == a.id.value && f.package == PackageOf(v, a)
              ensures f in added
            {
              var k :| 0 <= k < |v.nodes| && v.nodes[k] == f.path;
              assert added[k] == f;
            }
          }
          findings := findings + added;
        }
      }
    }
    assert v.via[..|v.via|] == v.via;
  }

  lemma {:induction false} FoundNext(v: Vulnerability, j: nat)
    requires j < |v.via|
    ensures forall f :: FoundBy(v.(via := v.via[..j + 1]), f) <==>
              || FoundBy(v.(via := v.via[..j]), f)
              || (f.path in v.nodes && Blocks(v.via[j]) && v.via[j].id == Some(f.advisory)
                  && PackageOf(v, v.via[j]) == f.package)
  {
    var a, b := v.(via := v.via[..j]), v.(via := v.via[..j + 1]);
    forall f ensures FoundBy(b, f) <==>
      || FoundBy(a, f)
      || (f.path in v.nodes && Blocks(v.via[j]) && v.via[j].id == Some(f.advisory)
          && PackageOf(v, v.via[j]) == f.package)
    {
      if FoundBy(a, f) {
        var k :| 0 <= k < j && Blocks(a.via[k]) && a.via[k].id == Some(f.advisory)
            && PackageOf(a, a.via[k]) == f.package;
        assert b.via[k] == a.via[k];
      }
      if FoundBy(b, f) {
        var k :| 0 <= k < j + 1 && Blocks(b.via[k]) && b.via[k].id == Some(f.advisory)
            && PackageOf(b, b.via[k]) == f.package;
        if k < j { assert a.via[k] == b.via[k]; }
      }
      if f.path in v.nodes && Blocks(v.via[j]) && v.via[j].id == Some(f.advisory)
          && PackageOf(v, v.via[j]) == f.package {
        assert b.via[j] == v.via[j];
      }
    }
  }

  /** Every blocking finding, every entry affected only through a dependency, and the number of blocking entries. */
  method Collect(vs: seq<Vulnerability>)
    returns (findings: seq<Finding>, propagated: seq<Vulnerability>, blocking: nat, failures: seq<Failure>)
    ensures forall f :: f in findings <==> Found(vs, f)
    ensures forall v :: v in propagated <==> v in vs && Propagated(v)
    ensures blocking == BlockingEntries(vs)
    ensures failures == [] <==> forall i :: 0 <= i < |vs| ==> Tidy(vs[i])
  {
    hide FoundBy, Blocking, Direct, Tidy;
    findings, propagated, blocking, failures := [], [], 0, [];
    for i := 0 to |vs|
      invariant forall f :: f in findings <==> Found(vs[..i], f)
      invariant forall v :: v in propagated <==> v in vs[..i] && Propagated(v)
      invariant blocking == BlockingEntries(vs[..i])
      invariant failures == [] <==> forall k :: 0 <= k < i ==> Tidy(vs[k])
    {
      var v := vs[i];
      assert vs[..i + 1] == vs[..i] + [v] && vs[..i + 1][..i] == vs[..i];
      var found, direct, bad := Scan(v);
      TidyIs(v, bad);
      FoundAlso(vs, i);
      if Blocking(v.severity) { blocking := blocking + 1; }
      findings, failures := findings + found, failures + bad;
      if !direct && Blocking(v.severity) { propagated := propagated + [v]; }
    }
    assert vs[..|vs|] == vs;
  }

  /** Every blocking advisory of the entry has an id and a place. */
  predicate Tidy(v: Vulnerability) {
    forall j :: 0 <= j < |v.via| && Blocks(v.via[j]) ==> v.via[j].id.Some? && v.nodes != []
  }

  lemma {:induction false} TidyIs(v: Vulnerability, bad: seq<Failure>)
    requires bad == [] <==> forall j :: 0 <= j < |v.via| && Blocks(v.via[j]) ==> v.via[j].id.Some? && v.nodes != []
    ensures bad == [] <==> Tidy(v)
  {
  }

  lemma {:induction false} FoundAlso(vs: seq<Vulnerability>, i: nat)
    requires i < |vs|
    ensures forall f :: Found(vs[..i + 1], f) <==> Found(vs[..i], f) || FoundBy(vs[i], f)
  {
    hide FoundBy;
    forall f ensures Found(vs[..i + 1], f) <==> Found(vs[..i], f) || FoundBy(vs[i], f) {
      if Found(vs[..i], f) {
        var k :| 0 <= k < i && FoundBy(vs[..i][k], f);
        assert vs[..i + 1][k] == vs[..i][k];
      }
      if FoundBy(vs[i], f) { assert vs[..i + 1][i] == vs[i]; }
      if Found(vs[..i + 1], f) {
        var k :| 0 <= k < i + 1 && FoundBy(vs[..i + 1][k], f);
        if k < i { assert vs[..i][k] == vs[..i + 1][k]; }
      }
    }
  }

  /** Each finding against the exceptions, and which exceptions were used. */
  method MatchFindings(findings: seq<Finding>, es: seq<Exception>)
    returns (used: set<nat>, excepted: seq<Finding>, failures: seq<Failure>)
    ensures failures == [] <==> forall f :: f in findings ==> Excepted(es, f)
    ensures forall i :: i in used <==> exists k :: 0 <= k < |findings| && First(es, findings[k]) == Some(i)
    ensures forall f :: f in excepted <==> f in findings && Excepted(es, f)
  {
    hide Excepted, First;
    used, excepted, failures := {}, [], [];
    for k := 0 to |findings|
      invariant failures == [] <==> forall j :: 0 <= j < k ==> Excepted(es, findings[j])
      invariant forall i :: i in used <==> exists j :: 0 <= j < k && First(es, findings[j]) == Some(i)
      invariant forall f :: f in excepted <==> f in findings[..k] && Excepted(es, f)
    {
      assert findings[..k + 1] == findings[..k] + [findings[k]];
      var first := First(es, findings[k]);
      if first.None? {
        failures := failures + [Failure("not excepted", findings[k].advisory)];
      } else {
        used := used + {first.value};
        excepted := excepted + [findings[k]];
      }
    }
    assert findings[..|findings|] == findings;
  }

  /** Affected packages must be approved dependents of a used exception. */
  method CheckPropagated(propagated: seq<Vulnerability>, approved: set<string>) returns (failures: seq<Failure>)
    ensures failures == [] <==> (forall v :: v in propagated ==> v.nodes != []) && NoStrays(propagated, approved)
  {
    failures := [];
    for i := 0 to |propagated|
      invariant failures == [] <==> forall j :: 0 <= j < i ==> Admissible(propagated[j], approved)
    {
      ghost var before := failures;
      var v := propagated[i];
      for k := 0 to |v.nodes|
        invariant failures == [] <==> before == [] && forall j :: 0 <= j < k ==> v.nodes[j] in approved
      {
        if v.nodes[k] !in approved { failures := failures + [Failure("not an approved dependent", v.nodes[k])]; }
      }
      if v.nodes == [] { failures := failures + [Failure("without node paths", v.name)]; }
      assert Admissible(v, approved) <==> v.nodes != [] && forall j :: 0 <= j < |v.nodes| ==> v.nodes[j] in approved;
    }
    assert (forall j :: 0 <= j < |propagated| ==> Admissible(propagated[j], approved)) <==>
        forall v :: v in propagated ==> Admissible(v, approved);
  }

  predicate Admissible(v: Vulnerability, approved: set<string>) {
    v.nodes != [] && forall n :: n in v.nodes ==> n in approved
  }

  /** Every exception must be current and used, and its dependents must still be reported. */
  method CheckExceptions(es: seq<Exception>, used: set<nat>, propagated: seq<Vulnerability>, lock: map<string, string>,
                         today: string)
      returns (failures: seq<Failure>)
    ensures failures == [] <==>
            forall i :: 0 <= i < |es| ==> Current(es[i], lock, today) && i in used && Reported(es[i], propagated)
  {
    hide Current, Reported;
    failures := [];
    for i := 0 to |es|
      invariant failures == [] <==>
                forall j :: 0 <= j < i ==> Current(es[j], lock, today) && j in used && Reported(es[j], propagated)
    {
      var e := es[i];
      if !Current(e, lock, today) { failures := failures + [Failure("expired or stale", e.advisory)]; }
      if i !in used {
        failures := failures + [Failure("matches no current finding", e.advisory)];
      } else {
        var missing := CheckDependents(e, propagated);
        failures := failures + missing;
      }
    }
  }

  predicate Reported(e: Exception, propagated: seq<Vulnerability>) {
    forall d :: d in e.dependents ==> exists v :: v in propagated && d in v.nodes
  }

  /** The dependents are looked for among the nodes of entries that share any of them. */
  method CheckDependents(e: Exception, propagated: seq<Vulnerability>) returns (failures: seq<Failure>)
    ensures failures == [] <==> Reported(e, propagated)
  {
    var actual: set<string> := {};
    for i := 0 to |propagated|
      invariant forall n :: n in actual <==> exists j ::
          0 <= j < i && n in propagated[j].nodes
          && Shares(e, propagated[j])
    {
      if Shares(e, propagated[i]) { actual := actual + set n | n in propagated[i].nodes; }
    }
    failures := [];
    for k := 0 to |e.dependents|
      invariant failures == [] <==> forall j :: 0 <= j < k ==> e.dependents[j] in actual
    {
      if e.dependents[k] !in actual { failures := failures + [Failure("no longer reported", e.dependents[k])]; }
    }
    forall d | d in e.dependents ensures d in actual <==> exists v :: v in propagated && d in v.nodes {
      if v :| v in propagated && d in v.nodes {
        var j :| 0 <= j < |propagated| && propagated[j] == v;
        assert Shares(e, propagated[j]);
      }
    }
  }

  predicate Shares(e: Exception, v: Vulnerability) {
    exists n :: n in v.nodes && n in e.dependents
  }

  /** THE GATE IS EXACT. It passes if and only if the report is usable and located, its declared counts agree,
      blocking findings and exceptions match one to one by advisory, package and path, the nodes affected through
      dependencies are exactly the approved dependents, and every exception is current. */
  method EvaluateAudit(r: Report, es: seq<Exception>, lock: map<string, string>, today: string) returns (g: Gate)
    ensures g.ok <==> Passes(r, es, lock, today)
    ensures g.ok <==> g.failures == []
    ensures r.Report? ==>
      forall f :: (f in g.findings <==> Found(r.vulnerabilities, f))
          && (f in g.excepted <==> f in g.findings && Excepted(es, f))
  {
    hide Passes, Found, Excepted, Propagated, Current, Reported, Tidy, NoStrays;
    if r.Unusable? {
      assert !Passes(r, es, lock, today) by { NotUsable(r, es, lock, today); }
      return Gate(false, [], [], [Failure("unusable report", "")]);
    }
    var findings, propagated, blocking, failures := Collect(r.vulnerabilities);
    ghost var tidy := failures == [];
    var counted := r.declared.None? || r.declared.value == Number(blocking);
    if !counted { failures := failures + [Failure("inconsistent counts", "")]; }
    var used, excepted, unmatched := MatchFindings(findings, es);
    var approved := set i, n | i in used && i < |es| && n in es[i].dependents :: n;
    var strays := CheckPropagated(propagated, approved);
    var stale := CheckExceptions(es, used, propagated, lock, today);
    Exactly(r, es, lock, today, findings, propagated, used, approved);
    failures := failures + unmatched + strays + stale;
    g := Gate(failures == [], findings, excepted, failures);
  }

  lemma {:induction false} NotUsable(r: Report, es: seq<Exception>, lock: map<string, string>, today: string)
    requires r.Unusable?
    ensures !Passes(r, es, lock, today)
  {
  }

  /** The checks of the gate, taken together, against what it promises. */
  lemma {:induction false} Exactly(r: Report, es: seq<Exception>, lock: map<string, string>, today: string,
                findings: seq<Finding>, propagated: seq<Vulnerability>, used: set<nat>, approved: set<string>)
    requires r.Report?
    requires forall f :: f in findings <==> Found(r.vulnerabilities, f)
    requires forall v :: v in propagated <==> v in r.vulnerabilities && Propagated(v)
    requires forall i :: i in used <==> exists k :: 0 <= k < |findings| && First(es, findings[k]) == Some(i)
    requires forall n :: n in approved <==> exists i :: i in used && i < |es| && n in es[i].dependents
    ensures Passes(r, es, lock, today) <==>
            && (forall i :: 0 <= i < |r.vulnerabilities| ==> Tidy(r.vulnerabilities[i]))
            && (r.declared.Some? ==> r.declared.value == Number(BlockingEntries(r.vulnerabilities)))
            && (forall f :: f in findings ==> Excepted(es, f))
            && (forall v :: v in propagated ==> v.nodes != []) && NoStrays(propagated, approved)
            && (forall i :: 0 <= i < |es| ==> Current(es[i], lock, today) && i in used && Reported(es[i], propagated))
  {
    hide Found, Excepted, First, Current, Reported, Propagated, Tidy, SameFindings, SameDependents, NoRepeats, Located;
    OneToOne(r.vulnerabilities, es, findings, used);
    if forall i :: 0 <= i < |es| ==> i in used { SameNodes(r.vulnerabilities, es, propagated, used, approved); }
    AllLocated(r.vulnerabilities, propagated);
  }

  predicate NoRepeats(es: seq<Exception>) {
    forall i, j :: 0 <= i < j < |es| ==> Triple(es[i]) != Triple(es[j])
  }

  /** All findings matched and all exceptions used is a one-to-one match. */
  lemma {:induction false} OneToOne(vs: seq<Vulnerability>, es: seq<Exception>, findings: seq<Finding>, used: set<nat>)
    requires forall f :: f in findings <==> Found(vs, f)
    requires forall i :: i in used <==> exists k :: 0 <= k < |findings| && First(es, findings[k]) == Some(i)
    ensures (forall f :: f in findings ==> Excepted(es, f)) && (forall i :: 0 <= i < |es| ==> i in used) <==>
            NoRepeats(es) && SameFindings(vs, es)
  {
    hide Found, First;
    if (forall f :: f in findings ==> Excepted(es, f)) && (forall i :: 0 <= i < |es| ==> i in used) {
      forall i, j | 0 <= i < j < |es| ensures Triple(es[i]) != Triple(es[j]) {
        assert j in used;
        var k :| 0 <= k < |findings| && First(es, findings[k]) == Some(j);
      }
      forall f | Excepted(es, f) ensures Found(vs, f) {
        var i :| 0 <= i < |es| && Triple(es[i]) == f;
        assert i in used;
        var k :| 0 <= k < |findings| && First(es, findings[k]) == Some(i);
        assert findings[k] in findings;
      }
    }
    if NoRepeats(es) && SameFindings(vs, es) {
      forall i | 0 <= i < |es| ensures i in used {
        assert Excepted(es, Triple(es[i]));
        var k :| 0 <= k < |findings| && findings[k] == Triple(es[i]);
        var m := First(es, findings[k]);
        assert m == Some(i);
      }
    }
  }

  predicate NoStrays(propagated: seq<Vulnerability>, approved: set<string>) {
    forall v, n :: v in propagated && n in v.nodes ==> n in approved
  }

  /** With every exception used, approved and reported nodes coincide exactly when neither has a stray. */
  lemma {:induction false} SameNodes(vs: seq<Vulnerability>, es: seq<Exception>, propagated: seq<Vulnerability>,
                                     used: set<nat>, approved: set<string>)
    requires forall v :: v in propagated <==> v in vs && Propagated(v)
    requires forall i :: 0 <= i < |es| ==> i in used
    requires forall n :: n in approved <==> exists i :: i in used && i < |es| && n in es[i].dependents
    ensures NoStrays(propagated, approved) && (forall i :: 0 <= i < |es| ==> Reported(es[i], propagated)) <==>
            SameDependents(vs, es)
  {
    hide Propagated;
    forall n ensures n in approved <==> Approved(es, n) {
      if Approved(es, n) { var i :| 0 <= i < |es| && n in es[i].dependents; assert i in used; }
    }
    forall n ensures Reached(vs, n) <==> exists v :: v in propagated && n in v.nodes {
      if v :| v in propagated && n in v.nodes { var i :| 0 <= i < |vs| && vs[i] == v; }
      if Reached(vs, n) { var i :| 0 <= i < |vs| && Propagated(vs[i]) && n in vs[i].nodes; assert vs[i] in propagated; }
    }
    if SameDependents(vs, es) {
      forall v, n | v in propagated && n in v.nodes ensures n in approved { assert Reached(vs, n); }
      forall i | 0 <= i < |es| ensures Reported(es[i], propagated) {
        forall d | d in es[i].dependents ensures exists v :: v in propagated && d in v.nodes { assert Approved(es, d); }
      }
    }
    if NoStrays(propagated, approved) && (forall i :: 0 <= i < |es| ==> Reported(es[i], propagated)) {
      forall node ensures Reached(vs, node) <==> Approved(es, node) {
        if Approved(es, node) {
          var i :| 0 <= i < |es| && node in es[i].dependents;
          assert Reported(es[i], propagated);
        }
      }
    }
  }

  lemma {:induction false} AllLocated(vs: seq<Vulnerability>, propagated: seq<Vulnerability>)
    requires forall v :: v in propagated <==> v in vs && Propagated(v)
    ensures (forall i :: 0 <= i < |vs| ==> Located(vs[i])) <==>
            (forall i :: 0 <= i < |vs| ==> Tidy(vs[i])) && forall v :: v in propagated ==> v.nodes != []
  {
    hide Propagated;
    assert forall i :: 0 <= i < |vs| && Propagated(vs[i]) ==> vs[i] in propagated;
    if (forall i :: 0 <= i < |vs| ==> Tidy(vs[i])) && forall v :: v in propagated ==> v.nodes != [] {
      forall i | 0 <= i < |vs| ensures Located(vs[i]) { assert Tidy(vs[i]); }
    }
    if forall i :: 0 <= i < |vs| ==> Located(vs[i]) {
      forall i | 0 <= i < |vs| ensures Tidy(vs[i]) { assert Located(vs[i]); }
      forall v | v in propagated ensures v.nodes != [] { var i :| 0 <= i < |vs| && vs[i] == v; assert Located(vs[i]); }
    }
  }

  // ---------------------------------------------------------------- the gate in plain terms

  /** An advisory of high or critical severity. */
  predicate Serious(a: Via) {
    a.Advisory? && a.severity in {"high", "critical"}
  }

  /** One of the entry's advisories, at one of its nodes, and whose package it names. */
  predicate Shows(v: Vulnerability, j: nat, k: nat, f: Finding)
    requires j < |v.via| && k < |v.nodes|
  {
    && Serious(v.via[j]) && v.via[j].id == Some(f.advisory) && f.path == v.nodes[k]
    && f.package == match v.via[j].name { case Some(name) => name case None => v.name }
  }

  ghost predicate ShownIn(vs: seq<Vulnerability>, f: Finding) {
    exists i: nat, j: nat, k: nat :: i < |vs| && j < |vs[i].via| && k < |vs[i].nodes| && Shows(vs[i], j, k, f)
  }

  ghost predicate Waived(es: seq<Exception>, f: Finding) {
    exists e :: 0 <= e < |es| && es[e].advisory == f.advisory && es[e].package == f.package && es[e].path == f.path
  }

  /** A node of a serious entry that has no serious advisory of its own. */
  ghost predicate Dragged(vs: seq<Vulnerability>, node: string) {
    exists i :: && 0 <= i < |vs| && vs[i].severity in {"high", "critical"} && node in vs[i].nodes
                && forall j :: 0 <= j < |vs[i].via| ==> !Serious(vs[i].via[j])
  }

  ghost predicate Listed(es: seq<Exception>, node: string) {
    exists e, d :: 0 <= e < |es| && 0 <= d < |es[e].dependents| && es[e].dependents[d] == node
  }

  /** Every serious advisory has an id and a place, and so has an entry that is serious without one. */
  predicate Placed(v: Vulnerability) {
    && (forall j :: 0 <= j < |v.via| && Serious(v.via[j]) ==> v.via[j].id.Some?)
    && (v.nodes == [] ==> v.severity !in {"high", "critical"} && forall j :: 0 <= j < |v.via| ==> !Serious(v.via[j]))
  }

  /** THE GATE IN PLAIN TERMS. Everything serious is placed; what the report declares is the number of serious entries;
      every finding has exactly one exception and every exception is for a finding; the nodes of serious entries
      without a serious advisory of their own are exactly the exceptions' dependents; and every exception is for the
      locked version and has not expired. */
  ghost predicate PlainlyPasses(r: Report, es: seq<Exception>, lock: map<string, string>, today: string) {
    && r.Report?
    && (forall i :: 0 <= i < |r.vulnerabilities| ==> Placed(r.vulnerabilities[i]))
    && (r.declared.None? || r.declared == Some(Number(SeriousEntries(r.vulnerabilities))))
    && (forall f :: ShownIn(r.vulnerabilities, f) <==> Waived(es, f))
    && (forall node :: Dragged(r.vulnerabilities, node) <==> Listed(es, node))
    && (forall d, e :: 0 <= d < e < |es| ==>
          es[d].advisory != es[e].advisory || es[d].package != es[e].package || es[d].path != es[e].path)
    && (forall e :: 0 <= e < |es| ==>
          !Less(es[e].expiresOn, today) && es[e].path in lock && lock[es[e].path] == es[e].version)
  }

  ghost function SeriousEntries(vs: seq<Vulnerability>): nat {
    |set i | 0 <= i < |vs| && vs[i].severity in {"high", "critical"}|
  }

  lemma {:induction false} FoundPlainly(vs: seq<Vulnerability>, f: Finding)
    ensures Found(vs, f) <==> ShownIn(vs, f)
  {
    if Found(vs, f) {
      var i :| 0 <= i < |vs| && FoundBy(vs[i], f);
      var j :| 0 <= j < |vs[i].via| && Blocks(vs[i].via[j]) && vs[i].via[j].id == Some(f.advisory)
               && PackageOf(vs[i], vs[i].via[j]) == f.package;
      var k :| 0 <= k < |vs[i].nodes| && vs[i].nodes[k] == f.path;
      assert Shows(vs[i], j, k, f);
    }
    if ShownIn(vs, f) {
      var i: nat, j: nat, k: nat :| i < |vs| && j < |vs[i].via| && k < |vs[i].nodes| && Shows(vs[i], j, k, f);
      assert FoundBy(vs[i], f);
    }
  }

  lemma {:induction false} ExceptedPlainly(es: seq<Exception>, f: Finding)
    ensures Excepted(es, f) <==> Waived(es, f)
  {
    if Waived(es, f) {
      var e :| 0 <= e < |es| && es[e].advisory == f.advisory && es[e].package == f.package && es[e].path == f.path;
      assert Triple(es[e]) == f;
    }
  }

  lemma SeriousPlainly(v: Vulnerability)
    ensures forall j :: 0 <= j < |v.via| ==> (Serious(v.via[j]) <==> Blocks(v.via[j]))
    ensures Propagated(v) <==>
            v.severity in {"high", "critical"} && forall j :: 0 <= j < |v.via| ==> !Serious(v.via[j])
    ensures Located(v) <==> Placed(v)
  {
  }

  lemma {:induction false} ReachedPlainly(vs: seq<Vulnerability>, node: string)
    ensures Reached(vs, node) <==> Dragged(vs, node)
  {
    hide Propagated, Serious;
    if Reached(vs, node) {
      var i :| 0 <= i < |vs| && Propagated(vs[i]) && node in vs[i].nodes;
      SeriousPlainly(vs[i]);
    }
    if Dragged(vs, node) {
      var i :| && 0 <= i < |vs| && vs[i].severity in {"high", "critical"} && node in vs[i].nodes
               && forall j :: 0 <= j < |vs[i].via| ==> !Serious(vs[i].via[j]);
      SeriousPlainly(vs[i]);
    }
  }

  lemma {:induction false} CountPlainly(vs: seq<Vulnerability>)
    ensures BlockingEntries(vs) == SeriousEntries(vs)
  {
    var all := set i | 0 <= i < |vs| && vs[i].severity in {"high", "critical"};
    if vs == [] {
      assert all == {};
    } else {
      var front, n := vs[..|vs| - 1], |vs| - 1;
      CountPlainly(front);
      var before := set i | 0 <= i < |front| && front[i].severity in {"high", "critical"};
      assert all == before + if vs[n].severity in {"high", "critical"} then {n} else {};
    }
  }

  lemma {:induction false} PassesPlainly(r: Report, es: seq<Exception>, lock: map<string, string>, today: string)
    ensures Passes(r, es, lock, today) <==> PlainlyPasses(r, es, lock, today)
  {
    hide Found, ShownIn, Excepted, Waived, Reached, Dragged, Approved, Listed, Located, Placed, BlockingEntries, Less,
         SeriousEntries;
    if r.Report? {
      var vs := r.vulnerabilities;
      CountPlainly(vs);
      forall v ensures Located(v) <==> Placed(v) { SeriousPlainly(v); }
      forall f ensures Found(vs, f) <==> ShownIn(vs, f) { FoundPlainly(vs, f); }
      forall f ensures Excepted(es, f) <==> Waived(es, f) { ExceptedPlainly(es, f); }
      forall node ensures Reached(vs, node) <==> Dragged(vs, node) { ReachedPlainly(vs, node); }
      forall node ensures Approved(es, node) <==> Listed(es, node) { ApprovedPlainly(es, node); }
    }
  }

  lemma ApprovedPlainly(es: seq<Exception>, node: string)
    ensures Approved(es, node) <==> Listed(es, node)
  {
    if Approved(es, node) {
      var e :| 0 <= e < |es| && node in es[e].dependents;
      var d :| 0 <= d < |es[e].dependents| && es[e].dependents[d] == node;
    }
  }

  // ---------------------------------------------------------------- the exception file

  /** One entry as read from JSON: the fields that hold strings, and the dependents with None for what is no string. */
  datatype Raw = Raw(text: map<string, string>, dependents: Option<seq<Option<string>>>)

  /** What trimming removes. */
  predicate White(c: char) {
    c in "\t\n\U{b}\U{c}\r \U{a0}\U{1680}\U{2028}\U{2029}\U{202f}\U{205f}\U{3000}\U{feff}"
        || '\U{2000}' <= c <= '\U{200a}'
  }

  predicate Blank(s: string) {
    forall i :: 0 <= i < |s| ==> White(s[i])
  }

  predicate Digit(c: char) {
    '0' <= c <= '9'
  }

  predicate IsDate(s: string) {
    && |s| == 10 && s[4] == '-' && s[7] == '-'
    && forall i :: 0 <= i < 10 && i != 4 && i != 7 ==> Digit(s[i])
  }

  /** GHSA and three groups of four of its letters. */
  predicate IsAdvisory(s: string) {
    && |s| == 19 && s[..4] == "GHSA"
    && forall i :: 4 <= i < 19 ==> if i % 5 == 4 then s[i] == '-' else s[i] in "23456789cfghjmpqrvwx"
  }

  predicate Filled(e: Raw, field: string) {
    field in e.text && !Blank(e.text[field])
  }

  /** An entry without an error of its own. */
  predicate Acceptable(e: Raw) {
    && Filled(e, "advisory") && Filled(e, "package") && Filled(e, "path") && Filled(e, "installedVersion")
    && Filled(e, "reason") && Filled(e, "approvedBy") && Filled(e, "approvedOn") && Filled(e, "expiresOn")
    && e.dependents.Some? && None !in e.dependents.value
    && IsAdvisory(e.text["advisory"])
    && "node_modules/" <= e.text["path"] && EndsWith(e.text["path"], "node_modules/" + e.text["package"])
    && IsDate(e.text["approvedOn"]) && IsDate(e.text["expiresOn"]) && Less(e.text["approvedOn"], e.text["expiresOn"])
  }

  /** The text of a field in a key: a missing one prints as undefined. */
  function Shown(e: Raw, field: string): string {
    if field in e.text then e.text[field] else "undefined"
  }

  function Key(e: Raw): string {
    Shown(e, "advisory") + "|" + Shown(e, "path")
  }

  lemma KeyIsPair(a: Raw, b: Raw)
    requires Acceptable(a) && Acceptable(b)
    ensures Key(a) == Key(b) <==> a.text["advisory"] == b.text["advisory"] && a.text["path"] == b.text["path"]
  {
    KeyFields(a);
    KeyFields(b);
    if Key(a) == Key(b) {
      assert Key(a)[..19] == a.text["advisory"] && Key(b)[..19] == b.text["advisory"];
      assert Key(a)[20..] == a.text["path"] && Key(b)[20..] == b.text["path"];
    }
  }

  lemma KeyFields(e: Raw)
    requires Acceptable(e)
    ensures "advisory" in e.text && "path" in e.text && |e.text["advisory"]| == 19
    ensures Key(e) == e.text["advisory"] + "|" + e.text["path"]
  {
  }

  function Strings(s: seq<Option<string>>): seq<string>
    requires None !in s
  {
    seq(|s|, i requires 0 <= i < |s| => assert s[i] in s; s[i].value)
  }

  function Exact(e: Raw): Exception
    requires Acceptable(e)
  {
    Exception(e.text["advisory"], e.text["package"], e.text["path"], e.text["installedVersion"],
        Strings(e.dependents.value),
              e.text["approvedOn"], e.text["expiresOn"])
  }

  /** parseExceptionFile: accepted exactly when every entry is acceptable and no advisory is excepted twice at one
      path; an accepted file never excepts a finding twice. */
  method ParseExceptionFile(entries: seq<Raw>) returns (file: Option<seq<Exception>>)
    ensures file.Some? <==>
            && (forall i :: 0 <= i < |entries| ==> Acceptable(entries[i]))
            && (forall i, j :: 0 <= i < j < |entries| ==> Key(entries[i]) != Key(entries[j]))
    ensures file.Some? ==> |file.value| == |entries| && forall i :: 0 <= i < |entries| ==>
      file.value[i] == Exact(entries[i])
    ensures file.Some? ==> NoRepeats(file.value)
  {
    hide Acceptable, Key, Exact;
    var seen: set<string>, errors, es := {}, 0, [];
    for i := 0 to |entries|
      invariant forall k :: k in seen <==> exists j :: 0 <= j < i && Key(entries[j]) == k
      invariant errors == 0 <==> && (forall j :: 0 <= j < i ==> Acceptable(entries[j]))
                                 && (forall j, k :: 0 <= j < k < i ==> Key(entries[j]) != Key(entries[k]))
      invariant errors >= 0
      invariant errors == 0 ==> |es| == i && forall j :: 0 <= j < i ==> es[j] == Exact(entries[j])
    {
      var e := entries[i];
      if !Acceptable(e) { errors := errors + 1; }
      if Key(e) in seen { errors := errors + 1; }
      seen := seen + {Key(e)};
      if errors == 0 { es := es + [Exact(e)]; }
    }
    if errors > 0 { return None; }
    forall i, j | 0 <= i < j < |es| ensures Triple(es[i]) != Triple(es[j]) {
      SameTriple(entries[i], entries[j]);
    }
    file := Some(es);
  }

  // ---------------------------------------------------------------- the exception file in plain terms

  /** A string with something in it besides white space. */
  ghost predicate Says(e: Raw, field: string) {
    field in e.text && exists i :: 0 <= i < |e.text[field]| && e.text[field][i] as int !in SPACES
  }

  const SPACES: set<int> := {
    9, 10, 11, 12, 13, 32, 0xa0, 0x1680, 0x2000, 0x2001, 0x2002, 0x2003, 0x2004, 0x2005, 0x2006, 0x2007, 0x2008, 0x2009,
    0x200a, 0x2028, 0x2029, 0x202f, 0x205f, 0x3000, 0xfeff
  }

  ghost predicate Over(s: string, letters: string, n: nat) {
    |s| == n && forall i :: 0 <= i < n ==> s[i] in letters
  }

  ghost predicate NamesAdvisory(s: string) {
    exists a, b, c :: && Over(a, "23456789cfghjmpqrvwx", 4) && Over(b, "23456789cfghjmpqrvwx", 4)
                      && Over(c, "23456789cfghjmpqrvwx", 4) && s == "GHSA-" + a + "-" + b + "-" + c
  }

  ghost predicate NamesDay(s: string) {
    exists y, m, d :: && Over(y, "0123456789", 4) && Over(m, "0123456789", 2) && Over(d, "0123456789", 2)
                      && s == y + "-" + m + "-" + d
  }

  /** THE EXCEPTION FILE IN PLAIN TERMS: eight filled fields, string dependents, an advisory id, a path below
      node_modules/ that ends in the package, and two dates in order. */
  ghost predicate PlainlyAcceptable(e: Raw) {
    && Says(e, "advisory") && Says(e, "package") && Says(e, "path") && Says(e, "installedVersion")
    && Says(e, "reason") && Says(e, "approvedBy") && Says(e, "approvedOn") && Says(e, "expiresOn")
    && e.dependents.Some? && (forall i :: 0 <= i < |e.dependents.value| ==> e.dependents.value[i].Some?)
    && NamesAdvisory(e.text["advisory"])
    && "node_modules/" <= e.text["path"]
    && (exists above :: e.text["path"] == above + ("node_modules/" + e.text["package"]))
    && NamesDay(e.text["approvedOn"]) && NamesDay(e.text["expiresOn"])
    && Less(e.text["approvedOn"], e.text["expiresOn"])
  }

  lemma {:induction false} FilledPlainly(e: Raw, field: string)
    ensures Filled(e, field) <==> Says(e, field)
  {
  }

  lemma {:induction false} AdvisoryPlainly(s: string)
    ensures IsAdvisory(s) <==> NamesAdvisory(s)
  {
    if IsAdvisory(s) {
      assert Over(s[5..9], "23456789cfghjmpqrvwx", 4) && Over(s[10..14], "23456789cfghjmpqrvwx", 4);
      assert Over(s[15..19], "23456789cfghjmpqrvwx", 4);
      assert s == "GHSA-" + s[5..9] + "-" + s[10..14] + "-" + s[15..19];
    }
  }

  lemma {:induction false} DayPlainly(s: string)
    ensures IsDate(s) <==> NamesDay(s)
  {
    forall c ensures Digit(c) <==> c in "0123456789" { DigitPlainly(c); }
    hide Digit;
    if IsDate(s) {
      assert Over(s[..4], "0123456789", 4) && Over(s[5..7], "0123456789", 2) && Over(s[8..10], "0123456789", 2);
      assert s == s[..4] + "-" + s[5..7] + "-" + s[8..10];
    }
  }

  lemma DigitPlainly(c: char)
    ensures Digit(c) <==> c in "0123456789"
  {
    if Digit(c) { assert c == "0123456789"[c as int - '0' as int]; }
  }

  lemma {:induction false} AcceptablePlainly(e: Raw)
    ensures Acceptable(e) <==> PlainlyAcceptable(e)
    ensures Acceptable(e) ==>
      && Exact(e).advisory == e.text["advisory"] && Exact(e).package == e.text["package"]
      && Exact(e).path == e.text["path"] && Exact(e).version == e.text["installedVersion"]
      && Exact(e).approvedOn == e.text["approvedOn"] && Exact(e).expiresOn == e.text["expiresOn"]
      && |Exact(e).dependents| == |e.dependents.value|
      && forall i :: 0 <= i < |e.dependents.value| ==> e.dependents.value[i] == Some(Exact(e).dependents[i])
  {
    hide Filled, Says, IsAdvisory, NamesAdvisory, IsDate, NamesDay, Less;
    forall field ensures Filled(e, field) <==> Says(e, field) { FilledPlainly(e, field); }
    forall s ensures IsAdvisory(s) <==> NamesAdvisory(s) { AdvisoryPlainly(s); }
    forall s ensures IsDate(s) <==> NamesDay(s) { DayPlainly(s); }
    forall field | Filled(e, field) ensures field in e.text { FieldIsThere(e, field); }
    if "package" in e.text && "path" in e.text { EndPlainly(e.text["path"], "node_modules/" + e.text["package"]); }
  }

  lemma FieldIsThere(e: Raw, field: string)
    requires Filled(e, field)
    ensures field in e.text
  {
  }

  lemma EndPlainly(s: string, end: string)
    ensures EndsWith(s, end) <==> exists above :: s == above + end
  {
    if EndsWith(s, end) { assert s == s[..|s| - |end|] + end; }
    if above :| s == above + end { assert s[|s| - |end|..] == end; }
  }

  lemma SameTriple(a: Raw, b: Raw)
    requires Acceptable(a) && Acceptable(b) && Key(a) != Key(b)
    ensures Triple(Exact(a)) != Triple(Exact(b))
  {
    KeyIsPair(a, b);
  }
}
