/** The explicit owner-state families of the recovery inventory. */
module Families {
  import opened FileTree
  import opened Names
  import opened Exclusions
  import opened CoverageWalk

  const TASKS: Name := "tasks"
  const CONTROL: Name := "checkpoint"
  const STORE: Path := ["tasks", "store.json"]
  const EVENTS: Path := ["tasks", "events.jsonl"]

  function Owner(id: string, name: Name, required: bool, derived: bool): Family {
    Family(id, StateRoot, [name], required, derived)
  }

  const SERVICES := Family("services", AgentsRoot, [], true, false)
  const WORKER := Family("worker", WorkerRoot, ["config.json"], true, false)

  /** The state families that own one top-level name each, in policy order. */
  function TopList(): seq<Family> {
    [ Owner("results", "results", true, false), Owner("receipts", "receipts", true, false),
      Owner("enrollment", "nodes", true, false), Owner("node-auth", "node-auth.json", true, false),
      Owner("revocations", "revoked-nodes.json", false, false), Owner("oauth", "oauth.json", true, false),
      Owner("secrets", "secrets.env", true, false), Owner("plans", "plans", true, false),
      Owner("recovery", "recovery", true, false), Owner("coordinator", "coordinator", true, false),
      Owner("runtime", "runtime", true, false), Owner("audit", "audit.jsonl", true, false),
      Owner("checkpoints", "checkpoints", true, false),
      Owner("install-status", "install-macos.status.json", true, false),
      Owner("activity", "activity", true, false), Owner("compatibility", "compat-home", false, false),
      Owner("install-rollback", "install-rollback", false, false), Owner("canary", "oauth-canary.json", false, false),
      Owner("canary-status", "oauth-canary-status.json", false, true),
      Owner("oauth-health", "oauth-health.json", false, true),
      Owner("logs", "logs", false, true), Owner("traces", "traces", false, false) ]
  }

  function TopFamily(i: nat): Family
    requires i < 22
  {
    TopList()[i]
  }

  function Top(): (fs: seq<Family>)
    ensures |fs| == 22 && forall i :: 0 <= i < 22 ==> fs[i] == TopFamily(i)
  {
    seq(22, i requires 0 <= i < 22 => TopFamily(i))
  }

  predicate Alphanumeric(c: char) {
    'A' <= c <= 'Z' || 'a' <= c <= 'z' || '0' <= c <= '9'
  }

  const HISTORICAL := "macos-hardening-rollback-"

  predicate IsHistorical(n: Name) {
    |n| == 31 && HISTORICAL <= n && forall i :: 25 <= i < 31 ==> Alphanumeric(n[i])
  }

  /** The preserved historical directories, in listing order. */
  function Preserved(names: seq<Name>): (ps: seq<Name>)
    ensures forall n :: n in ps <==> n in names && IsHistorical(n)
  {
    if names == [] then []
    else
      assert forall n :: n in names <==> n == names[0] || n in names[1..];
      (if IsHistorical(names[0]) then [names[0]] else []) + Preserved(names[1..])
  }

  lemma {:induction false} PreservedDistinct(names: seq<Name>)
    requires Distinct(names)
    ensures Distinct(Preserved(names))
  {
    if names != [] {
      PreservedDistinct(names[1..]);
      assert names[0] !in names[1..];
    }
  }

  function HistoricalFamily(n: Name): Family {
    Owner("historical-preservation", n, true, false)
  }

  function Historical(names: seq<Name>): (fs: seq<Family>)
    ensures |fs| == |Preserved(names)| && forall i :: 0 <= i < |fs| ==> fs[i] == HistoricalFamily(Preserved(names)[i])
  {
    seq(|Preserved(names)|, i requires 0 <= i < |Preserved(names)| => HistoricalFamily(Preserved(names)[i]))
  }

  /** The policy for a state root that lists these names. */
  function Policy(names: seq<Name>): seq<Family> {
    [Family("tasks", StateRoot, STORE, true, false), Family("events", StateRoot, EVENTS, true, false)]
    + Top() + [SERVICES, WORKER] + Historical(names)
  }

  /** Every family of a policy is one of: the two file families in tasks/, an owner of one top-level name, or the
      services or worker family. */
  predicate Shaped(f: Family) {
    || f == Family("tasks", StateRoot, STORE, true, false) || f == Family("events", StateRoot, EVENTS, true, false)
    || f == SERVICES || f == WORKER
    || (f.root == StateRoot && |f.relative| == 1 && OwnsTop(f.id, f.relative[0]) && !(f.required && f.derived))
  }

  /** A top-level name other than tasks/, the control directory and any lock; runtime/ is the runtime family's. */
  predicate OwnsTop(id: string, n: Name) {
    n != TASKS && n != CONTROL && !EndsWith(n, ".lock") && (id == "runtime" <==> n == "runtime") && id != "services"
  }

  /** Letters no path syntax gives a meaning to. */
  predicate Plain(n: string) {
    forall i :: 0 <= i < |n| ==> n[i] != '/' && n[i] != '\\'
  }

  /** What is fixed about each of these families. */
  predicate TopFact(f: Family) {
    && f.root == StateRoot && |f.relative| == 1
    && var n := f.relative[0];
       && 3 < |n| < 31 && (n[|n| - 1] != 'k' || n[|n| - 3] != 'o') && n[|n| - 1] != 'p' && n != TASKS && n != CONTROL
       && (f.id == "runtime" <==> n == "runtime") && f.id != "services" && !(f.required && f.derived) && |f.id| < 20
  }

  lemma AllTopFacts()
    ensures forall i :: 0 <= i < 22 ==> TopFact(TopFamily(i))
  {
  }

  lemma TopFacts(i: nat)
    requires i < 22
    ensures TopFact(TopFamily(i)) && Shaped(TopFamily(i))
  {
    hide TopList;
    AllTopFacts();
    var n := TopFamily(i).relative[0];
    assert |n| >= 5 ==> n[|n| - 5..][4] == n[|n| - 1] && n[|n| - 5..][2] == n[|n| - 3];
  }

  /** The names of these families are plain, and so are those of the services and the worker. */
  lemma NamesArePlain()
    ensures Plain("results") && Plain("receipts") && Plain("nodes") && Plain("node-auth.json")
    ensures Plain("revoked-nodes.json")
    ensures Plain("oauth.json") && Plain("secrets.env") && Plain("plans") && Plain("recovery") && Plain("coordinator")
    ensures Plain("runtime")
  {
  }

  lemma MoreNamesArePlain()
    ensures Plain("audit.jsonl") && Plain("checkpoints") && Plain("install-macos.status.json") && Plain("activity")
    ensures Plain("compat-home")
    ensures Plain("install-rollback") && Plain("oauth-canary.json") && Plain("oauth-canary-status.json")
    ensures Plain("oauth-health.json")
    ensures Plain("logs") && Plain("traces") && Plain("tasks") && Plain("store.json") && Plain("events.jsonl")
    ensures Plain("config.json")
  {
  }

  lemma TopIsPlain(i: nat)
    requires i < 22
    ensures |TopFamily(i).relative| == 1 && Plain(TopFamily(i).relative[0])
  {
    hide Plain;
    NamesArePlain();
    MoreNamesArePlain();
  }

  lemma TopNamesDiffer()
    ensures forall i, j :: 0 <= i < j < 22 ==> TopFamily(i).relative != TopFamily(j).relative
  {
  }

  lemma HistoricalShaped(n: Name)
    requires IsHistorical(n)
    ensures Shaped(HistoricalFamily(n))
  {
    assert |n| >= 5 ==> n[|n| - 5..][0] == n[26];
    assert Alphanumeric(n[26]);
    assert n[0] == HISTORICAL[0] == 'm';
    assert "historical-preservation"[0] == 'h';
  }

  /** Where each family of a policy comes from. */
  lemma PolicyAt(names: seq<Name>, i: nat)
    requires i < |Policy(names)|
    ensures i == 0 ==> Policy(names)[i] == Family("tasks", StateRoot, STORE, true, false)
    ensures i == 1 ==> Policy(names)[i] == Family("events", StateRoot, EVENTS, true, false)
    ensures 2 <= i < 24 ==> Policy(names)[i] == TopFamily(i - 2)
    ensures i == 24 ==> Policy(names)[i] == SERVICES
    ensures i == 25 ==> Policy(names)[i] == WORKER
    ensures 26 <= i ==> i - 26 < |Preserved(names)| && Policy(names)[i] == HistoricalFamily(Preserved(names)[i - 26])
  {
  }

  lemma PolicyLength(names: seq<Name>)
    ensures |Policy(names)| == 26 + |Preserved(names)|
  {
  }

  lemma FixedFamilies(names: seq<Name>)
    ensures |Policy(names)| >= 26 && Policy(names)[12] == Owner("runtime", "runtime", true, false)
    ensures Policy(names)[24] == SERVICES
  {
    assert Policy(names)[12] == TopFamily(10);
  }

  /** The names the policy itself brings along are plain; the others are preserved directories, listed at the root. */
  lemma PolicyIsPlain(names: seq<Name>, i: nat)
    requires i < |Policy(names)| && Policy(names)[i].root == StateRoot && |Policy(names)[i].relative| == 1
    ensures Plain(Policy(names)[i].relative[0]) || Policy(names)[i].relative[0] in names
  {
    PolicyAt(names, i);
    if 2 <= i < 24 {
      TopIsPlain(i - 2);
    } else {
      assert Preserved(names)[i - 26] in Preserved(names);
    }
  }

  lemma PolicyShaped(names: seq<Name>, i: nat)
    requires i < |Policy(names)|
    ensures Shaped(Policy(names)[i])
  {
    PolicyAt(names, i);
    if 2 <= i < 24 {
      TopFacts(i - 2);
    } else if 26 <= i {
      assert Preserved(names)[i - 26] in Preserved(names);
      HistoricalShaped(Preserved(names)[i - 26]);
    }
  }

  /** No two families start at the same place. */
  lemma PolicyDistinct(names: seq<Name>, i: nat, j: nat)
    requires Distinct(names) && i < j < |Policy(names)|
    ensures Policy(names)[i].root != Policy(names)[j].root || Policy(names)[i].relative != Policy(names)[j].relative
  {
    hide Policy;
    TopNamesDiffer();
    PolicyAt(names, i);
    PolicyAt(names, j);
    if 2 <= i < 24 { TopFacts(i - 2); }
    if 2 <= j < 24 { TopFacts(j - 2); }
    if 26 <= j {
      assert Preserved(names)[j - 26] in Preserved(names);
      if 26 <= i { PreservedDistinct(names); }
    }
  }
}
