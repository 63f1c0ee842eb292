/** A manifest lists every directory before what lies in it. */
module ManifestOrder {
  import opened FileTree
  import opened Names
  import W = CoverageWalk
  import opened Families
  import opened Coverage
  import opened CoverageTheorems

  /** The directory that holds item k comes before it. */
  predicate Held(items: seq<W.Item>, k: nat)
    requires k < |items|
  {
    exists j :: 0 <= j < k && items[j].Directory? && items[j].at == Parent(items[k].at)
  }

  lemma HeldStays(a: seq<W.Item>, b: seq<W.Item>, k: nat)
    requires k < |b| && Held(b, k)
    ensures Held(a + b, |a| + k)
  {
    var j :| 0 <= j < k && b[j].Directory? && b[j].at == Parent(b[k].at);
    assert (a + b)[|a| + j] == b[j];
  }

  lemma HeldFirst(a: seq<W.Item>, b: seq<W.Item>, k: nat)
    requires k < |a| && Held(a, k)
    ensures Held(a + b, k)
  {
    var j :| 0 <= j < k && a[j].Directory? && a[j].at == Parent(a[k].at);
    assert (a + b)[j] == a[j];
  }

  /** A clear walk records its top first, and every other item after the directory that holds it. */
  lemma {:induction false} VisitInOrder(w: W.Walk, t: Tree, p: Path)
    requires WellFormed(t) && W.Clear(W.Visit(w, t, p))
    ensures var items := W.Visit(w, t, p).items;
            |items| > 0 && items[0].at == p && forall k :: 0 < k < |items| ==> Held(items, k)
    decreases Beneath(t, p), 1, 0
  {
    hide W.Inspect, Held, W.Visit, W.VisitNames;
    W.ClearVisit(w, t, p);
    W.ClearInspect(w, t, p);
    var own := W.Inspect(w, t, p).items;
    assert own == [own[0]];
    if t[p].kind.Directory? && own[0].Directory? {
      var names := W.ListNames(t, w.held, p);
      NamesInOrder(w, t, p, names);
      TopHolds(own[0], W.VisitNames(w, t, p, names).items);
    }
  }

  lemma TopHolds(top: W.Item, rest: seq<W.Item>)
    requires top.Directory? && forall k :: 0 <= k < |rest| ==> Parent(rest[k].at) == top.at || Held(rest, k)
    ensures forall k :: 0 < k < |[top] + rest| ==> Held([top] + rest, k)
  {
    hide Held;
    var all := [top] + rest;
    forall k | 0 < k < |all| ensures Held(all, k) {
      assert all[k] == rest[k - 1];
      if Held(rest, k - 1) { HeldStays([top], rest, k - 1); } else { HeldByFirst(all, k); }
    }
  }

  lemma HeldByFirst(items: seq<W.Item>, k: nat)
    requires 0 < k < |items| && items[0].Directory? && items[0].at == Parent(items[k].at)
    ensures Held(items, k)
  {
  }

  lemma {:induction false} NamesInOrder(w: W.Walk, t: Tree, dir: Path, names: seq<Name>)
    requires WellFormed(t) && dir in t && forall k :: 0 <= k < |names| ==> dir + [names[k]] in t
    requires W.Clear(W.VisitNames(w, t, dir, names))
    ensures var items := W.VisitNames(w, t, dir, names).items;
            forall k :: 0 <= k < |items| ==> Parent(items[k].at) == dir || Held(items, k)
    decreases Beneath(t, dir), 0, |names|
  {
    hide Held, W.Visit, W.Transitory;
    if names != [] {
      var n := names[0];
      ChildIsSmaller(t, dir, n);
      var head, tail := W.VisitName(w, t, dir, n), W.VisitNames(w, t, dir, names[1..]);
      W.ClearThen(head, tail);
      VisitInOrder(w, t, dir + [n]);
      NamesInOrder(w, t, dir, names[1..]);
      assert Parent(dir + [n]) == dir;
      var a: seq<W.Item>, b: seq<W.Item> := head.items, tail.items;
      var both: seq<W.Item> := a + b;
      forall k | 0 <= k < |both| ensures Parent(both[k].at) == dir || Held(both, k) {
        if 0 < k < |a| { HeldFirst(a, b, k); }
        if |a| <= k && Parent(b[k - |a|].at) != dir { HeldStays(a, b, k - |a|); }
      }
    }
  }

  lemma {:induction false} StartsInOrder(w: W.Walk, t: Tree, paths: seq<Path>)
    requires WellFormed(t) && W.Clear(VisitAll(w, t, paths))
    ensures var items := VisitAll(w, t, paths).items; forall k :: 0 <= k < |items| ==>
        items[k].at in paths || Held(items, k)
  {
    hide Held, W.Visit;
    if paths != [] {
      var head, tail := W.Visit(w, t, paths[0]), VisitAll(w, t, paths[1..]);
      W.ClearThen(head, tail);
      VisitInOrder(w, t, paths[0]);
      StartsInOrder(w, t, paths[1..]);
      var a: seq<W.Item>, b: seq<W.Item> := head.items, tail.items;
      var both: seq<W.Item> := a + b;
      forall k | 0 <= k < |both| ensures both[k].at in paths || Held(both, k) {
        if 0 < k < |a| { HeldFirst(a, b, k); }
        if |a| <= k && b[k - |a|].at !in paths[1..] { HeldStays(a, b, k - |a|); }
      }
    }
  }

  /** The directory that holds record k is recorded before it. */
  predicate HeldRecord(records: seq<Record>, k: nat)
    requires k < |records|
  {
    exists j :: 0 <= j < k && records[j].root == records[k].root && records[j].item.Directory?
                && records[j].item.at == Parent(records[k].item.at)
  }

  lemma HeldRecordStays(a: seq<Record>, b: seq<Record>, k: nat)
    requires k < |b| && HeldRecord(b, k)
    ensures HeldRecord(a + b, |a| + k)
  {
    var j :| 0 <= j < k && b[j].root == b[k].root && b[j].item.Directory? && b[j].item.at == Parent(b[k].item.at);
    assert (a + b)[|a| + j] == b[j];
  }

  lemma HeldRecordFirst(a: seq<Record>, b: seq<Record>, k: nat)
    requires k < |a| && HeldRecord(a, k)
    ensures HeldRecord(a + b, k)
  {
    var j :| 0 <= j < k && a[j].root == a[k].root && a[j].item.Directory? && a[j].item.at == Parent(a[k].item.at);
    assert (a + b)[j] == a[j];
  }

  lemma StampHeld(f: W.Family, items: seq<W.Item>, k: nat)
    requires k < |items| && Held(items, k)
    ensures HeldRecord(Stamp(f, items), k)
  {
    var j :| 0 <= j < k && items[j].Directory? && items[j].at == Parent(items[k].at);
    assert Stamp(f, items)[j].item == items[j];
  }

  /** A record at a place where some family starts. */
  ghost predicate AtStart(s: Setup, held: set<Path>, roots: Roots, r: Record) {
    exists i: nat :: IsStart(s, held, roots, i, r.item.at) && PolicyOf(held, roots)[i].root == r.root
  }

  /** Every record is at a start or comes after the directory that holds it. */
  ghost predicate InOrder(s: Setup, held: set<Path>, roots: Roots, rs: seq<Record>) {
    forall k :: 0 <= k < |rs| ==> AtStart(s, held, roots, rs[k]) || HeldRecord(rs, k)
  }

  lemma NothingInOrder(s: Setup, held: set<Path>, roots: Roots)
    ensures InOrder(s, held, roots, [])
  {
  }

  lemma InOrderConcat(s: Setup, held: set<Path>, roots: Roots, a: seq<Record>, b: seq<Record>)
    requires InOrder(s, held, roots, a) && InOrder(s, held, roots, b)
    ensures InOrder(s, held, roots, a + b)
  {
    hide AtStart, HeldRecord;
    var both := a + b;
    forall k | 0 <= k < |both| ensures AtStart(s, held, roots, both[k]) || HeldRecord(both, k) {
      if k < |a| {
        assert both[k] == a[k];
        if HeldRecord(a, k) { HeldRecordFirst(a, b, k); }
      } else {
        assert both[k] == b[k - |a|];
        if HeldRecord(b, k - |a|) { HeldRecordStays(a, b, k - |a|); }
      }
    }
  }

  lemma FamilyInOrder(s: Setup, held: set<Path>, roots: Roots, i: nat)
    requires Sound(roots) && Walked(s, held, roots) && i < |PolicyOf(held, roots)|
    ensures var f := PolicyOf(held, roots)[i];
            InOrder(s, held, roots, Stamp(f, FamilyReport(s, held, roots, f).items))
  {
    hide PolicyOf, W.Visit, Walked, Starts, Held, HeldRecord, AtStart;
    var f := PolicyOf(held, roots)[i];
    var starts, items := Starts(s.host, roots.state, held, f), FamilyReport(s, held, roots, f).items;
    FamilyWalk(s, held, roots, i);
    if W.Clear(FamilyReport(s, held, roots, f)) {
      StartsInOrder(WalkOf(s, held, f), roots.At(f.root), starts);
      forall k | 0 <= k < |items|
        ensures AtStart(s, held, roots, Stamp(f, items)[k]) || HeldRecord(Stamp(f, items), k)
      {
        if items[k].at in starts { IsAtStart(s, held, roots, i, Stamp(f, items)[k]); } else { StampHeld(f, items, k); }
      }
    }
  }

  lemma IsAtStart(s: Setup, held: set<Path>, roots: Roots, i: nat, r: Record)
    requires IsStart(s, held, roots, i, r.item.at) && PolicyOf(held, roots)[i].root == r.root
    ensures AtStart(s, held, roots, r)
  {
  }

  lemma {:induction false} FamiliesInOrder(s: Setup, held: set<Path>, roots: Roots, from: nat)
    requires Sound(roots) && Walked(s, held, roots) && from <= |PolicyOf(held, roots)|
    ensures InOrder(s, held, roots, FamilyRecords(s, held, roots, PolicyOf(held, roots)[from..]))
    decreases |PolicyOf(held, roots)| - from
  {
    hide PolicyOf, Walked, FamilyReport, InOrder;
    var rest := PolicyOf(held, roots)[from..];
    NothingInOrder(s, held, roots);
    if rest != [] {
      assert rest[0] == PolicyOf(held, roots)[from] && rest[1..] == PolicyOf(held, roots)[from + 1..];
      FamilyInOrder(s, held, roots, from);
      FamiliesInOrder(s, held, roots, from + 1);
      var a, b := Stamp(rest[0], FamilyReport(s, held, roots, rest[0]).items), FamilyRecords(s, held, roots, rest[1..]);
      InOrderConcat(s, held, roots, a, b);
    }
  }

  /** Every record but those of a root comes after the directory that holds it; only the agents and worker roots are
      themselves unrecorded. */
  lemma ManifestInOrder(s: Setup, held: set<Path>, roots: Roots, k: nat)
    requires Sound(roots) && Walked(s, held, roots) && k < |Records(s, held, roots)|
    ensures var records := Records(s, held, roots);
            records[k].item.at != [] ==>
              HeldRecord(records, k) || (records[k].root != W.StateRoot && Parent(records[k].item.at) == [])
  {
    hide Policy, Walked, FamilyRecords, AtStart, RootRecord, TasksRecord, HeldRecord;
    var root, tasks := RootRecord(roots.state, held), TasksRecord(roots.state, held);
    var rest := FamilyRecords(s, held, roots, PolicyOf(held, roots));
    var records := Records(s, held, roots);
    assert PolicyOf(held, roots)[0..] == PolicyOf(held, roots);
    FixedRecords(roots.state, held);
    FamiliesInOrder(s, held, roots, 0);
    assert records == ([root] + tasks) + rest;
    if k == 1 && tasks != [] {
      assert records[0] == root && records[1] == tasks[0];
      HeldBy(records, 0, 1);
    } else if k > 0 {
      var j := k - 1 - |tasks|;
      assert records[k] == rest[j];
      assert AtStart(s, held, roots, rest[j]) || HeldRecord(rest, j);
      if AtStart(s, held, roots, rest[j]) {
        StartIsHeld(s, held, roots, rest[j]);
        if rest[j].root == W.StateRoot {
          assert records[0] == root && (tasks != [] ==> records[1] == tasks[0]);
          HeldBy(records, if Parent(rest[j].item.at) == [] then 0 else 1, k);
        }
      } else {
        HeldRecordStays([root] + tasks, rest, j);
      }
    }
  }

  lemma HeldBy(records: seq<Record>, j: nat, k: nat)
    requires j < k < |records| && records[j].root == records[k].root && records[j].item.Directory?
    requires records[j].item.at == Parent(records[k].item.at)
    ensures HeldRecord(records, k)
  {
  }

  lemma FixedRecords(state: Tree, held: set<Path>)
    requires WellFormed(state)
    ensures var root, tasks := RootRecord(state, held), TasksRecord(state, held);
            && root.root == W.StateRoot && root.item.Directory? && root.item.at == []
            && (tasks == [] <==> !IsDirectory(state, [TASKS])) && |tasks| <= 1
            && (tasks != [] ==> tasks[0].root == W.StateRoot && tasks[0].item.Directory? && tasks[0].item.at == [TASKS])
    ensures Parent([TASKS]) == []
  {
  }

  /** A start lies in a root or in tasks/. */
  lemma StartIsHeld(s: Setup, held: set<Path>, roots: Roots, r: Record)
    requires Sound(roots) && Walked(s, held, roots) && AtStart(s, held, roots, r)
    requires r in FamilyRecords(s, held, roots, PolicyOf(held, roots))
    ensures Parent(r.item.at) == []
        || (r.root == W.StateRoot && Parent(r.item.at) == [TASKS] && IsDirectory(roots.state, [TASKS]))
  {
    hide PolicyOf, Walked, FamilyRecords, W.Visit, From;
    var i: nat :| IsStart(s, held, roots, i, r.item.at) && PolicyOf(held, roots)[i].root == r.root;
    StartShape(s, held, roots, i, r.item.at);
    if |r.item.at| != 1 {
      var j, p := RecordedIsFrom(s, held, roots, r);
      FromPlace(s, held, roots, j, p, r);
      assert Hangs(roots.state, r.item.at) && Parent(r.item.at) == [TASKS];
    }
  }
}
