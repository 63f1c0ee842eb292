/** A problem-free manifest lists no path twice. */
module ManifestDistinct {
  import opened FileTree
  import opened Names
  import opened Exclusions
  import W = CoverageWalk
  import opened Families
  import opened Coverage
  import opened CoverageTheorems
  import opened CoverageRoundTrip

  ghost predicate DistinctAt(items: seq<W.Item>) {
    forall a, b :: 0 <= a < b < |items| ==> items[a].at != items[b].at
  }

  lemma ConcatDistinct(x: seq<W.Item>, y: seq<W.Item>)
    requires DistinctAt(x) && DistinctAt(y) && forall i, j :: i in x && j in y ==> i.at != j.at
    ensures DistinctAt(x + y)
  {
    forall a, b | 0 <= a < b < |x + y| ensures (x + y)[a].at != (x + y)[b].at {
      if a < |x| && b >= |x| { assert x[a] in x && y[b - |x|] in y; }
    }
  }

  lemma FirstDistinct(x: W.Item, y: seq<W.Item>)
    requires DistinctAt(y) && forall j :: j in y ==> x.at != j.at
    ensures DistinctAt([x] + y) && DistinctAt([x])
  {
    ConcatDistinct([x], y);
  }

  lemma {:induction false} VisitDistinct(w: W.Walk, t: Tree, p: Path)
    requires WellFormed(t) && W.Clear(W.Visit(w, t, p))
    ensures DistinctAt(W.Visit(w, t, p).items)
    decreases Beneath(t, p), 1, 0
  {
    hide DistinctAt, W.Visit, W.VisitNames, W.Inspect, W.ListNames, W.Clear, RuleFor, WellFormed;
    W.ClearVisit(w, t, p);
    W.ClearInspect(w, t, p);
    var own := W.Inspect(w, t, p).items;
    assert own == [own[0]];
    FirstDistinct(own[0], []) by { assert DistinctAt([]) by { NoneDistinct(); } }
    if W.Visit(w, t, p).items != own {
      var names := W.ListNames(t, w.held, p);
      SortedIsDistinct(names) by { ListingIsSorted(t, w.held, p); }
      NamesDistinct(w, t, p, names);
      var rest := W.VisitNames(w, t, p, names).items;
      forall j | j in rest ensures own[0].at != j.at {
        W.ClearNamesRecord(w, t, p, names, j);
      }
      FirstDistinct(own[0], rest);
    }
  }

  lemma NoneDistinct()
    ensures DistinctAt([])
  {
  }

  lemma ListingIsSorted(t: Tree, held: set<Path>, dir: Path)
    ensures Sorted(W.ListNames(t, held, dir))
  {
  }

  lemma {:induction false} NamesDistinct(w: W.Walk, t: Tree, dir: Path, names: seq<Name>)
    requires WellFormed(t) && dir in t && Distinct(names) && forall k :: 0 <= k < |names| ==> dir + [names[k]] in t
    requires W.Clear(W.VisitNames(w, t, dir, names))
    ensures DistinctAt(W.VisitNames(w, t, dir, names).items)
    decreases Beneath(t, dir), 0, |names|
  {
    hide Policy, DistinctAt, W.Visit, W.Inspect;
    NoneDistinct();
    if names != [] {
      var n := names[0];
      ChildIsSmaller(t, dir, n);
      var head, tail := W.VisitName(w, t, dir, n), W.VisitNames(w, t, dir, names[1..]);
      W.ClearThen(head, tail);
      VisitDistinct(w, t, dir + [n]);
      NamesDistinct(w, t, dir, names[1..]);
      assert n !in names[1..];
      forall i, j | i in head.items && j in tail.items ensures i.at != j.at {
        W.ClearVisitRecords(w, t, dir + [n], i);
        W.ClearNamesRecord(w, t, dir, names[1..], j);
        assert dir + [n] <= i.at && i.at[|dir|] == n;
      }
      ConcatDistinct(head.items, tail.items);
    }
  }

  /** Neither lies on the way to the other. */
  predicate Apart(p: Path, q: Path) {
    !(p <= q) && !(q <= p)
  }

  lemma ApartStay(p: Path, q: Path, x: Path, y: Path)
    requires Apart(p, q) && p <= x && q <= y
    ensures x != y
  {
    if |p| <= |q| { assert p[..] == x[..|p|]; assert q[..|p|] == y[..|p|]; }
    else { assert p[..|q|] == x[..|q|]; assert q[..] == y[..|q|]; }
  }

  lemma {:induction false} VisitAllDistinct(w: W.Walk, t: Tree, paths: seq<Path>)
    requires WellFormed(t) && W.Clear(VisitAll(w, t, paths))
    requires forall a, b :: 0 <= a < b < |paths| ==> Apart(paths[a], paths[b])
    ensures DistinctAt(VisitAll(w, t, paths).items)
  {
    hide Policy, W.ListNames;
    if paths != [] {
      var head, tail := W.Visit(w, t, paths[0]), VisitAll(w, t, paths[1..]);
      W.ClearThen(head, tail);
      VisitDistinct(w, t, paths[0]);
      VisitAllDistinct(w, t, paths[1..]);
      forall i, j | i in head.items && j in tail.items ensures i.at != j.at {
        W.ClearVisitRecords(w, t, paths[0], i);
        VisitAllRecords(w, t, paths[1..], j);
        var k :| 0 <= k < |paths[1..]| && W.Records(w, t, paths[1..][k], j);
        assert Apart(paths[0], paths[k + 1]);
        ApartStay(paths[0], paths[k + 1], i.at, j.at);
      }
      ConcatDistinct(head.items, tail.items);
    }
  }

  lemma {:induction false} ResiduesDistinct(h: W.Host, state: Tree, names: seq<Name>, base: Name)
    requires Distinct(names)
    ensures Distinct(Residues(h, state, names, base))
  {
    if names != [] {
      ResiduesDistinct(h, state, names[1..], base);
      assert names[0] !in names[1..];
      forall p | p in Residues(h, state, names[1..], base) ensures p != [TASKS, names[0]] {
        ResidueName(h, state, names[1..], base, p);
      }
      ConsDistinct([TASKS, names[0]], Residues(h, state, names[1..], base));
    }
  }

  lemma ConsDistinct<T>(x: T, s: seq<T>)
    requires Distinct(s) && x !in s
    ensures Distinct([x] + s)
  {
  }

  lemma ResidueName(h: W.Host, state: Tree, names: seq<Name>, base: Name, p: Path)
    requires p in Residues(h, state, names, base)
    ensures |p| == 2 && p[0] == TASKS && p[1] in names && p[1] != STORE[1] && p[1] != EVENTS[1]
  {
    var n :| n in names && IsResidue(h, state, n, base) && p == [TASKS, n];
  }

  lemma StartsDistinct(h: W.Host, state: Tree, held: set<Path>, f: W.Family)
    ensures Distinct(Starts(h, state, held, f))
  {
    if f.id == "services" {
      PlistsDistinct();
    } else if f.relative == STORE || f.relative == EVENTS {
      var names := W.ListNames(state, held, [TASKS]);
      SortedIsDistinct(names);
      ResiduesDistinct(h, state, names, f.relative[1]);
      forall p | p in Residues(h, state, names, f.relative[1]) ensures p != f.relative {
        ResidueName(h, state, names, f.relative[1], p);
      }
      ConsDistinct(f.relative, Residues(h, state, names, f.relative[1]));
    }
  }

  lemma PlistsDistinct()
    ensures Distinct(PLISTS)
  {
    var k := |SERVICE_PREFIX|;
    assert PLISTS[0][0][k] == 'c' && PLISTS[1][0][k] == 'w' && PLISTS[2][0][k] == 'g' && PLISTS[3][0][k] == 'n'
        && PLISTS[4][0][k] == 'o';
  }

  predicate DistinctRecords(rs: seq<Record>) {
    forall a, b :: 0 <= a < b < |rs| ==> rs[a].root != rs[b].root || rs[a].item.at != rs[b].item.at
  }

  lemma ConcatDistinctRecords(x: seq<Record>, y: seq<Record>)
    requires DistinctRecords(x) && DistinctRecords(y)
    requires forall i, j :: i in x && j in y ==> i.root != j.root || i.item.at != j.item.at
    ensures DistinctRecords(x + y)
  {
    forall a, b | 0 <= a < b < |x + y|
      ensures (x + y)[a].root != (x + y)[b].root || (x + y)[a].item.at != (x + y)[b].item.at
    {
      if a < |x| && b >= |x| { assert x[a] in x && y[b - |x|] in y; }
    }
  }

  lemma FamilyDistinct(s: Setup, held: set<Path>, roots: Roots, i: nat)
    requires Sound(roots) && Walked(s, held, roots) && i < |PolicyOf(held, roots)|
    ensures DistinctAt(FamilyReport(s, held, roots, PolicyOf(held, roots)[i]).items)
  {
    hide PolicyOf, W.Visit, Walked, Starts, DistinctAt;
    var f := PolicyOf(held, roots)[i];
    var starts := Starts(s.host, roots.state, held, f);
    FamilyWalk(s, held, roots, i);
    StartsDistinct(s.host, roots.state, held, f);
    if W.Clear(FamilyReport(s, held, roots, f)) {
      forall a, b | 0 <= a < b < |starts| ensures Apart(starts[a], starts[b]) {
        assert IsStart(s, held, roots, i, starts[a]) && IsStart(s, held, roots, i, starts[b]);
        if starts[a] <= starts[b] { OneStart(s, held, roots, i, starts[a], i, starts[b], starts[b]); }
        if starts[b] <= starts[a] { OneStart(s, held, roots, i, starts[a], i, starts[b], starts[a]); }
      }
      VisitAllDistinct(WalkOf(s, held, f), roots.At(f.root), starts);
    } else {
      NoItems();
    }
  }

  lemma NoItems()
    ensures DistinctAt([])
  {
  }

  lemma {:induction false} FamiliesDistinct(s: Setup, held: set<Path>, roots: Roots, from: nat)
    requires Sound(roots) && Walked(s, held, roots) && from <= |PolicyOf(held, roots)|
    ensures DistinctRecords(FamilyRecords(s, held, roots, PolicyOf(held, roots)[from..]))
    ensures forall r :: r in FamilyRecords(s, held, roots, PolicyOf(held, roots)[from..]) ==>
      exists j, q :: from <= j && From(s, held, roots, j, q, r)
    decreases |PolicyOf(held, roots)| - from
  {
    hide PolicyOf, Walked, FamilyReport, From, Starts, Sound;
    var rest := PolicyOf(held, roots)[from..];
    if rest != [] {
      var f := PolicyOf(held, roots)[from];
      assert rest[0] == f && rest[1..] == PolicyOf(held, roots)[from + 1..];
      FamiliesDistinct(s, held, roots, from + 1);
      FamilyDistinct(s, held, roots, from);
      var own, others := Stamp(f, FamilyReport(s, held, roots, f).items), FamilyRecords(s, held, roots, rest[1..]);
      forall r | r in own ensures exists q :: From(s, held, roots, from, q, r) {
        var q := OwnIsFrom(s, held, roots, from, r);
      }
      forall x, y | x in own && y in others ensures x.root != y.root || x.item.at != y.item.at {
        var p :| From(s, held, roots, from, p, x);
        var j, q :| from + 1 <= j && From(s, held, roots, j, q, y);
        FromPlace(s, held, roots, from, p, x);
        FromPlace(s, held, roots, j, q, y);
        if x.root == y.root && x.item.at == y.item.at { OneStart(s, held, roots, from, p, j, q, x.item.at); }
      }
      ConcatDistinctRecords(own, others);
    }
  }

  lemma OwnIsFrom(s: Setup, held: set<Path>, roots: Roots, i: nat, r: Record) returns (p: Path)
    requires Sound(roots) && Walked(s, held, roots) && i < |PolicyOf(held, roots)|
    requires r in Stamp(PolicyOf(held, roots)[i], FamilyReport(s, held, roots, PolicyOf(held, roots)[i]).items)
    ensures From(s, held, roots, i, p, r)
  {
    hide PolicyOf, W.Visit, W.Inspect, W.Reached, Starts, Walked, WellFormed;
    var f := PolicyOf(held, roots)[i];
    FamilyWalk(s, held, roots, i);
    var w, t, starts := WalkOf(s, held, f), roots.At(f.root), Starts(s.host, roots.state, held, f);
    VisitAllRecords(w, t, starts, r.item);
    var k :| 0 <= k < |starts| && W.Records(w, t, starts[k], r.item);
    VisitAllClear(w, t, starts, k);
    p := starts[k];
  }

  /** A problem-free manifest lists no path twice. */
  lemma ManifestIsDistinct(s: Setup, held: set<Path>, roots: Roots)
    requires Sound(roots) && Walked(s, held, roots)
    ensures DistinctRecords(Records(s, held, roots))
  {
    hide Policy, Walked, FamilyReport, From, FamilyRecords, W.Inspect, W.Visit, RootRecord, TasksRecord,
         DistinctRecords;
    var policy := PolicyOf(held, roots);
    assert policy[0..] == policy;
    FamiliesDistinct(s, held, roots, 0);
    var fixed, rest := [RootRecord(roots.state, held)] + TasksRecord(roots.state, held),
        FamilyRecords(s, held, roots, policy);
    FixedDistinct(held, roots);
    forall x: Record, y: Record | x in fixed && y in rest ensures x.root != y.root || x.item.at != y.item.at {
      FixedPlace(held, roots, x);
      var j, q :| 0 <= j && From(s, held, roots, j, q, y);
      FromPlace(s, held, roots, j, q, y);
    }
    ConcatDistinctRecords(fixed, rest);
  }

  lemma FixedDistinct(held: set<Path>, roots: Roots)
    requires Sound(roots)
    ensures DistinctRecords([RootRecord(roots.state, held)] + TasksRecord(roots.state, held))
  {
  }
}
