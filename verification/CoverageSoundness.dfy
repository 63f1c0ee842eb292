/** What an accepted verification says about the trees themselves: whatever was copied and however, a tree that verifies
    against the manifest of a source holds that source, and nothing else. */
module CoverageSoundness {
  import opened FileTree
  import opened LinkInspection
  import W = CoverageWalk
  import opened Coverage
  import opened CoverageTheorems
  import opened CoverageRoundTrip
  import opened CoverageVerify
  import opened ManifestDistinct
  import opened ManifestValidity

  /** Content digests are collision free. */
  ghost predicate Collisionless(h: W.Host) {
    forall a, b :: h.sha(a) == h.sha(b) ==> a == b
  }

  // ---------------------------------------------------------------- what a record says

  lemma RecordDescribes(s: Setup, held: set<Path>, roots: Roots, r: Record)
    requires Sound(roots) && Walked(s, held, roots) && r in Records(s, held, roots)
    ensures r.item.at in roots.At(r.root) && W.Describes(s.host, r.item, roots.At(r.root)[r.item.at])
  {
    hide Records, PolicyOf, W.Visit, W.Inspect, Walked, From;
    if Fixed(held, roots, r) {
      FixedPlace(held, roots, r);
      FixedDescribes(s.host, held, roots, r);
    } else {
      var i, p := Origin(s, held, roots, r);
      FromPlace(s, held, roots, i, p, r);
      FromInspects(s, held, roots, i, p, r);
      W.InspectDescribes(WalkOf(s, held, PolicyOf(held, roots)[i]), roots.At(r.root), r.item);
    }
  }

  lemma FixedDescribes(h: W.Host, held: set<Path>, roots: Roots, r: Record)
    requires Sound(roots) && Fixed(held, roots, r) && r.item.at in roots.state
    ensures W.Describes(h, r.item, roots.state[r.item.at])
  {
  }

  // ---------------------------------------------------------------- what is confirmed is there

  /** Same kind, contents or link text, permissions and owner. */
  predicate Same(a: Node, b: Node) {
    a.kind == b.kind && Permissions(a.mode) == Permissions(b.mode) && a.owner == b.owner
  }

  predicate HeldThere(source: Roots, there: Roots, r: Record) {
    r.item.at in source.At(r.root) && r.item.at in there.At(r.root)
    && Same(source.At(r.root)[r.item.at], there.At(r.root)[r.item.at])
  }

  /** Everything recorded is there as it was at the source. */
  ghost predicate Reproduces(records: seq<Record>, source: Roots, there: Roots) {
    forall r :: r in records && !r.item.Excluded? ==> HeldThere(source, there, r)
  }

  lemma ConfirmedIsThere(s: Setup, held: set<Path>, roots: Roots, held': set<Path>, there: Roots, r: Record,
                         seen: Record)
    requires Sound(roots) && Walked(s, held, roots) && Sound(there) && Walked(s, held', there) && Collisionless(s.host)
    requires r in Records(s, held, roots) && seen in Records(s, held', there) && !r.item.Excluded?
    requires seen.root == r.root && seen.item.at == r.item.at && (seen.item == r.item || SameEntry(r.item, seen.item))
    ensures HeldThere(roots, there, r)
  {
    hide Records, Walked;
    RecordDescribes(s, held, roots, r);
    RecordDescribes(s, held', there, seen);
  }

  /** The record that confirms another one. */
  lemma Confirming(m: Manifest, observed: Manifest, h: W.Host, o: W.Options, isCopy: bool, r: Record)
    returns (seen: Record)
    requires Verified(h, o, m, observed, isCopy) && r in m.records && !r.item.Excluded?
    ensures seen in observed.records && seen.root == r.root && seen.item.at == r.item.at
    ensures seen.item == r.item || SameEntry(r.item, seen.item)
    ensures Belongs(seen.item, if r.item.Entry? then Entries else Directories)
  {
    hide ValidManifest, Only;
    var all := observed.records;
    var k :| 0 <= k < |m.records| && m.records[k] == r;
    if r.item.Entry? {
      assert EntryConfirmed(m.records[k], all);
      var j :| 0 <= j < |all| && all[j].root == r.root && all[j].family == r.family && all[j].item.at == r.item.at
               && SameEntry(r.item, all[j].item);
      seen := all[j];
    } else {
      assert DirectoryConfirmed(m.records[k], all);
      var j :| 0 <= j < |all| && all[j].root == r.root && all[j].item == r.item;
      seen := all[j];
    }
  }

  // ---------------------------------------------------------------- and nothing else is

  function Keys(rs: seq<Record>): set<(W.Root, Path)> {
    set k | 0 <= k < |rs| :: (rs[k].root, rs[k].item.at)
  }

  lemma {:induction false} KeysAreAsMany(rs: seq<Record>)
    requires DistinctRecords(rs)
    ensures |Keys(rs)| == |rs|
  {
    if rs != [] {
      var front, last := rs[..|rs| - 1], rs[|rs| - 1];
      KeysAreAsMany(front);
      assert (last.root, last.item.at) !in Keys(front);
      assert Keys(rs) == Keys(front) + {(last.root, last.item.at)};
    }
  }

  lemma {:induction false} OnlyDistinct(rs: seq<Record>, k: Class)
    requires DistinctRecords(rs)
    ensures DistinctRecords(Only(rs, k)) && forall r :: r in Only(rs, k) <==> r in rs && Belongs(r.item, k)
  {
    if rs != [] {
      assert DistinctRecords(rs[1..]);
      OnlyDistinct(rs[1..], k);
      assert rs == [rs[0]] + rs[1..];
      forall r | r in Only(rs[1..], k) ensures r.root != rs[0].root || r.item.at != rs[0].item.at {
        var j :| 0 <= j < |rs[1..]| && rs[1..][j] == r;
        assert rs[j + 1] == r;
      }
    }
  }

  lemma {:induction false} SmallerSet<T>(a: set<T>, b: set<T>)
    requires a <= b
    ensures |a| <= |b| && (|a| == |b| ==> a == b)
  {
    if a != {} {
      var x :| x in a;
      SmallerSet(a - {x}, b - {x});
    }
  }

  /** As many records of a class, each confirmed: then every observed one confirms one. */
  lemma Counterpart(m: seq<Record>, observed: seq<Record>, k: Class, seen: Record) returns (r: Record)
    requires DistinctRecords(m) && DistinctRecords(observed) && |Only(m, k)| == |Only(observed, k)|
    requires forall r :: r in m && Belongs(r.item, k) ==>
      exists o :: o in observed && Belongs(o.item, k) && o.root == r.root && o.item.at == r.item.at
    requires seen in observed && Belongs(seen.item, k)
    ensures r in m && Belongs(r.item, k) && r.root == seen.root && r.item.at == seen.item.at
  {
    hide Only;
    var a, b := Only(m, k), Only(observed, k);
    OnlyDistinct(m, k);
    OnlyDistinct(observed, k);
    KeysAreAsMany(a);
    KeysAreAsMany(b);
    forall x | x in Keys(a) ensures x in Keys(b) {
      var i :| 0 <= i < |a| && x == (a[i].root, a[i].item.at);
      assert a[i] in a;
      var o :| o in observed && Belongs(o.item, k) && o.root == a[i].root && o.item.at == a[i].item.at;
      var j :| 0 <= j < |b| && b[j] == o;
    }
    SmallerSet(Keys(a), Keys(b));
    var j :| 0 <= j < |b| && b[j] == seen;
    assert (seen.root, seen.item.at) in Keys(b);
    var i :| 0 <= i < |a| && (seen.root, seen.item.at) == (a[i].root, a[i].item.at);
    r := a[i];
    assert r in a;
  }

  lemma ObservedIsRecorded(h: W.Host, o: W.Options, m: Manifest, observed: Manifest, isCopy: bool, seen: Record)
    requires Verified(h, o, m, observed, isCopy) && DistinctRecords(observed.records)
    requires seen in observed.records && !seen.item.Excluded?
    ensures Copied(m.records, seen.root, seen.item.at)
  {
    hide Only, ValidManifest, EntryConfirmed, DirectoryConfirmed;
    assert DistinctRecords(m.records) by { ValidIsDistinct(h, o, m); }
    var k := if seen.item.Entry? then Entries else Directories;
    forall r | r in m.records && Belongs(r.item, k)
      ensures exists o :: o in observed.records && Belongs(o.item, k) && o.root == r.root && o.item.at == r.item.at
    {
      var o := Confirming(m, observed, h, o, isCopy, r);
    }
    var r := Counterpart(m.records, observed.records, k, seen);
    RecordIsCopied(m.records, r);
  }

  lemma ValidIsDistinct(h: W.Host, o: W.Options, m: Manifest)
    requires ValidManifest(h, o.ctx, m)
    ensures DistinctRecords(m.records) && m.problems == []
  {
  }

  /** VERIFICATION IS SOUND. Whatever happened to the tree, and whether it is the source again or a copy: if it verifies
      against the manifest of a source, then everything recorded is there with the recorded kind, contents, link text,
      permissions and owner, and nothing else is in its state root, the control directory, locks held now and, at the
      source itself, the recorded exclusions aside. Contents are told apart by their digests. */
  lemma VerifiedReproduces(s: Setup, held: set<Path>, roots: Roots, held': set<Path>, there: Roots, isCopy: bool)
    requires Sound(roots) && Sound(there)
    requires Verified(s.host, s.options, InspectCoverage(s, held, roots), InspectCoverage(s, held', there), isCopy)
    ensures Collisionless(s.host) ==> Reproduces(InspectCoverage(s, held, roots).records, roots, there)
    ensures LocksOk(held', there.state) ==> forall p :: p in there.state ==>
      || Copied(InspectCoverage(s, held, roots).records, W.StateRoot, p) || InControl(p) || p in held'
      || (!isCopy && InExclusion(InspectCoverage(s, held, roots).records, p))
  {
    hide Verified, InspectCoverage, Records, ProblemFree;
    var m, observed := InspectCoverage(s, held, roots), InspectCoverage(s, held', there);
    VerifiedIsWalked(s, held, roots, held', there, isCopy);
    forall r | r in m.records && !r.item.Excluded? && Collisionless(s.host) ensures HeldThere(roots, there, r) {
      var seen := Confirming(m, observed, s.host, s.options, isCopy, r);
      ConfirmedIsThere(s, held, roots, held', there, r, seen);
    }
    forall p | p in there.state && LocksOk(held', there.state)
      ensures || Copied(m.records, W.StateRoot, p) || InControl(p) || p in held'
              || (!isCopy && InExclusion(m.records, p))
    {
      PathIsRecorded(s, held, roots, held', there, isCopy, p);
    }
  }

  lemma VerifiedIsWalked(s: Setup, held: set<Path>, roots: Roots, held': set<Path>, there: Roots, isCopy: bool)
    requires Sound(roots) && Sound(there)
    requires Verified(s.host, s.options, InspectCoverage(s, held, roots), InspectCoverage(s, held', there), isCopy)
    ensures ProblemFree(s, held, roots) && ProblemFree(s, held', there)
    ensures Walked(s, held, roots) && Walked(s, held', there)
    ensures InspectCoverage(s, held, roots).records == Records(s, held, roots)
    ensures InspectCoverage(s, held', there).records == Records(s, held', there)
  {
    hide Records, ValidManifest, Only, InspectLink, FamilyReport, MANDATORY, Sound;
    ValidIsDistinct(s.host, s.options, InspectCoverage(s, held, roots));
    EmptyProblems(s, held, roots);
    EmptyProblems(s, held', there);
  }

  lemma PathIsRecorded(s: Setup, held: set<Path>, roots: Roots, held': set<Path>, there: Roots, isCopy: bool, p: Path)
    requires Sound(roots) && Sound(there) && LocksOk(held', there.state) && ProblemFree(s, held', there)
    requires InspectCoverage(s, held', there).records == Records(s, held', there)
    requires Verified(s.host, s.options, InspectCoverage(s, held, roots), InspectCoverage(s, held', there), isCopy)
    requires p in there.state
    ensures || Copied(InspectCoverage(s, held, roots).records, W.StateRoot, p) || InControl(p) || p in held'
            || (!isCopy && InExclusion(InspectCoverage(s, held, roots).records, p))
  {
    hide Verified, InspectCoverage, Records, ProblemFree, LocksOk, Sound, Starts;
    var m, observed := InspectCoverage(s, held, roots), InspectCoverage(s, held', there);
    SomeFate(s, held', there, p);
    ObservedIsDistinct(s, held', there);
    if r :| r in observed.records && r.root == W.StateRoot && !r.item.Excluded? && r.item.at == p {
      ObservedIsRecorded(s.host, s.options, m, observed, isCopy, r);
    } else if x :| x in observed.records && x.root == W.StateRoot && x.item.Excluded? && x.item.at <= p {
      ExclusionIsRecorded(s.host, s.options, m, observed, isCopy, x);
    }
  }

  lemma ObservedIsDistinct(s: Setup, held: set<Path>, roots: Roots)
    requires Sound(roots) && ProblemFree(s, held, roots)
    ensures DistinctRecords(Records(s, held, roots))
  {
    hide Records;
    ManifestIsDistinct(s, held, roots);
  }

  lemma ExclusionIsRecorded(h: W.Host, o: W.Options, m: Manifest, observed: Manifest, isCopy: bool, x: Record)
    requires Verified(h, o, m, observed, isCopy) && DistinctRecords(observed.records)
    requires x in observed.records && x.item.Excluded?
    ensures !isCopy && x in m.records
  {
    hide Only, ValidManifest;
    ValidIsDistinct(h, o, m);
    OnlyDistinct(observed.records, Exclusions);
    OnlyDistinct(m.records, Exclusions);
    assert x in Only(observed.records, Exclusions);
  }

  /** And it is complete at the source: unchanged, a problem-free source verifies exactly when no directory lists a name
      with a backslash. */
  lemma SourceVerifies(s: Setup, held: set<Path>, roots: Roots)
    requires Sound(roots) && InspectCoverage(s, held, roots).problems == []
    ensures var m := InspectCoverage(s, held, roots);
            Verified(s.host, s.options, m, m, false) <==> PlainListings(m.records)
  {
    hide InspectCoverage, ValidManifest, Only, PlainListings;
    var m := InspectCoverage(s, held, roots);
    ProblemFreeIsValid(s, held, roots);
    forall k | 0 <= k < |m.records| && m.records[k].item.Entry? ensures EntryConfirmed(m.records[k], m.records) {
      assert SameEntry(m.records[k].item, m.records[k].item);
    }
  }
}
