/** A stored manifest lists its directories as they were walked, and entries and exclusions sorted by a locale's
    order. Whatever that order is, nothing depends on it: neither validity, nor the copy, nor verification. */
module ManifestSorting {
  import opened FileTree
  import W = CoverageWalk
  import opened Exclusions
  import opened Families
  import opened Coverage
  import opened CoverageRoundTrip
  import opened ManifestDistinct
  import opened ManifestOrder
  import opened ManifestValidity
  import opened CoverageVerify
  import opened Allocation
  import opened BackupCopy

  /** The same records in some order. */
  ghost predicate Shuffled(a: seq<Record>, b: seq<Record>) {
    multiset(a) == multiset(b)
  }

  /** As stored: the directories in the order of the walk, then everything else in any order. */
  ghost predicate Stored(a: seq<Record>, b: seq<Record>) {
    && Shuffled(a, b) && Only(a, Directories) <= b
    && forall k :: |Only(a, Directories)| <= k < |b| ==> !b[k].item.Directory?
  }

  lemma SameMembers(a: seq<Record>, b: seq<Record>, r: Record)
    requires Shuffled(a, b)
    ensures r in a <==> r in b
  {
    assert r in multiset(a) <==> r in multiset(b);
  }

  lemma SomeIndex(a: seq<Record>, b: seq<Record>, k: nat) returns (j: nat)
    requires Shuffled(a, b) && k < |a|
    ensures j < |b| && b[j] == a[k]
  {
    SameMembers(a, b, a[k]);
    j :| 0 <= j < |b| && b[j] == a[k];
  }

  // ---------------------------------------------------------------- validity

  lemma OnceInDistinct(a: seq<Record>, r: Record)
    requires DistinctRecords(a)
    ensures multiset(a)[r] <= 1
  {
    if r in a {
      var k :| 0 <= k < |a| && a[k] == r;
      assert a == a[..k] + [r] + a[k + 1..];
      assert r !in a[..k] && r !in a[k + 1..];
    }
  }

  lemma ShuffledDistinct(a: seq<Record>, b: seq<Record>)
    requires Shuffled(a, b) && DistinctRecords(a)
    ensures DistinctRecords(b)
  {
    forall i, j | 0 <= i < j < |b| ensures b[i].root != b[j].root || b[i].item.at != b[j].item.at {
      var x := SomeIndex(b, a, i);
      var y := SomeIndex(b, a, j);
      if b[i] == b[j] {
        assert b == b[..i] + [b[i]] + b[i + 1..j] + [b[j]] + b[j + 1..];
        OnceInDistinct(a, b[i]);
      }
    }
  }

  lemma ShuffledUnder(a: seq<Record>, b: seq<Record>, x: Record)
    requires Shuffled(a, b) && EntryUnder(a, x)
    ensures EntryUnder(b, x)
  {
    var k :| 0 <= k < |a| && a[k].item.Entry? && a[k].root == x.root && x.item.at <= a[k].item.at;
    var j := SomeIndex(a, b, k);
  }

  lemma ShuffledFamily(a: seq<Record>, b: seq<Record>, f: W.Family)
    requires Shuffled(a, b) && FamilyHasEntry(a, f)
    ensures FamilyHasEntry(b, f)
  {
    var k :| 0 <= k < |a| && a[k].item.Entry? && a[k].family == f.id;
    var j := SomeIndex(a, b, k);
  }

  lemma ShuffledEntry(a: seq<Record>, b: seq<Record>, p: Path)
    requires Shuffled(a, b) && HasEntryAt(a, p)
    ensures HasEntryAt(b, p)
  {
    forall k | 0 <= k < |a| ensures exists j :: 0 <= j < |b| && b[j] == a[k] {
      var j := SomeIndex(a, b, k);
    }
  }

  /** A manifest is valid in every order or in none. */
  lemma ShuffledIsValid(h: W.Host, ctx: Context, m: Manifest, records: seq<Record>)
    requires Shuffled(m.records, records) && ValidManifest(h, ctx, m)
    ensures ValidManifest(h, ctx, m.(records := records))
  {
    hide EntryUnder, FamilyHasEntry, HasEntryAt, ValidExclusion, ValidEntry, ValidDirectory, Policy, MANDATORY;
    ShuffledDistinct(m.records, records);
    var k :| 0 <= k < |m.records| && IsStateRoot(m.records[k]) && m.families == Policy(m.records[k].item.names);
    var root := SomeIndex(m.records, records, k);
    assert IsStateRoot(records[root]);
    forall j | 0 <= j < |records|
      ensures records[j].item.Excluded? ==> ValidExclusion(ctx, records[j]) && !EntryUnder(records, records[j])
      ensures records[j].item.Entry? ==> ValidEntry(h, m.families, records[j])
      ensures records[j].item.Directory? ==> ValidDirectory(records[j].item)
    {
      var i := SomeIndex(records, m.records, j);
      if EntryUnder(records, records[j]) { ShuffledUnder(records, m.records, records[j]); }
    }
    forall i | 0 <= i < |m.families| && m.families[i].required ensures FamilyHasEntry(records, m.families[i]) {
      ShuffledFamily(m.records, records, m.families[i]);
    }
    forall k | 0 <= k < |MANDATORY| ensures HasEntryAt(records, MANDATORY[k]) {
      ShuffledEntry(m.records, records, MANDATORY[k]);
    }
  }

  // ---------------------------------------------------------------- verification

  lemma {:induction false} OnlyCounts(rs: seq<Record>, k: Class, r: Record)
    ensures multiset(Only(rs, k))[r] == if Belongs(r.item, k) then multiset(rs)[r] else 0
  {
    if rs != [] {
      OnlyCounts(rs[1..], k, r);
      assert rs == [rs[0]] + rs[1..];
    }
  }

  lemma ShuffledOnly(a: seq<Record>, b: seq<Record>, k: Class)
    requires Shuffled(a, b)
    ensures multiset(Only(a, k)) == multiset(Only(b, k)) && |Only(a, k)| == |Only(b, k)|
  {
    forall r ensures multiset(Only(a, k))[r] == multiset(Only(b, k))[r] {
      OnlyCounts(a, k, r);
      OnlyCounts(b, k, r);
    }
    assert multiset(Only(a, k)) == multiset(Only(b, k));
    assert |multiset(Only(a, k))| == |multiset(Only(b, k))|;
  }

  lemma ShuffledConfirms(e: Record, a: seq<Record>, b: seq<Record>)
    requires Shuffled(a, b) && EntryConfirmed(e, a)
    ensures EntryConfirmed(e, b)
  {
    var k :| 0 <= k < |a| && a[k].root == e.root && a[k].family == e.family && a[k].item.at == e.item.at
             && SameEntry(e.item, a[k].item);
    var j := SomeIndex(a, b, k);
  }

  lemma ShuffledDirectory(d: Record, a: seq<Record>, b: seq<Record>)
    requires Shuffled(a, b) && DirectoryConfirmed(d, a)
    ensures DirectoryConfirmed(d, b)
  {
    var k :| 0 <= k < |a| && a[k].root == d.root && a[k].item == d.item;
    var j := SomeIndex(a, b, k);
  }

  lemma ShuffledVerifies(h: W.Host, o: W.Options, m: Manifest, records: seq<Record>, seen: Manifest,
                         seenRecords: seq<Record>)
    requires Shuffled(m.records, records) && Shuffled(seen.records, seenRecords) && Verified(h, o, m, seen, true)
    ensures Verified(h, o, m.(records := records), seen.(records := seenRecords), true)
  {
    hide ValidManifest, Only, EntryConfirmed, DirectoryConfirmed;
    ShuffledIsValid(h, o.ctx, m, records);
    ShuffledOnly(seen.records, seenRecords, Exclusions);
    ShuffledOnly(seen.records, seenRecords, Entries);
    ShuffledOnly(seen.records, seenRecords, Directories);
    ShuffledOnly(m.records, records, Entries);
    ShuffledOnly(m.records, records, Directories);
    forall j | 0 <= j < |records|
      ensures records[j].item.Entry? ==> EntryConfirmed(records[j], seenRecords)
      ensures records[j].item.Directory? ==> DirectoryConfirmed(records[j], seenRecords)
    {
      var k := SomeIndex(records, m.records, j);
      if records[j].item.Entry? { ShuffledConfirms(records[j], seen.records, seenRecords); }
      if records[j].item.Directory? { ShuffledDirectory(records[j], seen.records, seenRecords); }
    }
  }

  // ---------------------------------------------------------------- the copy

  lemma ShuffledFillable(a: seq<Record>, b: seq<Record>)
    requires Shuffled(a, b) && Fillable(a)
    ensures Fillable(b)
  {
    forall k, j | 0 <= k < |b| && !b[k].item.Excluded? && 0 <= j < |b| && Holds(b[j], b[k])
      ensures MayFill(b[j].item.mode)
    {
      var k' := SomeIndex(b, a, k);
      var j' := SomeIndex(b, a, j);
      assert Admits(a, k');
    }
  }

  lemma ShuffledCopied(a: seq<Record>, b: seq<Record>, root: W.Root, p: Path)
    requires Shuffled(a, b)
    ensures Copied(a, root, p) <==> Copied(b, root, p)
  {
    forall k | 0 <= k < |a| ensures exists j :: 0 <= j < |b| && b[j] == a[k] {
      var j := SomeIndex(a, b, k);
    }
    forall k | 0 <= k < |b| ensures exists j :: 0 <= j < |a| && a[j] == b[k] {
      var j := SomeIndex(b, a, k);
    }
  }

  lemma ShuffledIsCopy(h: W.Host, a: seq<Record>, b: seq<Record>, t: Tree, root: W.Root, device: nat, c: Tree)
    requires Shuffled(a, b) && IsCopy(h, a, t, root, device, c)
    ensures IsCopy(h, b, t, root, device, c)
  {
    hide Copied, CopyNode;
    forall p ensures Copied(a, root, p) <==> Copied(b, root, p) {
      ShuffledCopied(a, b, root, p);
    }
    forall r ensures r in a <==> r in b {
      SameMembers(a, b, r);
    }
  }

  lemma ShuffledCopies(h: W.Host, a: seq<Record>, b: seq<Record>, source: Roots, device: nat, copy: Roots)
    requires Shuffled(a, b) && AreCopies(h, a, source, device, copy)
    ensures AreCopies(h, b, source, device, copy)
  {
    hide IsCopy;
    ShuffledIsCopy(h, a, b, source.state, W.StateRoot, device, copy.state);
    ShuffledIsCopy(h, a, b, source.agents, W.AgentsRoot, device, copy.agents);
    ShuffledIsCopy(h, a, b, source.worker, W.WorkerRoot, device, copy.worker);
  }

  lemma {:induction false} OnlyConcat(a: seq<Record>, b: seq<Record>, k: Class)
    ensures Only(a + b, k) == Only(a, k) + Only(b, k)
  {
    hide Belongs;
    if a == [] {
      assert a + b == b;
    } else {
      assert (a + b)[0] == a[0] && (a + b)[1..] == a[1..] + b;
      OnlyConcat(a[1..], b, k);
    }
  }

  lemma OnlyMember(a: seq<Record>, k: Class, r: Record)
    requires r in a && Belongs(r.item, k)
    ensures r in Only(a, k)
  {
    OnlyCounts(a, k, r);
    assert r in multiset(a);
    assert r in multiset(Only(a, k));
  }

  /** A directory walked before a record is stored before it. */
  lemma StoredBefore(a: seq<Record>, b: seq<Record>, j: nat, k: nat, i: nat)
    requires Stored(a, b) && DistinctRecords(a) && j < k < |a| && a[j].item.Directory? && i < |b| && b[i] == a[k]
    ensures exists n :: 0 <= n < i && b[n] == a[j]
  {
    var first := Only(a[..k], Directories);
    assert a == a[..k] + a[k..] && a[k..] == [a[k]] + a[k + 1..] && a[..k][j] == a[j];
    OnlyConcat(a[..k], a[k..], Directories);
    OnlyMember(a[..k], Directories, a[j]);
    var n :| 0 <= n < |first| && first[n] == a[j];
    assert b[n] == a[j];
    if a[k].item.Directory? {
      OnlyConcat([a[k]], a[k + 1..], Directories);
      assert Only(a, Directories)[|first|] == a[k];
      assert b[|first|] == a[k];
      ShuffledDistinct(a, b);
      assert i == |first|;
    } else {
      OnlyBelongs(a, Directories);
      assert i >= |Only(a, Directories)|;
    }
  }

  lemma {:induction false} OnlyBelongs(a: seq<Record>, k: Class)
    ensures forall i :: 0 <= i < |Only(a, k)| ==> Belongs(Only(a, k)[i].item, k)
  {
    if a != [] { OnlyBelongs(a[1..], k); }
  }

  /** What can be copied as walked can be copied as stored. */
  lemma StoredIsCopyable(a: seq<Record>, b: seq<Record>, source: Roots)
    requires Stored(a, b) && Copyable(a, source)
    ensures Copyable(b, source)
  {
    hide Liftable, Only;
    ShuffledDistinct(a, b);
    forall i | 0 <= i < |b| && !b[i].item.Excluded? ensures Liftable(b, source, i) {
      StoredLifts(a, b, source, i);
    }
  }

  lemma StoredLifts(a: seq<Record>, b: seq<Record>, source: Roots, i: nat)
    requires Stored(a, b) && Copyable(a, source) && i < |b| && !b[i].item.Excluded?
    ensures Liftable(b, source, i)
  {
    hide Copied, ReadFile, Pass, Only;
    var k := SomeIndex(b, a, i);
    assert Liftable(a, source, k);
    ShuffledCopied(a, b, b[i].root, []);
    if HeldRecord(a, k) {
      var j :| 0 <= j < k && a[j].root == a[k].root && a[j].item.Directory? && a[j].item.at == Parent(a[k].item.at);
      StoredBefore(a, b, j, k, i);
    }
  }

  /** SORTING CHANGES NOTHING. For a manifest as stored, in whatever order, and a copy's manifest likewise: validity,
      which trees are its copy, whether the copy completes, and what verification says are all as without sorting. */
  lemma SortingIsIrrelevant(h: W.Host, o: W.Options, m: Manifest, records: seq<Record>, seen: Manifest,
                            seenRecords: seq<Record>, source: Roots, device: nat, copy: Roots)
    requires Stored(m.records, records) && Stored(seen.records, seenRecords)
    ensures ValidManifest(h, o.ctx, m.(records := records)) <==> ValidManifest(h, o.ctx, m)
    ensures Copyable(m.records, source) ==> Copyable(records, source)
    ensures Fillable(records) <==> Fillable(m.records)
    ensures AreCopies(h, records, source, device, copy) <==> AreCopies(h, m.records, source, device, copy)
    ensures Verified(h, o, m.(records := records), seen.(records := seenRecords), true) <==>
            Verified(h, o, m, seen, true)
  {
    hide ValidManifest, Copyable, Fillable, AreCopies, Verified;
    assert Shuffled(m.records, records) && Shuffled(records, m.records);
    assert Shuffled(seen.records, seenRecords) && Shuffled(seenRecords, seen.records);
    var m', seen' := m.(records := records), seen.(records := seenRecords);
    assert m == m'.(records := m.records) && seen == seen'.(records := seen.records);
    if ValidManifest(h, o.ctx, m) { ShuffledIsValid(h, o.ctx, m, records); }
    if ValidManifest(h, o.ctx, m') { ShuffledIsValid(h, o.ctx, m', m.records); }
    if Copyable(m.records, source) { StoredIsCopyable(m.records, records, source); }
    if Fillable(m.records) { ShuffledFillable(m.records, records); }
    if Fillable(records) { ShuffledFillable(records, m.records); }
    if AreCopies(h, m.records, source, device, copy) { ShuffledCopies(h, m.records, records, source, device, copy); }
    if AreCopies(h, records, source, device, copy) { ShuffledCopies(h, records, m.records, source, device, copy); }
    if Verified(h, o, m, seen, true) { ShuffledVerifies(h, o, m, records, seen, seenRecords); }
    if Verified(h, o, m', seen', true) { ShuffledVerifies(h, o, m', m.records, seen', seen.records); }
  }
}
