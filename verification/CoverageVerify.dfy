/** verifyCoverage: a trusted manifest against a fresh inspection of the source or of a copy, and exactly when the
    copy of a problem-free source is accepted. */
module CoverageVerify {
  import opened FileTree
  import W = CoverageWalk
  import C = CoverageCopy
  import opened Coverage
  import opened CoverageTheorems
  import opened CoverageRoundTrip
  import opened ManifestDistinct
  import opened ManifestValidity

  datatype Class = Directories | Entries | Exclusions

  predicate Belongs(i: W.Item, k: Class) {
    match k
    case Directories => i.Directory?
    case Entries => i.Entry?
    case Exclusions => i.Excluded?
  }

  function Only(rs: seq<Record>, k: Class): seq<Record> {
    if rs == [] then [] else (if Belongs(rs[0].item, k) then [rs[0]] else []) + Only(rs[1..], k)
  }

  lemma {:induction false} KeptCounts(h: W.Host, rs: seq<Record>, k: Class)
    ensures |Only(KeptRecords(h, rs), k)| == if k == Exclusions then 0 else |Only(rs, k)|
  {
    if rs != [] {
      KeptCounts(h, rs[1..], k);
      var rest := KeptRecords(h, rs[1..]);
      assert ([RenewedRecord(h, rs[0])] + rest)[1..] == rest;
      assert [] + rest == rest;
    }
  }

  /** The fields compared for an entry: everything but the modification time. */
  predicate SameEntry(a: W.Item, b: W.Item) {
    && a.Entry? && b.Entry? && a.mode == b.mode && a.owner == b.owner
    && (a.detail.LinkDetail? ==> b.detail == a.detail)
    && (a.detail.FileDetail? ==>
          b.detail.FileDetail? && a.detail.digest == b.detail.digest && a.detail.size == b.detail.size
          && a.detail.schema == b.detail.schema && a.detail.residue == b.detail.residue)
  }

  predicate EntryConfirmed(e: Record, observed: seq<Record>) {
    exists k :: 0 <= k < |observed| && observed[k].root == e.root && observed[k].family == e.family
                && observed[k].item.at == e.item.at && SameEntry(e.item, observed[k].item)
  }

  predicate DirectoryConfirmed(d: Record, observed: seq<Record>) {
    exists k :: 0 <= k < |observed| && observed[k].root == d.root && observed[k].item == d.item
  }

  /** verifyCoverage: the manifest is valid, and what is observed, of the source or of a copy, is what it records. */
  predicate Verified(h: W.Host, o: W.Options, m: Manifest, observed: Manifest, isCopy: bool) {
    && ValidManifest(h, o.ctx, m)
    && Only(observed.records, Exclusions) == (if isCopy then [] else Only(m.records, Exclusions))
    && observed.volumes == m.volumes && observed.problems == []
    && |Only(observed.records, Entries)| == |Only(m.records, Entries)|
    && |Only(observed.records, Directories)| == |Only(m.records, Directories)|
    && (forall k :: 0 <= k < |m.records| && m.records[k].item.Entry? ==> EntryConfirmed(m.records[k], observed.records))
    && (forall k :: 0 <= k < |m.records| && m.records[k].item.Directory? ==>
          DirectoryConfirmed(m.records[k], observed.records))
  }

  /** What is recorded of the item is what a newly made one shows: the copier's ownership, and for a link the mode of a
      new one. */
  predicate AsNew(h: W.Host, i: W.Item) {
    && (!i.Excluded? ==> i.owner == h.owner)
    && (i.Entry? && i.detail.LinkDetail? ==> i.mode == Permissions(h.linkMode))
  }

  predicate AllAsNew(h: W.Host, records: seq<Record>) {
    forall k :: 0 <= k < |records| ==> AsNew(h, records[k].item)
  }

  /** WHICH BACKUPS VERIFY, for every link policy and every choice of exclusions. The finished backup of a problem-free
      source is accepted if and only if it lies on the volumes of its source, everything recorded belongs to the copier,
      every recorded link has the mode of a new link and stays, and no recorded directory lists a name with a
      backslash. */
  lemma BackupVerifies(s: Setup, held: set<Path>, roots: Roots, device: nat, copy: Roots)
    requires Ready(s, held, roots) && AreCopies(s.host, Records(s, held, roots), roots, device, copy)
    ensures Sound(copy)
    ensures var m := InspectCoverage(s, held, roots);
            Verified(s.host, s.options, m, InspectCoverage(s, {}, copy), true) <==>
            && m.volumes == [device, device, device] && AllAsNew(s.host, m.records) && PlainListings(m.records)
            && LinksStay(m.records, roots, s.options.policy)
  {
    hide Records, IsCopy, ProblemFree, Verified, InspectCoverage, PlainListings, ValidManifest, DistinctRecords,
         AllAsNew, LinksStay;
    BackupRoundTrip(s, held, roots, device, copy);
    ReadyIsWalked(s, held, roots);
    ManifestIsDistinct(s, held, roots);
    ReadyInspects(s, held, roots);
    ProblemFreeIsValid(s, held, roots);
    if LinksStay(Records(s, held, roots), roots, s.options.policy) {
      KeptVerifies(s.host, s.options, InspectCoverage(s, held, roots), InspectCoverage(s, {}, copy));
    } else if Verified(s.host, s.options, InspectCoverage(s, held, roots), InspectCoverage(s, {}, copy), true) {
      VerifiedLinksStay(s, held, roots, device, copy);
    }
  }

  lemma VerifiedLinksStay(s: Setup, held: set<Path>, roots: Roots, device: nat, copy: Roots)
    requires Backup(s, held, roots, device, copy)
    requires Verified(s.host, s.options, InspectCoverage(s, held, roots), InspectCoverage(s, {}, copy), true)
    ensures LinksStay(Records(s, held, roots), roots, s.options.policy)
  {
    hide Records, IsCopy, ValidManifest, Only, LinkStays, FamilyReport, PLISTS, MANDATORY, ProblemFree, LocksOk;
    var records, observed := Records(s, held, roots), Records(s, {}, copy);
    EmptyProblems(s, {}, copy);
    forall r | r in records && LinkRecord(r) ensures LinkStays(records, roots.At(r.root), s.options.policy, r) {
      var k :| 0 <= k < |records| && records[k] == r;
      assert EntryConfirmed(records[k], observed);
      var j :| 0 <= j < |observed| && observed[j].root == r.root && observed[j].family == r.family
               && observed[j].item.at == r.item.at && SameEntry(r.item, observed[j].item);
      ConfirmedLinkStays(s, held, roots, device, copy, r, observed[j]);
    }
  }

  lemma ReadyInspects(s: Setup, held: set<Path>, roots: Roots)
    requires Ready(s, held, roots)
    ensures InspectCoverage(s, held, roots).problems == []
    ensures InspectCoverage(s, held, roots).records == Records(s, held, roots)
  {
    hide ProblemFree, Records;
    EmptyProblems(s, held, roots);
  }

  lemma KeptVerifies(h: W.Host, o: W.Options, m: Manifest, observed: Manifest)
    requires observed.records == KeptRecords(h, m.records) && observed.problems == [] && DistinctRecords(m.records)
    ensures Verified(h, o, m, observed, true) <==>
            ValidManifest(h, o.ctx, m) && observed.volumes == m.volumes && AllAsNew(h, m.records)
  {
    hide Only, KeptRecords, ValidManifest, EntryConfirmed, DirectoryConfirmed, DistinctRecords;
    KeptCounts(h, m.records, Exclusions);
    KeptCounts(h, m.records, Entries);
    KeptCounts(h, m.records, Directories);
    forall k | 0 <= k < |m.records|
      ensures m.records[k].item.Entry? ==>
        (EntryConfirmed(m.records[k], observed.records) <==> AsNew(h, m.records[k].item))
      ensures m.records[k].item.Directory? ==>
        (DirectoryConfirmed(m.records[k], observed.records) <==> AsNew(h, m.records[k].item))
    {
      ConfirmedExactly(h, m.records, k);
    }
  }

  /** A record is confirmed by the copy exactly when it records what a new item shows. */
  lemma ConfirmedExactly(h: W.Host, records: seq<Record>, k: nat)
    requires DistinctRecords(records) && k < |records|
    ensures records[k].item.Entry? ==>
      (EntryConfirmed(records[k], KeptRecords(h, records)) <==> AsNew(h, records[k].item))
    ensures records[k].item.Directory? ==>
      (DirectoryConfirmed(records[k], KeptRecords(h, records)) <==> AsNew(h, records[k].item))
  {
    hide KeptRecords;
    var e, kept := records[k], KeptRecords(h, records);
    if !e.item.Excluded? {
      KeptRecordHolds(h, records, e);
      var j :| 0 <= j < |kept| && kept[j] == RenewedRecord(h, e);
      forall i | 0 <= i < |kept| && kept[i].root == e.root && kept[i].item.at == e.item.at
        ensures kept[i] == RenewedRecord(h, e)
      {
        var r := KeptRecordComesFrom(h, records, kept[i]);
        var n :| 0 <= n < |records| && records[n] == r;
        OneIndex(records, n, k);
      }
    }
  }

  lemma OneIndex(records: seq<Record>, d: nat, k: nat)
    requires DistinctRecords(records) && d < |records| && k < |records|
    requires records[d].root == records[k].root && records[d].item.at == records[k].item.at
    ensures d == k
  {
  }
}
