/** Validation, verification and the retained releases in plain terms. */
module PlainVerify {
  import opened FileTree
  import opened Exclusions
  import opened LinkInspection
  import opened AtomicNames
  import W = CoverageWalk
  import opened Families
  import opened Coverage
  import opened ManifestDistinct
  import opened ManifestValidity
  import opened CoverageVerify
  import opened CoverageSoundness
  import opened RetainedReleases
  import opened PlainRules
  import PlainFamilies
  import PlainCoverage

  // ---------------------------------------------------------------- verification

  /** Two lines say the same: everything but the time a file was modified, and, of a directory, its family. */
  ghost predicate Agree(a: Record, b: Record) {
    && a.root == b.root && a.item.at == b.item.at
    && match a.item
       case Excluded(_, _, _) => false
       case Directory(_, mode, owner, names) => b.item == W.Item.Directory(b.item.at, mode, owner, names)
       case Entry(_, mode, owner, LinkDetail(info)) =>
         a.family == b.family && b.item == W.Entry(b.item.at, mode, owner, W.LinkDetail(info))
       case Entry(_, mode, owner, FileDetail(digest, size, schema, residue, _)) =>
         && a.family == b.family && b.item.Entry? && b.item.detail.FileDetail?
         && b.item == W.Entry(b.item.at, mode, owner, W.FileDetail(digest, size, schema, residue, b.item.detail.mtime))
  }

  ghost predicate Confirms(observed: seq<Record>, a: Record) {
    exists b :: b in observed && Agree(a, b)
  }

  ghost predicate IsConfirmed(m: seq<Record>, b: Record) {
    exists a :: a in m && Agree(a, b)
  }

  /** What is recorded is observed, and what is observed is recorded. */
  ghost predicate Matched(m: seq<Record>, observed: seq<Record>) {
    && (forall a :: a in m && !a.item.Excluded? ==> Confirms(observed, a))
    && (forall b :: b in observed && !b.item.Excluded? ==> IsConfirmed(m, b))
  }

  lemma ConfirmedIs(m: seq<Record>, observed: seq<Record>, k: nat)
    requires k < |m| && !m[k].item.Excluded?
    ensures m[k].item.Entry? ==> (EntryConfirmed(m[k], observed) <==> Confirms(observed, m[k]))
    ensures m[k].item.Directory? ==> (DirectoryConfirmed(m[k], observed) <==> Confirms(observed, m[k]))
  {
    if b :| b in observed && Agree(m[k], b) {
      var j :| 0 <= j < |observed| && observed[j] == b;
    }
    if m[k].item.Entry? && EntryConfirmed(m[k], observed) {
      var j :| 0 <= j < |observed| && observed[j].root == m[k].root && observed[j].family == m[k].family
               && observed[j].item.at == m[k].item.at && SameEntry(m[k].item, observed[j].item);
      assert observed[j] in observed && Agree(m[k], observed[j]);
    }
    if m[k].item.Directory? && DirectoryConfirmed(m[k], observed) {
      var j :| 0 <= j < |observed| && observed[j].root == m[k].root && observed[j].item == m[k].item;
      assert observed[j] in observed && Agree(m[k], observed[j]);
    }
  }

  lemma AllConfirmed(m: seq<Record>, observed: seq<Record>)
    ensures && (forall k :: 0 <= k < |m| && m[k].item.Entry? ==> EntryConfirmed(m[k], observed))
            && (forall k :: 0 <= k < |m| && m[k].item.Directory? ==> DirectoryConfirmed(m[k], observed)) <==>
            forall a :: a in m && !a.item.Excluded? ==> Confirms(observed, a)
  {
    forall k | 0 <= k < |m| && !m[k].item.Excluded?
      ensures m[k].item.Entry? ==> (EntryConfirmed(m[k], observed) <==> Confirms(observed, m[k]))
      ensures m[k].item.Directory? ==> (DirectoryConfirmed(m[k], observed) <==> Confirms(observed, m[k]))
    {
      ConfirmedIs(m, observed, k);
    }
    hide EntryConfirmed, DirectoryConfirmed, Confirms;
    if && (forall k :: 0 <= k < |m| && m[k].item.Entry? ==> EntryConfirmed(m[k], observed))
       && (forall k :: 0 <= k < |m| && m[k].item.Directory? ==> DirectoryConfirmed(m[k], observed)) {
      forall a | a in m && !a.item.Excluded? ensures Confirms(observed, a) {
        var k :| 0 <= k < |m| && m[k] == a;
      }
    }
  }

  lemma AgreeMeans(a: Record, b: Record)
    requires Agree(a, b)
    ensures a.root == b.root && a.item.at == b.item.at && !a.item.Excluded? && !b.item.Excluded?
    ensures a.item.Entry? <==> b.item.Entry?
  {
  }

  ghost predicate SameCounts(m: seq<Record>, observed: seq<Record>) {
    |Only(observed, Entries)| == |Only(m, Entries)| && |Only(observed, Directories)| == |Only(m, Directories)|
  }

  /** Where each is confirmed and there are as many, each observed line confirms one. */
  lemma CountsConfirm(m: seq<Record>, observed: seq<Record>, b: Record)
    requires DistinctRecords(m) && DistinctRecords(observed) && SameCounts(m, observed)
    requires forall a :: a in m && !a.item.Excluded? ==> Confirms(observed, a)
    requires b in observed && !b.item.Excluded?
    ensures IsConfirmed(m, b)
  {
    hide Only, Agree;
    var k := if b.item.Entry? then Entries else Directories;
    forall r | r in m && Belongs(r.item, k)
      ensures exists o :: o in observed && Belongs(o.item, k) && o.root == r.root && o.item.at == r.item.at
    {
      var o :| o in observed && Agree(r, o);
      AgreeMeans(r, o);
    }
    var a := Counterpart(m, observed, k, b);
    var o :| o in observed && Agree(a, o);
    AgreeMeans(a, o);
    OneLine(observed, b, o);
  }

  lemma OneLine(rs: seq<Record>, a: Record, b: Record)
    requires DistinctRecords(rs) && a in rs && b in rs && a.root == b.root && a.item.at == b.item.at
    ensures a == b
  {
    var i :| 0 <= i < |rs| && rs[i] == a;
    var j :| 0 <= j < |rs| && rs[j] == b;
    assert i == j;
  }

  /** And a match leaves as many on both sides. */
  lemma MatchedCounts(m: seq<Record>, observed: seq<Record>, k: Class)
    requires DistinctRecords(m) && DistinctRecords(observed) && Matched(m, observed) && k != Exclusions
    ensures |Only(m, k)| == |Only(observed, k)|
  {
    hide Only, Agree;
    var a, b := Only(m, k), Only(observed, k);
    OnlyDistinct(m, k);
    OnlyDistinct(observed, k);
    KeysAreAsMany(a);
    KeysAreAsMany(b);
    forall x | x in Keys(a) ensures x in Keys(b) {
      var i :| 0 <= i < |a| && x == (a[i].root, a[i].item.at);
      assert a[i] in a;
      assert Confirms(observed, a[i]);
      var o :| o in observed && Agree(a[i], o);
      AgreeMeans(a[i], o);
      var j :| 0 <= j < |b| && b[j] == o;
    }
    forall x | x in Keys(b) ensures x in Keys(a) {
      var i :| 0 <= i < |b| && x == (b[i].root, b[i].item.at);
      assert b[i] in b;
      assert IsConfirmed(m, b[i]);
      var o :| o in m && Agree(o, b[i]);
      AgreeMeans(o, b[i]);
      var j :| 0 <= j < |a| && a[j] == o;
    }
    assert Keys(a) == Keys(b);
  }

  /** VERIFICATION IN PLAIN TERMS. The manifest is valid, there is no problem, the volumes are the same, the exclusions
      are those recorded, or none in a copy, and what is recorded is observed and what is observed is recorded. */
  lemma {:induction false} VerifiedIs(h: W.Host, o: W.Options, m: Manifest, observed: Manifest, isCopy: bool)
    requires DistinctRecords(observed.records)
    ensures Verified(h, o, m, observed, isCopy) <==>
            && ValidManifest(h, o.ctx, m) && observed.problems == [] && observed.volumes == m.volumes
            && Only(observed.records, Exclusions) == (if isCopy then [] else Only(m.records, Exclusions))
            && Matched(m.records, observed.records)
  {
    hide ValidManifest, Only, EntryConfirmed, DirectoryConfirmed, Confirms, IsConfirmed, DistinctRecords;
    AllConfirmed(m.records, observed.records);
    if ValidManifest(h, o.ctx, m) {
      ValidIsDistinct(h, o, m);
      if SameCounts(m.records, observed.records)
         && forall a :: a in m.records && !a.item.Excluded? ==> Confirms(observed.records, a) {
        forall b | b in observed.records && !b.item.Excluded? ensures IsConfirmed(m.records, b) {
          CountsConfirm(m.records, observed.records, b);
        }
      }
      if Matched(m.records, observed.records) {
        MatchedCounts(m.records, observed.records, Entries);
        MatchedCounts(m.records, observed.records, Directories);
      }
    }
  }

  /** So verification pins the manifest: two that verify against one observation of the source say the same. */
  lemma VerifiedAgree(h: W.Host, o: W.Options, m: Manifest, other: Manifest, observed: Manifest, a: Record)
    requires DistinctRecords(observed.records)
    requires Verified(h, o, m, observed, false) && Verified(h, o, other, observed, false)
    requires a in m.records && !a.item.Excluded?
    ensures exists b :: b in other.records && Agree(a, b)
    ensures m.families == other.families ==> m.volumes == other.volumes && m.problems == other.problems
  {
    hide ValidManifest, Only, Verified, Agree;
    VerifiedIs(h, o, m, observed, false);
    VerifiedIs(h, o, other, observed, false);
    ValidIsDistinct(h, o, m);
    ValidIsDistinct(h, o, other);
    assert Confirms(observed.records, a);
    var c :| c in observed.records && Agree(a, c);
    AgreeMeans(a, c);
    assert IsConfirmed(other.records, c);
    var b :| b in other.records && Agree(b, c);
    AgreeThrough(a, b, c);
  }

  lemma AgreeThrough(a: Record, b: Record, c: Record)
    requires Agree(a, c) && Agree(b, c)
    ensures Agree(a, b)
  {
  }

  // ---------------------------------------------------------------- validation

  /** Where an owner rule may leave something out. */
  ghost predicate MayLeaveOut(p: Path) {
    && p != [] && (forall i :: 0 <= i < |p| ==> p[i] != "" && p[i] != "." && p[i] != ".." && '/' !in p[i])
    && p[0] !in ["tasks", "results", "receipts", "nodes", "node-auth.json", "oauth.json", "secrets.env", "plans",
                 "coordinator", "recovery", "runtime", "LaunchAgents", "worker", "revoked-nodes.json", "audit.jsonl",
                 "install-macos.status.json", "config.json"]
    && !("oauth" <= p[0]) && !("com.stinkyweasel.dex-reach." <= p[0])
  }

  lemma PrefixIs(p: Path)
    ensures PrefixAllowed(p) <==> MayLeaveOut(p)
  {
    if p != [] { ProtectedIs(p[0]); }
    hide PROTECTED_TOP;
  }

  lemma ProtectedIs(n: Name)
    ensures n in PROTECTED_TOP <==>
            n in ["tasks", "results", "receipts", "nodes", "node-auth.json", "oauth.json", "secrets.env", "plans",
                  "coordinator", "recovery", "runtime", "LaunchAgents", "worker", "revoked-nodes.json", "audit.jsonl",
                  "install-macos.status.json", "config.json"]
  {
  }

  ghost predicate ExclusionIsLegal(ctx: Context, x: Record)
    requires x.item.Excluded?
  {
    && x.root == W.StateRoot
    && if x.item.rule.SupersededRelease? then ctx.currentOnly && exists id :: x.item.at == ["runtime", "releases", id]
       else ctx.owner && MayLeaveOut(x.item.at)
  }

  lemma ExclusionLegalIs(ctx: Context, x: Record)
    requires x.item.Excluded?
    ensures ValidExclusion(ctx, x) <==> ExclusionIsLegal(ctx, x)
  {
    PrefixIs(x.item.at);
    hide PrefixAllowed, MayLeaveOut;
    var p := x.item.at;
    if |p| == 3 && p[..2] == ["runtime", "releases"] { assert p == p[..2] + [p[2]] == ["runtime", "releases", p[2]]; }
    if id :| p == ["runtime", "releases", id] { assert p[..2] == ["runtime", "releases"]; }
  }

  /** Names on the way are names, and none hides a dot or nothing between backslashes. */
  ghost predicate EntryIsLegal(families: seq<W.Family>, e: Record)
    requires e.item.Entry?
  {
    var p := e.item.at;
    && p != [] && SafePath(p)
    && (forall i :: 0 <= i < |p| ==> p[i] != "" && p[i] != "." && p[i] != ".." && '/' !in p[i])
    && (exists f :: f in families && e.family == f.id && e.root == f.root && SitsIn(f, e))
    && (e.item.detail.FileDetail? && e.item.detail.residue ==>
          IsTemporary(p[|p| - 1]))
  }

  /** At or under the family's place, or, as residue, a temporary of the family's file beside it. */
  ghost predicate SitsIn(f: W.Family, e: Record)
    requires e.item.Entry? && e.item.at != []
  {
    var p := e.item.at;
    || f.relative <= p
    || (&& e.item.detail.FileDetail? && e.item.detail.residue && f.relative != []
        && p[..|p| - 1] == f.relative[..|f.relative| - 1]
        && LeavesBehind(f.relative[|f.relative| - 1], p[|p| - 1]))
  }

  /** A temporary name of this file, whoever wrote it. */
  ghost predicate LeavesBehind(base: Name, n: Name) {
    exists pid :: NamesTemporary(n, base, pid)
  }

  ghost predicate IsTemporary(n: Name) {
    exists base :: LeavesBehind(base, n)
  }

  lemma TemporaryPlainly(n: Name, base: Name)
    ensures TemporaryOf(n).Some? <==> IsTemporary(n)
    ensures TemporaryOf(n).Some? && TemporaryOf(n).value.base == base <==> LeavesBehind(base, n)
  {
    hide TemporaryOf, NamesTemporary;
    forall b, pid ensures TemporaryOf(n) == Some(Temporary(b, pid)) <==> NamesTemporary(n, b, pid) {
      TemporaryIs(n, b, pid);
    }
    if TemporaryOf(n).Some? {
      var t := TemporaryOf(n).value;
      assert NamesTemporary(n, t.base, t.pid) && LeavesBehind(t.base, n);
    }
  }

  lemma SitsInIs(h: W.Host, f: W.Family, e: Record)
    requires e.item.Entry? && e.item.at != []
    ensures InFamily(h, f, e) <==> e.family == f.id && e.root == f.root && SitsIn(f, e)
  {
    hide TemporaryOf, LeavesBehind;
    if f.relative != [] { TemporaryPlainly(Last(e.item.at), Last(f.relative)); }
  }

  lemma EntryLegalIs(h: W.Host, families: seq<W.Family>, e: Record)
    requires e.item.Entry?
    ensures ValidEntry(h, families, e) <==> EntryIsLegal(families, e)
  {
    hide InFamily, SitsIn, TemporaryOf, LeavesBehind, SafePath;
    if e.item.at != [] {
      TemporaryPlainly(Last(e.item.at), "");
      forall f ensures InFamily(h, f, e) <==> e.family == f.id && e.root == f.root && SitsIn(f, e) {
        SitsInIs(h, f, e);
      }
      if f :| f in families && e.family == f.id && e.root == f.root && SitsIn(f, e) {
        var i :| 0 <= i < |families| && families[i] == f;
      }
    }
  }

  /** A recorded directory: no dots on the way, also between backslashes, and names without slashes or backslashes. */
  ghost predicate DirectoryIsLegal(d: Record)
    requires d.item.Directory?
  {
    && (forall i :: 0 <= i < |d.item.at| ==> DotFree(d.item.at[i]))
    && (forall k :: 0 <= k < |d.item.names| ==> OneName(d.item.names[k]))
  }

  ghost predicate DotFree(n: Name) {
    n != "" && '/' !in n && "." !in Pieces(n) && ".." !in Pieces(n)
  }

  ghost predicate OneName(n: Name) {
    '/' !in n && '\\' !in n && n != "." && n != ".."
  }

  lemma DirectoryLegalIs(d: Record)
    requires d.item.Directory?
    ensures ValidDirectory(d.item) <==> DirectoryIsLegal(d)
  {
    forall n ensures ValidName(n) && "." !in Pieces(n) && ".." !in Pieces(n) <==> DotFree(n) {
      if n in {".", ".."} { assert Pieces(n) == [n]; }
    }
    forall n ensures Plain(n) && n != "." && n != ".." <==> OneName(n) {}
    hide ValidName, Plain, DotFree, OneName, Pieces;
  }

  /** The policy is that of the names recorded for the state root. */
  ghost predicate HasRoot(m: Manifest) {
    exists r :: r in m.records && r.root == W.StateRoot && r.item.Directory? && r.item.at == []
                && m.families == Policy(r.item.names)
  }

  ghost predicate NothingUnder(rs: seq<Record>, x: Record) {
    forall e :: e in rs && e.item.Entry? && e.root == x.root ==> !(x.item.at <= e.item.at)
  }

  ghost predicate SomeOf(rs: seq<Record>, f: W.Family) {
    exists e :: e in rs && e.item.Entry? && e.family == f.id
  }

  ghost predicate SomeAt(rs: seq<Record>, p: Path) {
    exists e :: e in rs && e.root == W.StateRoot && e.item.Entry? && e.item.at == p
  }

  /** VALIDATION IN PLAIN TERMS. */
  ghost predicate PlainlyValid(ctx: Context, m: Manifest) {
    && m.problems == [] && HasRoot(m)
    && (forall i, j :: 0 <= i < j < |m.records| ==>
          m.records[i].root != m.records[j].root || m.records[i].item.at != m.records[j].item.at)
    && (forall x :: x in m.records && x.item.Excluded? ==> ExclusionIsLegal(ctx, x) && NothingUnder(m.records, x))
    && (forall e :: e in m.records && e.item.Entry? ==> EntryIsLegal(m.families, e))
    && (forall d :: d in m.records && d.item.Directory? ==> DirectoryIsLegal(d))
    && (forall f :: f in m.families && f.required ==> SomeOf(m.records, f))
    && (forall k :: 0 <= k < |PlainCoverage.MUST| ==> SomeAt(m.records, PlainCoverage.MUST[k]))
  }

  lemma {:induction false} ValidIs(h: W.Host, ctx: Context, m: Manifest)
    ensures ValidManifest(h, ctx, m) <==> PlainlyValid(ctx, m)
  {
    hide Policy, ValidExclusion, ExclusionIsLegal, ValidEntry, EntryIsLegal, ValidDirectory, DirectoryIsLegal,
         MandatoryPresent, EntryUnder, NothingUnder, FamilyHasEntry, SomeOf, SomeAt, HasRoot, PlainCoverage.MUST;
    RootIs(m);
    ExclusionsAre(ctx, m.records);
    EntriesAre(h, m.families, m.records);
    DirectoriesAre(m.records);
    FamiliesHave(m.families, m.records);
    MustAreThere(m.records);
  }

  lemma RootIs(m: Manifest)
    ensures (exists k :: 0 <= k < |m.records| && IsStateRoot(m.records[k])
                         && m.families == Policy(m.records[k].item.names)) <==> HasRoot(m)
  {
    hide Policy;
    if HasRoot(m) {
      var r :| r in m.records && r.root == W.StateRoot && r.item.Directory? && r.item.at == []
               && m.families == Policy(r.item.names);
      var k :| 0 <= k < |m.records| && m.records[k] == r;
      assert IsStateRoot(m.records[k]);
    }
  }

  lemma ExclusionsAre(ctx: Context, rs: seq<Record>)
    ensures (forall k :: 0 <= k < |rs| && rs[k].item.Excluded? ==> ValidExclusion(ctx, rs[k]) && !EntryUnder(rs, rs[k]))
            <==> forall x :: x in rs && x.item.Excluded? ==> ExclusionIsLegal(ctx, x) && NothingUnder(rs, x)
  {
    hide ValidExclusion, ExclusionIsLegal, EntryUnder, NothingUnder;
    forall k | 0 <= k < |rs| && rs[k].item.Excluded?
      ensures rs[k] in rs && (ValidExclusion(ctx, rs[k]) <==> ExclusionIsLegal(ctx, rs[k]))
      ensures !EntryUnder(rs, rs[k]) <==> NothingUnder(rs, rs[k])
    {
      ExclusionLegalIs(ctx, rs[k]);
      UnderIs(rs, rs[k]);
    }
  }

  lemma EntriesAre(h: W.Host, families: seq<W.Family>, rs: seq<Record>)
    ensures (forall k :: 0 <= k < |rs| && rs[k].item.Entry? ==> ValidEntry(h, families, rs[k])) <==>
            forall e :: e in rs && e.item.Entry? ==> EntryIsLegal(families, e)
  {
    hide ValidEntry, EntryIsLegal;
    forall k | 0 <= k < |rs| && rs[k].item.Entry?
      ensures rs[k] in rs && (ValidEntry(h, families, rs[k]) <==> EntryIsLegal(families, rs[k]))
    {
      EntryLegalIs(h, families, rs[k]);
    }
  }

  lemma DirectoriesAre(rs: seq<Record>)
    ensures (forall k :: 0 <= k < |rs| && rs[k].item.Directory? ==> ValidDirectory(rs[k].item)) <==>
            forall d :: d in rs && d.item.Directory? ==> DirectoryIsLegal(d)
  {
    hide ValidDirectory, DirectoryIsLegal;
    forall k | 0 <= k < |rs| && rs[k].item.Directory?
      ensures rs[k] in rs && (ValidDirectory(rs[k].item) <==> DirectoryIsLegal(rs[k]))
    {
      DirectoryLegalIs(rs[k]);
    }
  }

  lemma FamiliesHave(families: seq<W.Family>, rs: seq<Record>)
    ensures (forall i :: 0 <= i < |families| && families[i].required ==> FamilyHasEntry(rs, families[i])) <==>
            forall f :: f in families && f.required ==> SomeOf(rs, f)
  {
    hide FamilyHasEntry, SomeOf;
    forall i | 0 <= i < |families|
      ensures families[i] in families && (FamilyHasEntry(rs, families[i]) <==> SomeOf(rs, families[i]))
    {
      HasEntryIs(rs, families[i]);
    }
  }

  lemma MustAreThere(rs: seq<Record>)
    ensures MandatoryPresent(rs) <==>
            forall k :: 0 <= k < |PlainCoverage.MUST| ==> SomeAt(rs, PlainCoverage.MUST[k])
  {
    hide HasEntryAt, SomeAt, MANDATORY, PlainCoverage.MUST;
    PlainCoverage.MustIs();
    forall p ensures HasEntryAt(rs, p) <==> SomeAt(rs, p) { EntryAtIs(rs, p); }
  }

  lemma UnderIs(rs: seq<Record>, x: Record)
    ensures !EntryUnder(rs, x) <==> NothingUnder(rs, x)
  {
  }

  lemma HasEntryIs(rs: seq<Record>, f: W.Family)
    ensures FamilyHasEntry(rs, f) <==> SomeOf(rs, f)
  {
    if SomeOf(rs, f) {
      var e :| e in rs && e.item.Entry? && e.family == f.id;
      var k :| 0 <= k < |rs| && rs[k] == e;
    }
  }

  lemma EntryAtIs(rs: seq<Record>, p: Path)
    ensures HasEntryAt(rs, p) <==> SomeAt(rs, p)
  {
    if SomeAt(rs, p) {
      var e :| e in rs && e.root == W.StateRoot && e.item.Entry? && e.item.at == p;
      var k :| 0 <= k < |rs| && rs[k] == e;
    }
  }

  // ---------------------------------------------------------------- the retained releases

  /** The agent's property list declares this release in the install root. */
  ghost predicate Runs(rd: Reader, agents: Tree, k: nat, id: Name)
    requires k < 5
  {
    var p := [PlainFamilies.Service(k)];
    p in agents && agents[p].kind.Regular? && rd.declared(agents[p].kind.bytes) == Some(Declared(rd.installRoot, id))
  }

  /** What a snapshot says about a release, where it is about it at all. */
  ghost predicate About(rd: Reader, bytes: seq<char>, current: Name) {
    var s := rd.snapshot(bytes);
    s.Some? && s.value.schema == Some(1) && s.value.candidate == Some(current)
  }

  /** An entry of the rollback directory without fault: a directory without a snapshot, or a readable snapshot which,
      if it is about the release, is its own and names a release. */
  ghost predicate Faultless(rd: Reader, state: Tree, current: Name, n: Name) {
    var dir, p := ["runtime", "rollback", n], ["runtime", "rollback", n, "snapshot.json"];
    if p !in state then dir in state && state[dir].kind.Directory?
    else
      && state[p].kind.Regular? && rd.snapshot(state[p].kind.bytes).Some?
      && (About(rd, state[p].kind.bytes, current) ==>
            n == current && exists id :: ReleaseName(id) && rd.snapshot(state[p].kind.bytes).value.previous == Some(id))
  }

  ghost predicate PlainlyDetermined(rd: Reader, roots: Roots, current: Name, previous: Name) {
    && ReleaseName(current) && ReleaseName(previous) && previous != current
    && (forall k :: 0 <= k < 5 ==> Runs(rd, roots.agents, k, current))
    && IsDirectory(roots.state, ["runtime", "rollback"])
    && (forall n :: ["runtime", "rollback", n] in roots.state ==> Faultless(rd, roots.state, current, n))
    && ["runtime", "rollback", current] in roots.state
    && (var p := ["runtime", "rollback", current, "snapshot.json"];
        && p in roots.state && roots.state[p].kind.Regular? && About(rd, roots.state[p].kind.bytes, current)
        && rd.snapshot(roots.state[p].kind.bytes).value.previous == Some(previous))
    && IsDirectory(roots.state, ["runtime", "releases", current])
    && IsDirectory(roots.state, ["runtime", "releases", previous])
  }

  lemma RunsIs(rd: Reader, agents: Tree, k: nat, id: Name)
    requires k < 5
    ensures RunBy(rd, agents, [PlainFamilies.Service(k)]) == Some(id) <==> Runs(rd, agents, k, id) && ReleaseName(id)
  {
    hide PlainFamilies.Service;
    ReleaseIdIs(id);
    forall d ensures ReleaseId(d) <==> ReleaseName(d) { ReleaseIdIs(d); }
    hide ReleaseId, ReleaseName;
  }

  lemma AllRunIs(rd: Reader, agents: Tree, id: Name)
    ensures AllRun(rd, agents, id) <==> ReleaseName(id) && forall k :: 0 <= k < 5 ==> Runs(rd, agents, k, id)
  {
    hide RunBy, Runs, ReleaseName, PLISTS, PlainFamilies.Service;
    PlainFamilies.PlistsAre();
    forall k | 0 <= k < 5
      ensures RunBy(rd, agents, PLISTS[k]) == Some(id) <==> Runs(rd, agents, k, id) && ReleaseName(id)
    {
      RunsIs(rd, agents, k, id);
    }
    assert AllRun(rd, agents, id) ==> RunBy(rd, agents, PLISTS[0]) == Some(id);
  }

  lemma TargetIs(rd: Reader, state: Tree, current: Name, n: Name, previous: Name)
    ensures !TargetOf(rd, state, current, n).Fails? <==> Faultless(rd, state, current, n)
    ensures TargetOf(rd, state, current, current) == Names(previous) <==>
            var p := ["runtime", "rollback", current, "snapshot.json"];
            && p in state && state[p].kind.Regular? && About(rd, state[p].kind.bytes, current)
            && rd.snapshot(state[p].kind.bytes).value.previous == Some(previous) && ReleaseName(previous)
  {
    forall d ensures ReleaseId(d) <==> ReleaseName(d) { ReleaseIdIs(d); }
    hide ReleaseId, ReleaseName;
    assert Parent(SnapshotAt(n)) == ["runtime", "rollback", n];
  }

  /** THE RETAINED RELEASES IN PLAIN TERMS. */
  lemma {:induction false} DeterminedIs(rd: Reader, roots: Roots, current: Name, previous: Name)
    ensures Determined(rd, roots, current, previous) <==> PlainlyDetermined(rd, roots, current, previous)
  {
    hide AllRun, Runs, TargetOf, Faultless, About, ReleaseName;
    AllRunIs(rd, roots.agents, current);
    forall n ensures !TargetOf(rd, roots.state, current, n).Fails? <==> Faultless(rd, roots.state, current, n) {
      TargetIs(rd, roots.state, current, n, previous);
    }
    TargetIs(rd, roots.state, current, current, previous);
    forall n ensures n in Children(roots.state, ROLLBACK) <==> ["runtime", "rollback", n] in roots.state {
      assert ROLLBACK + [n] == ["runtime", "rollback", n];
    }
    forall n ensures TargetOf(rd, roots.state, current, n).Names? ==> n == current {
      NamedIsCurrent(rd, roots.state, current, n);
    }
  }
}
