/** The digest of the bytes actually in a transaction directory: a list of what lies at every path, hashed. It
    determines the whole tree, so a certified backup that still has its digest is still the backup that was
    certified. */
module ArtifactDigest {
  import opened FileTree
  import opened Names
  import opened TreeFingerprint
  import opened TransactionStore

  /** [relative path, kind, permissions, names or content digest or link text] */
  datatype Item = Item(relative: string, kind: string, mode: nat, payload: string)

  /** The content digest, and the digest of a list of items. */
  datatype Hasher = Hasher(content: Digest, items: seq<Item> -> string)

  /** Collision free. */
  ghost predicate Faithful(h: Hasher) {
    IsDigest(h.content) && forall x, y :: h.items(x) == h.items(y) ==> x == y
  }

  function ItemOf(t: Tree, r: Record): Item {
    match r.content
    case DirRecord => Item(Join(r.path), "dir", r.mode, Join(Listing(Children(t, r.path))))
    case FileRecord(digest) => Item(Join(r.path), "file", r.mode, digest)
    case LinkRecord(text) => Item(Join(r.path), "link", r.mode, text)
    case Unsupported => Item(Join(r.path), "", r.mode, "")
  }

  function ItemsOf(t: Tree, rs: seq<Record>): (items: seq<Item>)
    ensures |items| == |rs| && forall i :: 0 <= i < |rs| ==> items[i] == ItemOf(t, rs[i])
  {
    seq(|rs|, i requires 0 <= i < |rs| => ItemOf(t, rs[i]))
  }

  /** The directory itself and everything below it, parents first, names sorted. */
  function RecordsOf(h: Hasher, t: Tree): seq<Record>
    requires [] in t
  {
    [Describe(h.content, [], t[[]])] + RecordsUnder(h.content, t, [])
  }

  /** artifactDigest: None where it refuses an entry that is neither directory, file nor link. */
  function Artifact(h: Hasher, t: Tree): Option<string> {
    if [] !in t || (exists p :: p in t && Odd(t[p].kind)) then None
    else Some(h.items(ItemsOf(t, RecordsOf(h, t))))
  }

  /** What a kernel can hold: legal names everywhere. */
  ghost predicate Storable(t: Tree) {
    WellFormed(t) && forall p :: p in t && p != [] ==> LegalPath(p) && (t[p].kind.Link? ==> NUL !in t[p].kind.text)
  }

  lemma ItemTellsRecord(a: Tree, b: Tree, r: Record, s: Record)
    requires ItemOf(a, r) == ItemOf(b, s) && (r.path == s.path == [] || (LegalPath(r.path) && LegalPath(s.path)))
    ensures r == s
  {
    if r.path != [] { JoinInjective(r.path, s.path); }
    assert "dir"[0] == 'd' && "file"[0] == 'f' && "link"[0] == 'l';
  }

  lemma RecordIsStorable(h: Hasher, t: Tree, k: nat)
    requires Storable(t) && k < |RecordsOf(h, t)|
    ensures if k == 0 then RecordsOf(h, t)[k].path == [] else LegalPath(RecordsOf(h, t)[k].path)
  {
    if k > 0 {
      var r := RecordsUnder(h.content, t, [])[k - 1];
      assert r in RecordsUnder(h.content, t, []);
      RecordsAreThePaths(h.content, t, [], r);
    }
  }

  /** THE DIGEST DETERMINES THE TREE. Two storable trees have the same digest if and only if both can be digested and
      they agree on paths, kinds, permissions, file contents and link texts. */
  lemma DigestIdentifiesTree(h: Hasher, a: Tree, b: Tree)
    requires Faithful(h) && Storable(a) && Storable(b) && Artifact(h, a).Some?
    ensures Artifact(h, a) == Artifact(h, b) <==> Agree(a, b)
  {
    if Agree(a, b) {
      AgreeingTreesRecordAlike(h.content, a, b, []);
      var x, y := RecordsOf(h, a), RecordsOf(h, b);
      assert x == y;
      forall i | 0 <= i < |x|
        ensures ItemOf(a, x[i]) == ItemOf(b, x[i])
      {
        assert Children(a, x[i].path) == Children(b, x[i].path);
      }
      assert ItemsOf(a, x) == ItemsOf(b, y);
    }
    if Artifact(h, a) == Artifact(h, b) {
      SameItems(h, a, b);
      forall p ensures p in a ==> p in b && SameNode(a[p], b[p]) { RecordsDetermine(h.content, a, b, p); }
      forall p ensures p in b ==> p in a { RecordsDetermine(h.content, b, a, p); }
    }
  }

  lemma SameItems(h: Hasher, a: Tree, b: Tree)
    requires Faithful(h) && Storable(a) && Storable(b) && Artifact(h, a).Some? && Artifact(h, a) == Artifact(h, b)
    ensures Supported(a) && Supported(b) && RecordsUnder(h.content, a, []) == RecordsUnder(h.content, b, [])
    ensures Permissions(a[[]].mode) == Permissions(b[[]].mode)
  {
    var x, y := RecordsOf(h, a), RecordsOf(h, b);
    assert ItemsOf(a, x) == ItemsOf(b, y);
    forall i | 0 <= i < |x| ensures x[i] == y[i] {
      assert ItemsOf(a, x)[i] == ItemsOf(b, y)[i];
      RecordIsStorable(h, a, i);
      RecordIsStorable(h, b, i);
      ItemTellsRecord(a, b, x[i], y[i]);
    }
    assert x == y && x[0] == y[0] && x[1..] == y[1..];
  }

  /** CERTIFIED MEANS STILL THERE. Whatever others do afterwards, a sealed transaction reconciles as verified if and
      only if the transaction directory still agrees with the tree that had the certified digest. */
  lemma VerifiedMeansUnchanged(l: Log, h: Hasher, d: Disk, manifest: string, artifact: string, later: seq<Event>,
                               certified: Tree)
    requires Sealed(l, d, manifest, artifact) && Faithful(h) && Storable(certified)
    requires Artifact(h, certified) == Some(artifact)
    requires ApplyAll(l, d, later).staging.Some? ==> Storable(ApplyAll(l, d, later).staging.value)
    ensures var now := ApplyAll(l, d, later);
            Reconcile(l, t => Artifact(h, t), now) == Some(CertifiedVerified) <==>
                now.staging.Some? && Agree(certified, now.staging.value)
  {
    SealedReconciles(l, t => Artifact(h, t), d, manifest, artifact, later);
    var now := ApplyAll(l, d, later);
    if now.staging.Some? { DigestIdentifiesTree(h, certified, now.staging.value); }
  }
}
