/** The content-and-mode fingerprint of an immutable runtime tree: the character stream fed to the hash.
    The stream is uniquely decodable although names and link text may contain newlines. */
module TreeFingerprint {
  import opened FileTree
  import opened Names

  datatype Content = DirRecord | FileRecord(digest: string) | LinkRecord(text: string) | Unsupported

  datatype Record = Record(path: Path, mode: nat, content: Content)

  type Digest = seq<char> -> string

  /** Neither directory, file nor link. */
  predicate Odd(k: Kind) {
    k.Socket? || k.Special?
  }

  function Describe(digest: Digest, p: Path, n: Node): Record {
    Record(p, Permissions(n.mode),
           match n.kind
           case Directory => DirRecord
           case Regular(bytes) => FileRecord(digest(bytes))
           case Link(text) => LinkRecord(text)
           case _ => Unsupported)
  }

  // ---------------------------------------------------------------- the records of a tree

  /** Everything strictly below `dir`, in preorder, names sorted. */
  function RecordsUnder(digest: Digest, t: Tree, dir: Path): seq<Record>
    requires dir in t
    decreases Beneath(t, dir), 1, 0
  {
    RecordsFor(digest, t, dir, Listing(Children(t, dir)))
  }

  function RecordsFor(digest: Digest, t: Tree, dir: Path, names: seq<Name>): seq<Record>
    requires dir in t && forall i :: 0 <= i < |names| ==> dir + [names[i]] in t
    decreases Beneath(t, dir), 0, |names|
  {
    if names == [] then []
    else
      var p := dir + [names[0]];
      ChildIsSmaller(t, dir, names[0]);
      [Describe(digest, p, t[p])]
      + (if t[p].kind.Directory? then RecordsUnder(digest, t, p) else [])
      + RecordsFor(digest, t, dir, names[1..])
  }

  /** Everything at or below `p`. */
  function RecordsAt(digest: Digest, t: Tree, p: Path): seq<Record>
    requires p in t
  {
    [Describe(digest, p, t[p])] + Below(digest, t, p)
  }

  function Below(digest: Digest, t: Tree, p: Path): seq<Record>
    requires p in t
  {
    if t[p].kind.Directory? then RecordsUnder(digest, t, p) else []
  }

  ghost predicate Describes(digest: Digest, t: Tree, p: Path, r: Record) {
    p <= r.path && r.path in t && r == Describe(digest, r.path, t[r.path])
  }

  /** A record is listed exactly for each existing path below the directory, describing that path. */
  lemma {:induction false} RecordsAreThePaths(digest: Digest, t: Tree, dir: Path, r: Record)
    requires WellFormed(t) && IsDirectory(t, dir)
    ensures r in RecordsUnder(digest, t, dir) <==> dir != r.path && Describes(digest, t, dir, r)
    decreases Beneath(t, dir), 1, 0
  {
    var names := Listing(Children(t, dir));
    RecordsForNames(digest, t, dir, names, r);
    if dir < r.path && r.path in t {
      ChildListed(t, dir, r.path);
    }
    assert forall i :: 0 <= i < |names| ==> names[i] in Elements(names);
  }

  lemma ChildListed(t: Tree, dir: Path, p: Path)
    requires WellFormed(t) && dir < p && p in t
    ensures p[|dir|] in Listing(Children(t, dir)) && dir + [p[|dir|]] <= p
  {
    AncestorsAreDirectories(t, p, p[..|dir| + 1]);
    assert p[..|dir| + 1] == dir + [p[|dir|]];
    assert p[|dir|] in Elements(Listing(Children(t, dir)));
  }

  lemma {:induction false} RecordsForNames(digest: Digest, t: Tree, dir: Path, names: seq<Name>, r: Record)
    requires WellFormed(t) && dir in t && forall i :: 0 <= i < |names| ==> dir + [names[i]] in t
    ensures r in RecordsFor(digest, t, dir, names) <==>
            dir < r.path && r.path[|dir|] in names && Describes(digest, t, dir + [r.path[|dir|]], r)
    decreases Beneath(t, dir), 0, |names|
  {
    if names != [] {
      var p := dir + [names[0]];
      ChildIsSmaller(t, dir, names[0]);
      RecordsForNames(digest, t, dir, names[1..], r);
      OwnRecords(digest, t, p, r);
      assert names == [names[0]] + names[1..];
      assert RecordsFor(digest, t, dir, names) == RecordsAt(digest, t, p) + RecordsFor(digest, t, dir, names[1..]);
    }
  }

  lemma {:induction false} OwnRecords(digest: Digest, t: Tree, p: Path, r: Record)
    requires WellFormed(t) && p in t
    ensures r in RecordsAt(digest, t, p) <==> Describes(digest, t, p, r)
    decreases Beneath(t, p), 2, 0
  {
    if t[p].kind.Directory? {
      RecordsAreThePaths(digest, t, p, r);
    } else {
      assert RecordsAt(digest, t, p) == [Describe(digest, p, t[p])];
      if Describes(digest, t, p, r) {
        AncestorsAreDirectories(t, r.path, p);
        assert p == r.path;
      }
    }
  }

  /** Agreement on paths, kinds, permissions, file contents and link text. */
  ghost predicate Agree(a: Tree, b: Tree) {
    a.Keys == b.Keys && forall p :: p in a && p in b ==>
      a[p].kind == b[p].kind && Permissions(a[p].mode) == Permissions(b[p].mode)
  }

  lemma {:induction false} AgreeingTreesRecordAlike(digest: Digest, a: Tree, b: Tree, dir: Path)
    requires Agree(a, b) && dir in a
    ensures RecordsUnder(digest, a, dir) == RecordsUnder(digest, b, dir)
    decreases Beneath(a, dir), 1, 0
  {
    assert Children(a, dir) == Children(b, dir);
    AgreeingNamesRecordAlike(digest, a, b, dir, Listing(Children(a, dir)));
  }

  lemma {:induction false} AgreeingNamesRecordAlike(digest: Digest, a: Tree, b: Tree, dir: Path, names: seq<Name>)
    requires Agree(a, b) && dir in a && forall i :: 0 <= i < |names| ==> dir + [names[i]] in a
    ensures RecordsFor(digest, a, dir, names) == RecordsFor(digest, b, dir, names)
    decreases Beneath(a, dir), 0, |names|
  {
    if names != [] {
      ChildIsSmaller(a, dir, names[0]);
      var p := dir + [names[0]];
      if a[p].kind.Directory? { AgreeingTreesRecordAlike(digest, a, b, p); }
      AgreeingNamesRecordAlike(digest, a, b, dir, names[1..]);
    }
  }

  // ---------------------------------------------------------------- the stream

  const NUL: char := '\0'
  const NEWLINE: char := '\n'

  function Digit(d: nat): char
    requires d < 10
  {
    "0123456789"[d]
  }

  function Decimal(n: nat): (s: string)
    ensures s != "" && (n >= 10 ==> |s| >= 2) && (n < 10 ==> |s| == 1)
    ensures forall i :: 0 <= i < |s| ==> '0' <= s[i] <= '9'
  {
    if n < 10 then [Digit(n)] else Decimal(n / 10) + [Digit(n % 10)]
  }

  function Join(p: Path): string {
    if p == [] then "" else if |p| == 1 then p[0] else p[0] + "/" + Join(p[1..])
  }

  function Tag(c: Content): string {
    match c
    case DirRecord => "dir"
    case FileRecord(_) => "file"
    case LinkRecord(_) => "link"
    case Unsupported => "other"
  }

  /** What follows the permissions up to the end of the record. */
  function Tail(c: Content): string {
    match c
    case FileRecord(digest) => [NUL] + digest + [NEWLINE]
    case LinkRecord(text) => [NUL] + text + [NEWLINE]
    case _ => [NEWLINE]
  }

  function Line(r: Record): string {
    Tag(r.content) + [NUL] + (Join(r.path) + [NUL] + (Decimal(r.mode) + Tail(r.content)))
  }

  function Encode(records: seq<Record>): string {
    if records == [] then "" else Line(records[0]) + Encode(records[1..])
  }

  /** The whole stream of a tree: a root record, then everything below it. */
  function Stream(digest: Digest, t: Tree): string
    requires [] in t
  {
    "root" + [NUL] + (Decimal(Permissions(t[[]].mode)) + [NEWLINE] + Encode(RecordsUnder(digest, t, [])))
  }

  // ---------------------------------------------------------------- unique decodability

  /** Text cut at the first separator is cut in one way only. */
  lemma CutOnce(a: string, x: string, b: string, y: string, sep: char)
    requires sep !in a && sep !in b
    requires a + [sep] + x == b + [sep] + y
    ensures a == b && x == y
  {
    var s := a + [sep] + x;
    assert s[|a|] == sep && s[|b|] == sep;
    assert |a| == |b|;
    assert a == s[..|a|] && b == s[..|b|];
    assert x == s[|a| + 1..] && y == s[|b| + 1..];
  }

  lemma {:induction false} DecimalInjective(a: nat, b: nat)
    requires Decimal(a) == Decimal(b)
    ensures a == b
  {
    if a >= 10 && b >= 10 {
      assert Decimal(a)[..|Decimal(a)| - 1] == Decimal(a / 10);
      assert Decimal(b)[..|Decimal(b)| - 1] == Decimal(b / 10);
      DecimalInjective(a / 10, b / 10);
      assert Decimal(a)[|Decimal(a)| - 1] == Digit(a % 10) && Decimal(b)[|Decimal(b)| - 1] == Digit(b % 10);
    } else {
      assert a < 10 && b < 10;
      assert Decimal(a)[0] == Digit(a) && Decimal(b)[0] == Digit(b);
    }
  }

  ghost predicate LegalPath(p: Path) {
    p != [] && forall i :: 0 <= i < |p| ==> ValidName(p[i]) && NUL !in p[i]
  }

  lemma {:induction false} JoinInjective(p: Path, q: Path)
    requires LegalPath(p) && LegalPath(q) && Join(p) == Join(q)
    ensures p == q
  {
    JoinShowsDepth(p);
    JoinShowsDepth(q);
    if |p| > 1 {
      CutOnce(p[0], Join(p[1..]), q[0], Join(q[1..]), '/');
      JoinInjective(p[1..], q[1..]);
      assert p == [p[0]] + p[1..] && q == [q[0]] + q[1..];
    }
  }

  lemma JoinShowsDepth(p: Path)
    requires LegalPath(p)
    ensures '/' in Join(p) <==> |p| > 1
  {
    if |p| > 1 { assert Join(p)[|p[0]|] == '/'; }
  }

  lemma {:induction false} JoinKeepsOut(p: Path, c: char)
    requires c != '/' && forall i :: 0 <= i < |p| ==> c !in p[i]
    ensures c !in Join(p)
  {
    if |p| > 1 { JoinKeepsOut(p[1..], c); }
  }

  /** Link text carries no NUL (it may carry newlines); a digest carries neither. */
  ghost predicate Legal(r: Record) {
    && LegalPath(r.path)
    && match r.content
       case FileRecord(digest) => NUL !in digest && NEWLINE !in digest
       case LinkRecord(text) => NUL !in text
       case DirRecord => true
       case Unsupported => false
  }

  ghost predicate AllLegal(records: seq<Record>) {
    forall i :: 0 <= i < |records| ==> Legal(records[i])
  }

  /** A nonempty encoding opens with a tag and a NUL, and a tag has no newline. */
  lemma EncodingOpens(records: seq<Record>)
    requires records != []
    ensures var tag := Tag(records[0].content);
            && |Encode(records)| > |tag| && Encode(records)[..|tag|] == tag && Encode(records)[|tag|] == NUL
            && NUL !in tag && NEWLINE !in tag
  {
    var r := records[0];
    OpensWith(Tag(r.content), Join(r.path) + [NUL] + (Decimal(r.mode) + Tail(r.content)), Encode(records[1..]));
  }

  lemma OpensWith(tag: string, rest: string, more: string)
    ensures var s := (tag + [NUL] + rest) + more; |s| > |tag| && s[..|tag|] == tag && s[|tag|] == NUL
  {
    var s := (tag + [NUL] + rest) + more;
    assert s == tag + ([NUL] + rest + more);
  }

  function FirstNul(s: string): (n: nat)
    ensures n <= |s| && NUL !in s[..n] && (n < |s| ==> s[n] == NUL)
  {
    if s == "" || s[0] == NUL then 0
    else
      var m := FirstNul(s[1..]);
      assert s[..m + 1] == [s[0]] + s[1..][..m];
      m + 1
  }

  lemma {:induction false} FirstNulIs(s: string, k: nat)
    requires k <= |s| && NUL !in s[..k] && (k == |s| || s[k] == NUL)
    ensures FirstNul(s) == k
  {
    if k > 0 {
      assert s[..k][0] == s[0];
      assert s[1..][..k - 1] == s[..k][1..];
      FirstNulIs(s[1..], k - 1);
    }
  }

  /** Position of the last newline, or 0 when there is none. */
  function LastNewline(s: string): (n: nat) {
    if s == "" then 0 else if s[|s| - 1] == NEWLINE then |s| - 1 else LastNewline(s[..|s| - 1])
  }

  lemma {:induction false} LastNewlineIs(a: string, tag: string)
    requires NEWLINE !in tag
    ensures LastNewline(a + [NEWLINE] + tag) == |a|
    decreases |tag|
  {
    var s := a + [NEWLINE] + tag;
    if tag != "" {
      assert s[..|s| - 1] == a + [NEWLINE] + tag[..|tag| - 1];
      LastNewlineIs(a, tag[..|tag| - 1]);
    }
  }

  /** Link text ends at the last newline before the next record's NUL: the tag in between has no newline. */
  lemma LinkTextEnds(a: string, x: seq<Record>)
    requires NUL !in a
    ensures var s := a + [NEWLINE] + Encode(x); LastNewline(s[..FirstNul(s)]) == |a|
  {
    var s := a + [NEWLINE] + Encode(x);
    var tag := if x == [] then "" else Tag(x[0].content);
    if x != [] { EncodingOpens(x); }
    var opening := a + [NEWLINE] + tag;
    assert s[..|opening|] == opening;
    assert NUL !in opening;
    FirstNulIs(s, |opening|);
    LastNewlineIs(a, tag);
  }

  lemma LinkTextCutOnce(a: string, x: seq<Record>, b: string, y: seq<Record>)
    requires NUL !in a && NUL !in b
    requires a + [NEWLINE] + Encode(x) == b + [NEWLINE] + Encode(y)
    ensures a == b && Encode(x) == Encode(y)
  {
    LinkTextEnds(a, x);
    LinkTextEnds(b, y);
    var s, s' := a + [NEWLINE] + Encode(x), b + [NEWLINE] + Encode(y);
    assert a == s[..|a|] && b == s'[..|b|];
    assert Encode(x) == s[|a| + 1..] && Encode(y) == s'[|b| + 1..];
  }

  /** Permissions, then a NUL and a payload closed by a newline. */
  lemma PayloadCutOnce(da: string, a: string, x: string, db: string, b: string, y: string)
    requires NUL !in da && NUL !in db
    requires da + ([NUL] + a + [NEWLINE]) + x == db + ([NUL] + b + [NEWLINE]) + y
    ensures da == db && a + [NEWLINE] + x == b + [NEWLINE] + y
  {
    assert da + ([NUL] + a + [NEWLINE]) + x == da + [NUL] + (a + [NEWLINE] + x);
    assert db + ([NUL] + b + [NEWLINE]) + y == db + [NUL] + (b + [NEWLINE] + y);
    CutOnce(da, a + [NEWLINE] + x, db, b + [NEWLINE] + y, NUL);
  }

  lemma TailsCutOnce(a: Record, x: seq<Record>, b: Record, y: seq<Record>)
    requires Legal(a) && Legal(b) && Tag(a.content) == Tag(b.content)
    requires Decimal(a.mode) + Tail(a.content) + Encode(x) == Decimal(b.mode) + Tail(b.content) + Encode(y)
    ensures a.mode == b.mode && a.content == b.content && Encode(x) == Encode(y)
  {
    TagsTell(a.content, b.content);
    match a.content {
    case FileRecord(digest) =>
      PayloadCutOnce(Decimal(a.mode), digest, Encode(x), Decimal(b.mode), b.content.digest, Encode(y));
      CutOnce(digest, Encode(x), b.content.digest, Encode(y), NEWLINE);
    case LinkRecord(text) =>
      PayloadCutOnce(Decimal(a.mode), text, Encode(x), Decimal(b.mode), b.content.text, Encode(y));
      LinkTextCutOnce(text, x, b.content.text, y);
    case DirRecord =>
      CutOnce(Decimal(a.mode), Encode(x), Decimal(b.mode), Encode(y), NEWLINE);
    }
    DecimalInjective(a.mode, b.mode);
  }

  lemma TagsTell(c: Content, d: Content)
    requires Tag(c) == Tag(d)
    ensures (c.DirRecord? <==> d.DirRecord?) && (c.FileRecord? <==> d.FileRecord?) && (c.LinkRecord? <==> d.LinkRecord?)
  {
    assert "dir"[0] == 'd' && "file"[0] == 'f' && "link"[0] == 'l' && "other"[0] == 'o';
  }

  /** The stream of records is uniquely decodable. */
  lemma {:induction false} EncodeInjective(x: seq<Record>, y: seq<Record>)
    requires AllLegal(x) && AllLegal(y) && Encode(x) == Encode(y)
    ensures x == y
  {
    if x == [] {
      if y != [] { EncodingOpens(y); }
    } else if y == [] {
      EncodingOpens(x);
    } else {
      var a, b := x[0], y[0];
      LineOpens(a, x[1..]);
      LineOpens(b, y[1..]);
      JoinKeepsOut(a.path, NUL);
      JoinKeepsOut(b.path, NUL);
      CutOnce(Tag(a.content), AfterTag(a, x[1..]), Tag(b.content), AfterTag(b, y[1..]), NUL);
      CutOnce(Join(a.path), Decimal(a.mode) + Tail(a.content) + Encode(x[1..]),
              Join(b.path), Decimal(b.mode) + Tail(b.content) + Encode(y[1..]), NUL);
      JoinInjective(a.path, b.path);
      TailsCutOnce(a, x[1..], b, y[1..]);
      EncodeInjective(x[1..], y[1..]);
      assert x == [a] + x[1..] && y == [b] + y[1..];
    }
  }

  function AfterTag(r: Record, rest: seq<Record>): string {
    Join(r.path) + [NUL] + (Decimal(r.mode) + Tail(r.content) + Encode(rest))
  }

  lemma LineOpens(r: Record, rest: seq<Record>)
    ensures Line(r) + Encode(rest) == Tag(r.content) + [NUL] + AfterTag(r, rest)
    ensures NUL !in Tag(r.content)
  {
    Reassociate(Tag(r.content) + [NUL], Join(r.path) + [NUL], Decimal(r.mode), Tail(r.content), Encode(rest));
  }

  lemma Reassociate(a: string, b: string, c: string, d: string, e: string)
    ensures (a + (b + (c + d))) + e == a + (b + (c + d + e))
  {
  }

  // ---------------------------------------------------------------- the fingerprint identifies the tree

  /** A tree the kernel can hold and the fingerprint supports. */
  ghost predicate Supported(t: Tree) {
    && WellFormed(t)
    && forall p :: p in t && p != [] ==> !Odd(t[p].kind) && LegalPath(p)
                                         && (t[p].kind.Link? ==> NUL !in t[p].kind.text)
  }

  ghost predicate IsDigest(digest: Digest) {
    && (forall bytes :: NUL !in digest(bytes) && NEWLINE !in digest(bytes))
    && (forall x, y :: digest(x) == digest(y) ==> x == y)
  }

  lemma RecordsLegal(digest: Digest, t: Tree)
    requires Supported(t) && IsDigest(digest)
    ensures AllLegal(RecordsUnder(digest, t, []))
  {
    var records := RecordsUnder(digest, t, []);
    forall i | 0 <= i < |records| ensures Legal(records[i]) {
      assert records[i] in records;
      RecordsAreThePaths(digest, t, [], records[i]);
    }
  }

  /** INJECTIVITY. Two supported trees feed the hash the same stream exactly when they agree on paths, kinds,
      permissions, file contents and link text. */
  lemma FingerprintIdentifiesTree(digest: Digest, a: Tree, b: Tree)
    requires Supported(a) && Supported(b) && IsDigest(digest)
    ensures Stream(digest, a) == Stream(digest, b) <==> Agree(a, b)
  {
    if Agree(a, b) {
      AgreeingTreesRecordAlike(digest, a, b, []);
    }
    if Stream(digest, a) == Stream(digest, b) {
      var x, y := RecordsUnder(digest, a, []), RecordsUnder(digest, b, []);
      var ma, mb := Decimal(Permissions(a[[]].mode)), Decimal(Permissions(b[[]].mode));
      CutOnce("root", ma + [NEWLINE] + Encode(x), "root", mb + [NEWLINE] + Encode(y), NUL);
      CutOnce(ma, Encode(x), mb, Encode(y), NEWLINE);
      DecimalInjective(Permissions(a[[]].mode), Permissions(b[[]].mode));
      RecordsLegal(digest, a);
      RecordsLegal(digest, b);
      EncodeInjective(x, y);
      forall p ensures p in a ==> p in b && SameNode(a[p], b[p]) { RecordsDetermine(digest, a, b, p); }
      forall p ensures p in b ==> p in a { RecordsDetermine(digest, b, a, p); }
    }
  }

  predicate SameNode(m: Node, n: Node) {
    m.kind == n.kind && Permissions(m.mode) == Permissions(n.mode)
  }

  lemma RecordsDetermine(digest: Digest, a: Tree, b: Tree, p: Path)
    requires Supported(a) && Supported(b) && IsDigest(digest)
    requires RecordsUnder(digest, a, []) == RecordsUnder(digest, b, [])
    requires Permissions(a[[]].mode) == Permissions(b[[]].mode)
    ensures p in a ==> p in b && SameNode(a[p], b[p])
  {
    if p in a && p != [] {
      var r := Describe(digest, p, a[p]);
      RecordsAreThePaths(digest, a, [], r);
      RecordsAreThePaths(digest, b, [], r);
    }
  }

  // ---------------------------------------------------------------- the traversal

  /** readdir may report a directory's names in any order. */
  ghost predicate Lists(readdir: Path -> seq<Name>, t: Tree) {
    forall dir :: IsDirectory(t, dir) ==> Distinct(readdir(dir)) && Elements(readdir(dir)) == Children(t, dir)
  }

  predicate NoSpecial(records: seq<Record>) {
    forall i :: 0 <= i < |records| ==> !records[i].content.Unsupported?
  }

  lemma {:induction false} EncodeConcat(x: seq<Record>, y: seq<Record>)
    ensures Encode(x + y) == Encode(x) + Encode(y)
  {
    if x == [] {
      assert x + y == y;
    } else {
      assert (x + y)[0] == x[0] && (x + y)[1..] == x[1..] + y;
      EncodeConcat(x[1..], y);
    }
  }

  /** What one name of a listing contributes: its own line, what lies below it, then the other names. */
  lemma OneMoreName(digest: Digest, t: Tree, dir: Path, names: seq<Name>, fed: string)
    requires dir in t && names != [] && forall i :: 0 <= i < |names| ==> dir + [names[i]] in t
    ensures var p, records := dir + [names[0]], RecordsFor(digest, t, dir, names);
            var rest := RecordsFor(digest, t, dir, names[1..]);
            && fed + Encode(records) == FeedEntry(digest, t, p, fed) + Encode(Below(digest, t, p)) + Encode(rest)
            && (NoSpecial(records) <==> !Odd(t[p].kind) && NoSpecial(Below(digest, t, p)) && NoSpecial(rest))
  {
    var p := dir + [names[0]];
    var head, inner, rest := [Describe(digest, p, t[p])], Below(digest, t, p), RecordsFor(digest, t, dir, names[1..]);
    assert RecordsFor(digest, t, dir, names) == head + inner + rest;
    EncodeConcat(head + inner, rest);
    EncodeConcat(head, inner);
    EncodeOne(head[0]);
    SpecialConcat(head, inner, rest);
    Regroup(fed, Line(head[0]), Encode(inner), Encode(rest));
  }

  lemma Regroup(a: string, b: string, c: string, d: string)
    ensures a + (b + c + d) == a + b + c + d
  {
  }

  lemma SortedReaddir(t: Tree, readdir: Path -> seq<Name>, dir: Path)
    requires IsDirectory(t, dir) && Lists(readdir, t)
    ensures Sort(readdir(dir)) == Listing(Children(t, dir))
    ensures forall k :: 0 <= k < |Sort(readdir(dir))| ==> dir + [Sort(readdir(dir))[k]] in t
  {
    AnyOrderListsTheSame(readdir(dir), Children(t, dir));
    var names := Sort(readdir(dir));
    assert forall k :: 0 <= k < |names| ==> names[k] in Elements(names);
  }

  /** Appends the records below `dir` to the running stream; None is the refusal of an unsupported entry. */
  method Visit(digest: Digest, t: Tree, readdir: Path -> seq<Name>, dir: Path, stream: string)
    returns (r: Option<string>)
    requires WellFormed(t) && IsDirectory(t, dir) && Lists(readdir, t)
    ensures r == if NoSpecial(RecordsUnder(digest, t, dir)) then Some(stream + Encode(RecordsUnder(digest, t, dir)))
        else None
    decreases Beneath(t, dir)
  {
    hide Encode, NoSpecial, RecordsFor, Sort, Listing, Line;
    var names := Sort(readdir(dir));
    SortedReaddir(t, readdir, dir);
    NothingLeft(digest, t, dir);
    var fed := stream;
    ghost var all := RecordsUnder(digest, t, dir);
    ghost var clean, goal := NoSpecial(all), stream + Encode(all);
    while names != []
      invariant forall k :: 0 <= k < |names| ==> dir + [names[k]] in t
      invariant clean <==> NoSpecial(RecordsFor(digest, t, dir, names))
      invariant goal == fed + Encode(RecordsFor(digest, t, dir, names))
      decreases |names|
    {
      var name, p := names[0], dir + [names[0]];
      OneMoreName(digest, t, dir, names, fed);
      names := names[1..];
      if Odd(t[p].kind) { return None; }
      fed := FeedEntry(digest, t, p, fed);
      if t[p].kind.Directory? {
        ChildIsSmaller(t, dir, name);
        var below := Visit(digest, t, readdir, p, fed);
        if below.None? { return None; }
        fed := below.value;
      } else {
        assert fed + Encode(Below(digest, t, p)) == fed;
      }
    }
    assert fed + Encode(RecordsFor(digest, t, dir, names)) == fed;
    r := Some(fed);
  }

  lemma NothingLeft(digest: Digest, t: Tree, dir: Path)
    requires WellFormed(t) && dir in t
    ensures RecordsFor(digest, t, dir, []) == [] && Encode([]) == "" && NoSpecial([])
  {
  }

  function FeedEntry(digest: Digest, t: Tree, p: Path, fed: string): string
    requires p in t
  {
    fed + Line(Describe(digest, p, t[p]))
  }

  lemma EncodeOne(r: Record)
    ensures Encode([r]) == Line(r)
  {
    assert [r][1..] == [];
  }

  lemma SpecialConcat(a: seq<Record>, b: seq<Record>, c: seq<Record>)
    ensures NoSpecial(a + b + c) <==> NoSpecial(a) && NoSpecial(b) && NoSpecial(c)
  {
    var s := a + b + c;
    assert forall i :: 0 <= i < |a| ==> s[i] == a[i];
    assert forall i :: 0 <= i < |b| ==> s[|a| + i] == b[i];
    assert forall i :: 0 <= i < |c| ==> s[|a| + |b| + i] == c[i];
  }

  /** The traversal feeds the hash the tree's stream whatever order the directories are reported in, and refuses
      exactly the trees that hold an entry that is neither directory, file nor link. */
  method Fingerprint(digest: Digest, t: Tree, readdir: Path -> seq<Name>) returns (r: Option<string>)
    requires WellFormed(t) && Lists(readdir, t)
    ensures r.None? <==> exists p :: p in t && p != [] && Odd(t[p].kind)
    ensures r.Some? ==> r.value == Stream(digest, t)
  {
    var opening := "root" + [NUL] + (Decimal(Permissions(t[[]].mode)) + [NEWLINE]);
    r := Visit(digest, t, readdir, [], opening);
    SpecialIsRecorded(digest, t);
    ghost var body := Encode(RecordsUnder(digest, t, []));
    assert opening + body == "root" + [NUL] + (Decimal(Permissions(t[[]].mode)) + [NEWLINE] + body);
  }

  lemma SpecialIsRecorded(digest: Digest, t: Tree)
    requires WellFormed(t)
    ensures NoSpecial(RecordsUnder(digest, t, [])) <==> forall p :: p in t && p != [] ==> !Odd(t[p].kind)
  {
    var records := RecordsUnder(digest, t, []);
    forall p | p in t && p != [] ensures Describe(digest, p, t[p]) in records {
      RecordsAreThePaths(digest, t, [], Describe(digest, p, t[p]));
    }
    forall i | 0 <= i < |records|
      ensures records[i].path in t && records[i].path != []
      ensures records[i] == Describe(digest, records[i].path, t[records[i].path])
    {
      assert records[i] in records;
      RecordsAreThePaths(digest, t, [], records[i]);
    }
  }
}
