/** The lstat view of one directory tree: what every path beneath a root currently is.
    Paths are lists of names relative to that root, so [] is the root itself. */
module FileTree {

  datatype Option<+T> = None | Some(value: T)

  type Name = string
  type Path = seq<Name>

  /** Special stands for devices and pipes. */
  datatype Kind = Directory | Regular(bytes: seq<char>) | Link(text: string) | Socket | Special

  /** `owner` stands for the user and the group. */
  datatype Node = Node(kind: Kind, mode: nat, owner: nat, device: nat, mtime: int)

  type Tree = map<Path, Node>

  /** One path component as the kernel allows it in a directory. */
  predicate ValidName(n: Name) {
    n != "" && n != "." && n != ".." && '/' !in n
  }

  function Parent(p: Path): Path {
    if p == [] then [] else p[..|p| - 1]
  }

  function Last(p: Path): Name
    requires p != []
  {
    p[|p| - 1]
  }

  predicate IsDirectory(t: Tree, p: Path) {
    p in t && t[p].kind.Directory?
  }

  predicate Hangs(t: Tree, p: Path) {
    p == [] || (IsDirectory(t, Parent(p)) && ValidName(Last(p)))
  }

  /** Every path but the root hangs in a real directory under a legal name. (Instantiated by naming Hangs:
      matching on membership alone would climb from parent to parent.) */
  predicate WellFormed(t: Tree) {
    && IsDirectory(t, [])
    && forall p {:trigger Hangs(t, p)} :: p in t ==> Hangs(t, p)
  }

  /** A name split on '\\', as readers of recorded paths split it besides '/'. */
  function Pieces(n: string): (pieces: seq<string>)
    ensures |pieces| > 0 && ('\\' !in n ==> pieces == [n])
  {
    if n == "" then [""]
    else
      var rest := Pieces(n[1..]);
      if n[0] == '\\' then [""] + rest
      else
        assert '\\' !in n ==> '\\' !in n[1..] && [n[0]] + n[1..] == n;
        [[n[0]] + rest[0]] + rest[1..]
  }

  /** No piece is empty, "." or "..". */
  predicate SafeName(n: Name) {
    forall i :: 0 <= i < |Pieces(n)| ==> Pieces(n)[i] != "" && Pieces(n)[i] != "." && Pieces(n)[i] != ".."
  }

  predicate SafePath(p: Path) {
    forall i :: 0 <= i < |p| ==> SafeName(p[i])
  }

  /** Node's `mode & 0o777`. */
  function Permissions(mode: nat): nat {
    mode % 512
  }

  /** Cutting a mode before its last two octal digits. */
  lemma Octal(high: nat, low: nat)
    requires low < 64
    ensures (high * 64 + low) / 64 == high && (high * 64 + low) % 64 == low
  {
  }

  /** Text split on '/', empty parts dropped, as the resolver reads link text. */
  function Split(text: string): (parts: seq<string>)
    ensures forall i :: 0 <= i < |parts| ==> parts[i] != "" && '/' !in parts[i]
  {
    if text == "" then []
    else if text[0] == '/' then Split(text[1..])
    else
      var n := FirstSlash(text);
      [text[..n]] + Split(text[n..])
  }

  function FirstSlash(text: string): (n: nat)
    ensures n <= |text| && '/' !in text[..n]
    ensures n < |text| ==> text[n] == '/'
    ensures text != "" && text[0] != '/' ==> n > 0
  {
    if text == "" || text[0] == '/' then 0
    else
      var m := FirstSlash(text[1..]);
      assert text[..m + 1] == [text[0]] + text[1..][..m];
      m + 1
  }

  predicate IsAbsolute(text: string) {
    text != "" && text[0] == '/'
  }

  lemma AbsoluteIs(text: string)
    ensures IsAbsolute(text) <==> exists rest :: text == "/" + rest
  {
    if IsAbsolute(text) { assert text == "/" + text[1..]; }
  }

  /** Splitting in plain terms: nothing of nothing, a name of a name, and on both sides of any slash. */
  lemma SplitNames(n: string)
    ensures Split("") == [] && (n != "" && '/' !in n ==> Split(n) == [n])
  {
    if n != "" && '/' !in n { assert FirstSlash(n) == |n| && n[..|n|] == n && n[|n|..] == ""; }
  }

  lemma {:induction false} SplitAtSlash(a: string, b: string)
    ensures Split(a + "/" + b) == Split(a) + Split(b)
    decreases |a|
  {
    var text := a + "/" + b;
    if a == "" {
      assert text[1..] == b;
    } else if a[0] == '/' {
      assert text[1..] == a[1..] + "/" + b;
      SplitAtSlash(a[1..], b);
    } else {
      var n := FirstSlash(a);
      FirstSlashOf(a, "/" + b);
      assert text == a + ("/" + b) && text[..n] == a[..n] && text[n..] == a[n..] + "/" + b;
      SplitAtSlash(a[n..], b);
    }
  }

  lemma {:induction false} FirstSlashOf(a: string, more: string)
    requires more != "" && more[0] == '/'
    ensures FirstSlash(a + more) == FirstSlash(a)
  {
    if a != "" && a[0] != '/' {
      assert (a + more)[1..] == a[1..] + more;
      FirstSlashOf(a[1..], more);
    } else if a == "" {
      assert a + more == more;
    }
  }

  predicate EndsWith(s: string, suffix: string) {
    |suffix| <= |s| && s[|s| - |suffix|..] == suffix
  }

  /** A prefix of a path in a well-formed tree is in the tree, and is a directory when it is proper. */
  lemma {:induction false} AncestorsAreDirectories(t: Tree, p: Path, q: Path)
    requires WellFormed(t) && p in t && q <= p
    ensures q in t
    ensures q != p ==> IsDirectory(t, q)
  {
    if q != p {
      assert Hangs(t, p) && q <= Parent(p);
      AncestorsAreDirectories(t, Parent(p), q);
    }
  }

  /** Every directory on the way to a path is a real one. */
  predicate LinkFree(t: Tree, p: Path) {
    forall i :: 0 <= i < |p| ==> IsDirectory(t, p[..i])
  }

  lemma WellFormedIsLinkFree(t: Tree, p: Path)
    requires WellFormed(t) && p in t
    ensures LinkFree(t, p)
  {
    forall i | 0 <= i < |p| ensures IsDirectory(t, p[..i]) {
      AncestorsAreDirectories(t, p, p[..i]);
    }
  }

  /** Names directly inside a directory. */
  function Children(t: Tree, dir: Path): (names: set<Name>)
    ensures forall n :: n in names <==> dir + [n] in t
  {
    var names := set p | p in t && p != [] && Parent(p) == dir :: Last(p);
    assert forall n :: n in names <==> dir + [n] in t by {
      forall n ensures n in names <==> dir + [n] in t {
        assert Parent(dir + [n]) == dir && Last(dir + [n]) == n;
        if n in names {
          var p :| p in t && p != [] && Parent(p) == dir && Last(p) == n;
          assert p == dir + [n];
        }
      }
    }
    names
  }

  /** Paths at or under a directory; shrinks on the way down, so recursion over a tree ends. */
  function Beneath(t: Tree, dir: Path): set<Path> {
    set p | p in t && dir <= p
  }

  lemma ChildIsSmaller(t: Tree, dir: Path, n: Name)
    requires dir in t
    ensures Beneath(t, dir + [n]) < Beneath(t, dir)
  {
    assert dir in Beneath(t, dir) && dir !in Beneath(t, dir + [n]);
  }
}
