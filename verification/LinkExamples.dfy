/** Links that show where claims about links end: among the dependencies of a release, one that is met twice without
    any cycle and one that ends in a slash at a file; in the preserved home, one whose target is not copied. */
module LinkExamples {
  import opened FileTree
  import opened SymlinkResolver
  import opened KernelResolution
  import opened LinkInspection

  const MODULES: Path := ["runtime", "releases", "r", "node_modules"]

  /** Whom everything belongs to. */
  const OWNER: nat := 501

  const FOLDER := Node(Directory, 493, OWNER, 1, 0)

  function At(n: Name): Path {
    MODULES + [n]
  }

  /** A release whose dependencies hold a directory d and these two entries. */
  function Release(a: Name, x: Kind, b: Name, y: Kind): Tree {
    Bare()[At("d") := FOLDER][At(a) := Node(x, 493, OWNER, 1, 0)][At(b) := Node(y, 493, OWNER, 1, 0)]
  }

  function Bare(): Tree {
    var releases := map[[] := FOLDER][["runtime"] := FOLDER][["runtime", "releases"] := FOLDER];
    releases[["runtime", "releases", "r"] := FOLDER][MODULES := FOLDER]
  }

  lemma EntryAdded(t: Tree, p: Path, node: Node)
    requires WellFormed(t) && p != [] && p !in t && IsDirectory(t, Parent(p)) && ValidName(Last(p))
    ensures WellFormed(t[p := node])
  {
    var t' := t[p := node];
    forall q | q in t' ensures Hangs(t', q) {
      if q != p { assert Hangs(t, q); }
    }
  }

  lemma BareIsWellFormed()
    ensures WellFormed(Bare()) && IsDirectory(Bare(), MODULES) && forall p :: p in Bare() ==> |p| <= 4
  {
    assert "runtime"[0] == 'r' && "releases"[0] == 'r' && "r"[0] == 'r' && "node_modules"[0] == 'n';
    var t0: Tree := map[[] := FOLDER];
    assert WellFormed(t0) by { forall q | q in t0 ensures Hangs(t0, q) {} }
    EntryAdded(t0, ["runtime"], FOLDER);
    var t1 := t0[["runtime"] := FOLDER];
    assert Parent(["runtime", "releases"]) == ["runtime"];
    EntryAdded(t1, ["runtime", "releases"], FOLDER);
    var t2 := t1[["runtime", "releases"] := FOLDER];
    assert Parent(["runtime", "releases", "r"]) == ["runtime", "releases"];
    EntryAdded(t2, ["runtime", "releases", "r"], FOLDER);
    var t3 := t2[["runtime", "releases", "r"] := FOLDER];
    assert Parent(MODULES) == ["runtime", "releases", "r"];
    EntryAdded(t3, MODULES, FOLDER);
  }

  lemma ReleaseIsWellFormed(a: Name, x: Kind, b: Name, y: Kind)
    requires ValidName(a) && ValidName(b) && a != b && a != "d" && b != "d"
    ensures WellFormed(Release(a, x, b, y))
    ensures var t := Release(a, x, b, y);
            && IsDirectory(t, MODULES) && At("d") in t && t[At("d")] == FOLDER
            && At(a) in t && t[At(a)] == Node(x, 493, OWNER, 1, 0)
            && At(b) in t && t[At(b)] == Node(y, 493, OWNER, 1, 0)
  {
    hide Bare, WellFormed;
    BareIsWellFormed();
    assert "d"[0] == 'd';
    AtIs(a);
    AtIs(b);
    AtIs("d");
    EntryAdded(Bare(), At("d"), FOLDER);
    EntryAdded(Bare()[At("d") := FOLDER], At(a), Node(x, 493, OWNER, 1, 0));
    EntryAdded(Bare()[At("d") := FOLDER][At(a) := Node(x, 493, OWNER, 1, 0)], At(b), Node(y, 493, OWNER, 1, 0));
  }

  lemma AtIs(n: Name)
    ensures |At(n)| == 5 && Parent(At(n)) == MODULES && Last(At(n)) == n && At(n)[4] == n
  {
  }

  /** What the policy says of a relative link among the dependencies. */
  lemma DependencyRule(n: Name, policy: LinkPolicy)
    ensures PolicyFor(At(n), policy) == Some(Rule(MODULES, "", MODULES, RuntimeDependency, true))
    ensures ValidRule(Rule(MODULES, "", MODULES, RuntimeDependency, true))
    ensures Parent(At(n)) == MODULES
  {
    assert At(n)[..4] == MODULES && At(n)[2] == "r" && ReleaseId("r");
    assert MODULES[1] != "" && "runtime"[0] == 'r';
    assert MODULES != OPAQUE by { assert |OPAQUE| == 1; }
  }

  // ---------------------------------------------------------------- a trailing slash

  /** b -> a/, where a is a file. */
  function SlashTree(): Tree {
    Release("a", Regular(""), "b", Link("a/"))
  }

  /** The policy accepts the link and records a as its target; the kernel finds nothing there at all. */
  lemma SlashIsAccepted(policy: LinkPolicy)
    requires policy.version == 1
    ensures WellFormed(SlashTree()) && At("b") in SlashTree() && SlashTree()[At("b")].kind == Link("a/")
    ensures InspectLink(SlashTree(), At("b"), policy)
        == Accepted(LinkInfo("a/", Some(At("a")), false, RuntimeDependency, true, Internal))
    ensures forall n :: !KernelLink(SlashTree(), At("b"), "a/", n).Reached?
  {
    hide Release, PolicyFor, ValidRule, WellFormed, Split;
    var t := SlashTree();
    ReleaseIsWellFormed("a", Regular(""), "b", Link("a/"));
    DependencyRule("b", policy);
    SplitSlash();
    assert StartingParts(MODULES, At("b"), "a/") == ["a"];
    assert MODULES + ["a"] == At("a") && ["a"][1..] == [];
    assert "a"[0] == 'a' && "."[0] == '.' && ".."[0] == '.';
    assert WalkFrom(t, MODULES, 1, At("a"), {At("b")}, 0, []) == Arrived(At("a"));
    assert WalkLink(t, MODULES, 1, At("b"), "a/") == Arrived(At("a"));
    forall n ensures !KernelLink(t, At("b"), "a/", n).Reached? {
      assert Follow(t, At("a"), [], n) == Reached(At("a"), []);
      assert Follow(t, MODULES, ["a"], n) == Reached(At("a"), [Look(At("a"))]);
    }
  }

  lemma SplitSlash()
    ensures Split("a/") == ["a"] && EndsInSlash("a/") && !IsAbsolute("a/")
  {
    assert "a/"[1..] == "/" && "/"[1..] == "" && FirstSlash("/") == 0;
    assert FirstSlash("a/") == 1 && "a/"[..1] == "a";
    assert Split("/") == [];
  }

  // ---------------------------------------------------------------- a link met twice

  /** l -> d, and f -> l/../l. */
  function RevisitTree(): Tree {
    Release("l", Link("d"), "f", Link("l/../l"))
  }

  /** The kernel resolves f to d, without any cycle; the resolver refuses because it meets l twice. */
  lemma RevisitIsRefused(policy: LinkPolicy)
    requires policy.version == 1
    ensures WellFormed(RevisitTree()) && At("f") in RevisitTree() && RevisitTree()[At("f")].kind == Link("l/../l")
    ensures InspectLink(RevisitTree(), At("f"), policy) == Rejected(WalkRefused(Cycle))
    ensures KernelLink(RevisitTree(), At("f"), "l/../l", 1).Reached?
    ensures KernelLink(RevisitTree(), At("f"), "l/../l", 1).at == At("d")
  {
    hide Follow, WalkFrom, Split, Release, PolicyFor, ValidRule, WellFormed;
    var t := RevisitTree();
    ReleaseIsWellFormed("l", Link("d"), "f", Link("l/../l"));
    DependencyRule("f", policy);
    SplitExample();
    AtIs("d");
    assert At("l") != At("f") by { AtIs("l"); AtIs("f"); }
    RevisitWalk(t);
    RevisitFollow(t);
    assert StartingParts(MODULES, At("f"), "l/../l") == ["l", "..", "l"];
  }

  ghost predicate Revisits(t: Tree) {
    && Split("d") == ["d"] && !IsAbsolute("d") && !EndsInSlash("d") && IsDirectory(t, MODULES)
    && At("d") in t && t[At("d")] == FOLDER && At("l") in t && t[At("l")] == Node(Link("d"), 493, OWNER, 1, 0)
  }

  lemma RevisitWalk(t: Tree)
    requires Revisits(t) && At("l") != At("f")
    ensures WalkFrom(t, MODULES, 1, MODULES, {At("f")}, 0, ["l", "..", "l"]) == Refused(Cycle)
  {
    AtIs("d");
    assert MODULES + ["l"] == At("l") && MODULES + ["d"] == At("d") && At("d") != MODULES;
    assert ["l", "..", "l"][1..] == ["..", "l"] && (["d"] + ["..", "l"])[1..] == ["..", "l"]
        && ["..", "l"][1..] == ["l"];
    var seen := {At("f")} + {At("l")};
    assert WalkFrom(t, MODULES, 1, MODULES, seen, 1, ["l"]) == Refused(Cycle);
    assert WalkFrom(t, MODULES, 1, At("d"), seen, 1, ["..", "l"]) == Refused(Cycle);
    assert WalkFrom(t, MODULES, 1, MODULES, seen, 1, ["d"] + ["..", "l"]) == Refused(Cycle);
  }

  lemma RevisitFollow(t: Tree)
    requires Revisits(t)
    ensures Follow(t, MODULES, ["l", "..", "l"], 1).Reached? && Follow(t, MODULES, ["l", "..", "l"], 1).at == At("d")
  {
    AtIs("d");
    assert MODULES + ["l"] == At("l") && MODULES + ["d"] == At("d");
    assert ["l", "..", "l"][1..] == ["..", "l"] && ["..", "l"][1..] == ["l"] && ["l"][1..] == [] && ["d"][1..] == [];
    assert Follow(t, MODULES, ["d"], 0) == Reached(At("d"), [Look(At("d"))]);
    assert FollowText(t, MODULES, "d", 0) == Reached(At("d"), [Look(At("d"))]);
    var last := Follow(t, MODULES, ["l"], 1);
    assert last.Reached? && last.at == At("d");
    var climb := Follow(t, At("d"), ["..", "l"], 1);
    assert climb.Reached? && climb.at == At("d");
  }

  lemma SplitExample()
    ensures Split("l/../l") == ["l", "..", "l"] && Split("d") == ["d"]
    ensures !IsAbsolute("l/../l") && !IsAbsolute("d") && !EndsInSlash("d") && !EndsInSlash("l/../l")
  {
    assert FirstSlash("d") == 1 && "d"[..1] == "d" && "d"[1..] == "";
    assert Split("d") == ["d"];
    assert FirstSlash("l") == 1 && "l"[..1] == "l" && "l"[1..] == "";
    assert Split("l") == ["l"];
    assert "/l"[1..] == "l" && Split("/l") == ["l"];
    assert FirstSlash("./l") == 1 by { assert "./l"[1..] == "/l"; }
    assert FirstSlash("../l") == 2 by { assert "../l"[1..] == "./l"; }
    assert "../l"[..2] == ".." && "../l"[2..] == "/l";
    assert Split("../l") == ["..", "l"];
    assert "/../l"[1..] == "../l" && Split("/../l") == ["..", "l"];
    assert FirstSlash("l/../l") == 1 by { assert "l/../l"[1..] == "/../l"; }
    assert "l/../l"[..1] == "l" && "l/../l"[1..] == "/../l";
  }

  // ---------------------------------------------------------------- an ordinary link

  /** A link to a file beside it is accepted. */
  lemma SiblingIsAccepted(t: Tree, policy: LinkPolicy)
    requires WellFormed(t) && IsDirectory(t, MODULES) && policy.version == 1
    requires At("a") in t && t[At("a")].kind.Regular? && At("b") in t && t[At("b")].kind == Link("a")
    requires t[At("a")].device == t[At("b")].device
    ensures InspectLink(t, At("b"), policy)
        == Accepted(LinkInfo("a", Some(At("a")), false, RuntimeDependency, true, Internal))
  {
    hide PolicyFor, ValidRule, WellFormed, Split;
    DependencyRule("b", policy);
    SplitWord();
    var device := t[At("b")].device;
    assert StartingParts(MODULES, At("b"), "a") == ["a"];
    assert MODULES + ["a"] == At("a") && ["a"][1..] == [];
    assert "a"[0] == 'a' && "."[0] == '.' && ".."[0] == '.';
    assert WalkFrom(t, MODULES, device, At("a"), {At("b")}, 0, []) == Arrived(At("a"));
    assert WalkLink(t, MODULES, device, At("b"), "a") == Arrived(At("a"));
  }

  lemma SplitWord()
    ensures Split("a") == ["a"] && !IsAbsolute("a")
  {
    assert FirstSlash("a") == 1 && "a"[..1] == "a" && "a"[1..] == "";
  }

  // ---------------------------------------------------------------- a preserved link whose target is left out

  const HOME_LINK: Path := OPAQUE + ["b"]

  const HOME_FILE: Path := OPAQUE + ["a"]

  const HOME_POLICY := LinkPolicy(1, [Rule(OPAQUE, "", OPAQUE, PreservedOpaque, false)])

  /** b -> a in the preserved home, with or without a. */
  function Home(whole: bool): (home: Tree)
    ensures HOME_LINK in home && home[HOME_LINK].kind == Link("a")
  {
    assert HOME_LINK[1][0] == 'b' && HOME_FILE[1][0] == 'a';
    var t := map[[] := FOLDER][OPAQUE := FOLDER][HOME_LINK := Node(Link("a"), 493, OWNER, 1, 0)];
    if whole then t[HOME_FILE := Node(Regular(""), 420, OWNER, 1, 0)] else t
  }

  /** The same link is recorded as INTERNAL at the source, and as DANGLING in a copy that leaves its target out. */
  lemma LostTargetIsDangling()
    ensures WellFormed(Home(true)) && WellFormed(Home(false))
    ensures InspectLink(Home(true), HOME_LINK, HOME_POLICY)
        == Accepted(LinkInfo("a", None, false, PreservedOpaque, false, Internal))
    ensures InspectLink(Home(false), HOME_LINK, HOME_POLICY)
        == Accepted(LinkInfo("a", None, false, PreservedOpaque, false, NoKernelTarget))
  {
    hide Split;
    HomeIsWellFormed();
    SplitWord();
    assert "compat-home"[0] == 'c' && "runtime"[0] == 'r' && "a"[0] == 'a' && "."[0] == '.' && ".."[0] == '.';
    assert PolicyFor(HOME_LINK, HOME_POLICY) == Some(HOME_POLICY.rules[0]) && ValidRule(HOME_POLICY.rules[0]);
    assert Parent(HOME_LINK) == OPAQUE && StartingParts(OPAQUE, HOME_LINK, "a") == ["a"] && ["a"][1..] == [];
    assert OPAQUE + ["a"] == HOME_FILE && !(HOME_FILE <= HOME_LINK);
    assert WalkFrom(Home(true), OPAQUE, 1, HOME_FILE, {HOME_LINK}, 0, []) == Arrived(HOME_FILE);
    assert WalkLink(Home(true), OPAQUE, 1, HOME_LINK, "a") == Arrived(HOME_FILE);
    assert WalkLink(Home(false), OPAQUE, 1, HOME_LINK, "a") == Refused(Dangling);
  }

  lemma HomeIsWellFormed()
    ensures WellFormed(Home(true)) && WellFormed(Home(false))
  {
    assert "a"[0] == 'a' && "b"[0] == 'b' && "compat-home"[0] == 'c';
    var t0: Tree := map[[] := FOLDER];
    assert WellFormed(t0) by { forall q | q in t0 ensures Hangs(t0, q) {} }
    EntryAdded(t0, OPAQUE, FOLDER);
    assert Parent(HOME_LINK) == OPAQUE == Parent(HOME_FILE);
    EntryAdded(t0[OPAQUE := FOLDER], HOME_LINK, Node(Link("a"), 493, OWNER, 1, 0));
    EntryAdded(Home(false), HOME_FILE, Node(Regular(""), 420, OWNER, 1, 0));
  }
}
