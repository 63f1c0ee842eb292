/** What a kernel makes of a link, trailing slashes included: a text that ends in a slash must lead to a directory. The
    bounded resolver drops that slash, so it is compared with the kernel here, exactly. */
module KernelResolution {
  import opened FileTree
  import opened SymlinkResolver

  predicate EndsInSlash(text: string) {
    text != "" && text[|text| - 1] == '/'
  }

  /** Resolution of components as in Resolve, each link on the way followed as a kernel follows its text. */
  function Follow(t: Tree, dir: Path, parts: seq<string>, nesting: nat): Physical
    decreases nesting, |parts|, 0
  {
    if parts == [] then Reached(dir, [])
    else if !IsDirectory(t, dir) then NoTarget
    else
      var part, rest := parts[0], parts[1..];
      var cursor := dir + [part];
      if part == "." then Follow(t, dir, rest, nesting)
      else if part == ".." then Prepend([Up(dir)], Follow(t, Parent(dir), rest, nesting))
      else if cursor !in t then NoTarget
      else if t[cursor].kind.Link? then
        if nesting == 0 then Unfinished
        else
          var text := t[cursor].kind.text;
          var inner := FollowText(t, if IsAbsolute(text) then [] else dir, text, nesting - 1);
          if inner.Reached?
          then Prepend([Look(cursor)] + inner.trail, Follow(t, inner.at, rest, nesting))
          else inner
      else Prepend([Look(cursor)], Follow(t, cursor, rest, nesting))
  }

  /** A whole text: its components, and a directory at the end when it ends in a slash. */
  function FollowText(t: Tree, dir: Path, text: string, nesting: nat): Physical
    decreases nesting, |Split(text)|, 1
  {
    var r := Follow(t, dir, Split(text), nesting);
    if r.Reached? && EndsInSlash(text) && !IsDirectory(t, r.at) then NoTarget else r
  }

  /** The last component is a link whose text, or a text it leads on to with nothing after it, ends in a slash. */
  predicate Slashed(t: Tree, dir: Path, parts: seq<string>, nesting: nat)
    decreases nesting, |parts|
  {
    if parts == [] || !IsDirectory(t, dir) then false
    else
      var part, rest := parts[0], parts[1..];
      var cursor := dir + [part];
      if part == "." then Slashed(t, dir, rest, nesting)
      else if part == ".." then Slashed(t, Parent(dir), rest, nesting)
      else if cursor !in t then false
      else if t[cursor].kind.Link? then
        if nesting == 0 then false
        else
          var text := t[cursor].kind.text;
          var from := if IsAbsolute(text) then [] else dir;
          if rest == [] then EndsInSlash(text) || Slashed(t, from, Split(text), nesting - 1)
          else
            var inner := Resolve(t, from, Split(text), nesting - 1);
            inner.Reached? && Slashed(t, inner.at, rest, nesting)
      else Slashed(t, cursor, rest, nesting)
  }

  /** The kernel's result is the component-by-component one, except that it is no target when it is no directory and is
      read under a trailing slash. */
  predicate SameUnlessSlashed(t: Tree, plain: Physical, kernel: Physical, slashed: bool) {
    match plain
    case Reached(at, _) => kernel == if IsDirectory(t, at) || !slashed then plain else NoTarget
    case NoTarget => kernel.NoTarget?
    case Unfinished => !kernel.Reached?
  }

  lemma {:induction false} FollowIsResolve(t: Tree, dir: Path, parts: seq<string>, nesting: nat)
    ensures SameUnlessSlashed(t, Resolve(t, dir, parts, nesting), Follow(t, dir, parts, nesting),
        Slashed(t, dir, parts, nesting))
    decreases nesting, |parts|
  {
    if parts != [] && IsDirectory(t, dir) {
      var part, rest := parts[0], parts[1..];
      var cursor := dir + [part];
      if part == "." {
        FollowIsResolve(t, dir, rest, nesting);
      } else if part == ".." {
        FollowIsResolve(t, Parent(dir), rest, nesting);
      } else if cursor in t && t[cursor].kind.Link? {
        if nesting > 0 {
          var text := t[cursor].kind.text;
          var from := if IsAbsolute(text) then [] else dir;
          FollowIsResolve(t, from, Split(text), nesting - 1);
          var inner := Resolve(t, from, Split(text), nesting - 1);
          if inner.Reached? { FollowIsResolve(t, inner.at, rest, nesting); }
        }
      } else if cursor in t {
        FollowIsResolve(t, cursor, rest, nesting);
      }
    }
  }

  lemma {:induction false} SlashedAgrees(t: Tree, dir: Path, parts: seq<string>, low: nat, high: nat)
    requires low <= high && Resolve(t, dir, parts, low).Reached?
    ensures Slashed(t, dir, parts, high) == Slashed(t, dir, parts, low)
    decreases low, |parts|
  {
    if parts != [] {
      var part, rest := parts[0], parts[1..];
      var cursor := dir + [part];
      if part == "." {
        SlashedAgrees(t, dir, rest, low, high);
      } else if part == ".." {
        SlashedAgrees(t, Parent(dir), rest, low, high);
      } else if t[cursor].kind.Link? {
        var text := t[cursor].kind.text;
        var from := if IsAbsolute(text) then [] else dir;
        SlashedAgrees(t, from, Split(text), low - 1, high - 1);
        MoreNestingAgrees(t, from, Split(text), low - 1, high - 1);
        SlashedAgrees(t, Resolve(t, from, Split(text), low - 1).at, rest, low, high);
      } else {
        SlashedAgrees(t, cursor, rest, low, high);
      }
    }
  }

  // ---------------------------------------------------------------- a link

  /** What the kernel finds behind the link at `file`. */
  function KernelLink(t: Tree, file: Path, target: string, nesting: nat): Physical {
    FollowText(t, Parent(file), target, nesting)
  }

  /** The link is read under a trailing slash: its own, or that of the text its last component leads on to. */
  predicate SlashedLink(t: Tree, file: Path, target: string, nesting: nat) {
    EndsInSlash(target) || Slashed(t, Parent(file), Split(target), nesting)
  }

  /** However deep links may nest. */
  ghost predicate UnderSlash(t: Tree, file: Path, target: string) {
    exists n :: ResolveLink(t, file, target, n).Reached? && SlashedLink(t, file, target, n)
  }

  lemma KernelLinkIs(t: Tree, file: Path, target: string, n: nat)
    ensures SameUnlessSlashed(t, ResolveLink(t, file, target, n), KernelLink(t, file, target, n),
        SlashedLink(t, file, target, n))
  {
    FollowIsResolve(t, Parent(file), Split(target), n);
  }

  /** Where component-by-component resolution reaches a path, the kernel reaches it too, unless it is no directory and
      the link is read under a trailing slash. */
  lemma KernelReaches(t: Tree, file: Path, target: string, n: nat)
    requires ResolveLink(t, file, target, n).Reached?
    ensures KernelLink(t, file, target, n).Reached? <==>
            IsDirectory(t, ResolveLink(t, file, target, n).at) || !UnderSlash(t, file, target)
    ensures KernelLink(t, file, target, n).Reached? ==>
      KernelLink(t, file, target, n) == ResolveLink(t, file, target, n)
    ensures KernelLink(t, file, target, n).Reached? <==> exists m :: KernelLink(t, file, target, m).Reached?
  {
    hide ResolveLink, KernelLink, SlashedLink;
    forall m | ResolveLink(t, file, target, m).Reached?
      ensures SlashedLink(t, file, target, m) == SlashedLink(t, file, target, n)
      ensures ResolveLink(t, file, target, m) == ResolveLink(t, file, target, n)
    {
      SlashedLinkAgrees(t, file, target, m, n);
    }
    forall m
      ensures SameUnlessSlashed(t, ResolveLink(t, file, target, m), KernelLink(t, file, target, m),
          SlashedLink(t, file, target, m))
    {
      KernelLinkIs(t, file, target, m);
    }
    assert UnderSlash(t, file, target) <==> SlashedLink(t, file, target, n);
  }

  lemma SlashedLinkAgrees(t: Tree, file: Path, target: string, m: nat, n: nat)
    requires ResolveLink(t, file, target, m).Reached? && ResolveLink(t, file, target, n).Reached?
    ensures SlashedLink(t, file, target, m) == SlashedLink(t, file, target, n)
    ensures ResolveLink(t, file, target, m) == ResolveLink(t, file, target, n)
  {
    var low, high := if m <= n then m else n, if m <= n then n else m;
    SlashedAgrees(t, Parent(file), Split(target), low, high);
    MoreNestingAgrees(t, Parent(file), Split(target), low, high);
  }

  /** THE VERDICT IN KERNEL TERMS. Where the resolver arrives, the kernel arrives too and nowhere else, exactly
      unless it is no directory and the link is read under a trailing slash: then the kernel has no target. A
      dangling or mistyped link has no kernel target at all; an escape means that any kernel target is reached by
      climbing out of the boundary; a cycle or excessive depth, that any kernel target is reached through a link met
      twice or through too many. */
  lemma VerdictMeaning(t: Tree, boundary: Path, device: nat, file: Path, target: string)
    requires WellFormed(t) && IsDirectory(t, boundary) && file in t && file != [] && boundary <= Parent(file)
    ensures var verdict := WalkLink(t, boundary, device, file, target);
            && (verdict.Arrived? ==>
                  && ((exists n :: KernelLink(t, file, target, n).Reached?) <==>
                      IsDirectory(t, verdict.at) || !UnderSlash(t, file, target))
                  && forall n :: KernelLink(t, file, target, n).Reached? ==>
                      KernelLink(t, file, target, n).at == verdict.at)
            && (verdict.Refused? && (verdict.why.Dangling? || verdict.why.TargetType?) ==>
                  forall n :: !KernelLink(t, file, target, n).Reached?)
            && (verdict.Refused? && verdict.why.Escape? ==>
                  forall n :: KernelLink(t, file, target, n).Reached? ==>
                      Up(boundary) in KernelLink(t, file, target, n).trail)
            && (verdict.Refused? && (verdict.why.Cycle? || verdict.why.Depth?) ==>
                  forall n :: KernelLink(t, file, target, n).Reached? ==>
                      !AdmittedWay(t, boundary, device, file, target, n))
  {
    hide WalkLink, KernelLink, ResolveLink, UnderSlash, AdmittedWay;
    ComponentMeaning(t, boundary, device, file, target);
    var verdict := WalkLink(t, boundary, device, file, target);
    forall n | KernelLink(t, file, target, n).Reached?
      ensures ResolveLink(t, file, target, n).Reached?
      ensures KernelLink(t, file, target, n) == ResolveLink(t, file, target, n)
    {
      KernelLinkIs(t, file, target, n);
    }
    if verdict.Arrived? {
      var n :| ResolveLink(t, file, target, n).Reached? && ResolveLink(t, file, target, n).at == verdict.at;
      KernelReaches(t, file, target, n);
      forall m | KernelLink(t, file, target, m).Reached? ensures KernelLink(t, file, target, m).at == verdict.at {
        SlashedLinkAgrees(t, file, target, m, n);
      }
    }
  }
}
