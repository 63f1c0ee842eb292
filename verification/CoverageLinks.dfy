/** Links of a copy. A link is described in the copy as it was at the source exactly when everything its inspection
    looked at was copied, or when it had no target anyway. */
module CoverageLinks {
  import opened FileTree
  import opened LinkInspection
  import opened Exclusions
  import opened CoverageWalk
  import R = SymlinkResolver

  /** Whatever is in c is in t, of the same kind and contents, and all of it lies on volume d. */
  ghost predicate Within(t: Tree, c: Tree, d: nat) {
    forall q :: q in c ==> q in t && c[q].kind == t[q].kind && c[q].device == d
  }

  /** The walk in the copy: the same where everything it looked at was copied, and else it finds something missing. */
  lemma {:induction false} WalkInCopy(t: Tree, c: Tree, boundary: Path, device: nat, d: nat, dir: Path, seen: set<Path>,
                                      hops: nat, pending: seq<string>)
    requires Within(t, c, d) && hops <= R.MAX_HOPS && boundary <= dir
    requires R.WalkFrom(t, boundary, device, dir, seen, hops, pending) != R.Refused(R.CrossVolume)
    ensures R.WalkFrom(c, boundary, d, dir, seen, hops, pending) ==
            if R.Looked(t, boundary, device, dir, seen, hops, pending) <= c.Keys
            then R.WalkFrom(t, boundary, device, dir, seen, hops, pending) else R.Refused(R.Dangling)
    decreases R.MAX_HOPS - hops, |pending|
  {
    if pending != [] {
      var part, rest := pending[0], pending[1..];
      var cursor := dir + [part];
      if part == "." {
        WalkInCopy(t, c, boundary, device, d, dir, seen, hops, rest);
      } else if part == ".." {
        if dir != boundary { WalkInCopy(t, c, boundary, device, d, Parent(dir), seen, hops, rest); }
      } else if cursor in c {
        if t[cursor].kind.Link? {
          var text := t[cursor].kind.text;
          if cursor !in seen && hops + 1 <= R.MAX_HOPS && !IsAbsolute(text) {
            WalkInCopy(t, c, boundary, device, d, dir, seen + {cursor}, hops + 1, Split(text) + rest);
          }
        } else if rest == [] || t[cursor].kind.Directory? {
          WalkInCopy(t, c, boundary, device, d, cursor, seen, hops, rest);
        }
      }
    }
  }

  /** Everything the inspection of the link at p looks at. */
  function Met(t: Tree, p: Path, policy: LinkPolicy): set<Path> {
    if p !in t || !t[p].kind.Link? || PolicyFor(p, policy).None? || !(PolicyFor(p, policy).value.boundary <= Parent(p))
    then {} else R.LookedLink(t, PolicyFor(p, policy).value.boundary, t[p].device, p, t[p].kind.text)
  }

  /** What acceptance of a link says about its rule and its walk. */
  lemma AcceptedLink(t: Tree, p: Path, policy: LinkPolicy)
    requires WellFormed(t) && p in t && t[p].kind.Link? && InspectLink(t, p, policy).Accepted?
    ensures PolicyFor(p, policy).Some? && ValidRule(PolicyFor(p, policy).value)
    ensures var rule := PolicyFor(p, policy).value;
            && IsDirectory(t, rule.boundary) && rule.boundary <= Parent(p)
            && Met(t, p, policy) == R.LookedLink(t, rule.boundary, t[p].device, p, t[p].kind.text)
            && R.WalkLink(t, rule.boundary, t[p].device, p, t[p].kind.text) != R.Refused(R.CrossVolume)
  {
  }

  /** LINKS IN A COPY. An accepted link is described the same in the copy if and only if all its inspection looked at
      was copied, or it had no target. */
  lemma LinkAlikeExactly(t: Tree, c: Tree, d: nat, p: Path, policy: LinkPolicy)
    requires WellFormed(t) && WellFormed(c) && Within(t, c, d)
    requires p in c && t[p].kind.Link? && InspectLink(t, p, policy).Accepted?
    ensures InspectLink(c, p, policy) == InspectLink(t, p, policy) <==>
            InspectLink(t, p, policy).info.resolution.NoKernelTarget? || Met(t, p, policy) <= c.Keys
  {
    hide R.WalkFrom, R.Looked;
    AcceptedLink(t, p, policy);
    var rule, text := PolicyFor(p, policy).value, t[p].kind.text;
    AncestorsAreDirectories(c, p, rule.boundary);
    assert p != [] by { assert t[[]].kind.Directory?; }
    assert IsDirectory(c, rule.boundary) by { assert Parent(p) < p; }
    var parts := R.StartingParts(rule.boundary, p, text);
    WalkInCopy(t, c, rule.boundary, t[p].device, d, rule.boundary, {p}, 0, parts);
    var walk := R.WalkLink(c, rule.boundary, d, p, text);
    if walk.Arrived? {
      ArrivesInTree(c, rule.boundary, d, rule.boundary, {p}, 0, parts);
      assert walk.at in c;
    }
  }

  lemma {:induction false} OpenPrefix(w: Walk, top: Path, p: Path, q: Path)
    requires Open(w, top, p) && top <= q <= p
    ensures Open(w, top, q)
    decreases |p|
  {
    if q != p { OpenPrefix(w, top, Parent(p), q); }
  }

  // ---------------------------------------------------------------- dependency links and preserved links

  /** Only a whole release can be excluded from the runtime family. */
  lemma RuntimeRule(w: Walk, q: Path)
    requires w.family.id == "runtime" && RuleFor(w.family.id, q, w.options.ctx).Some?
    ensures |q| == 3
  {
    assert "runtime"[0] == 'r' && "compatibility"[0] == 'c' && "checkpoints"[0] == 'c';
  }

  /** Everything inside the boundary of an open dependency link is open, except held locks. */
  lemma DependenciesAreOpen(w: Walk, t: Tree, top: Path, p: Path, q: Path)
    requires WellFormed(t) && top == ["runtime"] && w.family.id == "runtime" && top in t
    requires forall q :: q in w.held && q in t ==> t[q].kind.Regular?
    requires p in t && Open(w, top, p) && InDependencies(p) && p[..4] <= q && q in t && q !in w.held
    ensures Open(w, top, q)
  {
    assert top <= q;
    NothingEscapesVisit(w, t, top, q);
    if r :| top <= r <= q && Reached(w, top, r) && RuleFor(w.family.id, r, w.options.ctx).Some? {
      RuntimeRule(w, r);
      assert r == p[..3];
      OpenPrefix(w, top, p, r);
    }
  }

  /** Without owner exclusions everything in the preserved home is open, except held locks. */
  lemma PreservedIsOpen(w: Walk, t: Tree, q: Path)
    requires WellFormed(t) && OPAQUE in t && OPAQUE <= q && q in t && q !in w.held && !w.options.ctx.owner
    requires forall q :: q in w.held && q in t ==> t[q].kind.Regular?
    ensures Open(w, OPAQUE, q)
  {
    assert "compat-home"[0] == 'c' && "runtime"[0] == 'r';
    NothingEscapesVisit(w, t, OPAQUE, q);
    assert forall r :: OPAQUE <= r ==> RuleFor(w.family.id, r, w.options.ctx).None?;
  }

  /** A plain file that an arriving walk looked at is where it arrived. */
  lemma {:induction false} FileIsArrival(t: Tree, boundary: Path, device: nat, dir: Path, seen: set<Path>, hops: nat,
                                         pending: seq<string>, q: Path)
    requires hops <= R.MAX_HOPS && boundary <= dir
    requires R.WalkFrom(t, boundary, device, dir, seen, hops, pending).Arrived?
    requires q in R.Looked(t, boundary, device, dir, seen, hops, pending) && t[q].kind.Regular?
    ensures R.WalkFrom(t, boundary, device, dir, seen, hops, pending).at == q
    decreases R.MAX_HOPS - hops, |pending|
  {
    var part, rest := pending[0], pending[1..];
    var cursor := dir + [part];
    if part == "." {
      FileIsArrival(t, boundary, device, dir, seen, hops, rest, q);
    } else if part == ".." {
      FileIsArrival(t, boundary, device, Parent(dir), seen, hops, rest, q);
    } else if t[cursor].kind.Link? {
      FileIsArrival(t, boundary, device, dir, seen + {cursor}, hops + 1, Split(t[cursor].kind.text) + rest, q);
    } else if cursor != q {
      FileIsArrival(t, boundary, device, cursor, seen, hops, rest, q);
    }
  }

  /** A plain file that the inspection of a required link looked at is its target. */
  lemma FileIsTarget(t: Tree, p: Path, policy: LinkPolicy, q: Path)
    requires WellFormed(t) && p in t && t[p].kind.Link? && InspectLink(t, p, policy).Accepted?
    requires InspectLink(t, p, policy).info.requiredTarget && q in Met(t, p, policy) && t[q].kind.Regular?
    ensures InspectLink(t, p, policy).info.resolved == Some(q)
  {
    hide R.WalkFrom, R.Looked;
    var rule, text := PolicyFor(p, policy).value, t[p].kind.text;
    FileIsArrival(t, rule.boundary, t[p].device, rule.boundary, {p}, 0, R.StartingParts(rule.boundary, p, text), q);
  }

  /** Only preserved links besides the dependency links. */
  predicate OnlyPreserves(policy: LinkPolicy) {
    forall i :: 0 <= i < |policy.rules| ==> policy.rules[i].role.PreservedOpaque?
  }

  lemma {:induction false} MatchIsRule(rules: seq<Rule>, p: Path)
    requires FirstMatch(rules, p).Some?
    ensures FirstMatch(rules, p).value in rules
  {
    if !Matches(rules[0], p) { MatchIsRule(rules[1..], p); }
  }

  /** Then an accepted link is a dependency link or a preserved one. */
  lemma AcceptedIsOneOfTwo(t: Tree, p: Path, policy: LinkPolicy)
    requires WellFormed(t) && p in t && t[p].kind.Link? && OnlyPreserves(policy) && InspectLink(t, p, policy).Accepted?
    ensures var rule, info := PolicyFor(p, policy).value, InspectLink(t, p, policy).info;
            || (InDependencies(p) && rule.boundary == p[..4] && info.requiredTarget && info.resolved.Some?)
            || (rule.boundary == OPAQUE && policy.rules != [])
  {
    if !InDependencies(p) { MatchIsRule(policy.rules, p); }
  }
}
