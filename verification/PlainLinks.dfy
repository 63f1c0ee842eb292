/** The link policy and the verdict on a link in plain terms. */
module PlainLinks {
  import opened FileTree
  import opened SymlinkResolver
  import opened KernelResolution
  import opened LinkInspection
  import opened PlainRules

  // ---------------------------------------------------------------- the rule for a link

  /** The link lies in the dependencies of this release. */
  ghost predicate DependsIn(p: Path, id: Name) {
    ReleaseName(id) && ["runtime", "releases", id, "node_modules"] < p
  }

  /** The path continues the rule's prefix: its directories, then a name that begins with the rest of it. */
  ghost predicate Continues(rule: Rule, p: Path) {
    exists x, below :: Continued(rule, p, x, below)
  }

  ghost predicate Continued(rule: Rule, p: Path, x: string, below: Path) {
    p == rule.prefixDir + [rule.prefixName + x] + below
  }

  lemma MatchesIs(rule: Rule, p: Path)
    ensures Matches(rule, p) <==> Continues(rule, p)
  {
    var k := |rule.prefixDir|;
    if Matches(rule, p) {
      var n := p[k];
      assert n == rule.prefixName + n[|rule.prefixName|..];
      assert p == p[..k] + [n] + p[k + 1..];
      assert Continued(rule, p, n[|rule.prefixName|..], p[k + 1..]);
    }
    if x, below :| Continued(rule, p, x, below) {
      assert p[k] == rule.prefixName + x && rule.prefixDir <= p;
    }
  }

  lemma DependenciesAre(p: Path)
    ensures InDependencies(p) <==> exists id :: DependsIn(p, id)
  {
    if InDependencies(p) {
      ReleaseIdIs(p[2]);
      assert ["runtime", "releases", p[2], "node_modules"] < p;
      assert DependsIn(p, p[2]);
    }
    if id :| DependsIn(p, id) {
      ReleaseIdIs(id);
      assert p[2] == id;
    }
  }

  lemma {:induction false} FirstIs(rules: seq<Rule>, p: Path, rule: Rule)
    ensures FirstMatch(rules, p) == Some(rule) <==>
            exists i :: 0 <= i < |rules| && rules[i] == rule && Continues(rule, p)
                        && forall j :: 0 <= j < i ==> !Continues(rules[j], p)
  {
    hide Continues, Matches;
    if rules != [] {
      MatchesIs(rules[0], p);
      FirstIs(rules[1..], p, rule);
      assert forall j :: 0 < j < |rules| ==> rules[j] == rules[1..][j - 1];
      if FirstMatch(rules[1..], p) == Some(rule) && !Continues(rules[0], p) {
        var i :| && 0 <= i < |rules[1..]| && rules[1..][i] == rule && Continues(rule, p)
                 && forall j :: 0 <= j < i ==> !Continues(rules[1..][j], p);
        assert rules[i + 1] == rule;
      }
      if i :| && 0 <= i < |rules| && rules[i] == rule && Continues(rule, p)
              && forall j :: 0 <= j < i ==> !Continues(rules[j], p) {
        if i > 0 { assert rules[1..][i - 1] == rule; }
      }
    }
  }

  /** WHICH RULE APPLIES. In a release's dependencies its own rule does, elsewhere the first supplied one. */
  lemma {:induction false} RuleApplies(p: Path, policy: LinkPolicy, rule: Rule)
    ensures forall id :: DependsIn(p, id) ==>
              var boundary := ["runtime", "releases", id, "node_modules"];
              PolicyFor(p, policy) == Some(Rule(boundary, "", boundary, RuntimeDependency, true))
    ensures (forall id :: !DependsIn(p, id)) ==>
      (PolicyFor(p, policy) == Some(rule) <==>
       exists i :: 0 <= i < |policy.rules| && policy.rules[i] == rule && Continues(rule, p)
                   && forall j :: 0 <= j < i ==> !Continues(policy.rules[j], p))
  {
    hide FirstMatch, Continues;
    DependenciesAre(p);
    FirstIs(policy.rules, p, rule);
    forall id | DependsIn(p, id) ensures p[..4] == ["runtime", "releases", id, "node_modules"] {}
  }

  /** A usable rule: a real boundary that its prefix lies in, opaque without target for the legacy home alone, and with
      one for everything else. */
  ghost predicate Usable(rule: Rule) {
    && rule.boundary != []
    && (forall i :: 0 <= i < |rule.boundary| ==>
          var n := rule.boundary[i]; n != "" && n != "." && n != ".." && '/' !in n)
    && rule.boundary <= rule.prefixDir
    && (rule.role == PreservedOpaque <==> rule.boundary == ["compat-home"])
    && (rule.requiredTarget <==> rule.role != PreservedOpaque)
  }

  lemma UsableIs(rule: Rule)
    ensures ValidRule(rule) <==> Usable(rule)
  {
  }

  // ---------------------------------------------------------------- the verdict

  /** What an opaque link is described as, by the resolver's verdict. */
  ghost predicate DescribedAs(t: Tree, file: Path, verdict: WalkResult, r: Resolution) {
    match verdict
    case Refused(Escape) => r == EscapesBoundary
    case Refused(Dangling) => r == NoKernelTarget
    case Refused(TargetType) => r == NoKernelTarget
    case Refused(Cycle) => r == Cyclic
    case Refused(Depth) => r == Cyclic
    case Refused(_) => false
    case Arrived(at) => r == if IsDirectory(t, at) && at <= file then Cyclic else Internal
  }

  /** WHICH LINKS ARE ACCEPTED, AND AS WHAT. Under a usable rule for it, relative and inside a real boundary, a link is
      accepted if it need not resolve, unless a hop is absolute or leaves the volume, and then with the resolver's
      verdict as its description; or if it resolves tamely to a good end, and then with that end. */
  lemma {:induction false} AcceptedExactly(t: Tree, file: Path, policy: LinkPolicy)
    requires WellFormed(t) && file in t && file != [] && t[file].kind.Link?
    ensures InspectLink(t, file, policy).Accepted? <==>
            && policy.version == 1 && PolicyFor(file, policy).Some? && Usable(PolicyFor(file, policy).value)
            && var rule, text := PolicyFor(file, policy).value, t[file].kind.text;
               && IsDirectory(t, rule.boundary) && !IsAbsolute(text) && rule.boundary <= Parent(file)
               && if rule.role == PreservedOpaque
                  then WalkLink(t, rule.boundary, t[file].device, file, text)
                         !in {Refused(CrossVolume), Refused(AbsoluteLink)}
                  else exists n :: GoodEnd(t, rule.boundary, file, text, n)
    ensures InspectLink(t, file, policy).Accepted? ==>
      var rule, info := PolicyFor(file, policy).value, InspectLink(t, file, policy).info;
      && info.target == t[file].kind.text && info.role == rule.role
      && (info.requiredTarget <==> rule.role != PreservedOpaque)
      && (rule.role == PreservedOpaque ==>
            && info.resolved == None && !info.directory
            && DescribedAs(t, file, WalkLink(t, rule.boundary, t[file].device, file, info.target), info.resolution))
      && (rule.role != PreservedOpaque ==> info.resolution == Internal && info.resolved.Some?)
  {
    hide WalkFrom, Resolve, GoodEnd, WellFormed, PolicyFor;
    if PolicyFor(file, policy).Some? {
      var rule, text := PolicyFor(file, policy).value, t[file].kind.text;
      UsableIs(rule);
      if policy.version == 1 && ValidRule(rule) && rule.requiredTarget && IsDirectory(t, rule.boundary) {
        RequiredLinkIsExact(t, file, policy);
      } else if ValidRule(rule) && rule.role == PreservedOpaque && IsDirectory(t, rule.boundary)
          && rule.boundary <= Parent(file) {
        ClassifyIs(t, rule.boundary, file, text);
      }
    }
  }

  lemma ClassifyIs(t: Tree, boundary: Path, file: Path, text: string)
    requires WellFormed(t) && file in t && boundary <= Parent(file) && IsDirectory(t, boundary)
    ensures var verdict := WalkLink(t, boundary, t[file].device, file, text);
            && (Classify(t, boundary, file, text).None? <==> verdict in {Refused(CrossVolume), Refused(AbsoluteLink)})
            && (Classify(t, boundary, file, text).Some? ==>
                  DescribedAs(t, file, verdict, Classify(t, boundary, file, text).value))
  {
    hide WalkFrom, WellFormed;
    if WalkLink(t, boundary, t[file].device, file, text).Arrived? {
      ArrivesInTree(t, boundary, t[file].device, boundary, {file}, 0, StartingParts(boundary, file, text));
    }
  }
}
