/** Link policy: which links a snapshot may hold, and what is recorded about each. */
module LinkInspection {
  import opened FileTree
  import opened SymlinkResolver
  import opened KernelResolution

  datatype Role = RuntimeDependency | InternalAlias | PreservedOpaque

  datatype Resolution = Internal | EscapesBoundary | NoKernelTarget | Cyclic

  /** A rule's textual prefix is `prefixDir` joined, a slash, then `prefixName`. */
  datatype Rule = Rule(prefixDir: Path, prefixName: string, boundary: Path, role: Role, requiredTarget: bool)

  datatype LinkPolicy = LinkPolicy(version: nat, rules: seq<Rule>)

  /** The one boundary whose links are preserved without being resolved. */
  const OPAQUE: Path := ["compat-home"]

  predicate LowerOrDigit(c: char) {
    'a' <= c <= 'z' || '0' <= c <= '9'
  }

  /** [a-z0-9][a-z0-9._-]{0,119} */
  predicate ReleaseId(id: string) {
    && 1 <= |id| <= 120 && LowerOrDigit(id[0])
    && forall i :: 0 < i < |id| ==> LowerOrDigit(id[i]) || id[i] == '.' || id[i] == '_' || id[i] == '-'
  }

  /** A path inside the dependencies of one immutable release. */
  predicate InDependencies(relative: Path) {
    |relative| >= 5 && relative[0] == "runtime" && relative[1] == "releases" && ReleaseId(relative[2])
    && relative[3] == "node_modules"
  }

  predicate Matches(rule: Rule, relative: Path) {
    |rule.prefixDir| < |relative| && rule.prefixDir <= relative && rule.prefixName <= relative[|rule.prefixDir|]
  }

  function FirstMatch(rules: seq<Rule>, relative: Path): Option<Rule> {
    if rules == [] then None
    else if Matches(rules[0], relative) then Some(rules[0])
    else FirstMatch(rules[1..], relative)
  }

  /** A dependency link is always confined to its own release; other links need a supplied rule. */
  function PolicyFor(relative: Path, policy: LinkPolicy): Option<Rule> {
    if InDependencies(relative) then Some(Rule(relative[..4], "", relative[..4], RuntimeDependency, true))
    else FirstMatch(policy.rules, relative)
  }

  predicate ValidRule(rule: Rule) {
    && rule.boundary != [] && (forall i :: 0 <= i < |rule.boundary| ==> ValidName(rule.boundary[i]))
    && rule.boundary <= rule.prefixDir
    && (if rule.role.PreservedOpaque? then !rule.requiredTarget && rule.boundary == OPAQUE
        else rule.requiredTarget && rule.boundary != OPAQUE)
  }

  datatype LinkInfo = LinkInfo(target: string, resolved: Option<Path>, directory: bool, role: Role,
                               requiredTarget: bool, resolution: Resolution)

  datatype LinkError = PolicyVersion | Unapproved | BoundaryNotDirectory | WalkRefused(why: WalkError)
                       | TargetTypeOrVolume

  datatype Inspection = Accepted(info: LinkInfo) | Rejected(error: LinkError)

  /** The path an arrival names exists. */
  lemma {:induction false} ArrivesInTree(t: Tree, boundary: Path, device: nat, dir: Path, seen: set<Path>, hops: nat,
                                         pending: seq<string>)
    requires WellFormed(t) && hops <= MAX_HOPS && boundary <= dir && dir in t
    requires WalkFrom(t, boundary, device, dir, seen, hops, pending).Arrived?
    ensures WalkFrom(t, boundary, device, dir, seen, hops, pending).at in t
    decreases MAX_HOPS - hops, |pending|
  {
    if pending != [] {
      var part, rest := pending[0], pending[1..];
      var cursor := dir + [part];
      if part == "." {
        ArrivesInTree(t, boundary, device, dir, seen, hops, rest);
      } else if part == ".." {
        assert Hangs(t, dir);
        ArrivesInTree(t, boundary, device, Parent(dir), seen, hops, rest);
      } else if t[cursor].kind.Link? {
        ArrivesInTree(t, boundary, device, dir, seen + {cursor}, hops + 1, Split(t[cursor].kind.text) + rest);
      } else {
        ArrivesInTree(t, boundary, device, cursor, seen, hops, rest);
      }
    }
  }

  /** How a link that need not resolve is described; volume crossings and absolute hops are not described. */
  function Classify(t: Tree, boundary: Path, file: Path, target: string): Option<Resolution>
    requires WellFormed(t) && file in t && boundary <= Parent(file) && IsDirectory(t, boundary)
  {
    match WalkLink(t, boundary, t[file].device, file, target)
    case Arrived(at) =>
      ArrivesInTree(t, boundary, t[file].device, boundary, {file}, 0, StartingParts(boundary, file, target));
      Some(if t[at].kind.Directory? && at <= file then Cyclic else Internal)
    case Refused(why) =>
      match why
      case Escape => Some(EscapesBoundary)
      case Dangling => Some(NoKernelTarget)
      case TargetType => Some(NoKernelTarget)
      case Cycle => Some(Cyclic)
      case Depth => Some(Cyclic)
      case CrossVolume => None
      case AbsoluteLink => None
  }

  function InspectLink(t: Tree, file: Path, policy: LinkPolicy): Inspection
    requires WellFormed(t) && file in t && t[file].kind.Link?
  {
    var found := PolicyFor(file, policy);
    if policy.version != 1 then Rejected(PolicyVersion)
    else if found.None? || !ValidRule(found.value) then Rejected(Unapproved)
    else
      var rule, target, device := found.value, t[file].kind.text, t[file].device;
      if !IsDirectory(t, rule.boundary) then Rejected(BoundaryNotDirectory)
      else if IsAbsolute(target) then Rejected(WalkRefused(AbsoluteLink))
      else if !(rule.boundary <= Parent(file)) then Rejected(WalkRefused(Escape))
      else if rule.role.PreservedOpaque? then
        match Classify(t, rule.boundary, file, target)
        case Some(resolution) => Accepted(LinkInfo(target, None, false, rule.role, false, resolution))
        case None => Rejected(WalkRefused(match WalkLink(t, rule.boundary, device, file, target)
                                          case Refused(why) => why
                                          case Arrived(_) => CrossVolume))
      else
        match WalkLink(t, rule.boundary, device, file, target)
        case Refused(why) => Rejected(WalkRefused(why))
        case Arrived(at) =>
          ArrivesInTree(t, rule.boundary, device, rule.boundary, {file}, 0, StartingParts(rule.boundary, file, target));
          if (!t[at].kind.Regular? && !t[at].kind.Directory?) || t[at].device != device
              then Rejected(TargetTypeOrVolume)
          else if t[at].kind.Directory? && at <= file then Rejected(WalkRefused(Cycle))
          else Accepted(LinkInfo(target, Some(at), t[at].kind.Directory?, rule.role, true, Internal))
  }

  /** The link's own text is what is recorded. */
  lemma AcceptedText(t: Tree, file: Path, policy: LinkPolicy)
    requires WellFormed(t) && file in t && t[file].kind.Link? && InspectLink(t, file, policy).Accepted?
    ensures InspectLink(t, file, policy).info.target == t[file].kind.text
  {
    hide WalkFrom;
  }

  /** An accepted required link names a real file or directory inside its boundary, on its own volume, with no link
      on the way to it, that is not the link itself or a directory above it; and that is where the kernel goes,
      exactly unless it is a file and the link is read under a trailing slash, when the kernel has no target. */
  lemma RequiredLinkIsSound(t: Tree, file: Path, policy: LinkPolicy)
    requires WellFormed(t) && file in t && t[file].kind.Link?
    requires InspectLink(t, file, policy).Accepted? && InspectLink(t, file, policy).info.requiredTarget
    ensures var info, text := InspectLink(t, file, policy).info, t[file].kind.text;
            && info.resolved.Some? && PolicyFor(file, policy).Some?
            && var at := info.resolved.value;
               && PolicyFor(file, policy).value.boundary <= at && at in t && LinkFree(t, at)
               && (t[at].kind.Regular? || t[at].kind.Directory?) && t[at].device == t[file].device
               && !(t[at].kind.Directory? && at <= file) && info.directory == t[at].kind.Directory?
               && ((exists n :: KernelLink(t, file, text, n).Reached?) <==>
                   info.directory
                   || !UnderSlash(t, file, text))
               && (forall n :: KernelLink(t, file, text, n).Reached? ==> KernelLink(t, file, text, n).at == at)
  {
    var rule := PolicyFor(file, policy).value;
    var target, device := t[file].kind.text, t[file].device;
    ArrivesInTree(t, rule.boundary, device, rule.boundary, {file}, 0, StartingParts(rule.boundary, file, target));
    WellFormedIsLinkFree(t, InspectLink(t, file, policy).info.resolved.value);
    VerdictMeaning(t, rule.boundary, device, file, target);
  }

  /** A tame resolution that ends at a file, or at a directory that does not contain the link, on the link's volume. */
  ghost predicate GoodEnd(t: Tree, boundary: Path, file: Path, target: string, n: nat)
    requires boundary <= Parent(file) && file in t
  {
    var end := Resolve(t, boundary, StartingParts(boundary, file, target), n);
    && end.Reached? && Tame(t, boundary, t[file].device, {file}, 0, end.trail)
    && end.at in t && t[end.at].device == t[file].device
    && (t[end.at].kind.Regular? || (t[end.at].kind.Directory? && !(end.at <= file)))
  }

  /** For a required rule whose boundary is real, acceptance is exactly: relative text, kept inside the boundary by a
      tame resolution with a good end; and the accepted links that the kernel can follow are exactly those among them
      whose end the kernel reaches, trailing slashes included. */
  lemma RequiredLinkIsExact(t: Tree, file: Path, policy: LinkPolicy)
    requires WellFormed(t) && file in t && file != [] && t[file].kind.Link? && policy.version == 1
    requires PolicyFor(file, policy).Some? && ValidRule(PolicyFor(file, policy).value)
    requires PolicyFor(file, policy).value.requiredTarget && IsDirectory(t, PolicyFor(file, policy).value.boundary)
    ensures var boundary, target := PolicyFor(file, policy).value.boundary, t[file].kind.text;
            && (InspectLink(t, file, policy).Accepted? <==>
                !IsAbsolute(target) && boundary <= Parent(file) && exists n :: GoodEnd(t, boundary, file, target, n))
            && (InspectLink(t, file, policy).Accepted? && (exists n :: KernelLink(t, file, target, n).Reached?) <==>
                && !IsAbsolute(target) && boundary <= Parent(file)
                && exists n :: GoodEnd(t, boundary, file, target, n) && KernelLink(t, file, target, n).Reached?)
  {
    hide KernelLink;
    var boundary, target, device := PolicyFor(file, policy).value.boundary, t[file].kind.text, t[file].device;
    if !IsAbsolute(target) && boundary <= Parent(file) {
      var parts := StartingParts(boundary, file, target);
      ResolverIsExact(t, boundary, device, file, target);
      forall n | Resolve(t, boundary, parts, n).Reached?
          && Tame(t, boundary, device, {file}, 0, Resolve(t, boundary, parts, n).trail)
        ensures WalkLink(t, boundary, device, file, target) == Arrived(Resolve(t, boundary, parts, n).at)
      {
        ClearMeansTame(t, boundary, device, {file}, 0, Resolve(t, boundary, parts, n).trail);
      }
      if WalkLink(t, boundary, device, file, target).Arrived? {
        ArrivesInTree(t, boundary, device, boundary, {file}, 0, parts);
        var n :| Resolve(t, boundary, parts, n).Reached?
            && Tame(t, boundary, device, {file}, 0, Resolve(t, boundary, parts, n).trail);
        assert InspectLink(t, file, policy).Accepted? ==> GoodEnd(t, boundary, file, target, n);
      }
      forall n | GoodEnd(t, boundary, file, target, n)
        ensures KernelLink(t, file, target, n).Reached? <==> exists m :: KernelLink(t, file, target, m).Reached?
      {
        StartIsLinkDirectory(t, boundary, file, target, n);
        KernelReaches(t, file, target, n);
      }
    }
  }

  /** An opaque link is kept whatever it points at, and its description is the kernel's: INTERNAL resolves inside the
      boundary, exactly unless it ends at no directory under a trailing slash; DANGLING has no target;
      ESCAPES_BOUNDARY leaves the boundary if it resolves at all; CYCLE, if it resolves at all, ends at a directory
      that contains the link or goes through some link twice or through too many. */
  lemma OpaqueDescriptionIsSound(t: Tree, file: Path, policy: LinkPolicy)
    requires WellFormed(t) && file in t && file != [] && t[file].kind.Link?
    requires InspectLink(t, file, policy).Accepted? && !InspectLink(t, file, policy).info.requiredTarget
    ensures var text, resolution := t[file].kind.text, InspectLink(t, file, policy).info.resolution;
            && OPAQUE <= Parent(file)
            && (resolution.Internal? ==>
                  && (forall n :: KernelLink(t, file, text, n).Reached? ==> OPAQUE <= KernelLink(t, file, text, n).at)
                  && exists at :: OPAQUE <= at && at in t
                      && WalkLink(t, OPAQUE, t[file].device, file, text) == Arrived(at)
                      && ((exists n :: KernelLink(t, file, text, n).Reached?) <==>
                           IsDirectory(t, at)
                           || !UnderSlash(t, file, text)))
            && (resolution.NoKernelTarget? ==> forall n :: !KernelLink(t, file, text, n).Reached?)
            && (resolution.EscapesBoundary? ==>
                  forall n :: KernelLink(t, file, text, n).Reached? ==>
                      Up(OPAQUE) in KernelLink(t, file, text, n).trail)
            && (resolution.Cyclic? ==>
                  forall n :: KernelLink(t, file, text, n).Reached? ==>
                    || (IsDirectory(t, KernelLink(t, file, text, n).at) && KernelLink(t, file, text, n).at <= file)
                    || !AdmittedWay(t, OPAQUE, t[file].device, file, text, n))
  {
    hide KernelLink, UnderSlash, AdmittedWay;
    VerdictMeaning(t, OPAQUE, t[file].device, file, t[file].kind.text);
    if WalkLink(t, OPAQUE, t[file].device, file, t[file].kind.text).Arrived? {
      ArrivesInTree(t, OPAQUE, t[file].device, OPAQUE, {file}, 0, StartingParts(OPAQUE, file, t[file].kind.text));
    }
  }
}
