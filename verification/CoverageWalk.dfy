/** The walk of one owner-state family: `visit` and what it records. */
module CoverageWalk {
  import opened FileTree
  import opened Names
  import opened LinkInspection
  import opened Exclusions
  import opened AtomicNames

  datatype Root = StateRoot | AgentsRoot | WorkerRoot

  datatype Family = Family(id: string, root: Root, relative: Path, required: bool, derived: bool)

  /** Digests, JSON reading and process liveness. `schema` is None when the text is not JSON or declares an unusable
      version. `linkMode` is what the platform gives a new link, `owner` whom new files belong to. */
  datatype Host = Host(sha: seq<char> -> string, schema: seq<char> -> Option<Option<nat>>,
                       alive: nat -> bool, startedAfter: (nat, int) -> bool, linkMode: nat, owner: nat)

  datatype Options = Options(ctx: Context, policy: LinkPolicy)

  /** A walk of one family's tree; `held` are the lock files this process verifiably holds there. */
  datatype Walk = Walk(host: Host, options: Options, family: Family, held: set<Path>)

  const MAX_FILE: nat := 512 * 1024 * 1024

  /** Residue of a writer that died before its rename: never authoritative. */
  predicate Orphaned(h: Host, name: Name, mtime: int) {
    var t := TemporaryOf(name);
    t.Some? && (!h.alive(t.value.pid) || h.startedAfter(t.value.pid, mtime))
  }

  predicate OpaquePayload(family: string, relative: Path) {
    || (family == "runtime" && |relative| >= 4 && relative[0] == "runtime" && relative[1] == "releases"
        && ReleaseId(relative[2]))
    || family == "compatibility"
    || (family == "checkpoints" && |relative| >= 4 && relative[0] == "checkpoints" && relative[2] == "untracked")
  }

  datatype Detail =
    | FileDetail(digest: string, size: nat, schema: Option<nat>, residue: bool, mtime: int)
    | LinkDetail(info: LinkInfo)

  datatype Sort = IsFile | IsLink | IsFolder | IsOther

  /** One line of the inventory of an excluded subtree: contents are not read. */
  datatype Line = Line(sort: Sort, size: nat, mode: nat)

  /** What the walk records at one path. */
  datatype Item =
    | Directory(at: Path, mode: nat, owner: nat, names: seq<Name>)
    | Entry(at: Path, mode: nat, owner: nat, detail: Detail)
    | Excluded(at: Path, rule: RuleId, inventory: map<Path, Line>)

  datatype Problem =
    | UnknownFamily | ControlInvalid | ControlTransient | ParentInvalid | Transient(family: string)
    | HidesAuthoritative | LinkRefused(family: string) | FamilyError(family: string) | RemovesRequired
    | EmptyRequired(family: string) | TargetNotCovered | TargetExcluded | HistoricalIncomplete | MissingDependency

  datatype Thrown = Missing | Unsupported

  datatype Report = Report(items: seq<Item>, problems: seq<Problem>, thrown: Option<Thrown>)

  const NOTHING := Report([], [], None)

  function Throw(t: Thrown): Report {
    Report([], [], Some(t))
  }

  /** What is gathered by a, then b unless a threw. */
  function Then(a: Report, b: Report): Report {
    if a.thrown.Some? then a else Report(a.items + b.items, a.problems + b.problems, b.thrown)
  }

  predicate Clear(r: Report) {
    r.problems == [] && r.thrown.None?
  }

  function ListNames(t: Tree, held: set<Path>, dir: Path): (names: seq<Name>)
    ensures forall i :: 0 <= i < |names| ==> dir + [names[i]] in t
  {
    var names := Listing(set n | n in Children(t, dir) && dir + [n] !in held);
    assert forall i :: 0 <= i < |names| ==> names[i] in Elements(names);
    names
  }

  function Keep(w: Walk, dir: Path, names: seq<Name>): (kept: seq<Name>) {
    if names == [] then []
    else if RuleFor(w.family.id, dir + [names[0]], w.options.ctx).Some? then Keep(w, dir, names[1..])
    else [names[0]] + Keep(w, dir, names[1..])
  }

  predicate TransientName(n: Name) {
    EndsWith(n, ".lock") || EndsWith(n, ".tmp")
  }

  /** A lock or a live temporary write beside owner state. */
  predicate Transitory(w: Walk, t: Tree, p: Path)
    requires p in t && p != []
  {
    && !OpaquePayload(w.family.id, p) && TransientName(Last(p))
    && !(t[p].kind.Regular? && Orphaned(w.host, Last(p), t[p].mtime))
  }

  function LineOf(n: Node): Line {
    match n.kind
    case Regular(bytes) => Line(IsFile, |bytes|, Permissions(n.mode))
    case Link(text) => Line(IsLink, |text|, Permissions(n.mode))
    case Directory => Line(IsFolder, 0, Permissions(n.mode))
    case _ => Line(IsOther, 0, Permissions(n.mode))
  }

  function Inventory(t: Tree, p: Path): map<Path, Line> {
    map q | q in Beneath(t, p) :: LineOf(t[q])
  }

  /** The record of one path, with no descent: a problem-free record, or what went wrong there. */
  function Inspect(w: Walk, t: Tree, p: Path): Report
    requires WellFormed(t)
  {
    if p !in t then Throw(Missing)
    else
      var node, rule, mode := t[p], RuleFor(w.family.id, p, w.options.ctx), Permissions(t[p].mode);
      if rule.Some? then
        if exists q :: q in Beneath(t, p) && t[q].device != t[[]].device then Throw(Unsupported)
        else
          var hides := exists q :: q in Beneath(t, p) && q != [] && Authoritative(q);
          Report([Excluded(p, rule.value, Inventory(t, p))], if hides then [HidesAuthoritative] else [], None)
      else if node.kind.Link? then
        match InspectLink(t, p, w.options.policy)
        case Accepted(info) => Report([Entry(p, mode, node.owner, LinkDetail(info))], [], None)
        case Rejected(_) => Report([], [LinkRefused(w.family.id)], None)
      else if node.device != t[[]].device then Throw(Unsupported)
      else
        match node.kind
        case Directory =>
          Report([Item.Directory(p, mode, node.owner, Keep(w, p, ListNames(t, w.held, p)))], [], None)
        case Regular(bytes) =>
          var sealed := OpaquePayload(w.family.id, p);
          var read := if p != [] && EndsWith(Last(p), ".json") && !sealed then w.host.schema(bytes) else Some(None);
          if !SafePath(p) || |bytes| > MAX_FILE || read.None? then Throw(Unsupported)
          else
            var residue := p != [] && !sealed && Orphaned(w.host, Last(p), node.mtime);
            var detail := FileDetail(w.host.sha(bytes), |bytes|, read.value, residue, node.mtime);
            Report([Entry(p, mode, node.owner, detail)], [], None)
        case Link(_) => NOTHING
        case _ => Throw(Unsupported)
  }

  /** `visit`: the path's own record, then, for a directory that is not excluded, its names in order. */
  function Visit(w: Walk, t: Tree, p: Path): Report
    requires WellFormed(t)
    decreases Beneath(t, p), 1, 0
  {
    var own := Inspect(w, t, p);
    if own.items != [] && own.items[0].Directory? then Then(own, VisitNames(w, t, p, ListNames(t, w.held, p))) else own
  }

  function VisitNames(w: Walk, t: Tree, dir: Path, names: seq<Name>): Report
    requires WellFormed(t) && dir in t && forall i :: 0 <= i < |names| ==> dir + [names[i]] in t
    decreases Beneath(t, dir), 0, |names|
  {
    if names == [] then NOTHING
    else
      ChildIsSmaller(t, dir, names[0]);
      Then(VisitName(w, t, dir, names[0]), VisitNames(w, t, dir, names[1..]))
  }

  function VisitName(w: Walk, t: Tree, dir: Path, n: Name): Report
    requires WellFormed(t) && dir in t && dir + [n] in t
    decreases Beneath(t, dir + [n]), 2, 0
  {
    if Transitory(w, t, dir + [n]) then Report([], [Transient(w.family.id)], None) else Visit(w, t, dir + [n])
  }

  // ---------------------------------------------------------------- what a clear walk has recorded

  /** Reached by the walk from `top` through listed, unexcluded directories, and itself unexcluded. */
  predicate Open(w: Walk, top: Path, p: Path)
    decreases |p|
  {
    && top <= p && RuleFor(w.family.id, p, w.options.ctx).None?
    && (p == top || (p !in w.held && Open(w, top, Parent(p))))
  }

  /** Reached by the walk: `top`, or a listed name of an open directory. */
  predicate Reached(w: Walk, top: Path, p: Path) {
    top <= p && (p == top || (p !in w.held && Open(w, top, Parent(p))))
  }

  lemma ClearThen(a: Report, b: Report)
    ensures Clear(Then(a, b)) <==> Clear(a) && Clear(b)
    ensures Clear(a) ==> Then(a, b).items == a.items + b.items
  {
  }

  /** A clear record of one path is one item, at that path. */
  lemma ClearInspect(w: Walk, t: Tree, p: Path)
    requires WellFormed(t) && Clear(Inspect(w, t, p))
    ensures p in t && |Inspect(w, t, p).items| == 1 && Inspect(w, t, p).items[0].at == p
    ensures Inspect(w, t, p).items[0].Directory? <==>
            t[p].kind.Directory? && RuleFor(w.family.id, p, w.options.ctx).None?
    ensures Inspect(w, t, p).items[0].Excluded? <==> RuleFor(w.family.id, p, w.options.ctx).Some?
  {
  }

  /** The record of one path describes what is there. */
  predicate Describes(h: Host, i: Item, n: Node) {
    match i
    case Directory(_, mode, owner, _) => n.kind.Directory? && mode == Permissions(n.mode) && owner == n.owner
    case Entry(_, mode, owner, FileDetail(digest, size, _, _, mtime)) =>
      && n.kind.Regular? && digest == h.sha(n.kind.bytes) && size == |n.kind.bytes| <= MAX_FILE && mtime == n.mtime
      && mode == Permissions(n.mode) && owner == n.owner
    case Entry(_, mode, owner, LinkDetail(info)) =>
      n.kind == Link(info.target) && mode == Permissions(n.mode) && owner == n.owner
    case Excluded(_, _, _) => true
  }

  lemma InspectDescribes(w: Walk, t: Tree, i: Item)
    requires WellFormed(t) && i.at in t && Inspect(w, t, i.at).items == [i]
    ensures Describes(w.host, i, t[i.at])
    ensures i.Directory? ==> i.names == Keep(w, i.at, ListNames(t, w.held, i.at))
  {
    hide InspectLink, Keep, ListNames, WellFormed, RuleFor, Permissions, Orphaned, SafePath, OpaquePayload;
    if t[i.at].kind.Link? && InspectLink(t, i.at, w.options.policy).Accepted? {
      AcceptedText(t, i.at, w.options.policy);
    }
  }

  ghost predicate Records(w: Walk, t: Tree, top: Path, i: Item)
    requires WellFormed(t)
  {
    i.at in t && Reached(w, top, i.at) && Inspect(w, t, i.at).items == [i]
  }

  /** A step down the walk: below an open directory, reachability from it is reachability from its child. */
  lemma {:induction false} ReachedBelow(w: Walk, dir: Path, n: Name, p: Path)
    requires dir + [n] <= p
    ensures Reached(w, dir, p) <==>
            RuleFor(w.family.id, dir, w.options.ctx).None? && dir + [n] !in w.held && Reached(w, dir + [n], p)
    ensures Open(w, dir, p) <==>
            RuleFor(w.family.id, dir, w.options.ctx).None? && dir + [n] !in w.held && Open(w, dir + [n], p)
    decreases |p|
  {
    if p == dir + [n] {
      assert Parent(p) == dir;
    } else {
      assert dir + [n] <= Parent(p);
      ReachedBelow(w, dir, n, Parent(p));
    }
  }

  lemma ListedNames(t: Tree, held: set<Path>, dir: Path)
    ensures forall n :: n in ListNames(t, held, dir) <==> dir + [n] in t && dir + [n] !in held
  {
    var names := ListNames(t, held, dir);
    assert forall n :: n in names <==> n in Elements(names);
  }

  /** A clear visit is a clear record of the top, and of its names when the top is an open directory. */
  lemma ClearVisit(w: Walk, t: Tree, p: Path)
    requires WellFormed(t) && Clear(Visit(w, t, p))
    ensures Clear(Inspect(w, t, p)) && p in t
    ensures t[p].kind.Directory? && RuleFor(w.family.id, p, w.options.ctx).None? ==>
      && Clear(VisitNames(w, t, p, ListNames(t, w.held, p)))
      && Visit(w, t, p).items == Inspect(w, t, p).items + VisitNames(w, t, p, ListNames(t, w.held, p)).items
    ensures !(t[p].kind.Directory? && RuleFor(w.family.id, p, w.options.ctx).None?) ==>
      Visit(w, t, p).items == Inspect(w, t, p).items
  {
    var own := Inspect(w, t, p);
    if own.items != [] && own.items[0].Directory? { ClearThen(own, VisitNames(w, t, p, ListNames(t, w.held, p))); }
    ClearInspect(w, t, p);
  }

  /** A clear walk records exactly the reached paths, one faithful item each. */
  lemma {:induction false} ClearVisitRecords(w: Walk, t: Tree, p: Path, i: Item)
    requires WellFormed(t) && Clear(Visit(w, t, p))
    ensures i in Visit(w, t, p).items <==> Records(w, t, p, i)
    decreases Beneath(t, p), 1, 0
  {
    hide Visit, VisitNames, Inspect, RuleFor, WellFormed;
    ClearVisit(w, t, p);
    ClearInspect(w, t, p);
    if t[p].kind.Directory? && RuleFor(w.family.id, p, w.options.ctx).None? {
      var names := ListNames(t, w.held, p);
      ClearNamesRecord(w, t, p, names, i);
      ListedNames(t, w.held, p);
      if p < i.at {
        BelowOpenDirectory(w, t, p, i);
      }
    } else {
      NothingBelow(w, t, p, i.at);
    }
  }

  lemma BelowOpenDirectory(w: Walk, t: Tree, p: Path, i: Item)
    requires WellFormed(t) && p in t && p < i.at && RuleFor(w.family.id, p, w.options.ctx).None?
    ensures Records(w, t, p, i) <==> i.at[|p|] in ListNames(t, w.held, p) && Records(w, t, p + [i.at[|p|]], i)
  {
    var n := i.at[|p|];
    ListedNames(t, w.held, p);
    ReachedBelow(w, p, n, i.at);
    if i.at in t { AncestorsAreDirectories(t, i.at, p + [n]); }
  }

  /** Below a path that is no open directory nothing is reached. */
  lemma NothingBelow(w: Walk, t: Tree, p: Path, q: Path)
    requires WellFormed(t) && p in t
    ensures q in t && p < q && Reached(w, p, q) ==> t[p].kind.Directory? && RuleFor(w.family.id, p, w.options.ctx).None?
  {
    if q in t && p < q {
      AncestorsAreDirectories(t, q, p);
      ReachedBelow(w, p, q[|p|], q);
    }
  }

  lemma {:induction false} ClearNamesRecord(w: Walk, t: Tree, dir: Path, names: seq<Name>, i: Item)
    requires WellFormed(t) && dir in t && forall k :: 0 <= k < |names| ==> dir + [names[k]] in t
    requires Clear(VisitNames(w, t, dir, names))
    ensures i in VisitNames(w, t, dir, names).items <==>
            dir < i.at && i.at[|dir|] in names && Records(w, t, dir + [i.at[|dir|]], i)
    decreases Beneath(t, dir), 0, |names|
  {
    if names != [] {
      ChildIsSmaller(t, dir, names[0]);
      ClearThen(VisitName(w, t, dir, names[0]), VisitNames(w, t, dir, names[1..]));
      ClearVisitRecords(w, t, dir + [names[0]], i);
      ClearNamesRecord(w, t, dir, names[1..], i);
      assert names == [names[0]] + names[1..];
    }
  }

  /** Every path under a clear walk's top is recorded, lies in a recorded exclusion, or is a held lock. */
  lemma {:induction false} NothingEscapesVisit(w: Walk, t: Tree, top: Path, p: Path)
    requires WellFormed(t) && top in t && top <= p && p in t
    requires forall q :: q in w.held && q in t ==> t[q].kind.Regular?
    ensures || Open(w, top, p)
            || (exists q :: top <= q <= p && Reached(w, top, q) && RuleFor(w.family.id, q, w.options.ctx).Some?)
            || (p in w.held && p != top)
    decreases |p|
  {
    if p != top {
      assert Hangs(t, p);
      NothingEscapesVisit(w, t, top, Parent(p));
      if Open(w, top, Parent(p)) && p !in w.held {
        assert Reached(w, top, p);
      }
    } else {
      assert Reached(w, top, p);
    }
  }

  /** Every reached path of a clear walk has its one record, and none is in the making. */
  lemma {:induction false} ReachedIsClear(w: Walk, t: Tree, top: Path, p: Path)
    requires WellFormed(t) && Clear(Visit(w, t, top)) && p in t && Reached(w, top, p)
    ensures Clear(Inspect(w, t, p)) && (p != top ==> p != [] && !Transitory(w, t, p))
    decreases Beneath(t, top), 1, 0
  {
    hide Visit, VisitNames, Inspect, RuleFor, WellFormed, ListNames;
    ClearVisit(w, t, top);
    if p != top {
      NothingBelow(w, t, top, p);
      var n, names := p[|top|], ListNames(t, w.held, top);
      ListedNames(t, w.held, top);
      AncestorsAreDirectories(t, p, top + [n]);
      ReachedBelow(w, top, n, p);
      ReachedNameIsClear(w, t, top, names, n, p);
    }
  }

  lemma {:induction false} ReachedNameIsClear(w: Walk, t: Tree, dir: Path, names: seq<Name>, n: Name, p: Path)
    requires WellFormed(t) && dir in t && forall k :: 0 <= k < |names| ==> dir + [names[k]] in t
    requires Clear(VisitNames(w, t, dir, names)) && n in names && p in t && Reached(w, dir + [n], p)
    ensures Clear(Inspect(w, t, p)) && p != [] && !Transitory(w, t, p)
    decreases Beneath(t, dir), 0, |names|
  {
    ChildIsSmaller(t, dir, names[0]);
    ClearThen(VisitName(w, t, dir, names[0]), VisitNames(w, t, dir, names[1..]));
    if n == names[0] {
      ReachedIsClear(w, t, dir + [n], p);
    } else {
      ReachedNameIsClear(w, t, dir, names[1..], n, p);
    }
  }

  /** Nothing to object to at p, reached from top. */
  ghost predicate Calm(w: Walk, t: Tree, top: Path, p: Path)
    requires WellFormed(t) && p in t && top <= p
  {
    Clear(Inspect(w, t, p)) && (p != top ==> !Transitory(w, t, p))
  }

  /** And conversely: where no reached path is objected to, the walk is clear. */
  lemma {:induction false} CalmIsClear(w: Walk, t: Tree, top: Path)
    requires WellFormed(t) && top in t && forall p :: p in t && Reached(w, top, p) ==> Calm(w, t, top, p)
    ensures Clear(Visit(w, t, top))
    decreases Beneath(t, top), 1, 0
  {
    hide Inspect, Transitory, RuleFor, ListNames;
    assert Calm(w, t, top, top);
    ClearInspect(w, t, top);
    var own, names := Inspect(w, t, top), ListNames(t, w.held, top);
    if own.items[0].Directory? {
      ListedNames(t, w.held, top);
      CalmNames(w, t, top, names);
      ClearThen(own, VisitNames(w, t, top, names));
    }
  }

  lemma {:induction false} CalmNames(w: Walk, t: Tree, dir: Path, names: seq<Name>)
    requires WellFormed(t) && dir in t && RuleFor(w.family.id, dir, w.options.ctx).None?
    requires forall k :: 0 <= k < |names| ==> dir + [names[k]] in t && dir + [names[k]] !in w.held
    requires forall p :: p in t && Reached(w, dir, p) ==> Calm(w, t, dir, p)
    ensures Clear(VisitNames(w, t, dir, names))
    decreases Beneath(t, dir), 0, |names|
  {
    hide Inspect, Transitory, RuleFor, Visit;
    if names != [] {
      var top := dir + [names[0]];
      ChildIsSmaller(t, dir, names[0]);
      forall p | p in t && Reached(w, top, p) ensures Reached(w, dir, p) && Calm(w, t, top, p) {
        ReachedBelow(w, dir, names[0], p);
        assert Calm(w, t, dir, p);
      }
      assert Reached(w, top, top);
      assert Calm(w, t, dir, top);
      CalmIsClear(w, t, top);
      CalmNames(w, t, dir, names[1..]);
      ClearThen(VisitName(w, t, dir, names[0]), VisitNames(w, t, dir, names[1..]));
    }
  }
}
