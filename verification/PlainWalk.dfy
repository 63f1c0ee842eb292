/** The walk of a family in plain terms: exactly when it is clear, and exactly what it then writes down. */
module PlainWalk {
  import opened FileTree
  import opened Names
  import opened LinkInspection
  import opened Exclusions
  import opened AtomicNames
  import opened PlainRules
  import W = CoverageWalk

  // ---------------------------------------------------------------- where the walk gets to

  /** Nothing on the way from top down to p is held by this process, and nothing above p is left out. */
  ghost predicate Followed(w: W.Walk, top: Path, p: Path) {
    && top <= p
    && (forall k :: |top| < k <= |p| ==> p[..k] !in w.held)
    && (forall k :: |top| <= k < |p| ==> !LeftOut(w.family.id, p[..k], w.options.ctx))
  }

  lemma {:induction false} FollowedIs(w: W.Walk, top: Path, p: Path)
    ensures Followed(w, top, p) <==> W.Reached(w, top, p)
    ensures Followed(w, top, p) && !LeftOut(w.family.id, p, w.options.ctx) <==> W.Open(w, top, p)
    decreases |p|
  {
    hide RuleFor, LeftOut;
    LeftOutIs(w.family.id, p, w.options.ctx);
    if top <= p && p != top {
      var q := Parent(p);
      FollowedIs(w, top, q);
      LeftOutIs(w.family.id, q, w.options.ctx);
      assert forall k :: 0 <= k <= |q| ==> p[..k] == q[..k];
      assert p[..|p|] == p && p[..|q|] == q;
    } else if p == top {
      assert p[..|p|] == p;
    }
  }

  // ---------------------------------------------------------------- what is fine

  /** Nothing to object to at p itself. What is left out must stay on the volume and hide no authority; a link must be
      accepted; a directory must be on the volume; a file too, under a safe path, of at most 512 MiB, and readable as
      JSON where its name says so and it is not sealed payload. Nothing else is fine. */
  ghost predicate Fine(w: W.Walk, t: Tree, p: Path)
    requires WellFormed(t) && p in t
  {
    if LeftOut(w.family.id, p, w.options.ctx) then
      forall q :: q in t && p <= q ==> t[q].device == t[[]].device && !Guards(q)
    else
      match t[p].kind
      case Link(_) => InspectLink(t, p, w.options.policy).Accepted?
      case Directory => t[p].device == t[[]].device
      case Regular(bytes) =>
        && t[p].device == t[[]].device && SafePath(p) && |bytes| <= 536870912
        && (ReadsAsJson(w, p) ==> w.host.schema(bytes).Some?)
      case _ => false
  }

  ghost predicate ReadsAsJson(w: W.Walk, p: Path) {
    p != [] && EndsWith(p[|p| - 1], ".json") && !Sealed(w.family.id, p)
  }

  lemma FineIs(w: W.Walk, t: Tree, p: Path)
    requires WellFormed(t) && p in t
    ensures W.Clear(W.Inspect(w, t, p)) <==> Fine(w, t, p)
  {
    hide RuleFor, LeftOut, Guards, Authoritative, InspectLink, W.Keep, W.ListNames, W.Orphaned, W.OpaquePayload, Sealed,
         SafePath, EndsWith, WellFormed, Permissions, W.Inventory;
    LeftOutIs(w.family.id, p, w.options.ctx);
    SealedIs(w.family.id, p);
    forall q: Path | q != [] ensures Authoritative(q) <==> Guards(q) { AuthorityIs(q); }
    if LeftOut(w.family.id, p, w.options.ctx) { RootGuardsNothing(); }
  }

  lemma RootGuardsNothing()
    ensures !Guards([])
  {
  }

  /** A CLEAR WALK IN PLAIN TERMS. */
  lemma {:induction false} ClearIs(w: W.Walk, t: Tree, top: Path)
    requires WellFormed(t)
    ensures W.Clear(W.Visit(w, t, top)) <==>
            && top in t
            && forall p :: p in t && Followed(w, top, p) ==> Fine(w, t, p) && (p != top ==> Settled(w, t, p))
  {
    hide W.Visit, W.Inspect, W.Transitory, Settled, Fine, W.Reached, Followed, WellFormed;
    forall p ensures Followed(w, top, p) <==> W.Reached(w, top, p) { FollowedIs(w, top, p); }
    forall p | Followed(w, top, p) ensures top <= p { FollowedIsBelow(w, top, p); }
    forall p | p in t ensures W.Clear(W.Inspect(w, t, p)) <==> Fine(w, t, p) { FineIs(w, t, p); }
    forall p | p in t && p != [] ensures Settled(w, t, p) <==> !W.Transitory(w, t, p) { SettledIs(w, t, p); }
    if W.Clear(W.Visit(w, t, top)) {
      W.ClearVisit(w, t, top);
      forall p | p in t && top <= p && Followed(w, top, p) ensures Fine(w, t, p) && (p != top ==> Settled(w, t, p)) {
        W.ReachedIsClear(w, t, top, p);
      }
    }
    if && top in t
       && forall p :: p in t && top <= p && Followed(w, top, p) ==> Fine(w, t, p) && (p != top ==> Settled(w, t, p)) {
      forall p | p in t && W.Reached(w, top, p) ensures top <= p && W.Calm(w, t, top, p) {}
      W.CalmIsClear(w, t, top);
    }
  }

  lemma FollowedIsBelow(w: W.Walk, top: Path, p: Path)
    requires Followed(w, top, p)
    ensures top <= p
  {
  }

  // ---------------------------------------------------------------- what is written down

  ghost function SortOf(k: Kind): W.Sort {
    if k.Regular? then W.IsFile else if k.Link? then W.IsLink else if k.Directory? then W.IsFolder else W.IsOther
  }

  ghost function SizeOf(k: Kind): nat {
    match k
    case Regular(bytes) => |bytes|
    case Link(text) => |text|
    case _ => 0
  }

  /** The item written for its path, field by field. */
  ghost predicate Written(w: W.Walk, t: Tree, i: W.Item)
    requires WellFormed(t) && i.at in t
  {
    var n, out := t[i.at], LeftOut(w.family.id, i.at, w.options.ctx);
    match i
    case Excluded(p, rule, inventory) =>
      && LeftOutBy(w.family.id, p, w.options.ctx, rule)
      && (forall q :: q in inventory <==> q in t && p <= q)
      && (forall q :: q in inventory ==>
            inventory[q] == W.Line(SortOf(t[q].kind), SizeOf(t[q].kind), t[q].mode % 512))
    case Directory(p, mode, owner, names) =>
      && !out && n.kind.Directory? && mode == n.mode % 512 && owner == n.owner && Sorted(names)
      && (forall c :: c in names <==>
            p + [c] in t && p + [c] !in w.held && !LeftOut(w.family.id, p + [c], w.options.ctx))
    case Entry(p, mode, owner, FileDetail(digest, size, schema, residue, mtime)) =>
      && !out && n.kind.Regular? && mode == n.mode % 512 && owner == n.owner && mtime == n.mtime
      && digest == w.host.sha(n.kind.bytes) && size == |n.kind.bytes|
      && (if ReadsAsJson(w, p) then w.host.schema(n.kind.bytes) == Some(schema) else schema == None)
      && (residue <==> p != [] && !Sealed(w.family.id, p) && Orphan(w.host, p[|p| - 1], n.mtime))
    case Entry(p, mode, owner, LinkDetail(info)) =>
      && !out && n.kind.Link? && mode == n.mode % 512 && owner == n.owner
      && InspectLink(t, p, w.options.policy) == Accepted(info)
  }

  lemma LineIs(n: Node)
    ensures W.LineOf(n) == W.Line(SortOf(n.kind), SizeOf(n.kind), n.mode % 512)
  {
  }

  lemma {:induction false} KeptNames(w: W.Walk, dir: Path, names: seq<Name>)
    requires Sorted(names)
    ensures Sorted(W.Keep(w, dir, names))
    ensures forall c :: c in W.Keep(w, dir, names) <==>
              c in names && !LeftOut(w.family.id, dir + [c], w.options.ctx)
  {
    hide RuleFor, LeftOut, Less;
    if names != [] {
      TailElements(names);
      KeptNames(w, dir, names[1..]);
      LeftOutIs(w.family.id, dir + [names[0]], w.options.ctx);
      assert forall c :: c in names <==> c == names[0] || c in names[1..];
      forall c | c in names[1..] ensures Less(names[0], c) {
        var i :| 0 <= i < |names[1..]| && names[1..][i] == c;
        assert Less(names[0], names[i + 1]);
      }
    }
  }

  lemma NamesAre(w: W.Walk, t: Tree, dir: Path)
    ensures var names := W.Keep(w, dir, W.ListNames(t, w.held, dir));
            && Sorted(names)
            && forall c :: c in names <==>
                 dir + [c] in t && dir + [c] !in w.held && !LeftOut(w.family.id, dir + [c], w.options.ctx)
  {
    hide LeftOut, Less, W.Keep;
    W.ListedNames(t, w.held, dir);
    KeptNames(w, dir, W.ListNames(t, w.held, dir));
  }

  lemma SameNames(a: seq<Name>, b: seq<Name>)
    requires Sorted(a) && Sorted(b) && forall c :: c in a <==> c in b
    ensures a == b
  {
    assert Elements(a) == Elements(b);
    SortedIsUnique(a, b);
  }

  /** WHAT IS WRITTEN IN PLAIN TERMS. A fine path has one item, and it is the one that says what is there. */
  lemma {:induction false} ItemIs(w: W.Walk, t: Tree, i: W.Item)
    requires WellFormed(t) && i.at in t && Fine(w, t, i.at)
    ensures W.Inspect(w, t, i.at).items == [i] <==> Written(w, t, i)
  {
    hide LeftOut, WellFormed, Fine, W.Inspect, Written;
    FineIs(w, t, i.at);
    if LeftOut(w.family.id, i.at, w.options.ctx) {
      ExclusionIs(w, t, i);
    } else if t[i.at].kind.Directory? {
      DirectoryIs(w, t, i);
    } else {
      EntryIs(w, t, i);
    }
  }

  lemma DirectoryIs(w: W.Walk, t: Tree, i: W.Item)
    requires WellFormed(t) && i.at in t && W.Clear(W.Inspect(w, t, i.at)) && !LeftOut(w.family.id, i.at, w.options.ctx)
    requires t[i.at].kind.Directory?
    ensures W.Inspect(w, t, i.at).items == [i] <==> Written(w, t, i)
  {
    hide RuleFor, LeftOut, InspectLink, W.Keep, W.ListNames, WellFormed, Sorted;
    var p := i.at;
    LeftOutIs(w.family.id, p, w.options.ctx);
    if i.Excluded? { NotLeftOutBy(w.family.id, p, w.options.ctx, i.rule); }
    NamesAre(w, t, p);
    if i.Directory? && Written(w, t, i) { SameNames(i.names, W.Keep(w, p, W.ListNames(t, w.held, p))); }
  }

  lemma EntryIs(w: W.Walk, t: Tree, i: W.Item)
    requires WellFormed(t) && i.at in t && W.Clear(W.Inspect(w, t, i.at)) && !LeftOut(w.family.id, i.at, w.options.ctx)
    requires !t[i.at].kind.Directory?
    ensures W.Inspect(w, t, i.at).items == [i] <==> Written(w, t, i)
  {
    hide RuleFor, LeftOut, LeftOutBy, InspectLink, W.Orphaned, Orphan, W.OpaquePayload, Sealed, SafePath, EndsWith,
         WellFormed;
    var p := i.at;
    LeftOutIs(w.family.id, p, w.options.ctx);
    if i.Excluded? { NotLeftOutBy(w.family.id, p, w.options.ctx, i.rule); }
    SealedIs(w.family.id, p);
    if p != [] { OrphanIs(w.host, Last(p), t[p].mtime); }
  }

  lemma NotLeftOutBy(family: string, p: Path, ctx: Context, r: RuleId)
    requires !LeftOut(family, p, ctx)
    ensures !LeftOutBy(family, p, ctx, r)
  {
    hide LeftOutBy;
  }

  lemma ExclusionIs(w: W.Walk, t: Tree, i: W.Item)
    requires WellFormed(t) && i.at in t && W.Clear(W.Inspect(w, t, i.at)) && LeftOut(w.family.id, i.at, w.options.ctx)
    ensures W.Inspect(w, t, i.at).items == [i] <==> Written(w, t, i)
  {
    hide RuleFor, LeftOut, LeftOutBy, WellFormed, InspectLink, W.Keep, W.ListNames, Authoritative, SortOf, SizeOf;
    var p := i.at;
    LeftOutIs(w.family.id, p, w.options.ctx);
    var rule, inventory := RuleFor(w.family.id, p, w.options.ctx), W.Inventory(t, p);
    forall r
      ensures RuleFor(w.family.id, p, w.options.ctx) == Some(r) <==> LeftOutBy(w.family.id, p, w.options.ctx, r)
    {
      RuleIs(w.family.id, p, w.options.ctx, r);
    }
    forall q | q in inventory
      ensures inventory[q] == W.Line(SortOf(t[q].kind), SizeOf(t[q].kind), t[q].mode % 512)
    {
      LineIs(t[q]);
    }
    assert W.Inspect(w, t, p).items == [W.Excluded(p, rule.value, inventory)];
    if Written(w, t, i) { assert i.inventory == inventory; }
  }
}
