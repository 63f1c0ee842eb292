/** Walking a faithful copy of what a clear walk recorded records the same again. */
module CoverageCopy {
  import opened FileTree
  import opened Names
  import opened LinkInspection
  import opened Exclusions
  import opened CoverageWalk

  function WithoutLocks(w: Walk): Walk {
    w.(held := {})
  }

  /** Same kind, contents and permissions, except that a link gets the mode of a new link, under the copier's ownership;
      files keep their modification time. */
  predicate Mirrors(h: Host, n: Node, m: Node) {
    && m.kind == n.kind && m.owner == h.owner && (n.kind.Regular? ==> m.mtime == n.mtime)
    && Permissions(m.mode) == Permissions(if n.kind.Link? then h.linkMode else n.mode)
  }

  ghost predicate OneVolume(c: Tree) {
    [] in c && forall p :: p in c ==> c[p].device == c[[]].device
  }

  predicate CopiesAt(w: Walk, t: Tree, top: Path, c: Tree, p: Path) {
    && (p in c <==> p in t && Open(w, top, p))
    && (p in c ==> Mirrors(w.host, t[p], c[p]))
  }

  /** Under `top`, the copy holds exactly the open paths, mirrored. */
  ghost predicate Copies(w: Walk, t: Tree, top: Path, c: Tree) {
    && WellFormed(c) && OneVolume(c)
    && forall p {:trigger CopiesAt(w, t, top, c, p)} :: top <= p ==> CopiesAt(w, t, top, c, p)
  }

  // ---------------------------------------------------------------- listings

  lemma {:induction false} KeepFilters(w: Walk, dir: Path, names: seq<Name>)
    requires Sorted(names)
    ensures Sorted(Keep(w, dir, names))
    ensures forall n :: n in Keep(w, dir, names) <==> n in names && RuleFor(w.family.id, dir + [n], w.options.ctx).None?
  {
    if names != [] {
      TailElements(names);
      KeepFilters(w, dir, names[1..]);
      assert names == [names[0]] + names[1..];
      var rest := Keep(w, dir, names[1..]);
      forall j | 0 <= j < |rest| ensures Less(names[0], rest[j]) {
        assert rest[j] in rest;
        var k :| 0 <= k < |names[1..]| && names[1..][k] == rest[j];
        assert Less(names[0], names[k + 1]);
      }
    }
  }

  /** The copy's listing is the source's visible listing. */
  lemma CopyLists(w: Walk, t: Tree, top: Path, c: Tree, dir: Path)
    requires Copies(w, t, top, c) && Open(w, top, dir) && dir in t
    ensures ListNames(c, {}, dir) == Keep(w, dir, ListNames(t, w.held, dir))
    ensures Keep(WithoutLocks(w), dir, ListNames(c, {}, dir)) == ListNames(c, {}, dir)
  {
    var mine, theirs := ListNames(c, {}, dir), Keep(w, dir, ListNames(t, w.held, dir));
    ListedNames(c, {}, dir);
    ListedNames(t, w.held, dir);
    KeepFilters(w, dir, ListNames(t, w.held, dir));
    forall n ensures n in mine <==> n in theirs {
      assert CopiesAt(w, t, top, c, dir + [n]);
      OpenChild(w, top, dir, n);
    }
    assert Elements(mine) == Elements(theirs);
    SortedIsUnique(mine, theirs);
    KeepFilters(WithoutLocks(w), dir, mine);
    assert Elements(Keep(WithoutLocks(w), dir, mine)) == Elements(mine);
    SortedIsUnique(Keep(WithoutLocks(w), dir, mine), mine);
  }

  lemma OpenChild(w: Walk, top: Path, dir: Path, n: Name)
    requires Open(w, top, dir)
    ensures Open(w, top, dir + [n]) <==> dir + [n] !in w.held && RuleFor(w.family.id, dir + [n], w.options.ctx).None?
  {
    assert Parent(dir + [n]) == dir;
  }

  // ---------------------------------------------------------------- the walk of the copy

  /** An item as the copy shows it: owned by the copier, and a link with the mode of a new link. */
  function Renewed(h: Host, i: Item): (j: Item)
    ensures j.at == i.at && (j.Directory? <==> i.Directory?) && (j.Excluded? <==> i.Excluded?)
    ensures (i.Entry? ==> j.detail == i.detail)
  {
    match i
    case Directory(at, mode, _, names) => Item.Directory(at, mode, h.owner, names)
    case Entry(at, mode, _, detail) =>
      Item.Entry(at, if detail.LinkDetail? then Permissions(h.linkMode) else mode, h.owner, detail)
    case Excluded(_, _, _) => i
  }

  /** What a copy shows of these items: exclusions left out. */
  function Kept(h: Host, items: seq<Item>): seq<Item> {
    if items == [] then []
    else if items[0].Excluded? then Kept(h, items[1..])
    else [Renewed(h, items[0])] + Kept(h, items[1..])
  }

  lemma {:induction false} KeptHolds(h: Host, items: seq<Item>, i: Item)
    requires i in items && !i.Excluded?
    ensures Renewed(h, i) in Kept(h, items)
  {
    if i != items[0] { KeptHolds(h, items[1..], i); }
  }

  lemma {:induction false} KeptComesFrom(h: Host, items: seq<Item>, j: Item) returns (i: Item)
    requires j in Kept(h, items)
    ensures i in items && !i.Excluded? && j == Renewed(h, i)
  {
    if !items[0].Excluded? && j == Renewed(h, items[0]) {
      i := items[0];
    } else {
      i := KeptComesFrom(h, items[1..], j);
    }
  }

  lemma {:induction false} KeptConcat(h: Host, a: seq<Item>, b: seq<Item>)
    ensures Kept(h, a + b) == Kept(h, a) + Kept(h, b)
  {
    if a == [] {
      assert a + b == b;
    } else {
      assert (a + b)[0] == a[0] && (a + b)[1..] == a[1..] + b;
      KeptConcat(h, a[1..], b);
    }
  }

  predicate LinkAlike(w: Walk, t: Tree, c: Tree, p: Path)
    requires WellFormed(t) && WellFormed(c)
  {
    p in t && p in c && t[p].kind.Link? && c[p].kind.Link? ==>
        InspectLink(c, p, w.options.policy) == InspectLink(t, p, w.options.policy)
  }

  ghost predicate LinksAlike(w: Walk, t: Tree, top: Path, c: Tree)
    requires WellFormed(t) && WellFormed(c)
  {
    forall p {:trigger LinkAlike(w, t, c, p)} :: top <= p && Open(w, top, p) ==> LinkAlike(w, t, c, p)
  }

  lemma InspectAlike(w: Walk, t: Tree, top: Path, c: Tree, p: Path)
    requires WellFormed(t) && Copies(w, t, top, c) && LinksAlike(w, t, top, c)
    requires p in t && Open(w, top, p) && Clear(Inspect(w, t, p))
    ensures p in c && Inspect(WithoutLocks(w), c, p) == Report(Kept(w.host, Inspect(w, t, p).items), [], None)
    ensures Inspect(WithoutLocks(w), c, p).items == [Renewed(w.host, Inspect(w, t, p).items[0])]
  {
    ClearInspect(w, t, p);
    var own := Inspect(w, t, p).items;
    assert own == [own[0]] && own[1..] == [];
    assert CopiesAt(w, t, top, c, p) && LinkAlike(w, t, c, p);
    if t[p].kind.Directory? { CopyLists(w, t, top, c, p); }
  }

  lemma {:induction false} VisitAlike(w: Walk, t: Tree, top: Path, c: Tree, p: Path)
    requires WellFormed(t) && Copies(w, t, top, c) && LinksAlike(w, t, top, c)
    requires p in t && Open(w, top, p) && Clear(Visit(w, t, p))
    ensures Visit(WithoutLocks(w), c, p) == Report(Kept(w.host, Visit(w, t, p).items), [], None)
    decreases Beneath(t, p), 1, 0
  {
    ClearVisit(w, t, p);
    ClearInspect(w, t, p);
    InspectAlike(w, t, top, c, p);
    var own := Inspect(w, t, p);
    if t[p].kind.Directory? {
      var names := ListNames(t, w.held, p);
      CopyLists(w, t, top, c, p);
      ListedNames(t, w.held, p);
      NamesAlike(w, t, top, c, p, names);
      KeptConcat(w.host, own.items, VisitNames(w, t, p, names).items);
    }
  }

  lemma {:induction false} NamesAlike(w: Walk, t: Tree, top: Path, c: Tree, dir: Path, names: seq<Name>)
    requires WellFormed(t) && Copies(w, t, top, c) && LinksAlike(w, t, top, c)
    requires dir in t && dir in c && Open(w, top, dir)
    requires forall k :: 0 <= k < |names| ==> dir + [names[k]] in t && dir + [names[k]] !in w.held
    requires Clear(VisitNames(w, t, dir, names))
    ensures forall k :: 0 <= k < |Keep(w, dir, names)| ==> dir + [Keep(w, dir, names)[k]] in c
    ensures VisitNames(WithoutLocks(w), c, dir, Keep(w, dir, names))
        == Report(Kept(w.host, VisitNames(w, t, dir, names).items), [], None)
    decreases Beneath(t, dir), 0, |names|
  {
    if names != [] {
      var n := names[0];
      ChildIsSmaller(t, dir, n);
      ClearThen(VisitName(w, t, dir, n), VisitNames(w, t, dir, names[1..]));
      KeptConcat(w.host, VisitName(w, t, dir, n).items, VisitNames(w, t, dir, names[1..]).items);
      NamesAlike(w, t, top, c, dir, names[1..]);
      assert CopiesAt(w, t, top, c, dir + [n]);
      OpenChild(w, top, dir, n);
      if RuleFor(w.family.id, dir + [n], w.options.ctx).Some? {
        ClearVisit(w, t, dir + [n]);
        ClearInspect(w, t, dir + [n]);
        assert Kept(w.host, VisitName(w, t, dir, n).items) == [];
      } else {
        VisitAlike(w, t, top, c, dir + [n]);
        assert Keep(w, dir, names)[1..] == Keep(w, dir, names[1..]);
      }
    }
  }
}
