/** The bounded physical symlink resolver: a worklist loop that expands links in place, with a seen set,
    a hop limit and a boundary it never looks beyond. It is compared with a reference that resolves component by
    component: each link is resolved completely, in its own directory, before the next component. */
module SymlinkResolver {
  import opened FileTree

  const MAX_HOPS: nat := 64

  datatype WalkError = Escape | Dangling | CrossVolume | Cycle | Depth | AbsoluteLink | TargetType

  datatype WalkResult = Arrived(at: Path) | Refused(why: WalkError)

  /** The worklist as a function of its state. `dir` stays inside `boundary`. */
  function WalkFrom(t: Tree, boundary: Path, device: nat, dir: Path, seen: set<Path>, hops: nat,
                    pending: seq<string>): (r: WalkResult)
    requires hops <= MAX_HOPS && boundary <= dir
    ensures r.Arrived? ==> boundary <= r.at
    decreases MAX_HOPS - hops, |pending|
  {
    if pending == [] then Arrived(dir)
    else
      var part, rest := pending[0], pending[1..];
      if part == "." then WalkFrom(t, boundary, device, dir, seen, hops, rest)
      else if part == ".." then
        if dir == boundary then Refused(Escape)
        else WalkFrom(t, boundary, device, Parent(dir), seen, hops, rest)
      else
        var cursor := dir + [part];
        if cursor !in t then Refused(Dangling)
        else if t[cursor].device != device then Refused(CrossVolume)
        else if t[cursor].kind.Link? then
          var text := t[cursor].kind.text;
          if cursor in seen then Refused(Cycle)
          else if hops + 1 > MAX_HOPS then Refused(Depth)
          else if IsAbsolute(text) then Refused(AbsoluteLink)
          else WalkFrom(t, boundary, device, dir, seen + {cursor}, hops + 1, Split(text) + rest)
        else if rest != [] && !t[cursor].kind.Directory? then Refused(TargetType)
        else WalkFrom(t, boundary, device, cursor, seen, hops, rest)
  }

  /** The existing paths that the worklist looks at. */
  function Looked(t: Tree, boundary: Path, device: nat, dir: Path, seen: set<Path>, hops: nat,
                  pending: seq<string>): (met: set<Path>)
    requires hops <= MAX_HOPS && boundary <= dir
    ensures forall p :: p in met ==> boundary < p && p in t
    decreases MAX_HOPS - hops, |pending|
  {
    if pending == [] then {}
    else
      var part, rest := pending[0], pending[1..];
      if part == "." then Looked(t, boundary, device, dir, seen, hops, rest)
      else if part == ".." then
        if dir == boundary then {} else Looked(t, boundary, device, Parent(dir), seen, hops, rest)
      else
        var cursor := dir + [part];
        if cursor !in t then {}
        else if t[cursor].device != device then {cursor}
        else if t[cursor].kind.Link? then
          var text := t[cursor].kind.text;
          if cursor in seen || hops + 1 > MAX_HOPS || IsAbsolute(text) then {cursor}
          else {cursor} + Looked(t, boundary, device, dir, seen + {cursor}, hops + 1, Split(text) + rest)
        else if rest != [] && !t[cursor].kind.Directory? then {cursor}
        else {cursor} + Looked(t, boundary, device, cursor, seen, hops, rest)
  }

  /** What the loop starts with: the way down to the link's directory, then the link's own text. */
  function StartingParts(boundary: Path, file: Path, target: string): seq<string>
    requires boundary <= Parent(file)
  {
    Parent(file)[|boundary|..] + Split(target)
  }

  function WalkLink(t: Tree, boundary: Path, device: nat, file: Path, target: string): WalkResult
    requires boundary <= Parent(file)
  {
    WalkFrom(t, boundary, device, boundary, {file}, 0, StartingParts(boundary, file, target))
  }

  function LookedLink(t: Tree, boundary: Path, device: nat, file: Path, target: string): set<Path>
    requires boundary <= Parent(file)
  {
    Looked(t, boundary, device, boundary, {file}, 0, StartingParts(boundary, file, target))
  }

  /** The loop itself. It ends on every tree, cyclic ones included, everything it looked at (`observed`) lies strictly
      inside the boundary, and where it arrives lies inside the boundary with only real directories on the way. */
  method Walk(t: Tree, boundary: Path, device: nat, file: Path, target: string)
    returns (outcome: WalkResult, observed: map<Path, Node>)
    requires boundary <= Parent(file)
    ensures outcome == WalkLink(t, boundary, device, file, target)
    ensures observed.Keys == LookedLink(t, boundary, device, file, target)
    ensures forall p :: p in observed ==> boundary < p && p in t && observed[p] == t[p]
    ensures outcome.Arrived? && WellFormed(t) && IsDirectory(t, boundary) ==>
      boundary <= outcome.at && outcome.at in t && LinkFree(t, outcome.at)
  {
    if WellFormed(t) && IsDirectory(t, boundary) { WellFormedIsLinkFree(t, boundary); }
    observed := map[];
    var seen, hops, directory := {file}, 0, boundary;
    var pending := StartingParts(boundary, file, target);
    while pending != []
      invariant 0 <= hops <= MAX_HOPS && boundary <= directory
      invariant WalkLink(t, boundary, device, file, target)
             == WalkFrom(t, boundary, device, directory, seen, hops, pending)
      invariant LookedLink(t, boundary, device, file, target)
             == observed.Keys + Looked(t, boundary, device, directory, seen, hops, pending)
      invariant forall p :: p in observed ==> boundary < p && p in t && observed[p] == t[p]
      invariant WellFormed(t) && IsDirectory(t, boundary) ==> directory in t && LinkFree(t, directory)
      decreases MAX_HOPS - hops, |pending|
    {
      var part := pending[0];
      pending := pending[1..];
      if part == "." { continue; }
      if part == ".." {
        if directory == boundary { return Refused(Escape), observed; }
        assert WellFormed(t) && directory in t ==> Hangs(t, directory);
        directory := Parent(directory);
        if WellFormed(t) && directory in t { WellFormedIsLinkFree(t, directory); }
        continue;
      }
      var cursor := directory + [part];
      if cursor !in t { return Refused(Dangling), observed; }
      var st := t[cursor];
      observed := observed[cursor := st];
      if st.device != device { return Refused(CrossVolume), observed; }
      if st.kind.Link? {
        if cursor in seen { return Refused(Cycle), observed; }
        if hops + 1 > MAX_HOPS { return Refused(Depth), observed; }
        hops := hops + 1;
        seen := seen + {cursor};
        if IsAbsolute(st.kind.text) { return Refused(AbsoluteLink), observed; }
        pending := Split(st.kind.text) + pending;
        continue;
      }
      if pending != [] && !st.kind.Directory? { return Refused(TargetType), observed; }
      directory := cursor;
      if WellFormed(t) { WellFormedIsLinkFree(t, directory); }
    }
    outcome := Arrived(directory);
  }

  // ---------------------------------------------------------------- the reference

  /** What a physical resolution does on its way: climb from a directory, or look a path up. */
  datatype Step = Up(from: Path) | Look(at: Path)

  datatype Physical = Reached(at: Path, trail: seq<Step>) | NoTarget | Unfinished

  function Prepend(trail: seq<Step>, r: Physical): Physical {
    match r
    case Reached(at, later) => Reached(at, trail + later)
    case NoTarget => NoTarget
    case Unfinished => Unfinished
  }

  /** Resolution with no boundary, hop limit, volume or seen set. A link's text is resolved to the
      end, in the directory that holds the link, before the component after it. `nesting` bounds how deep
      links may lie inside links; results at different bounds agree (MoreNestingAgrees). */
  function Resolve(t: Tree, dir: Path, parts: seq<string>, nesting: nat): Physical
    decreases nesting, |parts|
  {
    if parts == [] then Reached(dir, [])
    else if !IsDirectory(t, dir) then NoTarget
    else
      var part, rest := parts[0], parts[1..];
      var cursor := dir + [part];
      if part == "." then Resolve(t, dir, rest, nesting)
      else if part == ".." then Prepend([Up(dir)], Resolve(t, Parent(dir), rest, nesting))
      else if cursor !in t then NoTarget
      else if t[cursor].kind.Link? then
        var text := t[cursor].kind.text;
        if nesting == 0 then Unfinished
        else
          var inner := Resolve(t, if IsAbsolute(text) then [] else dir, Split(text), nesting - 1);
          if inner.Reached?
          then Prepend([Look(cursor)] + inner.trail, Resolve(t, inner.at, rest, nesting))
          else inner
      else Prepend([Look(cursor)], Resolve(t, cursor, rest, nesting))
  }

  lemma {:induction false} MoreNestingAgrees(t: Tree, dir: Path, parts: seq<string>, low: nat, high: nat)
    requires low <= high && !Resolve(t, dir, parts, low).Unfinished?
    ensures Resolve(t, dir, parts, high) == Resolve(t, dir, parts, low)
    decreases low, |parts|
  {
    if parts != [] && IsDirectory(t, dir) {
      var part, rest := parts[0], parts[1..];
      var cursor := dir + [part];
      if part == "." {
        MoreNestingAgrees(t, dir, rest, low, high);
      } else if part == ".." {
        MoreNestingAgrees(t, Parent(dir), rest, low, high);
      } else if cursor in t && t[cursor].kind.Link? {
        var text := t[cursor].kind.text;
        var from := if IsAbsolute(text) then [] else dir;
        MoreNestingAgrees(t, from, Split(text), low - 1, high - 1);
        var inner := Resolve(t, from, Split(text), low - 1);
        if inner.Reached? { MoreNestingAgrees(t, inner.at, rest, low, high); }
      } else if cursor in t {
        MoreNestingAgrees(t, cursor, rest, low, high);
      }
    }
  }

  /** Resolving a + b is resolving a, then b from where a ended. */
  lemma {:induction false} ResolveConcat(t: Tree, dir: Path, a: seq<string>, b: seq<string>, nesting: nat)
    ensures Resolve(t, dir, a + b, nesting) ==
            var first := Resolve(t, dir, a, nesting);
            if first.Reached? then Prepend(first.trail, Resolve(t, first.at, b, nesting)) else first
    decreases |a|
  {
    if a == [] {
      assert a + b == b;
      assert Resolve(t, dir, b, nesting).Reached? ==>
        [] + Resolve(t, dir, b, nesting).trail == Resolve(t, dir, b, nesting).trail;
    } else if IsDirectory(t, dir) {
      var part, rest := a[0], a[1..];
      assert (a + b)[0] == part && (a + b)[1..] == rest + b;
      var cursor := dir + [part];
      if part == "." {
        ResolveConcat(t, dir, rest, b, nesting);
      } else if part == ".." {
        ResolveConcat(t, Parent(dir), rest, b, nesting);
        PrependTwice([Up(dir)], Resolve(t, Parent(dir), rest, nesting), t, b, nesting);
      } else if cursor in t && t[cursor].kind.Link? {
        if nesting > 0 {
          var text := t[cursor].kind.text;
          var inner := Resolve(t, if IsAbsolute(text) then [] else dir, Split(text), nesting - 1);
          if inner.Reached? {
            ResolveConcat(t, inner.at, rest, b, nesting);
            PrependTwice([Look(cursor)] + inner.trail, Resolve(t, inner.at, rest, nesting), t, b, nesting);
          }
        }
      } else if cursor in t {
        ResolveConcat(t, cursor, rest, b, nesting);
        PrependTwice([Look(cursor)], Resolve(t, cursor, rest, nesting), t, b, nesting);
      }
    }
  }

  lemma PrependTwice(first: seq<Step>, middle: Physical, t: Tree, b: seq<string>, nesting: nat)
    ensures middle.Reached? ==>
      Prepend(first, Prepend(middle.trail, Resolve(t, middle.at, b, nesting)))
      == Prepend(first + middle.trail, Resolve(t, middle.at, b, nesting))
  {
    if middle.Reached? {
      var last := Resolve(t, middle.at, b, nesting);
      if last.Reached? { assert first + (middle.trail + last.trail) == (first + middle.trail) + last.trail; }
    }
  }

  // ---------------------------------------------------------------- the loop against the reference

  datatype Scan = Clear(seen: set<Path>, hops: nat) | Fault(why: WalkError)

  /** The first thing on a physical trail that the bounded resolver objects to, if any. */
  function ScanTrail(t: Tree, boundary: Path, device: nat, seen: set<Path>, hops: nat, trail: seq<Step>): Scan
    decreases |trail|
  {
    if trail == [] then Clear(seen, hops)
    else
      match trail[0]
      case Up(from) =>
        if from == boundary then Fault(Escape) else ScanTrail(t, boundary, device, seen, hops, trail[1..])
      case Look(at) =>
        if at !in t then Fault(Dangling)
        else if t[at].device != device then Fault(CrossVolume)
        else if !t[at].kind.Link? then ScanTrail(t, boundary, device, seen, hops, trail[1..])
        else if at in seen then Fault(Cycle)
        else if hops + 1 > MAX_HOPS then Fault(Depth)
        else if IsAbsolute(t[at].kind.text) then Fault(AbsoluteLink)
        else ScanTrail(t, boundary, device, seen + {at}, hops + 1, trail[1..])
  }

  lemma {:induction false} ScanConcat(t: Tree, boundary: Path, device: nat, seen: set<Path>, hops: nat,
                                      a: seq<Step>, b: seq<Step>)
    ensures ScanTrail(t, boundary, device, seen, hops, a + b) ==
            var first := ScanTrail(t, boundary, device, seen, hops, a);
            if first.Clear? then ScanTrail(t, boundary, device, first.seen, first.hops, b) else first
    decreases |a|
  {
    if a == [] {
      assert a + b == b;
    } else {
      assert (a + b)[0] == a[0] && (a + b)[1..] == a[1..] + b;
      ScanConcat(t, boundary, device, seen, hops, a[1..], b);
      if a[0].Look? { ScanConcat(t, boundary, device, seen + {a[0].at}, hops + 1, a[1..], b); }
    }
  }

  lemma {:induction false} ScanBounds(t: Tree, boundary: Path, device: nat, seen: set<Path>, hops: nat,
                                      trail: seq<Step>)
    requires hops <= MAX_HOPS
    ensures var s := ScanTrail(t, boundary, device, seen, hops, trail);
            s.Clear? ==> hops <= s.hops <= MAX_HOPS && seen <= s.seen
    decreases |trail|
  {
    if trail != [] {
      ScanBounds(t, boundary, device, seen, hops, trail[1..]);
      if trail[0].Look? && hops < MAX_HOPS {
        ScanBounds(t, boundary, device, seen + {trail[0].at}, hops + 1, trail[1..]);
      }
    }
  }

  /** Running the worklist over `parts` has the effect the physical trail of `parts` predicts. */
  lemma {:induction false} TrailDecides(t: Tree, boundary: Path, device: nat, dir: Path, seen: set<Path>, hops: nat,
                                        parts: seq<string>, rest: seq<string>, nesting: nat)
    requires hops <= MAX_HOPS && boundary <= dir
    requires Resolve(t, dir, parts, nesting).Reached?
    requires rest == [] || IsDirectory(t, Resolve(t, dir, parts, nesting).at)
    ensures var end := Resolve(t, dir, parts, nesting);
            var scan := ScanTrail(t, boundary, device, seen, hops, end.trail);
            match scan
            case Fault(why) => WalkFrom(t, boundary, device, dir, seen, hops, parts + rest) == Refused(why)
            case Clear(seen', hops') =>
              && hops' <= MAX_HOPS && boundary <= end.at
              && WalkFrom(t, boundary, device, dir, seen, hops, parts + rest)
                 == WalkFrom(t, boundary, device, end.at, seen', hops', rest)
    decreases nesting, |parts|
  {
    ScanBounds(t, boundary, device, seen, hops, Resolve(t, dir, parts, nesting).trail);
    if parts == [] {
      assert parts + rest == rest;
    } else {
      var part, more := parts[0], parts[1..];
      assert (parts + rest)[0] == part && (parts + rest)[1..] == more + rest;
      var cursor := dir + [part];
      if part == "." {
        TrailDecides(t, boundary, device, dir, seen, hops, more, rest, nesting);
      } else if part == ".." {
        ScanConcat(t, boundary, device, seen, hops, [Up(dir)], Resolve(t, Parent(dir), more, nesting).trail);
        if dir != boundary {
          TrailDecides(t, boundary, device, Parent(dir), seen, hops, more, rest, nesting);
        }
      } else if t[cursor].kind.Link? {
        TrailDecidesLink(t, boundary, device, dir, seen, hops, parts, rest, nesting);
      } else {
        ScanConcat(t, boundary, device, seen, hops, [Look(cursor)], Resolve(t, cursor, more, nesting).trail);
        if t[cursor].device == device {
          TrailDecides(t, boundary, device, cursor, seen, hops, more, rest, nesting);
        }
      }
    }
  }

  /** The link case: the worklist splices the link's text in front of what is left. */
  lemma {:induction false} TrailDecidesLink(t: Tree, boundary: Path, device: nat, dir: Path, seen: set<Path>, hops: nat,
                                            parts: seq<string>, rest: seq<string>, nesting: nat)
    requires hops <= MAX_HOPS && boundary <= dir && parts != []
    requires Resolve(t, dir, parts, nesting).Reached?
    requires rest == [] || IsDirectory(t, Resolve(t, dir, parts, nesting).at)
    requires parts[0] != "." && parts[0] != ".." && dir + [parts[0]] in t && t[dir + [parts[0]]].kind.Link?
    ensures var end := Resolve(t, dir, parts, nesting);
            var scan := ScanTrail(t, boundary, device, seen, hops, end.trail);
            match scan
            case Fault(why) => WalkFrom(t, boundary, device, dir, seen, hops, parts + rest) == Refused(why)
            case Clear(seen', hops') =>
              && hops' <= MAX_HOPS && boundary <= end.at
              && WalkFrom(t, boundary, device, dir, seen, hops, parts + rest)
                 == WalkFrom(t, boundary, device, end.at, seen', hops', rest)
    decreases nesting, |parts|, 0
  {
    var more, cursor := parts[1..], dir + [parts[0]];
    assert (parts + rest)[0] == parts[0] && (parts + rest)[1..] == more + rest;
    var text := t[cursor].kind.text;
    var inner := Resolve(t, if IsAbsolute(text) then [] else dir, Split(text), nesting - 1);
    var later := Resolve(t, inner.at, more, nesting);
    assert [Look(cursor)] + inner.trail + later.trail == [Look(cursor)] + (inner.trail + later.trail);
    ScanConcat(t, boundary, device, seen, hops, [Look(cursor)], inner.trail + later.trail);
    assert ScanTrail(t, boundary, device, seen, hops, [Look(cursor)]) ==
      if t[cursor].device != device then Fault(CrossVolume)
      else if cursor in seen then Fault(Cycle)
      else if hops + 1 > MAX_HOPS then Fault(Depth)
      else if IsAbsolute(text) then Fault(AbsoluteLink)
      else Clear(seen + {cursor}, hops + 1);
    if t[cursor].device == device && cursor !in seen && hops < MAX_HOPS && !IsAbsolute(text) {
      ScanConcat(t, boundary, device, seen + {cursor}, hops + 1, inner.trail, later.trail);
      ReachedDirectory(t, inner.at, more, nesting);
      TrailDecides(t, boundary, device, dir, seen + {cursor}, hops + 1, Split(text), more + rest, nesting - 1);
      var mid := ScanTrail(t, boundary, device, seen + {cursor}, hops + 1, inner.trail);
      if mid.Clear? {
        TrailDecides(t, boundary, device, inner.at, mid.seen, mid.hops, more, rest, nesting);
      }
    }
  }

  /** Only a directory can be left through a further component. */
  lemma ReachedDirectory(t: Tree, dir: Path, parts: seq<string>, nesting: nat)
    requires Resolve(t, dir, parts, nesting).Reached?
    ensures parts != [] ==> IsDirectory(t, dir)
    ensures parts == [] ==> Resolve(t, dir, parts, nesting).at == dir
  {
  }

  /** Resolving a link's text spliced before the rest is resolving the link one level deeper, then the rest. */
  lemma SpliceIsNested(t: Tree, boundary: Path, device: nat, dir: Path, seen: set<Path>, hops: nat,
                       pending: seq<string>, below: nat)
    requires pending != [] && IsDirectory(t, dir) && pending[0] != "." && pending[0] != ".." && hops < MAX_HOPS
    requires dir + [pending[0]] in t && t[dir + [pending[0]]].kind.Link? && t[dir + [pending[0]]].device == device
    requires dir + [pending[0]] !in seen && !IsAbsolute(t[dir + [pending[0]]].kind.text)
    requires Resolve(t, dir, Split(t[dir + [pending[0]]].kind.text) + pending[1..], below).Reached?
    ensures var cursor := dir + [pending[0]];
            var spliced := Resolve(t, dir, Split(t[cursor].kind.text) + pending[1..], below);
            && Resolve(t, dir, pending, below + 1) == Reached(spliced.at, [Look(cursor)] + spliced.trail)
            && ScanTrail(t, boundary, device, seen, hops, [Look(cursor)] + spliced.trail)
               == ScanTrail(t, boundary, device, seen + {cursor}, hops + 1, spliced.trail)
  {
    var cursor, rest := dir + [pending[0]], pending[1..];
    var text := t[cursor].kind.text;
    ResolveConcat(t, dir, Split(text), rest, below);
    var inner := Resolve(t, dir, Split(text), below);
    MoreNestingAgrees(t, inner.at, rest, below, below + 1);
    var later := Resolve(t, inner.at, rest, below);
    assert [Look(cursor)] + inner.trail + later.trail == [Look(cursor)] + (inner.trail + later.trail);
  }

  lemma ParentOfDirectory(t: Tree, dir: Path)
    requires WellFormed(t) && dir in t
    ensures IsDirectory(t, Parent(dir))
  {
    assert Hangs(t, dir);
  }

  lemma ClimbIsPhysical(t: Tree, boundary: Path, device: nat, dir: Path, seen: set<Path>, hops: nat,
                        pending: seq<string>, nesting: nat)
    requires hops <= MAX_HOPS && boundary < dir && IsDirectory(t, dir) && pending != [] && pending[0] == ".."
    requires PhysicalArrival(t, boundary, device, Parent(dir), seen, hops, pending[1..], nesting)
    ensures PhysicalArrival(t, boundary, device, dir, seen, hops, pending, nesting)
  {
    var later := Resolve(t, Parent(dir), pending[1..], nesting);
    assert ([Up(dir)] + later.trail)[1..] == later.trail;
  }

  lemma DescentIsPhysical(t: Tree, boundary: Path, device: nat, dir: Path, seen: set<Path>, hops: nat,
                          pending: seq<string>, nesting: nat)
    requires hops <= MAX_HOPS && boundary <= dir && IsDirectory(t, dir) && pending != []
    requires pending[0] != "." && pending[0] != ".." && dir + [pending[0]] in t
    requires !t[dir + [pending[0]]].kind.Link? && t[dir + [pending[0]]].device == device
    requires pending[1..] == [] || IsDirectory(t, dir + [pending[0]])
    requires PhysicalArrival(t, boundary, device, dir + [pending[0]], seen, hops, pending[1..], nesting)
    ensures PhysicalArrival(t, boundary, device, dir, seen, hops, pending, nesting)
  {
    var later := Resolve(t, dir + [pending[0]], pending[1..], nesting);
    assert ([Look(dir + [pending[0]])] + later.trail)[1..] == later.trail;
  }

  lemma ExpansionIsPhysical(t: Tree, boundary: Path, device: nat, dir: Path, seen: set<Path>, hops: nat,
                            pending: seq<string>, below: nat)
    requires boundary <= dir && IsDirectory(t, dir) && pending != [] && hops < MAX_HOPS
    requires pending[0] != "." && pending[0] != ".." && dir + [pending[0]] in t
    requires t[dir + [pending[0]]].kind.Link? && t[dir + [pending[0]]].device == device
    requires dir + [pending[0]] !in seen && !IsAbsolute(t[dir + [pending[0]]].kind.text)
    requires PhysicalArrival(t, boundary, device, dir, seen + {dir + [pending[0]]}, hops + 1,
                             Split(t[dir + [pending[0]]].kind.text) + pending[1..], below)
    ensures PhysicalArrival(t, boundary, device, dir, seen, hops, pending, below + 1)
  {
    SpliceIsNested(t, boundary, device, dir, seen, hops, pending, below);
  }

  /** Every success of the worklist is a physical resolution with a clear trail. */
  lemma {:induction false} ArrivalIsPhysical(t: Tree, boundary: Path, device: nat, dir: Path, seen: set<Path>,
                                             hops: nat,
                                             pending: seq<string>) returns (nesting: nat)
    requires WellFormed(t) && hops <= MAX_HOPS && boundary <= dir
    requires pending == [] || IsDirectory(t, dir)
    requires WalkFrom(t, boundary, device, dir, seen, hops, pending).Arrived?
    ensures PhysicalArrival(t, boundary, device, dir, seen, hops, pending, nesting)
    decreases MAX_HOPS - hops, |pending|
  {
    if pending == [] {
      nesting := 0;
    } else {
      var part, rest := pending[0], pending[1..];
      var cursor := dir + [part];
      if part == "." {
        nesting := ArrivalIsPhysical(t, boundary, device, dir, seen, hops, rest);
      } else if part == ".." {
        ParentOfDirectory(t, dir);
        nesting := ArrivalIsPhysical(t, boundary, device, Parent(dir), seen, hops, rest);
        ClimbIsPhysical(t, boundary, device, dir, seen, hops, pending, nesting);
      } else if t[cursor].kind.Link? {
        var below := ArrivalIsPhysical(t, boundary, device, dir, seen + {cursor}, hops + 1, Split(t[cursor].kind.text)
            + rest);
        ExpansionIsPhysical(t, boundary, device, dir, seen, hops, pending, below);
        nesting := below + 1;
      } else {
        nesting := ArrivalIsPhysical(t, boundary, device, cursor, seen, hops, rest);
        DescentIsPhysical(t, boundary, device, dir, seen, hops, pending, nesting);
      }
    }
  }

  ghost predicate PhysicalArrival(t: Tree, boundary: Path, device: nat, dir: Path, seen: set<Path>, hops: nat,
                                  pending: seq<string>, nesting: nat)
    requires hops <= MAX_HOPS && boundary <= dir
  {
    var end := Resolve(t, dir, pending, nesting);
    && end.Reached?
    && WalkFrom(t, boundary, device, dir, seen, hops, pending) == Arrived(end.at)
    && ScanTrail(t, boundary, device, seen, hops, end.trail).Clear?
  }

  // ---------------------------------------------------------------- what the resolver's answer means

  function LinkCount(t: Tree, trail: seq<Step>): nat
    decreases |trail|
  {
    if trail == [] then 0
    else LinkCount(t, trail[1..]) + if trail[0].Look? && trail[0].at in t && t[trail[0].at].kind.Link? then 1 else 0
  }

  predicate ExpandsLink(t: Tree, step: Step) {
    step.Look? && step.at in t && t[step.at].kind.Link?
  }

  /** A trail the resolver admits: it never climbs from the boundary, stays on one volume, and expands at
      most 64 links, all relative, none twice and none already seen. */
  ghost predicate Tame(t: Tree, boundary: Path, device: nat, seen: set<Path>, hops: nat, trail: seq<Step>) {
    && hops + LinkCount(t, trail) <= 64
    && (forall i :: 0 <= i < |trail| && trail[i].Up? ==> trail[i].from != boundary)
    && (forall i :: 0 <= i < |trail| && trail[i].Look? ==> trail[i].at in t && t[trail[i].at].device == device)
    && (forall i :: 0 <= i < |trail| && ExpandsLink(t, trail[i]) ==>
          trail[i].at !in seen && !IsAbsolute(t[trail[i].at].kind.text))
    && (forall i, j :: 0 <= i < j < |trail| && ExpandsLink(t, trail[i]) && ExpandsLink(t, trail[j]) ==>
          trail[i].at != trail[j].at)
  }

  lemma TameNoLink(t: Tree, boundary: Path, device: nat, seen: set<Path>, hops: nat, head: Step, tail: seq<Step>)
    requires !ExpandsLink(t, head)
    ensures Tame(t, boundary, device, seen, hops, [head] + tail) <==>
            && (head.Up? ==> head.from != boundary) && (head.Look? ==> head.at in t && t[head.at].device == device)
            && Tame(t, boundary, device, seen, hops, tail)
  {
    var trail := [head] + tail;
    assert trail[1..] == tail;
    if Tame(t, boundary, device, seen, hops, tail) { assert forall i :: 0 < i < |trail| ==> trail[i] == tail[i - 1]; }
    if Tame(t, boundary, device, seen, hops, trail) { assert forall i :: 0 <= i < |tail| ==> tail[i] == trail[i + 1]; }
  }

  lemma TameLink(t: Tree, boundary: Path, device: nat, seen: set<Path>, hops: nat, head: Step, tail: seq<Step>)
    requires ExpandsLink(t, head)
    ensures Tame(t, boundary, device, seen, hops, [head] + tail) <==>
            && t[head.at].device == device && head.at !in seen && !IsAbsolute(t[head.at].kind.text)
            && Tame(t, boundary, device, seen + {head.at}, hops + 1, tail)
  {
    hide IsAbsolute;
    var trail := [head] + tail;
    assert trail[1..] == tail;
    if Tame(t, boundary, device, seen + {head.at}, hops + 1, tail) {
      assert forall i :: 0 < i < |trail| ==> trail[i] == tail[i - 1];
    }
    if Tame(t, boundary, device, seen, hops, trail) { assert forall i :: 0 <= i < |tail| ==> tail[i] == trail[i + 1]; }
  }

  lemma TameIsShort(t: Tree, boundary: Path, device: nat, seen: set<Path>, hops: nat, trail: seq<Step>)
    requires Tame(t, boundary, device, seen, hops, trail)
    ensures hops <= MAX_HOPS
  {
  }

  lemma {:induction false} ClearMeansTame(t: Tree, boundary: Path, device: nat, seen: set<Path>, hops: nat,
                                          trail: seq<Step>)
    requires hops <= MAX_HOPS
    ensures ScanTrail(t, boundary, device, seen, hops, trail).Clear? <==> Tame(t, boundary, device, seen, hops, trail)
    decreases |trail|
  {
    if trail != [] {
      hide Tame, IsAbsolute;
      var head, tail := trail[0], trail[1..];
      assert trail == [head] + tail;
      if ExpandsLink(t, head) {
        TameLink(t, boundary, device, seen, hops, head, tail);
        if Tame(t, boundary, device, seen + {head.at}, hops + 1, tail) {
          TameIsShort(t, boundary, device, seen + {head.at}, hops + 1, tail);
        }
        if hops < MAX_HOPS { ClearMeansTame(t, boundary, device, seen + {head.at}, hops + 1, tail); }
      } else {
        TameNoLink(t, boundary, device, seen, hops, head, tail);
        ClearMeansTame(t, boundary, device, seen, hops, tail);
      }
    }
  }

  /** Walking down real directories looks each one up and arrives. */
  lemma {:induction false} DescendReal(t: Tree, from: Path, to: Path, nesting: nat)
    requires WellFormed(t) && IsDirectory(t, to) && from <= to
    ensures var r := Resolve(t, from, to[|from|..], nesting);
            r.Reached? && r.at == to && forall i :: 0 <= i < |r.trail| ==>
                r.trail[i].Look? && IsDirectory(t, r.trail[i].at)
    decreases |to| - |from|
  {
    AncestorsAreDirectories(t, to, from);
    if from != to {
      var next := to[..|from| + 1];
      AncestorsAreDirectories(t, to, next);
      assert Hangs(t, next);
      assert next == from + [to[|from|..][0]] && to[|from|..][1..] == to[|next|..];
      DescendReal(t, next, to, nesting);
    }
  }

  /** Resolution of the link that lies at `file`, starting in its own directory. */
  function ResolveLink(t: Tree, file: Path, target: string, nesting: nat): Physical {
    Resolve(t, Parent(file), Split(target), nesting)
  }

  /** The resolver's start, below the boundary, is the start in the link's directory. */
  lemma StartIsLinkDirectory(t: Tree, boundary: Path, file: Path, target: string, nesting: nat)
    requires WellFormed(t) && file in t && file != [] && boundary <= Parent(file)
    ensures var whole := Resolve(t, boundary, StartingParts(boundary, file, target), nesting);
            var own := ResolveLink(t, file, target, nesting);
            && (whole.Reached? <==> own.Reached?)
            && (whole.Reached? ==> whole.at == own.at)
  {
    assert Hangs(t, file);
    DescendReal(t, boundary, Parent(file), nesting);
    ResolveConcat(t, boundary, Parent(file)[|boundary|..], Split(target), nesting);
  }

  /** REFINEMENT. The resolver arrives exactly when the reference reaches that same path along an admitted trail; and
      whenever the reference reaches a path, the resolver's verdict is the first objection on the trail. */
  lemma ResolverIsExact(t: Tree, boundary: Path, device: nat, file: Path, target: string)
    requires WellFormed(t) && IsDirectory(t, boundary) && file in t && file != [] && boundary <= Parent(file)
    ensures var parts := StartingParts(boundary, file, target);
            var verdict := WalkLink(t, boundary, device, file, target);
            && (verdict.Arrived? <==>
                  exists n :: Resolve(t, boundary, parts, n).Reached? &&
                              Tame(t, boundary, device, {file}, 0, Resolve(t, boundary, parts, n).trail))
            && forall n :: Resolve(t, boundary, parts, n).Reached? ==>
                 verdict == match ScanTrail(t, boundary, device, {file}, 0, Resolve(t, boundary, parts, n).trail)
                            case Clear(_, _) => Arrived(Resolve(t, boundary, parts, n).at)
                            case Fault(why) => Refused(why)
  {
    var parts := StartingParts(boundary, file, target);
    forall n | Resolve(t, boundary, parts, n).Reached?
      ensures WalkLink(t, boundary, device, file, target) ==
              match ScanTrail(t, boundary, device, {file}, 0, Resolve(t, boundary, parts, n).trail)
              case Clear(_, _) => Arrived(Resolve(t, boundary, parts, n).at)
              case Fault(why) => Refused(why)
      ensures Tame(t, boundary, device, {file}, 0, Resolve(t, boundary, parts, n).trail) ==>
              WalkLink(t, boundary, device, file, target).Arrived?
    {
      TrailDecides(t, boundary, device, boundary, {file}, 0, parts, [], n);
      assert parts + [] == parts;
      ClearMeansTame(t, boundary, device, {file}, 0, Resolve(t, boundary, parts, n).trail);
    }
    if WalkLink(t, boundary, device, file, target).Arrived? {
      var n := ArrivalIsPhysical(t, boundary, device, boundary, {file}, 0, parts);
      var end := Resolve(t, boundary, parts, n);
      ClearMeansTame(t, boundary, device, {file}, 0, end.trail);
      assert Resolve(t, boundary, parts, n).Reached? && Tame(t, boundary, device, {file}, 0, end.trail);
    }
  }

  /** The way to the target from the boundary is one the resolver admits. */
  ghost predicate AdmittedWay(t: Tree, boundary: Path, device: nat, file: Path, target: string, n: nat)
    requires boundary <= Parent(file)
  {
    var r := Resolve(t, boundary, StartingParts(boundary, file, target), n);
    r.Reached? && Tame(t, boundary, device, {file}, 0, r.trail)
  }

  /** Each verdict, from the link's own directory: an arrival is where resolution arrives; a dangling or mistyped
      link has no target at all; an escape means any target is reached by climbing out of the boundary; a cycle or
      excessive depth, that its trail is not admitted. */
  lemma ComponentMeaning(t: Tree, boundary: Path, device: nat, file: Path, target: string)
    requires WellFormed(t) && IsDirectory(t, boundary) && file in t && file != [] && boundary <= Parent(file)
    ensures match WalkLink(t, boundary, device, file, target)
            case Arrived(at) =>
              exists n :: ResolveLink(t, file, target, n).Reached? && ResolveLink(t, file, target, n).at == at
            case Refused(why) =>
              && (why.Dangling? || why.TargetType? ==> forall n :: !ResolveLink(t, file, target, n).Reached?)
              && (why.Escape? ==> forall n :: ResolveLink(t, file, target, n).Reached? ==>
                    Up(boundary) in ResolveLink(t, file, target, n).trail)
              && (forall n :: ResolveLink(t, file, target, n).Reached? ==>
                  !AdmittedWay(t, boundary, device, file, target, n))
  {
    ResolverIsExact(t, boundary, device, file, target);
    var verdict := WalkLink(t, boundary, device, file, target);
    var parts := StartingParts(boundary, file, target);
    if verdict.Arrived? {
      var n :| Resolve(t, boundary, parts, n).Reached? &&
               Tame(t, boundary, device, {file}, 0, Resolve(t, boundary, parts, n).trail);
      StartIsLinkDirectory(t, boundary, file, target, n);
      ClearMeansTame(t, boundary, device, {file}, 0, Resolve(t, boundary, parts, n).trail);
    } else {
      forall n | ResolveLink(t, file, target, n).Reached?
        ensures !verdict.why.Dangling? && !verdict.why.TargetType?
        ensures verdict.why.Escape? ==> Up(boundary) in ResolveLink(t, file, target, n).trail
        ensures !AdmittedWay(t, boundary, device, file, target, n)
      {
        StartIsLinkDirectory(t, boundary, file, target, n);
        FaultsAreOnTrail(t, boundary, device, {file}, 0, boundary, parts, n);
        assert Hangs(t, file);
        DescendReal(t, boundary, Parent(file), n);
        ResolveConcat(t, boundary, Parent(file)[|boundary|..], Split(target), n);
      }
    }
  }

  /** Every path on a physical trail exists, so its first objection is never a missing or mistyped path; an
      escape objection is a climb from the boundary. */
  lemma {:induction false} FaultsAreOnTrail(t: Tree, boundary: Path, device: nat, seen: set<Path>, hops: nat,
                                            dir: Path, parts: seq<string>, nesting: nat)
    requires Resolve(t, dir, parts, nesting).Reached?
    ensures var trail := Resolve(t, dir, parts, nesting).trail;
            match ScanTrail(t, boundary, device, seen, hops, trail)
            case Clear(_, _) => true
            case Fault(why) => !why.Dangling? && !why.TargetType? && (why.Escape? ==> Up(boundary) in trail)
  {
    LooksExist(t, dir, parts, nesting);
    FirstFault(t, boundary, device, seen, hops, Resolve(t, dir, parts, nesting).trail);
  }

  lemma {:induction false} LooksExist(t: Tree, dir: Path, parts: seq<string>, nesting: nat)
    requires Resolve(t, dir, parts, nesting).Reached?
    ensures forall s :: s in Resolve(t, dir, parts, nesting).trail && s.Look? ==> s.at in t
    decreases nesting, |parts|
  {
    if parts != [] {
      var part, rest := parts[0], parts[1..];
      var cursor := dir + [part];
      if part == "." {
        LooksExist(t, dir, rest, nesting);
      } else if part == ".." {
        LooksExist(t, Parent(dir), rest, nesting);
      } else if t[cursor].kind.Link? {
        var text := t[cursor].kind.text;
        var from := if IsAbsolute(text) then [] else dir;
        LooksExist(t, from, Split(text), nesting - 1);
        LooksExist(t, Resolve(t, from, Split(text), nesting - 1).at, rest, nesting);
      } else {
        LooksExist(t, cursor, rest, nesting);
      }
    }
  }

  lemma {:induction false} FirstFault(t: Tree, boundary: Path, device: nat, seen: set<Path>, hops: nat,
                                      trail: seq<Step>)
    requires forall s :: s in trail && s.Look? ==> s.at in t
    ensures match ScanTrail(t, boundary, device, seen, hops, trail)
            case Clear(_, _) => true
            case Fault(why) => !why.Dangling? && !why.TargetType? && (why.Escape? ==> Up(boundary) in trail)
    decreases |trail|
  {
    if trail != [] {
      FirstFault(t, boundary, device, seen, hops, trail[1..]);
      if trail[0].Look? {
        assert trail[0] in trail;
        FirstFault(t, boundary, device, seen + {trail[0].at}, hops + 1, trail[1..]);
      }
    }
  }
}
