/** The rules the inspection reads off names, modes and paths, spelled out: what is left out, what is sealed payload,
    what is authority, which names are safe, and which temporaries are abandoned. */
module PlainRules {
  import opened FileTree
  import opened LinkInspection
  import opened Exclusions
  import opened AtomicNames
  import W = CoverageWalk
  import Coverage

  // ---------------------------------------------------------------- paths

  /** The subtree is left out by this rule. */
  ghost predicate LeftOutBy(family: string, p: Path, ctx: Context, r: RuleId) {
    match r
    case PnpmStore => ctx.owner && family == "compatibility" && p == ["compat-home", "Library", "pnpm"]
    case NpmCache => ctx.owner && family == "compatibility" && p == ["compat-home", ".npm"]
    case LibraryCaches => ctx.owner && family == "compatibility" && p == ["compat-home", "Library", "Caches"]
    case CheckpointNodeModules =>
      ctx.owner && family == "checkpoints" && exists id, way :: NodeModules(p, id, way)
    case SupersededRelease =>
      ctx.currentOnly && family == "runtime" && exists id :: Release(p, id) && id !in ctx.retained
  }

  ghost predicate NodeModules(p: Path, id: Name, way: Path) {
    p == ["checkpoints", id, "untracked"] + way + ["node_modules"]
  }

  ghost predicate Release(p: Path, id: Name) {
    p == ["runtime", "releases", id]
  }

  ghost predicate LeftOut(family: string, p: Path, ctx: Context) {
    exists r :: LeftOutBy(family, p, ctx, r)
  }

  lemma RuleIs(family: string, p: Path, ctx: Context, r: RuleId)
    ensures RuleFor(family, p, ctx) == Some(r) <==> LeftOutBy(family, p, ctx, r)
  {
    if family == "checkpoints" { NodeModulesIs(p); }
    if |p| == 3 && p[0] == "runtime" && p[1] == "releases" { assert Release(p, p[2]); }
  }

  lemma NodeModulesIs(p: Path)
    ensures (exists id, way :: NodeModules(p, id, way)) <==>
            |p| >= 4 && p[0] == "checkpoints" && p[2] == "untracked" && Last(p) == "node_modules"
  {
    if |p| >= 4 && p[0] == "checkpoints" && p[2] == "untracked" && Last(p) == "node_modules" {
      assert p == p[..3] + p[3..|p| - 1] + [Last(p)] && p[..3] == ["checkpoints", p[1], "untracked"];
      assert NodeModules(p, p[1], p[3..|p| - 1]);
    }
  }

  lemma LeftOutIs(family: string, p: Path, ctx: Context)
    ensures RuleFor(family, p, ctx).Some? <==> LeftOut(family, p, ctx)
  {
    hide RuleFor;
    forall r ensures RuleFor(family, p, ctx) == Some(r) <==> LeftOutBy(family, p, ctx, r) {
      RuleIs(family, p, ctx, r);
    }
  }

  /** Payload that nobody reads: inside a named release, anywhere in the legacy home, inside a checkpoint's untracked
      files. */
  ghost predicate Sealed(family: string, p: Path) {
    || (family == "runtime" && exists id :: ReleaseName(id) && ["runtime", "releases", id] < p)
    || family == "compatibility"
    || (family == "checkpoints" && exists id :: ["checkpoints", id, "untracked"] < p)
  }

  /** Up to 120 characters of a-z, 0-9 and, but for the first, ".", "_" and "-". */
  ghost predicate ReleaseName(id: string) {
    1 <= |id| <= 120 && forall i :: 0 <= i < |id| ==>
      || 0x61 <= id[i] as int <= 0x7a || 0x30 <= id[i] as int <= 0x39 || (i > 0 && id[i] as int in {0x2e, 0x5f, 0x2d})
  }

  lemma ReleaseIdIs(id: string)
    ensures ReleaseId(id) <==> ReleaseName(id)
  {
  }

  lemma SealedIs(family: string, p: Path)
    ensures W.OpaquePayload(family, p) <==> Sealed(family, p)
  {
    if |p| >= 4 {
      ReleaseIdIs(p[2]);
      assert [p[0], p[1], p[2]] < p;
    }
    hide ReleaseId, ReleaseName;
    assert forall id: Name :: ["runtime", "releases", id] < p ==> id == p[2];
  }

  // ---------------------------------------------------------------- authority

  /** At least so much between a beginning and an end. */
  ghost predicate Between(n: Name, prefix: string, least: nat, end: string) {
    exists x :: |x| >= least && n == prefix + x + end
  }

  /** A name of authority wherever it appears. */
  ghost predicate Guarded(n: Name) {
    || n in {"secrets.env", "node-auth.json", "revoked-nodes.json", "install-macos.status.json",
             "retained-evidence.json", "c13-maintenance.json"}
    || Between(n, "oauth", 0, ".json")
    || (OneLine(n) && (|| Between(n, "", 0, ".access.json") || Between(n, "", 0, ".ed25519.pem")
                       || Between(n, "", 0, ".ed25519.pub.pem")
                       || Between(n, "com.stinkyweasel.dex-reach.", 1, ".plist")
                       || Between(n, "macbook-air.local.", 0, "")))
  }

  /** Authority by name, or at its own place. */
  ghost predicate Guards(p: Path) {
    p != [] && (|| Guarded(p[|p| - 1])
                || p in {["tasks", "store.json"], ["tasks", "events.jsonl"], ["audit.jsonl"],
                         ["coordinator", "history", "events.jsonl"]}
                || (|p| == 2 && p[0] == "receipts" && Between(p[1], "", 1, ".jsonl")))
  }

  lemma FrameIs(n: string, prefix: string, end: string, least: nat)
    ensures Framed(n, prefix, end, least) <==> Between(n, prefix, least, end)
  {
    if Framed(n, prefix, end, least) {
      var k := |n| - |end|;
      assert n == n[..k] + n[k..] && n[..k] == n[..|prefix|] + n[|prefix|..k];
      assert n == prefix + n[|prefix|..k] + end;
    }
    if Between(n, prefix, least, end) {
      var x :| |x| >= least && n == prefix + x + end;
      FrameMade(prefix, x, end);
    }
  }

  lemma FrameMade(prefix: string, x: string, end: string)
    ensures var n := prefix + x + end; prefix <= n && EndsWith(n, end)
  {
  }

  lemma EndIs(n: string, end: string)
    ensures EndsWith(n, end) <==> Between(n, "", 0, end)
  {
    FrameIs(n, "", end, 0);
  }

  lemma StartIs(n: string, prefix: string)
    ensures prefix <= n <==> Between(n, prefix, 0, "")
  {
    FrameIs(n, prefix, "", 0);
    if prefix <= n { assert n[|n|..] == ""; }
  }

  lemma OneLineIs(n: string)
    ensures OneLine(n) <==> forall i :: 0 <= i < |n| ==> n[i] as int !in {0x0a, 0x0d, 0x2028, 0x2029}
  {
  }

  lemma AuthorityNameIs(n: Name)
    ensures AuthorityName(n) <==> Guarded(n)
  {
    FrameIs(n, "oauth", ".json", 0);
    EndIs(n, ".access.json");
    EndIs(n, ".ed25519.pem");
    EndIs(n, ".ed25519.pub.pem");
    FrameIs(n, "com.stinkyweasel.dex-reach.", ".plist", 1);
    StartIs(n, "macbook-air.local.");
    hide EndsWith, Framed, OneLine, Between;
  }

  lemma AuthorityIs(p: Path)
    requires p != []
    ensures Authoritative(p) <==> Guards(p)
  {
    AuthorityNameIs(Last(p));
    hide AuthorityName, Guarded, EndsWith, Between;
    if |p| == 2 { LongEnd(p[1]); }
    if p[0] == "compat-home" { NotInLegacyHome(p); }
  }

  lemma NotInLegacyHome(p: Path)
    requires p != [] && p[0] == "compat-home"
    ensures p !in {["tasks", "store.json"], ["tasks", "events.jsonl"], ["audit.jsonl"],
                   ["coordinator", "history", "events.jsonl"]}
    ensures p[0] != "receipts"
  {
    assert p[0][3] == 'p' && "coordinator"[3] == 'r' && p[0][0] == 'c' && "tasks"[0] == 't' && "audit.jsonl"[0] == 'a';
    assert "receipts"[0] == 'r';
  }

  lemma LongEnd(n: Name)
    ensures EndsWith(n, ".jsonl") && |n| > 6 <==> Between(n, "", 1, ".jsonl")
  {
    FrameIs(n, "", ".jsonl", 1);
  }

  // ---------------------------------------------------------------- names

  /** Pieces with a backslash between each two. */
  ghost function Backslashed(pieces: seq<string>): string
    requires pieces != []
  {
    if |pieces| == 1 then pieces[0] else pieces[0] + ['\\'] + Backslashed(pieces[1..])
  }

  ghost predicate NoBackslash(pieces: seq<string>) {
    forall i :: 0 <= i < |pieces| ==> '\\' !in pieces[i]
  }

  /** A name is cut at its backslashes, and at nothing else. */
  lemma {:induction false} PiecesJoin(n: string)
    ensures NoBackslash(Pieces(n)) && Backslashed(Pieces(n)) == n
  {
    if n != "" {
      var rest := Pieces(n[1..]);
      PiecesJoin(n[1..]);
      var all := Pieces(n);
      assert n == [n[0]] + n[1..];
      if n[0] == '\\' {
        assert all[1..] == rest;
      } else {
        assert all[1..] == rest[1..];
        if |rest| > 1 { assert [n[0]] + (rest[0] + ['\\'] + Backslashed(rest[1..])) == n; }
      }
    }
  }

  lemma {:induction false} PiecesOfJoin(pieces: seq<string>)
    requires pieces != [] && NoBackslash(pieces)
    ensures Pieces(Backslashed(pieces)) == pieces
    decreases |pieces|, |pieces[0]|
  {
    var n, first := Backslashed(pieces), pieces[0];
    if first != "" {
      var less := [first[1..]] + pieces[1..];
      assert less[1..] == pieces[1..];
      PiecesOfJoin(less);
      assert n == [first[0]] + Backslashed(less) by {
        assert first == [first[0]] + first[1..];
        if |pieces| > 1 {
          assert [first[0]] + (first[1..] + ['\\'] + Backslashed(pieces[1..]))
              == first + ['\\'] + Backslashed(pieces[1..]);
        }
      }
      assert n[1..] == Backslashed(less) && n[0] == first[0] && first[0] in first;
      assert first == [first[0]] + first[1..] && pieces == [first] + pieces[1..];
    } else if |pieces| > 1 {
      PiecesOfJoin(pieces[1..]);
      assert n[1..] == Backslashed(pieces[1..]);
      assert pieces == [""] + pieces[1..];
    }
  }

  /** A safe name: however it is cut at its backslashes, no piece is empty, "." or "..". */
  lemma {:induction false} SafeNameIs(n: Name)
    ensures SafeName(n) <==>
            exists pieces :: && pieces != [] && NoBackslash(pieces) && Backslashed(pieces) == n
                             && "" !in pieces && "." !in pieces && ".." !in pieces
  {
    hide Pieces, Backslashed, NoBackslash;
    PiecesJoin(n);
    if SafeName(n) {
      var pieces := Pieces(n);
      assert "" !in pieces && "." !in pieces && ".." !in pieces;
    }
    if pieces :| && pieces != [] && NoBackslash(pieces) && Backslashed(pieces) == n
                 && "" !in pieces && "." !in pieces && ".." !in pieces {
      PiecesOfJoin(pieces);
    }
  }

  // ---------------------------------------------------------------- temporaries

  /** What an atomic write left behind: a file named so, whose writer is gone or came later. */
  ghost predicate Abandoned(h: W.Host, n: Name, node: Node) {
    node.kind.Regular? && Orphan(h, n, node.mtime)
  }

  ghost predicate Orphan(h: W.Host, n: Name, mtime: int) {
    exists base, pid :: NamesTemporary(n, base, pid) && (!h.alive(pid) || h.startedAfter(pid, mtime))
  }

  lemma OrphanIs(h: W.Host, n: Name, mtime: int)
    ensures W.Orphaned(h, n, mtime) <==> Orphan(h, n, mtime)
  {
    hide TemporaryOf, NamesTemporary;
    forall base, pid ensures TemporaryOf(n) == Some(Temporary(base, pid)) <==> NamesTemporary(n, base, pid) {
      TemporaryIs(n, base, pid);
    }
    if W.Orphaned(h, n, mtime) {
      var t := TemporaryOf(n).value;
      assert NamesTemporary(n, t.base, t.pid);
    }
  }

  /** No lock, and no temporary but an abandoned one; anything goes in sealed payload. */
  ghost predicate Settled(w: W.Walk, t: Tree, p: Path)
    requires p in t && p != []
  {
    || Sealed(w.family.id, p)
    || (!EndsWith(p[|p| - 1], ".lock") && (EndsWith(p[|p| - 1], ".tmp") ==> Abandoned(w.host, p[|p| - 1], t[p])))
  }

  lemma SettledIs(w: W.Walk, t: Tree, p: Path)
    requires p in t && p != []
    ensures Settled(w, t, p) <==> !W.Transitory(w, t, p)
  {
    hide W.OpaquePayload, Sealed, EndsWith, W.Orphaned, Orphan;
    SealedIs(w.family.id, p);
    OrphanIs(w.host, Last(p), t[p].mtime);
    if W.Orphaned(w.host, Last(p), t[p].mtime) { OrphanedEnds(w.host, Last(p), t[p].mtime); }
  }

  lemma OrphanedEnds(h: W.Host, n: Name, mtime: int)
    requires W.Orphaned(h, n, mtime)
    ensures EndsWith(n, ".tmp") && !EndsWith(n, ".lock") && !EndsWith(n, ".json")
  {
    TemporaryEnds(n);
  }

  // ---------------------------------------------------------------- modes

  /** A mode by its octal digits: what stands before the last three, then owner, group and others. */
  lemma ModesAre(before: nat, owner: nat, group: nat, others: nat)
    requires owner < 8 && group < 8 && others < 8
    ensures var mode := ((before * 8 + owner) * 8 + group) * 8 + others;
            && Permissions(mode) == (owner * 8 + group) * 8 + others
            && (Coverage.OwnerOnly(mode) <==> group == 0 && others == 0)
  {
    Octal(before * 8 + owner, group * 8 + others);
    LastThree(before, (owner * 8 + group) * 8 + others);
  }

  lemma LastThree(high: nat, low: nat)
    requires low < 512
    ensures (high * 512 + low) % 512 == low
  {
  }
}
