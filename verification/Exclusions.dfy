/** Opt-in exclusions from owner-state coverage: which subtrees may be left out, and what may never hide in them. */
module Exclusions {
  import opened FileTree

  /** `retained` names the current and the rollback runtime release; it matters only when `currentOnly`. */
  datatype Context = Context(owner: bool, currentOnly: bool, retained: set<Name>)

  const EVERYTHING := Context(false, false, {})

  const PROTECTED_TOP: set<Name> := {
    "tasks", "results", "receipts", "nodes", "node-auth.json", "oauth.json", "secrets.env", "plans", "coordinator",
    "recovery", "runtime", "LaunchAgents", "worker", "revoked-nodes.json", "audit.jsonl", "install-macos.status.json",
    "config.json"}

  const SERVICE_PREFIX := "com.stinkyweasel.dex-reach."

  /** An exclusion prefix is a clean relative path whose top name is no protected authority. */
  predicate PrefixAllowed(prefix: Path) {
    && prefix != [] && (forall i :: 0 <= i < |prefix| ==> ValidName(prefix[i]))
    && prefix[0] !in PROTECTED_TOP && !("oauth" <= prefix[0]) && !(SERVICE_PREFIX <= prefix[0])
  }

  datatype RuleId = PnpmStore | NpmCache | LibraryCaches | CheckpointNodeModules | SupersededRelease

  predicate OwnerRule(r: RuleId) {
    !r.SupersededRelease?
  }

  function OwnerRuleFor(family: string, relative: Path): Option<RuleId> {
    if family == "compatibility" then
      if relative == ["compat-home", "Library", "pnpm"] then Some(PnpmStore)
      else if relative == ["compat-home", ".npm"] then Some(NpmCache)
      else if relative == ["compat-home", "Library", "Caches"] then Some(LibraryCaches)
      else None
    else if family == "checkpoints" then
      if |relative| >= 4 && relative[0] == "checkpoints" && relative[2] == "untracked"
          && Last(relative) == "node_modules"
      then Some(CheckpointNodeModules) else None
    else None
  }

  /** The rule that excludes the subtree rooted at a path, if any. */
  function RuleFor(family: string, relative: Path, ctx: Context): Option<RuleId> {
    if ctx.owner && OwnerRuleFor(family, relative).Some? then OwnerRuleFor(family, relative)
    else if ctx.currentOnly && family == "runtime" && |relative| == 3 && relative[0] == "runtime"
            && relative[1] == "releases" && relative[2] !in ctx.retained then Some(SupersededRelease)
    else None
  }

  // ---------------------------------------------------------------- authority

  /** Text a regular expression's dot matches. */
  predicate OneLine(s: string) {
    forall i :: 0 <= i < |s| ==> s[i] != '\n' && s[i] != '\r' && s[i] != '\U{2028}' && s[i] != '\U{2029}'
  }

  predicate Framed(n: Name, prefix: string, suffix: string, atLeast: nat) {
    |prefix| + atLeast + |suffix| <= |n| && prefix <= n && EndsWith(n, suffix)
  }

  /** Names that are authority wherever they appear. */
  predicate AuthorityName(n: Name) {
    || n in {"secrets.env", "node-auth.json", "revoked-nodes.json", "install-macos.status.json",
             "retained-evidence.json", "c13-maintenance.json"}
    || Framed(n, "oauth", ".json", 0)
    || (OneLine(n) && (|| EndsWith(n, ".access.json") || EndsWith(n, ".ed25519.pem") || EndsWith(n, ".ed25519.pub.pem")
                       || Framed(n, SERVICE_PREFIX, ".plist", 1)
                       || "macbook-air.local." <= n))
  }

  /** Generic names are authority only at their exact owner-state location, never inside a tool cache. */
  predicate Authoritative(relative: Path)
    requires relative != []
  {
    || AuthorityName(Last(relative))
    || (!(relative[0] == "compat-home" && |relative| > 1)
        && (|| relative in {["tasks", "store.json"], ["tasks", "events.jsonl"], ["audit.jsonl"],
            ["coordinator", "history", "events.jsonl"]}
            || (|relative| == 2 && relative[0] == "receipts" && EndsWith(relative[1], ".jsonl") && |relative[1]| > 6)))
  }

  // ---------------------------------------------------------------- the rules

  /** No rule reaches a family's own root, and every owner rule stays clear of protected authority. */
  lemma RulesStayClear(family: string, relative: Path, ctx: Context)
    requires RuleFor(family, relative, ctx).Some?
    requires forall i :: 0 <= i < |relative| ==> ValidName(relative[i])
    ensures |relative| >= 2
    ensures OwnerRule(RuleFor(family, relative, ctx).value) ==> ctx.owner && PrefixAllowed(relative)
    ensures !OwnerRule(RuleFor(family, relative, ctx).value) ==>
      ctx.currentOnly && |relative| == 3 && relative[..2] == ["runtime", "releases"] && relative[2] !in ctx.retained
  {
    if OwnerRule(RuleFor(family, relative, ctx).value) {
      assert relative[0] == "compat-home" || relative[0] == "checkpoints";
      ProtectedNames();
    }
  }

  lemma ProtectedNames()
    ensures forall n :: n in {"compat-home", "checkpoints"} ==>
      n !in PROTECTED_TOP && !("oauth" <= n) && !(SERVICE_PREFIX <= n)
  {
    assert "compat-home"[3] == 'p' && "compat-home"[0] == 'c' && "checkpoints"[0] == 'c' && "checkpoints"[1] == 'h';
    assert "config.json"[1] == 'o' && "config.json"[2] == 'n' && "coordinator"[2] == 'o' && "compat-home"[2] == 'm';
    assert SERVICE_PREFIX[3] == '.' && SERVICE_PREFIX[1] == 'o';
    assert |"compat-home"| == 11;
  }
}
