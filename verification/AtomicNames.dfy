/** The names atomic writes use before their rename: `<file>.<pid>.<uuid>.tmp`, and how such a name is read back. */
module AtomicNames {
  import opened FileTree
  import opened Exclusions
  import T = TreeFingerprint

  /** The committed file a temporary belongs to and the writer's process. */
  datatype Temporary = Temporary(base: Name, pid: nat)

  predicate Hex(c: char) {
    '0' <= c <= '9' || 'a' <= c <= 'f'
  }

  predicate HexRun(s: string) {
    forall i :: 0 <= i < |s| ==> Hex(s[i])
  }

  /** The two halves of a version-4 uuid: xxxxxxxx-xxxx-4xxx and -[89ab]xxx-xxxxxxxxxxxx. */
  predicate IsFront(s: string) {
    |s| == 18 && HexRun(s[..8]) && s[8] == '-' && HexRun(s[9..13]) && s[13..15] == "-4" && HexRun(s[15..])
  }

  predicate IsBack(s: string) {
    |s| == 18 && s[0] == '-' && s[1] in "89ab" && HexRun(s[2..5]) && s[5] == '-' && HexRun(s[6..])
  }

  /** ".", a version-4 uuid, ".tmp". */
  predicate IsTail(s: string) {
    |s| == 41 && s[0] == '.' && IsFront(s[1..19]) && IsBack(s[19..37]) && s[37..] == ".tmp"
  }

  /** At most ten digits, no leading zero. */
  predicate IsPid(s: string) {
    1 <= |s| <= 10 && s[0] != '0' && forall i :: 0 <= i < |s| ==> '0' <= s[i] <= '9'
  }

  /** A decimal number's value. */
  function Value(digits: string): nat
    requires forall i :: 0 <= i < |digits| ==> '0' <= digits[i] <= '9'
  {
    if digits == "" then 0
    else Value(digits[..|digits| - 1]) * 10 + (digits[|digits| - 1] as int - '0' as int)
  }

  function LastDot(s: string): (k: Option<nat>)
    ensures k.Some? ==> k.value < |s| && s[k.value] == '.' && '.' !in s[k.value + 1..]
    ensures k.None? ==> '.' !in s
  {
    if s == "" then None
    else if s[|s| - 1] == '.' then Some(|s| - 1)
    else
      var front := s[..|s| - 1];
      assert s == front + [s[|s| - 1]];
      var k := LastDot(front);
      assert k.Some? ==> s[k.value + 1..] == front[k.value + 1..] + [s[|s| - 1]];
      k
  }

  /** The name before the uuid, cut at its last dot. */
  function ReadHead(head: string): Option<Temporary> {
    var k := LastDot(head);
    if k.None? || k.value == 0 || !OneLine(head[..k.value]) || !IsPid(head[k.value + 1..]) then None
    else Some(Temporary(head[..k.value], Value(head[k.value + 1..])))
  }

  /** None for a name no atomic write uses. */
  function TemporaryOf(n: Name): Option<Temporary> {
    if |n| <= 41 || !IsTail(n[|n| - 41..]) then None else ReadHead(n[..|n| - 41])
  }

  lemma TemporaryEnds(n: Name)
    requires TemporaryOf(n).Some?
    ensures EndsWith(n, ".tmp") && !EndsWith(n, ".lock") && !EndsWith(n, ".json")
  {
    assert n[|n| - 4..] == n[|n| - 41..][37..] == ".tmp";
    assert n[|n| - 1] == n[|n| - 4..][3] == 'p';
    assert |n[|n| - 5..]| == 5 && n[|n| - 5..][4] == 'p';
  }

  // ---------------------------------------------------------------- the name, spelled out

  /** n characters of [0-9a-f]. */
  ghost predicate HexText(s: string, n: nat) {
    |s| == n && forall i :: 0 <= i < n ==> s[i] in "0123456789abcdef"
  }

  ghost predicate Uuid(s: string) {
    exists a, b, c, v, d, e :: && HexText(a, 8) && HexText(b, 4) && HexText(c, 3) && v in "89ab" && HexText(d, 3)
                               && HexText(e, 12) && s == a + "-" + b + "-4" + c + "-" + [v] + d + "-" + e
  }

  /** Process ids are read as they are written. */
  lemma {:induction false} PidIsRead(n: nat)
    ensures Value(T.Decimal(n)) == n && (IsPid(T.Decimal(n)) <==> 0 < n < 10000000000)
  {
    DecimalIs(n);
    DecimalLength(n, 10);
    assert Power(10) == 10000000000 by { assert Power(4) == 10000 && Power(7) == 1000 * Power(4); }
  }

  lemma {:induction false} DecimalIs(n: nat)
    ensures Value(T.Decimal(n)) == n && (T.Decimal(n)[0] == '0' <==> n == 0)
  {
    var s := T.Decimal(n);
    if n >= 10 {
      assert s[..|s| - 1] == T.Decimal(n / 10) && s[|s| - 1] == T.Digit(n % 10);
      DecimalIs(n / 10);
      assert s[0] == T.Decimal(n / 10)[0];
    } else {
      assert s[..0] == "";
    }
  }

  function Power(k: nat): nat {
    if k == 0 then 1 else 10 * Power(k - 1)
  }

  lemma {:induction false} DecimalLength(n: nat, k: nat)
    requires k > 0
    ensures |T.Decimal(n)| <= k <==> n < Power(k)
  {
    if n >= 10 && k > 1 {
      DecimalLength(n / 10, k - 1);
    } else {
      PowerGrows(k);
    }
  }

  lemma {:induction false} PowerGrows(k: nat)
    requires k > 0
    ensures Power(k) >= 10 && Power(1) == 10
  {
    assert Power(1) == 10 * Power(0);
    if k > 1 { PowerGrows(k - 1); }
  }

  lemma HexIs(c: char)
    ensures Hex(c) <==> c in "0123456789abcdef"
  {
    if '0' <= c <= '9' { assert c == "0123456789abcdef"[c as int - '0' as int]; }
    if 'a' <= c <= 'f' { assert c == "0123456789abcdef"[c as int - 'a' as int + 10]; }
  }

  lemma RunIs(s: string, n: nat)
    ensures HexText(s, n) <==> |s| == n && HexRun(s)
  {
    forall c ensures Hex(c) <==> c in "0123456789abcdef" { HexIs(c); }
    hide Hex;
  }

  lemma FrontIs(s: string)
    requires IsFront(s)
    ensures HexText(s[..8], 8) && HexText(s[9..13], 4) && HexText(s[15..], 3)
    ensures s == s[..8] + "-" + s[9..13] + "-4" + s[15..]
  {
    RunIs(s[..8], 8);
    RunIs(s[9..13], 4);
    RunIs(s[15..], 3);
    hide HexRun, HexText;
    assert s[13..] == "-4" + s[15..];
    assert s[9..] == s[9..13] + s[13..];
  }

  lemma BackIs(s: string)
    requires IsBack(s)
    ensures s[1] in "89ab" && HexText(s[2..5], 3) && HexText(s[6..], 12)
    ensures s == "-" + [s[1]] + s[2..5] + "-" + s[6..]
  {
    RunIs(s[2..5], 3);
    RunIs(s[6..], 12);
    hide HexRun, HexText;
  }

  lemma FrontMade(a: string, b: string, c: string)
    requires HexText(a, 8) && HexText(b, 4) && HexText(c, 3)
    ensures IsFront(a + "-" + b + "-4" + c)
  {
    RunIs(a, 8);
    RunIs(b, 4);
    RunIs(c, 3);
    hide HexRun, HexText;
    var s := a + "-" + b + "-4" + c;
    assert s[..8] == a && s[9..13] == b && s[13..15] == "-4" && s[15..] == c;
  }

  lemma BackMade(v: char, d: string, e: string)
    requires v in "89ab" && HexText(d, 3) && HexText(e, 12)
    ensures IsBack("-" + [v] + d + "-" + e)
  {
    RunIs(d, 3);
    RunIs(e, 12);
    hide HexRun, HexText;
    var s := "-" + [v] + d + "-" + e;
    assert s[2..5] == d && s[6..] == e;
  }

  lemma TailIsUuid(s: string)
    requires IsTail(s)
    ensures Uuid(s[1..37]) && s == "." + s[1..37] + ".tmp"
  {
    hide HexText, IsFront, IsBack;
    var front, back := s[1..19], s[19..37];
    FrontIs(front);
    BackIs(back);
    assert s[1..37] == front + back && s[..1] == "." && s == s[..1] + s[1..37] + s[37..];
    var a, b, c, v, d, e := front[..8], front[9..13], front[15..], back[1], back[2..5], back[6..];
    Halves(a, b, c, v, d, e);
    IsUuid(a, b, c, v, d, e);
    assert s[1..37] == a + "-" + b + "-4" + c + "-" + [v] + d + "-" + e;
  }

  lemma IsUuid(a: string, b: string, c: string, v: char, d: string, e: string)
    requires HexText(a, 8) && HexText(b, 4) && HexText(c, 3) && v in "89ab" && HexText(d, 3) && HexText(e, 12)
    ensures Uuid(a + "-" + b + "-4" + c + "-" + [v] + d + "-" + e)
  {
    hide HexText;
    assert a + "-" + b + "-4" + c + "-" + [v] + d + "-" + e == a + "-" + b + "-4" + c + "-" + [v] + d + "-" + e;
  }

  lemma Halves(a: string, b: string, c: string, v: char, d: string, e: string)
    ensures (a + "-" + b + "-4" + c) + ("-" + [v] + d + "-" + e)
            == a + "-" + b + "-4" + c + "-" + [v] + d + "-" + e
  {
  }

  lemma UuidIsTail(uuid: string)
    requires Uuid(uuid)
    ensures IsTail("." + uuid + ".tmp")
  {
    hide HexText, IsFront, IsBack;
    var a, b, c, v, d, e :| && HexText(a, 8) && HexText(b, 4) && HexText(c, 3) && v in "89ab" && HexText(d, 3)
                            && HexText(e, 12) && uuid == a + "-" + b + "-4" + c + "-" + [v] + d + "-" + e;
    Halves(a, b, c, v, d, e);
    var front, back := a + "-" + b + "-4" + c, "-" + [v] + d + "-" + e;
    FrontMade(a, b, c);
    BackMade(v, d, e);
    HalfLength(front, back);
    TailMade(uuid, front, back);
  }

  lemma HalfLength(front: string, back: string)
    requires IsFront(front) && IsBack(back)
    ensures |front| == 18 && |back| == 18
  {
  }

  lemma TailMade(uuid: string, front: string, back: string)
    requires uuid == front + back && |front| == 18 && |back| == 18 && IsFront(front) && IsBack(back)
    ensures IsTail("." + uuid + ".tmp")
  {
    hide IsFront, IsBack;
    var s := "." + uuid + ".tmp";
    assert s[1..19] == front && s[19..37] == back && s[37..] == ".tmp";
  }

  /** A name is a temporary of `base` by process `pid` exactly when it is spelled so: the base in one line, the
      process id in decimal without a leading zero, a version-4 uuid, and ".tmp". */
  ghost predicate NamesTemporary(n: Name, base: Name, pid: nat) {
    base != "" && OneLine(base) && exists digits, uuid ::
        IsPid(digits) && Value(digits) == pid && Uuid(uuid) && n == base + "." + digits + ("." + uuid + ".tmp")
  }

  /** READING A NAME BACK. */
  lemma {:induction false} TemporaryIs(n: Name, base: Name, pid: nat)
    ensures TemporaryOf(n) == Some(Temporary(base, pid)) <==> NamesTemporary(n, base, pid)
  {
    hide Uuid, OneLine, Value, IsTail;
    if TemporaryOf(n) == Some(Temporary(base, pid)) { ReadIsSpelled(n); }
    if NamesTemporary(n, base, pid) {
      var digits, uuid :|
          IsPid(digits) && Value(digits) == pid && Uuid(uuid) && n == base + "." + digits + ("." + uuid + ".tmp");
      SpelledIsRead(base, digits, uuid);
    }
  }

  lemma ReadIsSpelled(n: Name)
    requires TemporaryOf(n).Some?
    ensures NamesTemporary(n, TemporaryOf(n).value.base, TemporaryOf(n).value.pid)
  {
    hide IsTail, Uuid, OneLine, Value;
    var tail, head := n[|n| - 41..], n[..|n| - 41];
    TailIsUuid(tail);
    var k := LastDot(head).value;
    var digits, uuid := head[k + 1..], tail[1..37];
    assert head == head[..k] + "." + digits && n == head + tail;
    assert TemporaryOf(n).value == Temporary(head[..k], Value(digits));
    assert IsPid(digits) && Uuid(uuid) && n == head[..k] + "." + digits + ("." + uuid + ".tmp");
  }

  lemma SpelledIsRead(base: Name, digits: string, uuid: string)
    requires base != "" && OneLine(base) && IsPid(digits) && Uuid(uuid)
    ensures TemporaryOf(base + "." + digits + ("." + uuid + ".tmp")) == Some(Temporary(base, Value(digits)))
  {
    var head, tail := base + "." + digits, "." + uuid + ".tmp";
    UuidIsTail(uuid);
    TailLength(tail);
    hide IsTail, Uuid, OneLine, Value, IsPid;
    var n := head + tail;
    assert n[|n| - 41..] == tail && n[..|n| - 41] == head;
    DotIsThere(base, digits);
  }

  lemma TailLength(s: string)
    requires IsTail(s)
    ensures |s| == 41
  {
  }

  lemma DotIsThere(base: string, digits: string)
    requires IsPid(digits)
    ensures LastDot(base + "." + digits) == Some(|base|)
    ensures (base + "." + digits)[..|base|] == base && (base + "." + digits)[|base| + 1..] == digits
  {
    var s := base + "." + digits;
    assert s[|base| + 1..] == digits && s[|base|] == '.';
    var k := LastDot(s);
    assert forall i :: |base| < i < |s| ==> s[i] == digits[i - |base| - 1];
  }
}
