/** Durable checkpoint evidence: an append-only, hash-chained sequence of states in one directory per
    transaction, each slot created exclusively. Appenders may interleave and stop anywhere. */
module EvidenceLog {
  import opened FileTree

  datatype State = Prepared | Acknowledged | Fenced | Capturing | Captured | RestoreVerified | Certified
                   | RefusedState | FailedState

  /** The transition table. */
  predicate MayFollow(from: State, to: State) {
    match from
    case Prepared => to.Acknowledged? || to.RefusedState? || to.FailedState?
    case Acknowledged => to.Fenced? || to.RefusedState? || to.FailedState?
    case Fenced => to.Capturing? || to.RefusedState? || to.FailedState?
    case Capturing => to.Captured? || to.FailedState?
    case Captured => to.RestoreVerified? || to.FailedState?
    case RestoreVerified => to.Certified? || to.FailedState?
    case Certified => false
    case RefusedState => false
    case FailedState => false
  }

  predicate Terminal(s: State) {
    s.Certified? || s.RefusedState? || s.FailedState?
  }

  /** The part of a record's data that is ever read back. */
  datatype Data = Data(manifestDigest: Option<string>, artifactDigest: Option<string>)

  datatype Body = Body(version: nat, node: string, txn: string, sequence: nat, state: State, at: string, holder: string,
                       data: Data, previous: Option<string>)

  datatype Record = Record(body: Body, digest: string)

  type Hash = Body -> string

  /** SHA-256 of canonical JSON, taken as collision free. */
  ghost predicate Injective(h: Hash) {
    forall a, b :: h(a) == h(b) ==> a == b
  }

  // ---------------------------------------------------------------- chains

  /** Record i follows the i records before it. */
  predicate Links(h: Hash, node: string, txn: string, before: seq<Record>, r: Record) {
    && r.body.version == 1 && r.body.node == node && r.body.txn == txn && r.body.sequence == |before|
    && r.digest == h(r.body)
    && (if before == [] then r.body.previous == None
        else
            r.body.previous == Some(before[|before| - 1].digest)
            && MayFollow(before[|before| - 1].body.state, r.body.state))
  }

  predicate ValidChain(h: Hash, node: string, txn: string, rs: seq<Record>) {
    rs == [] || (ValidChain(h, node, txn, Front(rs)) && Links(h, node, txn, Front(rs), End(rs)))
  }

  function Front(rs: seq<Record>): seq<Record>
    requires rs != []
  {
    rs[..|rs| - 1]
  }

  function End(rs: seq<Record>): Record
    requires rs != []
  {
    rs[|rs| - 1]
  }

  /** A chain that `append` can have built: it also starts at PREPARED. */
  predicate Built(h: Hash, node: string, txn: string, rs: seq<Record>) {
    ValidChain(h, node, txn, rs) && (rs != [] ==> rs[0].body.state.Prepared?)
  }

  lemma ChainExtends(h: Hash, node: string, txn: string, rs: seq<Record>, r: Record)
    requires ValidChain(h, node, txn, rs) && Links(h, node, txn, rs, r)
    ensures ValidChain(h, node, txn, rs + [r])
  {
    assert Front(rs + [r]) == rs && End(rs + [r]) == r;
  }

  lemma {:induction false} ChainPrefix(h: Hash, node: string, txn: string, rs: seq<Record>, n: nat)
    requires n <= |rs| && ValidChain(h, node, txn, rs)
    ensures ValidChain(h, node, txn, rs[..n])
    ensures n < |rs| ==> Links(h, node, txn, rs[..n], rs[n])
  {
    if n == |rs| {
      assert rs[..n] == rs;
    } else if n == |rs| - 1 {
    } else {
      ChainPrefix(h, node, txn, Front(rs), n);
      assert Front(rs)[..n] == rs[..n];
    }
  }

  /** CHAIN BINDING. A chain is determined, record by record, by its last digest. */
  lemma {:induction false} LastDigestBindsChain(h: Hash, node: string, txn: string, a: seq<Record>, b: seq<Record>)
    requires Injective(h) && ValidChain(h, node, txn, a) && ValidChain(h, node, txn, b)
    requires a != [] && b != [] && End(a).digest == End(b).digest
    ensures a == b
  {
    assert End(a) == End(b) && |a| == |b|;
    if |a| > 1 { LastDigestBindsChain(h, node, txn, Front(a), Front(b)); }
    assert a == Front(a) + [End(a)] && b == Front(b) + [End(b)];
  }

  /** Position on the seven-step path. */
  function Rank(s: State): nat {
    match s
    case Prepared => 0 case Acknowledged => 1 case Fenced => 2 case Capturing => 3 case Captured => 4
    case RestoreVerified => 5 case Certified => 6 case RefusedState => 7 case FailedState => 8
  }

  /** Record i is step i of the path, except that the last may be a refusal (before CAPTURING) or a failure. */
  ghost predicate OnPath(rs: seq<Record>) {
    && |rs| <= 7
    && (forall i :: 0 <= i < |rs| - 1 ==> Rank(rs[i].body.state) == i)
    && (rs != [] ==>
          || Rank(End(rs).body.state) == |rs| - 1
          || (End(rs).body.state.RefusedState? && 2 <= |rs| <= 4)
          || (End(rs).body.state.FailedState? && 2 <= |rs|))
  }

  lemma {:induction false} BuiltIsOnPath(h: Hash, node: string, txn: string, rs: seq<Record>)
    requires Built(h, node, txn, rs)
    ensures OnPath(rs)
  {
    if |rs| > 1 {
      BuiltIsOnPath(h, node, txn, Front(rs));
      assert End(Front(rs)) == rs[|rs| - 2];
    }
  }

  ghost predicate Holds(rs: seq<Record>, s: State) {
    exists i :: 0 <= i < |rs| && rs[i].body.state == s
  }

  /** PATH SHAPE. A built history has at most seven records, is closed by its first terminal state, holds CERTIFIED
      only as the last of the full seven-step path, never holds REFUSED together with CAPTURING, and repeats nothing. */
  lemma PathShape(h: Hash, node: string, txn: string, rs: seq<Record>)
    requires Built(h, node, txn, rs)
    ensures |rs| <= 7
    ensures forall i :: 0 <= i < |rs| && Terminal(rs[i].body.state) ==> i == |rs| - 1
    ensures Holds(rs, Certified) ==> |rs| == 7 && forall i :: 0 <= i < 7 ==> Rank(rs[i].body.state) == i
    ensures !(Holds(rs, RefusedState) && Holds(rs, Capturing))
    ensures Holds(rs, FailedState) ==> End(rs).body.state.FailedState?
    ensures forall i, j :: 0 <= i < j < |rs| ==> rs[i].body.state != rs[j].body.state
  {
    BuiltIsOnPath(h, node, txn, rs);
    forall i, j | 0 <= i < j < |rs| ensures rs[i].body.state != rs[j].body.state {
      assert Rank(rs[i].body.state) == i && Rank(rs[j].body.state) >= j;
    }
  }

  /** The table, step by step: the next step of the path, a failure from every step but the last, and a refusal before
      CAPTURING. */
  lemma TableIs(from: State, to: State)
    ensures MayFollow(from, to) <==>
            && from in [Prepared, Acknowledged, Fenced, Capturing, Captured, RestoreVerified]
            && (|| (from, to) in {(Prepared, Acknowledged), (Acknowledged, Fenced), (Fenced, Capturing),
                                  (Capturing, Captured), (Captured, RestoreVerified), (RestoreVerified, Certified)}
                || to == FailedState
                || (to == RefusedState && from in [Prepared, Acknowledged, Fenced]))
  {
  }

  /** What makes a sequence of records a chain, record by record. */
  lemma {:induction false} ChainPlainly(h: Hash, node: string, txn: string, rs: seq<Record>)
    ensures ValidChain(h, node, txn, rs) <==>
            forall i :: 0 <= i < |rs| ==> ChainedAt(h, node, txn, rs, i)
  {
    hide MayFollow;
    if rs != [] {
      ChainPlainly(h, node, txn, Front(rs));
      forall i | 0 <= i < |rs| - 1 ensures ChainedAt(h, node, txn, rs, i) <==> ChainedAt(h, node, txn, Front(rs), i) {
        assert rs[i] == Front(rs)[i] && (i > 0 ==> rs[i - 1] == Front(rs)[i - 1]);
      }
      assert ChainedAt(h, node, txn, rs, |rs| - 1) <==> Links(h, node, txn, Front(rs), End(rs));
    }
  }

  /** Numbered in order, of version 1, of this node and transaction, holding its own digest and its predecessor's, and
      in a state that may follow its predecessor's. */
  predicate ChainedAt(h: Hash, node: string, txn: string, rs: seq<Record>, i: nat)
    requires i < |rs|
  {
    && rs[i].body.version == 1 && rs[i].body.node == node && rs[i].body.txn == txn && rs[i].body.sequence == i
    && rs[i].digest == h(rs[i].body)
    && (i == 0 ==> rs[i].body.previous == None)
    && (i > 0 ==> && rs[i].body.previous == Some(rs[i - 1].digest)
                  && MayFollow(rs[i - 1].body.state, rs[i].body.state))
  }

  // ---------------------------------------------------------------- the directory

  /** A slot file: created but not (fully) written, or holding a record. */
  datatype Slot = Torn | Full(record: Record)

  /** The transaction's directory: absent, holding slot files 0000, 0001, ... without a gap, or holding any other
      name. */
  datatype Directory = Absent | Numbered(slots: seq<Slot>) | Broken

  function ReadFrom(h: Hash, node: string, txn: string, slots: seq<Slot>, sofar: seq<Record>): Option<seq<Record>>
    requires |sofar| <= |slots|
    decreases |slots| - |sofar|
  {
    if |sofar| == |slots| then Some(sofar)
    else
      var slot := slots[|sofar|];
      if slot.Torn? || !Links(h, node, txn, sofar, slot.record) then None
      else ReadFrom(h, node, txn, slots, sofar + [slot.record])
  }

  /** What reading the directory yields: the chain it holds, or None for any refusal. */
  function Read(h: Hash, node: string, txn: string, d: Directory): Option<seq<Record>> {
    match d
    case Absent => Some([])
    case Numbered(slots) => ReadFrom(h, node, txn, slots, [])
    case Broken => None
  }

  /** The slots hold exactly these records. */
  predicate Stores(slots: seq<Slot>, rs: seq<Record>) {
    |slots| == |rs| && forall i :: 0 <= i < |rs| ==> slots[i] == Full(rs[i])
  }

  lemma {:induction false} ReadFromSound(h: Hash, node: string, txn: string, slots: seq<Slot>, sofar: seq<Record>)
    requires |sofar| <= |slots| && ValidChain(h, node, txn, sofar) && Stores(slots[..|sofar|], sofar)
    ensures var r := ReadFrom(h, node, txn, slots, sofar);
            r.Some? ==> ValidChain(h, node, txn, r.value) && Stores(slots, r.value)
    decreases |slots| - |sofar|
  {
    if |sofar| < |slots| && slots[|sofar|].Full? && Links(h, node, txn, sofar, slots[|sofar|].record) {
      ChainExtends(h, node, txn, sofar, slots[|sofar|].record);
      ReadFromSound(h, node, txn, slots, sofar + [slots[|sofar|].record]);
    } else if |sofar| == |slots| {
      assert slots[..|sofar|] == slots;
    }
  }

  lemma {:induction false} ReadFromComplete(h: Hash, node: string, txn: string, slots: seq<Slot>, rs: seq<Record>,
                                            n: nat)
    requires ValidChain(h, node, txn, rs) && Stores(slots, rs) && n <= |rs|
    ensures ReadFrom(h, node, txn, slots, rs[..n]) == Some(rs)
    decreases |rs| - n
  {
    if n == |rs| {
      assert rs[..n] == rs;
    } else {
      ChainPrefix(h, node, txn, rs, n);
      assert rs[..n] + [rs[n]] == rs[..n + 1];
      ReadFromComplete(h, node, txn, slots, rs, n + 1);
    }
  }

  /** Reading succeeds exactly on an absent directory or one that stores a valid chain, and returns that chain. */
  lemma ReadIsExact(h: Hash, node: string, txn: string, d: Directory, rs: seq<Record>)
    ensures Read(h, node, txn, d) == Some(rs) <==>
            if d.Absent? then rs == [] else d.Numbered? && ValidChain(h, node, txn, rs) && Stores(d.slots, rs)
  {
    if d.Numbered? {
      ReadFromSound(h, node, txn, d.slots, []);
      if ValidChain(h, node, txn, rs) && Stores(d.slots, rs) { ReadFromComplete(h, node, txn, d.slots, rs, 0); }
      if Read(h, node, txn, d) == Some(rs) { assert Stores(d.slots, rs); }
    }
  }

  function NextRecord(h: Hash, node: string, txn: string, rs: seq<Record>, state: State, at: string, holder: string,
                      data: Data): Record {
    var body := Body(1, node, txn, |rs|, state, at, holder, data, if rs == [] then None else Some(End(rs).digest));
    Record(body, h(body))
  }

  predicate MayAppend(rs: seq<Record>, state: State) {
    if rs == [] then state.Prepared? else MayFollow(End(rs).body.state, state)
  }

  /** A chain that ends in a terminal state: nothing may follow. */
  predicate Closed(rs: seq<Record>) {
    rs != [] && Terminal(End(rs).body.state)
  }

  /** No built chain goes beyond a closed one. */
  lemma ClosedIsFinal(h: Hash, node: string, txn: string, rs: seq<Record>, longer: seq<Record>)
    requires Built(h, node, txn, longer) && rs <= longer && Closed(rs)
    ensures longer == rs
  {
    PathShape(h, node, txn, longer);
    assert longer[|rs| - 1] == End(rs);
  }

  lemma NextRecordBuilds(h: Hash, node: string, txn: string, rs: seq<Record>, state: State, at: string, holder: string,
                         data: Data)
    requires Built(h, node, txn, rs) && MayAppend(rs, state)
    ensures Built(h, node, txn, rs + [NextRecord(h, node, txn, rs, state, at, holder, data)])
  {
    ChainExtends(h, node, txn, rs, NextRecord(h, node, txn, rs, state, at, holder, data));
  }

  /** One process's log of one transaction. */
  class TransactionLog {
    const h: Hash
    const node: string
    const txn: string
    const holder: string
    var directory: Directory

    constructor (h: Hash, node: string, txn: string, holder: string, directory: Directory)
      ensures this.h == h && this.node == node && this.txn == txn && this.holder == holder
      ensures this.directory == directory
    {
      this.h, this.node, this.txn, this.holder, this.directory := h, node, txn, holder, directory;
    }

    /** Full chain validation, slot by slot. */
    method ReadChain() returns (r: Option<seq<Record>>)
      ensures r == Read(h, node, txn, directory)
    {
      if directory.Absent? { return Some([]); }
      if directory.Broken? { return None; }
      var slots := directory.slots;
      var records := [];
      while |records| < |slots|
        invariant |records| <= |slots|
        invariant Read(h, node, txn, directory) == ReadFrom(h, node, txn, slots, records)
      {
        var slot := slots[|records|];
        if slot.Torn? || !Links(h, node, txn, records, slot.record) { return None; }
        records := records + [slot.record];
      }
      r := Some(records);
    }

    /** Append with nobody else at work: the chain grows by one legal record, or nothing changes. An empty
        directory left by a stopped first append refuses every append. */
    method Append(state: State, at: string, data: Data) returns (ok: bool)
      modifies this`directory
      ensures var before := Read(h, node, txn, old(directory));
              if before.Some? && MayAppend(before.value, state) && (before.value == [] ==> old(directory).Absent?)
              then ok && Read(h, node, txn, directory)
                  == Some(before.value + [NextRecord(h, node, txn, before.value, state, at, holder, data)])
              else !ok && directory == old(directory)
      ensures ok ==> var body := End(Read(h, node, txn, directory).value).body;
                     body.state == state && body.at == at && body.holder == holder && body.data == data
    {
      var existing := ReadChain();
      if existing.None? || !MayAppend(existing.value, state) { return false; }
      var rs := existing.value;
      ReadIsExact(h, node, txn, directory, rs);
      if rs == [] {
        if !directory.Absent? { return false; }
        directory := Numbered([]);
      }
      var record := NextRecord(h, node, txn, rs, state, at, holder, data);
      directory := Numbered(directory.slots + [Full(record)]);
      ChainExtends(h, node, txn, rs, record);
      ReadIsExact(h, node, txn, directory, rs + [record]);
      ok := true;
    }
  }
}
