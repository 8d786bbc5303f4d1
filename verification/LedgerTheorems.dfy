/** What the hash chain promises: tamper evidence, and which slices of a ledger verify. */
module LedgerTheorems {
  import opened Wrappers
  import opened Ids
  import opened Ledger

  // --------------------------------------------------------------------------
  // Tamper evidence
  // --------------------------------------------------------------------------

  /** Agreement on everything the chain covers. */
  ghost predicate SameChain(xs: seq<LedgerEntry>, ys: seq<LedgerEntry>)
  {
    |xs| == |ys| && forall i | 0 <= i < |xs| ::
      xs[i].seqNo == ys[i].seqNo && xs[i].eventType == ys[i].eventType &&
      xs[i].payloadHash == ys[i].payloadHash && xs[i].prevHash == ys[i].prevHash &&
      xs[i].currentHash == ys[i].currentHash
  }

  /** Walks both ledgers back from their ends to the first pair of different hashed texts. */
  function FindCollision(xs: seq<LedgerEntry>, ys: seq<LedgerEntry>): (string, string)
    decreases |xs|
  {
    if xs == [] || ys == [] then ("", "")
    else
      var m, n := |xs| - 1, |ys| - 1;
      if InputOf(xs[m]) != InputOf(ys[n]) then (InputOf(xs[m]), InputOf(ys[n]))
      else FindCollision(xs[..m], ys[..n])
  }

  lemma {:induction false} SeqNoFromStart(sha: Digest, es: seq<LedgerEntry>, i: nat)
    requires KernelAccepts(sha, es) && i < |es|
    ensures es[i].seqNo == es[0].seqNo + i
  {
    hide Hashed, Linked;
    if i > 0 {
      SeqNoFromStart(sha, es, i - 1);
      assert Sound(sha, es, i);
    }
  }

  /** In an accepted ledger that starts at 1 or later, only the first entry lacks a predecessor. */
  lemma OnlyFirstIsGenesis(sha: Digest, es: seq<LedgerEntry>, i: nat)
    requires KernelAccepts(sha, es) && i < |es| && es[0].seqNo >= 1
    ensures es[i].prevHash == if i == 0 then None else Some(es[i - 1].currentHash)
  {
    hide Hashed;
    assert Sound(sha, es, i);
    SeqNoFromStart(sha, es, i);
  }

  lemma PrefixAccepted(sha: Digest, es: seq<LedgerEntry>, n: nat)
    requires KernelAccepts(sha, es) && n <= |es|
    ensures KernelAccepts(sha, es[..n])
  {
    hide Hashed;
    forall i | 0 <= i < n
      ensures Sound(sha, es[..n], i)
    {
      assert Sound(sha, es, i);
    }
  }

  /**
   Tamper evidence: two accepted ledgers that end in the same hash are the same chain from first
   entry to last, or `FindCollision` exhibits two texts with one digest.
   */
  lemma {:induction false} TamperEvidence(sha: Digest, xs: seq<LedgerEntry>, ys: seq<LedgerEntry>)
    requires AllStored(xs) && AllStored(ys)
    requires KernelAccepts(sha, xs) && KernelAccepts(sha, ys)
    requires xs != [] && ys != [] && xs[0].seqNo >= 1 && ys[0].seqNo >= 1
    requires xs[|xs| - 1].currentHash == ys[|ys| - 1].currentHash
    ensures SameChain(xs, ys) || IsCollision(sha, FindCollision(xs, ys))
    decreases |xs|
  {
    hide ChainInput;
    var m, n := |xs| - 1, |ys| - 1;
    var x, y := xs[m], ys[n];
    assert Sound(sha, xs, m) && Sound(sha, ys, n);
    if InputOf(x) == InputOf(y) {
      ChainInputInjective(x.seqNo, x.eventType, x.payloadHash, x.prevHash,
                          y.seqNo, y.eventType, y.payloadHash, y.prevHash);
      OnlyFirstIsGenesis(sha, xs, m);
      OnlyFirstIsGenesis(sha, ys, n);
      if m > 0 {
        PrefixAccepted(sha, xs, m);
        PrefixAccepted(sha, ys, n);
        TamperEvidence(sha, xs[..m], ys[..n]);
      }
    }
  }

  /**
   The start matters: a chain may carry an entry numbered 1 behind an entry numbered 0 without linking
   to it, and the two ledgers with and without that first entry end in the same hash.
   */
  lemma StartBelowOneIsNotCovered(sha: Digest, b0: LedgerEntryBuilder, b1: LedgerEntryBuilder)
    ensures var e0, e1 := b0.Build(sha, 0, None), b1.Build(sha, 1, None);
      KernelAccepts(sha, [e0, e1]) && KernelAccepts(sha, [e1])
  {
    hide ChainInput;
    var e0, e1 := b0.Build(sha, 0, None), b1.Build(sha, 1, None);
    var es := [e0, e1];
    assert Sound(sha, es, 0) && Sound(sha, es, 1) && Sound(sha, [e1], 0);
  }

  // --------------------------------------------------------------------------
  // The two verifiers
  // --------------------------------------------------------------------------

  /** On whole ledgers the kernel's acceptance is the audit's plus contiguity plus matching link fields. */
  lemma VerifiersAgree(sha: Digest, es: seq<LedgerEntry>)
    requires es != [] ==> es[0].seqNo >= 1
    ensures KernelAccepts(sha, es) <==>
      AuditAccepts(sha, es) && forall i | 0 <= i < |es| :: Contiguous(es, i) && Linked(es, i)
  {
    hide ChainInput;
    if KernelAccepts(sha, es) {
      forall i | 0 <= i < |es|
        ensures AuditSound(sha, es, i) && Contiguous(es, i) && Linked(es, i)
      {
        assert Sound(sha, es, i);
        OnlyFirstIsGenesis(sha, es, i);
      }
    }
    if AuditAccepts(sha, es) && forall i | 0 <= i < |es| :: Contiguous(es, i) && Linked(es, i) {
      forall i | 0 <= i < |es|
        ensures Sound(sha, es, i)
      {
        assert AuditSound(sha, es, i) && Contiguous(es, i) && Linked(es, i);
        NumberedFromStart(es, i);
      }
    }
  }

  lemma {:induction false} NumberedFromStart(es: seq<LedgerEntry>, i: nat)
    requires i < |es| && forall k | 0 <= k < |es| :: Contiguous(es, k)
    ensures es[i].seqNo == es[0].seqNo + i
  {
    if i > 0 {
      NumberedFromStart(es, i - 1);
      assert Contiguous(es, i);
    }
  }

  // --------------------------------------------------------------------------
  // Slices
  // --------------------------------------------------------------------------

  /** Strictly increasing positions of a ledger of `n` entries. */
  ghost predicate Positions(idx: seq<nat>, n: nat)
  {
    (forall j | 0 <= j < |idx| :: idx[j] < n) && (forall j, k | 0 <= j < k < |idx| :: idx[j] < idx[k])
  }

  function Slice(es: seq<LedgerEntry>, idx: seq<nat>): (s: seq<LedgerEntry>)
    requires forall j | 0 <= j < |idx| :: idx[j] < |es|
    ensures |s| == |idx| && forall j | 0 <= j < |idx| :: s[j] == es[idx[j]]
  {
    seq(|idx|, j requires 0 <= j < |idx| => es[idx[j]])
  }

  ghost predicate IsPrefix(idx: seq<nat>) { forall j | 0 <= j < |idx| :: idx[j] == j }

  lemma {:induction false} PositionsGrow(idx: seq<nat>, n: nat, j: nat)
    requires Positions(idx, n) && j < |idx|
    ensures idx[j] >= j
  {
    if j > 0 {
      PositionsGrow(idx, n, j - 1);
    }
  }

  lemma NoMorePositionsThanEntries(idx: seq<nat>, n: nat)
    requires Positions(idx, n)
    ensures |idx| <= n
  {
    if idx != [] {
      PositionsGrow(idx, n, |idx| - 1);
    }
  }

  /** The kernel accepts a slice of an accepted ledger exactly when the slice is a prefix. */
  lemma KernelAcceptsOnlyPrefixes(sha: Digest, es: seq<LedgerEntry>, idx: seq<nat>)
    requires KernelAccepts(sha, es) && (es != [] ==> es[0].seqNo == 1)
    requires Positions(idx, |es|)
    ensures KernelAccepts(sha, Slice(es, idx)) <==> IsPrefix(idx)
  {
    hide Hashed;
    var s := Slice(es, idx);
    if IsPrefix(idx) {
      NoMorePositionsThanEntries(idx, |es|);
      assert s == es[..|idx|];
      PrefixAccepted(sha, es, |idx|);
    } else if KernelAccepts(sha, s) {
      assert Sound(sha, s, 0);
      OnlyFirstIsGenesis(sha, es, idx[0]);
      forall j | 0 <= j < |idx|
        ensures idx[j] == j
      {
        SeqNoFromStart(sha, s, j);
        SeqNoFromStart(sha, es, idx[j]);
      }
    }
  }

  /** The first place where a slice leaves the prefix. */
  ghost function Departure(idx: seq<nat>): (j: nat)
    requires !IsPrefix(idx)
    ensures j < |idx| && idx[j] != j && forall k | 0 <= k < j :: idx[k] == k
    decreases |idx|
  {
    if IsPrefix(idx[..|idx| - 1]) then |idx| - 1 else Departure(idx[..|idx| - 1])
  }

  lemma DepartureSkipsAnEntry(idx: seq<nat>, n: nat)
    requires Positions(idx, n) && !IsPrefix(idx)
    ensures var d := Departure(idx); d !in idx && d < idx[d]
  {
    var d := Departure(idx);
    PositionsGrow(idx, n, d);
    assert forall k | 0 <= k < d :: idx[k] == k;
    assert forall k | d <= k < |idx| :: idx[k] >= idx[d];
  }

  /** The two texts an auditor would have to reconcile for a non-prefix slice to pass. */
  ghost function AuditCollision(es: seq<LedgerEntry>, idx: seq<nat>): (string, string)
    requires Positions(idx, |es|) && !IsPrefix(idx)
  {
    var j := Departure(idx);
    var s := Slice(es, idx);
    if InputOf(s[j]) != AuditInput(s, j) then (InputOf(s[j]), AuditInput(s, j))
    else if j > 0 && idx[j] > 0 then (InputOf(es[j - 1]), InputOf(es[idx[j] - 1]))
    else ("", "")
  }

  /** The audit service accepts a slice exactly when it is a prefix, or a collision is exhibited. */
  lemma AuditAcceptsOnlyPrefixes(sha: Digest, es: seq<LedgerEntry>, idx: seq<nat>)
    requires KernelAccepts(sha, es) && AllStored(es) && (es != [] ==> es[0].seqNo == 1)
    requires Positions(idx, |es|)
    ensures IsPrefix(idx) ==> AuditAccepts(sha, Slice(es, idx))
    ensures AuditAccepts(sha, Slice(es, idx)) && !IsPrefix(idx) ==> IsCollision(sha, AuditCollision(es, idx))
  {
    hide ChainInput;
    var s := Slice(es, idx);
    if IsPrefix(idx) {
      NoMorePositionsThanEntries(idx, |es|);
      assert s == es[..|idx|];
      PrefixAccepted(sha, es, |idx|);
      VerifiersAgree(sha, s);
    } else if AuditAccepts(sha, s) {
      var j := Departure(idx);
      var k := idx[j];
      PositionsGrow(idx, |es|, j);
      assert AuditSound(sha, s, j) && Sound(sha, es, k);
      if InputOf(s[j]) == AuditInput(s, j) {
        var running := if j == 0 then None else Some(s[j - 1].currentHash);
        ChainInputInjective(es[k].seqNo, es[k].eventType, es[k].payloadHash, es[k].prevHash,
                            s[j].seqNo, s[j].eventType, s[j].payloadHash, running);
        OnlyFirstIsGenesis(sha, es, k);
        assert j > 0;
        TwoEntriesTwoTexts(sha, es, j - 1, k - 1);
        assert Sound(sha, es, j - 1) && Sound(sha, es, k - 1);
      }
    }
  }

  /** Different positions of an accepted ledger hash different texts. */
  lemma TwoEntriesTwoTexts(sha: Digest, es: seq<LedgerEntry>, i: nat, j: nat)
    requires KernelAccepts(sha, es) && AllStored(es) && i < |es| && j < |es| && i != j
    ensures InputOf(es[i]) != InputOf(es[j])
  {
    hide ChainInput;
    SeqNoFromStart(sha, es, i);
    SeqNoFromStart(sha, es, j);
    if InputOf(es[i]) == InputOf(es[j]) {
      ChainInputInjective(es[i].seqNo, es[i].eventType, es[i].payloadHash, es[i].prevHash,
                          es[j].seqNo, es[j].eventType, es[j].payloadHash, es[j].prevHash);
    }
  }

  predicate Owns(es: seq<LedgerEntry>, aggregateType: string, aggregateId: Uuid, i: nat)
    requires i < |es|
  {
    es[i].aggregateType == aggregateType && es[i].aggregateId == aggregateId
  }

  /** `SELECT ... WHERE aggregate_type = $1 AND aggregate_id = $2 ORDER BY seq_no`: the positions it returns. */
  function AggregatePositions(es: seq<LedgerEntry>, aggregateType: string, aggregateId: Uuid): (idx: seq<nat>)
    ensures forall j | 0 <= j < |idx| :: idx[j] < |es|
    ensures forall j, k | 0 <= j < k < |idx| :: idx[j] < idx[k]
    ensures forall i: nat | i < |es| :: i in idx <==> Owns(es, aggregateType, aggregateId, i)
  {
    if es == [] then [] else
      var n := |es| - 1;
      var rest := AggregatePositions(es[..n], aggregateType, aggregateId);
      assert forall i: nat | i < n ::
          Owns(es[..n], aggregateType, aggregateId, i) == Owns(es, aggregateType, aggregateId, i);
      if Owns(es, aggregateType, aggregateId, n) then rest + [n] else rest
  }

  function GetByAggregate(es: seq<LedgerEntry>, aggregateType: string, aggregateId: Uuid): seq<LedgerEntry>
  {
    Slice(es, AggregatePositions(es, aggregateType, aggregateId))
  }

  /**
   Verifying one aggregate alone, as the command-line verifier offers, reports a sound ledger as sound
   exactly when that aggregate owns every entry up to its own last one.
   */
  lemma AggregateVerification(sha: Digest, es: seq<LedgerEntry>, aggregateType: string, aggregateId: Uuid)
    requires KernelAccepts(sha, es) && (es != [] ==> es[0].seqNo == 1)
    ensures KernelAccepts(sha, GetByAggregate(es, aggregateType, aggregateId)) <==>
      forall i, j | 0 <= i < j < |es| && Owns(es, aggregateType, aggregateId, j) ::
        Owns(es, aggregateType, aggregateId, i)
  {
    hide KernelAccepts;
    var idx := AggregatePositions(es, aggregateType, aggregateId);
    KernelAcceptsOnlyPrefixes(sha, es, idx);
    if IsPrefix(idx) {
      forall i, j | 0 <= i < j < |es| && Owns(es, aggregateType, aggregateId, j)
        ensures Owns(es, aggregateType, aggregateId, i)
      {
        assert j in idx;
        assert idx[i] == i;
        assert i in idx;
      }
    } else {
      var d := Departure(idx);
      DepartureSkipsAnEntry(idx, |es|);
      assert idx[d] in idx;
      assert Owns(es, aggregateType, aggregateId, idx[d]) && !Owns(es, aggregateType, aggregateId, d);
    }
  }
}
