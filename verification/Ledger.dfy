/**
 The hash-chained ledger: entries, the text that is hashed, and the two verifiers
 (the kernel's `verify_chain` and the audit service's `verifyLedgerIntegrity`).
 SHA-256 (section 6.2 of FIPS 180-4) followed by hex encoding is a parameter `sha`;
 nothing is assumed of it beyond the width of its output, so results read
 "... or here are two different texts with the same digest".
 */
module Ledger {
  import opened Wrappers
  import opened Text
  import opened Ids

  type Digest = string -> string

  datatype LedgerEventType =
    | ContributionReceived | ContributionQuarantined
    | PayoutInitiated | PayoutSent | PayoutConfirmed | PayoutFailed | PayoutReversed
    | AdvanceIssued | DebtRecorded | DebtRepaid
    | FeeCharged | Adjustment | CycleOpened | CycleClosed
    | IdentityCreated | WalletBound | WalletRevoked

  function AsCanonical(e: LedgerEventType): string
  {
    match e
    case ContributionReceived => "contribution_received"
    case ContributionQuarantined => "contribution_quarantined"
    case PayoutInitiated => "payout_initiated"
    case PayoutSent => "payout_sent"
    case PayoutConfirmed => "payout_confirmed"
    case PayoutFailed => "payout_failed"
    case PayoutReversed => "payout_reversed"
    case AdvanceIssued => "advance_issued"
    case DebtRecorded => "debt_recorded"
    case DebtRepaid => "debt_repaid"
    case FeeCharged => "fee_charged"
    case Adjustment => "adjustment"
    case CycleOpened => "cycle_opened"
    case CycleClosed => "cycle_closed"
    case IdentityCreated => "identity_created"
    case WalletBound => "wallet_bound"
    case WalletRevoked => "wallet_revoked"
  }

  /** The repository's reading of the column; unknown text falls back to an adjustment. */
  function ParseEventType(s: string): LedgerEventType
  {
    if s == "contribution_received" then ContributionReceived
    else if s == "contribution_quarantined" then ContributionQuarantined
    else if s == "payout_initiated" then PayoutInitiated
    else if s == "payout_sent" then PayoutSent
    else if s == "payout_confirmed" then PayoutConfirmed
    else if s == "payout_failed" then PayoutFailed
    else if s == "payout_reversed" then PayoutReversed
    else if s == "advance_issued" then AdvanceIssued
    else if s == "debt_recorded" then DebtRecorded
    else if s == "debt_repaid" then DebtRepaid
    else if s == "fee_charged" then FeeCharged
    else if s == "adjustment" then Adjustment
    else if s == "cycle_opened" then CycleOpened
    else if s == "cycle_closed" then CycleClosed
    else if s == "identity_created" then IdentityCreated
    else if s == "wallet_bound" then WalletBound
    else if s == "wallet_revoked" then WalletRevoked
    else Adjustment
  }

  /** Reading back what was written; hence the seventeen canonical names differ, and none holds a colon. */
  lemma CanonicalReadsBack(e: LedgerEventType)
    ensures ParseEventType(AsCanonical(e)) == e
    ensures ':' !in AsCanonical(e)
  {
    hide AsCanonical, ParseEventType;
    NamesTellApart(e);
    NoColonInNames(e);
  }

  lemma NoColonInNames(e: LedgerEventType)
    ensures ':' !in AsCanonical(e)
  {
  }

  lemma NamesTellApart(e: LedgerEventType)
    ensures ParseEventType(AsCanonical(e)) == e
  {
    var s := AsCanonical(e);
    assert s[0] in "cpadfiw";
    match e
    case ContributionReceived => assert |s| == 21;
    case ContributionQuarantined => assert |s| == 24;
    case PayoutInitiated => assert |s| == 16 && s[7] == 'i';
    case PayoutSent => assert |s| == 11;
    case PayoutConfirmed => assert |s| == 16 && s[7] == 'c';
    case PayoutFailed => assert |s| == 13;
    case PayoutReversed => assert |s| == 15;
    case AdvanceIssued => assert |s| == 14;
    case DebtRecorded => assert |s| == 13;
    case DebtRepaid => assert |s| == 11;
    case FeeCharged => assert |s| == 11;
    case Adjustment => assert |s| == 10;
    case CycleOpened => assert |s| == 12;
    case CycleClosed => assert |s| == 12;
    case IdentityCreated => assert |s| == 16;
    case WalletBound => assert |s| == 12;
    case WalletRevoked => assert |s| == 14;
  }

  datatype Direction = Credit | Debit

  /** What a service hands to the repository. */
  datatype LedgerEntryBuilder = LedgerEntryBuilder(
    eventType: LedgerEventType,
    aggregateType: string,
    aggregateId: Uuid,
    amountMinor: Option<int>,
    direction: Option<Direction>,
    payload: string,
    idempotencyKey: Option<string>,
    externalRef: Option<string>)
  {
    /** Finalises the entry; `seqNo` and `prevHash` come from the repository's read of the head. */
    function Build(sha: Digest, seqNo: int, prevHash: Option<string>): LedgerEntry
    {
      var payloadHash := sha(payload);
      LedgerEntry(seqNo, eventType, aggregateType, aggregateId, amountMinor, direction, payload,
                  payloadHash, prevHash, sha(ChainInput(seqNo, eventType, payloadHash, prevHash)),
                  idempotencyKey, externalRef)
    }
  }

  datatype LedgerEntry = LedgerEntry(
    seqNo: int,
    eventType: LedgerEventType,
    aggregateType: string,
    aggregateId: Uuid,
    amountMinor: Option<int>,
    direction: Option<Direction>,
    payload: string,
    payloadHash: string,
    prevHash: Option<string>,
    currentHash: string,
    idempotencyKey: Option<string>,
    externalRef: Option<string>)

  /** `seq:type:payload_hash:prev`, with the word GENESIS standing for an absent predecessor. */
  function ChainInput(seqNo: int, eventType: LedgerEventType, payloadHash: string, prevHash: Option<string>): string
  {
    Dec(seqNo) + ":" + (AsCanonical(eventType) + ":" + (payloadHash + ":" +
      (match prevHash case Some(h) => h case None => "GENESIS")))
  }

  function InputOf(e: LedgerEntry): string { ChainInput(e.seqNo, e.eventType, e.payloadHash, e.prevHash) }

  /** The three hash columns are CHAR(64). */
  predicate Stored(e: LedgerEntry)
  {
    |e.payloadHash| == 64 && |e.currentHash| == 64 && (e.prevHash.Some? ==> |e.prevHash.value| == 64)
  }

  predicate AllStored(es: seq<LedgerEntry>) { forall i | 0 <= i < |es| :: Stored(es[i]) }

  /** The digest function writes 64 characters. */
  ghost predicate HexDigest(sha: Digest) { forall s :: |sha(s)| == 64 }

  ghost predicate IsCollision(sha: Digest, p: (string, string)) { p.0 != p.1 && sha(p.0) == sha(p.1) }

  /**
   The hashed text is unambiguous for stored widths: every one of its four parts is recovered,
   and the GENESIS sentinel is never confused with a digest.
   */
  lemma ChainInputInjective(s: int, e: LedgerEventType, p: string, h: Option<string>,
                            s': int, e': LedgerEventType, p': string, h': Option<string>)
    requires |p| == |p'| == 64
    requires (h.Some? ==> |h.value| == 64) && (h'.Some? ==> |h'.value| == 64)
    requires ChainInput(s, e, p, h) == ChainInput(s', e', p', h')
    ensures s == s' && e == e' && p == p' && h == h'
  {
    var prev := match h case Some(x) => x case None => "GENESIS";
    var prev' := match h' case Some(x) => x case None => "GENESIS";
    DecHasNoColon(s);
    DecHasNoColon(s');
    ColonSplit(Dec(s), Dec(s'), AsCanonical(e) + ":" + (p + ":" + prev), AsCanonical(e') + ":" + (p' + ":" + prev'));
    DecInjective(s, s');
    CanonicalReadsBack(e);
    CanonicalReadsBack(e');
    ColonSplit(AsCanonical(e), AsCanonical(e'), p + ":" + prev, p' + ":" + prev');
    assert (p + ":" + prev)[..64] == p && (p' + ":" + prev')[..64] == p';
    assert (p + ":" + prev)[65..] == prev && (p' + ":" + prev')[65..] == prev';
    assert |prev| == |prev'|;
  }

  /** The widths matter: with free-length fields two different entries hash the same text, in two ways. */
  lemma AmbiguousWithoutWidths(s: int, e: LedgerEventType, a: string, b: string, c: string)
    ensures ChainInput(s, e, a + ":" + b, Some(c)) == ChainInput(s, e, a, Some(b + ":" + c))
    ensures ChainInput(s, e, a, Some("GENESIS")) == ChainInput(s, e, a, None)
  {
    assert (a + ":" + b) + ":" + c == a + ":" + (b + ":" + c);
  }

  // --------------------------------------------------------------------------
  // The kernel's verifier
  // --------------------------------------------------------------------------

  datatype ViolationKind = HashMismatch | ChainBreak | SequenceGap

  datatype IntegrityViolation = IntegrityViolation(seqNo: int, kind: ViolationKind)

  datatype IntegrityReport = IntegrityReport(totalEntries: nat, violations: seq<IntegrityViolation>, isValid: bool)

  predicate Contiguous(es: seq<LedgerEntry>, i: nat)
    requires i < |es|
  {
    i > 0 ==> es[i].seqNo == es[i - 1].seqNo + 1
  }

  function ExpectedPrev(es: seq<LedgerEntry>, i: nat): Option<string>
    requires i < |es|
  {
    if es[i].seqNo == 1 || i == 0 then None else Some(es[i - 1].currentHash)
  }

  predicate Linked(es: seq<LedgerEntry>, i: nat)
    requires i < |es|
  {
    es[i].prevHash == ExpectedPrev(es, i)
  }

  predicate Hashed(sha: Digest, e: LedgerEntry) { e.currentHash == sha(InputOf(e)) }

  /** What the kernel's verifier asks of position `i`. */
  predicate Sound(sha: Digest, es: seq<LedgerEntry>, i: nat)
    requires i < |es|
  {
    Contiguous(es, i) && Linked(es, i) && Hashed(sha, es[i])
  }

  /** What acceptance by the kernel's verifier means. */
  predicate KernelAccepts(sha: Digest, es: seq<LedgerEntry>)
  {
    forall i | 0 <= i < |es| :: Sound(sha, es, i)
  }

  function Report(bad: bool, seqNo: int, kind: ViolationKind): seq<IntegrityViolation>
  {
    if bad then [IntegrityViolation(seqNo, kind)] else []
  }

  /** The violations found at position `i`: gap, then broken link, then wrong hash. */
  function ViolationsAt(sha: Digest, es: seq<LedgerEntry>, i: nat): (vs: seq<IntegrityViolation>)
    requires i < |es|
    ensures vs == [] <==> Sound(sha, es, i)
  {
    Report(!Contiguous(es, i), es[i].seqNo, SequenceGap)
    + Report(!Linked(es, i), es[i].seqNo, ChainBreak)
    + Report(!Hashed(sha, es[i]), es[i].seqNo, HashMismatch)
  }

  /** The violations of the first `n` entries, in ledger order. */
  function Violations(sha: Digest, es: seq<LedgerEntry>, n: nat): seq<IntegrityViolation>
    requires n <= |es|
  {
    if n == 0 then [] else Violations(sha, es, n - 1) + ViolationsAt(sha, es, n - 1)
  }

  lemma {:induction false} NoViolationsMeansSound(sha: Digest, es: seq<LedgerEntry>, n: nat)
    requires n <= |es|
    ensures Violations(sha, es, n) == [] <==> forall i | 0 <= i < n :: Sound(sha, es, i)
  {
    hide ViolationsAt, Sound;
    if n > 0 {
      NoViolationsMeansSound(sha, es, n - 1);
    }
  }

  /** What is wrong at position `i` when a violation of this kind is due there. */
  ghost predicate Fault(sha: Digest, es: seq<LedgerEntry>, i: nat, kind: ViolationKind)
    requires i < |es|
  {
    var e := es[i];
    match kind
    case SequenceGap => i > 0 && es[i - 1].seqNo != e.seqNo - 1
    case ChainBreak => e.prevHash != if e.seqNo == 1 || i == 0 then None else Some(es[i - 1].currentHash)
    case HashMismatch => e.currentHash != sha(ChainInput(e.seqNo, e.eventType, e.payloadHash, e.prevHash))
  }

  /** A place where something can be wrong, in the order in which violations are reported. */
  datatype Place = Place(at: nat, kind: ViolationKind)
  {
    function Rank(): nat { match kind case SequenceGap => 0 case ChainBreak => 1 case HashMismatch => 2 }

    predicate Before(other: Place) { at < other.at || (at == other.at && Rank() < other.Rank()) }
  }

  /** These places are where the first `n` entries are at fault, all of them, each once and in order. */
  ghost predicate AreTheFaults(sha: Digest, es: seq<LedgerEntry>, n: nat, places: seq<Place>)
    requires n <= |es|
  {
    && (forall k | 0 <= k < |places| :: places[k].at < n && Fault(sha, es, places[k].at, places[k].kind))
    && (forall i, kind | 0 <= i < n && Fault(sha, es, i, kind) :: Place(i, kind) in places)
    && (forall k, m | 0 <= k < m < |places| :: places[k].Before(places[m]))
  }

  ghost predicate ReportedAt(es: seq<LedgerEntry>, vs: seq<IntegrityViolation>, places: seq<Place>)
  {
    |vs| == |places| && forall k | 0 <= k < |places| ::
      places[k].at < |es| && vs[k] == IntegrityViolation(es[places[k].at].seqNo, places[k].kind)
  }

  /** The faults of one entry. */
  ghost function FaultsAt(sha: Digest, es: seq<LedgerEntry>, i: nat): seq<Place>
    requires i < |es|
  {
    (if Fault(sha, es, i, SequenceGap) then [Place(i, SequenceGap)] else [])
    + (if Fault(sha, es, i, ChainBreak) then [Place(i, ChainBreak)] else [])
    + (if Fault(sha, es, i, HashMismatch) then [Place(i, HashMismatch)] else [])
  }

  lemma ReportedWhereFaulty(sha: Digest, es: seq<LedgerEntry>, i: nat)
    requires i < |es|
    ensures ReportedAt(es, ViolationsAt(sha, es, i), FaultsAt(sha, es, i))
  {
    hide ChainInput;
  }

  lemma FaultsOfOne(sha: Digest, es: seq<LedgerEntry>, i: nat)
    requires i < |es|
    ensures var places := FaultsAt(sha, es, i);
      && (forall k | 0 <= k < |places| :: places[k].at == i && Fault(sha, es, i, places[k].kind))
      && (forall kind | Fault(sha, es, i, kind) :: Place(i, kind) in places)
      && (forall k, m | 0 <= k < m < |places| :: places[k].Before(places[m]))
  {
    hide Fault;
    forall kind | Fault(sha, es, i, kind)
      ensures Place(i, kind) in FaultsAt(sha, es, i)
    {
      match kind {
        case SequenceGap =>
        case ChainBreak =>
        case HashMismatch =>
      }
    }
  }

  /** What is reported is what is wrong: every fault once, by position, and at one position gap, link, hash. */
  lemma {:induction false} ViolationsAreTheFaults(sha: Digest, es: seq<LedgerEntry>, n: nat)
    returns (places: seq<Place>)
    requires n <= |es|
    ensures AreTheFaults(sha, es, n, places) && ReportedAt(es, Violations(sha, es, n), places)
  {
    hide AreTheFaults, ReportedAt, FaultsAt, ViolationsAt;
    if n == 0 {
      places := [];
      NoFaultsYet(sha, es);
    } else {
      var before := ViolationsAreTheFaults(sha, es, n - 1);
      places := before + FaultsAt(sha, es, n - 1);
      ReportedWhereFaulty(sha, es, n - 1);
      MoreReports(es, Violations(sha, es, n - 1), before, ViolationsAt(sha, es, n - 1), FaultsAt(sha, es, n - 1));
      MoreFaults(sha, es, n - 1, before);
    }
  }

  lemma NoFaultsYet(sha: Digest, es: seq<LedgerEntry>)
    ensures AreTheFaults(sha, es, 0, []) && ReportedAt(es, [], [])
  {
  }

  lemma MoreReports(es: seq<LedgerEntry>, vs: seq<IntegrityViolation>, before: seq<Place>,
                    ws: seq<IntegrityViolation>, here: seq<Place>)
    requires ReportedAt(es, vs, before) && ReportedAt(es, ws, here)
    ensures ReportedAt(es, vs + ws, before + here)
  {
  }

  lemma MoreFaults(sha: Digest, es: seq<LedgerEntry>, n: nat, before: seq<Place>)
    requires n < |es| && AreTheFaults(sha, es, n, before)
    ensures AreTheFaults(sha, es, n + 1, before + FaultsAt(sha, es, n))
  {
    hide Fault, FaultsAt;
    FaultsOfOne(sha, es, n);
    var places := before + FaultsAt(sha, es, n);
    forall i, kind | 0 <= i < n + 1 && Fault(sha, es, i, kind)
      ensures Place(i, kind) in places
    {
      if i < n {
        assert Place(i, kind) in before;
      }
    }
  }

  /** The entries of this number with a fault of this kind. */
  ghost predicate FaultNumbered(sha: Digest, es: seq<LedgerEntry>, n: int, kind: ViolationKind)
  {
    exists i | 0 <= i < |es| :: es[i].seqNo == n && Fault(sha, es, i, kind)
  }

  lemma ReportedIffFaulty(sha: Digest, es: seq<LedgerEntry>, vs: seq<IntegrityViolation>, places: seq<Place>)
    requires AreTheFaults(sha, es, |es|, places) && ReportedAt(es, vs, places)
    ensures forall n, kind :: IntegrityViolation(n, kind) in vs <==> FaultNumbered(sha, es, n, kind)
  {
    hide Fault;
    forall n, kind
      ensures IntegrityViolation(n, kind) in vs <==> FaultNumbered(sha, es, n, kind)
    {
      if FaultNumbered(sha, es, n, kind) {
        var i :| 0 <= i < |es| && es[i].seqNo == n && Fault(sha, es, i, kind);
        assert Place(i, kind) in places;
        var k :| 0 <= k < |places| && places[k] == Place(i, kind);
        assert vs[k] == IntegrityViolation(n, kind);
      }
      if IntegrityViolation(n, kind) in vs {
        var k :| 0 <= k < |vs| && vs[k] == IntegrityViolation(n, kind);
        assert es[places[k].at].seqNo == n && Fault(sha, es, places[k].at, kind);
      }
    }
  }

  /**
   One pass over the entries reports every gap, every broken link and every wrong hash under the number of its entry,
   once each and in order, and nothing else; a ledger is valid exactly when every position is sound.
   */
  method VerifyChain(sha: Digest, entries: seq<LedgerEntry>) returns (report: IntegrityReport, ghost places: seq<Place>)
    ensures report.totalEntries == |entries|
    ensures forall n, kind ::
      IntegrityViolation(n, kind) in report.violations <==> FaultNumbered(sha, entries, n, kind)
    ensures AreTheFaults(sha, entries, |entries|, places) && ReportedAt(entries, report.violations, places)
    ensures report.isValid <==> KernelAccepts(sha, entries)
  {
    hide ChainInput, Sound;
    var violations: seq<IntegrityViolation> := [];
    var prevHash: Option<string> := None;
    var prevSeq: Option<int> := None;
    for i := 0 to |entries|
      invariant violations == Violations(sha, entries, i)
      invariant prevHash == (if i == 0 then None else Some(entries[i - 1].currentHash))
      invariant prevSeq == (if i == 0 then None else Some(entries[i - 1].seqNo))
    {
      var entry := entries[i];
      var found: seq<IntegrityViolation> := [];
      if prevSeq.Some? && entry.seqNo != prevSeq.value + 1 {
        found := found + [IntegrityViolation(entry.seqNo, SequenceGap)];
      }
      assert found == Report(!Contiguous(entries, i), entry.seqNo, SequenceGap);
      var expectedPrev := if entry.seqNo == 1 then None else prevHash;
      if entry.prevHash != expectedPrev {
        found := found + [IntegrityViolation(entry.seqNo, ChainBreak)];
      }
      if entry.currentHash != sha(InputOf(entry)) {
        found := found + [IntegrityViolation(entry.seqNo, HashMismatch)];
      }
      assert found == ViolationsAt(sha, entries, i);
      violations := violations + found;
      prevHash := Some(entry.currentHash);
      prevSeq := Some(entry.seqNo);
    }
    NoViolationsMeansSound(sha, entries, |entries|);
    places := ViolationsAreTheFaults(sha, entries, |entries|);
    ReportedIffFaulty(sha, entries, violations, places);
    report := IntegrityReport(|entries|, violations, violations == []);
  }

  // --------------------------------------------------------------------------
  // The audit service's verifier
  // --------------------------------------------------------------------------

  /** The text the audit service hashes at position `i`: it trusts the running hash, not the stored `prev_hash`. */
  function AuditInput(es: seq<LedgerEntry>, i: nat): string
    requires i < |es|
  {
    ChainInput(es[i].seqNo, es[i].eventType, es[i].payloadHash, if i == 0 then None else Some(es[i - 1].currentHash))
  }

  predicate AuditSound(sha: Digest, es: seq<LedgerEntry>, i: nat)
    requires i < |es|
  {
    es[i].currentHash == sha(AuditInput(es, i))
  }

  predicate AuditAccepts(sha: Digest, es: seq<LedgerEntry>)
  {
    forall i | 0 <= i < |es| :: AuditSound(sha, es, i)
  }

  /** The positions among the first `n` that fail the audit, in order. */
  function AuditViolations(sha: Digest, es: seq<LedgerEntry>, n: nat): seq<nat>
    requires n <= |es|
  {
    if n == 0 then [] else
      AuditViolations(sha, es, n - 1) + (if AuditSound(sha, es, n - 1) then [] else [n - 1])
  }

  /** The positions in a list are the failing ones among the first `n`, each once and in order. */
  ghost predicate AreTheFailures(sha: Digest, es: seq<LedgerEntry>, n: nat, vs: seq<nat>)
    requires n <= |es|
  {
    && (forall k | 0 <= k < |vs| :: vs[k] < n && !AuditSound(sha, es, vs[k]))
    && (forall i | 0 <= i < n && !AuditSound(sha, es, i) :: i in vs)
    && (forall k, m | 0 <= k < m < |vs| :: vs[k] < vs[m])
  }

  lemma {:induction false} AuditReportsTheFailures(sha: Digest, es: seq<LedgerEntry>, n: nat)
    requires n <= |es|
    ensures AreTheFailures(sha, es, n, AuditViolations(sha, es, n))
  {
    hide AuditSound, AreTheFailures;
    if n == 0 {
      NoFailuresYet(sha, es);
    } else {
      AuditReportsTheFailures(sha, es, n - 1);
      OneMoreFailure(sha, es, n - 1, AuditViolations(sha, es, n - 1));
    }
  }

  lemma NoFailuresYet(sha: Digest, es: seq<LedgerEntry>)
    ensures AreTheFailures(sha, es, 0, [])
  {
  }

  lemma OneMoreFailure(sha: Digest, es: seq<LedgerEntry>, n: nat, vs: seq<nat>)
    requires n < |es| && AreTheFailures(sha, es, n, vs)
    ensures AreTheFailures(sha, es, n + 1, vs + (if AuditSound(sha, es, n) then [] else [n]))
  {
    hide AuditSound;
    var more := vs + (if AuditSound(sha, es, n) then [] else [n]);
    forall i | 0 <= i < n + 1 && !AuditSound(sha, es, i)
      ensures i in more
    {
      if i == n {
        assert more[|vs|] == n;
      }
    }
  }

  lemma FailuresDecide(sha: Digest, es: seq<LedgerEntry>, vs: seq<nat>)
    requires AreTheFailures(sha, es, |es|, vs)
    ensures vs == [] <==> AuditAccepts(sha, es)
    ensures forall i: nat :: i in vs <==> i < |es| && !AuditSound(sha, es, i)
  {
    hide AuditSound;
    if vs != [] {
      assert !AuditSound(sha, es, vs[0]);
    }
  }

  /**
   The secondary verification of the audit export: the positions whose stored hash is not the digest of their own text
   and of the stored hash before them, each once and in order.
   */
  method VerifyLedgerIntegrity(sha: Digest, entries: seq<LedgerEntry>) returns (ok: bool, violations: seq<nat>)
    ensures ok <==> AuditAccepts(sha, entries)
    ensures forall i: nat :: i in violations <==>
      i < |entries| && entries[i].currentHash !=
        sha(ChainInput(entries[i].seqNo, entries[i].eventType, entries[i].payloadHash,
                       if i == 0 then None else Some(entries[i - 1].currentHash)))
    ensures forall k, m | 0 <= k < m < |violations| :: violations[k] < violations[m]
  {
    hide ChainInput;
    violations := [];
    var prevHash: Option<string> := None;
    for i := 0 to |entries|
      invariant prevHash == (if i == 0 then None else Some(entries[i - 1].currentHash))
      invariant violations == AuditViolations(sha, entries, i)
    {
      var e := entries[i];
      var expected := sha(ChainInput(e.seqNo, e.eventType, e.payloadHash, prevHash));
      assert AuditSound(sha, entries, i) <==> e.currentHash == expected;
      if e.currentHash != expected {
        violations := violations + [i];
      }
      prevHash := Some(e.currentHash);
    }
    AuditReportsTheFailures(sha, entries, |entries|);
    FailuresDecide(sha, entries, violations);
    ok := violations == [];
  }
}
