/**
 The ledger table: rows numbered by a BIGSERIAL column whose counter is not transactional.
 The INSERT does not name `seq_no`, so the number a row carries comes from the counter, while the
 hash it carries was computed from the number of the previous row plus one.
 */
module LedgerTable {
  import opened Wrappers
  import opened Ids
  import opened Ledger
  import LedgerTheorems

  /** The number that goes into the hash: one after the head row, or 1. */
  function HashedSeq(ledger: seq<LedgerEntry>): int
  {
    if ledger == [] then 1 else ledger[|ledger| - 1].seqNo + 1
  }

  function HeadHash(ledger: seq<LedgerEntry>): Option<string>
  {
    if ledger == [] then None else Some(ledger[|ledger| - 1].currentHash)
  }

  /** The row a successful insert stores, with the number `nextVal` drawn from the counter. */
  function NewRow(sha: Digest, ledger: seq<LedgerEntry>, nextVal: int, b: LedgerEntryBuilder): (e: LedgerEntry)
    ensures e.seqNo == nextVal && e.eventType == b.eventType && e.aggregateId == b.aggregateId
    ensures e.amountMinor == b.amountMinor && e.direction == b.direction
    ensures e.idempotencyKey == b.idempotencyKey && e.externalRef == b.externalRef
  {
    b.Build(sha, HashedSeq(ledger), HeadHash(ledger)).(seqNo := nextVal)
  }

  function Appended(sha: Digest, ledger: seq<LedgerEntry>, nextVal: int, b: LedgerEntryBuilder): seq<LedgerEntry>
  {
    ledger + [NewRow(sha, ledger, nextVal, b)]
  }

  predicate HasKey(ledger: seq<LedgerEntry>, key: string)
  {
    exists i | 0 <= i < |ledger| :: ledger[i].idempotencyKey == Some(key)
  }

  /** UNIQUE (idempotency_key); absent keys are exempt. */
  predicate KeyFree(ledger: seq<LedgerEntry>, key: Option<string>)
  {
    key.Some? ==> !HasKey(ledger, key.value)
  }

  ghost predicate KeysDistinct(ledger: seq<LedgerEntry>)
  {
    forall i, j | 0 <= i < j < |ledger| && ledger[i].idempotencyKey.Some? ::
      ledger[i].idempotencyKey != ledger[j].idempotencyKey
  }

  /** How row `i` was hashed when it was written. */
  ghost predicate WrittenAt(sha: Digest, ledger: seq<LedgerEntry>, i: nat)
    requires i < |ledger|
  {
    var e, before := ledger[i], ledger[..i];
    && e.payloadHash == sha(e.payload)
    && e.prevHash == HeadHash(before)
    && e.currentHash == sha(ChainInput(HashedSeq(before), e.eventType, e.payloadHash, e.prevHash))
    && HashedSeq(before) <= e.seqNo
  }

  /** What every append keeps. */
  ghost predicate Written(sha: Digest, ledger: seq<LedgerEntry>, nextVal: int)
  {
    && (forall i | 0 <= i < |ledger| :: WrittenAt(sha, ledger, i))
    && HashedSeq(ledger) <= nextVal
  }

  lemma AppendKeepsWritten(sha: Digest, ledger: seq<LedgerEntry>, nextVal: int, b: LedgerEntryBuilder)
    requires Written(sha, ledger, nextVal)
    ensures Written(sha, Appended(sha, ledger, nextVal, b), nextVal + 1)
  {
    hide ChainInput;
    var after := Appended(sha, ledger, nextVal, b);
    forall i | 0 <= i < |after|
      ensures WrittenAt(sha, after, i)
    {
      assert after[..i] == ledger[..i];
      if i == |ledger| {
        assert ledger[..i] == ledger;
      } else {
        assert WrittenAt(sha, ledger, i);
      }
    }
  }

  lemma AppendKeepsKeysDistinct(sha: Digest, ledger: seq<LedgerEntry>, nextVal: int, b: LedgerEntryBuilder)
    requires KeysDistinct(ledger) && KeyFree(ledger, b.idempotencyKey)
    ensures KeysDistinct(Appended(sha, ledger, nextVal, b))
  {
  }

  /** No number was lost: the rows are numbered 1, 2, 3, ... */
  ghost predicate Gapless(ledger: seq<LedgerEntry>) { forall i | 0 <= i < |ledger| :: ledger[i].seqNo == i + 1 }

  /** The pair of texts that would have to collide for a ledger whose first number was lost to verify. */
  function FirstRowCollision(ledger: seq<LedgerEntry>): (string, string)
    requires ledger != []
  {
    (InputOf(ledger[0]), ChainInput(1, ledger[0].eventType, ledger[0].payloadHash, ledger[0].prevHash))
  }

  lemma {:induction false} NumbersAtLeast(sha: Digest, ledger: seq<LedgerEntry>, nextVal: int, i: nat)
    requires Written(sha, ledger, nextVal) && i < |ledger|
    ensures ledger[i].seqNo >= i + 1
  {
    hide ChainInput;
    assert WrittenAt(sha, ledger, i);
    if i > 0 {
      NumbersAtLeast(sha, ledger, nextVal, i - 1);
      assert ledger[..i][i - 1] == ledger[i - 1];
    }
  }

  /** The number that comes next after the rows before `i`. */
  function NumberDue(ledger: seq<LedgerEntry>, i: nat): int
    requires i < |ledger|
  {
    if i == 0 then 1 else ledger[i - 1].seqNo + 1
  }

  /**
   In a written ledger only a row right after a lost number is at fault, and every such row is, or a collision is
   exhibited: behind a gap the ledger is sound again.
   */
  lemma OnlyRowsAfterGapsFail(sha: Digest, ledger: seq<LedgerEntry>, nextVal: int, i: nat)
    requires HexDigest(sha) && Written(sha, ledger, nextVal) && i < |ledger|
    ensures ledger[i].seqNo == NumberDue(ledger, i) ==> Sound(sha, ledger, i)
    ensures ledger[i].seqNo != NumberDue(ledger, i) && Sound(sha, ledger, i) ==>
      var e := ledger[i];
      IsCollision(sha, (InputOf(e), ChainInput(NumberDue(ledger, i), e.eventType, e.payloadHash, e.prevHash)))
  {
    hide ChainInput;
    var e, due := ledger[i], NumberDue(ledger, i);
    assert WrittenAt(sha, ledger, i);
    if i == 0 {
      assert ledger[..0] == [];
    } else {
      NumbersAtLeast(sha, ledger, nextVal, i - 1);
      assert ledger[..i][i - 1] == ledger[i - 1];
    }
    if InputOf(e) == ChainInput(due, e.eventType, e.payloadHash, e.prevHash) && Sound(sha, ledger, i) {
      assert |e.payloadHash| == 64 && (e.prevHash.Some? ==> |e.prevHash.value| == 64) by {
        StoredWidths(sha, ledger, nextVal, i);
      }
      ChainInputInjective(e.seqNo, e.eventType, e.payloadHash, e.prevHash, due, e.eventType, e.payloadHash, e.prevHash);
    }
  }

  lemma StoredWidths(sha: Digest, ledger: seq<LedgerEntry>, nextVal: int, i: nat)
    requires HexDigest(sha) && Written(sha, ledger, nextVal) && i < |ledger|
    ensures |ledger[i].payloadHash| == 64 && (ledger[i].prevHash.Some? ==> |ledger[i].prevHash.value| == 64)
  {
    hide ChainInput;
    assert WrittenAt(sha, ledger, i);
    if i > 0 {
      assert WrittenAt(sha, ledger, i - 1);
      assert ledger[..i][i - 1] == ledger[i - 1];
    }
  }

  /** A written ledger verifies exactly when it has no gap, up to an exhibited collision. */
  lemma VerifiesIffGapless(sha: Digest, ledger: seq<LedgerEntry>, nextVal: int)
    requires HexDigest(sha) && Written(sha, ledger, nextVal)
    ensures Gapless(ledger) ==> KernelAccepts(sha, ledger)
    ensures KernelAccepts(sha, ledger) && !Gapless(ledger) ==> IsCollision(sha, FirstRowCollision(ledger))
  {
    hide ChainInput;
    if Gapless(ledger) {
      forall i | 0 <= i < |ledger|
        ensures Sound(sha, ledger, i)
      {
        assert WrittenAt(sha, ledger, i);
        assert i > 0 ==> ledger[..i][i - 1] == ledger[i - 1];
      }
    } else if KernelAccepts(sha, ledger) {
      var i :| 0 <= i < |ledger| && ledger[i].seqNo != i + 1;
      LedgerTheorems.SeqNoFromStart(sha, ledger, i);
      var e := ledger[0];
      assert Sound(sha, ledger, 0) && WrittenAt(sha, ledger, 0);
      assert ledger[..0] == [];
      if InputOf(e) == FirstRowCollision(ledger).1 {
        ChainInputInjective(e.seqNo, e.eventType, e.payloadHash, e.prevHash, 1, e.eventType, e.payloadHash, e.prevHash);
      }
    }
  }

  // --------------------------------------------------------------------------
  // Runs of append transactions
  // --------------------------------------------------------------------------

  /** One transaction that appends `entry`; `fails` says that a later statement of it fails. */
  datatype Attempt = Attempt(entry: LedgerEntryBuilder, fails: bool)

  datatype Table = Table(ledger: seq<LedgerEntry>, nextVal: int)

  predicate Commits(t: Table, a: Attempt) { !a.fails && KeyFree(t.ledger, a.entry.idempotencyKey) }

  /** The counter moves whether or not the transaction commits. */
  function Attempted(sha: Digest, t: Table, a: Attempt): Table
  {
    Table(if Commits(t, a) then Appended(sha, t.ledger, t.nextVal, a.entry) else t.ledger, t.nextVal + 1)
  }

  function RunAppends(sha: Digest, run: seq<Attempt>): Table
  {
    if run == [] then Table([], 1) else Attempted(sha, RunAppends(sha, run[..|run| - 1]), run[|run| - 1])
  }

  ghost predicate CommittedAt(sha: Digest, run: seq<Attempt>, i: nat)
    requires i < |run|
  {
    Commits(RunAppends(sha, run[..i]), run[i])
  }

  /** No transaction that aborts is followed by one that commits. */
  ghost predicate NothingBurnedBeforeACommit(sha: Digest, run: seq<Attempt>)
  {
    forall i, j | 0 <= i < j < |run| && CommittedAt(sha, run, j) :: CommittedAt(sha, run, i)
  }

  lemma {:induction false} RunIsWritten(sha: Digest, run: seq<Attempt>)
    ensures var t := RunAppends(sha, run);
      Written(sha, t.ledger, t.nextVal) && KeysDistinct(t.ledger) && t.nextVal == |run| + 1 && |t.ledger| <= |run|
  {
    hide ChainInput;
    if run != [] {
      var n := |run| - 1;
      RunIsWritten(sha, run[..n]);
      var t := RunAppends(sha, run[..n]);
      AppendKeepsWritten(sha, t.ledger, t.nextVal, run[n].entry);
    }
  }

  lemma {:induction false} GaplessIffNothingBurned(sha: Digest, run: seq<Attempt>)
    ensures Gapless(RunAppends(sha, run).ledger) <==> NothingBurnedBeforeACommit(sha, run)
    ensures (forall i | 0 <= i < |run| :: CommittedAt(sha, run, i)) <==> |RunAppends(sha, run).ledger| == |run|
  {
    hide ChainInput;
    if run != [] {
      var n := |run| - 1;
      var before := run[..n];
      var t := RunAppends(sha, before);
      GaplessIffNothingBurned(sha, before);
      RunIsWritten(sha, before);
      assert forall i | 0 <= i < n :: run[..i] == before[..i];
      assert forall i | 0 <= i < n :: CommittedAt(sha, run, i) == CommittedAt(sha, before, i);
      assert CommittedAt(sha, run, n) == Commits(t, run[n]);
      if CommittedAt(sha, run, n) {
        var after := RunAppends(sha, run).ledger;
        assert after[..|t.ledger|] == t.ledger;
        assert after[|t.ledger|].seqNo == n + 1;
        if Gapless(after) {
          assert |t.ledger| == n;
        }
      }
    }
  }

  /**
   For every run: the stored ledger verifies exactly when no number was burned before a committed
   append (or a collision is exhibited). In particular a run without aborts verifies.
   */
  lemma VerifiesIffNothingBurned(sha: Digest, run: seq<Attempt>)
    requires HexDigest(sha)
    ensures var ledger := RunAppends(sha, run).ledger;
      && (NothingBurnedBeforeACommit(sha, run) ==> KernelAccepts(sha, ledger))
      && (KernelAccepts(sha, ledger) && !NothingBurnedBeforeACommit(sha, run) ==>
            ledger != [] && IsCollision(sha, FirstRowCollision(ledger)))
  {
    hide ChainInput;
    RunIsWritten(sha, run);
    GaplessIffNothingBurned(sha, run);
    VerifiesIffGapless(sha, RunAppends(sha, run).ledger, RunAppends(sha, run).nextVal);
  }
}
