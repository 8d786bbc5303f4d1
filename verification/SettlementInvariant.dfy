/** What every transaction of the kernel keeps, in every interleaving. */
module SettlementInvariant {
  import opened Wrappers
  import opened Sums
  import opened Ids
  import opened Text
  import opened Keys
  import opened Ledger
  import opened LedgerTable
  import opened Cycles
  import opened Debts
  import opened Database
  import opened Settlement

  // --------------------------------------------------------------------------
  // The parts of the invariant
  // --------------------------------------------------------------------------

  /** What the event type of a row says about its key, its aggregate, its amount and its direction. */
  ghost predicate Shape(cycles: map<Uuid, Cycle>, e: LedgerEntry)
  {
    e.idempotencyKey.Some? &&
    var key := e.idempotencyKey.value;
    match e.eventType
    case ContributionReceived =>
      e.externalRef.Some? && key == ContribKey(e.externalRef.value) && e.aggregateId in cycles &&
      e.amountMinor.Some? && e.amountMinor.value > 0 && e.direction == Some(Credit)
    case ContributionQuarantined =>
      e.externalRef.Some? && key == QuarantineKey(e.externalRef.value) && e.aggregateId in cycles &&
      e.amountMinor.Some? && e.amountMinor.value > 0 && e.direction == Some(Credit)
    case PayoutInitiated =>
      e.aggregateId in cycles && key == KeyOf(e.aggregateId, cycles[e.aggregateId]) &&
      e.amountMinor.Some? && e.direction == Some(Debit)
    case PayoutConfirmed =>
      e.externalRef.Some? && key == ConfirmKey(e.externalRef.value) && e.aggregateId in cycles &&
      e.amountMinor.None? && e.direction.None?
    case PayoutFailed =>
      e.externalRef.Some? && key == FailKey(e.externalRef.value) && e.aggregateId in cycles &&
      e.amountMinor.None? && e.direction.None?
    case AdvanceIssued =>
      Family(key) in {"advance", "hybrid"} && e.amountMinor.Some? && e.direction == Some(Debit)
    case DebtRecorded => Family(key) == "debt" && e.amountMinor.Some? && e.direction == Some(Debit)
    case DebtRepaid => Family(key) == "repay" && e.amountMinor.Some? && e.direction == Some(Credit)
    case Adjustment => Family(key) == "prorata" && e.amountMinor.Some? && e.direction == Some(Debit)
    case _ => false
  }

  ghost predicate Shapes(t: Tables) { forall i | 0 <= i < |t.ledger| :: Shape(t.cycles, t.ledger[i]) }

  ghost predicate LedgerOk(sha: Digest, db: Db)
  {
    Written(sha, db.t.ledger, db.nextVal) && KeysDistinct(db.t.ledger)
  }

  /** The rows of the given types, in ledger order. */
  ghost function RowsOf(ledger: seq<LedgerEntry>, types: set<LedgerEventType>): seq<LedgerEntry>
  {
    if ledger == [] then [] else
      var n := |ledger| - 1;
      RowsOf(ledger[..n], types) + (if ledger[n].eventType in types then [ledger[n]] else [])
  }

  /** The event types that come with an outbox event. */
  const PUBLISHED: set<LedgerEventType> :=
    {ContributionReceived, ContributionQuarantined, PayoutInitiated,
     LedgerEventType.PayoutConfirmed, LedgerEventType.PayoutFailed, Adjustment}

  /** The event types that come with a contribution row. */
  const CONTRIBUTIONS: set<LedgerEventType> := {ContributionReceived, ContributionQuarantined}

  function EventName(e: LedgerEventType): string
  {
    match e
    case ContributionReceived => "contribution.received"
    case ContributionQuarantined => "contribution.quarantined"
    case PayoutInitiated => "payout.triggered"
    case PayoutConfirmed => "payout.confirmed"
    case PayoutFailed => "payout.failed"
    case _ => "pro_rata.dispatched"
  }

  /** The event that goes with a row: payout commands to the gateway, everything else to the notifications. */
  function Announcement(e: LedgerEventType, id: Uuid, key: string): OutboxEvent
  {
    OutboxEvent(EventName(e), id, if e == PayoutInitiated then "mobile-money-gw" else "notification-svc", key)
  }

  predicate Announces(e: OutboxEvent, row: LedgerEntry)
  {
    row.idempotencyKey.Some? && e == Announcement(row.eventType, row.aggregateId, row.idempotencyKey.value)
  }

  /** The outbox holds the events of the published rows, in ledger order. */
  ghost predicate OutboxOk(t: Tables)
  {
    var rows := RowsOf(t.ledger, PUBLISHED);
    |t.outbox| == |rows| && forall k | 0 <= k < |rows| :: Announces(t.outbox[k], rows[k])
  }

  predicate Records(c: Contribution, row: LedgerEntry)
  {
    && row.aggregateId == c.cycleId && row.externalRef == Some(c.providerTxRef)
    && row.amountMinor == Some(c.amountMinor) && row.direction == Some(Credit)
    && (c.status == StatusReconciled <==> row.eventType == ContributionReceived)
  }

  /** A contribution names its cycle's beneficiary and a valid number, and its payer exactly when it is reconciled. */
  ghost predicate ContributionOk(cycles: map<Uuid, Cycle>, c: Contribution)
  {
    && c.cycleId in cycles && c.beneficiaryId == cycles[c.cycleId].beneficiaryId
    && (c.payerIdentityId.Some? <==> c.status == StatusReconciled)
    && ValidMsisdn(c.payerMsisdn)
  }

  /** The contributions are those of the ledger, in ledger order. */
  ghost predicate RegisterOk(t: Tables)
  {
    var rows := RowsOf(t.ledger, CONTRIBUTIONS);
    && |t.contributions| == |rows|
    && (forall k | 0 <= k < |rows| :: Records(t.contributions[k], rows[k]))
    && (forall k | 0 <= k < |rows| :: ContributionOk(t.cycles, t.contributions[k]))
  }

  ghost function ReconciledFor(id: Uuid): Contribution -> int
  {
    (c: Contribution) => if c.cycleId == id && c.status == StatusReconciled then c.amountMinor else 0
  }

  ghost function CreditsFor(id: Uuid): LedgerEntry -> int
  {
    (e: LedgerEntry) =>
      if e.eventType == ContributionReceived && e.aggregateId == id && e.direction == Some(Credit)
         && e.amountMinor.Some?
      then e.amountMinor.value else 0
  }

  /** A cycle's counter is the sum of its reconciled contributions and the sum of its ledger credits. */
  ghost predicate MoneyOk(t: Tables)
  {
    && (forall i | 0 <= i < |t.contributions| :: t.contributions[i].cycleId in t.cycles)
    && (forall id | id in t.cycles ::
          t.cycles[id].collectedAmountMinor == Sum(t.contributions, ReconciledFor(id)) == Sum(t.ledger, CreditsFor(id)))
  }

  /** References are used once, and every reference a ledger key mentions has its contribution row. */
  ghost predicate RefsOk(t: Tables)
  {
    && (forall i, j | 0 <= i < j < |t.contributions| ::
          t.contributions[i].providerTxRef != t.contributions[j].providerTxRef)
    && (forall i | 0 <= i < |t.ledger| &&
          t.ledger[i].eventType in {ContributionReceived, ContributionQuarantined} && t.ledger[i].externalRef.Some? ::
          HasRef(t.contributions, t.ledger[i].externalRef.value))
  }

  predicate Left(s: CycleState) { s != Open && s != Committed }

  ghost predicate HasEvent(ledger: seq<LedgerEntry>, e: LedgerEventType, id: Uuid)
  {
    exists i | 0 <= i < |ledger| :: ledger[i].eventType == e && ledger[i].aggregateId == id
  }

  /** A payout row pays between the threshold and the collected total of a cycle that no longer collects. */
  ghost predicate PayoutRowOk(cycles: map<Uuid, Cycle>, e: LedgerEntry)
  {
    e.eventType == PayoutInitiated ==>
      && e.aggregateId in cycles && e.amountMinor.Some?
      && cycles[e.aggregateId].payoutThresholdMinor <= e.amountMinor.value <= cycles[e.aggregateId].collectedAmountMinor
      && Left(cycles[e.aggregateId].state)
  }

  ghost predicate PayoutsOk(t: Tables) { forall i | 0 <= i < |t.ledger| :: PayoutRowOk(t.cycles, t.ledger[i]) }

  ghost predicate CycleOk(t: Tables, id: Uuid)
    requires id in t.cycles
  {
    var c := t.cycles[id];
    && Coupled(c.state, c.payoutState)
    && (c.payoutState in {Pending, Sent, Confirmed} ==> HasEvent(t.ledger, PayoutInitiated, id))
    && (c.state == Closed ==> HasEvent(t.ledger, LedgerEventType.PayoutConfirmed, id))
    && (c.payoutIdempotencyKey.Some? ==>
          c.payoutIdempotencyKey.value == KeyOf(id, c) && HasKey(t.ledger, KeyOf(id, c)))
    && 0 < c.payoutThresholdMinor && 0 <= c.collectedAmountMinor <= MAX_I64
  }

  ghost predicate CyclesOk(t: Tables) { forall id | id in t.cycles :: CycleOk(t, id) }

  /** Every confirmation comes after the initiation of the same cycle's payout. */
  ghost predicate ConfirmationsFollow(ledger: seq<LedgerEntry>)
  {
    forall i | 0 <= i < |ledger| && ledger[i].eventType == LedgerEventType.PayoutConfirmed ::
      HasEvent(ledger[..i], PayoutInitiated, ledger[i].aggregateId)
  }

  ghost predicate Inv(sha: Digest, db: Db)
  {
    && LedgerOk(sha, db)
    && Shapes(db.t)
    && OutboxOk(db.t)
    && MoneyOk(db.t)
    && RefsOk(db.t)
    && RegisterOk(db.t)
    && PayoutsOk(db.t)
    && CyclesOk(db.t)
    && ConfirmationsFollow(db.t.ledger)
  }

  // --------------------------------------------------------------------------
  // How tables evolve
  // --------------------------------------------------------------------------

  ghost predicate SameIdentity(a: Cycle, b: Cycle)
  {
    && a.groupId == b.groupId && a.configId == b.configId && a.cycleNumber == b.cycleNumber
    && a.beneficiaryId == b.beneficiaryId && a.dueDate == b.dueDate && a.payoutThresholdMinor == b.payoutThresholdMinor
  }

  /** A cycle keeps its identity, never loses money, is frozen once it stops collecting, and stays closed. */
  ghost predicate CycleGrows(a: Cycle, b: Cycle)
  {
    && SameIdentity(a, b)
    && a.collectedAmountMinor <= b.collectedAmountMinor
    && (Left(a.state) ==> Left(b.state) && a.collectedAmountMinor == b.collectedAmountMinor)
    && (a.state == Closed ==> b.state == Closed)
  }

  ghost predicate CyclesGrow(a: map<Uuid, Cycle>, b: map<Uuid, Cycle>)
  {
    forall id | id in a :: id in b && CycleGrows(a[id], b[id])
  }

  /** No transaction rewrites the ledger, and every new row is numbered from the counter. */
  ghost predicate Grows(a: Db, b: Db)
  {
    && CyclesGrow(a.t.cycles, b.t.cycles)
    && a.t.ledger <= b.t.ledger
    && a.nextVal <= b.nextVal
    && forall i | |a.t.ledger| <= i < |b.t.ledger| :: b.t.ledger[i].seqNo >= a.nextVal
  }

  lemma GrowsTransitive(a: Db, b: Db, c: Db)
    requires Grows(a, b) && Grows(b, c)
    ensures Grows(a, c)
  {
    forall i | |a.t.ledger| <= i < |c.t.ledger|
      ensures c.t.ledger[i].seqNo >= a.nextVal
    {
      if i < |b.t.ledger| {
        assert c.t.ledger[i] == b.t.ledger[i];
      }
    }
  }

  lemma HasEventGrows(a: seq<LedgerEntry>, b: seq<LedgerEntry>, e: LedgerEventType, id: Uuid)
    requires a <= b && HasEvent(a, e, id)
    ensures HasEvent(b, e, id)
  {
    var i :| 0 <= i < |a| && a[i].eventType == e && a[i].aggregateId == id;
    assert b[i] == a[i];
  }

  lemma HasKeyGrows(a: seq<LedgerEntry>, b: seq<LedgerEntry>, key: string)
    requires a <= b && HasKey(a, key)
    ensures HasKey(b, key)
  {
    var i :| 0 <= i < |a| && a[i].idempotencyKey == Some(key);
    assert b[i] == a[i];
  }

  // --------------------------------------------------------------------------
  // What appending one row does to each part
  // --------------------------------------------------------------------------

  lemma {:induction false} RowsAreInTheLedger(ledger: seq<LedgerEntry>, types: set<LedgerEventType>)
    ensures forall row :: row in RowsOf(ledger, types) <==> row in ledger && row.eventType in types
  {
    if ledger != [] {
      var n := |ledger| - 1;
      RowsAreInTheLedger(ledger[..n], types);
      assert ledger == ledger[..n] + [ledger[n]];
    }
  }

  lemma OneMoreRowOf(ledger: seq<LedgerEntry>, row: LedgerEntry, types: set<LedgerEventType>)
    ensures RowsOf(ledger + [row], types) == RowsOf(ledger, types) + (if row.eventType in types then [row] else [])
  {
    assert (ledger + [row])[..|ledger|] == ledger;
  }

  /** A key that is free in the ledger is free in the outbox: the conflict branch is not taken. */
  lemma FreeInOutbox(t: Tables, key: string)
    requires OutboxOk(t) && !HasKey(t.ledger, key)
    ensures !HasOutboxKey(t.outbox, key)
  {
    RowsAreInTheLedger(t.ledger, PUBLISHED);
    var rows := RowsOf(t.ledger, PUBLISHED);
    forall k | 0 <= k < |t.outbox|
      ensures t.outbox[k].idempotencyKey != key
    {
      assert Announces(t.outbox[k], rows[k]);
      assert rows[k] in t.ledger;
    }
  }

  /** The outbox after a commit that appends `b`: one more event, its announcement, if the type is published. */
  ghost predicate OutboxFollows(t: Tables, after: Tables, b: LedgerEntryBuilder)
  {
    if b.eventType in PUBLISHED
    then b.idempotencyKey.Some? && after.outbox ==
      OutboxAfter(t.outbox, Announcement(b.eventType, b.aggregateId, b.idempotencyKey.value))
    else after.outbox == t.outbox
  }

  lemma AppendKeepsLedger(sha: Digest, db: Db, after: Tables, b: LedgerEntryBuilder)
    requires LedgerOk(sha, db) && Shapes(db.t) && OutboxOk(db.t)
    requires after.ledger == Appended(sha, db.t.ledger, db.nextVal, b) && KeyFree(db.t.ledger, b.idempotencyKey)
    requires CyclesGrow(db.t.cycles, after.cycles)
    requires Shape(after.cycles, NewRow(sha, db.t.ledger, db.nextVal, b))
    requires OutboxFollows(db.t, after, b)
    ensures LedgerOk(sha, Db(after, db.nextVal + 1)) && Shapes(after) && OutboxOk(after)
    ensures db.t.ledger <= after.ledger
  {
    hide NewRow;
    AppendKeepsWritten(sha, db.t.ledger, db.nextVal, b);
    AppendKeepsKeysDistinct(sha, db.t.ledger, db.nextVal, b);
    ShapesKept(db.t, after, NewRow(sha, db.t.ledger, db.nextVal, b));
    OutboxKept(db.t, after, b, NewRow(sha, db.t.ledger, db.nextVal, b));
  }

  lemma ShapesKept(t: Tables, after: Tables, row: LedgerEntry)
    requires Shapes(t) && CyclesGrow(t.cycles, after.cycles)
    requires after.ledger == t.ledger + [row] && Shape(after.cycles, row)
    ensures Shapes(after)
  {
    hide KeyOf, ContribKey, QuarantineKey, ConfirmKey, FailKey;
    forall i | 0 <= i < |after.ledger|
      ensures Shape(after.cycles, after.ledger[i])
    {
      if i < |t.ledger| {
        assert Shape(t.cycles, t.ledger[i]);
        ShapeGrows(t.cycles, after.cycles, t.ledger[i]);
      }
    }
  }

  lemma ShapeGrows(a: map<Uuid, Cycle>, b: map<Uuid, Cycle>, e: LedgerEntry)
    requires Shape(a, e) && CyclesGrow(a, b)
    ensures Shape(b, e)
  {
    hide PayoutKey, ContribKey, QuarantineKey, ConfirmKey, FailKey;
    if e.aggregateId in a {
      assert CycleGrows(a[e.aggregateId], b[e.aggregateId]);
    }
  }

  lemma OutboxKept(t: Tables, after: Tables, b: LedgerEntryBuilder, row: LedgerEntry)
    requires OutboxOk(t) && KeyFree(t.ledger, b.idempotencyKey) && b.idempotencyKey.Some?
    requires after.ledger == t.ledger + [row] && row.eventType == b.eventType && row.idempotencyKey == b.idempotencyKey
    requires row.aggregateId == b.aggregateId
    requires OutboxFollows(t, after, b)
    ensures OutboxOk(after)
  {
    hide EventName;
    FreeInOutbox(t, b.idempotencyKey.value);
    OneMoreRowOf(t.ledger, row, PUBLISHED);
  }

  /** The parts about contributions survive a commit that is not about contributions. */
  lemma AppendKeepsMoney(t: Tables, after: Tables, row: LedgerEntry)
    requires MoneyOk(t) && RefsOk(t) && RegisterOk(t)
    requires after.ledger == t.ledger + [row] && row.eventType !in CONTRIBUTIONS
    requires after.contributions == t.contributions && after.cycles.Keys == t.cycles.Keys
    requires CyclesGrow(t.cycles, after.cycles)
    requires forall id | id in t.cycles :: after.cycles[id].collectedAmountMinor == t.cycles[id].collectedAmountMinor
    ensures MoneyOk(after) && RefsOk(after) && RegisterOk(after)
  {
    hide RegisterOk;
    RegisterKept(t, after, [row]);
    forall id | id in after.cycles
      ensures Sum(after.ledger, CreditsFor(id)) == Sum(t.ledger, CreditsFor(id))
    {
      SumAppend(t.ledger, row, CreditsFor(id));
    }
  }

  /** Cycles may grow, and a row that records no contribution may be added. */
  lemma RegisterKept(t: Tables, after: Tables, more: seq<LedgerEntry>)
    requires RegisterOk(t) && CyclesGrow(t.cycles, after.cycles) && after.contributions == t.contributions
    requires after.ledger == t.ledger + more
    requires |more| <= 1 && forall row | row in more :: row.eventType !in CONTRIBUTIONS
    ensures RegisterOk(after)
  {
    hide ValidMsisdn, Records;
    if more == [] {
      assert after.ledger == t.ledger;
    } else {
      OneMoreRowOf(t.ledger, more[0], CONTRIBUTIONS);
      assert more == [more[0]];
    }
    forall k | 0 <= k < |t.contributions|
      ensures ContributionOk(after.cycles, t.contributions[k])
    {
      assert ContributionOk(t.cycles, t.contributions[k]);
    }
  }

  /** A contribution and its ledger row join the register together. */
  lemma RegisterGrows(t: Tables, after: Tables, row: LedgerEntry, c: Contribution)
    requires RegisterOk(t) && CyclesGrow(t.cycles, after.cycles)
    requires after.ledger == t.ledger + [row] && after.contributions == t.contributions + [c]
    requires row.eventType in CONTRIBUTIONS && Records(c, row) && ContributionOk(after.cycles, c)
    ensures RegisterOk(after)
  {
    hide ValidMsisdn, Records;
    OneMoreRowOf(t.ledger, row, CONTRIBUTIONS);
    forall k | 0 <= k < |t.contributions|
      ensures ContributionOk(after.cycles, t.contributions[k])
    {
      assert ContributionOk(t.cycles, t.contributions[k]);
    }
  }

  /** Payout rows stay right while cycles only grow. */
  lemma PayoutsKept(t: Tables, after: Tables, row: LedgerEntry)
    requires PayoutsOk(t) && CyclesGrow(t.cycles, after.cycles)
    requires after.ledger == t.ledger + [row] && PayoutRowOk(after.cycles, row)
    ensures PayoutsOk(after)
  {
    forall i | 0 <= i < |after.ledger|
      ensures PayoutRowOk(after.cycles, after.ledger[i])
    {
      if i < |t.ledger| {
        assert PayoutRowOk(t.cycles, t.ledger[i]);
      }
    }
  }

  /** A cycle row whose columns other than the counter are unchanged stays right as the ledger grows. */
  lemma CycleKept(t: Tables, after: Tables, id: Uuid)
    requires id in t.cycles && id in after.cycles && CycleOk(t, id) && t.ledger <= after.ledger
    requires after.cycles[id] == t.cycles[id].(collectedAmountMinor := after.cycles[id].collectedAmountMinor)
    requires 0 <= after.cycles[id].collectedAmountMinor <= MAX_I64
    ensures CycleOk(after, id)
  {
    hide PayoutKey;
    var c := t.cycles[id];
    if HasEvent(t.ledger, PayoutInitiated, id) {
      HasEventGrows(t.ledger, after.ledger, PayoutInitiated, id);
    }
    if HasEvent(t.ledger, LedgerEventType.PayoutConfirmed, id) {
      HasEventGrows(t.ledger, after.ledger, LedgerEventType.PayoutConfirmed, id);
    }
    if HasKey(t.ledger, KeyOf(id, c)) {
      HasKeyGrows(t.ledger, after.ledger, KeyOf(id, c));
    }
  }

  /** The same for every cycle but possibly one. */
  lemma CyclesKept(t: Tables, after: Tables, except: set<Uuid>)
    requires CyclesOk(t) && after.cycles.Keys == t.cycles.Keys && t.ledger <= after.ledger
    requires forall id | id in t.cycles && id !in except ::
      after.cycles[id] == t.cycles[id].(collectedAmountMinor := after.cycles[id].collectedAmountMinor) &&
      0 <= after.cycles[id].collectedAmountMinor <= MAX_I64
    requires forall id | id in except && id in t.cycles :: CycleOk(after, id)
    ensures CyclesOk(after)
  {
    hide CycleOk;
    forall id | id in after.cycles
      ensures CycleOk(after, id)
    {
      if id !in except {
        CycleKept(t, after, id);
      }
    }
  }

  lemma CollectedInRange(t: Tables)
    requires CyclesOk(t)
    ensures forall id | id in t.cycles :: 0 <= t.cycles[id].collectedAmountMinor <= MAX_I64
  {
    hide HasEvent, PayoutKey, Coupled;
    forall id | id in t.cycles
      ensures 0 <= t.cycles[id].collectedAmountMinor <= MAX_I64
    {
      assert CycleOk(t, id);
    }
  }

  lemma ConfirmationsKept(ledger: seq<LedgerEntry>, row: LedgerEntry)
    requires ConfirmationsFollow(ledger)
    requires row.eventType == LedgerEventType.PayoutConfirmed ==> HasEvent(ledger, PayoutInitiated, row.aggregateId)
    ensures ConfirmationsFollow(ledger + [row])
  {
    var after := ledger + [row];
    forall i | 0 <= i < |after| && after[i].eventType == LedgerEventType.PayoutConfirmed
      ensures HasEvent(after[..i], PayoutInitiated, after[i].aggregateId)
    {
      assert after[..i] == ledger[..i];
      assert ledger[..|ledger|] == ledger;
    }
  }

  // --------------------------------------------------------------------------
  // Each commit
  // --------------------------------------------------------------------------

  lemma ReconcileKeeps(sha: Digest, db: Db, cb: MobileMoneyCallback, beneficiary: Uuid, payer: Uuid)
    requires Inv(sha, db) && CanReconcile(db.t, cb)
    requires beneficiary == db.t.cycles[cb.cycleId].beneficiaryId && ValidMsisdn(cb.payerMsisdn)
    ensures var after := AfterReconcile(sha, db, cb, beneficiary, payer);
      Inv(sha, Db(after, db.nextVal + 1)) && Grows(db, Db(after, db.nextVal + 1))
  {
    hide NewRow, ContribKey, LedgerOk, Shapes, OutboxOk, MoneyOk, RefsOk, RegisterOk, PayoutsOk, CyclesOk;
    hide ConfirmationsFollow, HasRef, HasKey, Payload;
    var t := db.t;
    var b := ReconcileEntry(cb, beneficiary, payer);
    var row := NewRow(sha, t.ledger, db.nextVal, b);
    var after := AfterReconcile(sha, db, cb, beneficiary, payer);
    assert after.ledger == t.ledger + [row];
    AppendKeepsLedger(sha, db, after, b);
    ContributionKeepsMoney(t, after, row, after.contributions[|t.contributions|]);
    RegisterGrows(t, after, row, after.contributions[|t.contributions|]);
    PayoutsKept(t, after, row);
    ConfirmationsKept(t.ledger, row);
    CollectedInRange(t);
    CyclesKept(t, after, {});
  }

  /** A contribution row and its ledger row keep the three sums equal, whether it is reconciled or quarantined. */
  lemma ContributionKeepsMoney(t: Tables, after: Tables, row: LedgerEntry, c: Contribution)
    requires MoneyOk(t) && RefsOk(t) && c.cycleId in t.cycles && !HasRef(t.contributions, c.providerTxRef)
    requires after.contributions == t.contributions + [c] && after.ledger == t.ledger + [row]
    requires row.aggregateId == c.cycleId && row.externalRef == Some(c.providerTxRef)
    requires row.amountMinor == Some(c.amountMinor) && row.direction == Some(Credit)
    requires if c.status == StatusReconciled
      then row.eventType == ContributionReceived && after.cycles == Collect(t.cycles, c.cycleId, c.amountMinor)
      else row.eventType == ContributionQuarantined && after.cycles == t.cycles
    ensures MoneyOk(after) && RefsOk(after)
  {
    forall id | id in after.cycles
      ensures after.cycles[id].collectedAmountMinor == Sum(after.contributions, ReconciledFor(id))
        == Sum(after.ledger, CreditsFor(id))
    {
      SumAppend(t.ledger, row, CreditsFor(id));
      SumAppend(t.contributions, c, ReconciledFor(id));
    }
    assert after.contributions[|t.contributions|] == c;
    forall i | 0 <= i < |after.ledger| &&
      after.ledger[i].eventType in {ContributionReceived, ContributionQuarantined} && after.ledger[i].externalRef.Some?
      ensures HasRef(after.contributions, after.ledger[i].externalRef.value)
    {
      if i < |t.ledger| {
        var k :| 0 <= k < |t.contributions| && t.contributions[k].providerTxRef == t.ledger[i].externalRef.value;
        assert after.contributions[k] == t.contributions[k];
      }
    }
  }

  lemma QuarantineKeeps(sha: Digest, db: Db, cb: MobileMoneyCallback, beneficiary: Uuid)
    requires Inv(sha, db) && CanContribute(db.t, cb, QuarantineKey(cb.providerTxRef))
    requires beneficiary == db.t.cycles[cb.cycleId].beneficiaryId && ValidMsisdn(cb.payerMsisdn)
    ensures var after := AfterQuarantine(sha, db, cb, beneficiary);
      Inv(sha, Db(after, db.nextVal + 1)) && Grows(db, Db(after, db.nextVal + 1))
  {
    hide NewRow, QuarantineKey, LedgerOk, Shapes, OutboxOk, MoneyOk, RefsOk, RegisterOk, PayoutsOk, CyclesOk;
    hide ConfirmationsFollow, HasRef, HasKey, Payload;
    var t := db.t;
    var b := QuarantineEntry(cb, beneficiary);
    var row := NewRow(sha, t.ledger, db.nextVal, b);
    var after := AfterQuarantine(sha, db, cb, beneficiary);
    assert after.ledger == t.ledger + [row];
    AppendKeepsLedger(sha, db, after, b);
    ContributionKeepsMoney(t, after, row, after.contributions[|t.contributions|]);
    RegisterGrows(t, after, row, after.contributions[|t.contributions|]);
    PayoutsKept(t, after, row);
    ConfirmationsKept(t.ledger, row);
    CollectedInRange(t);
    CyclesKept(t, after, {});
  }

  /** A row about anything but contributions and payouts, that touches neither cycles nor contributions. */
  lemma OtherRowKeeps(sha: Digest, db: Db, after: Tables, b: LedgerEntryBuilder)
    requires Inv(sha, db)
    requires after.cycles == db.t.cycles && after.contributions == db.t.contributions
    requires after.ledger == Appended(sha, db.t.ledger, db.nextVal, b) && KeyFree(db.t.ledger, b.idempotencyKey)
    requires b.eventType in {AdvanceIssued, DebtRecorded, DebtRepaid, Adjustment}
    requires Shape(db.t.cycles, NewRow(sha, db.t.ledger, db.nextVal, b))
    requires OutboxFollows(db.t, after, b)
    ensures Inv(sha, Db(after, db.nextVal + 1)) && Grows(db, Db(after, db.nextVal + 1))
  {
    hide NewRow, Shape, HasKey, LedgerOk, Shapes, OutboxOk, MoneyOk, RefsOk, RegisterOk, PayoutsOk, CyclesOk;
    hide ConfirmationsFollow;
    var t := db.t;
    var row := NewRow(sha, t.ledger, db.nextVal, b);
    assert after.ledger == t.ledger + [row];
    AppendKeepsLedger(sha, db, after, b);
    AppendKeepsMoney(t, after, row);
    PayoutsKept(t, after, row);
    ConfirmationsKept(t.ledger, row);
    CollectedInRange(t);
    CyclesKept(t, after, {});
  }

  /** What the payout-state update does to all cycles at once. */
  lemma PayoutStateGrows(cycles: map<Uuid, Cycle>, id: Uuid, p: PayoutState, key: Option<string>)
    requires id in cycles && CanUpdatePayoutState(cycles, id, p, key) && p in {Pending, Confirmed, Failed}
    ensures CyclesGrow(cycles, UpdatePayoutState(cycles, id, p, key))
  {
  }

  /** The three payout transactions share everything but what they promise of the one cycle they change. */
  lemma PayoutRowKeeps(sha: Digest, db: Db, after: Tables, b: LedgerEntryBuilder, id: Uuid, p: PayoutState,
                       key: Option<string>)
    requires Inv(sha, db) && id in db.t.cycles && b.aggregateId == id && p in {Pending, Confirmed, Failed}
    requires CanUpdatePayoutState(db.t.cycles, id, p, key) && after.cycles == UpdatePayoutState(db.t.cycles, id, p, key)
    requires after.contributions == db.t.contributions
    requires after.ledger == Appended(sha, db.t.ledger, db.nextVal, b) && KeyFree(db.t.ledger, b.idempotencyKey)
    requires b.eventType in {PayoutInitiated, LedgerEventType.PayoutConfirmed, LedgerEventType.PayoutFailed}
    requires var row := NewRow(sha, db.t.ledger, db.nextVal, b);
      Shape(after.cycles, row) && PayoutRowOk(after.cycles, row)
    requires b.eventType == LedgerEventType.PayoutConfirmed ==> HasEvent(db.t.ledger, PayoutInitiated, id)
    requires OutboxFollows(db.t, after, b)
    requires CycleOk(after, id)
    ensures Inv(sha, Db(after, db.nextVal + 1)) && Grows(db, Db(after, db.nextVal + 1))
  {
    hide NewRow, Shape, HasKey, CycleOk, PayoutKeyFree, LedgerOk, Shapes, OutboxOk, MoneyOk, RefsOk, RegisterOk;
    hide PayoutsOk;
    hide CyclesOk, ConfirmationsFollow;
    var t := db.t;
    var row := NewRow(sha, t.ledger, db.nextVal, b);
    assert after.ledger == t.ledger + [row];
    PayoutStateGrows(t.cycles, id, p, key);
    AppendKeepsLedger(sha, db, after, b);
    AppendKeepsMoney(t, after, row);
    PayoutsKept(t, after, row);
    ConfirmationsKept(t.ledger, row);
    CollectedInRange(t);
    CyclesKept(t, after, {id});
  }

  /** What a worker that is about to pay still knows, however stale its snapshot. */
  ghost predicate SnapshotOk(t: Tables, id: Uuid, snapshot: Cycle)
  {
    && id in t.cycles && SameIdentity(snapshot, t.cycles[id])
    && snapshot.payoutThresholdMinor <= snapshot.collectedAmountMinor <= t.cycles[id].collectedAmountMinor
  }

  /** The cycle a payout was just initiated for. */
  lemma InitiatedCycleOk(t: Tables, after: Tables, id: Uuid, key: string, row: LedgerEntry)
    requires id in t.cycles && CycleOk(t, id) && key == KeyOf(id, t.cycles[id])
    requires after.cycles == UpdatePayoutState(t.cycles, id, Pending, Some(key)) && after.ledger == t.ledger + [row]
    requires row.eventType == PayoutInitiated && row.aggregateId == id && row.idempotencyKey == Some(key)
    ensures CycleOk(after, id)
  {
    hide PayoutKey;
    assert after.ledger[|t.ledger|] == row;
    assert HasKey(after.ledger, key) && HasEvent(after.ledger, PayoutInitiated, id);
    assert KeyOf(id, after.cycles[id]) == key;
  }

  lemma InitiateKeeps(sha: Digest, db: Db, id: Uuid, snapshot: Cycle, now: int)
    requires Inv(sha, db) && SnapshotOk(db.t, id, snapshot) && CanInitiate(db.t, id, snapshot)
    ensures var after := AfterInitiate(sha, db, id, snapshot, now);
      Inv(sha, Db(after, db.nextVal + 1)) && Grows(db, Db(after, db.nextVal + 1))
  {
    hide NewRow, PayoutKey, Payload, HasKey, CycleOk, LedgerOk, Shapes, OutboxOk, MoneyOk, RefsOk, RegisterOk;
    hide PayoutsOk;
    hide ConfirmationsFollow;
    var t := db.t;
    var key := KeyOf(id, snapshot);
    var b := InitiateEntry(id, snapshot, now);
    var row := NewRow(sha, t.ledger, db.nextVal, b);
    var after := AfterInitiate(sha, db, id, snapshot, now);
    assert after.ledger == t.ledger + [row];
    assert key == KeyOf(id, t.cycles[id]) == KeyOf(id, after.cycles[id]);
    InitiatedCycleOk(t, after, id, key, row);
    PayoutRowKeeps(sha, db, after, b, id, Pending, Some(key));
  }

  lemma ConfirmKeeps(sha: Digest, db: Db, id: Uuid, externalRef: string, now: int)
    requires Inv(sha, db) && id in db.t.cycles && HasEvent(db.t.ledger, PayoutInitiated, id)
    requires CanConfirm(db.t, id, externalRef)
    ensures var after := AfterConfirm(sha, db, id, externalRef, now);
      Inv(sha, Db(after, db.nextVal + 1)) && Grows(db, Db(after, db.nextVal + 1))
  {
    hide NewRow, PayoutKey, ConfirmKey, Payload, HasKey, LedgerOk, Shapes, OutboxOk, MoneyOk, RefsOk;
    hide RegisterOk, PayoutsOk;
    hide ConfirmationsFollow;
    var t := db.t;
    var b := ConfirmEntry(id, externalRef, now);
    var row := NewRow(sha, t.ledger, db.nextVal, b);
    var after := AfterConfirm(sha, db, id, externalRef, now);
    assert after.ledger == t.ledger + [row];
    assert after.ledger[|t.ledger|] == row;
    HasEventGrows(t.ledger, after.ledger, PayoutInitiated, id);
    assert CycleOk(t, id);
    PayoutKeyKept(t, after, id);
    PayoutRowKeeps(sha, db, after, b, id, Confirmed, None);
  }

  lemma PayoutKeyKept(t: Tables, after: Tables, id: Uuid)
    requires id in t.cycles && id in after.cycles && CycleOk(t, id) && t.ledger <= after.ledger
    requires SameIdentity(t.cycles[id], after.cycles[id])
    requires t.cycles[id].payoutIdempotencyKey == after.cycles[id].payoutIdempotencyKey
    ensures after.cycles[id].payoutIdempotencyKey.Some? ==>
      after.cycles[id].payoutIdempotencyKey.value == KeyOf(id, after.cycles[id])
        && HasKey(after.ledger, KeyOf(id, after.cycles[id]))
  {
    hide PayoutKey;
    if t.cycles[id].payoutIdempotencyKey.Some? {
      HasKeyGrows(t.ledger, after.ledger, KeyOf(id, t.cycles[id]));
    }
  }

  lemma FailKeeps(sha: Digest, db: Db, id: Uuid, externalRef: string, reason: string, now: int)
    requires Inv(sha, db) && id in db.t.cycles && CanFail(db.t, id, externalRef)
    ensures var after := AfterFail(sha, db, id, externalRef, reason, now);
      Inv(sha, Db(after, db.nextVal + 1)) && Grows(db, Db(after, db.nextVal + 1))
  {
    hide NewRow, PayoutKey, FailKey, Payload, HasKey, LedgerOk, Shapes, OutboxOk, MoneyOk, RefsOk, RegisterOk;
    hide PayoutsOk;
    hide ConfirmationsFollow;
    var t := db.t;
    var b := FailEntry(id, externalRef, reason, now);
    var row := NewRow(sha, t.ledger, db.nextVal, b);
    var after := AfterFail(sha, db, id, externalRef, reason, now);
    assert after.ledger == t.ledger + [row];
    assert CycleOk(t, id);
    PayoutKeyKept(t, after, id);
    PayoutRowKeeps(sha, db, after, b, id, Failed, None);
  }
}
