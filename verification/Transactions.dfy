/**
 The database as an object, and transactions on it statement by statement. A transaction works on its own
 copy of the tables and replaces the shared ones only when it commits; the ledger's counter lives in the
 database and moves at once, so a transaction that is dropped leaves nothing behind but lost numbers.
 */
module Transactions {
  import opened Wrappers
  import opened Ids
  import opened Ledger
  import opened LedgerTable
  import opened Cycles
  import opened Debts
  import opened Database

  /** How a statement ends: it is done, it hits a UNIQUE index, or something else refuses it. */
  datatype SqlResult = Done | UniqueViolation | Refused

  class Store {
    const sha: Digest
    var tables: Tables
    var nextVal: int

    constructor (sha: Digest)
      ensures this.sha == sha && State() == EmptyDb
    {
      this.sha := sha;
      tables, nextVal := EmptyDb.t, EmptyDb.nextVal;
    }

    function State(): Db
      reads this
    {
      Db(tables, nextVal)
    }
  }

  class Transaction {
    const db: Store
    var t: Tables

    constructor Begin(db: Store)
      ensures this.db == db && t == db.tables
    {
      this.db := db;
      t := db.tables;
    }

    method Commit()
      modifies db`tables
      ensures db.tables == t
    {
      db.tables := t;
    }

    /** Read the head, finalise the entry, draw a number, insert: only the insert can be undone. */
    method Append(b: LedgerEntryBuilder) returns (r: SqlResult, seqNo: int)
      modifies this`t, db`nextVal
      ensures seqNo == old(db.nextVal) && db.nextVal == old(db.nextVal) + 1
      ensures r == if KeyFree(old(t.ledger), b.idempotencyKey) then Done else UniqueViolation
      ensures t == if r.Done? then old(t).(ledger := Appended(db.sha, old(t.ledger), old(db.nextVal), b)) else old(t)
      ensures r.Done? ==> RefersToLedger(t.ledger, Row(seqNo))
    {
      var hashedSeq, prevHash := 1, None;
      if t.ledger != [] {
        var head := t.ledger[|t.ledger| - 1];
        hashedSeq, prevHash := head.seqNo + 1, Some(head.currentHash);
      }
      var entry := b.Build(db.sha, hashedSeq, prevHash);
      seqNo := db.nextVal;
      db.nextVal := db.nextVal + 1;
      if b.idempotencyKey.Some? && HasKey(t.ledger, b.idempotencyKey.value) {
        return UniqueViolation, seqNo;
      }
      ghost var n := |t.ledger|;
      t := t.(ledger := t.ledger + [entry.(seqNo := seqNo)]);
      assert t.ledger[n].seqNo == seqNo;
      r := Done;
    }

    method EnsurePaymentInstrument(msisdn: string, provider: string, identity: Option<Uuid>) returns (r: SqlResult)
      modifies this`t
      ensures r == if KnownProvider(provider) then Done else Refused
      ensures t ==
        if r.Done? then old(t).(instruments := InstrumentsAfter(old(t.instruments), msisdn, provider, identity))
        else old(t)
    {
      if !KnownProvider(provider) {
        return Refused;
      }
      t := t.(instruments := InstrumentsAfter(t.instruments, msisdn, provider, identity));
      r := Done;
    }

    /** The trigger speaks before the CHECK, and the CHECK before the UNIQUE index. */
    method InsertContribution(c: Contribution) returns (r: SqlResult)
      modifies this`t
      ensures r ==
        if !CycleAccepts(old(t.cycles), c.cycleId) || c.amountMinor <= 0 then Refused
        else if HasRef(old(t.contributions), c.providerTxRef) then UniqueViolation
        else Done
      ensures t == if r.Done? then old(t).(contributions := old(t.contributions) + [c]) else old(t)
    {
      if c.cycleId !in t.cycles || t.cycles[c.cycleId].state != Committed {
        return Refused;
      }
      if c.amountMinor <= 0 {
        return Refused;
      }
      if HasRef(t.contributions, c.providerTxRef) {
        return UniqueViolation;
      }
      t := t.(contributions := t.contributions + [c]);
      r := Done;
    }

    /** The contribution row, then the cycle's counter. */
    method InsertReconciled(c: Contribution) returns (r: SqlResult)
      modifies this`t
      ensures r ==
        if !CycleAccepts(old(t.cycles), c.cycleId) || c.amountMinor <= 0 then Refused
        else if HasRef(old(t.contributions), c.providerTxRef) then UniqueViolation
        else if !CollectedFits(old(t.cycles), c.cycleId, c.amountMinor) then Refused
        else Done
      ensures r.Done? ==>
        t == old(t).(contributions := old(t.contributions) + [c],
                     cycles := Collect(old(t.cycles), c.cycleId, c.amountMinor))
    {
      r := InsertContribution(c);
      if r != Done {
        return;
      }
      var row := t.cycles[c.cycleId];
      var total := row.collectedAmountMinor + c.amountMinor;
      if total > MAX_I64 {
        return Refused;
      }
      t := t.(cycles := t.cycles[c.cycleId := row.(collectedAmountMinor := total)]);
    }

    method InsertOutbox(e: OutboxEvent)
      modifies this`t
      ensures t == old(t).(outbox := OutboxAfter(old(t.outbox), e))
    {
      if !HasOutboxKey(t.outbox, e.idempotencyKey) {
        t := t.(outbox := t.outbox + [e]);
      }
    }

    /** An UPDATE by primary key: no row, no effect. */
    method UpdatePayoutState(id: Uuid, p: PayoutState, key: Option<string>) returns (r: SqlResult)
      modifies this`t
      ensures r.Done? <==> CanUpdatePayoutState(old(t.cycles), id, p, key)
      ensures t == if r.Done? then old(t).(cycles := Database.UpdatePayoutState(old(t.cycles), id, p, key)) else old(t)
    {
      if id !in t.cycles {
        return Done;
      }
      var before := t.cycles[id];
      var after := before.(payoutState := p, state := CycleStateFor(p));
      if key.Some? {
        after := after.(payoutIdempotencyKey := key);
      }
      if !TriggerAllows(before, after) {
        return Refused;
      }
      if !PayoutKeyFree(t.cycles, id, key) {
        return UniqueViolation;
      }
      t := t.(cycles := t.cycles[id := after]);
      r := Done;
    }

    method InsertDebt(d: DebtRow) returns (r: SqlResult)
      modifies this`t
      ensures r.Done? <==> CanInsertDebt(old(t.debts), d)
      ensures t == if r.Done? then old(t).(debts := old(t.debts) + [d]) else old(t)
    {
      if d.originalAmountMinor <= 0 || d.remainingAmountMinor < 0 || d.remainingAmountMinor > d.originalAmountMinor {
        return Refused;
      }
      if HasDebt(t.debts, d.id) {
        return UniqueViolation;
      }
      t := t.(debts := t.debts + [d]);
      r := Done;
    }

    method UpdateDebt(d: DebtRow) returns (r: SqlResult)
      modifies this`t
      ensures r.Done? <==> CanUpdateDebt(old(t.debts), d)
      ensures t == if r.Done? then old(t).(debts := Database.UpdateDebt(old(t.debts), d)) else old(t)
    {
      if !CanUpdateDebt(t.debts, d) {
        return Refused;
      }
      t := t.(debts := Database.UpdateDebt(t.debts, d));
      r := Done;
    }

    /** Debit and release in one UPDATE, then the journal row with its two foreign keys. */
    method ConfirmAdvance(group: Uuid, amount: int, entry: EntryRef) returns (r: SqlResult)
      modifies this`t
      ensures r.Done? <==> CanConfirmAdvance(old(t), group, amount, entry)
      ensures r.Done? ==> t == ConfirmAdvanceInTx(old(t), group, amount, entry)
    {
      if group !in t.funds {
        return Refused;
      }
      var fund := AfterAdvance(t.funds[group], amount);
      if !FundOk(fund) || !RefersToLedger(t.ledger, entry) {
        return Refused;
      }
      t := t.(funds := t.funds[group := fund]);
      t := t.(journal := t.journal + [FundMove(group, AdvanceMove, amount, entry)]);
      r := Done;
    }

    method ReceiveRepayment(group: Uuid, amount: int, entry: EntryRef) returns (r: SqlResult)
      modifies this`t
      ensures r.Done? <==> CanReceiveRepayment(old(t), group, amount, entry)
      ensures r.Done? ==> t == ReceiveRepaymentInTx(old(t), group, amount, entry)
    {
      if group !in t.funds {
        return Refused;
      }
      var fund := AfterFundRepayment(t.funds[group], amount);
      if !FundOk(fund) || !RefersToLedger(t.ledger, entry) {
        return Refused;
      }
      t := t.(funds := t.funds[group := fund]);
      t := t.(journal := t.journal + [FundMove(group, RepaymentMove, amount, entry)]);
      r := Done;
    }
  }
}
