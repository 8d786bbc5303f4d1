/**
 The tables the kernel's services share, and the checks PostgreSQL makes on each statement.
 A table is the sequence of its rows in insertion order, or a map from its primary key.
 */
module Database {
  import opened Wrappers
  import opened Ids
  import opened Keys
  import opened Ledger
  import opened LedgerTable
  import opened Cycles
  import opened Debts

  datatype ContributionStatus = StatusReconciled | StatusQuarantined

  datatype Contribution = Contribution(
    cycleId: Uuid,
    beneficiaryId: Uuid,
    payerIdentityId: Option<Uuid>,
    payerMsisdn: string,
    amountMinor: int,
    status: ContributionStatus,
    providerTxRef: string)

  datatype OutboxEvent = OutboxEvent(eventType: string, aggregateId: Uuid, targetService: string,
    idempotencyKey: string)

  datatype Instrument = Instrument(identityId: Option<Uuid>, quarantineState: bool)

  datatype Fund = Fund(balanceMinor: int, reservedMinor: int, totalAdvancedMinor: int, totalRepaidMinor: int)

  /** A value for a `ledger_entry_id` column: the row that carries a number, or an id no ledger row carries. */
  datatype EntryRef = Row(seqNo: int) | FreshId

  datatype MoveKind = AdvanceMove | RepaymentMove | DepositMove

  datatype FundMove = FundMove(groupId: Uuid, kind: MoveKind, amountMinor: int, entry: EntryRef)

  datatype Tables = Tables(
    cycles: map<Uuid, Cycle>,
    ledger: seq<LedgerEntry>,
    contributions: seq<Contribution>,
    outbox: seq<OutboxEvent>,
    instruments: map<(string, string), Instrument>,
    funds: map<Uuid, Fund>,
    debts: seq<DebtRow>,
    journal: seq<FundMove>)

  /** The tables and the ledger's counter, which no rollback rewinds. */
  datatype Db = Db(t: Tables, nextVal: int)

  const EmptyDb: Db := Db(Tables(map[], [], [], [], map[], map[], [], []), 1)

  /** A rolled-back transaction that drew `n` ledger numbers. */
  function Burn(db: Db, n: nat): Db { db.(nextVal := db.nextVal + n) }

  // Payment instruments --------------------------------------------------------

  /** The labels of the `wallet_provider` enumeration; the cast of anything else is an error. */
  predicate KnownProvider(p: string) { p in {"orange_money", "moov_money", "wave", "other"} }

  function InstrumentsAfter(m: map<(string, string), Instrument>, msisdn: string, provider: string,
                            identity: Option<Uuid>)
    : map<(string, string), Instrument>
  {
    var known := if (msisdn, provider) in m then m[(msisdn, provider)].identityId else None;
    m[(msisdn, provider) := Instrument(if identity.Some? then identity else known, identity.None?)]
  }

  // Contributions --------------------------------------------------------------

  predicate HasRef(contributions: seq<Contribution>, txRef: string)
  {
    exists i | 0 <= i < |contributions| :: contributions[i].providerTxRef == txRef
  }

  /** The trigger that keeps contributions to committed cycles. */
  predicate CycleAccepts(cycles: map<Uuid, Cycle>, id: Uuid) { id in cycles && cycles[id].state == Committed }

  // Cycles -----------------------------------------------------------------------

  /** `collected_amount_minor + amount` stays a 64-bit number. */
  predicate CollectedFits(cycles: map<Uuid, Cycle>, id: Uuid, amount: int)
    requires id in cycles
  {
    cycles[id].collectedAmountMinor + amount <= MAX_I64
  }

  function Collect(cycles: map<Uuid, Cycle>, id: Uuid, amount: int): map<Uuid, Cycle>
    requires id in cycles
  {
    cycles[id := cycles[id].(collectedAmountMinor := cycles[id].collectedAmountMinor + amount)]
  }

  /** The payout key is UNIQUE among cycles. */
  predicate PayoutKeyFree(cycles: map<Uuid, Cycle>, id: Uuid, key: Option<string>)
  {
    key.Some? ==> forall other | other in cycles && other != id :: cycles[other].payoutIdempotencyKey != key
  }

  predicate CanUpdatePayoutState(cycles: map<Uuid, Cycle>, id: Uuid, p: PayoutState, key: Option<string>)
  {
    id in cycles ==> TriggerAllows(cycles[id], WithPayoutState(cycles[id], p, key)) && PayoutKeyFree(cycles, id, key)
  }

  function UpdatePayoutState(cycles: map<Uuid, Cycle>, id: Uuid, p: PayoutState, key: Option<string>): map<Uuid, Cycle>
  {
    if id in cycles then cycles[id := WithPayoutState(cycles[id], p, key)] else cycles
  }

  // Outbox -----------------------------------------------------------------------

  predicate HasOutboxKey(outbox: seq<OutboxEvent>, key: string)
  {
    exists i | 0 <= i < |outbox| :: outbox[i].idempotencyKey == key
  }

  /** INSERT ... ON CONFLICT (idempotency_key) DO NOTHING. */
  function OutboxAfter(outbox: seq<OutboxEvent>, e: OutboxEvent): seq<OutboxEvent>
  {
    if HasOutboxKey(outbox, e.idempotencyKey) then outbox else outbox + [e]
  }

  // The fund ------------------------------------------------------------------------

  /** The CHECK constraints and the trigger on `working_capital`, within 64 bits. */
  predicate FundOk(f: Fund)
  {
    0 <= f.reservedMinor <= f.balanceMinor <= MAX_I64 && 0 <= f.totalAdvancedMinor <= MAX_I64
      && 0 <= f.totalRepaidMinor <= MAX_I64
  }

  function AfterAdvance(f: Fund, amount: int): Fund
  {
    f.(balanceMinor := f.balanceMinor - amount, reservedMinor := f.reservedMinor - amount,
       totalAdvancedMinor := f.totalAdvancedMinor + amount)
  }

  function AfterFundRepayment(f: Fund, amount: int): Fund
  {
    f.(balanceMinor := f.balanceMinor + amount, totalRepaidMinor := f.totalRepaidMinor + amount)
  }

  /** The foreign key of the journal to the ledger. */
  predicate RefersToLedger(ledger: seq<LedgerEntry>, r: EntryRef)
  {
    r.Row? && exists i | 0 <= i < |ledger| :: ledger[i].seqNo == r.seqNo
  }

  predicate CanConfirmAdvance(t: Tables, group: Uuid, amount: int, entry: EntryRef)
  {
    group in t.funds && FundOk(AfterAdvance(t.funds[group], amount)) && RefersToLedger(t.ledger, entry)
  }

  function ConfirmAdvanceInTx(t: Tables, group: Uuid, amount: int, entry: EntryRef): Tables
    requires group in t.funds
  {
    t.(funds := t.funds[group := AfterAdvance(t.funds[group], amount)],
       journal := t.journal + [FundMove(group, AdvanceMove, amount, entry)])
  }

  predicate CanReceiveRepayment(t: Tables, group: Uuid, amount: int, entry: EntryRef)
  {
    group in t.funds && FundOk(AfterFundRepayment(t.funds[group], amount)) && RefersToLedger(t.ledger, entry)
  }

  function ReceiveRepaymentInTx(t: Tables, group: Uuid, amount: int, entry: EntryRef): Tables
    requires group in t.funds
  {
    t.(funds := t.funds[group := AfterFundRepayment(t.funds[group], amount)],
       journal := t.journal + [FundMove(group, RepaymentMove, amount, entry)])
  }

  predicate CanDeposit(t: Tables, group: Uuid, amount: int, entry: EntryRef)
  {
    group in t.funds && RefersToLedger(t.ledger, entry) &&
    FundOk(t.funds[group].(balanceMinor := t.funds[group].balanceMinor + amount))
  }

  function DepositInTx(t: Tables, group: Uuid, amount: int, entry: EntryRef): Tables
    requires group in t.funds
  {
    t.(funds := t.funds[group := t.funds[group].(balanceMinor := t.funds[group].balanceMinor + amount)],
       journal := t.journal + [FundMove(group, DepositMove, amount, entry)])
  }

  // Debts -----------------------------------------------------------------------------

  predicate HasDebt(debts: seq<DebtRow>, id: Uuid)
  {
    exists i | 0 <= i < |debts| :: debts[i].id == id
  }

  predicate CanInsertDebt(debts: seq<DebtRow>, d: DebtRow)
  {
    !HasDebt(debts, d.id) && 0 < d.originalAmountMinor && 0 <= d.remainingAmountMinor <= d.originalAmountMinor
  }

  /** UPDATE member_debts SET remaining, state, repaid_at WHERE id: the three columns of `d` overwrite the row's. */
  function Overwritten(row: DebtRow, d: DebtRow): DebtRow
  {
    if row.id == d.id
    then row.(remainingAmountMinor := d.remainingAmountMinor, state := d.state, repaidAt := d.repaidAt)
    else row
  }

  function UpdateDebt(debts: seq<DebtRow>, d: DebtRow): (out: seq<DebtRow>)
    ensures |out| == |debts| && forall i | 0 <= i < |debts| :: out[i] == Overwritten(debts[i], d)
  {
    seq(|debts|, i requires 0 <= i < |debts| => Overwritten(debts[i], d))
  }

  predicate CanUpdateDebt(debts: seq<DebtRow>, d: DebtRow)
  {
    forall i | 0 <= i < |debts| && debts[i].id == d.id :: 0 <= d.remainingAmountMinor <= debts[i].originalAmountMinor
  }

  /** SELECT ... WHERE debtor and cycle match and the state is active, oldest first. */
  function ActiveDebts(debts: seq<DebtRow>, debtor: Uuid, cycle: Uuid): seq<DebtRow>
  {
    if debts == [] then [] else
      var n := |debts| - 1;
      var d := debts[n];
      ActiveDebts(debts[..n], debtor, cycle)
      + (if d.debtorId == debtor && d.cycleId == cycle && d.IsActive() then [d] else [])
  }
}
