/**
 The kernel's operations as pairs of a read and an atomic commit. A worker reads, decides in memory
 and holds a task; later its transaction commits against tables that others may have changed, and is
 guarded only by what the database checks. A refused commit changes nothing but the ledger's counter.
 */
module Settlement {
  import opened Wrappers
  import opened Ids
  import opened Text
  import opened Keys
  import opened Ledger
  import opened LedgerTable
  import opened Cycles
  import opened Debts
  import opened WorkingCapitals
  import opened Database

  datatype MobileMoneyCallback = MobileMoneyCallback(
    providerTxRef: string,
    payerMsisdn: string,
    amountMinor: int,
    cycleId: Uuid,
    provider: string,
    timestamp: int)

  /** What a caller of the kernel is told; `Failure` stands for an error return. */
  datatype Outcome =
    | Failure
    | Reconciled | Quarantined | AlreadyProcessed | IgnoredCycleState
    | PayoutInitiatedOutcome | PayoutSkipped
    | ConfirmedOutcome | AlreadyConfirmed
    | FailedOutcome | AlreadyFailed | IgnoredAlreadyConfirmed
    | ThresholdMet | FullAdvanceUsed | ProRataDispatched | HybridDispatched | ResilienceBlocked
    | RepaymentRecorded | NothingOwed

  /** What a worker holds between its read and its commit. */
  datatype Task =
    | DoReconcile(cb: MobileMoneyCallback, beneficiary: Uuid, payer: Uuid)
    | DoQuarantine(cb: MobileMoneyCallback, beneficiary: Uuid)
    | DoInitiate(cycleId: Uuid, snapshot: Cycle, now: int)
    | DoConfirm(cycleId: Uuid, externalRef: string, now: int)
    | DoFail(cycleId: Uuid, externalRef: string, reason: string, now: int)
    | DoProRata(cycleId: Uuid, decision: ProRata, threshold: int)
    | DoFullAdvance(cycleId: Uuid, snapshot: Cycle, advanceMinor: int, debtId: Uuid)
    | DoHybrid(cycleId: Uuid, snapshot: Cycle, advanceMinor: int, totalDistributable: int, journalEntry: EntryRef)
    | DoRepay(debtorId: Uuid, cycleId: Uuid, amountMinor: int, debts: seq<DebtRow>, now: int)

  datatype Planned = Go(task: Task) | Stop(outcome: Outcome)

  // --------------------------------------------------------------------------
  // Reads
  // --------------------------------------------------------------------------

  function DigitCount(s: string): nat
  {
    if s == "" then 0 else (if '0' <= s[0] <= '9' then 1 else 0) + DigitCount(s[1..])
  }

  /** Minimal E.164: a leading plus and 7 to 15 digits. */
  predicate ValidMsisdn(s: string) { s != "" && s[0] == '+' && 7 <= DigitCount(s) <= 15 }

  lemma {:induction false} DigitsOf(s: string)
    requires forall i | 0 <= i < |s| :: '0' <= s[i] <= '9'
    ensures DigitCount(s) == |s|
  {
    if s != "" {
      DigitsOf(s[1..]);
    }
  }

  /** A plus and digits is a valid number exactly if there are seven to fifteen of them; without a plus nothing is. */
  lemma NumberLength(digits: string)
    requires forall i | 0 <= i < |digits| :: '0' <= digits[i] <= '9'
    ensures ValidMsisdn("+" + digits) <==> 7 <= |digits| <= 15
    ensures !ValidMsisdn(digits)
  {
    DigitsOf(digits);
    assert ("+" + digits)[1..] == digits;
  }

  /** `handle_callback` up to the choice between reconciliation and quarantine. */
  function PlanCallback(t: Tables, bindings: map<string, Uuid>, cb: MobileMoneyCallback): Planned
  {
    if HasRef(t.contributions, cb.providerTxRef) then Stop(AlreadyProcessed)
    else if !ValidMsisdn(cb.payerMsisdn) then Stop(Failure)
    else if cb.cycleId !in t.cycles then Stop(Failure)
    else if t.cycles[cb.cycleId].state != Committed then Stop(IgnoredCycleState)
    else
      var beneficiary := t.cycles[cb.cycleId].beneficiaryId;
      if cb.payerMsisdn in bindings then Go(DoReconcile(cb, beneficiary, bindings[cb.payerMsisdn]))
      else Go(DoQuarantine(cb, beneficiary))
  }

  /** `process_eligible_cycle` up to the payout command. */
  function PlanPayout(t: Tables, id: Uuid, msisdn: string, now: int): Planned
  {
    if !ValidMsisdn(msisdn) then Stop(Failure)
    else if id !in t.cycles then Stop(Failure)
    else if EvaluatePayoutEligibility(id, t.cycles[id], now).Eligible? then Go(DoInitiate(id, t.cycles[id], now))
    else Stop(PayoutSkipped)
  }

  function PlanConfirm(t: Tables, id: Uuid, externalRef: string, now: int): Planned
  {
    if id !in t.cycles then Stop(Failure)
    else if t.cycles[id].payoutState == Confirmed then Stop(AlreadyConfirmed)
    else if t.cycles[id].payoutState == Pending || t.cycles[id].payoutState == Sent
    then Go(DoConfirm(id, externalRef, now))
    else Stop(Failure)
  }

  function PlanFail(t: Tables, id: Uuid, externalRef: string, reason: string, now: int): Planned
  {
    if id !in t.cycles then Stop(Failure)
    else if t.cycles[id].payoutState == Confirmed then Stop(IgnoredAlreadyConfirmed)
    else if t.cycles[id].payoutState == Failed then Stop(AlreadyFailed)
    else Go(DoFail(id, externalRef, reason, now))
  }

  function Available(t: Tables, group: Uuid): int
  {
    if group in t.funds then t.funds[group].balanceMinor - t.funds[group].reservedMinor else 0
  }

  /** `evaluate_resilience` up to the transaction it opens. */
  function PlanResilience(t: Tables, id: Uuid, policy: ResiliencePolicy, debtId: Uuid, journalEntry: EntryRef): Planned
  {
    if id !in t.cycles then Stop(Failure)
    else
      var c := t.cycles[id];
      if c.state != Committed || c.payoutState != NotSent then Stop(ResilienceBlocked)
      else
        match Decide(policy, Available(t, c.groupId), c.collectedAmountMinor, c.payoutThresholdMinor)
        case ThresholdAlreadyMet => Stop(ThresholdMet)
        case PlanBlocked(_) => Stop(ResilienceBlocked)
        case PlanFullAdvance(a) => Go(DoFullAdvance(id, c, a, debtId))
        case PlanProRata(d) => Go(DoProRata(id, d, c.payoutThresholdMinor))
        case PlanHybrid(a, total) => Go(DoHybrid(id, c, a, total, journalEntry))
  }

  function PlanRepayment(t: Tables, debtor: Uuid, cycle: Uuid, amount: int, now: int): Planned
  {
    var debts := ActiveDebts(t.debts, debtor, cycle);
    if debts == [] then Stop(NothingOwed) else Go(DoRepay(debtor, cycle, amount, debts, now))
  }

  // --------------------------------------------------------------------------
  // The entries and rows a commit writes
  // --------------------------------------------------------------------------

  function Entry(eventType: LedgerEventType, cycle: Uuid, payload: seq<string>, amount: Option<int>,
                 direction: Option<Direction>, key: string, externalRef: Option<string>): LedgerEntryBuilder
  {
    LedgerEntryBuilder(eventType, "cycle", cycle, amount, direction, Payload(payload), Some(key), externalRef)
  }

  function ReconcileEntry(cb: MobileMoneyCallback, beneficiary: Uuid, payer: Uuid): LedgerEntryBuilder
  {
    Entry(ContributionReceived, cb.cycleId,
          [cb.cycleId, beneficiary, payer, cb.payerMsisdn, Dec(cb.amountMinor), cb.providerTxRef, cb.provider,
            Dec(cb.timestamp)],
          Some(cb.amountMinor), Some(Credit), ContribKey(cb.providerTxRef), Some(cb.providerTxRef))
  }

  function QuarantineEntry(cb: MobileMoneyCallback, beneficiary: Uuid): LedgerEntryBuilder
  {
    Entry(ContributionQuarantined, cb.cycleId,
          [cb.cycleId, beneficiary, cb.payerMsisdn, Dec(cb.amountMinor), cb.providerTxRef, cb.provider,
            "unknown_msisdn", Dec(cb.timestamp)],
          Some(cb.amountMinor), Some(Credit), QuarantineKey(cb.providerTxRef), Some(cb.providerTxRef))
  }

  function InitiateEntry(id: Uuid, c: Cycle, now: int): LedgerEntryBuilder
  {
    Entry(PayoutInitiated, id, [id, c.groupId, c.beneficiaryId, Dec(c.collectedAmountMinor), KeyOf(id, c), Dec(now)],
          Some(c.collectedAmountMinor), Some(Debit), KeyOf(id, c), None)
  }

  function ConfirmEntry(id: Uuid, externalRef: string, now: int): LedgerEntryBuilder
  {
    Entry(LedgerEventType.PayoutConfirmed, id, [id, externalRef, Dec(now)], None, None, ConfirmKey(externalRef),
      Some(externalRef))
  }

  function FailEntry(id: Uuid, externalRef: string, reason: string, now: int): LedgerEntryBuilder
  {
    Entry(LedgerEventType.PayoutFailed, id, [id, externalRef, reason, Dec(now)], None, None, FailKey(externalRef),
      Some(externalRef))
  }

  function ProRataEntry(id: Uuid, d: ProRata, threshold: int): LedgerEntryBuilder
  {
    Entry(Adjustment, id, [id, Dec(d.distributableMinor), Dec(d.fractionPct), Dec(d.shortfallMinor), Dec(threshold)],
          Some(d.distributableMinor), Some(Debit), ProRataKey(id, d.distributableMinor), None)
  }

  function AdvanceEntry(id: Uuid, c: Cycle, advance: int): LedgerEntryBuilder
  {
    Entry(AdvanceIssued, id,
          [id, c.groupId, c.beneficiaryId, Dec(advance), Dec(c.collectedAmountMinor), Dec(c.payoutThresholdMinor)],
          Some(advance), Some(Debit), AdvanceKey(id, advance), None)
  }

  function HybridEntry(id: Uuid, c: Cycle, advance: int, total: int): LedgerEntryBuilder
  {
    Entry(AdvanceIssued, id,
          [id, Dec(c.collectedAmountMinor), Dec(advance), Dec(total), Dec(c.payoutThresholdMinor)],
          Some(advance), Some(Debit), HybridKey(id, total), None)
  }

  function DebtEntry(id: Uuid, d: DebtRow): LedgerEntryBuilder
  {
    Entry(DebtRecorded, id, [d.id, d.debtorId, id, Dec(d.originalAmountMinor), "working_capital_advance"],
          Some(d.originalAmountMinor), Some(Debit), DebtKey(d.id), None)
  }

  function RepayEntry(debtor: Uuid, cycle: Uuid, after: DebtRow, repaid: int): LedgerEntryBuilder
  {
    Entry(DebtRepaid, cycle, [after.id, debtor, cycle, Dec(repaid), Dec(after.remainingAmountMinor)],
          Some(repaid), Some(Credit), RepayKey(after.id, repaid), None)
  }

  function Notify(eventType: string, cycle: Uuid, key: string): OutboxEvent
  {
    OutboxEvent(eventType, cycle, "notification-svc", key)
  }

  // --------------------------------------------------------------------------
  // Commits
  // --------------------------------------------------------------------------

  /** Reconciled or quarantined, the same database checks stand in the way of a contribution. */
  function ContributionRefusal(t: Tables, cb: MobileMoneyCallback, key: string): Outcome
  {
    if HasKey(t.ledger, key) then AlreadyProcessed
    else if !CycleAccepts(t.cycles, cb.cycleId) then Failure
    else if cb.amountMinor <= 0 then Failure
    else if HasRef(t.contributions, cb.providerTxRef) then AlreadyProcessed
    else Failure
  }

  predicate CanContribute(t: Tables, cb: MobileMoneyCallback, key: string)
  {
    && KnownProvider(cb.provider)
    && !HasKey(t.ledger, key)
    && CycleAccepts(t.cycles, cb.cycleId)
    && cb.amountMinor > 0
    && !HasRef(t.contributions, cb.providerTxRef)
  }

  predicate CanReconcile(t: Tables, cb: MobileMoneyCallback)
  {
    CanContribute(t, cb, ContribKey(cb.providerTxRef)) && CollectedFits(t.cycles, cb.cycleId, cb.amountMinor)
  }

  function AfterReconcile(sha: Digest, db: Db, cb: MobileMoneyCallback, beneficiary: Uuid, payer: Uuid): Tables
    requires cb.cycleId in db.t.cycles
  {
    db.t.(
      instruments := InstrumentsAfter(db.t.instruments, cb.payerMsisdn, cb.provider, Some(payer)),
      ledger := Appended(sha, db.t.ledger, db.nextVal, ReconcileEntry(cb, beneficiary, payer)),
      contributions := db.t.contributions +
        [Contribution(cb.cycleId, beneficiary, Some(payer), cb.payerMsisdn, cb.amountMinor, StatusReconciled,
          cb.providerTxRef)],
      cycles := Collect(db.t.cycles, cb.cycleId, cb.amountMinor),
      outbox := OutboxAfter(db.t.outbox, Notify("contribution.received", cb.cycleId, ContribKey(cb.providerTxRef))))
  }

  function CommitReconcile(sha: Digest, db: Db, cb: MobileMoneyCallback, beneficiary: Uuid, payer: Uuid): (Db, Outcome)
  {
    if CanReconcile(db.t, cb) then (Db(AfterReconcile(sha, db, cb, beneficiary, payer), db.nextVal + 1), Reconciled)
    else if !KnownProvider(cb.provider) then (db, Failure)
    else (Burn(db, 1), ContributionRefusal(db.t, cb, ContribKey(cb.providerTxRef)))
  }

  function AfterQuarantine(sha: Digest, db: Db, cb: MobileMoneyCallback, beneficiary: Uuid): Tables
  {
    db.t.(
      instruments := InstrumentsAfter(db.t.instruments, cb.payerMsisdn, cb.provider, None),
      ledger := Appended(sha, db.t.ledger, db.nextVal, QuarantineEntry(cb, beneficiary)),
      contributions := db.t.contributions +
        [Contribution(cb.cycleId, beneficiary, None, cb.payerMsisdn, cb.amountMinor, StatusQuarantined,
          cb.providerTxRef)],
      outbox := OutboxAfter(db.t.outbox,
        Notify("contribution.quarantined", cb.cycleId, QuarantineKey(cb.providerTxRef))))
  }

  function CommitQuarantine(sha: Digest, db: Db, cb: MobileMoneyCallback, beneficiary: Uuid): (Db, Outcome)
  {
    if CanContribute(db.t, cb, QuarantineKey(cb.providerTxRef))
    then (Db(AfterQuarantine(sha, db, cb, beneficiary), db.nextVal + 1), Quarantined)
    else if !KnownProvider(cb.provider) then (db, Failure)
    else (Burn(db, 1), ContributionRefusal(db.t, cb, QuarantineKey(cb.providerTxRef)))
  }

  predicate CanInitiate(t: Tables, id: Uuid, snapshot: Cycle)
  {
    !HasKey(t.ledger, KeyOf(id, snapshot)) && CanUpdatePayoutState(t.cycles, id, Pending, Some(KeyOf(id, snapshot)))
  }

  function AfterInitiate(sha: Digest, db: Db, id: Uuid, snapshot: Cycle, now: int): Tables
  {
    db.t.(
      ledger := Appended(sha, db.t.ledger, db.nextVal, InitiateEntry(id, snapshot, now)),
      outbox := OutboxAfter(db.t.outbox, OutboxEvent("payout.triggered", id, "mobile-money-gw", KeyOf(id, snapshot))),
      cycles := UpdatePayoutState(db.t.cycles, id, Pending, Some(KeyOf(id, snapshot))))
  }

  function CommitInitiate(sha: Digest, db: Db, id: Uuid, snapshot: Cycle, now: int): (Db, Outcome)
  {
    if CanInitiate(db.t, id, snapshot)
    then (Db(AfterInitiate(sha, db, id, snapshot, now), db.nextVal + 1), PayoutInitiatedOutcome)
    else (Burn(db, 1), Failure)
  }

  predicate CanConfirm(t: Tables, id: Uuid, externalRef: string)
  {
    !HasKey(t.ledger, ConfirmKey(externalRef)) && CanUpdatePayoutState(t.cycles, id, Confirmed, None)
  }

  function AfterConfirm(sha: Digest, db: Db, id: Uuid, externalRef: string, now: int): Tables
  {
    db.t.(
      ledger := Appended(sha, db.t.ledger, db.nextVal, ConfirmEntry(id, externalRef, now)),
      outbox := OutboxAfter(db.t.outbox, Notify("payout.confirmed", id, ConfirmKey(externalRef))),
      cycles := UpdatePayoutState(db.t.cycles, id, Confirmed, None))
  }

  function CommitConfirm(sha: Digest, db: Db, id: Uuid, externalRef: string, now: int): (Db, Outcome)
  {
    if CanConfirm(db.t, id, externalRef)
    then (Db(AfterConfirm(sha, db, id, externalRef, now), db.nextVal + 1), ConfirmedOutcome)
    else (Burn(db, 1), if HasKey(db.t.ledger, ConfirmKey(externalRef)) then AlreadyConfirmed else Failure)
  }

  predicate CanFail(t: Tables, id: Uuid, externalRef: string)
  {
    !HasKey(t.ledger, FailKey(externalRef)) && CanUpdatePayoutState(t.cycles, id, Failed, None)
  }

  function AfterFail(sha: Digest, db: Db, id: Uuid, externalRef: string, reason: string, now: int): Tables
  {
    db.t.(
      ledger := Appended(sha, db.t.ledger, db.nextVal, FailEntry(id, externalRef, reason, now)),
      outbox := OutboxAfter(db.t.outbox, Notify("payout.failed", id, FailKey(externalRef))),
      cycles := UpdatePayoutState(db.t.cycles, id, Failed, None))
  }

  function CommitFail(sha: Digest, db: Db, id: Uuid, externalRef: string, reason: string, now: int): (Db, Outcome)
  {
    if CanFail(db.t, id, externalRef)
    then (Db(AfterFail(sha, db, id, externalRef, reason, now), db.nextVal + 1), FailedOutcome)
    else (Burn(db, 1), if HasKey(db.t.ledger, FailKey(externalRef)) then AlreadyFailed else Failure)
  }

  function AfterProRata(sha: Digest, db: Db, id: Uuid, d: ProRata, threshold: int): Tables
  {
    db.t.(
      ledger := Appended(sha, db.t.ledger, db.nextVal, ProRataEntry(id, d, threshold)),
      outbox := OutboxAfter(db.t.outbox, Notify("pro_rata.dispatched", id, ProRataKey(id, d.distributableMinor))))
  }

  function CommitProRata(sha: Digest, db: Db, id: Uuid, d: ProRata, threshold: int): (Db, Outcome)
  {
    if !HasKey(db.t.ledger, ProRataKey(id, d.distributableMinor))
    then (Db(AfterProRata(sha, db, id, d, threshold), db.nextVal + 1), ProRataDispatched)
    else (Burn(db, 1), Failure)
  }

  /** The debt a full advance records: all of it, on the cycle's beneficiary. */
  function AdvanceDebt(id: Uuid, c: Cycle, advance: int, debtId: Uuid): DebtRow
  {
    NewDebt(debtId, c.groupId, id, c.beneficiaryId, advance, DebtReason.WorkingCapitalAdvance)
  }

  /** Ledger entry, debt row, second ledger entry: what precedes the debit of the fund. */
  function AfterAdvanceEntries(sha: Digest, db: Db, id: Uuid, c: Cycle, advance: int, debtId: Uuid): Tables
  {
    var debt := AdvanceDebt(id, c, advance, debtId);
    var first := Appended(sha, db.t.ledger, db.nextVal, AdvanceEntry(id, c, advance));
    db.t.(ledger := Appended(sha, first, db.nextVal + 1, DebtEntry(id, debt)), debts := db.t.debts + [debt])
  }

  predicate CanRecordAdvance(t: Tables, id: Uuid, c: Cycle, advance: int, debtId: Uuid)
  {
    && !HasKey(t.ledger, AdvanceKey(id, advance))
    && CanInsertDebt(t.debts, AdvanceDebt(id, c, advance, debtId))
  }

  function CommitFullAdvance(sha: Digest, db: Db, id: Uuid, c: Cycle, advance: int, debtId: Uuid): (Db, Outcome)
  {
    if !CanRecordAdvance(db.t, id, c, advance, debtId) then (Burn(db, 1), Failure)
    else if HasKey(db.t.ledger, DebtKey(debtId)) then (Burn(db, 2), Failure)
    else
      var t := AfterAdvanceEntries(sha, db, id, c, advance, debtId);
      if CanConfirmAdvance(t, c.groupId, advance, Row(db.nextVal))
      then (Db(ConfirmAdvanceInTx(t, c.groupId, advance, Row(db.nextVal)), db.nextVal + 2), FullAdvanceUsed)
      else (Burn(db, 2), Failure)
  }

  function CommitHybrid(sha: Digest, db: Db, id: Uuid, c: Cycle, advance: int, total: int, entry: EntryRef)
    : (Db, Outcome)
  {
    var t := db.t.(ledger := Appended(sha, db.t.ledger, db.nextVal, HybridEntry(id, c, advance, total)));
    if !HasKey(db.t.ledger, HybridKey(id, total)) && CanConfirmAdvance(t, c.groupId, advance, entry)
    then (Db(ConfirmAdvanceInTx(t, c.groupId, advance, entry), db.nextVal + 1), HybridDispatched)
    else (Burn(db, 1), Failure)
  }

  /** One turn of the repayment loop on the pending tables: entry, credit of the fund if there is one, debt row. */
  predicate CanRepayOne(sha: Digest, db: Db, debtor: Uuid, cycle: Uuid, after: DebtRow, repaid: int)
  {
    && !HasKey(db.t.ledger, RepayKey(after.id, repaid))
    && (after.groupId in db.t.funds ==> FundOk(AfterFundRepayment(db.t.funds[after.groupId], repaid)))
    && CanUpdateDebt(db.t.debts, after)
  }

  function RepayOne(sha: Digest, db: Db, debtor: Uuid, cycle: Uuid, after: DebtRow, repaid: int): Db
  {
    var t := db.t.(ledger := Appended(sha, db.t.ledger, db.nextVal, RepayEntry(debtor, cycle, after, repaid)));
    var credited :=
      if after.groupId in t.funds then ReceiveRepaymentInTx(t, after.groupId, repaid, Row(db.nextVal)) else t;
    Db(credited.(debts := UpdateDebt(credited.debts, after)), db.nextVal + 1)
  }

  /** The loop over the debts read earlier: the pending tables it leaves, and whether every statement passed. */
  function RepayLoop(sha: Digest, db: Db, debtor: Uuid, cycle: Uuid, debts: seq<DebtRow>, left: int, now: int)
    : (Db, bool)
    decreases |debts|
  {
    if debts == [] || left == 0 then (db, true)
    else
      var after := AfterRepayment(debts[0], left, now);
      var repaid := Effective(debts[0], left);
      if CanRepayOne(sha, db, debtor, cycle, after, repaid)
      then RepayLoop(sha, RepayOne(sha, db, debtor, cycle, after, repaid), debtor, cycle, debts[1..], left - repaid,
        now)
      else (Burn(db, 1), false)
  }

  function CommitRepay(sha: Digest, db: Db, debtor: Uuid, cycle: Uuid, amount: int, debts: seq<DebtRow>, now: int)
    : (Db, Outcome)
  {
    var (pending, ok) := RepayLoop(sha, db, debtor, cycle, debts, amount, now);
    if ok then (pending, RepaymentRecorded) else (Db(db.t, pending.nextVal), Failure)
  }

  /** The transaction of a task, as one step on the database. */
  function CommitTask(sha: Digest, db: Db, task: Task): (Db, Outcome)
  {
    match task
    case DoReconcile(cb, beneficiary, payer) => CommitReconcile(sha, db, cb, beneficiary, payer)
    case DoQuarantine(cb, beneficiary) => CommitQuarantine(sha, db, cb, beneficiary)
    case DoInitiate(id, snapshot, now) => CommitInitiate(sha, db, id, snapshot, now)
    case DoConfirm(id, externalRef, now) => CommitConfirm(sha, db, id, externalRef, now)
    case DoFail(id, externalRef, reason, now) => CommitFail(sha, db, id, externalRef, reason, now)
    case DoProRata(id, d, threshold) => CommitProRata(sha, db, id, d, threshold)
    case DoFullAdvance(id, c, advance, debtId) => CommitFullAdvance(sha, db, id, c, advance, debtId)
    case DoHybrid(id, c, advance, total, entry) => CommitHybrid(sha, db, id, c, advance, total, entry)
    case DoRepay(debtor, cycle, amount, debts, now) => CommitRepay(sha, db, debtor, cycle, amount, debts, now)
  }

  // --------------------------------------------------------------------------
  // The interleaved system
  // --------------------------------------------------------------------------

  datatype Request =
    | Callback(cb: MobileMoneyCallback, bindings: map<string, Uuid>)
    | EvaluatePayout(cycleId: Uuid, beneficiaryMsisdn: string, now: int)
    | ConfirmPayout(cycleId: Uuid, externalRef: string, now: int)
    | FailPayout(cycleId: Uuid, externalRef: string, reason: string, now: int)
    | EvaluateResilience(cycleId: Uuid, policy: ResiliencePolicy, debtId: Uuid, journalEntry: EntryRef)
    | LateRepayment(debtorId: Uuid, cycleId: Uuid, amountMinor: int, now: int)

  function PlanOf(t: Tables, r: Request): Planned
  {
    match r
    case Callback(cb, bindings) => PlanCallback(t, bindings, cb)
    case EvaluatePayout(id, msisdn, now) => PlanPayout(t, id, msisdn, now)
    case ConfirmPayout(id, externalRef, now) => PlanConfirm(t, id, externalRef, now)
    case FailPayout(id, externalRef, reason, now) => PlanFail(t, id, externalRef, reason, now)
    case EvaluateResilience(id, policy, debtId, entry) => PlanResilience(t, id, policy, debtId, entry)
    case LateRepayment(debtor, cycle, amount, now) => PlanRepayment(t, debtor, cycle, amount, now)
  }

  /** What becomes of the database when a plan, made on tables of any age, goes ahead on it. */
  function Finish(sha: Digest, db: Db, planned: Planned): (Db, Outcome)
  {
    match planned
    case Stop(outcome) => (db, outcome)
    case Go(task) => CommitTask(sha, db, task)
  }

  /** A read and its commit with nothing in between. */
  function Serve(sha: Digest, db: Db, r: Request): (Db, Outcome) { Finish(sha, db, PlanOf(db.t, r)) }

  /** Steps of the system: any worker may read or commit at any time; the rest is done to the database from outside. */
  datatype Step =
    | Read(worker: nat, request: Request)
    | Commit(worker: nat)
    | AdmitCycle(id: Uuid, cycle: Cycle)
    | CommitCycle(id: Uuid)
    | OpenFund(group: Uuid)
    | Deposit(group: Uuid, amountMinor: int, entry: EntryRef)
    | Reserve(group: Uuid, amountMinor: int)
    | CancelReservation(group: Uuid, amountMinor: int)

  datatype System = System(db: Db, held: map<nat, Task>)

  const Start: System := System(EmptyDb, map[])

  /** A new cycle row: nothing collected, nothing sent. */
  predicate CanAdmit(t: Tables, id: Uuid, c: Cycle)
  {
    && id !in t.cycles
    && c.state in {Open, Committed} && c.payoutState == NotSent && c.payoutIdempotencyKey == None
    && c.collectedAmountMinor == 0 && 0 < c.payoutThresholdMinor <= MAX_I64
  }

  /**
   The steps taken outside the services: new rows, the opening of a cycle to contributions, the fund's own
   operations.
   */
  function Outside(t: Tables, s: Step): Tables
  {
    match s
    case AdmitCycle(id, c) => if CanAdmit(t, id, c) then t.(cycles := t.cycles[id := c]) else t
    case CommitCycle(id) =>
      if id in t.cycles && t.cycles[id].state == Open
      then t.(cycles := t.cycles[id := t.cycles[id].(state := Committed)]) else t
    case OpenFund(g) => if g !in t.funds then t.(funds := t.funds[g := Fund(0, 0, 0, 0)]) else t
    case Deposit(g, amount, entry) => if CanDeposit(t, g, amount, entry) then DepositInTx(t, g, amount, entry) else t
    case Reserve(g, amount) =>
      if g in t.funds && 0 < amount <= Available(t, g)
      then t.(funds := t.funds[g := t.funds[g].(reservedMinor := t.funds[g].reservedMinor + amount)]) else t
    case CancelReservation(g, amount) =>
      if g in t.funds && 0 <= amount
      then t.(funds := t.funds[g := t.funds[g].(reservedMinor :=
             if t.funds[g].reservedMinor > amount then t.funds[g].reservedMinor - amount else 0)]) else t
    case _ => t
  }

  function Next(sha: Digest, s: System, step: Step): System
  {
    match step
    case Read(w, r) =>
      (match PlanOf(s.db.t, r)
       case Go(task) => s.(held := s.held[w := task])
       case Stop(_) => s.(held := s.held - {w}))
    case Commit(w) =>
      if w in s.held then System(CommitTask(sha, s.db, s.held[w]).0, s.held - {w}) else s
    case _ => s.(db := s.db.(t := Outside(s.db.t, step)))
  }

  function Run(sha: Digest, s: System, steps: seq<Step>): System
  {
    if steps == [] then s else Next(sha, Run(sha, s, steps[..|steps| - 1]), steps[|steps| - 1])
  }
}
