/**
 The kernel's services as they run: reads, early returns, one transaction, statement by statement. Each method
 is given the tables its reads saw (`read`), which may be older than the tables its transaction meets, and
 is proved to do exactly what the plan and the atomic commit of the interleaved system say.
 */
module Services {
  import opened Wrappers
  import opened Ids
  import opened Text
  import opened Keys
  import opened Ledger
  import opened LedgerTable
  import opened Cycles
  import opened Debts
  import opened WorkingCapitals
  import opened Database
  import opened Settlement
  import opened Transactions
  import SettlementRuns
  import opened SettlementTheorems

  /** With reads of any age, it is a read step followed, after whatever else happened, by a commit step. */
  lemma FinishIsACommitStep(sha: Digest, s: System, w: nat, r: Request, between: seq<Step>)
    requires forall i | 0 <= i < |between| :: (between[i].Read? || between[i].Commit?) ==> between[i].worker != w
    ensures var s1 := Run(sha, Next(sha, s, Read(w, r)), between);
      Next(sha, s1, Step.Commit(w)).db == Finish(sha, s1.db, PlanOf(s.db.t, r)).0
  {
    hide PlanOf, CommitTask, Outside;
    OthersLeaveTheTask(sha, Next(sha, s, Read(w, r)), w, between);
  }

  lemma {:induction false} OthersLeaveTheTask(sha: Digest, s: System, w: nat, steps: seq<Step>)
    requires forall i | 0 <= i < |steps| :: (steps[i].Read? || steps[i].Commit?) ==> steps[i].worker != w
    ensures var s' := Run(sha, s, steps).held; (w in s' <==> w in s.held) && (w in s' ==> s'[w] == s.held[w])
  {
    hide PlanOf, CommitTask, Outside;
    if steps != [] {
      OthersLeaveTheTask(sha, s, w, steps[..|steps| - 1]);
    }
  }

  // --------------------------------------------------------------------------
  // Contributions
  // --------------------------------------------------------------------------

  class ContributionService {
    const db: Store

    constructor (db: Store) ensures this.db == db { this.db := db; }

    method HandleCallback(read: Tables, bindings: map<string, Uuid>, cb: MobileMoneyCallback) returns (outcome: Outcome)
      modifies db
      ensures (db.State(), outcome) == Finish(db.sha, old(db.State()), PlanOf(read, Callback(cb, bindings)))
    {
      hide CommitReconcile, CommitQuarantine, ValidMsisdn, HasRef;
      if HasRef(read.contributions, cb.providerTxRef) {
        return AlreadyProcessed;
      }
      if !ValidMsisdn(cb.payerMsisdn) {
        return Failure;
      }
      if cb.cycleId !in read.cycles {
        return Failure;
      }
      var cycle := read.cycles[cb.cycleId];
      if cycle.state != Committed {
        return IgnoredCycleState;
      }
      if cb.payerMsisdn in bindings {
        outcome := ReconcileContribution(cb, cycle.beneficiaryId, bindings[cb.payerMsisdn]);
      } else {
        outcome := QuarantineContribution(cb, cycle.beneficiaryId);
      }
    }

    method ReconcileContribution(cb: MobileMoneyCallback, beneficiary: Uuid, payer: Uuid) returns (outcome: Outcome)
      modifies db
      ensures (db.State(), outcome) == CommitReconcile(db.sha, old(db.State()), cb, beneficiary, payer)
    {
      hide ContribKey, NewRow, HasKey, HasRef, InstrumentsAfter, KnownProvider, OutboxAfter, RefersToLedger;
      var tx := new Transaction.Begin(db);
      var r := tx.EnsurePaymentInstrument(cb.payerMsisdn, cb.provider, Some(payer));
      if r != Done {
        return Failure;
      }
      var seqNo;
      r, seqNo := tx.Append(ReconcileEntry(cb, beneficiary, payer));
      if r == UniqueViolation {
        return AlreadyProcessed;
      }
      r := tx.InsertReconciled(
        Contribution(cb.cycleId, beneficiary, Some(payer), cb.payerMsisdn, cb.amountMinor, StatusReconciled,
          cb.providerTxRef));
      if r == UniqueViolation {
        return AlreadyProcessed;
      } else if r == Refused {
        return Failure;
      }
      tx.InsertOutbox(Notify("contribution.received", cb.cycleId, ContribKey(cb.providerTxRef)));
      tx.Commit();
      outcome := Reconciled;
    }

    method QuarantineContribution(cb: MobileMoneyCallback, beneficiary: Uuid) returns (outcome: Outcome)
      modifies db
      ensures (db.State(), outcome) == CommitQuarantine(db.sha, old(db.State()), cb, beneficiary)
    {
      hide QuarantineKey, NewRow, HasKey, HasRef, InstrumentsAfter, KnownProvider, OutboxAfter, RefersToLedger;
      var tx := new Transaction.Begin(db);
      var r := tx.EnsurePaymentInstrument(cb.payerMsisdn, cb.provider, None);
      if r != Done {
        return Failure;
      }
      var seqNo;
      r, seqNo := tx.Append(QuarantineEntry(cb, beneficiary));
      if r == UniqueViolation {
        return AlreadyProcessed;
      }
      r := tx.InsertContribution(
        Contribution(cb.cycleId, beneficiary, None, cb.payerMsisdn, cb.amountMinor, StatusQuarantined,
          cb.providerTxRef));
      if r == UniqueViolation {
        return AlreadyProcessed;
      } else if r == Refused {
        return Failure;
      }
      tx.InsertOutbox(Notify("contribution.quarantined", cb.cycleId, QuarantineKey(cb.providerTxRef)));
      tx.Commit();
      outcome := Quarantined;
    }
  }

  // --------------------------------------------------------------------------
  // Payouts
  // --------------------------------------------------------------------------

  class PayoutService {
    const db: Store

    constructor (db: Store) ensures this.db == db { this.db := db; }

    /** One pass over the cycles the view returned; each one is read again, and a failure does not stop the pass. */
    method RunPayoutEvaluation(eligible: seq<EligibleRow>, now: int)
      modifies db
      ensures db.State() == PayAll(db.sha, old(db.State()), eligible, now)
    {
      hide PlanOf, CommitTask;
      assert eligible[..0] == [];
      for i := 0 to |eligible|
        invariant db.State() == PayAll(db.sha, old(db.State()), eligible[..i], now)
      {
        var outcome := ProcessEligibleCycle(db.tables, eligible[i], now);
        assert eligible[..i + 1][..i] == eligible[..i];
      }
      assert eligible[..|eligible|] == eligible;
    }

    /** The view's row gives the number, which may be refused; the cycle itself is read again. */
    method ProcessEligibleCycle(read: Tables, row: EligibleRow, now: int) returns (outcome: Outcome)
      modifies db
      ensures (db.State(), outcome) ==
        Finish(db.sha, old(db.State()), PlanOf(read, EvaluatePayout(row.cycleId, row.beneficiaryMsisdn, now)))
    {
      hide CommitInitiate, PayoutKey, ValidMsisdn;
      if !ValidMsisdn(row.beneficiaryMsisdn) {
        return Failure;
      }
      var id := row.cycleId;
      if id !in read.cycles {
        return Failure;
      }
      var cycle := read.cycles[id];
      var decision := EvaluatePayoutEligibility(id, cycle, now);
      match decision {
        case Eligible(_, _, _) => outcome := InitiatePayout(id, cycle, decision, now);
        case _ => outcome := PayoutSkipped;
      }
    }

    /** The command carries the decision; ledger, outbox and cycle row change in one transaction. */
    method InitiatePayout(id: Uuid, cycle: Cycle, decision: PayoutDecision, now: int) returns (outcome: Outcome)
      requires decision == Eligible(cycle.beneficiaryId, cycle.collectedAmountMinor, KeyOf(id, cycle))
      modifies db
      ensures (db.State(), outcome) == CommitInitiate(db.sha, old(db.State()), id, cycle, now)
    {
      hide PayoutKey, NewRow, HasKey, OutboxAfter, TriggerAllows, RefersToLedger;
      var key := decision.idempotencyKey;
      var tx := new Transaction.Begin(db);
      var entry := Entry(PayoutInitiated, id,
                         [id, cycle.groupId, decision.beneficiaryId, Dec(decision.amountMinor), key, Dec(now)],
                         Some(decision.amountMinor), Some(Debit), key, None);
      var r, seqNo := tx.Append(entry);
      if r != Done {
        return Failure;
      }
      tx.InsertOutbox(OutboxEvent("payout.triggered", id, "mobile-money-gw", key));
      r := tx.UpdatePayoutState(id, Pending, Some(key));
      if r != Done {
        return Failure;
      }
      tx.Commit();
      outcome := PayoutInitiatedOutcome;
    }

    method ConfirmPayout(read: Tables, id: Uuid, externalRef: string, now: int) returns (outcome: Outcome)
      modifies db
      ensures (db.State(), outcome) == Finish(db.sha, old(db.State()),
        PlanOf(read, Request.ConfirmPayout(id, externalRef, now)))
    {
      hide ConfirmKey, NewRow, HasKey, OutboxAfter, TriggerAllows, RefersToLedger, Payload, Dec, PayoutKeyFree;
      if id !in read.cycles {
        return Failure;
      }
      if read.cycles[id].payoutState == Confirmed {
        return AlreadyConfirmed;
      }
      var aggregate := new CycleAggregate(read.cycles[id]);
      var ok := aggregate.MarkPayoutConfirmed();
      if !ok {
        return Failure;
      }
      var tx := new Transaction.Begin(db);
      var r, seqNo := tx.Append(ConfirmEntry(id, externalRef, now));
      if r == UniqueViolation {
        return AlreadyConfirmed;
      }
      tx.InsertOutbox(Notify("payout.confirmed", id, ConfirmKey(externalRef)));
      r := tx.UpdatePayoutState(id, Confirmed, None);
      if r != Done {
        return Failure;
      }
      tx.Commit();
      outcome := ConfirmedOutcome;
    }

    method FailPayout(read: Tables, id: Uuid, externalRef: string, reason: string, now: int) returns (outcome: Outcome)
      modifies db
      ensures (db.State(), outcome) == Finish(db.sha, old(db.State()),
        PlanOf(read, Request.FailPayout(id, externalRef, reason, now)))
    {
      hide FailKey, NewRow, HasKey, OutboxAfter, TriggerAllows, RefersToLedger, Payload, Dec, PayoutKeyFree;
      if id !in read.cycles {
        return Failure;
      }
      if read.cycles[id].payoutState == Confirmed {
        return IgnoredAlreadyConfirmed;
      }
      if read.cycles[id].payoutState == Failed {
        return AlreadyFailed;
      }
      var aggregate := new CycleAggregate(read.cycles[id]);
      aggregate.MarkPayoutFailed();
      var tx := new Transaction.Begin(db);
      var r, seqNo := tx.Append(FailEntry(id, externalRef, reason, now));
      if r == UniqueViolation {
        return AlreadyFailed;
      }
      tx.InsertOutbox(Notify("payout.failed", id, FailKey(externalRef)));
      r := tx.UpdatePayoutState(id, Failed, None);
      if r != Done {
        return Failure;
      }
      tx.Commit();
      outcome := FailedOutcome;
    }
  }

  // --------------------------------------------------------------------------
  // Resilience
  // --------------------------------------------------------------------------

  class ResilienceService {
    const db: Store

    constructor (db: Store) ensures this.db == db { this.db := db; }

    /** The group's fund, or an empty one. */
    method LoadFund(read: Tables, group: Uuid) returns (wc: WorkingCapital)
      ensures fresh(wc) && wc.AvailableMinor() == Available(read, group)
    {
      if group in read.funds {
        wc := new WorkingCapital(read.funds[group].balanceMinor, read.funds[group].reservedMinor);
      } else {
        wc := new WorkingCapital(0, 0);
      }
    }

    /** `debtId` is the identifier a new debt would draw. */
    method EvaluateResilience(read: Tables, id: Uuid, policy: ResiliencePolicy, debtId: Uuid) returns (outcome: Outcome)
      modifies db
      ensures (db.State(), outcome) ==
        Finish(db.sha, old(db.State()), PlanOf(read, Request.EvaluateResilience(id, policy, debtId, FreshId)))
    {
      hide CommitProRata, CommitFullAdvance, CommitHybrid, Available;
      if id !in read.cycles {
        return Failure;
      }
      var cycle := read.cycles[id];
      if cycle.state != Committed {
        return ResilienceBlocked;
      }
      if cycle.payoutState != NotSent {
        return ResilienceBlocked;
      }
      var collected, threshold := cycle.collectedAmountMinor, cycle.payoutThresholdMinor;
      if collected >= threshold {
        return ThresholdMet;
      }
      var wc := LoadFund(read, cycle.groupId);
      match policy {
        case WaitForThreshold => outcome := ResilienceBlocked;
        case UseWorkingCapital => outcome := TryFullAdvance(id, cycle, wc, debtId);
        case ProRataOnly => outcome := ApplyProRata(id, cycle);
        case WorkingCapitalThenProRata =>
          match ComputeAdvance(wc.AvailableMinor(), collected, threshold) {
            case NotNeeded => outcome := ThresholdMet;
            case Advance(advance, _, full) =>
              if full {
                outcome := TryFullAdvance(id, cycle, wc, debtId);
              } else {
                outcome := ApplyHybrid(id, cycle, advance);
              }
            case InsufficientFunds(_) => outcome := ApplyProRata(id, cycle);
          }
      }
    }

    method TryFullAdvance(id: Uuid, cycle: Cycle, wc: WorkingCapital, debtId: Uuid) returns (outcome: Outcome)
      requires cycle.collectedAmountMinor < cycle.payoutThresholdMinor
      modifies db, wc
      ensures (db.State(), outcome) ==
        match WorkingCapitals.TryFullAdvance(old(wc.AvailableMinor()), cycle.collectedAmountMinor,
          cycle.payoutThresholdMinor)
        case PlanFullAdvance(advance) => CommitFullAdvance(db.sha, old(db.State()), id, cycle, advance, debtId)
        case _ => (old(db.State()), ResilienceBlocked)
    {
      hide CommitFullAdvance;
      match ComputeAdvance(wc.AvailableMinor(), cycle.collectedAmountMinor, cycle.payoutThresholdMinor) {
        case Advance(advance, _, true) =>
          var reserved := wc.ReserveAdvance(advance);
          assert reserved;
          outcome := IssueFullAdvance(id, cycle, advance, debtId);
        case _ => outcome := ResilienceBlocked;
      }
    }

    method IssueFullAdvance(id: Uuid, cycle: Cycle, advance: int, debtId: Uuid) returns (outcome: Outcome)
      modifies db
      ensures (db.State(), outcome) == CommitFullAdvance(db.sha, old(db.State()), id, cycle, advance, debtId)
    {
      hide NewRow, AdvanceKey, DebtKey, HasKey, CanInsertDebt, FundOk, RefersToLedger;
      ghost var before := db.State();
      var tx := new Transaction.Begin(db);
      var r, seqNo := tx.Append(AdvanceEntry(id, cycle, advance));
      if r != Done {
        return Failure;
      }
      if !HasKey(before.t.ledger, DebtKey(debtId)) {
        SettlementRuns.DebtKeyStillFree(db.sha, before, id, cycle, advance, debtId);
      } else {
        KeyStaysTaken(before.t.ledger, tx.t.ledger, DebtKey(debtId));
      }
      r := CreateDebtRecordsInTx(tx, id, cycle, advance, debtId);
      if r != Done {
        return Failure;
      }
      r := tx.ConfirmAdvance(cycle.groupId, advance, Row(seqNo));
      if r != Done {
        return Failure;
      }
      tx.Commit();
      outcome := FullAdvanceUsed;
    }

    /** One debt for the whole advance, and its ledger entry. */
    method CreateDebtRecordsInTx(tx: Transaction, id: Uuid, cycle: Cycle, advance: int, debtId: Uuid)
      returns (r: SqlResult)
      requires tx.db == db
      modifies tx`t, db`nextVal
      ensures var debt := AdvanceDebt(id, cycle, advance, debtId);
        && (r.Done? <==> CanInsertDebt(old(tx.t.debts), debt) && !HasKey(old(tx.t.ledger), DebtKey(debtId)))
        && db.nextVal == old(db.nextVal) + (if CanInsertDebt(old(tx.t.debts), debt) then 1 else 0)
        && (r.Done? ==> tx.t == old(tx.t).(
              debts := old(tx.t.debts) + [debt],
              ledger := Appended(db.sha, old(tx.t.ledger), old(db.nextVal), DebtEntry(id, debt))))
    {
      hide NewRow, DebtKey, HasKey, CanInsertDebt, RefersToLedger;
      var debt := AdvanceDebt(id, cycle, advance, debtId);
      r := tx.InsertDebt(debt);
      if r != Done {
        return;
      }
      var seqNo;
      r, seqNo := tx.Append(DebtEntry(id, debt));
    }

    method ApplyProRata(id: Uuid, cycle: Cycle) returns (outcome: Outcome)
      modifies db
      ensures (db.State(), outcome) ==
        match WorkingCapitals.ApplyProRata(cycle.collectedAmountMinor, cycle.payoutThresholdMinor)
        case PlanProRata(d) => CommitProRata(db.sha, old(db.State()), id, d, cycle.payoutThresholdMinor)
        case _ => (old(db.State()), ResilienceBlocked)
    {
      hide NewRow, ProRataKey, HasKey, OutboxAfter, TruncDiv, RefersToLedger;
      var decision := ComputeProRata(cycle.collectedAmountMinor, cycle.payoutThresholdMinor);
      if decision.None? {
        return ResilienceBlocked;
      }
      var d := decision.value;
      var tx := new Transaction.Begin(db);
      var r, seqNo := tx.Append(ProRataEntry(id, d, cycle.payoutThresholdMinor));
      if r != Done {
        return Failure;
      }
      tx.InsertOutbox(Notify("pro_rata.dispatched", id, ProRataKey(id, d.distributableMinor)));
      tx.Commit();
      outcome := ProRataDispatched;
    }

    /** The journal row is given a fresh id instead of the entry just appended. */
    method ApplyHybrid(id: Uuid, cycle: Cycle, advance: int) returns (outcome: Outcome)
      modifies db
      ensures (db.State(), outcome) ==
        CommitHybrid(db.sha, old(db.State()), id, cycle, advance, cycle.collectedAmountMinor + advance, FreshId)
    {
      hide NewRow, HybridKey, HasKey, FundOk, RefersToLedger;
      var total := cycle.collectedAmountMinor + advance;
      var tx := new Transaction.Begin(db);
      var r, seqNo := tx.Append(HybridEntry(id, cycle, advance, total));
      if r != Done {
        return Failure;
      }
      r := tx.ConfirmAdvance(cycle.groupId, advance, FreshId);
      if r != Done {
        return Failure;
      }
      tx.Commit();
      outcome := HybridDispatched;
    }

    /** The waterfall: oldest debt first, until the amount is used up; every statement must pass. */
    method ProcessLateRepayment(read: Tables, debtor: Uuid, cycle: Uuid, amount: int, now: int)
      returns (outcome: Outcome)
      modifies db
      ensures (db.State(), outcome) == Finish(db.sha, old(db.State()),
        PlanOf(read, LateRepayment(debtor, cycle, amount, now)))
    {
      hide RepayOne, CanRepayOne, AfterRepayment, Effective, ActiveDebts;
      var debts := ActiveDebts(read.debts, debtor, cycle);
      if debts == [] {
        return NothingOwed;
      }
      var remaining := amount;
      var tx := new Transaction.Begin(db);
      var i := 0;
      while i < |debts| && remaining != 0
        invariant i <= |debts| && fresh(tx) && tx.db == db && db.tables == old(db.tables)
        invariant RepayLoop(db.sha, old(db.State()), debtor, cycle, debts, amount, now)
               == RepayLoop(db.sha, Db(tx.t, db.nextVal), debtor, cycle, debts[i..], remaining, now)
      {
        assert debts[i..][0] == debts[i] && debts[i..][1..] == debts[i + 1..];
        var ok, repaid := RepayDebt(tx, debts[i], debtor, cycle, remaining, now);
        if !ok {
          return Failure;
        }
        remaining := remaining - repaid;
        i := i + 1;
      }
      tx.Commit();
      outcome := RepaymentRecorded;
    }

    /** One debt: the object is updated in memory, then its ledger entry, the fund's credit and its row. */
    method RepayDebt(tx: Transaction, row: DebtRow, debtor: Uuid, cycle: Uuid, amount: int, now: int)
      returns (ok: bool, repaid: int)
      requires tx.db == db
      modifies tx`t, db`nextVal
      ensures var before := Db(old(tx.t), old(db.nextVal));
        var after := AfterRepayment(row, amount, now);
        && repaid == Effective(row, amount)
        && (ok <==> CanRepayOne(db.sha, before, debtor, cycle, after, repaid))
        && (ok ==> Db(tx.t, db.nextVal) == RepayOne(db.sha, before, debtor, cycle, after, repaid))
        && (!ok ==> db.nextVal == old(db.nextVal) + 1)
    {
      hide NewRow, RepayKey, HasKey, FundOk, CanUpdateDebt, RefersToLedger;
      var debt := new Debt.FromRow(row);
      repaid := debt.ApplyRepayment(amount, now);
      var r, seqNo := tx.Append(RepayEntry(debtor, cycle, debt.Row(), repaid));
      if r != Done {
        return false, repaid;
      }
      if debt.groupId in tx.t.funds {
        r := tx.ReceiveRepayment(debt.groupId, repaid, Row(seqNo));
        if r != Done {
          return false, repaid;
        }
      }
      r := tx.UpdateDebt(debt.Row());
      ok := r == Done;
    }
  }

  lemma KeyStaysTaken(a: seq<LedgerEntry>, b: seq<LedgerEntry>, key: string)
    requires HasKey(a, key) && a <= b
    ensures HasKey(b, key)
  {
    var i :| 0 <= i < |a| && a[i].idempotencyKey == Some(key);
    assert b[i] == a[i];
  }
}
