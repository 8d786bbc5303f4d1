/** The main results about the working-capital fund. */
module FundTheorems {
  import opened Wrappers
  import opened Sums
  import opened Ids
  import opened Text
  import opened Keys
  import opened Ledger
  import opened LedgerTable
  import opened Cycles
  import opened Debts
  import opened WorkingCapitals
  import opened Database
  import opened Settlement
  import opened SettlementInvariant
  import opened SettlementRuns
  import opened FundConservation

  // --------------------------------------------------------------------------
  // Reads
  // --------------------------------------------------------------------------

  ghost predicate DistinctIds(debts: seq<DebtRow>)
  {
    forall i, j | 0 <= i < j < |debts| :: debts[i].id != debts[j].id
  }

  lemma {:induction false} ActiveDebtsAreRows(table: seq<DebtRow>, debtor: Uuid, cycle: Uuid)
    requires DistinctIds(table)
    ensures forall d | d in ActiveDebts(table, debtor, cycle) :: d in table
    ensures DistinctIds(ActiveDebts(table, debtor, cycle))
  {
    if table != [] {
      var n := |table| - 1;
      var before := ActiveDebts(table[..n], debtor, cycle);
      ActiveDebtsAreRows(table[..n], debtor, cycle);
      forall d | d in before
        ensures d in table && d.id != table[n].id
      {
        assert d in table[..n];
      }
      assert DistinctIds(before + [table[n]]);
    }
  }

  lemma ActiveDebtsAreRead(t: Tables, debtor: Uuid, cycle: Uuid)
    requires DebtsOk(t)
    ensures DebtsRead(t.debts, ActiveDebts(t.debts, debtor, cycle))
  {
    ActiveDebtsAreRows(t.debts, debtor, cycle);
    var debts := ActiveDebts(t.debts, debtor, cycle);
    forall i | 0 <= i < |debts|
      ensures HasRow(t.debts, debts[i])
    {
      assert debts[i] in t.debts;
      var k :| 0 <= k < |t.debts| && t.debts[k] == debts[i];
      assert SameDebt(t.debts[k], debts[i]);
    }
  }

  lemma FundPlansAreOk(t: Tables, r: Request)
    requires FundBase(t) && PlanOf(t, r).Go?
    ensures FundTaskOk(t, PlanOf(t, r).task)
  {
    hide AdvancesKnown, DebtsRead, EvaluatePayoutEligibility, ValidMsisdn, HasRef;
    match r {
      case EvaluateResilience(id, policy, debtId, entry) =>
        var c := t.cycles[id];
        if c.groupId in t.funds {
          assert Replays(t, c.groupId);
        }
        AdvanceIsLargest(Available(t, c.groupId), c.collectedAmountMinor, c.payoutThresholdMinor, 0);
      case LateRepayment(debtor, cycle, amount, now) =>
        ActiveDebtsAreRead(t, debtor, cycle);
      case _ =>
    }
  }

  // --------------------------------------------------------------------------
  // Commits
  // --------------------------------------------------------------------------

  /** The debts a repayment read still owe what it read. */
  ghost predicate StillOwed(table: seq<DebtRow>, debts: seq<DebtRow>)
  {
    forall i | 0 <= i < |debts| :: OwedNow(table, debts[i].id) == debts[i].remainingAmountMinor
  }

  ghost predicate FreshTask(t: Tables, task: Task) { task.DoRepay? ==> StillOwed(t.debts, task.debts) }

  lemma {:induction false} NoDriftWhenFresh(table: seq<DebtRow>, debts: seq<DebtRow>, left: int, g: Uuid)
    requires StillOwed(table, debts)
    ensures Drift(table, debts, left, g) == 0
    decreases |debts|
  {
    hide OwedNow;
    if debts != [] && left != 0 {
      assert OwedNow(table, debts[0].id) == debts[0].remainingAmountMinor;
      assert forall i | 0 <= i < |debts[1..]| :: debts[1..][i] == debts[i + 1];
      NoDriftWhenFresh(table, debts[1..], left - Effective(debts[0], left), g);
    }
  }

  /** Funds and debts are as they were, and there is one ledger row more at most, which is no advance. */
  ghost predicate FundLeftAlone(before: Tables, after: Tables)
  {
    && after.funds == before.funds && after.debts == before.debts && after.journal == before.journal
    && (after.ledger == before.ledger ||
        (|after.ledger| == |before.ledger| + 1 && before.ledger <= after.ledger
          && after.ledger[|before.ledger|].eventType != AdvanceIssued))
  }

  lemma ContributionsLeaveTheFund(sha: Digest, db: Db, cb: MobileMoneyCallback, beneficiary: Uuid, payer: Uuid)
    ensures FundLeftAlone(db.t, CommitReconcile(sha, db, cb, beneficiary, payer).0.t)
    ensures FundLeftAlone(db.t, CommitQuarantine(sha, db, cb, beneficiary).0.t)
  {
    hide NewRow, CanReconcile, CanContribute, OutboxAfter, Payload, Dec, ContribKey, QuarantineKey;
    hide ContributionRefusal, InstrumentsAfter;
    hide KnownProvider;
  }

  lemma PayoutsLeaveTheFund(sha: Digest, db: Db, id: Uuid, c: Cycle, now: int)
    ensures FundLeftAlone(db.t, CommitInitiate(sha, db, id, c, now).0.t)
  {
    hide NewRow, CanInitiate, OutboxAfter, Payload, Dec, PayoutKey, UpdatePayoutState;
  }

  lemma ConfirmationsLeaveTheFund(sha: Digest, db: Db, id: Uuid, externalRef: string, reason: string, now: int)
    ensures FundLeftAlone(db.t, CommitConfirm(sha, db, id, externalRef, now).0.t)
    ensures FundLeftAlone(db.t, CommitFail(sha, db, id, externalRef, reason, now).0.t)
  {
    hide NewRow, CanConfirm, CanFail, HasKey, OutboxAfter, Payload, Dec, ConfirmKey, FailKey, UpdatePayoutState;
  }

  lemma ProRataLeavesTheFund(sha: Digest, db: Db, id: Uuid, d: ProRata, threshold: int)
    ensures FundLeftAlone(db.t, CommitProRata(sha, db, id, d, threshold).0.t)
  {
    hide NewRow, HasKey, OutboxAfter, Payload, Dec, ProRataKey;
  }

  /** The commits that never touch funds or debts. */
  lemma OtherCommitsLeaveTheFund(sha: Digest, db: Db, task: Task)
    requires !task.DoFullAdvance? && !task.DoHybrid? && !task.DoRepay?
    ensures FundLeftAlone(db.t, CommitTask(sha, db, task).0.t)
  {
    hide CommitReconcile, CommitQuarantine, CommitInitiate, CommitConfirm, CommitFail, CommitProRata, FundLeftAlone;
    match task {
      case DoReconcile(cb, beneficiary, payer) => ContributionsLeaveTheFund(sha, db, cb, beneficiary, payer);
      case DoQuarantine(cb, beneficiary) => ContributionsLeaveTheFund(sha, db, cb, beneficiary, beneficiary);
      case DoInitiate(id, c, now) => PayoutsLeaveTheFund(sha, db, id, c, now);
      case DoConfirm(id, externalRef, now) => ConfirmationsLeaveTheFund(sha, db, id, externalRef, "", now);
      case DoFail(id, externalRef, reason, now) => ConfirmationsLeaveTheFund(sha, db, id, externalRef, reason, now);
      case DoProRata(id, d, threshold) => ProRataLeavesTheFund(sha, db, id, d, threshold);
      case _ =>
    }
  }

  /** The drift a commit takes out of the gap of a fund: that of its repayment, if it goes through. */
  ghost function TaskDrift(sha: Digest, db: Db, task: Task, g: Uuid): int
  {
    match task
    case DoRepay(debtor, cycle, amount, debts, now) =>
      if RepayLoop(sha, db, debtor, cycle, debts, amount, now).1 then Drift(db.t.debts, debts, amount, g) else 0
    case _ => 0
  }

  lemma CommitKeepsFund(sha: Digest, db: Db, task: Task)
    requires Inv(sha, db) && FundBase(db.t) && TaskOk(db.t, task) && FundTaskOk(db.t, task)
    ensures var after := CommitTask(sha, db, task).0.t;
      && FundBase(after) && FundGrows(db.t, after) && after.funds.Keys == db.t.funds.Keys
      && forall g | g in db.t.funds :: Gap(after, g) == Gap(db.t, g) - TaskDrift(sha, db, task, g)
  {
    hide Inv, FundsReplay, DebtsOk, AdvancesKnown, Gap, Drift, CommitFullAdvance, CommitHybrid, RepayLoop;
    hide CyclesGrow, DebtsGrow, DebtsRead;
    match task {
      case DoFullAdvance(id, c, advance, debtId) => FullAdvanceKeepsFund(sha, db, id, c, advance, debtId);
      case DoHybrid(id, c, advance, total, entry) => HybridKeepsFund(sha, db, id, c, advance, total, entry);
      case DoRepay(debtor, cycle, amount, debts, now) =>
        RepayLoopDrift(sha, db, debtor, cycle, debts, amount, now);
        FundGrowsSelf(db.t);
      case _ =>
        CommitTaskKeeps(sha, db, task);
        OtherCommitsLeaveTheFund(sha, db, task);
        assert CyclesGrow(db.t.cycles, CommitTask(sha, db, task).0.t.cycles);
        FundUntouched(db.t, CommitTask(sha, db, task).0.t);
    }
  }

  lemma NoTaskDriftWhenFresh(sha: Digest, db: Db, task: Task, g: Uuid)
    requires FreshTask(db.t, task)
    ensures TaskDrift(sha, db, task, g) == 0
  {
    hide StillOwed, RepayLoop;
    if task.DoRepay? {
      NoDriftWhenFresh(db.t.debts, task.debts, task.amountMinor, g);
    }
  }

  // --------------------------------------------------------------------------
  // Runs
  // --------------------------------------------------------------------------

  ghost predicate FundSystemOk(sha: Digest, s: System)
  {
    SystemOk(sha, s) && FundBase(s.db.t) && forall w | w in s.held :: FundTaskOk(s.db.t, s.held[w])
  }

  /** Repayments commit from debts that nobody repaid since they were read. */
  ghost predicate FreshStep(s: System, step: Step)
  {
    step.Commit? && step.worker in s.held ==> FreshTask(s.db.t, s.held[step.worker])
  }

  ghost predicate FreshRun(sha: Digest, steps: seq<Step>)
  {
    forall i | 0 <= i < |steps| :: FreshStep(Run(sha, Start, steps[..i]), steps[i])
  }

  /** What a step takes out of the gap of a fund that exists. */
  ghost function StepDrift(sha: Digest, s: System, step: Step, g: Uuid): int
  {
    if step.Commit? && step.worker in s.held && g in s.db.t.funds
    then TaskDrift(sha, s.db, s.held[step.worker], g) else 0
  }

  /** The drifts of all the repayments a run commits. */
  ghost function RunDrift(sha: Digest, steps: seq<Step>, g: Uuid): int
  {
    if steps == [] then 0
    else
      var n := |steps| - 1;
      RunDrift(sha, steps[..n], g) + StepDrift(sha, Run(sha, Start, steps[..n]), steps[n], g)
  }

  lemma NextKeepsFund(sha: Digest, s: System, step: Step)
    requires FundSystemOk(sha, s)
    ensures var after := Next(sha, s, step);
      && FundSystemOk(sha, after) && s.db.t.funds.Keys <= after.db.t.funds.Keys
      && forall g | g in after.db.t.funds ::
           Gap(after.db.t, g) == if g in s.db.t.funds then Gap(s.db.t, g) - StepDrift(sha, s, step, g) else 0
  {
    hide Inv, TaskOk, FundTaskOk, PlanOf, CommitTask, Outside, FundBase, TaskDrift, FundGrows, Gap;
    var after := Next(sha, s, step);
    NextKeeps(sha, s, step);
    FundGrowsSelf(s.db.t);
    match step {
      case Read(w, r) => if PlanOf(s.db.t, r).Go? { FundPlansAreOk(s.db.t, r); }
      case Commit(w) => if w in s.held { CommitKeepsFund(sha, s.db, s.held[w]); }
      case _ => OutsideKeepsFund(sha, s.db, step);
    }
    forall w | w in after.held && after.held[w] in s.held.Values
      ensures FundTaskOk(after.db.t, after.held[w])
    {
      FundTaskStaysOk(s.db.t, after.db.t, after.held[w]);
    }
  }

  lemma {:induction false} RunKeepsFund(sha: Digest, steps: seq<Step>)
    ensures var s := Run(sha, Start, steps);
      && FundSystemOk(sha, s)
      && (forall g | g in s.db.t.funds :: Gap(s.db.t, g) == -RunDrift(sha, steps, g))
      && (forall g | g !in s.db.t.funds :: RunDrift(sha, steps, g) == 0)
  {
    hide Next, FundSystemOk, Gap, TaskDrift;
    if steps == [] {
      EmptyFundIsOk(sha);
    } else {
      var n := |steps| - 1;
      RunKeepsFund(sha, steps[..n]);
      NextKeepsFund(sha, Run(sha, Start, steps[..n]), steps[n]);
    }
  }

  lemma EmptyFundIsOk(sha: Digest)
    ensures FundSystemOk(sha, Start)
  {
    StartIsOk(sha);
  }

  lemma {:induction false} FreshRunsDoNotDrift(sha: Digest, steps: seq<Step>, g: Uuid)
    requires FreshRun(sha, steps)
    ensures RunDrift(sha, steps, g) == 0
  {
    hide Next, FreshTask, TaskDrift;
    if steps != [] {
      var n := |steps| - 1;
      var s := Run(sha, Start, steps[..n]);
      assert FreshStep(s, steps[n]);
      if steps[n].Commit? && steps[n].worker in s.held {
        NoTaskDriftWhenFresh(sha, s.db, s.held[steps[n].worker], g);
      }
      forall i | 0 <= i < n
        ensures FreshStep(Run(sha, Start, steps[..n][..i]), steps[..n][i])
      {
        assert steps[..n][..i] == steps[..i];
      }
      FreshRunsDoNotDrift(sha, steps[..n], g);
    }
  }

  // --------------------------------------------------------------------------
  // Results
  // --------------------------------------------------------------------------

  /**
   In every run, stale commits included: no fund is overdrawn or over-reserved, and its row is the replay of
   its journal: balance = deposits - advanced + repaid.
   */
  lemma FundIsItsJournal(sha: Digest, s: System, g: Uuid)
    requires Reachable(sha, s) && g in s.db.t.funds
    ensures var t := s.db.t;
      var f := t.funds[g];
      && 0 <= f.reservedMinor <= f.balanceMinor
      && f.totalAdvancedMinor == Moved(t, g, AdvanceMove) && f.totalRepaidMinor == Moved(t, g, RepaymentMove)
      && f.balanceMinor == Moved(t, g, DepositMove) - f.totalAdvancedMinor + f.totalRepaidMinor
  {
    hide Run, SystemOk, DebtsOk, AdvancesKnown, Moved;
    var steps :| Run(sha, Start, steps) == s;
    RunKeepsFund(sha, steps);
    assert Replays(s.db.t, g);
  }

  /** Every commit comes right after the read it works from. */
  ghost predicate Serial(steps: seq<Step>)
  {
    forall i | 0 <= i < |steps| && steps[i].Commit? ::
      i > 0 && steps[i - 1].Read? && steps[i - 1].worker == steps[i].worker
  }

  /** In serial runs repayments are always fresh. */
  lemma SerialRunsAreFresh(sha: Digest, steps: seq<Step>)
    requires Serial(steps)
    ensures FreshRun(sha, steps)
  {
    hide Next, FundSystemOk, FreshStep;
    forall i | 0 <= i < |steps|
      ensures FreshStep(Run(sha, Start, steps[..i]), steps[i])
    {
      if steps[i].Commit? {
        RunKeepsFund(sha, steps[..i - 1]);
        assert steps[..i][..i - 1] == steps[..i - 1];
        JustReadIsFresh(sha, Run(sha, Start, steps[..i - 1]), steps[i - 1], steps[i]);
      } else {
        NoCommitIsFresh(Run(sha, Start, steps[..i]), steps[i]);
      }
    }
  }

  lemma NoCommitIsFresh(s: System, step: Step)
    requires !step.Commit?
    ensures FreshStep(s, step)
  {
  }

  lemma JustReadIsFresh(sha: Digest, s: System, read: Step, commit: Step)
    requires FundSystemOk(sha, s) && read.Read? && commit.Commit? && read.worker == commit.worker
    ensures FreshStep(Next(sha, s, read), commit)
  {
    hide SystemOk, FundTaskOk, FundsReplay, AdvancesKnown, PlanOf, StillOwed;
    var planned := PlanOf(s.db.t, read.request);
    if planned.Go? && planned.task.DoRepay? {
      OnlyRepaymentsPlanRepayments(s.db.t, read.request);
      ReadDebtsAreOwed(s.db.t.debts, read.request.debtorId, read.request.cycleId);
    }
  }

  lemma OnlyRepaymentsPlanRepayments(t: Tables, r: Request)
    requires PlanOf(t, r).Go? && PlanOf(t, r).task.DoRepay?
    ensures r.LateRepayment? && PlanOf(t, r).task.debts == ActiveDebts(t.debts, r.debtorId, r.cycleId)
  {
    hide EvaluatePayoutEligibility, ValidMsisdn, HasRef, Decide, ActiveDebts;
  }

  lemma ReadDebtsAreOwed(table: seq<DebtRow>, debtor: Uuid, cycle: Uuid)
    requires DistinctIds(table)
    ensures StillOwed(table, ActiveDebts(table, debtor, cycle))
  {
    hide OwedNow;
    ActiveDebtsAreRows(table, debtor, cycle);
    var debts := ActiveDebts(table, debtor, cycle);
    forall i | 0 <= i < |debts|
      ensures OwedNow(table, debts[i].id) == debts[i].remainingAmountMinor
    {
      assert debts[i] in debts;
      assert debts[i] in table;
      var k :| 0 <= k < |table| && table[k] == debts[i];
      OwedNowIsTheRow(table, k);
    }
  }

  /** How far what is out exceeds what is still owed and what the hybrid branch lent. */
  ghost function Imbalance(t: Tables, g: Uuid): int
    requires g in t.funds
  {
    t.funds[g].totalAdvancedMinor - t.funds[g].totalRepaidMinor
    - (Sum(t.debts, OwedTo(g)) + Sum(t.ledger, HybridOf(t.cycles, g)))
  }

  /**
   In every interleaving the books are off by exactly the drifts of the repayments that were committed: by how
   much each of them overstated, when it committed, what the debts it touched still owed.
   */
  lemma BooksOfEveryRun(sha: Digest, steps: seq<Step>, s: System, g: Uuid)
    requires s == Run(sha, Start, steps) && g in s.db.t.funds
    ensures Imbalance(s.db.t, g) == -RunDrift(sha, steps, g)
    ensures Imbalance(s.db.t, g) == 0 <==> RunDrift(sha, steps, g) == 0
  {
    hide Run, SystemOk, FundBase, RunDrift;
    RunKeepsFund(sha, steps);
    assert Gap(s.db.t, g) == Imbalance(s.db.t, g);
  }

  /** Some run with fresh repayments leads there from the empty database. */
  ghost predicate FreshlyReachable(sha: Digest, s: System)
  {
    exists steps :: Run(sha, Start, steps) == s && FreshRun(sha, steps)
  }

  /** In every run whose repayments are fresh, what is out is what is owed plus what the hybrid branch lent. */
  lemma BooksBalance(sha: Digest, s: System, g: Uuid)
    requires FreshlyReachable(sha, s) && g in s.db.t.funds
    ensures s.db.t.funds[g].totalAdvancedMinor - s.db.t.funds[g].totalRepaidMinor
      == Sum(s.db.t.debts, OwedTo(g)) + Sum(s.db.t.ledger, HybridOf(s.db.t.cycles, g))
  {
    hide Run, SystemOk, FundBase, FreshRun, RunDrift;
    var steps :| Run(sha, Start, steps) == s && FreshRun(sha, steps);
    BooksOfEveryRun(sha, steps, s, g);
    FreshRunsDoNotDrift(sha, steps, g);
  }

  /**
   Exactly when a repayment that commits keeps the books balanced: when, fund by fund, what it read of the debts
   it touches is what they still owe.
   */
  lemma RepaymentBalancesIffNoDrift(sha: Digest, db: Db, debtor: Uuid, cycle: Uuid, amount: int, debts: seq<DebtRow>,
                                    now: int)
    requires FundBase(db.t) && Balanced(db.t) && DebtsRead(db.t.debts, debts)
    requires CommitRepay(sha, db, debtor, cycle, amount, debts, now).1 == RepaymentRecorded
    ensures Balanced(CommitRepay(sha, db, debtor, cycle, amount, debts, now).0.t) <==>
      forall g | g in db.t.funds :: Drift(db.t.debts, debts, amount, g) == 0
  {
    hide FundBase, Gap, Drift, RepayLoop, DebtsRead;
    RepayLoopDrift(sha, db, debtor, cycle, debts, amount, now);
    var after := CommitRepay(sha, db, debtor, cycle, amount, debts, now).0.t;
    if Balanced(after) {
      forall g | g in db.t.funds
        ensures Drift(db.t.debts, debts, amount, g) == 0
      {
        assert Gap(after, g) == 0 && Gap(db.t, g) == 0;
      }
    }
    if forall g | g in db.t.funds :: Drift(db.t.debts, debts, amount, g) == 0 {
      forall g | g in after.funds
        ensures Gap(after, g) == 0
      {
        assert Gap(db.t, g) == 0;
      }
    }
  }

  // --------------------------------------------------------------------------
  // What the shown services can and cannot commit
  // --------------------------------------------------------------------------

  /** A hybrid advance journalled under a fresh id, as the service does, is refused by the journal's foreign key. */
  lemma HybridUnderAFreshIdIsRefused(sha: Digest, db: Db, id: Uuid, c: Cycle, advance: int, total: int)
    ensures CommitHybrid(sha, db, id, c, advance, total, FreshId) == (Burn(db, 1), Failure)
  {
  }

  /** No advance in the ledger is one of the hybrid branch. */
  ghost predicate NoHybridRows(ledger: seq<LedgerEntry>)
  {
    forall i | 0 <= i < |ledger| :: !IsHybridRow(ledger[i])
  }

  predicate IsHybridRow(e: LedgerEntry)
  {
    e.eventType == AdvanceIssued && e.idempotencyKey.Some? && Family(e.idempotencyKey.value) == "hybrid"
  }

  ghost predicate FreshlyJournalled(task: Task) { task.DoHybrid? ==> task.journalEntry == FreshId }

  /** One more row that is not a hybrid advance. */
  lemma OneMoreRow(before: seq<LedgerEntry>, row: LedgerEntry)
    requires NoHybridRows(before) && !IsHybridRow(row)
    ensures NoHybridRows(before + [row])
  {
    hide IsHybridRow;
  }

  lemma RepayOneAddsNoHybrid(sha: Digest, db: Db, debtor: Uuid, cycle: Uuid, d: DebtRow, repaid: int)
    requires NoHybridRows(db.t.ledger)
    ensures NoHybridRows(RepayOne(sha, db, debtor, cycle, d, repaid).t.ledger)
  {
    hide NewRow, RepayKey, Payload, Family, NoHybridRows;
    OneMoreRow(db.t.ledger, NewRow(sha, db.t.ledger, db.nextVal, RepayEntry(debtor, cycle, d, repaid)));
  }

  lemma {:induction false} RepayLoopAddsNoHybrid(sha: Digest, db: Db, debtor: Uuid, cycle: Uuid, debts: seq<DebtRow>,
                                                 left: int, now: int)
    requires NoHybridRows(db.t.ledger)
    ensures NoHybridRows(RepayLoop(sha, db, debtor, cycle, debts, left, now).0.t.ledger)
    decreases |debts|
  {
    hide NoHybridRows, RepayOne, CanRepayOne, AfterRepayment;
    if debts != [] && left != 0 {
      var a := AfterRepayment(debts[0], left, now);
      var eff := Effective(debts[0], left);
      if CanRepayOne(sha, db, debtor, cycle, a, eff) {
        RepayOneAddsNoHybrid(sha, db, debtor, cycle, a, eff);
        var one := RepayOne(sha, db, debtor, cycle, a, eff);
        RepayLoopAddsNoHybrid(sha, one, debtor, cycle, debts[1..], left - eff, now);
      }
    }
  }

  lemma FullAdvanceAddsNoHybrid(sha: Digest, db: Db, id: Uuid, c: Cycle, advance: int, debtId: Uuid)
    requires NoHybridRows(db.t.ledger)
    ensures NoHybridRows(CommitFullAdvance(sha, db, id, c, advance, debtId).0.t.ledger)
  {
    hide NewRow, HasKey, Payload, CanRecordAdvance, AdvanceKey, DebtKey, Family, FundOk, NoHybridRows;
    Families("", id, id, advance);
    var debt := AdvanceDebt(id, c, advance, debtId);
    var row := NewRow(sha, db.t.ledger, db.nextVal, AdvanceEntry(id, c, advance));
    OneMoreRow(db.t.ledger, row);
    OneMoreRow(db.t.ledger + [row], NewRow(sha, db.t.ledger + [row], db.nextVal + 1, DebtEntry(id, debt)));
  }

  lemma CommitAddsNoHybrid(sha: Digest, db: Db, task: Task)
    requires NoHybridRows(db.t.ledger) && FreshlyJournalled(task)
    ensures NoHybridRows(CommitTask(sha, db, task).0.t.ledger)
  {
    hide CommitFullAdvance, CommitHybrid, RepayLoop;
    match task {
      case DoFullAdvance(id, c, advance, debtId) => FullAdvanceAddsNoHybrid(sha, db, id, c, advance, debtId);
      case DoHybrid(id, c, advance, total, entry) => HybridUnderAFreshIdIsRefused(sha, db, id, c, advance, total);
      case DoRepay(debtor, cycle, amount, debts, now) =>
        RepayLoopAddsNoHybrid(sha, db, debtor, cycle, debts, amount, now);
      case _ =>
        hide CommitTask;
        OtherCommitsLeaveTheFund(sha, db, task);
    }
  }

  /** The service as it is: every resilience request journals under a fresh id. */
  ghost predicate AsShipped(steps: seq<Step>)
  {
    forall i | 0 <= i < |steps| && steps[i].Read? && steps[i].request.EvaluateResilience? ::
      steps[i].request.journalEntry == FreshId
  }

  ghost predicate ShippedOk(s: System)
  {
    NoHybridRows(s.db.t.ledger) && forall w | w in s.held :: FreshlyJournalled(s.held[w])
  }

  lemma ShippedStep(sha: Digest, s: System, step: Step)
    requires ShippedOk(s)
    requires step.Read? && step.request.EvaluateResilience? ==> step.request.journalEntry == FreshId
    ensures ShippedOk(Next(sha, s, step))
  {
    hide NoHybridRows, CommitTask, EvaluatePayoutEligibility, ValidMsisdn, HasRef, Decide, ActiveDebts;
    match step {
      case Read(w, r) =>
      case Commit(w) => if w in s.held { CommitAddsNoHybrid(sha, s.db, s.held[w]); }
      case _ => OutsideLeavesTheLedger(s.db.t, step);
    }
  }

  lemma OutsideLeavesTheLedger(t: Tables, step: Step)
    ensures Outside(t, step).ledger == t.ledger
  {
    hide CanAdmit, FundOk, RefersToLedger;
  }

  lemma {:induction false} ShippedRun(sha: Digest, steps: seq<Step>)
    requires AsShipped(steps)
    ensures ShippedOk(Run(sha, Start, steps))
  {
    hide Next;
    if steps != [] {
      var n := |steps| - 1;
      ShippedRun(sha, steps[..n]);
      ShippedStep(sha, Run(sha, Start, steps[..n]), steps[n]);
    }
  }

  lemma {:induction false} NoHybridRowsNoTotal(ledger: seq<LedgerEntry>, cycles: map<Uuid, Cycle>, g: Uuid)
    requires NoHybridRows(ledger)
    ensures Sum(ledger, HybridOf(cycles, g)) == 0
  {
    hide Family;
    if ledger != [] {
      assert !IsHybridRow(ledger[|ledger| - 1]);
      NoHybridRowsNoTotal(ledger[..|ledger| - 1], cycles, g);
    }
  }

  /**
   In every interleaving of the service as it is, no hybrid advance is ever in the ledger, and whatever hybrid
   advance a worker holds will be refused.
   */
  lemma NoHybridEverCommits(sha: Digest, steps: seq<Step>, s: System, w: nat)
    requires AsShipped(steps) && s == Run(sha, Start, steps)
    ensures NoHybridRows(s.db.t.ledger)
    ensures w in s.held && s.held[w].DoHybrid? ==> CommitTask(sha, s.db, s.held[w]) == (Burn(s.db, 1), Failure)
  {
    hide Run, NoHybridRows;
    ShippedRun(sha, steps);
    if w in s.held && s.held[w].DoHybrid? {
      var task := s.held[w];
      assert FreshlyJournalled(task);
      HybridUnderAFreshIdIsRefused(sha, s.db, task.cycleId, task.snapshot, task.advanceMinor, task.totalDistributable);
    }
  }

  /** So what the service as it is has out is what debts still owe, up to the drifts of its repayments. */
  lemma BooksAsShipped(sha: Digest, steps: seq<Step>, s: System, g: Uuid)
    requires AsShipped(steps) && s == Run(sha, Start, steps) && g in s.db.t.funds
    ensures s.db.t.funds[g].totalAdvancedMinor - s.db.t.funds[g].totalRepaidMinor
      == Sum(s.db.t.debts, OwedTo(g)) - RunDrift(sha, steps, g)
    ensures FreshRun(sha, steps) ==> RunDrift(sha, steps, g) == 0
  {
    hide Run, RunDrift, NoHybridRows, FreshRun;
    ShippedRun(sha, steps);
    NoHybridRowsNoTotal(s.db.t.ledger, s.db.t.cycles, g);
    BooksOfEveryRun(sha, steps, s, g);
    if FreshRun(sha, steps) {
      FreshRunsDoNotDrift(sha, steps, g);
    }
  }

  /**
   A full advance on sound tables commits exactly when its keys and debt id are new and the amount is already
   reserved.
   */
  lemma FullAdvanceCommitsIffReserved(sha: Digest, db: Db, id: Uuid, c: Cycle, advance: int, debtId: Uuid)
    requires FundBase(db.t) && advance > 0
    ensures CommitFullAdvance(sha, db, id, c, advance, debtId).1 == FullAdvanceUsed <==>
      && !HasKey(db.t.ledger, AdvanceKey(id, advance)) && !HasKey(db.t.ledger, DebtKey(debtId))
      && !HasDebt(db.t.debts, debtId)
      && c.groupId in db.t.funds && advance <= db.t.funds[c.groupId].reservedMinor
      && db.t.funds[c.groupId].totalAdvancedMinor + advance <= MAX_I64
  {
    hide NewRow, AdvanceKey, DebtKey, HasKey, HasDebt, Payload, Moved;
    if c.groupId in db.t.funds {
      assert Replays(db.t, c.groupId);
    }
    var t := AfterAdvanceEntries(sha, db, id, c, advance, debtId);
    assert t.ledger[|db.t.ledger|].seqNo == db.nextVal;
    assert RefersToLedger(t.ledger, Row(db.nextVal));
  }

  /** No fund has ever lent, and nothing is reserved. */
  ghost predicate NothingLent(t: Tables)
  {
    forall g | g in t.funds :: t.funds[g].totalAdvancedMinor == 0 && t.funds[g].reservedMinor == 0
  }

  lemma NextLendsNothing(sha: Digest, s: System, step: Step)
    requires FundSystemOk(sha, s) && NothingLent(s.db.t) && !step.Reserve?
    ensures NothingLent(Next(sha, s, step).db.t)
  {
    hide Inv, TaskOk, FundBase, FundTaskOk, PlanOf, CommitTask, Outside, NothingLent;
    match step {
      case Read(w, r) =>
      case Commit(w) => if w in s.held { CommitLendsNothing(sha, s.db, s.held[w]); }
      case _ => OutsideLendsNothing(s.db.t, step);
    }
  }

  lemma OutsideLendsNothing(t: Tables, step: Step)
    requires NothingLent(t) && !step.Reserve?
    ensures NothingLent(Outside(t, step))
  {
    hide CanAdmit, FundOk, RefersToLedger;
  }

  lemma CommitLendsNothing(sha: Digest, db: Db, task: Task)
    requires FundTaskOk(db.t, task) && NothingLent(db.t)
    ensures NothingLent(CommitTask(sha, db, task).0.t)
  {
    hide NewRow, HasKey, Payload, RefersToLedger, CanInsertDebt, RepayLoop, AdvanceKey, DebtKey, HybridKey, DebtsRead;
    match task {
      case DoFullAdvance(id, c, advance, debtId) =>
      case DoHybrid(id, c, advance, total, entry) =>
      case DoRepay(debtor, cycle, amount, debts, now) =>
        RepayLoopLendsNothing(sha, db, debtor, cycle, debts, amount, now);
      case _ => OtherCommitsLeaveTheFund(sha, db, task);
    }
  }

  lemma {:induction false} RepayLoopLendsNothing(sha: Digest, db: Db, debtor: Uuid, cycle: Uuid, debts: seq<DebtRow>,
                                                 left: int, now: int)
    requires NothingLent(db.t)
    ensures NothingLent(RepayLoop(sha, db, debtor, cycle, debts, left, now).0.t)
    decreases |debts|
  {
    hide NewRow, CanRepayOne, RepayKey, Payload, AfterRepayment;
    if debts != [] && left != 0 {
      var a := AfterRepayment(debts[0], left, now);
      var eff := Effective(debts[0], left);
      if CanRepayOne(sha, db, debtor, cycle, a, eff) {
        var one := RepayOne(sha, db, debtor, cycle, a, eff);
        RepayLoopLendsNothing(sha, one, debtor, cycle, debts[1..], left - eff, now);
      }
    }
  }

  /**
   The services only reserve in memory: in a run in which nobody else reserves in the database, no advance of
   either kind ever commits, whatever is deposited and whatever the policies.
   */
  lemma {:induction false} WithoutAReservationNothingIsLent(sha: Digest, steps: seq<Step>)
    requires forall i | 0 <= i < |steps| :: !steps[i].Reserve?
    ensures NothingLent(Run(sha, Start, steps).db.t)
  {
    hide Next, NothingLent;
    if steps == [] {
      assert NothingLent(Start.db.t) by { NothingLentAtStart(); }
    } else {
      var n := |steps| - 1;
      WithoutAReservationNothingIsLent(sha, steps[..n]);
      RunKeepsFund(sha, steps[..n]);
      NextLendsNothing(sha, Run(sha, Start, steps[..n]), steps[n]);
    }
  }

  lemma NothingLentAtStart()
    ensures NothingLent(Start.db.t)
  {
  }
}
