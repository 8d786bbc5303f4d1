/** The invariant over whole runs, and what it means for payouts, money, states, outbox and ledger. */
module SettlementRuns {
  import opened Wrappers
  import opened Sums
  import opened Ids
  import opened Text
  import opened Keys
  import opened Ledger
  import opened LedgerTable
  import opened Cycles
  import opened Debts
  import opened WorkingCapitals
  import opened Database
  import opened Settlement
  import opened SettlementInvariant

  // --------------------------------------------------------------------------
  // The remaining commits, and the steps taken outside the services
  // --------------------------------------------------------------------------

  /** The invariant reads four tables and the counter. */
  lemma FundAndDebtsAreApart(sha: Digest, a: Db, b: Db)
    requires a.nextVal == b.nextVal
    requires a.t.cycles == b.t.cycles && a.t.ledger == b.t.ledger
    requires a.t.contributions == b.t.contributions && a.t.outbox == b.t.outbox
    ensures Inv(sha, a) ==> Inv(sha, b)
    ensures Grows(a, b)
  {
    hide LedgerOk, Shapes, RefsOk, RegisterOk, PayoutsOk, ConfirmationsFollow;
    assert LedgerOk(sha, a) == LedgerOk(sha, b) by { assert b.t.ledger == a.t.ledger; FramedLedger(sha, a, b); }
    FramedTables(a.t, b.t);
  }

  lemma FramedLedger(sha: Digest, a: Db, b: Db)
    requires a.nextVal == b.nextVal && a.t.ledger == b.t.ledger
    ensures LedgerOk(sha, a) == LedgerOk(sha, b)
  {
  }

  lemma FramedTables(a: Tables, b: Tables)
    requires a.cycles == b.cycles && a.ledger == b.ledger && a.contributions == b.contributions && a.outbox == b.outbox
    ensures Shapes(a) == Shapes(b) && OutboxOk(a) == OutboxOk(b) && MoneyOk(a) == MoneyOk(b) && RefsOk(a) == RefsOk(b)
    ensures PayoutsOk(a) == PayoutsOk(b) && CyclesOk(a) == CyclesOk(b) && RegisterOk(a) == RegisterOk(b)
  {
    hide Shape, PayoutRowOk, Coupled, PayoutKey;
  }

  /** A refused commit keeps everything. */
  lemma BurnKeeps(sha: Digest, db: Db, n: nat)
    requires Inv(sha, db)
    ensures Inv(sha, Burn(db, n)) && Grows(db, Burn(db, n))
  {
    hide Shapes, OutboxOk, MoneyOk, RefsOk, RegisterOk, PayoutsOk, CyclesOk, ConfirmationsFollow, WrittenAt;
  }

  lemma ProRataKeeps(sha: Digest, db: Db, id: Uuid, d: ProRata, threshold: int)
    requires Inv(sha, db)
    ensures var after := CommitProRata(sha, db, id, d, threshold).0; Inv(sha, after) && Grows(db, after)
  {
    hide NewRow, ProRataKey, Payload, Inv, Grows;
    if !HasKey(db.t.ledger, ProRataKey(id, d.distributableMinor)) {
      Families("", id, id, d.distributableMinor);
      var after := AfterProRata(sha, db, id, d, threshold);
      OtherRowKeeps(sha, db, after, ProRataEntry(id, d, threshold));
    } else {
      BurnKeeps(sha, db, 1);
    }
  }

  /** The key of the debt is not the key of the advance recorded just before it. */
  lemma DebtKeyStillFree(sha: Digest, db: Db, id: Uuid, c: Cycle, advance: int, debtId: Uuid)
    requires !HasKey(db.t.ledger, DebtKey(debtId))
    ensures !HasKey(Appended(sha, db.t.ledger, db.nextVal, AdvanceEntry(id, c, advance)), DebtKey(debtId))
  {
    hide NewRow, DebtKey, AdvanceKey, Payload;
    Families("", id, id, advance);
    Families("", debtId, debtId, 0);
    var first := Appended(sha, db.t.ledger, db.nextVal, AdvanceEntry(id, c, advance));
    assert forall i | 0 <= i < |db.t.ledger| :: first[i] == db.t.ledger[i];
  }

  lemma AdvanceEntriesKeep(sha: Digest, db: Db, id: Uuid, c: Cycle, advance: int, debtId: Uuid)
    requires Inv(sha, db) && !HasKey(db.t.ledger, AdvanceKey(id, advance)) && !HasKey(db.t.ledger, DebtKey(debtId))
    ensures var after := Db(AfterAdvanceEntries(sha, db, id, c, advance, debtId), db.nextVal + 2);
      Inv(sha, after) && Grows(db, after)
  {
    hide NewRow, DebtKey, AdvanceKey, Payload, Inv, Grows, HasKey, Family, PayoutKey, ContribKey, QuarantineKey;
    hide ConfirmKey, FailKey, Dec;
    Families("", id, id, advance);
    Families("", debtId, debtId, 0);
    var debt := AdvanceDebt(id, c, advance, debtId);
    var one := db.t.(ledger := Appended(sha, db.t.ledger, db.nextVal, AdvanceEntry(id, c, advance)));
    OtherRowKeeps(sha, db, one, AdvanceEntry(id, c, advance));
    DebtKeyStillFree(sha, db, id, c, advance, debtId);
    var db1 := Db(one, db.nextVal + 1);
    var two := AfterAdvanceEntries(sha, db, id, c, advance, debtId);
    OtherRowKeeps(sha, db1, two, DebtEntry(id, debt));
    GrowsTransitive(db, db1, Db(two, db.nextVal + 2));
  }

  lemma FullAdvanceKeeps(sha: Digest, db: Db, id: Uuid, c: Cycle, advance: int, debtId: Uuid)
    requires Inv(sha, db)
    ensures var after := CommitFullAdvance(sha, db, id, c, advance, debtId).0; Inv(sha, after) && Grows(db, after)
  {
    hide NewRow, DebtKey, AdvanceKey, Payload, Inv, Grows, AfterAdvanceEntries, CanInsertDebt;
    BurnKeeps(sha, db, 1);
    BurnKeeps(sha, db, 2);
    if CanRecordAdvance(db.t, id, c, advance, debtId) && !HasKey(db.t.ledger, DebtKey(debtId)) {
      AdvanceEntriesKeep(sha, db, id, c, advance, debtId);
      var t := AfterAdvanceEntries(sha, db, id, c, advance, debtId);
      if CanConfirmAdvance(t, c.groupId, advance, Row(db.nextVal)) {
        var after := Db(ConfirmAdvanceInTx(t, c.groupId, advance, Row(db.nextVal)), db.nextVal + 2);
        FundAndDebtsAreApart(sha, Db(t, db.nextVal + 2), after);
        GrowsTransitive(db, Db(t, db.nextVal + 2), after);
      }
    }
  }

  lemma HybridKeeps(sha: Digest, db: Db, id: Uuid, c: Cycle, advance: int, total: int, entry: EntryRef)
    requires Inv(sha, db)
    ensures var after := CommitHybrid(sha, db, id, c, advance, total, entry).0; Inv(sha, after) && Grows(db, after)
  {
    hide Appended, HybridKey, HybridEntry, Inv, Grows, HasKey, FundOk, RefersToLedger, ConfirmAdvanceInTx;
    BurnKeeps(sha, db, 1);
    var t := db.t.(ledger := Appended(sha, db.t.ledger, db.nextVal, HybridEntry(id, c, advance, total)));
    if !HasKey(db.t.ledger, HybridKey(id, total)) && CanConfirmAdvance(t, c.groupId, advance, entry) {
      HybridEntryKeeps(sha, db, id, c, advance, total, entry);
    }
  }

  lemma HybridEntryKeeps(sha: Digest, db: Db, id: Uuid, c: Cycle, advance: int, total: int, entry: EntryRef)
    requires Inv(sha, db) && !HasKey(db.t.ledger, HybridKey(id, total)) && c.groupId in db.t.funds
    ensures var t := db.t.(ledger := Appended(sha, db.t.ledger, db.nextVal, HybridEntry(id, c, advance, total)));
      var after := Db(ConfirmAdvanceInTx(t, c.groupId, advance, entry), db.nextVal + 1);
      Inv(sha, after) && Grows(db, after)
  {
    hide NewRow, HybridKey, Payload, Dec, Inv, Grows, AfterAdvance;
    var t := db.t.(ledger := Appended(sha, db.t.ledger, db.nextVal, HybridEntry(id, c, advance, total)));
    Families("", id, id, total);
    OtherRowKeeps(sha, db, ConfirmAdvanceInTx(t, c.groupId, advance, entry), HybridEntry(id, c, advance, total));
  }

  lemma RepayOneKeeps(sha: Digest, db: Db, debtor: Uuid, cycle: Uuid, d: DebtRow, repaid: int)
    requires Inv(sha, db) && !HasKey(db.t.ledger, RepayKey(d.id, repaid))
    ensures var after := RepayOne(sha, db, debtor, cycle, d, repaid); Inv(sha, after) && Grows(db, after)
  {
    hide NewRow, RepayKey, Payload, Inv, Grows;
    Families("", d.id, d.id, repaid);
    OtherRowKeeps(sha, db, RepayOne(sha, db, debtor, cycle, d, repaid).t, RepayEntry(debtor, cycle, d, repaid));
  }

  lemma {:induction false} RepayLoopKeeps(sha: Digest, db: Db, debtor: Uuid, cycle: Uuid, debts: seq<DebtRow>,
                                          left: int, now: int)
    requires Inv(sha, db)
    ensures var (after, ok) := RepayLoop(sha, db, debtor, cycle, debts, left, now);
      Inv(sha, after) && Grows(db, after)
    decreases |debts|
  {
    hide RepayOne, Inv, Grows, RepayKey, FundOk, CanUpdateDebt, AfterRepayment;
    if debts == [] || left == 0 {
      BurnKeeps(sha, db, 0);
      assert Burn(db, 0) == db;
    } else {
      var d := AfterRepayment(debts[0], left, now);
      var repaid := Effective(debts[0], left);
      if CanRepayOne(sha, db, debtor, cycle, d, repaid) {
        var one := RepayOne(sha, db, debtor, cycle, d, repaid);
        RepayOneKeeps(sha, db, debtor, cycle, d, repaid);
        RepayLoopKeeps(sha, one, debtor, cycle, debts[1..], left - repaid, now);
        GrowsTransitive(db, one, RepayLoop(sha, one, debtor, cycle, debts[1..], left - repaid, now).0);
      } else {
        BurnKeeps(sha, db, 1);
      }
    }
  }

  lemma RepayKeeps(sha: Digest, db: Db, debtor: Uuid, cycle: Uuid, amount: int, debts: seq<DebtRow>, now: int)
    requires Inv(sha, db)
    ensures var after := CommitRepay(sha, db, debtor, cycle, amount, debts, now).0; Inv(sha, after) && Grows(db, after)
  {
    hide Inv, RepayLoop;
    RepayLoopKeeps(sha, db, debtor, cycle, debts, amount, now);
    var (pending, ok) := RepayLoop(sha, db, debtor, cycle, debts, amount, now);
    BurnKeeps(sha, db, pending.nextVal - db.nextVal);
  }

  /** The beneficiary a callback was read with is its cycle's. */
  ghost predicate AddresseeOk(t: Tables, cb: MobileMoneyCallback, beneficiary: Uuid)
  {
    && cb.cycleId in t.cycles && beneficiary == t.cycles[cb.cycleId].beneficiaryId
    && ValidMsisdn(cb.payerMsisdn)
  }

  /** What a held task still knows when it commits, whatever committed in between. */
  ghost predicate TaskOk(t: Tables, task: Task)
  {
    match task
    case DoReconcile(cb, beneficiary, _) => AddresseeOk(t, cb, beneficiary)
    case DoQuarantine(cb, beneficiary) => AddresseeOk(t, cb, beneficiary)
    case DoInitiate(id, snapshot, _) => SnapshotOk(t, id, snapshot)
    case DoConfirm(id, _, _) => id in t.cycles && HasEvent(t.ledger, PayoutInitiated, id)
    case DoFail(id, _, _, _) => id in t.cycles
    case _ => true
  }

  lemma TaskStaysOk(a: Db, b: Db, task: Task)
    requires TaskOk(a.t, task) && Grows(a, b)
    ensures TaskOk(b.t, task)
  {
    match task {
      case DoConfirm(id, _, _) => HasEventGrows(a.t.ledger, b.t.ledger, PayoutInitiated, id);
      case _ =>
    }
  }

  lemma CommitTaskKeeps(sha: Digest, db: Db, task: Task)
    requires Inv(sha, db) && TaskOk(db.t, task)
    ensures var after := CommitTask(sha, db, task).0; Inv(sha, after) && Grows(db, after)
  {
    hide Inv, Grows, AfterReconcile, AfterQuarantine, AfterInitiate, AfterConfirm, AfterFail;
    hide CommitProRata, CommitFullAdvance, CommitHybrid, CommitRepay, CanReconcile, CanContribute, CanInitiate;
    hide CanConfirm, CanFail;
    BurnKeeps(sha, db, 1);
    BurnKeeps(sha, db, 0);
    assert Burn(db, 0) == db;
    match task {
      case DoReconcile(cb, beneficiary, payer) =>
        if CanReconcile(db.t, cb) { ReconcileKeeps(sha, db, cb, beneficiary, payer); }
      case DoQuarantine(cb, beneficiary) =>
        if CanContribute(db.t, cb, QuarantineKey(cb.providerTxRef)) { QuarantineKeeps(sha, db, cb, beneficiary); }
      case DoInitiate(id, snapshot, now) =>
        if CanInitiate(db.t, id, snapshot) { InitiateKeeps(sha, db, id, snapshot, now); }
      case DoConfirm(id, externalRef, now) =>
        if CanConfirm(db.t, id, externalRef) { ConfirmKeeps(sha, db, id, externalRef, now); }
      case DoFail(id, externalRef, reason, now) =>
        if CanFail(db.t, id, externalRef) { FailKeeps(sha, db, id, externalRef, reason, now); }
      case DoProRata(id, d, threshold) => ProRataKeeps(sha, db, id, d, threshold);
      case DoFullAdvance(id, c, advance, debtId) => FullAdvanceKeeps(sha, db, id, c, advance, debtId);
      case DoHybrid(id, c, advance, total, entry) => HybridKeeps(sha, db, id, c, advance, total, entry);
      case DoRepay(debtor, cycle, amount, debts, now) => RepayKeeps(sha, db, debtor, cycle, amount, debts, now);
    }
  }

  /** Every plan is well founded on the tables it was read from. */
  lemma PlansAreOk(sha: Digest, db: Db, r: Request)
    requires Inv(sha, db) && PlanOf(db.t, r).Go?
    ensures TaskOk(db.t, PlanOf(db.t, r).task)
  {
    hide LedgerOk, Shapes, OutboxOk, MoneyOk, RefsOk, RegisterOk, PayoutsOk, ConfirmationsFollow, PayoutKey, HasEvent;
    match r {
      case EvaluatePayout(_, _, _) =>
      case ConfirmPayout(id, _, _) => assert CycleOk(db.t, id);
      case _ =>
    }
  }

  lemma {:induction false} NothingForUnknownCycle(t: Tables, id: Uuid, n: nat, m: nat)
    requires n <= |t.contributions| && m <= |t.ledger| && id !in t.cycles
    requires forall i | 0 <= i < n :: t.contributions[i].cycleId in t.cycles
    requires Shapes(t)
    ensures Sum(t.contributions[..n], ReconciledFor(id)) == 0 == Sum(t.ledger[..m], CreditsFor(id))
  {
    if n > 0 {
      NothingForUnknownCycle(t, id, n - 1, m);
      assert t.contributions[..n][..n - 1] == t.contributions[..n - 1];
    } else if m > 0 {
      NothingForUnknownCycle(t, id, n, m - 1);
      assert t.ledger[..m][..m - 1] == t.ledger[..m - 1];
      assert Shape(t.cycles, t.ledger[m - 1]);
    }
  }

  /** A change of cycle rows alone: what has to be shown of the new rows. */
  lemma CyclesChangeAlone(sha: Digest, db: Db, after: Tables)
    requires Inv(sha, db) && after == db.t.(cycles := after.cycles) && CyclesGrow(db.t.cycles, after.cycles)
    requires MoneyOk(after) && PayoutsOk(after) && CyclesOk(after)
    ensures Inv(sha, db.(t := after)) && Grows(db, db.(t := after))
  {
    hide MoneyOk, PayoutsOk, CyclesOk, Shape, HasKey, RegisterOk;
    FramedLedger(sha, db, db.(t := after));
    RegisterKept(db.t, after, []);
    forall i | 0 <= i < |after.ledger|
      ensures Shape(after.cycles, after.ledger[i])
    {
      assert Shape(db.t.cycles, db.t.ledger[i]);
      ShapeGrows(db.t.cycles, after.cycles, db.t.ledger[i]);
    }
  }

  lemma AdmitKeeps(sha: Digest, db: Db, id: Uuid, c: Cycle)
    requires Inv(sha, db) && CanAdmit(db.t, id, c)
    ensures var after := db.(t := db.t.(cycles := db.t.cycles[id := c])); Inv(sha, after) && Grows(db, after)
  {
    hide LedgerOk, Shapes, OutboxOk, MoneyOk, PayoutsOk, CyclesOk, RefsOk, RegisterOk, ConfirmationsFollow;
    var after := db.t.(cycles := db.t.cycles[id := c]);
    NewCycleHasCollectedNothing(db.t, id, c);
    StatesKeptOutside(db.t, after, id);
    CyclesChangeAlone(sha, db, after);
  }

  lemma NewCycleHasCollectedNothing(t: Tables, id: Uuid, c: Cycle)
    requires MoneyOk(t) && Shapes(t) && id !in t.cycles && c.collectedAmountMinor == 0
    ensures MoneyOk(t.(cycles := t.cycles[id := c]))
  {
    hide Shapes;
    NothingForUnknownCycle(t, id, |t.contributions|, |t.ledger|);
    assert t.contributions[..|t.contributions|] == t.contributions && t.ledger[..|t.ledger|] == t.ledger;
  }

  /** Cycle rows that are new, or just opened to contributions, fit; the others are as they were. */
  lemma StatesKeptOutside(t: Tables, after: Tables, id: Uuid)
    requires PayoutsOk(t) && CyclesOk(t) && after == t.(cycles := after.cycles) && CyclesGrow(t.cycles, after.cycles)
    requires after.cycles.Keys == t.cycles.Keys + {id}
    requires forall other | other in t.cycles && other != id :: after.cycles[other] == t.cycles[other]
    requires var c := after.cycles[id];
      c.state in {Open, Committed} && c.payoutState == NotSent && c.payoutIdempotencyKey == None &&
      0 < c.payoutThresholdMinor && 0 <= c.collectedAmountMinor <= MAX_I64
    ensures PayoutsOk(after) && CyclesOk(after)
  {
    hide PayoutKey;
    forall i | 0 <= i < |t.ledger|
      ensures PayoutRowOk(after.cycles, t.ledger[i])
    {
      assert PayoutRowOk(t.cycles, t.ledger[i]);
    }
    forall other | other in after.cycles
      ensures CycleOk(after, other)
    {
      if other != id {
        assert CycleOk(t, other);
      }
    }
  }

  /** An open cycle has no payout key: the key is only ever written together with the initiation. */
  lemma OpenHasNoKey(sha: Digest, db: Db, id: Uuid)
    requires Inv(sha, db) && id in db.t.cycles && db.t.cycles[id].state in {Open, Committed}
    ensures db.t.cycles[id].payoutIdempotencyKey == None
    ensures !HasKey(db.t.ledger, KeyOf(id, db.t.cycles[id]))
  {
    var t := db.t;
    var c := t.cycles[id];
    assert CycleOk(t, id);
    if HasKey(t.ledger, KeyOf(id, c)) {
      var i :| 0 <= i < |t.ledger| && t.ledger[i].idempotencyKey == Some(KeyOf(id, c));
      assert PayoutRowOk(t.cycles, t.ledger[i]);
      PayoutKeyBelongsToPayout(t, id, i);
    }
  }

  /** The row that carries a cycle's payout key is the initiation of that cycle's payout. */
  lemma PayoutKeyBelongsToPayout(t: Tables, id: Uuid, i: nat)
    requires Shapes(t) && id in t.cycles && i < |t.ledger|
    requires t.ledger[i].idempotencyKey == Some(KeyOf(id, t.cycles[id]))
    ensures t.ledger[i].eventType == PayoutInitiated && t.ledger[i].aggregateId == id
  {
    hide PayoutKey, ContribKey, QuarantineKey, ConfirmKey, FailKey;
    var e := t.ledger[i];
    var c := t.cycles[id];
    assert Shape(t.cycles, e);
    Families(if e.externalRef.Some? then e.externalRef.value else "", c.groupId, id, c.cycleNumber);
    if e.eventType == PayoutInitiated {
      var other := t.cycles[e.aggregateId];
      PayoutKeyInjective(c.groupId, id, c.cycleNumber, other.groupId, e.aggregateId, other.cycleNumber);
    }
  }

  lemma OpenIsUnsent(t: Tables, id: Uuid)
    requires CyclesOk(t) && id in t.cycles && t.cycles[id].state == Open
    ensures t.cycles[id].payoutState == NotSent && 0 < t.cycles[id].payoutThresholdMinor
    ensures 0 <= t.cycles[id].collectedAmountMinor <= MAX_I64
  {
    hide HasEvent, PayoutKey;
    assert CycleOk(t, id);
  }

  lemma StateIsNotMoney(t: Tables, id: Uuid)
    requires MoneyOk(t) && id in t.cycles
    ensures MoneyOk(t.(cycles := t.cycles[id := t.cycles[id].(state := Committed)]))
  {
  }

  lemma OpeningKeeps(sha: Digest, db: Db, id: Uuid)
    requires Inv(sha, db) && id in db.t.cycles && db.t.cycles[id].state == Open
    ensures var after := db.(t := db.t.(cycles := db.t.cycles[id := db.t.cycles[id].(state := Committed)]));
      Inv(sha, after) && Grows(db, after)
  {
    hide LedgerOk, Shapes, OutboxOk, MoneyOk, PayoutsOk, CyclesOk, RefsOk, RegisterOk, ConfirmationsFollow;
    var t := db.t;
    var after := t.(cycles := t.cycles[id := t.cycles[id].(state := Committed)]);
    OpenIsUnsent(t, id);
    OpenHasNoKey(sha, db, id);
    StateIsNotMoney(t, id);
    StatesKeptOutside(t, after, id);
    CyclesChangeAlone(sha, db, after);
  }

  lemma OutsideKeeps(sha: Digest, db: Db, step: Step)
    requires Inv(sha, db)
    ensures var after := db.(t := Outside(db.t, step)); Inv(sha, after) && Grows(db, after)
  {
    hide Inv, Grows, CanAdmit, FundOk, RefersToLedger;
    BurnKeeps(sha, db, 0);
    assert Burn(db, 0) == db;
    match step {
      case AdmitCycle(id, c) => if CanAdmit(db.t, id, c) { AdmitKeeps(sha, db, id, c); }
      case CommitCycle(id) => if id in db.t.cycles && db.t.cycles[id].state == Open { OpeningKeeps(sha, db, id); }
      case _ => FundAndDebtsAreApart(sha, db, db.(t := Outside(db.t, step)));
    }
  }

  // --------------------------------------------------------------------------
  // Whole runs
  // --------------------------------------------------------------------------

  ghost predicate SystemOk(sha: Digest, s: System)
  {
    Inv(sha, s.db) && forall w | w in s.held :: TaskOk(s.db.t, s.held[w])
  }

  lemma NextKeeps(sha: Digest, s: System, step: Step)
    requires SystemOk(sha, s)
    ensures SystemOk(sha, Next(sha, s, step)) && Grows(s.db, Next(sha, s, step).db)
  {
    hide Inv, Grows, TaskOk, PlanOf, CommitTask, Outside;
    var after := Next(sha, s, step);
    match step {
      case Read(w, r) =>
        BurnKeeps(sha, s.db, 0);
        assert Burn(s.db, 0) == s.db;
        if PlanOf(s.db.t, r).Go? {
          PlansAreOk(sha, s.db, r);
        }
      case Commit(w) =>
        BurnKeeps(sha, s.db, 0);
        assert Burn(s.db, 0) == s.db;
        if w in s.held {
          CommitTaskKeeps(sha, s.db, s.held[w]);
        }
      case _ => OutsideKeeps(sha, s.db, step);
    }
    forall w | w in after.held && after.held[w] in s.held.Values
      ensures TaskOk(after.db.t, after.held[w])
    {
      TaskStaysOk(s.db, after.db, after.held[w]);
    }
  }

  lemma {:induction false} RunKeeps(sha: Digest, s: System, steps: seq<Step>)
    requires SystemOk(sha, s)
    ensures SystemOk(sha, Run(sha, s, steps)) && Grows(s.db, Run(sha, s, steps).db)
  {
    hide Inv, Grows, TaskOk, Next;
    if steps == [] {
      BurnKeeps(sha, s.db, 0);
      assert Burn(s.db, 0) == s.db;
    } else {
      var n := |steps| - 1;
      RunKeeps(sha, s, steps[..n]);
      var before := Run(sha, s, steps[..n]);
      NextKeeps(sha, before, steps[n]);
      GrowsTransitive(s.db, before.db, Next(sha, before, steps[n]).db);
    }
  }

  /** Some run, of whatever interleaving, leads from one state to the other. */
  ghost predicate Leads(sha: Digest, s: System, later: System) { exists steps :: Run(sha, s, steps) == later }

  /** Some run leads there from the empty database. */
  ghost predicate Reachable(sha: Digest, s: System) { Leads(sha, Start, s) }

  lemma StartIsOk(sha: Digest)
    ensures SystemOk(sha, Start)
  {
  }

  lemma LeadsKeeps(sha: Digest, s: System, later: System)
    requires SystemOk(sha, s) && Leads(sha, s, later)
    ensures SystemOk(sha, later) && Grows(s.db, later.db)
  {
    hide Run, SystemOk, Grows;
    var steps :| Run(sha, s, steps) == later;
    RunKeeps(sha, s, steps);
  }

  /** Every reachable state satisfies the invariant. */
  lemma ReachableIsOk(sha: Digest, s: System)
    requires Reachable(sha, s)
    ensures SystemOk(sha, s)
  {
    hide SystemOk, Leads;
    StartIsOk(sha);
    LeadsKeeps(sha, Start, s);
  }
}
