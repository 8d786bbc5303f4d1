/** Runs that reach what the kernel does not promise: lost numbers, a refused instalment, unbalanced books. */
module Counterexamples {
  import opened Wrappers
  import opened Sums
  import opened Ids
  import opened Text
  import opened Keys
  import opened Ledger
  import opened LedgerTable
  import opened Cycles
  import opened Debts
  import opened WorkingCapitals
  import opened Database
  import opened Settlement
  import opened SettlementInvariant
  import opened SettlementRuns
  import opened FundConservation
  import opened FundTheorems
  import opened RepaymentTheorems
  import opened SettlementTheorems

  // --------------------------------------------------------------------------
  // Runs, one step at a time
  // --------------------------------------------------------------------------

  lemma RunOneMore(sha: Digest, steps: seq<Step>, step: Step)
    ensures Run(sha, Start, steps + [step]) == Next(sha, Run(sha, Start, steps), step)
  {
    hide Next;
    assert (steps + [step])[..|steps|] == steps;
  }

  lemma FreshOneMore(sha: Digest, steps: seq<Step>, step: Step)
    requires FreshRun(sha, steps) && FreshStep(Run(sha, Start, steps), step)
    ensures FreshRun(sha, steps + [step])
  {
    hide Run, FreshStep;
    var more := steps + [step];
    forall i | 0 <= i < |more|
      ensures FreshStep(Run(sha, Start, more[..i]), more[i])
    {
      if i < |steps| {
        assert more[..i] == steps[..i];
      } else {
        assert more[..i] == steps;
      }
    }
  }

  lemma OneMoreStep(sha: Digest, s: System, step: Step)
    requires FreshlyReachable(sha, s) && FreshStep(s, step)
    ensures FreshlyReachable(sha, Next(sha, s, step))
  {
    hide Run, Next, FreshStep, FreshRun;
    var steps :| Run(sha, Start, steps) == s && FreshRun(sha, steps);
    RunOneMore(sha, steps, step);
    FreshOneMore(sha, steps, step);
    assert Run(sha, Start, steps + [step]) == Next(sha, s, step);
  }

  /** A step that commits no repayment can always be taken. */
  lemma PlainStep(sha: Digest, s: System, step: Step)
    requires FreshlyReachable(sha, s)
    requires step.Commit? && step.worker in s.held ==> !s.held[step.worker].DoRepay?
    ensures FreshlyReachable(sha, Next(sha, s, step))
  {
    hide Next, FreshlyReachable;
    OneMoreStep(sha, s, step);
  }

  lemma StartIsReachable(sha: Digest)
    ensures FreshlyReachable(sha, Start)
  {
    assert Run(sha, Start, []) == Start && FreshRun(sha, []);
  }

  lemma FreshlyReachableIsReachable(sha: Digest, s: System)
    requires FreshlyReachable(sha, s)
    ensures Reachable(sha, s)
  {
    hide Run, FreshRun;
    var steps :| Run(sha, Start, steps) == s && FreshRun(sha, steps);
    assert Leads(sha, Start, s);
  }

  lemma OneMoreLeads(sha: Digest, s: System, step: Step)
    requires Reachable(sha, s)
    ensures Reachable(sha, Next(sha, s, step))
  {
    hide Run, Next;
    var steps :| Run(sha, Start, steps) == s;
    RunOneMore(sha, steps, step);
    assert Run(sha, Start, steps + [step]) == Next(sha, s, step);
  }

  // --------------------------------------------------------------------------
  // The cast
  // --------------------------------------------------------------------------

  /** A committed cycle, a callback for it from a number bound to the payer, and the id of a debt. */
  datatype Story = Story(id: Uuid, cycle: Cycle, cb: MobileMoneyCallback, payer: Uuid, debtId: Uuid)

  predicate Plausible(x: Story)
  {
    && CanAdmit(EmptyDb.t, x.id, x.cycle) && x.cycle.state == Committed
    && x.cb.cycleId == x.id && ValidMsisdn(x.cb.payerMsisdn) && KnownProvider(x.cb.provider)
    && 0 < x.cb.amountMinor < x.cycle.payoutThresholdMinor <= MAX_I64 / 2
  }

  const SOME_ID: Uuid := "11111111-2222-3333-4444-555555555555"

  /** There are such stories. */
  lemma StoriesExist()
    ensures Plausible(Story(
      SOME_ID, Cycle(SOME_ID, SOME_ID, 1, SOME_ID, 0, 10_000, 0, Committed, NotSent, None),
      MobileMoneyCallback("ref", "+2267000", 1_000, SOME_ID, "wave", 0), SOME_ID, SOME_ID))
  {
    NumberLength("2267000");
    assert "+" + "2267000" == "+2267000";
  }

  ghost function Bound(x: Story): map<string, Uuid> { map[x.cb.payerMsisdn := x.payer] }

  ghost function Admitted(sha: Digest, x: Story): System { Next(sha, Start, AdmitCycle(x.id, x.cycle)) }

  lemma AfterAdmission(sha: Digest, x: Story)
    requires Plausible(x)
    ensures FreshlyReachable(sha, Admitted(sha, x))
    ensures Admitted(sha, x) == System(EmptyDb.(t := EmptyDb.t.(cycles := map[x.id := x.cycle])), map[])
  {
    hide ValidMsisdn, KnownProvider, FreshlyReachable;
    StartIsReachable(sha);
    PlainStep(sha, Start, AdmitCycle(x.id, x.cycle));
    assert map[][x.id := x.cycle] == map[x.id := x.cycle];
  }

  // --------------------------------------------------------------------------
  // Lost numbers
  // --------------------------------------------------------------------------

  /**
   Two workers read one callback before either commits: the second commit is refused, and the counter has moved
   past the ledger's only row.
   */
  lemma TwoWorkersLoseANumber(sha: Digest, x: Story) returns (s: System)
    requires Plausible(x)
    ensures Reachable(sha, s) && |s.db.t.ledger| == 1 && s.db.nextVal == 3
  {
    hide ValidMsisdn, KnownProvider, FreshlyReachable, Reachable, NewRow, ContribKey, Payload, InstrumentsAfter;
    hide OutboxAfter;
    AfterAdmission(sha, x);
    var s0 := Admitted(sha, x);
    FreshlyReachableIsReachable(sha, s0);
    var request := Callback(x.cb, Bound(x));
    var task := DoReconcile(x.cb, x.cycle.beneficiaryId, x.payer);
    assert PlanOf(s0.db.t, request) == Go(task);
    var s1 := Next(sha, s0, Read(1, request));
    OneMoreLeads(sha, s0, Read(1, request));
    var s2 := Next(sha, s1, Read(2, request));
    OneMoreLeads(sha, s1, Read(2, request));
    assert s2.db == s0.db && 1 in s2.held && 2 in s2.held && s2.held[1] == s2.held[2] == task;
    var s3 := Next(sha, s2, Commit(1));
    OneMoreLeads(sha, s2, Commit(1));
    FirstContribution(sha, s2.db, x);
    s := Next(sha, s3, Commit(2));
    OneMoreLeads(sha, s3, Commit(2));
    ARefusedDuplicateLosesANumber(sha, s3.db, x.cb, x.cycle.beneficiaryId, x.payer);
  }

  /** The first contribution is reconciled under the first number. */
  lemma FirstContribution(sha: Digest, db: Db, x: Story)
    requires Plausible(x) && db == EmptyDb.(t := EmptyDb.t.(cycles := map[x.id := x.cycle]))
    ensures var (after, outcome) := CommitTask(sha, db, DoReconcile(x.cb, x.cycle.beneficiaryId, x.payer));
      && outcome == Reconciled && after.nextVal == 2 && |after.t.ledger| == 1
      && after.t.cycles == map[x.id := x.cycle.(collectedAmountMinor := x.cb.amountMinor)]
      && HasKey(after.t.ledger, ContribKey(x.cb.providerTxRef))
      && after.t.ledger[0].eventType == ContributionReceived
  {
    hide ValidMsisdn, KnownProvider, ContribKey, Payload, InstrumentsAfter, OutboxAfter;
    var (after, outcome) := CommitTask(sha, db, DoReconcile(x.cb, x.cycle.beneficiaryId, x.payer));
    assert after.t.ledger[0].idempotencyKey == Some(ContribKey(x.cb.providerTxRef));
    assert after.t.cycles == map[x.id := x.cycle.(collectedAmountMinor := x.cb.amountMinor)];
  }

  /**
   A serial witness: the same pro-rata evaluation twice. The first dispatches what was collected, the second is
   refused for its key, changes no table, and takes a number with it.
   */
  lemma SecondEvaluationLosesANumber(sha: Digest, db: Db, id: Uuid, debtId: Uuid, entry: EntryRef, one: Db, two: Db,
                                     outcome: Outcome)
    requires id in db.t.cycles && db.t.cycles[id].state == Committed && db.t.cycles[id].payoutState == NotSent
    requires 0 < db.t.cycles[id].collectedAmountMinor < db.t.cycles[id].payoutThresholdMinor
    requires (one, ProRataDispatched) == Serve(sha, db, EvaluateResilience(id, ProRataOnly, debtId, entry))
    requires (two, outcome) == Serve(sha, one, EvaluateResilience(id, ProRataOnly, debtId, entry))
    ensures outcome == Failure && two == Burn(one, 1)
  {
    hide NewRow, ProRataKey, Payload, OutboxAfter, TruncDiv, WrapI64, Dec;
    var c := db.t.cycles[id];
    var d := ComputeProRata(c.collectedAmountMinor, c.payoutThresholdMinor).value;
    assert one.t.ledger[|db.t.ledger|].idempotencyKey == Some(ProRataKey(id, d.distributableMinor));
  }

  /** It happens: a serial run leads to a cycle that has collected something below its threshold. */
  lemma SerialRunLosesANumber(sha: Digest, x: Story) returns (s: System, one: Db, two: Db)
    requires Plausible(x)
    ensures FreshlyReachable(sha, s)
    ensures (one, ProRataDispatched) == Serve(sha, s.db, EvaluateResilience(x.id, ProRataOnly, x.debtId, FreshId))
    ensures (two, Failure) == Serve(sha, one, EvaluateResilience(x.id, ProRataOnly, x.debtId, FreshId))
    ensures two.t == one.t && two.nextVal == one.nextVal + 1
  {
    hide FreshlyReachable, NewRow, ProRataKey, Payload, OutboxAfter, TruncDiv, WrapI64, Dec, ValidMsisdn;
    hide KnownProvider, HasKey;
    s := OneContributionIn(sha, x);
    var request := EvaluateResilience(x.id, ProRataOnly, x.debtId, FreshId);
    var c := s.db.t.cycles[x.id];
    var d := ComputeProRata(c.collectedAmountMinor, c.payoutThresholdMinor).value;
    ContributionKeysAreApart(s.db.t, x, d.distributableMinor);
    one := Serve(sha, s.db, request).0;
    two := Serve(sha, one, request).0;
    SecondEvaluationLosesANumber(sha, s.db, x.id, x.debtId, FreshId, one, two, Serve(sha, one, request).1);
  }

  /** One callback read and committed. */
  lemma OneContributionIn(sha: Digest, x: Story) returns (s: System)
    requires Plausible(x)
    ensures FreshlyReachable(sha, s) && |s.db.t.ledger| == 1
    ensures s.db.t.cycles == map[x.id := x.cycle.(collectedAmountMinor := x.cb.amountMinor)]
    ensures s.db.t.ledger[0].idempotencyKey == Some(ContribKey(x.cb.providerTxRef))
  {
    hide ValidMsisdn, KnownProvider, FreshlyReachable, ContribKey, Payload, InstrumentsAfter, OutboxAfter;
    AfterAdmission(sha, x);
    var s0 := Admitted(sha, x);
    var request := Callback(x.cb, Bound(x));
    assert PlanOf(s0.db.t, request) == Go(DoReconcile(x.cb, x.cycle.beneficiaryId, x.payer));
    var s1 := Next(sha, s0, Read(1, request));
    PlainStep(sha, s0, Read(1, request));
    s := Next(sha, s1, Commit(1));
    PlainStep(sha, s1, Commit(1));
    FirstContribution(sha, s0.db, x);
  }

  lemma ContributionKeysAreApart(t: Tables, x: Story, amount: int)
    requires |t.ledger| == 1 && t.ledger[0].idempotencyKey == Some(ContribKey(x.cb.providerTxRef))
    ensures !HasKey(t.ledger, ProRataKey(x.id, amount))
  {
    hide ContribKey, ProRataKey, Family;
    Families(x.cb.providerTxRef, x.id, x.id, 0);
    Families(x.cb.providerTxRef, x.id, x.id, amount);
  }

  /** The wrapped percentage gets into the ledger: 93 of 100 million billion are recorded as 165 percent. */
  lemma AWrongPercentageIsRecorded(sha: Digest, x: Story) returns (s: System, one: Db)
    requires Plausible(x) && x.cb.amountMinor == 93_000_000_000_000_000
    requires x.cycle.payoutThresholdMinor == 100_000_000_000_000_000
    ensures FreshlyReachable(sha, s)
    ensures (one, ProRataDispatched) == Serve(sha, s.db, EvaluateResilience(x.id, ProRataOnly, x.debtId, FreshId))
    ensures |one.t.ledger| == 2 && one.t.ledger[1].payload ==
      Payload([x.id, Dec(x.cb.amountMinor), Dec(165), Dec(7_000_000_000_000_000), Dec(x.cycle.payoutThresholdMinor)])
  {
    hide FreshlyReachable, ProRataKey, Payload, OutboxAfter, TruncDiv, WrapI64, Dec, ValidMsisdn, KnownProvider, HasKey;
    s := OneContributionIn(sha, x);
    NinetyThreePercentReadsAs165();
    ContributionKeysAreApart(s.db.t, x, x.cb.amountMinor);
    one := Serve(sha, s.db, EvaluateResilience(x.id, ProRataOnly, x.debtId, FreshId)).0;
  }

  // --------------------------------------------------------------------------
  // A debt
  // --------------------------------------------------------------------------

  /** The fund of the story's group once it holds twice the threshold, half of it reserved. */
  ghost function Funded(x: Story): Fund
  {
    Fund(2 * x.cycle.payoutThresholdMinor, x.cycle.payoutThresholdMinor, 0, 0)
  }

  /** A serial run to one quarantined callback: its number is unknown. */
  lemma OneQuarantineIn(sha: Digest, x: Story) returns (s: System)
    requires Plausible(x)
    ensures FreshlyReachable(sha, s) && s.db.t.cycles == map[x.id := x.cycle]
    ensures s.db.t.funds == map[] && s.db.t.debts == [] && |s.db.t.ledger| == 1 && s.db.t.ledger[0].seqNo == 1
    ensures s.db.t.ledger[0].eventType == ContributionQuarantined
    ensures s.db.t.ledger[0].idempotencyKey == Some(QuarantineKey(x.cb.providerTxRef))
  {
    hide ValidMsisdn, KnownProvider, FreshlyReachable, QuarantineKey, Payload, InstrumentsAfter, OutboxAfter;
    AfterAdmission(sha, x);
    var s0 := Admitted(sha, x);
    var request := Callback(x.cb, map[]);
    assert PlanOf(s0.db.t, request) == Go(DoQuarantine(x.cb, x.cycle.beneficiaryId));
    var s1 := Next(sha, s0, Read(1, request));
    PlainStep(sha, s0, Read(1, request));
    s := Next(sha, s1, Commit(1));
    PlainStep(sha, s1, Commit(1));
    FirstQuarantine(sha, s0.db, x);
  }

  /** A serial run to a funded group whose cycle has collected nothing. */
  lemma AFundedGroup(sha: Digest, x: Story) returns (s: System)
    requires Plausible(x)
    ensures FreshlyReachable(sha, s)
    ensures s.db.t.cycles == map[x.id := x.cycle] && s.db.t.funds == map[x.cycle.groupId := Funded(x)]
    ensures s.db.t.debts == [] && |s.db.t.ledger| == 1 && s.db.t.ledger[0].eventType == ContributionQuarantined
    ensures s.db.t.ledger[0].idempotencyKey == Some(QuarantineKey(x.cb.providerTxRef))
  {
    hide Plausible, FreshlyReachable, QuarantineKey, PlanOf, CommitTask, CanAdmit;
    StoryBounds(x);
    var g, t := x.cycle.groupId, x.cycle.payoutThresholdMinor;
    var s0 := OneQuarantineIn(sha, x);
    var s1 := Next(sha, s0, OpenFund(g));
    PlainStep(sha, s0, OpenFund(g));
    assert s1.db.t.funds == map[g := Fund(0, 0, 0, 0)];
    var s2 := Next(sha, s1, Deposit(g, 2 * t, Row(1)));
    PlainStep(sha, s1, Deposit(g, 2 * t, Row(1)));
    assert s2.db.t.funds == map[g := Fund(2 * t, 0, 0, 0)];
    s := Next(sha, s2, Reserve(g, t));
    PlainStep(sha, s2, Reserve(g, t));
    assert s.db.t.funds == map[g := Funded(x)];
  }

  lemma FirstQuarantine(sha: Digest, db: Db, x: Story)
    requires Plausible(x) && db == EmptyDb.(t := EmptyDb.t.(cycles := map[x.id := x.cycle]))
    ensures var (after, outcome) := CommitTask(sha, db, DoQuarantine(x.cb, x.cycle.beneficiaryId));
      && outcome == Quarantined && |after.t.ledger| == 1 && after.t.ledger[0].seqNo == 1
      && after.t.cycles == db.t.cycles && after.t.funds == map[] && after.t.debts == []
      && after.t.ledger[0].idempotencyKey == Some(QuarantineKey(x.cb.providerTxRef))
      && after.t.ledger[0].eventType == ContributionQuarantined
  {
    hide ValidMsisdn, KnownProvider, QuarantineKey, Payload, InstrumentsAfter, OutboxAfter;
  }

  /** The debt a full advance of the whole threshold records. */
  ghost function DebtOf(x: Story): DebtRow { AdvanceDebt(x.id, x.cycle, x.cycle.payoutThresholdMinor, x.debtId) }

  /** A serial run to a debt of a whole threshold that nobody has repaid anything of. */
  lemma AnUntouchedDebt(sha: Digest, x: Story) returns (s: System)
    requires Plausible(x)
    ensures FreshlyReachable(sha, s) && s.db.t.debts == [DebtOf(x)]
    ensures var t := x.cycle.payoutThresholdMinor; s.db.t.funds == map[x.cycle.groupId := Fund(t, 0, t, 0)]
    ensures forall i | 0 <= i < |s.db.t.ledger| :: s.db.t.ledger[i].eventType != DebtRepaid
  {
    hide FreshlyReachable, ValidMsisdn, KnownProvider, Payload, Dec, AdvanceKey, DebtKey, QuarantineKey, HasKey;
    hide Plausible;
    var s0 := AFundedGroup(sha, x);
    assert x.cycle.payoutThresholdMinor <= MAX_I64 && 0 < x.cycle.payoutThresholdMinor by { StoryBounds(x); }
    var t := x.cycle.payoutThresholdMinor;
    var request := EvaluateResilience(x.id, UseWorkingCapital, x.debtId, FreshId);
    assert PlanOf(s0.db.t, request) == Go(DoFullAdvance(x.id, x.cycle, t, x.debtId)) by {
      AdvanceIsPlanned(s0.db.t, x);
    }
    var s1 := Next(sha, s0, Read(2, request));
    PlainStep(sha, s0, Read(2, request));
    s := Next(sha, s1, Commit(2));
    PlainStep(sha, s1, Commit(2));
    AdvanceIsIssued(sha, s0.db, x);
  }

  lemma StoryBounds(x: Story)
    requires Plausible(x)
    ensures 0 < x.cycle.payoutThresholdMinor <= MAX_I64 / 2 && x.cycle.collectedAmountMinor == 0
    ensures x.cycle.state == Committed && x.cycle.payoutState == NotSent
  {
    hide ValidMsisdn, KnownProvider;
  }

  lemma AdvanceIsPlanned(t: Tables, x: Story)
    requires Plausible(x) && t.cycles == map[x.id := x.cycle] && t.funds == map[x.cycle.groupId := Funded(x)]
    ensures PlanOf(t, EvaluateResilience(x.id, UseWorkingCapital, x.debtId, FreshId))
      == Go(DoFullAdvance(x.id, x.cycle, x.cycle.payoutThresholdMinor, x.debtId))
  {
    hide Plausible;
    StoryBounds(x);
  }

  lemma AdvanceIsIssued(sha: Digest, db: Db, x: Story)
    requires Plausible(x) && db.t.funds == map[x.cycle.groupId := Funded(x)] && db.t.debts == []
    requires |db.t.ledger| == 1 && db.t.ledger[0].eventType == ContributionQuarantined
    requires db.t.ledger[0].idempotencyKey == Some(QuarantineKey(x.cb.providerTxRef))
    ensures var t := x.cycle.payoutThresholdMinor;
      var after := CommitTask(sha, db, DoFullAdvance(x.id, x.cycle, t, x.debtId)).0.t;
      && after.debts == [DebtOf(x)] && after.funds == map[x.cycle.groupId := Fund(t, 0, t, 0)]
      && forall i | 0 <= i < |after.ledger| :: after.ledger[i].eventType != DebtRepaid
  {
    hide NewRow, Payload, Dec, AdvanceKey, DebtKey, QuarantineKey, Plausible, Family;
    StoryBounds(x);
    var t := x.cycle.payoutThresholdMinor;
    Families(x.cb.providerTxRef, x.id, x.id, t);
    Families(x.cb.providerTxRef, x.id, x.debtId, t);
    var ledger := AfterAdvanceEntries(sha, db, x.id, x.cycle, t, x.debtId).ledger;
    assert ledger[1].seqNo == db.nextVal;
    assert RefersToLedger(ledger, Row(db.nextVal));
  }

  /** No repayment has used up a key yet. */
  lemma NoRepayKeyUsed(sha: Digest, s: System, d: Uuid, amount: int)
    requires FreshlyReachable(sha, s)
    requires forall i | 0 <= i < |s.db.t.ledger| :: s.db.t.ledger[i].eventType != DebtRepaid
    ensures !HasKey(s.db.t.ledger, RepayKey(d, amount))
  {
    hide FreshlyReachable, Reachable, RepayKey, ContribKey, QuarantineKey, PayoutKey, ConfirmKey, FailKey, Family;
    hide LedgerOk, OutboxOk, MoneyOk, RefsOk, RegisterOk, PayoutsOk, CyclesOk, ConfirmationsFollow;
    FreshlyReachableIsReachable(sha, s);
    ReachableIsOk(sha, s);
    forall i | 0 <= i < |s.db.t.ledger|
      ensures s.db.t.ledger[i].idempotencyKey != Some(RepayKey(d, amount))
    {
      var e := s.db.t.ledger[i];
      assert Shape(s.db.t.cycles, e);
      var r := if e.externalRef.Some? then e.externalRef.value else "";
      var c := if e.aggregateId in s.db.t.cycles then s.db.t.cycles[e.aggregateId]
        else Cycle(d, d, 0, d, 0, 0, 0, Open, NotSent, None);
      Families(r, c.groupId, e.aggregateId, c.cycleNumber);
      Families(r, d, d, amount);
    }
  }

  /** The fund and the debts of a serial run are sound and balance. */
  lemma SoundBooks(sha: Digest, s: System)
    requires FreshlyReachable(sha, s)
    ensures FundBase(s.db.t) && Balanced(s.db.t)
  {
    hide Run, FreshRun, SystemOk, FundBase, RunDrift;
    var steps :| Run(sha, Start, steps) == s && FreshRun(sha, steps);
    RunKeepsFund(sha, steps);
    forall g | g in s.db.t.funds
      ensures Gap(s.db.t, g) == 0
    {
      FreshRunsDoNotDrift(sha, steps, g);
    }
  }

  lemma OnlyDebtIsActive(x: Story)
    ensures ActiveDebts([DebtOf(x)], x.cycle.beneficiaryId, x.id) == [DebtOf(x)]
  {
    assert [DebtOf(x)][..0] == [];
  }

  // --------------------------------------------------------------------------
  // What happens to it
  // --------------------------------------------------------------------------

  /** Two equal instalments, one after the other: the first is recorded, the second refused, in a serial run. */
  lemma EqualInstalmentsOccur(sha: Digest, x: Story, amount: int, now: int, later: int) returns (s: System, one: Db)
    requires Plausible(x) && 0 < amount && 2 * amount <= x.cycle.payoutThresholdMinor
    ensures FreshlyReachable(sha, s)
    ensures (one, RepaymentRecorded) == Serve(sha, s.db, LateRepayment(x.cycle.beneficiaryId, x.id, amount, now))
    ensures Serve(sha, one, LateRepayment(x.cycle.beneficiaryId, x.id, amount, later)) == (Burn(one, 1), Failure)
  {
    hide FreshlyReachable, Plausible, FundBase, Balanced, HasKey, RepayKey, Serve, ActiveDebts, Waterfall;
    hide Cleared, Sum, Replaced, Credited;
    s := AnUntouchedDebt(sha, x);
    StoryBounds(x);
    SoundBooks(sha, s);
    OnlyDebtIsActive(x);
    var debtor := x.cycle.beneficiaryId;
    var request := LateRepayment(debtor, x.id, amount, now);
    one := Serve(sha, s.db, request).0;
    RepaymentIsTheWaterfall(sha, s.db, debtor, x.id, amount, now, one, Serve(sha, s.db, request).1);
    FirstInstalmentFits(sha, s, x, amount, now);
    EqualInstalmentIsRefused(sha, s.db, debtor, x.id, amount, now, one, later);
  }

  lemma FirstInstalmentFits(sha: Digest, s: System, x: Story, amount: int, now: int)
    requires FreshlyReachable(sha, s) && 0 < amount < x.cycle.payoutThresholdMinor <= MAX_I64 / 2
    requires s.db.t.funds == map[x.cycle.groupId :=
      Fund(x.cycle.payoutThresholdMinor, 0, x.cycle.payoutThresholdMinor, 0)]
    requires forall i | 0 <= i < |s.db.t.ledger| :: s.db.t.ledger[i].eventType != DebtRepaid
    ensures var debts := [DebtOf(x)];
      var out := Waterfall(debts, amount, now);
      InstalmentsNew(s.db.t.ledger, debts, out) && CreditsFit(s.db.t.funds, debts, out)
  {
    hide FreshlyReachable, HasKey, RepayKey, Waterfall, Sum, AfterRepayment;
    NoRepayKeyUsed(sha, s, x.debtId, amount);
    var d := DebtOf(x);
    var a := AfterRepayment(d, amount, now);
    SingleWaterfall(d, amount, now);
    CreditFromFront([d], a, [], x.cycle.groupId);
    assert [d][1..] == [] && [a] + [] == [a];
    assert CreditOf([], [], x.cycle.groupId) == 0;
  }

  lemma SingleWaterfall(d: DebtRow, amount: int, now: int)
    requires 0 < amount < d.remainingAmountMinor
    ensures var a := AfterRepayment(d, amount, now);
      Waterfall([d], amount, now) == [a] && d.remainingAmountMinor - a.remainingAmountMinor == amount
        && a.groupId == d.groupId
  {
    assert [d][1..] == [];
  }

  /** Two workers read one debt and repay different amounts: a reachable state whose books are off by the first. */
  lemma RacingRepaymentsOccur(sha: Digest, x: Story, first: int, second: int, now: int) returns (s: System)
    requires Plausible(x) && first != second
    requires 0 < first < x.cycle.payoutThresholdMinor / 2 && 0 < second < x.cycle.payoutThresholdMinor / 2
    ensures Reachable(sha, s) && x.cycle.groupId in s.db.t.funds && Gap(s.db.t, x.cycle.groupId) == -first
  {
    hide FreshlyReachable, Reachable, Plausible, FundBase, Balanced, HasKey, RepayKey, ActiveDebts, RepayLoop, Gap;
    var s0 := AnUntouchedDebt(sha, x);
    StoryBounds(x);
    SoundBooks(sha, s0);
    OnlyDebtIsActive(x);
    FreshlyReachableIsReachable(sha, s0);
    var d := DebtOf(x);
    NoRepayKeyUsed(sha, s0, x.debtId, first);
    NoRepayKeyUsed(sha, s0, x.debtId, second);
    var read1, read2 := Read(1, LateRepayment(d.debtorId, d.cycleId, first, now)),
      Read(2, LateRepayment(d.debtorId, d.cycleId, second, now));
    var s1 := Next(sha, s0, read1);
    OneMoreLeads(sha, s0, read1);
    var s2 := Next(sha, s1, read2);
    OneMoreLeads(sha, s1, read2);
    var s3 := Next(sha, s2, Commit(1));
    OneMoreLeads(sha, s2, Commit(1));
    s := Next(sha, s3, Commit(2));
    OneMoreLeads(sha, s3, Commit(2));
    assert s3.db == CommitRepay(sha, s0.db, d.debtorId, d.cycleId, first, [d], now).0;
    assert s.db == CommitRepay(sha, s3.db, d.debtorId, d.cycleId, second, [d], now).0;
    RacingRepaymentsUnbalance(sha, s0.db, d, 0, first, second, now);
  }
}
