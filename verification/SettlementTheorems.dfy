/** The main results about the settlement kernel, each over every run of every interleaving. */
module SettlementTheorems {
  import opened Wrappers
  import opened Sums
  import opened Ids
  import opened Text
  import opened Keys
  import opened Ledger
  import opened LedgerTable
  import opened Cycles
  import opened Database
  import opened Settlement
  import opened SettlementInvariant
  import opened SettlementRuns

  /** At most one initiation per cycle, for at least the threshold and at most the money collected. */
  lemma AtMostOnePayout(sha: Digest, s: System)
    requires Reachable(sha, s)
    ensures var t := s.db.t;
      && (forall i, j | 0 <= i < j < |t.ledger| && t.ledger[i].eventType == PayoutInitiated
                        && t.ledger[j].eventType == PayoutInitiated ::
            t.ledger[i].aggregateId != t.ledger[j].aggregateId)
      && (forall i | 0 <= i < |t.ledger| && t.ledger[i].eventType == PayoutInitiated ::
            var id := t.ledger[i].aggregateId;
            && id in t.cycles && t.ledger[i].amountMinor.Some?
            && t.cycles[id].payoutThresholdMinor <= t.ledger[i].amountMinor.value <= t.cycles[id].collectedAmountMinor)
  {
    hide PayoutKey, Reachable, Written, OutboxOk, MoneyOk, RefsOk, RegisterOk, CyclesOk, ConfirmationsFollow, Family;
    hide ContribKey, QuarantineKey, ConfirmKey, FailKey;
    ReachableIsOk(sha, s);
    var t := s.db.t;
    forall i, j | 0 <= i < j < |t.ledger| && t.ledger[i].eventType == PayoutInitiated
      && t.ledger[j].eventType == PayoutInitiated
      ensures t.ledger[i].aggregateId != t.ledger[j].aggregateId
    {
      assert Shape(t.cycles, t.ledger[i]) && Shape(t.cycles, t.ledger[j]);
    }
    forall i | 0 <= i < |t.ledger| && t.ledger[i].eventType == PayoutInitiated
      ensures PayoutRowOk(t.cycles, t.ledger[i])
    {
    }
  }

  /** However a run goes on, a cycle that stopped collecting keeps its total, and a closed cycle stays closed. */
  lemma FrozenAndClosedForGood(sha: Digest, s: System, later: System, id: Uuid)
    requires Reachable(sha, s) && Leads(sha, s, later) && id in s.db.t.cycles
    ensures id in later.db.t.cycles
    ensures var c, c' := s.db.t.cycles[id], later.db.t.cycles[id];
      && (Left(c.state) ==> Left(c'.state) && c'.collectedAmountMinor == c.collectedAmountMinor)
      && (c.state == Closed ==> c'.state == Closed && c'.payoutState == Confirmed)
  {
    hide Reachable, Leads, Inv;
    ReachableIsOk(sha, s);
    LeadsKeeps(sha, s, later);
    StatesAreCoupled(sha, later, id);
  }

  lemma StatesAreCoupled(sha: Digest, s: System, id: Uuid)
    requires SystemOk(sha, s) && id in s.db.t.cycles
    ensures Coupled(s.db.t.cycles[id].state, s.db.t.cycles[id].payoutState)
  {
    hide LedgerOk, Shapes, OutboxOk, MoneyOk, RefsOk, RegisterOk, PayoutsOk, ConfirmationsFollow, PayoutKey, HasEvent;
    assert CycleOk(s.db.t, id);
  }

  /** Both state columns stay coupled in every interleaving, stale commits included. */
  lemma CoupledInEveryRun(sha: Digest, s: System, id: Uuid)
    requires Reachable(sha, s) && id in s.db.t.cycles
    ensures Coupled(s.db.t.cycles[id].state, s.db.t.cycles[id].payoutState)
  {
    hide Reachable, Inv, Coupled;
    ReachableIsOk(sha, s);
    StatesAreCoupled(sha, s, id);
  }

  /** A closed cycle has a confirmation in the ledger, and before it the initiation of its payout. */
  lemma ClosedWasInitiatedThenConfirmed(sha: Digest, s: System, id: Uuid) returns (i: nat, j: nat)
    requires Reachable(sha, s) && id in s.db.t.cycles && s.db.t.cycles[id].state == Closed
    ensures var ledger := s.db.t.ledger;
      && i < j < |ledger|
      && ledger[i].eventType == PayoutInitiated && ledger[i].aggregateId == id
      && ledger[j].eventType == LedgerEventType.PayoutConfirmed && ledger[j].aggregateId == id
  {
    hide Reachable, LedgerOk, Shapes, OutboxOk, MoneyOk, RefsOk, RegisterOk, PayoutsOk, PayoutKey;
    ReachableIsOk(sha, s);
    var t := s.db.t;
    assert CycleOk(t, id);
    j :| 0 <= j < |t.ledger| && t.ledger[j].eventType == LedgerEventType.PayoutConfirmed
      && t.ledger[j].aggregateId == id;
    assert HasEvent(t.ledger[..j], PayoutInitiated, id);
    i :| 0 <= i < j && t.ledger[..j][i].eventType == PayoutInitiated && t.ledger[..j][i].aggregateId == id;
  }

  /**
   Exact accounting in every interleaving: the counter of a cycle, the sum of its reconciled
   contributions and the sum of its ledger credits are one number, and no reference is used twice.
   */
  lemma MoneyIsExact(sha: Digest, s: System)
    requires Reachable(sha, s)
    ensures var t := s.db.t;
      && (forall id | id in t.cycles ::
            t.cycles[id].collectedAmountMinor == Sum(t.contributions, ReconciledFor(id))
              == Sum(t.ledger, CreditsFor(id)))
      && (forall i, j | 0 <= i < j < |t.contributions| ::
           t.contributions[i].providerTxRef != t.contributions[j].providerTxRef)
  {
    hide Reachable, LedgerOk, Shapes, OutboxOk, PayoutsOk, CyclesOk, ConfirmationsFollow;
    ReachableIsOk(sha, s);
  }

  /** The rows of a filtered ledger are found at these places, in order, and nowhere else. */
  ghost predicate AreThePlaces(ledger: seq<LedgerEntry>, types: set<LedgerEventType>, rows: seq<LedgerEntry>,
                               at: seq<nat>)
  {
    && |at| == |rows|
    && (forall k | 0 <= k < |at| ::
          at[k] < |ledger| && ledger[at[k]] == rows[k] && ledger[at[k]].eventType in types)
    && (forall k, m | 0 <= k < m < |at| :: at[k] < at[m])
    && (forall i | 0 <= i < |ledger| && ledger[i].eventType in types :: i in at)
  }

  lemma {:induction false} PositionsOfRows(ledger: seq<LedgerEntry>, types: set<LedgerEventType>)
    returns (at: seq<nat>)
    ensures AreThePlaces(ledger, types, RowsOf(ledger, types), at)
  {
    hide AreThePlaces;
    if ledger == [] {
      at := [];
      NoPlaces(types);
    } else {
      var n := |ledger| - 1;
      var before := PositionsOfRows(ledger[..n], types);
      at := before + (if ledger[n].eventType in types then [n] else []);
      OneMorePlace(ledger[..n], ledger[n], types, RowsOf(ledger[..n], types), before);
      assert ledger == ledger[..n] + [ledger[n]];
    }
  }

  lemma NoPlaces(types: set<LedgerEventType>)
    ensures AreThePlaces([], types, [], [])
  {
  }

  lemma OneMorePlace(ledger: seq<LedgerEntry>, row: LedgerEntry, types: set<LedgerEventType>, rows: seq<LedgerEntry>,
                     at: seq<nat>)
    requires AreThePlaces(ledger, types, rows, at)
    ensures var found := row.eventType in types;
      AreThePlaces(ledger + [row], types, rows + (if found then [row] else []), at + (if found then [|ledger|] else []))
  {
    var more := ledger + [row];
    if row.eventType in types {
      var at' := at + [|ledger|];
      assert at'[|at|] == |ledger|;
      forall i | 0 <= i < |more| && more[i].eventType in types
        ensures i in at'
      {
        if i < |ledger| {
          assert ledger[i] == more[i] && i in at;
        }
      }
    }
  }

  /** What the event of a ledger row is called, and who is to handle it. */
  ghost predicate GoesOutAs(row: LedgerEntry, e: OutboxEvent)
  {
    && row.idempotencyKey == Some(e.idempotencyKey) && row.aggregateId == e.aggregateId
    && (row.eventType == PayoutInitiated <==> e.targetService == "mobile-money-gw")
    && (row.eventType != PayoutInitiated ==> e.targetService == "notification-svc")
    && match row.eventType
       case ContributionReceived => e.eventType == "contribution.received"
       case ContributionQuarantined => e.eventType == "contribution.quarantined"
       case PayoutInitiated => e.eventType == "payout.triggered"
       case PayoutConfirmed => e.eventType == "payout.confirmed"
       case PayoutFailed => e.eventType == "payout.failed"
       case Adjustment => e.eventType == "pro_rata.dispatched"
       case _ => false
  }

  /**
   In every reachable state the outbox is the published part of the ledger, event for row and in order: the k-th
   event has the key and the cycle of the row at `at[k]`, its name, and its addressee, the gateway for payouts and
   nothing else. No row but advances and debts goes without an event, and no key is used twice.
   */
  lemma OutboxMirrorsLedger(sha: Digest, s: System) returns (at: seq<nat>)
    requires Reachable(sha, s)
    ensures var t := s.db.t;
      && |at| == |t.outbox|
      && (forall k | 0 <= k < |at| :: at[k] < |t.ledger| && GoesOutAs(t.ledger[at[k]], t.outbox[k]))
      && (forall k, m | 0 <= k < m < |at| :: at[k] < at[m])
      && (forall i | 0 <= i < |t.ledger| && t.ledger[i].eventType !in {AdvanceIssued, DebtRecorded, DebtRepaid} ::
            i in at)
      && (forall i, j | 0 <= i < j < |t.outbox| :: t.outbox[i].idempotencyKey != t.outbox[j].idempotencyKey)
  {
    hide Reachable, Written, MoneyOk, RefsOk, RegisterOk, PayoutsOk, CyclesOk, ConfirmationsFollow, Shape;
    hide EventName, GoesOutAs;
    ReachableIsOk(sha, s);
    var t := s.db.t;
    at := PositionsOfRows(t.ledger, PUBLISHED);
    forall k | 0 <= k < |at|
      ensures GoesOutAs(t.ledger[at[k]], t.outbox[k])
    {
      assert Announces(t.outbox[k], t.ledger[at[k]]);
      AnnouncementsSay(t.ledger[at[k]], t.outbox[k]);
    }
    forall i | 0 <= i < |t.ledger| && t.ledger[i].eventType !in {AdvanceIssued, DebtRecorded, DebtRepaid}
      ensures i in at
    {
      assert Shape(t.cycles, t.ledger[i]);
      KnownTypes(t.cycles, t.ledger[i]);
    }
    forall i, j | 0 <= i < j < |t.outbox|
      ensures t.outbox[i].idempotencyKey != t.outbox[j].idempotencyKey
    {
      assert Announces(t.outbox[i], t.ledger[at[i]]) && Announces(t.outbox[j], t.ledger[at[j]]);
      assert t.ledger[at[i]].idempotencyKey != t.ledger[at[j]].idempotencyKey;
    }
  }

  lemma AnnouncementsSay(row: LedgerEntry, e: OutboxEvent)
    requires Announces(e, row) && row.eventType in PUBLISHED
    ensures GoesOutAs(row, e)
  {
    assert |"mobile-money-gw"| == 15 && |"notification-svc"| == 16;
  }

  lemma KnownTypes(cycles: map<Uuid, Cycle>, row: LedgerEntry)
    requires Shape(cycles, row)
    ensures row.eventType in PUBLISHED + {AdvanceIssued, DebtRecorded, DebtRepaid}
  {
  }

  /**
   In every reachable state the contributions are those of the ledger, row for row and in order: same cycle, reference
   and amount, reconciled exactly if received. Each is for its cycle's beneficiary and from a valid number, and has a
   payer exactly if it is reconciled.
   */
  lemma ContributionsMirrorLedger(sha: Digest, s: System) returns (at: seq<nat>)
    requires Reachable(sha, s)
    ensures var t := s.db.t;
      && |at| == |t.contributions|
      && (forall k, m | 0 <= k < m < |at| :: at[k] < at[m])
      && (forall i | 0 <= i < |t.ledger| && t.ledger[i].eventType in {ContributionReceived, ContributionQuarantined} ::
            i in at)
      && (forall k | 0 <= k < |at| ::
            var c := t.contributions[k];
            && at[k] < |t.ledger|
            && t.ledger[at[k]].aggregateId == c.cycleId && t.ledger[at[k]].externalRef == Some(c.providerTxRef)
            && t.ledger[at[k]].amountMinor == Some(c.amountMinor) && c.amountMinor > 0
            && t.ledger[at[k]].direction == Some(Credit)
            && t.ledger[at[k]].eventType ==
                 (if c.status == StatusReconciled then ContributionReceived else ContributionQuarantined)
            && c.cycleId in t.cycles && c.beneficiaryId == t.cycles[c.cycleId].beneficiaryId
            && (c.payerIdentityId.Some? <==> c.status == StatusReconciled)
            && ValidMsisdn(c.payerMsisdn))
  {
    hide Reachable, LedgerOk, OutboxOk, MoneyOk, RefsOk, PayoutsOk, CyclesOk, ConfirmationsFollow, ValidMsisdn;
    ReachableIsOk(sha, s);
    var t := s.db.t;
    at := PositionsOfRows(t.ledger, CONTRIBUTIONS);
    forall k | 0 <= k < |at|
      ensures Records(t.contributions[k], t.ledger[at[k]]) && ContributionOk(t.cycles, t.contributions[k])
      ensures t.contributions[k].amountMinor > 0
    {
      assert Shape(t.cycles, t.ledger[at[k]]);
    }
  }

  /**
   Which way the money of a ledger row goes, in every reachable state: in for contributions and repayments, out for
   payouts, advances, debts and pro-rata dispatches; confirmations and failures move none. There are no other rows.
   */
  lemma MoneyGoesOneWay(sha: Digest, s: System, i: nat)
    requires Reachable(sha, s) && i < |s.db.t.ledger|
    ensures var e := s.db.t.ledger[i];
      && (e.direction == Some(Credit) <==>
            e.eventType in {ContributionReceived, ContributionQuarantined, DebtRepaid})
      && (e.direction == Some(Debit) <==> e.eventType in {PayoutInitiated, AdvanceIssued, DebtRecorded, Adjustment})
      && (e.direction == None <==> e.eventType in {LedgerEventType.PayoutConfirmed, LedgerEventType.PayoutFailed})
      && (e.direction == None <==> e.amountMinor == None)
  {
    hide Reachable, LedgerOk, OutboxOk, MoneyOk, RefsOk, RegisterOk, PayoutsOk, CyclesOk, ConfirmationsFollow;
    hide PayoutKey, ContribKey, QuarantineKey, ConfirmKey, FailKey, Family;
    ReachableIsOk(sha, s);
    assert Shape(s.db.t.cycles, s.db.t.ledger[i]);
  }

  /** In a reachable state, an event whose ledger key is free is really inserted: DO NOTHING is never what happens. */
  lemma ConflictBranchNeverTaken(sha: Digest, s: System, e: OutboxEvent)
    requires Reachable(sha, s) && !HasKey(s.db.t.ledger, e.idempotencyKey)
    ensures OutboxAfter(s.db.t.outbox, e) == s.db.t.outbox + [e]
  {
    hide Reachable, LedgerOk, Shapes, MoneyOk, RefsOk, RegisterOk, PayoutsOk, CyclesOk, ConfirmationsFollow;
    ReachableIsOk(sha, s);
    FreeInOutbox(s.db.t, e.idempotencyKey);
  }

  /**
   The guards never stand in the way of a payout that is due: when the automaton finds a cycle eligible
   and nothing commits in between, the payout commits, and pays exactly what the cycle will ever have collected,
   whatever the other workers hold at that moment and commit later.
   */
  lemma DuePayoutCommitsInFull(sha: Digest, s: System, id: Uuid, msisdn: string, now: int,
                               after: Db, outcome: Outcome, end: System)
    requires Reachable(sha, s) && id in s.db.t.cycles
    requires EvaluatePayoutEligibility(id, s.db.t.cycles[id], now).Eligible? && ValidMsisdn(msisdn)
    requires (after, outcome) == Serve(sha, s.db, EvaluatePayout(id, msisdn, now))
    requires Leads(sha, System(after, s.held), end)
    ensures outcome == PayoutInitiatedOutcome
    ensures |after.t.ledger| == |s.db.t.ledger| + 1
    ensures var row := after.t.ledger[|s.db.t.ledger|];
      && row.eventType == PayoutInitiated && id in end.db.t.cycles
      && row.amountMinor == Some(end.db.t.cycles[id].collectedAmountMinor)
  {
    hide Reachable, Leads, Inv, Grows, NewRow, PayoutKey, AfterInitiate, ValidMsisdn, TaskOk;
    ReachableIsOk(sha, s);
    var c := s.db.t.cycles[id];
    OpenHasNoKey(sha, s.db, id);
    NoOtherCycleHasTheKey(sha, s.db, id);
    assert CanInitiate(s.db.t, id, c);
    assert PlanPayout(s.db.t, id, msisdn, now) == Go(DoInitiate(id, c, now));
    assert CommitTask(sha, s.db, DoInitiate(id, c, now))
        == (Db(AfterInitiate(sha, s.db, id, c, now), s.db.nextVal + 1), PayoutInitiatedOutcome);
    InitiateKeeps(sha, s.db, id, c, now);
    forall w | w in s.held
      ensures TaskOk(after.t, s.held[w])
    {
      TaskStaysOk(s.db, after, s.held[w]);
    }
    LeadsKeeps(sha, System(after, s.held), end);
    InitiatedIsFrozen(sha, s.db, id, c, now, end.db);
  }

  lemma InitiatedIsFrozen(sha: Digest, db: Db, id: Uuid, c: Cycle, now: int, end: Db)
    requires id in db.t.cycles && c == db.t.cycles[id]
    requires Grows(Db(AfterInitiate(sha, db, id, c, now), db.nextVal + 1), end)
    ensures var after := AfterInitiate(sha, db, id, c, now);
      && |after.ledger| == |db.t.ledger| + 1 && after.ledger[|db.t.ledger|].eventType == PayoutInitiated
      && id in end.t.cycles && after.ledger[|db.t.ledger|].amountMinor == Some(end.t.cycles[id].collectedAmountMinor)
  {
    hide NewRow, PayoutKey;
  }

  lemma NoOtherCycleHasTheKey(sha: Digest, db: Db, id: Uuid)
    requires Inv(sha, db) && id in db.t.cycles && db.t.cycles[id].state == Committed
    ensures PayoutKeyFree(db.t.cycles, id, Some(KeyOf(id, db.t.cycles[id])))
  {
    hide LedgerOk, Shapes, OutboxOk, MoneyOk, RefsOk, RegisterOk, PayoutsOk, ConfirmationsFollow, PayoutKey;
    var c := db.t.cycles[id];
    forall other | other in db.t.cycles && other != id
      ensures db.t.cycles[other].payoutIdempotencyKey != Some(KeyOf(id, c))
    {
      assert CycleOk(db.t, other);
      var d := db.t.cycles[other];
      if KeyOf(other, d) == KeyOf(id, c) {
        PayoutKeyInjective(d.groupId, other, d.cycleNumber, c.groupId, id, c.cycleNumber);
      }
    }
  }

  // --------------------------------------------------------------------------
  // The scheduler's pass
  // --------------------------------------------------------------------------

  /** The rows of a pass, evaluated one after the other; a failure does not stop the pass. */
  function PayAll(sha: Digest, db: Db, rows: seq<EligibleRow>, now: int): Db
  {
    if rows == [] then db
    else
      var n := |rows| - 1;
      Serve(sha, PayAll(sha, db, rows[..n], now), EvaluatePayout(rows[n].cycleId, rows[n].beneficiaryMsisdn, now)).0
  }

  ghost predicate PaidOut(ledger: seq<LedgerEntry>, id: Uuid, amount: int)
  {
    exists i | 0 <= i < |ledger| ::
      ledger[i].eventType == PayoutInitiated && ledger[i].aggregateId == id && ledger[i].amountMinor == Some(amount)
  }

  ghost predicate IsDue(t: Tables, id: Uuid, now: int)
  {
    id in t.cycles && EvaluatePayoutEligibility(id, t.cycles[id], now).Eligible?
  }

  /** A row is paid if its number is valid and its cycle due. */
  ghost predicate IsPayable(t: Tables, row: EligibleRow, now: int)
  {
    ValidMsisdn(row.beneficiaryMsisdn) && IsDue(t, row.cycleId, now)
  }

  /** One evaluation pays its cycle if the row is payable, and touches no other. */
  lemma OneEvaluation(sha: Digest, db: Db, row: EligibleRow, now: int)
    requires Inv(sha, db)
    ensures var id := row.cycleId;
      var after := Serve(sha, db, EvaluatePayout(id, row.beneficiaryMsisdn, now)).0;
      && Inv(sha, after) && db.t.ledger <= after.t.ledger && after.t.cycles.Keys == db.t.cycles.Keys
      && (forall other | other in db.t.cycles && other != id :: after.t.cycles[other] == db.t.cycles[other])
      && (IsPayable(db.t, row, now) ==>
            && after.t.cycles[id].state == PayoutTriggered
            && PaidOut(after.t.ledger, id, db.t.cycles[id].collectedAmountMinor))
      && (!IsPayable(db.t, row, now) ==> after.t.cycles == db.t.cycles)
  {
    hide Inv, NewRow, PayoutKey, HasKey, PayoutKeyFree, OutboxAfter, Payload, Dec, ValidMsisdn;
    var id := row.cycleId;
    if IsPayable(db.t, row, now) {
      var c := db.t.cycles[id];
      OpenHasNoKey(sha, db, id);
      NoOtherCycleHasTheKey(sha, db, id);
      SnapshotIsFresh(sha, db, id);
      InitiateKeeps(sha, db, id, c, now);
      var after := Serve(sha, db, EvaluatePayout(id, row.beneficiaryMsisdn, now)).0;
      assert after.t.ledger[|db.t.ledger|].amountMinor == Some(c.collectedAmountMinor);
    }
  }

  lemma SnapshotIsFresh(sha: Digest, db: Db, id: Uuid)
    requires Inv(sha, db) && id in db.t.cycles
    requires db.t.cycles[id].payoutThresholdMinor <= db.t.cycles[id].collectedAmountMinor
    ensures SnapshotOk(db.t, id, db.t.cycles[id])
  {
    hide Inv;
  }

  /** Some row of the list pays this cycle. */
  ghost predicate Pays(t: Tables, rows: seq<EligibleRow>, id: Uuid, now: int)
  {
    exists i | 0 <= i < |rows| :: rows[i].cycleId == id && IsPayable(t, rows[i], now)
  }

  /** The cycle after a pass: triggered and paid in full, or as it was. */
  ghost predicate AfterPass(before: Tables, after: Tables, id: Uuid, paid: bool)
    requires id in before.cycles && id in after.cycles
  {
    if paid
    then after.cycles[id].state == PayoutTriggered && PaidOut(after.ledger, id, before.cycles[id].collectedAmountMinor)
    else after.cycles[id] == before.cycles[id]
  }

  /**
   One pass over any list of rows of different cycles leaves every cycle with a payable row triggered, with a
   payout of everything it collected in the ledger, and every other cycle as it was.
   */
  lemma {:induction false} OnePassPaysEveryDueCycle(sha: Digest, db: Db, rows: seq<EligibleRow>, now: int)
    requires Inv(sha, db) && forall i, j | 0 <= i < j < |rows| :: rows[i].cycleId != rows[j].cycleId
    ensures var after := PayAll(sha, db, rows, now);
      && Inv(sha, after) && db.t.ledger <= after.t.ledger && after.t.cycles.Keys == db.t.cycles.Keys
      && forall id | id in db.t.cycles :: AfterPass(db.t, after.t, id, Pays(db.t, rows, id, now))
  {
    hide Inv, Serve, IsPayable, PaidOut, Pays;
    if rows == [] {
      NothingPays(db.t, now);
    } else {
      var n := |rows| - 1;
      var before := PayAll(sha, db, rows[..n], now);
      OnePassPaysEveryDueCycle(sha, db, rows[..n], now);
      OneEvaluation(sha, before, rows[n], now);
      var after := PayAll(sha, db, rows, now);
      assert rows == rows[..n] + [rows[n]];
      forall id | id in db.t.cycles
        ensures AfterPass(db.t, after.t, id, Pays(db.t, rows, id, now))
      {
        LastRowPays(db.t, rows[..n], rows[n], id, now);
        if id == rows[n].cycleId {
          SameRowPayable(db.t, before.t, rows[n], now);
        } else if PaidOut(before.t.ledger, id, db.t.cycles[id].collectedAmountMinor) {
          PaidOutGrows(before.t.ledger, after.t.ledger, id, db.t.cycles[id].collectedAmountMinor);
        }
      }
    }
  }

  lemma NothingPays(t: Tables, now: int)
    ensures forall id :: !Pays(t, [], id, now)
  {
  }

  lemma LastRowPays(t: Tables, rows: seq<EligibleRow>, row: EligibleRow, id: Uuid, now: int)
    requires forall i | 0 <= i < |rows| :: rows[i].cycleId != row.cycleId
    ensures Pays(t, rows + [row], id, now) ==
      if id == row.cycleId then IsPayable(t, row, now) else Pays(t, rows, id, now)
    ensures id == row.cycleId ==> !Pays(t, rows, id, now)
  {
    hide IsPayable;
    var all := rows + [row];
    assert all[|rows|] == row;
    if Pays(t, rows, id, now) {
      var i :| 0 <= i < |rows| && rows[i].cycleId == id && IsPayable(t, rows[i], now);
      assert all[i] == rows[i];
    }
  }

  lemma SameRowPayable(a: Tables, b: Tables, row: EligibleRow, now: int)
    requires row.cycleId in a.cycles && row.cycleId in b.cycles && a.cycles[row.cycleId] == b.cycles[row.cycleId]
    ensures IsPayable(a, row, now) == IsPayable(b, row, now)
  {
  }

  /** The rows are what the view shows: one for each cycle in it, with the number of its beneficiary's wallet. */
  ghost predicate ShownByView(t: Tables, wallets: map<Uuid, string>, rows: seq<EligibleRow>, now: int)
  {
    && (forall i | 0 <= i < |rows| ::
          && rows[i].cycleId in t.cycles && InEligibleView(t.cycles[rows[i].cycleId], wallets, now)
          && rows[i].beneficiaryMsisdn == wallets[t.cycles[rows[i].cycleId].beneficiaryId])
    && (forall id | id in t.cycles && InEligibleView(t.cycles[id], wallets, now) ::
          exists i :: 0 <= i < |rows| && rows[i].cycleId == id)
    && (forall i, j | 0 <= i < j < |rows| :: rows[i].cycleId != rows[j].cycleId)
  }

  /**
   The scheduler's pass over the view, in any reachable state: paid are exactly the due cycles whose beneficiary has an
   active primary wallet with a valid number, each in full.
   */
  lemma SchedulerPaysTheView(sha: Digest, s: System, wallets: map<Uuid, string>, rows: seq<EligibleRow>, now: int,
                             after: Db, id: Uuid)
    requires Reachable(sha, s) && ShownByView(s.db.t, wallets, rows, now) && after == PayAll(sha, s.db, rows, now)
    requires id in s.db.t.cycles
    ensures id in after.t.cycles
    ensures var c := s.db.t.cycles[id];
      AfterPass(s.db.t, after.t, id,
                IsDue(s.db.t, id, now) && c.beneficiaryId in wallets && ValidMsisdn(wallets[c.beneficiaryId]))
  {
    hide Reachable, Inv, ValidMsisdn, EvaluatePayoutEligibility, InEligibleView, AfterPass, PayAll;
    ReachableIsOk(sha, s);
    OnePassPaysEveryDueCycle(sha, s.db, rows, now);
    var c := s.db.t.cycles[id];
    ViewAndAutomatonAgree(id, c, wallets, now);
    if InEligibleView(c, wallets, now) {
      var i :| 0 <= i < |rows| && rows[i].cycleId == id;
      assert Pays(s.db.t, rows, id, now) == IsPayable(s.db.t, rows[i], now);
    }
  }

  lemma PaidOutGrows(a: seq<LedgerEntry>, b: seq<LedgerEntry>, id: Uuid, amount: int)
    requires a <= b && PaidOut(a, id, amount)
    ensures PaidOut(b, id, amount)
  {
    var i :| 0 <= i < |a| && a[i].eventType == PayoutInitiated && a[i].aggregateId == id
      && a[i].amountMinor == Some(amount);
    assert b[i] == a[i];
  }

  // --------------------------------------------------------------------------
  // The ledger of a run
  // --------------------------------------------------------------------------

  /** The kernel's verifier accepts the ledger of a run exactly when its numbers have no gap, up to a collision. */
  lemma LedgerOfARunVerifies(sha: Digest, s: System)
    requires HexDigest(sha) && Reachable(sha, s)
    ensures Gapless(s.db.t.ledger) ==> KernelAccepts(sha, s.db.t.ledger)
    ensures KernelAccepts(sha, s.db.t.ledger) && !Gapless(s.db.t.ledger) ==>
      IsCollision(sha, FirstRowCollision(s.db.t.ledger))
  {
    hide Reachable, KernelAccepts, Shapes, OutboxOk, MoneyOk, RefsOk, RegisterOk, PayoutsOk, CyclesOk;
    hide ConfirmationsFollow;
    ReachableIsOk(sha, s);
    VerifiesIffGapless(sha, s.db.t.ledger, s.db.nextVal);
  }

  /**
   One refused commit is enough: if a number was lost (the counter is ahead of the rows), every longer
   ledger that any continuation of the run produces fails verification, or a collision is exhibited.
   */
  lemma ALostNumberIsForever(sha: Digest, s: System, later: System)
    requires HexDigest(sha) && Reachable(sha, s) && Leads(sha, s, later)
    requires s.db.nextVal > |s.db.t.ledger| + 1 && |later.db.t.ledger| > |s.db.t.ledger|
    ensures KernelAccepts(sha, later.db.t.ledger) ==> IsCollision(sha, FirstRowCollision(later.db.t.ledger))
  {
    hide Reachable, Leads, KernelAccepts, Shapes, OutboxOk, MoneyOk, RefsOk, RegisterOk, PayoutsOk, CyclesOk;
    hide ConfirmationsFollow, CyclesGrow;
    ReachableIsOk(sha, s);
    LeadsKeeps(sha, s, later);
    assert later.db.t.ledger[|s.db.t.ledger|].seqNo >= s.db.nextVal;
    assert !Gapless(later.db.t.ledger);
    VerifiesIffGapless(sha, later.db.t.ledger, later.db.nextVal);
  }

  /**
   A stale duplicate loses a number: the refused commit of an already reconciled callback leaves the rows and moves
   the counter.
   */
  lemma ARefusedDuplicateLosesANumber(sha: Digest, db: Db, cb: MobileMoneyCallback, beneficiary: Uuid, payer: Uuid)
    requires KnownProvider(cb.provider) && HasKey(db.t.ledger, ContribKey(cb.providerTxRef))
    ensures CommitTask(sha, db, DoReconcile(cb, beneficiary, payer))
      == (db.(nextVal := db.nextVal + 1), AlreadyProcessed)
  {
  }
}
