/** What each request is answered, and what it leaves in the tables; stated on the tables before and after. */
module Answers {
  import opened Wrappers
  import opened Ids
  import opened Text
  import opened Keys
  import opened Ledger
  import opened LedgerTable
  import opened Cycles
  import opened Debts
  import opened WorkingCapitals
  import opened Database
  import opened Settlement
  import opened SettlementInvariant
  import opened SettlementRuns
  import opened SettlementTheorems
  import opened SerialCallbacks
  import opened FundConservation
  import opened FundTheorems
  import opened RepaymentTheorems

  /** A ledger row about a cycle, column by column. */
  ghost predicate IsRow(e: LedgerEntry, eventType: LedgerEventType, id: Uuid, amount: Option<int>,
                        direction: Option<Direction>, key: string, externalRef: Option<string>, payload: seq<string>)
  {
    && e.eventType == eventType && e.aggregateType == "cycle" && e.aggregateId == id
    && e.amountMinor == amount && e.direction == direction
    && e.idempotencyKey == Some(key) && e.externalRef == externalRef && e.payload == Payload(payload)
  }

  ghost predicate OneMore<T>(before: seq<T>, after: seq<T>) { |after| == |before| + 1 && before <= after }

  // --------------------------------------------------------------------------
  // Callbacks
  // --------------------------------------------------------------------------

  ghost predicate InstrumentFollows(before: Tables, after: Tables, cb: MobileMoneyCallback, payer: Option<Uuid>)
  {
    var k := (cb.payerMsisdn, cb.provider);
    && after.instruments.Keys == before.instruments.Keys + {k}
    && (payer.Some? ==> after.instruments[k].identityId == payer)
    && (payer.None? && k in before.instruments ==>
          after.instruments[k].identityId == before.instruments[k].identityId)
    && (payer.None? && k !in before.instruments ==> after.instruments[k].identityId == None)
    && (after.instruments[k].quarantineState <==> payer.None?)
    && forall other | other in before.instruments && other != k ::
         after.instruments[other] == before.instruments[other]
  }

  /**
   A callback is taken in: one contribution for the cycle's beneficiary, one credit in the ledger and one notification;
   the money joins the cycle's total if it has a payer, who becomes the owner of the instrument. Without a payer it is
   quarantined, and the instrument with it.
   */
  ghost predicate TakenIn(before: Tables, after: Tables, cb: MobileMoneyCallback, payer: Option<Uuid>)
    requires cb.cycleId in before.cycles
  {
    var c := before.cycles[cb.cycleId];
    && OneMore(before.contributions, after.contributions)
    && after.contributions[|before.contributions|] == Contribution(
         cycleId := cb.cycleId, beneficiaryId := c.beneficiaryId, payerIdentityId := payer,
         payerMsisdn := cb.payerMsisdn, amountMinor := cb.amountMinor,
         status := if payer.Some? then StatusReconciled else StatusQuarantined, providerTxRef := cb.providerTxRef)
    && OneMore(before.ledger, after.ledger)
    && IsContributionRow(after.ledger[|before.ledger|], cb, c.beneficiaryId, payer)
    && OneMore(before.outbox, after.outbox)
    && NoticeOf(after.outbox[|before.outbox|], cb, payer)
    && after.cycles.Keys == before.cycles.Keys
    && (forall id | id in before.cycles :: after.cycles[id] == before.cycles[id].(collectedAmountMinor :=
          before.cycles[id].collectedAmountMinor + if id == cb.cycleId && payer.Some? then cb.amountMinor else 0))
    && InstrumentFollows(before, after, cb, payer)
    && after.funds == before.funds && after.debts == before.debts && after.journal == before.journal
  }

  ghost predicate IsContributionRow(e: LedgerEntry, cb: MobileMoneyCallback, beneficiary: Uuid, payer: Option<Uuid>)
  {
    if payer.Some?
    then IsRow(e, ContributionReceived, cb.cycleId, Some(cb.amountMinor), Some(Credit), ContribKey(cb.providerTxRef),
               Some(cb.providerTxRef),
               [cb.cycleId, beneficiary, payer.value, cb.payerMsisdn, Dec(cb.amountMinor), cb.providerTxRef,
                 cb.provider, Dec(cb.timestamp)])
    else IsRow(e, ContributionQuarantined, cb.cycleId, Some(cb.amountMinor), Some(Credit),
               QuarantineKey(cb.providerTxRef), Some(cb.providerTxRef),
               [cb.cycleId, beneficiary, cb.payerMsisdn, Dec(cb.amountMinor), cb.providerTxRef, cb.provider,
                 "unknown_msisdn", Dec(cb.timestamp)])
  }

  ghost predicate NoticeOf(e: OutboxEvent, cb: MobileMoneyCallback, payer: Option<Uuid>)
  {
    && e.aggregateId == cb.cycleId && e.targetService == "notification-svc"
    && (if payer.Some? then e.eventType == "contribution.received" && e.idempotencyKey == ContribKey(cb.providerTxRef)
        else e.eventType == "contribution.quarantined" && e.idempotencyKey == QuarantineKey(cb.providerTxRef))
  }

  ghost function PayerOf(bindings: map<string, Uuid>, cb: MobileMoneyCallback): Option<Uuid>
  {
    if cb.payerMsisdn in bindings then Some(bindings[cb.payerMsisdn]) else None
  }

  lemma KeysFreeForCallback(sha: Digest, t: Tables, txRef: string)
    requires Shapes(t) && RefsOk(t) && OutboxOk(t) && !HasRef(t.contributions, txRef)
    ensures !HasKey(t.ledger, ContribKey(txRef)) && !HasKey(t.ledger, QuarantineKey(txRef))
    ensures !HasOutboxKey(t.outbox, ContribKey(txRef)) && !HasOutboxKey(t.outbox, QuarantineKey(txRef))
  {
    hide ContribKey, QuarantineKey, HasKey, HasOutboxKey, HasRef, Shapes, RefsOk, OutboxOk;
    ReferenceKeysFree(t, txRef);
    FreeInOutbox(t, ContribKey(txRef));
    FreeInOutbox(t, QuarantineKey(txRef));
  }

  lemma ReconciledIsTakenIn(sha: Digest, db: Db, cb: MobileMoneyCallback, payer: Uuid)
    requires cb.cycleId in db.t.cycles && !HasOutboxKey(db.t.outbox, ContribKey(cb.providerTxRef))
    ensures TakenIn(db.t, AfterReconcile(sha, db, cb, db.t.cycles[cb.cycleId].beneficiaryId, payer), cb, Some(payer))
  {
    hide HasOutboxKey, ContribKey, Payload, Dec;
  }

  lemma QuarantinedIsTakenIn(sha: Digest, db: Db, cb: MobileMoneyCallback)
    requires cb.cycleId in db.t.cycles && !HasOutboxKey(db.t.outbox, QuarantineKey(cb.providerTxRef))
    ensures TakenIn(db.t, AfterQuarantine(sha, db, cb, db.t.cycles[cb.cycleId].beneficiaryId), cb, None)
  {
    hide HasOutboxKey, QuarantineKey, Payload, Dec;
  }

  /**
   Every callback, in every reachable state: taken in exactly if its reference is new, its number, cycle, provider and
   amount are acceptable and the total stays in range; answered as processed exactly if its reference is known, as
   ignored exactly if its cycle is known but not committed; and only in the first case is any table touched.
   */
  lemma CallbackAnswers(sha: Digest, s: System, cb: MobileMoneyCallback, bindings: map<string, Uuid>)
    requires Reachable(sha, s)
    ensures var (after, outcome) := Serve(sha, s.db, Callback(cb, bindings));
      var t := s.db.t;
      var payer := PayerOf(bindings, cb);
      var known := HasRef(t.contributions, cb.providerTxRef);
      var taken := !known && ValidMsisdn(cb.payerMsisdn)
        && cb.cycleId in t.cycles && t.cycles[cb.cycleId].state == Committed && cb.amountMinor > 0
        && cb.provider in {"orange_money", "moov_money", "wave", "other"}
        && (payer.Some? ==> t.cycles[cb.cycleId].collectedAmountMinor + cb.amountMinor <= MAX_I64);
      && (outcome == AlreadyProcessed <==> known)
      && (outcome == IgnoredCycleState <==>
            !known && ValidMsisdn(cb.payerMsisdn) && cb.cycleId in t.cycles && t.cycles[cb.cycleId].state != Committed)
      && (outcome == Reconciled <==> taken && payer.Some?)
      && (outcome == Quarantined <==> taken && payer.None?)
      && outcome in {AlreadyProcessed, IgnoredCycleState, Reconciled, Quarantined, Failure}
      && (taken ==> TakenIn(t, after.t, cb, payer))
      && (!taken ==> after.t == t)
  {
    hide HasRef, HasKey, HasOutboxKey, ContribKey, QuarantineKey, ValidMsisdn, TakenIn, AfterReconcile, AfterQuarantine;
    hide LedgerOk, Shapes, OutboxOk, MoneyOk, RefsOk, RegisterOk, PayoutsOk, CyclesOk, ConfirmationsFollow, Reachable;
    ReachableIsOk(sha, s);
    var db := s.db;
    if !HasRef(db.t.contributions, cb.providerTxRef) {
      KeysFreeForCallback(sha, db.t, cb.providerTxRef);
      if cb.cycleId in db.t.cycles {
        if cb.payerMsisdn in bindings {
          ReconciledIsTakenIn(sha, db, cb, bindings[cb.payerMsisdn]);
        } else {
          QuarantinedIsTakenIn(sha, db, cb);
        }
      }
    }
  }

  // --------------------------------------------------------------------------
  // Payouts
  // --------------------------------------------------------------------------

  /** No other table than those of a payout has changed. */
  ghost predicate OnlyPayoutTables(before: Tables, after: Tables, id: Uuid)
  {
    && after.cycles.Keys == before.cycles.Keys
    && (forall other | other in before.cycles && other != id :: after.cycles[other] == before.cycles[other])
    && after.contributions == before.contributions && after.instruments == before.instruments
    && after.funds == before.funds && after.debts == before.debts && after.journal == before.journal
  }

  /** The payout command is out: addressed to the gateway, for all that was collected, under the cycle's own key. */
  ghost predicate CommandSent(before: Tables, after: Tables, id: Uuid, now: int)
    requires id in before.cycles
  {
    var c := before.cycles[id];
    var key := PayoutKey(c.groupId, id, c.cycleNumber);
    && OneMore(before.ledger, after.ledger)
    && IsRow(after.ledger[|before.ledger|], PayoutInitiated, id, Some(c.collectedAmountMinor), Some(Debit), key, None,
             [id, c.groupId, c.beneficiaryId, Dec(c.collectedAmountMinor), key, Dec(now)])
    && OneMore(before.outbox, after.outbox)
    && after.outbox[|before.outbox|] == OutboxEvent(eventType := "payout.triggered", aggregateId := id,
         targetService := "mobile-money-gw", idempotencyKey := key)
    && OnlyPayoutTables(before, after, id)
    && after.cycles[id] == c.(state := PayoutTriggered, payoutState := Pending, payoutIdempotencyKey := Some(key))
  }

  lemma InitiationSends(sha: Digest, db: Db, id: Uuid, now: int)
    requires id in db.t.cycles && !HasOutboxKey(db.t.outbox, KeyOf(id, db.t.cycles[id]))
    ensures CommandSent(db.t, AfterInitiate(sha, db, id, db.t.cycles[id], now), id, now)
  {
    hide HasOutboxKey, PayoutKey, Payload, Dec;
  }

  /**
   Every evaluation of a payout, in every reachable state: the command goes out exactly if the row is payable,
     and otherwise nothing changes.
   */
  lemma PayoutAnswers(sha: Digest, s: System, row: EligibleRow, now: int)
    requires Reachable(sha, s)
    ensures var id := row.cycleId;
      var (after, outcome) := Serve(sha, s.db, EvaluatePayout(id, row.beneficiaryMsisdn, now));
      && (outcome == PayoutInitiatedOutcome <==> IsPayable(s.db.t, row, now))
      && (outcome == Failure <==> !ValidMsisdn(row.beneficiaryMsisdn) || id !in s.db.t.cycles)
      && outcome in {PayoutInitiatedOutcome, PayoutSkipped, Failure}
      && (IsPayable(s.db.t, row, now) ==> CommandSent(s.db.t, after.t, id, now))
      && (!IsPayable(s.db.t, row, now) ==> after == s.db)
  {
    hide Reachable, Inv, ValidMsisdn, CommandSent, AfterInitiate, CanInitiate;
    ReachableIsOk(sha, s);
    if IsPayable(s.db.t, row, now) {
      DueIsInitiated(sha, s.db, row.cycleId, now);
    }
  }

  lemma DueIsInitiated(sha: Digest, db: Db, id: Uuid, now: int)
    requires Inv(sha, db) && IsDue(db.t, id, now)
    ensures CanInitiate(db.t, id, db.t.cycles[id])
    ensures CommandSent(db.t, AfterInitiate(sha, db, id, db.t.cycles[id], now), id, now)
  {
    hide Inv, HasKey, HasOutboxKey, PayoutKey, CommandSent, AfterInitiate, PayoutKeyFree;
    OpenHasNoKey(sha, db, id);
    NoOtherCycleHasTheKey(sha, db, id);
    OutboxIsOk(sha, db);
    FreeInOutbox(db.t, KeyOf(id, db.t.cycles[id]));
    InitiationSends(sha, db, id, now);
  }

  lemma OutboxIsOk(sha: Digest, db: Db)
    requires Inv(sha, db)
    ensures OutboxOk(db.t)
  {
  }

  /** The operator's word is written down: in the ledger, as a notification, and in both states of the cycle. */
  ghost predicate ReplyRecorded(before: Tables, after: Tables, id: Uuid, success: bool, externalRef: string,
                                payload: seq<string>)
    requires id in before.cycles
  {
    var key := if success then ConfirmKey(externalRef) else FailKey(externalRef);
    && OneMore(before.ledger, after.ledger)
    && IsRow(after.ledger[|before.ledger|],
             if success then LedgerEventType.PayoutConfirmed else LedgerEventType.PayoutFailed,
             id, None, None, key, Some(externalRef), payload)
    && OneMore(before.outbox, after.outbox)
    && after.outbox[|before.outbox|] == OutboxEvent(
         eventType := if success then "payout.confirmed" else "payout.failed", aggregateId := id,
         targetService := "notification-svc", idempotencyKey := key)
    && OnlyPayoutTables(before, after, id)
    && after.cycles[id] == before.cycles[id].(state := if success then Closed else Disputed,
                                              payoutState := if success then Confirmed else Failed)
  }

  lemma ConfirmationIsRecorded(sha: Digest, db: Db, id: Uuid, externalRef: string, now: int)
    requires id in db.t.cycles && !HasOutboxKey(db.t.outbox, ConfirmKey(externalRef))
    ensures ReplyRecorded(db.t, AfterConfirm(sha, db, id, externalRef, now), id, true, externalRef,
                          [id, externalRef, Dec(now)])
  {
    hide HasOutboxKey, ConfirmKey, Payload, Dec;
  }

  lemma FailureIsRecorded(sha: Digest, db: Db, id: Uuid, externalRef: string, reason: string, now: int)
    requires id in db.t.cycles && !HasOutboxKey(db.t.outbox, FailKey(externalRef))
    ensures ReplyRecorded(db.t, AfterFail(sha, db, id, externalRef, reason, now), id, false, externalRef,
                          [id, externalRef, reason, Dec(now)])
  {
    hide HasOutboxKey, FailKey, Payload, Dec;
  }

  /**
   Every confirmation, in every reachable state: recorded exactly if the payout waits for one and the reference is new;
     answered as known if the
   payout is confirmed, and also if it still waits but the reference was used before; refused in any other state.
   */
  lemma ConfirmationAnswers(sha: Digest, s: System, id: Uuid, externalRef: string, now: int)
    requires Reachable(sha, s)
    ensures var (after, outcome) := Serve(sha, s.db, ConfirmPayout(id, externalRef, now));
      var t := s.db.t;
      var waits := id in t.cycles && t.cycles[id].payoutState in {Pending, Sent};
      var used := HasKey(t.ledger, ConfirmKey(externalRef));
      && (outcome == ConfirmedOutcome <==> waits && !used)
      && (outcome == AlreadyConfirmed <==>
            (id in t.cycles && t.cycles[id].payoutState == Confirmed) || (waits && used))
      && outcome in {ConfirmedOutcome, AlreadyConfirmed, Failure}
      && (outcome == ConfirmedOutcome ==>
            ReplyRecorded(t, after.t, id, true, externalRef, [id, externalRef, Dec(now)]))
      && (outcome != ConfirmedOutcome ==> after.t == t)
  {
    hide Inv, HasKey, HasOutboxKey, ConfirmKey, ReplyRecorded, AfterConfirm, Coupled, Reachable;
    ReachableIsOk(sha, s);
    var db := s.db;
    OutboxIsOk(sha, db);
    if id in db.t.cycles && db.t.cycles[id].payoutState in {Pending, Sent} {
      StatesFollow(sha, db, id);
      if !HasKey(db.t.ledger, ConfirmKey(externalRef)) {
        FreeInOutbox(db.t, ConfirmKey(externalRef));
        ConfirmationIsRecorded(sha, db, id, externalRef, now);
      }
    }
  }

  /**
   Every failure, in every reachable state: recorded in any state but confirmed and failed, if the reference is new;
     ignored once confirmed,
   known once failed, and also if the reference was used before.
   */
  lemma FailureAnswers(sha: Digest, s: System, id: Uuid, externalRef: string, reason: string, now: int)
    requires Reachable(sha, s)
    ensures var (after, outcome) := Serve(sha, s.db, FailPayout(id, externalRef, reason, now));
      var t := s.db.t;
      var open := id in t.cycles && t.cycles[id].payoutState !in {Confirmed, Failed};
      var used := HasKey(t.ledger, FailKey(externalRef));
      && (outcome == FailedOutcome <==> open && !used)
      && (outcome == IgnoredAlreadyConfirmed <==> id in t.cycles && t.cycles[id].payoutState == Confirmed)
      && (outcome == AlreadyFailed <==> (id in t.cycles && t.cycles[id].payoutState == Failed) || (open && used))
      && outcome in {FailedOutcome, IgnoredAlreadyConfirmed, AlreadyFailed, Failure}
      && (outcome == FailedOutcome ==>
            ReplyRecorded(t, after.t, id, false, externalRef, [id, externalRef, reason, Dec(now)]))
      && (outcome != FailedOutcome ==> after.t == t)
  {
    hide Inv, HasKey, HasOutboxKey, FailKey, ReplyRecorded, AfterFail, Coupled, Reachable;
    ReachableIsOk(sha, s);
    var db := s.db;
    OutboxIsOk(sha, db);
    if id in db.t.cycles && db.t.cycles[id].payoutState !in {Confirmed, Failed} {
      StatesFollow(sha, db, id);
      if !HasKey(db.t.ledger, FailKey(externalRef)) {
        FreeInOutbox(db.t, FailKey(externalRef));
        FailureIsRecorded(sha, db, id, externalRef, reason, now);
      }
    }
  }

  lemma StatesFollow(sha: Digest, db: Db, id: Uuid)
    requires Inv(sha, db) && id in db.t.cycles
    ensures var c := db.t.cycles[id];
      && (c.payoutState in {Pending, Sent} ==> c.state == PayoutTriggered)
      && (c.payoutState == NotSent ==> c.state in {Open, Committed})
  {
    hide LedgerOk, Shapes, OutboxOk, MoneyOk, RefsOk, RegisterOk, PayoutsOk, ConfirmationsFollow, PayoutKey, HasEvent;
    assert CycleOk(db.t, id);
  }

  // --------------------------------------------------------------------------
  // Resilience
  // --------------------------------------------------------------------------

  /** A committed cycle whose payout has not been sent and whose threshold is not reached. */
  ghost predicate Short(t: Tables, id: Uuid)
  {
    && id in t.cycles && t.cycles[id].state == Committed && t.cycles[id].payoutState == NotSent
    && t.cycles[id].collectedAmountMinor < t.cycles[id].payoutThresholdMinor
  }

  /** What the group of a cycle has neither spent nor reserved. */
  ghost function FreeFunds(t: Tables, id: Uuid): int
    requires id in t.cycles
  {
    var g := t.cycles[id].groupId;
    if g in t.funds then t.funds[g].balanceMinor - t.funds[g].reservedMinor else 0
  }

  /** A group told to wait is left alone, on any tables: nothing is paid, lent or counted. */
  lemma WaitingChangesNothing(sha: Digest, db: Db, id: Uuid, debtId: Uuid, entry: EntryRef)
    ensures var (after, outcome) := Serve(sha, db, EvaluateResilience(id, WaitForThreshold, debtId, entry));
      && after == db && outcome in {Failure, ResilienceBlocked, ThresholdMet}
      && (Short(db.t, id) ==> outcome == ResilienceBlocked)
  {
  }

  ghost predicate ResilienceLeavesAlone(before: Tables, after: Tables)
  {
    after.cycles == before.cycles && after.contributions == before.contributions
      && after.instruments == before.instruments
  }

  /** The fund has lent an amount out of its reservation, and its journal names the ledger row. */
  ghost predicate FundHasLent(before: Tables, after: Tables, g: Uuid, amount: int, entry: EntryRef)
  {
    && g in before.funds && after.funds.Keys == before.funds.Keys
    && after.funds[g] == Fund(
         balanceMinor := before.funds[g].balanceMinor - amount,
         reservedMinor := before.funds[g].reservedMinor - amount,
         totalAdvancedMinor := before.funds[g].totalAdvancedMinor + amount,
         totalRepaidMinor := before.funds[g].totalRepaidMinor)
    && (forall h | h in before.funds && h != g :: after.funds[h] == before.funds[h])
    && OneMore(before.journal, after.journal)
    && after.journal[|before.journal|] ==
         FundMove(groupId := g, kind := AdvanceMove, amountMinor := amount, entry := entry)
  }

  /** A full advance: lent to the cycle, owed by its beneficiary, both in the ledger. */
  ghost predicate AdvanceBooked(before: Tables, after: Tables, id: Uuid, amount: int, debtId: Uuid)
    requires id in before.cycles
  {
    var c := before.cycles[id];
    var n := |before.ledger|;
    && |after.ledger| == n + 2 && before.ledger <= after.ledger
    && IsRow(after.ledger[n], AdvanceIssued, id, Some(amount), Some(Debit), AdvanceKey(id, amount), None,
             [id, c.groupId, c.beneficiaryId, Dec(amount), Dec(c.collectedAmountMinor), Dec(c.payoutThresholdMinor)])
    && IsRow(after.ledger[n + 1], DebtRecorded, id, Some(amount), Some(Debit), DebtKey(debtId), None,
             [debtId, c.beneficiaryId, id, Dec(amount), "working_capital_advance"])
    && OneMore(before.debts, after.debts)
    && after.debts[|before.debts|] == DebtRow(
         id := debtId, groupId := c.groupId, cycleId := id, debtorId := c.beneficiaryId,
         originalAmountMinor := amount, remainingAmountMinor := amount,
         reason := DebtReason.WorkingCapitalAdvance, state := Active, repaidAt := None)
    && FundHasLent(before, after, c.groupId, amount, Row(after.ledger[n].seqNo))
    && after.outbox == before.outbox && ResilienceLeavesAlone(before, after)
  }

  /** A pro-rata dispatch: a debit of what was collected, and a notification. */
  ghost predicate DispatchBooked(before: Tables, after: Tables, id: Uuid)
    requires id in before.cycles
  {
    var c := before.cycles[id];
    var collected, threshold := c.collectedAmountMinor, c.payoutThresholdMinor;
    var share := ComputeProRata(collected, threshold);
    && share.Some?
    && OneMore(before.ledger, after.ledger)
    && IsRow(after.ledger[|before.ledger|], Adjustment, id, Some(collected), Some(Debit), ProRataKey(id, collected),
         None,
             [id, Dec(collected), Dec(share.value.fractionPct), Dec(threshold - collected), Dec(threshold)])
    && OneMore(before.outbox, after.outbox)
    && after.outbox[|before.outbox|] == OutboxEvent(eventType := "pro_rata.dispatched", aggregateId := id,
         targetService := "notification-svc", idempotencyKey := ProRataKey(id, collected))
    && after.debts == before.debts && after.funds == before.funds && after.journal == before.journal
    && ResilienceLeavesAlone(before, after)
  }

  /** A hybrid dispatch: the fund lends all that is free, and nobody owes it. */
  ghost predicate HybridBooked(before: Tables, after: Tables, id: Uuid, entry: EntryRef)
    requires id in before.cycles
  {
    var c := before.cycles[id];
    var lent := FreeFunds(before, id);
    var total := c.collectedAmountMinor + lent;
    && OneMore(before.ledger, after.ledger)
    && IsRow(after.ledger[|before.ledger|], AdvanceIssued, id, Some(lent), Some(Debit), HybridKey(id, total), None,
             [id, Dec(c.collectedAmountMinor), Dec(lent), Dec(total), Dec(c.payoutThresholdMinor)])
    && FundHasLent(before, after, c.groupId, lent, entry)
    && after.debts == before.debts && after.outbox == before.outbox && ResilienceLeavesAlone(before, after)
  }

  lemma AdvanceIsBooked(sha: Digest, db: Db, id: Uuid, amount: int, debtId: Uuid)
    requires id in db.t.cycles
    ensures var (after, outcome) := CommitFullAdvance(sha, db, id, db.t.cycles[id], amount, debtId);
      if outcome == FullAdvanceUsed then AdvanceBooked(db.t, after.t, id, amount, debtId)
      else outcome == Failure && after.t == db.t
  {
    hide HasKey, AdvanceKey, DebtKey, Payload, Dec, FundOk, RefersToLedger, CanInsertDebt;
  }

  lemma DispatchIsBooked(sha: Digest, db: Db, id: Uuid, d: ProRata)
    requires Inv(sha, db) && Short(db.t, id) && db.t.cycles[id].collectedAmountMinor > 0
    requires var c := db.t.cycles[id]; ComputeProRata(c.collectedAmountMinor, c.payoutThresholdMinor) == Some(d)
    ensures var (after, outcome) := CommitProRata(sha, db, id, d, db.t.cycles[id].payoutThresholdMinor);
      if outcome == ProRataDispatched then DispatchBooked(db.t, after.t, id) else outcome == Failure && after.t == db.t
  {
    hide Inv, HasKey, HasOutboxKey, ProRataKey, Payload, Dec, ComputeProRata;
    ProRataPays(db.t.cycles[id].collectedAmountMinor, db.t.cycles[id].payoutThresholdMinor);
    if !HasKey(db.t.ledger, ProRataKey(id, d.distributableMinor)) {
      OutboxIsOk(sha, db);
      FreeInOutbox(db.t, ProRataKey(id, d.distributableMinor));
    }
  }

  lemma HybridIsBooked(sha: Digest, db: Db, id: Uuid, entry: EntryRef, lent: int, total: int)
    requires id in db.t.cycles && lent == FreeFunds(db.t, id) && total == db.t.cycles[id].collectedAmountMinor + lent
    ensures var (after, outcome) := CommitHybrid(sha, db, id, db.t.cycles[id], lent, total, entry);
      if outcome == HybridDispatched then HybridBooked(db.t, after.t, id, entry)
      else outcome == Failure && after.t == db.t
  {
    hide HasKey, HybridKey, Payload, Dec, FundOk, RefersToLedger;
  }

  /** The kinds of answer a policy can lead to for a cycle that is short. */
  ghost predicate AnswerFits(t: Tables, id: Uuid, policy: ResiliencePolicy, outcome: Outcome)
    requires Short(t, id)
  {
    var collected := t.cycles[id].collectedAmountMinor;
    var missing := t.cycles[id].payoutThresholdMinor - collected;
    var free := FreeFunds(t, id);
    match policy
    case WaitForThreshold => outcome == ResilienceBlocked
    case UseWorkingCapital =>
      if free >= missing then outcome in {FullAdvanceUsed, Failure} else outcome == ResilienceBlocked
    case ProRataOnly =>
      if collected > 0 then outcome in {ProRataDispatched, Failure} else outcome == ResilienceBlocked
    case WorkingCapitalThenProRata =>
      if free >= missing then outcome in {FullAdvanceUsed, Failure}
      else if free > 0 then outcome in {HybridDispatched, Failure}
      else if collected > 0 then outcome in {ProRataDispatched, Failure}
      else outcome == ResilienceBlocked
  }

  /** What an answer says has been done has been done, for the amounts the tables ask for. */
  ghost predicate DoneAsAnswered(before: Tables, after: Tables, id: Uuid, debtId: Uuid, entry: EntryRef,
                                 outcome: Outcome)
  {
    match outcome
    case FullAdvanceUsed =>
      && id in before.cycles
      && AdvanceBooked(before, after, id,
                       before.cycles[id].payoutThresholdMinor - before.cycles[id].collectedAmountMinor, debtId)
    case ProRataDispatched => id in before.cycles && DispatchBooked(before, after, id)
    case HybridDispatched => id in before.cycles && HybridBooked(before, after, id, entry)
    case _ => after == before
  }

  /**
   Every resilience evaluation, in every reachable state: blocked unless the cycle is committed and unsent,
     done if its threshold is met,
   otherwise answered as the policy says; and the tables hold exactly what was answered.
   */
  lemma ResilienceAnswers(sha: Digest, s: System, id: Uuid, policy: ResiliencePolicy, debtId: Uuid, entry: EntryRef)
    requires Reachable(sha, s)
    ensures var (after, outcome) := Serve(sha, s.db, EvaluateResilience(id, policy, debtId, entry));
      var t := s.db.t;
      && (id !in t.cycles ==> outcome == Failure)
      && (id in t.cycles && (t.cycles[id].state != Committed || t.cycles[id].payoutState != NotSent) ==>
            outcome == ResilienceBlocked)
      && (id in t.cycles && t.cycles[id].state == Committed && t.cycles[id].payoutState == NotSent && !Short(t, id) ==>
            outcome == ThresholdMet)
      && (Short(t, id) ==> AnswerFits(t, id, policy, outcome))
      && DoneAsAnswered(t, after.t, id, debtId, entry, outcome)
  {
    hide Inv, FundBase, AnswerFits, DoneAsAnswered, CommitTask, Reachable;
    FundsOfReachable(sha, s);
    var db := s.db;
    var (after, outcome) := Serve(sha, db, EvaluateResilience(id, policy, debtId, entry));
    if Short(db.t, id) {
      ShortAnswers(sha, db, id, policy, debtId, entry, after, outcome);
    } else {
      NothingDone(db.t, id, debtId, entry, outcome);
    }
  }

  lemma FundsOfReachable(sha: Digest, s: System)
    requires Reachable(sha, s)
    ensures Inv(sha, s.db) && FundBase(s.db.t)
  {
    hide Run, Inv, FundBase, TaskOk, FundTaskOk, RunDrift, Gap;
    var steps :| Run(sha, Start, steps) == s;
    RunKeepsFund(sha, steps);
  }

  lemma NothingDone(t: Tables, id: Uuid, debtId: Uuid, entry: EntryRef, outcome: Outcome)
    requires outcome in {Failure, ResilienceBlocked, ThresholdMet}
    ensures DoneAsAnswered(t, t, id, debtId, entry, outcome)
  {
  }

  lemma SoundAmounts(sha: Digest, db: Db, id: Uuid)
    requires Inv(sha, db) && FundBase(db.t) && id in db.t.cycles
    ensures db.t.cycles[id].collectedAmountMinor >= 0 && FreeFunds(db.t, id) >= 0
  {
    hide LedgerOk, Shapes, OutboxOk, MoneyOk, RefsOk, RegisterOk, PayoutsOk, ConfirmationsFollow, PayoutKey, HasEvent;
    hide DebtsOk, AdvancesKnown, Moved;
    assert CycleOk(db.t, id);
    if db.t.cycles[id].groupId in db.t.funds {
      assert Replays(db.t, db.t.cycles[id].groupId);
    }
  }

  /** What is decided for a cycle that is short, and which answers it can lead to. */
  lemma DecisionFits(t: Tables, id: Uuid, policy: ResiliencePolicy)
    requires Short(t, id) && t.cycles[id].collectedAmountMinor >= 0 && FreeFunds(t, id) >= 0
    ensures var c := t.cycles[id];
      match Decide(policy, FreeFunds(t, id), c.collectedAmountMinor, c.payoutThresholdMinor)
      case PlanBlocked(_) => AnswerFits(t, id, policy, ResilienceBlocked)
      case PlanFullAdvance(amount) =>
        && amount == c.payoutThresholdMinor - c.collectedAmountMinor
        && AnswerFits(t, id, policy, FullAdvanceUsed) && AnswerFits(t, id, policy, Failure)
      case PlanProRata(d) =>
        && c.collectedAmountMinor > 0 && ComputeProRata(c.collectedAmountMinor, c.payoutThresholdMinor) == Some(d)
        && AnswerFits(t, id, policy, ProRataDispatched) && AnswerFits(t, id, policy, Failure)
      case PlanHybrid(lent, total) =>
        && lent == FreeFunds(t, id) && total == c.collectedAmountMinor + lent
        && AnswerFits(t, id, policy, HybridDispatched) && AnswerFits(t, id, policy, Failure)
      case ThresholdAlreadyMet => false
  {
    hide Decide, ComputeProRata, FreeFunds, Payable;
    PolicyExactly(policy, FreeFunds(t, id), t.cycles[id].collectedAmountMinor, t.cycles[id].payoutThresholdMinor);
  }

  lemma ShortAnswers(sha: Digest, db: Db, id: Uuid, policy: ResiliencePolicy, debtId: Uuid, entry: EntryRef,
                     after: Db, outcome: Outcome)
    requires Inv(sha, db) && FundBase(db.t) && Short(db.t, id)
    requires (after, outcome) == Serve(sha, db, EvaluateResilience(id, policy, debtId, entry))
    ensures AnswerFits(db.t, id, policy, outcome) && DoneAsAnswered(db.t, after.t, id, debtId, entry, outcome)
  {
    hide Inv, FundBase, AdvanceBooked, DispatchBooked, HybridBooked, CommitFullAdvance, CommitHybrid, CommitProRata;
    hide Decide, AnswerFits, PaysProRata, ComputeProRata;
    var c := db.t.cycles[id];
    SoundAmounts(sha, db, id);
    DecisionFits(db.t, id, policy);
    match Decide(policy, FreeFunds(db.t, id), c.collectedAmountMinor, c.payoutThresholdMinor) {
      case PlanFullAdvance(amount) => AdvanceIsBooked(sha, db, id, amount, debtId);
      case PlanProRata(d) => DispatchIsBooked(sha, db, id, d);
      case PlanHybrid(lent, total) => HybridIsBooked(sha, db, id, entry, lent, total);
      case _ =>
    }
  }

  // --------------------------------------------------------------------------
  // Repayments
  // --------------------------------------------------------------------------

  /**
   The ledger rows of the first `m` instalments, in order: each credits what its debt has fallen by; the debts after
   them are as they were.
   */
  ghost predicate InstalmentsBooked(before: seq<LedgerEntry>, after: seq<LedgerEntry>, debtor: Uuid, cycle: Uuid,
                                    debts: seq<DebtRow>, out: seq<DebtRow>, m: nat)
    requires |out| == |debts| && m <= |debts|
  {
    && |after| == |before| + m && before <= after
    && (forall j | m <= j < |debts| :: out[j] == debts[j])
    && forall j | 0 <= j < m ::
         var repaid := debts[j].remainingAmountMinor - out[j].remainingAmountMinor;
         IsRow(after[|before| + j], DebtRepaid, cycle, Some(repaid), Some(Credit), RepayKey(debts[j].id, repaid), None,
               [debts[j].id, debtor, cycle, Dec(repaid), Dec(out[j].remainingAmountMinor)])
  }

  /** Every turn of the loop that commits books its instalment; debts it does not reach are as they were. */
  lemma {:induction false} LoopBooksInstalments(sha: Digest, db: Db, debtor: Uuid, cycle: Uuid, debts: seq<DebtRow>,
                                                left: int, now: int) returns (m: nat)
    requires RepayLoop(sha, db, debtor, cycle, debts, left, now).1
    ensures m <= |debts|
    ensures var after := RepayLoop(sha, db, debtor, cycle, debts, left, now).0.t.ledger;
      InstalmentsBooked(db.t.ledger, after, debtor, cycle, debts, Waterfall(debts, left, now), m)
    decreases |debts|
  {
    hide RepayOne, CanRepayOne, AfterRepayment, Effective, IsRow, InstalmentsBooked, OneMore, RepayKey, Dec;
    if debts == [] || left == 0 {
      m := 0;
      NothingBooked(db.t.ledger, debtor, cycle, debts);
    } else {
      var a, eff := AfterRepayment(debts[0], left, now), Effective(debts[0], left);
      var one := RepayOne(sha, db, debtor, cycle, a, eff);
      var rest := LoopBooksInstalments(sha, one, debtor, cycle, debts[1..], left - eff, now);
      m := rest + 1;
      TurnIsBooked(sha, db, debtor, cycle, debts[0], left, now);
      MoreInstalments(db.t.ledger, one.t.ledger, RepayLoop(sha, db, debtor, cycle, debts, left, now).0.t.ledger,
        debtor, cycle, debts, a, Waterfall(debts[1..], left - eff, now), rest);
    }
  }

  lemma NothingBooked(ledger: seq<LedgerEntry>, debtor: Uuid, cycle: Uuid, debts: seq<DebtRow>)
    ensures InstalmentsBooked(ledger, ledger, debtor, cycle, debts, debts, 0)
  {
  }

  lemma TurnIsBooked(sha: Digest, db: Db, debtor: Uuid, cycle: Uuid, d: DebtRow, left: int, now: int)
    ensures var a := AfterRepayment(d, left, now);
      var after := RepayOne(sha, db, debtor, cycle, a, Effective(d, left)).t.ledger;
      var repaid := d.remainingAmountMinor - a.remainingAmountMinor;
      && OneMore(db.t.ledger, after)
      && IsRow(after[|db.t.ledger|], DebtRepaid, cycle, Some(repaid), Some(Credit), RepayKey(d.id, repaid), None,
               [d.id, debtor, cycle, Dec(repaid), Dec(a.remainingAmountMinor)])
  {
    hide RepayKey, Payload, Dec;
  }

  lemma MoreInstalments(before: seq<LedgerEntry>, one: seq<LedgerEntry>, after: seq<LedgerEntry>, debtor: Uuid,
                        cycle: Uuid, debts: seq<DebtRow>, a: DebtRow, tail: seq<DebtRow>, m: nat)
    requires debts != [] && |tail| == |debts| - 1 && m <= |tail| && OneMore(before, one)
    requires InstalmentsBooked(one, after, debtor, cycle, debts[1..], tail, m)
    requires var repaid := debts[0].remainingAmountMinor - a.remainingAmountMinor;
      IsRow(one[|before|], DebtRepaid, cycle, Some(repaid), Some(Credit), RepayKey(debts[0].id, repaid), None,
            [debts[0].id, debtor, cycle, Dec(repaid), Dec(a.remainingAmountMinor)])
    ensures InstalmentsBooked(before, after, debtor, cycle, debts, [a] + tail, m + 1)
  {
    hide IsRow, RepayKey, Dec;
    var out, rest := [a] + tail, debts[1..];
    forall j | m + 1 <= j < |debts|
      ensures out[j] == debts[j]
    {
      assert out[j] == tail[j - 1] && debts[j] == rest[j - 1];
    }
    forall j | 0 <= j < m + 1
      ensures var repaid := debts[j].remainingAmountMinor - out[j].remainingAmountMinor;
        IsRow(after[|before| + j], DebtRepaid, cycle, Some(repaid), Some(Credit), RepayKey(debts[j].id, repaid), None,
              [debts[j].id, debtor, cycle, Dec(repaid), Dec(out[j].remainingAmountMinor)])
    {
      if j > 0 {
        assert debts[j] == rest[j - 1] && out[j] == tail[j - 1] && after[|before| + j] == after[|one| + (j - 1)];
      } else {
        assert after[|before|] == one[|before|];
      }
    }
  }

  /**
   A recorded repayment books one credit for each debt it touches, oldest first, and touches nothing else: no cycle, no
   contribution, no event.
   */
  lemma RepaymentIsBooked(sha: Digest, db: Db, debtor: Uuid, cycle: Uuid, amount: int, now: int, after: Db)
    returns (m: nat)
    requires (after, RepaymentRecorded) == Serve(sha, db, LateRepayment(debtor, cycle, amount, now))
    ensures m <= |ActiveDebts(db.t.debts, debtor, cycle)|
    ensures var debts := ActiveDebts(db.t.debts, debtor, cycle);
      InstalmentsBooked(db.t.ledger, after.t.ledger, debtor, cycle, debts, Waterfall(debts, amount, now), m)
    ensures after.t.outbox == db.t.outbox && ResilienceLeavesAlone(db.t, after.t)
  {
    hide RepayLoop, InstalmentsBooked, ActiveDebts;
    var debts := ActiveDebts(db.t.debts, debtor, cycle);
    m := LoopBooksInstalments(sha, db, debtor, cycle, debts, amount, now);
    LoopLeavesAlone(sha, db, debtor, cycle, debts, amount, now);
  }

  lemma {:induction false} LoopLeavesAlone(sha: Digest, db: Db, debtor: Uuid, cycle: Uuid, debts: seq<DebtRow>,
                                           left: int, now: int)
    ensures var after := RepayLoop(sha, db, debtor, cycle, debts, left, now).0.t;
      after.outbox == db.t.outbox && ResilienceLeavesAlone(db.t, after)
    decreases |debts|
  {
    hide CanRepayOne, AfterRepayment, Effective, NewRow, RepayKey, Payload;
    if debts != [] && left != 0 {
      var a, eff := AfterRepayment(debts[0], left, now), Effective(debts[0], left);
      if CanRepayOne(sha, db, debtor, cycle, a, eff) {
        var one := RepayOne(sha, db, debtor, cycle, a, eff);
        LoopLeavesAlone(sha, one, debtor, cycle, debts[1..], left - eff, now);
      }
    }
  }

  // --------------------------------------------------------------------------
  // Answers that stay
  // --------------------------------------------------------------------------

  /** A reference is known exactly if a ledger row about a contribution carries it. */
  lemma KnownIffInTheLedger(t: Tables, txRef: string)
    requires RegisterOk(t)
    ensures HasRef(t.contributions, txRef) <==>
      exists e :: e in t.ledger && e.eventType in CONTRIBUTIONS && e.externalRef == Some(txRef)
  {
    RowsAreInTheLedger(t.ledger, CONTRIBUTIONS);
    var rows := RowsOf(t.ledger, CONTRIBUTIONS);
    if HasRef(t.contributions, txRef) {
      var k :| 0 <= k < |t.contributions| && t.contributions[k].providerTxRef == txRef;
      assert Records(t.contributions[k], rows[k]) && rows[k] in rows;
    }
    if e :| e in t.ledger && e.eventType in CONTRIBUTIONS && e.externalRef == Some(txRef) {
      assert e in rows;
      var k :| 0 <= k < |rows| && rows[k] == e;
      assert Records(t.contributions[k], rows[k]);
    }
  }

  /** A callback that was taken in once is answered as processed ever after, and changes nothing any more. */
  lemma ProcessedForever(sha: Digest, s: System, later: System, cb: MobileMoneyCallback, bindings: map<string, Uuid>)
    requires Reachable(sha, s) && Leads(sha, s, later) && HasRef(s.db.t.contributions, cb.providerTxRef)
    ensures Serve(sha, later.db, Callback(cb, bindings)) == (later.db, AlreadyProcessed)
  {
    hide Reachable, Leads, LedgerOk, Shapes, OutboxOk, MoneyOk, RefsOk, RegisterOk, PayoutsOk, CyclesOk;
    hide ConfirmationsFollow, HasRef;
    ReachableIsOk(sha, s);
    LeadsKeeps(sha, s, later);
    KnownIffInTheLedger(s.db.t, cb.providerTxRef);
    KnownIffInTheLedger(later.db.t, cb.providerTxRef);
    var e :| e in s.db.t.ledger && e.eventType in CONTRIBUTIONS && e.externalRef == Some(cb.providerTxRef);
    assert e in later.db.t.ledger;
  }

  /** A closed cycle answers every later confirmation as known and ignores every later failure. */
  lemma SettledForever(sha: Digest, s: System, later: System, id: Uuid, externalRef: string, reason: string, now: int)
    requires Reachable(sha, s) && Leads(sha, s, later) && id in s.db.t.cycles && s.db.t.cycles[id].state == Closed
    ensures Serve(sha, later.db, ConfirmPayout(id, externalRef, now)) == (later.db, AlreadyConfirmed)
    ensures Serve(sha, later.db, FailPayout(id, externalRef, reason, now)) == (later.db, IgnoredAlreadyConfirmed)
  {
    hide Reachable, Leads;
    FrozenAndClosedForGood(sha, s, later, id);
  }

  /**
   Instruments are only added, keep their owner once they have one, and have one whenever they are not quarantined.
   */
  ghost predicate InstrumentsGrow(before: Tables, after: Tables)
  {
    && (forall k | k in before.instruments ::
          && k in after.instruments
          && (before.instruments[k].identityId.Some? ==> after.instruments[k].identityId.Some?))
    && (forall k | k in after.instruments && k !in before.instruments :: KnownProvider(k.1))
  }

  ghost predicate OwnersKnown(t: Tables)
  {
    forall k | k in t.instruments :: t.instruments[k].quarantineState || t.instruments[k].identityId.Some?
  }

  lemma ContributionsKeepInstruments(sha: Digest, db: Db, cb: MobileMoneyCallback, beneficiary: Uuid, payer: Uuid)
    requires OwnersKnown(db.t)
    ensures var after := CommitReconcile(sha, db, cb, beneficiary, payer).0.t;
      OwnersKnown(after) && InstrumentsGrow(db.t, after)
    ensures var after := CommitQuarantine(sha, db, cb, beneficiary).0.t;
      OwnersKnown(after) && InstrumentsGrow(db.t, after)
  {
    hide NewRow, HasKey, Payload, OutboxAfter, HasRef, ContribKey, QuarantineKey, KnownProvider, CollectedFits, Collect;
    hide ContributionRefusal, CycleAccepts;
  }

  lemma OthersLeaveInstruments(sha: Digest, db: Db, task: Task)
    requires !task.DoReconcile? && !task.DoQuarantine?
    ensures CommitTask(sha, db, task).0.t.instruments == db.t.instruments
  {
    hide NewRow, HasKey, Payload, OutboxAfter, RepayLoop, CanInsertDebt, RefersToLedger, FundOk;
    hide UpdatePayoutState, CanUpdatePayoutState;
    match task {
      case DoRepay(debtor, cycle, amount, debts, now) => LoopLeavesAlone(sha, db, debtor, cycle, debts, amount, now);
      case _ =>
    }
  }

  lemma CommitKeepsInstruments(sha: Digest, db: Db, task: Task)
    requires OwnersKnown(db.t)
    ensures var after := CommitTask(sha, db, task).0.t; OwnersKnown(after) && InstrumentsGrow(db.t, after)
  {
    hide OwnersKnown, InstrumentsGrow, CommitReconcile, CommitQuarantine;
    match task {
      case DoReconcile(cb, beneficiary, payer) => ContributionsKeepInstruments(sha, db, cb, beneficiary, payer);
      case DoQuarantine(cb, beneficiary) => ContributionsKeepInstruments(sha, db, cb, beneficiary, beneficiary);
      case _ =>
        hide CommitTask;
        OthersLeaveInstruments(sha, db, task);
        SameInstruments(db.t, CommitTask(sha, db, task).0.t);
    }
  }

  lemma NextKeepsInstruments(sha: Digest, s: System, step: Step)
    requires OwnersKnown(s.db.t)
    ensures OwnersKnown(Next(sha, s, step).db.t) && InstrumentsGrow(s.db.t, Next(sha, s, step).db.t)
  {
    hide PlanOf, CommitTask, CanAdmit, CanDeposit, OwnersKnown;
    match step {
      case Commit(w) =>
        if w in s.held { CommitKeepsInstruments(sha, s.db, s.held[w]); } else { SameInstruments(s.db.t, s.db.t); }
      case _ =>
        assert Next(sha, s, step).db.t.instruments == s.db.t.instruments;
        SameInstruments(s.db.t, Next(sha, s, step).db.t);
    }
  }

  lemma SameInstruments(a: Tables, b: Tables)
    requires a.instruments == b.instruments && OwnersKnown(a)
    ensures OwnersKnown(b) && InstrumentsGrow(a, b)
  {
  }

  lemma {:induction false} RunKeepsInstruments(sha: Digest, s: System, steps: seq<Step>)
    requires OwnersKnown(s.db.t)
    ensures OwnersKnown(Run(sha, s, steps).db.t) && InstrumentsGrow(s.db.t, Run(sha, s, steps).db.t)
  {
    hide Next, OwnersKnown;
    if steps != [] {
      var n := |steps| - 1;
      RunKeepsInstruments(sha, s, steps[..n]);
      NextKeepsInstruments(sha, Run(sha, s, steps[..n]), steps[n]);
    } else {
      SameInstruments(s.db.t, s.db.t);
    }
  }

  /**
   In every interleaving: an instrument that is not quarantined has an owner, and an instrument that has had an owner
   always has one; only instruments of known providers are ever recorded.
   */
  lemma OwnersAreNeverForgotten(sha: Digest, s: System, later: System, k: (string, string))
    requires Reachable(sha, s) && Leads(sha, s, later) && k in later.db.t.instruments
    ensures k.1 in {"orange_money", "moov_money", "wave", "other"}
    ensures var i := later.db.t.instruments[k];
      && (!i.quarantineState ==> i.identityId.Some?)
      && (k in s.db.t.instruments && s.db.t.instruments[k].identityId.Some? ==> i.identityId.Some?)
  {
    hide Run;
    var first :| Run(sha, Start, first) == s;
    RunKeepsInstruments(sha, Start, first);
    var steps :| Run(sha, s, steps) == later;
    RunKeepsInstruments(sha, s, steps);
  }
}
