/** The financial cycle: its row, the payout decision, and the state machine. */
module Cycles {
  import opened Wrappers
  import opened Ids
  import opened Keys

  datatype CycleState = Open | Committed | PayoutTriggered | Closed | Disputed

  datatype PayoutState = NotSent | Pending | Sent | Confirmed | Failed

  datatype Cycle = Cycle(
    groupId: Uuid,
    configId: Uuid,
    cycleNumber: int,
    beneficiaryId: Uuid,
    dueDate: int,
    payoutThresholdMinor: int,
    collectedAmountMinor: int,
    state: CycleState,
    payoutState: PayoutState,
    payoutIdempotencyKey: Option<string>)

  function KeyOf(id: Uuid, c: Cycle): string { PayoutKey(c.groupId, id, c.cycleNumber) }

  datatype BlockReason = CycleNotCommitted | PayoutAlreadyInitiated

  datatype PayoutDecision =
    | Eligible(beneficiaryId: Uuid, amountMinor: int, idempotencyKey: string)
    | NotYet
    | ThresholdNotMet
    | Blocked(reason: BlockReason)

  /** The deterministic automaton: four checks in this order, then the collected amount is paid. */
  function EvaluatePayoutEligibility(id: Uuid, c: Cycle, now: int): PayoutDecision
  {
    if now < c.dueDate then NotYet
    else if c.collectedAmountMinor < c.payoutThresholdMinor then ThresholdNotMet
    else if c.state != Committed then Blocked(CycleNotCommitted)
    else if c.payoutState != NotSent then Blocked(PayoutAlreadyInitiated)
    else Eligible(c.beneficiaryId, c.collectedAmountMinor, KeyOf(id, c))
  }

  /**
   A row of the `payout_eligible_cycles` view: the cycle, and the number of its beneficiary's active primary wallet.
   */
  datatype EligibleRow = EligibleRow(cycleId: Uuid, beneficiaryMsisdn: string)

  /** The view's JOIN and WHERE clauses; `wallets` has the active primary wallet of those who have one. */
  predicate InEligibleView(c: Cycle, wallets: map<Uuid, string>, now: int)
  {
    && c.beneficiaryId in wallets
    && c.state == Committed && c.payoutState == NotSent
    && now >= c.dueDate && c.collectedAmountMinor >= c.payoutThresholdMinor
  }

  /** The WHERE clause that selects overdue cycles for the resilience scheduler. */
  predicate InOverdueView(c: Cycle, now: int)
  {
    c.state == Committed && c.payoutState == NotSent && c.dueDate < now
      && c.collectedAmountMinor < c.payoutThresholdMinor
  }

  /**
   The in-memory automaton and the SQL view agree on every row whose beneficiary has a wallet, and the view shows
   no other; the decision is for the cycle's beneficiary, under the cycle's key, for what was collected and never less
   than the threshold; a cycle that is due and full is blocked for its state before its payout; and no cycle is due
   for payout and for resilience at once.
   */
  lemma ViewAndAutomatonAgree(id: Uuid, c: Cycle, wallets: map<Uuid, string>, now: int)
    ensures InEligibleView(c, wallets, now) <==>
      EvaluatePayoutEligibility(id, c, now).Eligible? && c.beneficiaryId in wallets
    ensures EvaluatePayoutEligibility(id, c, now).Eligible? ==>
      && EvaluatePayoutEligibility(id, c, now).amountMinor == c.collectedAmountMinor >= c.payoutThresholdMinor
      && EvaluatePayoutEligibility(id, c, now).beneficiaryId == c.beneficiaryId
      && EvaluatePayoutEligibility(id, c, now).idempotencyKey == PayoutKey(c.groupId, id, c.cycleNumber)
    ensures EvaluatePayoutEligibility(id, c, now) == Blocked(PayoutAlreadyInitiated) <==>
      && now >= c.dueDate && c.collectedAmountMinor >= c.payoutThresholdMinor
      && c.state == Committed && c.payoutState != NotSent
    ensures EvaluatePayoutEligibility(id, c, now) == Blocked(CycleNotCommitted) <==>
      now >= c.dueDate && c.collectedAmountMinor >= c.payoutThresholdMinor && c.state != Committed
    ensures InOverdueView(c, now) ==> EvaluatePayoutEligibility(id, c, now) == ThresholdNotMet
  {
  }

  /** How the two state columns go together. */
  predicate Coupled(s: CycleState, p: PayoutState)
  {
    && (s == Closed <==> p == Confirmed)
    && (s == Disputed <==> p == Failed)
    && (s == PayoutTriggered <==> p == Pending || p == Sent)
  }

  /** The cycle state `update_payout_state` writes beside a payout state. */
  function CycleStateFor(p: PayoutState): CycleState
  {
    match p
    case Pending => PayoutTriggered
    case Confirmed => Closed
    case Failed => Disputed
    case Sent => PayoutTriggered
    case NotSent => Committed
  }

  /** Whatever payout state is written, both columns go together; a payout taken back leaves its cycle committed. */
  lemma WrittenStatesAreCoupled(p: PayoutState)
    ensures Coupled(CycleStateFor(p), p) && (CycleStateFor(p) == Committed <==> p == NotSent)
  {
  }

  /** The row after `update_payout_state`: both columns, and the key when one is given. */
  function WithPayoutState(c: Cycle, p: PayoutState, key: Option<string>): Cycle
  {
    c.(payoutState := p, state := CycleStateFor(p),
       payoutIdempotencyKey := if key.Some? then key else c.payoutIdempotencyKey)
  }

  /** The BEFORE UPDATE trigger on cycles lets the change through. */
  predicate TriggerAllows(before: Cycle, after: Cycle)
  {
    before.state in {Committed, PayoutTriggered, Closed} ==>
      && after.configId == before.configId
      && !(before.state == Closed && after.state != Closed)
      && !(before.state == PayoutTriggered && after.state == Open)
  }

  /** The in-memory aggregate, whose transitions assign the two state fields. */
  class CycleAggregate {
    var state: CycleState
    var payoutState: PayoutState
    var payoutIdempotencyKey: Option<string>

    constructor (c: Cycle)
      ensures state == c.state && payoutState == c.payoutState && payoutIdempotencyKey == c.payoutIdempotencyKey
    {
      state, payoutState, payoutIdempotencyKey := c.state, c.payoutState, c.payoutIdempotencyKey;
    }

    /** Whatever columns went in coupled come out coupled; a refused transition changes nothing. */
    method MarkPayoutTriggered(key: string) returns (ok: bool)
      modifies this
      ensures ok <==> old(state) == Committed && old(payoutState) == NotSent
      ensures ok ==> state == PayoutTriggered && payoutState == Pending && payoutIdempotencyKey == Some(key)
      ensures !ok ==> unchanged(this)
      ensures old(Coupled(state, payoutState)) ==> Coupled(state, payoutState)
    {
      if state != Committed || payoutState != NotSent {
        return false;
      }
      state := PayoutTriggered;
      payoutState := Pending;
      payoutIdempotencyKey := Some(key);
      ok := true;
    }

    method MarkPayoutConfirmed() returns (ok: bool)
      modifies this`state, this`payoutState
      ensures ok <==> old(payoutState) == Pending || old(payoutState) == Sent
      ensures ok ==> state == Closed && payoutState == Confirmed
      ensures !ok ==> state == old(state) && payoutState == old(payoutState)
      ensures old(Coupled(state, payoutState)) ==> Coupled(state, payoutState)
    {
      if payoutState != Pending && payoutState != Sent {
        return false;
      }
      payoutState := Confirmed;
      state := Closed;
      ok := true;
    }

    /** Never refused, from any state. */
    method MarkPayoutFailed()
      modifies this`state, this`payoutState
      ensures state == Disputed && payoutState == Failed
      ensures Coupled(state, payoutState)
    {
      payoutState := Failed;
      state := Disputed;
    }
  }
}
