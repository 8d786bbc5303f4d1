/** Member debts and the repayment waterfall. */
module Debts {
  import opened Wrappers
  import opened Ids
  import opened Sums

  datatype DebtState = Active | PartiallyRepaid | Repaid | WrittenOff

  datatype DebtReason = LateContribution | PartialContribution | WorkingCapitalAdvance

  datatype DebtRow = DebtRow(
    id: Uuid,
    groupId: Uuid,
    cycleId: Uuid,
    debtorId: Uuid,
    originalAmountMinor: int,
    remainingAmountMinor: int,
    reason: DebtReason,
    state: DebtState,
    repaidAt: Option<int>)
  {
    predicate IsActive() { state == Active || state == PartiallyRepaid }
  }

  function NewDebt(id: Uuid, group: Uuid, cycle: Uuid, debtor: Uuid, amount: int, reason: DebtReason): DebtRow
  {
    DebtRow(id, group, cycle, debtor, amount, amount, reason, Active, None)
  }

  function Effective(d: DebtRow, amount: int): int { Min(amount, d.remainingAmountMinor) }

  /** The debt after one repayment of at most `amount`. */
  function AfterRepayment(d: DebtRow, amount: int, now: int): DebtRow
  {
    var remaining := d.remainingAmountMinor - Effective(d, amount);
    d.(remainingAmountMinor := remaining,
       state := if remaining == 0 then Repaid else PartiallyRepaid,
       repaidAt := if remaining == 0 then Some(now) else d.repaidAt)
  }

  /** The in-memory debt, updated in place. */
  class Debt {
    const id: Uuid
    const groupId: Uuid
    const cycleId: Uuid
    const debtorId: Uuid
    const originalAmountMinor: int
    const reason: DebtReason
    var remainingAmountMinor: int
    var state: DebtState
    var repaidAt: Option<int>

    function Row(): DebtRow
      reads this
    {
      DebtRow(id, groupId, cycleId, debtorId, originalAmountMinor, remainingAmountMinor, reason, state, repaidAt)
    }

    constructor FromRow(d: DebtRow)
      ensures Row() == d
    {
      id, groupId, cycleId, debtorId := d.id, d.groupId, d.cycleId, d.debtorId;
      originalAmountMinor, remainingAmountMinor := d.originalAmountMinor, d.remainingAmountMinor;
      reason, state, repaidAt := d.reason, d.state, d.repaidAt;
    }

    /** What is repaid is the smaller of the offer and the rest, and leaves the rest by exactly that much. */
    method ApplyRepayment(amount: int, now: int) returns (effective: int)
      modifies this
      ensures effective == Min(amount, old(remainingAmountMinor))
      ensures remainingAmountMinor + effective == old(remainingAmountMinor)
      ensures state == Repaid <==> amount >= old(remainingAmountMinor)
      ensures Row() == AfterRepayment(old(Row()), amount, now)
    {
      effective := Min(amount, remainingAmountMinor);
      remainingAmountMinor := remainingAmountMinor - effective;
      if remainingAmountMinor == 0 {
        state := Repaid;
        repaidAt := Some(now);
      } else {
        state := PartiallyRepaid;
      }
    }

    method WriteOff()
      modifies this
      ensures Row() == old(Row()).(state := WrittenOff, remainingAmountMinor := 0)
      ensures !Row().IsActive()
    {
      state := WrittenOff;
      remainingAmountMinor := 0;
    }
  }

  // --------------------------------------------------------------------------
  // The waterfall
  // --------------------------------------------------------------------------

  /** Debts in order, each repaid from what the earlier ones left, stopping when nothing is left. */
  function Waterfall(debts: seq<DebtRow>, amount: int, now: int): (out: seq<DebtRow>)
    ensures |out| == |debts|
  {
    if debts == [] || amount == 0 then debts
    else [AfterRepayment(debts[0], amount, now)] + Waterfall(debts[1..], amount - Effective(debts[0], amount), now)
  }

  ghost function Remaining(): DebtRow -> int { (d: DebtRow) => d.remainingAmountMinor }

  ghost function TotalRemaining(debts: seq<DebtRow>): int { Sum(debts, Remaining()) }

  lemma TotalFromFront(debts: seq<DebtRow>)
    requires debts != []
    ensures TotalRemaining(debts) == debts[0].remainingAmountMinor + TotalRemaining(debts[1..])
  {
    SumFront(debts, Remaining());
  }

  lemma {:induction false} TotalNonNegative(debts: seq<DebtRow>)
    requires forall i | 0 <= i < |debts| :: debts[i].remainingAmountMinor > 0
    ensures TotalRemaining(debts) >= |debts|
  {
    if debts != [] {
      TotalFromFront(debts);
      TotalNonNegative(debts[1..]);
    }
  }

  /** How many of the oldest debts the amount clears. */
  function Cleared(debts: seq<DebtRow>, amount: int): (k: nat)
    ensures k <= |debts|
  {
    if debts == [] || amount == 0 || amount < debts[0].remainingAmountMinor then 0
    else 1 + Cleared(debts[1..], amount - debts[0].remainingAmountMinor)
  }

  /**
   Everything before `k` is settled at `now`, `k` is at most reduced, everything after is untouched; no other column
   of any debt moves.
   */
  ghost predicate OldestFirst(debts: seq<DebtRow>, out: seq<DebtRow>, k: nat, now: int)
  {
    && |out| == |debts| && k <= |debts|
    && (forall i | 0 <= i < k ::
          out[i] == debts[i].(remainingAmountMinor := 0, state := Repaid, repaidAt := Some(now)))
    && (k < |debts| ==> 0 < out[k].remainingAmountMinor <= debts[k].remainingAmountMinor)
    && (k < |debts| && out[k] != debts[k] ==>
          out[k] == debts[k].(remainingAmountMinor := out[k].remainingAmountMinor, state := PartiallyRepaid))
    && (forall i | k < i < |debts| :: out[i] == debts[i])
  }

  lemma OneMoreCleared(debts: seq<DebtRow>, first: DebtRow, rest: seq<DebtRow>, k: nat, now: int)
    requires debts != [] && OldestFirst(debts[1..], rest, k, now)
    requires first == debts[0].(remainingAmountMinor := 0, state := Repaid, repaidAt := Some(now))
    ensures OldestFirst(debts, [first] + rest, k + 1, now)
  {
  }

  /** The waterfall clears the oldest debts first and touches at most one debt without clearing it. */
  lemma {:induction false} WaterfallIsOldestFirst(debts: seq<DebtRow>, amount: int, now: int)
    requires amount >= 0
    requires forall i | 0 <= i < |debts| :: debts[i].remainingAmountMinor > 0
    ensures OldestFirst(debts, Waterfall(debts, amount, now), Cleared(debts, amount), now)
  {
    if debts != [] && amount != 0 {
      var left := amount - Effective(debts[0], amount);
      if amount < debts[0].remainingAmountMinor {
        assert Waterfall(debts[1..], left, now) == debts[1..];
      } else {
        WaterfallIsOldestFirst(debts[1..], left, now);
        OneMoreCleared(debts, AfterRepayment(debts[0], amount, now), Waterfall(debts[1..], left, now),
          Cleared(debts[1..], left), now);
      }
    }
  }

  /** It repays exactly min(amount, total owed). */
  lemma {:induction false} WaterfallRepays(debts: seq<DebtRow>, amount: int, now: int)
    requires amount >= 0
    requires forall i | 0 <= i < |debts| :: debts[i].remainingAmountMinor > 0
    ensures TotalRemaining(debts) - TotalRemaining(Waterfall(debts, amount, now)) == Min(amount, TotalRemaining(debts))
  {
    TotalNonNegative(debts);
    if debts != [] && amount != 0 {
      var left := amount - Effective(debts[0], amount);
      var out := Waterfall(debts, amount, now);
      TotalFromFront(debts);
      TotalFromFront(out);
      assert out[1..] == Waterfall(debts[1..], left, now);
      TotalNonNegative(debts[1..]);
      WaterfallRepays(debts[1..], left, now);
    }
  }
}
