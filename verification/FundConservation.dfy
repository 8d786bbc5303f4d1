/** Conservation of the working-capital fund and of the debts behind it, over every run. */
module FundConservation {
  import opened Wrappers
  import opened Sums
  import opened Ids
  import opened Text
  import opened Keys
  import opened Ledger
  import opened LedgerTable
  import opened Cycles
  import opened Debts
  import opened WorkingCapitals
  import opened Database
  import opened Settlement
  import opened SettlementInvariant
  import opened SettlementRuns

  // --------------------------------------------------------------------------
  // Quantities
  // --------------------------------------------------------------------------

  /** What the journal moved for a group under one heading. */
  ghost function MovesOf(group: Uuid, kind: MoveKind): FundMove -> int
  {
    (m: FundMove) => if m.groupId == group && m.kind == kind then m.amountMinor else 0
  }

  ghost function Moved(t: Tables, group: Uuid, kind: MoveKind): int { Sum(t.journal, MovesOf(group, kind)) }

  /** What a debt still owes a group's fund. */
  ghost function OwedTo(group: Uuid): DebtRow -> int
  {
    (d: DebtRow) => if d.groupId == group then d.remainingAmountMinor else 0
  }

  /** Advances of the hybrid branch, which records no debt: told apart by their key. */
  ghost function HybridOf(cycles: map<Uuid, Cycle>, group: Uuid): LedgerEntry -> int
  {
    (e: LedgerEntry) =>
      if && e.eventType == AdvanceIssued && e.idempotencyKey.Some? && Family(e.idempotencyKey.value) == "hybrid"
         && e.aggregateId in cycles && cycles[e.aggregateId].groupId == group && e.amountMinor.Some?
      then e.amountMinor.value else 0
  }

  /** How far what is out exceeds what is owed: zero when the books balance. */
  ghost function Gap(t: Tables, group: Uuid): int
    requires group in t.funds
  {
    t.funds[group].totalAdvancedMinor - t.funds[group].totalRepaidMinor
    - Sum(t.debts, OwedTo(group)) - Sum(t.ledger, HybridOf(t.cycles, group))
  }

  // --------------------------------------------------------------------------
  // What every run keeps
  // --------------------------------------------------------------------------

  /** The fund row is the replay of its journal, within the CHECK constraints. */
  ghost predicate Replays(t: Tables, g: Uuid)
    requires g in t.funds
  {
    var f := t.funds[g];
    && FundOk(f)
    && f.totalAdvancedMinor == Moved(t, g, AdvanceMove)
    && f.totalRepaidMinor == Moved(t, g, RepaymentMove)
    && f.balanceMinor == Moved(t, g, DepositMove) - f.totalAdvancedMinor + f.totalRepaidMinor
  }

  ghost predicate FundsReplay(t: Tables)
  {
    && (forall g | g in t.funds :: Replays(t, g))
    && (forall i | 0 <= i < |t.journal| :: t.journal[i].groupId in t.funds)
  }

  ghost predicate DebtRowOk(t: Tables, d: DebtRow)
  {
    d.groupId in t.funds && 0 <= d.remainingAmountMinor <= d.originalAmountMinor
      && (d.IsActive() ==> d.remainingAmountMinor > 0)
  }

  ghost predicate DebtsOk(t: Tables)
  {
    && (forall i | 0 <= i < |t.debts| :: DebtRowOk(t, t.debts[i]))
    && (forall i, j | 0 <= i < j < |t.debts| :: t.debts[i].id != t.debts[j].id)
  }

  /** Advances are on cycles that exist, in the name of groups that have a fund. */
  ghost predicate AdvanceKnown(t: Tables, e: LedgerEntry)
  {
    e.eventType == AdvanceIssued ==> e.aggregateId in t.cycles && t.cycles[e.aggregateId].groupId in t.funds
  }

  ghost predicate AdvancesKnown(t: Tables) { forall i | 0 <= i < |t.ledger| :: AdvanceKnown(t, t.ledger[i]) }

  ghost predicate FundBase(t: Tables) { FundsReplay(t) && DebtsOk(t) && AdvancesKnown(t) }

  ghost predicate Balanced(t: Tables) { forall g | g in t.funds :: Gap(t, g) == 0 }

  /** Every gap stays what it was, and a new fund starts without one. */
  ghost predicate GapsKept(before: Tables, after: Tables)
  {
    && before.funds.Keys <= after.funds.Keys
    && forall g | g in after.funds :: Gap(after, g) == if g in before.funds then Gap(before, g) else 0
  }

  /** Debt rows keep their place, their owner and their original amount. */
  ghost predicate SameDebt(a: DebtRow, b: DebtRow)
  {
    a.id == b.id && a.groupId == b.groupId && a.cycleId == b.cycleId && a.debtorId == b.debtorId &&
    a.originalAmountMinor == b.originalAmountMinor
  }

  ghost predicate DebtsGrow(a: seq<DebtRow>, b: seq<DebtRow>)
  {
    |a| <= |b| && forall i | 0 <= i < |a| :: SameDebt(a[i], b[i])
  }

  ghost predicate HasRow(table: seq<DebtRow>, d: DebtRow) { exists k :: 0 <= k < |table| && SameDebt(table[k], d) }

  /** A snapshot of debts: different debts, each with its row in the table, whatever has been repaid since. */
  ghost predicate DebtsRead(table: seq<DebtRow>, debts: seq<DebtRow>)
  {
    && (forall i | 0 <= i < |debts| :: HasRow(table, debts[i]))
    && (forall i, j | 0 <= i < j < |debts| :: debts[i].id != debts[j].id)
  }

  /** What a held fund task still knows. */
  ghost predicate FundTaskOk(t: Tables, task: Task)
  {
    match task
    case DoFullAdvance(id, c, advance, _) => id in t.cycles && c.groupId == t.cycles[id].groupId && advance > 0
    case DoHybrid(id, c, advance, _, _) => id in t.cycles && c.groupId == t.cycles[id].groupId && advance > 0
    case DoRepay(_, _, _, debts, _) => DebtsRead(t.debts, debts)
    case _ => true
  }

  ghost predicate FundGrows(a: Tables, b: Tables)
  {
    CyclesGrow(a.cycles, b.cycles) && DebtsGrow(a.debts, b.debts)
  }

  lemma FundTaskStaysOk(a: Tables, b: Tables, task: Task)
    requires FundTaskOk(a, task) && FundGrows(a, b)
    ensures FundTaskOk(b, task)
  {
    match task {
      case DoRepay(_, _, _, debts, _) =>
        forall i | 0 <= i < |debts|
          ensures HasRow(b.debts, debts[i])
        {
          assert HasRow(a.debts, debts[i]);
          var k :| 0 <= k < |a.debts| && SameDebt(a.debts[k], debts[i]);
          assert SameDebt(a.debts[k], b.debts[k]);
        }
      case _ =>
    }
  }

  // --------------------------------------------------------------------------
  // Steps that do not touch the fund
  // --------------------------------------------------------------------------

  /** Hybrid totals do not depend on what cycles collect or on cycles the rows do not mention. */
  lemma HybridFramed(ledger: seq<LedgerEntry>, a: map<Uuid, Cycle>, b: map<Uuid, Cycle>, g: Uuid)
    requires CyclesGrow(a, b)
    requires forall i | 0 <= i < |ledger| && ledger[i].eventType == AdvanceIssued :: ledger[i].aggregateId in a
    ensures Sum(ledger, HybridOf(a, g)) == Sum(ledger, HybridOf(b, g))
  {
    hide Family;
    forall i | 0 <= i < |ledger|
      ensures HybridOf(a, g)(ledger[i]) == HybridOf(b, g)(ledger[i])
    {
      if ledger[i].eventType == AdvanceIssued {
        assert CycleGrows(a[ledger[i].aggregateId], b[ledger[i].aggregateId]);
      }
    }
    SumCong(ledger, ledger, HybridOf(a, g), HybridOf(b, g));
  }

  /** Same funds, debts and journal, cycles only grown, and no new advance row. */
  lemma FundUntouched(t: Tables, after: Tables)
    requires FundBase(t) && CyclesGrow(t.cycles, after.cycles)
    requires after.funds == t.funds && after.debts == t.debts && after.journal == t.journal
    requires after.ledger == t.ledger ||
      (|after.ledger| == |t.ledger| + 1 && t.ledger <= after.ledger
        && after.ledger[|t.ledger|].eventType != AdvanceIssued)
    ensures FundBase(after) && FundGrows(t, after)
    ensures forall g | g in t.funds :: Gap(after, g) == Gap(t, g)
  {
    hide Family, FundOk, Gap, AdvancesKnown, CyclesGrow;
    forall g | g in after.funds ensures Replays(after, g) { assert Replays(t, g); }
    forall i | 0 <= i < |after.debts| ensures DebtRowOk(after, after.debts[i]) { assert DebtRowOk(t, t.debts[i]); }
    AdvancesUntouched(t, after);
    forall g | g in t.funds
      ensures Gap(after, g) == Gap(t, g)
    {
      GapUntouched(t, after, g);
    }
  }

  lemma AdvancesUntouched(t: Tables, after: Tables)
    requires AdvancesKnown(t) && CyclesGrow(t.cycles, after.cycles) && after.funds == t.funds
    requires after.ledger == t.ledger ||
      (|after.ledger| == |t.ledger| + 1 && t.ledger <= after.ledger
        && after.ledger[|t.ledger|].eventType != AdvanceIssued)
    ensures AdvancesKnown(after)
  {
    forall i | 0 <= i < |after.ledger| ensures AdvanceKnown(after, after.ledger[i])
    {
      if i < |t.ledger| {
        assert after.ledger[i] == t.ledger[i] && AdvanceKnown(t, t.ledger[i]);
      }
    }
  }

  lemma GapUntouched(t: Tables, after: Tables, g: Uuid)
    requires AdvancesKnown(t) && CyclesGrow(t.cycles, after.cycles) && g in t.funds
    requires after.funds == t.funds && after.debts == t.debts
    requires after.ledger == t.ledger ||
      (|after.ledger| == |t.ledger| + 1 && t.ledger <= after.ledger
        && after.ledger[|t.ledger|].eventType != AdvanceIssued)
    ensures Gap(after, g) == Gap(t, g)
  {
    hide Family, CyclesGrow;
    assert forall i | 0 <= i < |t.ledger| :: AdvanceKnown(t, t.ledger[i]);
    HybridFramed(t.ledger, t.cycles, after.cycles, g);
    if after.ledger != t.ledger {
      var row := after.ledger[|t.ledger|];
      assert after.ledger == t.ledger + [row];
      SumAppend(t.ledger, row, HybridOf(after.cycles, g));
    }
  }

  // --------------------------------------------------------------------------
  // Journalled moves
  // --------------------------------------------------------------------------

  lemma MovedAfter(t: Tables, after: Tables, m: FundMove, g: Uuid, kind: MoveKind)
    requires after.journal == t.journal + [m]
    ensures Moved(after, g, kind) == Moved(t, g, kind) + (if m.groupId == g && m.kind == kind then m.amountMinor else 0)
  {
    SumAppend(t.journal, m, MovesOf(g, kind));
  }

  /** A fund row and a journal row that say the same keep the replay. */
  lemma MoveKeepsReplay(t: Tables, after: Tables, m: FundMove)
    requires FundsReplay(t) && m.groupId in t.funds
    requires after.journal == t.journal + [m]
    requires m.groupId in after.funds && after.funds == t.funds[m.groupId := after.funds[m.groupId]]
    requires var f, f' := t.funds[m.groupId], after.funds[m.groupId];
      FundOk(f') &&
      match m.kind
      case AdvanceMove => f' == AfterAdvance(f, m.amountMinor)
      case RepaymentMove => f' == AfterFundRepayment(f, m.amountMinor)
      case DepositMove => f' == f.(balanceMinor := f.balanceMinor + m.amountMinor)
    ensures FundsReplay(after)
  {
    hide FundOk, Moved;
    forall g | g in after.funds
      ensures Replays(after, g)
    {
      assert Replays(t, g);
      MovedAfter(t, after, m, g, AdvanceMove);
      MovedAfter(t, after, m, g, RepaymentMove);
      MovedAfter(t, after, m, g, DepositMove);
    }
  }

  /** The fund's own steps: opening, depositing, reserving, cancelling. */
  lemma OutsideKeepsFund(sha: Digest, db: Db, step: Step)
    requires Inv(sha, db) && FundBase(db.t)
    ensures var after := Outside(db.t, step);
      FundBase(after) && FundGrows(db.t, after) && GapsKept(db.t, after)
  {
    hide Inv, CanAdmit, FundsReplay, DebtsOk, AdvancesKnown, Gap;
    var t := db.t;
    var after := Outside(t, step);
    OutsideKeeps(sha, db, step);
    match step {
      case OpenFund(g) =>
        if g !in t.funds {
          OpeningAFund(t, g);
        } else {
          FundUntouched(t, t);
        }
      case Deposit(g, amount, entry) =>
        if CanDeposit(t, g, amount, entry) {
          MoveKeepsReplay(t, after, FundMove(g, DepositMove, amount, entry));
          FundColumnsOnly(t, after);
        } else {
          FundUntouched(t, t);
        }
      case Reserve(g, amount) => ReservationsAreApart(t, step); FundColumnsOnly(t, after);
      case CancelReservation(g, amount) => ReservationsAreApart(t, step); FundColumnsOnly(t, after);
      case _ => FundUntouched(t, after);
    }
  }

  /** Changing fund rows and the journal, totals apart, moves neither debts nor the gap. */
  lemma FundColumnsOnly(t: Tables, after: Tables)
    requires DebtsOk(t) && AdvancesKnown(t)
    requires after.ledger == t.ledger && after.cycles == t.cycles && after.debts == t.debts
    requires after.funds.Keys == t.funds.Keys
    requires forall g | g in t.funds ::
      after.funds[g].totalAdvancedMinor == t.funds[g].totalAdvancedMinor
        && after.funds[g].totalRepaidMinor == t.funds[g].totalRepaidMinor
    ensures DebtsOk(after) && AdvancesKnown(after) && DebtsGrow(t.debts, after.debts)
    ensures CyclesGrow(t.cycles, after.cycles)
    ensures forall g | g in t.funds :: Gap(after, g) == Gap(t, g)
  {
    assert forall i | 0 <= i < |t.debts| :: DebtRowOk(t, t.debts[i]);
    assert forall i | 0 <= i < |t.ledger| :: AdvanceKnown(t, t.ledger[i]);
  }

  lemma ReservationsAreApart(t: Tables, step: Step)
    requires FundsReplay(t) && (step.Reserve? || step.CancelReservation?)
    ensures FundsReplay(Outside(t, step))
  {
    var after := Outside(t, step);
    forall g | g in after.funds
      ensures Replays(after, g)
    {
      assert Replays(t, g);
    }
  }

  lemma {:induction false} NothingForUnknownGroup(t: Tables, g: Uuid, kind: MoveKind, n: nat)
    requires n <= |t.journal| && forall i | 0 <= i < n :: t.journal[i].groupId != g
    ensures Sum(t.journal[..n], MovesOf(g, kind)) == 0
  {
    if n > 0 {
      NothingForUnknownGroup(t, g, kind, n - 1);
      assert t.journal[..n][..n - 1] == t.journal[..n - 1];
    }
  }

  lemma {:induction false} NothingOwedToUnknownGroup(debts: seq<DebtRow>, g: Uuid)
    requires forall i | 0 <= i < |debts| :: debts[i].groupId != g
    ensures Sum(debts, OwedTo(g)) == 0
  {
    if debts != [] {
      NothingOwedToUnknownGroup(debts[..|debts| - 1], g);
    }
  }

  lemma {:induction false} NoHybridForUnknownGroup(ledger: seq<LedgerEntry>, cycles: map<Uuid, Cycle>, g: Uuid)
    requires forall i | 0 <= i < |ledger| && ledger[i].eventType == AdvanceIssued && ledger[i].aggregateId in cycles ::
      cycles[ledger[i].aggregateId].groupId != g
    ensures Sum(ledger, HybridOf(cycles, g)) == 0
  {
    hide Family;
    if ledger != [] {
      NoHybridForUnknownGroup(ledger[..|ledger| - 1], cycles, g);
    }
  }

  /** A new fund is empty and its books balance. */
  lemma OpeningAFund(t: Tables, g: Uuid)
    requires FundBase(t) && g !in t.funds
    ensures var after := t.(funds := t.funds[g := Fund(0, 0, 0, 0)]);
      FundBase(after) && FundGrows(t, after) && GapsKept(t, after)
  {
    hide Gap, FundsReplay, AdvancesKnown;
    var after := t.(funds := t.funds[g := Fund(0, 0, 0, 0)]);
    NewFundReplays(t, after, g);
    NewFundIsOwedNothing(t, after, g);
    assert forall i | 0 <= i < |t.debts| :: DebtRowOk(t, t.debts[i]);
    forall h | h in t.funds
      ensures Gap(after, h) == Gap(t, h)
    {
      GapOfAnotherFund(t, after, h);
    }
  }

  lemma GapOfAnotherFund(t: Tables, after: Tables, h: Uuid)
    requires h in t.funds && h in after.funds && after.funds[h] == t.funds[h]
    requires after.debts == t.debts && after.ledger == t.ledger && after.cycles == t.cycles
    ensures Gap(after, h) == Gap(t, h)
  {
    hide Family;
  }

  lemma NewFundReplays(t: Tables, after: Tables, g: Uuid)
    requires FundsReplay(t) && g !in t.funds && after == t.(funds := t.funds[g := Fund(0, 0, 0, 0)])
    ensures FundsReplay(after)
  {
    assert t.journal[..|t.journal|] == t.journal;
    NothingForUnknownGroup(t, g, AdvanceMove, |t.journal|);
    NothingForUnknownGroup(t, g, RepaymentMove, |t.journal|);
    NothingForUnknownGroup(t, g, DepositMove, |t.journal|);
    forall h | h in t.funds
      ensures Replays(after, h)
    {
      assert Replays(t, h);
    }
  }

  lemma NewFundIsOwedNothing(t: Tables, after: Tables, g: Uuid)
    requires DebtsOk(t) && AdvancesKnown(t) && g !in t.funds && after == t.(funds := t.funds[g := Fund(0, 0, 0, 0)])
    ensures AdvancesKnown(after) && Gap(after, g) == 0
  {
    hide Family;
    assert forall i | 0 <= i < |t.debts| :: DebtRowOk(t, t.debts[i]);
    assert forall i | 0 <= i < |t.ledger| :: AdvanceKnown(t, t.ledger[i]);
    NothingOwedToUnknownGroup(t.debts, g);
    NoHybridForUnknownGroup(t.ledger, t.cycles, g);
  }

  // --------------------------------------------------------------------------
  // Advances
  // --------------------------------------------------------------------------

  /** One more ledger row in front of the fund's own statement. */
  lemma GapAfterRow(t: Tables, after: Tables, row: LedgerEntry, g: Uuid)
    requires g in t.funds && g in after.funds && after.cycles == t.cycles && after.ledger == t.ledger + [row]
    requires after.funds[g] == t.funds[g] && after.debts == t.debts
    ensures Gap(after, g) == Gap(t, g) - HybridOf(t.cycles, g)(row)
  {
    hide Family;
    SumAppend(t.ledger, row, HybridOf(t.cycles, g));
  }

  /** A hybrid advance: the fund lends, no debt is written, and the ledger's hybrid total grows by as much. */
  lemma HybridKeepsFund(sha: Digest, db: Db, id: Uuid, c: Cycle, advance: int, total: int, entry: EntryRef)
    requires FundBase(db.t) && FundTaskOk(db.t, DoHybrid(id, c, advance, total, entry))
    ensures var after := CommitHybrid(sha, db, id, c, advance, total, entry).0.t;
      FundBase(after) && FundGrows(db.t, after) && GapsKept(db.t, after) && after.funds.Keys == db.t.funds.Keys
  {
    hide NewRow, Family, Payload, HybridKey, HasKey, FundOk, FundsReplay, RefersToLedger;
    var t := db.t;
    var after := CommitHybrid(sha, db, id, c, advance, total, entry).0.t;
    if after != t {
      var row := NewRow(sha, t.ledger, db.nextVal, HybridEntry(id, c, advance, total));
      Families("", id, id, total);
      var one := t.(ledger := t.ledger + [row]);
      assert after == ConfirmAdvanceInTx(one, c.groupId, advance, entry);
      MoveKeepsReplay(t, after, FundMove(c.groupId, AdvanceMove, advance, entry));
      AdvanceRowKnown(t, after, row);
      forall g | g in t.funds
        ensures Gap(after, g) == Gap(t, g)
      {
        GapAfterRow(t, one, row, g);
      }
    } else {
      FundUntouched(t, t);
    }
  }

  lemma AdvanceRowKnown(t: Tables, after: Tables, row: LedgerEntry)
    requires DebtsOk(t) && AdvancesKnown(t)
    requires after.cycles == t.cycles && after.funds.Keys == t.funds.Keys && after.debts == t.debts
    requires after.ledger == t.ledger + [row] && AdvanceKnown(t, row)
    ensures DebtsOk(after) && AdvancesKnown(after) && FundGrows(t, after)
  {
    assert forall i | 0 <= i < |t.debts| :: DebtRowOk(t, t.debts[i]);
    assert forall i | 0 <= i < |t.ledger| :: AdvanceKnown(t, t.ledger[i]);
  }

  /** A full advance: the fund lends exactly what the new debt owes. */
  lemma FullAdvanceKeepsFund(sha: Digest, db: Db, id: Uuid, c: Cycle, advance: int, debtId: Uuid)
    requires FundBase(db.t) && FundTaskOk(db.t, DoFullAdvance(id, c, advance, debtId))
    ensures var after := CommitFullAdvance(sha, db, id, c, advance, debtId).0.t;
      FundBase(after) && FundGrows(db.t, after) && GapsKept(db.t, after) && after.funds.Keys == db.t.funds.Keys
  {
    hide NewRow, Family, Payload, AdvanceKey, DebtKey, HasKey, FundOk, FundsReplay, RefersToLedger, Gap;
    hide DebtsOk, AdvancesKnown, CanInsertDebt;
    var t := db.t;
    var after := CommitFullAdvance(sha, db, id, c, advance, debtId).0.t;
    if after != t {
      var debt := AdvanceDebt(id, c, advance, debtId);
      var row1 := NewRow(sha, t.ledger, db.nextVal, AdvanceEntry(id, c, advance));
      var one := t.(ledger := t.ledger + [row1]);
      var row2 := NewRow(sha, one.ledger, db.nextVal + 1, DebtEntry(id, debt));
      var two := one.(ledger := one.ledger + [row2]);
      Families("", id, id, advance);
      MoveKeepsReplay(t, after, FundMove(c.groupId, AdvanceMove, advance, Row(db.nextVal)));
      AdvanceRowKnown(t, one, row1);
      AdvanceRowKnown(one, two, row2);
      DebtAdded(two, after, debt);
      FullAdvanceGap(t, one, two, after, row1, row2, debt);
    } else {
      FundUntouched(t, t);
    }
  }

  lemma DebtAdded(t: Tables, after: Tables, d: DebtRow)
    requires DebtsOk(t) && AdvancesKnown(t) && d.groupId in t.funds && CanInsertDebt(t.debts, d)
    requires d.remainingAmountMinor == d.originalAmountMinor
    requires after.cycles == t.cycles && after.ledger == t.ledger && after.funds.Keys == t.funds.Keys
    requires after.debts == t.debts + [d]
    ensures DebtsOk(after) && AdvancesKnown(after) && FundGrows(t, after)
  {
    assert forall i | 0 <= i < |t.debts| :: DebtRowOk(t, t.debts[i]);
    assert forall i | 0 <= i < |t.ledger| :: AdvanceKnown(t, t.ledger[i]);
    assert !HasDebt(t.debts, d.id);
  }

  lemma FullAdvanceGap(t: Tables, one: Tables, two: Tables, after: Tables, row1: LedgerEntry, row2: LedgerEntry,
                       d: DebtRow)
    requires one == t.(ledger := t.ledger + [row1]) && two == one.(ledger := one.ledger + [row2])
    requires row1.idempotencyKey.Some? && Family(row1.idempotencyKey.value) != "hybrid"
    requires row2.eventType != AdvanceIssued
    requires after.cycles == two.cycles && after.ledger == two.ledger && after.debts == two.debts + [d]
    requires d.groupId in t.funds && d.remainingAmountMinor == d.originalAmountMinor
    requires after.funds == t.funds[d.groupId := AfterAdvance(t.funds[d.groupId], d.originalAmountMinor)]
    ensures forall g | g in t.funds :: Gap(after, g) == Gap(t, g)
  {
    hide Family;
    forall g | g in t.funds
      ensures Gap(after, g) == Gap(t, g)
    {
      GapAfterRow(t, one, row1, g);
      GapAfterRow(one, two, row2, g);
      SumAppend(two.debts, d, OwedTo(g));
    }
  }

  // --------------------------------------------------------------------------
  // Repayments
  // --------------------------------------------------------------------------

  /** What the table says a debt owes now. */
  ghost function OwedNow(table: seq<DebtRow>, id: Uuid): int
  {
    if table == [] then 0
    else if table[|table| - 1].id == id then table[|table| - 1].remainingAmountMinor
    else OwedNow(table[..|table| - 1], id)
  }

  /** By how much the snapshot a repayment works from overstates what the touched debts of a group owe now. */
  ghost function Drift(table: seq<DebtRow>, debts: seq<DebtRow>, left: int, g: Uuid): int
    decreases |debts|
  {
    if debts == [] || left == 0 then 0
    else
      (if debts[0].groupId == g then debts[0].remainingAmountMinor - OwedNow(table, debts[0].id) else 0)
      + Drift(table, debts[1..], left - Effective(debts[0], left), g)
  }

  lemma {:induction false} OwedNowIsTheRow(table: seq<DebtRow>, k: nat)
    requires k < |table| && forall i, j | 0 <= i < j < |table| :: table[i].id != table[j].id
    ensures OwedNow(table, table[k].id) == table[k].remainingAmountMinor
  {
    var n := |table| - 1;
    if k < n {
      OwedNowIsTheRow(table[..n], k);
      assert table[..n][k] == table[k];
    }
  }

  /** Overwriting one debt row changes what its group is owed by the difference. */
  lemma OwedAfterUpdate(table: seq<DebtRow>, d: DebtRow, k: nat, g: Uuid)
    requires k < |table| && table[k].id == d.id && table[k].groupId == d.groupId
    requires forall i, j | 0 <= i < j < |table| :: table[i].id != table[j].id
    ensures UpdateDebt(table, d) == table[k := Overwritten(table[k], d)]
    ensures Sum(UpdateDebt(table, d), OwedTo(g)) ==
      Sum(table, OwedTo(g)) + (if d.groupId == g then d.remainingAmountMinor - table[k].remainingAmountMinor else 0)
  {
    assert UpdateDebt(table, d) == table[k := Overwritten(table[k], d)];
    SumUpdate(table, k, Overwritten(table[k], d), OwedTo(g));
  }

  lemma {:induction false} OwedNowOfOthers(table: seq<DebtRow>, d: DebtRow, id: Uuid)
    requires id != d.id
    ensures OwedNow(UpdateDebt(table, d), id) == OwedNow(table, id)
  {
    if table != [] {
      var n := |table| - 1;
      OwedNowOfOthers(table[..n], d, id);
      assert UpdateDebt(table, d)[..n] == UpdateDebt(table[..n], d);
    }
  }

  lemma {:induction false} DriftOfOthers(table: seq<DebtRow>, d: DebtRow, debts: seq<DebtRow>, left: int, g: Uuid)
    requires forall i | 0 <= i < |debts| :: debts[i].id != d.id
    ensures Drift(UpdateDebt(table, d), debts, left, g) == Drift(table, debts, left, g)
    decreases |debts|
  {
    if debts != [] && left != 0 {
      OwedNowOfOthers(table, d, debts[0].id);
      DriftOfOthers(table, d, debts[1..], left - Effective(debts[0], left), g);
    }
  }

  /** One turn of the repayment loop: every book stays a replay, and the gap moves by the drift of one debt. */
  lemma RepayOneKeepsFund(sha: Digest, db: Db, debtor: Uuid, cycle: Uuid, d: DebtRow, left: int, now: int, k: nat)
    requires FundBase(db.t) && k < |db.t.debts| && SameDebt(db.t.debts[k], d)
    requires CanRepayOne(sha, db, debtor, cycle, AfterRepayment(d, left, now), Effective(d, left))
    ensures var after := RepayOne(sha, db, debtor, cycle, AfterRepayment(d, left, now), Effective(d, left)).t;
      && FundBase(after) && FundGrows(db.t, after) && after.funds.Keys == db.t.funds.Keys
      && after.debts == UpdateDebt(db.t.debts, AfterRepayment(d, left, now))
      && forall g | g in db.t.funds :: Gap(after, g) ==
           Gap(db.t, g) - (if d.groupId == g then d.remainingAmountMinor - OwedNow(db.t.debts, d.id) else 0)
  {
    hide NewRow, Family, Payload, RepayKey, HasKey, FundOk, FundsReplay, Gap, OwedNow, AdvancesKnown;
    var t := db.t;
    var a := AfterRepayment(d, left, now);
    var eff := Effective(d, left);
    var row := NewRow(sha, t.ledger, db.nextVal, RepayEntry(debtor, cycle, a, eff));
    var one := t.(ledger := t.ledger + [row]);
    assert DebtRowOk(t, t.debts[k]);
    var after := RepayOne(sha, db, debtor, cycle, a, eff).t;
    MoveKeepsReplay(t, after, FundMove(d.groupId, RepaymentMove, eff, Row(db.nextVal)));
    AdvanceRowKnown(t, one, row);
    assert after.debts == UpdateDebt(t.debts, a);
    DebtOverwritten(one, after, a, k);
    OwedNowIsTheRow(t.debts, k);
    forall g | g in t.funds
      ensures Gap(after, g) == Gap(t, g) -
        (if d.groupId == g then d.remainingAmountMinor - OwedNow(t.debts, d.id) else 0)
    {
      GapAfterRow(t, one, row, g);
      RepaidGap(one, after, a, k, g, eff);
    }
  }

  lemma DebtOverwritten(t: Tables, after: Tables, d: DebtRow, k: nat)
    requires DebtsOk(t) && AdvancesKnown(t) && CanUpdateDebt(t.debts, d) && k < |t.debts| && SameDebt(t.debts[k], d)
    requires d.IsActive() ==> d.remainingAmountMinor != 0
    requires after.cycles == t.cycles && after.ledger == t.ledger && after.funds.Keys == t.funds.Keys
    requires after.debts == UpdateDebt(t.debts, d)
    ensures DebtsOk(after) && AdvancesKnown(after) && FundGrows(t, after)
  {
    forall i | 0 <= i < |t.debts| ensures DebtRowOk(after, after.debts[i]) && SameDebt(t.debts[i], after.debts[i])
    {
      assert DebtRowOk(t, t.debts[i]);
    }
    assert forall i | 0 <= i < |t.ledger| :: AdvanceKnown(t, t.ledger[i]);
  }

  lemma RepaidGap(t: Tables, after: Tables, d: DebtRow, k: nat, g: Uuid, repaid: int)
    requires DebtsOk(t) && k < |t.debts| && SameDebt(t.debts[k], d) && g in t.funds && d.groupId in t.funds
    requires after.cycles == t.cycles && after.ledger == t.ledger && after.debts == UpdateDebt(t.debts, d)
    requires after.funds == t.funds[d.groupId := AfterFundRepayment(t.funds[d.groupId], repaid)]
    ensures Gap(after, g) == Gap(t, g) -
      (if d.groupId == g then d.remainingAmountMinor + repaid - t.debts[k].remainingAmountMinor else 0)
  {
    hide Family;
    OwedAfterUpdate(t.debts, d, k, g);
  }

  lemma DebtsReadTail(table: seq<DebtRow>, debts: seq<DebtRow>, d: DebtRow)
    requires DebtsRead(table, debts) && debts != []
    ensures DebtsRead(UpdateDebt(table, d), debts[1..])
  {
    var after := UpdateDebt(table, d);
    forall i | 0 <= i < |debts[1..]|
      ensures HasRow(after, debts[1..][i])
    {
      assert HasRow(table, debts[i + 1]);
      var k :| 0 <= k < |table| && SameDebt(table[k], debts[i + 1]);
      assert SameDebt(after[k], debts[1..][i]);
    }
  }

  lemma FirstRead(table: seq<DebtRow>, debts: seq<DebtRow>) returns (k: nat)
    requires DebtsRead(table, debts) && debts != []
    ensures k < |table| && SameDebt(table[k], debts[0])
    ensures forall i | 0 <= i < |debts[1..]| :: debts[1..][i].id != debts[0].id
  {
    assert HasRow(table, debts[0]);
    k :| 0 <= k < |table| && SameDebt(table[k], debts[0]);
  }

  /** One turn, seen from the rest of the loop: it takes its share of the drift out of the gap. */
  lemma RepayTurn(sha: Digest, db: Db, debtor: Uuid, cycle: Uuid, debts: seq<DebtRow>, left: int, now: int)
    requires FundBase(db.t) && DebtsRead(db.t.debts, debts) && debts != [] && left != 0
    requires CanRepayOne(sha, db, debtor, cycle, AfterRepayment(debts[0], left, now), Effective(debts[0], left))
    ensures var one := RepayOne(sha, db, debtor, cycle, AfterRepayment(debts[0], left, now),
      Effective(debts[0], left)).t;
      && FundBase(one) && FundGrows(db.t, one) && one.funds.Keys == db.t.funds.Keys && DebtsRead(one.debts, debts[1..])
      && forall g | g in db.t.funds ::
           Gap(one, g) - Drift(one.debts, debts[1..], left - Effective(debts[0], left), g)
             == Gap(db.t, g) - Drift(db.t.debts, debts, left, g)
  {
    hide FundBase, FundGrows, Gap, RepayOne, CanRepayOne, OwedNow, Effective, DebtsRead, SameDebt;
    var a := AfterRepayment(debts[0], left, now);
    var k := FirstRead(db.t.debts, debts);
    RepayOneKeepsFund(sha, db, debtor, cycle, debts[0], left, now, k);
    DebtsReadTail(db.t.debts, debts, a);
    DriftsOfOthers(db.t, a, debts[1..], left - Effective(debts[0], left));
  }

  /** The whole loop: if every statement passes, the gap of each fund has moved by the drift of its touched debts. */
  lemma {:induction false} RepayLoopDrift(sha: Digest, db: Db, debtor: Uuid, cycle: Uuid, debts: seq<DebtRow>,
                                          left: int, now: int)
    requires FundBase(db.t) && DebtsRead(db.t.debts, debts)
    ensures var (after, ok) := RepayLoop(sha, db, debtor, cycle, debts, left, now);
      ok ==>
        && FundBase(after.t) && FundGrows(db.t, after.t) && after.t.funds.Keys == db.t.funds.Keys
        && forall g | g in db.t.funds :: Gap(after.t, g) == Gap(db.t, g) - Drift(db.t.debts, debts, left, g)
    decreases |debts|
  {
    hide FundBase, FundGrows, Gap, RepayOne, CanRepayOne, OwedNow, Effective, AfterRepayment, DebtsRead;
    if debts == [] || left == 0 {
      FundGrowsSelf(db.t);
    } else {
      var a := AfterRepayment(debts[0], left, now);
      var eff := Effective(debts[0], left);
      if CanRepayOne(sha, db, debtor, cycle, a, eff) {
        var one := RepayOne(sha, db, debtor, cycle, a, eff);
        RepayTurn(sha, db, debtor, cycle, debts, left, now);
        RepayLoopDrift(sha, one, debtor, cycle, debts[1..], left - eff, now);
        var rest := RepayLoop(sha, one, debtor, cycle, debts[1..], left - eff, now);
        if rest.1 {
          DebtsGrowTransitive(db.t, one.t, rest.0.t);
        }
      }
    }
  }

  lemma DriftsOfOthers(t: Tables, d: DebtRow, debts: seq<DebtRow>, left: int)
    requires forall i | 0 <= i < |debts| :: debts[i].id != d.id
    ensures forall g | g in t.funds :: Drift(UpdateDebt(t.debts, d), debts, left, g) == Drift(t.debts, debts, left, g)
  {
    forall g | g in t.funds
      ensures Drift(UpdateDebt(t.debts, d), debts, left, g) == Drift(t.debts, debts, left, g)
    {
      DriftOfOthers(t.debts, d, debts, left, g);
    }
  }

  lemma FundGrowsSelf(t: Tables)
    ensures FundGrows(t, t)
  {
  }

  lemma DebtsGrowTransitive(a: Tables, b: Tables, c: Tables)
    requires FundGrows(a, b) && FundGrows(b, c)
    ensures FundGrows(a, c)
  {
    forall i | 0 <= i < |a.debts| ensures SameDebt(a.debts[i], c.debts[i])
    {
      assert SameDebt(a.debts[i], b.debts[i]) && SameDebt(b.debts[i], c.debts[i]);
    }
  }
}
