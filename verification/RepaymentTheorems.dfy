/** A late repayment is the waterfall, in the table of debts and in the fund. */
module RepaymentTheorems {
  import opened Wrappers
  import opened Sums
  import opened Ids
  import opened Text
  import opened Keys
  import opened Ledger
  import opened LedgerTable
  import opened Debts
  import opened Database
  import opened Settlement
  import opened FundConservation
  import opened FundTheorems

  ghost predicate Mentions(debts: seq<DebtRow>, id: Uuid) { exists i | 0 <= i < |debts| :: debts[i].id == id }

  /** The rows named by `debts` are now `out`, and all the others are as they were. */
  ghost predicate Replaced(before: seq<DebtRow>, after: seq<DebtRow>, debts: seq<DebtRow>, out: seq<DebtRow>)
  {
    && |after| == |before|
    && (forall d | d in out :: d in after)
    && (forall d | d in before && !Mentions(debts, d.id) :: d in after)
  }

  /** Every fund is credited with what the debts owed to it have fallen by, and with nothing else. */
  ghost predicate Credited(before: map<Uuid, Fund>, after: map<Uuid, Fund>, debts: seq<DebtRow>, out: seq<DebtRow>)
  {
    after.Keys == before.Keys && forall g | g in before ::
      after[g] == AfterFundRepayment(before[g], Sum(debts, OwedTo(g)) - Sum(out, OwedTo(g)))
  }

  /** The row of a debt that was just read takes the debt's new columns; no other row moves. */
  lemma RowTakesTheDebt(table: seq<DebtRow>, d: DebtRow, left: int, now: int)
    requires DistinctIds(table) && d in table
    ensures var a := AfterRepayment(d, left, now);
      && a in UpdateDebt(table, a) && DistinctIds(UpdateDebt(table, a))
      && forall other | other in table && other.id != d.id :: other in UpdateDebt(table, a)
  {
    var a := AfterRepayment(d, left, now);
    var after := UpdateDebt(table, a);
    var k :| 0 <= k < |table| && table[k] == d;
    assert after[k] == a;
    forall other | other in table && other.id != d.id
      ensures other in after
    {
      var j :| 0 <= j < |table| && table[j] == other;
      assert after[j] == other;
    }
  }

  lemma OneCredit(sha: Digest, db: Db, debtor: Uuid, cycle: Uuid, d: DebtRow, left: int, now: int)
    ensures var one := RepayOne(sha, db, debtor, cycle, AfterRepayment(d, left, now), Effective(d, left));
      && one.t.debts == UpdateDebt(db.t.debts, AfterRepayment(d, left, now))
      && one.t.funds.Keys == db.t.funds.Keys
      && forall g | g in db.t.funds ::
           one.t.funds[g] == AfterFundRepayment(db.t.funds[g], OwedTo(g)(d) - OwedTo(g)(AfterRepayment(d, left, now)))
  {
    hide NewRow, RepayKey, Payload;
  }

  /** The loop over debts that are as they were read leaves the rows of the waterfall and credits what it repaid. */
  lemma {:induction false} LoopIsTheWaterfall(sha: Digest, db: Db, debtor: Uuid, cycle: Uuid, debts: seq<DebtRow>,
                                              left: int, now: int)
    requires DistinctIds(db.t.debts) && DistinctIds(debts) && forall d | d in debts :: d in db.t.debts
    requires RepayLoop(sha, db, debtor, cycle, debts, left, now).1
    ensures var after := RepayLoop(sha, db, debtor, cycle, debts, left, now).0.t;
      var out := Waterfall(debts, left, now);
      Replaced(db.t.debts, after.debts, debts, out) && Credited(db.t.funds, after.funds, debts, out)
    decreases |debts|
  {
    hide RepayOne, CanRepayOne, AfterRepayment, Effective, Replaced, Credited;
    var out := Waterfall(debts, left, now);
    if debts == [] || left == 0 {
      NothingReplaced(db.t, debts);
    } else {
      var d, rest := debts[0], debts[1..];
      var a, eff := AfterRepayment(d, left, now), Effective(d, left);
      var one := RepayOne(sha, db, debtor, cycle, a, eff);
      OneCredit(sha, db, debtor, cycle, d, left, now);
      RowTakesTheDebt(db.t.debts, d, left, now);
      RestIsUntouched(debts);
      LoopIsTheWaterfall(sha, one, debtor, cycle, rest, left - eff, now);
      var after := RepayLoop(sha, db, debtor, cycle, debts, left, now).0.t;
      RepaymentKeepsId(d, left, now);
      FirstThenRest(db.t, one.t, after, debts, a, Waterfall(rest, left - eff, now));
    }
  }

  lemma RepaymentKeepsId(d: DebtRow, left: int, now: int)
    ensures AfterRepayment(d, left, now).id == d.id && AfterRepayment(d, left, now).groupId == d.groupId
  {
  }

  lemma NothingReplaced(t: Tables, debts: seq<DebtRow>)
    requires forall d | d in debts :: d in t.debts
    ensures Replaced(t.debts, t.debts, debts, debts) && Credited(t.funds, t.funds, debts, debts)
  {
  }

  lemma RestIsUntouched(debts: seq<DebtRow>)
    requires DistinctIds(debts) && debts != []
    ensures DistinctIds(debts[1..]) && !Mentions(debts[1..], debts[0].id)
    ensures forall d | d in debts[1..] :: d in debts && d.id != debts[0].id
    ensures forall id :: Mentions(debts, id) <==> id == debts[0].id || Mentions(debts[1..], id)
  {
    var rest := debts[1..];
    forall d | d in rest
      ensures d in debts && d.id != debts[0].id
    {
      var i :| 0 <= i < |rest| && rest[i] == d;
      assert debts[i + 1] == d;
    }
    forall id: Uuid
      ensures Mentions(debts, id) <==> id == debts[0].id || Mentions(rest, id)
    {
      if Mentions(debts, id) && id != debts[0].id {
        var i :| 0 <= i < |debts| && debts[i].id == id;
        assert rest[i - 1].id == id;
      }
      if Mentions(rest, id) {
        var i :| 0 <= i < |rest| && rest[i].id == id;
        assert debts[i + 1].id == id;
      }
    }
  }

  lemma FirstThenRest(t: Tables, one: Tables, after: Tables, debts: seq<DebtRow>, a: DebtRow, tail: seq<DebtRow>)
    requires debts != [] && a.id == debts[0].id
    requires |one.debts| == |t.debts| && a in one.debts && !Mentions(debts[1..], a.id)
    requires forall other | other in t.debts && other.id != a.id :: other in one.debts
    requires forall id :: Mentions(debts, id) <==> id == a.id || Mentions(debts[1..], id)
    requires one.funds.Keys == t.funds.Keys && forall g | g in t.funds ::
      one.funds[g] == AfterFundRepayment(t.funds[g], OwedTo(g)(debts[0]) - OwedTo(g)(a))
    requires Replaced(one.debts, after.debts, debts[1..], tail) && Credited(one.funds, after.funds, debts[1..], tail)
    ensures Replaced(t.debts, after.debts, debts, [a] + tail) && Credited(t.funds, after.funds, debts, [a] + tail)
  {
    hide Mentions;
    forall g | g in t.funds
      ensures Sum(debts, OwedTo(g)) == OwedTo(g)(debts[0]) + Sum(debts[1..], OwedTo(g))
      ensures Sum([a] + tail, OwedTo(g)) == OwedTo(g)(a) + Sum(tail, OwedTo(g))
    {
      SumFront(debts, OwedTo(g));
      SumFront([a] + tail, OwedTo(g));
      assert ([a] + tail)[1..] == tail;
    }
  }

  lemma {:induction false} ActiveDebtsAreActive(table: seq<DebtRow>, debtor: Uuid, cycle: Uuid)
    ensures forall d | d in ActiveDebts(table, debtor, cycle) :: d.IsActive()
  {
    if table != [] {
      ActiveDebtsAreActive(table[..|table| - 1], debtor, cycle);
    }
  }

  /** What is read as active owes something. */
  lemma ActiveDebtsOwe(t: Tables, debtor: Uuid, cycle: Uuid)
    requires DebtsOk(t)
    ensures var debts := ActiveDebts(t.debts, debtor, cycle);
      && DistinctIds(t.debts) && DistinctIds(debts) && (forall d | d in debts :: d in t.debts)
      && forall i | 0 <= i < |debts| :: debts[i].remainingAmountMinor > 0
  {
    var debts := ActiveDebts(t.debts, debtor, cycle);
    assert DistinctIds(t.debts);
    ActiveDebtsAreRows(t.debts, debtor, cycle);
    ActiveDebtsAreActive(t.debts, debtor, cycle);
    forall i | 0 <= i < |debts|
      ensures debts[i].remainingAmountMinor > 0
    {
      assert debts[i] in debts;
      var k :| 0 <= k < |t.debts| && t.debts[k] == debts[i];
      assert DebtRowOk(t, t.debts[k]);
    }
  }

  // --------------------------------------------------------------------------
  // When a repayment goes through
  // --------------------------------------------------------------------------

  /** No debt that the repayment touches has been repaid this very amount before: each instalment's key is new. */
  ghost predicate InstalmentsNew(ledger: seq<LedgerEntry>, debts: seq<DebtRow>, out: seq<DebtRow>)
    requires |debts| == |out|
  {
    forall i | 0 <= i < |debts| && out[i].remainingAmountMinor != debts[i].remainingAmountMinor ::
      !HasKey(ledger, RepayKey(debts[i].id, debts[i].remainingAmountMinor - out[i].remainingAmountMinor))
  }

  ghost function CreditOf(debts: seq<DebtRow>, out: seq<DebtRow>, g: Uuid): int
  {
    Sum(debts, OwedTo(g)) - Sum(out, OwedTo(g))
  }

  /** Every fund's balance and repaid total take their credit within 64 bits. */
  ghost predicate CreditsFit(funds: map<Uuid, Fund>, debts: seq<DebtRow>, out: seq<DebtRow>)
  {
    forall g | g in funds ::
      && funds[g].balanceMinor + CreditOf(debts, out, g) <= MAX_I64
      && funds[g].totalRepaidMinor + CreditOf(debts, out, g) <= MAX_I64
  }

  ghost predicate FundsOk(funds: map<Uuid, Fund>) { forall g | g in funds :: FundOk(funds[g]) }

  /** The debts are rows of the table, each owing something within its original amount. */
  ghost predicate Outstanding(table: seq<DebtRow>, debts: seq<DebtRow>)
  {
    && DistinctIds(table) && DistinctIds(debts)
    && (forall d | d in debts :: d in table)
    && (forall i | 0 <= i < |debts| :: 0 < debts[i].remainingAmountMinor <= debts[i].originalAmountMinor)
  }

  lemma {:induction false} CreditsAreNotNegative(debts: seq<DebtRow>, left: int, now: int, g: Uuid)
    requires left >= 0 && forall i | 0 <= i < |debts| :: debts[i].remainingAmountMinor > 0
    ensures CreditOf(debts, Waterfall(debts, left, now), g) >= 0
  {
    if debts != [] && left != 0 {
      var rest := Waterfall(debts[1..], left - Effective(debts[0], left), now);
      var out := Waterfall(debts, left, now);
      CreditsAreNotNegative(debts[1..], left - Effective(debts[0], left), now, g);
      SumFront(debts, OwedTo(g));
      SumFront(out, OwedTo(g));
      assert out[1..] == rest;
    }
  }

  /**
   The first statement of a turn that can fail is the ledger's key; the second the fund's 64 bits; the debt row never
   is.
   */
  lemma TurnGoesThroughIff(sha: Digest, db: Db, debtor: Uuid, cycle: Uuid, d: DebtRow, left: int, now: int)
    requires DistinctIds(db.t.debts) && d in db.t.debts && FundsOk(db.t.funds)
    requires 0 < d.remainingAmountMinor <= d.originalAmountMinor && left > 0
    ensures CanRepayOne(sha, db, debtor, cycle, AfterRepayment(d, left, now), Effective(d, left)) <==>
      && !HasKey(db.t.ledger, RepayKey(d.id, Effective(d, left)))
      && (d.groupId in db.t.funds ==>
            && db.t.funds[d.groupId].balanceMinor + Effective(d, left) <= MAX_I64
            && db.t.funds[d.groupId].totalRepaidMinor + Effective(d, left) <= MAX_I64)
  {
    hide HasKey, RepayKey;
    assert d.groupId in db.t.funds ==> FundOk(db.t.funds[d.groupId]);
    var k :| 0 <= k < |db.t.debts| && db.t.debts[k] == d;
  }

  /** A turn leaves the keys of all other debts as free as they were, and the funds in order. */
  lemma TurnAffects(sha: Digest, db: Db, debtor: Uuid, cycle: Uuid, d: DebtRow, left: int, now: int)
    requires FundsOk(db.t.funds)
    requires CanRepayOne(sha, db, debtor, cycle, AfterRepayment(d, left, now), Effective(d, left))
    ensures var one := RepayOne(sha, db, debtor, cycle, AfterRepayment(d, left, now), Effective(d, left)).t;
      && FundsOk(one.funds) && HasKey(one.ledger, RepayKey(d.id, Effective(d, left)))
      && forall other: Uuid, n: int | other != d.id ::
           HasKey(one.ledger, RepayKey(other, n)) <==> HasKey(db.t.ledger, RepayKey(other, n))
  {
    hide NewRow, RepayKey, Payload, FundOk, CanUpdateDebt;
    var eff := Effective(d, left);
    var one := RepayOne(sha, db, debtor, cycle, AfterRepayment(d, left, now), eff).t;
    var n := |db.t.ledger|;
    assert one.ledger[n].idempotencyKey == Some(RepayKey(d.id, eff));
    forall other: Uuid, m: int | other != d.id
      ensures HasKey(one.ledger, RepayKey(other, m)) <==> HasKey(db.t.ledger, RepayKey(other, m))
    {
      RepayKeyInjective(d.id, eff, other, m);
      if HasKey(db.t.ledger, RepayKey(other, m)) {
        var i :| 0 <= i < n && db.t.ledger[i].idempotencyKey == Some(RepayKey(other, m));
        assert one.ledger[i] == db.t.ledger[i];
      }
    }
  }

  /** The loop goes through exactly when every instalment is new and every credit fits, all judged before it starts. */
  lemma {:induction false} LoopGoesThroughIff(sha: Digest, db: Db, debtor: Uuid, cycle: Uuid, debts: seq<DebtRow>,
                                              left: int, now: int)
    requires Outstanding(db.t.debts, debts) && FundsOk(db.t.funds) && left >= 0
    ensures var out := Waterfall(debts, left, now);
      RepayLoop(sha, db, debtor, cycle, debts, left, now).1 <==>
        InstalmentsNew(db.t.ledger, debts, out) && CreditsFit(db.t.funds, debts, out)
    decreases |debts|
  {
    hide RepayOne, CanRepayOne, InstalmentsNew, CreditsFit, Outstanding, FundsOk, HasKey;
    if debts == [] || left == 0 {
      NothingToRefuse(db.t, debts);
    } else {
      var d, rest := debts[0], debts[1..];
      var a, eff := AfterRepayment(d, left, now), Effective(d, left);
      assert d in debts;
      HeadOutstanding(db.t.debts, debts);
      TurnGoesThroughIff(sha, db, debtor, cycle, d, left, now);
      var tail := Waterfall(rest, left - eff, now);
      if CanRepayOne(sha, db, debtor, cycle, a, eff) {
        var one := RepayOne(sha, db, debtor, cycle, a, eff);
        TurnAffects(sha, db, debtor, cycle, d, left, now);
        OneCredit(sha, db, debtor, cycle, d, left, now);
        RestOutstanding(db.t.debts, debts, left, now);
        LoopGoesThroughIff(sha, one, debtor, cycle, rest, left - eff, now);
        RestOfTheConditions(db.t, one.t, debts, a, tail);
      } else {
        BrokenAtTheHead(db.t, debts, left, now);
      }
    }
  }

  lemma NothingToRefuse(t: Tables, debts: seq<DebtRow>)
    requires FundsOk(t.funds)
    ensures InstalmentsNew(t.ledger, debts, debts) && CreditsFit(t.funds, debts, debts)
  {
    assert forall g | g in t.funds :: FundOk(t.funds[g]);
  }

  lemma HeadOutstanding(table: seq<DebtRow>, debts: seq<DebtRow>)
    requires Outstanding(table, debts) && debts != []
    ensures DistinctIds(table) && debts[0] in table && 0 < debts[0].remainingAmountMinor <= debts[0].originalAmountMinor
    ensures forall i | 0 <= i < |debts[1..]| :: debts[1..][i].remainingAmountMinor > 0
    ensures forall i | 0 <= i < |debts| :: debts[i].remainingAmountMinor > 0
  {
    assert debts[0] in debts;
  }

  lemma RestOutstanding(table: seq<DebtRow>, debts: seq<DebtRow>, left: int, now: int)
    requires Outstanding(table, debts) && debts != []
    ensures Outstanding(UpdateDebt(table, AfterRepayment(debts[0], left, now)), debts[1..])
    ensures forall i | 0 <= i < |debts[1..]| :: debts[1..][i].id != debts[0].id
  {
    assert debts[0] in debts;
    RowTakesTheDebt(table, debts[0], left, now);
    RestIsUntouched(debts);
    assert forall i | 0 <= i < |debts[1..]| :: debts[1..][i] in debts[1..];
  }

  /** The conditions on all debts are those on the first one, which hold, and those on the rest after it. */
  lemma RestOfTheConditions(t: Tables, one: Tables, debts: seq<DebtRow>, a: DebtRow, tail: seq<DebtRow>)
    requires debts != [] && |tail| == |debts| - 1
    requires a.remainingAmountMinor != debts[0].remainingAmountMinor ==>
      !HasKey(t.ledger, RepayKey(debts[0].id, debts[0].remainingAmountMinor - a.remainingAmountMinor))
    requires forall i | 0 <= i < |debts[1..]| :: debts[1..][i].id != debts[0].id
    requires forall other: Uuid, n: int | other != debts[0].id ::
      HasKey(one.ledger, RepayKey(other, n)) <==> HasKey(t.ledger, RepayKey(other, n))
    requires one.funds.Keys == t.funds.Keys && forall g | g in t.funds ::
      one.funds[g] == AfterFundRepayment(t.funds[g], OwedTo(g)(debts[0]) - OwedTo(g)(a))
    ensures InstalmentsNew(t.ledger, debts, [a] + tail) <==> InstalmentsNew(one.ledger, debts[1..], tail)
    ensures CreditsFit(t.funds, debts, [a] + tail) <==> CreditsFit(one.funds, debts[1..], tail)
  {
    InstalmentsOfTheRest(t.ledger, one.ledger, debts, a, tail);
    forall g | g in t.funds
      ensures CreditOf(debts, [a] + tail, g) == OwedTo(g)(debts[0]) - OwedTo(g)(a) + CreditOf(debts[1..], tail, g)
    {
      CreditFromFront(debts, a, tail, g);
    }
  }

  lemma CreditFromFront(debts: seq<DebtRow>, a: DebtRow, tail: seq<DebtRow>, g: Uuid)
    requires debts != []
    ensures CreditOf(debts, [a] + tail, g) == OwedTo(g)(debts[0]) - OwedTo(g)(a) + CreditOf(debts[1..], tail, g)
  {
    SumFront(debts, OwedTo(g));
    SumFront([a] + tail, OwedTo(g));
    assert ([a] + tail)[1..] == tail;
  }

  lemma InstalmentsOfTheRest(before: seq<LedgerEntry>, after: seq<LedgerEntry>, debts: seq<DebtRow>, a: DebtRow,
                             tail: seq<DebtRow>)
    requires debts != [] && |tail| == |debts| - 1
    requires a.remainingAmountMinor != debts[0].remainingAmountMinor ==>
      !HasKey(before, RepayKey(debts[0].id, debts[0].remainingAmountMinor - a.remainingAmountMinor))
    requires forall i | 0 <= i < |debts[1..]| :: debts[1..][i].id != debts[0].id
    requires forall other: Uuid, n: int | other != debts[0].id ::
      HasKey(after, RepayKey(other, n)) <==> HasKey(before, RepayKey(other, n))
    ensures InstalmentsNew(before, debts, [a] + tail) <==> InstalmentsNew(after, debts[1..], tail)
  {
    hide HasKey, RepayKey;
    var out, rest := [a] + tail, debts[1..];
    if InstalmentsNew(before, debts, out) {
      forall i | 0 <= i < |rest| && tail[i].remainingAmountMinor != rest[i].remainingAmountMinor
        ensures !HasKey(after, RepayKey(rest[i].id, rest[i].remainingAmountMinor - tail[i].remainingAmountMinor))
      {
        assert out[i + 1] == tail[i] && debts[i + 1] == rest[i];
      }
    }
    if InstalmentsNew(after, rest, tail) {
      forall i | 0 <= i < |debts| && out[i].remainingAmountMinor != debts[i].remainingAmountMinor
        ensures !HasKey(before, RepayKey(debts[i].id, debts[i].remainingAmountMinor - out[i].remainingAmountMinor))
      {
        if i > 0 {
          assert out[i] == tail[i - 1] && debts[i] == rest[i - 1];
        }
      }
    }
  }

  /** If the first turn fails, one of the conditions on all the debts fails with it. */
  lemma BrokenAtTheHead(t: Tables, debts: seq<DebtRow>, left: int, now: int)
    requires debts != [] && left > 0 && forall i | 0 <= i < |debts| :: debts[i].remainingAmountMinor > 0
    requires var eff, g := Effective(debts[0], left), debts[0].groupId;
      || HasKey(t.ledger, RepayKey(debts[0].id, eff))
      || (g in t.funds && (t.funds[g].balanceMinor + eff > MAX_I64 || t.funds[g].totalRepaidMinor + eff > MAX_I64))
    ensures var out := Waterfall(debts, left, now);
      !(InstalmentsNew(t.ledger, debts, out) && CreditsFit(t.funds, debts, out))
  {
    hide HasKey, RepayKey, Waterfall, Effective, AfterRepayment;
    var d, eff := debts[0], Effective(debts[0], left);
    var a, tail := AfterRepayment(d, left, now), Waterfall(debts[1..], left - eff, now);
    FirstOfTheWaterfall(debts, left, now);
    if HasKey(t.ledger, RepayKey(d.id, eff)) {
      assert !InstalmentsNew(t.ledger, debts, [a] + tail) by { assert ([a] + tail)[0] == a; }
    } else {
      CreditFromFront(debts, a, tail, d.groupId);
      CreditsAreNotNegative(debts[1..], left - eff, now, d.groupId);
    }
  }

  lemma FirstOfTheWaterfall(debts: seq<DebtRow>, left: int, now: int)
    requires debts != [] && left > 0 && debts[0].remainingAmountMinor > 0
    ensures var eff, a := Effective(debts[0], left), AfterRepayment(debts[0], left, now);
      && Waterfall(debts, left, now) == [a] + Waterfall(debts[1..], left - eff, now)
      && debts[0].remainingAmountMinor - a.remainingAmountMinor == eff > 0 && left - eff >= 0
      && a.groupId == debts[0].groupId
  {
  }

  lemma FundsInOrder(t: Tables)
    requires FundBase(t)
    ensures FundsOk(t.funds)
  {
    hide DebtsOk, AdvancesKnown, FundOk, Moved;
    forall g | g in t.funds
      ensures FundOk(t.funds[g])
    {
      assert Replays(t, g);
    }
  }

  lemma ReadDebtsAreOutstanding(t: Tables, debtor: Uuid, cycle: Uuid)
    requires DebtsOk(t)
    ensures Outstanding(t.debts, ActiveDebts(t.debts, debtor, cycle))
  {
    ActiveDebtsOwe(t, debtor, cycle);
    var debts := ActiveDebts(t.debts, debtor, cycle);
    forall i | 0 <= i < |debts|
      ensures debts[i].remainingAmountMinor <= debts[i].originalAmountMinor
    {
      assert debts[i] in debts;
      var k :| 0 <= k < |t.debts| && t.debts[k] == debts[i];
      assert DebtRowOk(t, t.debts[k]);
    }
  }

  /**
   A late repayment on debts as they are is recorded exactly when every instalment it would write is new and every
   credit fits. Then it pays the member's active debts of the cycle oldest first: it repays exactly min(amount, what
   they owe), clears a prefix of them, reduces at most one more, leaves every other row alone, and credits each fund
   with exactly what the debts owed to it fell by. Otherwise it changes no table.
   */
  lemma RepaymentIsTheWaterfall(sha: Digest, db: Db, debtor: Uuid, cycle: Uuid, amount: int, now: int,
                                after: Db, outcome: Outcome)
    requires FundBase(db.t) && amount >= 0
    requires (after, outcome) == Serve(sha, db, LateRepayment(debtor, cycle, amount, now))
    ensures var debts := ActiveDebts(db.t.debts, debtor, cycle);
      var out := Waterfall(debts, amount, now);
      && (outcome == NothingOwed <==> debts == [])
      && (outcome == RepaymentRecorded <==>
            debts != [] && InstalmentsNew(db.t.ledger, debts, out) && CreditsFit(db.t.funds, debts, out))
      && (outcome == RepaymentRecorded ==>
            && OldestFirst(debts, out, Cleared(debts, amount), now)
            && TotalRemaining(debts) - TotalRemaining(out) == Min(amount, TotalRemaining(debts))
            && Replaced(db.t.debts, after.t.debts, debts, out)
            && Credited(db.t.funds, after.t.funds, debts, out))
      && (outcome != RepaymentRecorded ==> after.t == db.t && outcome in {NothingOwed, Failure})
  {
    hide FundsReplay, AdvancesKnown, RepayLoop, Waterfall, Cleared, ActiveDebts, Replaced, Credited, InstalmentsNew;
    hide CreditsFit, OldestFirst, Outstanding, FundsOk;
    ActiveDebtsOwe(db.t, debtor, cycle);
    ReadDebtsAreOutstanding(db.t, debtor, cycle);
    FundsInOrder(db.t);
    var debts := ActiveDebts(db.t.debts, debtor, cycle);
    WaterfallIsOldestFirst(debts, amount, now);
    WaterfallRepays(debts, amount, now);
    LoopGoesThroughIff(sha, db, debtor, cycle, debts, amount, now);
    if RepayLoop(sha, db, debtor, cycle, debts, amount, now).1 {
      LoopIsTheWaterfall(sha, db, debtor, cycle, debts, amount, now);
    }
  }

  /** Overwriting an active row with an active debt keeps it where it is among the active debts. */
  lemma {:induction false} ActiveAfterUpdate(table: seq<DebtRow>, a: DebtRow, debtor: Uuid, cycle: Uuid)
    requires a.IsActive() && forall i | 0 <= i < |table| && table[i].id == a.id :: table[i].IsActive()
    ensures var before, after := ActiveDebts(table, debtor, cycle), ActiveDebts(UpdateDebt(table, a), debtor, cycle);
      |after| == |before| && forall i | 0 <= i < |before| :: after[i] == Overwritten(before[i], a)
  {
    hide Overwritten, ActiveDebts;
    if table == [] {
      NoneActive(debtor, cycle);
    } else {
      var n := |table| - 1;
      var row := table[n];
      ActiveAfterUpdate(table[..n], a, debtor, cycle);
      assert UpdateDebt(table, a) == UpdateDebt(table[..n], a) + [Overwritten(row, a)] && table == table[..n] + [row];
      StaysActive(row, a, debtor, cycle);
      LastActive(table[..n], row, debtor, cycle);
      LastActive(UpdateDebt(table[..n], a), Overwritten(row, a), debtor, cycle);
    }
  }

  lemma NoneActive(debtor: Uuid, cycle: Uuid)
    ensures ActiveDebts([], debtor, cycle) == []
  {
  }

  lemma LastActive(table: seq<DebtRow>, row: DebtRow, debtor: Uuid, cycle: Uuid)
    ensures ActiveDebts(table + [row], debtor, cycle) == ActiveDebts(table, debtor, cycle)
      + (if row.debtorId == debtor && row.cycleId == cycle && row.IsActive() then [row] else [])
  {
    assert (table + [row])[..|table|] == table;
  }

  lemma StaysActive(row: DebtRow, a: DebtRow, debtor: Uuid, cycle: Uuid)
    requires a.IsActive() && (row.id == a.id ==> row.IsActive())
    ensures var row' := Overwritten(row, a);
      && (row'.IsActive() <==> row.IsActive()) && row'.debtorId == row.debtorId && row'.cycleId == row.cycleId
  {
  }

  /**
   Two equal instalments on one debt: the second is refused, whenever it comes, and changes no table, because its key
   is the first one's. All it takes is that both together do not exceed what the oldest debt owes.
   */
  lemma EqualInstalmentIsRefused(sha: Digest, db: Db, debtor: Uuid, cycle: Uuid, amount: int, now: int,
                                 one: Db, later: int)
    requires FundBase(db.t) && amount > 0 && ActiveDebts(db.t.debts, debtor, cycle) != []
    requires 2 * amount <= ActiveDebts(db.t.debts, debtor, cycle)[0].remainingAmountMinor
    requires (one, RepaymentRecorded) == Serve(sha, db, LateRepayment(debtor, cycle, amount, now))
    ensures Serve(sha, one, LateRepayment(debtor, cycle, amount, later)) == (Burn(one, 1), Failure)
  {
    hide FundsReplay, AdvancesKnown, ActiveDebts, NewRow, RepayKey, Payload, HasKey, FundOk, CanUpdateDebt;
    var debts := ActiveDebts(db.t.debts, debtor, cycle);
    var d := debts[0];
    ActiveDebtsOwe(db.t, debtor, cycle);
    FundsInOrder(db.t);
    assert d in debts;
    var a := AfterRepayment(d, amount, now);
    assert Effective(d, amount) == amount && a.remainingAmountMinor == d.remainingAmountMinor - amount >= amount;
    assert one == RepayOne(sha, db, debtor, cycle, a, amount) by {
      OneTurnOnly(sha, db, debtor, cycle, debts, amount, now);
    }
    TurnAffects(sha, db, debtor, cycle, d, amount, now);
    RowsOfTheDebt(db.t.debts, d);
    ActiveDebtsAreActive(db.t.debts, debtor, cycle);
    ActiveAfterUpdate(db.t.debts, a, debtor, cycle);
    var again := ActiveDebts(one.t.debts, debtor, cycle);
    assert again[0] == a;
    assert AfterRepayment(a, amount, later).id == d.id && Effective(a, amount) == amount;
  }

  /** A repayment below the oldest debt is one turn. */
  lemma OneTurnOnly(sha: Digest, db: Db, debtor: Uuid, cycle: Uuid, debts: seq<DebtRow>, amount: int, now: int)
    requires debts != [] && 0 < amount < debts[0].remainingAmountMinor
    requires CommitRepay(sha, db, debtor, cycle, amount, debts, now).1 == RepaymentRecorded
    ensures CanRepayOne(sha, db, debtor, cycle, AfterRepayment(debts[0], amount, now), amount)
    ensures CommitRepay(sha, db, debtor, cycle, amount, debts, now).0
      == RepayOne(sha, db, debtor, cycle, AfterRepayment(debts[0], amount, now), amount)
  {
    hide CanRepayOne, RepayOne, AfterRepayment;
    var one := RepayOne(sha, db, debtor, cycle, AfterRepayment(debts[0], amount, now), amount);
    assert RepayLoop(sha, one, debtor, cycle, debts[1..], amount - Effective(debts[0], amount), now) == (one, true);
  }

  lemma RowsOfTheDebt(table: seq<DebtRow>, d: DebtRow)
    requires DistinctIds(table) && d in table
    ensures forall i | 0 <= i < |table| && table[i].id == d.id :: table[i] == d
  {
    var k :| 0 <= k < |table| && table[k] == d;
  }

  // --------------------------------------------------------------------------
  // The repayment race
  // --------------------------------------------------------------------------

  /**
   A turn on a debt read some time ago, whose row still has its id: all that can stand in its way is the key or the
   range.
   */
  lemma StaleTurnGoesThrough(sha: Digest, db: Db, debtor: Uuid, cycle: Uuid, d: DebtRow, amount: int, now: int, k: nat)
    requires DistinctIds(db.t.debts) && k < |db.t.debts| && SameDebt(db.t.debts[k], d)
    requires 0 < amount < d.remainingAmountMinor <= d.originalAmountMinor
    requires !HasKey(db.t.ledger, RepayKey(d.id, amount))
    requires d.groupId in db.t.funds && FundOk(AfterFundRepayment(db.t.funds[d.groupId], amount))
    ensures CanRepayOne(sha, db, debtor, cycle, AfterRepayment(d, amount, now), amount)
    ensures CommitRepay(sha, db, debtor, cycle, amount, [d], now)
      == (RepayOne(sha, db, debtor, cycle, AfterRepayment(d, amount, now), amount), RepaymentRecorded)
  {
    hide RepayOne, HasKey, RepayKey, FundOk;
    var a := AfterRepayment(d, amount, now);
    assert Effective(d, amount) == amount && a.id == d.id && a.groupId == d.groupId;
    assert [d][1..] == [];
    var one := RepayOne(sha, db, debtor, cycle, a, amount);
    assert RepayLoop(sha, one, debtor, cycle, [d][1..], 0, now) == (one, true);
  }

  /** The amounts of two repayments of one debt that neither its keys nor the ranges of its fund stop. */
  ghost predicate BothFit(t: Tables, d: DebtRow, first: int, second: int)
  {
    && 0 < first < d.remainingAmountMinor && 0 < second < d.remainingAmountMinor && first != second
    && !HasKey(t.ledger, RepayKey(d.id, first)) && !HasKey(t.ledger, RepayKey(d.id, second))
    && (d.groupId in t.funds ==>
          && t.funds[d.groupId].balanceMinor + first + second <= MAX_I64
          && t.funds[d.groupId].totalRepaidMinor + first + second <= MAX_I64)
  }

  /**
   The repayment race: two repayments of one debt planned from the same read. Both commit, the fund is credited
   with both amounts, but the debt falls by the second alone, and the books are off by the first.
   */
  lemma RacingRepaymentsUnbalance(sha: Digest, db: Db, d: DebtRow, k: nat, first: int, second: int, now: int)
    requires FundBase(db.t) && Balanced(db.t) && k < |db.t.debts| && db.t.debts[k] == d
    requires BothFit(db.t, d, first, second)
    ensures var (one, outcome) := CommitRepay(sha, db, d.debtorId, d.cycleId, first, [d], now);
      var (two, outcome') := CommitRepay(sha, one, d.debtorId, d.cycleId, second, [d], now);
      && outcome == outcome' == RepaymentRecorded
      && d.groupId in two.t.funds && Gap(two.t, d.groupId) == -first
  {
    hide NewRow, RepayKey, HasKey, Gap, AdvancesKnown, Payload, Moved;
    var g := d.groupId;
    assert DebtRowOk(db.t, db.t.debts[k]);
    FundsInOrder(db.t);
    StaleTurnGoesThrough(sha, db, d.debtorId, d.cycleId, d, first, now, k);
    var a := AfterRepayment(d, first, now);
    var one := RepayOne(sha, db, d.debtorId, d.cycleId, a, first);
    TurnAffects(sha, db, d.debtorId, d.cycleId, d, first, now);
    KeyStaysFree(sha, db, d, first, second, now);
    OwedNowIsTheRow(db.t.debts, k);
    RepayOneKeepsFund(sha, db, d.debtorId, d.cycleId, d, first, now, k);
    var row := one.t.debts[k];
    assert row.remainingAmountMinor == d.remainingAmountMinor - first && SameDebt(row, d);
    OwedNowIsTheRow(one.t.debts, k);
    StaleTurnGoesThrough(sha, one, d.debtorId, d.cycleId, d, second, now, k);
    RepayOneKeepsFund(sha, one, d.debtorId, d.cycleId, d, second, now, k);
    assert Gap(db.t, g) == 0;
  }

  lemma KeyStaysFree(sha: Digest, db: Db, d: DebtRow, first: int, second: int, now: int)
    requires first != second && !HasKey(db.t.ledger, RepayKey(d.id, second))
    ensures var one := RepayOne(sha, db, d.debtorId, d.cycleId, AfterRepayment(d, first, now), first).t;
      !HasKey(one.ledger, RepayKey(d.id, second))
  {
    hide NewRow, RepayKey, Payload;
    var one := RepayOne(sha, db, d.debtorId, d.cycleId, AfterRepayment(d, first, now), first).t;
    RepayKeyInjective(d.id, first, d.id, second);
    assert forall i | 0 <= i < |db.t.ledger| :: one.ledger[i] == db.t.ledger[i];
  }

  /** When all the debts are owed to one fund, that fund is credited with min(amount, what they owe). */
  lemma OneFundIsCreditedInFull(before: map<Uuid, Fund>, after: map<Uuid, Fund>, debts: seq<DebtRow>, amount: int,
                                now: int, g: Uuid)
    requires Credited(before, after, debts, Waterfall(debts, amount, now)) && g in before && amount >= 0
    requires forall i | 0 <= i < |debts| :: debts[i].groupId == g && debts[i].remainingAmountMinor > 0
    ensures after[g] == AfterFundRepayment(before[g], Min(amount, TotalRemaining(debts)))
  {
    var out := Waterfall(debts, amount, now);
    WaterfallRepays(debts, amount, now);
    WaterfallKeepsGroups(debts, amount, now);
    SumCong(debts, debts, OwedTo(g), Remaining());
    SumCong(out, out, OwedTo(g), Remaining());
  }

  lemma {:induction false} WaterfallKeepsGroups(debts: seq<DebtRow>, amount: int, now: int)
    ensures forall i | 0 <= i < |debts| :: Waterfall(debts, amount, now)[i].groupId == debts[i].groupId
  {
    if debts != [] && amount != 0 {
      WaterfallKeepsGroups(debts[1..], amount - Effective(debts[0], amount), now);
    }
  }
}
