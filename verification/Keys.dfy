/** Idempotency keys: one family per kind of event, told apart by the text before the first colon. */
module Keys {
  import opened Text
  import opened Ids

  function ContribKey(txRef: string): string { "contrib" + ":" + txRef }
  function QuarantineKey(txRef: string): string { "quarantine" + ":" + txRef }
  function PayoutKey(group: Uuid, cycle: Uuid, number: int): string
  {
    "payout" + ":" + (group + ":" + (cycle + ":" + Dec(number)))
  }
  function ConfirmKey(externalRef: string): string { "payout-confirm" + ":" + externalRef }
  function FailKey(externalRef: string): string { "payout-failed" + ":" + externalRef }
  function AdvanceKey(cycle: Uuid, amount: int): string { "advance" + ":" + (cycle + ":" + Dec(amount)) }
  function ProRataKey(cycle: Uuid, amount: int): string { "prorata" + ":" + (cycle + ":" + Dec(amount)) }
  function HybridKey(cycle: Uuid, amount: int): string { "hybrid" + ":" + (cycle + ":" + Dec(amount)) }
  function DebtKey(debt: Uuid): string { "debt" + ":" + ("DebtId(" + debt + ")") }
  function RepayKey(debt: Uuid, amount: int): string { "repay" + ":" + ("DebtId(" + debt + ")" + ":" + Dec(amount)) }

  /** Every key names its family, whatever follows. */
  lemma Families(r: string, g: Uuid, c: Uuid, n: int)
    ensures Family(ContribKey(r)) == "contrib" && Family(QuarantineKey(r)) == "quarantine"
    ensures Family(PayoutKey(g, c, n)) == "payout"
    ensures Family(ConfirmKey(r)) == "payout-confirm" && Family(FailKey(r)) == "payout-failed"
    ensures Family(AdvanceKey(c, n)) == "advance" && Family(ProRataKey(c, n)) == "prorata"
    ensures Family(HybridKey(c, n)) == "hybrid"
    ensures Family(DebtKey(c)) == "debt" && Family(RepayKey(c, n)) == "repay"
  {
    FamilyOfJoin("contrib", r);
    FamilyOfJoin("quarantine", r);
    FamilyOfJoin("payout", g + ":" + (c + ":" + Dec(n)));
    FamilyOfJoin("payout-confirm", r);
    FamilyOfJoin("payout-failed", r);
    FamilyOfJoin("advance", c + ":" + Dec(n));
    FamilyOfJoin("prorata", c + ":" + Dec(n));
    FamilyOfJoin("hybrid", c + ":" + Dec(n));
    FamilyOfJoin("debt", "DebtId(" + c + ")");
    FamilyOfJoin("repay", "DebtId(" + c + ")" + ":" + Dec(n));
  }

  /** Payout keys of different cycles differ. */
  lemma PayoutKeyInjective(g: Uuid, c: Uuid, n: int, g': Uuid, c': Uuid, n': int)
    requires PayoutKey(g, c, n) == PayoutKey(g', c', n')
    ensures g == g' && c == c' && n == n'
  {
    ColonSplit("payout", "payout", g + ":" + (c + ":" + Dec(n)), g' + ":" + (c' + ":" + Dec(n')));
    ColonSplit(g, g', c + ":" + Dec(n), c' + ":" + Dec(n'));
    ColonSplit(c, c', Dec(n), Dec(n'));
    DecInjective(n, n');
  }

  /** Keys built from different references differ, in each of the four reference families. */
  lemma ReferenceKeysInjective(r: string, s: string)
    requires ContribKey(r) == ContribKey(s) || QuarantineKey(r) == QuarantineKey(s)
          || ConfirmKey(r) == ConfirmKey(s) || FailKey(r) == FailKey(s)
    ensures r == s
  {
    if ContribKey(r) == ContribKey(s) {
      ColonSplit("contrib", "contrib", r, s);
    } else if QuarantineKey(r) == QuarantineKey(s) {
      ColonSplit("quarantine", "quarantine", r, s);
    } else if ConfirmKey(r) == ConfirmKey(s) {
      ColonSplit("payout-confirm", "payout-confirm", r, s);
    } else {
      ColonSplit("payout-failed", "payout-failed", r, s);
    }
  }

  /** Repayments of different debts, or of different amounts, have different keys; equal instalments share one. */
  lemma RepayKeyInjective(d: Uuid, n: int, d': Uuid, n': int)
    ensures RepayKey(d, n) == RepayKey(d', n') <==> d == d' && n == n'
  {
    if RepayKey(d, n) == RepayKey(d', n') {
      var a, a' := "DebtId(" + d + ")", "DebtId(" + d' + ")";
      ColonSplit("repay", "repay", a + ":" + Dec(n), a' + ":" + Dec(n'));
      ColonSplit(a, a', Dec(n), Dec(n'));
      assert a[7..43] == d && a'[7..43] == d';
      DecInjective(n, n');
    }
  }

  /** Advances, pro-rata dispatches and hybrid payouts are told apart by cycle and amount, and debts by their id. */
  lemma AmountKeysInjective(c: Uuid, n: int, c': Uuid, n': int)
    ensures AdvanceKey(c, n) == AdvanceKey(c', n') <==> c == c' && n == n'
    ensures ProRataKey(c, n) == ProRataKey(c', n') <==> c == c' && n == n'
    ensures HybridKey(c, n) == HybridKey(c', n') <==> c == c' && n == n'
    ensures DebtKey(c) == DebtKey(c') <==> c == c'
  {
    if AdvanceKey(c, n) == AdvanceKey(c', n') {
      ColonSplit("advance", "advance", c + ":" + Dec(n), c' + ":" + Dec(n'));
      CycleAndAmount(c, n, c', n');
    }
    if ProRataKey(c, n) == ProRataKey(c', n') {
      ColonSplit("prorata", "prorata", c + ":" + Dec(n), c' + ":" + Dec(n'));
      CycleAndAmount(c, n, c', n');
    }
    if HybridKey(c, n) == HybridKey(c', n') {
      ColonSplit("hybrid", "hybrid", c + ":" + Dec(n), c' + ":" + Dec(n'));
      CycleAndAmount(c, n, c', n');
    }
    if DebtKey(c) == DebtKey(c') {
      var a, a' := "DebtId(" + c + ")", "DebtId(" + c' + ")";
      ColonSplit("debt", "debt", a, a');
      assert a[7..43] == c && a'[7..43] == c';
    }
  }

  lemma CycleAndAmount(c: Uuid, n: int, c': Uuid, n': int)
    requires c + ":" + Dec(n) == c' + ":" + Dec(n')
    ensures c == c' && n == n'
  {
    ColonSplit(c, c', Dec(n), Dec(n'));
    DecInjective(n, n');
  }
}
