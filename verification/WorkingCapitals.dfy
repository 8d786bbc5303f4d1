/** The working-capital fund: advances, reservations, the pro-rata rule and the policy that chooses among them. */
module WorkingCapitals {
  import opened Wrappers

  datatype AdvanceDecision =
    | NotNeeded
    | Advance(advanceMinor: int, remainingGapMinor: int, coversFully: bool)
    | InsufficientFunds(gapMinor: int)

  function ComputeAdvance(available: int, collected: int, threshold: int): AdvanceDecision
  {
    if collected >= threshold then NotNeeded
    else
      var gap := threshold - collected;
      if available == 0 then InsufficientFunds(gap)
      else
        var advance := Min(gap, available);
        Advance(advance, gap - advance, advance == gap)
  }

  /** The advance is the largest amount within both the gap and the availability, and covers fully iff the fund does. */
  lemma AdvanceIsLargest(available: int, collected: int, threshold: int, other: int)
    requires collected < threshold && available >= 0
    ensures var d := ComputeAdvance(available, collected, threshold);
      && (d.InsufficientFunds? <==> available == 0)
      && (d.Advance? ==>
            && 0 < d.advanceMinor <= threshold - collected && d.advanceMinor <= available
            && (other <= threshold - collected && other <= available ==> other <= d.advanceMinor)
            && collected + d.advanceMinor + d.remainingGapMinor == threshold
            && (d.coversFully <==> available >= threshold - collected))
  {
  }

  datatype ProRata = ProRata(distributableMinor: int, fractionPct: int, shortfallMinor: int)

  /** Rust's integer division, which truncates toward zero. */
  function TruncDiv(a: int, b: int): int
    requires b != 0
  {
    if a >= 0 then a / b else -((-a) / b)
  }

  /** `ProRataDecision::compute`: the product in 64 wrapping bits, the percentage cast to eight unsigned ones. */
  function ComputeProRata(collected: int, threshold: int): Option<ProRata>
  {
    if threshold == 0 || collected <= 0 then None
    else
      var shortfall := threshold - collected;
      var share := TruncDiv(WrapI64(collected * 100), threshold);
      Some(ProRata(collected, Min(share, 100) % 256, if shortfall > 0 then shortfall else 0))
  }

  /** The collected share in percent, rounded down, of a threshold that was missed. */
  predicate IsShare(percentage: int, collected: int, threshold: int)
  {
    0 <= percentage < 100 && percentage * threshold <= collected * 100 < (percentage + 1) * threshold
  }

  /**
   Below a threshold the percentage is the floor of the collected share exactly when the collected amount is at
   most a hundredth of the 64-bit range; what is distributed and what is missing always add up to the threshold.
   */
  lemma ProRataIsFloor(collected: int, threshold: int)
    requires 0 < collected < threshold <= MAX_I64
    ensures var d := ComputeProRata(collected, threshold);
      && d.Some? && d.value.distributableMinor == collected
      && collected + d.value.shortfallMinor == threshold
      && (IsShare(d.value.fractionPct, collected, threshold) <==> collected <= MAX_I64 / 100)
  {
    hide TruncDiv, WrapI64;
    if collected <= MAX_I64 / 100 {
      WrapsAround(collected * 100, 0);
      ShareIsFloor(collected, threshold);
    } else {
      WrappedShareIsWrong(collected, threshold);
    }
  }

  /**
   From the threshold on, the percentage is 100 exactly when the wrapped product reaches it, or by the luck of the
   cast.
   */
  lemma ProRataIsFullIff(collected: int, threshold: int)
    requires 0 < threshold <= collected <= MAX_I64
    ensures var d := ComputeProRata(collected, threshold);
      var product := WrapI64(collected * 100);
      && d.Some? && d.value.distributableMinor == collected && d.value.shortfallMinor == 0
      && (collected <= MAX_I64 / 100 ==> product >= 100 * threshold)
      && (d.value.fractionPct == 100 <==> product >= 100 * threshold || TruncDiv(product, threshold) % 256 == 100)
  {
    hide TruncDiv, WrapI64;
    var product := WrapI64(collected * 100);
    if collected <= MAX_I64 / 100 {
      WrapsAround(collected * 100, 0);
    }
    if product >= 0 {
      TruncDivCompares(product, threshold, 100);
    } else {
      TruncDivOfNegative(product, threshold);
    }
  }

  /** Legal amounts: 93 of 100 million billion are reported as 165 percent. */
  lemma NinetyThreePercentReadsAs165()
    ensures ComputeProRata(93_000_000_000_000_000, 100_000_000_000_000_000).value.fractionPct == 165
  {
    hide WrapI64;
    WrapsAround(93_000_000_000_000_000 * 100, 1);
  }

  lemma ShareIsFloor(collected: int, threshold: int)
    requires 0 < collected < threshold
    ensures IsShare(TruncDiv(collected * 100, threshold), collected, threshold)
  {
    hide TruncDiv;
    TruncDivIsFloor(collected * 100, threshold);
    TruncDivCompares(collected * 100, threshold, 100);
  }

  /**
   A product that left the range comes back too small or negative: the quotient is below the share, the cast above
   100.
   */
  lemma WrappedShareIsWrong(collected: int, threshold: int)
    requires MAX_I64 / 100 < collected < threshold <= MAX_I64
    ensures !IsShare(Min(TruncDiv(WrapI64(collected * 100), threshold), 100) % 256, collected, threshold)
  {
    hide TruncDiv;
    var product := WrapI64(collected * 100);
    assert product <= collected * 100 - 0x1_0000_0000_0000_0000;
    var q := TruncDiv(product, threshold);
    if product >= 0 {
      TruncDivIsFloor(product, threshold);
      TooSmallAShare(collected, threshold, product, q);
    } else {
      TruncDivOfNegative(product, threshold);
      assert -100 <= q <= 0 by { NegativeQuotient(product, threshold, q); }
      if q == 0 {
        TooSmallAShare(collected, threshold, product, q);
      }
    }
  }

  /** A quotient of something at least a whole threshold smaller is not the share. */
  lemma TooSmallAShare(collected: int, threshold: int, product: int, q: int)
    requires 0 < threshold <= MAX_I64 < collected * 100
    requires product <= collected * 100 - 0x1_0000_0000_0000_0000
    requires q == 0 || (q > 0 && q * threshold <= product)
    ensures !IsShare(Min(q, 100) % 256, collected, threshold)
  {
    var p := Min(q, 100) % 256;
    assert 0 <= p <= q;
    MultipliesUp(p + 1, q + 1, threshold);
    assert (q + 1) * threshold == q * threshold + threshold;
  }

  lemma TruncDivIsFloor(a: int, b: int)
    requires a >= 0 && b > 0
    ensures 0 <= TruncDiv(a, b) && TruncDiv(a, b) * b <= a < (TruncDiv(a, b) + 1) * b
  {
    assert a == a / b * b + a % b;
  }

  lemma TruncDivCompares(a: int, b: int, k: int)
    requires a >= 0 && b > 0
    ensures TruncDiv(a, b) >= k <==> a >= k * b
  {
    hide TruncDiv;
    TruncDivIsFloor(a, b);
    var q := TruncDiv(a, b);
    if q >= k {
      MultipliesUp(k, q, b);
    } else {
      MultipliesUp(q + 1, k, b);
    }
  }

  lemma TruncDivOfNegative(a: int, b: int)
    requires a < 0 && b > 0
    ensures TruncDiv(a, b) <= 0 && -TruncDiv(a, b) * b <= -a
  {
    assert -a == (-a) / b * b + (-a) % b;
  }

  /** The quotient of a wrapped product by a large threshold stays above -100. */
  lemma NegativeQuotient(product: int, threshold: int, q: int)
    requires -0x8000_0000_0000_0000 <= product < 0 && threshold > MAX_I64 / 100 + 1
    requires q <= 0 && -q * threshold <= -product
    ensures -100 <= q
  {
    if -q > 100 {
      MultipliesUp(101, -q, threshold);
    }
  }

  lemma MultipliesUp(m: int, n: int, b: int)
    requires m <= n && b > 0
    ensures m * b <= n * b
  {
  }

  datatype ResiliencePolicy = WaitForThreshold | UseWorkingCapital | ProRataOnly | WorkingCapitalThenProRata

  /** What a resilience evaluation decides to do, before any transaction. */
  datatype Plan =
    | ThresholdAlreadyMet
    | PlanFullAdvance(advanceMinor: int)
    | PlanProRata(decision: ProRata)
    | PlanHybrid(advanceMinor: int, totalDistributable: int)
    | PlanBlocked(reason: string)

  function TryFullAdvance(available: int, collected: int, threshold: int): Plan
  {
    match ComputeAdvance(available, collected, threshold)
    case Advance(advance, _, true) => PlanFullAdvance(advance)
    case _ => PlanBlocked("insufficient_working_capital_for_full_advance")
  }

  function ApplyProRata(collected: int, threshold: int): Plan
  {
    match ComputeProRata(collected, threshold)
    case None => PlanBlocked("nothing_collected_for_pro_rata")
    case Some(d) => PlanProRata(d)
  }

  /** The policy on a committed cycle whose payout has not been sent. */
  function Decide(policy: ResiliencePolicy, available: int, collected: int, threshold: int): Plan
  {
    if collected >= threshold then ThresholdAlreadyMet
    else
      match policy
      case WaitForThreshold => PlanBlocked("policy_wait_for_threshold")
      case UseWorkingCapital => TryFullAdvance(available, collected, threshold)
      case ProRataOnly => ApplyProRata(collected, threshold)
      case WorkingCapitalThenProRata =>
        match ComputeAdvance(available, collected, threshold)
        case NotNeeded => ThresholdAlreadyMet
        case Advance(advance, _, full) =>
          if full then TryFullAdvance(available, collected, threshold)
          else PlanHybrid(advance, collected + advance)
        case InsufficientFunds(_) => ApplyProRata(collected, threshold)
  }

  /** What the beneficiary can be paid under a plan. */
  function Payable(p: Plan, threshold: int): int
  {
    match p
    case PlanFullAdvance(_) => threshold
    case PlanProRata(d) => d.distributableMinor
    case PlanHybrid(_, total) => total
    case _ => 0
  }

  /**
   Under `WorkingCapitalThenProRata` every branch pays min(threshold, collected + available), and the
   policy blocks exactly when that is zero.
   */
  lemma HybridPolicyPaysTheMost(available: int, collected: int, threshold: int)
    requires 0 <= collected < threshold && available >= 0
    ensures var p := Decide(WorkingCapitalThenProRata, available, collected, threshold);
      && Payable(p, threshold) == Min(threshold, collected + available)
      && (p.PlanBlocked? <==> Min(threshold, collected + available) <= 0)
      && (p.PlanFullAdvance? <==> collected + available >= threshold)
      && (p.PlanFullAdvance? ==> p.advanceMinor == threshold - collected)
      && (p.PlanHybrid? ==>
            0 < p.advanceMinor == available && p.totalDistributable == collected + available < threshold)
  {
    AdvanceIsLargest(available, collected, threshold, 0);
  }

  /**
   What each policy does, exactly. To wait is to pay nothing. The fund alone pays the threshold or nothing. Pro rata
   pays what was collected and never lends. Together they pay as much as there is, and lend no more than is missing.
   */
  lemma PolicyExactly(policy: ResiliencePolicy, available: int, collected: int, threshold: int)
    requires collected >= 0 && available >= 0
    ensures var p := Decide(policy, available, collected, threshold);
      var missing := threshold - collected;
      && (p.ThresholdAlreadyMet? <==> missing <= 0)
      && (missing > 0 ==>
            match policy
            case WaitForThreshold => p == PlanBlocked("policy_wait_for_threshold")
            case UseWorkingCapital => if available >= missing then p == PlanFullAdvance(missing) else p.PlanBlocked?
            case ProRataOnly => if collected > 0 then PaysProRata(p, collected, threshold) else p.PlanBlocked?
            case WorkingCapitalThenProRata =>
              if available >= missing then p == PlanFullAdvance(missing)
              else if available > 0 then p == PlanHybrid(available, collected + available)
              else if collected > 0 then PaysProRata(p, collected, threshold)
              else p.PlanBlocked?)
      && (missing > 0 ==>
            match policy
            case WaitForThreshold => Payable(p, threshold) == 0
            case UseWorkingCapital =>
              Payable(p, threshold) == if collected + available >= threshold then threshold else 0
            case ProRataOnly => Payable(p, threshold) == collected
            case WorkingCapitalThenProRata => Payable(p, threshold) == Min(threshold, collected + available))
  {
    hide ComputeProRata;
    if collected > 0 && collected < threshold {
      ProRataPays(collected, threshold);
    } else if collected == 0 {
      NothingToShare(threshold);
    }
    if collected < threshold {
      AdvanceIsLargest(available, collected, threshold, 0);
    }
  }

  /** What was collected is paid out, and what is missing is named. */
  predicate PaysProRata(p: Plan, collected: int, threshold: int)
  {
    && p.PlanProRata? && ComputeProRata(collected, threshold) == Some(p.decision)
    && p.decision.distributableMinor == collected && p.decision.shortfallMinor == threshold - collected
  }

  lemma ProRataPays(collected: int, threshold: int)
    requires 0 < collected < threshold
    ensures var d := ComputeProRata(collected, threshold);
      d.Some? && d.value.distributableMinor == collected && d.value.shortfallMinor == threshold - collected
  {
    hide TruncDiv, WrapI64;
  }

  lemma NothingToShare(threshold: int)
    ensures ComputeProRata(0, threshold) == None
  {
  }

  /** No policy ever pays more than the collected money and the available fund together, or more than the threshold. */
  lemma NoPolicyOverpays(policy: ResiliencePolicy, available: int, collected: int, threshold: int)
    requires 0 <= collected < threshold && available >= 0
    ensures 0 <= Payable(Decide(policy, available, collected, threshold), threshold)
              <= Min(threshold, collected + available)
  {
    AdvanceIsLargest(available, collected, threshold, 0);
  }

  /** The in-memory fund. */
  class WorkingCapital {
    var balanceMinor: int
    var reservedMinor: int

    ghost predicate Valid()
      reads this
    {
      0 <= reservedMinor <= balanceMinor
    }

    constructor (balance: int, reserved: int)
      ensures balanceMinor == balance && reservedMinor == reserved
    {
      balanceMinor, reservedMinor := balance, reserved;
    }

    function AvailableMinor(): int
      reads this
    {
      balanceMinor - reservedMinor
    }

    /** Reserves exactly when the amount is positive and available. */
    method ReserveAdvance(amount: int) returns (ok: bool)
      modifies this`reservedMinor
      ensures ok <==> 0 < amount <= old(AvailableMinor())
      ensures reservedMinor == old(reservedMinor) + (if ok then amount else 0)
      ensures old(Valid()) ==> Valid()
    {
      if amount <= 0 {
        return false;
      }
      if AvailableMinor() < amount {
        return false;
      }
      reservedMinor := reservedMinor + amount;
      ok := true;
    }

    /** Debits a reserved amount; what is available does not change. */
    method ConfirmAdvance(amount: int) returns (ok: bool)
      modifies this
      ensures ok <==> amount <= old(reservedMinor)
      ensures balanceMinor == old(balanceMinor) - (if ok then amount else 0)
      ensures AvailableMinor() == old(AvailableMinor())
      ensures old(Valid()) ==> Valid()
    {
      if reservedMinor < amount {
        return false;
      }
      reservedMinor := reservedMinor - amount;
      balanceMinor := balanceMinor - amount;
      ok := true;
    }

    method CancelAdvanceReservation(amount: int)
      modifies this`reservedMinor
      ensures reservedMinor == if old(reservedMinor) - amount > 0 then old(reservedMinor) - amount else 0
      ensures old(Valid()) && amount >= 0 ==> Valid()
    {
      var left := reservedMinor - amount;
      reservedMinor := if left > 0 then left else 0;
    }

    /** The money is available at once, reservations stay covered, and nothing else can break them. */
    method ReceiveRepayment(amount: int)
      modifies this`balanceMinor
      ensures AvailableMinor() == old(AvailableMinor()) + amount
      ensures old(Valid()) && amount >= 0 ==> Valid()
      ensures old(Valid()) ==> (Valid() <==> amount >= -old(AvailableMinor()))
    {
      balanceMinor := balanceMinor + amount;
    }

    /** The same for a deposit. */
    method Deposit(amount: int)
      modifies this`balanceMinor
      ensures AvailableMinor() == old(AvailableMinor()) + amount
      ensures old(Valid()) && amount >= 0 ==> Valid()
      ensures old(Valid()) ==> (Valid() <==> amount >= -old(AvailableMinor()))
    {
      balanceMinor := balanceMinor + amount;
    }

    /** An advance that is repaid in full leaves the fund as it was, and can be made again. */
    method AdvanceAndGetBack(amount: int) returns (ok: bool)
      requires Valid()
      modifies this
      ensures Valid() && (ok <==> 0 < amount <= old(AvailableMinor()))
      ensures balanceMinor == old(balanceMinor) && reservedMinor == old(reservedMinor)
      ensures ok ==> 0 < amount <= AvailableMinor()
    {
      ok := ReserveThenConfirm(amount);
      if ok {
        ReceiveRepayment(amount);
      }
    }

    /** Reserving and then confirming debits the fund once and leaves the earlier reservations alone. */
    method ReserveThenConfirm(amount: int) returns (ok: bool)
      requires Valid()
      modifies this
      ensures Valid() && (ok <==> 0 < amount <= old(AvailableMinor()))
      ensures reservedMinor == old(reservedMinor)
      ensures balanceMinor == old(balanceMinor) - (if ok then amount else 0)
    {
      ok := ReserveAdvance(amount);
      if ok {
        ok := ConfirmAdvance(amount);
      }
    }
  }
}
