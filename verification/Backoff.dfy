/** The two back-off formulas, in the widths they are computed in. */
module Backoff {
  import opened Wrappers

  function Pow2(k: nat): nat { if k == 0 then 1 else 2 * Pow2(k - 1) }

  const SECOND: int := 1_000_000_000
  const DAY: int := 86_400 * SECOND

  /** `1 << uint(attempts)` in 64 bits: a negative count converts to a huge one, and everything is shifted out. */
  function Shifted(attempts: int): int
  {
    if 0 <= attempts < 64 then WrapI64(Pow2(attempts)) else 0
  }

  /** The worker's delay, in nanoseconds. */
  function BackoffDuration(attempts: int): int
  {
    var delay := WrapI64(30 * SECOND * Shifted(attempts));
    if delay > DAY then DAY else delay
  }

  /** The kernel repository's delay, in seconds. */
  function KernelDelay(attempts: nat): int
  {
    Min(Min(30 * Pow2(if attempts < 10 then attempts else 10), MAX_I64), 86_400)
  }

  /** What the comment above the worker's formula promises: exponential, capped at a day. */
  function CappedDelay(attempts: nat): int { Min(30 * SECOND * Pow2(attempts), DAY) }

  lemma {:induction false} Pow2Grows(j: nat, k: nat)
    requires j <= k
    ensures Pow2(j) <= Pow2(k)
  {
    if j < k {
      Pow2Grows(j, k - 1);
    }
  }

  /** The shift counts at which the 64-bit product happens to exceed a day after wrapping around. */
  const LUCKY: set<int> := {31, 38, 39, 40, 41, 43, 44, 45, 49, 51}

  lemma Pow2Values()
    ensures Pow2(8) == 0x100 && Pow2(16) == 0x1_0000 && Pow2(24) == 0x100_0000 && Pow2(32) == 0x1_0000_0000
    ensures Pow2(40) == 0x100_0000_0000 && Pow2(48) == 0x1_0000_0000_0000 && Pow2(56) == 0x100_0000_0000_0000
  {
  }

  lemma Pow2Landmarks()
    ensures Pow2(11) == 2048 && Pow2(28) == 0x1000_0000 && Pow2(29) == 0x2000_0000
    ensures Pow2(54) == 0x40_0000_0000_0000 && Pow2(62) == 0x4000_0000_0000_0000 && Pow2(63) == 0x8000_0000_0000_0000
  {
    Pow2Values();
  }

  lemma Pow2Bounds(k: nat)
    ensures k <= 10 ==> 1 <= Pow2(k) <= 1024
    ensures k <= 28 ==> Pow2(k) <= 0x1000_0000
    ensures k >= 11 ==> Pow2(k) >= 2048
    ensures k >= 29 ==> Pow2(k) >= 0x2000_0000
    ensures k <= 62 ==> Pow2(k) <= 0x4000_0000_0000_0000
  {
    hide Pow2;
    Pow2Landmarks();
    if k <= 10 { Pow2Grows(0, k); Pow2Grows(k, 10); assert Pow2(0) == 1 && Pow2(10) == 1024 by { SmallPow2(); } }
    if k <= 28 { Pow2Grows(k, 28); }
    if k >= 11 { Pow2Grows(11, k); }
    if k >= 29 { Pow2Grows(29, k); }
    if k <= 62 { Pow2Grows(k, 62); }
  }

  lemma SmallPow2() ensures Pow2(0) == 1 && Pow2(10) == 1024 {}

  /** The delay for a shift count whose product is known up to whole turns. */
  lemma Wraps(k: nat, turns: int)
    requires k <= 62
    requires -0x8000_0000_0000_0000 <= 30 * SECOND * Pow2(k) - turns * 0x1_0000_0000_0000_0000 < 0x8000_0000_0000_0000
    ensures var delay := 30 * SECOND * Pow2(k) - turns * 0x1_0000_0000_0000_0000;
      BackoffDuration(k) == if delay > DAY then DAY else delay
  {
    hide WrapI64;
    Pow2Bounds(k);
    WrapsAround(Pow2(k), 0);
    WrapsAround(30 * SECOND * Pow2(k), turns);
  }

  lemma NoWrapUpTo28(k: nat)
    requires k <= 28
    ensures BackoffDuration(k) == CappedDelay(k)
  {
    hide BackoffDuration, Pow2;
    Pow2Bounds(k);
    Wraps(k, 0);
  }

  /**
   From 29 doublings on the product wraps around: the delay is the promised day only by luck, and else not positive.
   */
  lemma WrapsFrom29To53(k: nat)
    requires 29 <= k < 54
    ensures if k in LUCKY then BackoffDuration(k) == DAY else BackoffDuration(k) <= 0
  {
    hide BackoffDuration;
    Pow2Values();
    Wraps(29, 1); Wraps(30, 2); Wraps(31, 3); Wraps(32, 7); Wraps(33, 14); Wraps(34, 28); Wraps(35, 56);
    Wraps(36, 112); Wraps(37, 224); Wraps(38, 447); Wraps(39, 894); Wraps(40, 1788); Wraps(41, 3576);
    Wraps(42, 7153); Wraps(43, 14305); Wraps(44, 28610); Wraps(45, 57220); Wraps(46, 114441); Wraps(47, 228882);
    Wraps(48, 457764); Wraps(49, 915527); Wraps(50, 1831055); Wraps(51, 3662109); Wraps(52, 7324219);
    Wraps(53, 14648438);
  }

  lemma {:induction false} Pow2Splits(m: nat, n: nat)
    ensures Pow2(m + n) == Pow2(m) * Pow2(n)
  {
    if n > 0 {
      Pow2Splits(m, n - 1);
    }
  }

  lemma WholeTurns(m: int)
    ensures WrapI64(m * 0x1_0000_0000_0000_0000) == 0
  {
    hide WrapI64;
    WrapsAround(m * 0x1_0000_0000_0000_0000, m);
  }

  lemma SignBitOut()
    ensures BackoffDuration(63) == 0
  {
    hide Pow2, WrapI64;
    Pow2Landmarks();
    WrapsAround(Pow2(63), 1);
    WholeTurns(-15_000_000_000);
  }

  /** From 54 doublings on every bit is shifted out of the product. */
  lemma NothingLeftFrom54(k: nat)
    requires k >= 54
    ensures BackoffDuration(k) == 0
  {
    hide Pow2, WrapI64;
    if k >= 64 {
      WholeTurns(0);
    } else if k == 63 {
      SignBitOut();
    } else {
      hide BackoffDuration;
      Pow2Landmarks();
      Pow2Splits(54, k - 54);
      Wraps(k, 29_296_875 * Pow2(k - 54));
    }
  }

  // --------------------------------------------------------------------------
  // Results
  // --------------------------------------------------------------------------

  /** The delays a worker with a handler ever schedules: 30 * 2^k seconds, unwrapped, uncapped, and the kernel's too. */
  lemma DelaysInUse(k: nat)
    requires 1 <= k < 10
    ensures BackoffDuration(k) == 30_000_000_000 * Pow2(k) < 86_400_000_000_000
    ensures BackoffDuration(k) == SECOND * KernelDelay(k)
  {
    hide BackoffDuration, Pow2;
    NoWrapUpTo28(k);
    Pow2Bounds(k);
  }

  /** The delay is the promised capped exponential up to 28 attempts and, after that, only by luck. */
  lemma CappedAsPromisedIff(k: nat)
    ensures BackoffDuration(k) == Min(30_000_000_000 * Pow2(k), 86_400_000_000_000) <==>
      k <= 28 || k in {31, 38, 39, 40, 41, 43, 44, 45, 49, 51}
    ensures k > 28 && k !in LUCKY ==> BackoffDuration(k) <= 0
  {
    hide BackoffDuration, Pow2;
    Pow2Bounds(k);
    if k <= 28 {
      NoWrapUpTo28(k);
    } else {
      assert CappedDelay(k) == DAY;
      if k < 54 {
        WrapsFrom29To53(k);
      } else {
        NothingLeftFrom54(k);
      }
    }
  }

  /** The worker and the kernel repository agree on the delay exactly up to ten attempts. */
  lemma FormulasAgreeIff(k: nat)
    ensures BackoffDuration(k) == SECOND * KernelDelay(k) <==> k <= 10
  {
    hide BackoffDuration, Pow2;
    CappedAsPromisedIff(k);
    Pow2Bounds(k);
    if k > 10 {
      assert KernelDelay(k) == 30_720 by { SmallPow2(); }
    }
  }
}
