/** The retry delay of the outbox worker: min(2^n, 300) seconds plus up to one second of
    jitter, in microseconds, the resolution of a timedelta. */
module Backoff {

  const SECOND := 1_000_000

  function Pow2(n: nat): nat {
    if n == 0 then 1 else 2 * Pow2(n - 1)
  }

  function BaseDelay(n: nat): nat {
    if Pow2(n) < 300 then Pow2(n) else 300
  }

  predicate Jitter(j: int) {
    0 <= j <= SECOND
  }

  function Delay(n: nat, jitter: int): int {
    BaseDelay(n) * SECOND + jitter
  }

  lemma {:induction false} Pow2Grows(m: nat, n: nat)
    requires m <= n
    ensures Pow2(m) <= Pow2(n)
    decreases n
  {
    if m < n {
      Pow2Grows(m, n - 1);
    }
  }

  /** `wait` microseconds are at least min(2^n, 300) seconds and at most one second more. */
  predicate InWindow(n: nat, wait: int) {
    var base := if Pow2(n) < 300 then Pow2(n) else 300;
    base * 1_000_000 <= wait <= (base + 1) * 1_000_000
  }

  /** Jitter moves a delay within its window, and reaches both ends of it. */
  lemma DelaysFillWindow(n: nat, wait: int)
    ensures InWindow(n, wait) <==> exists j :: Jitter(j) && Delay(n, j) == wait
  {
    var j := wait - BaseDelay(n) * SECOND;
    assert Delay(n, j) == wait;
  }

  /** The cap is reached at the ninth failure. */
  lemma CapStartsAtNine(n: nat)
    ensures BaseDelay(n) == if n < 9 then Pow2(n) else 300
    ensures BaseDelay(n) < 300 <==> n < 9
  {
    assert Pow2(8) == 256 && Pow2(9) == 512 by {
      assert Pow2(4) == 16;
      assert Pow2(6) == 64;
      assert Pow2(8) == 256;
    }
    if n < 9 {
      Pow2Grows(n, 8);
    } else {
      Pow2Grows(9, n);
    }
  }

  /** Whatever the jitter, the next delay is strictly longer: exactly for failures 1 to 8. */
  lemma StrictlyLonger(n: nat)
    ensures (forall i, j :: Jitter(i) && Jitter(j) ==> Delay(n, i) < Delay(n + 1, j)) <==> 1 <= n < 9
  {
    CapStartsAtNine(n);
    CapStartsAtNine(n + 1);
    if 1 <= n < 9 {
      Pow2Grows(1, n);
      assert Pow2(1) == 2;
      assert n == 8 ==> BaseDelay(n) == 256 by {
        assert Pow2(4) == 16;
        assert Pow2(6) == 64;
      }
    } else {
      assert Jitter(SECOND) && Jitter(0);
      assert n == 0 ==> BaseDelay(0) == 1 && BaseDelay(1) == 2;
    }
  }

  /** The time an event spends backing off over its first |jitters| failures. */
  function TotalBackoff(jitters: seq<int>): int {
    if jitters == [] then 0
    else TotalBackoff(jitters[..|jitters| - 1]) + Delay(|jitters|, jitters[|jitters| - 1])
  }

  /** Closed form of the sum of the base delays of failures 1 to k, in seconds. */
  function Budget(k: nat): int {
    if k <= 8 then 2 * Pow2(k) - 2 else 510 + 300 * (k - 8)
  }

  lemma {:induction false} BackoffBudget(jitters: seq<int>)
    requires forall i :: 0 <= i < |jitters| ==> Jitter(jitters[i])
    ensures Budget(|jitters|) * SECOND <= TotalBackoff(jitters) <= (Budget(|jitters|) + |jitters|) * SECOND
  {
    var k := |jitters|;
    if k != 0 {
      BackoffBudget(jitters[..k - 1]);
      CapStartsAtNine(k);
      assert k == 9 ==> Budget(8) == 510 by {
        assert Pow2(4) == 16;
        assert Pow2(6) == 64;
      }
      assert Budget(k) == Budget(k - 1) + BaseDelay(k);
    }
  }
}
