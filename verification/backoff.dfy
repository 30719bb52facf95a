/** Exponential backoff with bounded jitter, as the Replicate and Gemini adapters compute it:
    `min(max_delay, base_delay * 2 ** attempt)` plus `random.uniform(0, min(1.0, delay * 0.1))`.
    The uniform draw is a parameter `u` in [0, 1], the draw being `u` times its upper end. */
module Backoff {
  import opened Base

  function Pow2(n: nat): (r: nat)
    ensures r >= 1
  {
    if n == 0 then 1 else 2 * Pow2(n - 1)
  }

  lemma {:induction false} Pow2Monotone(m: nat, n: nat)
    requires m <= n
    ensures Pow2(m) <= Pow2(n)
    decreases n
  {
    if m < n {
      Pow2Monotone(m, n - 1);
    }
  }

  /** The delay before jitter: never above `maxDelay`, and never below `baseDelay` when
      `0 <= baseDelay <= maxDelay`. */
  function RawDelay(attempt: nat, baseDelay: real, maxDelay: real): (d: real)
    ensures d <= maxDelay
    ensures 0.0 <= baseDelay <= maxDelay ==> baseDelay <= d
  {
    if 0.0 <= baseDelay then
      MulRealLeft(1.0, Pow2(attempt) as real, baseDelay);
      MinReal(maxDelay, baseDelay * Pow2(attempt) as real)
    else
      MinReal(maxDelay, baseDelay * Pow2(attempt) as real)
  }

  lemma MulRealLeft(x: real, y: real, k: real)
    requires x <= y && k >= 0.0
    ensures k * x <= k * y
  {
    assert k * y - k * x == k * (y - x);
  }

  /** Later attempts never wait less (for a non-negative base delay). */
  lemma RawDelayMonotone(a1: nat, a2: nat, baseDelay: real, maxDelay: real)
    requires a1 <= a2 && baseDelay >= 0.0
    ensures RawDelay(a1, baseDelay, maxDelay) <= RawDelay(a2, baseDelay, maxDelay)
  {
    var p1, p2 := Pow2(a1), Pow2(a2);
    Pow2Monotone(a1, a2);
    MulRealLeft(p1 as real, p2 as real, baseDelay);
    var g1, g2 := baseDelay * p1 as real, baseDelay * p2 as real;
    assert g1 <= g2;
    assert RawDelay(a1, baseDelay, maxDelay) == MinReal(maxDelay, g1);
    assert RawDelay(a2, baseDelay, maxDelay) == MinReal(maxDelay, g2);
  }

  /** Upper end of the jitter draw: `min(1.0, delay * 0.1)`. */
  function JitterCap(delay: real): real {
    MinReal(1.0, delay * 0.1)
  }

  /** `delay + random.uniform(0, JitterCap(delay))`: for a non-negative delay the result
      lies in `[delay, delay + min(1, delay / 10)]`. */
  function Jittered(delay: real, u: real): (r: real)
    requires 0.0 <= u <= 1.0
    ensures delay >= 0.0 ==> delay <= r <= delay + JitterCap(delay)
    ensures delay >= 0.0 ==> r <= delay + 1.0 && r <= delay + delay * 0.1
    ensures delay < 0.0 ==> delay + JitterCap(delay) <= r <= delay
  {
    var cap := JitterCap(delay);
    ScaledDraw(cap, u);
    delay + cap * u
  }

  /** A fraction `u` of `cap` lies between 0 and `cap`. */
  lemma ScaledDraw(cap: real, u: real)
    requires 0.0 <= u <= 1.0
    ensures cap >= 0.0 ==> 0.0 <= cap * u <= cap
    ensures cap < 0.0 ==> cap <= cap * u <= 0.0
  {
    if cap >= 0.0 {
      MulRealLeft(0.0, u, cap);
      MulRealLeft(u, 1.0, cap);
    } else {
      MulRealLeft(0.0, u, -cap);
      MulRealLeft(u, 1.0, -cap);
    }
  }

  /** The full backoff delay of one attempt. */
  function BackoffDelay(attempt: nat, baseDelay: real, maxDelay: real, u: real): (r: real)
    requires 0.0 <= u <= 1.0
    ensures var d := RawDelay(attempt, baseDelay, maxDelay);
      d >= 0.0 ==> d <= r <= d + JitterCap(d)
    ensures 0.0 <= baseDelay <= maxDelay ==> baseDelay <= r <= maxDelay + 1.0
  {
    Jittered(RawDelay(attempt, baseDelay, maxDelay), u)
  }
}
