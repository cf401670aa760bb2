/** The waits `generate` records between attempts. */
module Backoff {

  function Pow2(n: nat): (r: nat)
    ensures r > n
  {
    if n == 0 then 1 else 2 * Pow2(n - 1)
  }

  /** The wait after a rate-limited attempt: `2 ** attempt` seconds. */
  function RateLimitWait(attempt: nat): (w: nat)
    ensures w >= 1
  {
    Pow2(attempt)
  }

  /** The flat wait after an API error that is not on the last attempt. */
  const ApiErrorWait: nat := 1

  lemma Pow2Doubles(n: nat)
    ensures RateLimitWait(n + 1) == 2 * RateLimitWait(n)
  {
  }

  /** Rate-limit waits grow strictly with the attempt index. */
  lemma {:induction false} RateLimitWaitStrictlyIncreasing(i: nat, j: nat)
    requires i < j
    ensures RateLimitWait(i) < RateLimitWait(j)
  {
    if j > i + 1 {
      RateLimitWaitStrictlyIncreasing(i, j - 1);
    }
    Pow2Doubles(j - 1);
  }
}
