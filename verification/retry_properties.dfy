/** What the retry loop of `generate` guarantees, stated over all scripts. */
module RetryProperties {
  import opened Messages
  import opened Backoff
  import opened Retry

  /** An outcome the loop catches and may retry. */
  predicate Retryable(o: Outcome) {
    o == Err(RateLimitError) || o == Err(APIError)
  }

  /** The wait recorded after a retried attempt. */
  function WaitAfter(o: Outcome, attempt: nat): nat {
    if o == Err(RateLimitError) then RateLimitWait(attempt) else ApiErrorWait
  }

  /** Attempts `a .. k-1` all continued: the run from `a` is those `k - a`
      calls and sleeps in front of the run from `k`. */
  lemma {:induction false} ContinuedPrefix(a: nat, k: nat, maxRetries: int, transport: Transport)
    requires a <= k <= maxRetries
    requires forall i :: a <= i < k ==> StepOf(transport(i), i, maxRetries).Continue?
    ensures Attempts(a, maxRetries, transport).result == Attempts(k, maxRetries, transport).result
    ensures Attempts(a, maxRetries, transport).trace.calls
            == (k - a) + Attempts(k, maxRetries, transport).trace.calls
    ensures |Attempts(a, maxRetries, transport).trace.sleeps|
            == (k - a) + |Attempts(k, maxRetries, transport).trace.sleeps|
    ensures Attempts(a, maxRetries, transport).trace.sleeps[k - a..]
            == Attempts(k, maxRetries, transport).trace.sleeps
    decreases k - a
  {
    if a < k {
      ContinuedPrefix(a + 1, k, maxRetries, transport);
      assert StepOf(transport(a), a, maxRetries).Continue?;
    }
  }

  /** Before attempt `k < maxRetries`, a retryable outcome always continues. */
  lemma RetryablePrefixContinues(k: nat, maxRetries: int, transport: Transport)
    requires k < maxRetries
    requires forall i :: 0 <= i < k ==> Retryable(transport(i))
    ensures forall i :: 0 <= i < k ==> StepOf(transport(i), i, maxRetries).Continue?
  {
  }

  /** The first answer that is not a caught error ends the call at once: a
      success is returned, any other exception propagates; in both cases after
      exactly `k + 1` calls and with no sleep after the last one. */
  lemma {:induction false} FirstNonRetryableEnds(prompt: string, systemMessage: Option<string>,
                                                 maxRetries: int, transport: Transport, k: nat)
    requires k < maxRetries
    requires forall i :: 0 <= i < k ==> Retryable(transport(i))
    requires !Retryable(transport(k))
    ensures var run := Generate(prompt, systemMessage, maxRetries, transport).run;
            && run.result == (if transport(k).Ok? then Returned(transport(k).text) else Raised(OtherError))
            && run.trace.calls == k + 1
            && |run.trace.sleeps| == k
            && forall i :: 0 <= i < k ==> run.trace.sleeps[i] == WaitAfter(transport(i), i)
  {
    RetryablePrefixContinues(k, maxRetries, transport);
    ContinuedPrefix(0, k, maxRetries, transport);
  }

  /** A success on attempt `k`, after only caught errors, returns its text. */
  lemma SucceedsAt(prompt: string, systemMessage: Option<string>, maxRetries: int,
                   transport: Transport, k: nat, text: string)
    requires k < maxRetries
    requires forall i :: 0 <= i < k ==> Retryable(transport(i))
    requires transport(k) == Ok(text)
    ensures var run := Generate(prompt, systemMessage, maxRetries, transport).run;
            run.result == Returned(text) && run.trace.calls == k + 1 && |run.trace.sleeps| == k
  {
    FirstNonRetryableEnds(prompt, systemMessage, maxRetries, transport, k);
  }

  /** An uncaught exception propagates after the one call that raised it,
      whatever budget remains. */
  lemma OtherErrorPropagates(prompt: string, systemMessage: Option<string>, maxRetries: int,
                             transport: Transport, k: nat)
    requires k < maxRetries
    requires forall i :: 0 <= i < k ==> Retryable(transport(i))
    requires transport(k) == Err(OtherError)
    ensures var run := Generate(prompt, systemMessage, maxRetries, transport).run;
            run.result == Raised(OtherError) && run.trace.calls == k + 1 && |run.trace.sleeps| == k
  {
    FirstNonRetryableEnds(prompt, systemMessage, maxRetries, transport, k);
  }

  /** An API error on the last attempt is re-raised, without sleeping first. */
  lemma {:induction false} ApiErrorOnLastAttemptRaises(prompt: string, systemMessage: Option<string>,
                                                       maxRetries: int, transport: Transport)
    requires maxRetries >= 1
    requires forall i :: 0 <= i < maxRetries - 1 ==> Retryable(transport(i))
    requires transport(maxRetries - 1) == Err(APIError)
    ensures var run := Generate(prompt, systemMessage, maxRetries, transport).run;
            && run.result == Raised(APIError)
            && run.trace.calls == maxRetries
            && |run.trace.sleeps| == maxRetries - 1
  {
    RetryablePrefixContinues(maxRetries - 1, maxRetries, transport);
    ContinuedPrefix(0, maxRetries - 1, maxRetries, transport);
  }

  /** An API error on a reached attempt other than the last sleeps exactly one
      second and the loop goes on to the next attempt. */
  lemma ApiErrorBeforeLastRetries(prompt: string, systemMessage: Option<string>,
                                  maxRetries: int, transport: Transport, i: nat)
    requires i < maxRetries - 1
    requires transport(i) == Err(APIError)
    requires i < Generate(prompt, systemMessage, maxRetries, transport).run.trace.calls
    ensures var run := Generate(prompt, systemMessage, maxRetries, transport).run;
            && i < |run.trace.sleeps|
            && run.trace.sleeps[i] == 1
            && i + 1 < run.trace.calls
  {
  }

  /** A rate limit on a reached attempt always sleeps `2 ** attempt` seconds,
      the last attempt included. */
  lemma RateLimitSleeps(prompt: string, systemMessage: Option<string>,
                        maxRetries: int, transport: Transport, i: nat)
    requires transport(i) == Err(RateLimitError)
    requires i < Generate(prompt, systemMessage, maxRetries, transport).run.trace.calls
    ensures var run := Generate(prompt, systemMessage, maxRetries, transport).run;
            i < |run.trace.sleeps| && run.trace.sleeps[i] == RateLimitWait(i)
  {
  }

  /** Waits after two rate-limited attempts of one call grow strictly. */
  lemma RateLimitWaitsIncrease(prompt: string, systemMessage: Option<string>,
                               maxRetries: int, transport: Transport, i: nat, j: nat)
    requires i < j < |Generate(prompt, systemMessage, maxRetries, transport).run.trace.sleeps|
    requires transport(i) == Err(RateLimitError) && transport(j) == Err(RateLimitError)
    ensures var sleeps := Generate(prompt, systemMessage, maxRetries, transport).run.trace.sleeps;
            sleeps[i] < sleeps[j]
  {
    var sleeps := Generate(prompt, systemMessage, maxRetries, transport).run.trace.sleeps;
    assert StepOf(transport(i), i, maxRetries) == Continue(sleeps[i]);
    assert StepOf(transport(j), j, maxRetries) == Continue(sleeps[j]);
    RateLimitWaitStrictlyIncreasing(i, j);
  }

  /** If every attempt is rate limited, every attempt is made and followed by
      its `2 ** attempt` sleep, and the call returns None instead of raising. */
  lemma AllRateLimitedReturnsNone(prompt: string, systemMessage: Option<string>,
                                                     maxRetries: int, transport: Transport)
    requires forall i :: 0 <= i < maxRetries ==> transport(i) == Err(RateLimitError)
    ensures var run := Generate(prompt, systemMessage, maxRetries, transport).run;
            && run.result == ReturnedNone
            && run.trace.calls == (if maxRetries > 0 then maxRetries else 0)
            && |run.trace.sleeps| == run.trace.calls
            && forall i :: 0 <= i < |run.trace.sleeps| ==> run.trace.sleeps[i] == RateLimitWait(i)
  {
  }

  /** A rate-limit error never escapes `generate`, and it returns None exactly
      when every attempt of the budget was made and followed by a sleep, which
      takes a caught error on every attempt. */
  lemma NoneOnlyWhenBudgetUsed(prompt: string, systemMessage: Option<string>,
                               maxRetries: int, transport: Transport)
    ensures var run := Generate(prompt, systemMessage, maxRetries, transport).run;
            && run.result != Raised(RateLimitError)
            && (run.result == ReturnedNone <==>
                  |run.trace.sleeps| == run.trace.calls == (if maxRetries > 0 then maxRetries else 0))
            && (run.result == ReturnedNone ==>
                  forall i :: 0 <= i < run.trace.calls ==> Retryable(transport(i)))
  {
    var run := Generate(prompt, systemMessage, maxRetries, transport).run;
    var n := |run.trace.sleeps|;
    if run.result != ReturnedNone {
      assert StepOf(transport(n), n, maxRetries) == Stop(run.result);
      assert !Retryable(transport(n)) || n == maxRetries - 1;
    }
    if run.result == ReturnedNone {
      forall i | 0 <= i < run.trace.calls
        ensures Retryable(transport(i))
      {
        assert StepOf(transport(i), i, maxRetries) == Continue(run.trace.sleeps[i]);
      }
    }
  }
}
