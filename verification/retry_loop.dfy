/** `generate` written the way the source writes it: a `for` loop over the
    attempt index with early returns, proved to agree with `Retry.Generate`. */
module RetryLoop {
  import opened Messages
  import opened Backoff
  import opened Retry

  /** One turn of the loop, seen from the run it belongs to. */
  lemma UnfoldAttempt(sleeps: seq<nat>, attempt: nat, maxRetries: int, transport: Transport)
    requires attempt < maxRetries
    ensures match StepOf(transport(attempt), attempt, maxRetries)
            case Stop(result) =>
              Prefixed(sleeps, Attempts(attempt, maxRetries, transport))
              == Run(result, Trace(|sleeps| + 1, sleeps))
            case Continue(wait) =>
              Prefixed(sleeps, Attempts(attempt, maxRetries, transport))
              == Prefixed(sleeps + [wait], Attempts(attempt + 1, maxRetries, transport))
  {
  }

  method GenerateLoop(prompt: string, systemMessage: Option<string> := None, maxRetries: int := 3,
                      transport: Transport) returns (c: Call)
    ensures c == Generate(prompt, systemMessage, maxRetries, transport)
  {
    var messages := BuildMessages(prompt, systemMessage);
    var sleeps: seq<nat> := [];
    var attempt: nat := 0;
    while attempt < maxRetries
      invariant |sleeps| == attempt
      invariant Attempts(0, maxRetries, transport) == Prefixed(sleeps, Attempts(attempt, maxRetries, transport))
      decreases maxRetries - attempt
    {
      UnfoldAttempt(sleeps, attempt, maxRetries, transport);
      match transport(attempt) {
        case Ok(text) =>
          return Call(messages, Run(Returned(text), Trace(attempt + 1, sleeps)));
        case Err(RateLimitError) =>
          sleeps := sleeps + [RateLimitWait(attempt)];
        case Err(APIError) =>
          if attempt == maxRetries - 1 {
            return Call(messages, Run(Raised(APIError), Trace(attempt + 1, sleeps)));
          }
          sleeps := sleeps + [ApiErrorWait];
        case Err(OtherError) =>
          return Call(messages, Run(Raised(OtherError), Trace(attempt + 1, sleeps)));
      }
      attempt := attempt + 1;
    }
    c := Call(messages, Run(ReturnedNone, Trace(attempt, sleeps)));
  }
}
