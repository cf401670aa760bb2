/** The bounded retry loop of `LLMService.generate`, with the transport
    replaced by a script: `transport(i)` is what the i-th call to the
    provider (counting from 0) answers, and every `time.sleep` becomes an
    entry of the trace. */
module Retry {
  import opened Messages
  import opened Backoff

  /** The exceptions the transport can raise. The source catches the
      rate-limit error before the generic API error, so the two are
      disjoint here; anything else is `OtherError`. */
  datatype Failure = RateLimitError | APIError | OtherError

  /** What one call to the provider answers. */
  datatype Outcome = Ok(text: string) | Err(failure: Failure)

  type Transport = nat -> Outcome

  /** How `generate` ends: it returns the text, falls off the end of the loop
      (returning None), or lets an exception propagate. */
  datatype Result = Returned(text: string) | ReturnedNone | Raised(failure: Failure)

  /** Number of transport calls made and the waits slept, in order. */
  datatype Trace = Trace(calls: nat, sleeps: seq<nat>)

  datatype Run = Run(result: Result, trace: Trace)

  /** A whole invocation: the payload sent on every call, and the run. */
  datatype Call = Call(messages: seq<Message>, run: Run)

  /** What the loop body does with one attempt's outcome: sleep and go on,
      or leave the loop with a result. */
  datatype Step = Continue(wait: nat) | Stop(result: Result)

  function StepOf(o: Outcome, attempt: nat, maxRetries: int): Step {
    match o
    case Ok(text) => Stop(Returned(text))
    case Err(RateLimitError) => Continue(RateLimitWait(attempt))
    case Err(APIError) =>
      if attempt == maxRetries - 1 then Stop(Raised(APIError)) else Continue(ApiErrorWait)
    case Err(OtherError) => Stop(Raised(OtherError))
  }

  /** The run whose first calls each ended by sleeping one of `sleeps`, in
      order, followed by `rest`. */
  function Prefixed(sleeps: seq<nat>, rest: Run): Run {
    Run(rest.result, Trace(|sleeps| + rest.trace.calls, sleeps + rest.trace.sleeps))
  }

  /** The iterations `attempt`, `attempt + 1`, ... of `for attempt in range(maxRetries)`.
      The contract characterises the run completely: every sleep is the wait
      of an attempt that continued, and the run ends either by a stopping
      attempt right after the last sleep or by running out of attempts. */
  function Attempts(attempt: nat, maxRetries: int, transport: Transport): (r: Run)
    decreases maxRetries - attempt
    ensures attempt + r.trace.calls <= if attempt < maxRetries then maxRetries else attempt
    ensures forall j :: 0 <= j < |r.trace.sleeps| ==>
              StepOf(transport(attempt + j), attempt + j, maxRetries) == Continue(r.trace.sleeps[j])
    ensures r.result.ReturnedNone? ==>
              r.trace.calls == |r.trace.sleeps| && attempt + r.trace.calls >= maxRetries
    ensures !r.result.ReturnedNone? ==>
              && r.trace.calls == |r.trace.sleeps| + 1
              && StepOf(transport(attempt + |r.trace.sleeps|), attempt + |r.trace.sleeps|, maxRetries)
                 == Stop(r.result)
  {
    if attempt >= maxRetries then
      Run(ReturnedNone, Trace(0, []))
    else
      match StepOf(transport(attempt), attempt, maxRetries)
      case Stop(result) => Run(result, Trace(1, []))
      case Continue(wait) =>
        var rest := Attempts(attempt + 1, maxRetries, transport);
        var r := Prefixed([wait], rest);
        assert forall j :: 1 <= j < |r.trace.sleeps| ==> r.trace.sleeps[j] == rest.trace.sleeps[j - 1];
        r
  }

  /** `LLMService.generate(prompt, system_message, temperature, max_retries)`,
      with the source's defaults `system_message=None` and `max_retries=3`. */
  function Generate(prompt: string, systemMessage: Option<string> := None, maxRetries: int := 3,
                    transport: Transport): (c: Call)
    ensures c.run.trace.calls <= if maxRetries > 0 then maxRetries else 0
    ensures maxRetries <= 0 ==> c.run == Run(ReturnedNone, Trace(0, []))
    ensures WellFormed(c.messages) && c.messages[|c.messages| - 1] == Message(User, prompt)
  {
    Call(BuildMessages(prompt, systemMessage), Attempts(0, maxRetries, transport))
  }
}
