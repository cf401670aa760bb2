# Resilient text generation: a Dafny model of `LLMService.generate`

`LLMService.generate` sends a prompt to a chat-completion provider and returns
the text of the reply. It does two things. First it builds the message payload:
an optional system entry, then the user entry. Then it runs a bounded retry
loop over the provider call. A rate limit sleeps `2 ** attempt` seconds and
tries again. A generic API error sleeps one second and tries again, except on
the last attempt, where it is re-raised. Any other exception propagates at
once, and a success returns its text at once.

The model replaces the provider with a script. `transport(i)` is the answer to
the i-th call, counting from 0: `Ok(text)`, or `Err` of `RateLimitError`,
`APIError` or `OtherError`. Each `time.sleep` becomes an entry in a trace.
`Generate` returns the payload, the result (`Returned(text)`, `ReturnedNone` or
`Raised(failure)`), the number of calls made and the list of sleeps.

Files:
- `messages.dfy` (module `Messages`): the payload and Python truthiness of `system_message`.
- `backoff.dfy` (module `Backoff`): the `2 ** attempt` wait and the flat one-second wait.
- `retry.dfy` (module `Retry`): outcomes, results, traces, the loop as a recursive function with a contract that characterises the whole run, and `Generate`.
- `retry_loop.dfy` (module `RetryLoop`): the loop as the source writes it (a `for` over the attempt index with early returns), proved equal to `Generate`.
- `retry_properties.dfy` (module `RetryProperties`): the retry guarantees over all scripts.
- `scenarios.dfy` (module `Scenarios`): concrete calls worked out on the model.

The method's annotation (`-> str`, src/llm_service.py:24) and its docstring
(src/llm_service.py:34-35) promise the generated text, but the code does not
always return it. It returns `None` in two cases. The first is when every
attempt ended in a caught error and the last one was a rate limit: the code
sleeps after that final attempt too, then falls off the end of the loop without
raising. The second is when `max_retries <= 0`, because then no call is made.
The model does what the code does; `RetryProperties.AllRateLimitedReturnsNone`,
`RetryProperties.NoneOnlyWhenBudgetUsed`, `Scenarios.RateLimitedEveryTime` and
`Scenarios.NoBudget` pin this down.

The docstring also describes `max_retries` as "how many times to retry"
(src/llm_service.py:32). The code uses it as the total number of attempts:
`max_retries=1` makes one call and never retries. The model follows the code,
and `Retry.Generate` bounds the calls by `max_retries`.

`Generate` and `GenerateLoop` keep the source's defaults, `system_message=None`
and `max_retries=3` (src/llm_service.py:23-24). The demo call at
src/llm_service.py:72 relies on them.

## Model

| member | source | states |
|---|---|---|
| Messages.BuildMessages | src/llm_service.py:37-40 | The payload has exactly one user entry, last, carrying the prompt. It has a system entry, first and carrying the system message, exactly when the system message is truthy (neither None nor empty). So it has one or two entries. |
| Retry.Attempts | src/llm_service.py:45-65 | From attempt `a`, the calls never go past `max_retries`. Every recorded sleep belongs to an attempt that continued and equals that attempt's wait. The run ends either with a stopping attempt right after the last sleep, whose result it returns, or with `None` after every attempt was made and followed by a sleep. |
| Retry.Generate | src/llm_service.py:23-65 | At most `max(0, max_retries)` calls. When `max_retries <= 0` there are no calls, no sleeps, and the result is `None`. The payload is well formed and ends with the user's prompt. |
| RetryLoop.GenerateLoop | src/llm_service.py:37-65 | The loop written with a mutable attempt counter, a sleep log and early returns computes exactly the same payload, result, call count and sleeps as `Generate`. |
| Backoff.RateLimitWaitStrictlyIncreasing | src/llm_service.py:57 | A later attempt's rate-limit wait is strictly longer than an earlier attempt's. |
| RetryProperties.ContinuedPrefix | src/llm_service.py:45-65 | If attempts `a` to `k-1` all continue, the run from `a` is `k - a` calls and sleeps followed by the run from `k`, with the same result. |
| RetryProperties.FirstNonRetryableEnds | src/llm_service.py:45-65 | Suppose attempt `k < max_retries` is the first answer that is neither a rate limit nor an API error. Then the call makes exactly `k + 1` calls and `k` sleeps, with no sleep after the last call. Each sleep is the wait its attempt's error calls for. The call returns the success's text, or raises the other exception. |
| RetryProperties.SucceedsAt | src/llm_service.py:47-53 | Suppose the first success is at attempt `k < max_retries` and only caught errors come before it. Then the call returns that text after exactly `k + 1` calls and `k` sleeps. |
| RetryProperties.OtherErrorPropagates | src/llm_service.py:55-65 | An exception other than a rate limit or API error propagates after exactly the one call that raised it. It is not retried and has no sleep, whatever the remaining budget. |
| RetryProperties.ApiErrorOnLastAttemptRaises | src/llm_service.py:61-64 | An API error on attempt `max_retries - 1`, after only caught errors, is re-raised. That makes `max_retries` calls and `max_retries - 1` sleeps, with no sleep for the last attempt. |
| RetryProperties.ApiErrorBeforeLastRetries | src/llm_service.py:61-65 | An API error on a reached attempt before the last records a sleep of exactly 1, and a further call follows. |
| RetryProperties.RateLimitSleeps | src/llm_service.py:55-59 | A rate limit on any reached attempt `i`, the last one included, records a sleep of exactly `2 ** i`. |
| RetryProperties.RateLimitWaitsIncrease | src/llm_service.py:55-59 | Of two sleeps in one call that both follow rate limits, the later one is strictly longer. |
| RetryProperties.AllRateLimitedReturnsNone | src/llm_service.py:45-59 | If every attempt is rate limited, there are exactly `max(0, max_retries)` calls and as many sleeps, `2 ** 0` up to `2 ** (max_retries - 1)`. The result is `None`, not an exception. |
| RetryProperties.NoneOnlyWhenBudgetUsed | src/llm_service.py:45-65 | A rate-limit error never escapes. The result is `None` exactly when every attempt of the budget was made and followed by a sleep, and then every answer was a caught error. |
| Scenarios.PayloadExamples | src/llm_service.py:37-40 | `("Hi", "Be terse.")` builds system then user. `("Hi", None)` and `("Hi", "")` build only the user entry. |
| Scenarios.RateLimitedTwiceThenOk | src/llm_service.py:45-59 | Rate limit, rate limit, then `Ok("OK")` with 3 attempts returns `"OK"` after 3 calls and sleeps `[1, 2]`. |
| Scenarios.RateLimitedEveryTime | src/llm_service.py:45-59 | Three rate limits with 3 attempts make 3 calls, sleep `[1, 2, 4]` and return `None`. |
| Scenarios.ApiErrorEveryTime | src/llm_service.py:61-65 | Three API errors with 3 attempts sleep `[1, 1]` and re-raise on the third call. |
| Scenarios.OtherErrorFirst | src/llm_service.py:45-53 | An unexpected exception on the first call raises after 1 call with no sleep. |
| Scenarios.DefaultArguments | src/llm_service.py:23-24 | A call that passes only the prompt, as the demo at line 72 does, sends only the user entry and makes three attempts. With every attempt rate limited, it sleeps `[1, 2, 4]` and returns `None`. |
| Scenarios.NoBudget | src/llm_service.py:45 | `max_retries` of 0 or -2 makes no call and returns `None`. |

## Left out

- Client construction and the `chat.completions.create` request (src/llm_service.py:19-21, 47-52) are a foreign library and the network. They are replaced by the script `transport`. The script also stands in for the library's own exception hierarchy. A rate-limit error is also an API error there, so the source's clause order makes the two disjoint.
- `response.choices[0].message.content` is taken to be the text carried by `Ok`. The library may also report an absent content (None); that case is not modelled.
- `temperature`, `model` and `max_tokens` are only passed through to the provider, so they are not modelled.
- `time.sleep` and the `logging` calls (src/llm_service.py:58-59, 62, 65) are side effects. A sleep becomes an entry of the trace, and log lines are dropped.
- `time.sleep` has an upper limit that the model ignores. CPython converts the wait to a 64-bit count of nanoseconds, and raises `OverflowError` for a wait that does not fit. From `2 ** 34` seconds upward, the wait does not fit, so a rate limit on attempt 34 or later raises inside the `except RateLimitError` clause (line 59). The model records the sleep and carries on. The limit depends on the platform and interpreter, which is why the model leaves it out.
- RetryProperties.AllRateLimitedReturnsNone: its "None, not an exception" holds in CPython only while `max_retries <= 34`. For a larger budget the sleep after attempt 34 raises `OverflowError`, and the model does not include that limit.
- RetryProperties.RateLimitSleeps: a recorded `2 ** i` sleep is one CPython can actually perform only for `i <= 33`, for the same reason.
- The module-level singleton and the `__main__` demo (src/llm_service.py:67-73) are process wiring and I/O.
- src/config.py loads settings from the environment. It has no behaviour to verify.
- src/main.py holds the HTTP endpoints, request validation and timestamps. It does not call the retry loop.
- `system_message` is modelled as an optional string. Python would accept any object and test its truthiness. The model covers only the annotated types, `str` and None.
