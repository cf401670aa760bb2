/** Concrete calls of `generate`, worked out on the model. */
module Scenarios {
  import opened Messages
  import opened Retry

  /** With a non-empty system message the payload is the system entry then
      the user entry; an empty string is falsy and leaves only the user entry. */
  lemma PayloadExamples()
    ensures BuildMessages("Hi", Some("Be terse.")) == [Message(System, "Be terse."), Message(User, "Hi")]
    ensures BuildMessages("Hi", None) == [Message(User, "Hi")]
    ensures BuildMessages("Hi", Some("")) == [Message(User, "Hi")]
  {
  }

  /** Two rate limits, then a success, with three attempts allowed. */
  lemma RateLimitedTwiceThenOk()
    ensures Generate("Hi", None, 3, i => if i < 2 then Err(RateLimitError) else Ok("OK")).run
            == Run(Returned("OK"), Trace(3, [1, 2]))
  {
  }

  /** Three rate limits with three attempts: three sleeps, the last one after
      the final attempt, and None instead of an exception. */
  lemma RateLimitedEveryTime()
    ensures Generate("Hi", None, 3, i => Err(RateLimitError)).run
            == Run(ReturnedNone, Trace(3, [1, 2, 4]))
  {
  }

  /** API errors on every attempt: two one-second sleeps, then the third is re-raised. */
  lemma ApiErrorEveryTime()
    ensures Generate("Hi", None, 3, i => Err(APIError)).run
            == Run(Raised(APIError), Trace(3, [1, 1]))
  {
  }

  /** An unexpected exception on the first call ends the call with no retry. */
  lemma OtherErrorFirst()
    ensures Generate("Hi", None, 3, i => if i == 0 then Err(OtherError) else Ok("OK")).run
            == Run(Raised(OtherError), Trace(1, []))
  {
  }

  /** The demo call `generate("Say 'OK' in one word.")` uses the defaults: no
      system entry and three attempts. */
  lemma DefaultArguments()
    ensures Generate("Say 'OK' in one word.", transport := i => Err(RateLimitError))
            == Call([Message(User, "Say 'OK' in one word.")], Run(ReturnedNone, Trace(3, [1, 2, 4])))
  {
  }

  /** A non-positive budget makes no call at all. */
  lemma NoBudget()
    ensures Generate("Hi", Some("Be terse."), 0, i => Ok("OK")).run == Run(ReturnedNone, Trace(0, []))
    ensures Generate("Hi", Some("Be terse."), -2, i => Ok("OK")).run == Run(ReturnedNone, Trace(0, []))
  {
  }
}
