/** The chat payload `generate` sends on every attempt: an optional system
    entry followed by the user entry. */
module Messages {

  /** The `system_message` argument, which defaults to None. */
  datatype Option<T> = None | Some(value: T)

  datatype Role = System | User

  datatype Message = Message(role: Role, content: string)

  /** Python truthiness of a `str` or None: None and the empty string are false. */
  predicate Truthy(s: Option<string>) {
    s.Some? && |s.value| > 0
  }

  /** A valid role sequence: exactly one user entry, in last position, and a
      system entry nowhere but in first position. */
  predicate WellFormed(ms: seq<Message>) {
    && |ms| >= 1
    && ms[|ms| - 1].role == User
    && (forall i :: 0 <= i < |ms| - 1 ==> ms[i].role != User)
    && (forall i :: 0 < i < |ms| ==> ms[i].role != System)
  }

  /** Whether the payload carries a system entry. */
  predicate HasSystem(ms: seq<Message>) {
    exists i :: 0 <= i < |ms| && ms[i].role == System
  }

  function BuildMessages(prompt: string, systemMessage: Option<string>): (ms: seq<Message>)
    ensures WellFormed(ms)
    ensures ms[|ms| - 1] == Message(User, prompt)
    ensures HasSystem(ms) <==> Truthy(systemMessage)
    ensures Truthy(systemMessage) ==> ms[0] == Message(System, systemMessage.value)
    ensures |ms| == if Truthy(systemMessage) then 2 else 1
  {
    if Truthy(systemMessage) then
      var ms := [Message(System, systemMessage.value), Message(User, prompt)];
      assert ms[0].role == System;
      ms
    else
      [Message(User, prompt)]
  }
}
