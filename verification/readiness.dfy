/** `wait_for_db_ready` (src/main.py): poll the vector index once per second,
    at most `timeout` times, until it reports that it is ready. The answers of
    the successive polls are a parameter: `observe(i)` is what `is_ready()`
    returns on poll number `i` (counting from 0). */
module Readiness {

  /** Whether readiness was seen, and how many times the index was polled. */
  datatype Wait = Wait(ready: bool, polls: nat)

  /** The default bound `search_stories` uses. */
  const DefaultTimeout: int := 30

  /** Polls `from`, `from + 1`, ... up to (excluding) `timeout`, stopping at the first ready answer. */
  function PollFrom(observe: nat -> bool, from: nat, timeout: nat): (w: Wait)
    requires from <= timeout
    ensures w.ready <==> exists i :: from <= i < timeout && observe(i)
    ensures from <= w.polls <= timeout
    ensures w.ready ==> from < w.polls && observe(w.polls - 1)
    ensures forall i :: from <= i < w.polls - 1 ==> !observe(i)
    ensures !w.ready ==> w.polls == timeout
    decreases timeout - from
  {
    if from == timeout then Wait(false, from)
    else if observe(from) then Wait(true, from + 1)
    else PollFrom(observe, from + 1, timeout)
  }

  /** `wait_for_db_ready(timeout)`: true exactly when one of the first
      `timeout` polls answers ready; it never polls more than `timeout`
      times, stops right after the first ready answer, and polls all
      `timeout` times when the index never becomes ready. A non-positive
      timeout polls nothing (`range(timeout)` is empty). */
  function WaitForDbReady(observe: nat -> bool, timeout: int): (w: Wait)
    ensures w.ready <==> exists i :: 0 <= i < timeout && observe(i)
    ensures w.polls <= if timeout < 0 then 0 else timeout
    ensures w.ready ==> 0 < w.polls && observe(w.polls - 1)
    ensures forall i :: 0 <= i < w.polls - 1 ==> !observe(i)
    ensures !w.ready ==> w.polls == if timeout < 0 then 0 else timeout
  {
    if timeout <= 0 then Wait(false, 0) else PollFrom(observe, 0, timeout)
  }
}
