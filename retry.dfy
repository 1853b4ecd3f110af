/**
 * Calls to the language-model server, and the generic retry loop with
 * exponential backoff around them (`executar_prompt`).
 *
 * The server is not modelled: what it does on the k-th call of a loop is
 * given as the k-th element of a sequence of attempt outcomes. A call past
 * the end of the sequence fails, like a server that has gone away.
 */
module Retry {
  import opened Wrappers

  /** What one call to the server produced: an exception, or the content of the reply. */
  datatype Attempt = Failed | Reply(content: string)

  function AttemptAt(outs: seq<Attempt>, k: nat): Attempt {
    if k < |outs| then outs[k] else Failed
  }

  /** Number of attempts `range(maxRetries)` makes. */
  function AttemptCap(maxRetries: int): nat {
    if maxRetries > 0 then maxRetries else 0
  }

  function Pow2(n: nat): (r: nat)
    ensures r >= 1
  {
    if n == 0 then 1 else 2 * Pow2(n - 1)
  }

  /** The first `n` waits of the backoff: 1, 2, 4, ... */
  function Backoff(n: nat): (r: seq<nat>)
    ensures |r| == n
    ensures forall i :: 0 <= i < n ==> r[i] == Pow2(i)
  {
    if n == 0 then [] else Backoff(n - 1) + [Pow2(n - 1)]
  }

  /** Index of the first successful attempt among attempts `from`, ..., `max - 1`. */
  function FirstReply(outs: seq<Attempt>, from: nat, max: int): (r: Option<nat>)
    decreases max - from
    ensures r.Some? ==> from <= r.value < max && AttemptAt(outs, r.value).Reply?
    ensures r.Some? ==> forall k :: from <= k < r.value ==> AttemptAt(outs, k).Failed?
    ensures r.None? ==> forall k :: from <= k < max ==> AttemptAt(outs, k).Failed?
  {
    if from >= max then None
    else if AttemptAt(outs, from).Reply? then Some(from)
    else FirstReply(outs, from + 1, max)
  }

  /** The value `executar_prompt` returns: the content of the first successful attempt, if any. */
  function PromptResult(outs: seq<Attempt>, maxRetries: int): (r: Option<string>)
    ensures r.Some? <==> exists k :: 0 <= k < maxRetries && AttemptAt(outs, k).Reply?
  {
    var first := FirstReply(outs, 0, maxRetries);
    if first.Some? then Some(AttemptAt(outs, first.value).content) else None
  }

  /**
   * `executar_prompt(prompt, model, max_retries)`: at most `max_retries`
   * attempts; the first successful one is returned; after a failure that is
   * not the last attempt it sleeps `delay` and doubles it; `None` when every
   * attempt failed. `calls` counts the attempts, `sleeps` lists the waits.
   */
  method ExecutePrompt(outs: seq<Attempt>, maxRetries: int) returns (result: Option<string>, calls: nat, sleeps: seq<nat>)
    ensures result == PromptResult(outs, maxRetries)
    ensures 0 <= calls <= AttemptCap(maxRetries)
    ensures result.Some? ==> calls >= 1 && AttemptAt(outs, calls - 1).Reply? && result == Some(AttemptAt(outs, calls - 1).content)
    ensures forall k :: 0 <= k < calls - 1 ==> AttemptAt(outs, k).Failed?
    ensures result.None? ==> calls == AttemptCap(maxRetries)
    ensures result.Some? ==> sleeps == Backoff(calls - 1)
    ensures result.None? ==> sleeps == Backoff(if calls > 0 then calls - 1 else 0)
  {
    var delay := 1;
    var attempt := 0;
    calls, sleeps := 0, [];
    while attempt < maxRetries
      invariant 0 <= attempt <= AttemptCap(maxRetries)
      invariant calls == attempt
      invariant forall k :: 0 <= k < attempt ==> AttemptAt(outs, k).Failed?
      invariant FirstReply(outs, 0, maxRetries) == FirstReply(outs, attempt, maxRetries)
      invariant attempt < maxRetries ==> sleeps == Backoff(attempt)
      invariant attempt > 0 && attempt == maxRetries ==> sleeps == Backoff(attempt - 1)
      invariant attempt == 0 ==> sleeps == []
      invariant delay == Pow2(|sleeps|)
    {
      calls := calls + 1;
      match AttemptAt(outs, attempt)
      case Reply(content) =>
        result := Some(content);
        return;
      case Failed =>
        if attempt < maxRetries - 1 {
          sleeps := sleeps + [delay];
          delay := delay * 2;
        }
      attempt := attempt + 1;
    }
    result := None;
  }
}
