/** `FirebaseService.retryOperation` (lib/firebase-service.ts:50-68): call an
    operation up to `maxRetries` times, return the first value it resolves with,
    and otherwise rethrow the error of the last attempt. The operation is an
    oracle `op(i)`: the outcome of the call made in attempt `i` (0-based). */
module Retry {
  import opened Wrappers

  /** The default number of attempts. */
  const DefaultRetries: int := 3

  /** The default base delay, in milliseconds. */
  const DefaultDelay: int := 1000

  function Pow2(i: nat): (p: nat)
    ensures 1 <= p
  {
    if i == 0 then 1 else 2 * Pow2(i - 1)
  }

  /** The number of attempts the loop allows: `for (i = 0; i < maxRetries; i++)`
      makes none when `maxRetries <= 0`. */
  function MaxAttempts(maxRetries: int): (n: nat)
    ensures maxRetries <= 0 ==> n == 0
    ensures 0 < maxRetries ==> n == maxRetries
  {
    if maxRetries < 0 then 0 else maxRetries
  }

  /** What a run of the retry loop produced: the value or the rethrown error
      (`None` is the `undefined` thrown when no attempt was made), and how many
      times the operation was called. */
  datatype Attempted<+T, +E> = Attempted(outcome: Result<T, Option<E>>, calls: nat)

  /** The loop from attempt `i` on, `last` being the error the previous attempt threw.
      Every attempt before the last call failed; a success is the value of the last
      call; a failure means every allowed attempt was made and carries the last error. */
  function RetryFrom<T, E>(op: nat -> Result<T, E>, maxRetries: int, i: nat, last: Option<E>): (r: Attempted<T, E>)
    ensures i <= r.calls
    ensures forall j :: i <= j < r.calls - 1 ==> op(j).Err?
    ensures r.outcome.Ok? ==> i < r.calls <= MaxAttempts(maxRetries) && op(r.calls - 1) == Ok(r.outcome.value)
    ensures r.outcome.Err? ==> (r.calls == if i < maxRetries then maxRetries else i)
    ensures r.outcome.Err? && r.calls == i ==> r.outcome.error == last
    ensures r.outcome.Err? && i < r.calls ==> op(r.calls - 1).Err? && r.outcome.error == Some(op(r.calls - 1).error)
    decreases maxRetries - i
  {
    if maxRetries <= i then Attempted(Err(last), i)
    else
      match op(i)
      case Ok(v) => Attempted(Ok(v), i + 1)
      case Err(e) => RetryFrom(op, maxRetries, i + 1, Some(e))
  }

  /** `retryOperation(op, maxRetries)`. */
  function RetryRun<T, E>(op: nat -> Result<T, E>, maxRetries: int): (r: Attempted<T, E>)
    ensures r.calls <= MaxAttempts(maxRetries)
    ensures forall j :: 0 <= j < r.calls - 1 ==> op(j).Err?
    ensures r.outcome.Ok? ==> 0 < r.calls && op(r.calls - 1) == Ok(r.outcome.value)
    ensures r.outcome.Err? ==> r.calls == MaxAttempts(maxRetries) && forall j :: 0 <= j < r.calls ==> op(j).Err?
    ensures r.outcome.Err? ==> r.outcome.error == if r.calls == 0 then None else Some(op(r.calls - 1).error)
  {
    RetryFrom(op, maxRetries, 0, None)
  }

  /** If some allowed attempt succeeds, so does the retry loop. */
  lemma SucceedsIfSomeAttemptDoes<T, E>(op: nat -> Result<T, E>, maxRetries: int, k: nat)
    requires k < maxRetries && op(k).Ok?
    ensures RetryRun(op, maxRetries).outcome.Ok?
    ensures RetryRun(op, maxRetries).calls <= k + 1
  {
  }

  /** The loop as written: the returned value and the number of calls agree with
      `RetryRun`, and the waits it made are `delay * 2^i` after each failed attempt
      `i` that has another attempt after it, and no others. */
  method RetryOperation<T, E>(op: nat -> Result<T, E>, maxRetries: int, delay: int)
    returns (r: Result<T, Option<E>>, calls: nat, waits: seq<int>)
    ensures Attempted(r, calls) == RetryRun(op, maxRetries)
    ensures |waits| == if calls == 0 then 0 else calls - 1
    ensures forall j :: 0 <= j < |waits| ==> waits[j] == delay * Pow2(j)
  {
    var lastError: Option<E> := None;
    var i: nat := 0;
    calls := 0;
    waits := [];
    while i < maxRetries
      invariant calls == i
      invariant RetryRun(op, maxRetries) == RetryFrom(op, maxRetries, i, lastError)
      invariant |waits| == if i < maxRetries || i == 0 then i else i - 1
      invariant forall j :: 0 <= j < |waits| ==> waits[j] == delay * Pow2(j)
      decreases maxRetries - i
    {
      calls := calls + 1;
      match op(i) {
        case Ok(v) =>
          return Ok(v), calls, waits;
        case Err(e) =>
          lastError := Some(e);
          if i < maxRetries - 1 {
            waits := waits + [delay * Pow2(i)];
          }
      }
      i := i + 1;
    }
    r := Err(lastError);
  }
}
