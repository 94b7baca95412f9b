/**
 * `retry_operation` and `get_path_from_config` (pipeline/common.py, with
 * an identical copy in scripts/common.py).
 *
 * The operation is given as the outcome of each of its calls: `op(k)` is
 * what the call numbered `k` (from 0) returns or raises. `caught` says
 * which exceptions the `exceptions` tuple catches. Sleeping is recorded as
 * the list of requested delays.
 */
module Common {
  import opened Wrappers
  import opened Dicts
  import opened Configuration

  function Pow2(k: nat): (r: nat)
    ensures r >= 1
  {
    if k == 0 then 1 else 2 * Pow2(k - 1)
  }

  /** What a run of `retry_operation` did: its result (or exception), how often it called the operation, and the sleeps it asked for. */
  datatype Run<T> = Run(result: Result<Option<T>>, calls: nat, sleeps: seq<int>)

  /** The attempts from number `k` on. */
  function RetryFrom<T>(op: nat -> Result<T>, caught: Error -> bool, maxRetries: int, retryDelay: int, k: nat): (r: Run<T>)
    ensures r.calls <= (if k < maxRetries then maxRetries - k else 0)
    ensures r.calls == 0 <==> k >= maxRetries
    ensures r.result == Ok(None) <==> k >= maxRetries
    ensures |r.sleeps| == (if r.calls == 0 then 0 else r.calls - 1)
    ensures forall i :: 0 <= i < |r.sleeps| ==> r.sleeps[i] == retryDelay * Pow2(k + i) && r.sleeps[i] >= 0
    decreases if k < maxRetries then maxRetries - k else 0
  {
    if k >= maxRetries then Run(Ok(None), 0, [])
    else
      match op(k)
      case Ok(v) => Run(Ok(Some(v)), 1, [])
      case Err(e) =>
        if !caught(e) || k == maxRetries - 1 then Run(Err(e), 1, [])
        else if retryDelay * Pow2(k) < 0 then Run(Err(ValueError("sleep length must be non-negative")), 1, [])
        else
          var rest := RetryFrom(op, caught, maxRetries, retryDelay, k + 1);
          Run(rest.result, rest.calls + 1, [retryDelay * Pow2(k)] + rest.sleeps)
  }

  /** What `retry_operation(op, max_retries, retry_delay, exceptions)` does. */
  function Retry<T>(op: nat -> Result<T>, caught: Error -> bool, maxRetries: int, retryDelay: int): Run<T> {
    RetryFrom(op, caught, maxRetries, retryDelay, 0)
  }

  method RetryOperation<T>(op: nat -> Result<T>, caught: Error -> bool, maxRetries: int, retryDelay: int)
    returns (result: Result<Option<T>>, calls: nat, sleeps: seq<int>)
    ensures Run(result, calls, sleeps) == Retry(op, caught, maxRetries, retryDelay)
  {
    calls, sleeps := 0, [];
    var attempt: nat := 0;
    while attempt < maxRetries
      invariant calls == attempt
      invariant attempt == 0 || attempt < maxRetries
      invariant var rest := RetryFrom(op, caught, maxRetries, retryDelay, attempt);
        Retry(op, caught, maxRetries, retryDelay) == Run(rest.result, attempt + rest.calls, sleeps + rest.sleeps)
      decreases maxRetries - attempt
    {
      var outcome := op(attempt);
      calls := calls + 1;
      if outcome.Ok? {
        result := Ok(Some(outcome.value));
        return;
      }
      if !caught(outcome.error) || attempt == maxRetries - 1 {
        result := Err(outcome.error);
        return;
      }
      var wait := retryDelay * Pow2(attempt);
      if wait < 0 {
        result := Err(ValueError("sleep length must be non-negative"));
        return;
      }
      sleeps := sleeps + [wait];
      attempt := attempt + 1;
    }
    result := Ok(None);
  }

  /** The attempt failed with an exception the caller asked to retry on. */
  predicate CaughtFailure<T>(op: nat -> Result<T>, caught: Error -> bool, i: nat) {
    op(i).Err? && caught(op(i).error)
  }

  /** Attempts `k` to `j - 1` all fail with a caught exception: the run continues at attempt `j` after one sleep per failure. */
  lemma {:induction false} RetrySkip<T>(op: nat -> Result<T>, caught: Error -> bool, maxRetries: int, retryDelay: int, k: nat, j: nat)
    requires k <= j < maxRetries && retryDelay >= 0
    requires forall i :: k <= i < j ==> CaughtFailure(op, caught, i)
    ensures var from := RetryFrom(op, caught, maxRetries, retryDelay, k);
      var at := RetryFrom(op, caught, maxRetries, retryDelay, j);
      from.result == at.result && from.calls == (j - k) + at.calls &&
      from.sleeps == Delays(retryDelay, k, j) + at.sleeps
    decreases j - k
  {
    if k < j {
      assert CaughtFailure(op, caught, k);
      RetrySkip(op, caught, maxRetries, retryDelay, k + 1, j);
    }
  }

  /** The sleeps requested after attempts `k` to `j - 1`. */
  function Delays(retryDelay: int, k: nat, j: nat): (r: seq<int>)
    requires k <= j
    ensures |r| == j - k
    ensures forall i :: 0 <= i < |r| ==> r[i] == retryDelay * Pow2(k + i)
    decreases j - k
  {
    if k == j then [] else [retryDelay * Pow2(k)] + Delays(retryDelay, k + 1, j)
  }

  /** The first successful attempt is returned, and the operation is not called again. */
  lemma FirstSuccessReturned<T>(op: nat -> Result<T>, caught: Error -> bool, maxRetries: int, retryDelay: int, j: nat)
    requires j < maxRetries && retryDelay >= 0
    requires forall i :: 0 <= i < j ==> CaughtFailure(op, caught, i)
    requires op(j).Ok?
    ensures Retry(op, caught, maxRetries, retryDelay) == Run(Ok(Some(op(j).value)), j + 1, Delays(retryDelay, 0, j))
  {
    RetrySkip(op, caught, maxRetries, retryDelay, 0, j);
  }

  /** When every attempt fails, the last exception is re-raised after `max_retries` calls, and there is no sleep after the final one. */
  lemma LastErrorRaised<T>(op: nat -> Result<T>, caught: Error -> bool, maxRetries: int, retryDelay: int)
    requires 0 < maxRetries && retryDelay >= 0
    requires forall i :: 0 <= i < maxRetries ==> op(i).Err? && caught(op(i).error)
    ensures Retry(op, caught, maxRetries, retryDelay) == Run(Err(op(maxRetries - 1).error), maxRetries, Delays(retryDelay, 0, maxRetries - 1))
  {
    RetrySkip(op, caught, maxRetries, retryDelay, 0, maxRetries - 1);
  }

  /** An exception outside `exceptions` escapes at once, without a sleep. */
  lemma UncaughtEscapes<T>(op: nat -> Result<T>, caught: Error -> bool, maxRetries: int, retryDelay: int, j: nat)
    requires j < maxRetries && retryDelay >= 0
    requires forall i :: 0 <= i < j ==> CaughtFailure(op, caught, i)
    requires op(j).Err? && !caught(op(j).error)
    ensures Retry(op, caught, maxRetries, retryDelay) == Run(Err(op(j).error), j + 1, Delays(retryDelay, 0, j))
  {
    RetrySkip(op, caught, maxRetries, retryDelay, 0, j);
  }

  /** The default `exceptions=(Exception,)` catches every error. */
  predicate CatchAll(e: Error) { true }

  /** With the defaults (3 attempts, 5 seconds) and an operation that always fails, the waits are 5 s and then 10 s. */
  lemma DefaultBackoff<T>(op: nat -> Result<T>)
    requires forall i :: 0 <= i < 3 ==> op(i).Err?
    ensures Retry(op, CatchAll, 3, 5) == Run(Err(op(2).error), 3, [5, 10])
  {
    LastErrorRaised(op, CatchAll, 3, 5);
    assert Delays(5, 0, 2) == [5, 10];
  }

  /** `config.get('paths', {}).get(path_key, default_path)` */
  function PathSetting(paths: Option<Dict<string>>, key: string, default: string): (s: string)
    ensures paths.Some? && key in Keys(paths.value) ==> (key, s) in paths.value
    ensures paths.None? || key !in Keys(paths.value) ==> s == default
  {
    if paths.None? then default
    else match Get(paths.value, key)
      case Some(v) => v
      case None => default
  }

  /** `get_path_from_config`: the setting (or the default) as a path; a relative one is taken below the project root. */
  function GetPathFromConfig(config: Config, key: string, default: string, projectRoot: FsPath): (r: FsPath)
    ensures var s := PathSetting(config.paths, key, default);
      (ParsePath(s).absolute ==> r == ParsePath(s)) &&
      (!ParsePath(s).absolute ==> r.absolute == projectRoot.absolute && r.parts == projectRoot.parts + ParsePath(s).parts)
  {
    Resolve(projectRoot, PathSetting(config.paths, key, default))
  }
}
