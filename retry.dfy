/**
 * `generateWithRetry`: call the model client up to `maxAttempts` times,
 * sleeping with backoff after each overloaded (503) failure, and throw one
 * wrapped error when retrying stops.
 *
 * The model client is an oracle from the call number (counted from 0) to
 * what that call does; `Math.random()` is the oracle `draws`, read once per
 * overloaded failure. Sleeping and the overload warning are recorded as
 * events of a trace instead of taking time or printing.
 */
module Retry {
  import opened Wrappers
  import opened JsValues
  import opened Backoff
  import opened Status

  /** The parameters handed to the model client: the model name and the prompt. */
  datatype Request = Request(model: string, contents: string)

  /** What one call of the model client does: return a response, or throw. */
  datatype Outcome = Returned(response: Value) | Threw(error: Value)

  /** The retry options: `maxAttempts`, `baseDelay` and `maxDelay` (milliseconds). */
  datatype Policy = Policy(maxAttempts: int, baseDelay: int, maxDelay: int)

  /**
   * The observable steps of a run: a call of the model client with its
   * attempt number, the overload warning with the delay computed for it,
   * and a sleep.
   */
  datatype Event = Called(attempt: int) | OverloadLogged(attempt: int, delay: int) | Slept(delay: int)

  /** The model client: what the call numbered `i` (from 0) does when given a request. */
  type Remote = (Request, nat) -> Outcome

  /** `Math.random()`: the draw made for the attempt numbered `i + 1`. */
  type Draws = nat -> real

  /** Which failures are retried; the service uses Status.IsOverloaded. */
  type Classifier = Value -> bool

  /** A call that threw a failure the classifier retries. */
  predicate RetryableThrow(o: Outcome, retryable: Classifier) {
    o.Threw? && retryable(o.error)
  }

  /** How the loop ends: with a returned response, or with the last failure seen. */
  datatype Exit = Responded(response: Value) | GaveUp(lastErr: Value)

  /**
   * The loop from attempt `attempt` on, `lastErr` being the last failure seen
   * so far: how it ends, and its trace. It is stated for any classifier, so
   * that the lemmas below hold whatever decides a failure is transient.
   */
  function RetryFrom(attempt: nat, lastErr: Value, p: Policy, request: Request, remote: Remote, draws: Draws,
                     retryable: Classifier)
    : (run: (Exit, seq<Event>))
    requires 1 <= attempt
    ensures attempt <= p.maxAttempts <==> run.1 != []
    ensures run.1 != [] ==> run.1[0] == Called(attempt)
    decreases p.maxAttempts - attempt
  {
    if attempt > p.maxAttempts then (GaveUp(lastErr), [])
    else match remote(request, attempt - 1)
      case Returned(response) => (Responded(response), [Called(attempt)])
      case Threw(err) =>
        if !retryable(err) then (GaveUp(err), [Called(attempt)])
        else
          var delay := BackoffDelay(attempt, p.baseDelay, p.maxDelay, draws(attempt - 1));
          if attempt < p.maxAttempts then
            var rest := RetryFrom(attempt + 1, err, p, request, remote, draws, retryable);
            (rest.0, [Called(attempt), OverloadLogged(attempt, delay), Slept(delay)] + rest.1)
          else
            (GaveUp(err), [Called(attempt), OverloadLogged(attempt, delay)])
  }

  /** After the loop: return the response, or throw the last failure wrapped. */
  function Finish(exit: Exit): (r: Result<Value, ServiceError>)
    ensures exit.Responded? <==> r.Success?
    ensures r.Success? ==> r.value == exit.response
    ensures r.Failure? ==> r.error.raw == exit.lastErr && ErrorPrefix <= r.error.message
  {
    match exit
    case Responded(response) => Success(response)
    case GaveUp(lastErr) => Failure(WrapError(lastErr))
  }

  /** `generateWithRetry`: the loop, proved to follow RetryFrom from the first attempt, then Finish. */
  method GenerateWithRetry(request: Request, p: Policy, remote: Remote, draws: Draws)
    returns (result: Result<Value, ServiceError>, trace: seq<Event>)
    ensures var run := RetryFrom(1, Null, p, request, remote, draws, IsOverloaded);
      result == Finish(run.0) && trace == run.1
  {
    var lastErr := Null;
    var attempt: nat := 1;
    trace := [];
    ghost var run := RetryFrom(1, Null, p, request, remote, draws, IsOverloaded);
    assert trace + RetryFrom(attempt, lastErr, p, request, remote, draws, IsOverloaded).1 == run.1;
    while attempt <= p.maxAttempts
      invariant 1 <= attempt
      invariant run.0 == RetryFrom(attempt, lastErr, p, request, remote, draws, IsOverloaded).0
      invariant run.1 == trace + RetryFrom(attempt, lastErr, p, request, remote, draws, IsOverloaded).1
      decreases p.maxAttempts - attempt
    {
      ghost var before, old_lastErr := trace, lastErr;
      trace := trace + [Called(attempt)];
      var outcome := remote(request, attempt - 1);
      match outcome {
        case Returned(response) =>
          return Success(response), trace;
        case Threw(err) =>
          lastErr := err;
          if IsOverloaded(err) {
            var delay := BackoffDelay(attempt, p.baseDelay, p.maxDelay, draws(attempt - 1));
            trace := trace + [OverloadLogged(attempt, delay)];
            if attempt < p.maxAttempts {
              trace := trace + [Slept(delay)];
              AppendEvents(before, Called(attempt), OverloadLogged(attempt, delay), Slept(delay));
              RoundRetries(attempt, old_lastErr, p, request, remote, draws, IsOverloaded, err);
              AppendAssociates(before, [Called(attempt), OverloadLogged(attempt, delay), Slept(delay)],
                               RetryFrom(attempt + 1, err, p, request, remote, draws, IsOverloaded).1);
              attempt := attempt + 1;
              continue;
            }
            AppendEvents(before, Called(attempt), OverloadLogged(attempt, delay), Slept(delay));
          }
          RoundStops(attempt, old_lastErr, p, request, remote, draws, IsOverloaded, err);
          assert before + RetryFrom(attempt, old_lastErr, p, request, remote, draws, IsOverloaded).1 == trace;
          break;
      }
    }
    result := Failure(WrapError(lastErr));
  }

  /** Appending events one at a time gives the same trace as appending them together. */
  lemma AppendEvents(t: seq<Event>, a: Event, b: Event, c: Event)
    ensures t + [a] + [b] == t + [a, b]
    ensures t + [a] + [b] + [c] == t + [a, b, c]
  {
  }

  /** Appending a round and the rest of a run to a trace, in either grouping. */
  lemma AppendAssociates(t: seq<Event>, round: seq<Event>, rest: seq<Event>)
    ensures t + (round + rest) == t + round + rest
  {
  }

  /**
   * A round that ends the loop: a failure that is not retried, or a retried
   * failure on the last attempt, which is warned about but not slept on.
   */
  lemma RoundStops(attempt: nat, lastErr: Value, p: Policy, request: Request, remote: Remote, draws: Draws,
                   retryable: Classifier, err: Value)
    requires 1 <= attempt <= p.maxAttempts
    requires remote(request, attempt - 1) == Threw(err) && (!retryable(err) || attempt == p.maxAttempts)
    ensures var delay := BackoffDelay(attempt, p.baseDelay, p.maxDelay, draws(attempt - 1));
      var run := RetryFrom(attempt, lastErr, p, request, remote, draws, retryable);
      && run.0 == GaveUp(err)
      && run.1 == (if retryable(err) then [Called(attempt), OverloadLogged(attempt, delay)] else [Called(attempt)])
  {
  }

  /** A retried round: the run from `attempt` is that round's three events followed by the run from the next attempt. */
  lemma RoundRetries(attempt: nat, lastErr: Value, p: Policy, request: Request, remote: Remote, draws: Draws,
                     retryable: Classifier, err: Value)
    requires 1 <= attempt < p.maxAttempts
    requires remote(request, attempt - 1) == Threw(err) && retryable(err)
    ensures var delay := BackoffDelay(attempt, p.baseDelay, p.maxDelay, draws(attempt - 1));
      var run, next := RetryFrom(attempt, lastErr, p, request, remote, draws, retryable),
                       RetryFrom(attempt + 1, err, p, request, remote, draws, retryable);
      && run.0 == next.0
      && run.1 == [Called(attempt), OverloadLogged(attempt, delay), Slept(delay)] + next.1
  {
  }

  /** The number of calls of the model client in a trace. */
  function Calls(t: seq<Event>): (n: nat)
    ensures n <= |t|
  {
    if t == [] then 0 else (if t[0].Called? then 1 else 0) + Calls(t[1..])
  }

  /** The number of sleeps in a trace. */
  function Sleeps(t: seq<Event>): (n: nat)
    ensures n <= |t|
  {
    if t == [] then 0 else (if t[0].Slept? then 1 else 0) + Sleeps(t[1..])
  }

  /** The number of overload warnings in a trace. */
  function Warnings(t: seq<Event>): (n: nat)
    ensures n <= |t|
  {
    if t == [] then 0 else (if t[0].OverloadLogged? then 1 else 0) + Warnings(t[1..])
  }

  lemma {:induction false} CountsAppend(a: seq<Event>, b: seq<Event>)
    ensures Calls(a + b) == Calls(a) + Calls(b)
    ensures Sleeps(a + b) == Sleeps(a) + Sleeps(b)
    ensures Warnings(a + b) == Warnings(a) + Warnings(b)
  {
    if a == [] {
      assert a + b == b;
    } else {
      assert (a + b)[1..] == a[1..] + b;
      CountsAppend(a[1..], b);
    }
  }

  /** The counts of one retried round: a call, a warning and a sleep. */
  lemma RoundCounts(attempt: int, delay: int, rest: seq<Event>)
    ensures var t := [Called(attempt), OverloadLogged(attempt, delay), Slept(delay)] + rest;
      Calls(t) == Calls(rest) + 1 && Sleeps(t) == Sleeps(rest) + 1 && Warnings(t) == Warnings(rest) + 1
  {
    var last: seq<Event> := [Slept(delay)];
    assert last[1..] == [];
    assert Calls(last) == 0 && Sleeps(last) == 1 && Warnings(last) == 0;
    var middle := [OverloadLogged(attempt, delay)] + last;
    assert middle[1..] == last;
    assert Calls(middle) == 0 && Sleeps(middle) == 1 && Warnings(middle) == 1;
    var round := [Called(attempt)] + middle;
    assert round[1..] == middle;
    assert Calls(round) == 1 && Sleeps(round) == 1 && Warnings(round) == 1;
    assert round == [Called(attempt), OverloadLogged(attempt, delay), Slept(delay)];
    CountsAppend(round, rest);
  }

  /**
   * If call `k` returns and every call before it from attempt `attempt` on
   * threw a retried failure, that response is the result, unchanged: `k` is the last
   * call, preceded by one sleep per earlier call.
   */
  lemma {:induction false} RunSucceedsAt(attempt: nat, lastErr: Value, p: Policy, request: Request, remote: Remote, draws: Draws,
                                         retryable: Classifier, k: nat, response: Value)
    requires 1 <= attempt <= k + 1 && k < p.maxAttempts
    requires remote(request, k) == Returned(response)
    requires forall j :: attempt - 1 <= j < k ==> RetryableThrow(remote(request, j), retryable)
    ensures var run := RetryFrom(attempt, lastErr, p, request, remote, draws, retryable);
      && run.0 == Responded(response)
      && Calls(run.1) == k + 2 - attempt
      && Sleeps(run.1) == k + 1 - attempt
      && run.1 != [] && run.1[|run.1| - 1] == Called(k + 1)
    decreases k + 1 - attempt
  {
    if attempt <= k {
      assert RetryableThrow(remote(request, attempt - 1), retryable);
      var err := remote(request, attempt - 1).error;
      RunSucceedsAt(attempt + 1, err, p, request, remote, draws, retryable, k, response);
      var delay := BackoffDelay(attempt, p.baseDelay, p.maxDelay, draws(attempt - 1));
      RoundCounts(attempt, delay, RetryFrom(attempt + 1, err, p, request, remote, draws, retryable).1);
    }
  }

  /**
   * If call `k` throws a failure that is not retried, and every call before
   * it threw a retried one, the loop gives up there with that failure, and
   * `k` is the last call.
   */
  lemma {:induction false} RunFailsAt(attempt: nat, lastErr: Value, p: Policy, request: Request, remote: Remote, draws: Draws,
                                      retryable: Classifier, k: nat, err: Value)
    requires 1 <= attempt <= k + 1 && k < p.maxAttempts
    requires remote(request, k) == Threw(err) && !retryable(err)
    requires forall j :: attempt - 1 <= j < k ==> RetryableThrow(remote(request, j), retryable)
    ensures var run := RetryFrom(attempt, lastErr, p, request, remote, draws, retryable);
      && run.0 == GaveUp(err)
      && Calls(run.1) == k + 2 - attempt
      && Sleeps(run.1) == k + 1 - attempt
      && run.1 != [] && run.1[|run.1| - 1] == Called(k + 1)
    decreases k + 1 - attempt
  {
    if attempt <= k {
      assert RetryableThrow(remote(request, attempt - 1), retryable);
      var prev := remote(request, attempt - 1).error;
      RunFailsAt(attempt + 1, prev, p, request, remote, draws, retryable, k, err);
      var delay := BackoffDelay(attempt, p.baseDelay, p.maxDelay, draws(attempt - 1));
      RoundCounts(attempt, delay, RetryFrom(attempt + 1, prev, p, request, remote, draws, retryable).1);
    }
  }

  /**
   * If every remaining call fails with a retried failure, all of them are
   * made: one sleep after each but the last, a warning with a computed delay
   * for each, the last one included, and the loop gives up with the last
   * failure.
   */
  lemma {:induction false} RunExhausted(attempt: nat, lastErr: Value, p: Policy, request: Request, remote: Remote, draws: Draws,
                                        retryable: Classifier)
    requires 1 <= attempt <= p.maxAttempts
    requires forall j :: attempt - 1 <= j < p.maxAttempts ==> RetryableThrow(remote(request, j), retryable)
    ensures var run := RetryFrom(attempt, lastErr, p, request, remote, draws, retryable);
      && run.0.GaveUp? && RetryableThrow(remote(request, p.maxAttempts - 1), retryable)
      && run.0.lastErr == remote(request, p.maxAttempts - 1).error
      && Calls(run.1) == p.maxAttempts - attempt + 1
      && Warnings(run.1) == p.maxAttempts - attempt + 1
      && Sleeps(run.1) == p.maxAttempts - attempt
    decreases p.maxAttempts - attempt
  {
    assert RetryableThrow(remote(request, attempt - 1), retryable);
    var err := remote(request, attempt - 1).error;
    if attempt < p.maxAttempts {
      RunExhausted(attempt + 1, err, p, request, remote, draws, retryable);
      var delay := BackoffDelay(attempt, p.baseDelay, p.maxDelay, draws(attempt - 1));
      RoundCounts(attempt, delay, RetryFrom(attempt + 1, err, p, request, remote, draws, retryable).1);
    }
  }

  /**
   * In every run the model client is called at most once per remaining
   * attempt, and there is exactly one sleep between consecutive calls and
   * none after the last.
   */
  lemma {:induction false} RunCallsBounded(attempt: nat, lastErr: Value, p: Policy, request: Request, remote: Remote, draws: Draws,
                                           retryable: Classifier)
    requires 1 <= attempt
    ensures var run := RetryFrom(attempt, lastErr, p, request, remote, draws, retryable);
      && Calls(run.1) <= (if p.maxAttempts < attempt then 0 else p.maxAttempts - attempt + 1)
      && Sleeps(run.1) == (if Calls(run.1) == 0 then 0 else Calls(run.1) - 1)
    decreases p.maxAttempts - attempt
  {
    if attempt <= p.maxAttempts && RetryableThrow(remote(request, attempt - 1), retryable) && attempt < p.maxAttempts {
      var err := remote(request, attempt - 1).error;
      RunCallsBounded(attempt + 1, err, p, request, remote, draws, retryable);
      var delay := BackoffDelay(attempt, p.baseDelay, p.maxDelay, draws(attempt - 1));
      RoundCounts(attempt, delay, RetryFrom(attempt + 1, err, p, request, remote, draws, retryable).1);
    }
  }

  /** Every sleep in `t` lasts between `lo` and `hi` milliseconds. */
  ghost predicate SleepsWithin(t: seq<Event>, lo: int, hi: int) {
    forall i :: 0 <= i < |t| && t[i].Slept? ==> lo <= t[i].delay <= hi
  }

  /** Traces without a sleep, and one retried round followed by a trace that keeps the bounds. */
  lemma SleepsWithinRound(attempt: int, delay: int, rest: seq<Event>, lo: int, hi: int)
    requires lo <= delay <= hi && SleepsWithin(rest, lo, hi)
    ensures SleepsWithin([Called(attempt), OverloadLogged(attempt, delay), Slept(delay)] + rest, lo, hi)
    ensures SleepsWithin([Called(attempt)], lo, hi)
    ensures SleepsWithin([Called(attempt), OverloadLogged(attempt, delay)], lo, hi)
    ensures SleepsWithin([], lo, hi)
  {
    var t := [Called(attempt), OverloadLogged(attempt, delay), Slept(delay)] + rest;
    forall i | 0 <= i < |t| && t[i].Slept?
      ensures lo <= t[i].delay <= hi
    {
      if 3 <= i {
        assert t[i] == rest[i - 3];
      }
    }
  }

  /**
   * With a non-negative base delay, a cap of at least half of it and draws
   * in [0, 1), every sleep lasts between round(baseDelay/2) and maxDelay.
   */
  lemma {:induction false} RunDelaysBounded(attempt: nat, lastErr: Value, p: Policy, request: Request, remote: Remote, draws: Draws,
                                            retryable: Classifier)
    requires 1 <= attempt
    requires 0 <= p.baseDelay <= 2 * p.maxDelay
    requires forall i: nat :: 0.0 <= draws(i) < 1.0
    ensures SleepsWithin(RetryFrom(attempt, lastErr, p, request, remote, draws, retryable).1, Round(Half(p.baseDelay)), p.maxDelay)
    decreases p.maxAttempts - attempt
  {
    var lo, hi := Round(Half(p.baseDelay)), p.maxDelay;
    if attempt <= p.maxAttempts {
      DelayWithinPolicy(attempt, p.baseDelay, p.maxDelay, draws(attempt - 1));
      var delay := BackoffDelay(attempt, p.baseDelay, p.maxDelay, draws(attempt - 1));
      if RetryableThrow(remote(request, attempt - 1), retryable) && attempt < p.maxAttempts {
        var err := remote(request, attempt - 1).error;
        RunDelaysBounded(attempt + 1, err, p, request, remote, draws, retryable);
        SleepsWithinRound(attempt, delay, RetryFrom(attempt + 1, err, p, request, remote, draws, retryable).1, lo, hi);
      } else {
        SleepsWithinRound(attempt, delay, [], lo, hi);
      }
    } else {
      SleepsWithinRound(attempt, lo, [], lo, hi);
    }
  }

  /** With `maxAttempts` below 1 no call is made and the error is status 500, "AI service error: null". */
  lemma RunWithoutAttempts(p: Policy, request: Request, remote: Remote, draws: Draws, retryable: Classifier)
    requires p.maxAttempts < 1
    ensures var run := RetryFrom(1, Null, p, request, remote, draws, retryable);
      && run.1 == []
      && Finish(run.0) == Failure(ServiceError(DefaultStatus, "AI service error: null", Null))
  {
    WrapNothing();
  }
}
