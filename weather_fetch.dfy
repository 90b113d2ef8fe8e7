/**
  The retry policy of `WeatherService.get_weather`
  (bot/services/weather/get_data.py): up to `max_retries` attempts, each
  classified by its outcome, with an exponential, jittered pause between
  retryable attempts.

  The network is not modelled: the outcome of attempt number i (counted
  from 1, as the loop counts) is `env(i).outcome`, and `env(i).clock` is the
  monotonic clock read just after that attempt. That one reading serves both
  as the loop time that feeds the jitter and as the timestamp of the cache
  entry written when the loop ends after that attempt; no attempt uses both.
*/
module WeatherFetch {
  import opened Wrappers
  import opened WeatherReport

  /**
    How one request ended.  `HttpStatus` stands for `raise_for_status`
    rejecting the response (any status outside 2xx); `MissingPayload` is a
    2xx body whose `current_weather` field is absent or empty; `OtherError`
    is any other exception (undecodable JSON, a payload the report model
    rejects, ...).
  */
  datatype Outcome =
    | Success(report: Report)
    | MissingPayload
    | HttpStatus(code: int)
    | TransportError
    | OtherError

  datatype Attempt = Attempt(outcome: Outcome, clock: real)

  predicate ClientError(code: int)
  {
    400 <= code < 500
  }

  /** Outcomes after which the loop makes no further attempt. */
  predicate Terminal(o: Outcome)
  {
    o.Success? || o.MissingPayload? || (o.HttpStatus? && ClientError(o.code))
  }

  /** What a terminal outcome makes `get_weather` return. */
  function Verdict(o: Outcome): (r: Option<Report>)
    ensures r.Some? <==> o.Success?
    ensures o.Success? ==> r == Some(o.report)
  {
    if o.Success? then Some(o.report) else None
  }

  function Pow2(n: nat): (p: nat)
    ensures p >= 1
  {
    if n == 0 then 1 else 2 * Pow2(n - 1)
  }

  /** The base pause after attempt number `attempt`: backoff * 2^(attempt-1). */
  function BaseDelay(backoff: real, attempt: nat): real
    requires attempt >= 1
  {
    backoff * Pow2(attempt - 1) as real
  }

  /** Python's `t % 1` for a float: the fractional part, in [0, 1). */
  function Frac(t: real): (f: real)
    ensures 0.0 <= f < 1.0
    ensures (t - f).Floor as real == t - f
  {
    t - t.Floor as real
  }

  /** The jittered wait: base + base/10 * (0.5 - frac(loop time)). */
  function Wait(backoff: real, attempt: nat, loopTime: real): real
    requires attempt >= 1
  {
    var b := BaseDelay(backoff, attempt);
    b + (b * 0.1) * (0.5 - Frac(loopTime))
  }

  /** The pause actually slept: the wait, floored at 0.1 seconds. */
  function Pause(backoff: real, attempt: nat, loopTime: real): (s: real)
    requires attempt >= 1
    ensures s >= 0.1
    ensures s >= Wait(backoff, attempt, loopTime)
    ensures s == 0.1 || s == Wait(backoff, attempt, loopTime)
  {
    var w := Wait(backoff, attempt, loopTime);
    if w > 0.1 then w else 0.1
  }

  /**
    For a positive backoff factor the wait lies in (0.95 b, 1.05 b], where
    b = backoff * 2^(attempt-1), and each further attempt doubles b.
  */
  lemma WaitBounds(backoff: real, attempt: nat, loopTime: real)
    requires backoff > 0.0 && attempt >= 1
    ensures var b := BaseDelay(backoff, attempt);
            b > 0.0 && 0.95 * b < Wait(backoff, attempt, loopTime) <= 1.05 * b
    ensures BaseDelay(backoff, attempt + 1) == 2.0 * BaseDelay(backoff, attempt)
  {
  }

  /** What one call's retry loop produces. */
  datatype Fetched = Fetched(
    report: Option<Report>,   // the value returned
    attempts: nat,            // how many requests were sent
    sleeps: seq<real>,        // the pauses slept, in order
    storedAt: real)           // the clock reading the cache entry gets

  /**
    The loop from attempt number `attempt` on; `since` is the clock reading
    after the previous attempt (the lookup time before the first).
  */
  function Retry(env: nat -> Attempt, attempt: nat, maxRetries: int, backoff: real, since: real): (r: Fetched)
    requires attempt >= 1
    ensures attempt > maxRetries ==> r.attempts == attempt - 1 && r.report == None && r.sleeps == []
    ensures attempt <= maxRetries ==> attempt <= r.attempts <= maxRetries && |r.sleeps| == r.attempts - attempt
    ensures r.report.Some? ==> attempt <= r.attempts && env(r.attempts).outcome == Success(r.report.value)
    decreases maxRetries - attempt
  {
    if attempt > maxRetries then Fetched(None, attempt - 1, [], since)
    else
      var a := env(attempt);
      if Terminal(a.outcome) then Fetched(Verdict(a.outcome), attempt, [], a.clock)
      else
        var pause := if attempt < maxRetries then [Pause(backoff, attempt, a.clock)] else [];
        var rest := Retry(env, attempt + 1, maxRetries, backoff, a.clock);
        rest.(sleeps := pause + rest.sleeps)
  }

  /** The loop of one `get_weather` call, starting at attempt 1 after a lookup at `now`. */
  function Fetch(env: nat -> Attempt, maxRetries: int, backoff: real, now: real): (f: Fetched)
    ensures maxRetries >= 1 ==> 1 <= f.attempts <= maxRetries && |f.sleeps| == f.attempts - 1
    ensures maxRetries < 1 ==> f.attempts == 0 && f.report == None && f.sleeps == []
    ensures f.report.Some? ==> env(f.attempts).outcome == Success(f.report.value)
  {
    Retry(env, 1, maxRetries, backoff, now)
  }

  /**
    Everything about the loop from attempt k on: attempts run until the
    first terminal outcome or until `maxRetries`; every earlier attempt was
    retryable; the value is the terminal outcome's verdict, or None when
    retries ran out; one pause follows every attempt but the last.
  */
  lemma {:induction false} RetryShape(env: nat -> Attempt, k: nat, maxRetries: int, backoff: real, since: real)
    requires k >= 1
    ensures var f := Retry(env, k, maxRetries, backoff, since);
      && (k > maxRetries ==> f == Fetched(None, k - 1, [], since))
      && (k <= maxRetries ==>
            && k <= f.attempts <= maxRetries
            && (forall i :: k <= i < f.attempts ==> !Terminal(env(i).outcome))
            && f.storedAt == env(f.attempts).clock
            && (if Terminal(env(f.attempts).outcome)
                then f.report == Verdict(env(f.attempts).outcome)
                else f.attempts == maxRetries && f.report == None)
            && |f.sleeps| == f.attempts - k
            && (forall j :: 0 <= j < |f.sleeps| ==> f.sleeps[j] == Pause(backoff, k + j, env(k + j).clock)))
    decreases maxRetries - k
  {
    if k <= maxRetries && !Terminal(env(k).outcome) {
      RetryShape(env, k + 1, maxRetries, backoff, env(k).clock);
      var f := Retry(env, k, maxRetries, backoff, since);
      var rest := Retry(env, k + 1, maxRetries, backoff, env(k).clock);
      if k < maxRetries {
        assert f.sleeps == [Pause(backoff, k, env(k).clock)] + rest.sleeps;
        forall j | 0 <= j < |f.sleeps|
          ensures f.sleeps[j] == Pause(backoff, k + j, env(k + j).clock)
        {
          if j > 0 {
            assert f.sleeps[j] == rest.sleeps[j - 1];
          }
        }
      }
    }
  }

  /**
    The number of attempts in one call is between 1 and `maxRetries`
    (none at all when `maxRetries` is below 1), and every attempt but the
    last one had a retryable outcome.
  */
  lemma AttemptBounds(env: nat -> Attempt, maxRetries: int, backoff: real, now: real)
    ensures var f := Fetch(env, maxRetries, backoff, now);
      && (maxRetries >= 1 ==> 1 <= f.attempts <= maxRetries)
      && (maxRetries < 1 ==> f.attempts == 0 && f.report == None && f.sleeps == [])
      && (forall i :: 1 <= i < f.attempts ==> !Terminal(env(i).outcome))
  {
    RetryShape(env, 1, maxRetries, backoff, now);
  }

  /**
    The first terminal outcome ends the loop: a success returns its report,
    a missing payload or a 4xx status returns None. No attempt follows it
    and no pause is slept after it.
  */
  lemma FirstTerminalEndsLoop(env: nat -> Attempt, maxRetries: int, backoff: real, now: real, k: nat)
    requires 1 <= k <= maxRetries
    requires Terminal(env(k).outcome)
    requires forall i :: 1 <= i < k ==> !Terminal(env(i).outcome)
    ensures var f := Fetch(env, maxRetries, backoff, now);
      && f.attempts == k
      && f.report == Verdict(env(k).outcome)
      && f.storedAt == env(k).clock
      && |f.sleeps| == k - 1
  {
    RetryShape(env, 1, maxRetries, backoff, now);
  }

  /** A 4xx status stops the loop at once and yields None. */
  lemma ClientErrorStops(env: nat -> Attempt, maxRetries: int, backoff: real, now: real, k: nat)
    requires 1 <= k <= maxRetries
    requires env(k).outcome.HttpStatus? && 400 <= env(k).outcome.code < 500
    requires forall i :: 1 <= i < k ==> !Terminal(env(i).outcome)
    ensures var f := Fetch(env, maxRetries, backoff, now);
      f.attempts == k && f.report == None && |f.sleeps| == k - 1
  {
    FirstTerminalEndsLoop(env, maxRetries, backoff, now, k);
  }

  /**
    When no attempt is terminal, every one of the `maxRetries` attempts is
    made, the result is None, and the pauses are exactly those after
    attempts 1 .. maxRetries-1.
  */
  lemma ExhaustedRetries(env: nat -> Attempt, maxRetries: int, backoff: real, now: real)
    requires maxRetries >= 1
    requires forall i :: 1 <= i <= maxRetries ==> !Terminal(env(i).outcome)
    ensures var f := Fetch(env, maxRetries, backoff, now);
      && f.attempts == maxRetries
      && f.report == None
      && f.storedAt == env(maxRetries).clock
      && |f.sleeps| == maxRetries - 1
      && (forall j :: 0 <= j < |f.sleeps| ==> f.sleeps[j] == Pause(backoff, j + 1, env(j + 1).clock))
  {
    RetryShape(env, 1, maxRetries, backoff, now);
  }

  /** Every pause between attempts is at least 0.1 s and, for a positive backoff factor, close to its base delay. */
  lemma PausesBounded(env: nat -> Attempt, maxRetries: int, backoff: real, now: real, j: nat)
    requires j < |Fetch(env, maxRetries, backoff, now).sleeps|
    ensures var s := Fetch(env, maxRetries, backoff, now).sleeps[j];
      && s >= 0.1
      && (backoff > 0.0 ==>
            var b := BaseDelay(backoff, j + 1);
            s == 0.1 || 0.95 * b < s <= 1.05 * b)
  {
    RetryShape(env, 1, maxRetries, backoff, now);
    if backoff > 0.0 {
      WaitBounds(backoff, j + 1, env(j + 1).clock);
    }
  }
}
