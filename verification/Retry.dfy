/** Exponential backoff with full jitter, and the loop that retries transient failures only. */
module Retry {
  import opened Prelude

  /** How one call of the operation ends. Anything but a transient error propagates at once. */
  datatype Attempt<+T> =
    | Returned(value: T)
    | TransientError(detail: string)
    | PermanentError(reason: Reason)
    | UnexpectedError(detail: string)

  datatype RetryError = ValueError

  function Pow2(n: nat): (r: real)
    ensures r >= 1.0
  {
    if n == 0 then 1.0 else 2.0 * Pow2(n - 1)
  }

  /** min(max_delay, base_delay * 2 ** (attempt - 1)) */
  function Ceiling(attempt: nat, base: real, maxDelay: real): real
    requires attempt >= 1
  {
    var ramp := base * Pow2(attempt - 1);
    if ramp < maxDelay then ramp else maxDelay
  }

  /** The ceiling starts at `base_delay` and doubles with every attempt up to `max_delay`. */
  lemma CeilingDoubles(attempt: nat, base: real, maxDelay: real)
    requires attempt >= 1 && base >= 0.0 && maxDelay >= 0.0
    ensures Ceiling(1, base, maxDelay) == if base < maxDelay then base else maxDelay
    ensures Ceiling(attempt + 1, base, maxDelay) ==
            if 2.0 * Ceiling(attempt, base, maxDelay) < maxDelay then 2.0 * Ceiling(attempt, base, maxDelay) else maxDelay
  {
    var ramp := base * Pow2(attempt - 1);
    assert base * Pow2(attempt) == 2.0 * ramp;
    assert base * Pow2(0) == base;
  }

  /** What `random.uniform(0, ceiling)` can return, for either sign of the ceiling. */
  predicate Jittered(delay: real, ceiling: real) {
    0.0 <= delay <= ceiling || ceiling <= delay <= 0.0
  }

  method Random() returns (u: real)
    ensures 0.0 <= u <= 1.0
  {
    u := *;
    if u < 0.0 || u > 1.0 { u := 0.0; }
  }

  method BackoffDelay(attempt: int, base: real, maxDelay: real) returns (r: Result<real, RetryError>)
    ensures attempt < 1 ==> r == Err(ValueError)
    ensures attempt >= 1 ==> r.Ok? && Jittered(r.value, Ceiling(attempt, base, maxDelay))
  {
    if attempt < 1 { return Err(ValueError); }
    var ceiling := Ceiling(attempt, base, maxDelay);
    var u := Random();
    ScaleJitter(u, ceiling);
    r := Ok(u * ceiling);
  }

  lemma NonNegative(x: real, y: real)
    requires x >= 0.0 && y >= 0.0
    ensures x * y >= 0.0
  {
  }

  lemma ScaleJitter(u: real, ceiling: real)
    requires 0.0 <= u <= 1.0
    ensures Jittered(u * ceiling, ceiling)
  {
    if ceiling >= 0.0 {
      NonNegative(u, ceiling);
      NonNegative(1.0 - u, ceiling);
      assert (1.0 - u) * ceiling == ceiling - u * ceiling;
    } else {
      var c := -ceiling;
      NonNegative(u, c);
      NonNegative(1.0 - u, c);
      assert (1.0 - u) * c == c - u * c;
      assert u * ceiling == -(u * c);
    }
  }

  /** The outcome sequence `script` is answered by its call number `calls` within `maxAttempts`. */
  ghost predicate Settles<T(!new)>(script: nat -> Attempt<T>, maxAttempts: nat, calls: nat) {
    && 1 <= calls <= maxAttempts
    && (forall i: nat :: i < calls - 1 ==> script(i).TransientError?)
    && (script(calls - 1).TransientError? ==> calls == maxAttempts)
  }

  /** There is exactly one such number of calls, whatever the outcomes are. */
  lemma SettlesOnce<T(!new)>(script: nat -> Attempt<T>, maxAttempts: nat, m: nat, n: nat)
    requires Settles(script, maxAttempts, m) && Settles(script, maxAttempts, n)
    ensures m == n
  {
  }

  /** The outcome sequence of which a loop has seen `log`. */
  ghost function Replay<T>(log: seq<Attempt<T>>): nat -> Attempt<T>
    requires log != []
  {
    (i: nat) => if i < |log| then log[i] else log[|log| - 1]
  }

  /** A loop that stopped at the first outcome that is not transient, or at the last allowed. */
  lemma StoppedIsSettled<T(!new)>(log: seq<Attempt<T>>, maxAttempts: nat)
    requires 1 <= |log| <= maxAttempts
    requires forall i :: 0 <= i < |log| - 1 ==> log[i].TransientError?
    requires log[|log| - 1].TransientError? ==> |log| == maxAttempts
    ensures Settles(Replay(log), maxAttempts, |log|)
  {
  }

  ghost predicate WaitsWithin(waits: seq<real>, base: real, maxDelay: real) {
    forall i :: 0 <= i < |waits| ==> Jittered(waits[i], Ceiling(i + 1, base, maxDelay))
  }

  /** What follows an attempt: nothing after a final outcome or the last attempt, else one wait. */
  method WaitAfter<T>(outcome: Attempt<T>, attempt: nat, maxAttempts: nat, base: real, maxDelay: real)
    returns (wait: Option<real>)
    requires 1 <= attempt <= maxAttempts
    ensures wait.None? <==> !outcome.TransientError? || attempt == maxAttempts
    ensures wait.Some? ==> Jittered(wait.value, Ceiling(attempt, base, maxDelay))
  {
    if !outcome.TransientError? || attempt == maxAttempts { return None; }
    var delay := BackoffDelay(attempt, base, maxDelay);
    wait := Some(delay.value);
  }

  /**
    `retry_transient`. The result is that of the first call that does not end in a transient
    error, or of the last call allowed; every failed call but the last is followed by one
    wait and one `on_retry`.
   */
  method RetryTransient<T(!new)>(script: nat -> Attempt<T>, maxAttempts: int, base: real, maxDelay: real)
    returns (r: Result<Attempt<T>, RetryError>, calls: nat, waits: seq<real>, retries: nat)
    ensures maxAttempts < 1 ==> r == Err(ValueError) && calls == 0 && waits == [] && retries == 0
    ensures maxAttempts >= 1 ==> Settles(script, maxAttempts, calls) && r == Ok(script(calls - 1))
    ensures maxAttempts >= 1 ==> |waits| == retries == calls - 1 && WaitsWithin(waits, base, maxDelay)
  {
    calls, waits, retries := 0, [], 0;
    if maxAttempts < 1 { return Err(ValueError), calls, waits, retries; }
    var attempt := 1;
    var last := script(0);
    while attempt <= maxAttempts
      invariant 1 <= attempt <= maxAttempts
      invariant calls == |waits| == retries == attempt - 1
      invariant forall i: nat :: i < calls ==> script(i).TransientError?
      invariant WaitsWithin(waits, base, maxDelay)
      decreases maxAttempts - attempt
    {
      last := script(calls);
      calls := calls + 1;
      var wait := WaitAfter(last, attempt, maxAttempts, base, maxDelay);
      if wait.None? { break; }
      retries := retries + 1;
      waits := waits + [wait.value];
      attempt := attempt + 1;
    }
    r := Ok(last);
  }

  function Total(waits: seq<real>): real {
    if waits == [] then 0.0 else Total(waits[..|waits| - 1]) + waits[|waits| - 1]
  }

  lemma LastWait(waits: seq<real>, base: real, maxDelay: real)
    requires base >= 0.0 && maxDelay >= 0.0 && WaitsWithin(waits, base, maxDelay) && waits != []
    ensures var n := |waits| - 1;
            WaitsWithin(waits[..n], base, maxDelay) && 0.0 <= waits[n] <= maxDelay && waits[n] <= base * Pow2(n)
  {
    var n := |waits| - 1;
    assert Jittered(waits[n], Ceiling(n + 1, base, maxDelay));
    assert base * Pow2(n) >= 0.0;
  }

  /** n * x, added up. */
  function Times(n: nat, x: real): real {
    if n == 0 then 0.0 else Times(n - 1, x) + x
  }

  lemma {:induction false} TimesIsProduct(n: nat, x: real)
    ensures Times(n, x) == n as real * x
  {
    if n > 0 {
      TimesIsProduct(n - 1, x);
      assert n as real * x == (n - 1) as real * x + x;
    }
  }

  /** base + 2 base + 4 base + ..., n summands. */
  function Ramp(n: nat, base: real): real {
    if n == 0 then 0.0 else Ramp(n - 1, base) + base * Pow2(n - 1)
  }

  lemma {:induction false} RampIsGeometric(n: nat, base: real)
    ensures Ramp(n, base) == base * (Pow2(n) - 1.0)
  {
    if n > 0 {
      RampIsGeometric(n - 1, base);
      var p := Pow2(n - 1);
      assert base * (2.0 * p - 1.0) == base * (p - 1.0) + base * p;
    }
  }

  lemma {:induction false} TotalIsBounded(waits: seq<real>, base: real, maxDelay: real)
    requires base >= 0.0 && maxDelay >= 0.0 && WaitsWithin(waits, base, maxDelay)
    ensures 0.0 <= Total(waits) <= Times(|waits|, maxDelay) && Total(waits) <= Ramp(|waits|, base)
    decreases |waits|
  {
    if waits != [] {
      LastWait(waits, base, maxDelay);
      TotalIsBounded(waits[..|waits| - 1], base, maxDelay);
    }
  }

  /** The total wait is bounded both by the cap per wait and by the geometric ramp. */
  lemma TotalWait(waits: seq<real>, base: real, maxDelay: real)
    requires base >= 0.0 && maxDelay >= 0.0 && WaitsWithin(waits, base, maxDelay)
    ensures 0.0 <= Total(waits) <= |waits| as real * maxDelay
    ensures Total(waits) <= base * (Pow2(|waits|) - 1.0)
  {
    hide Total, Times, Ramp, Pow2, WaitsWithin;
    TotalIsBounded(waits, base, maxDelay);
    TimesIsProduct(|waits|, maxDelay);
    RampIsGeometric(|waits|, base);
  }
}
