/**
 Bounded retries with exponential backoff, jitter and Retry-After, over exact reals.
 */
module Retry {
  import opened JobModel

  datatype Policy = Policy(maxAttempts: int, baseDelay: real, maxDelay: real, jitter: real)

  /** One attempt as the environment decides it: stop flag, whether the operation answers, and the rest if it raises. */
  datatype Try = Try(
    stopBefore: bool, answers: bool, retryable: bool, stopAfter: bool, retryAfter: Option<real>, random: real)

  datatype RetryEnd = Answered | Raised | Cancelled | FellThrough

  function Pow2(n: nat): nat {
    if n == 0 then 1 else 2 * Pow2(n - 1)
  }

  function Min(a: real, b: real): real {
    if a <= b then a else b
  }

  /** The capped exponential of attempt k, counted from one. */
  function Capped(p: Policy, k: nat): real
    requires k >= 1
  {
    Min(p.baseDelay * Pow2(k - 1) as real, p.maxDelay)
  }

  function Delay(p: Policy, k: nat, t: Try): real
    requires k >= 1
  {
    if t.retryAfter.Some? then t.retryAfter.value
    else Min(Capped(p, k) + Capped(p, k) * p.jitter * t.random, p.maxDelay)
  }

  /** Attempt k fails in a way that makes the loop sleep and go on. */
  predicate GoesOn(p: Policy, k: nat, t: Try) {
    !t.stopBefore && !t.answers && k < p.maxAttempts && t.retryable && !t.stopAfter
  }

  /** Sleep number k, counted from zero, follows attempt k + 1: that attempt goes on, and the sleep is its delay. */
  ghost predicate SleptAfter(p: Policy, tries: nat -> Try, k: nat, delay: real) {
    GoesOn(p, k + 1, tries(k + 1)) && delay == Delay(p, k + 1, tries(k + 1))
  }

  ghost predicate Slept(p: Policy, tries: nat -> Try, sleeps: seq<real>) {
    forall k: nat :: k < |sleeps| ==> SleptAfter(p, tries, k, sleeps[k])
  }

  lemma SleptMore(p: Policy, tries: nat -> Try, sleeps: seq<real>, delay: real)
    requires Slept(p, tries, sleeps) && SleptAfter(p, tries, |sleeps|, delay)
    ensures Slept(p, tries, sleeps + [delay])
  {
    hide SleptAfter;
  }

  /** How attempt k ends the run, if it does. */
  function EndOf(p: Policy, k: nat, t: Try): Option<RetryEnd> {
    if t.stopBefore then Some(Cancelled)
    else if t.answers then Some(Answered)
    else if k == p.maxAttempts || !t.retryable then Some(Raised)
    else if t.stopAfter then Some(Cancelled)
    else None
  }

  /** The first n attempts go on and the next one ends the run. */
  ghost predicate EndsAfter(p: Policy, tries: nat -> Try, n: nat, end: RetryEnd) {
    && (forall k: nat :: 1 <= k <= n ==> GoesOn(p, k, tries(k)))
    && EndOf(p, n + 1, tries(n + 1)) == Some(end)
  }

  ghost predicate EndsIn(p: Policy, tries: nat -> Try, end: RetryEnd) {
    if p.maxAttempts < 1 then end.FellThrough? else exists n: nat :: EndsAfter(p, tries, n, end)
  }

  lemma SleptEnds(p: Policy, tries: nat -> Try, sleeps: seq<real>, end: RetryEnd)
    requires p.maxAttempts >= 1 && Slept(p, tries, sleeps)
    requires EndOf(p, |sleeps| + 1, tries(|sleeps| + 1)) == Some(end)
    ensures EndsIn(p, tries, end)
  {
    forall k: nat | 1 <= k <= |sleeps| ensures GoesOn(p, k, tries(k)) {
      assert SleptAfter(p, tries, k - 1, sleeps[k - 1]);
    }
    assert EndsAfter(p, tries, |sleeps|, end);
  }

  lemma GoesOnUntil(p: Policy, tries: nat -> Try, n: nat, end: RetryEnd)
    requires EndsAfter(p, tries, n, end)
    ensures forall k: nat :: 1 <= k <= n ==> EndOf(p, k, tries(k)).None?
    ensures EndOf(p, n + 1, tries(n + 1)) == Some(end)
  {
  }

  /** What the attempts would do determines how the run ends. */
  lemma EndIsDetermined(p: Policy, tries: nat -> Try, a: RetryEnd, b: RetryEnd)
    requires EndsIn(p, tries, a) && EndsIn(p, tries, b)
    ensures a == b
  {
    if p.maxAttempts >= 1 {
      var m: nat :| EndsAfter(p, tries, m, a);
      var n: nat :| EndsAfter(p, tries, n, b);
      GoesOnUntil(p, tries, m, a);
      GoesOnUntil(p, tries, n, b);
    }
  }

  /** The first n attempts fail, may be repeated, and find no flag. */
  ghost predicate Repeated(tries: nat -> Try, n: nat) {
    forall k: nat :: 1 <= k <= n ==>
      !tries(k).stopBefore && !tries(k).answers && tries(k).retryable && !tries(k).stopAfter
  }

  /** Attempt n + 1 finds the flag up, before the call or behind a failure that could be repeated. */
  ghost predicate CancelledAfter(p: Policy, tries: nat -> Try, n: nat) {
    && n < p.maxAttempts && Repeated(tries, n)
    && var t := tries(n + 1);
    t.stopBefore || (!t.answers && t.retryable && n + 1 < p.maxAttempts && t.stopAfter)
  }

  /** Attempt n + 1 is answered. */
  ghost predicate AnsweredAfter(p: Policy, tries: nat -> Try, n: nat) {
    n < p.maxAttempts && Repeated(tries, n) && !tries(n + 1).stopBefore && tries(n + 1).answers
  }

  /** Attempt n + 1 fails, and is the last one or not worth repeating. */
  ghost predicate RaisedAfter(p: Policy, tries: nat -> Try, n: nat) {
    && n < p.maxAttempts && Repeated(tries, n) && !tries(n + 1).stopBefore && !tries(n + 1).answers
    && (n + 1 == p.maxAttempts || !tries(n + 1).retryable)
  }

  lemma EndsAfterMeans(p: Policy, tries: nat -> Try, n: nat)
    requires p.maxAttempts >= 1
    ensures EndsAfter(p, tries, n, Cancelled) <==> CancelledAfter(p, tries, n)
    ensures EndsAfter(p, tries, n, Answered) <==> AnsweredAfter(p, tries, n)
    ensures EndsAfter(p, tries, n, Raised) <==> RaisedAfter(p, tries, n)
    ensures !EndsAfter(p, tries, n, FellThrough)
  {
    if n >= p.maxAttempts {
      assert n >= 1 && !GoesOn(p, n, tries(n));
    }
  }

  /** How a run ends, said of its attempts alone. */
  lemma EndExactlyWhen(p: Policy, tries: nat -> Try)
    ensures EndsIn(p, tries, Cancelled) <==> exists n: nat :: CancelledAfter(p, tries, n)
    ensures EndsIn(p, tries, Answered) <==> exists n: nat :: AnsweredAfter(p, tries, n)
    ensures EndsIn(p, tries, Raised) <==> exists n: nat :: RaisedAfter(p, tries, n)
    ensures EndsIn(p, tries, FellThrough) <==> p.maxAttempts < 1
  {
    if p.maxAttempts >= 1 {
      hide EndsAfter, CancelledAfter, AnsweredAfter, RaisedAfter;
      forall n: nat
        ensures EndsAfter(p, tries, n, Cancelled) <==> CancelledAfter(p, tries, n)
        ensures EndsAfter(p, tries, n, Answered) <==> AnsweredAfter(p, tries, n)
        ensures EndsAfter(p, tries, n, Raised) <==> RaisedAfter(p, tries, n)
        ensures !EndsAfter(p, tries, n, FellThrough)
      {
        EndsAfterMeans(p, tries, n);
      }
    }
  }

  /**
   RetryPolicy.run.  The trailing RuntimeError is reached exactly when the policy allows no attempt at all; otherwise
   the run makes at most max_attempts calls, sleeps once behind each attempt that goes on, and notifies once per sleep
   with that attempt's number and delay.
   */
  method Run(p: Policy, tries: nat -> Try)
    returns (end: RetryEnd, calls: nat, sleeps: seq<real>, notices: seq<(int, real)>)
    ensures end.FellThrough? <==> p.maxAttempts < 1
    ensures p.maxAttempts >= 1 ==> calls <= p.maxAttempts && |sleeps| <= p.maxAttempts - 1
    ensures p.maxAttempts >= 1 ==> EndOf(p, |sleeps| + 1, tries(|sleeps| + 1)) == Some(end)
    ensures calls == if end.FellThrough? then 0 else if tries(|sleeps| + 1).stopBefore then |sleeps| else |sleeps| + 1
    ensures Slept(p, tries, sleeps)
    ensures |notices| == |sleeps| && forall k :: 0 <= k < |sleeps| ==> notices[k] == (k + 1, sleeps[k])
  {
    calls, sleeps, notices := 0, [], [];
    var attempt := 1;
    while attempt <= p.maxAttempts
      invariant attempt >= 1 && |sleeps| == attempt - 1 == calls && |notices| == |sleeps|
      invariant p.maxAttempts >= 1 ==> attempt <= p.maxAttempts
      invariant p.maxAttempts < 1 ==> attempt == 1
      invariant Slept(p, tries, sleeps)
      invariant forall k :: 0 <= k < |sleeps| ==> notices[k] == (k + 1, sleeps[k])
      decreases p.maxAttempts - attempt
    {
      var t := tries(attempt);
      if t.stopBefore {
        return Cancelled, calls, sleeps, notices;
      }
      calls := calls + 1;
      if t.answers {
        return Answered, calls, sleeps, notices;
      }
      if attempt == p.maxAttempts || !t.retryable {
        return Raised, calls, sleeps, notices;
      }
      if t.stopAfter {
        return Cancelled, calls, sleeps, notices;
      }
      var delay: real;
      if t.retryAfter.Some? {
        delay := t.retryAfter.value;
      } else {
        var base := Capped(p, attempt);
        delay := Min(base + base * p.jitter * t.random, p.maxDelay);
      }
      SleptMore(p, tries, sleeps, delay);
      notices := notices + [(attempt, delay)];
      sleeps := sleeps + [delay];
      attempt := attempt + 1;
    }
    end := FellThrough;
  }

  // ----- how long it sleeps ---------------------------------------------------------------------------------

  ghost predicate Sane(p: Policy) {
    p.baseDelay >= 0.0 && p.maxDelay >= 0.0 && p.jitter >= 0.0
  }

  ghost predicate Backoff(t: Try) {
    t.retryAfter.None? && 0.0 <= t.random <= 1.0
  }

  /** A backoff delay lies between the capped exponential and the one with full jitter, and never above the cap. */
  lemma DelayBounds(p: Policy, k: nat, t: Try)
    requires Sane(p) && k >= 1 && Backoff(t)
    ensures Capped(p, k) <= Delay(p, k, t) <= p.maxDelay
    ensures var e := p.baseDelay * Pow2(k - 1) as real;
            (if e <= p.maxDelay then e else p.maxDelay) <= Delay(p, k, t)
    ensures Delay(p, k, t) <= Capped(p, k) * (1.0 + p.jitter)
    ensures Delay(p, k, t) <= p.baseDelay * Pow2(k - 1) as real * (1.0 + p.jitter)
  {
    var e := p.baseDelay * Pow2(k - 1) as real;
    assert e >= 0.0 by {
      Product(p.baseDelay, Pow2(k - 1) as real);
    }
    BackoffBounds(p, k, t, e);
    hide Delay, Capped, Pow2;
  }

  lemma BackoffBounds(p: Policy, k: nat, t: Try, e: real)
    requires Sane(p) && k >= 1 && Backoff(t) && e >= 0.0 && Capped(p, k) == Min(e, p.maxDelay)
    ensures Capped(p, k) <= Delay(p, k, t) <= p.maxDelay
    ensures Delay(p, k, t) <= Capped(p, k) * (1.0 + p.jitter)
    ensures Delay(p, k, t) <= e * (1.0 + p.jitter)
  {
    hide Capped, Pow2;
    JitterBounds(e, p.maxDelay, p.jitter, t.random, Capped(p, k), Delay(p, k, t));
  }

  /** The same for one delay d, with e the uncapped exponential, m the cap and c the capped exponential. */
  lemma JitterBounds(e: real, m: real, j: real, r: real, c: real, d: real)
    requires e >= 0.0 && m >= 0.0 && j >= 0.0 && 0.0 <= r <= 1.0
    requires c == Min(e, m) && d == Min(c + c * j * r, m)
    ensures c <= d <= m && d <= c * (1.0 + j) && d <= e * (1.0 + j)
  {
    var cj := c * j;
    var x := cj * r;
    Product(c, j);
    Share(cj, r, x);
    assert c * j * r == x;
    assert c * (1.0 + j) == c + cj;
    Order(c, e, 1.0 + j);
  }

  lemma Product(a: real, b: real)
    requires a >= 0.0 && b >= 0.0
    ensures a * b >= 0.0
  {
  }

  lemma Share(a: real, r: real, x: real)
    requires a >= 0.0 && 0.0 <= r <= 1.0 && x == a * r
    ensures 0.0 <= x <= a
  {
  }

  lemma Order(a: real, b: real, f: real)
    requires a <= b && f >= 0.0
    ensures a * f <= b * f
  {
  }

  /** The delay, written out: Retry-After as it comes, otherwise the capped exponential with its jitter, capped. */
  lemma DelayIs(p: Policy, k: nat, t: Try)
    requires Sane(p) && k >= 1
    ensures var e := p.baseDelay * Pow2(k - 1) as real;
            var c := if e <= p.maxDelay then e else p.maxDelay;
            var d := c + c * p.jitter * t.random;
            match t.retryAfter
            case Some(seconds) => Delay(p, k, t) == seconds
            case None => Delay(p, k, t) == if d <= p.maxDelay then d else p.maxDelay
    ensures Pow2(0) == 1 && Pow2(k) == 2 * Pow2(k - 1)
  {
  }

  /** A delay exceeds the cap only by Retry-After, which is taken as it comes. */
  lemma OnlyRetryAfterExceedsCap(p: Policy, k: nat, t: Try)
    requires Sane(p) && k >= 1 && 0.0 <= t.random <= 1.0
    ensures Delay(p, k, t) > p.maxDelay <==> t.retryAfter.Some? && t.retryAfter.value > p.maxDelay
  {
    if t.retryAfter.None? {
      DelayBounds(p, k, t);
    }
  }

  function Sum(delays: seq<real>): real {
    if delays == [] then 0.0 else Sum(delays[..|delays| - 1]) + delays[|delays| - 1]
  }

  /** All sleeping together stays under the number of sleeps times the cap. */
  lemma {:induction false} TotalSleepUnderCap(p: Policy, tries: nat -> Try, sleeps: seq<real>)
    requires Sane(p) && Slept(p, tries, sleeps) && forall k: nat :: 1 <= k <= |sleeps| ==> Backoff(tries(k))
    ensures 0.0 <= Sum(sleeps) <= Times(|sleeps|, p.maxDelay)
    decreases |sleeps|
  {
    if sleeps == [] {
      assert Times(0, p.maxDelay) == 0.0;
    } else {
      hide Delay, Capped, Times;
      var n, rest := |sleeps|, sleeps[..|sleeps| - 1];
      assert SleptAfter(p, tries, n - 1, sleeps[n - 1]);
      SleptLess(p, tries, sleeps);
      TotalSleepUnderCap(p, tries, rest);
      DelayWithin(p, n, tries(n));
      TimesStep(n - 1, p.maxDelay);
    }
  }

  /** And under the geometric sum with full jitter. */
  lemma {:induction false} TotalSleepUnderGeometric(p: Policy, tries: nat -> Try, sleeps: seq<real>)
    requires Sane(p) && Slept(p, tries, sleeps) && forall k: nat :: 1 <= k <= |sleeps| ==> Backoff(tries(k))
    ensures Sum(sleeps) <= Geometric(p, |sleeps|)
    decreases |sleeps|
  {
    if sleeps == [] {
      assert Geometric(p, 0) == 0.0;
    } else {
      hide Delay, Capped, Geometric;
      var n, rest := |sleeps|, sleeps[..|sleeps| - 1];
      assert SleptAfter(p, tries, n - 1, sleeps[n - 1]);
      SleptLess(p, tries, sleeps);
      TotalSleepUnderGeometric(p, tries, rest);
      GeometricStep(p, n, tries(n));
    }
  }

  /** base * (1 + jitter) * (1 + 2 + ... + 2^(n-1)) */
  function Geometric(p: Policy, n: nat): real {
    p.baseDelay * (1.0 + p.jitter) * (Pow2(n) - 1) as real
  }

  lemma DelayWithin(p: Policy, k: nat, t: Try)
    requires Sane(p) && k >= 1 && Backoff(t)
    ensures 0.0 <= Delay(p, k, t) <= p.maxDelay
  {
    DelayBounds(p, k, t);
    CappedIsNonNegative(p, k);
  }

  lemma GeometricStep(p: Policy, n: nat, t: Try)
    requires Sane(p) && n >= 1 && Backoff(t)
    ensures Geometric(p, n - 1) + Delay(p, n, t) <= Geometric(p, n)
  {
    hide Delay, Capped;
    DelayBounds(p, n, t);
    Doubling(p.baseDelay, 1.0 + p.jitter, Pow2(n - 1) as real);
    assert (Pow2(n) - 1) as real == 2.0 * Pow2(n - 1) as real - 1.0;
    assert (Pow2(n - 1) - 1) as real == Pow2(n - 1) as real - 1.0;
  }

  lemma Doubling(b: real, f: real, x: real)
    ensures b * f * (x - 1.0) + b * x * f == b * f * (2.0 * x - 1.0)
  {
    var c := b * f;
    assert b * x * f == c * x;
    assert c * (x - 1.0) + c * x == c * (2.0 * x - 1.0);
  }

  lemma SleptLess(p: Policy, tries: nat -> Try, sleeps: seq<real>)
    requires Slept(p, tries, sleeps) && sleeps != []
    ensures Slept(p, tries, sleeps[..|sleeps| - 1])
  {
    hide SleptAfter;
    var rest := sleeps[..|sleeps| - 1];
    forall k: nat | k < |rest| ensures SleptAfter(p, tries, k, rest[k]) {
      assert SleptAfter(p, tries, k, sleeps[k]);
    }
  }

  lemma CappedIsNonNegative(p: Policy, k: nat)
    requires Sane(p) && k >= 1
    ensures Capped(p, k) >= 0.0
  {
    Product(p.baseDelay, Pow2(k - 1) as real);
  }

  function Times(n: nat, delay: real): real {
    n as real * delay
  }

  lemma TimesStep(n: nat, delay: real)
    ensures Times(n + 1, delay) == Times(n, delay) + delay
  {
  }
}
