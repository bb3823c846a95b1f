/** Retrying with exponential backoff and full jitter: the platform's RetryPolicy.Do, with
    Go's 64-bit durations. */
module Retry {
  import opened Common

  datatype Code =
    | OK | Canceled | Unknown | InvalidArgument | DeadlineExceeded | NotFound
    | PermissionDenied | ResourceExhausted | FailedPrecondition | Aborted | Internal | Unavailable

  /** The errors that can reach a caller of the resilience layer. */
  datatype Error =
    | Status(code: Code)
    | ContextCanceled
    | ContextDeadline
    | CircuitOpen
    | Interrupted(cause: Error)        // the caller's context ended during a wait
    | Exhausted(last: Option<Error>)   // every attempt failed retryably (or none was made)

  /** status.Code: the code of the gRPC status an error carries or wraps, Unknown if none. */
  function CodeOf(e: Error): Code {
    match e
    case Status(c) => c
    case Exhausted(Some(last)) => CodeOf(last)
    case Interrupted(cause) => CodeOf(cause)
    case _ => Unknown
  }

  /** errors.Is(err, context.Canceled). */
  predicate IsCanceled(e: Error) {
    match e
    case ContextCanceled => true
    case Interrupted(cause) => IsCanceled(cause)
    case Exhausted(Some(last)) => IsCanceled(last)
    case _ => false
  }

  /** errors.Is(err, ErrCircuitOpen). */
  predicate IsCircuitOpen(e: Error) {
    match e
    case CircuitOpen => true
    case Interrupted(cause) => IsCircuitOpen(cause)
    case Exhausted(Some(last)) => IsCircuitOpen(last)
    case _ => false
  }

  predicate Retryable(e: Error) {
    CodeOf(e) in {Unavailable, ResourceExhausted, Aborted}
  }

  // ---- Backoff ------------------------------------------------------------------------

  datatype Policy = Policy(maxAttempts: int, base: int, max: int)

  function Pow2(k: nat): (r: int)
    ensures r >= 1
  {
    if k == 0 then 1 else 2 * Pow2(k - 1)
  }

  /** min(base << k, max) in 64 bits: the shift wraps. */
  function Capped(base: int, k: nat, max: int): int {
    var shifted := Wrap64(base * Pow2(k));
    if shifted < max then shifted else max
  }

  /** The capped doubling the documentation describes. */
  function CappedDoubling(base: int, k: nat, max: int): int {
    if base * Pow2(k) < max then base * Pow2(k) else max
  }

  /** The 64-bit computation gives the intended backoff exactly when the doubling does not
      overflow, or happens to wrap around to something not below the cap. */
  lemma BackoffIsExactIff(base: int, k: nat, max: int)
    requires 0 <= base && 0 <= max && InInt64(max)
    ensures Capped(base, k, max) == CappedDoubling(base, k, max)
            <==> base * Pow2(k) < TWO_63 || Wrap64(base * Pow2(k)) >= max
  {
    MulNonNeg(base, Pow2(k));
  }

  /** It does go wrong: 50ms doubled 38 times is negative in 64 bits. */
  lemma BackoffCanTurnNegative()
    ensures Capped(50_000_000, 38, 500_000_000) < 0
  {
    Pow2Add(19, 19);
    assert Pow2(19) == 524288 by { Pow2Add(9, 10); Pow2Add(4, 5); Pow2Add(5, 5); }
  }

  lemma {:induction false} Pow2Add(a: nat, b: nat)
    ensures Pow2(a + b) == Pow2(a) * Pow2(b)
  {
    if a > 0 {
      Pow2Add(a - 1, b);
      assert Pow2(a + b) == 2 * (Pow2(a - 1) * Pow2(b)) == Pow2(a) * Pow2(b);
    }
  }

  lemma MulNonNeg(a: int, b: int)
    requires a >= 0 && b >= 0
    ensures a * b >= 0
  {}

  lemma {:induction false} DoublingGrows(base: int, i: nat, k: nat)
    requires base >= 0 && i <= k
    ensures 0 <= base * Pow2(i) <= base * Pow2(k)
    decreases k
  {
    MulNonNeg(base, Pow2(i));
    if i < k {
      DoublingGrows(base, i, k - 1);
      assert base * Pow2(k) == 2 * (base * Pow2(k - 1));
    }
  }

  /** The longest the first n waits may take together: the sum of the capped doublings. */
  function WaitBudget(p: Policy, n: nat): int {
    if n == 0 then 0 else WaitBudget(p, n - 1) + CappedDoubling(p.base, n - 1, p.max)
  }

  /** No backoff of the policy leaves 64 bits. */
  predicate Fits(p: Policy) {
    && p.base >= 0 && 0 <= p.max < TWO_63 - 1
    && (p.maxAttempts >= 2 ==> p.base * Pow2(p.maxAttempts - 2) < TWO_63)
  }

  /** The bound of the random draw for wait number k: rand.Int63n panics unless it is positive. */
  function DrawBound(p: Policy, k: nat): int {
    Wrap64(Capped(p.base, k, p.max) + 1)
  }

  lemma FittingDraws(p: Policy, k: nat)
    requires Fits(p) && k + 2 <= p.maxAttempts
    ensures DrawBound(p, k) == CappedDoubling(p.base, k, p.max) + 1 >= 1
  {
    DoublingGrows(p.base, k, p.maxAttempts - 2);
  }

  /** The rate limiter's own copy: capped at one second, with no wait when the base is zero
      or the shift went wrong. */
  function LimiterBackoff(base: int, attempt: int, jitter: nat): int
    requires attempt >= 1
  {
    var d := Capped(base, attempt - 1, 1_000_000_000);
    if d <= 0 then 0 else jitter % (d + 1)
  }

  /** It never draws from an empty range and never waits beyond a second; while the doubling
      fits 64 bits it waits at most the capped doubling. */
  lemma LimiterBackoffBounded(base: int, attempt: int, jitter: nat)
    requires attempt >= 1 && base >= 0
    ensures 0 <= LimiterBackoff(base, attempt, jitter) <= 1_000_000_000
    ensures base * Pow2(attempt - 1) < TWO_63 ==>
              LimiterBackoff(base, attempt, jitter) <= CappedDoubling(base, attempt - 1, 1_000_000_000)
  {
    MulNonNeg(base, Pow2(attempt - 1));
  }

  /** Every wait from nothing to the capped backoff can be drawn: full jitter, in both copies. */
  lemma LimiterFullJitter(base: int, attempt: int, wait: nat)
    requires attempt >= 1 && wait <= Capped(base, attempt - 1, 1_000_000_000)
    ensures LimiterBackoff(base, attempt, wait) == wait
  {
    var d := Capped(base, attempt - 1, 1_000_000_000);
    SmallMod(wait, d + 1);
  }

  lemma PlatformFullJitter(p: Policy, k: nat, wait: nat)
    requires p.max < TWO_63 - 1 && wait <= Capped(p.base, k, p.max)
    ensures DrawBound(p, k) > 0 && Draw(p, k, wait) == wait
  {
    SmallMod(wait, DrawBound(p, k));
  }

  lemma SmallMod(a: nat, b: int)
    requires a < b
    ensures a % b == a
  {
  }

  /** What errors are: retryable by code, and the same wrapped in the retry loop's own error; a
      caller's context carries no code. */
  lemma ErrorClasses(c: Code, e: Error)
    ensures Retryable(Status(c)) <==> c.Unavailable? || c.ResourceExhausted? || c.Aborted?
    ensures CodeOf(Status(c)) == c && CodeOf(Exhausted(Some(e))) == CodeOf(e) == CodeOf(Interrupted(e))
    ensures CodeOf(ContextCanceled) == CodeOf(ContextDeadline) == CodeOf(CircuitOpen) == Unknown
    ensures IsCanceled(ContextCanceled) && IsCanceled(Interrupted(ContextCanceled)) && !IsCanceled(Status(c))
    ensures !IsCanceled(ContextDeadline) && !IsCanceled(CircuitOpen)
    ensures IsCircuitOpen(CircuitOpen) && !IsCircuitOpen(Status(c))
    ensures !Retryable(ContextCanceled) && !Retryable(ContextDeadline) && !Retryable(CircuitOpen)
  {
  }

  // ---- The loop -----------------------------------------------------------------------

  /** What the environment does around attempt number i (from 0): the result of the call,
      the jitter drawn if a wait follows, and the context error if it ends that wait. */
  datatype Attempt = Attempt(result: Option<Error>, jitter: nat, ended: Option<Error>)

  /** `Panicked`: the random source was asked for a number below a non-positive bound. */
  datatype Outcome = Returned(err: Option<Error>) | Panicked

  predicate WorthRetrying(a: Attempt) {
    a.result.Some? && Retryable(a.result.value) && a.ended.None?
  }

  /** The wait after attempt n draws from an empty range, and is the first that does. */
  ghost predicate PanicsAt(p: Policy, env: nat -> Attempt, n: nat) {
    && 0 < n < p.maxAttempts
    && (forall i: nat :: i < n - 1 ==> WorthRetrying(env(i)) && DrawBound(p, i) > 0)
    && env(n - 1).result.Some? && Retryable(env(n - 1).result.value)
    && DrawBound(p, n - 1) <= 0
  }

  /** Wait number k is one the policy makes, and its draw has no room. */
  predicate EmptyDraw(p: Policy, k: nat) { k + 2 <= p.maxAttempts && DrawBound(p, k) <= 0 }

  const ALWAYS_DOWN: nat -> Attempt := (i: nat) => Attempt(Some(Status(Unavailable)), 0, None)

  lemma EmptyDrawPanics(p: Policy, k: nat)
    requires EmptyDraw(p, k)
    ensures Panics(p, ALWAYS_DOWN)
  {
    var least := FirstEmptyDraw(p, k);
    assert PanicsAt(p, ALWAYS_DOWN, least + 1);
  }

  ghost predicate Panics(p: Policy, env: nat -> Attempt) { exists n: nat :: PanicsAt(p, env, n) }

  ghost predicate CanPanic(p: Policy) { exists env: nat -> Attempt :: Panics(p, env) }

  ghost predicate SomeDrawIsEmpty(p: Policy) { exists k: nat :: EmptyDraw(p, k) }

  lemma PanicNeedsEmptyDraw(p: Policy, env: nat -> Attempt)
    requires Panics(p, env)
    ensures SomeDrawIsEmpty(p)
  {
    var n: nat :| PanicsAt(p, env, n);
    assert EmptyDraw(p, n - 1);
  }

  /** What policies can make a caller panic: exactly those one of whose draws has no room. */
  lemma PanicsIffSomeDrawIsEmpty(p: Policy)
    ensures CanPanic(p) <==> SomeDrawIsEmpty(p)
  {
    if k: nat :| EmptyDraw(p, k) { EmptyDrawPanics(p, k); }
    if CanPanic(p) {
      var env: nat -> Attempt :| Panics(p, env);
      PanicNeedsEmptyDraw(p, env);
    }
  }

  lemma {:induction false} FirstEmptyDraw(p: Policy, k: nat) returns (least: nat)
    requires DrawBound(p, k) <= 0
    ensures least <= k && DrawBound(p, least) <= 0 && forall i: nat :: i < least ==> DrawBound(p, i) > 0
  {
    if i: nat :| i < k && DrawBound(p, i) <= 0 { least := FirstEmptyDraw(p, i); } else { least := k; }
  }

  /** A generous policy does: with 50ms as its base the 39th wait panics. */
  lemma ManyAttemptsPanic(maxAttempts: int)
    requires maxAttempts >= 40
    ensures Panics(Policy(maxAttempts, 50_000_000, 500_000_000), ALWAYS_DOWN)
  {
    BackoffCanTurnNegative();
    EmptyDrawPanics(Policy(maxAttempts, 50_000_000, 500_000_000), 38);
  }

  const DEFAULT := Policy(3, 50_000_000, 500_000_000)

  /** The policy the services use never does, and its waits add up to at most 150ms. */
  lemma DefaultFits(env: nat -> Attempt)
    ensures Fits(DEFAULT) && WaitBudget(DEFAULT, 2) == 150_000_000
    ensures !Panics(DEFAULT, env)
  {
    assert Pow2(1) == 2 * Pow2(0);
    assert WaitBudget(DEFAULT, 2) == WaitBudget(DEFAULT, 1) + 100_000_000;
    assert WaitBudget(DEFAULT, 1) == WaitBudget(DEFAULT, 0) + 50_000_000;
    forall n: nat ensures !PanicsAt(DEFAULT, env, n) {
      if 0 < n < DEFAULT.maxAttempts { FittingDraws(DEFAULT, n - 1); }
    }
  }

  /** Wait number k: the random draw below its bound, if that has room. */
  function Draw(p: Policy, k: nat, jitter: nat): (w: int)
    ensures w >= 0 && (DrawBound(p, k) > 0 ==> w < DrawBound(p, k))
  {
    if DrawBound(p, k) > 0 then jitter % DrawBound(p, k) else 0
  }

  /** The first n waits together. */
  function Drawn(p: Policy, env: nat -> Attempt, n: nat): int {
    if n == 0 then 0 else Drawn(p, env, n - 1) + Draw(p, n - 1, env(n - 1).jitter)
  }

  lemma {:induction false} DrawnWithinBudget(p: Policy, env: nat -> Attempt, n: nat)
    requires Fits(p) && (n == 0 || n < p.maxAttempts)
    ensures 0 <= Drawn(p, env, n) <= WaitBudget(p, n)
  {
    if n > 0 {
      FittingDraws(p, n - 1);
      DrawnWithinBudget(p, env, n - 1);
    }
  }

  class RetryPolicy {
    const p: Policy

    constructor (p: Policy)
      ensures this.p == p
    {
      this.p := p;
    }

    /** Calls the operation until it succeeds, fails for good, or runs out of attempts; every
        wait is drawn afresh below its bound. */
    method Do(env: nat -> Attempt) returns (out: Outcome, calls: nat, waits: nat, waited: int)
      // how often the operation runs, and why it ran again
      ensures p.maxAttempts >= 1 ==> 1 <= calls <= p.maxAttempts
      ensures p.maxAttempts < 1 ==> calls == 0 && out == Returned(Some(Exhausted(None)))
      ensures forall i :: 0 <= i < calls - 1 ==> WorthRetrying(env(i))
      // success means exactly that the last attempt succeeded
      ensures out == Returned(None) <==> calls > 0 && env(calls - 1).result.None?
      // an error says how the last attempt ended
      ensures calls > 0 && env(calls - 1).result.Some? && out.Returned? ==>
                var last := env(calls - 1).result.value;
                if !Retryable(last) then out.err == Some(last)
                else if calls == p.maxAttempts then out.err == Some(Exhausted(Some(last)))
                else env(calls - 1).ended.Some? && out.err == Some(Interrupted(env(calls - 1).ended.value))
      // the waits are one draw each, after every attempt that is followed by another or cut short
      ensures waited == Drawn(p, env, waits)
      ensures out.Returned? && calls > 0 ==>
                waits == if env(calls - 1).result.Some? && Retryable(env(calls - 1).result.value)
                            && calls < p.maxAttempts then calls else calls - 1
      // they stay within the capped doublings, and nothing panics, while these fit
      ensures waits <= calls && (p.maxAttempts >= 1 ==> waits <= p.maxAttempts - 1)
      ensures Fits(p) ==> out.Returned? && 0 <= waited <= WaitBudget(p, waits)
      // a panic is exactly a first draw with no room
      ensures out.Panicked? <==> PanicsAt(p, env, calls)
      ensures out.Panicked? <==> Panics(p, env)
    {
      out, calls, waits, waited := Loop(env);
      if Fits(p) {
        DrawnWithinBudget(p, env, waits);
        if out.Panicked? { FittingDraws(p, calls - 1); }
      }
    }

    /** The loop of Do. */
    method Loop(env: nat -> Attempt) returns (out: Outcome, calls: nat, waits: nat, waited: int)
      // how often the operation runs, and why it ran again
      ensures p.maxAttempts >= 1 ==> 1 <= calls <= p.maxAttempts
      ensures p.maxAttempts < 1 ==> calls == 0 && out == Returned(Some(Exhausted(None)))
      ensures forall i :: 0 <= i < calls - 1 ==> WorthRetrying(env(i))
      // success means exactly that the last attempt succeeded
      ensures out == Returned(None) <==> calls > 0 && env(calls - 1).result.None?
      // an error says how the last attempt ended
      ensures calls > 0 && env(calls - 1).result.Some? && out.Returned? ==>
                var last := env(calls - 1).result.value;
                if !Retryable(last) then out.err == Some(last)
                else if calls == p.maxAttempts then out.err == Some(Exhausted(Some(last)))
                else env(calls - 1).ended.Some? && out.err == Some(Interrupted(env(calls - 1).ended.value))
      ensures waited == Drawn(p, env, waits)
      ensures waits <= calls && (p.maxAttempts >= 1 ==> waits <= p.maxAttempts - 1)
      ensures out.Returned? && calls > 0 ==>
                waits == if env(calls - 1).result.Some? && Retryable(env(calls - 1).result.value)
                            && calls < p.maxAttempts then calls else calls - 1
      ensures out.Panicked? <==> PanicsAt(p, env, calls)
      ensures out.Panicked? <==> Panics(p, env)
    {
      out, calls, waits, waited := Returned(Some(Exhausted(None))), 0, 0, 0;
      var lastErr: Option<Error> := None;
      while calls < p.maxAttempts
        invariant calls == 0 ==> lastErr == None
        invariant calls > 0 ==> calls < p.maxAttempts
        invariant out.Returned? && waits == calls
        invariant forall i: nat :: i < calls ==> WorthRetrying(env(i)) && DrawBound(p, i) > 0
        invariant waited == Drawn(p, env, waits)
        decreases p.maxAttempts - calls
      {
        var attempt := env(calls);
        calls := calls + 1;
        lastErr := attempt.result;
        if lastErr.None? { out := Returned(None); return; }
        if !Retryable(lastErr.value) { out := Returned(lastErr); return; }
        if calls == p.maxAttempts { break; }
        if DrawBound(p, calls - 1) <= 0 { out := Panicked; return; }
        waits, waited := waits + 1, waited + Draw(p, calls - 1, attempt.jitter);
        if attempt.ended.Some? {
          out := Returned(Some(Interrupted(attempt.ended.value)));
          return;
        }
      }
      out := Returned(Some(Exhausted(lastErr)));
    }
  }
}
