/** The rate limiter's Check as it runs: one call, its retry loop, the breaker it drives and
    the counter it bumps. */
module LimiterService {
  import opened Common
  import opened Window
  import opened RateLimiter
  import Retry
  import B = Breakers

  type Scope = (string, string)
  datatype Row = Row(scope: Scope, start: int)
  datatype Result = Result(count: nat, start: int, now: int)

  class Store {
    var counts: map<Row, nat>

    constructor ()
      ensures counts == map[]
    {
      counts := map[];
    }

    /** The upsert: only the row of the current window changes, by one. */
    method Increment(scope: Scope, window: int, now: int) returns (r: Result)
      requires window > 0
      modifies this
      ensures counts == Bumped(old(counts), scope, window, now)
      ensures r == Result(counts[Row(scope, SqlWindowStart(now, window))], SqlWindowStart(now, window), now)
    {
      var row := Row(scope, SqlWindowStart(now, window));
      if row in counts {
        counts := counts[row := counts[row] + 1];
      } else {
        counts := counts[row := 1];
      }
      r := Result(counts[row], row.start, now);
    }
  }

  function Bumped(counts: map<Row, nat>, scope: Scope, window: int, now: int): map<Row, nat>
    requires window > 0
  {
    var row := Row(scope, SqlWindowStart(now, window));
    counts[row := (if row in counts then counts[row] else 0) + 1]
  }

  /** What the environment does to attempt number i (from 0): its effect at the store at
      database time `at`, whether the caller's context has ended when it returns, the random
      draw for the wait that may follow, and whether the context ends during that. */
  datatype Try = Try(effect: Effect, at: int, ended: bool, jitter: nat, cutShort: bool)

  /** What the store holds after one more try. */
  function Bump(counts: map<Row, nat>, scope: Scope, window: int, try: Try): map<Row, nat>
    requires window > 0
  {
    if CommitsNow(try.effect) then Bumped(counts, scope, window, try.at) else counts
  }

  /** The counters after the first n attempts. */
  function After(counts: map<Row, nat>, scope: Scope, window: int, env: nat -> Try, n: nat): map<Row, nat>
    requires window > 0
  {
    if n == 0 then counts else Bump(After(counts, scope, window, env, n - 1), scope, window, env(n - 1))
  }

  predicate TriesAgain(t: Try) {
    !t.effect.Answer? && t.effect.retryable && !t.ended && !t.cutShort
  }

  /** The retry loop's result: an answer, or the last failure and whether the caller is gone. */
  datatype Reached = Got(r: Result) | Failed(retryable: bool, ended: bool)

  /** Attempts that change no counter leave the total alone; each of the others adds one. */
  function Committed(env: nat -> Try, n: nat): nat {
    if n == 0 then 0 else Committed(env, n - 1) + if CommitsNow(env(n - 1).effect) then 1 else 0
  }

  /** One Check never touches another scope, and within its own window it adds exactly the
      attempts that committed there: more than one only when an answer was lost. */
  lemma {:induction false} OnlyOwnCounters(counts: map<Row, nat>, scope: Scope, window: int,
                                           env: nat -> Try, n: nat, row: Row)
    requires window > 0
    ensures var a := After(counts, scope, window, env, n);
            && (row.scope != scope ==> (row in a <==> row in counts) && (row in a ==> a[row] == counts[row]))
            && (row in counts ==> row in a)
            && (if row in counts then counts[row] else 0) <= (if row in a then a[row] else 0)
               <= (if row in counts then counts[row] else 0) + Committed(env, n)
  {
    if n > 0 { OnlyOwnCounters(counts, scope, window, env, n - 1, row); }
  }

  class Service {
    const opts: Options
    const store: Store
    const breaker: B.LimiterBreaker

    constructor (opts: Options, store: Store)
      ensures this.opts == opts && this.store == store
      ensures fresh(breaker) && breaker.cfg == opts.breaker && breaker.View() == B.FRESH
    {
      this.opts := opts;
      this.store := store;
      this.breaker := new B.LimiterBreaker(opts.breaker);
    }

    /** The backoff of the options as a policy: capped at one second. */
    function Backoff(): Retry.Policy { Retry.Policy(opts.maxAttempts, opts.base, SECOND) }

    /** Up to maxAttempts tries. Only the last one can be answered or final, every earlier one
        failed in a way worth retrying; each try that committed was counted. */
    method Increment(scope: Scope, window: int, env: nat -> Try) returns (out: Reached, tries: nat, waited: int)
      requires opts.maxAttempts >= 1 && opts.base >= 0 && window > 0
      modifies store
      ensures WaitedWithin(tries, waited)
      // one drawn wait after every try that is followed by another or by a cancellation
      ensures tries >= 1 && waited == Paused(env, if PausesAfter(env(tries - 1), tries) then tries else tries - 1)
      ensures 1 <= tries <= opts.maxAttempts
      ensures forall i :: 0 <= i < tries - 1 ==> TriesAgain(env(i))
      ensures store.counts == After(old(store.counts), scope, window, env, tries)
      ensures out.Got? <==> env(tries - 1).effect.Answer?
      ensures out.Got? ==>
                var row := Row(scope, SqlWindowStart(env(tries - 1).at, window));
                row in store.counts && out.r == Result(store.counts[row], row.start, env(tries - 1).at)
      ensures out.Failed? ==>
                var last := env(tries - 1);
                && (tries == opts.maxAttempts || !TriesAgain(last))
                && out.retryable == last.effect.retryable
                && out.ended == (last.ended || (last.effect.retryable && tries < opts.maxAttempts && last.cutShort))
    {
      tries, waited := 0, 0;
      out := Failed(false, false);
      while tries < opts.maxAttempts
        invariant 0 <= tries <= opts.maxAttempts
        invariant tries > 0 ==> tries < opts.maxAttempts
        invariant forall i :: 0 <= i < tries ==> TriesAgain(env(i))
        invariant WaitedWithin(tries, waited) && waited == Paused(env, tries)
        invariant store.counts == After(old(store.counts), scope, window, env, tries)
        decreases opts.maxAttempts - tries
      {
        var t := env(tries);
        WithinLonger(tries, waited);
        tries := tries + 1;
        if CommitsNow(t.effect) {
          var r := store.Increment(scope, window, t.at);
          if t.effect.Answer? { return Got(r), tries, waited; }
        }
        if t.ended || !t.effect.retryable || tries == opts.maxAttempts {
          return Failed(t.effect.retryable, t.ended), tries, waited;
        }
        PauseKeepsWithin(tries, waited, t.jitter);
        waited := waited + Pause(tries, t.jitter);
        if t.cutShort { return Failed(t.effect.retryable, true), tries, waited; }
      }
    }

    /** One wait. */
    function Pause(attempt: nat, jitter: nat): (d: int)
      requires attempt >= 1 && opts.base >= 0
      ensures 0 <= d <= SECOND
    {
      Retry.LimiterBackoffBounded(opts.base, attempt, jitter);
      Retry.LimiterBackoff(opts.base, attempt, jitter)
    }

    /** The first n waits together. */
    function Paused(env: nat -> Try, n: nat): int
      requires opts.base >= 0
    {
      if n == 0 then 0 else Paused(env, n - 1) + Pause(n, env(n - 1).jitter)
    }

    predicate PausesAfter(t: Try, n: nat) {
      !t.effect.Answer? && t.effect.retryable && !t.ended && n < opts.maxAttempts
    }

    /** n waits take at most n seconds, and no more than the capped doublings while these fit. */
    predicate WaitedWithin(n: nat, waited: int) {
      && 0 <= waited <= n * SECOND
      && (Retry.Fits(Backoff()) ==> waited <= Retry.WaitBudget(Backoff(), n))
    }

    lemma PauseKeepsWithin(n: nat, waited: int, jitter: nat)
      requires 1 <= n < opts.maxAttempts && opts.base >= 0 && WaitedWithin(n - 1, waited)
      ensures WaitedWithin(n, waited + Pause(n, jitter))
    {
      if Retry.Fits(Backoff()) {
        Retry.DoublingGrows(opts.base, n - 1, opts.maxAttempts - 2);
        Retry.LimiterBackoffBounded(opts.base, n, jitter);
      }
    }

    /** Giving up waits no more. */
    lemma WithinLonger(n: nat, waited: int)
      requires opts.base >= 0 && WaitedWithin(n, waited)
      ensures WaitedWithin(n + 1, waited)
    {
      if Retry.Fits(Backoff()) { Retry.MulNonNeg(opts.base, Retry.Pow2(n)); }
    }

    /** One request. `late` says the caller's context ended just before the verdict. */
    method Check(scope: Scope, rule: Rule, env: nat -> Try, clock: int, later: int, late: bool)
      returns (d: Option<Decision>, cancelled: bool, tries: nat)
      requires opts.maxAttempts >= 1 && opts.base >= 0 && rule.window > 0 && breaker.cfg == opts.breaker
      modifies store, breaker
      // refused by the breaker: nothing is touched
      ensures var a := B.Admit(opts.breaker, old(breaker.View()), clock);
              !a.admitted ==>
                && tries == 0 && !cancelled
                && breaker.View() == old(breaker.View()) && store.counts == old(store.counts)
                && (d.Some? <==> opts.failOpen) && (d.Some? ==> d.value.allowed && d.value.degraded)
      // admitted: the counter advances by the committed tries, and the breaker hears one verdict
      ensures var a := B.Admit(opts.breaker, old(breaker.View()), clock);
              a.admitted ==>
                && 1 <= tries <= opts.maxAttempts
                && (forall i :: 0 <= i < tries - 1 ==> TriesAgain(env(i)))
                && (tries == opts.maxAttempts || !TriesAgain(env(tries - 1)))
                && store.counts == After(old(store.counts), scope, rule.window, env, tries)
                && (exists sig :: breaker.View() == B.Settle(B.Limiter, opts.breaker, a.core, sig, later))
      // answered: success, and the decision is about this request's own number
      ensures (tries > 0 && env(tries - 1).effect.Answer?) ==>
                var a := B.Admit(opts.breaker, old(breaker.View()), clock);
                var row := Row(scope, SqlWindowStart(env(tries - 1).at, rule.window));
                && breaker.View() == B.Settle(B.Limiter, opts.breaker, a.core, B.Success, later)
                && !cancelled && row in store.counts
                && d == Some(Decide(store.counts[row], rule.limit, row.start, rule.window, env(tries - 1).at))
                && (d.value.allowed <==> store.counts[row] <= rule.limit) && !d.value.degraded
      // cancelled exactly if not answered and the caller's context ended: before the try came back,
      // during the wait after it, or just before the verdict
      ensures cancelled <==>
                && tries > 0 && !env(tries - 1).effect.Answer?
                && (late || env(tries - 1).ended
                    || (env(tries - 1).effect.retryable && tries < opts.maxAttempts && env(tries - 1).cutShort))
      // a caller that left says nothing about the store
      ensures cancelled ==>
                var a := B.Admit(opts.breaker, old(breaker.View()), clock);
                d.None? && breaker.View() == B.Settle(B.Limiter, opts.breaker, a.core, B.Release, later)
      // not answered and still there: the policy decides, and only outages count as failures
      ensures (tries > 0 && !env(tries - 1).effect.Answer? && !cancelled) ==>
                var a := B.Admit(opts.breaker, old(breaker.View()), clock);
                var sig := if env(tries - 1).effect.retryable then B.Failure else B.Success;
                && !late && !env(tries - 1).ended
                && breaker.View() == B.Settle(B.Limiter, opts.breaker, a.core, sig, later)
                && (d.Some? <==> opts.failOpen) && (d.Some? ==> d.value.allowed && d.value.degraded)
    {
      cancelled, tries := false, 0;
      var ok := breaker.Allow(clock);
      if !ok {
        d := Degraded(rule);
        return;
      }
      ghost var core := breaker.View();
      var out, waited;
      out, tries, waited := Increment(scope, rule.window, env);
      match out
      case Got(r) =>
        breaker.Success();
        assert breaker.View() == B.Settle(B.Limiter, opts.breaker, core, B.Success, later);
        d := Some(Decide(r.count, rule.limit, r.start, rule.window, r.now));
      case Failed(retryable, ended) =>
        if ended || late {
          breaker.Release();
          assert breaker.View() == B.Settle(B.Limiter, opts.breaker, core, B.Release, later);
          d, cancelled := None, true;
        } else if retryable {
          breaker.Failure(later);
          d := Degraded(rule);
        } else {
          breaker.Success();
          assert breaker.View() == B.Settle(B.Limiter, opts.breaker, core, B.Success, later);
          d := Degraded(rule);
        }
    }

    /** Fail open lets the request through uncounted; fail closed refuses it. */
    function Degraded(rule: Rule): (d: Option<Decision>)
      ensures d.Some? <==> opts.failOpen
      ensures d.Some? ==> d.value.allowed && d.value.degraded
    {
      if opts.failOpen then Some(Decision(true, rule.limit, 0, 0, 0, true)) else None
    }
  }
}
