/** The whole resilience stack around one remote call: breaker( retry( call ) ). */
module Resilience {
  import opened Common
  import opened Breakers
  import opened Retry

  /** How the breaker is told the final verdict: a cancelled caller says nothing about the
      dependency, and only codes that mean the dependency is sick count as failures. */
  function Verdict(err: Option<Error>): Signal {
    match err
    case None => Success
    case Some(e) =>
      if IsCanceled(e) then Release
      else if Retryable(e) || CodeOf(e) in {DeadlineExceeded, Internal} then Failure
      else Success
  }

  /** Cancellation and a status code exclude one another, so the order of the tests is harmless. */
  lemma {:induction false} CanceledHasNoCode(e: Error)
    ensures IsCanceled(e) ==> CodeOf(e) == Unknown
  {
    match e
    case Interrupted(cause) => CanceledHasNoCode(cause);
    case Exhausted(Some(last)) => CanceledHasNoCode(last);
    case _ =>
  }

  /** What the breaker hears of a retry loop that returned after a failed last attempt: a failure
      if that error is one, unless its retries were cut short by the caller's context, whose own
      error then decides. */
  predicate CountsAsFailure(p: Policy, last: Attempt, calls: nat)
    requires last.result.Some?
  {
    var e := last.result.value;
    || CodeOf(e) in {DeadlineExceeded, Internal}
    || (Retryable(e) && (calls == p.maxAttempts || (last.ended.Some? && Verdict(last.ended).Failure?)))
  }

  /** Every verdict: released exactly if cancelled, a failure exactly for the codes that say the
      dependency is sick, and a success otherwise. */
  lemma VerdictMeans(e: Error)
    ensures Verdict(None) == Success
    ensures Verdict(Some(e)) == Release <==> IsCanceled(e)
    ensures Verdict(Some(e)) == Failure <==>
              CodeOf(e) in {Unavailable, ResourceExhausted, Aborted, DeadlineExceeded, Internal}
  {
    CanceledHasNoCode(e);
  }

  /** The two ways a context ends. Only a cancellation by the caller is told apart: a deadline
      that passes during a wait, and a status that says cancelled, count as successes. */
  lemma ContextVerdicts()
    ensures Verdict(Some(Interrupted(ContextCanceled))) == Release
    ensures Verdict(Some(Interrupted(ContextDeadline))) == Success
    ensures Verdict(Some(Status(Canceled))) == Success
  {
    CanceledHasNoCode(Interrupted(ContextCanceled));
  }

  /** So a probe of a dependency that is still down closes the circuit when the caller's deadline
      passes while it waits to try again. */
  lemma DeadlineDuringProbeCloses(c: Config, b: Core, now: int, later: int)
    requires b.mode.Open? && now - b.openedAt >= c.cooldown
    ensures Admit(c, b, now).admitted
    ensures Settle(Platform, c, Admit(c, b, now).core, Verdict(Some(Interrupted(ContextDeadline))), later)
            == Core(Closed, 0, b.openedAt, false)
  {
    ContextVerdicts();
  }

  /** A refused caller makes no call and leaves the breaker alone; an admitted one settles
      exactly once, with the verdict on what the retry loop returned. If the loop panics nothing
      settles: a probe is then never given back. */
  method Call(b: PlatformBreaker, r: RetryPolicy, env: nat -> Attempt, now: int, later: int)
    returns (out: Outcome, calls: nat)
    modifies b
    ensures !Admit(b.cfg, old(b.View()), now).admitted ==>
              calls == 0 && out == Returned(Some(CircuitOpen)) && b.View() == old(b.View())
    ensures Admit(b.cfg, old(b.View()), now).admitted ==>
              && calls <= (if r.p.maxAttempts < 1 then 0 else r.p.maxAttempts)
              && (out.Panicked? <==> Panics(r.p, env))
              && b.View() == if out.Panicked? then Admit(b.cfg, old(b.View()), now).core
                             else Settle(Platform, b.cfg, Admit(b.cfg, old(b.View()), now).core,
                                         Verdict(out.err), later)
    // a failed last attempt is counted against the dependency exactly so
    ensures (out.Returned? && Admit(b.cfg, old(b.View()), now).admitted
             && calls > 0 && env(calls - 1).result.Some?) ==>
              (Verdict(out.err) == Failure <==> CountsAsFailure(r.p, env(calls - 1), calls))
    // and not at all when the caller's deadline passes during a wait: the circuit closes
    ensures (Admit(b.cfg, old(b.View()), now).admitted && out == Returned(Some(Interrupted(ContextDeadline)))) ==>
              b.state == Closed && b.failures == 0
  {
    var ok := b.Allow(now);
    if !ok { return Returned(Some(CircuitOpen)), 0; }
    var waits, waited;
    out, calls, waits, waited := r.Do(env);
    if out.Panicked? { return; }
    if calls > 0 && env(calls - 1).result.Some? { CanceledHasNoCode(env(calls - 1).result.value); }
    match Verdict(out.err)
    case Release => b.ReleaseCall();
    case Failure => b.OnFailure(later);
    case Success => b.OnSuccess();
  }
}
