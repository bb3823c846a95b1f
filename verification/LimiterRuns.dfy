/** One Check as a run of the limiter's protocol: the steps that module RateLimiter interleaves
    are the ones this code takes, and they end in the decision it returns. */
module LimiterRuns {
  import opened Common
  import opened Window
  import opened RateLimiter
  import opened LimiterService
  import B = Breakers

  function CountAt(counts: map<Row, nat>, scope: Scope, start: int): nat {
    if Row(scope, start) in counts then counts[Row(scope, start)] else 0
  }

  /** The protocol's counters are those of one scope. */
  ghost predicate SameCounts(s: map<int, nat>, counts: map<Row, nat>, scope: Scope) {
    forall start :: CountOf(s, start) == CountAt(counts, scope, start)
  }

  lemma {:induction false} ExecSnoc(o: Options, rule: Rule, s: State, es: seq<Event>, e: Event)
    requires Valid(o, rule)
    ensures Exec(o, rule, s, es + [e]) == Step(o, rule, Exec(o, rule, s, es), e)
    decreases |es|
  {
    if es == [] {
      assert es + [e] == [e] && [e][1..] == [];
    } else {
      assert (es + [e])[1..] == es[1..] + [e];
      ExecSnoc(o, rule, Step(o, rule, s, es[0]), es[1..], e);
    }
  }

  /** Some steps lead from s to t. */
  ghost predicate Reached(o: Options, rule: Rule, s: State, t: State)
    requires Valid(o, rule)
  {
    exists es :: Exec(o, rule, s, es) == t
  }

  lemma OneMore(o: Options, rule: Rule, s: State, t: State, e: Event)
    requires Valid(o, rule) && Reached(o, rule, s, t)
    ensures Reached(o, rule, s, Step(o, rule, t, e))
  {
    var es :| Exec(o, rule, s, es) == t;
    ExecSnoc(o, rule, s, es, e);
    assert Exec(o, rule, s, es + [e]) == Step(o, rule, t, e);
  }

  lemma ThenBegin(o: Options, rule: Rule, s: State, c: nat, clock: int)
    requires Valid(o, rule) && c !in s.calls
    ensures Reached(o, rule, s, BeginStep(o, s, c, clock))
  {
    assert Exec(o, rule, s, []) == s;
    OneMore(o, rule, s, s, Begin(c, clock));
  }

  lemma ThenAttempt(o: Options, rule: Rule, s: State, t: State, c: nat, try: Try)
    requires Valid(o, rule) && Reached(o, rule, s, t) && c in t.calls && t.calls[c].phase.Trying?
    ensures Reached(o, rule, s, AttemptStep(o, rule, t, c, try.effect, try.at, try.ended))
  {
    OneMore(o, rule, s, t, Attempt(c, try.effect, try.at, try.ended));
  }

  lemma ThenWake(o: Options, rule: Rule, s: State, t: State, c: nat, ended: bool)
    requires Valid(o, rule) && Reached(o, rule, s, t) && c in t.calls && t.calls[c].phase.Sleeping?
    ensures Reached(o, rule, s, SetPhase(t, c, if ended then GaveUp(true, true) else Phase.Trying(t.calls[c].phase.n + 1)))
  {
    OneMore(o, rule, s, t, Wake(c, ended));
  }

  lemma ThenSettle(o: Options, rule: Rule, s: State, t: State, c: nat, later: int, late: bool)
    requires Valid(o, rule) && Reached(o, rule, s, t) && c in t.calls
    requires t.calls[c].phase.Answered? || t.calls[c].phase.GaveUp?
    ensures Reached(o, rule, s, SettleStep(o, rule, t, c, later, late))
  {
    OneMore(o, rule, s, t, Settle(c, later, late));
  }

  /** Call c is about to make try number n + 1, after n that committed as the environment says. */
  ghost predicate Trying(sys: B.Sys, t: State, c: nat, n: nat, counts: map<Row, nat>, scope: Scope) {
    && c in t.calls && t.calls[c] == Call(Phase.Trying(n + 1), n, true, 0)
    && t.sys == sys && SameCounts(t.counts, counts, scope)
  }

  lemma CommitKeepsCounts(rule: Rule, t: State, c: nat, at: int, answered: bool, counts: map<Row, nat>, scope: Scope)
    requires rule.window >= SECOND && SameCounts(t.counts, counts, scope)
    ensures var u := Commits(rule, t, c, at, answered);
            SameCounts(u.counts, Bumped(counts, scope, rule.window, at), scope)
  {
    forall start ensures CountOf(Commits(rule, t, c, at, answered).counts, start)
                      == CountAt(Bumped(counts, scope, rule.window, at), scope, start) {
      assert CountOf(t.counts, start) == CountAt(counts, scope, start);
    }
  }

  /** One attempt of the protocol. */
  lemma AttemptCounts(o: Options, rule: Rule, t: State, c: nat, try: Try, counts: map<Row, nat>, scope: Scope)
    requires Valid(o, rule) && c in t.calls && t.calls[c].phase.Trying? && SameCounts(t.counts, counts, scope)
    ensures var u := AttemptStep(o, rule, t, c, try.effect, try.at, try.ended);
            && c in u.calls && u.sys == t.sys && SameCounts(u.counts, Bump(counts, scope, rule.window, try), scope)
            && u.calls[c] == t.calls[c].(attempts := t.calls[c].attempts + 1, phase := u.calls[c].phase)
            && (if try.effect.Answer? then
                  && u.calls[c].phase == Answered(|t.log|) && |u.log| == |t.log| + 1
                  && u.log[|t.log|].start == SqlWindowStart(try.at, rule.window) && u.log[|t.log|].at == try.at
                  && u.log[|t.log|].count == CountAt(counts, scope, u.log[|t.log|].start) + 1
                else u.calls[c].phase == AfterError(o, t.calls[c].phase.n, try.effect.retryable, try.ended))
  {
    CommitKeepsCounts(rule, t, c, try.at, try.effect.Answer?, counts, scope);
    assert CountOf(t.counts, SqlWindowStart(try.at, rule.window)) == CountAt(counts, scope, SqlWindowStart(try.at, rule.window));
  }

  /** A try that is followed by another. */
  lemma TryIsSteps(o: Options, rule: Rule, s: State, t: State, c: nat, scope: Scope,
                   counts: map<Row, nat>, try: Try, n: nat, sys: B.Sys) returns (u: State)
    requires Valid(o, rule) && Reached(o, rule, s, t) && Trying(sys, t, c, n, counts, scope)
    requires n + 1 < o.maxAttempts && TriesAgain(try)
    ensures Reached(o, rule, s, u) && Trying(sys, u, c, n + 1, Bump(counts, scope, rule.window, try), scope)
  {
    AttemptCounts(o, rule, t, c, try, counts, scope);
    ThenAttempt(o, rule, s, t, c, try);
    u := AttemptStep(o, rule, t, c, try.effect, try.at, try.ended);
    ThenWake(o, rule, s, u, c, false);
    u := SetPhase(u, c, Phase.Trying(n + 2));
  }

  /** The first n tries, none of them the last. */
  lemma {:induction false} TriesAreSteps(o: Options, rule: Rule, s: State, t: State, c: nat, scope: Scope,
                                         counts: map<Row, nat>, env: nat -> Try, n: nat, sys: B.Sys)
    returns (u: State)
    requires Valid(o, rule) && n < o.maxAttempts && forall i: nat :: i < n ==> TriesAgain(env(i))
    requires Reached(o, rule, s, t) && Trying(sys, t, c, 0, counts, scope)
    ensures Reached(o, rule, s, u) && Trying(sys, u, c, n, After(counts, scope, rule.window, env, n), scope)
  {
    if n == 0 {
      u := t;
    } else {
      var before := TriesAreSteps(o, rule, s, t, c, scope, counts, env, n - 1, sys);
      var counted := After(counts, scope, rule.window, env, n - 1);
      u := TryIsSteps(o, rule, s, before, c, scope, counted, env(n - 1), n - 1, sys);
      assert After(counts, scope, rule.window, env, n) == Bump(counted, scope, rule.window, env(n - 1));
    }
  }

  /** The last try has come back as this, and the wait after it if the caller's context ends that. */
  ghost predicate Over(o: Options, rule: Rule, sys: B.Sys, t: State, c: nat, scope: Scope, counts: map<Row, nat>,
                       try: Try, n: nat)
    requires rule.window > 0
  {
    && c in t.calls && t.calls[c] == Call(t.calls[c].phase, n, true, 0) && t.sys == sys
    && if try.effect.Answer? then
         t.calls[c].phase.Answered?
         && var slot := t.calls[c].phase.slot;
         && slot < |t.log| && t.log[slot].start == SqlWindowStart(try.at, rule.window) && t.log[slot].at == try.at
         && t.log[slot].count == CountAt(counts, scope, t.log[slot].start)
       else
         t.calls[c].phase == GaveUp(try.effect.retryable,
                                    try.ended || (try.effect.retryable && n < o.maxAttempts && try.cutShort))
  }

  lemma LastTryIsSteps(o: Options, rule: Rule, s: State, t: State, c: nat, scope: Scope,
                       counts: map<Row, nat>, try: Try, n: nat, sys: B.Sys) returns (u: State)
    requires Valid(o, rule) && Reached(o, rule, s, t) && Trying(sys, t, c, n, counts, scope)
    requires n < o.maxAttempts && (n + 1 == o.maxAttempts || !TriesAgain(try))
    ensures Reached(o, rule, s, u)
    ensures SameCounts(u.counts, Bump(counts, scope, rule.window, try), scope)
    ensures Over(o, rule, sys, u, c, scope, Bump(counts, scope, rule.window, try), try, n + 1)
  {
    AttemptCounts(o, rule, t, c, try, counts, scope);
    ThenAttempt(o, rule, s, t, c, try);
    u := AttemptStep(o, rule, t, c, try.effect, try.at, try.ended);
    if u.calls[c].phase.Sleeping? {
      ThenWake(o, rule, s, u, c, true);
      u := SetPhase(u, c, GaveUp(true, true));
    }
  }

  /** The outcome of the protocol is what the code returned. */
  predicate Returned(outcome: Outcome, d: Option<Decision>, cancelled: bool) {
    match outcome
    case Decided(_, dec) => d == Some(dec) && !cancelled && !dec.degraded
    case Degraded => d.Some? && d.value.degraded && d.value.allowed && !cancelled
    case Unavailable => d.None? && !cancelled
    case Cancelled => d.None? && cancelled
  }

  /** A Check that no other call interrupts is a run of the protocol: it takes the breaker and the
      scope's counters where the run takes them, and returns the run's outcome. */
  method CheckIsRun(svc: Service, scope: Scope, rule: Rule, env: nat -> Try, clock: int, later: int, late: bool,
                    c: nat, ghost s: State)
    returns (d: Option<Decision>, cancelled: bool, tries: nat, ghost t: State)
    requires Valid(svc.opts, rule) && svc.breaker.cfg == svc.opts.breaker
    requires c !in s.calls && c !in s.sys.calls && s.sys.core == svc.breaker.View()
    requires SameCounts(s.counts, svc.store.counts, scope)
    modifies svc.store, svc.breaker
    ensures Reached(svc.opts, rule, s, t)
    ensures t.sys.core == svc.breaker.View() && SameCounts(t.counts, svc.store.counts, scope)
            && c in t.calls && t.calls[c].attempts == tries && t.calls[c].phase.Done?
            && Returned(t.calls[c].phase.outcome, d, cancelled)
  {
    ghost var counts, core := svc.store.counts, svc.breaker.View();
    d, cancelled, tries := svc.Check(scope, rule, env, clock, later, late);
    ThenBegin(svc.opts, rule, s, c, clock);
    t := BeginStep(svc.opts, s, c, clock);
    if B.Admit(svc.opts.breaker, core, clock).admitted {
      t := AdmittedIsRun(svc.opts, rule, s, t, c, scope, counts, env, tries, clock, later, late);
    }
  }

  lemma AllTries(o: Options, rule: Rule, s: State, t: State, c: nat, scope: Scope, counts: map<Row, nat>,
                 env: nat -> Try, tries: nat, sys: B.Sys) returns (u: State)
    requires Valid(o, rule) && Reached(o, rule, s, t) && Trying(sys, t, c, 0, counts, scope)
    requires 1 <= tries <= o.maxAttempts && forall i: nat :: i < tries - 1 ==> TriesAgain(env(i))
    requires tries == o.maxAttempts || !TriesAgain(env(tries - 1))
    ensures Reached(o, rule, s, u)
    ensures SameCounts(u.counts, After(counts, scope, rule.window, env, tries), scope)
    ensures Over(o, rule, sys, u, c, scope, After(counts, scope, rule.window, env, tries), env(tries - 1), tries)
  {
    u := TriesAreSteps(o, rule, s, t, c, scope, counts, env, tries - 1, sys);
    u := LastTryIsSteps(o, rule, s, u, c, scope, After(counts, scope, rule.window, env, tries - 1),
                        env(tries - 1), tries - 1, sys);
  }

  /** What the breaker hears of a last try. */
  function SignalOf(o: Options, try: Try, n: nat, late: bool): B.Signal {
    if try.effect.Answer? then B.Success
    else if late || try.ended || (try.effect.retryable && n < o.maxAttempts && try.cutShort) then B.Release
    else if try.effect.retryable then B.Failure else B.Success
  }

  lemma AdmittedIsRun(o: Options, rule: Rule, s: State, t: State, c: nat, scope: Scope, counts: map<Row, nat>,
                      env: nat -> Try, tries: nat, clock: int, later: int, late: bool) returns (u: State)
    requires Valid(o, rule) && c !in s.calls && c !in s.sys.calls && SameCounts(s.counts, counts, scope)
    requires Reached(o, rule, s, t) && t == BeginStep(o, s, c, clock) && B.Admit(o.breaker, s.sys.core, clock).admitted
    requires 1 <= tries <= o.maxAttempts && forall i: nat :: i < tries - 1 ==> TriesAgain(env(i))
    requires tries == o.maxAttempts || !TriesAgain(env(tries - 1))
    ensures Reached(o, rule, s, u)
    ensures var try := env(tries - 1);
            && u.sys.core == B.Settle(B.Limiter, o.breaker, B.Admit(o.breaker, s.sys.core, clock).core,
                                      SignalOf(o, try, tries, late), later)
            && SameCounts(u.counts, After(counts, scope, rule.window, env, tries), scope)
            && c in u.calls && u.calls[c].attempts == tries && u.calls[c].phase.Done?
            && Fits(o, rule, u.calls[c].phase.outcome, try, tries, late, scope, After(counts, scope, rule.window, env, tries))
  {
    u := AllTries(o, rule, s, t, c, scope, counts, env, tries, t.sys);
    ThenSettle(o, rule, s, u, c, later, late);
    u := SettleStep(o, rule, u, c, later, late);
  }

  /** The outcome that a last try leads to. */
  predicate Fits(o: Options, rule: Rule, out: Outcome, try: Try, n: nat, late: bool, scope: Scope, counts: map<Row, nat>)
    requires rule.window > 0
  {
    if try.effect.Answer? then
      var start := SqlWindowStart(try.at, rule.window);
      out.Decided? && out.d == Decide(CountAt(counts, scope, start), rule.limit, start, rule.window, try.at)
    else if SignalOf(o, try, n, late).Release? then out.Cancelled?
    else out == Degrade(o)
  }
}
