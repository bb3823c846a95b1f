/** The fixed-window rate limiter end to end, for one key and one rule: any number of
    concurrent Check calls over an atomic counter whose answers can be lost, behind a retry
    loop, a circuit breaker and a fail-open or fail-closed policy. */
module RateLimiter {
  import opened Common
  import opened Window
  import B = Breakers

  datatype Rule = Rule(limit: int, window: int)
  datatype Options = Options(failOpen: bool, maxAttempts: int, base: int, breaker: B.Config)

  /** What the configuration validates. */
  predicate Valid(o: Options, rule: Rule) {
    o.maxAttempts >= 1 && o.base >= 0 && B.Sane(o.breaker) && rule.limit > 0 && rule.window >= SECOND
  }

  /** One committed increment: whose, in which window, the number it got, the database time,
      and whether the answer reached the caller. */
  datatype Commit = Commit(call: nat, start: int, count: nat, at: int, answered: bool)

  datatype Outcome =
    | Decided(slot: nat, d: Decision)   // from the answer to the increment in log[slot]
    | Degraded                          // let through uncounted
    | Unavailable                       // refused: the counter cannot be reached
    | Cancelled                         // the caller gave up

  datatype Phase =
    | Trying(n: int)
    | Sleeping(n: int)
    | Answered(slot: nat)
    | GaveUp(retryable: bool, ended: bool)
    | Done(outcome: Outcome)

  datatype Call = Call(phase: Phase, attempts: int, admitted: bool, signals: int)

  /** `adrift` are the callers of the statements that were given up while on their way to the
      store, and that may still commit. */
  datatype State = State(sys: B.Sys, counts: map<int, nat>, log: seq<Commit>, calls: map<nat, Call>,
                         adrift: seq<nat>)

  const START := State(B.START, map[], [], map[], [])

  /** What becomes of one attempt: answered, committed with the answer lost, never committed, or
      given up while it is still on its way. */
  datatype Effect = Answer | Lost(retryable: bool) | NoCommit(retryable: bool) | Drift(retryable: bool)

  predicate CommitsNow(e: Effect) { e.Answer? || e.Lost? }

  datatype Event =
    | Begin(c: nat, clock: int)
    | Attempt(c: nat, effect: Effect, at: int, ended: bool)
    | Wake(c: nat, ended: bool)
    | Settle(c: nat, clock: int, ended: bool)
    | Land(i: nat, at: int)   // a statement adrift commits after all

  function Degrade(o: Options): Outcome { if o.failOpen then Degraded else Unavailable }

  /** After a failed attempt: stop when the caller is gone, the error is permanent or the
      attempts are used up; otherwise back off. */
  function AfterError(o: Options, n: int, retryable: bool, ended: bool): Phase {
    if ended || !retryable || n == o.maxAttempts then GaveUp(retryable, ended) else Sleeping(n)
  }

  function CountOf(counts: map<int, nat>, start: int): nat {
    if start in counts then counts[start] else 0
  }

  function Step(o: Options, rule: Rule, s: State, e: Event): State
    requires Valid(o, rule)
  {
    match e
    case Begin(c, clock) => if c in s.calls then s else BeginStep(o, s, c, clock)
    case Attempt(c, effect, at, ended) =>
      if c in s.calls && s.calls[c].phase.Trying?
      then AttemptStep(o, rule, s, c, effect, at, ended) else s
    case Wake(c, ended) =>
      if c in s.calls && s.calls[c].phase.Sleeping? then
        SetPhase(s, c, if ended then GaveUp(true, true) else Trying(s.calls[c].phase.n + 1))
      else s
    case Settle(c, clock, ended) =>
      if c in s.calls && (s.calls[c].phase.Answered? || s.calls[c].phase.GaveUp?)
      then SettleStep(o, rule, s, c, clock, ended) else s
    case Land(i, at) => if i < |s.adrift| then LandStep(rule, s, i, at) else s
  }

  function LandStep(rule: Rule, s: State, i: nat, at: int): State
    requires rule.window >= SECOND && i < |s.adrift|
  {
    Commits(rule, s.(adrift := s.adrift[..i] + s.adrift[i + 1..]), s.adrift[i], at, false)
  }

  function SetPhase(s: State, c: nat, ph: Phase): State
    requires c in s.calls
  {
    s.(calls := s.calls[c := s.calls[c].(phase := ph)])
  }

  function BeginStep(o: Options, s: State, c: nat, clock: int): State {
    if B.Admit(o.breaker, s.sys.core, clock).admitted then
      s.(sys := B.Step(B.Limiter, o.breaker, s.sys, B.Arrive(c, clock)),
         calls := s.calls[c := Call(Trying(1), 0, true, 0)])
    else
      s.(calls := s.calls[c := Call(Done(Degrade(o)), 0, false, 0)])
  }

  function AttemptStep(o: Options, rule: Rule, s: State, c: nat, effect: Effect, at: int, ended: bool): State
    requires Valid(o, rule) && c in s.calls && s.calls[c].phase.Trying?
  {
    var call := s.calls[c];
    var ph := match effect
              case Answer => Answered(|s.log|)
              case Lost(r) => AfterError(o, call.phase.n, r, ended)
              case NoCommit(r) => AfterError(o, call.phase.n, r, ended)
              case Drift(r) => AfterError(o, call.phase.n, r, ended);
    var after := s.(calls := s.calls[c := call.(phase := ph, attempts := call.attempts + 1)],
                    adrift := if effect.Drift? then s.adrift + [c] else s.adrift);
    if CommitsNow(effect) then Commits(rule, after, c, at, effect.Answer?) else after
  }

  /** The upsert: one atomic statement that bumps the counter of the current window. */
  function Commits(rule: Rule, s: State, c: nat, at: int, answered: bool): State
    requires rule.window >= SECOND
  {
    var start := SqlWindowStart(at, rule.window);
    var count := CountOf(s.counts, start) + 1;
    s.(counts := s.counts[start := count], log := s.log + [Commit(c, start, count, at, answered)])
  }

  function DecideAt(rule: Rule, entry: Commit): Decision {
    Decide(entry.count, rule.limit, entry.start, rule.window, entry.at)
  }

  function SettleStep(o: Options, rule: Rule, s: State, c: nat, clock: int, ended: bool): State
    requires c in s.calls && (s.calls[c].phase.Answered? || s.calls[c].phase.GaveUp?)
  {
    var ph := s.calls[c].phase;
    if ph.Answered? then
      if ph.slot < |s.log|
      then Finish(o, s, c, B.Success, clock, Decided(ph.slot, DecideAt(rule, s.log[ph.slot])))
      else s
    else if ph.ended || ended then Finish(o, s, c, B.Release, clock, Cancelled)
    else Finish(o, s, c, if ph.retryable then B.Failure else B.Success, clock, Degrade(o))
  }

  function Finish(o: Options, s: State, c: nat, sig: B.Signal, clock: int, out: Outcome): State
    requires c in s.calls
  {
    var call := s.calls[c];
    s.(sys := B.Step(B.Limiter, o.breaker, s.sys, B.End(c, sig, clock)),
       calls := s.calls[c := call.(phase := Done(out), signals := call.signals + 1)])
  }

  function Exec(o: Options, rule: Rule, s: State, es: seq<Event>): State
    requires Valid(o, rule)
    decreases |es|
  {
    if es == [] then s else Exec(o, rule, Step(o, rule, s, es[0]), es[1..])
  }

  // ---- The counter's log --------------------------------------------------------------

  function Total(log: seq<Commit>, w: int): nat {
    if log == [] then 0
    else Total(log[..|log| - 1], w) + if log[|log| - 1].start == w then 1 else 0
  }

  function LostIn(log: seq<Commit>, w: int): nat {
    if log == [] then 0
    else LostIn(log[..|log| - 1], w) + if log[|log| - 1].start == w && !log[|log| - 1].answered then 1 else 0
  }

  predicate Passes(rule: Rule, e: Commit, w: int) {
    e.start == w && e.answered && e.count <= rule.limit
  }

  function Passing(log: seq<Commit>, rule: Rule, w: int): nat {
    if log == [] then 0
    else Passing(log[..|log| - 1], rule, w) + if Passes(rule, log[|log| - 1], w) then 1 else 0
  }

  /** Every increment got the next number of its window. */
  ghost predicate WellCounted(log: seq<Commit>) {
    forall i :: 0 <= i < |log| ==> NumberedAt(log, i)
  }

  predicate NumberedAt(log: seq<Commit>, i: int)
    requires 0 <= i < |log|
  {
    log[i].count == Total(log[..i], log[i].start) + 1
  }

  ghost predicate LogInv(rule: Rule, counts: map<int, nat>, log: seq<Commit>)
    requires rule.window >= SECOND
  {
    && WellCounted(log)
    && (forall w :: CountOf(counts, w) == Total(log, w))
    && (forall i :: 0 <= i < |log| ==>
          log[i].start == SqlWindowStart(log[i].at, rule.window))
  }

  lemma WellCountedAppend(log: seq<Commit>, e: Commit)
    requires WellCounted(log) && e.count == Total(log, e.start) + 1
    ensures WellCounted(log + [e])
    ensures forall w :: Total(log + [e], w) == Total(log, w) + if e.start == w then 1 else 0
  {
    var after := log + [e];
    assert after[..|log|] == log;
    forall i | 0 <= i < |after| ensures NumberedAt(after, i) {
      if i < |log| {
        assert NumberedAt(log, i);
        assert after[..i] == log[..i];
      }
    }
  }

  lemma CommitsKeepsLogInv(rule: Rule, s: State, c: nat, at: int, answered: bool)
    requires rule.window >= SECOND && LogInv(rule, s.counts, s.log)
    ensures var t := Commits(rule, s, c, at, answered); LogInv(rule, t.counts, t.log)
  {
    var t := Commits(rule, s, c, at, answered);
    WellCountedAppend(s.log, t.log[|s.log|]);
    assert forall w :: CountOf(t.counts, w) == Total(t.log, w);
  }

  /** Losing answers only wastes numbers: of the first `limit` numbers of a window, all are
      passed on except those whose answer was lost. */
  lemma {:induction false} PassingBounds(log: seq<Commit>, rule: Rule, w: int)
    requires WellCounted(log) && rule.limit > 0
    ensures var total := Total(log, w);
            var first := if total <= rule.limit then total else rule.limit;
            first - LostIn(log, w) <= Passing(log, rule, w) <= first
    ensures LostIn(log, w) <= Total(log, w)
  {
    if log != [] {
      var init := log[..|log| - 1];
      forall i | 0 <= i < |init| ensures NumberedAt(init, i) {
        assert NumberedAt(log, i);
        assert init[..i] == log[..i];
      }
      assert NumberedAt(log, |log| - 1);
      PassingBounds(init, rule, w);
    }
  }

  function PassingSlots(log: seq<Commit>, rule: Rule, w: int): set<nat> {
    set i: nat | i < |log| && Passes(rule, log[i], w)
  }

  lemma {:induction false} PassingSlotsSize(log: seq<Commit>, rule: Rule, w: int)
    ensures |PassingSlots(log, rule, w)| == Passing(log, rule, w)
  {
    if log == [] {
      assert PassingSlots(log, rule, w) == {};
    } else {
      var n := |log| - 1;
      var init := log[..n];
      PassingSlotsSize(init, rule, w);
      if Passes(rule, log[n], w) {
        assert PassingSlots(log, rule, w) == PassingSlots(init, rule, w) + {n};
      } else {
        assert PassingSlots(log, rule, w) == PassingSlots(init, rule, w);
      }
    }
  }

  // ---- The calls ----------------------------------------------------------------------

  /** What holds of one call: it decides from its own answer, never exceeds its attempts, and
      tells the breaker nothing while it runs and exactly once when it is over. */
  ghost predicate CallInv(o: Options, rule: Rule, s: State, c: nat)
    requires c in s.calls
  {
    var call := s.calls[c];
    && 0 <= call.attempts <= o.maxAttempts
    && (call.phase.Trying? ==> call.phase.n == call.attempts + 1 <= o.maxAttempts)
    && (call.phase.Sleeping? ==> 1 <= call.phase.n == call.attempts < o.maxAttempts)
    && (call.phase.Answered? ==> call.attempts >= 1 && Owns(s.log, c, call.phase.slot))
    && (call.phase.GaveUp? ==> call.attempts >= 1)
    && (!call.phase.Done? ==> call.admitted && call.signals == 0)
    && (call.phase.Done? ==>
          && call.signals == (if call.admitted then 1 else 0)
          && (call.admitted <==> call.attempts >= 1)
          && match call.phase.outcome
             case Decided(slot, d) => call.admitted && Owns(s.log, c, slot) && d == DecideAt(rule, s.log[slot])
             case Degraded => o.failOpen
             case Unavailable => !o.failOpen
             case Cancelled => call.admitted)
  }

  predicate Owns(log: seq<Commit>, c: nat, slot: nat) {
    slot < |log| && log[slot].call == c && log[slot].answered
  }

  predicate HasSlot(ph: Phase, slot: nat) {
    ph == Answered(slot) || (ph.Done? && ph.outcome.Decided? && ph.outcome.slot == slot)
  }

  ghost predicate CallsInv(o: Options, rule: Rule, s: State) {
    && (forall c :: c in s.calls ==> CallInv(o, rule, s, c))
    && (forall i :: 0 <= i < |s.log| && s.log[i].answered ==>
          s.log[i].call in s.calls && HasSlot(s.calls[s.log[i].call].phase, i))
  }

  /** The breaker's admitted and unfinished calls are exactly the Check calls in progress. */
  ghost predicate SysInv(o: Options, sys: B.Sys, calls: map<nat, Call>) {
    && B.Inv(B.Limiter, o.breaker, sys)
    && (forall c :: c in sys.calls <==> c in calls && !calls[c].phase.Done?)
  }

  ghost predicate Inv(o: Options, rule: Rule, s: State)
    requires Valid(o, rule)
  {
    LogInv(rule, s.counts, s.log) && CallsInv(o, rule, s) && SysInv(o, s.sys, s.calls)
  }

  lemma BeginKeepsCalls(o: Options, rule: Rule, s: State, c: nat, clock: int)
    requires Valid(o, rule) && CallsInv(o, rule, s) && c !in s.calls
    ensures CallsInv(o, rule, BeginStep(o, s, c, clock))
  {
    var t := BeginStep(o, s, c, clock);
    forall d | d in t.calls ensures CallInv(o, rule, t, d) { assert d != c ==> CallInv(o, rule, s, d); }
  }

  lemma BeginKeepsSys(o: Options, s: State, c: nat, clock: int)
    requires B.Sane(o.breaker) && SysInv(o, s.sys, s.calls) && c !in s.calls
    ensures var t := BeginStep(o, s, c, clock); SysInv(o, t.sys, t.calls)
  {
    assert c !in s.sys.calls;
    B.ArriveKeepsInv(B.Limiter, o.breaker, s.sys, c, clock);
  }

  lemma AttemptKeepsCalls(o: Options, rule: Rule, s: State, c: nat, effect: Effect, at: int, ended: bool)
    requires Valid(o, rule) && CallsInv(o, rule, s)
    requires c in s.calls && s.calls[c].phase.Trying?
    ensures CallsInv(o, rule, AttemptStep(o, rule, s, c, effect, at, ended))
  {
    var t := AttemptStep(o, rule, s, c, effect, at, ended);
    assert CallInv(o, rule, s, c);
    forall d | d in t.calls ensures CallInv(o, rule, t, d) { assert CallInv(o, rule, s, d); }
    forall i | 0 <= i < |t.log| && t.log[i].answered
      ensures t.log[i].call in t.calls && HasSlot(t.calls[t.log[i].call].phase, i)
    {
      if i < |s.log| { assert t.log[i] == s.log[i]; }
    }
  }

  lemma AttemptKeepsLog(o: Options, rule: Rule, s: State, c: nat, effect: Effect, at: int, ended: bool)
    requires Valid(o, rule) && LogInv(rule, s.counts, s.log)
    requires c in s.calls && s.calls[c].phase.Trying?
    ensures var t := AttemptStep(o, rule, s, c, effect, at, ended); LogInv(rule, t.counts, t.log)
  {
    CommitsKeepsLogInv(rule, s, c, at, effect.Answer?);
  }

  lemma AttemptKeepsInv(o: Options, rule: Rule, s: State, c: nat, effect: Effect, at: int, ended: bool)
    requires Valid(o, rule) && Inv(o, rule, s)
    requires c in s.calls && s.calls[c].phase.Trying?
    ensures Inv(o, rule, AttemptStep(o, rule, s, c, effect, at, ended))
  {
    AttemptKeepsCalls(o, rule, s, c, effect, at, ended);
    AttemptKeepsLog(o, rule, s, c, effect, at, ended);
  }

  lemma FinishKeepsSys(o: Options, s: State, c: nat, sig: B.Signal, clock: int, out: Outcome)
    requires B.Sane(o.breaker) && SysInv(o, s.sys, s.calls) && c in s.calls && !s.calls[c].phase.Done?
    ensures var t := Finish(o, s, c, sig, clock, out); SysInv(o, t.sys, t.calls)
  {
    assert c in s.sys.calls;
    B.EndKeepsInv(B.Limiter, o.breaker, s.sys, c, sig, clock);
  }

  lemma SettleKeepsInv(o: Options, rule: Rule, s: State, c: nat, clock: int, ended: bool)
    requires Valid(o, rule) && Inv(o, rule, s) && c in s.calls
    requires s.calls[c].phase.Answered? || s.calls[c].phase.GaveUp?
    ensures Inv(o, rule, SettleStep(o, rule, s, c, clock, ended))
  {
    assert CallInv(o, rule, s, c);
    var t := SettleStep(o, rule, s, c, clock, ended);
    var ph := s.calls[c].phase;
    var sig := if ph.Answered? then B.Success
               else if ph.ended || ended then B.Release
               else if ph.retryable then B.Failure else B.Success;
    var out := t.calls[c].phase.outcome;
    assert t == Finish(o, s, c, sig, clock, out);
    FinishKeepsSys(o, s, c, sig, clock, out);
  }

  /** A late commit is one more number without an answer. */
  lemma LandKeepsInv(o: Options, rule: Rule, s: State, i: nat, at: int)
    requires Valid(o, rule) && Inv(o, rule, s) && i < |s.adrift|
    ensures Inv(o, rule, LandStep(rule, s, i, at))
  {
    var t := LandStep(rule, s, i, at);
    CommitsKeepsLogInv(rule, s, s.adrift[i], at, false);
    forall c | c in t.calls ensures CallInv(o, rule, t, c) { assert CallInv(o, rule, s, c); }
  }

  lemma StepKeepsInv(o: Options, rule: Rule, s: State, e: Event)
    requires Valid(o, rule) && Inv(o, rule, s)
    ensures Inv(o, rule, Step(o, rule, s, e))
  {
    var t := Step(o, rule, s, e);
    if t != s {
      match e
      case Begin(c, clock) =>
        BeginKeepsCalls(o, rule, s, c, clock);
        BeginKeepsSys(o, s, c, clock);
      case Attempt(c, effect, at, ended) => AttemptKeepsInv(o, rule, s, c, effect, at, ended);
      case Wake(c, ended) =>
        assert CallInv(o, rule, s, c);
      case Settle(c, clock, ended) => SettleKeepsInv(o, rule, s, c, clock, ended);
      case Land(i, at) => LandKeepsInv(o, rule, s, i, at);
    }
  }

  lemma {:induction false} ExecKeepsInv(o: Options, rule: Rule, s: State, es: seq<Event>)
    requires Valid(o, rule) && Inv(o, rule, s)
    ensures Inv(o, rule, Exec(o, rule, s, es))
    decreases |es|
  {
    if es != [] {
      StepKeepsInv(o, rule, s, es[0]);
      ExecKeepsInv(o, rule, Step(o, rule, s, es[0]), es[1..]);
    }
  }

  lemma RunInv(o: Options, rule: Rule, es: seq<Event>)
    requires Valid(o, rule)
    ensures Inv(o, rule, Exec(o, rule, START, es))
  {
    assert B.Outstanding(B.START) == {};
    ExecKeepsInv(o, rule, START, es);
  }

  // ---- Main results: admissions -------------------------------------------------------

  predicate Allowed(s: State, c: nat) {
    c in s.calls && s.calls[c].phase.Done? && s.calls[c].phase.outcome.Decided?
    && s.calls[c].phase.outcome.d.allowed
  }

  /** Counted by the limiter in window w and let through. */
  predicate AllowedIn(s: State, c: nat, w: int) {
    Allowed(s, c) && s.calls[c].phase.outcome.slot < |s.log|
    && s.log[s.calls[c].phase.outcome.slot].start == w
  }

  function AdmittedIn(s: State, w: int): set<nat> {
    set c | c in s.calls && AllowedIn(s, c, w)
  }

  function SlotOf(s: State, cs: set<nat>): map<nat, nat> {
    map c | c in cs && Allowed(s, c) :: s.calls[c].phase.outcome.slot
  }

  lemma SlotsAreDistinct(o: Options, rule: Rule, s: State, cs: set<nat>)
    requires Valid(o, rule) && Inv(o, rule, s) && forall c :: c in cs ==> Allowed(s, c)
    ensures |SlotOf(s, cs).Values| == |cs|
    ensures forall c :: c in cs ==>
              s.calls[c].phase.outcome.slot < |s.log| && Passes(rule, s.log[s.calls[c].phase.outcome.slot],
                                                                s.log[s.calls[c].phase.outcome.slot].start)
  {
    var f := SlotOf(s, cs);
    forall a, b | a in f && b in f && f[a] == f[b] ensures a == b {
      assert CallInv(o, rule, s, a) && CallInv(o, rule, s, b);
    }
    ImageSize(f);
    assert f.Keys == cs;
    assert |f| == |f.Keys|;
    forall c | c in cs
      ensures s.calls[c].phase.outcome.slot < |s.log|
      ensures Passes(rule, s.log[s.calls[c].phase.outcome.slot], s.log[s.calls[c].phase.outcome.slot].start)
    {
      assert CallInv(o, rule, s, c);
    }
  }

  lemma SubsetSize(a: set<nat>, b: set<nat>)
    requires a <= b
    ensures |a| <= |b|
  {
    assert b == a + (b - a);
  }

  lemma AdmittedWithinLimit(o: Options, rule: Rule, s: State, w: int)
    requires Valid(o, rule) && Inv(o, rule, s)
    ensures |AdmittedIn(s, w)| <= rule.limit
  {
    var cs := AdmittedIn(s, w);
    SlotsAreDistinct(o, rule, s, cs);
    assert SlotOf(s, cs).Values <= PassingSlots(s.log, rule, w);
    SubsetSize(SlotOf(s, cs).Values, PassingSlots(s.log, rule, w));
    PassingSlotsSize(s.log, rule, w);
    PassingBounds(s.log, rule, w);
  }

  /** Whatever the interleaving, the retries, the lost answers and the breaker: at most `limit`
      counted requests pass in one window. */
  lemma WindowLimit(o: Options, rule: Rule, es: seq<Event>, w: int)
    requires Valid(o, rule)
    ensures |AdmittedIn(Exec(o, rule, START, es), w)| <= rule.limit
  {
    RunInv(o, rule, es);
    AdmittedWithinLimit(o, rule, Exec(o, rule, START, es), w);
  }

  /** Let through with a database time in the half-open span [from, from + window). */
  function AdmittedSpan(s: State, rule: Rule, from: int): set<nat> {
    set c | c in s.calls && Allowed(s, c) && s.calls[c].phase.outcome.slot < |s.log|
            && from <= s.log[s.calls[c].phase.outcome.slot].at < from + rule.window
  }

  lemma SpanSplits(rule: Rule, s: State, from: int)
    requires rule.window >= SECOND && LogInv(rule, s.counts, s.log)
    ensures var w := SqlWindowStart(from, rule.window);
            AdmittedSpan(s, rule, from) <= AdmittedIn(s, w) + AdmittedIn(s, w + rule.window)
  {
    var w := SqlWindowStart(from, rule.window);
    forall c | c in AdmittedSpan(s, rule, from)
      ensures c in AdmittedIn(s, w) + AdmittedIn(s, w + rule.window)
    {
      SpanTouchesTwo(from, s.log[s.calls[c].phase.outcome.slot].at, rule.window);
    }
  }

  /** Any span as long as a window touches at most two windows: at most twice the limit. */
  lemma SpanLimit(o: Options, rule: Rule, es: seq<Event>, from: int)
    requires Valid(o, rule)
    ensures |AdmittedSpan(Exec(o, rule, START, es), rule, from)| <= 2 * rule.limit
  {
    var s := Exec(o, rule, START, es);
    var w := SqlWindowStart(from, rule.window);
    assert AdmittedSpan(s, rule, from) <= AdmittedIn(s, w) + AdmittedIn(s, w + rule.window) by {
      RunInv(o, rule, es);
      SpanSplits(rule, s, from);
    }
    WindowLimit(o, rule, es, w);
    WindowLimit(o, rule, es, w + rule.window);
    UnionSize(AdmittedSpan(s, rule, from), AdmittedIn(s, w), AdmittedIn(s, w + rule.window));
  }

  lemma UnionSize(x: set<nat>, a: set<nat>, b: set<nat>)
    requires x <= a + b
    ensures |x| <= |a| + |b|
  {
    SubsetSize(x, a + b);
  }

  lemma SpanTouchesTwo(from: int, at: int, window: int)
    requires window > 0 && from <= at < from + window
    ensures SqlWindowStart(at, window) == SqlWindowStart(from, window)
         || SqlWindowStart(at, window) == SqlWindowStart(from, window) + window
  {
    var k := from / window;
    assert from == k * window + from % window;
    assert (k + 1) * window == k * window + window;
    assert (k + 2) * window == k * window + 2 * window;
    if at < (k + 1) * window { DivUnique(at, window, k); } else { DivUnique(at, window, k + 1); }
  }

  predicate NoneUndecided(s: State) { forall c :: c in s.calls ==> !s.calls[c].phase.Answered? }

  predicate AllDone(s: State) { forall c :: c in s.calls ==> s.calls[c].phase.Done? }

  /** Over-counting costs at most the lost answers: with n answered and k lost increments in a
      window and every answered call settled, at least min(n, limit) - k calls pass. With
      nothing lost exactly min(n, limit) pass, and they are the first ones counted. */
  lemma OverCounting(o: Options, rule: Rule, es: seq<Event>, w: int)
    requires Valid(o, rule)
    requires NoneUndecided(Exec(o, rule, START, es))
    ensures var s := Exec(o, rule, START, es);
            var k := LostIn(s.log, w);
            var n := Total(s.log, w) - k;
            var first := if n <= rule.limit then n else rule.limit;
            && first - k <= |AdmittedIn(s, w)|
            && (k == 0 ==> |AdmittedIn(s, w)| == first)
            && (forall i :: 0 <= i < |s.log| && s.log[i].start == w && s.log[i].answered ==>
                  (s.log[i].call in AdmittedIn(s, w) <==> s.log[i].count <= rule.limit))
  {
    RunInv(o, rule, es);
    var s := Exec(o, rule, START, es);
    var cs := AdmittedIn(s, w);
    SlotsAreDistinct(o, rule, s, cs);
    EverySlotIsDecided(o, rule, s, w);
    PassingSlotsSize(s.log, rule, w);
    PassingBounds(s.log, rule, w);
  }

  lemma EverySlotIsDecided(o: Options, rule: Rule, s: State, w: int)
    requires Valid(o, rule) && Inv(o, rule, s)
    requires NoneUndecided(s)
    ensures SlotOf(s, AdmittedIn(s, w)).Values == PassingSlots(s.log, rule, w)
    ensures forall i :: 0 <= i < |s.log| && s.log[i].start == w && s.log[i].answered ==>
              (s.log[i].call in AdmittedIn(s, w) <==> s.log[i].count <= rule.limit)
  {
    var f := SlotOf(s, AdmittedIn(s, w));
    SlotsAreDistinct(o, rule, s, AdmittedIn(s, w));
    forall i | 0 <= i < |s.log| && s.log[i].start == w && s.log[i].answered
      ensures s.log[i].call in AdmittedIn(s, w) <==> s.log[i].count <= rule.limit
      ensures s.log[i].count <= rule.limit ==> i in f.Values
    {
      var c := s.log[i].call;
      assert HasSlot(s.calls[c].phase, i);
      assert CallInv(o, rule, s, c);
      if s.log[i].count <= rule.limit { assert c in f && f[c] == i; }
    }
  }

  /** Failing closed, nothing passes uncounted, so the limits above bound all traffic. */
  lemma FailClosedCountsEverything(o: Options, rule: Rule, es: seq<Event>, c: nat)
    requires Valid(o, rule) && !o.failOpen
    requires c in Exec(o, rule, START, es).calls
    ensures Exec(o, rule, START, es).calls[c].phase != Done(Degraded)
  {
    RunInv(o, rule, es);
    assert CallInv(o, rule, Exec(o, rule, START, es), c);
  }

  // ---- Main results: the breaker protocol ---------------------------------------------

  /** The call has told the breaker one thing if it was admitted and is over, and nothing
      otherwise; it has made attempts only if it was admitted, at least one by its end. */
  predicate Signalled(o: Options, call: Call) {
    && call.attempts <= o.maxAttempts
    && (if call.phase.Done? && call.admitted then call.signals == 1 && call.attempts >= 1
        else call.signals == 0)
    && (!call.admitted ==> call.attempts == 0)
  }

  ghost predicate EveryCallSignalled(o: Options, calls: map<nat, Call>) {
    forall c :: c in calls ==> Signalled(o, calls[c])
  }

  /** A call makes between 1 and maxAttempts attempts if it was admitted and none otherwise,
      and by its end it has told the breaker exactly one of success, failure and release. */
  lemma OneSignalPerAdmittedCall(o: Options, rule: Rule, es: seq<Event>)
    requires Valid(o, rule)
    ensures EveryCallSignalled(o, Exec(o, rule, START, es).calls)
  {
    RunInv(o, rule, es);
    var s := Exec(o, rule, START, es);
    forall c | c in s.calls ensures Signalled(o, s.calls[c]) { assert CallInv(o, rule, s, c); }
  }

  /** When no Check is in progress the breaker is not stuck: it refuses only during a cooldown. */
  lemma QuietLimiterRecovers(o: Options, rule: Rule, es: seq<Event>, now: int)
    requires Valid(o, rule)
    requires AllDone(Exec(o, rule, START, es))
    ensures var b := Exec(o, rule, START, es).sys.core;
            !B.Admit(o.breaker, b, now).admitted
            <==> b.mode.Open? && now < b.openedAt + o.breaker.cooldown
  {
    RunInv(o, rule, es);
  }

}
