/** What the two breakers have in common, and how much load either lets through during an
    outage. */
module BreakerPairs {
  import opened Breakers

  // ---- Bisimulation -------------------------------------------------------------------

  /** One operation on a breaker; `Settled` covers fresh and stale completions alike. */
  datatype Op = Ask(at: int) | Settled(sig: Signal, at: int)

  function Apply(k: Kind, c: Config, b: Core, op: Op): Core {
    match op
    case Ask(at) => Admit(c, b, at).core
    case Settled(sig, at) => Settle(k, c, b, sig, at)
  }

  /** The two breakers cannot be told apart: same mode, same opening time, same probe flag,
      and the same failure count whenever the count matters. */
  ghost predicate Alike(c: Config, p: Core, l: Core) {
    && p.mode == l.mode && p.openedAt == l.openedAt && p.probing == l.probing
    && (p.mode.Closed? ==> p.failures == l.failures)
    && (!p.mode.Closed? ==> p.failures >= c.threshold)
  }

  /** The one branch in which they differ: a failure that reaches the limiter's breaker while
      it is already open, completes its count, and comes later than the opening. */
  predicate Retrips(c: Config, l: Core, op: Op) {
    && op.Settled? && op.sig.Failure? && l.mode.Open?
    && l.failures + 1 >= c.threshold && op.at != l.openedAt
  }

  predicate NeverRetrips(c: Config, l: Core, ops: seq<Op>)
    decreases |ops|
  {
    ops == [] || (!Retrips(c, l, ops[0]) && NeverRetrips(c, Apply(Limiter, c, l, ops[0]), ops[1..]))
  }

  /** Alike now and after every operation, with the same verdict for every caller. */
  ghost predicate Bisimilar(c: Config, p: Core, l: Core, ops: seq<Op>)
    decreases |ops|
  {
    && Alike(c, p, l)
    && (ops != [] ==>
        && (ops[0].Ask? ==> Admit(c, p, ops[0].at).admitted == Admit(c, l, ops[0].at).admitted)
        && Bisimilar(c, Apply(Platform, c, p, ops[0]), Apply(Limiter, c, l, ops[0]), ops[1..]))
  }

  lemma OneStep(c: Config, p: Core, l: Core, op: Op)
    requires Sane(c) && Alike(c, p, l)
    ensures op.Ask? ==> Admit(c, p, op.at).admitted == Admit(c, l, op.at).admitted
    ensures Alike(c, Apply(Platform, c, p, op), Apply(Limiter, c, l, op)) <==> !Retrips(c, l, op)
  {
  }

  /** The breakers agree throughout a run exactly when the limiter's copy never re-trips. */
  lemma {:induction false} AgreeIffNoRetrip(c: Config, p: Core, l: Core, ops: seq<Op>)
    requires Sane(c) && Alike(c, p, l)
    ensures Bisimilar(c, p, l, ops) <==> NeverRetrips(c, l, ops)
    decreases |ops|
  {
    if ops != [] {
      OneStep(c, p, l, ops[0]);
      var p', l' := Apply(Platform, c, p, ops[0]), Apply(Limiter, c, l, ops[0]);
      if Alike(c, p', l') {
        AgreeIffNoRetrip(c, p', l', ops[1..]);
      } else {
        assert !Bisimilar(c, p', l', ops[1..]);
      }
    }
  }

  /** Failures that arrive while the circuit is open, since it last opened. */
  predicate FewLateFailures(c: Config, l: Core, late: nat, ops: seq<Op>)
    decreases |ops|
  {
    ops == [] ||
    var l' := Apply(Limiter, c, l, ops[0]);
    var late' := if !l.mode.Open? then 0
                 else if ops[0].Settled? && ops[0].sig.Failure? then late + 1 else late;
    late' < c.threshold && FewLateFailures(c, l', late', ops[1..])
  }

  lemma {:induction false} FewLateNeverRetrips(c: Config, l: Core, late: nat, ops: seq<Op>)
    requires Sane(c) && FewLateFailures(c, l, late, ops)
    requires l.mode.Open? ==> l.failures == late
    ensures NeverRetrips(c, l, ops)
    decreases |ops|
  {
    if ops != [] {
      var l' := Apply(Limiter, c, l, ops[0]);
      var late' := if !l.mode.Open? then 0
                   else if ops[0].Settled? && ops[0].sig.Failure? then late + 1 else late;
      FewLateNeverRetrips(c, l', late', ops[1..]);
    }
  }

  /** Two fresh breakers agree on every run in which fewer than `threshold` late failures
      arrive in any one open spell; in particular when none arrives while open. */
  lemma FreshBreakersAgree(c: Config, ops: seq<Op>)
    requires Sane(c) && FewLateFailures(c, FRESH, 0, ops)
    ensures Bisimilar(c, FRESH, FRESH, ops)
  {
    FewLateNeverRetrips(c, FRESH, 0, ops);
    AgreeIffNoRetrip(c, FRESH, FRESH, ops);
  }

  /** The bound is sharp, for every configuration: after `threshold` late failures at a later
      instant the limiter's breaker has started its cooldown again and the platform's has
      not, so at the end of the first cooldown one still refuses what the other admits. */
  lemma LateFailuresExtendTheCooldown(c: Config, p: Core, l: Core, at: int)
    requires Sane(c) && Alike(c, p, l) && l.mode.Open? && l.failures == 0
    requires l.openedAt < at
    ensures var p' := Late(Platform, c, p, at, c.threshold);
            var l' := Late(Limiter, c, l, at, c.threshold);
            var retry := if at < p.openedAt + c.cooldown then p.openedAt + c.cooldown else at;
            && p'.openedAt == p.openedAt && l'.openedAt == at
            && Admit(c, p', retry).admitted && !Admit(c, l', retry).admitted
  {
    LateOnPlatform(c, p, at, c.threshold);
    LateOnLimiter(c, l, at, c.threshold - 1);
  }

  /** n calls at one instant. */
  function Asks(at: int, n: nat): seq<Op> {
    if n == 0 then [] else [Ask(at)] + Asks(at, n - 1)
  }

  /** n failures at one instant, from calls admitted before. */
  function Failures(at: int, n: nat): seq<Op> {
    if n == 0 then [] else [Settled(Failure, at)] + Failures(at, n - 1)
  }

  lemma {:induction false} LateFailuresRetrip(c: Config, l: Core, at: int, n: nat)
    requires Sane(c) && l.mode.Open? && l.openedAt < at && 1 <= n == c.threshold - l.failures
    ensures !NeverRetrips(c, l, Failures(at, n))
    decreases n
  {
    if n > 1 { LateFailuresRetrip(c, Apply(Limiter, c, l, Settled(Failure, at)), at, n - 1); }
    assert Failures(at, n)[1..] == Failures(at, n - 1);
  }

  lemma {:induction false} FailuresOpenThenRetrip(c: Config, l: Core, n: nat)
    requires Sane(c) && l.mode.Closed? && 1 <= n == c.threshold - l.failures
    ensures !NeverRetrips(c, l, Failures(0, n) + Failures(1, c.threshold))
    decreases n
  {
    var l' := Apply(Limiter, c, l, Settled(Failure, 0));
    if n > 1 { FailuresOpenThenRetrip(c, l', n - 1); } else { LateFailuresRetrip(c, l', 1, c.threshold); }
    assert (Failures(0, n) + Failures(1, c.threshold))[1..] == Failures(0, n - 1) + Failures(1, c.threshold);
  }

  /** A closed breaker admits everybody and stays as it is. */
  lemma {:induction false} AsksChangeNothing(c: Config, l: Core, n: nat, ops: seq<Op>)
    requires l.mode.Closed?
    ensures NeverRetrips(c, l, Asks(0, n) + ops) <==> NeverRetrips(c, l, ops)
  {
    if n == 0 {
      assert Asks(0, 0) + ops == ops;
    } else {
      assert (Asks(0, n) + ops)[1..] == Asks(0, n - 1) + ops;
      AsksChangeNothing(c, l, n - 1, ops);
    }
  }

  /** So for every configuration two fresh breakers part ways on a run: 2 * threshold calls are
      admitted, half of them fail and open the breakers, and then the other half fail. */
  lemma FreshBreakersPartWays(c: Config)
    requires Sane(c)
    ensures !Bisimilar(c, FRESH, FRESH,
                       Asks(0, 2 * c.threshold) + (Failures(0, c.threshold) + Failures(1, c.threshold)))
  {
    var ops := Failures(0, c.threshold) + Failures(1, c.threshold);
    FailuresOpenThenRetrip(c, FRESH, c.threshold);
    AsksChangeNothing(c, FRESH, 2 * c.threshold, ops);
    AgreeIffNoRetrip(c, FRESH, FRESH, Asks(0, 2 * c.threshold) + ops);
  }

  function Late(k: Kind, c: Config, b: Core, at: int, n: nat): Core {
    if n == 0 then b else Apply(k, c, Late(k, c, b, at, n - 1), Settled(Failure, at))
  }

  lemma {:induction false} LateOnPlatform(c: Config, p: Core, at: int, n: nat)
    requires Sane(c) && p.mode.Open?
    ensures Late(Platform, c, p, at, n).mode.Open? && Late(Platform, c, p, at, n).openedAt == p.openedAt
  {
    if n > 0 { LateOnPlatform(c, p, at, n - 1); }
  }

  lemma {:induction false} LateOnLimiter(c: Config, l: Core, at: int, n: nat)
    requires Sane(c) && l.mode.Open? && l.failures == 0 && n < c.threshold
    ensures Late(Limiter, c, l, at, n) == l.(failures := n, probing := if n == 0 then l.probing else false)
  {
    if n > 0 { LateOnLimiter(c, l, at, n - 1); }
  }

  // ---- What is counted ----------------------------------------------------------------

  function Run(k: Kind, c: Config, ops: seq<Op>): Core {
    if ops == [] then FRESH else Apply(k, c, Run(k, c, ops[..|ops| - 1]), ops[|ops| - 1])
  }

  /** The failures since the last success, or since the start: whoever asked and whatever calls
      were released in between. */
  function FailuresInARow(ops: seq<Op>): nat {
    if ops == [] then 0
    else
      var op, before := ops[|ops| - 1], FailuresInARow(ops[..|ops| - 1]);
      if op.Ask? || op.sig.Release? then before else if op.sig.Success? then 0 else before + 1
  }

  /** Either breaker is closed if and only if fewer than `threshold` failures have come in a row,
      and while it is closed its count is their number: it opens at exactly the threshold-th. */
  lemma {:induction false} ClosedIffFewFailuresInARow(k: Kind, c: Config, ops: seq<Op>)
    requires Sane(c)
    ensures Run(k, c, ops).mode.Closed? <==> FailuresInARow(ops) < c.threshold
    ensures Run(k, c, ops).mode.Closed? ==> Run(k, c, ops).failures == FailuresInARow(ops)
    ensures k.Limiter? ==> 0 <= Run(k, c, ops).failures < c.threshold
    ensures k.Platform? && !Run(k, c, ops).mode.Closed? ==> Run(k, c, ops).failures >= c.threshold
  {
    if ops != [] { ClosedIffFewFailuresInARow(k, c, ops[..|ops| - 1]); }
  }

  /** When the breaker last opened, if it is open: the instant of the failure that opened it,
      which for the limiter's is also one that re-opened it. */
  function OpenedBy(k: Kind, c: Config, ops: seq<Op>): int {
    if ops == [] then 0
    else
      var op, init := ops[|ops| - 1], ops[..|ops| - 1];
      if op.Settled? && op.sig.Failure? && Run(k, c, ops).mode.Open?
         && (!Run(k, c, init).mode.Open? || (k.Limiter? && Run(k, c, init).failures == c.threshold - 1))
      then op.at else OpenedBy(k, c, init)
  }

  /** Callers are refused for the whole cooldown after that instant, and after it only while a
      probe is out; nobody is refused while the circuit is closed. */
  lemma {:induction false} RefusedIffCoolingOrProbing(k: Kind, c: Config, ops: seq<Op>, now: int)
    requires Sane(c)
    ensures var b := Run(k, c, ops);
            && b.openedAt == OpenedBy(k, c, ops)
            && (!Admit(c, b, now).admitted <==>
                  FailuresInARow(ops) >= c.threshold
                  && if b.mode.Open? then now < OpenedBy(k, c, ops) + c.cooldown else b.probing)
            // asking never loses count, and lets a first caller in as the probe
            && Admit(c, b, now).core.failures == b.failures && Admit(c, b, now).core.openedAt == b.openedAt
            && (Admit(c, b, now).admitted && !b.mode.Closed? ==>
                  Admit(c, b, now).core.mode.HalfOpen? && Admit(c, b, now).core.probing)
            && (!Admit(c, b, now).admitted || b.mode.Closed? ==> Admit(c, b, now).core == b)
  {
    ClosedIffFewFailuresInARow(k, c, ops);
    if ops != [] {
      var init, op := ops[..|ops| - 1], ops[|ops| - 1];
      ClosedIffFewFailuresInARow(k, c, init);
      RefusedIffCoolingOrProbing(k, c, init, now);
    }
  }

  // ---- Load during an outage ----------------------------------------------------------

  /** One sequential call against a dependency that is down: asked at `asked`; if admitted, it
      makes `attempts` tries and fails at `failed`. */
  datatype Call = Call(asked: int, failed: int, attempts: nat)

  datatype Load = Load(core: Core, admitted: nat, attempts: nat)

  function Outage(k: Kind, c: Config, calls: seq<Call>): Load {
    if calls == [] then Load(FRESH, 0, 0)
    else
      var before := Outage(k, c, calls[..|calls| - 1]);
      var call := calls[|calls| - 1];
      var a := Admit(c, before.core, call.asked);
      if !a.admitted then before
      else Load(Settle(k, c, a.core, Failure, call.failed),
                before.admitted + 1, before.attempts + call.attempts)
  }

  /** Calls follow one another between `from` and `to`, each with at most `maxAttempts` tries. */
  ghost predicate Sequential(calls: seq<Call>, from: int, to: int, maxAttempts: nat) {
    && (forall i :: 0 <= i < |calls| ==>
          && from <= calls[i].asked <= calls[i].failed <= to
          && calls[i].attempts <= maxAttempts)
    && (forall i, j :: 0 <= i < j < |calls| ==> calls[i].failed <= calls[j].asked)
  }

  ghost predicate LoadInv(k: Kind, c: Config, r: Load, from: int, to: int) {
    && !r.core.probing && !r.core.mode.HalfOpen?
    && (r.core.mode.Closed? ==> r.admitted == r.core.failures < c.threshold)
    && (r.core.mode.Open? ==>
          && r.admitted >= c.threshold
          && from <= r.core.openedAt <= to
          && (r.admitted - c.threshold) * c.cooldown <= r.core.openedAt - from)
  }

  /** Each admission while open costs one more cooldown. */
  lemma ProbeCostsCooldown(k: Kind, c: Config, r: Load, call: Call, from: int, to: int)
    requires Sane(c) && LoadInv(k, c, r, from, to) && from <= call.asked <= call.failed <= to
    requires Admit(c, r.core, call.asked).admitted
    ensures LoadInv(k, c, Load(Settle(k, c, Admit(c, r.core, call.asked).core, Failure, call.failed),
                               r.admitted + 1, r.attempts + call.attempts), from, to)
  {
    if r.core.mode.Open? {
      var spent := (r.admitted - c.threshold) * c.cooldown;
      assert (r.admitted + 1 - c.threshold) * c.cooldown == spent + c.cooldown;
    }
  }

  lemma {:induction false} OutageInvariant(k: Kind, c: Config, calls: seq<Call>, from: int, to: int,
                                           maxAttempts: nat)
    requires Sane(c) && from <= to && Sequential(calls, from, to, maxAttempts)
    ensures LoadInv(k, c, Outage(k, c, calls), from, to)
  {
    if calls != [] {
      var init := calls[..|calls| - 1];
      OutageInvariant(k, c, init, from, to, maxAttempts);
      var before := Outage(k, c, init);
      var call := calls[|calls| - 1];
      if Admit(c, before.core, call.asked).admitted {
        ProbeCostsCooldown(k, c, before, call, from, to);
      }
    }
  }

  lemma {:induction false} AttemptsFollowAdmissions(k: Kind, c: Config, calls: seq<Call>, maxAttempts: nat)
    requires forall i :: 0 <= i < |calls| ==> calls[i].attempts <= maxAttempts
    ensures Outage(k, c, calls).attempts <= Outage(k, c, calls).admitted * maxAttempts
  {
    if calls != [] {
      var init := calls[..|calls| - 1];
      AttemptsFollowAdmissions(k, c, init, maxAttempts);
      var n := Outage(k, c, init).admitted;
      assert (n + 1) * maxAttempts == n * maxAttempts + maxAttempts;
    }
  }

  /** Over an outage lasting `to - from`, sequential callers that all fail are admitted at most
      threshold + floor((to - from) / cooldown) times, whatever their number, so the store
      sees at most maxAttempts times that many tries. */
  lemma OutageLoad(k: Kind, c: Config, calls: seq<Call>, from: int, to: int, maxAttempts: nat)
    requires Sane(c) && from <= to && Sequential(calls, from, to, maxAttempts)
    ensures var bound := c.threshold + (to - from) / c.cooldown;
            && Outage(k, c, calls).admitted <= bound
            && Outage(k, c, calls).attempts <= maxAttempts * bound
  {
    OutageInvariant(k, c, calls, from, to, maxAttempts);
    AttemptsFollowAdmissions(k, c, calls, maxAttempts);
    var r := Outage(k, c, calls);
    var bound := c.threshold + (to - from) / c.cooldown;
    if r.core.mode.Open? {
      Quotient(r.admitted - c.threshold, c.cooldown, to - from);
    } else {
      Quotient(0, c.cooldown, to - from);
    }
    Product(r.admitted, bound, maxAttempts);
  }

  lemma Quotient(q: int, d: int, n: int)
    requires d > 0 && q * d <= n
    ensures q <= n / d
  {
    var r := n / d;
    assert n == r * d + n % d && n % d < d;
    if r < q {
      assert (r + 1) * d <= q * d by { Product(r + 1, q, d); }
    }
  }

  lemma Product(a: int, b: int, m: nat)
    requires a <= b
    ensures a * m <= b * m == m * b
  {
    assert b * m - a * m == (b - a) * m;
  }
}
