/** The repository's two circuit breakers: `Breaker` of the microservices platform and
    `breaker` of the rate limiter. Both are the same closed / open / half-open machine with
    different bookkeeping. Times are integers; every operation runs under the breaker's lock
    and is one step. */
module Breakers {
  import opened Common

  datatype Mode = Closed | Open | HalfOpen

  datatype Config = Config(threshold: int, cooldown: int)

  /** Validated configurations: at least one failure to open, a positive cooldown. */
  predicate Sane(c: Config) { c.threshold >= 1 && c.cooldown > 0 }

  datatype Core = Core(mode: Mode, failures: int, openedAt: int, probing: bool)

  const FRESH := Core(Closed, 0, 0, false)

  /** How an admitted call ends. */
  datatype Signal = Success | Failure | Release

  datatype Kind = Platform | Limiter

  datatype Admission = Admission(admitted: bool, core: Core)

  /** Both copies decide admission the same way. */
  function Admit(c: Config, b: Core, now: int): Admission {
    match b.mode
    case Closed => Admission(true, b)
    case Open =>
      if now - b.openedAt < c.cooldown then Admission(false, b)
      else Admission(true, b.(mode := HalfOpen, probing := true))
    case HalfOpen =>
      if b.probing then Admission(false, b) else Admission(true, b.(probing := true))
  }

  function Settle(k: Kind, c: Config, b: Core, sig: Signal, now: int): Core {
    match sig
    case Success => b.(mode := Closed, failures := 0, probing := false)
    case Release => b.(probing := false)
    case Failure => if k.Platform? then PlatformFailure(c, b, now) else LimiterFailure(c, b, now)
  }

  /** Opens only from Closed or HalfOpen, and keeps counting while open. */
  function PlatformFailure(c: Config, b: Core, now: int): Core {
    if b.mode.HalfOpen? then b.(mode := Open, openedAt := now, probing := false)
    else if b.failures + 1 >= c.threshold && b.mode.Closed? then
      b.(mode := Open, failures := b.failures + 1, openedAt := now, probing := false)
    else b.(failures := b.failures + 1, probing := false)
  }

  /** Resets the count when it trips, and may trip again while already open. */
  function LimiterFailure(c: Config, b: Core, now: int): Core {
    if b.mode.HalfOpen? || b.failures + 1 >= c.threshold then
      b.(mode := Open, failures := 0, openedAt := now, probing := false)
    else b.(failures := b.failures + 1, probing := false)
  }

  // ---- The two classes ----------------------------------------------------------------

  class PlatformBreaker {
    const cfg: Config
    var state: Mode
    var failures: int
    var openedAt: int
    var probeInFlight: bool

    constructor (cfg: Config)
      ensures this.cfg == cfg && View() == FRESH
    {
      this.cfg := cfg;
      state, failures, openedAt, probeInFlight := Closed, 0, 0, false;
    }

    ghost function View(): Core
      reads this
    {
      Core(state, failures, openedAt, probeInFlight)
    }

    method Allow(now: int) returns (ok: bool)
      modifies this
      ensures Admission(ok, View()) == Admit(cfg, old(View()), now)
    {
      match state
      case Closed => return true;
      case Open =>
        if now - openedAt < cfg.cooldown { return false; }
        state := HalfOpen;
        probeInFlight := true;
        return true;
      case HalfOpen =>
        if probeInFlight { return false; }
        probeInFlight := true;
        return true;
    }

    method ReleaseCall()
      modifies this
      ensures View() == Settle(Platform, cfg, old(View()), Release, 0)
    {
      probeInFlight := false;
    }

    method OnSuccess()
      modifies this
      ensures View() == Settle(Platform, cfg, old(View()), Success, 0)
    {
      failures := 0;
      probeInFlight := false;
      if state != Closed { state := Closed; }
    }

    method OnFailure(now: int)
      modifies this
      ensures View() == Settle(Platform, cfg, old(View()), Failure, now)
    {
      probeInFlight := false;
      if state == HalfOpen {
        openedAt := now;
        state := Open;
        return;
      }
      failures := failures + 1;
      if failures >= cfg.threshold && state == Closed {
        openedAt := now;
        state := Open;
      }
    }
  }

  class LimiterBreaker {
    const cfg: Config
    var state: Mode
    var failures: int
    var openedAt: int
    var probing: bool

    constructor (cfg: Config)
      ensures this.cfg == cfg && View() == FRESH
    {
      this.cfg := cfg;
      state, failures, openedAt, probing := Closed, 0, 0, false;
    }

    ghost function View(): Core
      reads this
    {
      Core(state, failures, openedAt, probing)
    }

    method Allow(now: int) returns (ok: bool)
      modifies this
      ensures Admission(ok, View()) == Admit(cfg, old(View()), now)
    {
      match state
      case Open =>
        if now - openedAt < cfg.cooldown { return false; }
        state := HalfOpen;
        probing := true;
        return true;
      case HalfOpen =>
        if probing { return false; }
        probing := true;
        return true;
      case Closed => return true;
    }

    method Success()
      modifies this
      ensures View() == Settle(Limiter, cfg, old(View()), Signal.Success, 0)
    {
      failures := 0;
      probing := false;
      state := Closed;
    }

    method Failure(now: int)
      modifies this
      ensures View() == Settle(Limiter, cfg, old(View()), Signal.Failure, now)
    {
      probing := false;
      if state == HalfOpen {
        Trip(now);
        return;
      }
      failures := failures + 1;
      if failures >= cfg.threshold { Trip(now); }
    }

    method Release()
      modifies this
      ensures View() == Settle(Limiter, cfg, old(View()), Signal.Release, 0)
    {
      probing := false;
    }

    method Trip(now: int)
      modifies this
      ensures View() == old(View()).(mode := Open, failures := 0, openedAt := now)
    {
      openedAt := now;
      failures := 0;
      state := Open;
    }
  }

  // ---- Calls that are admitted and complete later --------------------------------------

  /** The half-open episode whose probe a call is, or none for a call admitted while closed. */
  datatype Ticket = Plain | Probe(episode: nat)

  /** `calls` are the admitted calls that have not ended; `strays` counts the releases in the
      current half-open episode by calls that were admitted before it; `latest` is the call
      that was admitted as a probe most recently. */
  datatype Sys = Sys(core: Core, calls: map<nat, Ticket>, episode: nat, strays: nat, latest: nat)

  const START := Sys(FRESH, map[], 0, 0, 0)

  /** A completion may be stale: it may come from a call admitted in any earlier state. */
  datatype Event = Arrive(id: nat, at: int) | End(id: nat, sig: Signal, at: int)

  function Step(k: Kind, c: Config, s: Sys, e: Event): Sys {
    match e
    case Arrive(id, at) => if id in s.calls then s else ArriveStep(c, s, id, at)
    case End(id, sig, at) => if id !in s.calls then s else EndStep(k, c, s, id, sig, at)
  }

  function ArriveStep(c: Config, s: Sys, id: nat, at: int): Sys {
    var a := Admit(c, s.core, at);
    if !a.admitted then s
    else if s.core.mode.Closed? then s.(core := a.core, calls := s.calls[id := Plain])
    else
      var episode := if s.core.mode.Open? then s.episode + 1 else s.episode;
      Sys(a.core, s.calls[id := Probe(episode)], episode,
          if s.core.mode.Open? then 0 else s.strays, id)
  }

  function EndStep(k: Kind, c: Config, s: Sys, id: nat, sig: Signal, at: int): Sys
    requires id in s.calls
  {
    var stray := s.core.mode.HalfOpen? && sig.Release? && s.calls[id] != Probe(s.episode);
    s.(core := Settle(k, c, s.core, sig, at),
       calls := s.calls - {id},
       strays := s.strays + if stray then 1 else 0)
  }

  function Exec(k: Kind, c: Config, s: Sys, es: seq<Event>): Sys
    decreases |es|
  {
    if es == [] then s else Exec(k, c, Step(k, c, s, es[0]), es[1..])
  }

  /** The probes of the current episode that have not ended. */
  function Outstanding(s: Sys): set<nat> {
    set id | id in s.calls && s.calls[id] == Probe(s.episode)
  }

  ghost predicate Inv(k: Kind, c: Config, s: Sys) {
    && s.core.failures >= 0
    && (k.Platform? ==> (s.core.failures < c.threshold <==> s.core.mode.Closed?))
    && (k.Limiter? ==> s.core.failures < c.threshold)
    && (s.core.probing ==>
          && s.core.mode.HalfOpen?
          && s.latest in s.calls && s.calls[s.latest] == Probe(s.episode))
    && (forall id :: id in s.calls && s.calls[id].Probe? ==> s.calls[id].episode <= s.episode)
    && (s.core.mode.HalfOpen? ==>
          |Outstanding(s)| <= s.strays + if s.core.probing then 1 else 0)
  }

  lemma ArriveKeepsInv(k: Kind, c: Config, s: Sys, id: nat, at: int)
    requires Sane(c) && Inv(k, c, s) && id !in s.calls
    ensures Inv(k, c, ArriveStep(c, s, id, at))
  {
    var t := ArriveStep(c, s, id, at);
    if t != s && !s.core.mode.Closed? {
      if s.core.mode.Open? {
        assert Outstanding(t) == {id};
      } else {
        assert Outstanding(t) == Outstanding(s) + {id};
      }
    }
  }

  lemma EndKeepsInv(k: Kind, c: Config, s: Sys, id: nat, sig: Signal, at: int)
    requires Sane(c) && Inv(k, c, s) && id in s.calls
    ensures Inv(k, c, EndStep(k, c, s, id, sig, at))
  {
    var t := EndStep(k, c, s, id, sig, at);
    assert Outstanding(t) == Outstanding(s) - {id};
  }

  lemma {:induction false} ExecKeepsInv(k: Kind, c: Config, s: Sys, es: seq<Event>)
    requires Sane(c) && Inv(k, c, s)
    ensures Inv(k, c, Exec(k, c, s, es))
    decreases |es|
  {
    if es != [] {
      var e := es[0];
      if e.Arrive? && e.id !in s.calls { ArriveKeepsInv(k, c, s, e.id, e.at); }
      if e.End? && e.id in s.calls { EndKeepsInv(k, c, s, e.id, e.sig, e.at); }
      ExecKeepsInv(k, c, Step(k, c, s, e), es[1..]);
    }
  }

  /** The counting discipline of each copy, on every run. */
  lemma FailureCount(k: Kind, c: Config, es: seq<Event>)
    requires Sane(c)
    ensures var b := Exec(k, c, START, es).core;
            && b.failures >= 0
            && (k.Platform? ==> (b.failures < c.threshold <==> b.mode.Closed?))
            && (k.Limiter? ==> b.failures < c.threshold)
  {
    assert Outstanding(START) == {};
    ExecKeepsInv(k, c, START, es);
  }

  /** The probe flag always belongs to a probe that is still running, and within one half-open
      episode there are at most 1 + (releases by earlier calls) probes at a time; so with no
      such stray release there is never more than one. */
  lemma ProbesAreBounded(k: Kind, c: Config, es: seq<Event>)
    requires Sane(c)
    ensures var s := Exec(k, c, START, es);
            && (s.core.probing ==> s.core.mode.HalfOpen? && s.latest in Outstanding(s))
            && (s.core.mode.HalfOpen? ==> |Outstanding(s)| <= 1 + s.strays)
  {
    assert Outstanding(START) == {};
    ExecKeepsInv(k, c, START, es);
  }

  lemma {:induction false} ExecAppend(k: Kind, c: Config, s: Sys, a: seq<Event>, b: seq<Event>)
    ensures Exec(k, c, s, a + b) == Exec(k, c, Exec(k, c, s, a), b)
    decreases |a|
  {
    if a == [] {
      assert a + b == b;
    } else {
      assert (a + b)[1..] == a[1..] + b;
      ExecAppend(k, c, Step(k, c, s, a[0]), a[1..], b);
    }
  }

  // ---- When the half-open state lets a second probe in ----------------------------------

  /** A call that the current episode did not admit as its probe. */
  predicate Stray(s: Sys, id: nat) { id in s.calls && s.calls[id] != Probe(s.episode) }

  /** A run that ends in the half-open state of the same episode, with two probes at once. */
  ghost predicate SecondProbe(k: Kind, c: Config, s: Sys, es: seq<Event>) {
    var t := Exec(k, c, s, es);
    t.core.mode.HalfOpen? && t.episode == s.episode && |Outstanding(t)| >= 2
  }

  /** A call admitted before the episode ends with a release while the probe runs: the next
      caller becomes a second probe. */
  lemma StrayReleaseAdmitsSecondProbe(k: Kind, c: Config, s: Sys, stale: nat, now: int) returns (es: seq<Event>)
    requires s.core.mode.HalfOpen? && |Outstanding(s)| >= 1 && Stray(s, stale)
    ensures SecondProbe(k, c, s, es)
  {
    var s1 := Step(k, c, s, End(stale, Release, now));
    var next := Above(s1.calls.Keys);
    es := [End(stale, Release, now), Arrive(next, now)];
    var t := Step(k, c, s1, Arrive(next, now));
    assert Exec(k, c, s, es) == t by {
      assert es[1..] == [Arrive(next, now)] && [Arrive(next, now)][1..] == [];
      assert Exec(k, c, s1, [Arrive(next, now)]) == Exec(k, c, t, []);
    }
    assert Outstanding(s1) == Outstanding(s);
    assert Outstanding(t) == Outstanding(s) + {next};
  }

  /** Without such a call the episode keeps to one probe: it is over, or every call that runs
      is its one probe. */
  ghost predicate OneProbe(s: Sys, episode: nat) {
    || s.episode > episode
    || (s.episode == episode
        && (s.core.mode.HalfOpen? ==>
              && (forall id :: id in s.calls ==> s.calls[id] == Probe(episode))
              && |Outstanding(s)| <= if s.core.probing then 1 else 0))
  }

  lemma StepKeepsOneProbe(k: Kind, c: Config, s: Sys, e: Event, episode: nat)
    requires OneProbe(s, episode)
    ensures OneProbe(Step(k, c, s, e), episode)
  {
    var t := Step(k, c, s, e);
    if t != s && t.episode == episode && t.core.mode.HalfOpen? {
      if e.Arrive? {
        assert Outstanding(t) == Outstanding(s) + {e.id};
      } else {
        assert Outstanding(s) == Outstanding(t) + {e.id};
        assert e.id !in Outstanding(t);
      }
    }
  }

  lemma {:induction false} ExecKeepsOneProbe(k: Kind, c: Config, s: Sys, es: seq<Event>, episode: nat)
    requires OneProbe(s, episode)
    ensures OneProbe(Exec(k, c, s, es), episode)
    decreases |es|
  {
    if es != [] {
      StepKeepsOneProbe(k, c, s, es[0], episode);
      ExecKeepsOneProbe(k, c, Step(k, c, s, es[0]), es[1..], episode);
    }
  }

  /** From a half-open state with its one probe in flight, a second probe can be let into the
      same episode if and only if a call runs that the episode did not admit: one from before
      the circuit opened, or a probe left over from an earlier episode. */
  lemma SecondProbeIffStray(k: Kind, c: Config, s: Sys)
    requires s.core.mode.HalfOpen? && s.core.probing && |Outstanding(s)| == 1
    ensures (exists es :: SecondProbe(k, c, s, es)) <==> exists id :: Stray(s, id)
  {
    if id :| Stray(s, id) {
      var es := StrayReleaseAdmitsSecondProbe(k, c, s, id, 0);
      assert SecondProbe(k, c, s, es);
    } else {
      forall id | id in s.calls ensures s.calls[id] == Probe(s.episode) { assert !Stray(s, id); }
      forall es ensures !SecondProbe(k, c, s, es) { ExecKeepsOneProbe(k, c, s, es, s.episode); }
    }
  }

  /** n failures in a row while call 0 runs, from a breaker that stays closed. */
  lemma {:induction false} FailuresInARow(k: Kind, c: Config, n: nat) returns (es: seq<Event>)
    requires n < c.threshold
    ensures Exec(k, c, START, es) == Sys(Core(Closed, n, 0, false), map[0 := Plain], 0, 0, 0)
  {
    if n == 0 {
      es := [Arrive(0, 0)];
      assert Exec(k, c, START, es) == Step(k, c, START, es[0]) by { assert es[1..] == []; }
    } else {
      var before := FailuresInARow(k, c, n - 1);
      es := before + [Arrive(1, 0), End(1, Failure, 0)];
      ExecAppend(k, c, START, before, [Arrive(1, 0), End(1, Failure, 0)]);
    }
  }

  /** It happens, to every breaker: a fresh one is opened by its threshold of failures while
      call 0 runs, and after the cooldown has two probes out at once. */
  lemma TwoProbesAtOnce(k: Kind, c: Config) returns (es: seq<Event>)
    requires Sane(c)
    ensures var t := Exec(k, c, START, es); t.core.mode.HalfOpen? && |Outstanding(t)| >= 2
  {
    var failures := FailuresInARow(k, c, c.threshold - 1);
    var last := [Arrive(1, 0), End(1, Failure, 0)];
    ExecAppend(k, c, START, failures, last);
    var open := Exec(k, c, START, failures + last);
    var probe := [Arrive(1, c.cooldown)];
    var half := Step(k, c, open, probe[0]);
    assert Exec(k, c, open, probe) == half by { assert probe[1..] == []; }
    ExecAppend(k, c, START, failures + last, probe);
    assert Outstanding(half) == {1};
    var more := StrayReleaseAdmitsSecondProbe(k, c, half, 0, c.cooldown);
    ExecAppend(k, c, START, failures + last + probe, more);
    es := failures + last + probe + more;
  }

  /** Never wedged: on every run, once all admitted calls have ended the breaker refuses the
      next caller exactly when it is open and its cooldown has not elapsed. */
  lemma NeverWedged(k: Kind, c: Config, es: seq<Event>, now: int)
    requires Sane(c) && Exec(k, c, START, es).calls == map[]
    ensures var b := Exec(k, c, START, es).core;
            !Admit(c, b, now).admitted <==> b.mode.Open? && now < b.openedAt + c.cooldown
  {
    assert Outstanding(START) == {};
    ExecKeepsInv(k, c, START, es);
  }
}
