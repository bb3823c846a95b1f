/** Recording the greatest concurrency with two atomic counters and a compare-and-swap loop,
    under a group that admits at most `limit` goroutines at a time. */
module Peak {
  import opened Common

  /** Where a goroutine is: `cur` is what its increment of inFlight returned, `old` what it
      loaded from peak, `loads` how often it has loaded. */
  datatype Phase =
    | Waiting
    | Looping(cur: nat, loads: nat)
    | Loaded(cur: nat, seen: nat, loads: nat)
    | Working(cur: nat, loads: nat)
    | Finished(cur: nat, loads: nat)

  /** `highest` is the greatest value inFlight ever had. */
  datatype State = State(inFlight: nat, peak: nat, highest: nat, gs: seq<Phase>)

  datatype Event = Begin(g: nat) | Load(g: nat) | Swap(g: nat) | End(g: nat)

  const ACTIVE: Phase -> nat := (p: Phase) => if p.Waiting? || p.Finished? then 0 else 1

  function Start(n: nat): State { State(0, 0, 0, seq(n, i => Waiting)) }

  function Put(s: State, g: nat, p: Phase): State
    requires g < |s.gs|
  {
    s.(gs := s.gs[g := p])
  }

  function Step(limit: nat, s: State, e: Event): State {
    if e.g >= |s.gs| then s
    else
      var p := s.gs[e.g];
      match e
      case Begin(g) =>
        if p.Waiting? && Sum(s.gs, ACTIVE) < limit then
          var n := s.inFlight + 1;
          Put(s.(inFlight := n, highest := if n > s.highest then n else s.highest), g, Looping(n, 0))
        else s
      case Load(g) => if p.Looping? then Put(s, g, Loaded(p.cur, s.peak, p.loads + 1)) else s
      case Swap(g) =>
        if !p.Loaded? then s
        else if p.cur <= p.seen then Put(s, g, Working(p.cur, p.loads))
        else if s.peak == p.seen then Put(s.(peak := p.cur), g, Working(p.cur, p.loads))
        else Put(s, g, Looping(p.cur, p.loads))
      case End(g) =>
        if p.Working? && s.inFlight > 0
        then Put(s.(inFlight := s.inFlight - 1), g, Finished(p.cur, p.loads)) else s
  }

  function Exec(limit: nat, s: State, es: seq<Event>): State
    decreases |es|
  {
    if es == [] then s else Exec(limit, Step(limit, s, es[0]), es[1..])
  }

  predicate Sound(limit: nat, s: State, g: nat)
    requires g < |s.gs|
  {
    var p := s.gs[g];
    !p.Waiting? ==>
      && 1 <= p.cur <= s.highest && p.cur <= limit
      && p.loads <= p.cur + 1
      && (p.Looping? ==> p.loads <= s.peak && p.loads <= p.cur)
      && (p.Loaded? ==> p.seen <= s.peak && 1 <= p.loads <= p.seen + 1)
      && (p.Working? || p.Finished? ==> p.cur <= s.peak)
  }

  predicate Reached(s: State, g: nat) { g < |s.gs| && !s.gs[g].Waiting? && s.gs[g].cur == s.highest }

  ghost predicate Inv(limit: nat, s: State) {
    && s.inFlight == Sum(s.gs, ACTIVE) <= limit
    && s.inFlight <= s.highest <= limit
    && s.peak <= s.highest
    && (forall g :: 0 <= g < |s.gs| ==> Sound(limit, s, g))
    && (s.highest > 0 ==> exists g :: Reached(s, g))
  }

  lemma StepKeepsInv(limit: nat, s: State, e: Event)
    requires Inv(limit, s)
    ensures Inv(limit, Step(limit, s, e))
    ensures s.peak <= Step(limit, s, e).peak
  {
    var t := Step(limit, s, e);
    if t != s {
      SumUpdate(s.gs, e.g, t.gs[e.g], ACTIVE);
      assert Sound(limit, s, e.g);
      forall g | 0 <= g < |t.gs| ensures Sound(limit, t, g) { assert Sound(limit, s, g); }
      if t.highest != s.highest {
        assert Reached(t, e.g);
      } else if s.highest > 0 {
        var g :| Reached(s, g);
        assert Reached(t, g);
      }
    }
  }

  lemma {:induction false} ExecKeepsInv(limit: nat, s: State, es: seq<Event>)
    requires Inv(limit, s)
    ensures Inv(limit, Exec(limit, s, es))
    ensures s.peak <= Exec(limit, s, es).peak
    decreases |es|
  {
    if es != [] {
      StepKeepsInv(limit, s, es[0]);
      ExecKeepsInv(limit, Step(limit, s, es[0]), es[1..]);
    }
  }

  lemma StartInv(limit: nat, n: nat)
    ensures Inv(limit, Start(n))
  {
    SumZero(Start(n).gs, ACTIVE);
  }

  /** In every interleaving the recorded peak only rises, never beyond what inFlight reached,
      and inFlight never exceeds the limit. */
  lemma PeakOnlyRises(limit: nat, n: nat, es: seq<Event>, more: seq<Event>)
    ensures var s := Exec(limit, Start(n), es);
            s.peak <= Exec(limit, s, more).peak && s.peak <= s.highest <= limit && s.inFlight <= s.highest
  {
    StartInv(limit, n);
    ExecKeepsInv(limit, Start(n), es);
    ExecKeepsInv(limit, Exec(limit, Start(n), es), more);
  }

  /** Once every goroutine that began is past its loop, the peak is exactly the greatest value
      inFlight ever had: no lost update. */
  lemma PeakIsExact(limit: nat, n: nat, es: seq<Event>)
    requires PastLoops(Exec(limit, Start(n), es))
    ensures var s := Exec(limit, Start(n), es); s.peak == s.highest <= limit
  {
    StartInv(limit, n);
    ExecKeepsInv(limit, Start(n), es);
    var s := Exec(limit, Start(n), es);
    if s.highest > 0 {
      var g :| Reached(s, g);
      assert Sound(limit, s, g);
    }
  }

  ghost predicate PastLoops(s: State) {
    forall g :: 0 <= g < |s.gs| ==> !s.gs[g].Looping? && !s.gs[g].Loaded?
  }

  /** No goroutine loops for long: it loads the peak at most cur + 1 <= limit + 1 times, since
      each failed swap means the peak has risen towards its own value. */
  lemma LoopsAreShort(limit: nat, n: nat, es: seq<Event>, g: nat)
    requires g < |Exec(limit, Start(n), es).gs| && !Exec(limit, Start(n), es).gs[g].Waiting?
    ensures var p := Exec(limit, Start(n), es).gs[g]; p.loads <= p.cur + 1 <= limit + 1
  {
    StartInv(limit, n);
    ExecKeepsInv(limit, Start(n), es);
    assert Sound(limit, Exec(limit, Start(n), es), g);
  }

  class AtomicMax {
    var value: nat

    constructor ()
      ensures value == 0
    {
      value := 0;
    }

    /** The loop of one goroutine. Between its i-th load and its swap the others raise the
        value to others(i), if that is higher. */
    method Raise(cur: nat, others: nat -> nat) returns (loads: nat)
      modifies this
      ensures value >= cur && value >= old(value)
      ensures 1 <= loads <= cur + 1
      ensures value == cur || value == old(value) || exists i :: 0 <= i < loads && value == others(i)
    {
      loads := 0;
      while true
        invariant loads <= value && loads <= cur
        invariant value >= old(value)
        invariant value == old(value) || exists i :: 0 <= i < loads && value == others(i)
        decreases cur + 1 - loads
      {
        var loaded := value;
        loads := loads + 1;
        if others(loads - 1) > value { value := others(loads - 1); }
        if cur <= loaded { return; }
        if value == loaded {
          value := cur;
          return;
        }
      }
    }
  }
}
