/** The worker pool in both of the repository's forms, as an interleaving of the producer, the
    workers, the closer, the collector and a cancellation that may come at any time.

    Streamed: a producer feeds a bounded channel while the workers run. Preloaded: the jobs
    are all in a closed channel beforehand and the result channel has room for every job. */
module WorkerPool {
  import opened Common

  datatype Variant = Streamed | Preloaded

  /** `input` are the job ids in the order they are produced. */
  datatype Config = Config(variant: Variant, input: seq<nat>, workers: nat, jobRoom: nat, resultRoom: nat)

  predicate Valid(c: Config) {
    && c.workers >= 1
    && (c.variant.Streamed? ==> c.jobRoom >= 1 && c.resultRoom >= 1)
    && (c.variant.Preloaded? ==> c.jobRoom == c.resultRoom == |c.input|)
  }

  datatype Worker =
    | Idle
    | Holding(job: nat)   // received, not processed
    | Ready(job: nat)     // processed, result not sent
    | Exited              // returned, not yet counted by the closer
    | Counted

  /** `closings` and `lateSends` count how often the result channel was closed, and how often
      something was sent on it afterwards. */
  datatype State = State(next: nat, jobs: seq<nat>, jobsClosed: bool, workers: seq<Worker>,
                         results: seq<nat>, closings: nat, lateSends: nat,
                         collected: seq<nat>, dropped: seq<nat>, cancelled: bool, returned: bool)

  datatype Event =
    | Cancel
    | Produce
    | CloseJobs
    | Take(w: nat)
    | Leave(w: nat)
    | Drop(w: nat)
    | Process(w: nat)
    | Send(w: nat)
    | Abandon(w: nat)
    | Count(w: nat)
    | CloseResults
    | Collect
    | Return

  function Start(c: Config): State {
    var pool := seq(c.workers, i => Idle);
    if c.variant.Streamed?
    then State(0, [], false, pool, [], 0, 0, [], [], false, false)
    else State(|c.input|, c.input, true, pool, [], 0, 0, [], [], false, false)
  }

  predicate At(s: State, w: nat) { w < |s.workers| }

  function Put(s: State, w: nat, x: Worker): State
    requires At(s, w)
  {
    s.(workers := s.workers[w := x])
  }

  ghost predicate AllCounted(s: State) { forall w :: 0 <= w < |s.workers| ==> s.workers[w].Counted? }

  /** Whether an event can happen now. */
  ghost predicate Enabled(c: Config, s: State, e: Event) {
    match e
    case Cancel => !s.cancelled
    case Produce => !s.jobsClosed && s.next < |c.input| && |s.jobs| < c.jobRoom
    case CloseJobs => !s.jobsClosed && (s.next == |c.input| || s.cancelled)
    case Take(w) => At(s, w) && s.workers[w].Idle? && s.jobs != []
    case Leave(w) =>
      && At(s, w) && s.workers[w].Idle?
      && ((s.jobs == [] && s.jobsClosed) || (c.variant.Preloaded? && s.cancelled))
    case Drop(w) => At(s, w) && s.workers[w].Holding? && s.cancelled && c.variant.Streamed?
    case Process(w) => At(s, w) && s.workers[w].Holding?
    case Send(w) => At(s, w) && s.workers[w].Ready? && |s.results| < c.resultRoom
    case Abandon(w) => At(s, w) && s.workers[w].Ready? && s.cancelled
    case Count(w) => At(s, w) && s.workers[w].Exited?
    case CloseResults => AllCounted(s) && s.closings == 0
    case Collect => s.results != [] && !s.returned
    case Return => s.results == [] && s.closings > 0 && !s.returned
  }

  ghost function Step(c: Config, s: State, e: Event): State {
    if !Enabled(c, s, e) then s
    else
      match e
      case Cancel => s.(cancelled := true)
      case Produce => s.(next := s.next + 1, jobs := s.jobs + [c.input[s.next]])
      case CloseJobs => s.(jobsClosed := true)
      case Take(w) => Put(s.(jobs := s.jobs[1..]), w, Holding(s.jobs[0]))
      case Leave(w) => Put(s, w, Exited)
      case Drop(w) => Put(s.(dropped := s.dropped + [s.workers[w].job]), w, Exited)
      case Process(w) => Put(s, w, Ready(s.workers[w].job))
      case Send(w) =>
        Put(s.(results := s.results + [s.workers[w].job],
               lateSends := s.lateSends + if s.closings > 0 then 1 else 0), w, Idle)
      case Abandon(w) => Put(s.(dropped := s.dropped + [s.workers[w].job]), w, Exited)
      case Count(w) => Put(s, w, Counted)
      case CloseResults => s.(closings := s.closings + 1)
      case Collect => s.(results := s.results[1..], collected := s.collected + [s.results[0]])
      case Return => s.(returned := true)
  }

  ghost function Exec(c: Config, s: State, es: seq<Event>): State
    decreases |es|
  {
    if es == [] then s else Exec(c, Step(c, s, es[0]), es[1..])
  }

  // ---- Where the jobs are -------------------------------------------------------------

  function Hands(j: nat): Worker -> nat {
    (x: Worker) => if (x.Holding? || x.Ready?) && x.job == j then 1 else 0
  }

  const BUSY: Worker -> nat := (x: Worker) => if x.Holding? || x.Ready? then 1 else 0

  function Times(xs: seq<nat>, j: nat): nat { multiset(xs)[j] }

  /** How often job j occurs over every place a job can be: not produced, queued, in a
      worker's hands, in the result channel, collected, dropped. */
  function Copies(c: Config, s: State, j: nat): nat
    requires s.next <= |c.input|
  {
    Times(c.input[s.next..], j) + Times(s.jobs, j) + Sum(s.workers, Hands(j))
    + Times(s.results, j) + Times(s.collected, j) + Times(s.dropped, j)
  }

  /** The number of jobs over all those places. */
  function Jobs(c: Config, s: State): int {
    |c.input| - s.next + |s.jobs| + Sum(s.workers, BUSY) + |s.results| + |s.collected| + |s.dropped|
  }

  // ---- Invariants ---------------------------------------------------------------------

  predicate Gone(x: Worker) { x.Exited? || x.Counted? }

  ghost predicate Conserved(c: Config, s: State) {
    && s.next <= |c.input|
    && Jobs(c, s) == |c.input|
    && forall j :: Copies(c, s, j) == Times(c.input, j)
  }

  ghost predicate Control(c: Config, s: State) {
    && |s.workers| == c.workers
    && (s.dropped != [] ==> s.cancelled)
    && (s.jobsClosed ==> s.next == |c.input| || s.cancelled)
    && (forall w :: 0 <= w < |s.workers| && Gone(s.workers[w]) ==> (s.jobsClosed && s.jobs == []) || s.cancelled)
    && s.closings <= 1 && s.lateSends == 0
    && (s.closings > 0 ==> AllCounted(s))
    && (s.returned ==> s.closings > 0 && s.results == [])
    && (c.variant.Preloaded? ==> s.jobsClosed)
    && |s.jobs| <= c.jobRoom && |s.results| <= c.resultRoom
  }

  ghost predicate Inv(c: Config, s: State) { Conserved(c, s) && Control(c, s) }

  lemma StartInv(c: Config)
    requires Valid(c)
    ensures Inv(c, Start(c))
  {
    var s := Start(c);
    SumZero(s.workers, BUSY);
    assert c.input[|c.input|..] == [] && c.input[0..] == c.input;
    forall j ensures Copies(c, s, j) == Times(c.input, j) { SumZero(s.workers, Hands(j)); }
  }

  lemma Uncons(xs: seq<nat>, j: nat)
    requires xs != []
    ensures Times(xs, j) == Times(xs[1..], j) + if xs[0] == j then 1 else 0
  {
    assert xs == [xs[0]] + xs[1..];
  }

  predicate AtWorker(e: Event) {
    e.Take? || e.Leave? || e.Drop? || e.Process? || e.Send? || e.Abandon? || e.Count?
  }

  lemma TakeCopies(c: Config, s: State, w: nat, j: nat)
    requires s.next <= |c.input| && Enabled(c, s, Take(w))
    ensures Copies(c, Step(c, s, Take(w)), j) == Copies(c, s, j)
  {
    SumUpdate(s.workers, w, Holding(s.jobs[0]), Hands(j));
    Uncons(s.jobs, j);
  }

  lemma SendCopies(c: Config, s: State, w: nat, j: nat)
    requires s.next <= |c.input| && Enabled(c, s, Send(w))
    ensures Copies(c, Step(c, s, Send(w)), j) == Copies(c, s, j)
  {
    SumUpdate(s.workers, w, Idle, Hands(j));
  }

  lemma DropCopies(c: Config, s: State, e: Event, j: nat)
    requires s.next <= |c.input| && Enabled(c, s, e) && (e.Drop? || e.Abandon?)
    ensures Copies(c, Step(c, s, e), j) == Copies(c, s, j)
  {
    SumUpdate(s.workers, e.w, Exited, Hands(j));
  }

  lemma StayCopies(c: Config, s: State, e: Event, j: nat)
    requires s.next <= |c.input| && Enabled(c, s, e) && (e.Leave? || e.Process? || e.Count?)
    ensures Copies(c, Step(c, s, e), j) == Copies(c, s, j)
  {
    SumUpdate(s.workers, e.w, Step(c, s, e).workers[e.w], Hands(j));
  }

  lemma OtherStepCopies(c: Config, s: State, e: Event, j: nat)
    requires s.next <= |c.input| && Enabled(c, s, e) && !AtWorker(e)
    ensures var t := Step(c, s, e); t.next <= |c.input| && Copies(c, t, j) == Copies(c, s, j)
  {
    match e
    case Produce =>
      assert c.input[s.next..][1..] == c.input[s.next + 1..];
      Uncons(c.input[s.next..], j);
    case Collect =>
      Uncons(s.results, j);
    case _ =>
  }

  lemma StepCopies(c: Config, s: State, e: Event, j: nat)
    requires s.next <= |c.input| && Enabled(c, s, e)
    ensures Step(c, s, e).next <= |c.input| && Copies(c, Step(c, s, e), j) == Copies(c, s, j)
  {
    if e.Take? { TakeCopies(c, s, e.w, j); }
    else if e.Send? { SendCopies(c, s, e.w, j); }
    else if e.Drop? || e.Abandon? { DropCopies(c, s, e, j); }
    else if AtWorker(e) { StayCopies(c, s, e, j); }
    else { OtherStepCopies(c, s, e, j); }
  }

  lemma StepJobs(c: Config, s: State, e: Event)
    requires s.next <= |c.input| && Enabled(c, s, e)
    ensures Step(c, s, e).next <= |c.input| && Jobs(c, Step(c, s, e)) == Jobs(c, s)
  {
    if AtWorker(e) { SumUpdate(s.workers, e.w, Step(c, s, e).workers[e.w], BUSY); }
  }

  /** No step loses or duplicates a job. */
  lemma StepConserves(c: Config, s: State, e: Event)
    requires Conserved(c, s) && Enabled(c, s, e)
    ensures Conserved(c, Step(c, s, e))
  {
    StepJobs(c, s, e);
    forall j ensures Copies(c, Step(c, s, e), j) == Times(c.input, j) {
      assert Copies(c, s, j) == Times(c.input, j);
      StepCopies(c, s, e, j);
    }
  }

  lemma StepKeepsInv(c: Config, s: State, e: Event)
    requires Valid(c) && Inv(c, s)
    ensures Inv(c, Step(c, s, e))
  {
    if Enabled(c, s, e) {
      StepConserves(c, s, e);
    }
  }

  lemma {:induction false} ExecKeepsInv(c: Config, s: State, es: seq<Event>)
    requires Valid(c) && Inv(c, s)
    ensures Inv(c, Exec(c, s, es))
    decreases |es|
  {
    if es != [] {
      StepKeepsInv(c, s, es[0]);
      ExecKeepsInv(c, Step(c, s, es[0]), es[1..]);
    }
  }

  // ---- Main results -------------------------------------------------------------------

  /** On every run every job is in exactly one place (as often as it was submitted), and none
      is dropped unless the run was cancelled. */
  lemma JobsAreConserved(c: Config, es: seq<Event>, j: nat)
    requires Valid(c)
    ensures var s := Exec(c, Start(c), es);
            && s.next <= |c.input|
            && Copies(c, s, j) == Times(c.input, j)
            && (s.dropped != [] ==> s.cancelled)
  {
    StartInv(c);
    ExecKeepsInv(c, Start(c), es);
  }

  /** Neither channel ever holds more than it has room for. */
  lemma ChannelsWithinRoom(c: Config, es: seq<Event>)
    requires Valid(c)
    ensures var s := Exec(c, Start(c), es); |s.jobs| <= c.jobRoom && |s.results| <= c.resultRoom
  {
    StartInv(c);
    ExecKeepsInv(c, Start(c), es);
  }

  /** The result channel is closed at most once and nothing is ever sent on it afterwards. */
  lemma ClosedOnce(c: Config, es: seq<Event>)
    requires Valid(c)
    ensures var s := Exec(c, Start(c), es);
            s.closings <= 1 && s.lateSends == 0 && (s.returned ==> s.closings == 1)
  {
    StartInv(c);
    ExecKeepsInv(c, Start(c), es);
  }

  /** Nobody is left behind: the collector has returned, the producer has closed its channel
      and every worker has been counted out. */
  ghost predicate Final(s: State) { s.returned && s.jobsClosed && AllCounted(s) }

  /** A run that ends without cancellation has collected exactly the submitted jobs. */
  lemma CompleteRun(c: Config, es: seq<Event>)
    requires Valid(c) && Final(Exec(c, Start(c), es)) && !Exec(c, Start(c), es).cancelled
    ensures multiset(Exec(c, Start(c), es).collected) == multiset(c.input)
  {
    StartInv(c);
    ExecKeepsInv(c, Start(c), es);
    CompleteState(c, Exec(c, Start(c), es));
  }

  lemma CompleteState(c: Config, s: State)
    requires Valid(c) && Inv(c, s) && Final(s) && !s.cancelled
    ensures multiset(s.collected) == multiset(c.input)
  {
    assert Gone(s.workers[0]);
    assert c.input[|c.input|..] == [];
    forall j ensures Times(s.collected, j) == Times(c.input, j) {
      assert Copies(c, s, j) == Times(c.input, j);
      SumZero(s.workers, Hands(j));
    }
    assert forall j :: multiset(s.collected)[j] == Times(s.collected, j);
  }

  /** The ids the producer counts out. */
  function OneTo(n: nat): seq<nat> {
    if n == 0 then [] else OneTo(n - 1) + [n]
  }

  lemma {:induction false} OneToTimes(n: nat, j: nat)
    ensures Times(OneTo(n), j) == if 1 <= j <= n then 1 else 0
  {
    if n > 0 {
      OneToTimes(n - 1, j);
    }
  }

  /** A complete run over the jobs 1..n collects each of them once and nothing else. */
  lemma CollectsOneToN(c: Config, n: nat, es: seq<Event>, j: nat)
    requires Valid(c) && c.input == OneTo(n)
    requires Final(Exec(c, Start(c), es)) && !Exec(c, Start(c), es).cancelled
    ensures Times(Exec(c, Start(c), es).collected, j) == if 1 <= j <= n then 1 else 0
  {
    CompleteRun(c, es);
    OneToTimes(n, j);
  }

  lemma RoomForBusy(c: Config, s: State, w: nat)
    requires Inv(c, s) && At(s, w) && s.workers[w].Ready?
    ensures |s.results| < |c.input|
  {
    SumUpdate(s.workers, w, Idle, BUSY);
  }

  /** When the result channel has room for every job, a worker with a result never waits. */
  lemma BufferNeverBlocks(c: Config, es: seq<Event>, w: nat)
    requires Valid(c) && c.resultRoom >= |c.input|
    requires At(Exec(c, Start(c), es), w) && Exec(c, Start(c), es).workers[w].Ready?
    ensures Enabled(c, Exec(c, Start(c), es), Send(w))
  {
    StartInv(c);
    ExecKeepsInv(c, Start(c), es);
    RoomForBusy(c, Exec(c, Start(c), es), w);
  }

  // ---- Progress -----------------------------------------------------------------------

  const WEIGHT: Worker -> nat := (x: Worker) =>
    match x
    case Idle => 2
    case Holding(_) => 5
    case Ready(_) => 4
    case Exited => 1
    case Counted => 0

  /** What is still to be done. */
  function Measure(c: Config, s: State): int {
    5 * (|c.input| - s.next) + 4 * |s.jobs| + Sum(s.workers, WEIGHT) + |s.results|
    + (if s.jobsClosed then 0 else 1) + (if s.closings > 0 then 0 else 1) + (if s.returned then 0 else 1)
  }

  lemma WorkerStepEnds(c: Config, s: State, e: Event)
    requires s.next <= |c.input| && Enabled(c, s, e) && AtWorker(e)
    ensures 0 <= Measure(c, Step(c, s, e)) < Measure(c, s)
  {
    var x := Step(c, s, e).workers[e.w];
    SumUpdate(s.workers, e.w, x, WEIGHT);
    assert WEIGHT(s.workers[e.w]) - WEIGHT(x) ==
      match e case Take(_) => -3 case Send(_) => 2 case Leave(_) => 1 case Count(_) => 1
              case Process(_) => 1 case Drop(_) => 4 case _ => 3;
  }

  /** Every step but a cancellation brings the end strictly nearer. */
  lemma StepsComeToAnEnd(c: Config, s: State, e: Event)
    requires s.next <= |c.input| && Enabled(c, s, e) && !e.Cancel?
    ensures 0 <= Measure(c, Step(c, s, e)) < Measure(c, s)
  {
    if AtWorker(e) { WorkerStepEnds(c, s, e); }
  }

  /** What a goroutine that has not finished can do next, when no result is waiting. */
  function NextMove(c: Config, s: State, w: nat): Event
    requires At(s, w)
  {
    match s.workers[w]
    case Holding(_) => Process(w)
    case Exited => Count(w)
    case Ready(_) => Send(w)
    case _ =>
      if s.jobs != [] then Take(w)
      else if s.jobsClosed then Leave(w)
      else if s.next < |c.input| then Produce
      else CloseJobs
  }

  /** No deadlock: until the run is over some goroutine can move, cancelled or not. */
  lemma SomeoneCanMove(c: Config, s: State) returns (e: Event)
    requires Valid(c) && Inv(c, s) && !Final(s)
    ensures Enabled(c, s, e) && !e.Cancel?
  {
    if s.results != [] { return Collect; }
    if w :| 0 <= w < |s.workers| && !s.workers[w].Counted? {
      if s.workers[w].Ready? { RoomForBusy(c, s, w); }
      return NextMove(c, s, w);
    }
    if s.closings == 0 { return CloseResults; }
    if !s.returned { return Return; }
    assert Gone(s.workers[0]);
    return CloseJobs;
  }

  /** So every run can be completed, within a number of steps known beforehand. */
  lemma {:induction false} RunsToTheEnd(c: Config, s: State) returns (es: seq<Event>)
    requires Valid(c) && Inv(c, s)
    ensures Final(Exec(c, s, es)) && |es| <= Measure(c, s)
    ensures Exec(c, s, es).cancelled == s.cancelled
    decreases Measure(c, s)
  {
    if Final(s) { return []; }
    var e := SomeoneCanMove(c, s);
    StepKeepsInv(c, s, e);
    StepsComeToAnEnd(c, s, e);
    var rest := RunsToTheEnd(c, Step(c, s, e));
    es := [e] + rest;
    assert es[1..] == rest;
  }

  // ---- What the collectors compute ----------------------------------------------------

  datatype Result = Result(job: nat, failed: bool)

  /** The loop of RunJobs: the error reported is the first one received. */
  method FirstFailure(received: seq<Result>) returns (results: seq<Result>, first: int)
    ensures results == received
    ensures first == -1 <==> forall i :: 0 <= i < |received| ==> !received[i].failed
    ensures first != -1 ==>
              && 0 <= first < |received| && received[first].failed
              && forall i :: 0 <= i < first ==> !received[i].failed
  {
    results, first := [], -1;
    var i := 0;
    while i < |received|
      invariant 0 <= i <= |received|
      invariant results == received[..i]
      invariant first == -1 <==> forall k :: 0 <= k < i ==> !received[k].failed
      invariant first != -1 ==>
                  && 0 <= first < i && received[first].failed
                  && forall k :: 0 <= k < first ==> !received[k].failed
    {
      results := results + [received[i]];
      if received[i].failed && first == -1 { first := i; }
      i := i + 1;
    }
  }
}
