/** The bounded queue over one mutex and one condition variable. A turn is what a goroutine
    does from getting the lock to giving it up: it either completes its Push or Pop and wakes
    everybody, or finds its condition false and goes to sleep in the same critical section. */
module CondQueue {
  import opened Common

  /** The guarded state: the items and the goroutines asleep on the condition. */
  datatype Guarded = Guarded(items: seq<int>, asleep: set<nat>)

  datatype PopTurn = PopTurn(value: Option<int>, after: Guarded)

  function PushOnce(g: Guarded, room: int, t: nat, v: int): Guarded {
    if |g.items| == room then g.(asleep := g.asleep + {t}) else Guarded(g.items + [v], {})
  }

  function PopOnce(g: Guarded, t: nat): PopTurn {
    if g.items == [] then PopTurn(None, g.(asleep := g.asleep + {t}))
    else PopTurn(Some(g.items[0]), Guarded(g.items[1..], {}))
  }

  class Queue {
    const capacity: int
    var items: seq<int>
    var asleep: set<nat>

    constructor (capacity: int)
      ensures this.capacity == capacity && View() == Guarded([], {})
    {
      this.capacity := capacity;
      items, asleep := [], {};
    }

    ghost function View(): Guarded
      reads this
    {
      Guarded(items, asleep)
    }

    /** One turn of Push by goroutine t: true when it is done, false when it sleeps. */
    method Push(t: nat, v: int) returns (done: bool)
      modifies this
      ensures View() == PushOnce(old(View()), capacity, t, v)
      ensures done <==> |old(items)| != capacity
      ensures done ==> items == old(items) + [v] && asleep == {}
      ensures !done ==> items == old(items) && t in asleep
    {
      if |items| == capacity {
        asleep := asleep + {t};
        return false;
      }
      items := items + [v];
      asleep := {};
      return true;
    }

    /** One turn of Pop by goroutine t. */
    method Pop(t: nat) returns (v: Option<int>)
      modifies this
      ensures PopTurn(v, View()) == PopOnce(old(View()), t)
      ensures v.Some? <==> old(items) != []
      ensures v.Some? ==> old(items) == [v.value] + items && asleep == {}
      ensures v.None? ==> items == old(items) && t in asleep
    {
      if items == [] {
        asleep := asleep + {t};
        return None;
      }
      v := Some(items[0]);
      items := items[1..];
      asleep := {};
    }
  }

  // ---- Any number of producers and consumers -------------------------------------------

  /** A goroutine that still has these values to push, or this many pops to make. */
  datatype Thread = Pusher(todo: seq<int>) | Popper(left: nat)

  /** `pushed` and `popped` are the completed operations, in the order they completed. */
  datatype State = State(g: Guarded, threads: seq<Thread>, pushed: seq<int>, popped: seq<int>)

  function Start(threads: seq<Thread>): State { State(Guarded([], {}), threads, [], []) }

  predicate Unfinished(t: Thread) { if t.Pusher? then t.todo != [] else t.left > 0 }

  /** A goroutine can take a turn when it has work left and is not asleep. */
  predicate Awake(s: State, t: nat) {
    t < |s.threads| && Unfinished(s.threads[t]) && t !in s.g.asleep
  }

  function Turn(room: int, s: State, t: nat): State {
    if !Awake(s, t) then s
    else if s.threads[t].Pusher? then PusherTurn(room, s, t)
    else PopperTurn(s, t)
  }

  function PusherTurn(room: int, s: State, t: nat): State
    requires Awake(s, t) && s.threads[t].Pusher?
  {
    var v := s.threads[t].todo[0];
    var g := PushOnce(s.g, room, t, v);
    if |s.g.items| == room then s.(g := g)
    else State(g, s.threads[t := Pusher(s.threads[t].todo[1..])], s.pushed + [v], s.popped)
  }

  function PopperTurn(s: State, t: nat): State
    requires Awake(s, t) && s.threads[t].Popper?
  {
    var r := PopOnce(s.g, t);
    if r.value.None? then s.(g := r.after)
    else State(r.after, s.threads[t := Popper(s.threads[t].left - 1)], s.pushed, s.popped + [r.value.value])
  }

  function Exec(room: int, s: State, ts: seq<nat>): State
    decreases |ts|
  {
    if ts == [] then s else Exec(room, Turn(room, s, ts[0]), ts[1..])
  }

  const PUSHES: Thread -> nat := (t: Thread) => if t.Pusher? then |t.todo| else 0
  const POPS: Thread -> nat := (t: Thread) => if t.Popper? then t.left else 0

  /** Pushes minus pops over the whole run. */
  function Surplus(threads: seq<Thread>): int { Sum(threads, PUSHES) - Sum(threads, POPS) }

  ghost predicate AllFinished(s: State) {
    forall t :: 0 <= t < |s.threads| ==> !Unfinished(s.threads[t])
  }

  /** Whoever is asleep has reason to be: the queue is full, respectively empty. */
  predicate SleepsRightly(room: int, s: State, t: nat) {
    t < |s.threads| && Unfinished(s.threads[t])
    && (if s.threads[t].Pusher? then |s.g.items| == room else s.g.items == [])
  }

  ghost predicate Inv(room: int, surplus: int, s: State) {
    && s.popped + s.g.items == s.pushed
    && (room >= 0 ==> |s.g.items| <= room)
    && |s.g.items| + Surplus(s.threads) == surplus
    && (forall t :: t in s.g.asleep ==> SleepsRightly(room, s, t))
  }

  lemma TurnKeepsInv(room: int, surplus: int, s: State, t: nat)
    requires Inv(room, surplus, s)
    ensures Inv(room, surplus, Turn(room, s, t))
  {
    var u := Turn(room, s, t);
    if u.threads != s.threads {
      SumUpdate(s.threads, t, u.threads[t], PUSHES);
      SumUpdate(s.threads, t, u.threads[t], POPS);
      assert s.threads[t].Popper? ==> s.g.items == [s.g.items[0]] + s.g.items[1..];
    }
    forall q | q in u.g.asleep ensures SleepsRightly(room, u, q) {
      assert q != t ==> SleepsRightly(room, s, q);
    }
  }

  lemma {:induction false} ExecKeepsInv(room: int, surplus: int, s: State, ts: seq<nat>)
    requires Inv(room, surplus, s)
    ensures Inv(room, surplus, Exec(room, s, ts))
    decreases |ts|
  {
    if ts != [] {
      TurnKeepsInv(room, surplus, s, ts[0]);
      ExecKeepsInv(room, surplus, Turn(room, s, ts[0]), ts[1..]);
    }
  }

  /** No capacity is refused. A queue of capacity 0 lets nothing through; one of negative
      capacity is never full. */
  predicate Roomy(room: int, surplus: int) { room < 0 || (room >= 1 && surplus <= room) }

  /** First in, first out, for any producers and consumers and any schedule: what was popped
      followed by what is queued is what was pushed, and the bound is never exceeded. */
  lemma FifoWithinBounds(room: int, threads: seq<Thread>, ts: seq<nat>)
    ensures var s := Exec(room, Start(threads), ts);
            s.popped + s.g.items == s.pushed && (room >= 0 ==> |s.g.items| <= room)
  {
    ExecKeepsInv(room, Surplus(threads), Start(threads), ts);
  }

  /** No lost wakeup: a sleeping pusher means the queue is full, a sleeping popper empty. */
  lemma NoLostWakeup(room: int, threads: seq<Thread>, ts: seq<nat>, t: nat)
    requires t in Exec(room, Start(threads), ts).g.asleep
    ensures var s := Exec(room, Start(threads), ts);
            && t < |s.threads|
            && (s.threads[t].Pusher? ==> |s.g.items| == room)
            && (s.threads[t].Popper? ==> s.g.items == [])
  {
    ExecKeepsInv(room, Surplus(threads), Start(threads), ts);
    assert SleepsRightly(room, Exec(room, Start(threads), ts), t);
  }

  // ---- Deadlock and termination -------------------------------------------------------

  /** When the surplus fits in the queue, work left means someone is awake to do it. */
  lemma SomeoneIsAwake(room: int, surplus: int, s: State) returns (t: nat)
    requires 0 <= surplus && Roomy(room, surplus)
    requires Inv(room, surplus, s) && !AllFinished(s)
    ensures Awake(s, t)
  {
    var a :| 0 <= a < |s.threads| && Unfinished(s.threads[a]);
    if a !in s.g.asleep { return a; }
    assert SleepsRightly(room, s, a);
    var other := if s.threads[a].Pusher? then POPS else PUSHES;
    SumPart(s.threads, a, PUSHES);
    SumPart(s.threads, a, POPS);
    t := SomeoneLeft(s.threads, other);
    if t in s.g.asleep { assert SleepsRightly(room, s, t); }
  }

  lemma {:induction false} SomeoneLeft(threads: seq<Thread>, f: Thread -> nat) returns (t: nat)
    requires Sum(threads, f) > 0
    ensures t < |threads| && f(threads[t]) > 0
  {
    var n := |threads| - 1;
    if f(threads[n]) > 0 { return n; }
    t := SomeoneLeft(threads[..n], f);
  }

  /** The threads that could fall asleep. */
  function Restless(s: State): set<nat> { set t: nat | t < |s.threads| && t !in s.g.asleep }

  /** Operations left, each worth more than all the naps that can precede it. */
  function Measure(s: State): nat {
    (Sum(s.threads, PUSHES) + Sum(s.threads, POPS)) * (|s.threads| + 1) + |Restless(s)|
  }

  lemma RestlessBound(s: State)
    ensures |Restless(s)| <= |s.threads|
  {
    Below(Restless(s), |s.threads|);
  }

  lemma {:induction false} Below(xs: set<nat>, n: nat)
    requires forall x :: x in xs ==> x < n
    ensures |xs| <= n
  {
    if n == 0 {
      assert xs == {};
    } else {
      Below(xs - {n - 1}, n - 1);
      assert xs <= (xs - {n - 1}) + {n - 1};
      if n - 1 in xs { assert xs == (xs - {n - 1}) + {n - 1}; } else { assert xs == xs - {n - 1}; }
    }
  }

  /** One operation fewer outweighs any number of naps. */
  lemma OperationOutweighsNaps(left: nat, threads: nat, napsNow: nat, napsBefore: nat)
    requires left >= 1 && napsNow <= threads
    ensures (left - 1) * (threads + 1) + napsNow < left * (threads + 1) + napsBefore
  {
    assert left * (threads + 1) == (left - 1) * (threads + 1) + (threads + 1);
  }

  lemma OperationDone(room: int, s: State, t: nat)
    requires Awake(s, t) && Turn(room, s, t).threads != s.threads
    ensures var u := Turn(room, s, t);
            && |u.threads| == |s.threads|
            && Sum(u.threads, PUSHES) + Sum(u.threads, POPS) == Sum(s.threads, PUSHES) + Sum(s.threads, POPS) - 1
  {
    var u := Turn(room, s, t);
    SumUpdate(s.threads, t, u.threads[t], PUSHES);
    SumUpdate(s.threads, t, u.threads[t], POPS);
  }

  /** Every turn is either one operation fewer or one thread more asleep. */
  lemma TurnsComeToAnEnd(room: int, s: State, t: nat)
    requires Awake(s, t)
    ensures Measure(Turn(room, s, t)) < Measure(s)
  {
    var u := Turn(room, s, t);
    if u.threads == s.threads {
      assert Restless(s) == Restless(u) + {t};
    } else {
      OperationDone(room, s, t);
      RestlessBound(u);
      OperationOutweighsNaps(Sum(s.threads, PUSHES) + Sum(s.threads, POPS), |s.threads|,
                             |Restless(u)|, |Restless(s)|);
    }
  }

  lemma {:induction false} RunsToTheEnd(room: int, surplus: int, s: State) returns (ts: seq<nat>)
    requires 0 <= surplus && Roomy(room, surplus) && Inv(room, surplus, s)
    ensures AllFinished(Exec(room, s, ts)) && |ts| <= Measure(s)
    decreases Measure(s)
  {
    if AllFinished(s) { return []; }
    var t := SomeoneIsAwake(room, surplus, s);
    TurnKeepsInv(room, surplus, s, t);
    TurnsComeToAnEnd(room, s, t);
    var rest := RunsToTheEnd(room, surplus, Turn(room, s, t));
    ts := [t] + rest;
    assert ts[1..] == rest;
  }

  ghost predicate CompletedBy(room: int, s: State, more: seq<nat>) { AllFinished(Exec(room, s, more)) }

  ghost predicate Completable(room: int, s: State) { exists more :: CompletedBy(room, s, more) }

  /** A queue without room never does anything. */
  lemma {:induction false} NoRoomNoWork(threads: seq<Thread>, s: State, ts: seq<nat>)
    requires s.threads == threads && s.g.items == []
    ensures var t := Exec(0, s, ts); t.threads == threads && t.g.items == []
    decreases |ts|
  {
    if ts != [] { NoRoomNoWork(threads, Turn(0, s, ts[0]), ts[1..]); }
  }

  /** Exactly when it cannot deadlock: from wherever a run has got to it can be brought to the
      end if and only if the pushes exceed the pops by nothing or by no more than the queue
      holds (and the queue can hold something, or nothing is to be done). In particular with
      equal totals no schedule ever gets stuck. */
  lemma CompletesIffSurplusFits(room: int, threads: seq<Thread>, ts: seq<nat>)
    ensures Completable(room, Exec(room, Start(threads), ts)) <==>
              (0 <= Surplus(threads) && Roomy(room, Surplus(threads))) || AllFinished(Start(threads))
  {
    var surplus := Surplus(threads);
    var s := Exec(room, Start(threads), ts);
    ExecKeepsInv(room, surplus, Start(threads), ts);
    if 0 <= surplus && Roomy(room, surplus) {
      var more := RunsToTheEnd(room, surplus, s);
      assert CompletedBy(room, s, more);
    } else if AllFinished(Start(threads)) {
      NothingToDo(room, Start(threads), ts);
      assert CompletedBy(room, s, []);
    } else if room == 0 {
      NoRoomNoWork(threads, Start(threads), ts);
      forall more ensures !CompletedBy(room, s, more) { NoRoomNoWork(threads, s, more); }
    } else {
      forall more ensures !CompletedBy(room, s, more) {
        if CompletedBy(room, s, more) { FinishedSurplus(room, surplus, s, more); }
      }
    }
  }

  lemma {:induction false} NothingToDo(room: int, s: State, ts: seq<nat>)
    requires AllFinished(s)
    ensures Exec(room, s, ts) == s
    decreases |ts|
  {
    if ts != [] { NothingToDo(room, s, ts[1..]); }
  }

  lemma FinishedSurplus(room: int, surplus: int, s: State, more: seq<nat>)
    requires Inv(room, surplus, s) && CompletedBy(room, s, more)
    ensures 0 <= surplus && (room >= 0 ==> surplus <= room)
  {
    var e := Exec(room, s, more);
    ExecKeepsInv(room, surplus, s, more);
    SumZero(e.threads, PUSHES);
    SumZero(e.threads, POPS);
  }
}
