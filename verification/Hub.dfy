/** The WebSocket hub: one event loop owns the set of clients and closes their channels. The
    loop's own events come one at a time; between the sends of one broadcast the clients' own
    goroutines go on draining (and once filling) their buffers. */
module Hub {
  const CAPACITY := 16

  type Message = seq<char>

  /** A client's send channel. `len` counts what is buffered, by whomever; `log` is what the
      loop put in, `from` and `upTo` delimit the broadcasts between its registration and its
      removal; `closes` and `late` count closings and sends by the loop after closing. */
  datatype Chan = Chan(len: nat, closed: bool, closes: nat, late: nat, log: seq<Message>, from: nat, upTo: nat)

  /** `todo` are the clients the broadcast in progress has not reached. */
  datatype State = State(running: bool, clients: set<nat>, chans: map<nat, Chan>,
                         broadcasts: seq<Message>, todo: set<nat>)

  const START := State(true, {}, map[], [], {})

  datatype Event =
    | Register(c: nat)
    | Unregister(c: nat)
    | Broadcast(msg: Message)
    | Deliver(c: nat)
    | Shutdown
    | Drain(c: nat)    // the client's write pump takes one message
    | Fill(c: nat)     // the snapshot sent to a new client outside the loop

  function Close(ch: Chan, at: nat): Chan { ch.(closed := true, closes := ch.closes + 1, upTo := at) }

  function Put(ch: Chan, msg: Message): Chan {
    ch.(len := ch.len + 1, log := ch.log + [msg], late := ch.late + if ch.closed then 1 else 0)
  }

  /** The select of the broadcast: send if there is room, otherwise drop the client. */
  function DeliverTo(s: State, c: nat): State
    requires c in s.chans && s.broadcasts != []
  {
    var n := |s.broadcasts|;
    if s.chans[c].len < CAPACITY
    then s.(chans := s.chans[c := Put(s.chans[c], s.broadcasts[n - 1])], todo := s.todo - {c})
    else s.(chans := s.chans[c := Close(s.chans[c], n - 1)], clients := s.clients - {c}, todo := s.todo - {c})
  }

  /** The loop takes its next event only when no broadcast is in progress. */
  predicate AtSelect(s: State) { s.running && s.todo == {} }

  function Step(s: State, e: Event): State {
    match e
    case Register(c) =>
      if AtSelect(s) && c !in s.chans
      then s.(clients := s.clients + {c},
              chans := s.chans[c := Chan(0, false, 0, 0, [], |s.broadcasts|, |s.broadcasts|)])
      else s
    case Unregister(c) =>
      if AtSelect(s) && c in s.clients && c in s.chans
      then s.(clients := s.clients - {c}, chans := s.chans[c := Close(s.chans[c], |s.broadcasts|)])
      else s
    case Broadcast(msg) =>
      if AtSelect(s) then s.(broadcasts := s.broadcasts + [msg], todo := s.clients) else s
    case Deliver(c) =>
      if s.running && c in s.todo && c in s.chans && s.broadcasts != [] then DeliverTo(s, c) else s
    case Shutdown =>
      if AtSelect(s) then CloseAll(s) else s
    case Drain(c) =>
      if c in s.chans && s.chans[c].len > 0
      then s.(chans := s.chans[c := s.chans[c].(len := s.chans[c].len - 1)]) else s
    case Fill(c) =>
      if c in s.chans && !s.chans[c].closed && s.chans[c].len < CAPACITY
      then s.(chans := s.chans[c := s.chans[c].(len := s.chans[c].len + 1)]) else s
  }

  function CloseAll(s: State): State {
    s.(running := false,
       chans := map c | c in s.chans ::
                  if c in s.clients then Close(s.chans[c], |s.broadcasts|) else s.chans[c])
  }

  function Exec(s: State, es: seq<Event>): State
    decreases |es|
  {
    if es == [] then s else Exec(Step(s, es[0]), es[1..])
  }

  lemma {:induction false} ExecAppend(s: State, a: seq<Event>, b: seq<Event>)
    ensures Exec(s, a + b) == Exec(Exec(s, a), b)
    decreases |a|
  {
    if a == [] {
      assert a + b == b;
    } else {
      assert (a + b)[1..] == a[1..] + b;
      ExecAppend(Step(s, a[0]), a[1..], b);
    }
  }

  // ---- Invariant ----------------------------------------------------------------------

  /** The end of a client's block: where it was closed, or the newest broadcast it has had. */
  function BlockEnd(s: State, c: nat): int
    requires c in s.chans
  {
    if s.chans[c].closed then s.chans[c].upTo else |s.broadcasts| - if c in s.todo then 1 else 0
  }

  predicate ChanSound(s: State, c: nat)
    requires c in s.chans
  {
    var ch := s.chans[c];
    && ch.late == 0
    && ch.closes == (if ch.closed then 1 else 0)
    && ch.len <= CAPACITY
    && (s.running ==> (c in s.clients <==> !ch.closed))
    && (!s.running ==> ch.closed)
    && ch.from <= BlockEnd(s, c) <= |s.broadcasts|
    && ch.log == s.broadcasts[ch.from..BlockEnd(s, c)]
  }

  ghost predicate Inv(s: State) {
    && s.todo <= s.clients
    && (!s.running ==> s.todo == {})
    && (forall c :: c in s.clients ==> c in s.chans)
    && (forall c :: c in s.chans ==> ChanSound(s, c))
    && (s.todo != {} ==> s.broadcasts != [])
  }

  lemma DeliverKeepsInv(s: State, c: nat)
    requires Inv(s) && s.running && c in s.todo && c in s.chans && s.broadcasts != []
    ensures Inv(DeliverTo(s, c))
  {
    var t := DeliverTo(s, c);
    var n := |s.broadcasts|;
    assert ChanSound(s, c);
    forall d | d in t.chans ensures ChanSound(t, d) { assert ChanSound(s, d); }
  }

  lemma BufferKeepsInv(s: State, e: Event)
    requires Inv(s) && (e.Drain? || e.Fill?)
    ensures Inv(Step(s, e))
  {
    var t := Step(s, e);
    forall c | c in t.chans ensures ChanSound(t, c) { assert ChanSound(s, c); }
  }

  lemma MembershipKeepsInv(s: State, e: Event)
    requires Inv(s) && (e.Register? || e.Unregister? || e.Shutdown?)
    ensures Inv(Step(s, e))
  {
    var t := Step(s, e);
    forall c | c in t.chans ensures ChanSound(t, c) { assert c in s.chans ==> ChanSound(s, c); }
  }

  lemma StepKeepsInv(s: State, e: Event)
    requires Inv(s)
    ensures Inv(Step(s, e))
  {
    if Step(s, e) != s {
      match e
      case Broadcast(_) =>
      case Deliver(c) => DeliverKeepsInv(s, c);
      case Drain(_) => BufferKeepsInv(s, e);
      case Fill(_) => BufferKeepsInv(s, e);
      case _ => MembershipKeepsInv(s, e);
    }
  }

  lemma {:induction false} ExecKeepsInv(s: State, es: seq<Event>)
    requires Inv(s)
    ensures Inv(Exec(s, es))
    decreases |es|
  {
    if es != [] {
      StepKeepsInv(s, es[0]);
      ExecKeepsInv(Step(s, es[0]), es[1..]);
    }
  }

  // ---- Main results -------------------------------------------------------------------

  /** On every run the loop closes each channel at most once, never sends on a closed one, and
      while it runs the registered clients are exactly those whose channel is open; after a
      shutdown none is. */
  lemma ClosesOnceAndKeepsOpenOnes(es: seq<Event>, c: nat)
    requires c in Exec(START, es).chans
    ensures var s := Exec(START, es);
            && s.chans[c].closes <= 1 && s.chans[c].late == 0
            && (s.chans[c].closes == 1 <==> s.chans[c].closed)
            && (s.running ==> (c in s.clients <==> !s.chans[c].closed))
            && (!s.running ==> s.chans[c].closed)
  {
    ExecKeepsInv(START, es);
    assert ChanSound(Exec(START, es), c);
  }

  /** What the loop put in a client's channel is the unbroken block of broadcasts from its
      registration to its removal, whatever became of the others. */
  lemma ContiguousBlock(es: seq<Event>, c: nat)
    requires c in Exec(START, es).chans
    ensures var s := Exec(START, es);
            var ch := s.chans[c];
            && ch.from <= BlockEnd(s, c) <= |s.broadcasts|
            && ch.log == s.broadcasts[ch.from..BlockEnd(s, c)]
            && (!ch.closed && s.todo == {} ==> ch.log == s.broadcasts[ch.from..])
  {
    ExecKeepsInv(START, es);
    var s := Exec(START, es);
    assert ChanSound(s, c);
  }

  /** A block starts with the first broadcast after registration: joining fixes `from` for ever. */
  lemma {:induction false} BlockStartsAtRegistration(s: State, es: seq<Event>, c: nat)
    requires c in s.chans
    ensures c in Exec(s, es).chans && Exec(s, es).chans[c].from == s.chans[c].from
    decreases |es|
  {
    if es != [] { BlockStartsAtRegistration(Step(s, es[0]), es[1..], c); }
  }

  // ---- One client at a time -------------------------------------------------------------

  /** What goes on during a broadcast: sends, and the clients' own goroutines on their buffers. */
  predicate Local(e: Event) { e.Deliver? || e.Drain? || e.Fill? }

  ghost predicate AtBuffers(es: seq<Event>) {
    forall i :: 0 <= i < |es| ==> es[i].Drain? || es[i].Fill?
  }

  /** The events of one client, in their order. */
  function Of(es: seq<Event>, c: nat): seq<Event> {
    if es == [] then [] else (if Local(es[0]) && es[0].c == c then [es[0]] else []) + Of(es[1..], c)
  }

  /** Two states that cannot be told apart from client c. */
  predicate SameAt(s: State, t: State, c: nat) {
    && s.running == t.running && s.broadcasts == t.broadcasts
    && (c in s.clients <==> c in t.clients) && (c in s.todo <==> c in t.todo)
    && (c in s.chans <==> c in t.chans) && (c in s.chans ==> s.chans[c] == t.chans[c])
  }

  /** A client sees its own events and nothing else: not the order in which the loop visits
      the map, not how slow the others are. */
  lemma {:induction false} OnlyOwnEventsMatter(s: State, t: State, es: seq<Event>, c: nat)
    requires SameAt(s, t, c) && forall i :: 0 <= i < |es| ==> Local(es[i])
    ensures SameAt(Exec(s, es), Exec(t, Of(es, c)), c)
    decreases |es|
  {
    if es != [] {
      var rest := Of(es[1..], c);
      if es[0].c == c {
        assert Of(es, c)[0] == es[0] && Of(es, c)[1..] == rest;
        OnlyOwnEventsMatter(Step(s, es[0]), Step(t, es[0]), es[1..], c);
      } else {
        assert Of(es, c) == rest;
        OnlyOwnEventsMatter(Step(s, es[0]), t, es[1..], c);
      }
    }
  }

  /** Two courses of a broadcast in which each client for itself sees the same end in the same
      state, however they visit the clients and interleave the draining between the sends. */
  lemma OrderDoesNotMatter(s: State, one: seq<Event>, other: seq<Event>)
    requires forall i :: 0 <= i < |one| ==> Local(one[i])
    requires forall i :: 0 <= i < |other| ==> Local(other[i])
    requires forall c: nat :: Of(one, c) == Of(other, c)
    ensures Exec(s, one) == Exec(s, other)
  {
    var t, u := Exec(s, one), Exec(s, other);
    forall c: nat ensures SameAt(t, u, c) {
      OnlyOwnEventsMatter(s, s, one, c);
      OnlyOwnEventsMatter(s, s, other, c);
      assert Of(one, c) == Of(other, c);
    }
    SameEverywhere(t, u);
  }

  lemma SameEverywhere(t: State, u: State)
    requires forall c: nat :: SameAt(t, u, c)
    ensures t == u
  {
    assert SameAt(t, u, 0);
    assert forall c :: c in t.clients <==> c in u.clients by {
      forall c ensures c in t.clients <==> c in u.clients { assert SameAt(t, u, c); }
    }
    assert forall c :: c in t.todo <==> c in u.todo by {
      forall c ensures c in t.todo <==> c in u.todo { assert SameAt(t, u, c); }
    }
    assert t.chans == u.chans by {
      forall c ensures (c in t.chans <==> c in u.chans) && (c in t.chans ==> t.chans[c] == u.chans[c]) {
        assert SameAt(t, u, c);
      }
    }
  }

  /** A broadcast drops a client exactly when that client's own buffer is full. */
  lemma DroppedOnlyWhenFull(s: State, c: nat)
    requires Inv(s) && s.running && c in s.todo && c in s.chans && s.broadcasts != []
    ensures c !in DeliverTo(s, c).clients <==> s.chans[c].len == CAPACITY
    ensures c in DeliverTo(s, c).clients ==>
              DeliverTo(s, c).chans[c].log == s.chans[c].log + [s.broadcasts[|s.broadcasts| - 1]]
  {
    assert ChanSound(s, c);
  }

  /** Where client c is during a broadcast of msg: still to be reached, reached, or dropped. */
  predicate InBroadcast(s: State, c: nat, was: seq<Message>, msg: Message) {
    && s.running && s.broadcasts != [] && s.broadcasts[|s.broadcasts| - 1] == msg
    && c in s.chans && (c in s.clients <==> !s.chans[c].closed) && (c in s.todo ==> c in s.clients)
    && (if c in s.todo || c !in s.clients then s.chans[c].log == was else s.chans[c].log == was + [msg])
  }

  ghost predicate NeverFilled(es: seq<Event>, c: nat) { forall i :: 0 <= i < |es| ==> es[i] != Fill(c) }

  lemma {:induction false} BroadcastCourse(s: State, es: seq<Event>, c: nat, was: seq<Message>, msg: Message)
    requires InBroadcast(s, c, was, msg) && forall i :: 0 <= i < |es| ==> Local(es[i])
    ensures InBroadcast(Exec(s, es), c, was, msg)
    ensures (c in s.clients && (c in s.todo ==> s.chans[c].len < CAPACITY) && NeverFilled(es, c)) ==>
              c in Exec(s, es).clients
    decreases |es|
  {
    if es != [] { BroadcastCourse(Step(s, es[0]), es[1..], c, was, msg); }
  }

  /** Every registered client gets the message of the next broadcast after what it had, unless it is
      dropped, and then it is closed with what it had. It is not dropped if its buffer has room and
      nobody else fills it. */
  lemma BroadcastReachesEveryone(s: State, msg: Message, es: seq<Event>, c: nat)
    requires Inv(s) && AtSelect(s) && c in s.clients && forall i :: 0 <= i < |es| ==> Local(es[i])
    requires Exec(Step(s, Broadcast(msg)), es).todo == {}
    ensures var t := Exec(Step(s, Broadcast(msg)), es);
            && c in s.chans && c in t.chans
            && (if c in t.clients then !t.chans[c].closed && t.chans[c].log == s.chans[c].log + [msg]
                else t.chans[c].closed && t.chans[c].log == s.chans[c].log)
            && (s.chans[c].len < CAPACITY && NeverFilled(es, c) ==> c in t.clients)
  {
    assert ChanSound(s, c);
    BroadcastCourse(Step(s, Broadcast(msg)), es, c, s.chans[c].log, msg);
  }

  /** Registering makes an open client with nothing in its channel, unregistering closes one and
      removes it, a second time does nothing, and shutting down closes everybody; nobody else is
      touched. */
  lemma MembershipChanges(s: State, c: nat, d: nat)
    requires Inv(s) && AtSelect(s)
    ensures c !in s.chans ==>
              var t := Step(s, Register(c));
              c in t.clients && c in t.chans && !t.chans[c].closed && t.chans[c].log == [] && t.chans[c].len == 0
    ensures c in s.clients ==>
              var t := Step(s, Unregister(c));
              && c !in t.clients && c in t.chans && t.chans[c].closed && t.chans[c].log == s.chans[c].log
              && Step(t, Unregister(c)) == t
    ensures d != c ==> SameAt(s, Step(s, Unregister(c)), d) && SameAt(s, Step(s, Register(c)), d)
    ensures var t := Step(s, Shutdown);
            !t.running && forall q :: q in s.clients ==> q in t.chans && t.chans[q].closed && t.chans[q].log == s.chans[q].log
  {
    if c in s.clients { assert ChanSound(s, c); }
  }

  // ---- The loop's own code ------------------------------------------------------------

  class Loop {
    var running: bool
    var clients: set<nat>
    var chans: map<nat, Chan>
    var broadcasts: seq<Message>

    constructor ()
      ensures View() == START
    {
      running, clients, chans, broadcasts := true, {}, map[], [];
    }

    ghost function View(): State
      reads this
    {
      State(running, clients, chans, broadcasts, {})
    }

    method OnRegister(c: nat)
      requires running && c !in chans
      modifies this
      ensures View() == Step(old(View()), Register(c))
    {
      clients := clients + {c};
      chans := chans[c := Chan(0, false, 0, 0, [], |broadcasts|, |broadcasts|)];
    }

    method OnUnregister(c: nat)
      requires running && c in chans
      modifies this
      ensures View() == Step(old(View()), Unregister(c))
    {
      if c in clients {
        clients := clients - {c};
        chans := chans[c := Close(chans[c], |broadcasts|)];
      }
    }

    ghost function During(todo: set<nat>): State
      reads this
    {
      View().(todo := todo)
    }

    /** The clients' own goroutines take from and put into their buffers. */
    method OnBuffers(es: seq<Event>, ghost todo: set<nat>)
      requires AtBuffers(es)
      modifies this
      ensures During(todo) == Exec(old(During(todo)), es)
      ensures running == old(running) && clients == old(clients) && broadcasts == old(broadcasts)
      ensures chans.Keys == old(chans.Keys)
    {
      var i := 0;
      while i < |es|
        invariant 0 <= i <= |es|
        invariant Exec(During(todo), es[i..]) == Exec(old(During(todo)), es)
        invariant running == old(running) && clients == old(clients) && broadcasts == old(broadcasts)
        invariant chans.Keys == old(chans.Keys)
      {
        var e := es[i];
        ghost var before := During(todo);
        if e.c in chans {
          var ch := chans[e.c];
          if e.Drain? && ch.len > 0 { chans := chans[e.c := ch.(len := ch.len - 1)]; }
          if e.Fill? && !ch.closed && ch.len < CAPACITY { chans := chans[e.c := ch.(len := ch.len + 1)]; }
        }
        assert During(todo) == Step(before, e);
        assert es[i..][1..] == es[i + 1..];
        i := i + 1;
      }
    }

    /** The select of the broadcast. */
    method SendTo(c: nat, msg: Message, ghost todo: set<nat>)
      requires running && c in todo && c in chans && broadcasts != [] && broadcasts[|broadcasts| - 1] == msg
      modifies this
      ensures During(todo - {c}) == Step(old(During(todo)), Deliver(c))
      ensures running && broadcasts == old(broadcasts) && chans.Keys == old(chans.Keys)
      ensures old(clients) - {c} <= clients <= old(clients)
    {
      if chans[c].len < CAPACITY {
        chans := chans[c := Put(chans[c], msg)];
      } else {
        clients := clients - {c};
        chans := chans[c := Close(chans[c], |broadcasts| - 1)];
      }
    }

    /** One broadcast, visiting the clients in any order, with anything happening to their
        buffers between two sends: it is a run of the protocol's steps that ends with nobody
        left to reach. */
    method OnBroadcast(msg: Message, between: nat -> seq<Event>) returns (ghost es: seq<Event>)
      requires running && clients <= chans.Keys
      requires forall i :: AtBuffers(between(i))
      modifies this
      ensures forall i :: 0 <= i < |es| ==> Local(es[i])
      ensures View() == Exec(Step(old(View()), Broadcast(msg)), es)
    {
      ghost var start := Step(View(), Broadcast(msg));
      broadcasts := broadcasts + [msg];
      var todo := clients;
      es := [];
      var i := 0;
      while todo != {}
        invariant running && todo <= clients <= chans.Keys
        invariant broadcasts != [] && broadcasts[|broadcasts| - 1] == msg
        invariant forall j :: 0 <= j < |es| ==> Local(es[j])
        invariant During(todo) == Exec(start, es)
        decreases todo
      {
        OnBuffers(between(i), todo);
        ExecAppend(start, es, between(i));
        es := es + between(i);
        i := i + 1;
        var c :| c in todo;
        SendTo(c, msg, todo);
        todo := todo - {c};
        ExecAppend(start, es, [Deliver(c)]);
        assert Exec(Exec(start, es), [Deliver(c)]) == Step(Exec(start, es), Deliver(c));
        es := es + [Deliver(c)];
      }
    }

    method OnDone()
      requires running && clients <= chans.Keys
      modifies this
      ensures View() == Step(old(View()), Shutdown)
    {
      var todo := clients;
      while todo != {}
        invariant running && clients == old(clients) && broadcasts == old(broadcasts)
        invariant todo <= clients && chans.Keys == old(chans.Keys)
        invariant forall c :: c in chans ==>
                    chans[c] == if c in clients && c !in todo then Close(old(chans)[c], |broadcasts|)
                                else old(chans)[c]
        decreases todo
      {
        var c :| c in todo;
        todo := todo - {c};
        chans := chans[c := Close(chans[c], |broadcasts|)];
      }
      running := false;
      assert chans == CloseAll(old(View())).chans;
    }
  }
}
