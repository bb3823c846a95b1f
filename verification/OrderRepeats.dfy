/** Whether a key that leads to an order can yet get another one, told from the calls that are
    still at work. */
module OrderRepeats {
  import opened Common
  import opened Credit
  import opened Retry
  import opened Orders
  import opened OrderKeys
  import opened OrderRuns
  import opened OrderCharges

  /** An order of this total for this user can come to be stored: as pending if it is small, and
      as confirmed or rejected if the user's credit can be asked about. */
  predicate CanEndStored(users: map<string, User>, user: string, total: int) {
    total <= SMALL_ORDER || (user in users && users[user].active)
  }

  /** The call can still store an order. */
  predicate CanStore(users: map<string, User>, call: Call) {
    match call.phase
    case Replaying(_) => false
    case Finished(_) => false
    case Pricing =>
      TotalCents(call.req.lines).Some? && CanEndStored(users, call.req.user, TotalCents(call.req.lines).value)
    case Calling(_) => CanEndStored(users, call.req.user, call.total)
    case Waiting(_) => CanEndStored(users, call.req.user, call.total)
    case Failed(e) => Degrade(e, call.total).Degrading?
    case _ => true
  }

  /** Call c with key k is past the lookup and can still store. */
  predicate Able(users: map<string, User>, s: State, k: string, c: nat) {
    c in s.calls && s.calls[c].passed && s.calls[c].req.key == k && CanStore(users, s.calls[c])
  }

  ghost predicate NoneAble(users: map<string, User>, s: State, k: string) { forall c :: !Able(users, s, k, c) }

  ghost predicate AnotherOrder(users: map<string, User>, s: State, later: seq<Event>, k: string) {
    |OrdersFor(Exec(users, s, later), k)| > |OrdersFor(s, k)|
  }

  // ---- If nobody can, nobody will -----------------------------------------------------

  lemma StepKeepsUnable(users: map<string, User>, s: State, e: Event)
    requires e.c in s.calls && !CanStore(users, s.calls[e.c])
    ensures e.c in Step(users, s, e).calls && !CanStore(users, Step(users, s, e).calls[e.c])
  {
  }

  lemma StepKeepsNoneAble(users: map<string, User>, s: State, e: Event, k: string)
    requires k != "" && Inv(s) && k in s.book.idem && NoneAble(users, s, k)
    ensures var t := Step(users, s, e); NoneAble(users, t, k) && k in t.book.idem && OrdersFor(t, k) == OrdersFor(s, k)
  {
    var t := Step(users, s, e);
    StepShape(users, s, e);
    ShapeUpdatesOne(users, s, t, e);
    KeysStay(users, s, t, e, k);
    assert !Able(users, s, k, e.c);
    if e.c in s.calls {
      assert CallSound(s.charges, s.calls, e.c);
      if !CanStore(users, s.calls[e.c]) { StepKeepsUnable(users, s, e); }
    }
    forall c ensures !Able(users, t, k, c) { assert !Able(users, s, k, c); }
  }

  lemma {:induction false} ExecKeepsNoneAble(users: map<string, User>, s: State, es: seq<Event>, k: string)
    requires k != "" && Inv(s) && k in s.book.idem && NoneAble(users, s, k)
    ensures OrdersFor(Exec(users, s, es), k) == OrdersFor(s, k)
    decreases |es|
  {
    if es != [] {
      StepKeepsInv(users, s, es[0]);
      StepKeepsNoneAble(users, s, es[0], k);
      ExecKeepsNoneAble(users, Step(users, s, es[0]), es[1..], k);
    }
  }

  // ---- If somebody can, it happens ----------------------------------------------------

  /** The call is unchanged but for its phase and total, and no order was stored. */
  ghost predicate OnTheWay(s: State, t: State, c: nat) {
    c in s.calls && c in t.calls && t.calls[c].req == s.calls[c].req && t.persisted == s.persisted
  }

  /** The user is asked about: the answer, yes or no, leads to an order. */
  lemma AskedStores(users: map<string, User>, s: State, es: seq<Event>, c: nat) returns (more: seq<Event>)
    requires var t := Exec(users, s, es);
             && c in t.calls && t.calls[c].phase.Calling?
             && t.calls[c].req.user in users && users[t.calls[c].req.user].active
    ensures var t := Exec(users, s, more); OnTheWay(Exec(users, s, es), t, c) && Storing(t.calls[c])
  {
    more := Then(users, s, es, Rpc(c, Delivered));
  }

  /** The check fails in a way that is borne: the order is taken as pending. */
  lemma FailedStores(users: map<string, User>, s: State, es: seq<Event>, c: nat) returns (more: seq<Event>)
    requires var t := Exec(users, s, es);
             c in t.calls && t.calls[c].phase.Failed? && Degrade(t.calls[c].phase.err, t.calls[c].total).Degrading?
    ensures var t := Exec(users, s, more); OnTheWay(Exec(users, s, es), t, c) && Storing(t.calls[c])
  {
    more := Then(users, s, es, Resolve(c));
  }

  /** One more attempt finds the user service down. */
  lemma FindsDown(users: map<string, User>, s: State, es: seq<Event>, c: nat) returns (more: seq<Event>)
    requires c in Exec(users, s, es).calls && Exec(users, s, es).calls[c].phase.Calling?
    ensures var was, t := Exec(users, s, es), Exec(users, s, more);
            && OnTheWay(was, t, c)
            && t.calls[c] == was.calls[c].(phase := AfterError(was.calls[c].phase.n, Status(Unavailable)))
  {
    more := Then(users, s, es, Rpc(c, Down(Status(Unavailable))));
  }

  /** The user service stays down for all the attempts of a small order. */
  lemma {:induction false} DownStores(users: map<string, User>, s: State, es: seq<Event>, c: nat) returns (more: seq<Event>)
    requires var t := Exec(users, s, es);
             c in t.calls && t.calls[c].phase.Calling? && t.calls[c].phase.n <= MAX_ATTEMPTS
             && t.calls[c].total <= SMALL_ORDER
    ensures var t := Exec(users, s, more); OnTheWay(Exec(users, s, es), t, c) && Storing(t.calls[c])
    decreases MAX_ATTEMPTS - Exec(users, s, es).calls[c].phase.n
  {
    var n := Exec(users, s, es).calls[c].phase.n;
    more := FindsDown(users, s, es, c);
    if n == MAX_ATTEMPTS {
      more := FailedStores(users, s, more, c);
    } else {
      more := Then(users, s, more, Wake(c, None));
      more := DownStores(users, s, more, c);
    }
  }

  lemma CallingStores(users: map<string, User>, s: State, es: seq<Event>, c: nat) returns (more: seq<Event>)
    requires var t := Exec(users, s, es);
             c in t.calls && t.calls[c].phase.Calling? && t.calls[c].phase.n <= MAX_ATTEMPTS
             && CanStore(users, t.calls[c])
    ensures var t := Exec(users, s, more); OnTheWay(Exec(users, s, es), t, c) && Storing(t.calls[c])
  {
    var call := Exec(users, s, es).calls[c];
    if call.total <= SMALL_ORDER { more := DownStores(users, s, es, c); }
    else { more := AskedStores(users, s, es, c); }
  }

  lemma AbleStores(users: map<string, User>, s: State, c: nat) returns (more: seq<Event>)
    requires c in s.calls && InBounds(s.calls[c].phase) && CanStore(users, s.calls[c])
    ensures var t := Exec(users, s, more); OnTheWay(s, t, c) && Storing(t.calls[c])
  {
    assert Exec(users, s, []) == s;
    match s.calls[c].phase
    case Pricing =>
      more := Then(users, s, [], Price(c, true));
      more := CallingStores(users, s, more, c);
    case Calling(_) => more := CallingStores(users, s, [], c);
    case Waiting(_) =>
      more := Then(users, s, [], Wake(c, None));
      more := CallingStores(users, s, more, c);
    case Failed(_) => more := FailedStores(users, s, [], c);
    case _ => more := [];
  }

  lemma AbleStoresAnother(users: map<string, User>, s: State, k: string, c: nat) returns (later: seq<Event>)
    requires Able(users, s, k, c) && InBounds(s.calls[c].phase)
    ensures AnotherOrder(users, s, later, k)
  {
    var before := AbleStores(users, s, c);
    assert OrdersFor(Exec(users, s, before), k) == OrdersFor(s, k);
    later := StoresOne(users, s, before, c, k);
  }

  /** After any run that recorded the key, however calls overlapped: another order for it can yet
      be stored if and only if a call with the key that did not find it is still at work and not
      bound to be refused. Without one the key has all the orders it will ever have. */
  lemma AnotherOrderIffSomeCallAble(users: map<string, User>, es: seq<Event>, k: string)
    requires k != "" && k in Exec(users, START, es).book.idem
    ensures var s := Exec(users, START, es);
            (exists later :: AnotherOrder(users, s, later, k)) <==> exists c :: Able(users, s, k, c)
  {
    StartInv();
    ExecKeepsInv(users, START, es);
    ExecKeepsCap(users, START, es);
    var s := Exec(users, START, es);
    if c :| Able(users, s, k, c) {
      assert WithinCap(s, c);
      var later := AbleStoresAnother(users, s, k, c);
      assert AnotherOrder(users, s, later, k);
    } else {
      forall later ensures !AnotherOrder(users, s, later, k) { ExecKeepsNoneAble(users, s, later, k); }
    }
  }
}
