/** Runs that the order service cannot avoid, and with them the exact conditions of what it
    promises: no second charge, one order per key, the replay's code, the credit limit. */
module OrderRuns {
  import opened Common
  import opened Credit
  import opened Retry
  import opened Orders
  import opened OrderKeys

  // ---- Building runs ------------------------------------------------------------------

  lemma Then(users: map<string, User>, s: State, es: seq<Event>, e: Event) returns (more: seq<Event>)
    ensures more == es + [e]
    ensures Exec(users, s, more) == Step(users, Exec(users, s, es), e)
  {
    more := es + [e];
    ExecSnoc(users, s, es, e);
  }

  lemma {:induction false} SerialSnoc(users: map<string, User>, s: State, es: seq<Event>, e: Event, k: string)
    requires Serial(users, s, es, k)
    requires e.Begin? && e.c !in Exec(users, s, es).calls && e.req.key == k ==> Idle(Exec(users, s, es), k)
    ensures Serial(users, s, es + [e], k)
    decreases |es|
  {
    if es == [] {
      assert es + [e] == [e] && [e][1..] == [];
    } else {
      assert (es + [e])[0] == es[0] && (es + [e])[1..] == es[1..] + [e];
      SerialSnoc(users, Step(users, s, es[0]), es[1..], e, k);
    }
  }

  /** A step that begins no call with key k keeps a serial run serial. */
  lemma ThenSerial(users: map<string, User>, s: State, es: seq<Event>, e: Event, k: string) returns (more: seq<Event>)
    requires Serial(users, s, es, k)
    requires e.Begin? && e.req.key == k ==> Idle(Exec(users, s, es), k)
    ensures more == es + [e] && Serial(users, s, more, k)
    ensures Exec(users, s, more) == Step(users, Exec(users, s, es), e)
  {
    more := Then(users, s, es, e);
    SerialSnoc(users, s, es, e, k);
  }

  /** Lines whose total in 64 bits is x. Quantities and prices are all positive: where x is not,
      the sum wraps around. */
  function LinesFor(x: int): seq<Line> {
    if x > 0 then [Line("a", 1, x)]
    else
      var half := (x + TWO_64 - 1) / 2;
      [Line("a", 2, half), Line("b", 1, x + TWO_64 - 2 * half)]
  }

  /** An order costing x. */
  function Buy(user: string, key: string, x: int): Request { Request(user, key, LinesFor(x)) }

  predicate PositiveLines(lines: seq<Line>) {
    forall i :: 0 <= i < |lines| ==> lines[i].quantity > 0 && 0 < lines[i].price < TWO_63
  }

  predicate SensibleEvent(e: Event) { e.Begin? ==> PositiveLines(e.req.lines) }

  /** Every request has positive quantities and prices, as the gateway demands. */
  ghost predicate Sensible(es: seq<Event>) { forall i :: 0 <= i < |es| ==> SensibleEvent(es[i]) }

  lemma BuyCosts(user: string, key: string, x: int)
    requires InInt64(x)
    ensures var lines := Buy(user, key, x).lines;
            TotalCents(lines) == Some(x) && lines != [] && PositiveLines(lines)
  {
    var lines := LinesFor(x);
    assert lines[..0] == [] && TotalCents([]) == Some(0);
    if x <= 0 {
      var half := (x + TWO_64 - 1) / 2;
      assert lines[..1] == [Line("a", 2, half)];
      assert [Line("a", 2, half)][..0] == [];
      assert TotalCents([Line("a", 2, half)]) == Some(Wrap64(2 * half));
      var rest := x + TWO_64 - 2 * half;
      WrapAdd(2 * half, rest);
    }
  }

  /** The state in which a call that began and was admitted makes its first attempt. */
  function Started(s: State, c: nat, req: Request, x: int): State {
    s.(calls := s.calls[c := Call(req, x, Calling(1), true)])
  }

  lemma Starts(users: map<string, User>, s: State, es: seq<Event>, c: nat, user: string, key: string, x: int, k: string)
    returns (more: seq<Event>)
    requires Serial(users, s, es, k) && InInt64(x) && user != ""
    requires c !in Exec(users, s, es).calls
    requires key != "" ==> key !in Exec(users, s, es).book.idem
    requires key == k ==> Idle(Exec(users, s, es), k)
    ensures Serial(users, s, more, k)
    ensures Sensible(es) ==> Sensible(more)
    ensures Exec(users, s, more) == Started(Exec(users, s, es), c, Buy(user, key, x), x)
  {
    BuyCosts(user, key, x);
    var one := ThenSerial(users, s, es, Begin(c, Buy(user, key, x)), k);
    more := ThenSerial(users, s, one, Price(c, true), k);
  }

  // ---- A second charge ----------------------------------------------------------------

  /** Call 0 times out while its request is on its way, and is refused. */
  lemma TimesOut(users: map<string, User>, u: string, k: string) returns (es: seq<Event>)
    requires u != "" && k != ""
    ensures Serial(users, START, es, k)
    ensures Exec(users, START, es) ==
            START.(calls := map[0 := Call(Buy(u, k, 1), 1, Finished(Refused(DeadlineExceeded)), true)],
                   adrift := [Errand(u, 1, k, 0)])
  {
    es := Starts(users, START, [], 0, u, k, 1, k);
    es := ThenSerial(users, START, es, Rpc(0, Adrift(Status(DeadlineExceeded))), k);
    es := ThenSerial(users, START, es, Resolve(0), k);
  }

  /** Call 1 with the same key begins after that, is charged and stores the order. */
  lemma Retries(users: map<string, User>, u: string, k: string) returns (es: seq<Event>)
    requires u != "" && k != "" && u in users && users[u].active && 1 <= users[u].limit < TWO_63
    ensures Serial(users, START, es, k)
    ensures var s := Exec(users, START, es);
            && k in s.book.idem && |s.persisted| == 1 && s.persisted[0].key == k && s.persisted[0].order.total == 1
            && s.charges == [Charge(u, 1, k, 1, Settled)] && s.spent == map[u := 1]
            && s.adrift == [Errand(u, 1, k, 0)]
            && 0 in s.calls && s.calls[0].req.key == k && 1 in s.calls && s.calls[1].req.key == k
            && s.calls[0].phase == Finished(Refused(DeadlineExceeded))
  {
    es := TimesOut(users, u, k);
    es := Starts(users, START, es, 1, u, k, 1, k);
    es := ThenSerial(users, START, es, Rpc(1, Delivered), k);
    ghost var s := Exec(users, START, es);
    assert s.calls[1].phase == Holding(0) && s.charges == [Charge(u, 1, k, 1, Held)];
    es := ThenSerial(users, START, es, Store(1), k);
  }

  /** No two calls overlap, one order is stored for the key, and the key is charged twice: the
      request that its caller gave up on is executed after the retry has stored the order. */
  lemma SecondChargeHappens(users: map<string, User>, u: string, k: string) returns (es: seq<Event>)
    requires u != "" && k != "" && u in users && users[u].active && 2 <= users[u].limit < TWO_63
    ensures Serial(users, START, es, k)
    ensures var s := Exec(users, START, es);
            && |OrdersFor(s, k)| == 1 && |ChargesFor(s, k)| == 2
            && SpentBy(s.spent, u) == 2 && |s.persisted| == 1 && s.persisted[0].order.total == 1
  {
    es := Retries(users, u, k);
    ghost var before := Exec(users, START, es);
    es := ThenSerial(users, START, es, Land(0, 0), k);
    ghost var s := Exec(users, START, es);
    assert s.charges == [Charge(u, 1, k, 1, Settled), Charge(u, 1, k, 0, Lost)];
    assert OrdersFor(s, k) == {0};
    assert ChargesFor(s, k) == {0, 1};
  }

  /** A call without a key charges x to a user whose remaining credit allows it, and nothing else
      that concerns key k changes. */
  lemma Spends(users: map<string, User>, s: State, es: seq<Event>, u: string, x: int, k: string) returns (more: seq<Event>)
    requires k != "" && u != "" && InInt64(x) && Serial(users, s, es, k)
    requires Validate(users, Exec(users, s, es).spent, u, x).reply.Approved?
    ensures Serial(users, s, more, k) && (Sensible(es) ==> Sensible(more))
    ensures var t, was := Exec(users, s, more), Exec(users, s, es);
            && t.spent == Validate(users, was.spent, u, x).spent && t.adrift == was.adrift
            && forall c :: c in was.calls ==> c in t.calls
  {
    var c := Above(Exec(users, s, es).calls.Keys);
    more := Starts(users, s, es, c, u, "", x, k);
    more := ThenSerial(users, s, more, Rpc(c, Delivered), k);
  }

  function Remaining(users: map<string, User>, spent: map<string, int>, u: string): int
    requires u in users
  {
    Wrap64(users[u].limit - SpentBy(spent, u))
  }

  /** Spending x lowers what remains by x, in 64 bits. */
  lemma SpendingLowers(users: map<string, User>, spent: map<string, int>, u: string, x: int)
    requires u in users && users[u].active && x <= Remaining(users, spent, u)
    ensures var r := Validate(users, spent, u, x);
            r.reply.Approved? && Remaining(users, r.spent, u) == Wrap64(Remaining(users, spent, u) - x)
  {
    var limit, before := users[u].limit, SpentBy(spent, u);
    WrapAdd(limit - before, -x);
    WrapSub(limit, before + x);
  }

  lemma WrapSub(a: int, b: int)
    ensures Wrap64(a - Wrap64(b)) == Wrap64(a - b)
  {
    var q := (b + TWO_63) / TWO_64;
    assert b + TWO_63 == q * TWO_64 + (b + TWO_63) % TWO_64;
  }

  /** Two orders whose totals wrap around give a user all the credit that 64 bits can hold. */
  lemma GainsCredit(users: map<string, User>, s: State, u: string, k: string) returns (es: seq<Event>)
    requires k != "" && u != "" && u in users && users[u].active
    ensures Serial(users, s, es, k) && Sensible(es)
    ensures var t := Exec(users, s, es);
            && Remaining(users, t.spent, u) == TWO_63 - 1 && t.adrift == s.adrift
            && forall c :: c in s.calls ==> c in t.calls
  {
    var r := Remaining(users, s.spent, u);
    var x := if r < 0 then -TWO_63 else 0;
    SpendingLowers(users, s.spent, u, x);
    es := Spends(users, s, [], u, x, k);
    var spent := Exec(users, s, es).spent;
    var r' := Remaining(users, spent, u);
    assert 0 <= r';
    SpendingLowers(users, spent, u, r' - (TWO_63 - 1));
    es := Spends(users, s, es, u, r' - (TWO_63 - 1), k);
  }

  ghost predicate ChargesAgain(users: map<string, User>, s: State, later: seq<Event>, k: string) {
    Serial(users, s, later, k) && ChargesFor(Exec(users, s, later), k) != ChargesFor(s, k)
  }

  /** Executing a request adrift for which there is credit charges its key once more. */
  lemma LandsOne(users: map<string, User>, s: State, es: seq<Event>, i: nat, k: string) returns (more: seq<Event>)
    requires Serial(users, s, es, k)
    requires var t := Exec(users, s, es);
             && Inv(t) && i < |t.adrift| && t.adrift[i].key == k
             && Validate(users, t.spent, t.adrift[i].user, t.adrift[i].amount).reply.Approved?
    ensures more == es + [Land(Exec(users, s, es).adrift[i].owner, i)] && Serial(users, s, more, k)
    ensures var t := Exec(users, s, es);
            && |t.charges| in ChargesFor(Exec(users, s, more), k)
            && |t.charges| !in ChargesFor(t, k)
  {
    var t := Exec(users, s, es);
    assert ErrandOwned(t.adrift, t.calls, i);
    LandingCharges(users, t, Land(t.adrift[i].owner, i), k);
    more := ThenSerial(users, s, es, Land(t.adrift[i].owner, i), k);
  }

  lemma AdriftChargesAgain(users: map<string, User>, s: State, k: string) returns (es: seq<Event>)
    requires k != "" && Inv(s) && SerialInv(s, k) && k in s.book.idem && Chargeable(users, s.adrift, k) > 0
    ensures ChargesAgain(users, s, es, k) && Sensible(es)
  {
    var i := SomeChargeable(users, s.adrift, k);
    assert ErrandOwned(s.adrift, s.calls, i);
    es := GainsCredit(users, s, s.adrift[i].user, k);
    SerialRun(users, s, es, k);
    ExecKeepsInv(users, s, es);
    es := LandsOne(users, s, es, i, k);
  }

  /** After any serial run that stored an order for the key, later non-overlapping calls can see
      the key charged again if and only if a request of that key for an active user was adrift
      when they began. */
  lemma ChargedAgainIffAdrift(users: map<string, User>, es: seq<Event>, k: string)
    requires k != "" && Serial(users, START, es, k) && k in Exec(users, START, es).book.idem
    ensures var s := Exec(users, START, es);
            (exists later :: ChargesAgain(users, s, later, k)) <==> Chargeable(users, s.adrift, k) > 0
  {
    var s := SerialStart(users, es, k);
    if Chargeable(users, s.adrift, k) > 0 {
      var later := AdriftChargesAgain(users, s, k);
      assert ChargesAgain(users, s, later, k);
    }
    forall later | ChargesAgain(users, s, later, k) ensures Chargeable(users, s.adrift, k) > 0 {
      NoSecondCharge(users, es, later, k);
    }
  }

  // ---- Two orders for one key ---------------------------------------------------------

  /** Call c finds its key unknown and, the circuit being open, is about to store its order. */
  lemma Degrades(users: map<string, User>, es: seq<Event>, c: nat, req: Request) returns (more: seq<Event>)
    requires req == Buy(req.user, req.key, 1) && req.user != ""
    requires var s := Exec(users, START, es); c !in s.calls && req.key !in s.book.idem
    ensures var s := Exec(users, START, es);
            Exec(users, START, more) == s.(calls := s.calls[c := Call(req, 1, Degrading, true)])
  {
    BuyCosts(req.user, req.key, 1);
    more := Then(users, START, es, Begin(c, req));
    more := Then(users, START, more, Price(c, false));
    more := Then(users, START, more, Resolve(c));
  }

  /** Two calls that look the key up before either stores its order store one each. */
  lemma TwoOrdersForOneKey(users: map<string, User>, u: string, k: string) returns (es: seq<Event>)
    requires u != "" && k != ""
    ensures |OrdersFor(Exec(users, START, es), k)| == 2
  {
    assert Exec(users, START, []) == START;
    assert OrdersFor(START, k) == {};
    es := Degrades(users, [], 0, Buy(u, k, 1));
    es := Degrades(users, es, 1, Buy(u, k, 1));
    es := StoresOne(users, START, es, 0, k);
    es := StoresOne(users, START, es, 1, k);
  }

  lemma StoresOne(users: map<string, User>, s: State, es: seq<Event>, c: nat, k: string) returns (more: seq<Event>)
    requires var t := Exec(users, s, es);
             c in t.calls && t.calls[c].req.key == k && Storing(t.calls[c])
    ensures more == es + [Store(c)] && Exec(users, s, more) == StoreStep(Exec(users, s, es), c)
    ensures |OrdersFor(Exec(users, s, more), k)| == |OrdersFor(Exec(users, s, es), k)| + 1
  {
    more := Then(users, s, es, Store(c));
    var was, t := Exec(users, s, es), Exec(users, s, more);
    assert OrdersFor(t, k) == OrdersFor(was, k) + {|was.persisted|};
  }

  // ---- A replayed rejection -----------------------------------------------------------

  /** An order over the limit is stored as rejected and its call told so; a second call with the
      key, after the first, gets the same order as a success. */
  lemma ReplayedRejection(users: map<string, User>, u: string, k: string) returns (es: seq<Event>)
    requires u != "" && k != "" && u in users && users[u].active && 0 <= users[u].limit < TWO_63 - 1
    ensures Serial(users, START, es, k)
    ensures var s := Exec(users, START, es);
            && 0 in s.calls && RepliedItself(s.calls[0]) && 1 in s.calls && !s.calls[1].passed
            && s.calls[0].phase == Finished(Replied(s.calls[0].phase.res.order, FailedPrecondition))
            && s.calls[1].phase == Finished(Replied(s.calls[0].phase.res.order, OK))
  {
    es := Starts(users, START, [], 0, u, k, users[u].limit + 1, k);
    es := ThenSerial(users, START, es, Rpc(0, Delivered), k);
    es := ThenSerial(users, START, es, Store(0), k);
    es := ThenSerial(users, START, es, Begin(1, Buy(u, k, 1)), k);
    es := ThenSerial(users, START, es, Replay(1), k);
  }

  // ---- The credit limit ---------------------------------------------------------------

  ghost predicate WithinLimits(users: map<string, User>, spent: map<string, int>) {
    forall u :: u in users ==> -TWO_63 <= SpentBy(spent, u) <= users[u].limit
  }

  /** What the user service executes in this step, if anything. */
  function Executed(s: State, e: Event): Option<Errand> {
    if e.Rpc? && e.c in s.calls && s.calls[e.c].phase.Calling? && (e.reach.ResponseLost? || e.reach.Delivered?)
    then Some(Sent(s, e.c))
    else if e.Land? && e.c in s.calls && e.i < |s.adrift| && s.adrift[e.i].owner == e.c then Some(s.adrift[e.i])
    else None
  }

  /** If this step charges somebody, the new sum does not fall below 64 bits. */
  predicate Guarded(users: map<string, User>, s: State, e: Event) {
    Executed(s, e).Some? ==>
      var a := Executed(s, e).value;
      Validate(users, s.spent, a.user, a.amount).reply.Approved? ==>
        a.user in users && StaysAbove(users[a.user].limit, SpentBy(s.spent, a.user), a.amount)
  }

  ghost predicate AlwaysWithin(users: map<string, User>, s: State, es: seq<Event>)
    decreases |es|
  {
    WithinLimits(users, s.spent) && (es != [] ==> AlwaysWithin(users, Step(users, s, es[0]), es[1..]))
  }

  predicate AlwaysGuarded(users: map<string, User>, s: State, es: seq<Event>)
    decreases |es|
  {
    es == [] || (Guarded(users, s, es[0]) && AlwaysGuarded(users, Step(users, s, es[0]), es[1..]))
  }

  lemma WithinIffGuarded(users: map<string, User>, s: State, e: Event)
    requires Inv(s) && Limits(users) && WithinLimits(users, s.spent)
    ensures WithinLimits(users, Step(users, s, e).spent) <==> Guarded(users, s, e)
  {
    if a: Errand :| Executed(s, e) == Some(a) {
      assert InInt64(a.amount) by {
        if e.Rpc? { assert CallSound(s.charges, s.calls, e.c); } else { assert ErrandOwned(s.adrift, s.calls, e.i); }
      }
      ChargeWithinIffAbove(users, s.spent, a.user, a.amount);
    }
  }

  lemma ChargeWithinIffAbove(users: map<string, User>, spent: map<string, int>, user: string, amount: int)
    requires Limits(users) && WithinLimits(users, spent) && InInt64(amount)
    ensures var r := Validate(users, spent, user, amount);
            WithinLimits(users, r.spent) <==>
              (r.reply.Approved? ==> user in users && StaysAbove(users[user].limit, SpentBy(spent, user), amount))
  {
    var r := Validate(users, spent, user, amount);
    if r.reply.Approved? {
      ApprovalWithinLimit(users, spent, user, amount);
      forall u ensures u != user ==> SpentBy(r.spent, u) == SpentBy(spent, u) {
        ApprovalSpends(users, spent, user, amount, u);
      }
    }
  }

  /** Whatever the totals, every user stays within the limit throughout a run if and only if no
      charge of it takes a sum below what 64 bits can hold. */
  lemma {:induction false} WithinLimitsIffGuarded(users: map<string, User>, s: State, es: seq<Event>)
    requires Inv(s) && Limits(users) && WithinLimits(users, s.spent)
    ensures AlwaysWithin(users, s, es) <==> AlwaysGuarded(users, s, es)
    decreases |es|
  {
    if es != [] {
      WithinIffGuarded(users, s, es[0]);
      StepKeepsInv(users, s, es[0]);
      var t := Step(users, s, es[0]);
      if WithinLimits(users, t.spent) {
        WithinLimitsIffGuarded(users, t, es[1..]);
      } else {
        assert !AlwaysWithin(users, t, es[1..]);
      }
    }
  }

  /** Positive quantities and prices whose totals wrap around take any active user above the
      limit, in two orders: the first, of 2 at 9223372036854775807 and 1 at 1, comes to -1. */
  lemma WrappedTotalsOverspend(users: map<string, User>, u: string) returns (es: seq<Event>)
    requires u != "" && u in users && users[u].active && 0 <= users[u].limit < TWO_63 - 1
    ensures Sensible(es) && SpentBy(Exec(users, START, es).spent, u) > users[u].limit
  {
    es := Spends(users, START, [], u, -1, "key");
    es := Spends(users, START, es, u, -TWO_63, "key");
  }
}
