/** What idempotency keys give: orders have their own identifiers and never change, calls one
    after another with one key share one order and one charge, and overlapping calls store at
    most one order each among those that looked the key up too early. */
module OrderKeys {
  import opened Common
  import opened Credit
  import opened Retry
  import opened Orders

  // ---- Identifiers and stored orders --------------------------------------------------

  /** There are exactly `count` orders, no two with one identifier, and every key leads to a
      stored order that was created for that key. */
  lemma BookIsConsistent(users: map<string, User>, es: seq<Event>, k: string)
    ensures var s := Exec(users, START, es);
            && s.book.count == |s.persisted| == |s.book.orders|
            && (forall i, j :: 0 <= i < j < |s.persisted| ==> s.persisted[i].order.id != s.persisted[j].order.id)
            && (k in s.book.idem ==>
                  && s.book.idem[k] in s.book.orders
                  && exists i :: KeyLeadsTo(s.book, s.persisted, k, i))
  {
    StartInv();
    ExecKeepsInv(users, START, es);
    AsManyAsCounted(users, START, es);
    var s := Exec(users, START, es);
    forall i, j | 0 <= i < j < |s.persisted| ensures s.persisted[i].order.id != s.persisted[j].order.id {
      assert EntryFiled(s.book, s.persisted, i) && EntryFiled(s.book, s.persisted, j);
      OrderIdInjective(i + 1, j + 1);
    }
    if k in s.book.idem {
      var i :| KeyLeadsTo(s.book, s.persisted, k, i);
      assert EntryFiled(s.book, s.persisted, i);
    }
  }

  lemma {:induction false} AsManyAsCounted(users: map<string, User>, s: State, es: seq<Event>)
    requires Inv(s) && |s.book.orders| == s.book.count
    ensures |Exec(users, s, es).book.orders| == Exec(users, s, es).book.count
    decreases |es|
  {
    if es != [] {
      var t := Step(users, s, es[0]);
      StepShape(users, s, es[0]);
      StepKeepsInv(users, s, es[0]);
      ShapeKeepsOrders(users, s, t, es[0]);
      AsManyAsCounted(users, t, es[1..]);
    }
  }

  lemma ShapeKeepsOrders(users: map<string, User>, s: State, t: State, e: Event)
    requires Inv(s) && Shape(users, s, t, e)
    ensures forall id :: id in s.book.orders ==> id in t.book.orders && t.book.orders[id] == s.book.orders[id]
    ensures |t.book.orders| - |s.book.orders| == t.book.count - s.book.count
  {
    if StoredBy(s, t, e.c) {
      PersistKeepsBook(s.book, s.persisted, s.calls[e.c].req, s.calls[e.c].total,
                       StatusFor(s.calls[e.c].phase), e.c);
    }
  }

  /** A stored order is there for ever, unchanged. */
  lemma {:induction false} OrdersNeverChange(users: map<string, User>, s: State, es: seq<Event>, id: string)
    requires Inv(s) && id in s.book.orders
    ensures var t := Exec(users, s, es); id in t.book.orders && t.book.orders[id] == s.book.orders[id]
    decreases |es|
  {
    if es != [] {
      var t := Step(users, s, es[0]);
      StepShape(users, s, es[0]);
      StepKeepsInv(users, s, es[0]);
      ShapeKeepsOrders(users, s, t, es[0]);
      OrdersNeverChange(users, t, es[1..], id);
    }
  }

  // ---- What orders say ----------------------------------------------------------------

  /** A call that has been priced carries the total of its lines. */
  predicate Priced(calls: map<nat, Call>, c: nat)
    requires c in calls
  {
    calls[c].phase.Replaying? || calls[c].phase.Pricing? || calls[c].phase.Finished?
    || TotalCents(calls[c].req.lines) == Some(calls[c].total)
  }

  /** Order i says what its call asked. */
  predicate SaysAsked(persisted: seq<Entry>, calls: map<nat, Call>, i: int)
    requires 0 <= i < |persisted|
  {
    var e := persisted[i];
    && e.owner in calls && e.order.id == OrderId(i + 1)
    && e.order.user == calls[e.owner].req.user && e.order.lines == calls[e.owner].req.lines
    && TotalCents(e.order.lines) == Some(e.order.total)
  }

  ghost predicate SaysInv(s: State) {
    && (forall c :: c in s.calls ==> Priced(s.calls, c))
    && (forall i :: 0 <= i < |s.persisted| ==> SaysAsked(s.persisted, s.calls, i))
  }

  lemma ShapeKeepsSays(users: map<string, User>, s: State, t: State, e: Event)
    requires Inv(s) && SaysInv(s) && Shape(users, s, t, e) && UpdatesOne(s, t, e.c)
    requires e.c in t.calls ==> Priced(t.calls, e.c)
    ensures SaysInv(t)
  {
    forall c | c in t.calls ensures Priced(t.calls, c) { assert c != e.c ==> Priced(s.calls, c); }
    forall i | 0 <= i < |t.persisted| ensures SaysAsked(t.persisted, t.calls, i) {
      if i < |s.persisted| { assert SaysAsked(s.persisted, s.calls, i); } else { assert Priced(s.calls, e.c); }
    }
  }

  lemma StepKeepsSays(users: map<string, User>, s: State, e: Event)
    requires Inv(s) && SaysInv(s)
    ensures SaysInv(Step(users, s, e))
  {
    StepShape(users, s, e);
    ShapeUpdatesOne(users, s, Step(users, s, e), e);
    assert e.c in s.calls ==> Priced(s.calls, e.c);
    ShapeKeepsSays(users, s, Step(users, s, e), e);
  }

  lemma {:induction false} ExecKeepsSays(users: map<string, User>, s: State, es: seq<Event>)
    requires Inv(s) && SaysInv(s)
    ensures SaysInv(Exec(users, s, es))
    decreases |es|
  {
    if es != [] {
      StepKeepsInv(users, s, es[0]);
      StepKeepsSays(users, s, es[0]);
      ExecKeepsSays(users, Step(users, s, es[0]), es[1..]);
    }
  }

  /** On every run order i is numbered i + 1 and says the user, the lines and the total of the call
      that stored it. */
  lemma OrdersSayWhatWasAsked(users: map<string, User>, es: seq<Event>, i: nat)
    requires i < |Exec(users, START, es).persisted|
    ensures var s := Exec(users, START, es); SaysAsked(s.persisted, s.calls, i)
  {
    StartInv();
    ExecKeepsSays(users, START, es);
  }

  // ---- Overlapping calls --------------------------------------------------------------

  /** The calls with key k that did not find it. */
  function Passed(s: State, k: string): set<nat> {
    set c | c in s.calls && s.calls[c].passed && s.calls[c].req.key == k
  }

  /** The stored orders with key k, by their place in the history. */
  function OrdersFor(s: State, k: string): set<nat> {
    set i: nat | i < |s.persisted| && s.persisted[i].key == k
  }

  lemma OwnersAreDistinct(s: State, i: nat, j: nat)
    requires Inv(s) && i < |s.persisted| && j < |s.persisted|
    requires s.persisted[i].owner == s.persisted[j].owner
    ensures i == j
  {
    assert EntryOwned(s.persisted, s.calls, i) && EntryOwned(s.persisted, s.calls, j);
    assert EntryFiled(s.book, s.persisted, i) && EntryFiled(s.book, s.persisted, j);
    OrderIdInjective(i + 1, j + 1);
  }

  /** The calls with key k that passed the lookup and replied with an order. */
  function Repliers(s: State, k: string): set<nat> {
    set c | c in s.calls && s.calls[c].req.key == k && RepliedItself(s.calls[c])
  }

  predicate RepliedItself(call: Call) { call.passed && call.phase.Finished? && call.phase.res.Replied? }

  predicate OwnsEntry(persisted: seq<Entry>, c: nat, i: int) { 0 <= i < |persisted| && persisted[i].owner == c }

  predicate CodeSound(call: Call) {
    call.phase.Finished? && call.phase.res.Replied? ==>
      call.phase.res.code == if call.passed && call.phase.res.order.status.Rejected? then FailedPrecondition else OK
  }

  /** Whoever replies with an order of its own has stored it, and says whether it was rejected;
      whoever replays an order does not say. */
  ghost predicate RepliesInv(persisted: seq<Entry>, calls: map<nat, Call>) {
    forall c :: c in calls ==> ReplySound(persisted, calls, c)
  }

  ghost predicate ReplySound(persisted: seq<Entry>, calls: map<nat, Call>, c: nat)
    requires c in calls
  {
    CodeSound(calls[c]) && (RepliedItself(calls[c]) ==> exists i :: OwnsEntry(persisted, c, i))
  }

  lemma ReplyStays(s: State, t: State, d: nat)
    requires d in s.calls && d in t.calls && t.calls[d] == s.calls[d] && s.persisted <= t.persisted
    requires ReplySound(s.persisted, s.calls, d)
    ensures ReplySound(t.persisted, t.calls, d)
  {
    if RepliedItself(t.calls[d]) {
      var i :| OwnsEntry(s.persisted, d, i);
      assert OwnsEntry(t.persisted, d, i);
    }
  }

  lemma StoredReply(s: State, t: State, c: nat)
    requires Inv(s) && StoredBy(s, t, c)
    ensures ReplySound(t.persisted, t.calls, c)
  {
    assert CallSound(s.charges, s.calls, c);
    assert OwnsEntry(t.persisted, c, |s.persisted|);
  }

  lemma ShapeKeepsReplies(users: map<string, User>, s: State, t: State, e: Event)
    requires Inv(s) && RepliesInv(s.persisted, s.calls) && Shape(users, s, t, e)
    ensures RepliesInv(t.persisted, t.calls)
  {
    ShapeUpdatesOne(users, s, t, e);
    forall d | d in t.calls ensures ReplySound(t.persisted, t.calls, d) {
      if d != e.c || t == s || Landed(users, s, t, e) { ReplyStays(s, t, d); }
      else if StoredBy(s, t, d) { StoredReply(s, t, d); }
    }
  }

  lemma {:induction false} ExecKeepsReplies(users: map<string, User>, s: State, es: seq<Event>)
    requires Inv(s) && RepliesInv(s.persisted, s.calls)
    ensures var t := Exec(users, s, es); RepliesInv(t.persisted, t.calls)
    decreases |es|
  {
    if es != [] {
      var t := Step(users, s, es[0]);
      StepShape(users, s, es[0]);
      StepKeepsInv(users, s, es[0]);
      ShapeKeepsReplies(users, s, t, es[0]);
      ExecKeepsReplies(users, t, es[1..]);
    }
  }

  /** The calls that stored the orders of key k: as many as the orders, each replied its own. */
  lemma Owners(s: State, k: string) returns (f: map<nat, nat>)
    requires Inv(s)
    ensures f.Keys == OrdersFor(s, k) && forall i :: i in f ==> f[i] == s.persisted[i].owner
    ensures |f.Values| == |OrdersFor(s, k)| && f.Values <= Repliers(s, k)
  {
    f := map i | i in OrdersFor(s, k) :: s.persisted[i].owner;
    forall i, j | i in f && j in f && f[i] == f[j] ensures i == j { OwnersAreDistinct(s, i, j); }
    ImageSize(f);
    assert |f| == |f.Keys|;
    forall c | c in f.Values ensures c in Repliers(s, k) {
      var i :| i in f && f[i] == c;
      assert EntryOwned(s.persisted, s.calls, i);
    }
  }

  lemma RepliesOwnOrders(s: State, k: string)
    requires Inv(s) && RepliesInv(s.persisted, s.calls)
    ensures |OrdersFor(s, k)| == |Repliers(s, k)|
  {
    var f := Owners(s, k);
    forall c | c in Repliers(s, k) ensures c in f.Values {
      assert ReplySound(s.persisted, s.calls, c);
      var i :| OwnsEntry(s.persisted, c, i);
      assert EntryOwned(s.persisted, s.calls, i);
      assert i in f;
    }
    assert f.Values == Repliers(s, k);
  }

  /** On every run the orders stored for a key are exactly as many as the calls with that key
      that did not find it and were replied an order; so there is at most one order for the key
      if and only if there is at most one such call. */
  lemma OneOrderPerReplier(users: map<string, User>, es: seq<Event>, k: string)
    ensures var s := Exec(users, START, es);
            && |OrdersFor(s, k)| == |Repliers(s, k)|
            && (|OrdersFor(s, k)| <= 1 <==> forall c, d :: c in Repliers(s, k) && d in Repliers(s, k) ==> c == d)
  {
    StartInv();
    ExecKeepsInv(users, START, es);
    ExecKeepsReplies(users, START, es);
    var s := Exec(users, START, es);
    RepliesOwnOrders(s, k);
    AtMostOne(Repliers(s, k));
  }

  lemma AtMostOne(xs: set<nat>)
    ensures |xs| <= 1 <==> forall a, b :: a in xs && b in xs ==> a == b
  {
    if a, b :| a in xs && b in xs && a != b {
      assert {a, b} <= xs && |{a, b}| == 2;
      assert xs == {a, b} + (xs - {a, b});
    } else if a :| a in xs {
      assert xs == {a};
    }
  }

  /** On every run: a replayed order comes with the code its storing call got if and only if the
      order was not rejected; a replayed rejection looks like a success. */
  lemma ReplayKeepsCodeIffNotRejected(users: map<string, User>, es: seq<Event>, storing: nat, replaying: nat)
    requires var s := Exec(users, START, es);
             && storing in s.calls && RepliedItself(s.calls[storing])
             && replaying in s.calls && !s.calls[replaying].passed
             && s.calls[replaying].phase.Finished? && s.calls[replaying].phase.res.Replied?
             && s.calls[replaying].phase.res.order == s.calls[storing].phase.res.order
    ensures var s := Exec(users, START, es);
            s.calls[replaying].phase.res.code == s.calls[storing].phase.res.code
            <==> !s.calls[storing].phase.res.order.status.Rejected?
  {
    StartInv();
    ExecKeepsReplies(users, START, es);
    var s := Exec(users, START, es);
    assert ReplySound(s.persisted, s.calls, storing) && ReplySound(s.persisted, s.calls, replaying);
  }

  lemma OrdersAtMostPassed(s: State, k: string)
    requires Inv(s)
    ensures |OrdersFor(s, k)| <= |Passed(s, k)|
  {
    var f := Owners(s, k);
    assert f.Values <= Passed(s, k);
    assert Passed(s, k) == f.Values + (Passed(s, k) - f.Values);
  }

  lemma KeysStay(users: map<string, User>, s: State, t: State, e: Event, k: string)
    requires k in s.book.idem && Shape(users, s, t, e)
    ensures k in t.book.idem
  {
  }

  lemma PassedIsFrozen(s: State, t: State, c: nat, k: string)
    requires k != "" && k in s.book.idem && UpdatesOne(s, t, c)
    ensures Passed(t, k) == Passed(s, k)
  {
  }

  lemma {:induction false} PassedStaysFrozen(users: map<string, User>, s: State, es: seq<Event>, k: string)
    requires k != "" && k in s.book.idem
    ensures Passed(Exec(users, s, es), k) == Passed(s, k)
    decreases |es|
  {
    if es != [] {
      var t := Step(users, s, es[0]);
      StepShape(users, s, es[0]);
      ShapeUpdatesOne(users, s, t, es[0]);
      KeysStay(users, s, t, es[0], k);
      PassedIsFrozen(s, t, es[0].c, k);
      PassedStaysFrozen(users, t, es[1..], k);
    }
  }

  /** However calls overlap, the orders ever stored for a key number at most the calls that had
      passed the lookup when the key was first recorded. */
  lemma DuplicatesAreBounded(users: map<string, User>, es: seq<Event>, later: seq<Event>, k: string)
    requires k != "" && k in Exec(users, START, es).book.idem
    ensures var s := Exec(users, START, es);
            |OrdersFor(Exec(users, s, later), k)| <= |Passed(s, k)|
  {
    StartInv();
    ExecKeepsInv(users, START, es);
    var s := Exec(users, START, es);
    ExecKeepsInv(users, s, later);
    PassedStaysFrozen(users, s, later, k);
    OrdersAtMostPassed(Exec(users, s, later), k);
  }

  // ---- Calls one after another --------------------------------------------------------

  predicate InProgress(s: State, k: string, c: nat) {
    c in s.calls && s.calls[c].req.key == k && !s.calls[c].phase.Finished?
  }

  ghost predicate Idle(s: State, k: string) { forall c :: !InProgress(s, k, c) }

  /** A call with key k begins only when no other call with key k is in progress. */
  ghost predicate Serial(users: map<string, User>, s: State, es: seq<Event>, k: string)
    decreases |es|
  {
    es == [] ||
    ((es[0].Begin? && es[0].c !in s.calls && es[0].req.key == k ==> Idle(s, k))
     && Serial(users, Step(users, s, es[0]), es[1..], k))
  }

  /** A call with key k either works before any order is stored, or only reads the stored one. */
  predicate OnlyReads(s: State, k: string, c: nat) {
    c in s.calls && s.calls[c].req.key == k ==>
      if k in s.book.idem then
        && (!s.calls[c].phase.Finished? ==> s.calls[c].phase == Replaying(s.book.idem[k]))
        && (s.calls[c].phase.Finished? && s.calls[c].phase.res.Replied? ==>
              s.book.idem[k] in s.book.orders
              && s.calls[c].phase.res.order == s.book.orders[s.book.idem[k]])
      else
        && !s.calls[c].phase.Replaying?
        && (s.calls[c].phase.Finished? ==> s.calls[c].phase.res.Refused?)
  }

  ghost predicate SerialInv(s: State, k: string) {
    && (forall c, d :: InProgress(s, k, c) && InProgress(s, k, d) ==> c == d)
    && (forall c :: OnlyReads(s, k, c))
  }

  /** The charges made for key k. */
  function ChargesFor(s: State, k: string): set<nat> {
    set i: nat | i < |s.charges| && s.charges[i].key == k
  }

  /** One call changes and what key k leads to does not. */
  lemma UpdateKeepsSerial(s: State, t: State, c: nat, k: string)
    requires SerialInv(s, k) && UpdatesOne(s, t, c)
    requires (k in t.book.idem <==> k in s.book.idem) && (k in s.book.idem ==> t.book.idem[k] == s.book.idem[k])
    requires forall id :: id in s.book.orders ==> id in t.book.orders && t.book.orders[id] == s.book.orders[id]
    requires OnlyReads(t, k, c)
    requires InProgress(t, k, c) ==> InProgress(s, k, c) || Idle(s, k)
    ensures SerialInv(t, k)
  {
    forall d ensures OnlyReads(t, k, d) { assert OnlyReads(s, k, d); }
    forall a, b | InProgress(t, k, a) && InProgress(t, k, b) ensures a == b {
      assert a != c ==> InProgress(s, k, a);
      assert b != c ==> InProgress(s, k, b);
    }
  }

  /** The one call of key k in progress stores the first order of k. */
  lemma StoreKeepsSerial(s: State, c: nat, k: string)
    requires k != "" && Inv(s) && SerialInv(s, k)
    requires c in s.calls && Storing(s.calls[c]) && s.calls[c].req.key == k
    ensures SerialInv(StoreStep(s, c), k) && k !in s.book.idem
  {
    var t := StoreStep(s, c);
    assert OnlyReads(s, k, c);
    assert InProgress(s, k, c);
    forall d ensures OnlyReads(t, k, d) && !InProgress(t, k, d) {
      assert OnlyReads(s, k, d);
      assert InProgress(s, k, d) ==> d == c;
    }
  }

  lemma ChargedOnlyReads(users: map<string, User>, s: State, t: State, c: nat, k: string)
    requires SerialInv(s, k) && ChargedTo(users, s, t, c)
    ensures OnlyReads(t, k, c) && (InProgress(t, k, c) ==> InProgress(s, k, c))
  {
    assert OnlyReads(s, k, c);
  }

  lemma MovedOnlyReads(s: State, t: State, c: nat, k: string)
    requires SerialInv(s, k) && Moved(s, t, c)
    ensures OnlyReads(t, k, c) && (InProgress(t, k, c) ==> InProgress(s, k, c))
  {
    assert OnlyReads(s, k, c);
  }

  lemma StepOnlyReads(users: map<string, User>, s: State, t: State, e: Event, k: string)
    requires k != "" && SerialInv(s, k) && Shape(users, s, t, e) && t != s
    requires StoredBy(s, t, e.c) ==> s.calls[e.c].req.key != k
    requires e.Begin? && e.c !in s.calls && e.req.key == k ==> Idle(s, k)
    ensures OnlyReads(t, k, e.c)
    ensures InProgress(t, k, e.c) ==> InProgress(s, k, e.c) || Idle(s, k)
  {
    if Landed(users, s, t, e) { assert OnlyReads(s, k, e.c); }
    else if Moved(s, t, e.c) { MovedOnlyReads(s, t, e.c, k); }
    else if ChargedTo(users, s, t, e.c) { ChargedOnlyReads(users, s, t, e.c, k); }
  }

  lemma ShapeKeepsSerial(users: map<string, User>, s: State, t: State, e: Event, k: string)
    requires k != "" && Inv(s) && SerialInv(s, k) && Shape(users, s, t, e)
    requires e.Begin? && e.c !in s.calls && e.req.key == k ==> Idle(s, k)
    ensures SerialInv(t, k)
    ensures k in s.book.idem ==> k in t.book.idem && t.book.idem[k] == s.book.idem[k]
  {
    ShapeKeepsOrders(users, s, t, e);
    ShapeUpdatesOne(users, s, t, e);
    if StoredBy(s, t, e.c) && s.calls[e.c].req.key == k {
      StoreKeepsSerial(s, e.c, k);
    } else if t != s {
      StepOnlyReads(users, s, t, e, k);
      UpdateKeepsSerial(s, t, e.c, k);
    }
  }

  lemma NoChargeOnceStored(users: map<string, User>, s: State, t: State, e: Event, k: string)
    requires Inv(s) && SerialInv(s, k) && Shape(users, s, t, e) && k in s.book.idem
    requires !LandsFor(users, s, e, k)
    ensures ChargesFor(t, k) == ChargesFor(s, k)
  {
    assert OnlyReads(s, k, e.c);
    ShapeUpdatesOne(users, s, t, e);
  }

  /** The step executes a request adrift of key k, and its amount is approved. */
  predicate LandsFor(users: map<string, User>, s: State, e: Event, k: string) {
    && e.Land? && e.c in s.calls && e.i < |s.adrift| && s.adrift[e.i].owner == e.c && s.adrift[e.i].key == k
    && Validate(users, s.spent, s.adrift[e.i].user, s.adrift[e.i].amount).reply.Approved?
  }

  lemma LandingCharges(users: map<string, User>, s: State, e: Event, k: string)
    requires Inv(s) && LandsFor(users, s, e, k)
    ensures ChargesFor(Step(users, s, e), k) == ChargesFor(s, k) + {|s.charges|}
  {
  }

  /** Once the order of a key is stored, the only steps of a serial run that charge the key are
      those that execute a request adrift and find the credit for it. */
  lemma ChargesIffLands(users: map<string, User>, s: State, e: Event, k: string)
    requires Inv(s) && SerialInv(s, k) && k in s.book.idem
    ensures ChargesFor(Step(users, s, e), k) != ChargesFor(s, k) <==> LandsFor(users, s, e, k)
  {
    StepShape(users, s, e);
    if LandsFor(users, s, e, k) { LandingCharges(users, s, e, k); }
    else { NoChargeOnceStored(users, s, Step(users, s, e), e, k); }
  }

  /** The requests adrift of key k that could find credit: those of an active user. */
  function Chargeable(users: map<string, User>, adrift: seq<Errand>, k: string): nat {
    Sum(adrift, CanChargeFor(users, k))
  }

  predicate CanCharge(users: map<string, User>, a: Errand, k: string) {
    a.key == k && a.user in users && users[a.user].active
  }

  function CanChargeFor(users: map<string, User>, k: string): Errand -> nat {
    (a: Errand) => if CanCharge(users, a, k) then 1 else 0
  }

  lemma {:induction false} SomeChargeable(users: map<string, User>, adrift: seq<Errand>, k: string) returns (i: nat)
    requires Chargeable(users, adrift, k) > 0
    ensures i < |adrift| && CanCharge(users, adrift[i], k)
  {
    var n := |adrift| - 1;
    if CanCharge(users, adrift[n], k) { return n; }
    i := SomeChargeable(users, adrift[..n], k);
  }

  /** Once the order is stored no request of the key is sent any more. */
  lemma NoneSentOnceStored(users: map<string, User>, s: State, t: State, e: Event, k: string)
    requires SerialInv(s, k) && k in s.book.idem && Shape(users, s, t, e) && !Landed(users, s, t, e)
    ensures Chargeable(users, t.adrift, k) == Chargeable(users, s.adrift, k)
  {
    if t.adrift != s.adrift {
      assert OnlyReads(s, k, e.c);
      SumAppend(s.adrift, Sent(s, e.c), CanChargeFor(users, k));
    }
  }

  /** A serial step after the order is stored: every charge uses up a request adrift. */
  lemma StepUsesUpAdrift(users: map<string, User>, s: State, e: Event, k: string)
    requires Inv(s) && SerialInv(s, k) && k in s.book.idem
    ensures var t := Step(users, s, e);
            && ChargesFor(s, k) <= ChargesFor(t, k)
            && |ChargesFor(t, k)| + Chargeable(users, t.adrift, k) <= |ChargesFor(s, k)| + Chargeable(users, s.adrift, k)
  {
    var t := Step(users, s, e);
    StepShape(users, s, e);
    if Landed(users, s, t, e) { SumWithout(s.adrift, e.i, CanChargeFor(users, k)); }
    else { NoneSentOnceStored(users, s, t, e, k); }
    if LandsFor(users, s, e, k) { LandingCharges(users, s, e, k); }
    else { NoChargeOnceStored(users, s, t, e, k); }
  }

  /** Along a serial run of key k the invariant holds, the key keeps leading to the order it
      first led to, and from then on every charge uses up one of the requests adrift. */
  lemma {:induction false} SerialRun(users: map<string, User>, s: State, es: seq<Event>, k: string)
    requires k != "" && Inv(s) && SerialInv(s, k) && Serial(users, s, es, k)
    ensures SerialInv(Exec(users, s, es), k)
    ensures k in s.book.idem ==>
              var t := Exec(users, s, es);
              && k in t.book.idem && t.book.idem[k] == s.book.idem[k]
              && ChargesFor(s, k) <= ChargesFor(t, k)
              && |ChargesFor(t, k)| + Chargeable(users, t.adrift, k)
                 <= |ChargesFor(s, k)| + Chargeable(users, s.adrift, k)
    decreases |es|
  {
    if es != [] {
      var t := Step(users, s, es[0]);
      StepShape(users, s, es[0]);
      StepKeepsInv(users, s, es[0]);
      ShapeKeepsSerial(users, s, t, es[0], k);
      if k in s.book.idem { StepUsesUpAdrift(users, s, es[0], k); }
      SerialRun(users, t, es[1..], k);
    }
  }

  /** Calls with one key that do not overlap store at most one order between them, and every
      one that replies with an order replies with that one. */
  lemma SerialCallsShareOneOrder(users: map<string, User>, es: seq<Event>, k: string, c: nat, i: nat, j: nat)
    requires k != "" && Serial(users, START, es, k)
    ensures var s := Exec(users, START, es);
            && (i in OrdersFor(s, k) && j in OrdersFor(s, k) ==> i == j)
            && (c in s.calls && s.calls[c].req.key == k && s.calls[c].phase.Finished?
                && s.calls[c].phase.res.Replied? ==>
                  && k in s.book.idem && s.book.idem[k] in s.book.orders
                  && s.calls[c].phase.res.order == s.book.orders[s.book.idem[k]])
  {
    StartInv();
    forall d ensures OnlyReads(START, k, d) {}
    SerialRun(users, START, es, k);
    ExecKeepsInv(users, START, es);
    var s := Exec(users, START, es);
    assert OnlyReads(s, k, c);
    if i in OrdersFor(s, k) && j in OrdersFor(s, k) {
      assert EntryOwned(s.persisted, s.calls, i) && EntryOwned(s.persisted, s.calls, j);
      assert OnlyReads(s, k, s.persisted[i].owner) && OnlyReads(s, k, s.persisted[j].owner);
      assert EntryFiled(s.book, s.persisted, i) && EntryFiled(s.book, s.persisted, j);
      OrderIdInjective(i + 1, j + 1);
    }
  }

  /** So a replay after non-overlapping calls tells the caller what the storing call was told if
      and only if the order was not rejected. */
  lemma SerialReplayKeepsCodeIffNotRejected(users: map<string, User>, es: seq<Event>, k: string,
                                            storing: nat, replaying: nat)
    requires k != "" && Serial(users, START, es, k)
    requires var s := Exec(users, START, es);
             && storing in s.calls && s.calls[storing].req.key == k && RepliedItself(s.calls[storing])
             && replaying in s.calls && s.calls[replaying].req.key == k && !s.calls[replaying].passed
             && s.calls[replaying].phase.Finished? && s.calls[replaying].phase.res.Replied?
    ensures var s := Exec(users, START, es);
            && s.calls[replaying].phase.res.order == s.calls[storing].phase.res.order
            && (s.calls[replaying].phase.res.code == s.calls[storing].phase.res.code
                <==> !s.calls[storing].phase.res.order.status.Rejected?)
  {
    SerialCallsShareOneOrder(users, es, k, storing, 0, 0);
    SerialCallsShareOneOrder(users, es, k, replaying, 0, 0);
    ReplayKeepsCodeIffNotRejected(users, es, storing, replaying);
  }

  /** Once the order of a key is stored the key leads to it for ever, and later non-overlapping
      calls with that key are charged no more often than requests of that key were adrift then;
      not at all if none was. */
  lemma NoSecondCharge(users: map<string, User>, es: seq<Event>, later: seq<Event>, k: string)
    requires k != "" && Serial(users, START, es, k)
    requires Serial(users, Exec(users, START, es), later, k)
    requires k in Exec(users, START, es).book.idem
    ensures var s := Exec(users, START, es);
            var t := Exec(users, s, later);
            && |ChargesFor(t, k)| <= |ChargesFor(s, k)| + Chargeable(users, s.adrift, k)
            && (Chargeable(users, s.adrift, k) == 0 ==> ChargesFor(t, k) == ChargesFor(s, k))
            && k in t.book.idem && t.book.idem[k] == s.book.idem[k]
            && s.book.idem[k] in t.book.orders
            && s.book.idem[k] in s.book.orders
            && t.book.orders[s.book.idem[k]] == s.book.orders[s.book.idem[k]]
  {
    var s := SerialStart(users, es, k);
    SerialRun(users, s, later, k);
    var t := Exec(users, s, later);
    if Chargeable(users, s.adrift, k) == 0 { SameSize(ChargesFor(s, k), ChargesFor(t, k)); }
    var i :| KeyLeadsTo(s.book, s.persisted, k, i);
    assert EntryFiled(s.book, s.persisted, i);
    OrdersNeverChange(users, s, later, s.book.idem[k]);
  }

  lemma SameSize(a: set<nat>, b: set<nat>)
    requires a <= b && |b| <= |a|
    ensures a == b
  {
    assert b == a + (b - a);
  }

  lemma SerialStart(users: map<string, User>, es: seq<Event>, k: string) returns (s: State)
    requires k != "" && Serial(users, START, es, k)
    ensures s == Exec(users, START, es) && Inv(s) && SerialInv(s, k)
  {
    StartInv();
    forall d ensures OnlyReads(START, k, d) {}
    SerialRun(users, START, es, k);
    ExecKeepsInv(users, START, es);
    s := Exec(users, START, es);
  }
}
