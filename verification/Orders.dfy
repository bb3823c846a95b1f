/** The order service over the user service: idempotency keys, credit charges whose answers
    can be lost or overtaken, retries, degraded mode. Each CreateOrder is cut at its lock boundaries, and a
    run is any interleaving of the pieces of any number of calls. Whether the circuit breaker
    lets a call through is left to the environment, which covers every breaker. */
module Orders {
  import opened Common
  import opened Credit
  import opened Retry

  datatype Status = Confirmed | Pending | Rejected
  datatype Order = Order(id: string, user: string, lines: seq<Line>, total: int, status: Status)
  datatype Request = Request(user: string, key: string, lines: seq<Line>)

  // ---- Order identifiers --------------------------------------------------------------

  function Decimal(n: nat): (s: string)
    ensures |s| >= 1
  {
    if n < 10 then [Digit(n)] else Decimal(n / 10) + [Digit(n % 10)]
  }

  function Digit(d: nat): char
    requires d < 10
  {
    "0123456789"[d]
  }

  function OrderId(n: nat): string { "o" + Decimal(n) }

  lemma {:induction false} DecimalInjective(a: nat, b: nat)
    requires Decimal(a) == Decimal(b)
    ensures a == b
  {
    var s, t := Decimal(a), Decimal(b);
    assert s[|s| - 1] == Digit(a % 10) && t[|t| - 1] == Digit(b % 10);
    if a >= 10 && b >= 10 {
      assert s[..|s| - 1] == Decimal(a / 10) && t[..|t| - 1] == Decimal(b / 10);
      DecimalInjective(a / 10, b / 10);
    }
  }

  lemma OrderIdInjective(a: nat, b: nat)
    ensures OrderId(a) == OrderId(b) <==> a == b
  {
    if OrderId(a) == OrderId(b) {
      assert OrderId(a)[1..] == Decimal(a) && OrderId(b)[1..] == Decimal(b);
      DecimalInjective(a, b);
    }
  }

  // ---- The order book -----------------------------------------------------------------

  datatype Book = Book(orders: map<string, Order>, idem: map<string, string>, count: nat)

  function NewOrder(b: Book, req: Request, total: int, st: Status): Order {
    Order(OrderId(b.count + 1), req.user, req.lines, total, st)
  }

  /** persist, under the write lock. */
  function Persist(b: Book, req: Request, total: int, st: Status): Book {
    var o := NewOrder(b, req, total, st);
    Book(b.orders[o.id := o], if req.key != "" then b.idem[req.key := o.id] else b.idem, b.count + 1)
  }

  /** Reads a numeral. */
  function Numeral(s: string): nat {
    if s == [] then 0
    else
      var c := s[|s| - 1];
      10 * Numeral(s[..|s| - 1]) + if '0' <= c <= '9' then c as int - '0' as int else 0
  }

  /** Order ids are "o" and the number in decimal, without leading zeros. */
  lemma {:induction false} DecimalReadsBack(n: nat)
    ensures Numeral(Decimal(n)) == n
    ensures forall i :: 0 <= i < |Decimal(n)| ==> '0' <= Decimal(n)[i] <= '9'
    ensures n > 0 ==> Decimal(n)[0] != '0'
    ensures OrderId(n)[0] == 'o' && OrderId(n)[1..] == Decimal(n)
  {
    if n < 10 {
      assert Decimal(n)[..0] == [];
    } else {
      DecimalReadsBack(n / 10);
      var s := Decimal(n);
      assert s[..|s| - 1] == Decimal(n / 10);
    }
  }

  class OrderBook {
    var orders: map<string, Order>
    var idem: map<string, string>
    var count: nat

    constructor ()
      ensures View() == Book(map[], map[], 0)
    {
      orders, idem, count := map[], map[], 0;
    }

    ghost function View(): Book
      reads this
    {
      Book(orders, idem, count)
    }

    method PersistOrder(req: Request, total: int, st: Status) returns (o: Order)
      modifies this
      ensures View() == Persist(old(View()), req, total, st)
      ensures o == NewOrder(old(View()), req, total, st) && OrderId(count) in orders && orders[OrderId(count)] == o
    {
      count := count + 1;
      o := Order(OrderId(count), req.user, req.lines, total, st);
      orders := orders[o.id := o];
      if req.key != "" { idem := idem[req.key := o.id]; }
    }

    /** The first critical section: has this key been seen? */
    method Lookup(key: string) returns (id: Option<string>)
      ensures id.Some? <==> key != "" && key in idem
      ensures id.Some? ==> id.value == idem[key]
    {
      if key != "" && key in idem { return Some(idem[key]); }
      return None;
    }
  }

  // ---- The protocol -------------------------------------------------------------------

  const MAX_ATTEMPTS := 3
  const SMALL_ORDER := 10_000

  /** `Refused(code)` leaves no order behind; a rejected order is stored and replied with a code. */
  datatype Response = Replied(order: Order, code: Code) | Refused(code: Code)

  datatype Phase =
    | Replaying(id: string)     // the key was found, the order not yet read
    | Pricing                   // past the lookup
    | Calling(n: nat)
    | Waiting(n: nat)
    | Failed(err: Error)        // the resilience stack gave up
    | Holding(slot: nat)        // approved: the charge in `slot` waits for its order
    | Declining
    | Degrading
    | Finished(res: Response)

  datatype Call = Call(req: Request, total: int, phase: Phase, passed: bool)

  /** What became of an approved charge. */
  datatype Fate = Held | Settled | Lost
  datatype Charge = Charge(user: string, amount: int, key: string, owner: nat, fate: Fate)

  /** A stored order with the call that stored it and that call's key. */
  datatype Entry = Entry(order: Order, key: string, owner: nat)

  /** A request the user service has yet to execute though its caller no longer waits for it. */
  datatype Errand = Errand(user: string, amount: int, key: string, owner: nat)

  /** `persisted` and `charges` are the histories of stored orders and approved charges,
      `adrift` the requests nobody waits for that may still be executed. */
  datatype State = State(spent: map<string, int>, book: Book, persisted: seq<Entry>,
                         charges: seq<Charge>, calls: map<nat, Call>, adrift: seq<Errand>)

  const START := State(map[], Book(map[], map[], 0), [], [], map[], [])

  /** One attempt: never executed, executed with the response lost, given up by its caller
      while still on its way, or answered. */
  datatype Reach = Down(err: Error) | ResponseLost(err: Error) | Adrift(err: Error) | Delivered

  datatype Event =
    | Begin(c: nat, req: Request)
    | Replay(c: nat)
    | Price(c: nat, admitted: bool)
    | Rpc(c: nat, reach: Reach)
    | Wake(c: nat, ended: Option<Error>)
    | Resolve(c: nat)
    | Store(c: nat)
    | Land(c: nat, i: nat)   // the user service executes a request of call c that was adrift

  function SetPhase(s: State, c: nat, ph: Phase): State
    requires c in s.calls
  {
    s.(calls := s.calls[c := s.calls[c].(phase := ph)])
  }

  function Step(users: map<string, User>, s: State, e: Event): State {
    if e.Begin? then (if e.c in s.calls then s else BeginStep(s, e.c, e.req))
    else if e.c !in s.calls then s
    else
      var call := s.calls[e.c];
      match e
      case Replay(c) =>
        if call.phase.Replaying? && call.phase.id in s.book.orders
        then SetPhase(s, c, Finished(Replied(s.book.orders[call.phase.id], OK))) else s
      case Price(c, admitted) => if call.phase.Pricing? then PriceStep(s, c, admitted) else s
      case Rpc(c, reach) => if call.phase.Calling? then RpcStep(users, s, c, reach) else s
      case Wake(c, ended) =>
        if call.phase.Waiting? then
          SetPhase(s, c, if ended.Some? then Failed(Interrupted(ended.value)) else Calling(call.phase.n + 1))
        else s
      case Resolve(c) =>
        if call.phase.Failed? then SetPhase(s, c, Degrade(call.phase.err, call.total)) else s
      case Store(c) =>
        if call.phase.Holding? || call.phase.Declining? || call.phase.Degrading?
        then StoreStep(s, c) else s
      case Land(c, i) =>
        if i < |s.adrift| && s.adrift[i].owner == c then LandStep(users, s, i) else s
      case Begin(_, _) => s
  }

  function BeginStep(s: State, c: nat, req: Request): State {
    var ph := if req.user == "" || req.lines == [] then Finished(Refused(InvalidArgument))
              else if req.key != "" && req.key in s.book.idem then Replaying(s.book.idem[req.key])
              else Pricing;
    s.(calls := s.calls[c := Call(req, 0, ph, ph.Pricing?)])
  }

  function PriceStep(s: State, c: nat, admitted: bool): State
    requires c in s.calls
  {
    match TotalCents(s.calls[c].req.lines)
    case None => SetPhase(s, c, Finished(Refused(InvalidArgument)))
    case Some(t) =>
      var ph := if admitted then Calling(1) else Failed(CircuitOpen);
      s.(calls := s.calls[c := s.calls[c].(total := t, phase := ph)])
  }

  function AfterError(n: nat, err: Error): Phase {
    if !Retryable(err) then Failed(err)
    else if n == MAX_ATTEMPTS then Failed(Exhausted(Some(err)))
    else Waiting(n)
  }

  function RpcStep(users: map<string, User>, s: State, c: nat, reach: Reach): State
    requires c in s.calls && s.calls[c].phase.Calling?
  {
    var n := s.calls[c].phase.n;
    if reach.Down? then SetPhase(s, c, AfterError(n, reach.err))
    else if reach.Adrift? then
      SetPhase(s.(adrift := s.adrift + [Sent(s, c)]), c, AfterError(n, reach.err))
    else
      var r := Validate(users, s.spent, s.calls[c].req.user, s.calls[c].total);
      var s1 := s.(spent := r.spent);
      var charge := Billed(Sent(s, c), if reach.Delivered? then Held else Lost);
      match r.reply
      case NoUser => SetPhase(s1, c, AfterError(n, if reach.Delivered? then Status(NotFound) else reach.err))
      case Inactive => SetPhase(s1, c, AfterError(n, if reach.Delivered? then Status(FailedPrecondition) else reach.err))
      case Declined(_) => SetPhase(s1, c, if reach.Delivered? then Declining else AfterError(n, reach.err))
      case Approved(_) =>
        var s2 := s1.(charges := s.charges + [charge]);
        SetPhase(s2, c, if reach.Delivered? then Holding(|s.charges|) else AfterError(n, reach.err))
  }

  function Sent(s: State, c: nat): Errand
    requires c in s.calls
  {
    Errand(s.calls[c].req.user, s.calls[c].total, s.calls[c].req.key, c)
  }

  /** The charge for a request that was executed and approved. */
  function Billed(a: Errand, fate: Fate): Charge { Charge(a.user, a.amount, a.key, a.owner, fate) }

  function Without(xs: seq<Errand>, i: nat): seq<Errand>
    requires i < |xs|
  {
    xs[..i] + xs[i + 1..]
  }

  /** The handler looks at its context only before it takes the lock, so a caller that has
      given up, and may have long replied, is charged all the same. */
  function LandStep(users: map<string, User>, s: State, i: nat): State
    requires i < |s.adrift|
  {
    var a := s.adrift[i];
    var r := Validate(users, s.spent, a.user, a.amount);
    s.(spent := r.spent, adrift := Without(s.adrift, i),
       charges := if r.reply.Approved? then s.charges + [Billed(a, Lost)] else s.charges)
  }

  /** The business decision when credit could not be checked. */
  function Degrade(err: Error, total: int): Phase {
    if IsCircuitOpen(err) || CodeOf(err) == Unavailable then
      if total <= SMALL_ORDER then Degrading else Finished(Refused(Unavailable))
    else if CodeOf(err) in {NotFound, FailedPrecondition, InvalidArgument, PermissionDenied,
                            DeadlineExceeded, Canceled}
    then Finished(Refused(CodeOf(err)))
    else Finished(Refused(Internal))
  }

  function StatusFor(ph: Phase): Status {
    if ph.Holding? then Confirmed else if ph.Declining? then Rejected else Pending
  }

  function StoreStep(s: State, c: nat): State
    requires c in s.calls
  {
    var call := s.calls[c];
    var st := StatusFor(call.phase);
    var o := NewOrder(s.book, call.req, call.total, st);
    s.(book := Persist(s.book, call.req, call.total, st),
       persisted := s.persisted + [Entry(o, call.req.key, c)],
       charges := if call.phase.Holding? && call.phase.slot < |s.charges|
                  then s.charges[call.phase.slot := s.charges[call.phase.slot].(fate := Settled)]
                  else s.charges,
       calls := s.calls[c := call.(phase := Finished(Replied(o, if st.Rejected? then FailedPrecondition else OK)))])
  }

  function Exec(users: map<string, User>, s: State, es: seq<Event>): State
    decreases |es|
  {
    if es == [] then s else Exec(users, Step(users, s, es[0]), es[1..])
  }

  lemma {:induction false} ExecSnoc(users: map<string, User>, s: State, es: seq<Event>, e: Event)
    ensures Exec(users, s, es + [e]) == Step(users, Exec(users, s, es), e)
    decreases |es|
  {
    if es == [] {
      assert es + [e] == [e] && [e][1..] == [];
    } else {
      assert (es + [e])[1..] == es[1..] + [e];
      ExecSnoc(users, Step(users, s, es[0]), es[1..], e);
    }
  }

  // ---- The shapes a step can have ------------------------------------------------

  predicate Storing(call: Call) { call.phase.Holding? || call.phase.Declining? || call.phase.Degrading? }

  /** Call c changes phase; at most a request of its is left adrift. */
  predicate Moved(s: State, t: State, c: nat) {
    && c in s.calls && !s.calls[c].phase.Finished? && !s.calls[c].phase.Holding?
    && c in t.calls && t == s.(calls := s.calls[c := t.calls[c]], adrift := t.adrift)
    && (t.adrift == s.adrift || (s.calls[c].phase.Calling? && t.adrift == s.adrift + [Sent(s, c)]))
    && t.calls[c].req == s.calls[c].req && t.calls[c].passed == s.calls[c].passed
    && !t.calls[c].phase.Holding? && !t.calls[c].phase.Replaying?
    && (if s.calls[c].phase.Replaying? then
          && s.calls[c].phase.id in s.book.orders
          && t.calls[c].phase == Finished(Replied(s.book.orders[s.calls[c].phase.id], OK))
        else t.calls[c].phase.Finished? ==> t.calls[c].phase.res.Refused?)
    && (t.calls[c].total == s.calls[c].total || TotalCents(s.calls[c].req.lines) == Some(t.calls[c].total))
  }

  /** The user service approved call c: its ledger and one more charge, held or lost. */
  predicate ChargedTo(users: map<string, User>, s: State, t: State, c: nat) {
    && c in s.calls && s.calls[c].phase.Calling?
    && c in t.calls && |t.charges| == |s.charges| + 1
    && var charge := t.charges[|s.charges|];
    && var r := Validate(users, s.spent, charge.user, charge.amount);
    && charge == Billed(Sent(s, c), charge.fate)
    && r.reply.Approved?
    && t == s.(spent := r.spent, charges := s.charges + [charge], calls := s.calls[c := t.calls[c]])
    && t.calls[c] == s.calls[c].(phase := t.calls[c].phase)
    && (if charge.fate.Held? then t.calls[c].phase == Holding(|s.charges|)
        else charge.fate.Lost? && (t.calls[c].phase.Waiting? || t.calls[c].phase.Failed?))
  }

  /** The user service executed a request of call c that was adrift. */
  predicate Landed(users: map<string, User>, s: State, t: State, e: Event) {
    e.Land? && e.c in s.calls && e.i < |s.adrift| && s.adrift[e.i].owner == e.c && t == LandStep(users, s, e.i)
  }

  predicate StoredBy(s: State, t: State, c: nat) {
    c in s.calls && Storing(s.calls[c]) && t == StoreStep(s, c)
  }

  predicate Begun(s: State, t: State, c: nat, req: Request) {
    c !in s.calls && t == BeginStep(s, c, req)
  }

  predicate Shape(users: map<string, User>, s: State, t: State, e: Event) {
    || t == s
    || (e.Begin? && Begun(s, t, e.c, e.req))
    || Moved(s, t, e.c)
    || ChargedTo(users, s, t, e.c)
    || StoredBy(s, t, e.c)
    || Landed(users, s, t, e)
  }

  lemma RpcShape(users: map<string, User>, s: State, c: nat, reach: Reach)
    requires c in s.calls && s.calls[c].phase.Calling?
    ensures var t := RpcStep(users, s, c, reach); Moved(s, t, c) || ChargedTo(users, s, t, c)
  {
    var t := RpcStep(users, s, c, reach);
    if reach.Adrift? { assert Moved(s, t, c); }
    else if t.charges != s.charges { assert ChargedTo(users, s, t, c); }
    else { assert t.spent == s.spent; assert Moved(s, t, c); }
  }

  lemma StepShape(users: map<string, User>, s: State, e: Event)
    ensures Shape(users, s, Step(users, s, e), e)
  {
    if e.Rpc? && e.c in s.calls && s.calls[e.c].phase.Calling? { RpcShape(users, s, e.c, e.reach); }
  }

  /** Whatever the step, at most one call changes; it keeps its request, and a new one that
      passed the lookup did not find its key. */
  predicate UpdatesOne(s: State, t: State, c: nat) {
    t == s ||
    (c in t.calls && t.calls == s.calls[c := t.calls[c]] &&
     if c in s.calls then
       && t.calls[c].req == s.calls[c].req && t.calls[c].passed == s.calls[c].passed
       && (t.calls[c].total == s.calls[c].total || TotalCents(s.calls[c].req.lines) == Some(t.calls[c].total))
     else
       && t.calls[c].total == 0
       && (t.calls[c].passed ==> t.calls[c].req.key == "" || t.calls[c].req.key !in s.book.idem))
  }

  lemma ShapeUpdatesOne(users: map<string, User>, s: State, t: State, e: Event)
    requires Shape(users, s, t, e)
    ensures UpdatesOne(s, t, e.c)
    ensures e.c !in s.calls && t != s ==> e.Begin? && e.c in t.calls && t.calls[e.c].req == e.req
  {
  }

  // ---- Sums over the histories --------------------------------------------------------

  function Charges(cs: seq<Charge>, u: string, f: Fate): int {
    if cs == [] then 0
    else
      var c := cs[|cs| - 1];
      Charges(cs[..|cs| - 1], u, f) + if c.user == u && c.fate == f then c.amount else 0
  }

  function ConfirmedTotals(es: seq<Entry>, u: string): int {
    if es == [] then 0
    else
      var o := es[|es| - 1].order;
      ConfirmedTotals(es[..|es| - 1], u) + if o.user == u && o.status.Confirmed? then o.total else 0
  }

  lemma {:induction false} ChargesSettle(cs: seq<Charge>, i: nat, u: string, f: Fate)
    requires i < |cs|
    ensures Charges(cs[i := cs[i].(fate := Settled)], u, f) ==
            Charges(cs, u, f)
            - (if cs[i].user == u && cs[i].fate == f then cs[i].amount else 0)
            + (if cs[i].user == u && f.Settled? then cs[i].amount else 0)
  {
    var after := cs[i := cs[i].(fate := Settled)];
    var n := |cs| - 1;
    if i == n {
      assert after[..n] == cs[..n];
    } else {
      assert after[..n] == cs[..n][i := cs[i].(fate := Settled)];
      ChargesSettle(cs[..n], i, u, f);
    }
  }

  // ---- Invariants ---------------------------------------------------------------------

  predicate EntryFiled(book: Book, persisted: seq<Entry>, i: int)
    requires 0 <= i < |persisted|
  {
    var e := persisted[i];
    && e.order.id == OrderId(i + 1)
    && e.order.id in book.orders && book.orders[e.order.id] == e.order
    && (e.key != "" ==> e.key in book.idem)
  }

  predicate StoredAs(persisted: seq<Entry>, id: string, i: int) {
    0 <= i < |persisted| && persisted[i].order.id == id
  }

  predicate KeyLeadsTo(book: Book, persisted: seq<Entry>, k: string, i: int) {
    0 <= i < |persisted| && persisted[i].key == k && k in book.idem && persisted[i].order.id == book.idem[k]
  }

  /** The book is the history, each order under its own number; a key leads to an order stored for it. */
  ghost predicate BookInv(book: Book, persisted: seq<Entry>) {
    && book.count == |persisted|
    && (forall i :: 0 <= i < |persisted| ==> EntryFiled(book, persisted, i))
    && (forall id :: id in book.orders ==> exists i :: StoredAs(persisted, id, i))
    && (forall k :: k in book.idem ==> k != "" && exists i :: KeyLeadsTo(book, persisted, k, i))
  }

  predicate EntryOwned(persisted: seq<Entry>, calls: map<nat, Call>, i: int)
    requires 0 <= i < |persisted|
  {
    var e := persisted[i];
    && e.owner in calls && calls[e.owner].passed && calls[e.owner].req.key == e.key
    && calls[e.owner].phase.Finished? && calls[e.owner].phase.res.Replied?
    && calls[e.owner].phase.res.order == e.order
  }

  predicate ChargeOwned(charges: seq<Charge>, calls: map<nat, Call>, i: int)
    requires 0 <= i < |charges|
  {
    var c := charges[i].owner;
    && c in calls && calls[c].passed && calls[c].req.key == charges[i].key
    && (charges[i].fate.Held? ==> calls[c].phase == Holding(i))
  }

  predicate CallSound(charges: seq<Charge>, calls: map<nat, Call>, c: nat)
    requires c in calls
  {
    var call := calls[c];
    && (call.phase.Holding? ==>
          && call.phase.slot < |charges|
          && charges[call.phase.slot] == Charge(call.req.user, call.total, call.req.key, c, Held))
    && (call.passed ==> !call.phase.Replaying? && call.req.user != "")
    && InInt64(call.total)
    && (!call.passed ==> call.phase.Replaying? || call.phase.Finished?)
  }

  /** Who did what: a stored order belongs to one finished call, a held charge to one call that
      is about to store its order. */
  ghost predicate CallsInv(persisted: seq<Entry>, charges: seq<Charge>, calls: map<nat, Call>) {
    && (forall i :: 0 <= i < |persisted| ==> EntryOwned(persisted, calls, i))
    && (forall i :: 0 <= i < |charges| ==> ChargeOwned(charges, calls, i))
    && (forall c :: c in calls ==> CallSound(charges, calls, c))
  }

  predicate ErrandOwned(adrift: seq<Errand>, calls: map<nat, Call>, i: int)
    requires 0 <= i < |adrift|
  {
    var a := adrift[i];
    && InInt64(a.amount) && a.user != ""
    && a.owner in calls && calls[a.owner].passed && calls[a.owner].req.key == a.key
  }

  ghost predicate AdriftInv(adrift: seq<Errand>, calls: map<nat, Call>) {
    forall i :: 0 <= i < |adrift| ==> ErrandOwned(adrift, calls, i)
  }

  function AllCharges(charges: seq<Charge>, u: string): int {
    Charges(charges, u, Held) + Charges(charges, u, Settled) + Charges(charges, u, Lost)
  }

  predicate Balanced(spent: map<string, int>, persisted: seq<Entry>, charges: seq<Charge>, u: string) {
    && SpentBy(spent, u) == Wrap64(AllCharges(charges, u))
    && Charges(charges, u, Settled) == ConfirmedTotals(persisted, u)
  }

  /** The ledger is exactly the approved charges, modulo 2^64; the settled ones are the
      confirmed orders. */
  ghost predicate MoneyInv(spent: map<string, int>, persisted: seq<Entry>, charges: seq<Charge>) {
    forall u :: Balanced(spent, persisted, charges, u)
  }

  ghost predicate Inv(s: State) {
    && BookInv(s.book, s.persisted)
    && CallsInv(s.persisted, s.charges, s.calls)
    && MoneyInv(s.spent, s.persisted, s.charges)
    && AdriftInv(s.adrift, s.calls)
  }

  lemma PersistKeepsBook(b: Book, persisted: seq<Entry>, req: Request, total: int, st: Status, c: nat)
    requires BookInv(b, persisted)
    ensures BookInv(Persist(b, req, total, st), persisted + [Entry(NewOrder(b, req, total, st), req.key, c)])
    ensures NewOrder(b, req, total, st).id !in b.orders
  {
    var n := |persisted|;
    var o := NewOrder(b, req, total, st);
    var after := persisted + [Entry(o, req.key, c)];
    var b' := Persist(b, req, total, st);
    if o.id in b.orders {
      var i :| StoredAs(persisted, o.id, i);
      assert EntryFiled(b, persisted, i);
      OrderIdInjective(i + 1, n + 1);
    }
    forall i | 0 <= i < |after| ensures EntryFiled(b', after, i) {
      assert i < n ==> EntryFiled(b, persisted, i);
    }
    forall id | id in b'.orders ensures exists i :: StoredAs(after, id, i) {
      if id == o.id {
        assert StoredAs(after, id, n);
      } else {
        var i :| StoredAs(persisted, id, i);
        assert StoredAs(after, id, i);
      }
    }
    forall k | k in b'.idem ensures k != "" && exists i :: KeyLeadsTo(b', after, k, i) {
      if k == req.key {
        assert KeyLeadsTo(b', after, k, n);
      } else {
        var i :| KeyLeadsTo(b, persisted, k, i);
        assert KeyLeadsTo(b', after, k, i);
      }
    }
  }

  /** A call may move between phases that hold nothing. */
  lemma MoveKeepsCalls(persisted: seq<Entry>, charges: seq<Charge>, calls: map<nat, Call>, c: nat, call: Call)
    requires CallsInv(persisted, charges, calls)
    requires c in calls ==>
               && !calls[c].phase.Finished? && !calls[c].phase.Holding?
               && call.passed == calls[c].passed && call.req == calls[c].req
    requires InInt64(call.total) && (call.passed ==> call.req.user != "")
    requires !call.phase.Holding? && (if call.passed then !call.phase.Replaying?
                                      else call.phase.Replaying? || call.phase.Finished?)
    ensures CallsInv(persisted, charges, calls[c := call])
  {
    var after := calls[c := call];
    forall i | 0 <= i < |persisted| ensures EntryOwned(persisted, after, i) {
      assert EntryOwned(persisted, calls, i);
    }
    forall i | 0 <= i < |charges| ensures ChargeOwned(charges, after, i) {
      assert ChargeOwned(charges, calls, i);
    }
    forall d | d in after ensures CallSound(charges, after, d) {
      assert d != c ==> CallSound(charges, calls, d);
    }
  }

  /** An approved charge is recorded: held by the call that will store the order, or lost. */
  lemma ChargeKeepsCalls(persisted: seq<Entry>, charges: seq<Charge>, calls: map<nat, Call>, c: nat, call: Call,
                         fate: Fate)
    requires CallsInv(persisted, charges, calls) && c in calls && calls[c].phase.Calling?
    requires call.req == calls[c].req && call.total == calls[c].total && call.passed == calls[c].passed
    requires fate.Held? ==> call.phase == Holding(|charges|)
    requires fate.Lost? ==> !call.phase.Holding? && !call.phase.Replaying?
    requires !fate.Settled?
    ensures CallsInv(persisted, charges + [Charge(call.req.user, call.total, call.req.key, c, fate)], calls[c := call])
  {
    var after := calls[c := call];
    var charges' := charges + [Charge(call.req.user, call.total, call.req.key, c, fate)];
    assert CallSound(charges, calls, c);
    forall i | 0 <= i < |persisted| ensures EntryOwned(persisted, after, i) {
      assert EntryOwned(persisted, calls, i);
    }
    forall i | 0 <= i < |charges'| ensures ChargeOwned(charges', after, i) {
      assert i < |charges| ==> ChargeOwned(charges, calls, i);
    }
    forall d | d in after ensures CallSound(charges', after, d) {
      assert d != c ==> CallSound(charges, calls, d);
    }
  }

  /** A charge that comes late is lost from the start. */
  lemma LandKeepsCalls(persisted: seq<Entry>, charges: seq<Charge>, calls: map<nat, Call>, charge: Charge)
    requires CallsInv(persisted, charges, calls)
    requires charge.fate.Lost? && charge.owner in calls && calls[charge.owner].passed
    requires calls[charge.owner].req.key == charge.key
    ensures CallsInv(persisted, charges + [charge], calls)
  {
    var charges' := charges + [charge];
    forall i | 0 <= i < |charges'| ensures ChargeOwned(charges', calls, i) {
      assert i < |charges| ==> ChargeOwned(charges, calls, i);
    }
    forall d | d in calls ensures CallSound(charges', calls, d) { assert CallSound(charges, calls, d); }
  }

  lemma LandedKeepsInv(users: map<string, User>, s: State, t: State, e: Event)
    requires Inv(s) && Landed(users, s, t, e)
    ensures Inv(t)
  {
    var a := s.adrift[e.i];
    assert ErrandOwned(s.adrift, s.calls, e.i);
    forall i | 0 <= i < |t.adrift| ensures ErrandOwned(t.adrift, t.calls, i) {
      assert ErrandOwned(s.adrift, s.calls, if i < e.i then i else i + 1);
    }
    if Validate(users, s.spent, a.user, a.amount).reply.Approved? {
      var charge := Billed(a, Lost);
      LandKeepsCalls(s.persisted, s.charges, s.calls, charge);
      ChargeKeepsMoney(users, s, charge);
    }
  }

  /** The owners of requests adrift stay, with their keys. */
  lemma UpdateKeepsAdrift(s: State, t: State, c: nat)
    requires AdriftInv(s.adrift, s.calls) && UpdatesOne(s, t, c) && t.adrift == s.adrift
    ensures AdriftInv(t.adrift, t.calls)
  {
    forall i | 0 <= i < |t.adrift| ensures ErrandOwned(t.adrift, t.calls, i) {
      assert ErrandOwned(s.adrift, s.calls, i);
    }
  }

  lemma StoreKeepsCalls(s: State, c: nat)
    requires CallsInv(s.persisted, s.charges, s.calls) && c in s.calls && Storing(s.calls[c])
    ensures var t := StoreStep(s, c); CallsInv(t.persisted, t.charges, t.calls)
  {
    var t := StoreStep(s, c);
    assert CallSound(s.charges, s.calls, c);
    forall i | 0 <= i < |t.persisted| ensures EntryOwned(t.persisted, t.calls, i) {
      assert i < |s.persisted| ==> EntryOwned(s.persisted, s.calls, i);
    }
    forall i | 0 <= i < |t.charges| ensures ChargeOwned(t.charges, t.calls, i) {
      assert ChargeOwned(s.charges, s.calls, i);
    }
    forall d | d in t.calls ensures CallSound(t.charges, t.calls, d) {
      assert CallSound(s.charges, s.calls, d);
    }
  }

  lemma ChargeBalances(spent: map<string, int>, spent': map<string, int>, persisted: seq<Entry>,
                       charges: seq<Charge>, charge: Charge, u: string)
    requires Balanced(spent, persisted, charges, u) && !charge.fate.Settled?
    requires SpentBy(spent', u) == if u == charge.user then Wrap64(SpentBy(spent, u) + charge.amount)
                                   else SpentBy(spent, u)
    ensures Balanced(spent', persisted, charges + [charge], u)
  {
    assert AllCharges(charges + [charge], u) ==
           AllCharges(charges, u) + if u == charge.user then charge.amount else 0;
    if u == charge.user { WrapAdd(AllCharges(charges, u), charge.amount); }
  }

  lemma ChargeKeepsMoney(users: map<string, User>, s: State, charge: Charge)
    requires MoneyInv(s.spent, s.persisted, s.charges) && !charge.fate.Settled?
    requires Validate(users, s.spent, charge.user, charge.amount).reply.Approved?
    ensures MoneyInv(Validate(users, s.spent, charge.user, charge.amount).spent, s.persisted, s.charges + [charge])
  {
    var spent' := Validate(users, s.spent, charge.user, charge.amount).spent;
    forall u ensures Balanced(spent', s.persisted, s.charges + [charge], u) {
      assert Balanced(s.spent, s.persisted, s.charges, u);
      ApprovalSpends(users, s.spent, charge.user, charge.amount, u);
      ChargeBalances(s.spent, spent', s.persisted, s.charges, charge, u);
    }
  }

  lemma StoreKeepsMoney(s: State, c: nat)
    requires CallsInv(s.persisted, s.charges, s.calls) && MoneyInv(s.spent, s.persisted, s.charges)
    requires c in s.calls && Storing(s.calls[c])
    ensures var t := StoreStep(s, c); MoneyInv(t.spent, t.persisted, t.charges)
    ensures forall u :: AllCharges(StoreStep(s, c).charges, u) == AllCharges(s.charges, u)
  {
    var t := StoreStep(s, c);
    assert CallSound(s.charges, s.calls, c);
    forall u
      ensures Balanced(t.spent, t.persisted, t.charges, u)
      ensures AllCharges(t.charges, u) == AllCharges(s.charges, u)
    {
      assert Balanced(s.spent, s.persisted, s.charges, u);
      if s.calls[c].phase.Holding? {
        ChargesSettle(s.charges, s.calls[c].phase.slot, u, Held);
        ChargesSettle(s.charges, s.calls[c].phase.slot, u, Settled);
        ChargesSettle(s.charges, s.calls[c].phase.slot, u, Lost);
      }
    }
  }

  lemma StoreKeepsInv(s: State, c: nat)
    requires Inv(s) && c in s.calls && Storing(s.calls[c])
    ensures Inv(StoreStep(s, c))
  {
    PersistKeepsBook(s.book, s.persisted, s.calls[c].req, s.calls[c].total, StatusFor(s.calls[c].phase), c);
    StoreKeepsCalls(s, c);
    StoreKeepsMoney(s, c);
    UpdateKeepsAdrift(s, StoreStep(s, c), c);
  }

  lemma ChargedKeepsInv(users: map<string, User>, s: State, t: State, c: nat)
    requires Inv(s) && ChargedTo(users, s, t, c)
    ensures Inv(t)
  {
    var charge := t.charges[|s.charges|];
    ChargeKeepsCalls(s.persisted, s.charges, s.calls, c, t.calls[c], charge.fate);
    UpdateKeepsAdrift(s, t, c);
    ChargeKeepsMoney(users, s, charge);
  }

  lemma MovedKeepsInv(s: State, t: State, c: nat)
    requires Inv(s) && Moved(s, t, c)
    ensures Inv(t)
  {
    assert CallSound(s.charges, s.calls, c);
    TotalIsExact(s.calls[c].req.lines);
    MoveKeepsCalls(s.persisted, s.charges, s.calls, c, t.calls[c]);
    forall i | 0 <= i < |t.adrift| ensures ErrandOwned(t.adrift, t.calls, i) {
      assert i < |s.adrift| ==> ErrandOwned(s.adrift, s.calls, i);
    }
  }

  lemma BegunKeepsInv(s: State, t: State, c: nat, req: Request)
    requires Inv(s) && Begun(s, t, c, req)
    ensures Inv(t)
  {
    MoveKeepsCalls(s.persisted, s.charges, s.calls, c, t.calls[c]);
    UpdateKeepsAdrift(s, t, c);
  }

  lemma StepKeepsInv(users: map<string, User>, s: State, e: Event)
    requires Inv(s)
    ensures Inv(Step(users, s, e))
  {
    StepShape(users, s, e);
    ShapeKeepsInv(users, s, Step(users, s, e), e);
  }

  lemma ShapeKeepsInv(users: map<string, User>, s: State, t: State, e: Event)
    requires Inv(s)
    requires Shape(users, s, t, e)
    ensures Inv(t)
  {
    if e.Begin? && Begun(s, t, e.c, e.req) { BegunKeepsInv(s, t, e.c, e.req); }
    else if Moved(s, t, e.c) { MovedKeepsInv(s, t, e.c); }
    else if ChargedTo(users, s, t, e.c) { ChargedKeepsInv(users, s, t, e.c); }
    else if StoredBy(s, t, e.c) { StoreKeepsInv(s, e.c); }
    else if Landed(users, s, t, e) { LandedKeepsInv(users, s, t, e); }
  }

  lemma {:induction false} ExecKeepsInv(users: map<string, User>, s: State, es: seq<Event>)
    requires Inv(s)
    ensures Inv(Exec(users, s, es))
    decreases |es|
  {
    if es != [] {
      StepKeepsInv(users, s, es[0]);
      ExecKeepsInv(users, Step(users, s, es[0]), es[1..]);
    }
  }

  lemma StartInv()
    ensures Inv(START)
  {
    forall u ensures Balanced(START.spent, START.persisted, START.charges, u) {}
  }

  // ---- Main results: money ------------------------------------------------------------

  /** Credit is conserved on every run, whatever the amounts: modulo 2^64 a user's spending is
      the confirmed orders, plus approvals about to be stored, plus approvals whose answer was
      lost; and each approval about to be stored is held by exactly one call in progress. */
  lemma CreditIsConserved(users: map<string, User>, es: seq<Event>, u: string)
    ensures var s := Exec(users, START, es);
            SpentBy(s.spent, u) ==
              Wrap64(ConfirmedTotals(s.persisted, u) + Charges(s.charges, u, Held) + Charges(s.charges, u, Lost))
    ensures var s := Exec(users, START, es);
            forall i :: 0 <= i < |s.charges| && s.charges[i].fate.Held? ==>
              s.charges[i].owner in s.calls && s.calls[s.charges[i].owner].phase == Holding(i)
  {
    StartInv();
    ExecKeepsInv(users, START, es);
    var s := Exec(users, START, es);
    assert Balanced(s.spent, s.persisted, s.charges, u);
    forall i | 0 <= i < |s.charges| && s.charges[i].fate.Held?
      ensures s.charges[i].owner in s.calls && s.calls[s.charges[i].owner].phase == Holding(i)
    {
      assert ChargeOwned(s.charges, s.calls, i);
    }
  }

  /** The request's total, if it has one, is not negative (see Credit.NonNegativePrices). */
  predicate FairRequest(req: Request) {
    TotalCents(req.lines).Some? ==> TotalCents(req.lines).value >= 0
  }

  predicate FairEvent(e: Event) { e.Begin? ==> FairRequest(e.req) }

  ghost predicate Fair(es: seq<Event>) { forall i :: 0 <= i < |es| ==> FairEvent(es[i]) }

  ghost predicate Limits(users: map<string, User>) {
    forall u :: u in users ==> 0 <= users[u].limit < TWO_63
  }

  predicate FairCall(calls: map<nat, Call>, c: nat)
    requires c in calls
  {
    0 <= calls[c].total < TWO_63 && FairRequest(calls[c].req)
  }

  predicate Exact(spent: map<string, int>, charges: seq<Charge>, u: string) {
    SpentBy(spent, u) == AllCharges(charges, u)
  }

  ghost predicate ExactMoney(users: map<string, User>, spent: map<string, int>, charges: seq<Charge>) {
    Solvent(users, spent) && forall u :: Exact(spent, charges, u)
  }

  ghost predicate FairCalls(calls: map<nat, Call>) { forall c :: c in calls ==> FairCall(calls, c) }

  ghost predicate FairAdrift(adrift: seq<Errand>) {
    forall i :: 0 <= i < |adrift| ==> 0 <= adrift[i].amount < TWO_63
  }

  lemma ChargeKeepsExact(users: map<string, User>, spent: map<string, int>, charges: seq<Charge>, charge: Charge)
    requires ExactMoney(users, spent, charges) && !charge.fate.Settled? && 0 <= charge.amount < TWO_63
    requires Validate(users, spent, charge.user, charge.amount).reply.Approved?
    ensures ExactMoney(users, Validate(users, spent, charge.user, charge.amount).spent, charges + [charge])
  {
    ValidateMeans(users, spent, charge.user, charge.amount);
    var spent' := Validate(users, spent, charge.user, charge.amount).spent;
    forall u ensures Exact(spent', charges + [charge], u) {
      assert Exact(spent, charges, u);
    }
  }

  lemma ShapeKeepsFair(users: map<string, User>, s: State, t: State, e: Event)
    requires FairCalls(s.calls) && FairAdrift(s.adrift) && FairEvent(e) && Shape(users, s, t, e)
    ensures FairCalls(t.calls) && FairAdrift(t.adrift)
  {
    ShapeUpdatesOne(users, s, t, e);
    assert e.c in s.calls ==> FairCall(s.calls, e.c);
    UpdateKeepsFair(s, t, e.c);
  }

  lemma UpdateKeepsFair(s: State, t: State, c: nat)
    requires FairCalls(s.calls) && UpdatesOne(s, t, c)
    requires c in t.calls ==> FairRequest(t.calls[c].req)
    ensures FairCalls(t.calls)
  {
    forall d | d in t.calls ensures FairCall(t.calls, d) {
      if d in s.calls {
        assert FairCall(s.calls, d);
        TotalIsExact(s.calls[d].req.lines);
      }
    }
  }

  lemma ShapeKeepsExact(users: map<string, User>, s: State, t: State, e: Event)
    requires Inv(s) && FairCalls(s.calls) && FairAdrift(s.adrift) && ExactMoney(users, s.spent, s.charges)
    requires Shape(users, s, t, e)
    ensures ExactMoney(users, t.spent, t.charges)
  {
    if ChargedTo(users, s, t, e.c) {
      assert FairCall(s.calls, e.c);
      ChargeKeepsExact(users, s.spent, s.charges, t.charges[|s.charges|]);
    } else if StoredBy(s, t, e.c) {
      StoreKeepsMoney(s, e.c);
      forall u ensures Exact(t.spent, t.charges, u) { assert Exact(s.spent, s.charges, u); }
    } else if Landed(users, s, t, e) {
      var a := s.adrift[e.i];
      if Validate(users, s.spent, a.user, a.amount).reply.Approved? {
        ChargeKeepsExact(users, s.spent, s.charges, Billed(a, Lost));
      }
    }
  }

  lemma {:induction false} ExecKeepsExact(users: map<string, User>, s: State, es: seq<Event>)
    requires Inv(s) && FairCalls(s.calls) && FairAdrift(s.adrift)
    requires ExactMoney(users, s.spent, s.charges) && Fair(es)
    ensures var t := Exec(users, s, es); ExactMoney(users, t.spent, t.charges)
    decreases |es|
  {
    if es != [] {
      var t := Step(users, s, es[0]);
      StepKeepsInv(users, s, es[0]);
      StepShape(users, s, es[0]);
      assert FairEvent(es[0]);
      ShapeKeepsFair(users, s, t, es[0]);
      ShapeKeepsExact(users, s, t, es[0]);
      forall i | 0 <= i < |es[1..]| ensures FairEvent(es[1..][i]) { assert FairEvent(es[i + 1]); }
      ExecKeepsExact(users, Step(users, s, es[0]), es[1..]);
    }
  }

  /** With non-negative totals the equation holds in unbounded arithmetic, and nobody ever
      spends more than their limit. */
  lemma NobodyOverspends(users: map<string, User>, es: seq<Event>, u: string)
    requires Limits(users) && Fair(es)
    ensures var s := Exec(users, START, es);
            && SpentBy(s.spent, u) ==
               ConfirmedTotals(s.persisted, u) + Charges(s.charges, u, Held) + Charges(s.charges, u, Lost)
            && 0 <= SpentBy(s.spent, u)
            && (u in users ==> SpentBy(s.spent, u) <= users[u].limit)
  {
    StartInv();
    ExecKeepsInv(users, START, es);
    forall v ensures Exact(START.spent, START.charges, v) {}
    ExecKeepsExact(users, START, es);
    var s := Exec(users, START, es);
    assert Balanced(s.spent, s.persisted, s.charges, u) && Exact(s.spent, s.charges, u);
  }
}
