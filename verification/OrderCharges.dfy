/** What is charged for a key, on every run: one charge for each confirmed order, and one for
    each approval that nobody turned into an order. */
module OrderCharges {
  import opened Common
  import opened Credit
  import opened Retry
  import opened Orders
  import opened OrderKeys
  import opened OrderRuns

  // ---- Charges and orders -------------------------------------------------------------

  function OfFate(k: string, f: Fate): Charge -> nat {
    (c: Charge) => if c.key == k && c.fate == f then 1 else 0
  }

  function ConfirmedOf(k: string): Entry -> nat {
    (e: Entry) => if e.key == k && e.order.status.Confirmed? then 1 else 0
  }

  /** The charges of key k with this fate, and the confirmed orders of key k, by their places. */
  function ChargesOf(s: State, k: string, f: Fate): set<nat> { Places(s.charges, OfFate(k, f)) }

  function ConfirmedFor(s: State, k: string): set<nat> { Places(s.persisted, ConfirmedOf(k)) }

  predicate KeyBalanced(s: State, k: string) {
    Sum(s.charges, OfFate(k, Settled)) == Sum(s.persisted, ConfirmedOf(k))
  }

  lemma StoreKeepsKeyBalanced(s: State, c: nat, k: string)
    requires Inv(s) && KeyBalanced(s, k) && c in s.calls && Storing(s.calls[c])
    ensures KeyBalanced(StoreStep(s, c), k)
  {
    var t := StoreStep(s, c);
    assert CallSound(s.charges, s.calls, c);
    SumAppend(s.persisted, t.persisted[|s.persisted|], ConfirmedOf(k));
    if s.calls[c].phase.Holding? {
      var i := s.calls[c].phase.slot;
      SumUpdate(s.charges, i, t.charges[i], OfFate(k, Settled));
    }
  }

  lemma ShapeKeepsKeyBalanced(users: map<string, User>, s: State, t: State, e: Event, k: string)
    requires Inv(s) && KeyBalanced(s, k) && Shape(users, s, t, e)
    ensures KeyBalanced(t, k)
  {
    if StoredBy(s, t, e.c) {
      StoreKeepsKeyBalanced(s, e.c, k);
    } else if |t.charges| > |s.charges| {
      var charge := t.charges[|s.charges|];
      assert t.charges == s.charges + [charge];
      SumAppend(s.charges, charge, OfFate(k, Settled));
    }
  }

  lemma {:induction false} ExecKeepsKeyBalanced(users: map<string, User>, s: State, es: seq<Event>, k: string)
    requires Inv(s) && KeyBalanced(s, k)
    ensures KeyBalanced(Exec(users, s, es), k)
    decreases |es|
  {
    if es != [] {
      var t := Step(users, s, es[0]);
      StepShape(users, s, es[0]);
      StepKeepsInv(users, s, es[0]);
      ShapeKeepsKeyBalanced(users, s, t, es[0], k);
      ExecKeepsKeyBalanced(users, t, es[1..], k);
    }
  }

  /** On every run and for every key: the charges are as many as the confirmed orders, plus the
      approvals about to be stored, plus the approvals that no caller heard of. So the key is
      charged at most once if and only if these are at most one together. */
  lemma ChargesAreAccountedFor(users: map<string, User>, es: seq<Event>, k: string)
    ensures var s := Exec(users, START, es);
            |ChargesFor(s, k)| == |ConfirmedFor(s, k)| + |ChargesOf(s, k, Held)| + |ChargesOf(s, k, Lost)|
  {
    StartInv();
    ExecKeepsKeyBalanced(users, START, es, k);
    var s := Exec(users, START, es);
    SumCounts(s.charges, OfFate(k, Settled));
    SumCounts(s.persisted, ConfirmedOf(k));
    FatesDivide(s, k);
  }

  lemma FatesDivide(s: State, k: string)
    ensures |ChargesFor(s, k)| == |ChargesOf(s, k, Settled)| + |ChargesOf(s, k, Held)| + |ChargesOf(s, k, Lost)|
  {
    var held, settled, lost := ChargesOf(s, k, Held), ChargesOf(s, k, Settled), ChargesOf(s, k, Lost);
    forall i: nat
      ensures i in held <==> i in ChargesFor(s, k) && s.charges[i].fate.Held?
      ensures i in settled <==> i in ChargesFor(s, k) && s.charges[i].fate.Settled?
      ensures i in lost <==> i in ChargesFor(s, k) && s.charges[i].fate.Lost?
    {
    }
    assert ChargesFor(s, k) == held + settled + lost;
  }

  // ---- Calls one after another --------------------------------------------------------

  lemma SerialOrder(users: map<string, User>, es: seq<Event>, k: string)
    requires k != "" && Serial(users, START, es, k) && k in Exec(users, START, es).book.idem
    ensures var s := Exec(users, START, es);
            && s.book.idem[k] in s.book.orders && ChargesOf(s, k, Held) == {}
            && |ConfirmedFor(s, k)| == if s.book.orders[s.book.idem[k]].status.Confirmed? then 1 else 0
  {
    var s := SerialStart(users, es, k);
    forall i | 0 <= i < |s.charges| && s.charges[i].key == k ensures !s.charges[i].fate.Held? {
      assert ChargeOwned(s.charges, s.calls, i);
      assert OnlyReads(s, k, s.charges[i].owner);
    }
    assert ChargesOf(s, k, Held) == {};
    var i :| KeyLeadsTo(s.book, s.persisted, k, i);
    assert EntryFiled(s.book, s.persisted, i);
    forall j | j in ConfirmedFor(s, k) ensures j == i {
      SerialCallsShareOneOrder(users, es, k, 0, i, j);
    }
    assert ConfirmedFor(s, k) == if s.persisted[i].order.status.Confirmed? then {i} else {};
  }

  /** When calls with a key do not overlap, the key is charged once for its order, if that is
      confirmed, and once for every approval no caller heard of: with a confirmed order it is
      charged just once if and only if there was no such approval. */
  lemma ChargedOnceIffNothingLost(users: map<string, User>, es: seq<Event>, k: string)
    requires k != "" && Serial(users, START, es, k) && k in Exec(users, START, es).book.idem
    ensures var s := Exec(users, START, es);
            && s.book.idem[k] in s.book.orders
            && var confirmed := s.book.orders[s.book.idem[k]].status.Confirmed?;
            && |ChargesFor(s, k)| == |ChargesOf(s, k, Lost)| + (if confirmed then 1 else 0)
            && (confirmed ==> (|ChargesFor(s, k)| == 1 <==> ChargesOf(s, k, Lost) == {}))
  {
    ChargesAreAccountedFor(users, es, k);
    SerialOrder(users, es, k);
  }

  ghost predicate ChargesTwice(users: map<string, User>, s: State, later: seq<Event>, k: string) {
    Serial(users, s, later, k) && |ChargesFor(Exec(users, s, later), k)| >= 2
  }

  /** Looking both ways: with a confirmed order, the key has been or can yet be charged twice if
      and only if an approval went unheard, or a request for an active user is still adrift. */
  lemma ChargedTwiceIffLostOrAdrift(users: map<string, User>, es: seq<Event>, k: string)
    requires k != "" && Serial(users, START, es, k) && k in Exec(users, START, es).book.idem
    requires var s := Exec(users, START, es);
             s.book.idem[k] in s.book.orders && s.book.orders[s.book.idem[k]].status.Confirmed?
    ensures var s := Exec(users, START, es);
            (exists later :: ChargesTwice(users, s, later, k))
            <==> ChargesOf(s, k, Lost) != {} || Chargeable(users, s.adrift, k) > 0
  {
    var s := SerialStart(users, es, k);
    ChargedOnceIffNothingLost(users, es, k);
    if ChargesOf(s, k, Lost) != {} {
      assert ChargesTwice(users, s, [], k);
    } else if Chargeable(users, s.adrift, k) > 0 {
      var later := AdriftChargesAgain(users, s, k);
      SerialRun(users, s, later, k);
      if |ChargesFor(Exec(users, s, later), k)| <= 1 {
        SameSize(ChargesFor(s, k), ChargesFor(Exec(users, s, later), k));
      }
      assert ChargesTwice(users, s, later, k);
    } else {
      forall later ensures !ChargesTwice(users, s, later, k) {
        if Serial(users, s, later, k) { NoSecondCharge(users, es, later, k); }
      }
    }
  }

  // ---- When totals are not negative ---------------------------------------------------

  /** A request adrift of key k whose amount the user's remaining credit still covers. */
  predicate FitsNow(users: map<string, User>, spent: map<string, int>, a: Errand, k: string) {
    CanCharge(users, a, k) && SpentBy(spent, a.user) + a.amount <= users[a.user].limit
  }

  ghost predicate NoneFits(users: map<string, User>, s: State, k: string) {
    forall i :: 0 <= i < |s.adrift| ==> !FitsNow(users, s.spent, s.adrift[i], k)
  }

  ghost predicate FairInv(users: map<string, User>, s: State) {
    Inv(s) && FairCalls(s.calls) && FairAdrift(s.adrift) && ExactMoney(users, s.spent, s.charges)
  }

  lemma StepKeepsFair(users: map<string, User>, s: State, e: Event)
    requires FairInv(users, s) && FairEvent(e)
    ensures FairInv(users, Step(users, s, e))
  {
    StepShape(users, s, e);
    StepKeepsInv(users, s, e);
    ShapeKeepsFair(users, s, Step(users, s, e), e);
    ShapeKeepsExact(users, s, Step(users, s, e), e);
  }

  lemma {:induction false} ExecKeepsFair(users: map<string, User>, s: State, es: seq<Event>)
    requires FairInv(users, s) && Fair(es)
    ensures FairInv(users, Exec(users, s, es))
    decreases |es|
  {
    if es != [] {
      assert FairEvent(es[0]);
      StepKeepsFair(users, s, es[0]);
      ExecKeepsFair(users, Step(users, s, es[0]), es[1..]);
    }
  }

  /** Nobody's spending falls. */
  lemma SpendingGrows(users: map<string, User>, s: State, t: State, e: Event, u: string)
    requires FairInv(users, s) && Shape(users, s, t, e)
    ensures SpentBy(t.spent, u) >= SpentBy(s.spent, u)
  {
    if ChargedTo(users, s, t, e.c) {
      assert FairCall(s.calls, e.c);
      ValidateMeans(users, s.spent, s.calls[e.c].req.user, s.calls[e.c].total);
    } else if Landed(users, s, t, e) {
      ValidateMeans(users, s.spent, s.adrift[e.i].user, s.adrift[e.i].amount);
    }
  }

  /** Once the order is stored no request of the key is sent any more. */
  lemma NoneSentAnyMore(users: map<string, User>, s: State, t: State, e: Event, k: string, i: nat) returns (j: nat)
    requires SerialInv(s, k) && k in s.book.idem && Shape(users, s, t, e)
    requires i < |t.adrift| && t.adrift[i].key == k
    ensures j < |s.adrift| && s.adrift[j] == t.adrift[i]
  {
    assert OnlyReads(s, k, e.c);
    j := if Landed(users, s, t, e) && i >= e.i then i + 1 else i;
  }

  lemma NoneFitsStays(users: map<string, User>, s: State, e: Event, k: string)
    requires FairInv(users, s) && SerialInv(s, k) && k in s.book.idem && NoneFits(users, s, k)
    ensures NoneFits(users, Step(users, s, e), k)
    ensures ChargesFor(Step(users, s, e), k) == ChargesFor(s, k)
  {
    var t := Step(users, s, e);
    StepShape(users, s, e);
    ChargesIffLands(users, s, e, k);
    if LandsFor(users, s, e, k) {
      ValidateMeans(users, s.spent, s.adrift[e.i].user, s.adrift[e.i].amount);
    }
    forall i | 0 <= i < |t.adrift| ensures !FitsNow(users, t.spent, t.adrift[i], k) {
      if t.adrift[i].key == k {
        var j := NoneSentAnyMore(users, s, t, e, k, i);
        SpendingGrows(users, s, t, e, t.adrift[i].user);
      }
    }
  }

  lemma {:induction false} NeverFits(users: map<string, User>, s: State, es: seq<Event>, k: string)
    requires k != "" && FairInv(users, s) && SerialInv(s, k) && k in s.book.idem && NoneFits(users, s, k)
    requires Fair(es) && Serial(users, s, es, k)
    ensures ChargesFor(Exec(users, s, es), k) == ChargesFor(s, k)
    decreases |es|
  {
    if es != [] {
      var t := Step(users, s, es[0]);
      assert FairEvent(es[0]);
      NoneFitsStays(users, s, es[0], k);
      StepKeepsFair(users, s, es[0]);
      StepShape(users, s, es[0]);
      ShapeKeepsSerial(users, s, t, es[0], k);
      NeverFits(users, t, es[1..], k);
    }
  }

  ghost predicate ChargesAgainFairly(users: map<string, User>, s: State, later: seq<Event>, k: string) {
    Fair(later) && ChargesAgain(users, s, later, k)
  }

  lemma FittingChargesAgain(users: map<string, User>, s: State, i: nat, k: string)
    requires FairInv(users, s) && SerialInv(s, k) && k in s.book.idem
    requires i < |s.adrift| && FitsNow(users, s.spent, s.adrift[i], k)
    ensures ChargesAgainFairly(users, s, [Land(s.adrift[i].owner, i)], k)
  {
    ValidateMeans(users, s.spent, s.adrift[i].user, s.adrift[i].amount);
    assert Exec(users, s, []) == s;
    var es := LandsOne(users, s, [], i, k);
    assert es == [Land(s.adrift[i].owner, i)];
  }

  /** With totals that are not negative: later non-overlapping calls can see the
      key charged again if and only if a request of the key is adrift whose amount the user's
      remaining credit still covers. */
  lemma ChargedAgainFairlyIffFits(users: map<string, User>, es: seq<Event>, k: string)
    requires k != "" && Limits(users) && Fair(es) && Serial(users, START, es, k)
    requires k in Exec(users, START, es).book.idem
    ensures var s := Exec(users, START, es);
            (exists later :: ChargesAgainFairly(users, s, later, k))
            <==> exists i :: 0 <= i < |s.adrift| && FitsNow(users, s.spent, s.adrift[i], k)
  {
    StartInv();
    forall u ensures Exact(START.spent, START.charges, u) {}
    ExecKeepsFair(users, START, es);
    var s := SerialStart(users, es, k);
    if i :| 0 <= i < |s.adrift| && FitsNow(users, s.spent, s.adrift[i], k) {
      FittingChargesAgain(users, s, i, k);
    } else {
      forall later ensures !ChargesAgainFairly(users, s, later, k) {
        if Fair(later) && Serial(users, s, later, k) { NeverFits(users, s, later, k); }
      }
    }
  }

  /** The plainest case: one call, whose first attempt is approved but not answered. The retry is
      approved again, and the one order is charged twice. */
  lemma RetryChargesTwice(users: map<string, User>, u: string, k: string) returns (es: seq<Event>)
    requires u != "" && k != "" && u in users && users[u].active && 2 <= users[u].limit < TWO_63
    ensures Serial(users, START, es, k)
    ensures var s := Exec(users, START, es);
            && |OrdersFor(s, k)| == 1 && |ChargesFor(s, k)| == 2 && SpentBy(s.spent, u) == 2
            && s.adrift == [] && s.calls.Keys == {0}
  {
    es := Starts(users, START, [], 0, u, k, 1, k);
    es := ThenSerial(users, START, es, Rpc(0, ResponseLost(Status(Unavailable))), k);
    es := ThenSerial(users, START, es, Wake(0, None), k);
    es := ThenSerial(users, START, es, Rpc(0, Delivered), k);
    ghost var s := Exec(users, START, es);
    assert s.calls[0].phase == Holding(1) && s.charges == [Charge(u, 1, k, 0, Lost), Charge(u, 1, k, 0, Held)];
    es := ThenSerial(users, START, es, Store(0), k);
    s := Exec(users, START, es);
    assert OrdersFor(s, k) == {0};
    assert ChargesFor(s, k) == {0, 1};
  }

  // ---- How often one call can charge --------------------------------------------------

  function ByCall(c: nat): Charge -> nat { (x: Charge) => if x.owner == c then 1 else 0 }

  function FromCall(c: nat): Errand -> nat { (a: Errand) => if a.owner == c then 1 else 0 }

  /** The charges of call c and its requests adrift. */
  function Bills(s: State, c: nat): nat { Sum(s.charges, ByCall(c)) + Sum(s.adrift, FromCall(c)) }

  /** How many attempts a call has made, at most. */
  function Attempts(ph: Phase): int {
    match ph
    case Replaying(_) => 0
    case Pricing => 0
    case Calling(n) => n - 1
    case Waiting(n) => n
    case _ => MAX_ATTEMPTS
  }

  predicate WithinCap(s: State, c: nat)
    requires c in s.calls
  {
    var ph := s.calls[c].phase;
    Bills(s, c) <= Attempts(ph) <= MAX_ATTEMPTS && InBounds(ph)
  }

  ghost predicate CapInv(s: State) { forall c :: c in s.calls ==> WithinCap(s, c) }

  lemma NobodyElseBills(s: State, c: nat)
    requires Inv(s) && c !in s.calls
    ensures Bills(s, c) == 0
  {
    forall i | 0 <= i < |s.charges| ensures ByCall(c)(s.charges[i]) == 0 {
      assert ChargeOwned(s.charges, s.calls, i);
    }
    forall i | 0 <= i < |s.adrift| ensures FromCall(c)(s.adrift[i]) == 0 {
      assert ErrandOwned(s.adrift, s.calls, i);
    }
    SumZero(s.charges, ByCall(c));
    SumZero(s.adrift, FromCall(c));
  }

  /** A step adds at most one charge or request adrift, of a call making an attempt; executing
      a request adrift turns the one into the other, at most. */
  lemma ShapeBills(users: map<string, User>, s: State, t: State, e: Event, d: nat)
    requires Inv(s) && Shape(users, s, t, e) && (e.Land? ==> t == s || Landed(users, s, t, e))
    ensures Bills(t, d) <= Bills(s, d) + if d == e.c && !e.Land? && d in s.calls && s.calls[d].phase.Calling? then 1 else 0
  {
    if StoredBy(s, t, e.c) {
      assert CallSound(s.charges, s.calls, e.c);
      if s.calls[e.c].phase.Holding? {
        var i := s.calls[e.c].phase.slot;
        SumUpdate(s.charges, i, t.charges[i], ByCall(d));
      }
    } else {
      if |t.charges| > |s.charges| {
        assert t.charges == s.charges + [t.charges[|s.charges|]];
        SumAppend(s.charges, t.charges[|s.charges|], ByCall(d));
      }
      if Landed(users, s, t, e) { SumWithout(s.adrift, e.i, FromCall(d)); }
      else if t.adrift != s.adrift { SumAppend(s.adrift, Sent(s, e.c), FromCall(d)); }
    }
  }

  predicate InBounds(ph: Phase) {
    && (ph.Calling? ==> 1 <= ph.n <= MAX_ATTEMPTS) && (ph.Waiting? ==> 1 <= ph.n < MAX_ATTEMPTS)
  }

  lemma RpcCountsAttempts(users: map<string, User>, s: State, c: nat, reach: Reach)
    requires c in s.calls && s.calls[c].phase.Calling? && InBounds(s.calls[c].phase)
    ensures var t := RpcStep(users, s, c, reach);
            && c in t.calls && InBounds(t.calls[c].phase)
            && s.calls[c].phase.n <= Attempts(t.calls[c].phase) <= MAX_ATTEMPTS
  {
  }

  /** And an attempt is one more attempt. */
  lemma StepCountsAttempts(users: map<string, User>, s: State, e: Event)
    requires e.c in s.calls && InBounds(s.calls[e.c].phase) && Step(users, s, e) != s
    ensures var t := Step(users, s, e);
            && e.c in t.calls && InBounds(t.calls[e.c].phase)
            && var was, ph := s.calls[e.c].phase, t.calls[e.c].phase;
            if e.Land? then ph == was
            else Attempts(was) + (if was.Calling? then 1 else 0) <= Attempts(ph) <= MAX_ATTEMPTS
  {
    if e.Rpc? && s.calls[e.c].phase.Calling? { RpcCountsAttempts(users, s, e.c, e.reach); }
  }

  lemma StepKeepsCap(users: map<string, User>, s: State, e: Event)
    requires Inv(s) && CapInv(s)
    ensures CapInv(Step(users, s, e))
  {
    var t := Step(users, s, e);
    StepShape(users, s, e);
    ShapeUpdatesOne(users, s, t, e);
    if t != s {
      if e.c in s.calls { assert WithinCap(s, e.c); StepCountsAttempts(users, s, e); } else { NobodyElseBills(s, e.c); }
      forall d | d in t.calls ensures WithinCap(t, d) {
        if d != e.c { assert WithinCap(s, d); }
        ShapeBills(users, s, t, e, d);
      }
    }
  }

  lemma {:induction false} ExecKeepsCap(users: map<string, User>, s: State, es: seq<Event>)
    requires Inv(s) && CapInv(s)
    ensures CapInv(Exec(users, s, es))
    decreases |es|
  {
    if es != [] {
      StepKeepsInv(users, s, es[0]);
      StepKeepsCap(users, s, es[0]);
      ExecKeepsCap(users, Step(users, s, es[0]), es[1..]);
    }
  }

  /** On every run a call's charges and its requests still adrift are together no more than the
      attempts it has made, so never more than three. */
  lemma CallsChargeAtMostTheirAttempts(users: map<string, User>, es: seq<Event>, c: nat)
    requires c in Exec(users, START, es).calls
    ensures var s := Exec(users, START, es);
            Bills(s, c) <= Attempts(s.calls[c].phase) <= MAX_ATTEMPTS
  {
    StartInv();
    ExecKeepsCap(users, START, es);
    assert WithinCap(Exec(users, START, es), c);
  }
}
