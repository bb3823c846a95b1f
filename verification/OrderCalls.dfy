/** CreateOrder as one call runs it, over the real ledger, order book and breaker, and the proof
    that what it does is a run of the protocol of module Orders: the pieces that module
    interleaves are exactly the pieces this code executes. */
module OrderCalls {
  import opened Common
  import opened Credit
  import opened Orders
  import opened Retry
  import B = Breakers
  import Resilience

  /** What happens to attempt number i, whether the caller's context ends the wait after it, and
      which of this call's requests adrift get executed during that wait, one after another:
      each is named by its place among those left, and a place that is not there names none. */
  datatype Try = Try(reach: Reach, ended: Option<Error>, lands: seq<nat>)

  /** What one attempt brought back. */
  datatype Answer = Failing(err: Error) | Decline | Approve

  /** After the requests adrift of other calls come m of this one, all alike. */
  ghost predicate Fleet(adrift: seq<Errand>, base: nat, m: nat, a: Errand) {
    |adrift| == base + m && forall i :: base <= i < |adrift| ==> adrift[i] == a
  }

  predicate FromOutside(e: Event) { e.Rpc? || e.Wake? || e.Land? }

  /** The part of a run the environment decides. */
  function Outside(es: seq<Event>): seq<Event> {
    if es == [] then []
    else Outside(es[..|es| - 1]) + if FromOutside(es[|es| - 1]) then [es[|es| - 1]] else []
  }

  /** How many of m requests adrift are left after these landings. */
  function Left(m: nat, lands: seq<nat>): nat {
    if lands == [] then m else Left(if lands[0] < m then m - 1 else m, lands[1..])
  }

  function Landings(c: nat, base: nat, m: nat, lands: seq<nat>): seq<Event> {
    if lands == [] then []
    else if lands[0] < m then [Land(c, base + lands[0])] + Landings(c, base, m - 1, lands[1..])
    else Landings(c, base, m, lands[1..])
  }

  /** How many requests of the call are adrift after its first n attempts and their waits. */
  function Afloat(env: nat -> Try, n: nat): nat
    decreases n, 1
  {
    if n == 0 then 0 else Left(Out(env, n), env(n - 1).lands)
  }

  /** And before the last of these waits. */
  function Out(env: nat -> Try, n: nat): nat
    requires n > 0
    decreases n, 0
  {
    Afloat(env, n - 1) + if env(n - 1).reach.Adrift? then 1 else 0
  }

  /** What the environment does around the first n attempts, each followed by a wait; `base`
      requests of other calls are adrift. */
  function Script(c: nat, env: nat -> Try, base: nat, n: nat): seq<Event> {
    if n == 0 then []
    else
      Script(c, env, base, n - 1) + [Rpc(c, env(n - 1).reach)]
      + Landings(c, base, Out(env, n), env(n - 1).lands) + [Wake(c, env(n - 1).ended)]
  }

  /** The run had n attempts and a wait after each but possibly the last. */
  predicate Followed(c: nat, env: nat -> Try, base: nat, n: nat, out: seq<Event>) {
    || out == Script(c, env, base, n)
    || (n > 0 && out == Script(c, env, base, n - 1) + [Rpc(c, env(n - 1).reach)])
  }

  /** A run of one step. */
  lemma First(users: map<string, User>, s: State, e: Event) returns (es: seq<Event>)
    ensures Exec(users, s, es) == Step(users, s, e)
    ensures Outside(es) == if FromOutside(e) then [e] else []
  {
    es := [] + [e];
    Snoc(users, s, [], e);
  }

  /** One more step of a run. */
  lemma Snoc(users: map<string, User>, s: State, es: seq<Event>, e: Event)
    ensures Exec(users, s, es + [e]) == Step(users, Exec(users, s, es), e)
    ensures Outside(es + [e]) == Outside(es) + if FromOutside(e) then [e] else []
  {
    ExecSnoc(users, s, es, e);
    assert (es + [e])[..|es|] == es;
  }

  /** The breaker after a call that ended with err: unchanged if it refused the call. */
  function Heard(cfg: B.Config, b: B.Core, now: int, err: Option<Error>, later: int): B.Core {
    var a := B.Admit(cfg, b, now);
    if a.admitted then B.Settle(B.Platform, cfg, a.core, Resilience.Verdict(err), later) else b
  }

  // ---- The same, for each kind of step that is enabled ----------------------------------

  lemma SnocRpc(users: map<string, User>, s: State, es: seq<Event>, c: nat, reach: Reach) returns (more: seq<Event>)
    requires c in Exec(users, s, es).calls && Exec(users, s, es).calls[c].phase.Calling?
    ensures Exec(users, s, more) == RpcStep(users, Exec(users, s, es), c, reach)
    ensures Outside(more) == Outside(es) + [Rpc(c, reach)]
  {
    more := es + [Rpc(c, reach)];
    Snoc(users, s, es, Rpc(c, reach));
  }

  lemma LandFirst(users: map<string, User>, t: State, c: nat, i: nat, rest: seq<Event>)
    requires c in t.calls && i < |t.adrift| && t.adrift[i].owner == c
    ensures Exec(users, t, [Land(c, i)] + rest) == Exec(users, LandStep(users, t, i), rest)
  {
    assert ([Land(c, i)] + rest)[1..] == rest;
  }

  lemma {:induction false} ExecAppend(users: map<string, User>, s: State, a: seq<Event>, b: seq<Event>)
    ensures Exec(users, s, a + b) == Exec(users, Exec(users, s, a), b)
    decreases |a|
  {
    if a == [] {
      assert a + b == b;
    } else {
      assert (a + b)[1..] == a[1..] + b;
      ExecAppend(users, Step(users, s, a[0]), a[1..], b);
    }
  }

  ghost predicate AllOutside(es: seq<Event>) { forall i :: 0 <= i < |es| ==> FromOutside(es[i]) }

  lemma {:induction false} OutsideAppend(a: seq<Event>, b: seq<Event>)
    requires AllOutside(b)
    ensures Outside(a + b) == Outside(a) + b
    decreases |b|
  {
    if b == [] {
      assert a + b == a;
    } else {
      var init := b[..|b| - 1];
      assert (a + b)[..|a + b| - 1] == a + init && (a + b)[|a + b| - 1] == b[|b| - 1];
      OutsideAppend(a, init);
      assert init + [b[|b| - 1]] == b;
    }
  }

  lemma {:induction false} LandingsOutside(c: nat, base: nat, m: nat, lands: seq<nat>)
    ensures AllOutside(Landings(c, base, m, lands))
    decreases |lands|
  {
    if lands != [] { LandingsOutside(c, base, if lands[0] < m then m - 1 else m, lands[1..]); }
  }

  lemma SnocLandings(users: map<string, User>, s: State, es: seq<Event>, c: nat, base: nat, m: nat, lands: seq<nat>)
    returns (more: seq<Event>)
    ensures Exec(users, s, more) == Exec(users, Exec(users, s, es), Landings(c, base, m, lands))
    ensures Outside(more) == Outside(es) + Landings(c, base, m, lands)
  {
    more := es + Landings(c, base, m, lands);
    ExecAppend(users, s, es, Landings(c, base, m, lands));
    LandingsOutside(c, base, m, lands);
    OutsideAppend(es, Landings(c, base, m, lands));
  }

  lemma SnocWake(users: map<string, User>, s: State, es: seq<Event>, c: nat, ended: Option<Error>)
    returns (more: seq<Event>)
    requires c in Exec(users, s, es).calls && Exec(users, s, es).calls[c].phase.Waiting?
    ensures var t := Exec(users, s, es);
            Exec(users, s, more) ==
              SetPhase(t, c, if ended.Some? then Failed(Interrupted(ended.value)) else Calling(t.calls[c].phase.n + 1))
    ensures Outside(more) == Outside(es) + [Wake(c, ended)]
  {
    more := es + [Wake(c, ended)];
    Snoc(users, s, es, Wake(c, ended));
  }

  /** A wait: some landings, and then the next attempt or the end. */
  lemma SnocWait(users: map<string, User>, s: State, es: seq<Event>, was: State, c: nat, base: nat, m: nat, n: nat, t: Try)
    returns (more: seq<Event>)
    requires was == Exec(users, s, es)
    requires var u := Exec(users, was, Landings(c, base, m, t.lands)); c in u.calls && u.calls[c].phase == Waiting(n)
    ensures var u := Exec(users, was, Landings(c, base, m, t.lands));
            Exec(users, s, more) ==
              SetPhase(u, c, if t.ended.Some? then Failed(Interrupted(t.ended.value)) else Calling(n + 1))
    ensures Outside(more) == Outside(es) + Landings(c, base, m, t.lands) + [Wake(c, t.ended)]
  {
    more := SnocLandings(users, s, es, c, base, m, t.lands);
    more := SnocWake(users, s, more, c, t.ended);
  }

  lemma SnocResolve(users: map<string, User>, s: State, es: seq<Event>, c: nat) returns (more: seq<Event>)
    requires c in Exec(users, s, es).calls && Exec(users, s, es).calls[c].phase.Failed?
    ensures var t := Exec(users, s, es);
            Exec(users, s, more) == SetPhase(t, c, Degrade(t.calls[c].phase.err, t.calls[c].total))
    ensures Outside(more) == Outside(es)
  {
    more := es + [Resolve(c)];
    Snoc(users, s, es, Resolve(c));
  }

  lemma SnocStore(users: map<string, User>, s: State, es: seq<Event>, c: nat) returns (more: seq<Event>)
    requires c in Exec(users, s, es).calls && Storing(Exec(users, s, es).calls[c])
    ensures Exec(users, s, more) == StoreStep(Exec(users, s, es), c)
    ensures Outside(more) == Outside(es)
  {
    more := es + [Store(c)];
    Snoc(users, s, es, Store(c));
  }

  /** How the credit check of a call went. */
  datatype Check = Check(err: Option<Error>, declined: bool)

  /** The failures that say the user service could not be reached. */
  predicate Unreachable(e: Error) { IsCircuitOpen(e) || CodeOf(e) == Unavailable }

  /** The code a refused caller gets: its own for the codes that mean something to a caller, and
      Internal for every other. */
  function RefusalCode(e: Error): Code {
    if Unreachable(e) then Unavailable
    else if CodeOf(e) in {NotFound, FailedPrecondition, InvalidArgument, PermissionDenied, DeadlineExceeded, Canceled}
    then CodeOf(e)
    else Internal
  }

  /** The reply that answers the check: confirmed if and only if approved, rejected if and only if
      declined, pending if and only if the user service was unreachable and the total is small,
      and otherwise refused with its code. */
  predicate Answers(k: Check, total: int, res: Response) {
    match k.err
    case None =>
      && res.Replied? && res.order.status == (if k.declined then Rejected else Confirmed)
      && res.code == (if k.declined then FailedPrecondition else OK)
    case Some(e) =>
      if Unreachable(e) && total <= 10_000 then res.Replied? && res.order.status == Pending && res.code == OK
      else res == Refused(RefusalCode(e))
  }

  /** Order number n says what was asked. */
  predicate SaysRequest(o: Order, n: nat, req: Request) {
    o.id == OrderId(n) && o.user == req.user && o.lines == req.lines && TotalCents(req.lines) == Some(o.total)
  }

  /** What a delivered answer comes to: an unknown user is NotFound, an inactive one
      FailedPrecondition, and nobody else is an error. */
  predicate Told(users: map<string, User>, user: string, err: Option<Error>) {
    if user !in users then err == Some(Status(NotFound))
    else if !users[user].active then err == Some(Status(FailedPrecondition))
    else err.None?
  }

  class OrderService {
    const ledger: Ledger
    const book: OrderBook
    const breaker: B.PlatformBreaker

    constructor (ledger: Ledger, book: OrderBook, breaker: B.PlatformBreaker)
      ensures this.ledger == ledger && this.book == book && this.breaker == breaker
    {
      this.ledger, this.book, this.breaker := ledger, book, breaker;
    }

    /** The protocol state agrees with the objects, and call c is in this phase. */
    ghost predicate At(t: State, c: nat, req: Request, total: int, ph: Phase)
      reads ledger, book
    {
      && t.spent == ledger.spent && t.book == book.View()
      && c in t.calls && t.calls[c] == Call(req, total, ph, true)
    }

    /** The key is recorded. */
    predicate Known(req: Request)
      reads book
    {
      req.key != "" && req.key in book.idem
    }

    /** The order is in the book as its n-th, and under its key. */
    predicate Filed(o: Order, req: Request, n: nat)
      reads book
    {
      && book.count == n && o.id in book.orders && book.orders[o.id] == o
      && (req.key != "" ==> req.key in book.idem && book.idem[req.key] == o.id)
    }

    /** The credit check is over: it failed, was declined, or left an approved charge to store. */
    ghost predicate Concluded(t: State, c: nat, req: Request, total: int, err: Option<Error>, declined: bool)
      reads ledger, book
    {
      c in t.calls && At(t, c, req, total, t.calls[c].phase)
      && match err
         case Some(e) => t.calls[c].phase == Failed(e)
         case None => if declined then t.calls[c].phase.Declining? else t.calls[c].phase.Holding?
    }

    /** Attempt number n is due, and what the environment did before it was by the script. */
    ghost predicate Underway(t: State, out: seq<Event>, c: nat, req: Request, total: int, env: nat -> Try, base: nat, n: nat)
      requires n > 0
      reads ledger, book
    {
      && At(t, c, req, total, Calling(n)) && out == Script(c, env, base, n - 1)
      && Fleet(t.adrift, base, Afloat(env, n - 1), Errand(req.user, total, req.key, c))
    }

    /** One attempt: the request may not get through, and its answer may not come back. */
    method Attempt(c: nat, req: Request, total: int, n: nat, reach: Reach, base: nat, ghost m: nat, ghost t: State)
      returns (a: Answer)
      requires At(t, c, req, total, Calling(n))
      requires Fleet(t.adrift, base, m, Errand(req.user, total, req.key, c))
      modifies ledger
      ensures var u := RpcStep(ledger.users, t, c, reach);
              c in u.calls && At(u, c, req, total, u.calls[c].phase)
              && Fleet(u.adrift, base, m + (if reach.Adrift? then 1 else 0), Errand(req.user, total, req.key, c))
              && match a
                 case Failing(e) => u.calls[c].phase == AfterError(n, e)
                 case Decline => u.calls[c].phase.Declining?
                 case Approve => u.calls[c].phase.Holding?
      ensures reach.Delivered? ==>
                Told(ledger.users, req.user, match a case Failing(e) => Some(e) case _ => None)
    {
      match reach
      case Down(e) => return Failing(e);
      case Adrift(e) => return Failing(e);
      case ResponseLost(e) =>
        var lost := ledger.ValidateCredit(req.user, total);
        return Failing(e);
      case Delivered =>
        var reply := ledger.ValidateCredit(req.user, total);
        match reply
        case NoUser => return Failing(Status(NotFound));
        case Inactive => return Failing(Status(FailedPrecondition));
        case Declined(_) => return Decline;
        case Approved(_) => return Approve;
    }

    /** The user service executes a request of this call that was adrift. */
    method Landing(c: nat, req: Request, total: int, n: nat, base: nat, m: nat, j: nat, ghost t: State)
      requires At(t, c, req, total, Waiting(n))
      requires j < m && Fleet(t.adrift, base, m, Errand(req.user, total, req.key, c))
      modifies ledger
      ensures var u := LandStep(ledger.users, t, base + j);
              At(u, c, req, total, Waiting(n)) && Fleet(u.adrift, base, m - 1, Errand(req.user, total, req.key, c))
    {
      var reply := ledger.ValidateCredit(req.user, total);
    }

    /** retry( rpc ): the attempts against the user service. Some of them may still be adrift
        when it is over. */
    method CheckCredit(c: nat, req: Request, total: int, env: nat -> Try, base: nat,
                       ghost s: State, ghost past: seq<Event>)
      returns (err: Option<Error>, declined: bool, tries: nat, ghost es: seq<Event>)
      requires At(Exec(ledger.users, s, past), c, req, total, Calling(1)) && Outside(past) == []
      requires |Exec(ledger.users, s, past).adrift| == base
      modifies ledger
      ensures 1 <= tries <= MAX_ATTEMPTS && Followed(c, env, base, tries, Outside(es))
      ensures Concluded(Exec(ledger.users, s, es), c, req, total, err, declined)
      ensures env(tries - 1).reach.Delivered? ==> Told(ledger.users, req.user, err)
    {
      es, tries := past, 1;
      var over := false;
      while true
        invariant 1 <= tries <= MAX_ATTEMPTS
        invariant Underway(Exec(ledger.users, s, es), Outside(es), c, req, total, env, base, tries)
        decreases MAX_ATTEMPTS - tries
      {
        over, err, declined, es := Turn(c, req, total, env, base, tries, s, es);
        if over { return; }
        tries := tries + 1;
      }
    }

    /** One turn of the loop: it is over, or the next attempt is due. */
    method Turn(c: nat, req: Request, total: int, env: nat -> Try, base: nat, n: nat,
                ghost s: State, ghost past: seq<Event>)
      returns (over: bool, err: Option<Error>, declined: bool, ghost es: seq<Event>)
      requires 1 <= n <= MAX_ATTEMPTS
      requires Underway(Exec(ledger.users, s, past), Outside(past), c, req, total, env, base, n)
      modifies ledger
      ensures over ==> Followed(c, env, base, n, Outside(es)) && Concluded(Exec(ledger.users, s, es), c, req, total, err, declined)
      ensures env(n - 1).reach.Delivered? ==> over && Told(ledger.users, req.user, err)
      ensures !over ==>
                n < MAX_ATTEMPTS && Underway(Exec(ledger.users, s, es), Outside(es), c, req, total, env, base, n + 1)
    {
      var t := env(n - 1);
      var a := Attempt(c, req, total, n, t.reach, base, Afloat(env, n - 1), Exec(ledger.users, s, past));
      es := SnocRpc(ledger.users, s, past, c, t.reach);
      if a.Decline? { return true, None, true, es; }
      if a.Approve? { return true, None, false, es; }
      if !Retryable(a.err) { return true, Some(a.err), false, es; }
      if n == MAX_ATTEMPTS { return true, Some(Exhausted(Some(a.err))), false, es; }
      es := Wait(c, req, total, t, base, Out(env, n), n, s, es);
      if t.ended.Some? { return true, Some(Interrupted(t.ended.value)), false, es; }
      return false, None, false, es;
    }

    /** The user service executes some of them, in any order. */
    method LandAll(c: nat, req: Request, total: int, n: nat, lands: seq<nat>, base: nat, m: nat, ghost t: State)
      requires At(t, c, req, total, Waiting(n))
      requires Fleet(t.adrift, base, m, Errand(req.user, total, req.key, c))
      modifies ledger
      ensures var u := Exec(ledger.users, t, Landings(c, base, m, lands));
              && At(u, c, req, total, Waiting(n))
              && Fleet(u.adrift, base, Left(m, lands), Errand(req.user, total, req.key, c))
      decreases |lands|
    {
      if lands == [] { return; }
      if lands[0] < m {
        Landing(c, req, total, n, base, m, lands[0], t);
        LandFirst(ledger.users, t, c, base + lands[0], Landings(c, base, m - 1, lands[1..]));
        LandAll(c, req, total, n, lands[1..], base, m - 1, LandStep(ledger.users, t, base + lands[0]));
      } else {
        LandAll(c, req, total, n, lands[1..], base, m, t);
      }
    }

    /** The wait after an attempt, during which m requests are adrift and some get executed. */
    method Wait(c: nat, req: Request, total: int, t: Try, base: nat, m: nat, n: nat,
                ghost s: State, ghost past: seq<Event>)
      returns (ghost es: seq<Event>)
      requires At(Exec(ledger.users, s, past), c, req, total, Waiting(n))
      requires Fleet(Exec(ledger.users, s, past).adrift, base, m, Errand(req.user, total, req.key, c))
      modifies ledger
      ensures At(Exec(ledger.users, s, es), c, req, total,
                 if t.ended.Some? then Failed(Interrupted(t.ended.value)) else Calling(n + 1))
      ensures Fleet(Exec(ledger.users, s, es).adrift, base, Left(m, t.lands), Errand(req.user, total, req.key, c))
      ensures Outside(es) == Outside(past) + Landings(c, base, m, t.lands) + [Wake(c, t.ended)]
    {
      ghost var was := Exec(ledger.users, s, past);
      LandAll(c, req, total, n, t.lands, base, m, was);
      es := SnocWait(ledger.users, s, past, was, c, base, m, n, t);
    }

    /** breaker.Do( retry( rpc ) ): a refused call makes no attempt; an admitted one tells the
        breaker its verdict, once. */
    method Guarded(c: nat, req: Request, total: int, env: nat -> Try, base: nat, now: int, later: int,
                   ghost s: State, ghost past: seq<Event>)
      returns (err: Option<Error>, declined: bool, tries: nat, ghost es: seq<Event>)
      requires Outside(past) == [] && |Exec(ledger.users, s, past).adrift| == base
      requires At(Exec(ledger.users, s, past), c, req, 0, Pricing) && TotalCents(req.lines) == Some(total)
      modifies ledger, breaker
      ensures Concluded(Exec(ledger.users, s, es), c, req, total, err, declined)
      ensures breaker.View() == Heard(breaker.cfg, old(breaker.View()), now, err, later)
      ensures tries <= MAX_ATTEMPTS && Followed(c, env, base, tries, Outside(es))
      ensures tries > 0 <==> B.Admit(breaker.cfg, old(breaker.View()), now).admitted
      ensures tries == 0 ==> err == Some(CircuitOpen) && ledger.spent == old(ledger.spent)
      ensures tries > 0 && env(tries - 1).reach.Delivered? ==> Told(ledger.users, req.user, err)
    {
      var admitted := breaker.Allow(now);
      Snoc(ledger.users, s, past, Price(c, admitted));
      es := past + [Price(c, admitted)];
      if !admitted { return Some(CircuitOpen), false, 0, es; }
      err, declined, tries, es := CheckCredit(c, req, total, env, base, s, es);
      match Resilience.Verdict(err)
      case Release => breaker.ReleaseCall();
      case Failure => breaker.OnFailure(later);
      case Success => breaker.OnSuccess();
    }

    /** Validation, the lookup of the key and the total: an early reply, or the price to pay. */
    method Admit(c: nat, req: Request, ghost s: State)
      returns (early: Option<Response>, total: int, ghost es: seq<Event>)
      requires c !in s.calls && s.spent == ledger.spent && s.book == book.View()
      requires Known(req) ==> book.idem[req.key] in book.orders
      ensures Outside(es) == []
      ensures early.Some? ==>
                var t := Exec(ledger.users, s, es);
                && t.spent == ledger.spent && t.book == book.View()
                && c in t.calls && t.calls[c].req == req && t.calls[c].phase == Finished(early.value)
      ensures early.None? ==>
                At(Exec(ledger.users, s, es), c, req, 0, Pricing)
                && Exec(ledger.users, s, es).adrift == s.adrift && TotalCents(req.lines) == Some(total)
      ensures (early.Some? && early.value.Replied?) || (early.None? && Known(req)) ==>
                Known(req) && book.idem[req.key] in book.orders
                && early == Some(Replied(book.orders[book.idem[req.key]], OK))
      ensures early.Some? && early.value.Refused? <==>
                req.user == "" || req.lines == [] || (!Known(req) && !Positive(req.lines))
      ensures early.Some? && early.value.Refused? ==> early.value == Refused(InvalidArgument)
    {
      total := 0;
      es := First(ledger.users, s, Begin(c, req));
      if req.user == "" || req.lines == [] { return Some(Refused(InvalidArgument)), 0, es; }
      var found := book.Lookup(req.key);
      if found.Some? {
        Snoc(ledger.users, s, es, Replay(c));
        es := es + [Replay(c)];
        return Some(Replied(book.orders[found.value], OK)), 0, es;
      }
      var sum := SumLines(req.lines);
      if sum.Some? { return None, sum.value, es; }
      Snoc(ledger.users, s, es, Price(c, true));
      return Some(Refused(InvalidArgument)), 0, es + [Price(c, true)];
    }

    /** One CreateOrder that meets no other call on its way is a run of the protocol, from the
        state it finds to the reply it gives; the breaker hears of it at most once. */
    method CreateOrder(c: nat, req: Request, env: nat -> Try, base: nat, now: int, later: int, ghost s: State)
      returns (res: Response, tries: nat, check: Option<Check>, ghost es: seq<Event>)
      requires base == |s.adrift|
      requires Inv(s) && c !in s.calls && s.spent == ledger.spent && s.book == book.View()
      modifies ledger, book, breaker
      ensures var t := Exec(ledger.users, s, es);
              && t.spent == ledger.spent && t.book == book.View()
              && c in t.calls && t.calls[c].req == req && t.calls[c].phase == Finished(res)
      ensures tries <= MAX_ATTEMPTS && Followed(c, env, base, tries, Outside(es))
      ensures tries > 0 ==> check.Some?
      // a known key changes nothing and is answered with its order
      ensures (req.user != "" && req.lines != [] && old(Known(req))) ==>
                && book.View() == old(book.View()) && ledger.spent == old(ledger.spent)
                && breaker.View() == old(breaker.View())
                && old(book.idem)[req.key] in book.orders
                && res == Replied(book.orders[old(book.idem)[req.key]], OK)
      // a reply with a new order is in the book, under the key
      ensures res.Replied? && !old(Known(req)) ==> Filed(res.order, req, old(book.count) + 1)
      ensures res.Refused? ==> book.View() == old(book.View())
      // the breaker hears the very outcome that the reply answers
      ensures check.None? ==> tries == 0 && breaker.View() == old(breaker.View()) && ledger.spent == old(ledger.spent)
      ensures check.Some? ==>
                && breaker.View() == Heard(breaker.cfg, old(breaker.View()), now, check.value.err, later)
                && TotalCents(req.lines).Some? && Answers(check.value, TotalCents(req.lines).value, res)
      ensures tries > 0 && env(tries - 1).reach.Delivered? ==>
                && Told(ledger.users, req.user, check.value.err)
                && (req.user !in ledger.users ==> res == Refused(NotFound))
                && (req.user in ledger.users && !ledger.users[req.user].active ==> res == Refused(FailedPrecondition))
      ensures res.Replied? && !old(Known(req)) ==> SaysRequest(res.order, old(book.count) + 1, req)
    {
      if Known(req) { KeyIsStored(s, req.key); }
      var early, total;
      early, total, es := Admit(c, req, s);
      if early.Some? { return early.value, 0, None, es; }
      var k;
      res, tries, k, es := Proceed(c, req, total, env, base, now, later, s, es);
      check := Some(k);
    }

    /** The check of the credit and what follows from it. */
    method Proceed(c: nat, req: Request, total: int, env: nat -> Try, base: nat, now: int, later: int,
                   ghost s: State, ghost past: seq<Event>)
      returns (res: Response, tries: nat, k: Check, ghost es: seq<Event>)
      requires Outside(past) == [] && |Exec(ledger.users, s, past).adrift| == base
      requires At(Exec(ledger.users, s, past), c, req, 0, Pricing) && TotalCents(req.lines) == Some(total)
      modifies ledger, book, breaker
      ensures At(Exec(ledger.users, s, es), c, req, total, Finished(res))
      ensures tries <= MAX_ATTEMPTS && Followed(c, env, base, tries, Outside(es))
      ensures breaker.View() == Heard(breaker.cfg, old(breaker.View()), now, k.err, later)
      ensures Answers(k, total, res)
      ensures tries > 0 && env(tries - 1).reach.Delivered? ==> Told(ledger.users, req.user, k.err)
      ensures res.Refused? ==> book.View() == old(book.View())
      ensures res.Replied? ==> SaysRequest(res.order, old(book.count) + 1, req) && Filed(res.order, req, old(book.count) + 1)
    {
      var err, declined;
      err, declined, tries, es := Guarded(c, req, total, env, base, now, later, s, past);
      k := Check(err, declined);
      res, es := Conclude(c, req, total, err, declined, s, es);
    }

    /** What to do about a check that failed: refuse, or take the order as pending. */
    method Decide(e: Error, total: int) returns (refusal: Option<Response>)
      ensures refusal.None? <==> Degrade(e, total).Degrading?
      ensures refusal.None? <==> Unreachable(e) && total <= 10_000
      ensures refusal.Some? ==> Degrade(e, total) == Finished(refusal.value)
      ensures refusal.Some? ==> refusal.value == Refused(RefusalCode(e))
    {
      if IsCircuitOpen(e) || CodeOf(e) == Unavailable {
        if total <= SMALL_ORDER { return None; }
        return Some(Refused(Unavailable));
      }
      match CodeOf(e)
      case NotFound => return Some(Refused(NotFound));
      case FailedPrecondition => return Some(Refused(FailedPrecondition));
      case InvalidArgument => return Some(Refused(InvalidArgument));
      case PermissionDenied => return Some(Refused(PermissionDenied));
      case DeadlineExceeded => return Some(Refused(DeadlineExceeded));
      case Canceled => return Some(Refused(Canceled));
      case _ => return Some(Refused(Internal));
    }

    /** Degraded mode, rejection or confirmation. */
    method Conclude(c: nat, req: Request, total: int, err: Option<Error>, declined: bool,
                    ghost s: State, ghost past: seq<Event>)
      returns (res: Response, ghost es: seq<Event>)
      requires Concluded(Exec(ledger.users, s, past), c, req, total, err, declined)
      requires TotalCents(req.lines) == Some(total)
      modifies book
      ensures At(Exec(ledger.users, s, es), c, req, total, Finished(res)) && Outside(es) == Outside(past)
      ensures res.Refused? ==> book.View() == old(book.View())
      ensures res.Replied? ==> Filed(res.order, req, old(book.count) + 1)
      ensures Answers(Check(err, declined), total, res)
      ensures res.Replied? ==> SaysRequest(res.order, old(book.count) + 1, req)
    {
      es := past;
      if err.Some? {
        es := SnocResolve(ledger.users, s, es, c);
        var refusal := Decide(err.value, total);
        if refusal.Some? { return refusal.value, es; }
      }
      var st := if err.Some? then Pending else if declined then Rejected else Confirmed;
      es := SnocStore(ledger.users, s, es, c);
      var o := book.PersistOrder(req, total, st);
      res := Replied(o, if st.Rejected? then FailedPrecondition else OK);
    }
  }

  lemma KeyIsStored(s: State, k: string)
    requires Inv(s) && k in s.book.idem
    ensures s.book.idem[k] in s.book.orders
  {
    var i :| KeyLeadsTo(s.book, s.persisted, k, i);
    assert EntryFiled(s.book, s.persisted, i);
  }
}
