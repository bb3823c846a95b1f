/** The user service's credit ledger and the totals charged against it, in 64-bit cents. */
module Credit {
  import opened Common

  datatype User = User(limit: int, active: bool)

  datatype Reply = NoUser | Inactive | Declined(remaining: int) | Approved(remaining: int)

  datatype Charged = Charged(reply: Reply, spent: map<string, int>)

  function SpentBy(spent: map<string, int>, user: string): int {
    if user in spent then spent[user] else 0
  }

  /** ValidateCredit under its lock: an approval spends the amount. */
  function Validate(users: map<string, User>, spent: map<string, int>, user: string, amount: int): Charged {
    if user !in users then Charged(NoUser, spent)
    else if !users[user].active then Charged(Inactive, spent)
    else
      var remaining := Wrap64(users[user].limit - SpentBy(spent, user));
      if amount > remaining then Charged(Declined(remaining), spent)
      else Charged(Approved(Wrap64(remaining - amount)),
                   spent[user := Wrap64(SpentBy(spent, user) + amount)])
  }

  /** A ledger in order: limits fit 64 bits, nobody owes less than nothing or more than the limit. */
  ghost predicate Solvent(users: map<string, User>, spent: map<string, int>) {
    && (forall u :: u in users ==> 0 <= users[u].limit < TWO_63)
    && (forall u :: u in spent ==> u in users)
    && (forall u :: u in users ==> 0 <= SpentBy(spent, u) <= users[u].limit)
  }

  /** For a non-negative amount: approved exactly when the user is active and the amount fits
      in what is left, and then exactly the amount is spent, without wrapping around. */
  lemma ValidateMeans(users: map<string, User>, spent: map<string, int>, user: string, amount: int)
    requires Solvent(users, spent) && 0 <= amount < TWO_63
    ensures var r := Validate(users, spent, user, amount);
            && Solvent(users, r.spent)
            && (r.reply.Approved? <==>
                  user in users && users[user].active && SpentBy(spent, user) + amount <= users[user].limit)
            && (r.reply.Approved? ==>
                  && SpentBy(r.spent, user) == SpentBy(spent, user) + amount
                  && r.reply.remaining == users[user].limit - SpentBy(r.spent, user))
            && (!r.reply.Approved? ==> r.spent == spent)
            && (r.reply.NoUser? <==> user !in users)
            && (r.reply.Inactive? <==> user in users && !users[user].active)
            && (r.reply.Declined? ==> r.reply.remaining == users[user].limit - SpentBy(spent, user) < amount)
            && (forall u :: u != user ==> SpentBy(r.spent, u) == SpentBy(spent, u))
  {
  }

  /** An approval changes one user's spending, by the amount, modulo 2^64. */
  lemma ApprovalSpends(users: map<string, User>, spent: map<string, int>, user: string, amount: int, u: string)
    ensures var r := Validate(users, spent, user, amount);
            SpentBy(r.spent, u) == if r.reply.Approved? && u == user then Wrap64(SpentBy(spent, u) + amount)
                                   else SpentBy(spent, u)
  {
  }

  /** The new sum does not fall below what 64 bits can hold (nor has the remaining credit
      already grown beyond them). */
  predicate StaysAbove(limit: int, spent: int, amount: int) {
    spent + amount >= -TWO_63 || limit - spent >= TWO_63
  }

  /** Amounts are not checked, and a negative one can wrap around. In 64 bits an approval keeps
      the user within the limit if and only if the sum stays above. */
  lemma ApprovalWithinLimit(users: map<string, User>, spent: map<string, int>, user: string, amount: int)
    requires user in users && 0 <= users[user].limit < TWO_63
    requires -TWO_63 <= SpentBy(spent, user) <= users[user].limit && InInt64(amount)
    requires Validate(users, spent, user, amount).reply.Approved?
    ensures SpentBy(Validate(users, spent, user, amount).spent, user) <= users[user].limit
            <==> StaysAbove(users[user].limit, SpentBy(spent, user), amount)
  {
    var limit, before := users[user].limit, SpentBy(spent, user);
    assert limit - before < 2 * TWO_63;
  }

  class Ledger {
    const users: map<string, User>
    var spent: map<string, int>

    constructor (users: map<string, User>)
      ensures this.users == users && spent == map[]
    {
      this.users := users;
      spent := map[];
    }

    method ValidateCredit(user: string, amount: int) returns (reply: Reply)
      modifies this
      ensures Charged(reply, spent) == Validate(users, old(spent), user, amount)
    {
      if user !in users { return NoUser; }
      var u := users[user];
      if !u.active { return Inactive; }
      var before := if user in spent then spent[user] else 0;
      var remaining := Wrap64(u.limit - before);
      if amount > remaining { return Declined(remaining); }
      spent := spent[user := Wrap64(before + amount)];
      reply := Approved(Wrap64(remaining - amount));
    }
  }

  // ---- Totals -------------------------------------------------------------------------

  datatype Line = Line(sku: string, quantity: int, price: int)

  /** The order's total in 64-bit arithmetic; None when some quantity is not positive. */
  function TotalCents(lines: seq<Line>): Option<int> {
    if lines == [] then Some(0)
    else
      match TotalCents(lines[..|lines| - 1])
      case None => None
      case Some(t) =>
        var l := lines[|lines| - 1];
        if l.quantity <= 0 then None else Some(Wrap64(t + Wrap64(l.quantity * l.price)))
  }

  /** The intended total. */
  function ExactTotal(lines: seq<Line>): int {
    if lines == [] then 0
    else ExactTotal(lines[..|lines| - 1]) + lines[|lines| - 1].quantity * lines[|lines| - 1].price
  }

  ghost predicate Positive(lines: seq<Line>) { forall i :: 0 <= i < |lines| ==> lines[i].quantity > 0 }

  /** Quantities alone decide whether there is a total, and the total is the intended one
      modulo 2^64, so exactly the intended one when that fits. */
  lemma {:induction false} TotalIsExact(lines: seq<Line>)
    ensures TotalCents(lines).Some? <==> Positive(lines)
    ensures Positive(lines) ==> TotalCents(lines).value == Wrap64(ExactTotal(lines))
    ensures Positive(lines) && InInt64(ExactTotal(lines)) ==> TotalCents(lines).value == ExactTotal(lines)
  {
    if lines != [] {
      var init := lines[..|lines| - 1];
      var l := lines[|lines| - 1];
      TotalIsExact(init);
      assert Positive(lines) <==> Positive(init) && l.quantity > 0;
      var p := l.quantity * l.price;
      WrapAdd(ExactTotal(init), Wrap64(p));
      WrapAdd(p, ExactTotal(init));
    }
  }

  /** Non-negative prices whose exact total fits give a non-negative total. */
  lemma {:induction false} NonNegativePrices(lines: seq<Line>)
    requires Positive(lines) && forall i :: 0 <= i < |lines| ==> lines[i].price >= 0
    requires ExactTotal(lines) < TWO_63
    ensures TotalCents(lines) == Some(ExactTotal(lines)) && ExactTotal(lines) >= 0
  {
    ExactNonNegative(lines);
    TotalIsExact(lines);
  }

  lemma {:induction false} ExactNonNegative(lines: seq<Line>)
    requires Positive(lines) && forall i :: 0 <= i < |lines| ==> lines[i].price >= 0
    ensures ExactTotal(lines) >= 0
  {
    if lines != [] {
      ExactNonNegative(lines[..|lines| - 1]);
      var l := lines[|lines| - 1];
      assert l.quantity * l.price >= 0;
    }
  }

  /** The loop of CreateOrder: it stops at the first bad line. */
  method SumLines(lines: seq<Line>) returns (total: Option<int>)
    ensures total == TotalCents(lines)
    ensures total.Some? <==> Positive(lines)
  {
    TotalIsExact(lines);
    var sum := 0;
    var i := 0;
    while i < |lines|
      invariant 0 <= i <= |lines|
      invariant TotalCents(lines[..i]) == Some(sum)
    {
      assert lines[..i + 1][..i] == lines[..i];
      TotalIsExact(lines[..i + 1]);
      if lines[i].quantity <= 0 {
        return None;
      }
      sum := Wrap64(sum + Wrap64(lines[i].quantity * lines[i].price));
      i := i + 1;
    }
    assert lines[..i] == lines;
    return Some(sum);
  }
}
