/** Creating an order in one transaction: price and reserve every item, store the order and
    its lines, or leave everything as it was. Money is in whole minor units; row locks make
    each transaction one step. */
module Shop {
  import opened Common

  datatype Product = Product(price: int, stock: int)
  datatype Item = Item(product: int, quantity: int)
  datatype Line = Line(product: int, quantity: int, unitPrice: int)
  datatype Order = Order(user: int, total: int, lines: seq<Line>)
  datatype Store = Store(products: map<int, Product>, orders: seq<Order>)

  datatype Failure = Validation | NoUser | NoItems | NoProduct | NoStock | Database
  datatype Result = Created(order: Order) | Refused(why: Failure)

  /** AdjustStock: the guarded UPDATE, None when it touches no row. */
  function Adjust(ps: map<int, Product>, id: int, delta: int): Option<map<int, Product>> {
    if id in ps && ps[id].stock + delta >= 0
    then Some(ps[id := ps[id].(stock := ps[id].stock + delta)]) else None
  }

  /** The stock after reserving the items in order, None when some item cannot be reserved. */
  function Reserve(ps: map<int, Product>, items: seq<Item>): Option<map<int, Product>> {
    if items == [] then Some(ps)
    else
      match Reserve(ps, items[..|items| - 1])
      case None => None
      case Some(qs) => Adjust(qs, items[|items| - 1].product, -items[|items| - 1].quantity)
  }

  /** How much of a product the items ask for together; a product may occur repeatedly. */
  function Need(items: seq<Item>, id: int): int {
    if items == [] then 0
    else
      var last := items[|items| - 1];
      Need(items[..|items| - 1], id) + if last.product == id then last.quantity else 0
  }

  function Cost(ps: map<int, Product>, items: seq<Item>): int {
    if items == [] then 0
    else
      var last := items[|items| - 1];
      Cost(ps, items[..|items| - 1]) + if last.product in ps then ps[last.product].price * last.quantity else 0
  }

  function Lines(ps: map<int, Product>, items: seq<Item>): seq<Line> {
    if items == [] then []
    else
      var last := items[|items| - 1];
      Lines(ps, items[..|items| - 1]) +
      [Line(last.product, last.quantity, if last.product in ps then ps[last.product].price else 0)]
  }

  /** What the lines of an order come to. */
  function Amount(lines: seq<Line>): int {
    if lines == [] then 0
    else Amount(lines[..|lines| - 1]) + lines[|lines| - 1].quantity * lines[|lines| - 1].unitPrice
  }

  /** Line i is item i at the price its product has. */
  predicate SaysItem(ps: map<int, Product>, line: Line, item: Item) {
    && item.product in ps
    && line.product == item.product && line.quantity == item.quantity
    && line.unitPrice == ps[item.product].price
  }

  /** The lines name the items in their order, and the total is the sum of quantity times price
      over the lines. */
  lemma {:induction false} LinesSayItems(ps: map<int, Product>, items: seq<Item>)
    requires forall i :: 0 <= i < |items| ==> items[i].product in ps
    ensures |Lines(ps, items)| == |items|
    ensures forall i :: 0 <= i < |items| ==> SaysItem(ps, Lines(ps, items)[i], items[i])
    ensures Amount(Lines(ps, items)) == Cost(ps, items)
  {
    if items != [] {
      var n := |items| - 1;
      LinesSayItems(ps, items[..n]);
      assert Lines(ps, items)[..n] == Lines(ps, items[..n]);
    }
  }

  // ---- What a reservation means -------------------------------------------------------

  lemma {:induction false} ReserveTakesNeed(ps: map<int, Product>, items: seq<Item>)
    requires Reserve(ps, items).Some?
    ensures var qs := Reserve(ps, items).value;
            && qs.Keys == ps.Keys
            && forall id :: id in ps ==>
                 qs[id].price == ps[id].price && qs[id].stock == ps[id].stock - Need(items, id)
  {
    if items != [] { ReserveTakesNeed(ps, items[..|items| - 1]); }
  }

  /** Item k can be reserved after the ones before it. */
  predicate Fits(ps: map<int, Product>, items: seq<Item>, k: int)
    requires 0 <= k < |items|
  {
    items[k].product in ps && Need(items[..k + 1], items[k].product) <= ps[items[k].product].stock
  }

  /** For any quantities at all: it succeeds exactly when at every item the product exists and
      what has been asked of it so far is in stock. */
  lemma {:induction false} ReserveIff(ps: map<int, Product>, items: seq<Item>)
    ensures Reserve(ps, items).Some? <==> forall k :: 0 <= k < |items| ==> Fits(ps, items, k)
  {
    if items != [] {
      var n := |items| - 1;
      var init := items[..n];
      ReserveIff(ps, init);
      forall k | 0 <= k < n ensures Fits(ps, items, k) <==> Fits(ps, init, k) {
        assert items[..k + 1] == init[..k + 1];
      }
      assert items[..n + 1] == items;
      if Reserve(ps, init).Some? {
        ReserveTakesNeed(ps, init);
        assert Reserve(ps, items).Some? <==> Fits(ps, items, n);
      } else {
        var k :| 0 <= k < n && !Fits(ps, init, k);
        assert !Fits(ps, items, k);
      }
    }
  }

  ghost predicate Positive(items: seq<Item>) { forall i :: 0 <= i < |items| ==> items[i].quantity > 0 }

  lemma {:induction false} NeedGrows(items: seq<Item>, k: nat, id: int)
    requires Positive(items) && k <= |items|
    ensures 0 <= Need(items[..k], id) <= Need(items, id)
    decreases |items|
  {
    if k < |items| {
      var init := items[..|items| - 1];
      NeedGrows(init, k, id);
      assert items[..k] == init[..k];
    } else {
      assert items[..k] == items;
      if items != [] {
        var init := items[..|items| - 1];
        NeedGrows(init, |init|, id);
        assert init[..|init|] == init;
      }
    }
  }

  /** Where product `id` is asked for last, everything asked of it has been asked. */
  lemma {:induction false} LastAsk(items: seq<Item>, id: int) returns (k: nat)
    requires Need(items, id) != 0
    ensures k < |items| && items[k].product == id && Need(items[..k + 1], id) == Need(items, id)
  {
    var n := |items| - 1;
    if items[n].product == id {
      assert items[..n + 1] == items;
      return n;
    }
    k := LastAsk(items[..n], id);
    assert items[..n][..k + 1] == items[..k + 1];
  }

  predicate Asks(ps: map<int, Product>, items: seq<Item>, i: int)
    requires 0 <= i < |items|
  {
    items[i].product in ps && Need(items, items[i].product) <= ps[items[i].product].stock
  }

  /** For validated, positive quantities the order of the items is irrelevant: it succeeds
      exactly when every product exists and the sum asked of each fits its stock. */
  lemma PositiveReserveIff(ps: map<int, Product>, items: seq<Item>)
    requires Positive(items)
    ensures Reserve(ps, items).Some? <==> forall i :: 0 <= i < |items| ==> Asks(ps, items, i)
  {
    ReserveIff(ps, items);
    if Reserve(ps, items).Some? {
      forall i | 0 <= i < |items| ensures Asks(ps, items, i) {
        assert Fits(ps, items, i);
        var id := items[i].product;
        NeedGrows(items, i + 1, id);
        NeedGrows(items, i, id);
        assert items[..i + 1][..i] == items[..i];
        var k := LastAsk(items, id);
        assert Fits(ps, items, k);
      }
    }
    if forall i :: 0 <= i < |items| ==> Asks(ps, items, i) {
      forall k | 0 <= k < |items| ensures Fits(ps, items, k) {
        assert Asks(ps, items, k);
        NeedGrows(items, k + 1, items[k].product);
      }
    }
  }

  // ---- The transaction ----------------------------------------------------------------

  function Create(s: Store, user: int, items: seq<Item>): Store {
    match Reserve(s.products, items)
    case None => s
    case Some(qs) => Store(qs, s.orders + [Order(user, Cost(s.products, items), Lines(s.products, items))])
  }

  predicate Valid(users: set<int>, user: int, items: seq<Item>) {
    && user != 0 && items != [] && user in users
    && forall i :: 0 <= i < |items| ==> items[i].product != 0 && items[i].quantity > 0
  }

  class Repository {
    var products: map<int, Product>
    var orders: seq<Order>

    constructor (s: Store)
      ensures View() == s
    {
      products, orders := s.products, s.orders;
    }

    ghost function View(): Store
      reads this
    {
      Store(products, orders)
    }

    /** Repository.Create. `broken(i)` says that a database call at item i fails; i == |items|
        stands for storing the order and committing. `lost` says that the commit takes effect
        but its acknowledgement does not arrive. */
    method CreateOrder(user: int, items: seq<Item>, broken: nat -> bool, lost: bool) returns (r: Result)
      modifies this
      // all or nothing; only a lost acknowledgement lets a failed call take effect
      ensures r.Created? ==> View() == Create(old(View()), user, items) && Reserve(old(products), items).Some?
      ensures r.Refused? ==>
                || View() == old(View())
                || (lost && r.why.Database? && View() == Create(old(View()), user, items))
      // what an order says: the items at the prices of before, and what they come to
      ensures r.Created? ==>
                && r.order.user == user && |r.order.lines| == |items|
                && (forall i :: 0 <= i < |items| ==> SaysItem(old(products), r.order.lines[i], items[i]))
                && r.order.total == Amount(r.order.lines)
                && orders == old(orders) + [r.order]
      ensures r.Created? ==> r.order == Order(user, Cost(old(products), items), Lines(old(products), items))
      // when it is refused
      ensures (!lost && forall i: nat :: !broken(i)) ==>
                (r.Created? <==> items != [] && Reserve(old(products), items).Some?)
      ensures items == [] <==> r == Refused(NoItems)
      ensures r.Refused? ==> !r.why.Validation? && !r.why.NoUser?
      ensures r.Refused? && r.why in {NoProduct, NoStock} ==>
                exists k :: 0 <= k < |items| && !Fits(old(products), items, k)
                            && (r.why.NoProduct? <==> items[k].product !in old(products))
                            && forall j :: 0 <= j < k ==> Fits(old(products), items, j)
    {
      if items == [] { return Refused(NoItems); }
      var work := products;
      var total := 0;
      var built: seq<Line> := [];
      var i := 0;
      while i < |items|
        invariant 0 <= i <= |items|
        invariant View() == old(View())
        invariant Reserve(products, items[..i]) == Some(work)
        invariant total == Cost(products, items[..i]) && built == Lines(products, items[..i])
      {
        assert items[..i + 1][..i] == items[..i];
        ReserveTakesNeed(products, items[..i]);
        ReserveFirstFailure(products, items, i);
        var item := items[i];
        if broken(i) { return Refused(Database); }
        if item.product !in work {
          assert !Fits(products, items, i);
          return Refused(NoProduct);
        }
        var price := work[item.product].price;
        if work[item.product].stock - item.quantity < 0 {
          assert !Fits(products, items, i);
          return Refused(NoStock);
        }
        work := work[item.product := work[item.product].(stock := work[item.product].stock - item.quantity)];
        total := total + price * item.quantity;
        built := built + [Line(item.product, item.quantity, price)];
        i := i + 1;
      }
      assert items[..i] == items;
      ReserveIff(products, items);
      forall k | 0 <= k < |items| ensures items[k].product in products { assert Fits(products, items, k); }
      LinesSayItems(products, items);
      if broken(|items|) { return Refused(Database); }
      var o := Order(user, total, built);
      products, orders := work, orders + [o];
      if lost { return Refused(Database); }
      return Created(o);
    }

    /** Service.Create: validation first. */
    method PlaceOrder(users: set<int>, user: int, items: seq<Item>, broken: nat -> bool, lost: bool)
      returns (r: Result)
      modifies this
      ensures r.Created? ==> Valid(users, user, items) && View() == Create(old(View()), user, items)
      ensures r.Refused? ==>
                || View() == old(View())
                || (lost && r.why.Database? && View() == Create(old(View()), user, items))
      ensures r == Refused(Validation) <==>
                user == 0 || items == [] || exists i :: 0 <= i < |items| && (items[i].product == 0 || items[i].quantity <= 0)
      ensures r == Refused(NoUser) <==> r != Refused(Validation) && user !in users
      ensures r.Created? ==> r.order.total == Amount(r.order.lines) && orders == old(orders) + [r.order]
      ensures (!lost && forall i: nat :: !broken(i)) ==>
                (r.Created? <==> Valid(users, user, items)
                                 && forall i :: 0 <= i < |items| ==> Asks(old(products), items, i))
    {
      if user == 0 || items == [] { return Refused(Validation); }
      var i := 0;
      while i < |items|
        invariant 0 <= i <= |items| && View() == old(View())
        invariant forall k :: 0 <= k < i ==> items[k].product != 0 && items[k].quantity > 0
      {
        if items[i].product == 0 || items[i].quantity <= 0 { return Refused(Validation); }
        i := i + 1;
      }
      if user !in users { return Refused(NoUser); }
      PositiveReserveIff(products, items);
      r := CreateOrder(user, items, broken, lost);
    }
  }

  lemma ReserveFirstFailure(ps: map<int, Product>, items: seq<Item>, i: nat)
    requires i < |items| && Reserve(ps, items[..i]).Some?
    ensures forall j :: 0 <= j < i ==> Fits(ps, items, j)
    ensures !Fits(ps, items, i) ==> Reserve(ps, items).None?
    ensures Fits(ps, items, i) <==> Reserve(ps, items[..i + 1]).Some?
  {
    ReserveIff(ps, items[..i]);
    ReserveIff(ps, items[..i + 1]);
    ReserveIff(ps, items);
    assert items[..i + 1][..i] == items[..i];
    forall j | 0 <= j < i ensures Fits(ps, items, j) {
      assert Fits(ps, items[..i], j);
      assert items[..i][..j + 1] == items[..j + 1];
    }
    forall j | 0 <= j <= i ensures Fits(ps, items[..i + 1], j) <==> Fits(ps, items, j) {
      assert items[..i + 1][..j + 1] == items[..j + 1];
    }
  }

  // ---- Whole runs ---------------------------------------------------------------------

  datatype Request = Request(user: int, items: seq<Item>)

  function Run(s: Store, rs: seq<Request>): Store {
    if rs == [] then s else Create(Run(s, rs[..|rs| - 1]), rs[|rs| - 1].user, rs[|rs| - 1].items)
  }

  function Ordered(orders: seq<Order>, id: int): int {
    if orders == [] then 0 else Ordered(orders[..|orders| - 1], id) + InLines(orders[|orders| - 1].lines, id)
  }

  function InLines(lines: seq<Line>, id: int): int {
    if lines == [] then 0
    else
      var last := lines[|lines| - 1];
      InLines(lines[..|lines| - 1], id) + if last.product == id then last.quantity else 0
  }

  lemma {:induction false} LinesHoldNeed(ps: map<int, Product>, items: seq<Item>, id: int)
    ensures InLines(Lines(ps, items), id) == Need(items, id)
    ensures |Lines(ps, items)| == |items|
  {
    if items != [] {
      var init := items[..|items| - 1];
      LinesHoldNeed(ps, init, id);
      assert Lines(ps, items)[..|items| - 1] == Lines(ps, init);
    }
  }

  /** One creation, successful or not, moves goods from the shelf to an order and nowhere else. */
  lemma CreateConserves(s: Store, user: int, items: seq<Item>, id: int)
    requires id in s.products && s.products[id].stock >= 0
    ensures var t := Create(s, user, items);
            && t.products.Keys == s.products.Keys
            && t.products[id].price == s.products[id].price
            && t.products[id].stock + Ordered(t.orders, id) == s.products[id].stock + Ordered(s.orders, id)
            && t.products[id].stock >= 0
  {
    var t := Create(s, user, items);
    if Reserve(s.products, items).Some? {
      ReserveTakesNeed(s.products, items);
      LinesHoldNeed(s.products, items, id);
      assert t.orders[..|s.orders|] == s.orders;
      StockStaysNonNegative(s.products, items, id);
    }
  }

  lemma {:induction false} StockStaysNonNegative(ps: map<int, Product>, items: seq<Item>, id: int)
    requires id in ps && ps[id].stock >= 0 && Reserve(ps, items).Some?
    ensures id in Reserve(ps, items).value && Reserve(ps, items).value[id].stock >= 0
  {
    if items != [] { StockStaysNonNegative(ps, items[..|items| - 1], id); }
  }

  /** Over any run of orders, for any quantities, stock is never negative and what left the
      shelf is what was ordered. */
  lemma {:induction false} GoodsAreConserved(s: Store, rs: seq<Request>, id: int)
    requires id in s.products && s.products[id].stock >= 0
    ensures var t := Run(s, rs);
            && id in t.products && t.products[id].stock >= 0
            && t.products[id].price == s.products[id].price
            && t.products[id].stock + Ordered(t.orders, id) == s.products[id].stock + Ordered(s.orders, id)
  {
    if rs != [] {
      GoodsAreConserved(s, rs[..|rs| - 1], id);
      CreateConserves(Run(s, rs[..|rs| - 1]), rs[|rs| - 1].user, rs[|rs| - 1].items, id);
    }
  }
}
