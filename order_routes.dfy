/** The order routes (routes/orders.js): checkout, which turns the user's cart
    into an order with locked-in prices and then deletes the cart, and the two
    reads of the order ledger, both restricted to the user's own orders. */
module OrderRoutes {
  import opened Common
  import opened Menu
  import opened CartModel
  import opened OrderModel
  import opened Store
  import opened CartRoutes

  /** The failures the order routes answer with. */
  datatype OrderError =
    | CartEmpty        // 400 'Cart is empty'
    | StorageFailure   // passed to next(err): a write to the database failed
    | OrderNotFound    // 404 'Order not found'

  /** Every line's menu item can be looked up (populated). */
  predicate Resolves(catalog: Catalog, items: seq<CartItem>) {
    forall k :: 0 <= k < |items| ==> items[k].menuItem in catalog
  }

  // ------------------------------------------------------- POST /create

  /** The order lines a checkout builds: one per cart line, in order, copying
      the item and quantity and snapshotting the item's current price. */
  function Snapshot(catalog: Catalog, items: seq<CartItem>): (r: seq<OrderItem>)
    requires Resolves(catalog, items)
    ensures |r| == |items|
    ensures forall k :: 0 <= k < |items| ==>
      r[k] == OrderItem(items[k].menuItem, items[k].quantity, catalog[items[k].menuItem].price)
  {
    if |items| == 0 then []
    else
      var last := items[|items| - 1];
      Snapshot(catalog, items[..|items| - 1]) + [OrderItem(last.menuItem, last.quantity, catalog[last.menuItem].price)]
  }

  /** `cart.items.map(...)` with `total += price * quantity` in its callback:
      the snapshot lines and their running total. */
  method BuildOrderItems(catalog: Catalog, items: seq<CartItem>) returns (orderItems: seq<OrderItem>, total: Money)
    requires Resolves(catalog, items)
    ensures orderItems == Snapshot(catalog, items)
    ensures total == Total(orderItems)
  {
    orderItems, total := [], 0;
    var k := 0;
    while k < |items|
      invariant 0 <= k <= |items|
      invariant orderItems == Snapshot(catalog, items[..k])
      invariant total == Total(orderItems)
    {
      var price := catalog[items[k].menuItem].price;
      var line := OrderItem(items[k].menuItem, items[k].quantity, price);
      assert items[..k + 1][..k] == items[..k];
      assert (orderItems + [line])[..|orderItems|] == orderItems;
      total := total + price * items[k].quantity;
      orderItems := orderItems + [line];
      k := k + 1;
    }
    assert items[..k] == items;
  }

  /** The order a checkout saves, as a function of the stored cart, or its error. */
  function PlaceOrder(catalog: Catalog, stored: Option<Cart>, user: UserId, id: OrderId, now: Time): (r: Result<Order, OrderError>)
    requires stored.Some? ==> Resolves(catalog, stored.value.items)
    ensures r.Err? <==> stored.None? || |stored.value.items| == 0
    ensures r.Err? ==> r.error == CartEmpty
    ensures r.Ok? ==>
      && r.value.id == id && r.value.user == user
      && r.value.status == Created && r.value.createdAt == now
      && r.value.items == Snapshot(catalog, stored.value.items)
      && r.value.totalAmount == Total(r.value.items)
      && r.value.restaurant == Some(catalog[stored.value.items[0].menuItem].restaurant)
  {
    if stored.None? || |stored.value.items| == 0 then Err(CartEmpty)
    else
      var items := stored.value.items;
      var orderItems := Snapshot(catalog, items);
      Ok(NewOrder(id, user, orderItems, Total(orderItems), Some(catalog[items[0].menuItem].restaurant), now))
  }

  /** An order placed from a valid cart keeps the order invariant, and its
      amount is the sum of current price times quantity over the cart's lines. */
  lemma PlacedOrderValid(catalog: Catalog, c: Cart, id: OrderId, now: Time)
    requires CartInvariant(catalog, c) && |c.items| > 0
    ensures Resolves(catalog, c.items)
    ensures var r := PlaceOrder(catalog, Some(c), c.user, id, now);
      && r.Ok? && OrderInvariant(r.value)
      && r.value.totalAmount == CartTotal(catalog, c.items)
  {
    SnapshotTotal(catalog, c.items);
  }

  /** The sum of current catalog price times quantity over the cart lines. */
  function CartTotal(catalog: Catalog, items: seq<CartItem>): Money
    requires Resolves(catalog, items)
  {
    if |items| == 0 then 0
    else catalog[items[0].menuItem].price * items[0].quantity + CartTotal(catalog, items[1..])
  }

  /** The total of the snapshot lines is the cart total at the prices of the moment. */
  lemma {:induction false} SnapshotTotal(catalog: Catalog, items: seq<CartItem>)
    requires Resolves(catalog, items)
    ensures Total(Snapshot(catalog, items)) == CartTotal(catalog, items)
  {
    if |items| > 0 {
      var head := OrderItem(items[0].menuItem, items[0].quantity, catalog[items[0].menuItem].price);
      assert Snapshot(catalog, items) == [head] + Snapshot(catalog, items[1..]);
      TotalAppend([head], Snapshot(catalog, items[1..]));
      assert Total([head]) == Total([]) + head.priceAtPurchase * head.quantity;
      SnapshotTotal(catalog, items[1..]);
    }
  }

  /** Two lines, 10.00 twice and 5.00 once, make an order of 25.00. */
  lemma CheckoutExample(catalog: Catalog, c: Cart, a: ItemId, b: ItemId, now: Time)
    requires a in catalog && b in catalog && catalog[a].price == 1000 && catalog[b].price == 500
    requires c.items == [CartItem(a, 2), CartItem(b, 1)]
    ensures var r := PlaceOrder(catalog, Some(c), c.user, 0, now);
      && r.Ok? && r.value.totalAmount == 2500
      && r.value.items[0].priceAtPurchase == 1000 && r.value.items[1].priceAtPurchase == 500
  {
    var r := PlaceOrder(catalog, Some(c), c.user, 0, now);
    var first := OrderItem(a, 2, 1000);
    assert r.value.items == [first, OrderItem(b, 1, 500)];
    assert r.value.items[..1] == [first];
    assert [first][..0] == [];
    assert Total([first]) == 2000;
  }

  /** POST /create on the database. The order is saved before the cart is
      deleted: a failed save leaves everything as it was, a failed delete
      leaves the saved order and the cart both in place. */
  method Checkout(db: Db, user: UserId, now: Time, saveOk: bool, deleteOk: bool) returns (r: Result<Order, OrderError>)
    requires db.Valid()
    modifies db
    ensures db.Valid()
    ensures var placed := PlaceOrder(db.catalog, Stored(old(db.carts), user), user, |old(db.orders)|, now);
      r == (if placed.Err? || (saveOk && deleteOk) then placed else Err(StorageFailure))
    ensures var placed := PlaceOrder(db.catalog, Stored(old(db.carts), user), user, |old(db.orders)|, now);
      db.orders == (if placed.Ok? && saveOk then old(db.orders) + [placed.value] else old(db.orders))
    ensures var placed := PlaceOrder(db.catalog, Stored(old(db.carts), user), user, |old(db.orders)|, now);
      db.carts == (if placed.Ok? && saveOk && deleteOk then old(db.carts) - {user} else old(db.carts))
  {
    if user !in db.carts || |db.carts[user].items| == 0 {
      return Err(CartEmpty);
    }
    var cart := db.carts[user];
    PlacedOrderValid(db.catalog, cart, |db.orders|, now);
    var orderItems, total := BuildOrderItems(db.catalog, cart.items);
    var restaurant: Option<RestaurantId> := None;
    if |cart.items| > 0 {
      restaurant := Some(db.catalog[cart.items[0].menuItem].restaurant);
    }
    var order := NewOrder(|db.orders|, user, orderItems, total, restaurant, now);
    assert PlaceOrder(db.catalog, Stored(db.carts, user), user, |db.orders|, now) == Ok(order);
    if !saveOk {
      return Err(StorageFailure);
    }
    db.SaveOrder(order);
    if !deleteOk {
      return Err(StorageFailure);
    }
    ClearCart(db, user);
    r := Ok(order);
  }

  // ------------------------------------------------------------- GET /

  /** `Order.find({user})`: the user's orders, in ledger order. */
  function OwnedBy(orders: seq<Order>, user: UserId): (r: seq<Order>)
    ensures forall o :: o in r <==> o in orders && o.user == user
  {
    if |orders| == 0 then []
    else if orders[0].user == user then [orders[0]] + OwnedBy(orders[1..], user)
    else OwnedBy(orders[1..], user)
  }

  predicate NewestFirst(s: seq<Order>) {
    forall j, k :: 0 <= j < k < |s| ==> s[j].createdAt >= s[k].createdAt
  }

  /** Places an order into a newest-first list, ahead of every order that is not newer. */
  function Insert(o: Order, s: seq<Order>): (r: seq<Order>)
    requires NewestFirst(s)
    ensures NewestFirst(r)
    ensures multiset(r) == multiset(s) + multiset{o}
  {
    if |s| == 0 || o.createdAt >= s[0].createdAt then
      ConsNewestFirst(o, s);
      [o] + s
    else
      var rest := Insert(o, s[1..]);
      assert s == [s[0]] + s[1..];
      NoNewerThan(rest, s[1..], o, s[0].createdAt);
      ConsNewestFirst(s[0], rest);
      [s[0]] + rest
  }

  /** An order no older than the head of a newest-first list may head it. */
  lemma ConsNewestFirst(o: Order, s: seq<Order>)
    requires NewestFirst(s) && (|s| > 0 ==> s[0].createdAt <= o.createdAt)
    ensures NewestFirst([o] + s)
  {
    var r := [o] + s;
    forall j, k | 0 <= j < k < |r| ensures r[j].createdAt >= r[k].createdAt {
      assert r[k] == s[k - 1];
      if j > 0 {
        assert r[j] == s[j - 1];
      } else if k > 1 {
        assert s[0].createdAt >= s[k - 1].createdAt;
      }
    }
  }

  /** A list holding the orders of s and one more order o holds none newer
      than a time that neither o nor any order of s exceeds. */
  lemma NoNewerThan(r: seq<Order>, s: seq<Order>, o: Order, t: Time)
    requires multiset(r) == multiset(s) + multiset{o}
    requires o.createdAt <= t && forall k :: 0 <= k < |s| ==> s[k].createdAt <= t
    ensures forall k :: 0 <= k < |r| ==> r[k].createdAt <= t
  {
    forall k | 0 <= k < |r| ensures r[k].createdAt <= t {
      assert r[k] in multiset(r);
      if r[k] != o {
        assert r[k] in multiset(s);
      }
    }
  }

  /** `.sort({createdAt: -1})`: newest first; orders with the same time keep
      the later-saved one first. */
  function SortNewestFirst(s: seq<Order>): (r: seq<Order>)
    ensures NewestFirst(r)
    ensures multiset(r) == multiset(s)
  {
    if |s| == 0 then []
    else
      assert s == s[..|s| - 1] + [s[|s| - 1]];
      Insert(s[|s| - 1], SortNewestFirst(s[..|s| - 1]))
  }

  /** GET /: exactly the user's orders, newest first. */
  function ListOrders(orders: seq<Order>, user: UserId): (r: seq<Order>)
    ensures NewestFirst(r)
    ensures multiset(r) == multiset(OwnedBy(orders, user))
    ensures forall k :: 0 <= k < |r| ==> r[k].user == user && r[k] in orders
  {
    var r := SortNewestFirst(OwnedBy(orders, user));
    assert forall k :: 0 <= k < |r| ==> r[k] in multiset(OwnedBy(orders, user));
    r
  }

  lemma {:induction false} OwnedByAppend(orders: seq<Order>, o: Order, user: UserId)
    ensures OwnedBy(orders + [o], user) == OwnedBy(orders, user) + (if o.user == user then [o] else [])
  {
    if |orders| > 0 {
      assert (orders + [o])[1..] == orders[1..] + [o];
      OwnedByAppend(orders[1..], o, user);
    } else {
      assert (orders + [o])[1..] == [];
    }
  }

  /** After a checkout at a time later than every saved order, the new
      order heads its owner's list and everyone else's list is unchanged. */
  lemma ListAfterCheckout(orders: seq<Order>, o: Order, user: UserId)
    requires forall k :: 0 <= k < |orders| ==> orders[k].createdAt < o.createdAt
    ensures o.user == user ==> ListOrders(orders + [o], user) == [o] + ListOrders(orders, user)
    ensures o.user != user ==> ListOrders(orders + [o], user) == ListOrders(orders, user)
  {
    OwnedByAppend(orders, o, user);
    if o.user == user {
      var mine := OwnedBy(orders, user);
      assert (mine + [o])[..|mine|] == mine;
      var sorted := SortNewestFirst(mine);
      assert SortNewestFirst(mine + [o]) == Insert(o, sorted);
      if |sorted| > 0 {
        assert sorted[0] in multiset(mine);
        assert sorted[0] in orders;
        var i :| 0 <= i < |orders| && orders[i] == sorted[0];
        assert o.createdAt >= sorted[0].createdAt;
      }
    } else {
      assert OwnedBy(orders, user) + [] == OwnedBy(orders, user);
    }
  }

  // ----------------------------------------------------------- GET /:id

  /** GET /:id: the order with that id, only if it belongs to the user. */
  function GetOrder(orders: seq<Order>, user: UserId, id: OrderId): (r: Result<Order, OrderError>)
    ensures r.Ok? <==> exists k :: 0 <= k < |orders| && orders[k].id == id && orders[k].user == user
    ensures r.Ok? ==> r.value in orders && r.value.id == id && r.value.user == user
    ensures r.Err? ==> r.error == OrderNotFound
  {
    if |orders| == 0 then Err(OrderNotFound)
    else if orders[0].id == id && orders[0].user == user then Ok(orders[0])
    else
      var r := GetOrder(orders[1..], user, id);
      assert forall k :: 1 <= k < |orders| ==> orders[k] == orders[1..][k - 1];
      r
  }

  /** Other users' orders are invisible to the lookup: it answers exactly as
      if the ledger held only the user's own orders, so an order of someone
      else gets the same 404 as an id that does not exist. */
  lemma {:induction false} GetOrderSeesOnlyOwn(orders: seq<Order>, user: UserId, id: OrderId)
    ensures GetOrder(orders, user, id) == GetOrder(OwnedBy(orders, user), user, id)
  {
    if |orders| > 0 {
      GetOrderSeesOnlyOwn(orders[1..], user, id);
      if orders[0].user == user {
        var own := [orders[0]] + OwnedBy(orders[1..], user);
        assert own[1..] == OwnedBy(orders[1..], user);
      }
    }
  }
}
