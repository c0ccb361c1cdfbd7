/** The cart routes (routes/cart.js): reading, adding to, updating, removing
    from and clearing the signed-in user's cart. Each route is first given as
    a function of the stored cart (what the handler answers and what cart it
    leaves), then as a method that performs it on the database. */
module CartRoutes {
  import opened Common
  import opened Menu
  import opened CartModel
  import opened Store

  /** The failures the cart routes answer with. */
  datatype CartError =
    | MenuItemIdRequired   // 400 'menuItemId required'
    | ItemNotAvailable     // 404 'Menu item not available'
    | OneRestaurantOnly    // 400 'You can only add items from one restaurant per cart. ...'
    | QuantityRequired     // 400 'Quantity required'
    | CartNotFound         // 404 'Cart not found'
    | ItemNotInCart        // 404 'Item not found in cart'
    | ServerError          // passed to next(err): a stored cart without a restaurant

  /** The answer of GET /: the stored cart, or the value `{user, items: []}`. */
  datatype CartView = StoredCart(cart: Cart) | EmptyCart(user: UserId) {
    function Owner(): UserId {
      match this
      case StoredCart(c) => c.user
      case EmptyCart(u) => u
    }
    function Items(): seq<CartItem> {
      match this
      case StoredCart(c) => c.items
      case EmptyCart(_) => []
    }
  }

  /** The lines of the stored cart, none when there is no cart. */
  function ItemsOf(stored: Option<Cart>): seq<CartItem> {
    if stored.Some? then stored.value.items else []
  }

  /** The item exists and may be ordered. */
  predicate Orderable(catalog: Catalog, id: ItemId) {
    id in catalog && catalog[id].isAvailable
  }

  // ---------------------------------------------------------------- GET /

  /** GET /: never fails; a user without a cart sees an empty one. */
  method GetCart(db: Db, user: UserId) returns (v: CartView)
    requires db.Valid()
    ensures v.Owner() == user
    ensures user in db.carts ==> v == StoredCart(db.carts[user])
    ensures user !in db.carts ==> v == EmptyCart(user) && v.Items() == []
  {
    var cart := Stored(db.carts, user);
    if cart.Some? {
      v := StoredCart(cart.value);
    } else {
      v := EmptyCart(user);
    }
  }

  // ------------------------------------------------------------ POST /add

  /** `Math.max(1, parseInt(quantity || 1))`: an absent quantity is one, and
      anything below one is raised to one. */
  function AddQuantity(quantity: Option<int>): (qty: int)
    ensures qty >= MinQuantity
    ensures quantity.Some? && quantity.value >= 1 ==> qty == quantity.value
    ensures quantity.None? || quantity.value < 1 ==> qty == 1
  {
    var requested := if quantity.None? || quantity.value == 0 then 1 else quantity.value;
    if requested < 1 then 1 else requested
  }

  /** Adding to the lines: an item already present gains the quantity, any
      other item is appended. */
  function MergeItem(items: seq<CartItem>, id: ItemId, qty: int): seq<CartItem> {
    var i := IndexOf(items, id);
    if i > -1 then items[i := items[i].(quantity := items[i].quantity + qty)]
    else items + [CartItem(id, qty)]
  }

  /** POST /add as a function of the stored cart: the cart the route saves, or its error. */
  function Add(catalog: Catalog, stored: Option<Cart>, user: UserId,
               menuItemId: Option<ItemId>, quantity: Option<int>, now: Time): (r: Result<Cart, CartError>)
    ensures menuItemId.None? ==> r == Err(MenuItemIdRequired)
    ensures menuItemId.Some? && !Orderable(catalog, menuItemId.value) ==> r == Err(ItemNotAvailable)
    ensures r.Ok? ==>
      && menuItemId.Some? && Orderable(catalog, menuItemId.value)
      && r.value.restaurant == Some(catalog[menuItemId.value].restaurant)
      && r.value.updatedAt == now
    ensures stored.None? && menuItemId.Some? && Orderable(catalog, menuItemId.value) ==>
      r == Ok(Cart(user, Some(catalog[menuItemId.value].restaurant),
                   [CartItem(menuItemId.value, AddQuantity(quantity))], now))
    ensures stored.Some? && menuItemId.Some? && Orderable(catalog, menuItemId.value) ==>
      (r.Ok? <==> stored.value.restaurant == Some(catalog[menuItemId.value].restaurant))
    ensures stored.Some? && menuItemId.Some? && Orderable(catalog, menuItemId.value)
            && stored.value.restaurant.Some?
            && stored.value.restaurant.value != catalog[menuItemId.value].restaurant ==>
      r == Err(OneRestaurantOnly)
    ensures r.Ok? && stored.Some? ==> r.value.user == stored.value.user
  {
    if menuItemId.None? then Err(MenuItemIdRequired)
    else
      var id := menuItemId.value;
      var qty := AddQuantity(quantity);
      if !Orderable(catalog, id) then Err(ItemNotAvailable)
      else
        var menuItem := catalog[id];
        match stored
        case None => Ok(Cart(user, Some(menuItem.restaurant), [CartItem(id, qty)], now))
        case Some(c) =>
          if c.restaurant.None? then Err(ServerError)
          else if c.restaurant.value != menuItem.restaurant then Err(OneRestaurantOnly)
          else Ok(c.(items := MergeItem(c.items, id, qty), updatedAt := now))
  }

  // ---------------------------------------------------- PUT /update/:itemId

  /** PUT /update/:itemId as a function of the stored cart. */
  function Update(stored: Option<Cart>, itemId: ItemId, quantity: Option<int>, now: Time): (r: Result<Cart, CartError>)
    ensures quantity.None? || quantity.value == 0 ==> r == Err(QuantityRequired)
    ensures quantity.Some? && quantity.value != 0 && stored.None? ==> r == Err(CartNotFound)
    ensures quantity.Some? && quantity.value != 0 && stored.Some? ==>
      (r == Err(ItemNotInCart) <==> forall k :: 0 <= k < |stored.value.items| ==> stored.value.items[k].menuItem != itemId)
    ensures r.Ok? ==>
      && stored.Some? && quantity.Some? && quantity.value != 0
      && r.value.user == stored.value.user
      && r.value.restaurant == stored.value.restaurant
      && r.value.updatedAt == now
  {
    if quantity.None? || quantity.value == 0 then Err(QuantityRequired)
    else if stored.None? then Err(CartNotFound)
    else
      var c := stored.value;
      var i := IndexOf(c.items, itemId);
      if i == -1 then Err(ItemNotInCart)
      else if quantity.value <= 0 then Ok(c.(items := RemoveAt(c.items, i), updatedAt := now))
      else Ok(c.(items := c.items[i := c.items[i].(quantity := quantity.value)], updatedAt := now))
  }

  // --------------------------------------------------- DELETE /remove/:itemId

  /** DELETE /remove/:itemId as a function of the stored cart. */
  function Remove(stored: Option<Cart>, itemId: ItemId, now: Time): (r: Result<Cart, CartError>)
    ensures r.Err? <==> stored.None?
    ensures r.Err? ==> r.error == CartNotFound
    ensures r.Ok? ==>
      && r.value.user == stored.value.user
      && r.value.restaurant == stored.value.restaurant
      && r.value.items == Without(stored.value.items, itemId)
      && r.value.updatedAt == now
  {
    match stored
    case None => Err(CartNotFound)
    case Some(c) => Ok(c.(items := Without(c.items, itemId), updatedAt := now))
  }

  // ------------------------------------------- lemmas about the item lines

  lemma {:induction false} QuantityOfAppend(items: seq<CartItem>, c: CartItem, x: ItemId)
    ensures QuantityOf(items + [c], x) == QuantityOf(items, x) + (if c.menuItem == x then c.quantity else 0)
  {
    if |items| > 0 {
      assert (items + [c])[1..] == items[1..] + [c];
      QuantityOfAppend(items[1..], c, x);
    } else {
      assert (items + [c])[1..] == [];
    }
  }

  lemma {:induction false} QuantityOfUpdate(items: seq<CartItem>, i: nat, y: CartItem, x: ItemId)
    requires i < |items| && y.menuItem == items[i].menuItem
    ensures QuantityOf(items[i := y], x)
         == QuantityOf(items, x) + (if y.menuItem == x then y.quantity - items[i].quantity else 0)
  {
    if i > 0 {
      assert items[i := y][1..] == items[1..][i - 1 := y];
      QuantityOfUpdate(items[1..], i - 1, y, x);
    } else {
      assert items[i := y][1..] == items[1..];
    }
  }

  lemma {:induction false} QuantityOfRemoveAt(items: seq<CartItem>, i: nat, x: ItemId)
    requires i < |items|
    ensures QuantityOf(RemoveAt(items, i), x)
         == QuantityOf(items, x) - (if items[i].menuItem == x then items[i].quantity else 0)
  {
    if i > 0 {
      assert RemoveAt(items, i)[1..] == RemoveAt(items[1..], i - 1);
      QuantityOfRemoveAt(items[1..], i - 1, x);
    } else {
      assert RemoveAt(items, i) == items[1..];
    }
  }

  lemma {:induction false} WithoutAppend(items: seq<CartItem>, c: CartItem)
    ensures Without(items + [c], c.menuItem) == Without(items, c.menuItem)
  {
    if |items| > 0 {
      assert (items + [c])[1..] == items[1..] + [c];
      WithoutAppend(items[1..], c);
    } else {
      assert (items + [c])[1..] == [];
    }
  }

  lemma {:induction false} WithoutUpdate(items: seq<CartItem>, i: nat, y: CartItem)
    requires i < |items| && y.menuItem == items[i].menuItem
    ensures Without(items[i := y], y.menuItem) == Without(items, y.menuItem)
  {
    if i > 0 {
      assert items[i := y][1..] == items[1..][i - 1 := y];
      WithoutUpdate(items[1..], i - 1, y);
    } else {
      assert items[i := y][1..] == items[1..];
    }
  }

  lemma {:induction false} WithoutRemoveAt(items: seq<CartItem>, i: nat)
    requires i < |items|
    ensures Without(RemoveAt(items, i), items[i].menuItem) == Without(items, items[i].menuItem)
  {
    if i > 0 {
      assert RemoveAt(items, i)[1..] == RemoveAt(items[1..], i - 1);
      WithoutRemoveAt(items[1..], i - 1);
    } else {
      assert RemoveAt(items, i) == items[1..];
    }
  }

  /** Merging adds exactly the quantity to the item's units and leaves every
      other item's lines as they were, in the same order. */
  lemma MergeEffect(items: seq<CartItem>, id: ItemId, qty: int)
    ensures forall x :: QuantityOf(MergeItem(items, id, qty), x)
                     == QuantityOf(items, x) + (if x == id then qty else 0)
    ensures Without(MergeItem(items, id, qty), id) == Without(items, id)
  {
    var i := IndexOf(items, id);
    var merged := MergeItem(items, id, qty);
    if i > -1 {
      var y := items[i].(quantity := items[i].quantity + qty);
      assert merged == items[i := y];
      forall x ensures QuantityOf(merged, x) == QuantityOf(items, x) + (if x == id then qty else 0) {
        QuantityOfUpdate(items, i, y, x);
      }
      WithoutUpdate(items, i, y);
    } else {
      var line := CartItem(id, qty);
      assert merged == items + [line];
      QuantityOfAbsent(items, id);
      forall x ensures QuantityOf(merged, x) == QuantityOf(items, x) + (if x == id then qty else 0) {
        QuantityOfAppend(items, line, x);
      }
      WithoutAppend(items, line);
    }
  }

  /** Merging keeps the lines distinct, positive and from one restaurant. */
  lemma MergeKeepsInvariant(catalog: Catalog, c: Cart, id: ItemId, qty: int)
    requires CartInvariant(catalog, c)
    requires qty >= MinQuantity && id in catalog && c.restaurant == Some(catalog[id].restaurant)
    ensures CartInvariant(catalog, c.(items := MergeItem(c.items, id, qty)))
  {
  }

  /** Removing one line keeps the remaining lines distinct, positive and from one restaurant. */
  lemma RemoveAtKeepsInvariant(catalog: Catalog, c: Cart, i: nat)
    requires i < |c.items| && CartInvariant(catalog, c)
    ensures CartInvariant(catalog, c.(items := RemoveAt(c.items, i)))
  {
    var r := RemoveAt(c.items, i);
    assert forall k :: 0 <= k < |r| ==> r[k] == c.items[if k < i then k else k + 1];
  }

  // ------------------------------------------------- properties of the routes

  /** Every cart Add saves keeps the cart invariant and belongs to the user. */
  lemma AddKeepsInvariant(catalog: Catalog, stored: Option<Cart>, user: UserId,
                          menuItemId: Option<ItemId>, quantity: Option<int>, now: Time)
    requires stored.Some? ==> CartInvariant(catalog, stored.value) && stored.value.user == user
    ensures var r := Add(catalog, stored, user, menuItemId, quantity, now);
      r.Ok? ==> CartInvariant(catalog, r.value) && r.value.user == user
  {
    var r := Add(catalog, stored, user, menuItemId, quantity, now);
    if r.Ok? && stored.Some? {
      MergeKeepsInvariant(catalog, stored.value, menuItemId.value, AddQuantity(quantity));
    }
  }

  /** A successful Add raises the item's units by the coerced quantity (a new
      cart starts from none) and leaves every other item's lines unchanged. */
  lemma AddMerges(catalog: Catalog, stored: Option<Cart>, user: UserId,
                  id: ItemId, quantity: Option<int>, now: Time)
    requires Add(catalog, stored, user, Some(id), quantity, now).Ok?
    ensures var c := Add(catalog, stored, user, Some(id), quantity, now).value;
      && QuantityOf(c.items, id) == QuantityOf(ItemsOf(stored), id) + AddQuantity(quantity)
      && (forall x :: x != id ==> QuantityOf(c.items, x) == QuantityOf(ItemsOf(stored), x))
      && Without(c.items, id) == Without(ItemsOf(stored), id)
  {
    if stored.Some? {
      MergeEffect(stored.value.items, id, AddQuantity(quantity));
    } else {
      var c := Add(catalog, stored, user, Some(id), quantity, now).value;
      assert c.items[1..] == [];
    }
  }

  /** Merging keeps the item's line in its position, or appends a line for an
      item the lines do not hold; every other position keeps its line. */
  lemma MergeKeepsPlace(items: seq<CartItem>, id: ItemId, qty: int)
    ensures var m := MergeItem(items, id, qty);
      var i := IndexOf(items, id);
      && IndexOf(m, id) == (if i == -1 then |items| else i)
      && |m| == (if i == -1 then |items| + 1 else |items|)
      && (forall k :: 0 <= k < |items| && k != i ==> m[k] == items[k])
  {
    var m := MergeItem(items, id, qty);
    var i := IndexOf(items, id);
    if i == -1 {
      assert m == items + [CartItem(id, qty)];
      assert m[|items|].menuItem == id;
    } else {
      assert m == items[i := items[i].(quantity := items[i].quantity + qty)];
      assert m[i].menuItem == id;
    }
    assert IndexOf(m, id) != -1;
  }

  /** Add changes the cart's lines in place: the item keeps the position of its
      line when the cart holds it, and otherwise its new line goes at the end;
      every other position keeps its line. */
  lemma AddKeepsPlace(catalog: Catalog, c: Cart, user: UserId, id: ItemId, quantity: Option<int>, now: Time)
    requires Add(catalog, Some(c), user, Some(id), quantity, now).Ok?
    ensures var r := Add(catalog, Some(c), user, Some(id), quantity, now).value;
      var i := IndexOf(c.items, id);
      && IndexOf(r.items, id) == (if i == -1 then |c.items| else i)
      && |r.items| == (if i == -1 then |c.items| + 1 else |c.items|)
      && (forall k :: 0 <= k < |c.items| && k != i ==> r.items[k] == c.items[k])
  {
    assert Add(catalog, Some(c), user, Some(id), quantity, now).value.items == MergeItem(c.items, id, AddQuantity(quantity));
    MergeKeepsPlace(c.items, id, AddQuantity(quantity));
  }

  /** Adding the same item twice to a user without a cart gives one line whose
      quantity is the sum of the two. */
  lemma AddTwiceMerges(catalog: Catalog, user: UserId, id: ItemId, q1: int, q2: int, t1: Time, t2: Time)
    requires Orderable(catalog, id) && q1 >= 1 && q2 >= 1
    ensures var first := Add(catalog, None, user, Some(id), Some(q1), t1);
      first.Ok? &&
      var second := Add(catalog, Some(first.value), user, Some(id), Some(q2), t2);
      second.Ok? && second.value.items == [CartItem(id, q1 + q2)]
  {
  }

  /** Every cart Update saves keeps the cart invariant. */
  lemma UpdateKeepsInvariant(catalog: Catalog, stored: Option<Cart>, itemId: ItemId, quantity: Option<int>, now: Time)
    requires stored.Some? ==> CartInvariant(catalog, stored.value)
    ensures var r := Update(stored, itemId, quantity, now);
      r.Ok? ==> CartInvariant(catalog, r.value)
  {
    var r := Update(stored, itemId, quantity, now);
    if r.Ok? && quantity.value <= 0 {
      RemoveAtKeepsInvariant(catalog, stored.value, IndexOf(stored.value.items, itemId));
    }
  }

  /** A successful Update with a negative quantity drops the item's line and
      keeps the other lines as they were, in order. */
  lemma UpdateNegativeRemoves(c: Cart, itemId: ItemId, q: int, now: Time)
    requires Distinct(c.items) && q < 0
    requires Update(Some(c), itemId, Some(q), now).Ok?
    ensures var u := Update(Some(c), itemId, Some(q), now).value;
      && Without(u.items, itemId) == Without(c.items, itemId)
      && (forall k :: 0 <= k < |u.items| ==> u.items[k].menuItem != itemId)
      && QuantityOf(u.items, itemId) == 0
  {
    var i := IndexOf(c.items, itemId);
    var rest := RemoveAt(c.items, i);
    assert Update(Some(c), itemId, Some(q), now).value.items == rest;
    WithoutRemoveAt(c.items, i);
    assert forall k :: 0 <= k < |rest| ==> rest[k] == c.items[if k < i then k else k + 1];
    QuantityOfAbsent(rest, itemId);
  }

  /** A successful Update with a positive quantity sets the item's units to
      exactly that quantity (it does not add) and keeps the other lines as
      they were, in order. */
  lemma UpdatePositiveSets(c: Cart, itemId: ItemId, q: int, now: Time)
    requires Distinct(c.items) && q > 0
    requires Update(Some(c), itemId, Some(q), now).Ok?
    ensures var u := Update(Some(c), itemId, Some(q), now).value;
      && Without(u.items, itemId) == Without(c.items, itemId)
      && QuantityOf(u.items, itemId) == q
      && |u.items| == |c.items|
  {
    var i := IndexOf(c.items, itemId);
    var y := c.items[i].(quantity := q);
    assert Update(Some(c), itemId, Some(q), now).value.items == c.items[i := y];
    WithoutUpdate(c.items, i, y);
    QuantityOfDistinct(c.items, itemId);
    QuantityOfUpdate(c.items, i, y, itemId);
  }

  /** A positive update changes the item's line in place: the line keeps its
      position and every other position keeps its line. */
  lemma UpdateKeepsPlace(c: Cart, itemId: ItemId, q: int, now: Time)
    requires q > 0 && Update(Some(c), itemId, Some(q), now).Ok?
    ensures var u := Update(Some(c), itemId, Some(q), now).value;
      && IndexOf(u.items, itemId) == IndexOf(c.items, itemId)
      && |u.items| == |c.items|
      && (forall k :: 0 <= k < |c.items| && k != IndexOf(c.items, itemId) ==> u.items[k] == c.items[k])
  {
    var i := IndexOf(c.items, itemId);
    var u := Update(Some(c), itemId, Some(q), now).value;
    assert u.items == c.items[i := c.items[i].(quantity := q)];
    assert u.items[i].menuItem == itemId;
  }

  /** Every cart Remove saves keeps the cart invariant. */
  lemma RemoveKeepsInvariant(catalog: Catalog, stored: Option<Cart>, itemId: ItemId, now: Time)
    requires stored.Some? ==> CartInvariant(catalog, stored.value)
    ensures var r := Remove(stored, itemId, now);
      r.Ok? ==> CartInvariant(catalog, r.value)
  {
    if stored.Some? {
      WithoutDistinct(stored.value.items, itemId);
    }
  }

  /** Remove is idempotent: removing the item again changes no line and keeps
      the restaurant; the item's units are gone and no other item's changed. */
  lemma RemoveIdempotent(stored: Option<Cart>, itemId: ItemId, t1: Time, t2: Time)
    requires stored.Some?
    ensures var once := Remove(stored, itemId, t1).value;
      && Remove(Some(once), itemId, t2).value.items == once.items
      && Remove(Some(once), itemId, t2).value.restaurant == stored.value.restaurant
      && forall x :: QuantityOf(once.items, x) == if x == itemId then 0 else QuantityOf(stored.value.items, x)
  {
    WithoutIdempotent(stored.value.items, itemId);
    forall x ensures QuantityOf(Without(stored.value.items, itemId), x)
                  == if x == itemId then 0 else QuantityOf(stored.value.items, x) {
      WithoutQuantity(stored.value.items, itemId, x);
    }
  }

  /** The restaurant lock outlives the lines: after any remove the cart keeps
      its restaurant and refuses an item from another one, also when the
      remove took away every line. */
  lemma LockOutlivesRemoval(catalog: Catalog, c: Cart, removed: ItemId, now: Time,
                            id: ItemId, quantity: Option<int>, later: Time)
    requires c.restaurant.Some? && Orderable(catalog, id) && catalog[id].restaurant != c.restaurant.value
    ensures var after := Remove(Some(c), removed, now).value;
      && after.restaurant == c.restaurant
      && ((forall k :: 0 <= k < |c.items| ==> c.items[k].menuItem == removed) ==> after.items == [])
      && Add(catalog, Some(after), c.user, Some(id), quantity, later) == Err(OneRestaurantOnly)
  {
    var after := Remove(Some(c), removed, now).value;
    if |after.items| > 0 {
      assert after.items[0] in c.items;
    }
  }

  // ------------------------------------------------------ the route handlers

  /** POST /add on the database. */
  method AddItem(db: Db, user: UserId, menuItemId: Option<ItemId>, quantity: Option<int>, now: Time)
    returns (r: Result<Cart, CartError>)
    requires db.Valid()
    modifies db
    ensures db.Valid()
    ensures r == Add(db.catalog, Stored(old(db.carts), user), user, menuItemId, quantity, now)
    ensures db.carts == if r.Ok? then old(db.carts)[user := r.value] else old(db.carts)
    ensures db.orders == old(db.orders)
  {
    AddKeepsInvariant(db.catalog, Stored(db.carts, user), user, menuItemId, quantity, now);
    if menuItemId.None? {
      return Err(MenuItemIdRequired);
    }
    var id := menuItemId.value;
    var qty := AddQuantity(quantity);
    if id !in db.catalog || !db.catalog[id].isAvailable {
      return Err(ItemNotAvailable);
    }
    var menuItem := db.catalog[id];
    var cart: Cart;
    if user !in db.carts {
      cart := Cart(user, Some(menuItem.restaurant), [CartItem(id, qty)], now);
    } else {
      cart := db.carts[user];
      if cart.restaurant.None? {
        return Err(ServerError);
      }
      if cart.restaurant.value != menuItem.restaurant {
        return Err(OneRestaurantOnly);
      }
      var existingIndex := IndexOf(cart.items, id);
      if existingIndex > -1 {
        var line := cart.items[existingIndex];
        cart := cart.(items := cart.items[existingIndex := line.(quantity := line.quantity + qty)]);
      } else {
        cart := cart.(items := cart.items + [CartItem(id, qty)]);
      }
    }
    cart := cart.(updatedAt := now);
    db.carts := db.carts[user := cart];
    r := Ok(cart);
  }

  /** PUT /update/:itemId on the database. */
  method UpdateItem(db: Db, user: UserId, itemId: ItemId, quantity: Option<int>, now: Time)
    returns (r: Result<Cart, CartError>)
    requires db.Valid()
    modifies db
    ensures db.Valid()
    ensures r == Update(Stored(old(db.carts), user), itemId, quantity, now)
    ensures db.carts == if r.Ok? then old(db.carts)[user := r.value] else old(db.carts)
    ensures db.orders == old(db.orders)
  {
    UpdateKeepsInvariant(db.catalog, Stored(db.carts, user), itemId, quantity, now);
    if quantity.None? || quantity.value == 0 {
      return Err(QuantityRequired);
    }
    if user !in db.carts {
      return Err(CartNotFound);
    }
    var cart := db.carts[user];
    var itemIndex := IndexOf(cart.items, itemId);
    if itemIndex == -1 {
      return Err(ItemNotInCart);
    }
    if quantity.value <= 0 {
      cart := cart.(items := cart.items[..itemIndex] + cart.items[itemIndex + 1..]);
    } else {
      cart := cart.(items := cart.items[itemIndex := cart.items[itemIndex].(quantity := quantity.value)]);
    }
    cart := cart.(updatedAt := now);
    db.carts := db.carts[user := cart];
    r := Ok(cart);
  }

  /** DELETE /remove/:itemId on the database. */
  method RemoveItem(db: Db, user: UserId, itemId: ItemId, now: Time)
    returns (r: Result<Cart, CartError>)
    requires db.Valid()
    modifies db
    ensures db.Valid()
    ensures r == Remove(Stored(old(db.carts), user), itemId, now)
    ensures db.carts == if r.Ok? then old(db.carts)[user := r.value] else old(db.carts)
    ensures db.orders == old(db.orders)
  {
    RemoveKeepsInvariant(db.catalog, Stored(db.carts, user), itemId, now);
    if user !in db.carts {
      return Err(CartNotFound);
    }
    var cart := db.carts[user];
    cart := cart.(items := Without(cart.items, itemId));
    cart := cart.(updatedAt := now);
    db.carts := db.carts[user := cart];
    r := Ok(cart);
  }

  /** DELETE /clear on the database: the cart is deleted, whether or not there was one. */
  method ClearCart(db: Db, user: UserId)
    requires db.Valid()
    modifies db
    ensures db.Valid()
    ensures user !in db.carts
    ensures db.carts == old(db.carts) - {user}
    ensures db.orders == old(db.orders)
  {
    db.carts := db.carts - {user};
  }
}
