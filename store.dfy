/** The database the routes work on, held in memory: the carts collection
    keyed by owner, the orders collection in insertion order, and a fixed
    menu catalog. Each route handler is one atomic step on it. */
module Store {
  import opened Common
  import opened Menu
  import opened CartModel
  import opened OrderModel

  class Db {
    const catalog: Catalog
    var carts: map<UserId, Cart>
    var orders: seq<Order>

    /** The collections' invariants: one cart per user (the map is keyed by the
        cart's owner), every cart keeps the cart invariant, and every order has
        the id of its place in the ledger and keeps the order invariant. */
    ghost predicate Valid()
      reads this
    {
      CartsValid(catalog, carts) && LedgerValid(orders)
    }

    constructor (catalog: Catalog)
      ensures Valid()
      ensures this.catalog == catalog && carts == map[] && orders == []
    {
      this.catalog := catalog;
      carts := map[];
      orders := [];
    }

    /** `order.save()` for a new order: the ledger gains it at its end. */
    method SaveOrder(o: Order)
      requires Valid() && o.id == |orders| && OrderInvariant(o)
      modifies this
      ensures Valid()
      ensures orders == old(orders) + [o] && carts == old(carts)
    {
      AppendKeepsLedgerValid(orders, o);
      orders := orders + [o];
    }
  }

  /** Every stored cart belongs to the user it is stored under and keeps the cart invariant. */
  predicate CartsValid(catalog: Catalog, carts: map<UserId, Cart>) {
    forall u :: u in carts ==> carts[u].user == u && CartInvariant(catalog, carts[u])
  }

  /** Every order has the id of its place in the ledger and keeps the order invariant. */
  predicate LedgerValid(orders: seq<Order>) {
    forall k :: 0 <= k < |orders| ==> orders[k].id == k && OrderInvariant(orders[k])
  }

  /** Appending an order that is valid and numbered by its place keeps the ledger valid. */
  lemma AppendKeepsLedgerValid(orders: seq<Order>, o: Order)
    requires LedgerValid(orders) && o.id == |orders| && OrderInvariant(o)
    ensures LedgerValid(orders + [o])
  {
    var s := orders + [o];
    forall k | 0 <= k < |s| ensures s[k].id == k && OrderInvariant(s[k]) {
      if k < |orders| {
        assert s[k] == orders[k];
      }
    }
  }

  /** `Cart.findOne({user})`: the user's cart, if any. */
  function Stored(carts: map<UserId, Cart>, user: UserId): (c: Option<Cart>)
    ensures c.Some? <==> user in carts
    ensures c.Some? ==> c.value == carts[user]
  {
    if user in carts then Some(carts[user]) else None
  }
}
