/** The Cart document (models/Cart.js): a user's single cart of menu items, and
    the invariant its schema and the cart routes keep. */
module CartModel {
  import opened Common
  import opened Menu

  /** A line of the cart: a required menu-item reference and a quantity. */
  datatype CartItem = CartItem(menuItem: ItemId, quantity: int)

  /** A cart: its owner (unique across carts), the restaurant it is locked to
      (optional in the schema), its lines in order, and its last-update time. */
  datatype Cart = Cart(user: UserId, restaurant: Option<RestaurantId>, items: seq<CartItem>, updatedAt: Time)

  /** The schema's `min: 1` on quantity. */
  const MinQuantity: int := 1

  predicate QuantitiesValid(items: seq<CartItem>) {
    forall k :: 0 <= k < |items| ==> items[k].quantity >= MinQuantity
  }

  /** No two lines share a menu item. */
  predicate Distinct(items: seq<CartItem>) {
    forall j, k :: 0 <= j < k < |items| ==> items[j].menuItem != items[k].menuItem
  }

  /** Every line resolves in the catalog and comes from the cart's restaurant. */
  predicate OneRestaurant(catalog: Catalog, c: Cart) {
    forall k :: 0 <= k < |c.items| ==>
      c.items[k].menuItem in catalog && c.restaurant == Some(catalog[c.items[k].menuItem].restaurant)
  }

  /** What every stored cart satisfies. */
  predicate CartInvariant(catalog: Catalog, c: Cart) {
    QuantitiesValid(c.items) && Distinct(c.items) && OneRestaurant(catalog, c)
  }

  /** `items.findIndex(i => i.menuItem === id)`: the first line for the item, or -1. */
  function IndexOf(items: seq<CartItem>, id: ItemId): (i: int)
    ensures -1 <= i < |items|
    ensures i == -1 <==> forall k :: 0 <= k < |items| ==> items[k].menuItem != id
    ensures 0 <= i ==> items[i].menuItem == id && forall k :: 0 <= k < i ==> items[k].menuItem != id
  {
    if |items| == 0 then -1
    else if items[0].menuItem == id then 0
    else
      var j := IndexOf(items[1..], id);
      if j == -1 then -1 else j + 1
  }

  /** How many units of the item the lines hold together: the cart seen as a bag. */
  function QuantityOf(items: seq<CartItem>, id: ItemId): int {
    if |items| == 0 then 0
    else (if items[0].menuItem == id then items[0].quantity else 0) + QuantityOf(items[1..], id)
  }

  /** `items.filter(i => i.menuItem !== id)`: the lines for other items, in order. */
  function Without(items: seq<CartItem>, id: ItemId): (r: seq<CartItem>)
    ensures |r| <= |items|
    ensures forall k :: 0 <= k < |r| ==> r[k].menuItem != id && r[k] in items
    ensures forall x :: x in items && x.menuItem != id ==> x in r
  {
    if |items| == 0 then []
    else if items[0].menuItem == id then Without(items[1..], id)
    else [items[0]] + Without(items[1..], id)
  }

  /** `items.splice(i, 1)`: the lines without the one at position i. */
  function RemoveAt(items: seq<CartItem>, i: nat): seq<CartItem>
    requires i < |items|
  {
    items[..i] + items[i + 1..]
  }

  /** Filtering out an item no line holds gives back the same lines. */
  lemma {:induction false} WithoutAbsent(items: seq<CartItem>, id: ItemId)
    requires forall k :: 0 <= k < |items| ==> items[k].menuItem != id
    ensures Without(items, id) == items
  {
    if |items| > 0 {
      WithoutAbsent(items[1..], id);
      assert items == [items[0]] + items[1..];
    }
  }

  /** The filter works line by line: filtering a concatenation is
      concatenating the filtered parts. */
  lemma {:induction false} WithoutConcat(a: seq<CartItem>, b: seq<CartItem>, id: ItemId)
    ensures Without(a + b, id) == Without(a, id) + Without(b, id)
  {
    if |a| == 0 {
      assert a + b == b;
    } else {
      assert (a + b)[1..] == a[1..] + b;
      WithoutConcat(a[1..], b, id);
    }
  }

  /** With distinct lines the filter is the splice of the item's one line:
      every other line is kept, once each, in its original order. */
  lemma WithoutIsSplice(items: seq<CartItem>, id: ItemId)
    requires Distinct(items) && IndexOf(items, id) >= 0
    ensures Without(items, id) == RemoveAt(items, IndexOf(items, id))
  {
    var i := IndexOf(items, id);
    var before, line, after := items[..i], [items[i]], items[i + 1..];
    assert items == before + line + after;
    assert forall k :: 0 <= k < |before| ==> before[k].menuItem != id;
    assert forall k :: 0 <= k < |after| ==> after[k].menuItem != id by {
      forall k | 0 <= k < |after| ensures after[k].menuItem != id {
        assert after[k] == items[i + 1 + k];
      }
    }
    WithoutAbsent(before, id);
    WithoutAbsent(after, id);
    assert Without(line, id) == [];
    WithoutConcat(before, line, id);
    assert Without(before + line, id) == before;
    WithoutConcat(before + line, after, id);
    assert Without(before + line + after, id) == before + after;
  }

  lemma {:induction false} QuantityOfAbsent(items: seq<CartItem>, id: ItemId)
    requires forall k :: 0 <= k < |items| ==> items[k].menuItem != id
    ensures QuantityOf(items, id) == 0
  {
    if |items| > 0 { QuantityOfAbsent(items[1..], id); }
  }

  /** With distinct lines, the bag view of an item is the quantity of its one line. */
  lemma {:induction false} QuantityOfDistinct(items: seq<CartItem>, id: ItemId)
    requires Distinct(items)
    ensures QuantityOf(items, id) == (var i := IndexOf(items, id); if i == -1 then 0 else items[i].quantity)
  {
    if |items| > 0 {
      if items[0].menuItem == id {
        QuantityOfAbsent(items[1..], id);
      } else {
        QuantityOfDistinct(items[1..], id);
      }
    }
  }

  /** Filtering is idempotent: removing an item twice is removing it once. */
  lemma {:induction false} WithoutIdempotent(items: seq<CartItem>, id: ItemId)
    ensures Without(Without(items, id), id) == Without(items, id)
  {
    if |items| > 0 {
      WithoutIdempotent(items[1..], id);
      if items[0].menuItem != id {
        assert ([items[0]] + Without(items[1..], id))[1..] == Without(items[1..], id);
      }
    }
  }

  /** Filtering leaves no units of the item and every other item's units alone. */
  lemma {:induction false} WithoutQuantity(items: seq<CartItem>, id: ItemId, x: ItemId)
    ensures QuantityOf(Without(items, id), x) == if x == id then 0 else QuantityOf(items, x)
  {
    if |items| > 0 {
      WithoutQuantity(items[1..], id, x);
      if items[0].menuItem != id {
        assert ([items[0]] + Without(items[1..], id))[1..] == Without(items[1..], id);
      }
    }
  }

  /** Filtering keeps the lines it keeps in their original relative order, so
      distinct lines stay distinct. */
  lemma {:induction false} WithoutDistinct(items: seq<CartItem>, id: ItemId)
    requires Distinct(items)
    ensures Distinct(Without(items, id))
  {
    if |items| > 0 {
      WithoutDistinct(items[1..], id);
      if items[0].menuItem != id {
        var rest := Without(items[1..], id);
        forall k | 0 <= k < |rest| ensures rest[k].menuItem != items[0].menuItem {
          assert rest[k] in items[1..];
        }
      }
    }
  }
}
