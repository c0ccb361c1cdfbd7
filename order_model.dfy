/** The Order document (models/Order.js): an immutable record of a checkout,
    whose lines carry the price each item had when it was bought. */
module OrderModel {
  import opened Common

  /** The schema's closed set of order states. */
  datatype Status = Created | Confirmed | Preparing | Ready | Completed | Cancelled

  /** The strings the schema's `enum` admits, in the order it lists them. */
  const StatusNames: seq<string> := ["created", "confirmed", "preparing", "ready", "completed", "cancelled"]

  /** The schema's `default: 'created'`. */
  const DefaultStatus: Status := Created

  /** The string a status is stored as. */
  function StatusName(s: Status): (name: string)
    ensures name in StatusNames
    ensures ParseStatus(name) == Some(s)
  {
    match s
    case Created => "created"
    case Confirmed => "confirmed"
    case Preparing => "preparing"
    case Ready => "ready"
    case Completed => "completed"
    case Cancelled => "cancelled"
  }

  /** The enum validator: a stored string is accepted exactly when it names a status. */
  function ParseStatus(name: string): (s: Option<Status>)
    ensures s.Some? <==> name in StatusNames
  {
    if name == "created" then Some(Created)
    else if name == "confirmed" then Some(Confirmed)
    else if name == "preparing" then Some(Preparing)
    else if name == "ready" then Some(Ready)
    else if name == "completed" then Some(Completed)
    else if name == "cancelled" then Some(Cancelled)
    else None
  }

  /** Parsing then naming gives back the stored string: a stored status string
      and its parsed value determine each other. */
  lemma ParseThenName(name: string)
    ensures ParseStatus(name).Some? ==> StatusName(ParseStatus(name).value) == name
  {
  }

  /** A line of an order: the item, how many, and the price snapshot (required). */
  datatype OrderItem = OrderItem(menuItem: ItemId, quantity: int, priceAtPurchase: Money)

  /** An order: its owner and total (both required), its lines, its status, the
      restaurant it was placed with (optional) and its creation time. */
  datatype Order = Order(
    id: OrderId,
    user: UserId,
    items: seq<OrderItem>,
    totalAmount: Money,
    status: Status,
    restaurant: Option<RestaurantId>,
    createdAt: Time)

  /** The sum of price snapshot times quantity over the lines. */
  function Total(items: seq<OrderItem>): Money {
    if |items| == 0 then 0
    else Total(items[..|items| - 1]) + items[|items| - 1].priceAtPurchase * items[|items| - 1].quantity
  }

  /** The total of a concatenation is the sum of the totals. */
  lemma {:induction false} TotalAppend(a: seq<OrderItem>, b: seq<OrderItem>)
    ensures Total(a + b) == Total(a) + Total(b)
  {
    if |b| > 0 {
      assert (a + b)[..|a + b| - 1] == a + b[..|b| - 1];
      TotalAppend(a, b[..|b| - 1]);
    } else {
      assert a + b == a;
    }
  }

  /** What every order a checkout creates satisfies: it has lines, their
      quantities are at least one, and its amount is the total of its lines. */
  predicate OrderInvariant(o: Order) {
    && |o.items| > 0
    && (forall k :: 0 <= k < |o.items| ==> o.items[k].quantity >= 1)
    && o.totalAmount == Total(o.items)
  }

  /** `new Order({user, items, totalAmount, restaurant})` with the schema's
      defaults filled in: status `created`, creation time now. */
  function NewOrder(id: OrderId, user: UserId, items: seq<OrderItem>, total: Money,
                    restaurant: Option<RestaurantId>, now: Time): (o: Order)
    ensures o.status == DefaultStatus && o.createdAt == now
    ensures o.user == user && o.items == items && o.totalAmount == total && o.restaurant == restaurant
  {
    Order(id, user, items, total, DefaultStatus, restaurant, now)
  }
}
