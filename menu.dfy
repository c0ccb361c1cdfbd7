/** The menu catalog that the cart and order routes read: the part of a
    MenuItem document they use. The catalog is fixed for the model. */
module Menu {
  import opened Common

  /** A menu item: its owning restaurant (required), its price and whether it can be ordered. */
  datatype MenuItem = MenuItem(restaurant: RestaurantId, price: Money, isAvailable: bool)

  /** `MenuItem.findById`: the items that exist, by id. */
  type Catalog = map<ItemId, MenuItem>
}
