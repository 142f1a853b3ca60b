/** A menu item's data (MenuItem.java). Every `MenuItem` object draws a fresh
    random `itemId` when constructed; the value below carries it, so two
    items are equal only when that id and every field agree. */
module MenuItems {
  import opened Common

  datatype MenuItem = MenuItem(
    itemId: Uuid,
    name: string,
    category: string,
    price: Decimal,
    restaurantId: Uuid)
}
