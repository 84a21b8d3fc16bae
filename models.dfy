/// The entities the controllers read and write, as values. C# `int` keys and
/// quantities are `int`; prices and totals (C# `double`) are `real`; dates
/// are instants of an abstract clock.
module Models {
  import opened Common

  datatype MenuItem = MenuItem(
    id: int,
    name: string,
    description: string,
    specialTag: string,
    category: string,
    price: real,
    /// URI of the item's image in blob storage.
    image: string)

  /// One line of a cart. Its owning cart is the cart that holds it.
  datatype CartItem = CartItem(id: int, menuItemId: int, quantity: int)

  /// A cart with its lines in storage order.
  datatype ShoppingCart = ShoppingCart(
    id: int,
    userId: string,
    items: seq<CartItem>,
    stripePaymentIntentId: NString,
    clientSecret: NString)

  datatype OrderHeader = OrderHeader(
    orderHeaderId: int,
    applicationUserId: NString,
    pickupName: NString,
    pickupPhoneNumber: NString,
    pickupEmail: NString,
    orderTotal: real,
    orderDate: int,
    stripePaymentIntentId: NString,
    totalItems: int,
    status: NString)

  /// A line of a placed order: name and price are copies taken when the
  /// order was created, not references to the live menu item.
  datatype OrderDetails = OrderDetails(
    orderDetailsId: int,
    orderHeaderId: int,
    menuItemId: int,
    quantity: int,
    itemName: NString,
    price: real)

  datatype ApplicationUser = ApplicationUser(
    id: string,
    userName: string,
    email: NString,
    normalizedEmail: NString,
    name: string)
}
