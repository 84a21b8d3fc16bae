/// The static constants the controllers share (role names, order statuses,
/// the blob container).
module SD {
  const StorageContainer := "redmango"
  const RoleAdmin := "admin"
  const RoleCustomer := "customer"
  const StatusPending := "Pending"
  const StatusConfirmed := "Confirmed"
  const StatusBeingCooked := "Being Cooked"
  const StatusReadyForPickUp := "Ready for Pickup"
  const StatusCompleted := "Completed"
  const StatusCancelled := "Cancelled"
}

/// The application's database: one field per table, each a map from key to
/// row, together with the next value of each identity column. Every action
/// is treated as one atomic step on this state.
module Data {
  import opened Common
  import opened Models
  import SD

  /// Cart `c` is stored under user `u`, with ids below the identity
  /// counters.
  ghost predicate CartWellFormed(u: string, c: ShoppingCart, nextCartId: int, nextCartItemId: int) {
    c.userId == u && 1 <= c.id < nextCartId &&
    forall i :: 0 <= i < |c.items| ==> 1 <= c.items[i].id < nextCartItemId
  }

  ghost predicate CartsWellFormed(carts: map<string, ShoppingCart>, nextCartId: int, nextCartItemId: int) {
    1 <= nextCartId && 1 <= nextCartItemId &&
    forall u :: u in carts ==> CartWellFormed(u, carts[u], nextCartId, nextCartItemId)
  }

  /// Raising the counters, storing a well-formed cart or removing a cart
  /// keeps the cart table well formed.
  lemma CartsWellFormedKept(carts: map<string, ShoppingCart>, a: int, b: int, a': int, b': int, u: string, c: ShoppingCart)
    requires CartsWellFormed(carts, a, b) && a <= a' && b <= b'
    ensures CartsWellFormed(carts - {u}, a', b')
    ensures CartWellFormed(u, c, a', b') ==> CartsWellFormed(carts[u := c], a', b')
  {
    forall v | v in carts ensures CartWellFormed(v, carts[v], a', b') {
    }
  }

  /// Menu rows are stored under their own id, below the identity counter.
  ghost predicate MenuWellFormed(menu: map<int, MenuItem>, nextMenuItemId: int) {
    1 <= nextMenuItemId &&
    forall id :: id in menu ==> 1 <= id < nextMenuItemId && menu[id].id == id
  }

  /// Overwriting a stored row with one that keeps its id keeps the menu
  /// table well formed.
  lemma MenuWellFormedKept(menu: map<int, MenuItem>, next: int, id: int, m: MenuItem)
    requires MenuWellFormed(menu, next) && id in menu && m.id == id
    ensures MenuWellFormed(menu[id := m], next)
  {
  }

  class Db {
    var menuItems: map<int, MenuItem>
    var nextMenuItemId: int
    /// Carts by owning user. The only path that creates a cart does so after
    /// the lookup by user id found none, so a user never has two.
    var carts: map<string, ShoppingCart>
    var nextCartId: int
    var nextCartItemId: int
    var orderHeaders: map<int, OrderHeader>
    var nextOrderHeaderId: int
    var orderDetails: map<int, OrderDetails>
    var nextOrderDetailsId: int
    /// The users table in storage order, so that `FirstOrDefault` is the
    /// first match.
    var users: seq<ApplicationUser>
    var roles: set<string>
    /// The roles of each user id, in the order they were assigned.
    var userRoles: map<string, seq<string>>

    constructor ()
      ensures MenuValid() && CartsValid() && OrdersValid() && UsersValid()
      ensures menuItems == map[] && carts == map[] && orderHeaders == map[] && orderDetails == map[]
      ensures users == [] && roles == {} && userRoles == map[]
    {
      menuItems, nextMenuItemId := map[], 1;
      carts, nextCartId, nextCartItemId := map[], 1, 1;
      orderHeaders, nextOrderHeaderId := map[], 1;
      orderDetails, nextOrderDetailsId := map[], 1;
      users, roles, userRoles := [], {}, map[];
    }

    /// Menu rows are stored under their own id, which the identity column
    /// handed out.
    ghost predicate MenuValid()
      reads this
    {
      MenuWellFormed(menuItems, nextMenuItemId)
    }

    /// Each cart is stored under its owner, and cart and line ids were
    /// handed out by their identity columns.
    ghost predicate CartsValid()
      reads this
    {
      CartsWellFormed(carts, nextCartId, nextCartItemId)
    }

    /// Order headers and details are stored under their own ids, which the
    /// identity columns handed out, and every detail row belongs to a stored
    /// header (the foreign key from details to headers).
    ghost predicate OrdersValid()
      reads this
    {
      1 <= nextOrderHeaderId && 1 <= nextOrderDetailsId &&
      (forall id :: id in orderHeaders ==> 1 <= id < nextOrderHeaderId && orderHeaders[id].orderHeaderId == id) &&
      (forall id :: id in orderDetails ==>
         1 <= id < nextOrderDetailsId && orderDetails[id].orderDetailsId == id &&
         orderDetails[id].orderHeaderId in orderHeaders)
    }

    /// User ids are distinct, and the two roles exist together or not at all
    /// (registration creates both at once).
    ghost predicate UsersValid()
      reads this
    {
      (forall i, j :: 0 <= i < j < |users| ==> users[i].id != users[j].id) &&
      (SD.RoleAdmin in roles ==> SD.RoleCustomer in roles)
    }
  }
}
