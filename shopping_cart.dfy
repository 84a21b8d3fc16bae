/// The shopping-cart engine: reading a user's cart with its total, and the
/// add/merge/remove state machine behind "add or update item in cart".
module ShoppingCartController {
  import opened Common
  import opened Models
  import opened Data

  const CartUpdatedMessage := "Cart added or updated successfully"
  const InvalidMenuItemMessage := "Invalid Menu Item Request"
  /// The message of .NET's NullReferenceException.
  const NullReferenceMessage := "Object reference not set to an instance of an object."

  /// A cart as the API returns it, with its computed (not stored) total.
  datatype CartView = CartView(cart: ShoppingCart, cartTotal: real)

  /// The cart a fresh `new ShoppingCart()` holds.
  const EmptyCart := ShoppingCart(0, "", [], None, None)

  /// Every line refers to a menu item that exists, so its price can be read.
  predicate Priced(items: seq<CartItem>, menu: map<int, MenuItem>) {
    forall i :: 0 <= i < |items| ==> items[i].menuItemId in menu
  }

  /// A line with a non-negative quantity of an item with a non-negative price.
  predicate NonNegativeLine(item: CartItem, menu: map<int, MenuItem>)
    requires item.menuItemId in menu
  {
    item.quantity >= 0 && menu[item.menuItemId].price >= 0.0
  }

  /// What one line costs at the current menu price: nothing for a zero
  /// quantity, and never negative for a non-negative quantity and price.
  function LineTotal(item: CartItem, menu: map<int, MenuItem>): (r: real)
    requires item.menuItemId in menu
    ensures item.quantity == 0 ==> r == 0.0
    ensures NonNegativeLine(item, menu) ==> r >= 0.0
  {
    item.quantity as real * menu[item.menuItemId].price
  }

  /// Sum of quantity times the current menu price over the lines.
  function CartTotal(items: seq<CartItem>, menu: map<int, MenuItem>): real
    requires Priced(items, menu)
  {
    if items == [] then 0.0 else LineTotal(items[0], menu) + CartTotal(items[1..], menu)
  }

  /// A cart with no line of negative quantity or price never totals below
  /// zero.
  lemma {:induction false} CartTotalNonNegative(items: seq<CartItem>, menu: map<int, MenuItem>)
    requires Priced(items, menu)
    requires forall i :: 0 <= i < |items| ==> NonNegativeLine(items[i], menu)
    ensures CartTotal(items, menu) >= 0.0
  {
    if items != [] {
      assert NonNegativeLine(items[0], menu);
      CartTotalNonNegative(items[1..], menu);
    }
  }

  /// The total of a concatenation is the sum of the totals.
  lemma {:induction false} CartTotalAppend(a: seq<CartItem>, b: seq<CartItem>, menu: map<int, MenuItem>)
    requires Priced(a, menu) && Priced(b, menu)
    ensures Priced(a + b, menu)
    ensures CartTotal(a + b, menu) == CartTotal(a, menu) + CartTotal(b, menu)
  {
    if a != [] {
      assert (a + b)[1..] == a[1..] + b;
      CartTotalAppend(a[1..], b, menu);
    } else {
      assert a + b == b;
    }
  }

  /// Changing one line's quantity to `q` moves the total by the change in
  /// quantity times that line's price.
  lemma {:induction false} CartTotalSetQuantity(items: seq<CartItem>, k: nat, q: int, menu: map<int, MenuItem>)
    requires Priced(items, menu) && k < |items|
    ensures Priced(items[k := items[k].(quantity := q)], menu)
    ensures CartTotal(items[k := items[k].(quantity := q)], menu)
         == CartTotal(items, menu) + (q - items[k].quantity) as real * menu[items[k].menuItemId].price
  {
    var items' := items[k := items[k].(quantity := q)];
    if k > 0 {
      assert items'[1..] == items[1..][k - 1 := items[k].(quantity := q)];
      CartTotalSetQuantity(items[1..], k - 1, q, menu);
    } else {
      assert items'[1..] == items[1..];
    }
  }

  /// Removing line `k` from a sequence of lines.
  function RemoveAt(items: seq<CartItem>, k: nat): (r: seq<CartItem>)
    requires k < |items|
    ensures |r| == |items| - 1
    ensures forall i :: 0 <= i < k ==> r[i] == items[i]
    ensures forall i :: k <= i < |r| ==> r[i] == items[i + 1]
  {
    items[..k] + items[k + 1..]
  }

  /// Removing a line takes its quantity times price off the total.
  lemma {:induction false} CartTotalRemoveAt(items: seq<CartItem>, k: nat, menu: map<int, MenuItem>)
    requires Priced(items, menu) && k < |items|
    ensures Priced(RemoveAt(items, k), menu)
    ensures CartTotal(RemoveAt(items, k), menu) == CartTotal(items, menu) - LineTotal(items[k], menu)
  {
    if k > 0 {
      assert RemoveAt(items, k)[1..] == RemoveAt(items[1..], k - 1);
      CartTotalRemoveAt(items[1..], k - 1, menu);
    } else {
      assert RemoveAt(items, k) == items[1..];
    }
  }

  /// `GetShoppingCart`: the user's cart with its total, a fresh empty cart
  /// for an empty user id, a null result when the user has no cart, and the
  /// caught NullReferenceException when a line's menu item is missing.
  function GetShoppingCart(db: Db, userId: string): (r: Reply<CartView>)
    reads db
    requires db.CartsValid() && db.MenuValid()
    ensures userId == "" ==> r == Reply(OK, Envelope(Some(OK), Some(true), [], Some(CartView(EmptyCart, 0.0))))
    ensures userId != "" && userId !in db.carts ==> r == Reply(OK, Envelope(Some(OK), Some(true), [], None))
    ensures userId != "" && userId in db.carts && Priced(db.carts[userId].items, db.menuItems) ==>
      r == Reply(OK, Envelope(Some(OK), Some(true), [],
                              Some(CartView(db.carts[userId], CartTotal(db.carts[userId].items, db.menuItems)))))
    ensures userId != "" && userId in db.carts && !Priced(db.carts[userId].items, db.menuItems) ==>
      r == Failure(BadRequest, BadRequest, NullReferenceMessage)
  {
    if userId == "" then
      Reply(OK, Envelope(Some(OK), Some(true), [], Some(CartView(EmptyCart, 0.0))))
    else if userId !in db.carts then
      Reply(OK, Envelope(Some(OK), Some(true), [], None))
    else
      var cart := db.carts[userId];
      if |cart.items| == 0 then
        Reply(OK, Envelope(Some(OK), Some(true), [], Some(CartView(cart, 0.0))))
      else if Priced(cart.items, db.menuItems) then
        Reply(OK, Envelope(Some(OK), Some(true), [], Some(CartView(cart, CartTotal(cart.items, db.menuItems)))))
      else
        Failure(BadRequest, BadRequest, NullReferenceMessage)
  }

  /// Index of the first line for `menuItemId` (LINQ `FirstOrDefault`).
  function FindLine(items: seq<CartItem>, menuItemId: int): (r: Option<nat>)
    ensures r.None? <==> forall i :: 0 <= i < |items| ==> items[i].menuItemId != menuItemId
    ensures r.Some? ==> r.value < |items| && items[r.value].menuItemId == menuItemId
    ensures r.Some? ==> forall i :: 0 <= i < r.value ==> items[i].menuItemId != menuItemId
  {
    if items == [] then None
    else if items[0].menuItemId == menuItemId then Some(0)
    else match FindLine(items[1..], menuItemId)
      case None => None
      case Some(k) => Some(k + 1)
  }

  /// No two lines of `items` are for the same menu item.
  predicate DistinctItems(items: seq<CartItem>) {
    forall i, j :: 0 <= i < j < |items| ==> items[i].menuItemId != items[j].menuItemId
  }

  /// No cart holds two lines for the same menu item.
  ghost predicate DistinctLines(carts: map<string, ShoppingCart>) {
    forall u :: u in carts ==> DistinctItems(carts[u].items)
  }

  /// Every stored cart holds at least one line.
  ghost predicate NoEmptyCarts(carts: map<string, ShoppingCart>) {
    forall u :: u in carts ==> |carts[u].items| > 0
  }

  /// Adding a line for a menu item the cart has no line for keeps the
  /// lines distinct; removing a line or changing a quantity does too.
  lemma DistinctItemsKept(items: seq<CartItem>, line: CartItem, k: nat, q: int)
    requires DistinctItems(items)
    ensures FindLine(items, line.menuItemId).None? ==> DistinctItems(items + [line])
    ensures k < |items| ==> DistinctItems(RemoveAt(items, k))
    ensures k < |items| ==> DistinctItems(items[k := items[k].(quantity := q)])
  {
  }

  /// Storing a cart with distinct lines, at least one of them, or removing a
  /// cart keeps both cart-table invariants.
  lemma CartInvariantsKept(carts: map<string, ShoppingCart>, u: string, c: ShoppingCart)
    ensures DistinctLines(carts) && DistinctItems(c.items) ==> DistinctLines(carts[u := c])
    ensures NoEmptyCarts(carts) && |c.items| > 0 ==> NoEmptyCarts(carts[u := c])
    ensures DistinctLines(carts) ==> DistinctLines(carts - {u})
    ensures NoEmptyCarts(carts) ==> NoEmptyCarts(carts - {u})
  {
  }

  /// The reply of every path of `AddOrUpdateItemInCart` that completes.
  const UpdatedReply: Reply<(string, string)> :=
    Reply(OK, Envelope(Some(OK), Some(true), [], Some(("Message", CartUpdatedMessage))))

  /// Lines 70-89: a new cart for the user, holding one line of `delta`.
  method CreateCartWithLine(db: Db, userId: string, menuItemId: int, delta: int)
    requires db.CartsValid() && userId !in db.carts && delta > 0
    modifies db`carts, db`nextCartId, db`nextCartItemId
    ensures db.CartsValid()
    ensures old(DistinctLines(db.carts)) ==> DistinctLines(db.carts)
    ensures old(NoEmptyCarts(db.carts)) ==> NoEmptyCarts(db.carts)
    ensures db.carts == old(db.carts)[userId := ShoppingCart(old(db.nextCartId), userId,
                                        [CartItem(old(db.nextCartItemId), menuItemId, delta)], None, None)]
  {
    ghost var before := db.carts;
    var newCart := ShoppingCart(db.nextCartId, userId, [], None, None);
    db.carts := db.carts[userId := newCart];
    db.nextCartId := db.nextCartId + 1;
    var newCartItem := CartItem(db.nextCartItemId, menuItemId, delta);
    db.carts := db.carts[userId := newCart.(items := [newCartItem])];
    db.nextCartItemId := db.nextCartItemId + 1;
    assert db.carts == before[userId := newCart.(items := [newCartItem])];
    CartInvariantsKept(before, userId, newCart.(items := [newCartItem]));
    CartsWellFormedKept(before, old(db.nextCartId), old(db.nextCartItemId), db.nextCartId, db.nextCartItemId,
                        userId, newCart.(items := [newCartItem]));
  }

  /// Lines 93-105: a new line of `delta` at the end of the user's cart.
  method AddLine(db: Db, userId: string, menuItemId: int, delta: int)
    requires db.CartsValid() && userId in db.carts
    requires FindLine(db.carts[userId].items, menuItemId).None?
    modifies db`carts, db`nextCartItemId
    ensures db.CartsValid()
    ensures old(DistinctLines(db.carts)) ==> DistinctLines(db.carts)
    ensures old(NoEmptyCarts(db.carts)) ==> NoEmptyCarts(db.carts)
    ensures db.carts == old(db.carts)[userId := old(db.carts)[userId].(items :=
                          old(db.carts)[userId].items + [CartItem(old(db.nextCartItemId), menuItemId, delta)])]
  {
    var shoppingCart := db.carts[userId];
    var newCartItem := CartItem(db.nextCartItemId, menuItemId, delta);
    var cart := shoppingCart.(items := shoppingCart.items + [newCartItem]);
    if DistinctItems(shoppingCart.items) {
      DistinctItemsKept(shoppingCart.items, newCartItem, 0, 0);
    }
    CartInvariantsKept(db.carts, userId, cart);
    CartsWellFormedKept(db.carts, db.nextCartId, db.nextCartItemId, db.nextCartId, db.nextCartItemId + 1, userId, cart);
    db.carts := db.carts[userId := cart];
    db.nextCartItemId := db.nextCartItemId + 1;
  }

  /// Lines 108-123: line `k` of the user's cart gets `delta` added; it is
  /// removed when `delta` is 0 or the sum is not positive, and the cart
  /// goes with it when that was its only line.
  method MergeOrRemoveLine(db: Db, userId: string, k: nat, delta: int)
    requires db.CartsValid() && userId in db.carts && k < |db.carts[userId].items|
    modifies db`carts
    ensures db.CartsValid()
    ensures old(DistinctLines(db.carts)) ==> DistinctLines(db.carts)
    ensures old(NoEmptyCarts(db.carts)) ==> NoEmptyCarts(db.carts)
    ensures var cart := old(db.carts)[userId];
            var q := Wrap32(cart.items[k].quantity + delta);
            if delta == 0 || q <= 0 then
              if |cart.items| == 1 then db.carts == old(db.carts) - {userId}
              else db.carts == old(db.carts)[userId := cart.(items := RemoveAt(cart.items, k))]
            else
              db.carts == old(db.carts)[userId := cart.(items := cart.items[k := cart.items[k].(quantity := q)])]
  {
    var shoppingCart := db.carts[userId];
    var newQuantity := Wrap32(shoppingCart.items[k].quantity + delta);
    if DistinctItems(shoppingCart.items) {
      DistinctItemsKept(shoppingCart.items, shoppingCart.items[k], k, newQuantity);
    }
    if delta == 0 || newQuantity <= 0 {
      if |shoppingCart.items| == 1 {
        CartInvariantsKept(db.carts, userId, shoppingCart);
        CartsWellFormedKept(db.carts, db.nextCartId, db.nextCartItemId, db.nextCartId, db.nextCartItemId, userId, shoppingCart);
        db.carts := db.carts - {userId};
      } else {
        var cart := shoppingCart.(items := RemoveAt(shoppingCart.items, k));
        CartInvariantsKept(db.carts, userId, cart);
        CartsWellFormedKept(db.carts, db.nextCartId, db.nextCartItemId, db.nextCartId, db.nextCartItemId, userId, cart);
        db.carts := db.carts[userId := cart];
      }
    } else {
      var cart := shoppingCart.(items := shoppingCart.items[k := shoppingCart.items[k].(quantity := newQuantity)]);
      CartInvariantsKept(db.carts, userId, cart);
      CartsWellFormedKept(db.carts, db.nextCartId, db.nextCartItemId, db.nextCartId, db.nextCartItemId, userId, cart);
      db.carts := db.carts[userId := cart];
    }
  }

  /// `AddOrUpdateItemInCart`: add `delta` to the user's line for the menu
  /// item, creating the cart or the line when missing and removing the line
  /// (and the cart with its last line) when the quantity is used up.
  method AddOrUpdateItemInCart(db: Db, userId: string, menuItemId: int, delta: int)
    returns (r: Reply<(string, string)>)
    requires db.CartsValid() && db.MenuValid()
    modifies db`carts, db`nextCartId, db`nextCartItemId
    ensures db.CartsValid()
    ensures old(DistinctLines(db.carts)) ==> DistinctLines(db.carts)
    ensures old(NoEmptyCarts(db.carts)) ==> NoEmptyCarts(db.carts)
    // An unknown menu item is refused and nothing changes.
    ensures menuItemId !in db.menuItems ==>
      r == Reply(BadRequest, Envelope(None, Some(false), [InvalidMenuItemMessage], None)) &&
      db.carts == old(db.carts)
    // No cart and a non-positive delta: the code dereferences the null cart.
    ensures menuItemId in db.menuItems && userId !in old(db.carts) && delta <= 0 ==>
      r == Unhandled && db.carts == old(db.carts)
    // No cart and a positive delta: a new cart holding one line of `delta`.
    ensures menuItemId in db.menuItems && userId !in old(db.carts) && delta > 0 ==>
      r == UpdatedReply &&
      db.carts == old(db.carts)[userId := ShoppingCart(old(db.nextCartId), userId,
                                        [CartItem(old(db.nextCartItemId), menuItemId, delta)], None, None)]
    ensures menuItemId in db.menuItems && userId in old(db.carts) ==> r == UpdatedReply
    // A cart without a line for the item gets one of `delta`, whatever its sign.
    ensures menuItemId in db.menuItems && userId in old(db.carts) &&
            FindLine(old(db.carts)[userId].items, menuItemId).None? ==>
      db.carts == old(db.carts)[userId := old(db.carts)[userId].(items :=
                    old(db.carts)[userId].items + [CartItem(old(db.nextCartItemId), menuItemId, delta)])]
    // An existing line: merged when the new quantity stays positive, removed
    // otherwise (with the cart when it was the cart's only line).
    ensures menuItemId in db.menuItems && userId in old(db.carts) &&
            FindLine(old(db.carts)[userId].items, menuItemId).Some? ==>
      var cart := old(db.carts)[userId];
      var k := FindLine(cart.items, menuItemId).value;
      var q := Wrap32(cart.items[k].quantity + delta);
      if delta == 0 || q <= 0 then
        if |cart.items| == 1 then db.carts == old(db.carts) - {userId}
        else db.carts == old(db.carts)[userId := cart.(items := RemoveAt(cart.items, k))]
      else
        db.carts == old(db.carts)[userId := cart.(items := cart.items[k := cart.items[k].(quantity := q)])]
  {
    if menuItemId !in db.menuItems {
      return Reply(BadRequest, Envelope(None, Some(false), [InvalidMenuItemMessage], None));
    }
    if userId !in db.carts && delta > 0 {
      CreateCartWithLine(db, userId, menuItemId, delta);
    } else {
      if userId !in db.carts {
        // `shoppingCart!.CartItems` on a null cart
        return Unhandled;
      }
      var found := FindLine(db.carts[userId].items, menuItemId);
      if found.None? {
        AddLine(db, userId, menuItemId, delta);
      } else {
        MergeOrRemoveLine(db, userId, found.value, delta);
      }
    }
    r := UpdatedReply;
  }
}
