/// The payment bridge: total the user's cart, turn the total into the
/// gateway's amount and ask the payment gateway for a card payment intent.
/// The gateway is an oracle from the request to the intent it creates.
module PaymentController {
  import opened Common
  import opened Models
  import opened Data
  import opened ShoppingCartController

  const EmptyCartMessage := "Empty Cart"

  /// What is sent to the gateway.
  datatype PaymentIntentCreateOptions = PaymentIntentCreateOptions(
    amount: int,
    currency: string,
    paymentMethodTypes: seq<string>)

  /// What the gateway answers.
  datatype PaymentIntent = PaymentIntent(id: string, clientSecret: string)

  /// Rounding toward zero, as C#'s conversion of a double to an integer does.
  function Truncate(x: real): (r: int)
    ensures 0.0 <= x ==> 0 <= r && r as real <= x < r as real + 1.0
    ensures x < 0.0 ==> r <= 0 && r as real - 1.0 < x <= r as real
  {
    if x >= 0.0 then x.Floor else -((-x).Floor)
  }

  /// C#'s unchecked `(int)` conversion of a double: the truncated value when
  /// it fits, and int.MinValue otherwise (the x86-64 conversion instruction's
  /// answer for an out-of-range value).
  function ToInt32(x: real): (r: int)
    ensures IsInt32(r)
    ensures IsInt32(Truncate(x)) ==> r == Truncate(x)
    ensures !IsInt32(Truncate(x)) ==> r == IntMin
  {
    var t := Truncate(x);
    if IsInt32(t) then t else IntMin
  }

  /// `(int)total * 100`: the cast binds first, so the total is cut to whole
  /// units before it is scaled, and the product is unchecked 32-bit.
  function GatewayAmount(total: real): (r: int)
    ensures IsInt32(r)
    ensures (r - ToInt32(total) * 100) % TwoTo32 == 0
  {
    Wrap32(ToInt32(total) * 100)
  }

  /// For every total whose whole units, times 100, fit in 32 bits (either
  /// sign), the amount is those whole units times 100: a multiple of 100
  /// that drops the fraction, so it lies within one unit of the total in
  /// cents on the zero side.
  lemma GatewayAmountWholeUnits(total: real)
    requires -21474836 <= Truncate(total) <= 21474836
    ensures GatewayAmount(total) == Truncate(total) * 100
    ensures GatewayAmount(total) % 100 == 0
    ensures 0.0 <= total ==>
      GatewayAmount(total) as real <= total * 100.0 < GatewayAmount(total) as real + 100.0
    ensures total < 0.0 ==>
      GatewayAmount(total) as real - 100.0 < total * 100.0 <= GatewayAmount(total) as real
  {
    var t := Truncate(total);
    assert ToInt32(total) == t;
    assert IsInt32(t * 100);
  }

  /// The amount is the exact whole units times 100 only in that range:
  /// outside it the product wraps (or the cast itself fails), and the
  /// amount is something else.
  lemma GatewayAmountExactIff(total: real)
    ensures GatewayAmount(total) == Truncate(total) * 100 <==> -21474836 <= Truncate(total) <= 21474836
  {
    var t := Truncate(total);
    if -21474836 <= t <= 21474836 {
      GatewayAmountWholeUnits(total);
    } else {
      assert !IsInt32(t * 100);
      assert IsInt32(GatewayAmount(total));
    }
  }

  /// The cents are lost: a total of 10.99 is charged as 1000 (10.00).
  lemma GatewayAmountDropsCents()
    ensures GatewayAmount(10.99) == 1000
  {
    assert Truncate(10.99) == 10;
  }

  /// From 21474837.00 on, the 32-bit product wraps: the amount is negative
  /// and no longer a multiple of 100.
  lemma GatewayAmountWraps()
    ensures GatewayAmount(21474837.0) == -2147483596
    ensures GatewayAmount(21474837.0) % 100 != 0
  {
    assert Truncate(21474837.0) == 21474837;
    assert ToInt32(21474837.0) == 21474837;
    assert Wrap32(2147483700) == 2147483700 - TwoTo32;
  }

  /// The options `MakePayment` sends for a cart total: the gateway amount,
  /// in US dollars, by card only.
  function IntentOptions(total: real): (o: PaymentIntentCreateOptions)
    ensures o.amount == GatewayAmount(total)
    ensures o.currency == "usd" && o.paymentMethodTypes == ["card"]
  {
    PaymentIntentCreateOptions(GatewayAmount(total), "usd", ["card"])
  }

  /// `MakePayment`: refuse a missing or empty cart without calling the
  /// gateway; otherwise total the cart, request an intent for the gateway
  /// amount in US dollars by card only, and answer the cart carrying the
  /// intent's id and client secret. `request` is what was sent to the
  /// gateway, if anything. Nothing is saved: the store does not change.
  method MakePayment(db: Db, userId: string, createIntent: PaymentIntentCreateOptions -> PaymentIntent)
    returns (r: Reply<CartView>, request: Option<PaymentIntentCreateOptions>)
    requires db.CartsValid() && db.MenuValid()
    ensures userId !in db.carts || |db.carts[userId].items| == 0 ==>
      r == Failure(BadRequest, BadRequest, EmptyCartMessage) && request == None
    ensures userId in db.carts && |db.carts[userId].items| > 0 && !Priced(db.carts[userId].items, db.menuItems) ==>
      r == Unhandled && request == None
    ensures userId in db.carts && |db.carts[userId].items| > 0 && Priced(db.carts[userId].items, db.menuItems) ==>
      var cart := db.carts[userId];
      var total := CartTotal(cart.items, db.menuItems);
      var intent := createIntent(IntentOptions(total));
      request == Some(IntentOptions(total)) &&
      r == Reply(OK, Envelope(Some(OK), Some(true), [], Some(CartView(
             cart.(stripePaymentIntentId := Some(intent.id), clientSecret := Some(intent.clientSecret)), total))))
  {
    if userId !in db.carts || |db.carts[userId].items| == 0 {
      return Failure(BadRequest, BadRequest, EmptyCartMessage), None;
    }
    var shoppingCart := db.carts[userId];
    if !Priced(shoppingCart.items, db.menuItems) {
      // `x.MenuItem.Price` on a missing menu item
      return Unhandled, None;
    }
    var cartTotal := CartTotal(shoppingCart.items, db.menuItems);
    var options := IntentOptions(cartTotal);
    var stripeResponse := createIntent(options);
    shoppingCart := shoppingCart.(stripePaymentIntentId := Some(stripeResponse.id),
                                  clientSecret := Some(stripeResponse.clientSecret));
    r := Reply(OK, Envelope(Some(OK), Some(true), [], Some(CartView(shoppingCart, cartTotal))));
    request := Some(options);
  }
}
