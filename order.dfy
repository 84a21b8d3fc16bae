/// The order engine: listing orders newest first with an optional owner
/// filter, looking one up, creating a header with its detail rows, and the
/// partial update of a header.
module OrderController {
  import opened Common
  import opened Models
  import opened Data
  import SD

  const InvalidOrderIdMessage := "Invalid Order Id"
  const OrderNotFoundMessage := "Order not found"
  const InvalidHeaderMessage := "Invalid Order Header Object"

  /// An order as the API returns it: the header with its detail rows, or
  /// with a null detail collection.
  datatype OrderView = OrderView(header: OrderHeader, orderDetails: Option<set<OrderDetails>>)

  datatype OrderDetailsCreateDto = OrderDetailsCreateDto(
    menuItemId: int,
    quantity: int,
    itemName: NString,
    price: real)

  datatype OrderHeaderCreateDto = OrderHeaderCreateDto(
    applicationUserId: NString,
    pickupName: NString,
    pickupPhoneNumber: NString,
    pickupEmail: NString,
    orderTotal: real,
    stripePaymentIntentId: NString,
    totalItems: int,
    status: NString,
    orderDetailsDtos: seq<OrderDetailsCreateDto>)

  datatype OrderHeaderUpdateDto = OrderHeaderUpdateDto(
    orderHeaderId: int,
    pickupName: NString,
    pickupPhoneNumber: NString,
    pickupEmail: NString,
    stripePaymentIntentId: NString,
    status: NString)

  /// The detail rows that belong to order `id` (`Include(o => o.OrderDetails)`).
  function DetailsOf(details: map<int, OrderDetails>, id: int): set<OrderDetails> {
    set k | k in details && details[k].orderHeaderId == id :: details[k]
  }

  /// An order as a query loads it: the stored header, with every stored
  /// detail row that carries its id and no other.
  function ViewOf(db: Db, id: int): (v: OrderView)
    reads db
    requires id in db.orderHeaders
    ensures v.header == db.orderHeaders[id] && v.orderDetails.Some?
    ensures forall k :: k in db.orderDetails && db.orderDetails[k].orderHeaderId == id ==>
      db.orderDetails[k] in v.orderDetails.value
    ensures forall d :: d in v.orderDetails.value ==>
      d.orderHeaderId == id && exists k :: k in db.orderDetails && db.orderDetails[k] == d
  {
    OrderView(db.orderHeaders[id], Some(DetailsOf(db.orderDetails, id)))
  }

  /// Writing the detail rows of a new order `id` (one per requested line,
  /// under keys `first`, `first + 1`, ...) gives the new order exactly those
  /// rows and leaves the rows of every stored order as they were.
  lemma CreatedDetails(before: map<int, OrderDetails>, after: map<int, OrderDetails>, headers: map<int, OrderHeader>,
                       id: int, first: int, lines: seq<OrderDetailsCreateDto>)
    requires forall k :: k in before ==> k < first && before[k].orderHeaderId in headers
    requires id !in headers
    requires forall k :: k in after <==> k in before || first <= k < first + |lines|
    requires forall k :: k in before ==> after[k] == before[k]
    requires forall j :: 0 <= j < |lines| ==> after[first + j] == NewDetails(first + j, id, lines[j])
    ensures forall d :: d in DetailsOf(after, id) <==>
      exists j :: 0 <= j < |lines| && d == NewDetails(first + j, id, lines[j])
    ensures forall h :: h in headers ==> DetailsOf(after, h) == DetailsOf(before, h)
  {
    forall k | k in after && k !in before
      ensures after[k] == NewDetails(k, id, lines[k - first])
    {
      assert after[first + (k - first)] == NewDetails(first + (k - first), id, lines[k - first]);
    }
    forall d | d in DetailsOf(after, id)
      ensures exists j :: 0 <= j < |lines| && d == NewDetails(first + j, id, lines[j])
    {
      var k :| k in after && after[k].orderHeaderId == id && after[k] == d;
      if k in before {
        assert false;
      }
      assert after[first + (k - first)] == NewDetails(first + (k - first), id, lines[k - first]);
    }
    forall j | 0 <= j < |lines|
      ensures NewDetails(first + j, id, lines[j]) in DetailsOf(after, id)
    {
      assert after[first + j] == NewDetails(first + j, id, lines[j]);
      assert first + j in after && after[first + j].orderHeaderId == id;
    }
    forall h | h in headers
      ensures DetailsOf(after, h) == DetailsOf(before, h)
    {
      forall d | d in DetailsOf(after, h) ensures d in DetailsOf(before, h) {
        var k :| k in after && after[k].orderHeaderId == h && after[k] == d;
        if k !in before {
          assert false;
        }
        assert before[k].orderHeaderId == h;
      }
      forall d | d in DetailsOf(before, h) ensures d in DetailsOf(after, h) {
        var k :| k in before && before[k].orderHeaderId == h && before[k] == d;
        assert after[k] == d;
      }
    }
  }

  predicate StrictlyDescending(s: seq<int>) {
    forall i, j :: 0 <= i < j < |s| ==> s[i] > s[j]
  }

  lemma {:induction false} MaxExists(ks: set<int>)
    requires ks != {}
    ensures exists m :: m in ks && forall k :: k in ks ==> k <= m
    decreases |ks|
  {
    var x := PickOne(ks);
    if !(forall k :: k in ks ==> k <= x) {
      var z :| z in ks && z > x;
      var rest := ks - {x};
      assert z in rest;
      assert |rest| < |ks|;
      MaxExists(rest);
      var y :| y in rest && forall k :: k in rest ==> k <= y;
      assert forall k :: k in ks ==> k == x || k in rest;
      assert y in ks && forall k :: k in ks ==> k <= y;
    }
  }

  /// Some element of a non-empty set.
  lemma PickOne(ks: set<int>) returns (x: int)
    requires ks != {}
    ensures x in ks
  {
    if forall y :: y !in ks {
      assert false;
    }
    x :| x in ks;
  }

  function MaxOf(ks: set<int>): (m: int)
    requires ks != {}
    ensures m in ks && forall k :: k in ks ==> k <= m
  {
    MaxExists(ks);
    var m :| m in ks && forall k :: k in ks ==> k <= m;
    m
  }

  /// The keys in strictly descending order (`OrderByDescending` on a key).
  function Descending(ks: set<int>): (r: seq<int>)
    ensures forall k :: k in r <==> k in ks
    ensures StrictlyDescending(r)
    decreases ks
  {
    if ks == {} then []
    else
      var m := MaxOf(ks);
      [m] + Descending(ks - {m})
  }

  /// Whether a `userId` filter keeps header `h`: a null or empty filter
  /// keeps every order, any other keeps the user's own.
  predicate Selects(userId: NString, h: OrderHeader): (keep: bool)
    ensures userId.None? || userId == Some("") ==> keep
    ensures userId.Some? && userId.value != "" ==> (keep <==> h.applicationUserId == userId)
  {
    IsNullOrEmpty(userId) || h.applicationUserId == userId
  }

  /// The ids of `ids` whose headers the filter keeps, in the same order.
  function SelectIds(ids: seq<int>, headers: map<int, OrderHeader>, userId: NString): (r: seq<int>)
    requires forall k :: k in ids ==> k in headers
    requires StrictlyDescending(ids)
    ensures forall k :: k in r <==> k in ids && Selects(userId, headers[k])
    ensures StrictlyDescending(r)
  {
    if ids == [] then []
    else
      assert ids[0] in ids;
      var rest := SelectIds(ids[1..], headers, userId);
      assert forall j :: 0 <= j < |ids[1..]| ==> ids[1..][j] < ids[0];
      assert forall k :: k in rest ==> k < ids[0];
      if Selects(userId, headers[ids[0]]) then
        var r := [ids[0]] + rest;
        assert forall i :: 0 < i < |r| ==> r[i] == rest[i - 1] && r[i] in rest;
        r
      else rest
  }

  /// The orders with the given ids, in the same order.
  function ViewsOf(db: Db, ids: seq<int>): (r: seq<OrderView>)
    reads db
    requires db.OrdersValid()
    requires forall k :: k in ids ==> k in db.orderHeaders
    ensures |r| == |ids|
    ensures forall i :: 0 <= i < |ids| ==> r[i] == ViewOf(db, ids[i]) && r[i].header.orderHeaderId == ids[i]
  {
    if ids == [] then []
    else
      assert ids[0] in ids;
      [ViewOf(db, ids[0])] + ViewsOf(db, ids[1..])
  }

  /// `GetOrders`: every order the filter keeps, each with its detail rows,
  /// newest (highest id) first.
  function GetOrders(db: Db, userId: NString): (r: Reply<seq<OrderView>>)
    reads db
    requires db.OrdersValid()
    ensures r.Reply? && r.http == OK && r.body.Envelope?
    ensures r.body.code == Some(OK) && r.body.success == Some(true) && r.body.errors == []
    ensures r.body.result.Some?
    ensures var vs := r.body.result.value;
      (forall i, j :: 0 <= i < j < |vs| ==> vs[i].header.orderHeaderId > vs[j].header.orderHeaderId) &&
      (forall i :: 0 <= i < |vs| ==>
         vs[i].header.orderHeaderId in db.orderHeaders && vs[i] == ViewOf(db, vs[i].header.orderHeaderId) &&
         Selects(userId, vs[i].header)) &&
      (forall id :: id in db.orderHeaders && Selects(userId, db.orderHeaders[id]) ==>
         exists i :: 0 <= i < |vs| && vs[i].header.orderHeaderId == id)
  {
    var ids := SelectIds(Descending(db.orderHeaders.Keys), db.orderHeaders, userId);
    var views := ViewsOf(db, ids);
    assert forall id :: id in ids ==> exists i :: 0 <= i < |ids| && ids[i] == id;
    Reply(OK, Envelope(Some(OK), Some(true), [], Some(views)))
  }

  /// `GetOrder`: id 0 is refused up front; any other id (negative ones
  /// included) is looked up and answered with the order or NotFound.
  function GetOrder(db: Db, id: int): (r: Reply<OrderView>)
    reads db
    requires db.OrdersValid()
    ensures id == 0 ==> r == Failure(BadRequest, BadRequest, InvalidOrderIdMessage)
    ensures id != 0 && id !in db.orderHeaders ==> r == Failure(NotFound, NotFound, OrderNotFoundMessage)
    ensures id != 0 && id in db.orderHeaders ==>
      r == Reply(OK, Envelope(Some(OK), Some(true), [], Some(ViewOf(db, id))))
  {
    if id == 0 then Failure(BadRequest, BadRequest, InvalidOrderIdMessage)
    else if id !in db.orderHeaders then Failure(NotFound, NotFound, OrderNotFoundMessage)
    else Reply(OK, Envelope(Some(OK), Some(true), [], Some(ViewOf(db, id))))
  }

  /// A negative id passes the guard but never names an order.
  lemma GetOrderNegativeId(db: Db, id: int)
    requires db.OrdersValid() && id < 0
    ensures GetOrder(db, id) == Failure(NotFound, NotFound, OrderNotFoundMessage)
  {
  }

  /// The header `CreateOrder` stores under `id`: the fields copied from the
  /// request, the date given, and the status defaulting to "Pending".
  function NewHeader(id: int, dto: OrderHeaderCreateDto, now: int): (h: OrderHeader)
    ensures h.orderHeaderId == id && h.orderDate == now
    ensures !IsNullOrEmpty(h.status)
    ensures IsNullOrEmpty(dto.status) ==> h.status == Some(SD.StatusPending)
    ensures !IsNullOrEmpty(dto.status) ==> h.status == dto.status
    ensures h.applicationUserId == dto.applicationUserId && h.pickupName == dto.pickupName
    ensures h.pickupPhoneNumber == dto.pickupPhoneNumber && h.pickupEmail == dto.pickupEmail
    ensures h.orderTotal == dto.orderTotal && h.totalItems == dto.totalItems
    ensures h.stripePaymentIntentId == dto.stripePaymentIntentId
  {
    OrderHeader(
      orderHeaderId := id,
      applicationUserId := dto.applicationUserId,
      pickupName := dto.pickupName,
      pickupPhoneNumber := dto.pickupPhoneNumber,
      pickupEmail := dto.pickupEmail,
      orderTotal := dto.orderTotal,
      orderDate := now,
      stripePaymentIntentId := dto.stripePaymentIntentId,
      totalItems := dto.totalItems,
      status := if IsNullOrEmpty(dto.status) then Some(SD.StatusPending) else dto.status)
  }

  /// The detail row stored under `id` for one requested line of order
  /// `headerId`.
  function NewDetails(id: int, headerId: int, line: OrderDetailsCreateDto): (d: OrderDetails)
    ensures d.orderDetailsId == id && d.orderHeaderId == headerId
    ensures d.menuItemId == line.menuItemId && d.quantity == line.quantity
    ensures d.itemName == line.itemName && d.price == line.price
  {
    OrderDetails(id, headerId, line.menuItemId, line.quantity, line.itemName, line.price)
  }

  /// The loop of `CreateOrder` that stores one detail row per requested line
  /// of the stored order `id`, under fresh ids taken in order.
  method StoreDetails(db: Db, id: int, lines: seq<OrderDetailsCreateDto>)
    requires db.OrdersValid() && id in db.orderHeaders
    modifies db`orderDetails, db`nextOrderDetailsId
    ensures db.OrdersValid()
    ensures db.nextOrderDetailsId == old(db.nextOrderDetailsId) + |lines|
    ensures forall k :: k in db.orderDetails <==>
      k in old(db.orderDetails) || old(db.nextOrderDetailsId) <= k < old(db.nextOrderDetailsId) + |lines|
    ensures forall k :: k in old(db.orderDetails) ==> db.orderDetails[k] == old(db.orderDetails)[k]
    ensures forall j :: 0 <= j < |lines| ==>
      db.orderDetails[old(db.nextOrderDetailsId) + j] == NewDetails(old(db.nextOrderDetailsId) + j, id, lines[j])
  {
    var first := db.nextOrderDetailsId;
    var i := 0;
    while i < |lines|
      invariant 0 <= i <= |lines|
      invariant db.nextOrderDetailsId == first + i
      invariant db.OrdersValid()
      invariant forall k :: k in db.orderDetails <==> k in old(db.orderDetails) || first <= k < first + i
      invariant forall k :: k in old(db.orderDetails) ==> db.orderDetails[k] == old(db.orderDetails)[k]
      invariant forall j :: 0 <= j < i ==> db.orderDetails[first + j] == NewDetails(first + j, id, lines[j])
    {
      db.orderDetails := db.orderDetails[first + i := NewDetails(first + i, id, lines[i])];
      db.nextOrderDetailsId := first + i + 1;
      i := i + 1;
    }
  }

  /// `CreateOrder`: refuse an invalid request; otherwise store the header,
  /// then one detail row per requested line under the new header id, and
  /// answer the header with a null detail collection.
  method CreateOrder(db: Db, modelValid: bool, dto: OrderHeaderCreateDto, now: int)
    returns (r: Reply<OrderView>)
    requires db.OrdersValid()
    modifies db`orderHeaders, db`nextOrderHeaderId, db`orderDetails, db`nextOrderDetailsId
    ensures db.OrdersValid()
    ensures !modelValid ==>
      r == Failure(BadRequest, BadRequest, InvalidHeaderMessage) &&
      db.orderHeaders == old(db.orderHeaders) && db.orderDetails == old(db.orderDetails)
    ensures modelValid ==>
      var id := old(db.nextOrderHeaderId);
      var first := old(db.nextOrderDetailsId);
      var lines := dto.orderDetailsDtos;
      db.orderHeaders == old(db.orderHeaders)[id := NewHeader(id, dto, now)] &&
      (forall k :: k in db.orderDetails <==> k in old(db.orderDetails) || first <= k < first + |lines|) &&
      (forall k :: k in old(db.orderDetails) ==> db.orderDetails[k] == old(db.orderDetails)[k]) &&
      (forall j :: 0 <= j < |lines| ==> db.orderDetails[first + j] == NewDetails(first + j, id, lines[j])) &&
      // the new order owns exactly the new rows; no stored order's rows change
      (forall d :: d in DetailsOf(db.orderDetails, id) <==>
         exists j :: 0 <= j < |lines| && d == NewDetails(first + j, id, lines[j])) &&
      (forall h :: h in old(db.orderHeaders) ==> DetailsOf(db.orderDetails, h) == DetailsOf(old(db.orderDetails), h)) &&
      r == Reply(OK, Envelope(Some(Created), None, [], Some(OrderView(NewHeader(id, dto, now), None))))
  {
    if !modelValid {
      return Failure(BadRequest, BadRequest, InvalidHeaderMessage);
    }
    var id := db.nextOrderHeaderId;
    var order := NewHeader(id, dto, now);
    db.orderHeaders := db.orderHeaders[id := order];
    db.nextOrderHeaderId := id + 1;
    StoreDetails(db, id, dto.orderDetailsDtos);
    CreatedDetails(old(db.orderDetails), db.orderDetails, old(db.orderHeaders), id, old(db.nextOrderDetailsId), dto.orderDetailsDtos);
    r := Reply(OK, Envelope(Some(Created), None, [], Some(OrderView(order, None))));
  }

  /// The stored header after an update: each of the five updatable fields
  /// is overwritten exactly when the request supplies a non-empty value.
  function ApplyUpdate(h: OrderHeader, dto: OrderHeaderUpdateDto): (r: OrderHeader)
    ensures r.pickupName == (if IsNullOrEmpty(dto.pickupName) then h.pickupName else dto.pickupName)
    ensures r.pickupEmail == (if IsNullOrEmpty(dto.pickupEmail) then h.pickupEmail else dto.pickupEmail)
    ensures r.pickupPhoneNumber == (if IsNullOrEmpty(dto.pickupPhoneNumber) then h.pickupPhoneNumber else dto.pickupPhoneNumber)
    ensures r.status == (if IsNullOrEmpty(dto.status) then h.status else dto.status)
    ensures r.stripePaymentIntentId == (if IsNullOrEmpty(dto.stripePaymentIntentId) then h.stripePaymentIntentId else dto.stripePaymentIntentId)
    ensures r.orderHeaderId == h.orderHeaderId && r.applicationUserId == h.applicationUserId
    ensures r.orderTotal == h.orderTotal && r.orderDate == h.orderDate && r.totalItems == h.totalItems
  {
    var h := if IsNullOrEmpty(dto.pickupName) then h else h.(pickupName := dto.pickupName);
    var h := if IsNullOrEmpty(dto.pickupEmail) then h else h.(pickupEmail := dto.pickupEmail);
    var h := if IsNullOrEmpty(dto.pickupPhoneNumber) then h else h.(pickupPhoneNumber := dto.pickupPhoneNumber);
    var h := if IsNullOrEmpty(dto.status) then h else h.(status := dto.status);
    if IsNullOrEmpty(dto.stripePaymentIntentId) then h else h.(stripePaymentIntentId := dto.stripePaymentIntentId)
  }

  /// Applying the same update twice is the same as applying it once.
  lemma ApplyUpdateIdempotent(h: OrderHeader, dto: OrderHeaderUpdateDto)
    ensures ApplyUpdate(ApplyUpdate(h, dto), dto) == ApplyUpdate(h, dto)
  {
  }

  /// An update that supplies nothing leaves the header as it was.
  lemma ApplyEmptyUpdate(h: OrderHeader, dto: OrderHeaderUpdateDto)
    requires IsNullOrEmpty(dto.pickupName) && IsNullOrEmpty(dto.pickupEmail) && IsNullOrEmpty(dto.pickupPhoneNumber)
    requires IsNullOrEmpty(dto.status) && IsNullOrEmpty(dto.stripePaymentIntentId)
    ensures ApplyUpdate(h, dto) == h
  {
  }

  /// `UpdateOrderHeader`: refuse a null request or one whose id differs from
  /// the route's, answer NotFound for an unknown order, and otherwise apply
  /// the partial update to the stored header, field by field.
  method UpdateOrderHeader(db: Db, id: int, dto: Option<OrderHeaderUpdateDto>) returns (r: Reply<()>)
    requires db.OrdersValid()
    modifies db`orderHeaders
    ensures db.OrdersValid()
    ensures dto.None? || id != dto.value.orderHeaderId ==>
      r == Failure(BadRequest, BadRequest, InvalidHeaderMessage) && db.orderHeaders == old(db.orderHeaders)
    ensures dto.Some? && id == dto.value.orderHeaderId && id !in old(db.orderHeaders) ==>
      r == Failure(NotFound, NotFound, OrderNotFoundMessage) && db.orderHeaders == old(db.orderHeaders)
    ensures dto.Some? && id == dto.value.orderHeaderId && id in old(db.orderHeaders) ==>
      r == Reply(OK, Envelope(Some(NoContent), Some(true), [], None)) &&
      db.orderHeaders == old(db.orderHeaders)[id := ApplyUpdate(old(db.orderHeaders)[id], dto.value)]
  {
    if dto.None? || id != dto.value.orderHeaderId {
      return Failure(BadRequest, BadRequest, InvalidHeaderMessage);
    }
    if id !in db.orderHeaders {
      return Failure(NotFound, NotFound, OrderNotFoundMessage);
    }
    var update := dto.value;
    var orderFromDb := db.orderHeaders[id];
    if !IsNullOrEmpty(update.pickupName) {
      orderFromDb := orderFromDb.(pickupName := update.pickupName);
    }
    if !IsNullOrEmpty(update.pickupEmail) {
      orderFromDb := orderFromDb.(pickupEmail := update.pickupEmail);
    }
    if !IsNullOrEmpty(update.pickupPhoneNumber) {
      orderFromDb := orderFromDb.(pickupPhoneNumber := update.pickupPhoneNumber);
    }
    if !IsNullOrEmpty(update.status) {
      orderFromDb := orderFromDb.(status := update.status);
    }
    if !IsNullOrEmpty(update.stripePaymentIntentId) {
      orderFromDb := orderFromDb.(stripePaymentIntentId := update.stripePaymentIntentId);
    }
    db.orderHeaders := db.orderHeaders[id := orderFromDb];
    r := Reply(OK, Envelope(Some(NoContent), Some(true), [], None));
  }
}
