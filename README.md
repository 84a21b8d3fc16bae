# Red Mango API — a verified model of the controllers' decision rules

This project models the core of the Red Mango restaurant ordering API, an
ASP.NET Core service. The model covers five controllers:

- **ShoppingCartController**: the cart state machine and the cart total.
- **OrderController**: order listing, lookup, creation and partial update.
- **MenuItemController**: the menu catalog, including the blob-name rule
  for item images.
- **AuthController**: registration with its role bootstrap and role
  choice, and login with its failure branches and claim set.
- **PaymentController**: the payment-intent request.

The database is a `Data.Db` object with one map per table and one counter
per identity column; each action is one atomic step on it. The blob
container is a `Services.BlobService` object holding a set of blob names.

Outside services are parameters:
- the Stripe gateway is a function from request to intent;
- the password check and the token writer are functions;
- the outcome of creating an identity user is an input;
- generated GUIDs and the clock are inputs.

Every action answers a `Common.Reply`. It carries the HTTP status and
either no body (`BadRequest()`) or the `ApiResponse` envelope, whose
fields are `None` where the action leaves their defaults. An exception
that escapes an action is `Unhandled`.

Modules:
- `Common`: replies, nullable strings, unchecked 32-bit `int` arithmetic,
  ASCII case mapping and integer formatting.
- `Models`: the entities.
- `SD`: the constants in Utility/SD.cs.
- `Data`: the database and its well-formedness predicates.
- `Services`: the blob store.
- One module per controller.

Behaviours of the code that the model keeps as written:
- A registration under a taken user name, and every login failure,
  answers 400 BadRequest.
- `CreateOrder` answers HTTP 200, and carries `Created` only as the
  envelope's status code.
- `UpdateMenuItem` and `DeleteMenuItem` answer HTTP 200, and carry
  `NoContent` only in the envelope.
- `MakePayment` saves nothing: the intent id and client secret appear only
  on the cart it returns, and the stored cart stays as it was.
- The gateway amount is `(int)total * 100`. The cast binds first, so the
  cents are dropped, and the product is unchecked 32-bit arithmetic.

## Model

| member | source | states |
|---|---|---|
| Common.Wrap32 | Controllers/ShoppingCartController.cs:108 | C#'s unchecked `int` result: the unique 32-bit value congruent to the exact one modulo 2^32, equal to it when it fits |
| Common.ToLower | Controllers/AuthController.cs:35 | `ToLower` keeps the length and lower-cases every character |
| Common.ToUpper | Controllers/AuthController.cs:102 | `ToUpper` keeps the length and upper-cases every character |
| Common.NatToString | Controllers/MenuItemController.cs:43 | the decimal text of a natural number is at least one digit, has no leading zero, and spells the number back |
| Common.IntToString | Controllers/MenuItemController.cs:43 | the text of an `int` starts with '-' exactly when it is negative, and its digits spell the magnitude |
| Data.CartsWellFormedKept | Controllers/ShoppingCartController.cs:70-123 | raising the identity counters, storing a well-formed cart or removing a cart keeps every cart stored under its owner with ids below the counters |
| Data.MenuWellFormedKept | Controllers/MenuItemController.cs:130-143 | overwriting a stored menu row with one that keeps its id keeps every row stored under its own id |
| Services.BlobService.UploadBlob | Services/BlobService.cs:28-44 | the blob is in the container afterwards and the answer is the account URI / container / blob name |
| Services.BlobService.DeleteBlob | Services/BlobService.cs:21-26 | the blob is gone afterwards; the answer says whether it existed |
| ShoppingCartController.LineTotal | Controllers/ShoppingCartController.cs:39 | a line of quantity zero costs nothing, and a line of non-negative quantity and price never costs less than zero |
| ShoppingCartController.CartTotalNonNegative | Controllers/ShoppingCartController.cs:39 | a cart with no line of negative quantity or price never totals below zero |
| ShoppingCartController.CartTotalAppend | Controllers/ShoppingCartController.cs:39 | the total of a concatenation of lines is the sum of the totals |
| ShoppingCartController.CartTotalSetQuantity | Controllers/ShoppingCartController.cs:39 | setting one line's quantity moves the total by the change in quantity times that item's price |
| ShoppingCartController.CartTotalRemoveAt | Controllers/ShoppingCartController.cs:39 | removing a line takes its quantity times price off the total |
| ShoppingCartController.RemoveAt | Controllers/ShoppingCartController.cs:111 | removing a line keeps every other line, in order |
| ShoppingCartController.GetShoppingCart | Controllers/ShoppingCartController.cs:17-54 | empty user id: a fresh empty cart; no cart: a null result; priced cart: the cart with total = Σ quantity × current price; a line whose menu item is missing: the caught NullReferenceException as BadRequest |
| ShoppingCartController.FindLine | Controllers/ShoppingCartController.cs:92 | the first line for the menu item, or none exactly when no line has it |
| ShoppingCartController.DistinctItemsKept | Controllers/ShoppingCartController.cs:93-123 | adding a line for an item the cart lacks, removing a line, or changing a quantity keeps one line per menu item |
| ShoppingCartController.CartInvariantsKept | Controllers/ShoppingCartController.cs:111-121 | storing a cart with distinct, non-empty lines, or removing a cart, keeps "one line per item" and "no empty cart" over the table |
| ShoppingCartController.CreateCartWithLine | Controllers/ShoppingCartController.cs:70-89 | exactly one new cart for the user, holding one line of quantity = delta, under fresh ids |
| ShoppingCartController.AddLine | Controllers/ShoppingCartController.cs:93-105 | a new line of quantity = delta appended to the user's cart, whatever the sign of delta; nothing else changes |
| ShoppingCartController.MergeOrRemoveLine | Controllers/ShoppingCartController.cs:108-123 | the line's quantity becomes old + delta (32-bit); the line is removed when delta = 0 or the sum ≤ 0, and the cart goes with it exactly when that was its only line |
| ShoppingCartController.AddOrUpdateItemInCart | Controllers/ShoppingCartController.cs:57-131 | unknown menu item: BadRequest "Invalid Menu Item Request", carts unchanged; no cart and delta ≤ 0: the null-cart dereference, nothing stored; otherwise the create/add/merge/remove effect above and OK "Cart added or updated successfully"; the table invariants are kept |
| PaymentController.Truncate | Controllers/PaymentController.cs:39 | rounding toward zero: the result is within one unit of the input, on the zero side |
| PaymentController.ToInt32 | Controllers/PaymentController.cs:39 | the `(int)` cast of a double: the truncated value when it fits, int.MinValue otherwise |
| PaymentController.GatewayAmount | Controllers/PaymentController.cs:39 | the amount is a 32-bit value congruent, modulo 2^32, to the cast total times 100 |
| PaymentController.GatewayAmountWholeUnits | Controllers/PaymentController.cs:39 | whenever the whole units times 100 fit in 32 bits (either sign), the amount is truncate(total) × 100: a multiple of 100 within one unit of the total in cents, on the zero side |
| PaymentController.GatewayAmountExactIff | Controllers/PaymentController.cs:39 | the amount equals truncate(total) × 100 exactly when that product fits in 32 bits |
| PaymentController.GatewayAmountDropsCents | Controllers/PaymentController.cs:39 | a total of 10.99 is charged as 1000 |
| PaymentController.GatewayAmountWraps | Controllers/PaymentController.cs:39 | a total of 21474837.00 wraps to a negative amount that is not a multiple of 100 |
| PaymentController.IntentOptions | Controllers/PaymentController.cs:37-45 | the request carries the gateway amount of the total, currency "usd" and the card method only |
| PaymentController.MakePayment | Controllers/PaymentController.cs:17-57 | missing or empty cart: BadRequest "Empty Cart" and no intent requested; otherwise one request for the gateway amount in "usd", card only, and an OK reply with the cart carrying the returned intent id and client secret and its total; the store does not change |
| OrderController.ViewOf | Controllers/OrderController.cs:26-27 | an order's view holds its stored header and exactly the stored detail rows that carry its header id |
| OrderController.CreatedDetails | Controllers/OrderController.cs:108-125 | writing one row per requested line under fresh keys gives the new order exactly those rows and leaves every stored order's rows as they were |
| OrderController.MaxExists | Controllers/OrderController.cs:28 | a non-empty set of ids has a largest element |
| OrderController.MaxOf | Controllers/OrderController.cs:28 | the largest id of a non-empty set |
| OrderController.Descending | Controllers/OrderController.cs:28 | the ids exactly, in strictly descending order |
| OrderController.Selects | Controllers/OrderController.cs:29-31 | a null or empty user id keeps every order; any other keeps exactly the orders whose user id equals it |
| OrderController.SelectIds | Controllers/OrderController.cs:29-31 | exactly the ids whose order the user filter keeps, still strictly descending |
| OrderController.ViewsOf | Controllers/OrderController.cs:26-27 | each id's order with its detail rows, position by position |
| OrderController.GetOrders | Controllers/OrderController.cs:21-42 | OK with the orders in strictly descending id order; each one matches the filter (a null or empty user id keeps all); every stored order that matches appears |
| OrderController.GetOrder | Controllers/OrderController.cs:45-80 | id 0: BadRequest "Invalid Order Id"; an absent id: NotFound "Order not found"; otherwise OK with the order and its details |
| OrderController.GetOrderNegativeId | Controllers/OrderController.cs:49-67 | a negative id passes the guard and ends in NotFound |
| OrderController.NewHeader | Controllers/OrderController.cs:95-106 | the request's fields are copied, the date is the clock's, and the status is "Pending" when none is supplied, the supplied one otherwise |
| OrderController.NewDetails | Controllers/OrderController.cs:112-119 | the detail row carries the given id and header id, and the menu item id, quantity, item name and price of the requested line |
| OrderController.StoreDetails | Controllers/OrderController.cs:108-122 | one row per requested line is stored under consecutive fresh ids, tied to the order with the line's fields; earlier rows untouched; every row still belongs to a stored order |
| OrderController.CreateOrder | Controllers/OrderController.cs:83-136 | invalid request: BadRequest "Invalid Order Header Object", nothing stored; otherwise the new header plus exactly one detail row per requested line, under fresh ids, tied to the new header id with fields copied; earlier rows untouched; the new order owns exactly the new rows and every stored order keeps its rows; every row belongs to a stored order; the answer holds the header with a null detail collection |
| OrderController.ApplyUpdate | Controllers/OrderController.cs:160-183 | each of the five updatable fields is overwritten exactly when the supplied value is non-empty; every other field is kept |
| OrderController.ApplyUpdateIdempotent | Controllers/OrderController.cs:160-183 | applying the same update twice equals applying it once |
| OrderController.ApplyEmptyUpdate | Controllers/OrderController.cs:160-183 | an update that supplies nothing leaves the header as it was |
| OrderController.UpdateOrderHeader | Controllers/OrderController.cs:139-196 | a null request or an id mismatch: BadRequest; an absent order: NotFound; in both cases no order changes; otherwise the stored header becomes the partial update of itself; the order tables stay well formed |
| MenuItemController.Split | Controllers/MenuItemController.cs:138 | `Split('/')`: at least one piece and no piece contains '/' |
| MenuItemController.JoinExtend | Controllers/MenuItemController.cs:138 | one more character grows the join of the pieces by exactly that character, whether it starts a new piece or extends the last |
| MenuItemController.SplitJoin | Controllers/MenuItemController.cs:138 | joining the pieces with '/' gives the string back |
| MenuItemController.BlobName | Controllers/MenuItemController.cs:138 | the blob name contains no '/', and is the whole URI when the URI has no '/' |
| MenuItemController.BlobNameIsTail | Controllers/MenuItemController.cs:138 | the blob name is a tail of the URI, and a '/' stands right before it when it is shorter than the URI |
| MenuItemController.BlobNameIsLastPiece | Controllers/MenuItemController.cs:180 | the blob name is exactly `Split('/').Last()` |
| MenuItemController.BlobNameAfterSlash | Controllers/MenuItemController.cs:138 | whatever precedes the last '/', the blob name is what follows it |
| MenuItemController.BlobNameOfUri | Controllers/MenuItemController.cs:180 | the URI an upload answers names the uploaded blob again |
| MenuItemController.GetMenuItem | Controllers/MenuItemController.cs:36-59 | id ≤ 0: BadRequest "Invalid Id: <id>"; an absent id: BadRequest "Menu Item '<id>' not found"; otherwise OK with the stored item |
| MenuItemController.CreateMenuItem | Controllers/MenuItemController.cs:61-104 | invalid model: an error envelope over HTTP 200, nothing stored; a missing or zero-length file: bare BadRequest, nothing stored or uploaded; otherwise the blob is uploaded and a new item is stored under a fresh id with the five fields copied and image = the upload's URI |
| MenuItemController.Updated | Controllers/MenuItemController.cs:130-140 | the updated row keeps its id, takes the five scalar fields from the request and the given image |
| MenuItemController.ReplaceImage | Controllers/MenuItemController.cs:138-140 | the blob the old URI names is deleted, the new blob is uploaded, and the answer is the new blob's URI |
| MenuItemController.ApplyMenuUpdate | Controllers/MenuItemController.cs:130-144 | the five scalar fields are overwritten; the image changes only for a non-empty file, in which case the blob the old URI names is deleted and the new upload's URI is stored |
| MenuItemController.UpdateMenuItem | Controllers/MenuItemController.cs:106-156 | invalid model: a default envelope over HTTP 200; a null request or an id mismatch: bare BadRequest; an absent item: NotFound "Menu Item not found"; in all three nothing changes; otherwise the update above and OK |
| MenuItemController.DeleteMenuItem | Controllers/MenuItemController.cs:158-193 | id 0: bare BadRequest; an absent id (negative ones included): NotFound "Menu Item '<id>' not found"; otherwise the blob the item's image names is deleted and the row removed |
| MenuItemController.CreateThenDelete | Controllers/MenuItemController.cs:61-193 | creating an item and deleting it again restores both the catalog and the blob container |
| AuthController.SameUserName | Controllers/AuthController.cs:35 | two names match exactly when they have the same length and agree character by character once lower-cased |
| AuthController.FindUser | Controllers/AuthController.cs:88-89 | the first user whose name equals the given one up to case, or none exactly when no user matches |
| AuthController.ChosenRole | Controllers/AuthController.cs:117-124 | exactly one of the two roles; admin exactly when the requested role lower-cases to "admin" |
| AuthController.NewUser | Controllers/AuthController.cs:98-104 | the new user's Email and UserName are the requested user name, NormalizedEmail is it upper-cased, and Name is copied |
| AuthController.SameCharCase | Controllers/AuthController.cs:102 | two characters agree lower-cased exactly when they agree upper-cased |
| AuthController.NormalizedEmailAgrees | Controllers/AuthController.cs:88-104 | two user names match in the duplicate check exactly when their normalised e-mails are equal |
| AuthController.InsertUser | Controllers/AuthController.cs:108-124 | the user is appended, both roles are created if admin was missing (else roles unchanged), the user gets exactly the chosen role, and that role exists |
| AuthController.Register | Controllers/AuthController.cs:86-140 | a name taken up to case: BadRequest "User already exists" and nothing changes; creation failed or threw: BadRequest with the "User creation failed for <name>" messages and nothing changes; success: the insertion above and OK with the new id; case-insensitive uniqueness of user names is kept |
| AuthController.ClaimValueAt | Controllers/AuthController.cs:51-57 | a lookup of a claim type finds the first claim of that type |
| AuthController.Claims | Controllers/AuthController.cs:51-57 | four claims of distinct types: fullName = the name, id = the user id, e-mail = the user name, role = the given role |
| AuthController.Login | Controllers/AuthController.cs:31-83 | unknown user or rejected password: BadRequest "Invalid username or password" with an empty login response and no token; no role: the claim constructor throws; otherwise the token carries fullName, id, e-mail = UserName and role = the first role and expires one day later; a user without e-mail or an empty token is refused the same way; otherwise OK with e-mail and token |
| AuthController.FindUserAppended | Controllers/AuthController.cs:34-35 | a user appended under a name no one else matches is the one a lookup of that name finds |
| AuthController.RegisterThenLogin | Controllers/AuthController.cs:31-140 | after a successful registration, a login the password check accepts builds its token from the new user and the role chosen at registration, and answers OK with the user name as e-mail and the token unless the token writer returns an empty token |

## Left out

- Exceptions thrown by the database, the blob client or the gateway are not modelled. This covers failed saves, foreign-key violations and failed uploads, and the `catch` blocks that turn them into error envelopes. Every store operation is taken to succeed.
- Concurrency between requests is not modelled: each action is one atomic step.
- Floating point is not modelled: prices and totals are exact `real` numbers.
- Case mapping covers the ASCII letters only; culture-specific Unicode case rules are not modelled.
- `GetMenuItems` is not part of this model: it only lists the table.
- Program.cs and AuthTestController.cs are not part of this model: they hold wiring and authorization attributes.
- The JWT signature, password hashing, GUID generation and the clock are inputs.
- Model binding and `ModelState` are not modelled: `ModelState.IsValid` is a boolean input.
- The navigation properties (`MenuItem` on lines and details) are not modelled: a line refers to its menu item by id and reads the current price from the menu table.
- The `MenuItem` loaded with each order detail is not part of an order's view.
- A null `OrderDetailsDtos` list or a null `CartItems` collection is not modelled: both are always sequences, possibly empty.
- A failure to create a role or to assign it is not modelled.
- An upload that returns an empty URI is not modelled.
- ShoppingCartController.AddOrUpdateItemInCart: a cart line is nested in its cart, so the separate `CartItems` table and its foreign keys are not modelled.
- PaymentController.ToInt32: follows the x86-64 conversion, which gives int.MinValue for a value out of range; the saturating conversion of newer runtimes is not modelled.
- AuthController.Register: requires `newUserId` to be distinct from every stored user id, standing for the GUID the identity framework generates.
- AuthController.Register: the bodies of `userManager.CreateAsync` and `CheckPasswordAsync` are not modelled; their outcomes are inputs.
- MenuItemController.CreateMenuItem: the blob name is an input standing for `Guid.NewGuid()` plus the file's extension.
- MenuItemController.UpdateMenuItem: the blob name is an input standing for `Guid.NewGuid()` plus the file's extension.
- MenuItemController.CreateMenuItem: the `CreatedAtRoute` location header is not modelled.
- MenuItemController.DeleteMenuItem: only the menu row is removed. Cart lines and order details that refer to the item keep its id, because the foreign-key delete rule (cascade or restrict) is configured outside these controllers. `AddOrUpdateItemInCart` checks the menu item before it writes a line, so a cart line can refer to a missing item only after such a delete; the missing-item branches of `GetShoppingCart` and `MakePayment` are reached that way.
- OrderController.CreateOrder: detail rows are written without checking their menu item against the menu table (the database's foreign key, which refuses such a row, is outside the model), so in the model a detail can refer to a missing item right after creation.
- Services.BlobService.UploadBlob: the URI is the plain concatenation of account URI, container and blob name. `Uri.AbsoluteUri` percent-encodes the name, so for names with spaces or non-ASCII characters the round trip of `BlobNameOfUri` and `CreateThenDelete` is not established.
