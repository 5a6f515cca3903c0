# Cart state, stock ledger and payload validation of a cloud e-commerce backend

This project is a Dafny model of three small pieces of logic from an
e-commerce backend made of independent services. The services are
authentication, cart, checkout and inventory-management.

- **Cart repository** (`cart_repository.dfy`, module `CartRepository`). The
  cart service's `carts` table is a map from `cart_id` to a row. Each row
  holds the owner (`uid` or `sid`), `locked`, `date_created`, `date_modified`
  and `date_checkout`. The class `ShoppingCartRepository` has one method per
  repository operation. Each method other than `DeleteAll` touches at most one
  row. The service's clock (`Date.now()`, converted by `to_timestamp`) is
  passed in as `now`. Every single-column `UPDATE ... WHERE cart_id` is one
  pure function, `Update`, which applies an `Assignment` (the SET
  clause). The method contracts are stated through `Update`, and lemmas state
  the lock and timestamp behaviour about it.
- **Inventory stock ledger** (`inventory.dfy`, module `Inventory`). The
  service's implementation is not part of this model. The test suite of its
  REST interface fixes its behaviour, so the ledger follows that suite. The
  class `ProductLedger` holds a map from `pid` to a product with a
  natural-number `amount_in_stock`. Add rejects a pid that is already present.
  Update, remove and get reject an absent pid, as the suite asserts; increment
  and decrement do the same by the model's choice. A
  decrement larger than the stock is refused and leaves the record unchanged.
  Each `it(...)` case of the suite is a method that runs the same calls on an
  emptied ledger and proves the asserted results.
- **Request payload validation** (`handler_support.dfy`, `store_handlers.dfy`,
  `security_group_handlers.dfy`). The authentication service's store and
  user-security-group handler classes each define the same `propsPresent`. It
  is modelled once: a loop, `PropsPresent`, proved equal to a recursive
  specification, `FirstMissing`. Each handler is a pure function. Its inputs
  are the request's parts and the answer the model layer would give. It
  returns a `Handled` value, which records the call made to the model layer
  (if any, with its arguments) and the outcome: 400 with a message, 201 with
  the created data, or 200 with the model's answer.

`common.dfy` holds `Option` and `Result`. `js_values.dfy` (module `JsValues`)
holds JavaScript truthiness for identifiers and the decimal rendering of
numbers in messages.

The model follows the code as written:

- `lockCart` is an unconditional `update({locked: true})` with no
  `WHERE locked = false` guard. Locking an already locked cart succeeds and
  returns the row (`ShoppingCartRepository.LockCart`, and the second lock in
  `LockRound`), and leaves the table as one lock would (`LockIdempotent`).
  The code has no "already locked" failure.
- `createCart` does not check whether the cart exists. The failure on a
  duplicate id comes from the table's key.
- Stock decrements are modelled as one sequential step each. Nothing
  concurrent is modelled.

## Model

| member | source | states |
|---|---|---|
| `CartRepository.OwnerOf` | cart/src/repository/cart/repository.js:90-95 | the owner is the `uid` exactly when the caller's uid is truthy, otherwise the caller's `sid` as given; a row records at most one of the two, since `sid` may be absent |
| `CartRepository.NewRow` | cart/src/repository/cart/repository.js:82-88 | the inserted row carries the cart id and that owner, is unlocked, has `date_created` = now and no modified or checkout time |
| `CartRepository.Assign` | cart/src/repository/cart/repository.js:132-221 | each SET clause changes its own column (`locked`, `date_modified` or `date_checkout`) and leaves every other column as it was |
| `CartRepository.Update` | cart/src/repository/cart/repository.js:149 | an update by `cart_id` keeps the set of carts, changes only the matching row, and is a no-op on an absent id |
| `CartRepository.LockIdempotent` | cart/src/repository/cart/repository.js:147-155 | locking (or unlocking) twice leaves the table as once would: the lock is unconditional |
| `CartRepository.LockThenUnlock` | cart/src/repository/cart/repository.js:162-170 | lock then unlock equals unlock alone; on a cart that was unlocked it restores the table exactly |
| `CartRepository.LockFlagAfterUpdate` | cart/src/repository/cart/repository.js:177-191 | after a write of the lock column the row reports the flag written |
| `CartRepository.TimestampsKeepLock` | cart/src/repository/cart/repository.js:198-221 | writing the checkout or modified time never changes any cart's `locked` |
| `CartRepository.DifferentColumnsCommute` | cart/src/repository/cart/repository.js:132-221 | updates of different columns of one cart commute |
| `CartRepository.ClearAfterUpdateCheckout` | cart/src/repository/cart/repository.js:198-221 | clearing the checkout time after setting it gives the same table as clearing it alone |
| `CartRepository.ShoppingCartRepository.DeleteAll` | cart/src/repository/cart/repository.js:49-60 | the table is empty afterwards |
| `CartRepository.ShoppingCartRepository.GetCart` | cart/src/repository/cart/repository.js:67-75 | returns at most one row, empty exactly when the cart is absent, and that row is the stored one |
| `CartRepository.ShoppingCartRepository.CreateCart` | cart/src/repository/cart/repository.js:82-103 | a new id gains exactly the new row, which is also returned; an existing id fails and changes nothing |
| `CartRepository.ShoppingCartRepository.DeleteCart` | cart/src/repository/cart/repository.js:110-125 | an absent cart returns 0 and changes nothing; a present one is removed alone and 1 is returned |
| `CartRepository.ShoppingCartRepository.Modified` | cart/src/repository/cart/repository.js:132-140 | only `date_modified` of the matching cart becomes now; returns that cart's id, or nothing when absent |
| `CartRepository.ShoppingCartRepository.LockCart` | cart/src/repository/cart/repository.js:147-155 | `locked` of the matching cart becomes true whatever it was; an absent id returns no rows and changes nothing |
| `CartRepository.ShoppingCartRepository.UnlockCart` | cart/src/repository/cart/repository.js:162-170 | `locked` of the matching cart becomes false whatever it was; an absent id returns no rows and changes nothing |
| `CartRepository.ShoppingCartRepository.IsLocked` | cart/src/repository/cart/repository.js:177-191 | fails with `what = "cart_does_not_exist"` exactly when the cart is absent, otherwise returns its current flag, and changes nothing |
| `CartRepository.ShoppingCartRepository.UpdateCheckoutTime` | cart/src/repository/cart/repository.js:198-206 | only `date_checkout` of the matching cart becomes now; returns the number of rows changed |
| `CartRepository.ShoppingCartRepository.ClearCheckoutTime` | cart/src/repository/cart/repository.js:213-221 | only `date_checkout` of the matching cart becomes null; returns the number of rows changed |
| `CartRepository.LockRound` | cart/src/repository/cart/repository.js:147-191 | on a new cart isLocked is false, true after lockCart (a second lockCart also succeeds), false after unlockCart, and throws for an unknown id |
| `Inventory.Restock` | inventory-management/tests/api.test.js:218-231 | incrementing by n adds n to the stock and changes no other field |
| `Inventory.Withdraw` | inventory-management/tests/api.test.js:203-246 | a decrement by n succeeds exactly when n is at most the stock, leaving stock − n and every other field unchanged; otherwise it fails with insufficient stock |
| `Inventory.WithdrawUndoesRestock` | inventory-management/tests/api.test.js:203-231 | decrementing by what was just added restores the record |
| `Inventory.RestockUndoesWithdraw` | inventory-management/tests/api.test.js:203-231 | incrementing by what was just taken out restores the record |
| `Inventory.EmptyStockRefuses` | inventory-management/tests/api.test.js:248-266 | taking out the whole stock leaves 0, after which taking out 1 fails |
| `Inventory.LedgerBalance` | inventory-management/tests/api.test.js:203-266 | after any series of increments and decrements the stock equals the start plus every unit added minus every unit a decrement actually took out, and no other field changes |
| `Inventory.StockWithinIncrements` | inventory-management/tests/api.test.js:203-266 | as a consequence, after any series the stock never exceeds the start plus everything added |
| `Inventory.ProductLedger.DeleteAll` | inventory-management/tests/api.test.js:91-93 | the table is empty afterwards |
| `Inventory.ProductLedger.Add` | inventory-management/tests/api.test.js:109-125 | a new pid is stored and its pid, pname and description are returned; a duplicate pid fails and changes nothing |
| `Inventory.ProductLedger.Update` | inventory-management/tests/api.test.js:127-169 | an existing pid has all its attributes replaced and its new key columns returned; an absent pid fails and changes nothing |
| `Inventory.ProductLedger.Remove` | inventory-management/tests/api.test.js:171-183 | an existing pid is removed with count 1; an absent pid fails and changes nothing |
| `Inventory.ProductLedger.Get` | inventory-management/tests/api.test.js:185-201 | returns exactly the stored record when present and fails when absent |
| `Inventory.ProductLedger.Increment` | inventory-management/tests/api.test.js:218-231 | the product's stock grows by n, other products are untouched; an absent pid fails |
| `Inventory.ProductLedger.Decrement` | inventory-management/tests/api.test.js:203-246 | the product's stock shrinks by n when n is at most the stock; otherwise, or for an absent pid, it fails and nothing changes |
| `Inventory.AddsAProduct` | inventory-management/tests/api.test.js:109-117 | adding product 3 returns `[{pid: 3, pname: 'Watch', description: ...}]` |
| `Inventory.RefusesDuplicatePid` | inventory-management/tests/api.test.js:119-125 | a second add of pid 3 fails and the first record stays |
| `Inventory.UpdatesAProduct` | inventory-management/tests/api.test.js:127-149 | updating pid 3 returns `[{pid: 3, pname: 'Bag', description: 'This is a Nike bag.'}]` |
| `Inventory.RefusesUpdateOfMissing` | inventory-management/tests/api.test.js:151-169 | updating pid 5 fails |
| `Inventory.RemovesAProduct` | inventory-management/tests/api.test.js:171-176 | removing pid 3 succeeds, after which it is gone |
| `Inventory.RefusesRemoveOfMissing` | inventory-management/tests/api.test.js:178-183 | removing pid 2 fails |
| `Inventory.RetrievesAProduct` | inventory-management/tests/api.test.js:185-194 | getting pid 3 returns the record as added |
| `Inventory.RefusesGetOfMissing` | inventory-management/tests/api.test.js:196-201 | getting pid 2 fails |
| `Inventory.DecrementsStock` | inventory-management/tests/api.test.js:203-216 | after taking 5 of 20 the record reads 15, all else unchanged |
| `Inventory.IncrementsStock` | inventory-management/tests/api.test.js:218-231 | after adding 5 to 20 the record reads 25, all else unchanged |
| `Inventory.RefusesOverdraw` | inventory-management/tests/api.test.js:233-246 | taking 21 of 20 fails and the record still reads 20 |
| `Inventory.RefusesDrawFromEmpty` | inventory-management/tests/api.test.js:248-266 | taking all 20 leaves 0, taking 1 more fails, and the record still reads 0 |
| `JsValues.DecimalDenotes` | authentication/src/endpoints/stores/handlers.js:147 | the digits a template literal prints for a count denote that count |
| `HandlerSupport.PropsPresent` | authentication/src/endpoints/stores/handlers.js:27-34 | valid exactly when every listed name is a key of the payload; when invalid, names the first absent one in list order |
| `HandlerSupport.FirstMissingValidIff` | authentication/src/endpoints/user-security-groups/handlers.js:27-34 | the answer is valid exactly when all names are present, so an empty list is always valid |
| `HandlerSupport.FirstMissingIsFirst` | authentication/src/endpoints/stores/handlers.js:28-31 | the reported name is absent and every name before it is present |
| `StoreHandlers.AddStore` | authentication/src/endpoints/stores/handlers.js:42-72 | no body gives 400 "Body cannot be empty."; otherwise `name`, `phone`, `email` are checked in that order and the first missing gives 400 "<prop> not specified."; either way createStore is not called; a complete payload is passed to createStore and its result returned with 201 |
| `StoreHandlers.DeleteStore` | authentication/src/endpoints/stores/handlers.js:80-102 | always calls deleteStore with the id; 0 rows removed gives 400, otherwise 200 with the count |
| `StoreHandlers.UpdateStore` | authentication/src/endpoints/stores/handlers.js:132-155 | no body gives 400 before any update; otherwise updateStore is called with the id and payload and its count returned with 200 |
| `SecurityGroupHandlers.CreateUserSecurityGroup` | authentication/src/endpoints/user-security-groups/handlers.js:42-72 | no body gives 400; the first missing of `userId`, `storeId`, `securityGroupId` gives 400 naming it; neither calls the model; otherwise the model gets those three values and its result is returned with 201 |
| `SecurityGroupHandlers.RemoveUserSecurityGroupByUserId` | authentication/src/endpoints/user-security-groups/handlers.js:80-103 | always calls the model with the user id; 0 rows removed gives 400, otherwise 200 with the count |
| `SecurityGroupHandlers.RemoveUserSecurityGroup` | authentication/src/endpoints/user-security-groups/handlers.js:111-135 | always calls the model with user and store ids; 0 rows removed gives 400, otherwise 200 with the count |

## Left out

- Concurrency and atomicity: every repository and ledger operation is one sequential step on an in-memory map. Row locking, conditional `WHERE locked = false` updates and concurrent decrements are not in the code and are not modelled.
- The query builder and the database: knex statements, connection pooling, the `Kernel.resolve` lookup in the repository constructor, and the SQL text of `TRUNCATE ... CASCADE`. `postgresDateStr` (the service's clock, `Date.now()` in milliseconds, placed in the SQL text and converted to seconds by `to_timestamp(... / 1000.0)`) is replaced by a `now` argument.
- CartRepository.Timestamp: a whole number, so the fractional seconds that `to_timestamp(... / 1000.0)` keeps are dropped.
- The cart products table that `deleteAll`'s `CASCADE` also empties and that deleting a cart would affect: its schema is not part of this model.
- CartRepository.ShoppingCartRepository.CreateCart: the failure on a duplicate id assumes `cart_id` is the table's key. The schema is not part of this model, and the error's shape is the database driver's, so it is modelled only as `UniqueViolation`.
- Logging, and the exception `deleteAll` catches and swallows: a failing truncate is not modelled.
- The inventory service's own implementation is not part of this model. The ledger states what its test suite asserts. The suite does not check what increment and decrement return or whether they accept 0, so the model accepts any natural amount and returns the updated record.
- Inventory.ProductLedger.Increment: refusing an absent pid is the model's choice; the suite never increments an absent pid, and the service's code is not part of this model.
- Inventory.ProductLedger.Decrement: refusing an absent pid is the model's choice, for the same reason; the suite only decrements pid 3 right after adding it.
- Inventory.ProductLedger.Remove: the count of 1 it returns is the model's choice; the suite only expects the request to succeed.
- Inventory.ProductLedger.Update: the record is stored under the pid of the URL. The suite always sends a body whose pid equals the URL's, so what the service does when the two differ is not modelled.
- The listing case of the suite, which depends on sample data that each case's `deleteAll` removes, and the Postgres composite-row text in which the suite reads a product back.
- Prices are carried as their decimal text; no arithmetic is done on them.
- The handlers' `try`/`catch`: exceptions thrown by the model layer are rethrown (or, in `getStoreById`, `updateStore` and `getUserSecurityGroup`, logged and swallowed). The model layer is assumed to answer. `getStoreById` and `getUserSecurityGroup` only pass the model's answer through with 200 and are not modelled.
- `prop in obj` also sees properties inherited from `Object.prototype`. The payload's keys stand for everything `in` finds. The required names here are not inherited ones.
- HandlerSupport.PropsPresent: a payload that is truthy but not an object (a text body, a JSON number) passes `if (!payload)`, and then `prop in obj` throws a `TypeError` that Hapi answers with 500. Here the payload is always a key map, so `AddStore` and `CreateUserSecurityGroup` cannot express that input.
- JsValues.Decimal: ids and counts are assumed to be whole numbers below 2^53. A JavaScript number of 1e21 or more prints in exponent form, and integers above 2^53 are not exact. Dafny's `nat` has no such bound.
- Routing and plugin registration, configuration, the model classes that forward to repositories, and the constant name table: they contain no logic.
