# Inventory management: a Dafny model

This project models the core of a small inventory-management backend. The backend keeps three
MongoDB collections:

- **products**: a catalogue of free-form documents with a unique SKU;
- **inventory**: stock records of a product in a store, with a `minStock` threshold;
- **movements**: an append-only ledger of IN, OUT and TRANSFER movements.

The core works on these collections in two layers.

- **The API handlers of `src/app.py`.** These create, update and delete products, create a
  store's inventory, transfer stock between stores, and list a store's inventory and the
  low-stock alerts. Each handler ends in the status code and message that `lambda_handler`
  returns.
- **Three service classes.** `MovementService` records IN/OUT movements and applies them to
  stock. `ProductService` is the catalogue with pagination and case-insensitive search.
  `InventoryService` holds stock reads, a threshold listing and a manual stock overwrite.

The files:

- `documents.dfy` (module `Documents`) is the document store.
  - The values a document holds, and bson's ObjectId rule (24 hex digits).
  - What `find_one`/`update_one` (first match), `find` (every match in store order) and
    `$inc`/`$set` with `upsert=True` do.
  - The store itself: a class `Database` whose methods change its three collections.
  - The **ledger balance** invariant: every product's stock, summed over all stores, equals
    the net effect of its movements (IN adds, OUT removes, TRANSFER moves).
- `app.dfy` (module `App`) holds the handlers as methods over the `Database`. The effects of
  the handlers' writes are stated as functions of the old collections. Lemmas prove what the
  writes preserve or break:
  - at most one record per (product, store);
  - no negative records;
  - every product's total;
  - the ledger balance.
- `movement_service.dfy`, `product_service.dfy` and `inventory_service.dfy` hold the service
  classes. Each holds its store as a `const db: Database`. Reads are functions with
  `reads db`; writes are methods with `modifies db`. The `_id` renaming loops are methods
  over arrays.

Where the code and the documented design of the system differ, the model follows the code:

- The API's low-stock alert is strictly `quantity < minStock`, while the service's threshold
  listing is `quantity <= threshold`. `InventoryService.LowStockRulesDiffer` shows a record
  on which they disagree.
- A transfer reads the source record and then writes. It is not one conditional update.
- A malformed id given to the API's update or delete ends in 500 "Internal server error".
  bson's `InvalidId` is not a `ValueError`, so it reaches the handler's generic branch.
- Low-stock alerts carry no deficit field.

Ids the store generates and the clock (`datetime.utcnow()`) are parameters of the operations
that use them.

## Model

| member | source | states |
|---|---|---|
| Documents.FirstMatchIsFirst | src/app.py:392-395 | `find_one` selects the first document the filter accepts: every earlier one is rejected, and nothing is found exactly when no document matches |
| Documents.Filter | services/product_service.py:110 | `find` returns at most the stored documents: exactly those the filter accepts, each as often as it is stored |
| Documents.MissingFields | src/app.py:70 | the missing fields are exactly the required fields the request lacks, in required-list order |
| Documents.MissingFieldsHead | services/product_service.py:11-14 | the first missing field is a required field the request lacks, and every required field before it is present |
| Documents.SetKeepsUnique | src/app.py:214-225 | a `$set` that keeps `_id` and sets no SKU another product holds keeps SKUs and ids unique |
| Documents.InsertIfSkuFree | src/app.py:180-183 | inserts exactly when no product holds the SKU. The new document is the request under the generated `_id`. SKU uniqueness is preserved, and id uniqueness too for a fresh id |
| Documents.Relabel | services/product_service.py:33 | the result has no `_id`, has `id` equal to str of the old `_id`, and keeps every other field |
| Documents.IncFirstTotal | src/app.py:401-407 | a `$inc` through a filter owned by one product changes that product's total by delta when a record matched, and no other product's total |
| Documents.IncUpsertTotal | src/app.py:410-420 | a `$inc` upsert adds delta to the owning product's total whether it updates or inserts, and leaves other products alone |
| Documents.MoveKeepsTotal | src/app.py:400-420 | taking n from one matched record and upserting n through another filter of the same product keeps every product's total |
| Documents.IncFirstQuantity | src/app.py:401-407 | a `$inc` adds delta to the quantity `find_one` reads through the same filter when a record exists, and leaves the quantity read through any disjoint filter alone |
| Documents.IncUpsertQuantity | services/movement_service.py:53-60 | a `$inc` upsert adds delta to the quantity read through its filter (0 before when absent), and leaves any disjoint filter's quantity alone |
| Documents.IncFirstKeepsKeys | src/app.py:401-407 | a `$inc` changes no key, so it keeps at most one record per (product, store) |
| Documents.SetUpsertQuantity | services/inventory_service.py:60-67 | after a `$set` upsert a record matches its filter and reads exactly q; disjoint filters read what they read before |
| Documents.SetUpsertIdempotent | services/inventory_service.py:60-67 | repeating the same `$set` upsert leaves the collection as one application does |
| App.ValidateFields | src/app.py:59-72 | no error exactly when every required field is present; otherwise the message lists the missing fields joined by ", " |
| App.Updatable | src/app.py:211-212 | the applied update holds exactly the request's keys among the five updatable fields, with the request's values |
| App.CreateProduct | src/app.py:160-187 | 400 with the validation message when a field is missing. 400 "SKU already exists" when any product holds the SKU. Otherwise 201 and the request appended as a new product. SKU uniqueness is preserved |
| App.UpdateProduct | src/app.py:189-230 | 400 for a missing id, 500 for a malformed one, then 400 when another product holds the new SKU. Past those checks: 404 exactly when the id matches nothing, and 200 when it matches, with the product's fields `$set` from the updatable part of the request. Errors write nothing, and uniqueness is kept |
| App.DeleteProduct | src/app.py:232-257 | as written: the inventory guard compares the raw id string. Otherwise 500 for a malformed id, 404 when absent, else the product is removed |
| App.DeleteGuardNeverFires | src/app.py:249-250 | over records holding ObjectId references, which is every record the application writes, the guard never fires |
| App.DeleteLeavesOrphanRecord | src/app.py:249-252 | a product referenced by a stock record is deleted with 200, and the record stays behind |
| App.DeleteProductChecked | src/app.py:232-257 | with the guard comparing ObjectIds: 400 for a missing id and 500 for a malformed one. A referenced product is refused. An unreferenced product is removed with 200, and an absent one gives 404. A successful delete leaves no record referencing the product |
| App.InventoryValidation | src/app.py:277 | validation passes exactly when the request has all four fields |
| App.AppendKeepsOnePerPair | src/app.py:288-296 | inserting after the existence check keeps at most one record per (product, store) |
| App.CreateInventoryKeepsBalance | src/app.py:296-306 | a new record of q together with an IN movement of q keeps the ledger balanced |
| App.CreateInventory | src/app.py:259-311 | the validation, malformed-id, product-not-found and already-exists errors, in that order, write nothing. A request passing all of them gets 201, which appends the record and an IN movement of its quantity. One record per (product, store) is kept |
| App.TransferValidation | src/app.py:382 | validation passes exactly when the request has all four fields |
| App.TransferConservesTotal | src/app.py:400-420 | after the two updates every product's total over all stores is unchanged |
| App.TransferMovesQuantity | src/app.py:400-420 | between different stores, the source reads n less and the target n more, where a missing target read 0 |
| App.OtherPairsUnchanged | src/app.py:400-420 | every (product, store) pair other than the source and the target reads the same quantity after a transfer |
| App.TransferKeepsOnePerPair | src/app.py:409-420 | the two updates keep at most one record per (product, store) |
| App.TransferKeepsNonNegative | src/app.py:397-420 | with a non-negative quantity that passed the source check, no record becomes negative, after either write |
| App.NegativeTransferMakesTargetNegative | src/app.py:397-420 | a quantity of -3 passes the source check and creates a target record holding -3 |
| App.TransferMovesStock | src/app.py:392-420 | a transfer that passed the source check moves n from source to target, keeps every total and leaves the source non-negative |
| App.TransferKeepsBalance | src/app.py:400-431 | the two updates plus the TRANSFER movement keep the ledger balanced |
| App.ApplyTransfer | src/app.py:392-433 | 400 with no write when the source lacks the quantity. When the source record has no minStock: 500, and only the source decrement is applied. Otherwise 200 with both updates and a TRANSFER movement |
| App.TransferStock | src/app.py:364-433 | the outcome `App.TransferOutcome` defines. The missing-field, same-store, malformed-id and insufficient-stock errors, in that order, write nothing. A request passing them gets 500 with only the source decremented when the source record has no minStock. Otherwise it gets 200 with both updates and one TRANSFER movement |
| App.TransferStockChecked | src/app.py:364-433 | a quantity that is not positive is refused before any write. Every other request has exactly TransferStock's outcome, and a store with no negative record never gets one |
| App.Renamed | src/app.py:358-360 | the row's and its product's `_id` become string `id`s, and the other fields are unchanged |
| App.RenameAll | src/app.py:358-360 | every row is renamed, in place and in order |
| App.JoinAndRename | src/app.py:330-360 | one renamed, joined row per record whose product exists, in store order |
| App.ListInventory | src/app.py:313-362 | 400 without a store id. Otherwise exactly the store's records whose product exists, in store order, each joined with its product |
| App.LowStockAlerts | src/app.py:435-485 | exactly the records strictly below their own minStock whose product exists, in store order, each joined with its product |
| MovementService.MovementTypeOf | services/movement_service.py:31-32 | only "IN" and "OUT" are accepted, and never as TRANSFER |
| MovementService.AppliedQuantity | services/movement_service.py:51-60 | a movement changes its product's stock, as the service reads it, by its signed quantity, and no other product's |
| MovementService.OutKeepsStockNonNegative | services/movement_service.py:38-60 | an OUT that passed the stock check leaves the stock read non-negative |
| MovementService.MovementKeepsBalance | services/movement_service.py:45-60 | recording the movement and applying it to stock keeps the ledger balanced |
| MovementService.FormatMovement | services/movement_service.py:130-143 | fails exactly when the movement has neither `_id` nor `id`. Otherwise `_id` becomes a string `id`, productId becomes a string, and nothing else changes |
| MovementService.FormatIdempotent | services/movement_service.py:130-143 | formatting a formatted movement changes nothing |
| MovementService.FormatAll | services/movement_service.py:98 | succeeds exactly when every movement formats, position by position. The error is the formatting error |
| MovementService.FormatFiltered | services/movement_service.py:97-98 | the formatted result holds exactly the matching movements, and succeeds whenever every movement has an `_id` |
| MovementService.MovementService.CreateMovement | services/movement_service.py:9-70 | the missing-field, product-id, not-found, type, sign and insufficient-stock errors, in that order, write nothing. Success appends the movement and applies its signed quantity to the product's first record |
| MovementService.MovementService.GetMovementById | services/movement_service.py:72-87 | malformed and not-found errors. Otherwise the formatted movement stored under that `_id` |
| MovementService.MovementService.GetMovementsByProduct | services/movement_service.py:89-102 | malformed-id error. Otherwise exactly the product's movements, formatted, in store order, one per matching movement |
| MovementService.MovementService.GetMovementsByDateRange | services/movement_service.py:104-115 | exactly the movements dated within [start, end], formatted, in store order, one per matching movement. A formatting error comes back wrapped |
| MovementService.MovementService.GetMovementsByType | services/movement_service.py:117-128 | types other than IN/OUT are refused. Otherwise exactly the movements of that type, formatted, in store order, one per matching movement |
| ProductService.FirstMissingField | services/product_service.py:11-14 | the loop reports the first missing required field, or none exactly when all are present |
| ProductService.SetChanges | services/product_service.py:57-64 | a `$set` changes the document exactly when it holds a field the document lacks or holds with another value |
| ProductService.Page | services/product_service.py:96 | skip/limit give the products at positions [skip, skip + limit) in store order, where a limit of 0 means no limit |
| ProductService.ContainsIsSubstring | services/product_service.py:103-110 | the scan finds the query exactly when it occurs at some position |
| ProductService.FieldMatchesMeans | services/product_service.py:103-110 | a field matches exactly when it is a string in which the query occurs ignoring ASCII case |
| ProductService.RelabelAll | services/product_service.py:97-98 | every product is relabelled, in place and in order |
| ProductService.ProductService.CreateProduct | services/product_service.py:8-25 | the first missing field, then a taken SKU, are errors that write nothing. Otherwise the product is appended and its id returned. SKU uniqueness is preserved |
| ProductService.ProductService.GetProductById | services/product_service.py:27-38 | malformed id (prefixed bson message) and not-found errors. Otherwise the stored product with that `_id`, relabelled |
| ProductService.ProductService.UpdateProduct | services/product_service.py:40-69 | malformed, not-found, SKU-held-by-another and `_id`-change errors write nothing. Otherwise the fields are `$set`. The message says "updated" exactly when the document changed. Uniqueness is kept |
| ProductService.ProductService.DeleteProduct | services/product_service.py:71-92 | malformed, not-found and referenced-by-inventory errors. Success exactly when the product exists and no record references it, which then stays true |
| ProductService.ProductService.GetAllProducts | services/product_service.py:94-99 | the page's products (skip 0 and limit 50 by default), in order, relabelled |
| ProductService.ProductService.SearchProducts | services/product_service.py:101-113 | exactly the products whose name, description or SKU contains the query, relabelled, in store order |
| InventoryService.Entries | services/inventory_service.py:30-33 | one entry per record, with its str productId and quantity |
| InventoryService.AdjustSetsQuantity | services/inventory_service.py:60-67 | after an adjustment the product reads exactly q, and other products read as before |
| InventoryService.AdjustIdempotent | services/inventory_service.py:60-67 | adjusting twice to the same quantity is the same as adjusting once |
| InventoryService.AdjustCanUnbalance | services/inventory_service.py:48-73 | because no movement is written, an adjustment can leave the ledger unbalanced |
| InventoryService.LowStockRulesDiffer | services/inventory_service.py:40 | a record holding exactly its threshold is reported by the service but not by the API alert |
| InventoryService.InventoryService.GetProductStock | services/inventory_service.py:8-24 | malformed-id (wrapped) and not-found errors. Otherwise the quantity of the product's first record, or 0 when it has none |
| InventoryService.InventoryService.GetAllStock | services/inventory_service.py:26-35 | one entry per record, in store order |
| InventoryService.InventoryService.GetLowStockProducts | services/inventory_service.py:37-46 | exactly the records at or below the threshold (10 by default), in store order |
| InventoryService.InventoryService.AdjustStock | services/inventory_service.py:48-73 | malformed-id, not-found and quantity errors, in that order, write nothing. Otherwise the `$set` upsert, with products and movements unchanged |

## Left out

- The remaining request parsing is not modelled: reading the JSON body, the path parameters,
  and `create_response`/`lambda_handler` (CORS headers, JSON encoding). A JSON `null` for a
  store or quantity field is not modelled either.
- The `productId` of a `create_inventory` or `transfer_stock` request is modelled as a
  string. A null `productId` is not modelled: `ObjectId(None)` generates a fresh id, which
  gives 404 in `create_inventory` and 400 "Insufficient stock in source store" in
  `transfer_stock`. A non-string `productId` such as a number is not modelled either; it
  takes the bare `except` and gives 400 "Invalid product ID format".
- The API's `list_products` and `get_product` are not modelled. Similar, not identical,
  reads appear as `ProductService.GetAllProducts` and `ProductService.GetProductById`.
  `list_products` projects six fields and has no skip or limit. `get_product` answers 400
  "Invalid product ID format" for a malformed id through its bare `except`.
- Quantities are integers. Floats and other non-integer quantities are not modelled, and
  neither is Python's `bool` counting as an `int`. A non-numeric quantity is not modelled
  either, because requests carry an `Option<int>`. In `create_movement` such a quantity makes
  the `<= 0` comparison fail, and the generic handler turns that failure into a `ValueError`
  reading "Error creating movement: " followed by the error text. In `transfer_stock` the
  comparison is only reached when a source record exists: without one the answer is 400
  "Insufficient stock in source store"; with one the comparison fails and `lambda_handler`
  answers 500 "Internal server error".
- App.CreateInventory checks neither the sign of the opening quantity nor that of
  `minStock`, and neither does `create_inventory` (src/app.py:277-306). A negative opening
  quantity is stored as given and recorded as an IN movement of the same negative
  quantity. The ledger stays balanced, but `Documents.NonNegative` is not kept by that
  call. The model follows the code here and does not add a check.
- App.CreateInventory: `create_inventory` stores the whole request dictionary, so fields
  beyond `productId`, `storeId`, `quantity` and `minStock` end up in the new record.
  `App.InventoryRequest` carries only those four fields, and the extra ones are not
  modelled.
- InventoryService.InventoryService.AdjustStock: a float quantity, which the source accepts,
  is held as an opaque value and refused.
- Storage failures and the messages their handlers produce are left out. This covers
  "Error creating movement", "Error retrieving inventory", "Error retrieving low stock
  products" and "Error retrieving movement", and the 500 of the API handlers. Every store
  operation is taken to succeed.
- A pymongo error's text is not modelled beyond the server's message (the ", full error"
  suffix). Python's `repr` quoting in bson's `InvalidId` message is simplified to single
  quotes around the text.
- ObjectIds are compared as the text they were parsed from; the case of hex digits is not
  canonicalised. An ObjectId given as 12 raw bytes is not parsed.
- A null `productId` given to `create_movement` is taken to produce a generated id that no
  stored product holds.
- A client-supplied `_id` in a new product is replaced by the generated id rather than kept.
- `search_products` treats the query as literal text: regular-expression metacharacters are
  not interpreted. Case folding is ASCII only.
- ProductService.ProductService.GetAllProducts: skip and limit are natural numbers. pymongo
  refuses a negative skip, and that error is not modelled. It accepts a negative limit and
  then returns at most |limit| documents in a single batch; that is not modelled either.
- The `deleted_count == 0` branch of `ProductService.delete_product` is not modelled. It
  cannot be reached when operations run one at a time, because the product was found just
  before. The API's `delete_product` does no prior lookup, and App.DeleteProduct models its
  404 branch.
- Concurrency and atomicity are not modelled: two requests interleaving between a check and
  a write. Every operation runs alone.
- `create_movement` changes the caller's dictionary in place; that aliasing is not modelled.
- An empty `$set` (an update with no updatable field) is taken to be accepted, as MongoDB
  5.0 and later do.
- The invariants kept by App.ApplyTransfer and App.TransferStock (totals, one record per
  pair, balance) are stated as lemmas on `App.Transferred` rather than in the methods'
  contracts.
- `scripts/init_db.py`, the load tests and `src/common/db_utils.py` (connection set-up) are
  not part of this model.

## Findings

| source | as written | input that shows it | evidently intended | confidence | as-written member | corrected member |
|---|---|---|---|---|---|---|
| src/app.py:249 | the inventory guard of `delete_product` looks up `{"productId": product_id}` with the raw id string, but every record the application writes holds an ObjectId | a product with a record created by `create_inventory`, then DELETE of that product's id: 200, and the record is left referencing nothing | refuse to delete a product any stock record references, comparing ObjectIds as `ProductService.delete_product` does | not executed | App.DeleteLeavesOrphanRecord | App.DeleteProductChecked |
| src/app.py:397 | `transfer_stock` checks only that the source holds at least the quantity, never that the quantity is positive | a record of 5 in store001 and a transfer of -3 to store002: accepted, and store002 gets a record of -3 | refuse a quantity that is not positive, as `create_movement` does | not executed | App.NegativeTransferMakesTargetNegative | App.TransferStockChecked |
