/**
 * The API handlers of src/app.py, run against the document store.
 *
 * Each handler returns the status code and message that lambda_handler sends
 * back: a ValueError becomes 400 with its text, and any other exception becomes
 * 500 "Internal server error". Note that bson's InvalidId is not a ValueError,
 * so a malformed id that reaches `ObjectId(...)` outside a try block ends in 500.
 *
 * The API keys inventory by (productId, storeId) and writes a ledger entry for
 * every inventory creation (IN) and every transfer (TRANSFER).
 */
module App {
  import opened Documents

  datatype Response = Response(status: int, message: string)

  const InternalError := Response(500, "Internal server error")

  // ---------------------------------------------------------------------------
  // validate_fields

  /** validate_fields: the ValueError message when some required field is
      absent, None when all are present. */
  function ValidateFields(present: set<string>, required: seq<string>): (r: Option<string>)
    ensures r.None? <==> forall f :: f in required ==> f in present
    ensures r.Some? ==> r.value == "Missing required fields: " + Join(MissingFields(present, required), ", ")
  {
    var missing := MissingFields(present, required);
    assert missing != [] ==> missing[0] in missing;
    if missing == [] then None
    else Some("Missing required fields: " + Join(missing, ", "))
  }

  // ---------------------------------------------------------------------------
  // products

  /** valid_fields of update_product. */
  const UpdatableFields: set<string> := {"name", "description", "category", "price", "sku"}

  /** The part of an update request that update_product applies. */
  function Updatable(body: Fields): (u: Fields)
    ensures u.Keys == body.Keys * UpdatableFields
    ensures forall k :: k in u ==> u[k] == body[k]
  {
    map k | k in body && k in UpdatableFields :: body[k]
  }

  /** create_product: checks the five fields, then SKU uniqueness, then inserts
      the request as a new product. */
  method CreateProduct(db: Database, body: Fields, newId: string) returns (resp: Response)
    requires db.Valid()
    modifies db
    ensures db.Valid()
    ensures db.inventory == old(db.inventory) && db.movements == old(db.movements)
    ensures ValidateFields(body.Keys, ProductFields).Some? ==>
      resp == Response(400, ValidateFields(body.Keys, ProductFields).value) && db.products == old(db.products)
    ensures ValidateFields(body.Keys, ProductFields).None? && SkuTaken(old(db.products), body["sku"]) ==>
      resp == Response(400, "SKU already exists") && db.products == old(db.products)
    ensures ValidateFields(body.Keys, ProductFields).None? && !SkuTaken(old(db.products), body["sku"]) ==>
      resp.status == 201 && db.products == old(db.products) + [body["_id" := ObjectId(newId)]]
    ensures SkusUnique(old(db.products)) ==> SkusUnique(db.products)
    ensures IdsUnique(old(db.products)) && !IdTaken(old(db.products), newId) ==> IdsUnique(db.products)
  {
    var err := ValidateFields(body.Keys, ProductFields);
    if err.Some? {
      return Response(400, err.value);
    }
    assert "sku" in ProductFields;
    var inserted := InsertIfSkuFree(db, body, newId);
    if !inserted {
      return Response(400, "SKU already exists");
    }
    resp := Response(201, "Product created successfully");
  }

  /** update_product: keeps only the catalogue fields of the request, refuses an
      SKU another product holds, then `$set`s the fields on the product. */
  method UpdateProduct(db: Database, productId: string, body: Fields) returns (resp: Response)
    requires db.Valid()
    modifies db
    ensures db.Valid()
    ensures db.inventory == old(db.inventory) && db.movements == old(db.movements)
    ensures resp.status != 200 ==> db.products == old(db.products)
    ensures productId == "" ==> resp == Response(400, "Product ID is required")
    ensures productId != "" && !ValidId(productId) ==> resp == InternalError
    ensures productId != "" && ValidId(productId) && "sku" in Updatable(body)
            && FirstMatch(old(db.products), SkuHeldByOther(body["sku"], productId)).Some? ==>
      resp == Response(400, "SKU already exists")
    ensures resp.status == 200 || resp.status == 404 ==>
      ValidId(productId) && !("sku" in Updatable(body) && FirstMatch(old(db.products), SkuHeldByOther(body["sku"], productId)).Some?)
    ensures resp.status == 404 <==> resp == Response(404, "Product not found")
    ensures resp.status == 404 ==> FirstMatch(old(db.products), WithId(productId)).None?
    ensures productId != "" && ValidId(productId)
            && !("sku" in Updatable(body) && FirstMatch(old(db.products), SkuHeldByOther(body["sku"], productId)).Some?) ==>
      (FirstMatch(old(db.products), WithId(productId)).None? <==> resp == Response(404, "Product not found"))
      && (FirstMatch(old(db.products), WithId(productId)).Some? ==> resp.status == 200)
    ensures resp.status == 200 ==>
      var i := FirstMatch(old(db.products), WithId(productId));
      i.Some? && resp.message == "Product updated successfully"
      && db.products == old(db.products)[i.value := old(db.products)[i.value] + Updatable(body)]
    ensures IdsUnique(old(db.products)) && SkusUnique(old(db.products)) ==> SkusUnique(db.products) && IdsUnique(db.products)
  {
    if productId == "" {
      return Response(400, "Product ID is required");
    }
    var update := Updatable(body);
    if "sku" in update {
      if !ValidId(productId) {
        return InternalError;
      }
      if FirstMatch(db.products, SkuHeldByOther(update["sku"], productId)).Some? {
        return Response(400, "SKU already exists");
      }
      FirstMatchIsFirst(db.products, SkuHeldByOther(update["sku"], productId));
    }
    if !ValidId(productId) {
      return InternalError;
    }
    var i := FirstMatch(db.products, WithId(productId));
    if i.None? {
      return Response(404, "Product not found");
    }
    var updated := db.products[i.value] + update;
    SetKeepsUnique(db.products, i.value, update, productId);
    db.ReplaceProduct(i.value, updated);
    resp := Response(200, "Product updated successfully");
  }

  /** The guard of delete_product: a record whose productId equals the path
      parameter as a STRING. create_inventory and the services store productId
      as an ObjectId, and a string never equals an ObjectId in a MongoDB filter,
      so records written by the application never trip this guard. */
  predicate DeleteGuardFires(inv: seq<StockRecord>, productId: string) {
    FirstMatch(inv, ByProduct(Text(productId))).Some?
  }

  /** Every record's productId is an ObjectId, as every writer stores it. */
  ghost predicate ObjectIdRefs(inv: seq<StockRecord>) {
    forall i :: 0 <= i < |inv| ==> inv[i].productId.ObjectId?
  }

  /** delete_product: refuses while the guard fires, then deletes the product. */
  method DeleteProduct(db: Database, productId: string) returns (resp: Response)
    requires db.Valid()
    modifies db
    ensures db.Valid()
    ensures db.inventory == old(db.inventory) && db.movements == old(db.movements)
    ensures resp.status != 200 ==> db.products == old(db.products)
    ensures productId == "" ==> resp == Response(400, "Product ID is required")
    ensures productId != "" && DeleteGuardFires(old(db.inventory), productId) ==>
      resp == Response(400, "Cannot delete product with existing inventory")
    ensures productId != "" && !DeleteGuardFires(old(db.inventory), productId) && !ValidId(productId) ==>
      resp == InternalError
    ensures productId != "" && !DeleteGuardFires(old(db.inventory), productId) && ValidId(productId) ==>
      match FirstMatch(old(db.products), WithId(productId))
      case None => resp == Response(404, "Product not found")
      case Some(i) =>
        resp == Response(200, "Product deleted successfully")
        && db.products == old(db.products)[..i] + old(db.products)[i + 1..]
  {
    if productId == "" {
      return Response(400, "Product ID is required");
    }
    if DeleteGuardFires(db.inventory, productId) {
      return Response(400, "Cannot delete product with existing inventory");
    }
    if !ValidId(productId) {
      return InternalError;
    }
    var i := FirstMatch(db.products, WithId(productId));
    if i.None? {
      return Response(404, "Product not found");
    }
    db.RemoveProduct(i.value);
    resp := Response(200, "Product deleted successfully");
  }

  /** Over records that hold ObjectId product references (every record the
      application writes), the delete guard never fires. */
  lemma DeleteGuardNeverFires(inv: seq<StockRecord>, productId: string)
    requires ObjectIdRefs(inv)
    ensures !DeleteGuardFires(inv, productId)
  {
  }

  /** delete_product with the guard comparing ObjectIds, as the services do:
      a product that any record references is never deleted. */
  method DeleteProductChecked(db: Database, productId: string) returns (resp: Response)
    requires db.Valid()
    modifies db
    ensures db.Valid()
    ensures db.inventory == old(db.inventory) && db.movements == old(db.movements)
    ensures resp.status != 200 ==> db.products == old(db.products)
    ensures productId == "" ==> resp == Response(400, "Product ID is required")
    ensures productId != "" && !ValidId(productId) ==> resp == InternalError
    ensures ValidId(productId) && FirstMatch(old(db.inventory), ByProduct(ObjectId(productId))).Some? ==>
      resp == Response(400, "Cannot delete product with existing inventory")
    ensures ValidId(productId) && FirstMatch(old(db.inventory), ByProduct(ObjectId(productId))).None? ==>
      match FirstMatch(old(db.products), WithId(productId))
      case None => resp == Response(404, "Product not found")
      case Some(i) =>
        resp == Response(200, "Product deleted successfully")
        && db.products == old(db.products)[..i] + old(db.products)[i + 1..]
    ensures resp.status == 200 ==>
      (forall k :: 0 <= k < |db.inventory| ==> db.inventory[k].productId != ObjectId(productId))
      && exists i :: 0 <= i < |old(db.products)| && FieldOr(old(db.products)[i], "_id") == ObjectId(productId)
                     && db.products == old(db.products)[..i] + old(db.products)[i + 1..]
  {
    if productId == "" {
      return Response(400, "Product ID is required");
    }
    if !ValidId(productId) {
      return InternalError;
    }
    if FirstMatch(db.inventory, ByProduct(ObjectId(productId))).Some? {
      return Response(400, "Cannot delete product with existing inventory");
    }
    FirstMatchIsFirst(db.inventory, ByProduct(ObjectId(productId)));
    var i := FirstMatch(db.products, WithId(productId));
    if i.None? {
      return Response(404, "Product not found");
    }
    db.RemoveProduct(i.value);
    resp := Response(200, "Product deleted successfully");
  }

  /** The discrepancy, on a concrete store: a product with a stock record
      referencing it by ObjectId, as create_inventory writes it, is deleted
      anyway, and the record is left pointing at nothing. */
  method DeleteLeavesOrphanRecord() returns (resp: Response, remaining: seq<StockRecord>)
    ensures resp == Response(200, "Product deleted successfully")
    ensures |remaining| == 1 && remaining[0].productId == ObjectId(SampleId)
  {
    var db := new Database();
    db.InsertProduct(map["_id" := ObjectId(SampleId), "sku" := Text("STL001")]);
    db.InsertStock(StockRecord(SampleRecordId, ObjectId(SampleId), Some("store001"), 100, Some(20)));
    SampleIdValid();
    assert WithId(SampleId)(db.products[0]);
    assert !ByProduct(Text(SampleId))(db.inventory[0]);
    resp := DeleteProduct(db, SampleId);
    remaining := db.inventory;
  }

  const SampleId := "65a1f0c2e4b0a1b2c3d4e5f6"

  lemma SampleIdValid()
    ensures ValidId(SampleId)
  {
    assert forall i :: 0 <= i < 24 ==> IsHexDigit(SampleId[i]);
  }
  const SampleRecordId := "65a1f0c2e4b0a1b2c3d4e5f7"
  const SampleMovementId := "65a1f0c2e4b0a1b2c3d4e5f8"

  // ---------------------------------------------------------------------------
  // inventory creation and transfer

  /** The request body of create_inventory; None marks an absent key. */
  datatype InventoryRequest = InventoryRequest(
    productId: Option<string>,
    storeId: Option<string>,
    quantity: Option<int>,
    minStock: Option<int>)
  {
    function Keys(): set<string> {
      (if productId.Some? then {"productId"} else {})
      + (if storeId.Some? then {"storeId"} else {})
      + (if quantity.Some? then {"quantity"} else {})
      + (if minStock.Some? then {"minStock"} else {})
    }

    /** Every field the handler requires is present. */
    predicate Complete() {
      productId.Some? && storeId.Some? && quantity.Some? && minStock.Some?
    }
  }

  /** validate_fields accepts the request exactly when it is complete. */
  lemma InventoryValidation(body: InventoryRequest)
    ensures ValidateFields(body.Keys(), InventoryFields).None? <==> body.Complete()
  {
    var present := body.Keys();
    assert forall f :: f in InventoryFields <==> f == "productId" || f == "storeId" || f == "quantity" || f == "minStock";
  }

  const InventoryFields: seq<string> := ["productId", "storeId", "quantity", "minStock"]

  /** Appending a record whose key no record has keeps keys unique. */
  lemma AppendKeepsOnePerPair(inv: seq<StockRecord>, r: StockRecord)
    requires OnePerPair(inv)
    requires FirstMatch(inv, ByPair(r.productId, r.storeId)).None?
    ensures OnePerPair(inv + [r])
  {
    var s := inv + [r];
    FirstMatchIsFirst(inv, ByPair(r.productId, r.storeId));
    forall i, j | 0 <= i < j < |s|
      ensures !(s[i].productId == s[j].productId && s[i].storeId == s[j].storeId)
    {
      if j == |inv| {
        assert !ByPair(r.productId, r.storeId)(inv[i]);
      }
    }
  }

  /** create_inventory stores a record of q and logs an IN movement of q for
      the same product, so the ledger still explains the stock. */
  lemma CreateInventoryKeepsBalance(inv: seq<StockRecord>, ms: seq<Movement>, r: StockRecord, m: Movement)
    requires Balanced(inv, ms)
    requires m.productId == r.productId && m.mtype == In && m.quantity == r.quantity
    ensures Balanced(inv + [r], ms + [m])
  {
    forall q ensures TotalQuantity(inv + [r], q) == Net(ms + [m], q) {
      TotalAfterAppend(inv, r, q);
      NetAfterAppend(ms, m, q);
    }
  }

  /** create_inventory: one record per (product, store) and an IN movement for it. */
  method CreateInventory(db: Database, body: InventoryRequest, recordId: string, movementId: string, now: int)
    returns (resp: Response)
    requires db.Valid()
    modifies db
    ensures db.Valid()
    ensures db.products == old(db.products)
    ensures resp.status != 201 ==> db.inventory == old(db.inventory) && db.movements == old(db.movements)
    ensures ValidateFields(body.Keys(), InventoryFields).Some? ==>
      resp == Response(400, ValidateFields(body.Keys(), InventoryFields).value)
    ensures body.Complete() && !ValidId(body.productId.value) ==>
      resp == Response(400, "Invalid product ID format")
    ensures body.Complete() && ValidId(body.productId.value)
            && FirstMatch(old(db.products), WithId(body.productId.value)).None? ==>
      resp == Response(404, "Product not found")
    ensures body.Complete() && ValidId(body.productId.value)
            && FirstMatch(old(db.products), WithId(body.productId.value)).Some?
            && FirstMatch(old(db.inventory), ByPair(ObjectId(body.productId.value), body.storeId)).Some? ==>
      resp == Response(400, "Inventory already exists for this product and store")
    ensures body.Complete() && ValidId(body.productId.value)
            && FirstMatch(old(db.products), WithId(body.productId.value)).Some?
            && FirstMatch(old(db.inventory), ByPair(ObjectId(body.productId.value), body.storeId)).None? ==>
      resp.status == 201
    ensures resp.status == 201 ==>
      var pid := ObjectId(body.productId.value);
      && resp.message == "Inventory created successfully"
      && FirstMatch(old(db.products), WithId(body.productId.value)).Some?
      && db.inventory == old(db.inventory) + [StockRecord(recordId, pid, body.storeId, body.quantity.value, body.minStock)]
      && db.movements == old(db.movements)
           + [Movement(Some(movementId), None, pid, In, body.quantity.value, None, body.storeId, Some(now), None, map[])]
    ensures resp.status == 201 || resp.status == 400 || resp.status == 404
    ensures OnePerPair(old(db.inventory)) ==> OnePerPair(db.inventory)
  {
    var err := ValidateFields(body.Keys(), InventoryFields);
    InventoryValidation(body);
    if err.Some? {
      return Response(400, err.value);
    }
    var id := body.productId.value;
    if !ValidId(id) {
      return Response(400, "Invalid product ID format");
    }
    var pid := ObjectId(id);
    if FirstMatch(db.products, WithId(id)).None? {
      return Response(404, "Product not found");
    }
    if FirstMatch(db.inventory, ByPair(pid, body.storeId)).Some? {
      return Response(400, "Inventory already exists for this product and store");
    }
    var record := StockRecord(recordId, pid, body.storeId, body.quantity.value, body.minStock);
    if OnePerPair(db.inventory) {
      AppendKeepsOnePerPair(db.inventory, record);
    }
    db.InsertStock(record);
    db.AppendMovement(Movement(Some(movementId), None, pid, In, body.quantity.value, None, body.storeId, Some(now), None, map[]));
    resp := Response(201, "Inventory created successfully");
  }

  /** The request body of transfer_stock; None marks an absent key. */
  datatype TransferRequest = TransferRequest(
    productId: Option<string>,
    sourceStoreId: Option<string>,
    targetStoreId: Option<string>,
    quantity: Option<int>)
  {
    function Keys(): set<string> {
      (if productId.Some? then {"productId"} else {})
      + (if sourceStoreId.Some? then {"sourceStoreId"} else {})
      + (if targetStoreId.Some? then {"targetStoreId"} else {})
      + (if quantity.Some? then {"quantity"} else {})
    }

    /** Every field the handler requires is present. */
    predicate Complete() {
      productId.Some? && sourceStoreId.Some? && targetStoreId.Some? && quantity.Some?
    }
  }

  /** validate_fields accepts the request exactly when it is complete. */
  lemma TransferValidation(body: TransferRequest)
    ensures ValidateFields(body.Keys(), TransferFields).None? <==> body.Complete()
  {
    var present := body.Keys();
    assert forall f :: f in TransferFields <==> f == "productId" || f == "sourceStoreId" || f == "targetStoreId" || f == "quantity";
  }

  const TransferFields: seq<string> := ["productId", "sourceStoreId", "targetStoreId", "quantity"]

  /** The inventory after a transfer's two updates: `$inc` of -n on the source
      record, then an upsert of +n on the target whose new record takes the
      source's minStock. */
  function Transferred(inv: seq<StockRecord>, pid: Value, source: string, target: string, n: int,
                       recordId: string, minStock: Option<int>): seq<StockRecord>
  {
    IncUpsert(IncFirst(inv, ByPair(pid, Some(source)), -n), ByPair(pid, Some(target)), n,
              StockRecord(recordId, pid, Some(target), n, minStock))
  }

  /** The check transfer_stock makes before writing: a source record exists
      and holds at least n. */
  predicate SourceCovers(inv: seq<StockRecord>, pid: Value, source: string, n: int) {
    match FirstMatch(inv, ByPair(pid, Some(source)))
    case None => false
    case Some(i) => inv[i].quantity >= n
  }

  /** The minStock of the source record, which a new target record copies. */
  function SourceMinStock(inv: seq<StockRecord>, pid: Value, source: string): Option<int> {
    match FirstMatch(inv, ByPair(pid, Some(source)))
    case None => None
    case Some(i) => inv[i].minStock
  }

  /** A transfer moves stock between stores: the product's total over all
      stores, and every other product's, is the same afterwards. */
  lemma {:induction false} TransferConservesTotal(inv: seq<StockRecord>, pid: Value, source: string, target: string,
                                                 n: int, recordId: string, minStock: Option<int>, q: Value)
    requires FirstMatch(inv, ByPair(pid, Some(source))).Some?
    ensures TotalQuantity(Transferred(inv, pid, source, target, n, recordId, minStock), q) == TotalQuantity(inv, q)
  {
    KeyFiltersIgnoreQuantity(pid, Some(source));
    KeyFiltersIgnoreQuantity(pid, Some(target));
    MoveKeepsTotal(inv, ByPair(pid, Some(source)), ByPair(pid, Some(target)), pid, n,
                   StockRecord(recordId, pid, Some(target), n, minStock), q);
  }

  /** A transfer between different stores takes n from the source's quantity
      and adds n to the target's (a target without a record reads as 0). */
  lemma {:induction false} TransferMovesQuantity(inv: seq<StockRecord>, pid: Value, source: string, target: string,
                                                n: int, recordId: string, minStock: Option<int>)
    requires source != target
    requires FirstMatch(inv, ByPair(pid, Some(source))).Some?
    ensures var after := Transferred(inv, pid, source, target, n, recordId, minStock);
      && FirstQuantity(after, ByPair(pid, Some(source))) == FirstQuantity(inv, ByPair(pid, Some(source))) - n
      && FirstQuantity(after, ByPair(pid, Some(target))) == FirstQuantity(inv, ByPair(pid, Some(target))) + n
  {
    var src, tgt := ByPair(pid, Some(source)), ByPair(pid, Some(target));
    var mid := IncFirst(inv, src, -n);
    var after := IncUpsert(mid, tgt, n, StockRecord(recordId, pid, Some(target), n, minStock));
    KeyFiltersIgnoreQuantity(pid, Some(source));
    KeyFiltersIgnoreQuantity(pid, Some(target));
    assert Disjoint(src, tgt) && Disjoint(tgt, src);
    IncFirstQuantity(inv, src, tgt, -n);
    assert FirstQuantity(mid, src) == FirstQuantity(inv, src) - n;
    assert FirstQuantity(mid, tgt) == FirstQuantity(inv, tgt);
    IncUpsertQuantity(mid, tgt, src, n, StockRecord(recordId, pid, Some(target), n, minStock));
    assert FirstQuantity(after, src) == FirstQuantity(mid, src);
    assert FirstQuantity(after, tgt) == FirstQuantity(mid, tgt) + n;
  }

  /** A transfer touches only its two (product, store) pairs: the quantity any
      other pair reads is the same afterwards. */
  lemma {:induction false} OtherPairsUnchanged(inv: seq<StockRecord>, pid: Value, source: string, target: string,
                                              n: int, recordId: string, minStock: Option<int>,
                                              p2: Value, s2: Option<string>)
    requires (p2, s2) != (pid, Some(source)) && (p2, s2) != (pid, Some(target))
    ensures FirstQuantity(Transferred(inv, pid, source, target, n, recordId, minStock), ByPair(p2, s2))
         == FirstQuantity(inv, ByPair(p2, s2))
  {
    var src, tgt, other := ByPair(pid, Some(source)), ByPair(pid, Some(target)), ByPair(p2, s2);
    var mid := IncFirst(inv, src, -n);
    var rec := StockRecord(recordId, pid, Some(target), n, minStock);
    assert FirstQuantity(mid, other) == FirstQuantity(inv, other) by {
      KeyFiltersIgnoreQuantity(pid, Some(source));
      KeyFiltersIgnoreQuantity(p2, s2);
      PairsDisjoint(pid, Some(source), p2, s2);
      IncFirstQuantity(inv, src, other, -n);
    }
    assert FirstQuantity(IncUpsert(mid, tgt, n, rec), other) == FirstQuantity(mid, other) by {
      KeyFiltersIgnoreQuantity(pid, Some(target));
      KeyFiltersIgnoreQuantity(p2, s2);
      PairsDisjoint(pid, Some(target), p2, s2);
      IncUpsertQuantity(mid, tgt, other, n, rec);
    }
  }

  /** The updates of a transfer keep at most one record per (product, store). */
  lemma TransferKeepsOnePerPair(inv: seq<StockRecord>, pid: Value, source: string, target: string,
                                n: int, recordId: string, minStock: Option<int>)
    ensures OnePerPair(inv) ==> OnePerPair(Transferred(inv, pid, source, target, n, recordId, minStock))
  {
    var mid := IncFirst(inv, ByPair(pid, Some(source)), -n);
    IncFirstKeepsKeys(inv, ByPair(pid, Some(source)), -n);
    if OnePerPair(inv) && FirstMatch(mid, ByPair(pid, Some(target))).None? {
      AppendKeepsOnePerPair(mid, StockRecord(recordId, pid, Some(target), n, minStock));
    }
  }

  /** With a quantity that is not negative, a transfer whose source check
      passed leaves no record negative, after its first write and after its
      second. */
  lemma TransferKeepsNonNegative(inv: seq<StockRecord>, pid: Value, source: string, target: string,
                                 n: int, recordId: string, minStock: Option<int>)
    requires NonNegative(inv)
    requires SourceCovers(inv, pid, source, n)
    requires n >= 0
    ensures NonNegative(IncFirst(inv, ByPair(pid, Some(source)), -n))
    ensures NonNegative(Transferred(inv, pid, source, target, n, recordId, minStock))
  {
  }

  /** The code does not check the quantity's sign: a transfer of -3 passes the
      source check and creates a target record holding -3. */
  lemma NegativeTransferMakesTargetNegative()
    ensures var inv := [StockRecord(SampleRecordId, ObjectId(SampleId), Some("store001"), 5, Some(1))];
      && SourceCovers(inv, ObjectId(SampleId), "store001", -3)
      && Transferred(inv, ObjectId(SampleId), "store001", "store002", -3, SampleRecordId, Some(1))[1].quantity == -3
  {
    var inv := [StockRecord(SampleRecordId, ObjectId(SampleId), Some("store001"), 5, Some(1))];
    assert ByPair(ObjectId(SampleId), Some("store001"))(inv[0]);
    assert !ByPair(ObjectId(SampleId), Some("store002"))(inv[0].(quantity := 8));
  }

  /** What a completed transfer did to the stock: the source (product, store)
      lost n, the target gained n, and no product's total over all stores
      changed. */
  ghost predicate MovedStock(before: seq<StockRecord>, after: seq<StockRecord>, pid: Value, source: string, target: string, n: int) {
    && FirstQuantity(after, ByPair(pid, Some(source))) == FirstQuantity(before, ByPair(pid, Some(source))) - n
    && FirstQuantity(after, ByPair(pid, Some(target))) == FirstQuantity(before, ByPair(pid, Some(target))) + n
    && forall q :: TotalQuantity(after, q) == TotalQuantity(before, q)
  }

  /** A transfer between different stores whose source check passed moves n
      from source to target, leaves the source non-negative and keeps every
      product's total. */
  lemma TransferMovesStock(inv: seq<StockRecord>, pid: Value, source: string, target: string,
                           n: int, recordId: string, minStock: Option<int>)
    requires source != target
    requires SourceCovers(inv, pid, source, n)
    ensures MovedStock(inv, Transferred(inv, pid, source, target, n, recordId, minStock), pid, source, target, n)
    ensures FirstQuantity(Transferred(inv, pid, source, target, n, recordId, minStock), ByPair(pid, Some(source))) >= 0
  {
    var after := Transferred(inv, pid, source, target, n, recordId, minStock);
    forall q ensures TotalQuantity(after, q) == TotalQuantity(inv, q) {
      TransferConservesTotal(inv, pid, source, target, n, recordId, minStock, q);
    }
    TransferMovesQuantity(inv, pid, source, target, n, recordId, minStock);
  }

  /** A completed transfer keeps the ledger and the stock in agreement: the
      totals do not move and a TRANSFER movement has no net effect. */
  lemma TransferKeepsBalance(inv: seq<StockRecord>, ms: seq<Movement>, pid: Value, source: string, target: string,
                             n: int, recordId: string, minStock: Option<int>, movementId: string, now: int)
    requires Balanced(inv, ms)
    requires FirstMatch(inv, ByPair(pid, Some(source))).Some?
    ensures Balanced(Transferred(inv, pid, source, target, n, recordId, minStock),
                     ms + [Movement(Some(movementId), None, pid, Transfer, n, Some(source), Some(target), Some(now), None, map[])])
  {
    var m := Movement(Some(movementId), None, pid, Transfer, n, Some(source), Some(target), Some(now), None, map[]);
    forall q ensures TotalQuantity(Transferred(inv, pid, source, target, n, recordId, minStock), q) == Net(ms + [m], q) {
      TransferConservesTotal(inv, pid, source, target, n, recordId, minStock, q);
      NetAfterAppend(ms, m, q);
    }
  }

  /** The writes of transfer_stock once the request is validated: the source
      check, the decrement, the target upsert and the TRANSFER movement. When
      the source record has no minStock field, building the target update
      raises KeyError AFTER the source was decremented. */
  method ApplyTransfer(db: Database, pid: Value, source: string, target: string, n: int,
                       recordId: string, movementId: string, now: int)
    returns (resp: Response)
    requires db.Valid()
    requires source != target
    modifies db
    ensures db.Valid()
    ensures db.products == old(db.products)
    ensures !SourceCovers(old(db.inventory), pid, source, n) ==>
      resp == Response(400, "Insufficient stock in source store")
      && db.inventory == old(db.inventory) && db.movements == old(db.movements)
    ensures SourceCovers(old(db.inventory), pid, source, n) ==>
      var minStock := SourceMinStock(old(db.inventory), pid, source);
      if minStock.None? then
        && resp == InternalError
        && db.inventory == IncFirst(old(db.inventory), ByPair(pid, Some(source)), -n)
        && db.movements == old(db.movements)
      else
        && resp == Response(200, "Stock transferred successfully")
        && db.inventory == Transferred(old(db.inventory), pid, source, target, n, recordId, minStock)
        && db.movements == old(db.movements)
             + [Movement(Some(movementId), None, pid, Transfer, n, Some(source), Some(target), Some(now), None, map[])]
  {
    if !SourceCovers(db.inventory, pid, source, n) {
      return Response(400, "Insufficient stock in source store");
    }
    var minStock := db.inventory[FirstMatch(db.inventory, ByPair(pid, Some(source))).value].minStock;
    ghost var before := db.inventory;
    db.IncStock(ByPair(pid, Some(source)), -n);
    if minStock.None? {
      resp := InternalError;
    } else {
      db.IncStockUpsert(ByPair(pid, Some(target)), n, StockRecord(recordId, pid, Some(target), n, minStock));
      db.AppendMovement(Movement(Some(movementId), None, pid, Transfer, n, Some(source), Some(target), Some(now), None, map[]));
      resp := Response(200, "Stock transferred successfully");
    }
  }

  /** What transfer_stock does with a request, from the inventory and ledger
      before (inv, ms) to those after (inv', ms'): each check's error in the
      code's order, with no write; then, for a request passing every check,
      the outcome of ApplyTransfer. */
  ghost predicate TransferOutcome(body: TransferRequest, inv: seq<StockRecord>, ms: seq<Movement>,
                                  inv': seq<StockRecord>, ms': seq<Movement>, resp: Response,
                                  recordId: string, movementId: string, now: int)
  {
    TransferValidation(body);
    if ValidateFields(body.Keys(), TransferFields).Some? then
      resp == Response(400, ValidateFields(body.Keys(), TransferFields).value) && inv' == inv && ms' == ms
    else if body.sourceStoreId == body.targetStoreId then
      resp == Response(400, "Source and target stores must be different") && inv' == inv && ms' == ms
    else if !ValidId(body.productId.value) then
      resp == Response(400, "Invalid product ID format") && inv' == inv && ms' == ms
    else
      var pid := ObjectId(body.productId.value);
      var source := body.sourceStoreId.value;
      var n := body.quantity.value;
      if !SourceCovers(inv, pid, source, n) then
        resp == Response(400, "Insufficient stock in source store") && inv' == inv && ms' == ms
      else if SourceMinStock(inv, pid, source).None? then
        resp == InternalError && inv' == IncFirst(inv, ByPair(pid, Some(source)), -n) && ms' == ms
      else
        && resp == Response(200, "Stock transferred successfully")
        && inv' == Transferred(inv, pid, source, body.targetStoreId.value, n, recordId, SourceMinStock(inv, pid, source))
        && ms' == ms + [Movement(Some(movementId), None, pid, Transfer, n, body.sourceStoreId, body.targetStoreId,
                                 Some(now), None, map[])]
  }

  /** transfer_stock: validates the request, then applies the transfer. The
      sign of the quantity is not checked. */
  method TransferStock(db: Database, body: TransferRequest, recordId: string, movementId: string, now: int)
    returns (resp: Response)
    requires db.Valid()
    modifies db
    ensures db.Valid()
    ensures db.products == old(db.products)
    ensures TransferOutcome(body, old(db.inventory), old(db.movements), db.inventory, db.movements, resp,
                            recordId, movementId, now)
    ensures resp.status == 200 || resp.status == 400 || resp.status == 500
  {
    var err := ValidateFields(body.Keys(), TransferFields);
    TransferValidation(body);
    if err.Some? {
      resp := Response(400, err.value);
    } else if body.sourceStoreId.value == body.targetStoreId.value {
      resp := Response(400, "Source and target stores must be different");
    } else if !ValidId(body.productId.value) {
      resp := Response(400, "Invalid product ID format");
    } else {
      resp := ApplyTransfer(db, ObjectId(body.productId.value), body.sourceStoreId.value, body.targetStoreId.value,
                            body.quantity.value, recordId, movementId, now);
    }
  }

  /** transfer_stock with the quantity check it lacks: a quantity that is not
      positive is refused before any write, so a store whose records were not
      negative never gets a negative record. */
  method TransferStockChecked(db: Database, body: TransferRequest, recordId: string, movementId: string, now: int)
    returns (resp: Response)
    requires db.Valid()
    modifies db
    ensures db.Valid()
    ensures db.products == old(db.products)
    ensures body.Complete() && body.quantity.value <= 0 ==>
      resp == Response(400, "Quantity must be positive")
      && db.inventory == old(db.inventory) && db.movements == old(db.movements)
    ensures !(body.Complete() && body.quantity.value <= 0) ==>
      TransferOutcome(body, old(db.inventory), old(db.movements), db.inventory, db.movements, resp,
                      recordId, movementId, now)
    ensures resp.status == 200 ==> body.Complete() && body.quantity.value > 0
    ensures NonNegative(old(db.inventory)) ==> NonNegative(db.inventory)
  {
    TransferValidation(body);
    if body.Complete() && body.quantity.value <= 0 {
      return Response(400, "Quantity must be positive");
    }
    ghost var before := db.inventory;
    resp := TransferStock(db, body, recordId, movementId, now);
    if resp.status != 400 && NonNegative(before) {
      TransferKeepsNonNegative(before, ObjectId(body.productId.value), body.sourceStoreId.value, body.targetStoreId.value,
                               body.quantity.value, recordId, SourceMinStock(before, ObjectId(body.productId.value), body.sourceStoreId.value));
    }
  }

  // ---------------------------------------------------------------------------
  // the two listings: $match, $lookup on products._id, $unwind, $project

  /** A row of an inventory listing: the record's fields and its product's
      name, sku, price and id. `oid` is `_id` before the rename, `id` after. */
  datatype StockRow = StockRow(
    oid: Option<string>,
    id: Option<string>,
    quantity: int,
    minStock: Option<int>,
    storeId: Option<string>,
    product: Fields)

  /** The filter `{"_id": ref}` that $lookup applies to products. */
  function IdIs(ref: Value): ProductDoc -> bool {
    (d: ProductDoc) => FieldOr(d, "_id") == ref
  }

  /** $lookup + $unwind keep a record iff a product has its productId as `_id`
      (MongoDB keeps `_id` unique, so the record then joins exactly one). */
  predicate HasProduct(ps: seq<ProductDoc>, r: StockRecord) {
    FirstMatch(ps, IdIs(r.productId)).Some?
  }

  /** The `$project` of the joined product. */
  function Summary(p: ProductDoc): Fields {
    map k | k in p && k in {"_id", "name", "sku", "price"} :: p[k]
  }

  function JoinedRow(ps: seq<ProductDoc>, r: StockRecord): StockRow
    requires HasProduct(ps, r)
  {
    StockRow(Some(r.oid), None, r.quantity, r.minStock, r.storeId, Summary(ps[FirstMatch(ps, IdIs(r.productId)).value]))
  }

  /** A row whose `_id`s can be renamed. */
  predicate Renamable(row: StockRow) {
    row.oid.Some? && "_id" in row.product
  }

  /** `item["id"] = str(item.pop("_id"))` on the row and on its product. */
  function Renamed(row: StockRow): (r: StockRow)
    requires Renamable(row)
    ensures r.oid.None? && r.id == row.oid && "_id" !in r.product
    ensures "id" in r.product && r.product["id"] == Text(Str(row.product["_id"]))
    ensures (r.quantity, r.minStock, r.storeId) == (row.quantity, row.minStock, row.storeId)
  {
    row.(oid := None, id := Some(row.oid.value), product := Relabel(row.product))
  }

  /** The loop of list_inventory and low_stock_alerts: renames `_id` in every
      row in place. */
  method RenameAll(rows: seq<StockRow>) returns (out: seq<StockRow>)
    requires forall i :: 0 <= i < |rows| ==> Renamable(rows[i])
    ensures |out| == |rows|
    ensures forall i :: 0 <= i < |rows| ==> out[i] == Renamed(rows[i])
  {
    var a := new StockRow[|rows|](i requires 0 <= i < |rows| => rows[i]);
    for i := 0 to a.Length
      invariant forall k :: 0 <= k < i ==> a[k] == Renamed(rows[k])
      invariant forall k :: i <= k < a.Length ==> a[k] == rows[k]
    {
      a[i] := Renamed(a[i]);
    }
    out := a[..];
  }

  /** The records $lookup + $unwind keep. */
  function Joinable(ps: seq<ProductDoc>): StockRecord -> bool {
    (r: StockRecord) => HasProduct(ps, r)
  }

  /** The pipeline after its $match, and the renaming loop. */
  method JoinAndRename(recs: seq<StockRecord>, ps: seq<ProductDoc>) returns (rows: seq<StockRow>)
    requires forall i :: 0 <= i < |ps| ==> "_id" in ps[i]
    ensures var kept := Filter(recs, Joinable(ps));
      && |rows| == |kept|
      && forall i :: 0 <= i < |kept| ==>
           HasProduct(ps, kept[i]) && Renamable(JoinedRow(ps, kept[i])) && rows[i] == Renamed(JoinedRow(ps, kept[i]))
  {
    var kept := Filter(recs, Joinable(ps));
    forall i | 0 <= i < |kept| ensures HasProduct(ps, kept[i]) && Renamable(JoinedRow(ps, kept[i])) {
      assert kept[i] in kept;
      var j := FirstMatch(ps, IdIs(kept[i].productId)).value;
      assert "_id" in ps[j];
    }
    var joined := seq(|kept|, i requires 0 <= i < |kept| && HasProduct(ps, kept[i]) => JoinedRow(ps, kept[i]));
    rows := RenameAll(joined);
  }

  /** The `$match` of list_inventory. */
  function AtStore(storeId: string): StockRecord -> bool {
    (r: StockRecord) => r.storeId == Some(storeId)
  }

  /** list_inventory: the records of one store whose product exists, in store
      order, each joined with its product. */
  method ListInventory(db: Database, storeId: string) returns (resp: Response, rows: seq<StockRow>)
    requires db.Valid()
    ensures storeId == "" ==> resp == Response(400, "Store ID is required") && rows == []
    ensures storeId != "" ==>
      var kept := Filter(Filter(db.inventory, AtStore(storeId)), Joinable(db.products));
      && resp.status == 200
      && (forall r :: r in kept <==> r in db.inventory && r.storeId == Some(storeId) && HasProduct(db.products, r))
      && |rows| == |kept|
      && forall i :: 0 <= i < |kept| ==>
           HasProduct(db.products, kept[i]) && Renamable(JoinedRow(db.products, kept[i]))
           && rows[i] == Renamed(JoinedRow(db.products, kept[i]))
  {
    if storeId == "" {
      return Response(400, "Store ID is required"), [];
    }
    rows := JoinAndRename(Filter(db.inventory, AtStore(storeId)), db.products);
    resp := Response(200, "");
  }

  /** The `$expr: {$lt: ["$quantity", "$minStock"]}` match: strictly below the
      record's own threshold; a record without minStock is never low. */
  predicate BelowMinimum(r: StockRecord) {
    r.minStock.Some? && r.quantity < r.minStock.value
  }

  /** low_stock_alerts: every record strictly below its minStock whose product
      exists, in store order, each joined with its product. */
  method LowStockAlerts(db: Database) returns (resp: Response, rows: seq<StockRow>)
    requires db.Valid()
    ensures
      var kept := Filter(Filter(db.inventory, BelowMinimum), Joinable(db.products));
      && resp.status == 200
      && (forall r :: r in kept <==> r in db.inventory && BelowMinimum(r) && HasProduct(db.products, r))
      && |rows| == |kept|
      && forall i :: 0 <= i < |kept| ==>
           HasProduct(db.products, kept[i]) && Renamable(JoinedRow(db.products, kept[i]))
           && rows[i] == Renamed(JoinedRow(db.products, kept[i]))
  {
    rows := JoinAndRename(Filter(db.inventory, BelowMinimum), db.products);
    resp := Response(200, "");
  }
}
