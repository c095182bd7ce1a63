/**
 * InventoryService (services/inventory_service.py): stock reads keyed by
 * product alone (a product without a stock record reads as 0), the
 * threshold listing, and the manual overwrite of a product's stock, which
 * writes no movement.
 */
module InventoryService {
  import opened Documents
  import App

  /** One `{"productId": str(...), "quantity": ...}` entry of a listing. */
  datatype StockEntry = StockEntry(productId: string, quantity: int)

  /** The default threshold of get_low_stock_products. */
  const DefaultThreshold := 10

  /** The listing entry of a stock record. */
  function EntryOf(r: StockRecord): StockEntry {
    StockEntry(Str(r.productId), r.quantity)
  }

  /** The list comprehension building the entries of a listing. */
  function Entries(recs: seq<StockRecord>): (es: seq<StockEntry>)
    ensures |es| == |recs|
    ensures forall i :: 0 <= i < |recs| ==> es[i] == EntryOf(recs[i])
  {
    seq(|recs|, i requires 0 <= i < |recs| => EntryOf(recs[i]))
  }

  /** The filter `{"quantity": {"$lte": threshold}}`. */
  function AtMost(threshold: int): StockRecord -> bool {
    (r: StockRecord) => r.quantity <= threshold
  }

  /** The record the upsert of adjust_stock creates: productId from
      `$setOnInsert`, quantity from `$set`, no store and no minStock. */
  function AdjustedStock(stockId: string, productId: string, q: int): StockRecord {
    StockRecord(stockId, ObjectId(productId), None, q, None)
  }

  /** adjust_stock overwrites rather than adds: the product's stock reads q
      afterwards whatever it read before, and no other product's changes. */
  lemma AdjustSetsQuantity(inv: seq<StockRecord>, productId: string, q: int, stockId: string, other: Value)
    ensures FirstQuantity(SetUpsert(inv, ByProduct(ObjectId(productId)), q, AdjustedStock(stockId, productId, q)),
                          ByProduct(ObjectId(productId))) == q
    ensures other != ObjectId(productId) ==>
      FirstQuantity(SetUpsert(inv, ByProduct(ObjectId(productId)), q, AdjustedStock(stockId, productId, q)), ByProduct(other))
      == FirstQuantity(inv, ByProduct(other))
  {
    KeyFiltersIgnoreQuantity(ObjectId(productId), None);
    KeyFiltersIgnoreQuantity(other, None);
    if other != ObjectId(productId) {
      assert Disjoint(ByProduct(ObjectId(productId)), ByProduct(other));
    }
    SetUpsertQuantity(inv, ByProduct(ObjectId(productId)), ByProduct(other), q, AdjustedStock(stockId, productId, q));
  }

  /** Two adjustments to the same quantity leave the store as one does. */
  lemma AdjustIdempotent(inv: seq<StockRecord>, productId: string, q: int, stockId: string)
    ensures var once := SetUpsert(inv, ByProduct(ObjectId(productId)), q, AdjustedStock(stockId, productId, q));
      SetUpsert(once, ByProduct(ObjectId(productId)), q, AdjustedStock(stockId, productId, q)) == once
  {
    KeyFiltersIgnoreQuantity(ObjectId(productId), None);
    SetUpsertIdempotent(inv, ByProduct(ObjectId(productId)), q, AdjustedStock(stockId, productId, q));
  }

  /** Because adjust_stock writes no movement, it can leave the ledger no
      longer explaining the stock: on an empty store, setting a product to 5
      gives a total of 5 with a net movement of 0. */
  lemma AdjustCanUnbalance()
    ensures Balanced([], [])
    ensures !Balanced(SetUpsert([], ByProduct(ObjectId(App.SampleId)), 5, AdjustedStock(App.SampleRecordId, App.SampleId, 5)), [])
  {
    var after := SetUpsert([], ByProduct(ObjectId(App.SampleId)), 5, AdjustedStock(App.SampleRecordId, App.SampleId, 5));
    assert after == [AdjustedStock(App.SampleRecordId, App.SampleId, 5)];
    assert after[..0] == [];
    assert TotalQuantity(after, ObjectId(App.SampleId)) == 5;
  }

  /** The two low-stock rules disagree on a record holding exactly its
      threshold: the API (quantity < minStock) does not report it, the
      service (quantity <= threshold) does. */
  lemma LowStockRulesDiffer()
    ensures var r := StockRecord(App.SampleRecordId, ObjectId(App.SampleId), Some("store001"), 10, Some(10));
      !App.BelowMinimum(r) && AtMost(DefaultThreshold)(r)
  {
  }

  class InventoryService {
    const db: Database

    constructor (db: Database)
      ensures this.db == db
    {
      this.db := db;
    }

    /** `get_product_stock`: the quantity of the product's first stock record,
        0 when it has none. */
    function GetProductStock(productId: string): (r: Result<StockEntry>)
      reads db
      ensures !ValidId(productId) ==> r == Err("Error retrieving stock: " + InvalidIdDetail(productId))
      ensures r.Ok? <==> ValidId(productId) && IdTaken(db.products, productId)
      ensures ValidId(productId) && !IdTaken(db.products, productId) ==> r == Err("Product not found")
      ensures r.Ok? ==> r.value.productId == productId
      ensures r.Ok? && (forall i :: 0 <= i < |db.inventory| ==> db.inventory[i].productId != ObjectId(productId)) ==>
        r.value.quantity == 0
      ensures r.Ok? && !(forall i :: 0 <= i < |db.inventory| ==> db.inventory[i].productId != ObjectId(productId)) ==>
        exists i :: 0 <= i < |db.inventory| && db.inventory[i].productId == ObjectId(productId)
                 && r.value.quantity == db.inventory[i].quantity
                 && forall j :: 0 <= j < i ==> db.inventory[j].productId != ObjectId(productId)
    {
      if !ValidId(productId) then Err("Error retrieving stock: " + InvalidIdDetail(productId))
      else
        FirstMatchIsFirst(db.products, WithId(productId));
        FirstMatchIsFirst(db.inventory, ByProduct(ObjectId(productId)));
        if FirstMatch(db.products, WithId(productId)).None? then Err("Product not found")
        else Ok(StockEntry(productId, FirstQuantity(db.inventory, ByProduct(ObjectId(productId)))))
    }

    /** `get_all_stock`: one entry per stock record, in store order. */
    function GetAllStock(): (r: seq<StockEntry>)
      reads db
      ensures |r| == |db.inventory|
      ensures forall i :: 0 <= i < |r| ==>
        r[i].quantity == db.inventory[i].quantity && r[i].productId == Str(db.inventory[i].productId)
    {
      Entries(db.inventory)
    }

    /** `get_low_stock_products`: the entries of exactly the records holding
        at most threshold (10 unless given), in store order. */
    function GetLowStockProducts(threshold: int := DefaultThreshold): (r: seq<StockEntry>)
      reads db
      ensures |r| == |Filter(db.inventory, AtMost(threshold))|
      ensures forall k :: 0 <= k < |r| ==> r[k] == EntryOf(Filter(db.inventory, AtMost(threshold))[k])
      ensures forall x :: x in r ==> x.quantity <= threshold
      ensures forall i :: 0 <= i < |db.inventory| && db.inventory[i].quantity <= threshold ==> EntryOf(db.inventory[i]) in r
      ensures forall x :: x in r ==> exists i :: 0 <= i < |db.inventory| && db.inventory[i].quantity <= threshold
                                                && x == EntryOf(db.inventory[i])
    {
      var low := Filter(db.inventory, AtMost(threshold));
      var es := Entries(low);
      assert forall i :: 0 <= i < |db.inventory| && db.inventory[i].quantity <= threshold ==> db.inventory[i] in low;
      assert forall k :: 0 <= k < |low| ==> low[k] in low;
      es
    }

    /** `adjust_stock`: checks the id, the product and the quantity in that
        order, then overwrites the product's stock with the quantity,
        creating the record when the product has none. */
    method AdjustStock(productId: string, quantity: Value, stockId: string) returns (r: Result<string>)
      modifies db
      ensures db.products == old(db.products) && db.movements == old(db.movements)
      ensures old(db.Valid()) ==> db.Valid()
      ensures !ValidId(productId) ==> r == Err("Error adjusting stock: " + InvalidIdDetail(productId))
      ensures ValidId(productId) && !IdTaken(old(db.products), productId) ==> r == Err("Product not found")
      ensures ValidId(productId) && IdTaken(old(db.products), productId) && !(quantity.Number? && quantity.n >= 0) ==>
        r == Err("Quantity must be a positive number")
      ensures r.Err? ==> db.inventory == old(db.inventory)
      ensures r.Ok? <==> ValidId(productId) && IdTaken(old(db.products), productId) && quantity.Number? && quantity.n >= 0
      ensures r.Ok? ==>
        && r.value == "Stock adjusted successfully"
        && db.inventory == SetUpsert(old(db.inventory), ByProduct(ObjectId(productId)), quantity.n,
                                     AdjustedStock(stockId, productId, quantity.n))
    {
      if !ValidId(productId) {
        return Err("Error adjusting stock: " + InvalidIdDetail(productId));
      }
      FirstMatchIsFirst(db.products, WithId(productId));
      if FirstMatch(db.products, WithId(productId)).None? {
        return Err("Product not found");
      }
      if !quantity.Number? || quantity.n < 0 {
        return Err("Quantity must be a positive number");
      }
      db.SetStockUpsert(ByProduct(ObjectId(productId)), quantity.n, AdjustedStock(stockId, productId, quantity.n));
      r := Ok("Stock adjusted successfully");
    }
  }
}
