/**
 * MovementService (services/movement_service.py): records IN and OUT
 * movements in the ledger and applies each one to the product's stock, and
 * reads the ledger back by id, product, date range and type.
 *
 * Unlike the API handlers, the service keys stock by product alone: the
 * record it reads for the OUT check and the record its `$inc` upsert updates
 * are both the first record of the product, whatever its store.
 */
module MovementService {
  import opened Documents

  /** A `create_movement` request: the three fields the service checks, the
      optional `date` the range query reads, and every other field (stores,
      reference, notes, unit price, ...), which is stored untouched. */
  datatype MovementRequest = MovementRequest(
    productId: Option<Value>,
    mtype: Option<Value>,
    quantity: Option<int>,
    date: Option<int>,
    extra: Fields)
  {
    predicate Complete() {
      productId.Some? && mtype.Some? && quantity.Some?
    }
  }

  /** `ObjectId(v)`: a string of 24 hex digits or an ObjectId parses; null is
      handled apart (bson generates a new id for it); any other value raises. */
  function ParseObjectId(v: Value): Option<string> {
    match v
    case Text(s) => if ValidId(s) then Some(s) else None
    case ObjectId(h) => Some(h)
    case _ => None
  }

  /** The type field of a request, when it is one of the two the service
      accepts. */
  function MovementTypeOf(v: Value): (r: Option<MovementType>)
    ensures r.Some? ==> r.value != Transfer && v == Text(r.value.Name())
    ensures (v == Text("IN") || v == Text("OUT")) ==> r.Some?
  {
    if v == Text("IN") then Some(In)
    else if v == Text("OUT") then Some(Out)
    else None
  }

  /** The signed change a movement of type t and quantity q makes to stock. */
  function Delta(t: MovementType, q: int): int {
    if t == In then q else -q
  }

  /** The document `insert_one` stores for an accepted request: the request
      with its productId replaced by the parsed ObjectId and the `_id` the
      store generated. */
  function Recorded(req: MovementRequest, h: string, t: MovementType, movementId: string): Movement
    requires req.quantity.Some?
  {
    Movement(Some(movementId), None, ObjectId(h), t, req.quantity.value, None, None, None, req.date, req.extra)
  }

  /** The document the upsert creates when the product has no stock record:
      only the productId of `$setOnInsert` and the quantity of `$inc`. */
  function NewStock(stockId: string, h: string, delta: int): StockRecord {
    StockRecord(stockId, ObjectId(h), None, delta, None)
  }

  /** The inventory after a movement of delta on product h. */
  function Applied(inv: seq<StockRecord>, h: string, delta: int, stockId: string): seq<StockRecord> {
    IncUpsert(inv, ByProduct(ObjectId(h)), delta, NewStock(stockId, h, delta))
  }

  /** A movement changes its product's stock, as the service reads it, by
      exactly its signed quantity, and no other product's. */
  lemma AppliedQuantity(inv: seq<StockRecord>, h: string, delta: int, stockId: string, other: Value)
    ensures FirstQuantity(Applied(inv, h, delta, stockId), ByProduct(ObjectId(h)))
         == FirstQuantity(inv, ByProduct(ObjectId(h))) + delta
    ensures other != ObjectId(h) ==>
      FirstQuantity(Applied(inv, h, delta, stockId), ByProduct(other)) == FirstQuantity(inv, ByProduct(other))
  {
    KeyFiltersIgnoreQuantity(ObjectId(h), None);
    KeyFiltersIgnoreQuantity(other, None);
    if other != ObjectId(h) {
      assert Disjoint(ByProduct(ObjectId(h)), ByProduct(other));
    }
    IncUpsertQuantity(inv, ByProduct(ObjectId(h)), ByProduct(other), delta, NewStock(stockId, h, delta));
  }

  /** An OUT movement that passed the stock check leaves the product's stock,
      as the service reads it, not negative. */
  lemma OutKeepsStockNonNegative(inv: seq<StockRecord>, h: string, q: int, stockId: string)
    requires FirstQuantity(inv, ByProduct(ObjectId(h))) >= q
    ensures FirstQuantity(Applied(inv, h, Delta(Out, q), stockId), ByProduct(ObjectId(h))) >= 0
  {
    AppliedQuantity(inv, h, Delta(Out, q), stockId, ObjectId(h));
  }

  /** Recording a movement and applying it to stock keeps the ledger and the
      stock in agreement: every product's total still equals the net effect
      of its movements. */
  lemma {:induction false} MovementKeepsBalance(inv: seq<StockRecord>, ms: seq<Movement>, req: MovementRequest,
                                               h: string, t: MovementType, movementId: string, stockId: string)
    requires req.quantity.Some? && t != Transfer
    requires Balanced(inv, ms)
    ensures Balanced(Applied(inv, h, Delta(t, req.quantity.value), stockId), ms + [Recorded(req, h, t, movementId)])
  {
    var m := Recorded(req, h, t, movementId);
    var delta := Delta(t, req.quantity.value);
    KeyFiltersIgnoreQuantity(ObjectId(h), None);
    forall pid
      ensures TotalQuantity(Applied(inv, h, delta, stockId), pid) == Net(ms + [m], pid)
    {
      IncUpsertTotal(inv, ByProduct(ObjectId(h)), ObjectId(h), delta, NewStock(stockId, h, delta), pid);
      NetAfterAppend(ms, m, pid);
    }
  }

  /** The error `_format_movement` raises for a movement without an id. */
  const MissingIdError := "Error formatting movement: Movement must have an ID"

  /** `_format_movement`: a copy whose `_id` becomes a string `id` and whose
      productId becomes a string; a movement with neither `_id` nor `id` is
      an error. */
  function FormatMovement(m: Movement): (r: Result<Movement>)
    ensures r.Ok? <==> m.oid.Some? || m.id.Some?
    ensures r.Err? ==> r.error == MissingIdError
    ensures r.Ok? ==> r.value.oid.None? && r.value.id.Some? && r.value.productId.Text?
    ensures r.Ok? ==> r.value.id == (if m.oid.Some? then Some(Text(m.oid.value)) else m.id)
    ensures r.Ok? ==> r.value.productId == Text(Str(m.productId))
    ensures r.Ok? ==> r.value.(oid := m.oid, id := m.id, productId := m.productId) == m
  {
    if m.oid.None? && m.id.None? then Err(MissingIdError)
    else
      var id := if m.oid.Some? then Some(Text(m.oid.value)) else m.id;
      Ok(m.(oid := None, id := id, productId := Text(Str(m.productId))))
  }

  /** Formatting an already formatted movement changes nothing. */
  lemma FormatIdempotent(m: Movement)
    requires FormatMovement(m).Ok?
    ensures FormatMovement(FormatMovement(m).value) == FormatMovement(m)
  {
  }

  /** The list comprehension over `_format_movement`: the first movement that
      cannot be formatted fails the whole list. */
  function FormatAll(ms: seq<Movement>): (r: Result<seq<Movement>>)
    ensures r.Ok? <==> forall i :: 0 <= i < |ms| ==> FormatMovement(ms[i]).Ok?
    ensures r.Ok? ==> |r.value| == |ms| && forall i :: 0 <= i < |ms| ==> Ok(r.value[i]) == FormatMovement(ms[i])
    ensures r.Err? ==> r.error == MissingIdError
    decreases |ms|
  {
    if |ms| == 0 then Ok([])
    else match FormatMovement(ms[0])
      case Err(e) => Err(e)
      case Ok(x) =>
        match FormatAll(ms[1..])
        case Err(e) => Err(e)
        case Ok(rest) =>
          assert forall i :: 1 <= i < |ms| ==> ms[i] == ms[1..][i - 1];
          Ok([x] + rest)
  }

  /** out is the formatted form of exactly the movements of ms that satisfy p. */
  ghost predicate FormatsExactly(ms: seq<Movement>, p: Movement -> bool, out: seq<Movement>) {
    && (forall m :: m in ms && p(m) ==> FormatMovement(m).Ok? && FormatMovement(m).value in out)
    && (forall x :: x in out ==> exists m :: m in ms && p(m) && FormatMovement(m) == Ok(x))
  }

  /** Formatting a filtered ledger yields exactly the matching movements,
      formatted; it succeeds whenever every movement carries an `_id`. */
  lemma FormatFiltered(ms: seq<Movement>, p: Movement -> bool)
    ensures FormatAll(Filter(ms, p)).Ok? ==> FormatsExactly(ms, p, FormatAll(Filter(ms, p)).value)
    ensures (forall i :: 0 <= i < |ms| ==> ms[i].oid.Some?) ==> FormatAll(Filter(ms, p)).Ok?
  {
    var kept := Filter(ms, p);
    var r := FormatAll(kept);
    if r.Ok? {
      forall m | m in ms && p(m)
        ensures FormatMovement(m).Ok? && FormatMovement(m).value in r.value
      {
        assert m in kept;
        var i :| 0 <= i < |kept| && kept[i] == m;
        assert Ok(r.value[i]) == FormatMovement(m);
      }
      forall x | x in r.value
        ensures exists m :: m in ms && p(m) && FormatMovement(m) == Ok(x)
      {
        var i :| 0 <= i < |r.value| && r.value[i] == x;
        assert kept[i] in kept;
      }
    }
    if forall i :: 0 <= i < |ms| ==> ms[i].oid.Some? {
      forall i | 0 <= i < |kept| ensures FormatMovement(kept[i]).Ok? {
        assert kept[i] in kept;
      }
    }
  }

  /** The filter `{"productId": pid}`. */
  function OfProduct(pid: Value): Movement -> bool {
    (m: Movement) => m.productId == pid
  }

  /** The filter `{"date": {"$gte": start, "$lte": end}}`: a movement without a
      `date` field never matches. */
  function InDateRange(start: int, end: int): Movement -> bool {
    (m: Movement) => m.date.Some? && start <= m.date.value <= end
  }

  /** The filter `{"type": t}`. */
  function OfType(t: string): Movement -> bool {
    (m: Movement) => m.mtype.Name() == t
  }

  class MovementService {
    const db: Database

    constructor (db: Database)
      ensures this.db == db
    {
      this.db := db;
    }

    /** `create_movement`: checks the request field by field in the source's
        order, then appends the movement to the ledger and applies its signed
        quantity to the product's first stock record, creating one when the
        product has none. Every error leaves the store as it was. */
    method CreateMovement(req: MovementRequest, movementId: string, stockId: string) returns (r: Result<string>)
      modifies db
      ensures db.products == old(db.products)
      ensures old(db.Valid()) ==> db.Valid()
      ensures req.productId.None? ==> r == Err("productId is required")
      ensures req.productId.Some? && req.mtype.None? ==> r == Err("type is required")
      ensures req.productId.Some? && req.mtype.Some? && req.quantity.None? ==> r == Err("quantity is required")
      ensures req.Complete() ==>
        if req.productId.value.Null? then r == Err("Product not found")
        else match ParseObjectId(req.productId.value)
        case None => r == Err("Invalid product ID format")
        case Some(h) =>
          if FirstMatch(old(db.products), WithId(h)).None? then r == Err("Product not found")
          else match MovementTypeOf(req.mtype.value)
            case None => r == Err("Invalid movement type. Must be 'IN' or 'OUT'")
            case Some(t) =>
              if req.quantity.value <= 0 then r == Err("Quantity must be positive")
              else if t == Out && FirstQuantity(old(db.inventory), ByProduct(ObjectId(h))) < req.quantity.value
              then r == Err("Insufficient stock")
              else
                && r == Ok(movementId)
                && db.movements == old(db.movements) + [Recorded(req, h, t, movementId)]
                && db.inventory == Applied(old(db.inventory), h, Delta(t, req.quantity.value), stockId)
      ensures r.Err? ==> db.inventory == old(db.inventory) && db.movements == old(db.movements)
    {
      if req.productId.None? {
        return Err("productId is required");
      }
      if req.mtype.None? {
        return Err("type is required");
      }
      if req.quantity.None? {
        return Err("quantity is required");
      }
      if req.productId.value.Null? {
        // ObjectId(None) is a freshly generated id, which no stored product has
        return Err("Product not found");
      }
      var parsed := ParseObjectId(req.productId.value);
      if parsed.None? {
        return Err("Invalid product ID format");
      }
      var h := parsed.value;
      if FirstMatch(db.products, WithId(h)).None? {
        return Err("Product not found");
      }
      var t := MovementTypeOf(req.mtype.value);
      if t.None? {
        return Err("Invalid movement type. Must be 'IN' or 'OUT'");
      }
      var q := req.quantity.value;
      if q <= 0 {
        return Err("Quantity must be positive");
      }
      if t.value == Out && FirstQuantity(db.inventory, ByProduct(ObjectId(h))) < q {
        return Err("Insufficient stock");
      }
      db.AppendMovement(Recorded(req, h, t.value, movementId));
      db.IncStockUpsert(ByProduct(ObjectId(h)), Delta(t.value, q), NewStock(stockId, h, Delta(t.value, q)));
      r := Ok(movementId);
    }

    /** `get_movement_by_id`: the formatted movement whose `_id` is the given
        id. */
    function GetMovementById(movementId: string): (r: Result<Movement>)
      reads db
      ensures !ValidId(movementId) ==> r == Err("Invalid movement ID format")
      ensures r.Ok? <==> ValidId(movementId) && exists i :: 0 <= i < |db.movements| && db.movements[i].oid == Some(movementId)
      ensures r.Err? && ValidId(movementId) ==> r == Err("Movement not found")
      ensures r.Ok? ==> r.value.id == Some(Text(movementId)) && r.value.oid.None?
      ensures r.Ok? ==> exists i :: 0 <= i < |db.movements| && db.movements[i].oid == Some(movementId)
                                 && r == FormatMovement(db.movements[i])
    {
      if !ValidId(movementId) then Err("Invalid movement ID format")
      else
        var found := FirstMatch(db.movements, (m: Movement) => m.oid == Some(movementId));
        FirstMatchIsFirst(db.movements, (m: Movement) => m.oid == Some(movementId));
        if found.None? then Err("Movement not found")
        else FormatMovement(db.movements[found.value])
    }

    /** `get_movements_by_product`: every movement of the product, formatted. */
    function GetMovementsByProduct(productId: string): (r: Result<seq<Movement>>)
      reads db
      ensures !ValidId(productId) ==> r == Err("Invalid product ID format")
      ensures ValidId(productId) && db.Valid() ==> r.Ok?
      ensures r.Ok? ==> FormatsExactly(db.movements, OfProduct(ObjectId(productId)), r.value)
      ensures r.Ok? ==>
        var kept := Filter(db.movements, OfProduct(ObjectId(productId)));
        |r.value| == |kept| && forall i :: 0 <= i < |kept| ==> Ok(r.value[i]) == FormatMovement(kept[i])
      ensures r.Ok? ==> forall x :: x in r.value ==> x.productId == Text(productId)
    {
      if !ValidId(productId) then Err("Invalid product ID format")
      else
        FormatFiltered(db.movements, OfProduct(ObjectId(productId)));
        FormatAll(Filter(db.movements, OfProduct(ObjectId(productId))))
    }

    /** `get_movements_by_date_range`: every movement whose `date` lies in
        [start, end], formatted; a formatting error is reported wrapped. */
    function GetMovementsByDateRange(start: int, end: int): (r: Result<seq<Movement>>)
      reads db
      ensures db.Valid() ==> r.Ok?
      ensures r.Ok? ==> FormatsExactly(db.movements, InDateRange(start, end), r.value)
      ensures r.Ok? ==>
        var kept := Filter(db.movements, InDateRange(start, end));
        |r.value| == |kept| && forall i :: 0 <= i < |kept| ==> Ok(r.value[i]) == FormatMovement(kept[i])
      ensures r.Err? ==> r.error == "Error retrieving movements: " + MissingIdError
    {
      FormatFiltered(db.movements, InDateRange(start, end));
      match FormatAll(Filter(db.movements, InDateRange(start, end)))
      case Ok(out) => Ok(out)
      case Err(e) => Err("Error retrieving movements: " + e)
    }

    /** `get_movements_by_type`: every movement of type IN, or every movement
        of type OUT, formatted; TRANSFER is not a type it accepts. */
    function GetMovementsByType(movementType: string): (r: Result<seq<Movement>>)
      reads db
      ensures movementType != "IN" && movementType != "OUT" ==> r == Err("Invalid movement type. Must be 'IN' or 'OUT'")
      ensures (movementType == "IN" || movementType == "OUT") && db.Valid() ==> r.Ok?
      ensures r.Ok? ==> FormatsExactly(db.movements, OfType(movementType), r.value)
      ensures r.Ok? ==>
        var kept := Filter(db.movements, OfType(movementType));
        |r.value| == |kept| && forall i :: 0 <= i < |kept| ==> Ok(r.value[i]) == FormatMovement(kept[i])
      ensures r.Ok? ==> forall x :: x in r.value ==> x.mtype.Name() == movementType
    {
      if movementType != "IN" && movementType != "OUT" then Err("Invalid movement type. Must be 'IN' or 'OUT'")
      else
        FormatFiltered(db.movements, OfType(movementType));
        FormatAll(Filter(db.movements, OfType(movementType)))
    }
  }
}
