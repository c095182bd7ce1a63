/**
 * The document store that stands in for the MongoDB database
 * `inventory_management`: the values kept in documents, the three collections
 * (products, inventory, movements), and what the store operations the
 * application calls do to them: `find_one` and `update_one` pick the FIRST
 * document that matches a filter, `find` keeps every match in store order,
 * `$inc` / `$set` with `upsert=True` append a new document when nothing matches.
 *
 * The store enforces no uniqueness of its own beyond what these functions say:
 * SKU uniqueness and "one record per (product, store)" have to come from the
 * checks the application makes before it writes.
 */
module Documents {

  datatype Option<+T> = None | Some(value: T)

  /** What a service call returns, or the message of the ValueError it raises. */
  datatype Result<+T> = Ok(value: T) | Err(error: string)

  /** A field value of a stored or requested document. Floats (prices, unit
      prices) and any other value the model does not interpret are kept as
      their printed form in Opaque. */
  datatype Value =
    | Null
    | Text(s: string)
    | Number(n: int)
    | ObjectId(hex: string)
    | Opaque(repr: string)

  type Fields = map<string, Value>

  function DigitChar(d: nat): char
    requires d < 10
  {
    "0123456789"[d]
  }

  function NatToDecimal(n: nat): string
    decreases n
  {
    if n < 10 then [DigitChar(n)] else NatToDecimal(n / 10) + [DigitChar(n % 10)]
  }

  /** Python's str() of a value. */
  function Str(v: Value): string {
    match v
    case Null => "None"
    case Text(s) => s
    case Number(n) => if n < 0 then "-" + NatToDecimal(-n) else NatToDecimal(n)
    case ObjectId(h) => h
    case Opaque(r) => r
  }

  predicate IsHexDigit(c: char) {
    '0' <= c <= '9' || 'a' <= c <= 'f' || 'A' <= c <= 'F'
  }

  /** bson's ObjectId(s) accepts a string iff it is 24 hexadecimal digits;
      anything else raises InvalidId. */
  predicate ValidId(s: string) {
    |s| == 24 && forall i :: 0 <= i < |s| ==> IsHexDigit(s[i])
  }

  /** The text of the InvalidId bson raises for a string that is not 24 hex digits. */
  function InvalidIdDetail(s: string): string {
    "'" + s + "' is not a valid ObjectId, it must be a 12-byte input or a 24-character hex string"
  }

  /** The value an equality filter `{k: v}` compares with v: a missing field
      reads as null. */
  function FieldOr(d: Fields, k: string): Value {
    if k in d then d[k] else Null
  }

  // ---------------------------------------------------------------------------
  // Queries shared by every collection

  /** The index of the first element satisfying p: the document `find_one` and
      `update_one` select. */
  function FirstMatch<T>(s: seq<T>, p: T -> bool): (r: Option<nat>)
    ensures r.Some? ==> r.value < |s| && p(s[r.value])
    decreases |s|
  {
    if |s| == 0 then None
    else if p(s[0]) then Some(0)
    else match FirstMatch(s[1..], p)
      case None => None
      case Some(k) => Some(k + 1)
  }

  /** FirstMatch finds the FIRST match, and finds nothing only when nothing
      matches. */
  lemma {:induction false} FirstMatchIsFirst<T>(s: seq<T>, p: T -> bool)
    ensures FirstMatch(s, p).Some? ==> forall j :: 0 <= j < FirstMatch(s, p).value ==> !p(s[j])
    ensures FirstMatch(s, p).None? <==> forall j :: 0 <= j < |s| ==> !p(s[j])
    decreases |s|
  {
    if |s| > 0 && !p(s[0]) {
      FirstMatchIsFirst(s[1..], p);
      assert forall j :: 1 <= j < |s| ==> s[j] == s[1..][j - 1];
    }
  }

  /** The elements satisfying p, in store order: what `find(filter)` returns. */
  function Filter<T(!new)>(s: seq<T>, p: T -> bool): (r: seq<T>)
    ensures |r| <= |s|
    ensures forall x :: x in r <==> x in s && p(x)
    ensures forall x :: multiset(r)[x] == if p(x) then multiset(s)[x] else 0
    decreases |s|
  {
    if |s| == 0 then []
    else
      var rest := Filter(s[..|s| - 1], p);
      assert s == s[..|s| - 1] + [s[|s| - 1]];
      if p(s[|s| - 1]) then rest + [s[|s| - 1]] else rest
  }

  /** FirstMatch depends only on which positions satisfy p. */
  lemma {:induction false} FirstMatchStable<T>(s: seq<T>, t: seq<T>, p: T -> bool)
    requires |s| == |t|
    requires forall k :: 0 <= k < |s| ==> p(s[k]) == p(t[k])
    ensures FirstMatch(s, p) == FirstMatch(t, p)
    decreases |s|
  {
    if |s| > 0 && !p(s[0]) {
      FirstMatchStable(s[1..], t[1..], p);
    }
  }

  // ---------------------------------------------------------------------------
  // the fields of a request document

  /** r keeps some of the elements of s, in the order s has them. */
  ghost predicate Subsequence(r: seq<string>, s: seq<string>)
    decreases |s|
  {
    if r == [] then true
    else if s == [] then false
    else if r[0] == s[0] then Subsequence(r[1..], s[1..])
    else Subsequence(r, s[1..])
  }

  /** The required fields that the request does not have, in required-list order. */
  function MissingFields(present: set<string>, required: seq<string>): (r: seq<string>)
    ensures forall f :: f in r <==> f in required && f !in present
    ensures Subsequence(r, required)
    decreases |required|
  {
    if required == [] then []
    else if required[0] in present then MissingFields(present, required[1..])
    else [required[0]] + MissingFields(present, required[1..])
  }

  /** The first missing field is the first required field the request lacks:
      every field before it is present. */
  lemma {:induction false} MissingFieldsHead(present: set<string>, required: seq<string>)
    requires MissingFields(present, required) != []
    ensures exists k :: 0 <= k < |required| && required[k] == MissingFields(present, required)[0]
                        && required[k] !in present && forall j :: 0 <= j < k ==> required[j] in present
    decreases |required|
  {
    if required[0] in present {
      MissingFieldsHead(present, required[1..]);
      var k :| 0 <= k < |required[1..]| && required[1..][k] == MissingFields(present, required[1..])[0]
               && required[1..][k] !in present && forall j :: 0 <= j < k ==> required[1..][j] in present;
      assert forall j :: 1 <= j < k + 1 ==> required[j] == required[1..][j - 1];
      assert required[k + 1] == required[1..][k];
    } else {
      assert required[0] == MissingFields(present, required)[0];
    }
  }

  /** `", ".join(parts)`. */
  function Join(parts: seq<string>, sep: string): string
    decreases |parts|
  {
    if |parts| == 0 then ""
    else if |parts| == 1 then parts[0]
    else parts[0] + sep + Join(parts[1..], sep)
  }

  // ---------------------------------------------------------------------------
  // products: free-form documents identified by an ObjectId `_id`

  /** The fields every product must have, in the order both layers check them. */
  const ProductFields: seq<string> := ["name", "description", "category", "price", "sku"]

  type ProductDoc = Fields

  /** The filter `{"_id": ObjectId(id)}`. */
  function WithId(id: string): ProductDoc -> bool {
    (d: ProductDoc) => FieldOr(d, "_id") == ObjectId(id)
  }

  /** The filter `{"sku": v}`. */
  function WithSku(v: Value): ProductDoc -> bool {
    (d: ProductDoc) => FieldOr(d, "sku") == v
  }

  function Sku(d: ProductDoc): Value {
    FieldOr(d, "sku")
  }

  /** No two products hold the same SKU. */
  ghost predicate SkusUnique(ps: seq<ProductDoc>) {
    forall i, j :: 0 <= i < j < |ps| ==> Sku(ps[i]) != Sku(ps[j])
  }

  /** No two products hold the same `_id` (MongoDB's own `_id` index). */
  ghost predicate IdsUnique(ps: seq<ProductDoc>) {
    forall i, j :: 0 <= i < j < |ps| ==> FieldOr(ps[i], "_id") != FieldOr(ps[j], "_id")
  }

  /** Some product holds SKU v. */
  ghost predicate SkuTaken(ps: seq<ProductDoc>, v: Value) {
    exists i :: 0 <= i < |ps| && Sku(ps[i]) == v
  }

  /** Some product has `_id` ObjectId(id). */
  ghost predicate IdTaken(ps: seq<ProductDoc>, id: string) {
    exists i :: 0 <= i < |ps| && FieldOr(ps[i], "_id") == ObjectId(id)
  }

  /** The filter `{"sku": v, "_id": {"$ne": ObjectId(id)}}`: another product holding v. */
  function SkuHeldByOther(v: Value, id: string): ProductDoc -> bool {
    (d: ProductDoc) => FieldOr(d, "sku") == v && FieldOr(d, "_id") != ObjectId(id)
  }

  /** Appending a product whose SKU no product holds keeps SKUs unique. */
  lemma AppendKeepsSkusUnique(ps: seq<ProductDoc>, d: ProductDoc)
    requires SkusUnique(ps)
    requires forall i :: 0 <= i < |ps| ==> Sku(ps[i]) != Sku(d)
    ensures SkusUnique(ps + [d])
  {
  }

  /** Appending a product whose `_id` no product holds keeps ids unique. */
  lemma AppendKeepsIdsUnique(ps: seq<ProductDoc>, d: ProductDoc)
    requires IdsUnique(ps)
    requires forall i :: 0 <= i < |ps| ==> FieldOr(ps[i], "_id") != FieldOr(d, "_id")
    ensures IdsUnique(ps + [d])
  {
  }

  /** Replacing product i by a document with the same `_id` whose SKU no other
      product holds keeps SKUs and ids unique. */
  lemma ReplaceKeepsUnique(ps: seq<ProductDoc>, i: nat, d: ProductDoc)
    requires i < |ps|
    requires SkusUnique(ps) && IdsUnique(ps)
    requires FieldOr(d, "_id") == FieldOr(ps[i], "_id")
    requires forall j :: 0 <= j < |ps| && j != i ==> Sku(ps[j]) != Sku(d)
    ensures SkusUnique(ps[i := d]) && IdsUnique(ps[i := d])
  {
  }

  /** A `$set` of u on product i (whose `_id` is ObjectId(id)) that keeps its
      `_id` and sets no SKU another product holds keeps SKUs and ids unique. */
  lemma SetKeepsUnique(ps: seq<ProductDoc>, i: nat, u: Fields, id: string)
    requires i < |ps| && FieldOr(ps[i], "_id") == ObjectId(id)
    requires FieldOr(ps[i] + u, "_id") == FieldOr(ps[i], "_id")
    requires "sku" in u ==> forall j :: 0 <= j < |ps| ==> !SkuHeldByOther(u["sku"], id)(ps[j])
    ensures SkusUnique(ps) && IdsUnique(ps) ==> SkusUnique(ps[i := ps[i] + u]) && IdsUnique(ps[i := ps[i] + u])
  {
    var updated := ps[i] + u;
    if IdsUnique(ps) && SkusUnique(ps) {
      forall j | 0 <= j < |ps| && j != i ensures Sku(ps[j]) != Sku(updated) {
        if "sku" in u {
          assert FieldOr(ps[j], "_id") != ObjectId(id);
          assert !SkuHeldByOther(u["sku"], id)(ps[j]);
        } else if j < i {
          assert Sku(ps[j]) != Sku(ps[i]);
        } else {
          assert Sku(ps[i]) != Sku(ps[j]);
        }
      }
      ReplaceKeepsUnique(ps, i, updated);
    }
  }

  /** The write both layers' create_product end with: `find_one({"sku": ...})`
      and, when no product holds the SKU, `insert_one` of the request under
      the `_id` the store generates. */
  method InsertIfSkuFree(db: Database, data: ProductDoc, newId: string) returns (inserted: bool)
    requires "sku" in data
    modifies db
    ensures db.inventory == old(db.inventory) && db.movements == old(db.movements)
    ensures old(db.Valid()) ==> db.Valid()
    ensures inserted <==> !SkuTaken(old(db.products), data["sku"])
    ensures inserted ==> db.products == old(db.products) + [data["_id" := ObjectId(newId)]]
    ensures !inserted ==> db.products == old(db.products)
    ensures SkusUnique(old(db.products)) ==> SkusUnique(db.products)
    ensures IdsUnique(old(db.products)) && !IdTaken(old(db.products), newId) ==> IdsUnique(db.products)
  {
    FirstMatchIsFirst(db.products, WithSku(data["sku"]));
    if FirstMatch(db.products, WithSku(data["sku"])).Some? {
      return false;
    }
    ghost var ps := db.products;
    var product := data["_id" := ObjectId(newId)];
    assert Sku(product) == data["sku"];
    if SkusUnique(ps) {
      AppendKeepsSkusUnique(ps, product);
    }
    if IdsUnique(ps) && !IdTaken(ps, newId) {
      AppendKeepsIdsUnique(ps, product);
    }
    db.InsertProduct(product);
    inserted := true;
  }

  /** `doc["id"] = str(doc.pop("_id"))`: the shape every product read returns. */
  function Relabel(d: Fields): (r: Fields)
    requires "_id" in d
    ensures "_id" !in r && "id" in r && r["id"] == Text(Str(d["_id"]))
    ensures r.Keys == d.Keys - {"_id"} + {"id"}
    ensures forall k :: k in d && k != "_id" && k != "id" ==> r[k] == d[k]
  {
    (d - {"_id"})["id" := Text(Str(d["_id"]))]
  }

  // ---------------------------------------------------------------------------
  // inventory: one stock record per document

  /** An inventory document. `storeId` and `minStock` are None when the field is
      absent: the services create records keyed by product alone. */
  datatype StockRecord = StockRecord(
    oid: string,
    productId: Value,
    storeId: Option<string>,
    quantity: int,
    minStock: Option<int>)

  /** The filter `{"productId": pid, "storeId": store}` of the API. */
  function ByPair(pid: Value, store: Option<string>): StockRecord -> bool {
    (r: StockRecord) => r.productId == pid && r.storeId == store
  }

  /** The filter `{"productId": pid}` of the services. */
  function ByProduct(pid: Value): StockRecord -> bool {
    (r: StockRecord) => r.productId == pid
  }

  /** At most one record per (productId, storeId). */
  ghost predicate OnePerPair(inv: seq<StockRecord>) {
    forall i, j :: 0 <= i < j < |inv| ==>
      !(inv[i].productId == inv[j].productId && inv[i].storeId == inv[j].storeId)
  }

  /** No record holds a negative quantity. */
  ghost predicate NonNegative(inv: seq<StockRecord>) {
    forall i :: 0 <= i < |inv| ==> inv[i].quantity >= 0
  }

  /** The quantity of the record `find_one(filter)` returns, 0 when none matches. */
  function FirstQuantity(inv: seq<StockRecord>, p: StockRecord -> bool): int {
    match FirstMatch(inv, p)
    case None => 0
    case Some(i) => inv[i].quantity
  }

  function Contribution(r: StockRecord, pid: Value): int {
    if r.productId == pid then r.quantity else 0
  }

  /** The stock of one product summed over every store. */
  function TotalQuantity(inv: seq<StockRecord>, pid: Value): int
    decreases |inv|
  {
    if |inv| == 0 then 0
    else TotalQuantity(inv[..|inv| - 1], pid) + Contribution(inv[|inv| - 1], pid)
  }

  /** Replacing one record changes a product's total by the difference of the
      two records' shares of it. */
  lemma {:induction false} TotalAfterReplace(inv: seq<StockRecord>, i: nat, r: StockRecord, pid: Value)
    requires i < |inv|
    ensures TotalQuantity(inv[i := r], pid)
         == TotalQuantity(inv, pid) - Contribution(inv[i], pid) + Contribution(r, pid)
    decreases |inv|
  {
    var n := |inv| - 1;
    if i < n {
      TotalAfterReplace(inv[..n], i, r, pid);
      assert inv[i := r][..n] == inv[..n][i := r];
    } else {
      assert inv[i := r][..n] == inv[..n];
    }
  }

  /** Appending a record adds its share to the total. */
  lemma TotalAfterAppend(inv: seq<StockRecord>, r: StockRecord, pid: Value)
    ensures TotalQuantity(inv + [r], pid) == TotalQuantity(inv, pid) + Contribution(r, pid)
  {
    assert (inv + [r])[..|inv|] == inv;
  }

  /** `update_one(filter, {"$inc": {"quantity": delta}})` without upsert. */
  function IncFirst(inv: seq<StockRecord>, p: StockRecord -> bool, delta: int): seq<StockRecord> {
    match FirstMatch(inv, p)
    case None => inv
    case Some(i) => inv[i := inv[i].(quantity := inv[i].quantity + delta)]
  }

  /** `update_one(filter, {"$inc": {"quantity": delta}, "$setOnInsert": ...}, upsert=True)`:
      `inserted` is the document an upsert creates (the filter's fields, the
      `$setOnInsert` fields and quantity = delta). */
  function IncUpsert(inv: seq<StockRecord>, p: StockRecord -> bool, delta: int, inserted: StockRecord): seq<StockRecord> {
    if FirstMatch(inv, p).None? then inv + [inserted] else IncFirst(inv, p, delta)
  }

  /** `update_one(filter, {"$set": {"quantity": q}, "$setOnInsert": ...}, upsert=True)`. */
  function SetUpsert(inv: seq<StockRecord>, p: StockRecord -> bool, q: int, inserted: StockRecord): seq<StockRecord> {
    match FirstMatch(inv, p)
    case None => inv + [inserted]
    case Some(i) => inv[i := inv[i].(quantity := q)]
  }

  /** A filter that looks only at a record's key fields, never at its quantity
      (every filter the code passes to update_one is one). */
  ghost predicate KeyFilter(p: StockRecord -> bool) {
    forall r: StockRecord, n: int :: p(r) == p(r.(quantity := n))
  }

  /** No record satisfies both filters. */
  ghost predicate Disjoint(p: StockRecord -> bool, o: StockRecord -> bool) {
    forall r: StockRecord :: !(p(r) && o(r))
  }

  /** Every record the filter selects belongs to product pid. */
  ghost predicate OwnedBy(p: StockRecord -> bool, pid: Value) {
    forall r: StockRecord :: p(r) ==> r.productId == pid
  }

  /** The filters by (product, store) and by product are key filters owned by
      their product. */
  lemma KeyFiltersIgnoreQuantity(pid: Value, store: Option<string>)
    ensures KeyFilter(ByPair(pid, store)) && OwnedBy(ByPair(pid, store), pid)
    ensures KeyFilter(ByProduct(pid)) && OwnedBy(ByProduct(pid), pid)
  {
  }

  /** Filters by two different (product, store) pairs select no common record. */
  lemma PairsDisjoint(pid: Value, store: Option<string>, p2: Value, s2: Option<string>)
    requires (p2, s2) != (pid, store)
    ensures Disjoint(ByPair(pid, store), ByPair(p2, s2))
  {
  }

  /** A `$inc` on the first record a filter owned by pid selects changes pid's
      total by delta when such a record exists, and no other product's total. */
  lemma IncFirstTotal(inv: seq<StockRecord>, p: StockRecord -> bool, pid: Value, delta: int, q: Value)
    requires OwnedBy(p, pid)
    ensures TotalQuantity(IncFirst(inv, p, delta), q)
         == TotalQuantity(inv, q) + (if q == pid && FirstMatch(inv, p).Some? then delta else 0)
  {
    match FirstMatch(inv, p)
    case None =>
    case Some(i) =>
      assert inv[i].productId == pid;
      TotalAfterReplace(inv, i, inv[i].(quantity := inv[i].quantity + delta), q);
  }

  /** A `$inc` upsert through a filter owned by pid adds delta to pid's total
      whether it updates or inserts (the inserted record belongs to pid and
      holds delta). */
  lemma IncUpsertTotal(inv: seq<StockRecord>, p: StockRecord -> bool, pid: Value, delta: int,
                       inserted: StockRecord, q: Value)
    requires OwnedBy(p, pid)
    requires inserted.productId == pid && inserted.quantity == delta
    ensures TotalQuantity(IncUpsert(inv, p, delta, inserted), q)
         == TotalQuantity(inv, q) + (if q == pid then delta else 0)
  {
    if FirstMatch(inv, p).None? {
      TotalAfterAppend(inv, inserted, q);
    } else {
      IncFirstTotal(inv, p, pid, delta, q);
    }
  }

  /** Taking delta from the first record p selects and adding it through an
      upsert on o, both filters owned by pid, leaves every product's total as
      it was. */
  lemma MoveKeepsTotal(inv: seq<StockRecord>, p: StockRecord -> bool, o: StockRecord -> bool, pid: Value,
                       delta: int, inserted: StockRecord, q: Value)
    requires OwnedBy(p, pid) && OwnedBy(o, pid)
    requires FirstMatch(inv, p).Some?
    requires inserted.productId == pid && inserted.quantity == delta
    ensures TotalQuantity(IncUpsert(IncFirst(inv, p, -delta), o, delta, inserted), q) == TotalQuantity(inv, q)
  {
    var mid := IncFirst(inv, p, -delta);
    IncFirstTotal(inv, p, pid, -delta, q);
    assert TotalQuantity(mid, q) == TotalQuantity(inv, q) - (if q == pid then delta else 0);
    IncUpsertTotal(mid, o, pid, delta, inserted, q);
  }

  /** An update that only changes quantities leaves every record's key alone,
      so find_one by any key filter still picks the same position. */
  lemma QuantityUpdateKeepsMatches(inv: seq<StockRecord>, i: nat, q: int, p: StockRecord -> bool)
    requires i < |inv|
    requires KeyFilter(p)
    ensures FirstMatch(inv[i := inv[i].(quantity := q)], p) == FirstMatch(inv, p)
  {
    var t := inv[i := inv[i].(quantity := q)];
    forall k | 0 <= k < |inv| ensures p(inv[k]) == p(t[k]) {
      if k == i {
        assert p(inv[i]) == p(inv[i].(quantity := q));
      }
    }
    FirstMatchStable(inv, t, p);
  }

  /** find_one over s + [x] finds what it finds in s, else x if x matches. */
  lemma {:induction false} FirstMatchAppend<T>(s: seq<T>, x: T, p: T -> bool)
    ensures FirstMatch(s + [x], p)
         == if FirstMatch(s, p).Some? then FirstMatch(s, p) else if p(x) then Some(|s|) else None
    decreases |s|
  {
    if |s| > 0 {
      assert (s + [x])[0] == s[0];
      assert (s + [x])[1..] == s[1..] + [x];
      FirstMatchAppend(s[1..], x, p);
    }
  }

  /** A `$set` upsert through key filter p makes find_one(p) read q, and
      leaves the quantity read through any disjoint key filter alone. */
  lemma SetUpsertQuantity(inv: seq<StockRecord>, p: StockRecord -> bool, o: StockRecord -> bool,
                          q: int, inserted: StockRecord)
    requires KeyFilter(p) && KeyFilter(o)
    requires p(inserted) && inserted.quantity == q
    ensures FirstMatch(SetUpsert(inv, p, q, inserted), p).Some?
    ensures FirstQuantity(SetUpsert(inv, p, q, inserted), p) == q
    ensures Disjoint(p, o) ==> FirstQuantity(SetUpsert(inv, p, q, inserted), o) == FirstQuantity(inv, o)
  {
    match FirstMatch(inv, p)
    case None =>
      FirstMatchAppend(inv, inserted, p);
      FirstMatchAppend(inv, inserted, o);
      if Disjoint(p, o) {
        assert !(p(inserted) && o(inserted));
      }
    case Some(i) =>
      var t := inv[i := inv[i].(quantity := q)];
      QuantityUpdateKeepsMatches(inv, i, q, p);
      QuantityUpdateKeepsMatches(inv, i, q, o);
      match FirstMatch(inv, o)
      case None =>
      case Some(j) =>
        if Disjoint(p, o) {
          assert !(p(inv[i]) && o(inv[i]));
          assert t[j] == inv[j];
        }
  }

  /** A `$set` upsert applied twice leaves the store as one does. */
  lemma SetUpsertIdempotent(inv: seq<StockRecord>, p: StockRecord -> bool, q: int, inserted: StockRecord)
    requires KeyFilter(p)
    requires p(inserted) && inserted.quantity == q
    ensures SetUpsert(SetUpsert(inv, p, q, inserted), p, q, inserted) == SetUpsert(inv, p, q, inserted)
  {
    var once := SetUpsert(inv, p, q, inserted);
    match FirstMatch(inv, p)
    case None =>
      FirstMatchAppend(inv, inserted, p);
      assert once[|inv|] == inserted;
      assert once[|inv| := once[|inv|].(quantity := q)] == once;
    case Some(i) =>
      QuantityUpdateKeepsMatches(inv, i, q, p);
      assert once[i := once[i].(quantity := q)] == once;
  }

  /** A `$inc` changes one quantity and no key, so keys stay unique. */
  lemma IncFirstKeepsKeys(inv: seq<StockRecord>, p: StockRecord -> bool, delta: int)
    ensures OnePerPair(inv) ==> OnePerPair(IncFirst(inv, p, delta))
  {
    var t := IncFirst(inv, p, delta);
    assert |t| == |inv| && forall k :: 0 <= k < |inv| ==> t[k].productId == inv[k].productId && t[k].storeId == inv[k].storeId;
  }

  /** A `$inc` through key filter p adds delta to the quantity find_one(p)
      reads, when a record exists, and leaves the quantity read through any
      key filter disjoint from p alone. */
  lemma {:induction false} IncFirstQuantity(inv: seq<StockRecord>, p: StockRecord -> bool, o: StockRecord -> bool, delta: int)
    requires KeyFilter(p) && KeyFilter(o)
    ensures FirstQuantity(IncFirst(inv, p, delta), p)
         == FirstQuantity(inv, p) + (if FirstMatch(inv, p).Some? then delta else 0)
    ensures Disjoint(p, o) ==> FirstQuantity(IncFirst(inv, p, delta), o) == FirstQuantity(inv, o)
  {
    match FirstMatch(inv, p)
    case None =>
    case Some(i) =>
      var t := inv[i := inv[i].(quantity := inv[i].quantity + delta)];
      assert IncFirst(inv, p, delta) == t;
      QuantityUpdateKeepsMatches(inv, i, inv[i].quantity + delta, p);
      QuantityUpdateKeepsMatches(inv, i, inv[i].quantity + delta, o);
      match FirstMatch(inv, o)
      case None =>
      case Some(j) =>
        if Disjoint(p, o) {
          assert !(p(inv[i]) && o(inv[i]));
          assert j != i;
          assert t[j] == inv[j];
        }
  }

  /** A `$inc` upsert through key filter p adds delta to the quantity
      find_one(p) reads, inserting a record holding delta when none exists,
      and leaves the quantity read through any disjoint key filter alone. */
  lemma {:induction false} IncUpsertQuantity(inv: seq<StockRecord>, p: StockRecord -> bool, o: StockRecord -> bool,
                                            delta: int, inserted: StockRecord)
    requires KeyFilter(p) && KeyFilter(o)
    requires p(inserted) && inserted.quantity == delta
    ensures FirstQuantity(IncUpsert(inv, p, delta, inserted), p) == FirstQuantity(inv, p) + delta
    ensures Disjoint(p, o) ==> FirstQuantity(IncUpsert(inv, p, delta, inserted), o) == FirstQuantity(inv, o)
  {
    if FirstMatch(inv, p).None? {
      FirstMatchAppend(inv, inserted, p);
      FirstMatchAppend(inv, inserted, o);
      if Disjoint(p, o) {
        assert !(p(inserted) && o(inserted));
      }
    } else {
      IncFirstQuantity(inv, p, o, delta);
    }
  }

  // ---------------------------------------------------------------------------
  // movements: the ledger

  datatype MovementType = In | Out | Transfer {
    function Name(): string {
      match this
      case In => "IN"
      case Out => "OUT"
      case Transfer => "TRANSFER"
    }
  }

  /** A movements document. `oid` is the `_id` field and `id` the string `id`
      field a formatted movement carries instead; request fields the model
      does not interpret (reference, notes, unitPrice, ...) travel in metadata. */
  datatype Movement = Movement(
    oid: Option<string>,
    id: Option<Value>,
    productId: Value,
    mtype: MovementType,
    quantity: int,
    sourceStoreId: Option<string>,
    targetStoreId: Option<string>,
    timestamp: Option<int>,
    date: Option<int>,
    metadata: Fields)

  /** What movement m does to product pid's stock summed over every store:
      IN adds its quantity, OUT removes it, TRANSFER only moves stock between
      stores. */
  function Effect(m: Movement, pid: Value): int {
    if m.productId != pid then 0
    else match m.mtype
      case In => m.quantity
      case Out => -m.quantity
      case Transfer => 0
  }

  /** The net effect of a whole ledger on product pid. */
  function Net(ms: seq<Movement>, pid: Value): int
    decreases |ms|
  {
    if |ms| == 0 then 0 else Net(ms[..|ms| - 1], pid) + Effect(ms[|ms| - 1], pid)
  }

  lemma NetAfterAppend(ms: seq<Movement>, m: Movement, pid: Value)
    ensures Net(ms + [m], pid) == Net(ms, pid) + Effect(m, pid)
  {
    assert (ms + [m])[..|ms|] == ms;
  }

  /** The ledger explains the stock: every product's total over all stores is
      the net effect of its movements. */
  ghost predicate Balanced(inv: seq<StockRecord>, ms: seq<Movement>) {
    forall pid :: TotalQuantity(inv, pid) == Net(ms, pid)
  }

  // ---------------------------------------------------------------------------
  // the store itself

  class Database {
    var products: seq<ProductDoc>
    var inventory: seq<StockRecord>
    var movements: seq<Movement>

    /** Every stored product and movement carries the `_id` insert_one gave it. */
    ghost predicate Valid()
      reads this
    {
      && (forall i :: 0 <= i < |products| ==> "_id" in products[i] && products[i]["_id"].ObjectId?)
      && (forall i :: 0 <= i < |movements| ==> movements[i].oid.Some?)
    }

    constructor ()
      ensures Valid()
      ensures products == [] && inventory == [] && movements == []
    {
      products, inventory, movements := [], [], [];
    }

    /** `products.insert_one(d)`. */
    method InsertProduct(d: ProductDoc)
      modifies this
      ensures products == old(products) + [d]
      ensures inventory == old(inventory) && movements == old(movements)
      ensures old(Valid()) && "_id" in d && d["_id"].ObjectId? ==> Valid()
    {
      products := products + [d];
    }

    /** The document at position i after an `update_one` on products. */
    method ReplaceProduct(i: nat, d: ProductDoc)
      requires i < |products|
      modifies this
      ensures products == old(products)[i := d]
      ensures inventory == old(inventory) && movements == old(movements)
      ensures old(Valid()) && "_id" in d && d["_id"].ObjectId? ==> Valid()
    {
      products := products[i := d];
    }

    /** `products.delete_one` of the document at position i. */
    method RemoveProduct(i: nat)
      requires i < |products|
      modifies this
      ensures products == old(products)[..i] + old(products)[i + 1..]
      ensures inventory == old(inventory) && movements == old(movements)
      ensures old(Valid()) ==> Valid()
    {
      products := products[..i] + products[i + 1..];
    }

    /** `inventory.insert_one(r)`. */
    method InsertStock(r: StockRecord)
      modifies this
      ensures inventory == old(inventory) + [r]
      ensures products == old(products) && movements == old(movements)
      ensures old(Valid()) ==> Valid()
    {
      inventory := inventory + [r];
    }

    /** `inventory.update_one(p, {"$inc": {"quantity": delta}})`. */
    method IncStock(p: StockRecord -> bool, delta: int)
      modifies this
      ensures inventory == IncFirst(old(inventory), p, delta)
      ensures products == old(products) && movements == old(movements)
      ensures old(Valid()) ==> Valid()
    {
      inventory := IncFirst(inventory, p, delta);
    }

    /** `inventory.update_one(p, {"$inc": ..., "$setOnInsert": ...}, upsert=True)`. */
    method IncStockUpsert(p: StockRecord -> bool, delta: int, inserted: StockRecord)
      modifies this
      ensures inventory == IncUpsert(old(inventory), p, delta, inserted)
      ensures products == old(products) && movements == old(movements)
      ensures old(Valid()) ==> Valid()
    {
      inventory := IncUpsert(inventory, p, delta, inserted);
    }

    /** `inventory.update_one(p, {"$set": ..., "$setOnInsert": ...}, upsert=True)`. */
    method SetStockUpsert(p: StockRecord -> bool, q: int, inserted: StockRecord)
      modifies this
      ensures inventory == SetUpsert(old(inventory), p, q, inserted)
      ensures products == old(products) && movements == old(movements)
      ensures old(Valid()) ==> Valid()
    {
      inventory := SetUpsert(inventory, p, q, inserted);
    }

    /** `movements.insert_one(m)`: the ledger only ever grows at its end. */
    method AppendMovement(m: Movement)
      modifies this
      ensures movements == old(movements) + [m]
      ensures products == old(products) && inventory == old(inventory)
      ensures old(Valid()) && m.oid.Some? ==> Valid()
    {
      movements := movements + [m];
    }
  }
}
