/**
 * ProductService (services/product_service.py): the catalogue operations of
 * the service layer. Errors are the ValueError messages the service raises;
 * the exceptions bson and the server raise (a malformed id, an update that
 * would change `_id`) reach the caller prefixed with "Invalid product ID: ".
 */
module ProductService {
  import opened Documents

  const InvalidIdPrefix := "Invalid product ID: "

  /** The text of the server's error for a `$set` that changes `_id`. */
  const ImmutableIdDetail := "Performing an update on the path '_id' would modify the immutable field '_id'"

  // ---------------------------------------------------------------------------
  // create_product's field check

  /** The loop of create_product over the required fields: the first one the
      request lacks. */
  method FirstMissingField(data: Fields, required: seq<string>) returns (missing: Option<string>)
    ensures missing.None? <==> MissingFields(data.Keys, required) == []
    ensures missing.Some? ==> missing.value == MissingFields(data.Keys, required)[0]
  {
    for k := 0 to |required|
      invariant MissingFields(data.Keys, required) == MissingFields(data.Keys, required[k..])
    {
      assert required[k..][0] == required[k] && required[k..][1..] == required[k + 1..];
      if required[k] !in data {
        return Some(required[k]);
      }
    }
    assert required[|required|..] == [];
    missing := None;
  }

  // ---------------------------------------------------------------------------
  // update_product's effect

  /** A `$set` of u changes document d exactly when u holds a field that d
      lacks or holds with another value (what modified_count reports). */
  lemma SetChanges(d: Fields, u: Fields)
    ensures d + u != d <==> exists k :: k in u && (k !in d || d[k] != u[k])
  {
    if forall k :: k in u ==> k in d && d[k] == u[k] {
      assert (d + u).Keys == d.Keys;
      assert forall k :: k in d ==> (d + u)[k] == d[k];
    } else {
      var k :| k in u && (k !in d || d[k] != u[k]);
      assert k in d + u && (d + u)[k] == u[k];
    }
  }

  // ---------------------------------------------------------------------------
  // pagination and search

  /** `find().skip(skip).limit(limit)`: the products at positions
      [skip, skip + limit) in store order; a limit of 0 means no limit. */
  function Page(ps: seq<ProductDoc>, skip: nat, limit: nat): (r: seq<ProductDoc>)
    ensures |r| == if skip >= |ps| then 0 else if limit == 0 || skip + limit > |ps| then |ps| - skip else limit
    ensures forall i :: 0 <= i < |r| ==> r[i] == ps[skip + i]
  {
    var from := if skip < |ps| then skip else |ps|;
    var to := if limit == 0 || from + limit > |ps| then |ps| else from + limit;
    ps[from..to]
  }

  /** ASCII case folding, as a case-insensitive match applies it. */
  function Lower(c: char): char {
    if 'A' <= c <= 'Z' then (c as int - 'A' as int + 'a' as int) as char else c
  }

  function LowerAll(s: string): (r: string)
    ensures |r| == |s|
  {
    seq(|s|, i requires 0 <= i < |s| => Lower(s[i]))
  }

  /** Scans s for an occurrence of q. */
  function Contains(s: string, q: string): bool
    decreases |s|
  {
    if |q| <= |s| && s[..|q|] == q then true
    else if |s| == 0 then false
    else Contains(s[1..], q)
  }

  /** q occurs in s starting at position k. */
  ghost predicate OccursAt(q: string, s: string, k: int) {
    0 <= k && k + |q| <= |s| && s[k..k + |q|] == q
  }

  /** The scan finds q exactly when q occurs at some position of s. */
  lemma {:induction false} ContainsIsSubstring(s: string, q: string)
    ensures Contains(s, q) <==> exists k :: OccursAt(q, s, k)
    decreases |s|
  {
    if |q| <= |s| && s[..|q|] == q {
      assert OccursAt(q, s, 0);
    } else if |s| > 0 {
      ContainsIsSubstring(s[1..], q);
      if Contains(s[1..], q) {
        var k :| OccursAt(q, s[1..], k);
        assert s[k + 1..k + 1 + |q|] == s[1..][k..k + |q|];
        assert OccursAt(q, s, k + 1);
      }
      if exists k :: OccursAt(q, s, k) {
        var k :| OccursAt(q, s, k);
        assert k != 0;
        assert s[1..][k - 1..k - 1 + |q|] == s[k..k + |q|];
        assert OccursAt(q, s[1..], k - 1);
      }
    }
  }

  /** q occurs in s starting at position k when case is ignored. */
  ghost predicate OccursAtIgnoringCase(q: string, s: string, k: int) {
    0 <= k && k + |q| <= |s| && LowerAll(s[k..k + |q|]) == LowerAll(q)
  }

  /** q occurs in s when case is ignored. */
  ghost predicate OccursIgnoringCase(q: string, s: string) {
    exists k :: OccursAtIgnoringCase(q, s, k)
  }

  /** One field of the `$or`: `{f: {"$regex": q, "$options": "i"}}` for a
      query without regex metacharacters; a field that is absent or not a
      string never matches. */
  predicate FieldMatches(d: ProductDoc, f: string, q: string) {
    f in d && d[f].Text? && Contains(LowerAll(d[f].s), LowerAll(q))
  }

  /** The filter of search_products. */
  function SearchFilter(q: string): ProductDoc -> bool {
    (d: ProductDoc) => FieldMatches(d, "name", q) || FieldMatches(d, "description", q) || FieldMatches(d, "sku", q)
  }

  /** A field matches exactly when the query occurs in it ignoring case. */
  lemma FieldMatchesMeans(d: ProductDoc, f: string, q: string)
    ensures FieldMatches(d, f, q) <==> f in d && d[f].Text? && OccursIgnoringCase(q, d[f].s)
  {
    if f in d && d[f].Text? {
      var s := d[f].s;
      ContainsIsSubstring(LowerAll(s), LowerAll(q));
      forall k ensures OccursAt(LowerAll(q), LowerAll(s), k) <==> OccursAtIgnoringCase(q, s, k) {
        if 0 <= k && k + |q| <= |s| {
          assert LowerAll(s)[k..k + |q|] == LowerAll(s[k..k + |q|]);
        }
      }
    }
  }

  /** out is the relabelled form of exactly the products of ps that satisfy p. */
  ghost predicate RelabelsExactly(ps: seq<ProductDoc>, p: ProductDoc -> bool, out: seq<ProductDoc>)
    requires forall i :: 0 <= i < |ps| ==> "_id" in ps[i]
  {
    && (forall i :: 0 <= i < |ps| && p(ps[i]) ==> Relabel(ps[i]) in out)
    && (forall x :: x in out ==> exists i :: 0 <= i < |ps| && p(ps[i]) && x == Relabel(ps[i]))
  }

  /** The loop of get_all_products and search_products: renames `_id` to a
      string `id` in every product, in place. */
  method RelabelAll(ps: seq<ProductDoc>) returns (out: seq<ProductDoc>)
    requires forall i :: 0 <= i < |ps| ==> "_id" in ps[i]
    ensures |out| == |ps|
    ensures forall i :: 0 <= i < |ps| ==> out[i] == Relabel(ps[i])
  {
    var a := new ProductDoc[|ps|](i requires 0 <= i < |ps| => ps[i]);
    for i := 0 to a.Length
      invariant forall k :: 0 <= k < i ==> a[k] == Relabel(ps[k])
      invariant forall k :: i <= k < a.Length ==> a[k] == ps[k]
    {
      a[i] := Relabel(a[i]);
    }
    out := a[..];
  }

  class ProductService {
    const db: Database

    constructor (db: Database)
      ensures this.db == db
    {
      this.db := db;
    }

    /** `create_product`: the first missing field, then SKU uniqueness, then
        one insert. */
    method CreateProduct(data: Fields, newId: string) returns (r: Result<string>)
      modifies db
      ensures db.inventory == old(db.inventory) && db.movements == old(db.movements)
      ensures old(db.Valid()) ==> db.Valid()
      ensures MissingFields(data.Keys, ProductFields) != [] ==>
        r == Err("Missing required field: " + MissingFields(data.Keys, ProductFields)[0])
      ensures MissingFields(data.Keys, ProductFields) == [] && SkuTaken(old(db.products), data["sku"]) ==>
        r == Err("SKU already exists")
      ensures r.Err? ==> db.products == old(db.products)
      ensures r.Ok? <==> MissingFields(data.Keys, ProductFields) == [] && !SkuTaken(old(db.products), data["sku"])
      ensures r.Ok? ==> r.value == newId && db.products == old(db.products) + [data["_id" := ObjectId(newId)]]
      ensures SkusUnique(old(db.products)) ==> SkusUnique(db.products)
      ensures IdsUnique(old(db.products)) && !IdTaken(old(db.products), newId) ==> IdsUnique(db.products)
    {
      var missing := FirstMissingField(data, ProductFields);
      if missing.Some? {
        return Err("Missing required field: " + missing.value);
      }
      assert "sku" in ProductFields;
      var inserted := InsertIfSkuFree(db, data, newId);
      if !inserted {
        return Err("SKU already exists");
      }
      r := Ok(newId);
    }

    /** `get_product_by_id`: the product with that `_id`, with `_id` renamed
        to a string `id`. */
    function GetProductById(productId: string): (r: Result<ProductDoc>)
      reads db
      ensures !ValidId(productId) ==> r == Err(InvalidIdPrefix + InvalidIdDetail(productId))
      ensures r.Ok? <==> ValidId(productId) && IdTaken(db.products, productId)
      ensures ValidId(productId) && !IdTaken(db.products, productId) ==> r == Err("Product not found")
      ensures r.Ok? ==> "_id" !in r.value && "id" in r.value && r.value["id"] == Text(productId)
      ensures r.Ok? ==> exists i :: 0 <= i < |db.products| && FieldOr(db.products[i], "_id") == ObjectId(productId)
                                 && "_id" in db.products[i] && r.value == Relabel(db.products[i])
    {
      if !ValidId(productId) then Err(InvalidIdPrefix + InvalidIdDetail(productId))
      else
        FirstMatchIsFirst(db.products, WithId(productId));
        match FirstMatch(db.products, WithId(productId))
        case None => Err("Product not found")
        case Some(i) => Ok(Relabel(db.products[i]))
    }

    /** `update_product`: checks existence, then SKU uniqueness against the
        other products, then `$set`s every field of the request; the message
        says whether the stored document changed. */
    method UpdateProduct(productId: string, update: Fields) returns (r: Result<string>)
      modifies db
      ensures db.inventory == old(db.inventory) && db.movements == old(db.movements)
      ensures old(db.Valid()) ==> db.Valid()
      ensures !ValidId(productId) ==> r == Err(InvalidIdPrefix + InvalidIdDetail(productId))
      ensures ValidId(productId) && !IdTaken(old(db.products), productId) ==> r == Err("Product not found")
      ensures ValidId(productId) && IdTaken(old(db.products), productId) && "sku" in update
              && FirstMatch(old(db.products), SkuHeldByOther(update["sku"], productId)).Some? ==>
        r == Err("SKU already exists")
      ensures r.Err? ==> db.products == old(db.products)
      ensures r.Ok? ==>
        && ValidId(productId)
        && FirstMatch(old(db.products), WithId(productId)).Some?
        && var i := FirstMatch(old(db.products), WithId(productId)).value;
        && db.products == old(db.products)[i := old(db.products)[i] + update]
        && (r.value == "Product updated successfully" <==> exists k :: k in update && (k !in old(db.products)[i] || old(db.products)[i][k] != update[k]))
        && (r.value == "Product updated successfully" || r.value == "No changes made to product")
      ensures ValidId(productId) && IdTaken(old(db.products), productId)
              && !("sku" in update && FirstMatch(old(db.products), SkuHeldByOther(update["sku"], productId)).Some?) ==>
        (r.Ok? <==> !("_id" in update && update["_id"] != ObjectId(productId)))
      ensures (r.Err? && ValidId(productId) && IdTaken(old(db.products), productId) && r != Err("SKU already exists")) ==>
        r == Err(InvalidIdPrefix + ImmutableIdDetail)
      ensures SkusUnique(old(db.products)) && IdsUnique(old(db.products)) ==> SkusUnique(db.products) && IdsUnique(db.products)
    {
      if !ValidId(productId) {
        return Err(InvalidIdPrefix + InvalidIdDetail(productId));
      }
      var found := FirstMatch(db.products, WithId(productId));
      FirstMatchIsFirst(db.products, WithId(productId));
      if found.None? {
        return Err("Product not found");
      }
      var i := found.value;
      if "sku" in update {
        if FirstMatch(db.products, SkuHeldByOther(update["sku"], productId)).Some? {
          return Err("SKU already exists");
        }
        FirstMatchIsFirst(db.products, SkuHeldByOther(update["sku"], productId));
      }
      if "_id" in update && update["_id"] != ObjectId(productId) {
        return Err(InvalidIdPrefix + ImmutableIdDetail);
      }
      var updated := db.products[i] + update;
      SetKeepsUnique(db.products, i, update, productId);
      SetChanges(db.products[i], update);
      var changed := updated != db.products[i];
      db.ReplaceProduct(i, updated);
      if changed {
        r := Ok("Product updated successfully");
      } else {
        r := Ok("No changes made to product");
      }
    }

    /** `delete_product`: checks existence, then refuses while any stock
        record references the product, then deletes it. */
    method DeleteProduct(productId: string) returns (r: Result<string>)
      modifies db
      ensures db.inventory == old(db.inventory) && db.movements == old(db.movements)
      ensures old(db.Valid()) ==> db.Valid()
      ensures !ValidId(productId) ==> r == Err(InvalidIdPrefix + InvalidIdDetail(productId))
      ensures ValidId(productId) && !IdTaken(old(db.products), productId) ==> r == Err("Product not found")
      ensures ValidId(productId) && IdTaken(old(db.products), productId)
              && FirstMatch(old(db.inventory), ByProduct(ObjectId(productId))).Some? ==>
        r == Err("Cannot delete product that exists in inventory")
      ensures r.Err? ==> db.products == old(db.products)
      ensures r.Ok? <==> ValidId(productId) && IdTaken(old(db.products), productId)
                         && FirstMatch(old(db.inventory), ByProduct(ObjectId(productId))).None?
      ensures r.Ok? ==>
        && r.value == "Product deleted successfully"
        && (forall k :: 0 <= k < |db.inventory| ==> db.inventory[k].productId != ObjectId(productId))
        && FirstMatch(old(db.products), WithId(productId)).Some?
        && var i := FirstMatch(old(db.products), WithId(productId)).value;
        && FieldOr(old(db.products)[i], "_id") == ObjectId(productId)
        && db.products == old(db.products)[..i] + old(db.products)[i + 1..]
    {
      if !ValidId(productId) {
        return Err(InvalidIdPrefix + InvalidIdDetail(productId));
      }
      var found := FirstMatch(db.products, WithId(productId));
      FirstMatchIsFirst(db.products, WithId(productId));
      if found.None? {
        return Err("Product not found");
      }
      if FirstMatch(db.inventory, ByProduct(ObjectId(productId))).Some? {
        return Err("Cannot delete product that exists in inventory");
      }
      FirstMatchIsFirst(db.inventory, ByProduct(ObjectId(productId)));
      db.RemoveProduct(found.value);
      r := Ok("Product deleted successfully");
    }

    /** `get_all_products`: one page of the catalogue in store order, each
        product with `_id` renamed to `id`; the page starts at 0 and holds 50
        unless given. */
    method GetAllProducts(skip: nat := 0, limit: nat := 50) returns (out: seq<ProductDoc>)
      requires db.Valid()
      ensures |out| == |Page(db.products, skip, limit)|
      ensures forall i :: 0 <= i < |out| ==> out[i] == Relabel(db.products[skip + i])
    {
      out := RelabelAll(Page(db.products, skip, limit));
    }

    /** `search_products`: every product whose name, description or SKU
        contains the query ignoring case, in store order, relabelled. */
    method SearchProducts(query: string) returns (out: seq<ProductDoc>)
      requires db.Valid()
      ensures RelabelsExactly(db.products, SearchFilter(query), out)
      ensures |out| == |Filter(db.products, SearchFilter(query))|
      ensures var found := Filter(db.products, SearchFilter(query));
        forall k :: 0 <= k < |out| ==> "_id" in found[k] && out[k] == Relabel(found[k])
    {
      var found := Filter(db.products, SearchFilter(query));
      forall i | 0 <= i < |found| ensures "_id" in found[i] {
        assert found[i] in found;
      }
      out := RelabelAll(found);
      forall i | 0 <= i < |db.products| && SearchFilter(query)(db.products[i])
        ensures Relabel(db.products[i]) in out
      {
        assert db.products[i] in found;
        var j :| 0 <= j < |found| && found[j] == db.products[i];
        assert out[j] == Relabel(db.products[i]);
      }
      forall x | x in out
        ensures exists i :: 0 <= i < |db.products| && SearchFilter(query)(db.products[i]) && x == Relabel(db.products[i])
      {
        var j :| 0 <= j < |out| && out[j] == x;
        assert found[j] in found;
      }
    }
  }
}
