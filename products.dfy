/**
 * The product routes: listing, lookup, creation, partial update, and a
 * deletion that is refused while a recipe still names the product.
 */
module Products {
  import opened Store
  import opened Documents

  /** The fields a caller supplies to create a product. */
  datatype ProductCreate = ProductCreate(
    name: string,
    unit: string,
    currentStock: real,
    minStock: real,
    cost: real,
    category: string)

  /** A partial update: only the fields the caller set are written. */
  datatype ProductUpdate = ProductUpdate(
    name: Field<string>,
    unit: Field<string>,
    currentStock: Field<real>,
    minStock: Field<real>,
    cost: Field<real>,
    category: Field<string>)

  /** The document stored for a new product; it has no stock_quantity yet, which reads as 0. */
  function NewProduct(input: ProductCreate): Product {
    Product(input.name, input.unit, input.currentStock, input.minStock, input.cost, input.category, 0.0)
  }

  /** True when the caller set no field, so that there is nothing to write. */
  predicate NothingSet(u: ProductUpdate) {
    u.name.Unset? && u.unit.Unset? && u.currentStock.Unset? &&
    u.minStock.Unset? && u.cost.Unset? && u.category.Unset?
  }

  /** `$set` of the caller's set fields on a product. */
  function ApplyUpdate(p: Product, u: ProductUpdate): (q: Product)
    ensures q.name == (if u.name.Set? then u.name.value else p.name)
    ensures q.unit == (if u.unit.Set? then u.unit.value else p.unit)
    ensures q.currentStock == (if u.currentStock.Set? then u.currentStock.value else p.currentStock)
    ensures q.minStock == (if u.minStock.Set? then u.minStock.value else p.minStock)
    ensures q.cost == (if u.cost.Set? then u.cost.value else p.cost)
    ensures q.category == (if u.category.Set? then u.category.value else p.category)
    ensures q.stockQuantity == p.stockQuantity
  {
    p.(name := Patch(p.name, u.name),
       unit := Patch(p.unit, u.unit),
       currentStock := Patch(p.currentStock, u.currentStock),
       minStock := Patch(p.minStock, u.minStock),
       cost := Patch(p.cost, u.cost),
       category := Patch(p.category, u.category))
  }

  /** An update with no field set leaves the product as it is. */
  lemma NothingSetKeepsProduct(p: Product, u: ProductUpdate)
    requires NothingSet(u)
    ensures ApplyUpdate(p, u) == p
  {
  }

  /** Applying the same update twice is applying it once. */
  lemma ApplyUpdateIdempotent(p: Product, u: ProductUpdate)
    ensures ApplyUpdate(ApplyUpdate(p, u), u) == ApplyUpdate(p, u)
  {
  }

  /** The number of recipes whose product_id is this id. */
  function CountRecipesUsing(recipes: seq<Doc<Recipe>>, id: Id): (n: nat)
    ensures n <= |recipes|
    ensures n == 0 <==> forall j :: 0 <= j < |recipes| ==> recipes[j].body.productId != id
  {
    if recipes == [] then 0
    else
      assert forall j :: 1 <= j < |recipes| ==> recipes[j] == recipes[1..][j - 1];
      (if recipes[0].body.productId == id then 1 else 0) + CountRecipesUsing(recipes[1..], id)
  }

  /** read_products: one page of the products and the number of all products. */
  function ReadProducts(db: Database, skip: nat, limit: nat): (r: Page<Doc<Product>>)
    reads db
    ensures r.count == |db.products|
    ensures forall i :: 0 <= i < |r.data| ==> skip + i < |db.products| && r.data[i] == db.products[skip + i]
    ensures limit != 0 ==> |r.data| <= limit
    ensures skip >= |db.products| ==> r.data == []
    ensures skip < |db.products| ==>
              |r.data| == if limit == 0 || |db.products| - skip <= limit then |db.products| - skip else limit
  {
    Page(MongoPage(db.products, skip, limit), |db.products|)
  }

  /** read_product: 400 for a malformed id, before any lookup; 404 for an absent one. */
  function ReadProduct(db: Database, id: Id): (r: Result<Doc<Product>>)
    reads db
    ensures !ValidId(id) ==> r == Err(HttpError(400, "Invalid product ID"))
    ensures ValidId(id) && id !in Ids(db.products) ==> r == Err(HttpError(404, "Product not found"))
    ensures r.Ok? <==> ValidId(id) && id in Ids(db.products)
    ensures r.Ok? ==> r.value.id == id &&
                      exists k :: 0 <= k < |db.products| && db.products[k] == r.value && FirstOf(db.products, k)
  {
    if !ValidId(id) then Err(HttpError(400, "Invalid product ID"))
    else
      var k := IndexOf(db.products, id);
      if k < 0 then Err(HttpError(404, "Product not found")) else Ok(db.products[k])
  }

  /** create_product: the new document is appended and returned; no other document changes. */
  method CreateProduct(db: Database, input: ProductCreate, newId: Id) returns (doc: Doc<Product>)
    requires newId !in Ids(db.products)
    modifies db`products
    ensures doc == Doc(newId, NewProduct(input))
    ensures db.products == old(db.products) + [doc]
    ensures Find(db.products, newId) == Some(doc)
    ensures RecipesNameProducts(old(db.products), db.recipes) ==> RecipesNameProducts(db.products, db.recipes)
  {
    doc := Doc(newId, NewProduct(input));
    FindAppended(db.products, doc);
    db.products := db.products + [doc];
  }

  /**
   * update_product: 400 for a malformed id and 404 for an absent one, with no
   * write; otherwise the set fields are written to the first product with
   * that id (nothing is written when no field is set) and the product as it
   * is after the write is returned.
   */
  method UpdateProduct(db: Database, id: Id, u: ProductUpdate) returns (r: Result<Doc<Product>>)
    modifies db`products
    ensures !ValidId(id) ==> r == Err(HttpError(400, "Invalid product ID")) && db.products == old(db.products)
    ensures ValidId(id) && id !in Ids(old(db.products)) ==>
              r == Err(HttpError(404, "Product not found")) && db.products == old(db.products)
    ensures ValidId(id) && id in Ids(old(db.products)) ==>
              var k := IndexOf(old(db.products), id);
              && db.products == old(db.products)[k := Doc(id, ApplyUpdate(old(db.products)[k].body, u))]
              && r == Ok(db.products[k])
              && Find(db.products, id) == Some(db.products[k])
    ensures Ids(db.products) == Ids(old(db.products))
    ensures RecipesNameProducts(old(db.products), db.recipes) ==> RecipesNameProducts(db.products, db.recipes)
  {
    if !ValidId(id) {
      return Err(HttpError(400, "Invalid product ID"));
    }
    var k := IndexOf(db.products, id);
    if k < 0 {
      return Err(HttpError(404, "Product not found"));
    }
    if !NothingSet(u) {
      db.products := db.products[k := Doc(id, ApplyUpdate(db.products[k].body, u))];
    } else {
      NothingSetKeepsProduct(db.products[k].body, u);
    }
    IndexOfSameIds(db.products, old(db.products), id);
    assert forall j :: 0 <= j < |db.products| ==> db.products[j].id == old(db.products)[j].id;
    r := Ok(db.products[IndexOf(db.products, id)]);
  }

  /**
   * delete_product: 400 for a malformed id, 404 for an absent one, and 400
   * while any recipe names the product, all without a write; otherwise the
   * first product with that id is removed and every other product stays.
   */
  method DeleteProduct(db: Database, id: Id) returns (r: Result<string>)
    modifies db`products
    ensures !ValidId(id) ==> r == Err(HttpError(400, "Invalid product ID")) && db.products == old(db.products)
    ensures ValidId(id) && id !in Ids(old(db.products)) ==>
              r == Err(HttpError(404, "Product not found")) && db.products == old(db.products)
    ensures ValidId(id) && id in Ids(old(db.products)) && CountRecipesUsing(db.recipes, id) > 0 ==>
              r == Err(HttpError(400, "Cannot delete product that is used in recipes")) &&
              db.products == old(db.products)
    ensures ValidId(id) && id in Ids(old(db.products)) && CountRecipesUsing(db.recipes, id) == 0 ==>
              r == Ok("Product deleted successfully") &&
              db.products == RemoveAt(old(db.products), IndexOf(old(db.products), id))
    ensures RecipesNameProducts(old(db.products), db.recipes) ==> RecipesNameProducts(db.products, db.recipes)
  {
    if !ValidId(id) {
      return Err(HttpError(400, "Invalid product ID"));
    }
    var k := IndexOf(db.products, id);
    if k < 0 {
      return Err(HttpError(404, "Product not found"));
    }
    var recipeCount := CountRecipesUsing(db.recipes, id);
    if recipeCount > 0 {
      return Err(HttpError(400, "Cannot delete product that is used in recipes"));
    }
    RemoveKeepsOtherIds(db.products, k);
    db.products := RemoveAt(db.products, k);
    r := Ok("Product deleted successfully");
  }

  /** Removing one document keeps every id other than its own. */
  lemma RemoveKeepsOtherIds<T>(table: seq<Doc<T>>, k: nat)
    requires k < |table|
    ensures Ids(table) - {table[k].id} <= Ids(RemoveAt(table, k))
  {
    var r := RemoveAt(table, k);
    forall x | x in Ids(table) - {table[k].id}
      ensures x in Ids(r)
    {
      var j :| 0 <= j < |table| && table[j].id == x;
      if j < k {
        assert r[j].id == x;
      } else {
        assert r[j - 1].id == x;
      }
    }
  }
}
