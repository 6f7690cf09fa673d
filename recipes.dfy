/**
 * The recipe routes: listing, lookup, creation and partial update, each write
 * guarded by checks that the named product and every ingredient item exist,
 * and deletion.
 */
module Recipes {
  import opened Store
  import opened Documents

  /**
   * A partial update of a recipe: only the fields the caller set are written.
   * A set `productId` is checked against the products, and a set, non-empty
   * `ingredients` against the items.
   */
  datatype RecipeUpdate = RecipeUpdate(
    name: Field<string>,
    preparationTime: Field<int>,
    price: Field<real>,
    category: Field<string>,
    productId: Field<Id>,
    ingredients: Field<seq<Ingredient>>)

  /** The item ids of a run of ingredients, in order. */
  function ItemIdsOf(ingredients: seq<Ingredient>): (ids: seq<Id>)
    ensures |ids| == |ingredients|
    ensures forall i :: 0 <= i < |ingredients| ==> ids[i] == ingredients[i].itemId
  {
    seq(|ingredients|, i requires 0 <= i < |ingredients| => ingredients[i].itemId)
  }

  /** True when the caller set no field, so that there is nothing to write. */
  predicate NothingSet(u: RecipeUpdate) {
    u.name.Unset? && u.preparationTime.Unset? && u.price.Unset? &&
    u.category.Unset? && u.productId.Unset? && u.ingredients.Unset?
  }

  /** `$set` of the caller's set fields on a recipe. */
  function ApplyUpdate(r: Recipe, u: RecipeUpdate): (q: Recipe)
    ensures q.name == (if u.name.Set? then u.name.value else r.name)
    ensures q.preparationTime == (if u.preparationTime.Set? then u.preparationTime.value else r.preparationTime)
    ensures q.price == (if u.price.Set? then u.price.value else r.price)
    ensures q.category == (if u.category.Set? then u.category.value else r.category)
    ensures q.productId == (if u.productId.Set? then u.productId.value else r.productId)
    ensures q.ingredients == (if u.ingredients.Set? then u.ingredients.value else r.ingredients)
  {
    r.(name := Patch(r.name, u.name),
       preparationTime := Patch(r.preparationTime, u.preparationTime),
       price := Patch(r.price, u.price),
       category := Patch(r.category, u.category),
       productId := Patch(r.productId, u.productId),
       ingredients := Patch(r.ingredients, u.ingredients))
  }

  /** An update with no field set leaves the recipe as it is. */
  lemma NothingSetKeepsRecipe(r: Recipe, u: RecipeUpdate)
    requires NothingSet(u)
    ensures ApplyUpdate(r, u) == r
  {
  }

  /** Applying the same update twice is applying it once. */
  lemma ApplyUpdateIdempotent(r: Recipe, u: RecipeUpdate)
    ensures ApplyUpdate(ApplyUpdate(r, u), u) == ApplyUpdate(r, u)
  {
  }

  /**
   * The product and ingredient checks of update_recipe, in the order they run:
   * the product only when a product id is set, the ingredients only when a
   * non-empty list is set; None when both pass.
   */
  function UpdateCheck(products: seq<Doc<Product>>, items: set<Id>, u: RecipeUpdate): (e: Option<HttpError>)
    ensures e.None? <==>
              && (u.productId.Set? ==> u.productId.value in Ids(products))
              && (u.ingredients.Set? ==> forall j :: 0 <= j < |u.ingredients.value| ==>
                                                       u.ingredients.value[j].itemId in items)
    ensures e.Some? ==> e.value.status == 404
  {
    if u.productId.Set? && u.productId.value !in Ids(products) then
      Some(HttpError(404, "Product not found"))
    else if u.ingredients.Set? && |u.ingredients.value| > 0 then
      var missing := FirstAbsent(items, ItemIdsOf(u.ingredients.value));
      if missing.Some? then Some(HttpError(404, "Item " + missing.value + " not found")) else None
    else None
  }

  /** read_recipes: one page of the recipes and the number of all recipes. */
  function ReadRecipes(db: Database, skip: nat, limit: nat): (r: Page<Doc<Recipe>>)
    reads db
    ensures r.count == |db.recipes|
    ensures forall i :: 0 <= i < |r.data| ==> skip + i < |db.recipes| && r.data[i] == db.recipes[skip + i]
    ensures limit != 0 ==> |r.data| <= limit
    ensures skip >= |db.recipes| ==> r.data == []
    ensures skip < |db.recipes| ==>
              |r.data| == if limit == 0 || |db.recipes| - skip <= limit then |db.recipes| - skip else limit
  {
    Page(MongoPage(db.recipes, skip, limit), |db.recipes|)
  }

  /** read_recipe: 400 for a malformed id, before any lookup; 404 for an absent one. */
  function ReadRecipe(db: Database, id: Id): (r: Result<Doc<Recipe>>)
    reads db
    ensures !ValidId(id) ==> r == Err(HttpError(400, "Invalid recipe ID"))
    ensures ValidId(id) && id !in Ids(db.recipes) ==> r == Err(HttpError(404, "Recipe not found"))
    ensures r.Ok? <==> ValidId(id) && id in Ids(db.recipes)
    ensures r.Ok? ==> r.value.id == id &&
                      exists k :: 0 <= k < |db.recipes| && db.recipes[k] == r.value && FirstOf(db.recipes, k)
  {
    if !ValidId(id) then Err(HttpError(400, "Invalid recipe ID"))
    else
      var k := IndexOf(db.recipes, id);
      if k < 0 then Err(HttpError(404, "Recipe not found")) else Ok(db.recipes[k])
  }

  /** The ingredient loop of create_recipe and update_recipe: the first ingredient whose item is missing. */
  method CheckIngredients(items: set<Id>, ingredients: seq<Ingredient>) returns (missing: Option<Id>)
    ensures missing == FirstAbsent(items, ItemIdsOf(ingredients))
  {
    ghost var wanted := ItemIdsOf(ingredients);
    var i := 0;
    while i < |ingredients|
      invariant 0 <= i <= |ingredients|
      invariant forall j :: 0 <= j < i ==> wanted[j] in items
    {
      if ingredients[i].itemId !in items {
        FirstAbsentAt(items, wanted, i);
        return Some(ingredients[i].itemId);
      }
      i := i + 1;
    }
    missing := None;
  }

  /** The checks of update_recipe as they run, the ingredient check by its loop. */
  method ValidateUpdate(products: seq<Doc<Product>>, items: set<Id>, u: RecipeUpdate) returns (e: Option<HttpError>)
    ensures e == UpdateCheck(products, items, u)
  {
    if u.productId.Set? && IndexOf(products, u.productId.value) < 0 {
      return Some(HttpError(404, "Product not found"));
    }
    if u.ingredients.Set? && |u.ingredients.value| > 0 {
      var missing := CheckIngredients(items, u.ingredients.value);
      if missing.Some? {
        return Some(HttpError(404, "Item " + missing.value + " not found"));
      }
    }
    e := None;
  }

  /**
   * create_recipe: 404 when the product is missing, else 404 naming the first
   * ingredient whose item is missing, with nothing inserted; otherwise the
   * recipe is appended as given under a fresh id.
   */
  method CreateRecipe(db: Database, input: Recipe, newId: Id) returns (r: Result<Doc<Recipe>>)
    requires newId !in Ids(db.recipes)
    modifies db`recipes
    ensures input.productId !in Ids(db.products) ==>
              r == Err(HttpError(404, "Product not found")) && db.recipes == old(db.recipes)
    ensures var missing := FirstAbsent(db.items, ItemIdsOf(input.ingredients));
            input.productId in Ids(db.products) && missing.Some? ==>
              r == Err(HttpError(404, "Item " + missing.value + " not found")) && db.recipes == old(db.recipes)
    ensures r.Ok? <==>
              input.productId in Ids(db.products) &&
              forall j :: 0 <= j < |input.ingredients| ==> input.ingredients[j].itemId in db.items
    ensures r.Ok? ==>
              && r.value == Doc(newId, input)
              && db.recipes == old(db.recipes) + [r.value]
              && Find(db.recipes, newId) == Some(r.value)
    ensures RecipesNameProducts(db.products, old(db.recipes)) ==> RecipesNameProducts(db.products, db.recipes)
  {
    if IndexOf(db.products, input.productId) < 0 {
      return Err(HttpError(404, "Product not found"));
    }
    var missing := CheckIngredients(db.items, input.ingredients);
    if missing.Some? {
      return Err(HttpError(404, "Item " + missing.value + " not found"));
    }
    var doc := Doc(newId, input);
    FindAppended(db.recipes, doc);
    db.recipes := db.recipes + [doc];
    r := Ok(doc);
  }

  /**
   * update_recipe: 400 for a malformed id and 404 for an absent one; then the
   * product and ingredient checks, any failure leaving the recipe unchanged;
   * otherwise the set fields are written to the first recipe with that id
   * (nothing is written when no field is set) and the recipe as it is after
   * the write is returned.
   */
  method UpdateRecipe(db: Database, id: Id, u: RecipeUpdate) returns (r: Result<Doc<Recipe>>)
    modifies db`recipes
    ensures !ValidId(id) ==> r == Err(HttpError(400, "Invalid recipe ID")) && db.recipes == old(db.recipes)
    ensures ValidId(id) && id !in Ids(old(db.recipes)) ==>
              r == Err(HttpError(404, "Recipe not found")) && db.recipes == old(db.recipes)
    ensures ValidId(id) && id in Ids(old(db.recipes)) && UpdateCheck(db.products, db.items, u).Some? ==>
              r == Err(UpdateCheck(db.products, db.items, u).value) && db.recipes == old(db.recipes)
    ensures ValidId(id) && id in Ids(old(db.recipes)) && UpdateCheck(db.products, db.items, u).None? ==>
              var k := IndexOf(old(db.recipes), id);
              && db.recipes == old(db.recipes)[k := Doc(id, ApplyUpdate(old(db.recipes)[k].body, u))]
              && r == Ok(db.recipes[k])
              && Find(db.recipes, id) == Some(db.recipes[k])
    ensures Ids(db.recipes) == Ids(old(db.recipes))
    ensures RecipesNameProducts(db.products, old(db.recipes)) ==> RecipesNameProducts(db.products, db.recipes)
  {
    if !ValidId(id) {
      return Err(HttpError(400, "Invalid recipe ID"));
    }
    var k := IndexOf(db.recipes, id);
    if k < 0 {
      return Err(HttpError(404, "Recipe not found"));
    }
    var failure := ValidateUpdate(db.products, db.items, u);
    if failure.Some? {
      return Err(failure.value);
    }
    if !NothingSet(u) {
      db.recipes := db.recipes[k := Doc(id, ApplyUpdate(db.recipes[k].body, u))];
    } else {
      NothingSetKeepsRecipe(db.recipes[k].body, u);
    }
    IndexOfSameIds(db.recipes, old(db.recipes), id);
    assert forall j :: 0 <= j < |db.recipes| ==> db.recipes[j].id == old(db.recipes)[j].id;
    r := Ok(db.recipes[IndexOf(db.recipes, id)]);
  }

  /**
   * delete_recipe: 400 for a malformed id and 404 for an absent one, with no
   * write; otherwise the first recipe with that id is removed and every other
   * recipe stays, in order.
   */
  method DeleteRecipe(db: Database, id: Id) returns (r: Result<string>)
    modifies db`recipes
    ensures !ValidId(id) ==> r == Err(HttpError(400, "Invalid recipe ID")) && db.recipes == old(db.recipes)
    ensures ValidId(id) && id !in Ids(old(db.recipes)) ==>
              r == Err(HttpError(404, "Recipe not found")) && db.recipes == old(db.recipes)
    ensures ValidId(id) && id in Ids(old(db.recipes)) ==>
              r == Ok("Recipe deleted successfully") &&
              db.recipes == RemoveAt(old(db.recipes), IndexOf(old(db.recipes), id))
    ensures RecipesNameProducts(db.products, old(db.recipes)) ==> RecipesNameProducts(db.products, db.recipes)
  {
    if !ValidId(id) {
      return Err(HttpError(400, "Invalid recipe ID"));
    }
    var k := IndexOf(db.recipes, id);
    if k < 0 {
      return Err(HttpError(404, "Recipe not found"));
    }
    db.recipes := RemoveAt(db.recipes, k);
    r := Ok("Recipe deleted successfully");
  }
}
