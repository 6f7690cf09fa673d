# Macanudo back office: sales ledger, inventory adjustments and catalog guards

This project is a Dafny model of the back office of a small food business. It covers four groups of HTTP routes:

- **Sales** (`app/api/routes/sales.py`).
  - Creating a sale checks that every line's product exists, in line order, before anything is written.
  - It then prices each line (`unit_price * quantity - discount`), sums the subtotals and adds a 10% tax.
  - The sale is numbered `SALE-` plus the zero-padded count of sales so far plus one, and is stored as `completed`.
  - Finally each line lowers its product's `stock_quantity` by the line quantity.
  - Deleting a sale cancels it instead. It answers 404 for an unknown sale and 400 for one already cancelled. Otherwise it gives every line's quantity back and marks the sale `cancelled`.
- **Inventory adjustments** (`app/api/routes/inventory.py`). These run on the relational session, not on the document store.
  - An adjustment is always logged, owned by the caller.
  - The adjusted product's `current_stock` gains the quantity only when the product exists and the caller owns it.
  - Listing pages through all adjustments for a superuser, and through the caller's own otherwise.
- **Products** (`app/api/routes/products.py`).
  - Lookup, update and delete reject a malformed id with 400 before any lookup, then an absent id with 404.
  - An update writes only the fields the caller set and returns the product as it is after the write.
  - A delete is refused with 400 while any recipe names the product.
- **Recipes** (`app/api/routes/recipes.py`).
  - Creation requires the named product and every ingredient item to exist. It reports the product first, then the first missing item.
  - An update checks the product only when one is supplied, and the ingredients only when a non-empty list is supplied.
  - Delete removes the recipe.

Design of the model:

- **Collections** are sequences of `Doc(id, body)` in insertion order. `find_one`, `update_one` and `delete_one` act on the first document with the id (`Store.IndexOf`).
- **The document store** is the class `Documents.Database`, and **the relational session** is `Inventory.Session`. Each route that writes is a method that modifies the fields of one of them.
- **Generated ids** are passed in as a parameter. The requirement that such an id is fresh is the store's guarantee, not a check the routes make.
- **Money and quantities** are exact `real`s; the source uses binary floats.
- **Errors** are `Err(HttpError(status, detail))` values, with the status codes and detail strings of the routes.

The following properties are proved:

- `CreateSale` followed by `CancelSale` leaves every product exactly as it was.
- A second cancellation is refused, so stock is restored at most once.
- The stock moved by a sale is, for each product, the total quantity of the lines that name it.
- Sale numbers have the stated format, read back to count + 1, and are distinct for distinct counts.
- Each catalog write preserves "every recipe names an existing product", for the requests the model can express. For product deletion this needs the recipe guard. A recipe update with a falsy `product_id` breaks the invariant in the source (see "## Left out").
- Two adjustments of one product add up, and an adjustment followed by its opposite is undone.
- A caller's listing count grows by exactly one when they log an adjustment.

## Model

| member | source | states |
|---|---|---|
| Store.IndexOf | app/api/routes/products.py:37 | find_one by id: -1 exactly when no document has the id; otherwise the position of the first document with it |
| Store.IndexOfFirst | app/api/routes/products.py:96 | a position is what a lookup of its own id returns exactly when no earlier document has that id |
| Store.IndexOfSameIds | app/api/routes/products.py:71-73 | two tables with the same ids position by position answer every lookup at the same position, so rewriting bodies never changes which document a later find_one sees |
| Store.SameIdsSameFirst | app/api/routes/sales.py:111-115 | whether a position holds the first occurrence of its id depends only on the ids |
| Store.Find | app/api/routes/sales.py:27 | find_one returns a document exactly when one has the id, and that document has the id and is in the table |
| Store.FindAppended | app/api/routes/recipes.py:64-65 | after inserting a document under a fresh id, find_one of that id returns it, at the last position, and the set of ids grows by exactly that id |
| Store.RemoveAt | app/api/routes/products.py:96 | delete_one removes exactly one position and keeps every other document in order |
| Store.MongoPage | app/api/routes/products.py:25 | skip/limit on a cursor: the documents from position skip on, at most limit of them, where limit 0 means no limit |
| Store.SqlPage | app/api/routes/inventory.py:25-26 | OFFSET/LIMIT: the rows from position skip on, at most limit of them, none when limit is 0 |
| Store.FirstAbsent | app/api/routes/sales.py:43-50 | the id a check-each-in-order loop reports: none exactly when every id is present, otherwise an absent id every earlier one of which is present |
| Store.FirstAbsentAt | app/api/routes/recipes.py:56-61 | if every id before position i is present and the one at i is not, that one is what the loop reports |
| SaleNumbers.DigitChar | app/api/routes/sales.py:62 | the character of a decimal digit is a digit |
| SaleNumbers.Digits | app/api/routes/sales.py:62 | the decimal rendering of a number is non-empty, all digits, and has no leading zero except for 0 itself |
| SaleNumbers.ZeroPad | app/api/routes/sales.py:62 | `:06d` padding: at least the width, ends with the unpadded text, and the added prefix is all zeros |
| SaleNumbers.DigitsValue | app/api/routes/sales.py:62 | reading the decimal rendering back gives the number |
| SaleNumbers.LeadingZeroValue | app/api/routes/sales.py:62 | a leading zero does not change the value of a digit string |
| SaleNumbers.ZeroPadValue | app/api/routes/sales.py:62 | zero padding does not change the value |
| SaleNumbers.DigitsFit | app/api/routes/sales.py:62 | a number below 10^k renders in at most k digits |
| SaleNumbers.SaleNumber | app/api/routes/sales.py:61-62 | the sale number for `count` existing sales is "SALE-" followed by at least 6 characters, namely `count + 1` rendered in decimal and zero-padded to 6 |
| SaleNumbers.SaleNumberFormat | app/api/routes/sales.py:61-62 | the sale number is "SALE-" then only digits, at least 6 of them, whose value is the existing sale count plus one; exactly 6 below a million sales |
| SaleNumbers.SaleNumberInjective | app/api/routes/sales.py:61-62 | different sale counts give different sale numbers |
| SaleTotals.PriceLines | app/api/routes/sales.py:52-58 | one stored line per request line, in request order, with the same product, quantity, price and discount, and subtotal unit_price * quantity - discount |
| SaleTotals.SumSubtotals | app/api/routes/sales.py:40-53 | the running `subtotal += item_subtotal` over the stored lines, starting from 0; an empty sale has subtotal 0 |
| SaleTotals.SumSubtotalsNonNegative | app/api/routes/sales.py:40-53 | lines none of which has a negative subtotal give a non-negative sale subtotal |
| SaleTotals.SumSubtotalsAppend | app/api/routes/sales.py:53 | the running subtotal over two runs of lines is the sum of the two |
| SaleTotals.SumSubtotalsFront | app/api/routes/sales.py:53 | the subtotal is the first line's subtotal plus the subtotal of the rest |
| SaleTotals.Tax | app/api/routes/sales.py:65 | the tax is one tenth of the subtotal |
| SaleTotals.Total | app/api/routes/sales.py:65-66 | total = subtotal + tax = 1.1 * subtotal, with no sale-level discount applied |
| SaleTotals.TotalsExample | app/api/routes/sales.py:52-66 | lines (2 at 10.00 less 1.00) and (1 at 5.00) give subtotal 24.00, tax 2.40 and total 26.40 |
| Ledger.IncStock | app/api/routes/sales.py:91-94 | a `$inc` keeps every document's position and id |
| Ledger.IncStockAt | app/api/routes/sales.py:91-94 | a `$inc` changes only the first product with the id, and only its stock_quantity, by delta; no match, no change |
| Ledger.Moved | app/api/routes/sales.py:90-94 | the stock loop keeps every document's position and id |
| Ledger.MovedStep | app/api/routes/sales.py:90-94 | one more line of the loop is one more `$inc` |
| Ledger.MovedAt | app/api/routes/sales.py:89-94 | after the loop the first product with each id has its stock_quantity lowered (deduct) or raised (restore) by the total quantity of the lines naming it; every other document is unchanged |
| Ledger.QuantityOfUnnamed | app/api/routes/sales.py:89-94 | a product no line names moves by nothing |
| Ledger.RestoreUndoesDeduct | app/api/routes/sales.py:89-115 | restoring a sale's lines after deducting them gives back every product exactly |
| Ledger.DeductBelowZero | app/api/routes/sales.py:90-94 | no lower bound: 1 in stock and 5 sold leaves -4 |
| Sales.NewestFirst | app/api/routes/sales.py:18 | sorting by creation time, newest first: position i holds the (i+1)-th most recent sale |
| Sales.ReadSales | app/api/routes/sales.py:17-21 | count is the number of all sales; the page is the sales from position skip of the newest-first order, exactly min(limit, n - skip) of them, all remaining ones when limit is 0, none when skip >= n |
| Sales.ReadSale | app/api/routes/sales.py:24-31 | 404 "Sale not found" exactly when no sale has the id; otherwise the first sale with it |
| Sales.PriceSaleItems | app/api/routes/sales.py:40-58 | the check-and-price loop reports the first line whose product is missing; when none is, it yields the priced lines and their sum |
| Sales.MoveStock | app/api/routes/sales.py:89-94 | the loop's writes are exactly the stock movement `Moved` of the lines |
| Sales.CreateSale | app/api/routes/sales.py:34-96 | a missing product gives 404 "Product <id> not found" with no sale stored and no stock changed; otherwise exactly one sale is appended with its number, priced lines, subtotal, tax, zero discount, total, status completed and user, and stock moves down by the lines |
| Sales.CancelSale | app/api/routes/sales.py:99-123 | 404 "Sale not found" and 400 "Sale already cancelled" change nothing; otherwise stock moves up by the sale's stored lines and only that sale's status becomes cancelled |
| Sales.CreateThenCancelTwice | app/api/routes/sales.py:34-123 | after a successful create, the first cancel succeeds, the second is refused with 400, and every product is as it was before the sale |
| Products.ApplyUpdate | app/api/routes/products.py:69-71 | the `$set` of a partial update: each of the six fields takes the supplied value when set and keeps its value when unset; stock_quantity is never touched |
| Products.NothingSetKeepsProduct | app/api/routes/products.py:69-71 | an update that sets no field leaves the product as it is |
| Products.ApplyUpdateIdempotent | app/api/routes/products.py:69-71 | applying the same update twice equals applying it once |
| Products.CountRecipesUsing | app/api/routes/products.py:90 | the count of recipes naming the product is zero exactly when no recipe names it |
| Products.ReadProducts | app/api/routes/products.py:19-28 | count is the number of all products; the page is the products from position skip, exactly min(limit, n - skip) of them, all remaining ones when limit is 0, none when skip >= n |
| Products.ReadProduct | app/api/routes/products.py:31-41 | 400 "Invalid product ID" for a malformed id before any lookup; 404 "Product not found" for an absent one; otherwise the first product with the id |
| Products.CreateProduct | app/api/routes/products.py:44-54 | exactly one product is appended with the supplied fields and no stock_quantity, and find_one returns it; the recipe invariant is kept |
| Products.UpdateProduct | app/api/routes/products.py:57-74 | 400/404 with no write; otherwise only the set fields of the first product with the id are overwritten, and the product as stored after the write is returned; ids and the recipe invariant are kept |
| Products.DeleteProduct | app/api/routes/products.py:77-97 | 400/404 and, while any recipe names the product, 400 "Cannot delete product that is used in recipes", all with no write; otherwise exactly the first product with the id is removed; every recipe still names an existing product |
| Products.RemoveKeepsOtherIds | app/api/routes/products.py:96 | deleting one product keeps every other id present |
| Recipes.ApplyUpdate | app/api/routes/recipes.py:82-100 | the `$set` of a partial update: each of the six fields, product id and ingredients included, takes the supplied value when set and keeps its value when unset |
| Recipes.NothingSetKeepsRecipe | app/api/routes/recipes.py:82-100 | an update that sets no field leaves the recipe as it is |
| Recipes.ApplyUpdateIdempotent | app/api/routes/recipes.py:82-100 | applying the same update twice equals applying it once |
| Recipes.UpdateCheck | app/api/routes/recipes.py:84-97 | the update checks pass exactly when a supplied product exists and every supplied ingredient item exists; a failure is a 404 |
| Recipes.ReadRecipes | app/api/routes/recipes.py:20-29 | count is the number of all recipes; the page is the recipes from position skip, exactly min(limit, n - skip) of them, all remaining ones when limit is 0, none when skip >= n |
| Recipes.ReadRecipe | app/api/routes/recipes.py:32-42 | 400 "Invalid recipe ID" before any lookup; 404 "Recipe not found"; otherwise the first recipe with the id |
| Recipes.CheckIngredients | app/api/routes/recipes.py:56-61 | the loop reports the first ingredient whose item is missing, or none |
| Recipes.ValidateUpdate | app/api/routes/recipes.py:84-97 | the product check then the ingredient loop, as run, give exactly `UpdateCheck` |
| Recipes.CreateRecipe | app/api/routes/recipes.py:45-67 | 404 "Product not found", then 404 "Item <id> not found" for the first missing item, each with nothing inserted; success exactly when the product and every item exist, and then exactly one recipe is appended as given under the new id; the recipe invariant is kept |
| Recipes.UpdateRecipe | app/api/routes/recipes.py:70-103 | 400/404, then the product and ingredient checks, each failure with no write; otherwise only the set fields of the first recipe with the id are overwritten and the recipe as stored is returned; the recipe invariant is kept |
| Recipes.DeleteRecipe | app/api/routes/recipes.py:106-117 | 400/404 with no write; otherwise exactly the first recipe with the id is removed and the rest keep their order |
| Inventory.AdjustStock | app/api/routes/inventory.py:56-62 | ids and owners are kept; when the product is missing or owned by someone else, nothing changes |
| Inventory.AdjustStockAt | app/api/routes/inventory.py:56-62 | only the caller's own product with the id changes, and only in current_stock, by the quantity |
| Inventory.AdjustStockTwice | app/api/routes/inventory.py:61 | two adjustments of the same product by the same caller equal one adjustment by the sum |
| Inventory.AdjustStockUndo | app/api/routes/inventory.py:61 | an adjustment followed by its opposite leaves every product as it was |
| Inventory.WasteBelowZero | app/api/routes/inventory.py:61 | no lower bound: 1 in stock and -3 adjusted leaves -2 |
| Inventory.CreateAdjustment | app/api/routes/inventory.py:45-66 | the adjustment is always appended, owned by the caller, and returned; products change exactly by `AdjustStock` |
| Inventory.OwnedBy | app/api/routes/inventory.py:28-39 | the owner filter holds only the owner's adjustments and every one of them |
| Inventory.OwnedByAppend | app/api/routes/inventory.py:36 | a new adjustment extends its owner's filtered list by itself and leaves others' lists as they were |
| Inventory.ReadAdjustments | app/api/routes/inventory.py:18-42 | the rows a caller may list are all adjustments for a superuser and their own (`OwnedBy`) otherwise; count is the number of those rows, and the page is exactly their OFFSET/LIMIT slice: min(limit, n - skip) rows from position skip, none when limit is 0 or skip >= n |
| Inventory.CreateThenCount | app/api/routes/inventory.py:18-66 | after the caller logs an adjustment, the count their listing reports is one more than before |

## Left out

- Authentication, JWT decoding and the `CurrentUser` dependency are not modelled. The caller arrives as a parameter: a user id for sales, and an id plus the superuser flag for inventory.
- The item routes are not part of this model. Items appear only as the set of existing item ids that the recipe checks consult.
- Floating point: money and quantities are exact rationals. The 10% tax and the running sums do not round.
- Concurrency: every route is one atomic step. The count-then-insert race in sale numbering, and interleavings between a read and a later `$inc`, are not modelled.
- Timestamps: `created_at` and `updated_at` are not stored. Listing sales "newest first" is modelled as reverse insertion order, which assumes the clock never goes backwards.
- The store's id generation is a parameter. Its freshness is a precondition of each insert.
- Id representations: the routes mix raw strings and `ObjectId` conversions. For example, recipes store `product_id` as given while `delete_product` counts recipes by an `ObjectId`. The model treats every id as one string type, so such mismatches cannot show. `ValidId` stands for `ObjectId.is_valid` on a string, which is 24 hexadecimal digits.
- Explicit `null`s in partial updates are not modelled. A field is either set to a value or unset. `update_recipe`'s `if recipe_in.product_id:` is treated as "a product id is supplied".
- Recipes.UpdateRecipe: a falsy `product_id` (an explicit `null`, or `""`) skips the product check in the source, yet the `$set` still writes it. The source's update_recipe can therefore leave a recipe naming no product. The model has no `null`, and it checks every set product id, `""` included; a `""` that names no product gives 404 where the source writes it. So the "recipe invariant is kept" clause holds for the model, not for the source on a falsy product id.
- The routes and the declared schemas disagree on several names, and the model follows the routes:
  - Sales read `unit_price` and `discount` on lines.
  - Sales move `stock_quantity`, while the catalog creates and updates `current_stock`. A product created through the catalog therefore starts with `stockQuantity` 0.
  - Recipes read `product_id` and ingredient `item_id`, and the recipe update reads `product_id` and `ingredients`.
- No route checks that stock stays non-negative or that quantities are positive, and the model adds no such guard. `Ledger.DeductBelowZero` and `Inventory.WasteBelowZero` exhibit this.
- The foreign-key constraint on an adjustment's `product_id`, enforced by the database at commit, is not modelled. The route appends the adjustment whether or not the product exists.
- Response shaping (`Recipe(**dict)` and similar) is not modelled. A validation error raised while building a response would be a foreign failure.
- Negative `skip`/`limit` are not modelled (they are `nat`). The order of SQL rows without `ORDER BY` is taken to be insertion order.
- A Mongo `find()` without a sort (products and recipes listing) is taken to return documents in insertion order; the store promises no particular order.
