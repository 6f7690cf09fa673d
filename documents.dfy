/**
 * The records of the document store that the product, recipe and sale routes
 * share, and the store itself: one table per collection.
 *
 * Money and quantities are exact rationals (`real`); the source keeps them as
 * binary floating point.
 */
module Documents {
  import opened Store

  /**
   * A product document. `currentStock` is the field the catalog routes create
   * and update; `stockQuantity` is the field the sale routes increment and
   * decrement. A product created through the catalog has no `stockQuantity`,
   * and the store's increment treats a missing field as 0.
   */
  datatype Product = Product(
    name: string,
    unit: string,
    currentStock: real,
    minStock: real,
    cost: real,
    category: string,
    stockQuantity: real)

  /** One line of a sale request. */
  datatype SaleLineIn = SaleLineIn(productId: Id, quantity: real, unitPrice: real, discount: real)

  /** One stored line of a sale: the request line with its computed subtotal. */
  datatype SaleLine = SaleLine(productId: Id, quantity: real, unitPrice: real, discount: real, subtotal: real)

  /** A sale's status; creation stores Completed and cancellation Cancelled. */
  datatype SaleStatus = Completed | Cancelled

  /** The request fields a sale stores without looking at them. */
  datatype SaleDetails = SaleDetails(
    customerName: string,
    customerEmail: string,
    customerPhone: string,
    paymentMethod: string,
    notes: string)

  /** A sale document. */
  datatype Sale = Sale(
    saleNumber: string,
    details: SaleDetails,
    items: seq<SaleLine>,
    subtotal: real,
    tax: real,
    discount: real,
    total: real,
    status: SaleStatus,
    userId: Id)

  /** One ingredient of a recipe: an item and the amount used. */
  datatype Ingredient = Ingredient(itemId: Id, quantity: real)

  /** A recipe document: it names the product it makes and its ingredients. */
  datatype Recipe = Recipe(
    name: string,
    preparationTime: int,
    price: real,
    category: string,
    productId: Id,
    ingredients: seq<Ingredient>)

  /** The document store's collections. Items matter here only by their ids. */
  class Database {
    var products: seq<Doc<Product>>
    var sales: seq<Doc<Sale>>
    var recipes: seq<Doc<Recipe>>
    var items: set<Id>

    constructor ()
      ensures products == [] && sales == [] && recipes == [] && items == {}
    {
      products, sales, recipes, items := [], [], [], {};
    }
  }

  /** Every recipe's product_id names a product that exists. */
  predicate RecipesNameProducts(products: seq<Doc<Product>>, recipes: seq<Doc<Recipe>>) {
    forall j :: 0 <= j < |recipes| ==> recipes[j].body.productId in Ids(products)
  }
}
