/**
 * The sale routes: listing, lookup, creation (which prices the lines, numbers
 * the sale and deducts stock) and deletion, which cancels the sale and
 * restores its stock.
 */
module Sales {
  import opened Store
  import opened Documents
  import opened SaleTotals
  import opened SaleNumbers
  import opened Ledger

  /** A sale request: the fields stored as given, and the lines to price. */
  datatype SaleCreate = SaleCreate(details: SaleDetails, items: seq<SaleLineIn>)

  /** The product ids of a run of request lines, in order. */
  function ProductIdsOf(lines: seq<SaleLineIn>): (ids: seq<Id>)
    ensures |ids| == |lines|
    ensures forall i :: 0 <= i < |lines| ==> ids[i] == lines[i].productId
  {
    seq(|lines|, i requires 0 <= i < |lines| => lines[i].productId)
  }

  /** A table in order of decreasing creation time, i.e. last inserted first. */
  function NewestFirst<T>(s: seq<T>): (r: seq<T>)
    ensures |r| == |s|
    ensures forall i :: 0 <= i < |s| ==> r[i] == s[|s| - 1 - i]
  {
    if s == [] then [] else [s[|s| - 1]] + NewestFirst(s[..|s| - 1])
  }

  /** read_sales: one page of the sales, newest first, and the number of all sales. */
  function ReadSales(db: Database, skip: nat, limit: nat): (r: Page<Doc<Sale>>)
    reads db
    ensures r.count == |db.sales|
    ensures limit != 0 ==> |r.data| <= limit
    ensures skip >= |db.sales| ==> r.data == []
    ensures skip < |db.sales| ==>
              |r.data| == if limit == 0 || |db.sales| - skip <= limit then |db.sales| - skip else limit
    ensures forall i :: 0 <= i < |r.data| ==>
              skip + i < |db.sales| && r.data[i] == db.sales[|db.sales| - 1 - (skip + i)]
  {
    Page(MongoPage(NewestFirst(db.sales), skip, limit), |db.sales|)
  }

  /** read_sale: the sale with this id, or 404. */
  function ReadSale(db: Database, id: Id): (r: Result<Doc<Sale>>)
    reads db
    ensures r.Err? <==> id !in Ids(db.sales)
    ensures r.Err? ==> r.error == HttpError(404, "Sale not found")
    ensures r.Ok? ==> r.value.id == id &&
                      exists k :: 0 <= k < |db.sales| && db.sales[k] == r.value && FirstOf(db.sales, k)
  {
    var k := IndexOf(db.sales, id);
    if k < 0 then Err(HttpError(404, "Sale not found")) else Ok(db.sales[k])
  }

  /**
   * The checking and pricing loop of create_sale: each line's product must
   * exist, in line order, and the first missing one is reported; otherwise
   * the priced lines and their subtotal. Nothing is written.
   */
  method PriceSaleItems(products: seq<Doc<Product>>, items: seq<SaleLineIn>)
    returns (missing: Option<Id>, lines: seq<SaleLine>, subtotal: real)
    ensures missing == FirstAbsent(Ids(products), ProductIdsOf(items))
    ensures missing.None? ==> lines == PriceLines(items) && subtotal == SumSubtotals(lines)
  {
    ghost var wanted := ProductIdsOf(items);
    ghost var present := Ids(products);
    lines, subtotal := [], 0.0;
    var i := 0;
    while i < |items|
      invariant 0 <= i <= |items|
      invariant forall j :: 0 <= j < i ==> wanted[j] in present
      invariant lines == PriceLines(items[..i])
      invariant subtotal == SumSubtotals(lines)
    {
      var item := items[i];
      if IndexOf(products, item.productId) < 0 {
        FirstAbsentAt(present, wanted, i);
        return Some(item.productId), lines, subtotal;
      }
      assert wanted[i] in present;
      var itemSubtotal := item.unitPrice * item.quantity - item.discount;
      subtotal := subtotal + itemSubtotal;
      var line := SaleLine(item.productId, item.quantity, item.unitPrice, item.discount, itemSubtotal);
      assert items[..i + 1][..i] == items[..i] && items[..i + 1][i] == item;
      assert line == PriceLine(item);
      assert PriceLines(items[..i + 1]) == lines + [line];
      SumSubtotalsAppend(lines, [line]);
      lines := lines + [line];
      i := i + 1;
    }
    assert items[..i] == items;
    missing := None;
  }

  /**
   * The stock loops of create_sale and delete_sale: one `$inc` of
   * stock_quantity per line, by minus or plus the line quantity.
   */
  method MoveStock(db: Database, lines: seq<SaleLine>, dir: Direction)
    modifies db`products
    ensures db.products == Moved(old(db.products), lines, dir)
  {
    var i := 0;
    while i < |lines|
      invariant 0 <= i <= |lines|
      invariant db.products == Moved(old(db.products), lines[..i], dir)
    {
      MovedStep(old(db.products), lines, dir, i);
      var delta := Signed(dir, lines[i].quantity);
      db.products := IncStock(db.products, lines[i].productId, delta);
      i := i + 1;
    }
    assert lines[..i] == lines;
  }

  /**
   * create_sale. Every line's product must exist, checked in line order before
   * anything is written; the first missing one is reported with 404. Otherwise
   * the sale is appended with its priced lines, its number, a 10% tax, no
   * sale-level discount and status Completed, and each line then lowers its
   * product's stock_quantity by the line quantity, with no lower bound.
   */
  method CreateSale(db: Database, user: Id, saleIn: SaleCreate, newId: Id) returns (r: Result<Doc<Sale>>)
    requires newId !in Ids(db.sales)
    modifies db`sales, db`products
    ensures var missing := FirstAbsent(Ids(old(db.products)), ProductIdsOf(saleIn.items));
            missing.Some? ==>
              && r == Err(HttpError(404, "Product " + missing.value + " not found"))
              && db.sales == old(db.sales)
              && db.products == old(db.products)
    ensures r.Ok? <==> FirstAbsent(Ids(old(db.products)), ProductIdsOf(saleIn.items)).None?
    ensures r.Ok? ==>
              var lines := PriceLines(saleIn.items);
              && r.value == Doc(newId, Sale(SaleNumber(|old(db.sales)|), saleIn.details, lines,
                                            SumSubtotals(lines), Tax(SumSubtotals(lines)), 0.0,
                                            Total(SumSubtotals(lines)), Completed, user))
              && db.sales == old(db.sales) + [r.value]
              && Find(db.sales, newId) == Some(r.value)
              && db.products == Moved(old(db.products), lines, Deduct)
  {
    var missing, lines, subtotal := PriceSaleItems(db.products, saleIn.items);
    if missing.Some? {
      return Err(HttpError(404, "Product " + missing.value + " not found"));
    }

    var count := |db.sales|;
    var saleNumber := SaleNumber(count);
    var tax := Tax(subtotal);
    var total := Total(subtotal);
    var sale := Doc(newId, Sale(saleNumber, saleIn.details, lines, subtotal, tax, 0.0, total, Completed, user));
    FindAppended(db.sales, sale);
    db.sales := db.sales + [sale];

    MoveStock(db, lines, Deduct);
    r := Ok(sale);
  }

  /**
   * delete_sale, which cancels rather than deletes: 404 for an unknown sale,
   * 400 for a sale already cancelled (both change nothing); otherwise each
   * stored line gives its quantity back to its product and the sale becomes
   * Cancelled, keeping its lines.
   */
  method CancelSale(db: Database, id: Id) returns (r: Result<string>)
    modifies db`sales, db`products
    ensures id !in Ids(old(db.sales)) ==>
              && r == Err(HttpError(404, "Sale not found"))
              && db.sales == old(db.sales) && db.products == old(db.products)
    ensures id in Ids(old(db.sales)) ==>
              var k := IndexOf(old(db.sales), id);
              var sale := old(db.sales)[k].body;
              if sale.status == Cancelled then
                && r == Err(HttpError(400, "Sale already cancelled"))
                && db.sales == old(db.sales) && db.products == old(db.products)
              else
                && r == Ok("Sale cancelled successfully")
                && db.sales == old(db.sales)[k := Doc(id, sale.(status := Cancelled))]
                && db.products == Moved(old(db.products), sale.items, Restore)
  {
    var k := IndexOf(db.sales, id);
    if k < 0 {
      return Err(HttpError(404, "Sale not found"));
    }
    var sale := db.sales[k].body;
    if sale.status == Cancelled {
      return Err(HttpError(400, "Sale already cancelled"));
    }

    MoveStock(db, sale.items, Restore);
    db.sales := db.sales[k := Doc(id, sale.(status := Cancelled))];
    r := Ok("Sale cancelled successfully");
  }

  /**
   * A sale created and then cancelled leaves every product's stock as it was
   * before the sale, and a second cancellation is refused without touching
   * stock: stock is restored at most once.
   */
  method CreateThenCancelTwice(db: Database, user: Id, saleIn: SaleCreate, newId: Id)
    returns (created: Result<Doc<Sale>>, first: Result<string>, second: Result<string>)
    requires newId !in Ids(db.sales)
    modifies db`sales, db`products
    ensures created.Ok? ==> first == Ok("Sale cancelled successfully")
    ensures created.Ok? ==> second == Err(HttpError(400, "Sale already cancelled"))
    ensures db.products == old(db.products)
  {
    created := CreateSale(db, user, saleIn, newId);
    ghost var afterCreate := db.sales;
    first := CancelSale(db, newId);
    if created.Ok? {
      IndexOfSameIds(db.sales, afterCreate, newId);
    }
    second := CancelSale(db, newId);
    if created.Ok? {
      RestoreUndoesDeduct(old(db.products), created.value.body.items);
    }
  }
}
