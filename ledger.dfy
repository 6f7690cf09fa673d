/**
 * How sales move stock: each line increments the `stockQuantity` of the
 * first product with its id by minus (creation) or plus (cancellation) the
 * line quantity. An increment that matches no product changes nothing, and
 * nothing bounds the result below.
 */
module Ledger {
  import opened Store
  import opened Documents

  /** Creating a sale deducts its lines; cancelling it restores them. */
  datatype Direction = Deduct | Restore

  function Signed(dir: Direction, quantity: real): real {
    if dir == Deduct then -quantity else quantity
  }

  /** A product document with `delta` added to its stock_quantity. */
  function Bump(doc: Doc<Product>, delta: real): Doc<Product> {
    Doc(doc.id, doc.body.(stockQuantity := doc.body.stockQuantity + delta))
  }

  /** `$inc` of stock_quantity on the first product with this id; no match, no change. */
  function IncStock(products: seq<Doc<Product>>, id: Id, delta: real): (r: seq<Doc<Product>>)
    ensures |r| == |products|
    ensures forall j :: 0 <= j < |r| ==> r[j].id == products[j].id
  {
    var k := IndexOf(products, id);
    if k < 0 then products else products[k := Bump(products[k], delta)]
  }

  /** The products after one increment per line, in line order. */
  function Moved(products: seq<Doc<Product>>, lines: seq<SaleLine>, dir: Direction): (r: seq<Doc<Product>>)
    ensures |r| == |products|
    ensures forall j :: 0 <= j < |r| ==> r[j].id == products[j].id
  {
    if lines == [] then products
    else
      var last := lines[|lines| - 1];
      IncStock(Moved(products, lines[..|lines| - 1], dir), last.productId, Signed(dir, last.quantity))
  }

  /** Moving one more line is one more increment. */
  lemma MovedStep(products: seq<Doc<Product>>, lines: seq<SaleLine>, dir: Direction, i: nat)
    requires i < |lines|
    ensures Moved(products, lines[..i + 1], dir) ==
            IncStock(Moved(products, lines[..i], dir), lines[i].productId, Signed(dir, lines[i].quantity))
  {
    assert lines[..i + 1][..i] == lines[..i];
  }

  /** The total quantity of the lines that name this product. */
  function QuantityOf(lines: seq<SaleLine>, id: Id): real {
    if lines == [] then 0.0
    else
      var last := lines[|lines| - 1];
      QuantityOf(lines[..|lines| - 1], id) + (if last.productId == id then last.quantity else 0.0)
  }

  /** One increment touches only the first product with its id. */
  lemma IncStockAt(products: seq<Doc<Product>>, id: Id, delta: real, i: nat)
    requires i < |products|
    ensures |IncStock(products, id, delta)| == |products|
    ensures IncStock(products, id, delta)[i] ==
              if products[i].id == id && FirstOf(products, i) then Bump(products[i], delta) else products[i]
  {
    IndexOfFirst(products, i);
  }

  /**
   * After moving stock for a run of lines, the first product with each id has
   * its stock_quantity shifted by the total quantity of the lines naming that
   * id (down for Deduct, up for Restore); every other document is unchanged.
   */
  lemma {:induction false} MovedAt(products: seq<Doc<Product>>, lines: seq<SaleLine>, dir: Direction, i: nat)
    requires i < |products|
    ensures Moved(products, lines, dir)[i] ==
              if FirstOf(products, i) then Bump(products[i], Signed(dir, QuantityOf(lines, products[i].id)))
              else products[i]
  {
    if lines != [] {
      var prefix := lines[..|lines| - 1];
      var last := lines[|lines| - 1];
      var before := Moved(products, prefix, dir);
      MovedAt(products, prefix, dir, i);
      SameIdsSameFirst(before, products, i);
      IncStockAt(before, last.productId, Signed(dir, last.quantity), i);
    }
  }

  /** A product that no line names has nothing to move. */
  lemma {:induction false} QuantityOfUnnamed(lines: seq<SaleLine>, id: Id)
    requires forall j :: 0 <= j < |lines| ==> lines[j].productId != id
    ensures QuantityOf(lines, id) == 0.0
  {
    if lines != [] {
      QuantityOfUnnamed(lines[..|lines| - 1], id);
    }
  }

  /** Restoring the lines of a sale undoes deducting them: every product is as before. */
  lemma RestoreUndoesDeduct(products: seq<Doc<Product>>, lines: seq<SaleLine>)
    ensures Moved(Moved(products, lines, Deduct), lines, Restore) == products
  {
    var deducted := Moved(products, lines, Deduct);
    var restored := Moved(deducted, lines, Restore);
    forall i | 0 <= i < |products|
      ensures restored[i] == products[i]
    {
      MovedAt(products, lines, Deduct, i);
      MovedAt(deducted, lines, Restore, i);
      SameIdsSameFirst(deducted, products, i);
    }
  }

  /** Nothing stops a sale from taking stock below zero: 1 unit in stock, 5 sold, -4 left. */
  lemma DeductBelowZero(id: Id)
    ensures var products := [Doc(id, Product("p", "unit", 0.0, 0.0, 0.0, "final-product", 1.0))];
            Moved(products, [SaleLine(id, 5.0, 2.0, 0.0, 10.0)], Deduct)[0].body.stockQuantity == -4.0
  {
    var products := [Doc(id, Product("p", "unit", 0.0, 0.0, 0.0, "final-product", 1.0))];
    var lines := [SaleLine(id, 5.0, 2.0, 0.0, 10.0)];
    MovedAt(products, lines, Deduct, 0);
    assert lines[..0] == [];
  }
}
