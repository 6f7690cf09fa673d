/**
 * The inventory routes, which work on the relational session rather than the
 * document store: logging a stock adjustment, which also moves the stock of
 * the adjusted product when the caller owns it, and listing adjustments, all
 * of them for a superuser and only the caller's own for anyone else.
 */
module Inventory {
  import opened Store

  /** A product row; adjustments move `currentStock`. */
  datatype OwnedProduct = OwnedProduct(
    name: string,
    unit: string,
    currentStock: real,
    minStock: real,
    cost: real,
    category: string,
    ownerId: Id)

  /** The fields a caller supplies to log an adjustment. */
  datatype AdjustmentCreate = AdjustmentCreate(
    productId: Id,
    quantity: real,
    kind: string,
    reason: string,
    timestamp: int,
    userName: string)

  /** A stored adjustment: the request fields and the caller as owner. */
  datatype Adjustment = Adjustment(
    productId: Id,
    quantity: real,
    kind: string,
    reason: string,
    timestamp: int,
    userName: string,
    ownerId: Id)

  /** The authenticated caller. */
  datatype User = User(id: Id, isSuperuser: bool)

  /** The session's tables, with rows in insertion order. */
  class Session {
    var products: seq<Doc<OwnedProduct>>
    var adjustments: seq<Doc<Adjustment>>

    constructor ()
      ensures products == [] && adjustments == []
    {
      products, adjustments := [], [];
    }
  }

  /** The row logged for a request by this owner. */
  function Logged(input: AdjustmentCreate, owner: Id): Adjustment {
    Adjustment(input.productId, input.quantity, input.kind, input.reason, input.timestamp, input.userName, owner)
  }

  /** True when `k` is a row position and `owner` owns that row. */
  predicate OwnsAt(products: seq<Doc<OwnedProduct>>, owner: Id, k: int) {
    0 <= k < |products| && products[k].body.ownerId == owner
  }

  /**
   * The stock move of create_adjustment: the product with this id gains
   * `quantity` (negative for waste) when `owner` owns it; a missing product or
   * one owned by someone else is left alone. Nothing bounds the result.
   */
  function AdjustStock(products: seq<Doc<OwnedProduct>>, owner: Id, productId: Id, quantity: real)
    : (r: seq<Doc<OwnedProduct>>)
    ensures |r| == |products|
    ensures forall j :: 0 <= j < |r| ==> r[j].id == products[j].id && r[j].body.ownerId == products[j].body.ownerId
    ensures !OwnsAt(products, owner, IndexOf(products, productId)) ==> r == products
  {
    var k := IndexOf(products, productId);
    if OwnsAt(products, owner, k) then
      products[k := Doc(productId, products[k].body.(currentStock := products[k].body.currentStock + quantity))]
    else products
  }

  /**
   * Row by row: only the first row with the product id, and only when the
   * owner owns it, changes, and only in its current stock.
   */
  lemma AdjustStockAt(products: seq<Doc<OwnedProduct>>, owner: Id, productId: Id, quantity: real, i: nat)
    requires i < |products|
    ensures var r := AdjustStock(products, owner, productId, quantity);
            if products[i].id == productId && FirstOf(products, i) && products[i].body.ownerId == owner
            then r[i].body == products[i].body.(currentStock := products[i].body.currentStock + quantity)
            else r[i] == products[i]
  {
    IndexOfFirst(products, i);
  }

  /** Two adjustments of the same product by the same caller add up to one of the sum. */
  lemma AdjustStockTwice(products: seq<Doc<OwnedProduct>>, owner: Id, productId: Id, a: real, b: real)
    ensures AdjustStock(AdjustStock(products, owner, productId, a), owner, productId, b) ==
            AdjustStock(products, owner, productId, a + b)
  {
    var once := AdjustStock(products, owner, productId, a);
    IndexOfSameIds(once, products, productId);
  }

  /** An adjustment followed by its opposite leaves every product as it was. */
  lemma AdjustStockUndo(products: seq<Doc<OwnedProduct>>, owner: Id, productId: Id, quantity: real)
    ensures AdjustStock(AdjustStock(products, owner, productId, quantity), owner, productId, -quantity) == products
  {
    AdjustStockTwice(products, owner, productId, quantity, -quantity);
    var k := IndexOf(products, productId);
    if OwnsAt(products, owner, k) {
      assert products[k] == Doc(productId, products[k].body.(currentStock := products[k].body.currentStock + 0.0));
    }
  }

  /** Nothing stops waste from taking stock below zero: 1 unit in stock, 3 wasted, -2 left. */
  lemma WasteBelowZero(id: Id, owner: Id)
    ensures var products := [Doc(id, OwnedProduct("p", "unit", 1.0, 0.0, 0.0, "ingredient", owner))];
            AdjustStock(products, owner, id, -3.0)[0].body.currentStock == -2.0
  {
    var products := [Doc(id, OwnedProduct("p", "unit", 1.0, 0.0, 0.0, "ingredient", owner))];
    AdjustStockAt(products, owner, id, -3.0, 0);
  }

  /**
   * create_adjustment: the adjustment is always logged, owned by the caller,
   * and the caller's own product with that id gains its quantity; the
   * logged row is returned.
   */
  method CreateAdjustment(session: Session, user: User, input: AdjustmentCreate, newId: Id)
    returns (logged: Doc<Adjustment>)
    requires newId !in Ids(session.adjustments)
    modifies session
    ensures logged == Doc(newId, Logged(input, user.id))
    ensures session.adjustments == old(session.adjustments) + [logged]
    ensures session.products == AdjustStock(old(session.products), user.id, input.productId, input.quantity)
  {
    logged := Doc(newId, Logged(input, user.id));
    session.adjustments := session.adjustments + [logged];
    var k := IndexOf(session.products, input.productId);
    if k >= 0 && session.products[k].body.ownerId == user.id {
      var product := session.products[k].body;
      session.products := session.products[k := Doc(input.productId, product.(currentStock := product.currentStock + input.quantity))];
    }
  }

  /** The adjustments this owner logged, in order. */
  function OwnedBy(adjustments: seq<Doc<Adjustment>>, owner: Id): (r: seq<Doc<Adjustment>>)
    ensures |r| <= |adjustments|
    ensures forall i :: 0 <= i < |r| ==> r[i].body.ownerId == owner && r[i] in adjustments
    ensures forall i :: 0 <= i < |adjustments| && adjustments[i].body.ownerId == owner ==> adjustments[i] in r
  {
    if adjustments == [] then []
    else
      assert forall i :: 1 <= i < |adjustments| ==> adjustments[i] == adjustments[1..][i - 1];
      (if adjustments[0].body.ownerId == owner then [adjustments[0]] else []) + OwnedBy(adjustments[1..], owner)
  }

  /** Logging one more adjustment extends its owner's list by it and no one else's. */
  lemma {:induction false} OwnedByAppend(adjustments: seq<Doc<Adjustment>>, a: Doc<Adjustment>, owner: Id)
    ensures OwnedBy(adjustments + [a], owner) ==
            OwnedBy(adjustments, owner) + (if a.body.ownerId == owner then [a] else [])
  {
    if adjustments != [] {
      assert (adjustments + [a])[1..] == adjustments[1..] + [a];
      OwnedByAppend(adjustments[1..], a, owner);
    } else {
      assert OwnedBy([], owner) == [];
      assert [a][1..] == [];
    }
  }

  /** The adjustments a caller may list: all of them for a superuser, their own otherwise. */
  function VisibleTo(adjustments: seq<Doc<Adjustment>>, user: User): seq<Doc<Adjustment>> {
    if user.isSuperuser then adjustments else OwnedBy(adjustments, user.id)
  }

  /**
   * read_adjustments: the count is the number of adjustments the caller may
   * list, and the page is the OFFSET/LIMIT slice of them, in order; the SQL
   * LIMIT returns no rows when it is 0.
   */
  function ReadAdjustments(session: Session, user: User, skip: nat, limit: nat): (r: Page<Doc<Adjustment>>)
    reads session
    ensures user.isSuperuser ==> r.count == |session.adjustments|
    ensures !user.isSuperuser ==> r.count == |OwnedBy(session.adjustments, user.id)|
    ensures var visible := VisibleTo(session.adjustments, user);
            |r.data| == if skip >= |visible| then 0 else if |visible| - skip <= limit then |visible| - skip else limit
    ensures var visible := VisibleTo(session.adjustments, user);
            forall i :: 0 <= i < |r.data| ==> skip + i < |visible| && r.data[i] == visible[skip + i]
    ensures forall i :: 0 <= i < |r.data| ==> r.data[i] in session.adjustments
    ensures !user.isSuperuser ==> forall i :: 0 <= i < |r.data| ==> r.data[i].body.ownerId == user.id
  {
    var visible := VisibleTo(session.adjustments, user);
    Page(SqlPage(visible, skip, limit), |visible|)
  }

  /**
   * After a caller logs an adjustment, the count their own listing reports
   * grows by one.
   */
  method CreateThenCount(session: Session, user: User, input: AdjustmentCreate, newId: Id)
    returns (before: nat, after: nat)
    requires newId !in Ids(session.adjustments)
    modifies session
    ensures after == before + 1
  {
    before := ReadAdjustments(session, user, 0, 0).count;
    ghost var old_adjustments := session.adjustments;
    var logged := CreateAdjustment(session, user, input, newId);
    OwnedByAppend(old_adjustments, logged, user.id);
    after := ReadAdjustments(session, user, 0, 0).count;
  }
}
