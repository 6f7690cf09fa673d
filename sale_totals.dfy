/**
 * The arithmetic of a sale: line subtotals, the sale subtotal, a 10% tax
 * and the total. Exact rationals stand for the source's floats.
 */
module SaleTotals {
  import opened Documents

  /** The tax rate applied to a sale's subtotal. */
  const TaxRate: real := 0.1

  /** unit_price * quantity - discount. */
  function LineSubtotal(line: SaleLineIn): real {
    line.unitPrice * line.quantity - line.discount
  }

  /** The stored form of one request line. */
  function PriceLine(line: SaleLineIn): SaleLine {
    SaleLine(line.productId, line.quantity, line.unitPrice, line.discount, LineSubtotal(line))
  }

  /** The stored lines of a sale, one per request line, in request order. */
  function PriceLines(lines: seq<SaleLineIn>): (r: seq<SaleLine>)
    ensures |r| == |lines|
    ensures forall i :: 0 <= i < |lines| ==>
              && r[i].productId == lines[i].productId
              && r[i].quantity == lines[i].quantity
              && r[i].unitPrice == lines[i].unitPrice
              && r[i].discount == lines[i].discount
              && r[i].subtotal == lines[i].unitPrice * lines[i].quantity - lines[i].discount
  {
    if lines == [] then [] else PriceLines(lines[..|lines| - 1]) + [PriceLine(lines[|lines| - 1])]
  }

  /** The sum of the line subtotals. */
  function SumSubtotals(lines: seq<SaleLine>): (r: real)
    ensures lines == [] ==> r == 0.0
  {
    if lines == [] then 0.0 else SumSubtotals(lines[..|lines| - 1]) + lines[|lines| - 1].subtotal
  }

  /** Lines none of which has a negative subtotal sum to a non-negative subtotal. */
  lemma {:induction false} SumSubtotalsNonNegative(lines: seq<SaleLine>)
    requires forall i :: 0 <= i < |lines| ==> lines[i].subtotal >= 0.0
    ensures SumSubtotals(lines) >= 0.0
  {
    if lines != [] {
      SumSubtotalsNonNegative(lines[..|lines| - 1]);
    }
  }

  /** The sum over two runs of lines is the sum of the two sums. */
  lemma {:induction false} SumSubtotalsAppend(a: seq<SaleLine>, b: seq<SaleLine>)
    ensures SumSubtotals(a + b) == SumSubtotals(a) + SumSubtotals(b)
    decreases |b|
  {
    if b == [] {
      assert a + b == a;
    } else {
      assert (a + b)[..|a + b| - 1] == a + b[..|b| - 1];
      SumSubtotalsAppend(a, b[..|b| - 1]);
    }
  }

  /** The sale subtotal is the first line's subtotal plus the subtotal of the rest. */
  lemma {:induction false} SumSubtotalsFront(lines: seq<SaleLine>)
    requires lines != []
    ensures SumSubtotals(lines) == lines[0].subtotal + SumSubtotals(lines[1..])
  {
    assert lines == [lines[0]] + lines[1..];
    SumSubtotalsAppend([lines[0]], lines[1..]);
  }

  /** subtotal * 0.1. */
  function Tax(subtotal: real): (t: real)
    ensures t * 10.0 == subtotal
  {
    subtotal * TaxRate
  }

  /** The total charged: subtotal plus tax, and no sale-level discount. */
  function Total(subtotal: real): (t: real)
    ensures t == subtotal * 11.0 / 10.0
  {
    subtotal + Tax(subtotal)
  }

  /** Two lines (2 at 10.00 less 1.00, and 1 at 5.00) give 24.00, 2.40 and 26.40 exactly. */
  lemma TotalsExample()
    ensures var lines := PriceLines([SaleLineIn("a", 2.0, 10.0, 1.0), SaleLineIn("b", 1.0, 5.0, 0.0)]);
            && SumSubtotals(lines) == 24.0
            && Tax(SumSubtotals(lines)) == 2.4
            && Total(SumSubtotals(lines)) == 26.4
  {
    var lines := PriceLines([SaleLineIn("a", 2.0, 10.0, 1.0), SaleLineIn("b", 1.0, 5.0, 0.0)]);
    SumSubtotalsFront(lines);
    var rest := lines[1..];
    assert rest[..0] == [];
  }
}
