/** What lines and sales are worth: discounts, frozen totals, and what a partial return leaves of them. */
module Pricing {
  import opened Rounding
  import opened Sums
  import opened Models
  import opened Returns
  import opened Shop
  import opened Booking

  // ---- one line ----

  /** The discount itself: a percentage of the subtotal to the nearest cent, ties up; a fixed amount as agreed. */
  lemma DiscountExact(line: Line)
    requires line.Valid()
    ensures line.kind == Percent ==>
              -10000 < 2 * (10000 * line.DiscountAmount() - line.price * line.quantity * line.discount) <= 10000
    ensures line.kind == Fixed ==> line.DiscountAmount() == line.discount
    ensures line.kind == NoDiscount ==> line.DiscountAmount() == 0
  {
    line.SubtotalNonNeg();
    if line.kind == Percent {
      PercentInRange(line.Subtotal(), line.discount);
    }
  }

  /** What a row is worth before rounding, in ten-thousandths of a cent. */
  function ExactNet(): Option<Line> -> int
  {
    (row: Option<Line>) =>
      if row.None? then 0
      else
        var line := row.value;
        if line.kind == Percent then line.price * line.quantity * (10000 - line.discount)
        else if line.kind == Fixed then 10000 * (line.price * line.quantity - line.discount)
        else 10000 * (line.price * line.quantity)
  }

  function PercentRows(): Option<Line> -> int
  {
    (row: Option<Line>) => if row.Some? && row.value.kind == Percent then 1 else 0
  }

  lemma RowTotalExact(row: Option<Line>)
    requires row.Some? ==> row.value.Valid()
    ensures -10000 * PercentRows()(row) <= 2 * (10000 * RowTotal(row) - ExactNet()(row)) <= 10000 * PercentRows()(row)
  {
    if row.Some? {
      var line := row.value;
      DiscountExact(line);
      if line.kind == Percent {
        Distribute(10000, line.discount, line.price * line.quantity);
        assert line.price * line.quantity * (10000 - line.discount) ==
               10000 * (line.price * line.quantity) - line.price * line.quantity * line.discount;
      }
    }
  }

  /** The sum of the rounded line totals is within half a cent a percentage line of what the lines are worth. */
  lemma {:induction false} TotalExact(rows: seq<Option<Line>>)
    requires RowsValid(rows)
    ensures var n := Sum(rows, PercentRows());
            -10000 * n <= 2 * (10000 * RowsTotal(rows) - Sum(rows, ExactNet())) <= 10000 * n
  {
    if rows != [] {
      TotalExact(rows[..|rows| - 1]);
      RowTotalExact(rows[|rows| - 1]);
    }
  }

  // ---- confirmed sales ----

  /** The total follows the discounted lines, and its som value is the total at the frozen rate rounded up to the
      cent: never less, less than a cent more. */
  predicate TotalsRight(sale: Sale)
  {
    var n := Sum(sale.rows, PercentRows());
    && -10000 * n <= 2 * (10000 * sale.total - Sum(sale.rows, ExactNet())) <= 10000 * n
    && 0 <= sale.totalKgs * RATE_UNIT - sale.total * sale.rate < RATE_UNIT
  }

  lemma SaleTotals(sale: Sale)
    requires SaleOk(sale) && sale.status == Confirmed
    ensures TotalsRight(sale)
  {
    TotalExact(sale.rows);
    forall i | 0 <= i < |sale.rows| ensures RowTotal(sale.rows[i]) >= 0 {}
    SumNonNeg(sale.rows, RowTotal);
    MulNonNeg(sale.total, sale.rate);
  }

  /** Of every confirmed sale after any run of confirmations, returns and everything else. */
  lemma {:induction false} ConfirmedTotals(ops: seq<Op>, s: nat)
    requires s < |Run(EMPTY, ops).sales| && Run(EMPTY, ops).sales[s].status == Confirmed
    ensures TotalsRight(Run(EMPTY, ops).sales[s])
  {
    RunInv(ops);
    SaleTotals(Run(EMPTY, ops).sales[s]);
  }

  // ---- what a partial return leaves ----

  /** The units that stay are the same goods on the same terms. */
  predicate SameTerms(line: Line, rest: Line)
  {
    && rest.variant == line.variant && rest.price == line.price && rest.kind == line.kind
    && (line.kind != Fixed ==> rest.discount == line.discount)
  }

  lemma ShrinkTerms(line: Line, q: int)
    requires 0 < q <= line.quantity
    ensures Shrink(line, q).Some? <==> q < line.quantity
    ensures Shrink(line, q).Some? ==>
              Shrink(line, q).value.quantity == line.quantity - q && SameTerms(line, Shrink(line, q).value)
  {
  }

  /** Every row of a return either stays as it is or loses the returned units, on the same terms. */
  lemma ReturnedTerms(rows: seq<Option<Line>>, back: map<nat, int>, i: nat)
    requires i < |rows|
    ensures var after := RowsAfter(rows, back)[i];
            && (!Comes(rows[i], i, back) ==> after == rows[i])
            && (Comes(rows[i], i, back) ==> (after.Some? <==> back[i] < rows[i].value.quantity))
            && (Comes(rows[i], i, back) && after.Some? ==>
                  after.value.quantity == rows[i].value.quantity - back[i] && SameTerms(rows[i].value, after.value))
  {
    if Comes(rows[i], i, back) {
      ShrinkTerms(rows[i].value, back[i]);
    }
  }

  lemma PercentShare(s: int, t: int, v: int, was: int, left: int, d: int, e: int)
    requires s * v * left == t * v * was && 0 < left < was
    requires -10000 <= 2 * (10000 * d - s * v) <= 10000 && -10000 <= 2 * (10000 * e - t * v) <= 10000
    ensures -(was + left) <= 2 * (e * was - d * left) <= was + left
  {
    var x, y := 2 * (10000 * d - s * v), 2 * (10000 * e - t * v);
    WithinScaled(x, 10000, left, left);
    WithinScaled(y, 10000, was, was);
    Distribute(20000 * d, 2 * (s * v), left);
    Distribute(20000 * e, 2 * (t * v), was);
    assert x * left == 20000 * (d * left) - 2 * (s * v * left);
    assert y * was == 20000 * (e * was) - 2 * (t * v * was);
  }

  /** What stays is worth its share of what the line was worth, to within (was + left) / (2 was) < 1 cent, and exactly
      that where there is no discount. */
  lemma ShrinkProportional(line: Line, q: int)
    requires line.Valid() && 0 < q < line.quantity
    ensures var was, left := line.quantity, line.quantity - q;
            var gap := 2 * (RowTotal(Shrink(line, q)) * was - line.LineTotal() * left);
            && -(was + left) <= gap <= was + left
            && (line.kind == NoDiscount ==> gap == 0)
  {
    var was, left := line.quantity, line.quantity - q;
    var rest := Shrink(line, q).value;
    ShrinkKeepsValid(line, q);
    DiscountExact(line);
    DiscountExact(rest);
    var s, t, d, e := line.price * was, line.price * left, line.DiscountAmount(), rest.DiscountAmount();
    Swap(line.price, was, left);
    Distribute(s, d, left);
    Distribute(t, e, was);
    if line.kind == Percent {
      Swap(s, line.discount, left);
      Swap(t, line.discount, was);
      PercentShare(s, t, line.discount, was, left, d, e);
    } else if line.kind == Fixed {
      ClampIdle(line, q);
      MulNonNeg(line.discount, left);
      if line.discount == 0 {
        Exact(0, was);
      }
      assert e == HalfUp(d * left, was);
    }
  }

  /** A row's worth, the units that stay and the units there were. */
  datatype Part = Part(worth: int, left: int, was: int)

  function PartOf(row: Option<Line>, i: nat, back: map<nat, int>): Part
  {
    if row.None? then Part(0, 1, 1)
    else Part(row.value.LineTotal(), row.value.quantity - (if Comes(row, i, back) then back[i] else 0), row.value.quantity)
  }

  function Parts(rows: seq<Option<Line>>, back: map<nat, int>): (r: seq<Part>)
    ensures |r| == |rows| && forall i :: 0 <= i < |r| ==> r[i] == PartOf(rows[i], i, back)
  {
    seq(|rows|, i requires 0 <= i < |rows| => PartOf(rows[i], i, back))
  }

  function DownTo(): Part -> int { (p: Part) => if p.was > 0 then RoundDown(p.worth * p.left, p.was) else 0 }
  function UpTo(): Part -> int { (p: Part) => if p.was > 0 then RoundUp(p.worth * p.left, p.was) else 0 }

  lemma Neighbours(x: int, r: int, was: int)
    requires was > 0 && x >= 0 && -was < r * was - x < was
    ensures RoundDown(x, was) <= r <= RoundUp(x, was)
  {
    MultiplesOrdered(RoundDown(x, was), r, was);
    MultiplesOrdered(r, RoundUp(x, was), was);
  }

  lemma RowProportional(row: Option<Line>, i: nat, back: map<nat, int>)
    requires row.Some? ==> row.value.Valid()
    ensures DownTo()(PartOf(row, i, back)) <= RowTotal(RowAfter(row, i, back)) <= UpTo()(PartOf(row, i, back))
  {
    var p := PartOf(row, i, back);
    if row.None? {
      Exact(0, 1);
    } else if !Comes(row, i, back) {
      Exact(p.worth, p.was);
    } else if p.left == 0 {
      Exact(0, p.was);
    } else {
      ShrinkProportional(row.value, back[i]);
      MulNonNeg(p.worth, p.left);
      Neighbours(p.worth * p.left, RowTotal(RowAfter(row, i, back)), p.was);
    }
  }

  /** After a return the total lies between the lines' proportional worths all rounded down and all rounded up. */
  lemma ReturnedTotalProportional(sale: Sale, back: map<nat, int>)
    requires SaleOk(sale) && sale.status == Confirmed
    ensures Sum(Parts(sale.rows, back), DownTo()) <= ReturnedSale(sale, back).total <= Sum(Parts(sale.rows, back), UpTo())
  {
    var after := RowsAfter(sale.rows, back);
    forall i | 0 <= i < |after|
      ensures DownTo()(Parts(sale.rows, back)[i]) <= RowTotal(after[i]) <= UpTo()(Parts(sale.rows, back)[i])
    {
      RowProportional(sale.rows[i], i, back);
    }
    SumLe(Parts(sale.rows, back), after, DownTo(), RowTotal);
    SumLe(after, Parts(sale.rows, back), RowTotal, UpTo());
    if !HasItems(after) {
      NoLiveRows(after, 0);
    }
  }

  // ---- the sale of a production order ----

  function Asked(): OrderLine -> int { (l: OrderLine) => l.quantity * l.price }

  lemma SaleOfTotal(order: Order)
    requires OrderOk(order)
    ensures RowsTotal(SaleOf(order).rows) == Sum(order.lines, Asked())
  {
    var rows := SaleOf(order).rows;
    forall i | 0 <= i < |rows| ensures RowTotal(rows[i]) == Asked()(order.lines[i]) {
      DiscountExact(rows[i].value);
    }
    SumSame(rows, order.lines, RowTotal, Asked());
  }

  /** Handing an order over sells exactly what was ordered, to who ordered it, at the agreed prices. */
  lemma HandedOverSale(db: Db, o: nat, now: int, rate: Rate)
    requires Inv(db) && CanHandOver(db, o)
    ensures var d, order := Apply(db, HandOver(o, now, rate)), db.orders[o];
            && |d.sales| == |db.sales| + 1 && d.orders[o].sale == Some(|db.sales|)
            && var sale := d.sales[|db.sales|];
               && sale.client == Some(order.client) && sale.currency == order.currency
               && sale.status == Confirmed && !sale.historical && sale.confirmedAt == Some(now) && sale.rate == rate
               && |sale.rows| == |order.lines|
               && (forall i :: 0 <= i < |order.lines| ==>
                     sale.rows[i] == Some(Line(order.lines[i].variant, order.lines[i].quantity, order.lines[i].price, NoDiscount, 0)))
               && sale.total == Sum(order.lines, Asked())
  {
    assert OrderOk(db.orders[o]);
    SaleOfTotal(db.orders[o]);
  }
}
