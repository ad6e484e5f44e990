/** What a partial return does to one line of a confirmed sale. */
module Returns {
  import opened Rounding
  import opened Models

  /** The line after q of its units came back; None once nothing is left. A fixed discount
      shrinks with the quantity, a percentage needs no change. */
  function Shrink(line: Line, q: int): Option<Line>
    requires 0 < q <= line.quantity
  {
    var left := line.quantity - q;
    if left == 0 then None
    else if line.kind == Fixed && line.discount != 0 then
      var scaled := HalfUp(line.discount * left, line.quantity);
      Some(line.(quantity := left, discount := Min(scaled, line.price * left)))
    else
      Some(line.(quantity := left))
  }

  /** A discount rounded to nearest after scaling gives up at most what the returned units cost. */
  lemma ScaledDiscount(d: int, left: int, was: int, price: int)
    requires 0 < left < was && 0 <= d <= price * was
    ensures 0 <= HalfUp(d * left, was)
    ensures d - HalfUp(d * left, was) <= price * (was - left)
  {
    MulNonNeg(d, left);
    HalfUpMonotone(0 * was, d * left, was);
    Exact(0, was);
    ScaledBy(d, left, was, price, HalfUp(d * left, was));
  }

  lemma ScaledBy(d: int, left: int, was: int, price: int, s: int)
    requires 0 < left < was && d <= price * was
    requires 2 * (s * was - d * left) > -was
    ensures d - s <= price * (was - left)
  {
    var gone := was - left;
    // (d - s) * was < d * gone + was <= price * was * gone + was
    MulNonNeg(price * was - d, gone);
    Distribute(price * was, d, gone);
    Distribute(d, s, was);
    Distribute(was, left, d);
    Swap(price, was, gone);
    MultiplesOrdered(d - s, price * gone, was);
  }

  /** A percentage line: taking units off lowers the rounded total or leaves it. */
  lemma PercentTotalMonotone(s: int, t: int, v: int)
    requires 0 <= t <= s && 0 <= v <= 10000
    ensures t - HalfUp(t * v, 10000) <= s - HalfUp(s * v, 10000)
  {
    assert t * v >= 0;
    assert (s - t) * (10000 - v) >= 0;
    assert s * v <= t * v + (s - t) * 10000;
    HalfUpMonotone(s * v, t * v + (s - t) * 10000, 10000);
    HalfUpShift(t * v, s - t, 10000);
  }

  /** The clamp to the new subtotal never bites on a line whose discount fitted the old one. */
  lemma ClampIdle(line: Line, q: int)
    requires line.Valid() && line.kind == Fixed && 0 < q < line.quantity
    ensures HalfUp(line.discount * (line.quantity - q), line.quantity) <= line.price * (line.quantity - q)
  {
    var left, was := line.quantity - q, line.quantity;
    MulAtLeast(line.price * was, line.discount, left);
    HalfUpMonotone(line.discount * left, line.price * was * left, was);
    Swap(line.price, was, left);
    Exact(line.price * left, was);
  }

  lemma ShrinkKeepsValid(line: Line, q: int)
    requires line.Valid() && 0 < q <= line.quantity
    ensures Shrink(line, q).Some? ==> Shrink(line, q).value.Valid()
  {
    var left := line.quantity - q;
    if left != 0 && line.kind == Fixed {
      ScaledDiscount(line.discount, left, line.quantity, line.price);
      line.(quantity := left).SubtotalNonNeg();
    }
  }

  /** A return never raises what the line costs. */
  lemma ShrinkNeverRaises(line: Line, q: int)
    requires line.Valid() && 0 < q <= line.quantity
    ensures 0 <= RowTotal(Shrink(line, q)) <= line.LineTotal()
  {
    ShrinkKeepsValid(line, q);
    var left := line.quantity - q;
    if left != 0 {
      var small := Shrink(line, q).value;
      small.SubtotalNonNeg();
      assert line.Subtotal() - small.Subtotal() == line.price * q;
      MulAtLeast(line.price, 0, q);
      if line.kind == Fixed {
        ScaledDiscount(line.discount, left, line.quantity, line.price);
      } else if line.kind == Percent {
        PercentInRange(small.Subtotal(), line.discount);
        PercentInRange(line.Subtotal(), line.discount);
        PercentTotalMonotone(line.Subtotal(), small.Subtotal(), line.discount);
      }
    }
  }

  /** K partial returns of one line, none of which empties it. */
  predicate Sequence(line: Line, qs: seq<int>, end: Line)
    decreases |qs|
  {
    if qs == [] then end == line
    else
      && 0 < qs[0] < line.quantity
      && Sequence(Shrink(line, qs[0]).value, qs[1..], end)
  }

  /** Twice the distance of the discount from its exact proportional share d0 * quantity / q0,
      scaled by q0 to stay whole. */
  function Drift(d0: int, q0: int, line: Line): int
  {
    2 * (line.discount * q0 - d0 * line.quantity)
  }

  /** After K partial returns the fixed discount is within K/2 cents of its exact share of the original. */
  lemma {:induction false} DriftBound(first: Line, line: Line, k: nat, qs: seq<int>, end: Line)
    requires first.kind == Fixed && line.kind == Fixed && line.Valid() && line.quantity <= first.quantity
    requires -(k * first.quantity) <= Drift(first.discount, first.quantity, line) <= k * first.quantity
    requires Sequence(line, qs, end)
    ensures -((k + |qs|) * first.quantity) <= Drift(first.discount, first.quantity, end)
    ensures Drift(first.discount, first.quantity, end) <= (k + |qs|) * first.quantity
    decreases |qs|
  {
    if qs != [] {
      var next := Shrink(line, qs[0]).value;
      ShrinkKeepsValid(line, qs[0]);
      ClampIdle(line, qs[0]);
      if line.discount == 0 {
        Exact(0, line.quantity);
      }
      DriftStep(first.discount, first.quantity, line.discount, line.quantity, next.discount, next.quantity, k);
      DriftBound(first, next, k + 1, qs[1..], end);
    }
  }

  lemma {:induction false} PartialReturnsDrift(line: Line, qs: seq<int>, end: Line)
    requires line.kind == Fixed && line.Valid() && Sequence(line, qs, end)
    ensures -(|qs| * line.quantity) <= Drift(line.discount, line.quantity, end) <= |qs| * line.quantity
  {
    DriftBound(line, line, 0, qs, end);
  }

  lemma DriftStep(d0: int, q0: int, d: int, q: int, e: int, left: int, k: int)
    requires 0 < left < q <= q0 && k >= 0
    requires -q <= 2 * (e * q - d * left) <= q
    requires -(k * q0) <= 2 * (d * q0 - d0 * q) <= k * q0
    ensures -((k + 1) * q0) <= 2 * (e * q0 - d0 * left) <= (k + 1) * q0
  {
    var a, b := 2 * (e * q - d * left), 2 * (d * q0 - d0 * q);
    var x := 2 * (e * q0 - d0 * left);
    DriftIdentity(d0, q0, d, q, e, left);
    MulNonNeg(k, q0);
    WithinScaled(a, q, q0, q0);
    WithinScaled(b, k * q0, left, q);
    ScaledBound(x, k * q0, q0, q);
    Distribute(k, 1, q0);
  }

  lemma WithinScaled(b: int, m: int, left: int, q: int)
    requires 0 < left <= q && -m <= b <= m
    ensures -(m * q) <= b * left <= m * q
  {
    MulAtLeast(m, b, left);
    MulAtLeast(b, -m, left);
    MulNonNeg(m, q - left);
    Distribute(q, left, m);
  }

  lemma DriftIdentity(d0: int, q0: int, d: int, q: int, e: int, left: int)
    ensures 2 * (e * q0 - d0 * left) * q == 2 * (e * q - d * left) * q0 + 2 * (d * q0 - d0 * q) * left
  {
  }

  lemma ScaledBound(x: int, kq0: int, q0: int, q: int)
    requires q > 0
    requires -(q * q0 + kq0 * q) <= x * q <= q * q0 + kq0 * q
    ensures -(kq0 + q0) <= x <= kq0 + q0
  {
    Distribute(kq0, q0, q);
    Distribute(-kq0, q0, q);
    MultiplesOrdered(x, kq0 + q0, q);
    MultiplesOrdered(-kq0 - q0, x, q);
  }
}
