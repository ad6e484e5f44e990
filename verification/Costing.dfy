/** Production cost: an exact split of a batch's cost, and one run's cost absorbed into its accepted units. */
module Costing {
  import opened Rounding
  import opened Sums
  import opened Models

  function Ident(): int -> int { (x: int) => x }

  function Total(s: seq<int>): int { Sum(s, Ident()) }

  /** i is the last row with a positive weight. */
  predicate IsLast(weights: seq<int>, i: nat)
  {
    i < |weights| && weights[i] > 0 && forall j :: i < j < |weights| ==> weights[j] <= 0
  }

  /** Zero rows get nothing, every positive row but the last its rounded share, and the whole is the total. */
  ghost predicate IsSplit(total: int, weights: seq<int>, shares: seq<int>)
  {
    && |shares| == |weights|
    && (forall i :: 0 <= i < |weights| && weights[i] <= 0 ==> shares[i] == 0)
    && (total <= 0 || Total(weights) <= 0 ==> forall i :: 0 <= i < |shares| ==> shares[i] == 0)
    && (total > 0 && Total(weights) > 0 ==>
          && (forall i :: 0 <= i < |weights| && weights[i] > 0 && !IsLast(weights, i) ==>
                shares[i] == HalfUp(total * weights[i], Total(weights)))
          && Total(shares) == total)
  }

  /** Indices of the rows with a positive weight, in order. */
  method Positive(weights: seq<int>) returns (idx: seq<nat>)
    ensures forall k :: 0 <= k < |idx| ==> idx[k] < |weights| && weights[idx[k]] > 0
    ensures forall j, k :: 0 <= j < k < |idx| ==> idx[j] < idx[k]
    ensures forall i :: 0 <= i < |weights| && weights[i] > 0 ==> i in idx
  {
    idx := [];
    for i := 0 to |weights|
      invariant forall k :: 0 <= k < |idx| ==> idx[k] < i && weights[idx[k]] > 0
      invariant forall j, k :: 0 <= j < k < |idx| ==> idx[j] < idx[k]
      invariant forall j :: 0 <= j < i && weights[j] > 0 ==> j in idx
    {
      if weights[i] > 0 {
        idx := idx + [i];
      }
    }
  }

  lemma PositiveExists(weights: seq<int>)
    requires Total(weights) > 0
    ensures exists i :: 0 <= i < |weights| && weights[i] > 0
  {
    if forall i :: 0 <= i < |weights| ==> weights[i] <= 0 {
      SumLe(weights, weights, Ident(), Nought());
      SumZero(weights, Nought());
    }
  }

  function Nought(): int -> int { (x: int) => 0 }

  method SplitCostProportionally(total: int, weights: seq<int>) returns (shares: seq<int>)
    ensures IsSplit(total, weights, shares)
  {
    var totalWeight := 0;
    for i := 0 to |weights|
      invariant totalWeight == Total(weights[..i])
    {
      SumStep(weights, i, Ident());
      totalWeight := totalWeight + weights[i];
    }
    assert weights[..|weights|] == weights;
    shares := seq(|weights|, _ => 0);
    if totalWeight <= 0 || total <= 0 {
      return;
    }
    PositiveExists(weights);
    var idx := Positive(weights);
    shares := Fill(total, weights, totalWeight, idx);
    forall i | 0 <= i < |weights| && weights[i] > 0 && !IsLast(weights, i)
      ensures exists k :: 0 <= k < |idx| - 1 && idx[k] == i
    {
      var k :| 0 <= k < |idx| && idx[k] == i;
      var j :| i < j < |weights| && weights[j] > 0;
      var l :| 0 <= l < |idx| && idx[l] == j;
    }
  }

  /** Every positive row its rounded share; the last one whatever is not handed out yet. */
  method Fill(total: int, weights: seq<int>, totalWeight: int, idx: seq<nat>) returns (shares: seq<int>)
    requires totalWeight > 0 && idx != []
    requires forall k :: 0 <= k < |idx| ==> idx[k] < |weights|
    requires forall j, k :: 0 <= j < k < |idx| ==> idx[j] < idx[k]
    ensures |shares| == |weights| && Total(shares) == total
    ensures forall i :: 0 <= i < |weights| && i !in idx ==> shares[i] == 0
    ensures forall k :: 0 <= k < |idx| - 1 ==> shares[idx[k]] == HalfUp(total * weights[idx[k]], totalWeight)
  {
    shares := seq(|weights|, _ => 0);
    var handed := 0;
    SumZero(shares, Ident());
    for pos := 0 to |idx|
      invariant |shares| == |weights|
      invariant forall i :: 0 <= i < |weights| && i !in idx[..pos] ==> shares[i] == 0
      invariant forall k :: 0 <= k < pos && k < |idx| - 1 ==> shares[idx[k]] == HalfUp(total * weights[idx[k]], totalWeight)
      invariant Total(shares) == if pos == |idx| then total else handed
    {
      var i := idx[pos];
      assert idx[..pos + 1] == idx[..pos] + [i];
      var share := if pos == |idx| - 1 then total - handed else HalfUp(total * weights[i], totalWeight);
      SumUpdate(shares, i, share, Ident());
      shares := shares[i := share];
      handed := handed + share;
    }
    assert idx[..|idx|] == idx;
  }

  // ---- how far a share is from its exact value ----

  datatype Row = Row(weight: int, share: int)

  function Zip(weights: seq<int>, shares: seq<int>): (r: seq<Row>)
    requires |weights| == |shares|
    ensures |r| == |weights| && forall i :: 0 <= i < |r| ==> r[i] == Row(weights[i], shares[i])
  {
    seq(|weights|, i requires 0 <= i < |weights| => Row(weights[i], shares[i]))
  }

  /** Distance from the exact share, scaled by the total weight to stay whole. */
  function Miss(total: int, weight: int): Row -> int
  {
    (r: Row) => r.share * weight - total * r.weight
  }

  function ShareOf(): Row -> int { (r: Row) => r.share }
  function WeightOf(): Row -> int { (r: Row) => r.weight }
  function Counted(): Row -> int { (r: Row) => if r.weight > 0 then 1 else 0 }
  function Zero(): Row -> int { (r: Row) => 0 }
  function Weighed(weight: int): Row -> int { (r: Row) => r.share * weight }

  lemma {:induction false} MissesCancel(rows: seq<Row>, total: int, weight: int)
    requires Sum(rows, ShareOf()) == total && Sum(rows, WeightOf()) == weight
    ensures Sum(rows, Miss(total, weight)) == 0
  {
    forall i | 0 <= i < |rows| ensures Weighed(weight)(rows[i]) == Zero()(rows[i]) + weight * ShareOf()(rows[i]) {}
    SumLinear(rows, Weighed(weight), Zero(), ShareOf(), weight);
    SumZero(rows, Zero());
    forall i | 0 <= i < |rows| ensures Miss(total, weight)(rows[i]) == Weighed(weight)(rows[i]) + (-total) * WeightOf()(rows[i]) {
      NegProduct(total, rows[i].weight);
    }
    SumLinear(rows, Miss(total, weight), Weighed(weight), WeightOf(), -total);
    NegProduct(total, weight);
    assert weight * total == total * weight;
  }

  lemma NegProduct(a: int, b: int)
    ensures (-a) * b == -(a * b)
  {
  }

  lemma {:induction false} MissesBounded(rows: seq<Row>, total: int, weight: int)
    requires weight > 0
    requires forall i :: 0 <= i < |rows| ==> -(weight * Counted()(rows[i])) <= 2 * Miss(total, weight)(rows[i]) <= weight * Counted()(rows[i])
    ensures -(weight * Sum(rows, Counted())) <= 2 * Sum(rows, Miss(total, weight)) <= weight * Sum(rows, Counted())
  {
    if rows != [] {
      var n := |rows| - 1;
      MissesBounded(rows[..n], total, weight);
      assert weight * Sum(rows, Counted()) == weight * Sum(rows[..n], Counted()) + weight * Counted()(rows[n]);
    }
  }

  /** With non-negative weights: every positive row but the last is within half a cent of its exact share,
      and the last of m positive rows within (m - 1)/2 cents. */
  lemma SplitAccuracy(total: int, weights: seq<int>, shares: seq<int>, i: nat)
    requires IsSplit(total, weights, shares) && total > 0 && Total(weights) > 0
    requires forall j :: 0 <= j < |weights| ==> weights[j] >= 0
    requires i < |weights|
    ensures var w := Total(weights);
            var miss := 2 * (shares[i] * w - total * weights[i]);
            var m := Sum(Zip(weights, shares), Counted());
            && (!IsLast(weights, i) ==> -w <= miss <= w)
            && (IsLast(weights, i) ==> -(w * (m - 1)) <= miss <= w * (m - 1))
  {
    var w, rows := Total(weights), Zip(weights, shares);
    if IsLast(weights, i) {
      SumSame(rows, shares, ShareOf(), Ident());
      SumSame(rows, weights, WeightOf(), Ident());
      MissesCancel(rows, total, w);
      SumWithout(rows, i, Miss(total, w));
      SumWithout(rows, i, Counted());
      var others := Without(rows, i);
      forall k | 0 <= k < |others|
        ensures -(w * Counted()(others[k])) <= 2 * Miss(total, w)(others[k]) <= w * Counted()(others[k])
      {
        var j := if k < i then k else k + 1;
        assert others[k] == rows[j];
        OtherRow(total, weights, shares, i, j);
      }
      MissesBounded(others, total, w);
    } else {
      HalfShare(total, weights, shares, i);
    }
  }

  lemma HalfShare(total: int, weights: seq<int>, shares: seq<int>, i: nat)
    requires IsSplit(total, weights, shares) && total > 0 && Total(weights) > 0
    requires i < |weights| && weights[i] >= 0 && !IsLast(weights, i)
    ensures -Total(weights) <= 2 * (shares[i] * Total(weights) - total * weights[i]) <= Total(weights)
    ensures weights[i] == 0 ==> shares[i] * Total(weights) - total * weights[i] == 0
  {
    MulNonNeg(total, weights[i]);
  }

  lemma OtherRow(total: int, weights: seq<int>, shares: seq<int>, last: nat, j: nat)
    requires IsSplit(total, weights, shares) && total > 0 && Total(weights) > 0
    requires IsLast(weights, last) && j < |weights| && j != last && weights[j] >= 0
    ensures var c := if weights[j] > 0 then 1 else 0;
            -(Total(weights) * c) <= 2 * (shares[j] * Total(weights) - total * weights[j]) <= Total(weights) * c
  {
    assert !IsLast(weights, j);
    HalfShare(total, weights, shares, j);
  }

  // ---- when the last share is negative ----

  /** What the rows before the last positive one are handed. */
  function Rounded(total: int, weights: seq<int>): (r: seq<int>)
    requires Total(weights) > 0
    ensures |r| == |weights|
    ensures forall i :: 0 <= i < |r| ==>
              r[i] == if weights[i] > 0 && !IsLast(weights, i) then HalfUp(total * weights[i], Total(weights)) else 0
  {
    seq(|weights|, i requires 0 <= i < |weights| =>
      if weights[i] > 0 && !IsLast(weights, i) then HalfUp(total * weights[i], Total(weights)) else 0)
  }

  lemma {:induction false} LastExists(weights: seq<int>, n: nat)
    requires n <= |weights| && (exists i :: 0 <= i < n && weights[i] > 0) && forall j :: n <= j < |weights| ==> weights[j] <= 0
    ensures exists i :: 0 <= i < n && IsLast(weights, i)
  {
    if weights[n - 1] > 0 {
      assert IsLast(weights, n - 1);
    } else {
      LastExists(weights, n - 1);
    }
  }

  lemma RestIsLast(total: int, weights: seq<int>, shares: seq<int>) returns (last: nat)
    requires IsSplit(total, weights, shares) && total > 0 && Total(weights) > 0
    ensures last < |shares| && IsLast(weights, last)
    ensures shares[last] == total - Total(Rounded(total, weights))
    ensures forall i :: 0 <= i < |shares| && i != last ==> shares[i] >= 0
  {
    PositiveExists(weights);
    LastExists(weights, |weights|);
    last :| last < |weights| && IsLast(weights, last);
    var handed := Rounded(total, weights);
    forall i | 0 <= i < |shares| && i != last ensures shares[i] == handed[i] && shares[i] >= 0 {
      OnlyOneLast(weights, last, i);
      if weights[i] > 0 {
        MulNonNeg(total, weights[i]);
        HalfUpNonNeg(total * weights[i], Total(weights));
      }
    }
    assert shares == handed[last := shares[last]];
    SumUpdate(handed, last, shares[last], Ident());
  }

  lemma OnlyOneLast(weights: seq<int>, last: nat, i: nat)
    requires IsLast(weights, last) && i != last
    ensures !IsLast(weights, i)
  {
  }

  lemma HalfUpNonNeg(n: int, d: int)
    requires n >= 0 && d > 0
    ensures HalfUp(n, d) >= 0
  {
    Exact(0, d);
    HalfUpMonotone(0 * d, n, d);
  }

  /** Seen from the inputs alone: no share is negative exactly when rounding does not hand out more than there is. */
  lemma NoNegativeExact(total: int, weights: seq<int>, shares: seq<int>)
    requires IsSplit(total, weights, shares) && total > 0 && Total(weights) > 0
    ensures (forall i :: 0 <= i < |shares| ==> shares[i] >= 0) <==> Total(Rounded(total, weights)) <= total
  {
    var last := RestIsLast(total, weights, shares);
  }

  // ---- one production run ----

  datatype Category = Fabric | Trim | Labor

  datatype Expense = Expense(category: Category, amount: int, rate: Rate, run: nat)

  datatype Intake = Intake(variant: nat, quantity: int, cost: Option<int>, run: nat)

  datatype Accrual = Accrual(contractor: nat, amount: int, rate: Rate, run: nat)

  datatype RunRow = RunRow(variant: nat, contractor: nat, accepted: int, defects: int)

  /** The rows production writes; an expense always belongs to a run that exists and is positive. */
  datatype Works = Works(
    runs: seq<RunRow>, expenses: seq<Expense>, intakes: seq<Intake>, accruals: seq<Accrual>, costPrice: map<nat, int>) {

    ghost predicate Valid() {
      forall i :: 0 <= i < |expenses| ==> expenses[i].run < |runs| && expenses[i].amount > 0
    }
  }

  /** An expense in RATE_UNITths of a cent of som. */
  function InKgs(run: nat): Expense -> int { (e: Expense) => if e.run == run then e.amount * e.rate else 0 }

  function Spent(amount: int, rate: Rate): int { if amount > 0 then amount * rate else 0 }

  function Cost(material: int, trim: int, labor: int, rate: Rate): int
  {
    Spent(material, rate) + Spent(trim, rate) + Spent(labor, rate)
  }

  /** The unit cost times the accepted units is within half a cent a unit of what was spent. */
  predicate Absorbs(unit: int, accepted: int, spent: int)
  {
    -(accepted * RATE_UNIT) <= 2 * (unit * (accepted * RATE_UNIT) - spent) <= accepted * RATE_UNIT
  }

  /** None when there is nothing to divide or nothing to divide by. */
  function UnitCost(cost: int, accepted: int): (r: Option<int>)
    ensures r.Some? <==> cost > 0 && accepted > 0
    ensures r.Some? ==> Absorbs(r.value, accepted, cost)
  {
    if cost > 0 && accepted > 0 then Some(HalfUp(cost, accepted * RATE_UNIT)) else None
  }

  /** An amount of zero or less leaves no row. */
  function Bill(category: Category, amount: int, rate: Rate, run: nat): seq<Expense>
  {
    if amount > 0 then [Expense(category, amount, rate, run)] else []
  }

  function Bills(material: int, trim: int, labor: int, rate: Rate, run: nat): seq<Expense>
  {
    Bill(Fabric, material, rate, run) + Bill(Trim, trim, rate, run) + Bill(Labor, labor, rate, run)
  }

  lemma BillsConcat(before: seq<Expense>, material: int, trim: int, labor: int, rate: Rate, run: nat)
    ensures before + Bill(Fabric, material, rate, run) + Bill(Trim, trim, rate, run) + Bill(Labor, labor, rate, run)
            == before + Bills(material, trim, labor, rate, run)
  {
  }

  predicate CanRun(row: RunRow) { row.accepted >= 0 && row.defects >= 0 && row.accepted + row.defects > 0 }

  /** Everything spent is booked; accepted units come in at the absorbed cost, which becomes the variant's cost
      price; the contractor is owed labour only for accepted units. */
  function RunEffect(w: Works, row: RunRow, material: int, trim: int, labor: int, rate: Rate): Works
  {
    var run, unit := |w.runs|, UnitCost(Cost(material, trim, labor, rate), row.accepted);
    Works(w.runs + [row],
          w.expenses + Bills(material, trim, labor, rate, run),
          w.intakes + (if row.accepted > 0 then [Intake(row.variant, row.accepted, unit, run)] else []),
          w.accruals + (if row.accepted > 0 && labor > 0 then [Accrual(row.contractor, labor, rate, run)] else []),
          if unit.Some? then w.costPrice[row.variant := unit.value] else w.costPrice)
  }

  /** What came in through the newest run carries a unit cost that absorbs all the expenses booked to it. */
  predicate RunAbsorbs(w: Works, d: Works, row: RunRow)
  {
    var spent := Sum(d.expenses, InKgs(|w.runs|));
    row.accepted > 0 ==>
      && |d.intakes| == |w.intakes| + 1
      && var intake := d.intakes[|w.intakes|];
         && intake.quantity == row.accepted && (intake.cost.Some? <==> spent > 0)
         && (intake.cost.Some? ==> Absorbs(intake.cost.value, row.accepted, spent))
  }

  lemma BillKgs(category: Category, amount: int, rate: Rate, run: nat)
    ensures Sum(Bill(category, amount, rate, run), InKgs(run)) == Spent(amount, rate)
  {
    var bill := Bill(category, amount, rate, run);
    if amount > 0 {
      assert bill[..0] == [];
    }
  }

  lemma BillsKgs(material: int, trim: int, labor: int, rate: Rate, run: nat)
    ensures Sum(Bills(material, trim, labor, rate, run), InKgs(run)) == Cost(material, trim, labor, rate)
  {
    BillKgs(Fabric, material, rate, run);
    BillKgs(Trim, trim, rate, run);
    BillKgs(Labor, labor, rate, run);
    SumConcat(Bill(Fabric, material, rate, run), Bill(Trim, trim, rate, run), InKgs(run));
    SumConcat(Bill(Fabric, material, rate, run) + Bill(Trim, trim, rate, run), Bill(Labor, labor, rate, run), InKgs(run));
  }

  lemma RunKeepsValid(w: Works, row: RunRow, material: int, trim: int, labor: int, rate: Rate)
    requires w.Valid()
    ensures RunEffect(w, row, material, trim, labor, rate).Valid()
  {
    var bills := Bills(material, trim, labor, rate, |w.runs|);
    assert forall i :: 0 <= i < |bills| ==> bills[i].run == |w.runs| && bills[i].amount > 0;
  }

  lemma RunSpent(w: Works, row: RunRow, material: int, trim: int, labor: int, rate: Rate)
    requires w.Valid()
    ensures Sum(RunEffect(w, row, material, trim, labor, rate).expenses, InKgs(|w.runs|)) == Cost(material, trim, labor, rate)
  {
    SumZero(w.expenses, InKgs(|w.runs|));
    BillsKgs(material, trim, labor, rate, |w.runs|);
    SumConcat(w.expenses, Bills(material, trim, labor, rate, |w.runs|), InKgs(|w.runs|));
  }

  /** A run books exactly what was spent on it, and absorbs it in what it takes in. */
  lemma RunBooked(w: Works, row: RunRow, material: int, trim: int, labor: int, rate: Rate)
    requires w.Valid()
    ensures var d := RunEffect(w, row, material, trim, labor, rate);
            d.Valid() && Sum(d.expenses, InKgs(|w.runs|)) == Cost(material, trim, labor, rate) && RunAbsorbs(w, d, row)
  {
    RunKeepsValid(w, row, material, trim, labor, rate);
    RunSpent(w, row, material, trim, labor, rate);
  }

  // ---- the workshop's books over every run ----

  /** What the newest intake of a variant with a known unit cost came in at. */
  function LatestCost(intakes: seq<Intake>, v: nat): Option<int>
  {
    if intakes == [] then None
    else
      var last := intakes[|intakes| - 1];
      if last.variant == v && last.cost.Some? then last.cost else LatestCost(intakes[..|intakes| - 1], v)
  }

  function Price(prices: map<nat, int>, v: nat): Option<int> { if v in prices then Some(prices[v]) else None }

  function UnitsIn(run: nat): Intake -> int { (x: Intake) => if x.run == run then x.quantity else 0 }

  function OwedFor(run: nat): Accrual -> int { (a: Accrual) => if a.run == run then a.amount * a.rate else 0 }

  function LaborOf(run: nat): Expense -> int
  {
    (e: Expense) => if e.run == run && e.category == Labor then e.amount * e.rate else 0
  }

  ghost predicate PricesRight(w: Works) { forall v: nat :: Price(w.costPrice, v) == LatestCost(w.intakes, v) }

  ghost predicate RowsLinked(w: Works)
  {
    && (forall i :: 0 <= i < |w.intakes| ==>
          w.intakes[i].run < |w.runs| && w.intakes[i].variant == w.runs[w.intakes[i].run].variant)
    && (forall i :: 0 <= i < |w.accruals| ==>
          w.accruals[i].run < |w.runs| && w.accruals[i].contractor == w.runs[w.accruals[i].run].contractor)
  }

  /** A run took in its accepted units, and its contractor is owed its labour if there were any. */
  predicate RunRight(w: Works, k: nat)
    requires k < |w.runs|
  {
    && Sum(w.intakes, UnitsIn(k)) == w.runs[k].accepted
    && Sum(w.accruals, OwedFor(k)) == if w.runs[k].accepted > 0 then Sum(w.expenses, LaborOf(k)) else 0
  }

  ghost predicate Books(w: Works)
  {
    w.Valid() && PricesRight(w) && RowsLinked(w) && forall k :: 0 <= k < |w.runs| ==> RunRight(w, k)
  }

  lemma {:induction false} IntakePrices(w: Works, x: Intake, prices: map<nat, int>)
    requires PricesRight(w)
    requires prices == if x.cost.Some? then w.costPrice[x.variant := x.cost.value] else w.costPrice
    ensures forall v: nat :: Price(prices, v) == LatestCost(w.intakes + [x], v)
  {
    forall v: nat ensures Price(prices, v) == LatestCost(w.intakes + [x], v) {
      assert (w.intakes + [x])[..|w.intakes|] == w.intakes;
    }
  }

  lemma RunPrices(w: Works, row: RunRow, material: int, trim: int, labor: int, rate: Rate)
    requires PricesRight(w) && CanRun(row)
    ensures PricesRight(RunEffect(w, row, material, trim, labor, rate))
  {
    var unit := UnitCost(Cost(material, trim, labor, rate), row.accepted);
    var d := RunEffect(w, row, material, trim, labor, rate);
    if row.accepted > 0 {
      IntakePrices(w, Intake(row.variant, row.accepted, unit, |w.runs|), d.costPrice);
    } else {
      assert d.intakes == w.intakes;
    }
  }

  lemma BillLabor(category: Category, amount: int, rate: Rate, run: nat, k: nat)
    ensures Sum(Bill(category, amount, rate, run), LaborOf(k)) == if category == Labor && k == run then Spent(amount, rate) else 0
  {
    var bill := Bill(category, amount, rate, run);
    if amount > 0 {
      assert bill[..0] == [];
    }
  }

  lemma BillsLabor(w: Works, material: int, trim: int, labor: int, rate: Rate, run: nat, k: nat)
    ensures Sum(w.expenses + Bills(material, trim, labor, rate, run), LaborOf(k)) ==
            Sum(w.expenses, LaborOf(k)) + if k == run then Spent(labor, rate) else 0
  {
    BillLabor(Fabric, material, rate, run, k);
    BillLabor(Trim, trim, rate, run, k);
    BillLabor(Labor, labor, rate, run, k);
    SumConcat(Bill(Fabric, material, rate, run), Bill(Trim, trim, rate, run), LaborOf(k));
    SumConcat(Bill(Fabric, material, rate, run) + Bill(Trim, trim, rate, run), Bill(Labor, labor, rate, run), LaborOf(k));
    SumConcat(w.expenses, Bills(material, trim, labor, rate, run), LaborOf(k));
  }

  lemma {:induction false} SumIfAppended<T>(s: seq<T>, x: T, more: bool, f: T -> int)
    ensures Sum(s + if more then [x] else [], f) == Sum(s, f) + if more then f(x) else 0
  {
    SumAppend(s, x, f);
    assert s + [] == s;
  }

  lemma RunSums(w: Works, row: RunRow, material: int, trim: int, labor: int, rate: Rate, k: nat)
    requires CanRun(row)
    ensures var d := RunEffect(w, row, material, trim, labor, rate);
            && Sum(d.intakes, UnitsIn(k)) == Sum(w.intakes, UnitsIn(k)) + (if k == |w.runs| then row.accepted else 0)
            && Sum(d.expenses, LaborOf(k)) == Sum(w.expenses, LaborOf(k)) + (if k == |w.runs| then Spent(labor, rate) else 0)
            && Sum(d.accruals, OwedFor(k)) == Sum(w.accruals, OwedFor(k))
               + (if k == |w.runs| && row.accepted > 0 then Spent(labor, rate) else 0)
  {
    var unit := UnitCost(Cost(material, trim, labor, rate), row.accepted);
    SumIfAppended(w.intakes, Intake(row.variant, row.accepted, unit, |w.runs|), row.accepted > 0, UnitsIn(k));
    BillsLabor(w, material, trim, labor, rate, |w.runs|, k);
    SumIfAppended(w.accruals, Accrual(row.contractor, labor, rate, |w.runs|), row.accepted > 0 && labor > 0, OwedFor(k));
  }

  lemma RunLinked(w: Works, row: RunRow, material: int, trim: int, labor: int, rate: Rate)
    requires RowsLinked(w)
    ensures RowsLinked(RunEffect(w, row, material, trim, labor, rate))
  {
  }

  lemma FreshRun(w: Works)
    requires w.Valid() && RowsLinked(w)
    ensures var k := |w.runs|;
            Sum(w.intakes, UnitsIn(k)) == 0 && Sum(w.accruals, OwedFor(k)) == 0 && Sum(w.expenses, LaborOf(k)) == 0
  {
    SumZero(w.intakes, UnitsIn(|w.runs|));
    SumZero(w.accruals, OwedFor(|w.runs|));
    SumZero(w.expenses, LaborOf(|w.runs|));
  }

  lemma RunBooks(w: Works, row: RunRow, material: int, trim: int, labor: int, rate: Rate)
    requires Books(w) && CanRun(row)
    ensures Books(RunEffect(w, row, material, trim, labor, rate))
  {
    var d := RunEffect(w, row, material, trim, labor, rate);
    RunKeepsValid(w, row, material, trim, labor, rate);
    RunPrices(w, row, material, trim, labor, rate);
    RunLinked(w, row, material, trim, labor, rate);
    FreshRun(w);
    forall k: nat | k < |d.runs| ensures RunRight(d, k) {
      RunSums(w, row, material, trim, labor, rate, k);
      assert k < |w.runs| ==> RunRight(w, k);
    }
  }

  /** One accepted call: a run, or one row of a batch. */
  datatype Job = Job(row: RunRow, material: int, trim: int, labor: int, rate: Rate)

  function Recorded(jobs: seq<Job>): Works
  {
    if jobs == [] then Works([], [], [], [], map[])
    else
      var w, j := Recorded(jobs[..|jobs| - 1]), jobs[|jobs| - 1];
      if CanRun(j.row) then RunEffect(w, j.row, j.material, j.trim, j.labor, j.rate) else w
  }

  /** Over every run of the workshop: each run took in exactly its accepted units; a contractor is owed exactly the
      labour booked to runs of his with accepted units; each variant's cost price is the newest unit cost it came in at. */
  lemma {:induction false} RunsBooked(jobs: seq<Job>)
    ensures Books(Recorded(jobs))
  {
    if jobs != [] {
      var w, j := Recorded(jobs[..|jobs| - 1]), jobs[|jobs| - 1];
      RunsBooked(jobs[..|jobs| - 1]);
      if CanRun(j.row) {
        RunBooks(w, j.row, j.material, j.trim, j.labor, j.rate);
      }
    }
  }

  // ---- a batch of runs ----

  /** The rows of one batch, each with its share of the material cost. */
  function BatchEffect(w: Works, rows: seq<RunRow>, shares: seq<int>, rate: Rate): Works
    requires |rows| == |shares|
  {
    if rows == [] then w
    else
      var n := |rows| - 1;
      RunEffect(BatchEffect(w, rows[..n], shares[..n], rate), rows[n], shares[n], 0, 0, rate)
  }

  lemma {:induction false} BatchStep(w: Works, rows: seq<RunRow>, shares: seq<int>, i: nat, rate: Rate)
    requires i < |rows| == |shares|
    ensures BatchEffect(w, rows[..i + 1], shares[..i + 1], rate) ==
            RunEffect(BatchEffect(w, rows[..i], shares[..i], rate), rows[i], shares[i], 0, 0, rate)
  {
    assert rows[..i + 1][..i] == rows[..i] && shares[..i + 1][..i] == shares[..i];
  }

  function AmountFrom(run: nat): Expense -> int { (e: Expense) => if e.run >= run then e.amount else 0 }

  function Positives(): int -> int { (x: int) => Max(x, 0) }

  function AcceptedOf(rows: seq<RunRow>): (r: seq<int>)
    ensures |r| == |rows| && forall i :: 0 <= i < |r| ==> r[i] == rows[i].accepted
  {
    seq(|rows|, i requires 0 <= i < |rows| => rows[i].accepted)
  }

  lemma BillSum(share: int, rate: Rate, run: nat, first: nat)
    requires first <= run
    ensures Sum(Bills(share, 0, 0, rate, run), AmountFrom(first)) == Max(share, 0)
  {
    var bill := Bill(Fabric, share, rate, run);
    assert Bills(share, 0, 0, rate, run) == bill;
    if share > 0 {
      assert bill[..0] == [];
    }
  }

  /** The batch's expense rows add up to its positive shares. */
  lemma {:induction false} BatchSpent(w: Works, rows: seq<RunRow>, shares: seq<int>, rate: Rate)
    requires w.Valid() && |rows| == |shares|
    ensures var d := BatchEffect(w, rows, shares, rate);
            && d.Valid() && d.runs == w.runs + rows
            && Sum(d.expenses, AmountFrom(|w.runs|)) == Sum(shares, Positives())
  {
    if rows == [] {
      SumZero(w.expenses, AmountFrom(|w.runs|));
    } else {
      var n := |rows| - 1;
      var mid := BatchEffect(w, rows[..n], shares[..n], rate);
      BatchSpent(w, rows[..n], shares[..n], rate);
      RunKeepsValid(mid, rows[n], shares[n], 0, 0, rate);
      BillSum(shares[n], rate, |mid.runs|, |w.runs|);
      SumConcat(mid.expenses, Bills(shares[n], 0, 0, rate, |mid.runs|), AmountFrom(|w.runs|));
      assert rows == rows[..n] + [rows[n]];
    }
  }

  lemma {:induction false} PositivesAtLeast(shares: seq<int>)
    ensures Sum(shares, Positives()) >= Total(shares)
    ensures Sum(shares, Positives()) == Total(shares) <==> forall i :: 0 <= i < |shares| ==> shares[i] >= 0
  {
    if shares != [] {
      PositivesAtLeast(shares[..|shares| - 1]);
    }
  }

  lemma {:induction false} NothingHanded(shares: seq<int>)
    requires forall i :: 0 <= i < |shares| ==> shares[i] == 0
    ensures Sum(shares, Positives()) == 0
  {
    SumZero(shares, Positives());
  }

  /** What a batch of a given cost books as expenses. With an accepted unit, at least what was spent; without one,
      nothing at all. So it is exactly what was spent if and only if there was an accepted unit and rounding the rows
      before the last one does not hand out more than there is. */
  lemma {:induction false} BatchBooksTotal(w: Works, rows: seq<RunRow>, total: int, shares: seq<int>, rate: Rate)
    requires w.Valid() && IsSplit(total, AcceptedOf(rows), shares) && total > 0
    ensures var weights, booked := AcceptedOf(rows), Sum(BatchEffect(w, rows, shares, rate).expenses, AmountFrom(|w.runs|));
            && (if Total(weights) > 0 then booked >= total else booked == 0)
            && (booked == total <==> Total(weights) > 0 && Total(Rounded(total, weights)) <= total)
  {
    BatchSpent(w, rows, shares, rate);
    if Total(AcceptedOf(rows)) > 0 {
      PositivesAtLeast(shares);
      NoNegativeExact(total, AcceptedOf(rows), shares);
    } else {
      NothingHanded(shares);
    }
  }

  lemma {:induction false} NoneAccepted(rows: seq<RunRow>)
    requires forall i :: 0 <= i < |rows| ==> rows[i].accepted == 0
    ensures Total(AcceptedOf(rows)) == 0
  {
    SumZero(AcceptedOf(rows), Ident());
  }

  /** A batch with defects only is taken, and its cost, whatever it is, is not booked anywhere. */
  lemma {:induction false} TotalLossDropsCost(w: Works, rows: seq<RunRow>, total: int, shares: seq<int>, rate: Rate)
    requires w.Valid() && IsSplit(total, AcceptedOf(rows), shares)
    requires rows != [] && forall i :: 0 <= i < |rows| ==> rows[i].accepted == 0 && rows[i].defects > 0
    ensures forall i :: 0 <= i < |rows| ==> CanRun(rows[i])
    ensures Sum(BatchEffect(w, rows, shares, rate).expenses, AmountFrom(|w.runs|)) == 0
  {
    NoneAccepted(rows);
    BatchSpent(w, rows, shares, rate);
    NothingHanded(shares);
  }

  /** Three cents over five equal rows: the last share is minus one, and four cents are booked. */
  lemma {:induction false} LastShareCanBeNegative(w: Works, rows: seq<RunRow>, shares: seq<int>, rate: Rate)
    requires w.Valid() && AcceptedOf(rows) == [1, 1, 1, 1, 1] && IsSplit(3, [1, 1, 1, 1, 1], shares)
    ensures shares[4] == -1 && Sum(BatchEffect(w, rows, shares, rate).expenses, AmountFrom(|w.runs|)) == 4
  {
    var weights := [1, 1, 1, 1, 1];
    SumFive(weights, Ident());
    SumFive(shares, Ident());
    SumFive(shares, Positives());
    assert HalfUp(3 * 1, 5) == 1;
    forall i | 0 <= i < 4 ensures shares[i] == 1 {
      assert weights[4] > 0;
      assert !IsLast(weights, i);
    }
    BatchSpent(w, rows, shares, rate);
  }

  lemma {:induction false} SumFive(s: seq<int>, f: int -> int)
    requires |s| == 5
    ensures Sum(s, f) == f(s[0]) + f(s[1]) + f(s[2]) + f(s[3]) + f(s[4])
  {
    SumStep(s, 4, f);
    SumStep(s, 3, f);
    SumStep(s, 2, f);
    SumStep(s, 1, f);
    SumStep(s, 0, f);
    assert s[..5] == s;
  }

  // ---- the services ----

  class Workshop {
    var runs: seq<RunRow>
    var expenses: seq<Expense>
    var intakes: seq<Intake>
    var accruals: seq<Accrual>
    var costPrice: map<nat, int>

    constructor ()
      ensures State() == Works([], [], [], [], map[]) && State().Valid()
    {
      runs, expenses, intakes, accruals, costPrice := [], [], [], [], map[];
    }

    function State(): Works
      reads this
    {
      Works(runs, expenses, intakes, accruals, costPrice)
    }

    method Spend(category: Category, amount: int, rate: Rate, run: nat) returns (kgs: int)
      modifies this`expenses
      ensures expenses == old(expenses) + Bill(category, amount, rate, run)
      ensures kgs == Spent(amount, rate)
      ensures Sum(expenses, InKgs(run)) == Sum(old(expenses), InKgs(run)) + kgs
    {
      if amount > 0 {
        SumAppend(expenses, Expense(category, amount, rate, run), InKgs(run));
        expenses := expenses + [Expense(category, amount, rate, run)];
        return amount * rate;
      }
      return 0;
    }

    method SpendAll(material: int, trim: int, labor: int, rate: Rate, run: nat) returns (kgs: int)
      modifies this`expenses
      ensures expenses == old(expenses) + Bills(material, trim, labor, rate, run)
      ensures kgs == Cost(material, trim, labor, rate)
      ensures Sum(expenses, InKgs(run)) == Sum(old(expenses), InKgs(run)) + kgs
    {
      var fabric := Spend(Fabric, material, rate, run);
      var sewn := Spend(Trim, trim, rate, run);
      var paid := Spend(Labor, labor, rate, run);
      kgs := fabric + sewn + paid;
      BillsConcat(old(expenses), material, trim, labor, rate, run);
    }

    method RecordProductionRun(row: RunRow, material: int, trim: int, labor: int, rate: Rate) returns (ok: bool)
      requires State().Valid()
      modifies this
      ensures State().Valid()
      ensures ok == CanRun(row)
      ensures State() == if ok then RunEffect(old(State()), row, material, trim, labor, rate) else old(State())
      ensures ok ==> RunAbsorbs(old(State()), State(), row)
    {
      if row.accepted < 0 || row.defects < 0 {
        return false;
      }
      if row.accepted == 0 && row.defects == 0 {
        return false;
      }
      var run := |runs|;
      runs := runs + [row];
      var cost := SpendAll(material, trim, labor, rate, run);
      if row.accepted > 0 {
        TakeIn(row, UnitCost(cost, row.accepted), run);
      }
      if row.accepted > 0 && labor > 0 {
        accruals := accruals + [Accrual(row.contractor, labor, rate, run)];
      }
      RunBooked(old(State()), row, material, trim, labor, rate);
      return true;
    }

    /** The accepted units come in; a known unit cost becomes the variant's cost price. */
    method TakeIn(row: RunRow, unit: Option<int>, run: nat)
      modifies this`intakes, this`costPrice
      ensures intakes == old(intakes) + [Intake(row.variant, row.accepted, unit, run)]
      ensures costPrice == if unit.Some? then old(costPrice)[row.variant := unit.value] else old(costPrice)
    {
      intakes := intakes + [Intake(row.variant, row.accepted, unit, run)];
      if unit.Some? {
        costPrice := costPrice[row.variant := unit.value];
      }
    }

    /** A batch of one contractor: the material cost is split by accepted units and each row recorded as a run; if any
        row is refused none is kept. */
    method RecordBatch(rows: seq<RunRow>, total: int, rate: Rate) returns (ok: bool, shares: seq<int>)
      requires State().Valid()
      modifies this
      ensures State().Valid()
      ensures ok <==> forall i :: 0 <= i < |rows| ==> CanRun(rows[i])
      ensures IsSplit(total, AcceptedOf(rows), shares)
      ensures State() == if ok then BatchEffect(old(State()), rows, shares, rate) else old(State())
      ensures ok && total > 0 ==>
                var weights, booked := AcceptedOf(rows), Sum(expenses, AmountFrom(|old(runs)|));
                && (if Total(weights) > 0 then booked >= total else booked == 0)
                && (booked == total <==> Total(weights) > 0 && Total(Rounded(total, weights)) <= total)
    {
      shares := SplitCostProportionally(total, AcceptedOf(rows));
      var saved := State();
      ok := RecordRows(rows, shares, rate);
      if !ok {
        runs, expenses, intakes, accruals, costPrice :=
          saved.runs, saved.expenses, saved.intakes, saved.accruals, saved.costPrice;
      }
      if ok && total > 0 {
        BatchBooksTotal(old(State()), rows, total, shares, rate);
      }
    }

    method RecordRow(row: RunRow, share: int, rate: Rate) returns (ok: bool)
      requires State().Valid()
      modifies this
      ensures ok == CanRun(row)
      ensures ok ==> State().Valid() && State() == RunEffect(old(State()), row, share, 0, 0, rate)
    {
      ok := RecordProductionRun(row, share, 0, 0, rate);
    }

    method RecordRows(rows: seq<RunRow>, shares: seq<int>, rate: Rate) returns (ok: bool)
      requires State().Valid() && |shares| == |rows|
      modifies this
      ensures ok <==> forall i :: 0 <= i < |rows| ==> CanRun(rows[i])
      ensures ok ==> State().Valid() && State() == BatchEffect(old(State()), rows, shares, rate)
    {
      ghost var before := State();
      for i := 0 to |rows|
        invariant State().Valid() && State() == BatchEffect(before, rows[..i], shares[..i], rate)
        invariant forall j :: 0 <= j < i ==> CanRun(rows[j])
      {
        BatchStep(before, rows, shares, i, rate);
        var recorded := RecordRow(rows[i], shares[i], rate);
        if !recorded {
          return false;
        }
      }
      assert rows[..|rows|] == rows && shares[..|rows|] == shares;
      return true;
    }
  }
}
