/** What the rounding of payments can and cannot do: change, the two balances, settling, overpayment. */
module Money {
  import opened Rounding
  import opened Sums
  import opened Models
  import opened Till

  // ---- change ----

  lemma StepDown(value: int, step: int)
    requires value >= 0
    ensures 0 <= FloorToStep(value, step) <= value
    ensures step <= 0 ==> FloorToStep(value, step) == value
    ensures step > 0 ==> value - FloorToStep(value, step) < step && exists k: nat :: FloorToStep(value, step) == k * step
  {
    if step > 0 {
      var k := RoundDown(value, step);
      MulNonNeg(k, step);
    }
  }

  /** One payment's figures in the preview: nothing lost, nothing given away, change only once the debt is covered. */
  lemma ChangeArithmetic(amount: int, currency: Currency, rate: Rate, balance: int, cc: Currency, step: int)
    requires amount >= 0
    ensures var v := PreviewFor(amount, currency, rate, balance, cc, step);
            && v.idealKgs == v.changeKgs + v.residueKgs
            && 0 <= v.changeKgs <= v.idealKgs <= v.amountKgs
            && 0 <= v.residueKgs && v.residueKgs < Max(step, 1)
            && (step > 0 ==> exists k: nat :: v.changeKgs == k * step)
            && v.idealKgs + Min(v.amountKgs, Max(balance, 0)) == v.amountKgs && (v.hasExcess <==> v.idealKgs > TOLERANCE)
            && (currency == KGS ==> v.amountKgs == amount)
            && (currency != KGS ==> 0 <= amount * rate - v.amountKgs * RATE_UNIT < RATE_UNIT)
            && (v.change.Some? <==> cc == KGS || cc == currency)
            && (cc == KGS ==> v.change == Some(v.changeKgs))
            && (cc != KGS && v.change.Some? ==> 0 <= v.changeKgs * RATE_UNIT - v.change.value * rate < rate)
            && (v.changeKgs > 0 ==> balance - (v.amountKgs - v.changeKgs) <= 0)
            && (v.changeKgs > 0 && balance >= 0 ==> v.amountKgs - v.changeKgs - balance < Max(step, 1))
  {
    MulNonNeg(amount, rate);
    var v := PreviewFor(amount, currency, rate, balance, cc, step);
    StepDown(v.idealKgs, step);
    MulNonNeg(v.changeKgs, RATE_UNIT);
  }

  // ---- the two balances ----

  lemma {:induction false} NetVsExact(payments: seq<Payment>, s: nat)
    ensures var gap := 2 * (RATE_UNIT * Sum(payments, NetFor(s)) - Sum(payments, ExactFor(s)));
            var n := Sum(payments, RowsFor(s));
            -(n * RATE_UNIT) <= gap <= n * RATE_UNIT && n >= 0
  {
    if payments != [] {
      var k := |payments| - 1;
      NetVsExact(payments[..k], s);
      var p := payments[k];
      var h := HalfEven(p.amount * p.rate, RATE_UNIT);
      var unit: int := RATE_UNIT;
      assert -unit <= 2 * (h * unit - p.amount * p.rate) <= unit;
    }
  }

  /** A stored row's som amount is its exact worth to the nearest cent, ties to the even one. */
  lemma AmountKgsNearest(p: Payment)
    ensures var unit: int, off := RATE_UNIT, 2 * (p.AmountKgs() * RATE_UNIT - p.amount * p.rate);
            -unit <= off <= unit && (off == unit || off == -unit ==> p.AmountKgs() % 2 == 0)
  {
  }

  /** |balance_kgs - R * (total - paid)| <= 0.01 + 0.005 n + 0.005 R, in RATE_UNITths of half a cent. */
  lemma {:induction false} TwoBalances(sale: Sale, s: nat, payments: seq<Payment>)
    requires sale.total >= 0 && sale.totalKgs == ToKgs(sale.total, sale.rate)
    ensures var gap := 2 * (RATE_UNIT * BalanceKgs(sale, s, payments)
                            - (sale.total - PaidAmount(sale, s, payments)) * sale.rate);
            var bound := 2 * RATE_UNIT + Sum(payments, RowsFor(s)) * RATE_UNIT + sale.rate;
            -bound <= gap <= bound
  {
    NetVsExact(payments, s);
    MulNonNeg(sale.total, sale.rate);
    var paid := PaidAmount(sale, s, payments);
    Distribute(sale.total, paid, sale.rate);
    GapBound(sale.totalKgs, Sum(payments, NetFor(s)), Sum(payments, ExactFor(s)), Sum(payments, RowsFor(s)),
             sale.total * sale.rate, paid * sale.rate, sale.rate);
  }

  lemma GapBound(totalKgs: int, net: int, exact: int, n: int, owed: int, paid: int, rate: int)
    requires 0 <= totalKgs * RATE_UNIT - owed < RATE_UNIT
    requires -rate <= 2 * (paid - exact) <= rate
    requires -(n * RATE_UNIT) <= 2 * (RATE_UNIT * net - exact) <= n * RATE_UNIT
    ensures var gap, bound := 2 * (RATE_UNIT * (totalKgs - net) - (owed - paid)), 2 * RATE_UNIT + n * RATE_UNIT + rate;
            -bound <= gap <= bound
  {
  }

  // ---- when a payment is taken ----

  /** An amount in som, as the guard counts it: som at face value, anything else rounded down. */
  function Counted(amount: int, currency: Currency, rate: Rate): int
  {
    if currency == KGS then amount else RoundDown(amount * rate, RATE_UNIT)
  }

  /** What a caller can check before paying: the amount passes the som balance by no more than the tolerance. */
  predicate Fits(b: Book, s: nat, amount: int, currency: Currency, rate: Rate)
    requires s < |b.sales|
  {
    Counted(amount, currency, rate) - Max(BalanceKgs(b.sales[s], s, b.payments), 0) <= TOLERANCE
  }

  predicate RateKnown(b: Book, r: Request)
    requires r.sale < |b.sales|
  {
    var currency := Or(r.currency, b.sales[r.sale].currency);
    r.rateOverride.Some? || currency == b.sales[r.sale].currency || HasRate(b.rates, currency)
  }

  /** In any book whatever, a payment that says nothing about an excess is taken exactly when its rate is known
      and it fits. */
  lemma UndisposedExact(b: Book, r: Request)
    requires r.sale < |b.sales| && b.sales[r.sale].client.Some? && r.amount > 0 && r.disposition == NoDisposition
    ensures var currency := Or(r.currency, b.sales[r.sale].currency);
            PayResultOf(b, r) ==
            if RateKnown(b, r) && Fits(b, r.sale, r.amount, currency, ResolvedRate(b, r, currency))
            then Recorded(RowOf(b, r)) else Rejected
  {
    var currency := Or(r.currency, b.sales[r.sale].currency);
    MulNonNeg(r.amount, ResolvedRate(b, r, currency));
  }

  // ---- settling in one go ----

  /** A confirmed client sale in the base currency, as confirmation leaves it. */
  predicate BaseSale(sale: Sale)
  {
    && sale.client.Some? && sale.status == Confirmed && sale.currency == KGS && sale.rate == RATE_UNIT
    && sale.total >= 0 && sale.totalKgs == ToKgs(sale.total, sale.rate)
  }

  lemma BaseTotal(sale: Sale)
    requires BaseSale(sale)
    ensures sale.totalKgs == sale.total
  {
    Exact(sale.total, RATE_UNIT);
  }

  /** In whole cents: the som balance is short of the sale balance by at most half a cent a row. */
  lemma {:induction false} BaseShortfall(sale: Sale, s: nat, payments: seq<Payment>)
    requires BaseSale(sale) && Sum(payments, ExactFor(s)) >= 0
    ensures 2 * (sale.total - PaidAmount(sale, s, payments) - BalanceKgs(sale, s, payments)) <= Sum(payments, RowsFor(s))
  {
    BaseTotal(sale);
    NetVsExact(payments, s);
  }

  lemma PlainRow(amount: int)
    ensures HalfEven(amount * RATE_UNIT, RATE_UNIT) == amount
  {
    Exact(amount, RATE_UNIT);
  }

  /** mark_fully_paid on an outstanding sale goes through exactly when the balance in the sale's currency passes
      the som balance by no more than the tolerance; at an unmoved rate it then leaves nothing owed. */
  lemma SettleExact(b: Book, s: nat, now: int)
    requires s < |b.sales| && Balance(b.sales[s], s, b.payments) > 0
    ensures var sale := b.sales[s];
            var rate := SnapshotRate(b.rates, sale.currency);
            var result := PayResultOf(b, SettleRequest(b, s, now));
            && (result.Recorded? <==> Fits(b, s, Balance(sale, s, b.payments), sale.currency, rate))
            && (result.Recorded? && rate == sale.rate && Sum(b.payments, ExactFor(s)) >= 0 ==>
                  Settled(sale, s, b.payments, AfterPay(b, result).payments))
  {
    var sale, r := b.sales[s], SettleRequest(b, s, now);
    UndisposedExact(b, r);
    if PayResultOf(b, r).Recorded? && RowOf(b, r).rate == sale.rate && Sum(b.payments, ExactFor(s)) >= 0 {
      RowSettles(sale, s, b.payments, RowOf(b, r));
    }
  }

  predicate Settled(sale: Sale, s: nat, before: seq<Payment>, after: seq<Payment>)
  {
    && |after| == |before| + 1
    && PaidAmount(sale, s, after) == sale.total
    && Balance(sale, s, after) == 0
    && StatusOf(sale, s, after) == Paid
  }

  lemma {:induction false} RowSettles(sale: Sale, s: nat, payments: seq<Payment>, p: Payment)
    requires sale.client.Some? && sale.status == Confirmed && Sum(payments, ExactFor(s)) >= 0
    requires p.order == Some(s) && p.rate == sale.rate && p.changeKgs == 0
    requires p.amount == sale.total - PaidAmount(sale, s, payments) > 0
    ensures Settled(sale, s, payments, payments + [p])
  {
    SumAppend(payments, p, ExactFor(s));
    HalfUpShift(Sum(payments, ExactFor(s)), p.amount, sale.rate);
    PaidNonNeg(Sum(payments, ExactFor(s)), sale.rate);
  }

  /** Up to 201 payment rows the balances cannot be that far apart: settling a som sale always goes through. */
  lemma SettleSucceeds(b: Book, s: nat, now: int)
    requires s < |b.sales| && BaseSale(b.sales[s])
    requires Balance(b.sales[s], s, b.payments) > 0
    requires Sum(b.payments, ExactFor(s)) >= 0
    requires Sum(b.payments, RowsFor(s)) <= 201
    ensures PayResultOf(b, SettleRequest(b, s, now)).Recorded?
    ensures Settled(b.sales[s], s, b.payments, Apply(b, Settle(s, now)).payments)
  {
    BaseShortfall(b.sales[s], s, b.payments);
    SettleExact(b, s, now);
  }

  /** At the sale's own rate, whatever its currency, few enough rows keep every part of the balance within the guard. */
  predicate FewRows(b: Book, s: nat)
  {
    && s < |b.sales|
    && var sale := b.sales[s];
       && sale.total >= 0 && sale.totalKgs == ToKgs(sale.total, sale.rate)
       && SnapshotRate(b.rates, sale.currency) == sale.rate
       && Sum(b.payments, RowsFor(s)) * RATE_UNIT + sale.rate <= 200 * RATE_UNIT
  }

  lemma FewRowsFit(b: Book, s: nat, amount: int)
    requires FewRows(b, s) && 0 < amount <= b.sales[s].total - PaidAmount(b.sales[s], s, b.payments)
    ensures Fits(b, s, amount, b.sales[s].currency, b.sales[s].rate)
  {
    var sale, paid := b.sales[s], PaidAmount(b.sales[s], s, b.payments);
    NetVsExact(b.payments, s);
    MulNonNeg(sale.total, sale.rate);
    MulNonNeg(amount, sale.rate);
    MulAtLeast(sale.total - paid, amount, sale.rate);
    Distribute(sale.total, paid, sale.rate);
    Exact(amount, RATE_UNIT);
    CloseBalances(Counted(amount, sale.currency, sale.rate), sale.totalKgs, Sum(b.payments, NetFor(s)),
                  Sum(b.payments, ExactFor(s)), Sum(b.payments, RowsFor(s)), amount * sale.rate, sale.total * sale.rate,
                  paid * sale.rate, sale.rate);
  }

  lemma CloseBalances(counted: int, totalKgs: int, net: int, exact: int, n: int, share: int, owed: int, paid: int, rate: int)
    requires counted * RATE_UNIT <= share <= owed - paid && totalKgs * RATE_UNIT >= owed
    requires 2 * (paid - exact) >= -rate && 2 * (RATE_UNIT * net - exact) <= n * RATE_UNIT
    requires n * RATE_UNIT + rate <= 200 * RATE_UNIT
    ensures counted - (totalKgs - net) <= TOLERANCE
  {
  }

  /** Settling a sale in any currency at an unmoved rate goes through while
      (number of rows) + (rate) is at most 200. */
  lemma SettleFewRows(b: Book, s: nat, now: int)
    requires FewRows(b, s) && Balance(b.sales[s], s, b.payments) > 0 && Sum(b.payments, ExactFor(s)) >= 0
    ensures PayResultOf(b, SettleRequest(b, s, now)).Recorded?
    ensures Settled(b.sales[s], s, b.payments, Apply(b, Settle(s, now)).payments)
  {
    FewRowsFit(b, s, Balance(b.sales[s], s, b.payments));
    SettleExact(b, s, now);
  }

  /** A som sale needs only 201 rows or fewer for every part of its balance to fit. */
  lemma SomRowsFit(b: Book, s: nat, amount: int)
    requires s < |b.sales| && BaseSale(b.sales[s]) && Sum(b.payments, ExactFor(s)) >= 0 && Sum(b.payments, RowsFor(s)) <= 201
    requires 0 < amount <= b.sales[s].total - PaidAmount(b.sales[s], s, b.payments)
    ensures Fits(b, s, amount, KGS, RATE_UNIT)
  {
    BaseShortfall(b.sales[s], s, b.payments);
  }

  lemma PaidNonNeg(exact: int, rate: Rate)
    requires exact >= 0
    ensures HalfUp(exact, rate) >= 0
  {
    HalfUpMonotone(0 * rate, exact, rate);
    Exact(0, rate);
  }

  /** One foreign row of 0.03 at a rate of one half: 1.5 cents, stored as 2. */
  function HalfRow(): Payment
  {
    Payment(1, Some(0), None, 3, USD, 500_000, NoDisposition, 0, KGS, 0, 0, None, false, None, 0)
  }

  function HalfRows(n: nat): seq<Payment> { seq(n, _ => HalfRow()) }

  lemma {:induction false} HalfRowsSums(n: nat)
    ensures Sum(HalfRows(n), ExactFor(0)) == 1_500_000 * n
    ensures Sum(HalfRows(n), NetFor(0)) == 2 * n
    ensures Sum(HalfRows(n), RowsFor(0)) == n
  {
    if n > 0 {
      HalfRowsSums(n - 1);
      assert HalfRows(n) == HalfRows(n - 1) + [HalfRow()];
      SumAppend(HalfRows(n - 1), HalfRow(), ExactFor(0));
      SumAppend(HalfRows(n - 1), HalfRow(), NetFor(0));
      SumAppend(HalfRows(n - 1), HalfRow(), RowsFor(0));
    }
  }

  /** A confirmed sale of one piece at this price, at a rate of one. */
  function OnePiece(price: nat): Sale
  {
    Sale(Some(1), KGS, Confirmed, [Some(Line(0, 1, price, NoDiscount, 0))], false, RATE_UNIT, price, price, Some(0))
  }

  function HalfRowsBook(n: nat): Book { Book([OnePiece(2 * n + 1000)], HalfRows(n), map[USD := 500_000], 100, 0) }

  /** No larger number of rows will do: from 202 on there is a sale with that many whose settling is refused. */
  lemma SettleCanFail(n: nat, now: int)
    requires n >= 202
    ensures var b := HalfRowsBook(n);
            && BaseSale(b.sales[0]) && Sum(b.payments, ExactFor(0)) >= 0 && Sum(b.payments, RowsFor(0)) == n
            && Balance(b.sales[0], 0, b.payments) > 0
            && PayResultOf(b, SettleRequest(b, 0, now)).Rejected?
  {
    var b := HalfRowsBook(n);
    HalfRowsSums(n);
    Exact(b.sales[0].total, RATE_UNIT);
    SettleExact(b, 0, now);
    UndisposedExact(b, SettleRequest(b, 0, now));
  }

  // ---- overpayment over whole runs ----

  function OriginalsFor(s: nat): Payment -> int
  {
    (p: Payment) => if p.order == Some(s) && p.reverses.None? then 1 else 0
  }

  function Originals(payments: seq<Payment>, s: nat): int { Sum(payments, OriginalsFor(s)) }

  /** Most that one payment may push a sale past its total: the tolerance or one change step, and a cent of rounding. */
  function PerPayment(step: int): int { Max(TOLERANCE, step) + 1 }

  predicate OriginalOk(p: Payment)
  {
    p.reverses.None? ==> p.amount > 0 && p.changeKgs * RATE_UNIT <= p.amount * p.rate
  }

  lemma NetNonNeg(p: Payment)
    requires OriginalOk(p) && p.reverses.None?
    ensures p.NetAppliedKgs() >= 0
  {
    MultiplesOrdered(p.changeKgs, HalfEven(p.amount * p.rate, RATE_UNIT), RATE_UNIT);
  }

  /** How far a sale is paid past its total in som; negative while something is owed. */
  function Over(b: Book, s: nat): int
    requires s < |b.sales|
  {
    Sum(b.payments, NetFor(s)) - b.sales[s].totalKgs
  }

  /** Where the sale started from: how far over it was, at least zero, and how many payments it had. */
  datatype Level = Level(over: nat, originals: int)

  function LevelOf(b: Book, s: nat): Level
    requires s < |b.sales|
  {
    Level(Max(Over(b, s), 0), Originals(b.payments, s))
  }

  /** Since then every payment has pushed it by at most the per-payment bound. */
  ghost predicate Bounded(b: Book, s: nat, m: Level)
  {
    && s < |b.sales|
    && (forall i :: 0 <= i < |b.payments| ==> OriginalOk(b.payments[i]))
    && Originals(b.payments, s) >= m.originals
    && Over(b, s) <= m.over + (Originals(b.payments, s) - m.originals) * PerPayment(b.step)
  }

  /** Nothing disposes of an excess as debt or credit, and som is not paid at a rate above one. */
  predicate TameRequest(b: Book, r: Request)
  {
    && (r.disposition == NoDisposition || r.disposition == Change)
    && (r.sale < |b.sales| && Or(r.currency, b.sales[r.sale].currency) == KGS ==> ResolvedRate(b, r, KGS) <= RATE_UNIT)
  }

  predicate Tame(b: Book, op: Op, s: nat)
  {
    match op
    case Record(req) => req.sale == s ==> TameRequest(b, req)
    case LinkDeposits(_, t) => t != s
    case Trade(sales) => s < |sales| && s < |b.sales| && sales[s] == b.sales[s]
    case _ => true
  }

  /** What is stored for a payment is at most a cent above what the preview counted. */
  lemma StoredVsPreview(amount: int, currency: Currency, rate: Rate, balance: int, cc: Currency, step: int)
    requires amount > 0 && (currency == KGS ==> rate <= RATE_UNIT)
    ensures HalfEven(amount * rate, RATE_UNIT) <= PreviewFor(amount, currency, rate, balance, cc, step).amountKgs + 1
  {
    MulNonNeg(amount, rate);
    if currency == KGS {
      MulAtLeast(RATE_UNIT, rate, amount);
      MultiplesOrdered(HalfEven(amount * rate, RATE_UNIT), amount, RATE_UNIT);
    } else {
      MultiplesOrdered(HalfEven(amount * rate, RATE_UNIT), RoundDown(amount * rate, RATE_UNIT) + 1, RATE_UNIT);
    }
  }

  /** How far one payment pushes a sale past its total is bounded by the tolerance or the step, and a cent. */
  predicate WithinBound(b: Book, r: Request)
    requires r.sale < |b.sales|
  {
    PayResultOf(b, r).Recorded? ==>
      Over(b, r.sale) + PayResultOf(b, r).payment.NetAppliedKgs() <= Max(Over(b, r.sale), 0) + PerPayment(b.step)
  }

  lemma OnePaymentOver(b: Book, r: Request)
    requires PayResultOf(b, r).Recorded? && TameRequest(b, r)
    ensures WithinBound(b, r)
  {
    var sale := b.sales[r.sale];
    var currency := Or(r.currency, sale.currency);
    var rate, balance, cc := ResolvedRate(b, r, currency), BalanceKgs(sale, r.sale, b.payments), Or(r.changeCurrency, sale.currency);
    StoredVsPreview(r.amount, currency, rate, balance, cc, b.step);
    ChangeArithmetic(r.amount, currency, rate, balance, cc, b.step);
  }

  lemma RecordBounded(b: Book, r: Request, s: nat, m: Level)
    requires Bounded(b, s, m) && (r.sale == s ==> TameRequest(b, r))
    ensures Bounded(AfterPay(b, PayResultOf(b, r)), s, m)
  {
    var result := PayResultOf(b, r);
    if result.Recorded? {
      var p := result.payment;
      SumAppend(b.payments, p, NetFor(s));
      SumAppend(b.payments, p, OriginalsFor(s));
      MulNonNeg(Originals(b.payments, s) - m.originals, PerPayment(b.step));
      Distribute(Originals(b.payments, s) - m.originals, 1, PerPayment(b.step));
      if r.sale == s {
        OnePaymentOver(b, r);
      }
    }
  }

  lemma {:induction false} SharesBounded(b: Book, ids: seq<nat>, shares: seq<int>, currency: Currency, batch: nat, now: int, s: nat, m: Level)
    requires |shares| <= |ids| && forall i :: 0 <= i < |ids| ==> ids[i] < |b.sales|
    requires Bounded(b, s, m) && PayShares(b, ids, shares, currency, batch, now).Some?
    ensures Bounded(PayShares(b, ids, shares, currency, batch, now).value, s, m)
    decreases |shares|
  {
    if shares != [] {
      var n := |shares| - 1;
      SharesBounded(b, ids, shares[..n], currency, batch, now, s, m);
      var d := PayShares(b, ids, shares[..n], currency, batch, now).value;
      RecordBounded(d, ShareRequest(ids[n], Min(shares[n], Balance(d.sales[ids[n]], ids[n], d.payments)), currency, batch, now), s, m);
    }
  }

  lemma ReversalNet(p: Payment, i: nat, now: int)
    ensures Reversal(p, i, now).NetAppliedKgs() == -p.NetAppliedKgs()
    ensures Reversal(p, i, now).NetExact() == -p.NetExact()
  {
    HalfEvenOdd(p.amount * p.rate, RATE_UNIT);
    assert (-p.amount) * p.rate == -(p.amount * p.rate);
    assert (-p.changeKgs) * RATE_UNIT == -(p.changeKgs * RATE_UNIT);
  }

  lemma {:induction false} ReversalsBounded(b: Book, ids: seq<nat>, now: int, s: nat, m: Level)
    requires Bounded(b, s, m)
    requires forall k :: 0 <= k < |ids| ==> ids[k] < |b.payments| && b.payments[ids[k]].reverses.None?
    ensures Bounded(b.(payments := b.payments + Reversals(b.payments, ids, now)), s, m)
  {
    var rows := Reversals(b.payments, ids, now);
    SumConcat(b.payments, rows, NetFor(s));
    SumConcat(b.payments, rows, OriginalsFor(s));
    SumZero(rows, OriginalsFor(s));
    forall k | 0 <= k < |rows| ensures NetFor(s)(rows[k]) <= NoNet()(rows[k]) {
      ReversalNet(b.payments[ids[k]], ids[k], now);
      NetNonNeg(b.payments[ids[k]]);
    }
    SumLe(rows, rows, NetFor(s), NoNet());
    SumZero(rows, NoNet());
  }

  function NoNet(): Payment -> int { (p: Payment) => 0 }

  lemma PayOldestBounded(b: Book, client: nat, currency: Currency, amount: int, now: int, s: nat, m: Level)
    requires Bounded(b, s, m) && PayOldestOf(b, client, currency, amount, now).Some?
    ensures Bounded(PayOldestOf(b, client, currency, amount, now).value, s, m)
  {
    var ids := OldestFirst(b, client, currency);
    var shares := Shares(Balances(b, ids), amount);
    Numbered(b, s, m);
    BatchBounded(b, ids, shares, currency, now, s, m);
  }

  lemma Numbered(b: Book, s: nat, m: Level)
    requires Bounded(b, s, m)
    ensures Bounded(b.(nextBatch := b.nextBatch + 1), s, m)
  {
  }

  lemma {:induction false} BatchIs(b: Book, ids: seq<nat>, shares: seq<int>, currency: Currency, now: int)
    requires |shares| <= |ids| && forall i :: 0 <= i < |ids| ==> ids[i] < |b.sales|
    ensures BatchOf(b, ids, shares, currency, now) ==
            PayShares(b.(nextBatch := b.nextBatch + 1), ids, shares, currency, b.nextBatch, now)
  {
  }

  lemma BatchBounded(b: Book, ids: seq<nat>, shares: seq<int>, currency: Currency, now: int, s: nat, m: Level)
    requires |shares| <= |ids| && forall i :: 0 <= i < |ids| ==> ids[i] < |b.sales|
    requires Bounded(b.(nextBatch := b.nextBatch + 1), s, m) && BatchOf(b, ids, shares, currency, now).Some?
    ensures Bounded(BatchOf(b, ids, shares, currency, now).value, s, m)
  {
    BatchIs(b, ids, shares, currency, now);
    SharesBounded(b.(nextBatch := b.nextBatch + 1), ids, shares, currency, b.nextBatch, now, s, m);
  }

  lemma DepositBounded(b: Book, p: Payment, s: nat, m: Level)
    requires Bounded(b, s, m) && p.order.None? && OriginalOk(p)
    ensures Bounded(b.(payments := b.payments + [p]), s, m)
  {
    SumAppend(b.payments, p, NetFor(s));
    SumAppend(b.payments, p, OriginalsFor(s));
  }

  lemma LinkBounded(b: Book, production: nat, t: nat, s: nat, m: Level)
    requires Bounded(b, s, m) && t != s
    ensures Bounded(b.(payments := Linked(b.payments, production, t)), s, m)
  {
    SumSame(Linked(b.payments, production, t), b.payments, NetFor(s), NetFor(s));
    SumSame(Linked(b.payments, production, t), b.payments, OriginalsFor(s), OriginalsFor(s));
  }

  lemma OpBounded(b: Book, op: Op, s: nat, m: Level)
    requires Bounded(b, s, m) && Tame(b, op, s)
    ensures Bounded(Apply(b, op), s, m)
  {
    match op
    case Record(req) => RecordBounded(b, req, s, m);
    case Settle(t, now) => if t < |b.sales| { RecordBounded(b, SettleRequest(b, t, now), s, m); }
    case PayOldest(client, currency, amount, now) =>
      if PayOldestOf(b, client, currency, amount, now).Some? {
        PayOldestBounded(b, client, currency, amount, now, s, m);
      }
    case Void(i, superuser, now) =>
      if CanVoid(b.payments, i, superuser) {
        ReversalsBounded(b, [i], now, s, m);
        assert Reversals(b.payments, [i], now) == [Reversal(b.payments[i], i, now)];
      }
    case VoidBatch(batch, superuser, now) =>
      if CanVoidBatch(b.payments, batch, superuser) {
        ReversalsBounded(b, ToVoid(b.payments, batch.value, |b.payments|), now, s, m);
      }
    case Deposit(production, client, amount, currency, now) =>
      var p := DepositRow(b, production, client, amount, currency, now);
      if amount > 0 {
        MulNonNeg(amount, p.rate);
        DepositBounded(b, p, s, m);
      }
    case LinkDeposits(production, t) => LinkBounded(b, production, t, s, m);
    case Trade(_) =>
    case SetRate(_, _) =>
  }

  ghost predicate TameRun(b: Book, ops: seq<Op>, s: nat)
  {
    ops == [] || (TameRun(b, ops[..|ops| - 1], s) && Tame(Run(b, ops[..|ops| - 1]), ops[|ops| - 1], s))
  }

  lemma {:induction false} RunBounded(b: Book, ops: seq<Op>, s: nat, m: Level)
    requires Bounded(b, s, m) && TameRun(b, ops, s)
    ensures Bounded(Run(b, ops), s, m)
  {
    if ops != [] {
      RunBounded(b, ops[..|ops| - 1], s, m);
      OpBounded(Run(b, ops[..|ops| - 1]), ops[|ops| - 1], s, m);
    }
  }

  lemma StartBounded(b: Book, s: nat)
    requires s < |b.sales| && forall i :: 0 <= i < |b.payments| ==> OriginalOk(b.payments[i])
    ensures Bounded(b, s, LevelOf(b, s))
  {
    assert 0 * PerPayment(b.step) == 0;
  }

  /** From any book on, net applied passes total_kgs by at most what it did before, if it did, and
      (number of payments since) * (max(tolerance, step) + 0.01). */
  lemma {:induction false} OverpaymentBound(b: Book, ops: seq<Op>, s: nat)
    requires s < |b.sales| && TameRun(b, ops, s) && forall i :: 0 <= i < |b.payments| ==> OriginalOk(b.payments[i])
    ensures Bounded(Run(b, ops), s, LevelOf(b, s))
  {
    StartBounded(b, s);
    RunBounded(b, ops, s, LevelOf(b, s));
  }

  // ---- som at a hand-entered rate ----

  /** The request pays som at this rate and says at most that computed change is given. */
  predicate SomAt(b: Book, r: Request, rate: Rate)
  {
    && r.sale < |b.sales| && Or(r.currency, b.sales[r.sale].currency) == KGS && ResolvedRate(b, r, KGS) == rate
    && (r.disposition == NoDisposition || r.disposition == Change)
  }

  ghost predicate AlwaysWithinBound(step: int, rate: Rate)
  {
    forall b: Book, r: Request :: b.step == step && SomAt(b, r, rate) ==> WithinBound(b, r)
  }

  function Widest(step: int): nat { (PerPayment(step) + 1) * RATE_UNIT }

  function WideSale(step: int): Book { Book([OnePiece(Widest(step))], [], map[], step, 0) }

  function WideRequest(step: int, rate: Rate): Request
  {
    Request(0, Widest(step), None, Some(rate), NoDisposition, None, None, 0)
  }

  /** At any rate above one, a payment the guard takes at face value for a large enough sale passes the bound. */
  lemma RateAboveOneOvershoots(step: int, rate: Rate)
    requires rate > RATE_UNIT
    ensures PayResultOf(WideSale(step), WideRequest(step, rate)).Recorded?
    ensures !WithinBound(WideSale(step), WideRequest(step, rate))
  {
    var b, r, n := WideSale(step), WideRequest(step, rate), PerPayment(step) + 1;
    UndisposedExact(b, r);
    Swap(n, RATE_UNIT, rate);
    Exact(n * rate, RATE_UNIT);
    MulAtLeast(rate - RATE_UNIT, 1, n);
    Distribute(rate, RATE_UNIT, n);
    assert RowOf(b, r).AmountKgs() == n * rate;
  }

  /** A hand-entered som rate keeps the bound for every payment exactly when it is at most one. */
  lemma SomRateExact(step: int, rate: Rate)
    ensures AlwaysWithinBound(step, rate) <==> rate <= RATE_UNIT
  {
    if rate <= RATE_UNIT {
      forall b: Book, r: Request | b.step == step && SomAt(b, r, rate) ensures WithinBound(b, r) {
        if PayResultOf(b, r).Recorded? {
          OnePaymentOver(b, r);
        }
      }
    } else {
      RateAboveOneOvershoots(step, rate);
      assert SomAt(WideSale(step), WideRequest(step, rate), rate);
    }
  }
}
