/** One repayment over several open sales, oldest first: money conserved, sales closed in order, none refused. */
module Repay {
  import opened Rounding
  import opened Sums
  import opened Sorting
  import opened Models
  import opened Till
  import opened Money

  // ---- the allocation ----

  lemma {:induction false} SumCons(x: int, s: seq<int>)
    ensures Sum([x] + s, Cents()) == x + Sum(s, Cents())
  {
    SumConcat([x], s, Cents());
    assert [x][..0] == [];
  }

  lemma {:induction false} LeftIs(balances: seq<int>, amount: int, n: nat)
    requires n <= |balances| && forall i :: 0 <= i < |balances| ==> balances[i] > 0
    ensures Left(balances, amount, n) == if amount <= 0 then amount else Max(amount - Sum(balances[..n], Cents()), 0)
  {
    if n > 0 {
      LeftIs(balances, amount, n - 1);
      SumStep(balances, n - 1, Cents());
    }
  }

  lemma {:induction false} TakenIs(balances: seq<int>, amount: int, k: nat)
    requires k <= |Shares(balances, amount)|
    ensures Sum(Shares(balances, amount)[..k], Cents()) == amount - Left(balances, amount, k)
  {
    if k > 0 {
      TakenIs(balances, amount, k - 1);
      SumStep(Shares(balances, amount), k - 1, Cents());
      GoesOn(balances, amount, k - 1);
    }
  }

  /** While a later sale gets a share, something was left at this one. */
  lemma {:induction false} GoesOn(balances: seq<int>, amount: int, k: nat)
    requires k < Reached(balances, amount, |balances|)
    ensures Left(balances, amount, k) > 0
  {
    if Left(balances, amount, k) <= 0 {
      SpentStays(balances, amount, k, Reached(balances, amount, |balances|) - 1);
    }
  }

  /** A share is positive and fits its sale; it closes the sale if another share follows or money is left over. */
  lemma {:induction false} ShareInside(balances: seq<int>, amount: int, k: nat)
    requires k < Reached(balances, amount, |balances|) && balances[k] > 0
    ensures var share := Min(Left(balances, amount, k), balances[k]);
            && 0 < share <= balances[k]
            && (k + 1 < Reached(balances, amount, |balances|) || Left(balances, amount, |balances|) > 0 ==> share == balances[k])
  {
    GoesOn(balances, amount, k);
    if Left(balances, amount, k + 1) <= 0 {
      SpentStays(balances, amount, k + 1, |balances|);
      if k + 1 < Reached(balances, amount, |balances|) {
        GoesOn(balances, amount, k + 1);
      }
    }
  }

  lemma {:induction false} SharesSum(balances: seq<int>, amount: int)
    requires forall i :: 0 <= i < |balances| ==> balances[i] > 0
    ensures var shares := Shares(balances, amount);
            && Sum(shares, Cents()) + Left(balances, amount, |balances|) == amount
            && Sum(shares, Cents()) == Min(Max(amount, 0), Sum(balances, Cents()))
            && (Left(balances, amount, |balances|) > 0 ==> |shares| == |balances|)
  {
    var shares, n := Shares(balances, amount), |balances|;
    TakenIs(balances, amount, |shares|);
    assert shares[..|shares|] == shares && balances[..n] == balances;
    LeftIs(balances, amount, n);
    SumNonNeg(balances, Cents());
    if |shares| < n {
      SpentStays(balances, amount, |shares|, n);
    }
  }

  /** Nothing is lost or invented, every share but the last closes its sale, and money is left over only
      when every open sale is covered. */
  lemma {:induction false} AllocationConserves(balances: seq<int>, amount: int)
    requires forall i :: 0 <= i < |balances| ==> balances[i] > 0
    ensures var shares, rest := Shares(balances, amount), Left(balances, amount, |balances|);
            && |shares| <= |balances|
            && (forall i :: 0 <= i < |shares| ==> 0 < shares[i] <= balances[i])
            && (forall i :: 0 <= i < |shares| - 1 ==> shares[i] == balances[i])
            && Sum(shares, Cents()) + rest == amount
            && Sum(shares, Cents()) == Min(Max(amount, 0), Sum(balances, Cents()))
            && (rest > 0 ==> shares == balances)
  {
    var shares := Shares(balances, amount);
    SharesSum(balances, amount);
    forall i | 0 <= i < |shares|
      ensures 0 < shares[i] <= balances[i]
      ensures i < |shares| - 1 || Left(balances, amount, |balances|) > 0 ==> shares[i] == balances[i]
    {
      ShareInside(balances, amount, i);
    }
  }

  // ---- sales whose payments convert without a remainder ----

  function Kept(s: nat): Payment -> int
  {
    (p: Payment) => if p.order == Some(s) then p.amount - p.changeKgs else 0
  }

  /** Every row so far is at the sale's own frozen rate (with som change only where the rate is one), today's
      rate is that rate too, and a foreign sale has at most 200 rows: enough for every share to fit. */
  ghost predicate Straight(b: Book, s: nat)
  {
    && s < |b.sales|
    && var sale := b.sales[s];
       && sale.client.Some? && sale.status == Confirmed && sale.total >= 0
       && sale.totalKgs == ToKgs(sale.total, sale.rate)
       && SnapshotRate(b.rates, sale.currency) == sale.rate
       && (forall i :: 0 <= i < |b.payments| && b.payments[i].order == Some(s) ==>
             b.payments[i].rate == sale.rate && (sale.rate == RATE_UNIT || b.payments[i].changeKgs == 0))
       && (sale.rate == RATE_UNIT || Sum(b.payments, RowsFor(s)) <= 200)
  }

  function NoExact(): Payment -> int { (p: Payment) => 0 }

  lemma ExactIsKept(p: Payment, s: nat, rate: Rate)
    requires p.order == Some(s) ==> p.rate == rate && (rate == RATE_UNIT || p.changeKgs == 0)
    ensures ExactFor(s)(p) == rate * Kept(s)(p)
  {
    if p.order == Some(s) && rate == RATE_UNIT {
      Distribute(p.amount, p.changeKgs, RATE_UNIT);
    }
  }

  lemma StraightPaid(b: Book, s: nat)
    requires Straight(b, s)
    ensures Sum(b.payments, ExactFor(s)) == Sum(b.payments, Kept(s)) * b.sales[s].rate
    ensures PaidAmount(b.sales[s], s, b.payments) == Sum(b.payments, Kept(s))
  {
    var rate := b.sales[s].rate;
    forall i | 0 <= i < |b.payments|
      ensures ExactFor(s)(b.payments[i]) == NoExact()(b.payments[i]) + rate * Kept(s)(b.payments[i])
    {
      ExactIsKept(b.payments[i], s, rate);
    }
    SumLinear(b.payments, ExactFor(s), NoExact(), Kept(s), rate);
    SumZero(b.payments, NoExact());
    WholeQuotient(Sum(b.payments, ExactFor(s)), Sum(b.payments, Kept(s)), rate);
  }

  lemma WholeQuotient(x: int, k: int, rate: Rate)
    requires x == rate * k
    ensures x == k * rate && HalfUp(x, rate) == k
  {
    Exact(k, rate);
  }

  lemma UnitNet(b: Book, s: nat)
    requires Straight(b, s) && b.sales[s].rate == RATE_UNIT
    ensures Sum(b.payments, NetFor(s)) == Sum(b.payments, Kept(s))
  {
    forall i | 0 <= i < |b.payments| ensures NetFor(s)(b.payments[i]) == Kept(s)(b.payments[i]) {
      PlainRow(b.payments[i].amount);
    }
    SumSame(b.payments, b.payments, NetFor(s), Kept(s));
  }

  /** On such a sale an amount within its balance always fits the guard. */
  lemma StraightFits(b: Book, s: nat, applied: int)
    requires Straight(b, s) && 0 < applied <= b.sales[s].total - PaidAmount(b.sales[s], s, b.payments)
    ensures Fits(b, s, applied, b.sales[s].currency, SnapshotRate(b.rates, b.sales[s].currency))
  {
    var sale := b.sales[s];
    StraightPaid(b, s);
    var paid := Sum(b.payments, Kept(s));
    if sale.rate == RATE_UNIT {
      UnitNet(b, s);
      Exact(sale.total, RATE_UNIT);
      Exact(applied, RATE_UNIT);
    } else {
      NetVsExact(b.payments, s);
      MulNonNeg(sale.total, sale.rate);
      MulNonNeg(applied, sale.rate);
      MulAtLeast(sale.total - paid, applied, sale.rate);
      Distribute(sale.total, paid, sale.rate);
      ForeignExcess(RoundDown(applied * sale.rate, RATE_UNIT), sale.totalKgs, Sum(b.payments, NetFor(s)),
                    Sum(b.payments, RowsFor(s)), applied * sale.rate, sale.total * sale.rate, paid * sale.rate);
    }
  }

  lemma ForeignExcess(amountKgs: int, totalKgs: int, net: int, n: int, share: int, owed: int, paid: int)
    requires share - amountKgs * RATE_UNIT >= 0
    requires totalKgs * RATE_UNIT >= owed
    requires 2 * (RATE_UNIT * net - paid) <= n * RATE_UNIT && n <= 200
    requires share <= owed - paid
    ensures amountKgs - (totalKgs - net) <= TOLERANCE
  {
  }

  // ---- the shares of one repayment ----

  /** The row a share leaves, at today's rate. */
  function ShareRow(b: Book, s: nat, applied: int, currency: Currency, batch: nat, now: int): Payment
    requires s < |b.sales| && b.sales[s].client.Some?
  {
    Payment(b.sales[s].client.value, Some(s), None, applied, currency, SnapshotRate(b.rates, currency), NoDisposition,
            0, b.sales[s].currency, 0, 0, Some(batch), false, None, now)
  }

  /** The sales are distinct and each share is part of what its sale owes. */
  ghost predicate Ready(b: Book, ids: seq<nat>, shares: seq<int>, currency: Currency)
  {
    && |shares| <= |ids|
    && (forall i :: 0 <= i < |ids| ==> ids[i] < |b.sales|)
    && (forall i, j :: 0 <= i < j < |ids| ==> ids[i] != ids[j])
    && (forall i :: 0 <= i < |shares| ==>
          && b.sales[ids[i]].client.Some? && b.sales[ids[i]].currency == currency
          && 0 < shares[i] <= Balance(b.sales[ids[i]], ids[i], b.payments))
  }

  predicate ShareFits(b: Book, s: nat, share: int, currency: Currency)
    requires s < |b.sales|
  {
    Fits(b, s, share, currency, SnapshotRate(b.rates, currency))
  }

  /** What a caller can check before the call. */
  predicate AllFit(b: Book, ids: seq<nat>, shares: seq<int>, currency: Currency)
    requires |shares| <= |ids| && forall i :: 0 <= i < |ids| ==> ids[i] < |b.sales|
  {
    forall i :: 0 <= i < |shares| ==> ShareFits(b, ids[i], shares[i], currency)
  }

  function Rows(b: Book, ids: seq<nat>, shares: seq<int>, currency: Currency, batch: nat, now: int): (r: seq<Payment>)
    requires |shares| <= |ids| && forall i :: 0 <= i < |shares| ==> ids[i] < |b.sales| && b.sales[ids[i]].client.Some?
    ensures |r| == |shares| && forall i :: 0 <= i < |r| ==> r[i] == ShareRow(b, ids[i], shares[i], currency, batch, now)
  {
    seq(|shares|, i requires 0 <= i < |shares| => ShareRow(b, ids[i], shares[i], currency, batch, now))
  }

  /** One share of what a sale owes is recorded exactly as asked when it fits, and refused when it does not. */
  lemma ShareDecided(b: Book, s: nat, share: int, currency: Currency, batch: nat, now: int)
    requires s < |b.sales| && b.sales[s].client.Some? && b.sales[s].currency == currency
    requires 0 < share <= Balance(b.sales[s], s, b.payments)
    ensures PayShare(b, s, share, currency, batch, now) ==
            if ShareFits(b, s, share, currency)
            then Some(b.(payments := b.payments + [ShareRow(b, s, share, currency, batch, now)])) else None
  {
    UndisposedExact(b, ShareRequest(s, share, currency, batch, now));
  }

  /** Rows on other sales change nothing for this one. */
  lemma OtherSale(b: Book, rows: seq<Payment>, t: nat)
    requires t < |b.sales| && forall i :: 0 <= i < |rows| ==> rows[i].order.Some? && rows[i].order != Some(t)
    ensures PaidAmount(b.sales[t], t, b.payments + rows) == PaidAmount(b.sales[t], t, b.payments)
    ensures BalanceKgs(b.sales[t], t, b.payments + rows) == BalanceKgs(b.sales[t], t, b.payments)
  {
    SumConcat(b.payments, rows, ExactFor(t));
    SumConcat(b.payments, rows, NetFor(t));
    SumZero(rows, ExactFor(t));
    SumZero(rows, NetFor(t));
  }

  lemma RowsSnoc(b: Book, ids: seq<nat>, shares: seq<int>, currency: Currency, batch: nat, now: int)
    requires 0 < |shares| <= |ids| && forall i :: 0 <= i < |shares| ==> ids[i] < |b.sales| && b.sales[ids[i]].client.Some?
    ensures var n := |shares| - 1;
            b.payments + Rows(b, ids, shares, currency, batch, now) ==
            b.payments + Rows(b, ids, shares[..n], currency, batch, now) + [ShareRow(b, ids[n], shares[n], currency, batch, now)]
  {
    var n := |shares| - 1;
    assert Rows(b, ids, shares, currency, batch, now) ==
           Rows(b, ids, shares[..n], currency, batch, now) + [ShareRow(b, ids[n], shares[n], currency, batch, now)];
  }

  /** In any book, all shares are recorded, one row each, when every one fits; otherwise none is. */
  lemma {:induction false} SharesDecided(b: Book, ids: seq<nat>, shares: seq<int>, currency: Currency, batch: nat, now: int)
    requires Ready(b, ids, shares, currency)
    ensures PayShares(b, ids, shares, currency, batch, now) ==
            if AllFit(b, ids, shares, currency)
            then Some(b.(payments := b.payments + Rows(b, ids, shares, currency, batch, now))) else None
    decreases |shares|
  {
    if shares == [] {
      assert b.payments + Rows(b, ids, shares, currency, batch, now) == b.payments;
    } else {
      var n := |shares| - 1;
      assert Ready(b, ids, shares[..n], currency);
      SharesDecided(b, ids, shares[..n], currency, batch, now);
      AllFitStep(b, ids, shares, currency);
      LastDecided(b, ids, shares, currency, batch, now);
      RowsSnoc(b, ids, shares, currency, batch, now);
    }
  }

  lemma AllFitStep(b: Book, ids: seq<nat>, shares: seq<int>, currency: Currency)
    requires 0 < |shares| <= |ids| && forall i :: 0 <= i < |ids| ==> ids[i] < |b.sales|
    ensures var n := |shares| - 1;
            AllFit(b, ids, shares, currency) <==>
            AllFit(b, ids, shares[..n], currency) && ShareFits(b, ids[n], shares[n], currency)
  {
    var n := |shares| - 1;
    assert forall i :: 0 <= i < n ==> shares[..n][i] == shares[i];
  }

  lemma LastDecided(b: Book, ids: seq<nat>, shares: seq<int>, currency: Currency, batch: nat, now: int)
    requires Ready(b, ids, shares, currency) && shares != []
    ensures var n := |shares| - 1;
            var mid := b.(payments := b.payments + Rows(b, ids, shares[..n], currency, batch, now));
            PayShare(mid, ids[n], shares[n], currency, batch, now) ==
            if ShareFits(b, ids[n], shares[n], currency)
            then Some(mid.(payments := mid.payments + [ShareRow(b, ids[n], shares[n], currency, batch, now)])) else None
  {
    var n := |shares| - 1;
    var rows := Rows(b, ids, shares[..n], currency, batch, now);
    forall i | 0 <= i < n ensures rows[i].order == Some(ids[i]) && ids[i] != ids[n] {}
    OtherSale(b, rows, ids[n]);
    ShareDecided(b.(payments := b.payments + rows), ids[n], shares[n], currency, batch, now);
  }

  /** The batch as a whole. */
  lemma BatchDecided(b: Book, ids: seq<nat>, shares: seq<int>, currency: Currency, now: int)
    requires Ready(b, ids, shares, currency)
    ensures BatchOf(b, ids, shares, currency, now) ==
            if AllFit(b, ids, shares, currency)
            then Some(b.(nextBatch := b.nextBatch + 1, payments := b.payments + Rows(b, ids, shares, currency, b.nextBatch, now)))
            else None
  {
    var d := b.(nextBatch := b.nextBatch + 1);
    BatchIs(b, ids, shares, currency, now);
    NumberedReady(b, ids, shares, currency, now);
    SharesDecided(d, ids, shares, currency, b.nextBatch, now);
  }

  lemma NumberedReady(b: Book, ids: seq<nat>, shares: seq<int>, currency: Currency, now: int)
    requires Ready(b, ids, shares, currency)
    ensures var d := b.(nextBatch := b.nextBatch + 1);
            && Ready(d, ids, shares, currency)
            && (AllFit(d, ids, shares, currency) <==> AllFit(b, ids, shares, currency))
            && Rows(d, ids, shares, currency, b.nextBatch, now) == Rows(b, ids, shares, currency, b.nextBatch, now)
  {
    var d := b.(nextBatch := b.nextBatch + 1);
    forall i | 0 <= i < |shares|
      ensures ShareFits(d, ids[i], shares[i], currency) == ShareFits(b, ids[i], shares[i], currency)
    {
    }
  }

  // ---- what the rows do ----

  /** Among the new rows only the i-th is on the i-th sale. */
  lemma RowsOn(b: Book, ids: seq<nat>, shares: seq<int>, currency: Currency, batch: nat, now: int, i: nat)
    requires Ready(b, ids, shares, currency) && i < |shares|
    ensures Sum(Rows(b, ids, shares, currency, batch, now), ExactFor(ids[i])) == shares[i] * SnapshotRate(b.rates, currency)
  {
    var rows := Rows(b, ids, shares, currency, batch, now);
    forall j | 0 <= j < |rows| && j != i ensures ExactFor(ids[i])(rows[j]) == 0 {
      assert rows[j].order == Some(ids[j]);
    }
    SumOnly(rows, i, ExactFor(ids[i]));
    assert rows[i].changeKgs == 0 && rows[i].order == Some(ids[i]);
  }

  lemma RowsOff(b: Book, ids: seq<nat>, shares: seq<int>, currency: Currency, batch: nat, now: int, t: nat)
    requires Ready(b, ids, shares, currency) && forall i :: 0 <= i < |shares| ==> ids[i] != t
    ensures Sum(Rows(b, ids, shares, currency, batch, now), ExactFor(t)) == 0
  {
    SumZero(Rows(b, ids, shares, currency, batch, now), ExactFor(t));
  }

  /** Where today's rate is the frozen one, what is paid rises by the share to the cent. */
  lemma PaidAfter(b: Book, ids: seq<nat>, shares: seq<int>, currency: Currency, batch: nat, now: int, i: nat)
    requires Ready(b, ids, shares, currency) && i < |shares|
    requires SnapshotRate(b.rates, currency) == b.sales[ids[i]].rate && Sum(b.payments, ExactFor(ids[i])) >= 0
    ensures var sale, rows := b.sales[ids[i]], Rows(b, ids, shares, currency, batch, now);
            PaidAmount(sale, ids[i], b.payments + rows) == PaidAmount(sale, ids[i], b.payments) + shares[i]
  {
    var rows := Rows(b, ids, shares, currency, batch, now);
    RowsOn(b, ids, shares, currency, batch, now, i);
    SumConcat(b.payments, rows, ExactFor(ids[i]));
    HalfUpShift(Sum(b.payments, ExactFor(ids[i])), shares[i], b.sales[ids[i]].rate);
  }

  /** The client's open sales, oldest first, and what each owes. */
  function OpenBalances(b: Book, client: nat, currency: Currency): seq<int>
  {
    Balances(b, OldestFirst(b, client, currency))
  }

  lemma OpenReady(b: Book, client: nat, currency: Currency, amount: int)
    ensures var ids, shares := OldestFirst(b, client, currency), Shares(OpenBalances(b, client, currency), amount);
            && Ready(b, ids, shares, currency)
            && forall i :: 0 <= i < |shares| - 1 ==> shares[i] == Balance(b.sales[ids[i]], ids[i], b.payments)
  {
    var ids, balances := OldestFirst(b, client, currency), OpenBalances(b, client, currency);
    assert forall i :: 0 <= i < |balances| ==> balances[i] > 0;
    AllocationConserves(balances, amount);
    var shares := Shares(balances, amount);
    forall i | 0 <= i < |shares|
      ensures b.sales[ids[i]].client.Some? && b.sales[ids[i]].currency == currency
      ensures 0 < shares[i] <= Balance(b.sales[ids[i]], ids[i], b.payments)
    {
      assert OpenSale(b, client, currency, ids[i]);
      assert shares[i] <= balances[i];
    }
  }

  lemma {:induction false} WithinTotal(b: Book, client: nat, currency: Currency, amount: int)
    requires amount > 0
    ensures var balances := OpenBalances(b, client, currency);
            && (Left(balances, amount, |balances|) > 0 <==> amount > Sum(balances, Cents()))
            && (amount <= Sum(balances, Cents()) ==> Sum(Shares(balances, amount), Cents()) == amount)
  {
    var balances := OpenBalances(b, client, currency);
    assert forall i :: 0 <= i < |balances| ==> balances[i] > 0;
    AllocationConserves(balances, amount);
    SumNonNeg(balances, Cents());
  }

  /** One row a share, in the next batch, nothing else. */
  predicate RowsAdded(b: Book, d: Book, ids: seq<nat>, shares: seq<int>)
  {
    && |shares| <= |ids| && d.sales == b.sales
    && |d.payments| == |b.payments| + |shares| && d.payments[..|b.payments|] == b.payments
    && forall i :: 0 <= i < |shares| ==>
         var p := d.payments[|b.payments| + i];
         p.amount == shares[i] && p.order == Some(ids[i]) && p.batch == Some(b.nextBatch) && p.changeKgs == 0
  }

  lemma RowsAreAdded(b: Book, ids: seq<nat>, shares: seq<int>, currency: Currency, now: int)
    requires |shares| <= |ids| && forall i :: 0 <= i < |shares| ==> ids[i] < |b.sales| && b.sales[ids[i]].client.Some?
    ensures var rows := Rows(b, ids, shares, currency, b.nextBatch, now);
            RowsAdded(b, b.(nextBatch := b.nextBatch + 1, payments := b.payments + rows), ids, shares)
  {
    AppendedRows(b.payments, Rows(b, ids, shares, currency, b.nextBatch, now));
  }

  lemma AppendedRows(payments: seq<Payment>, rows: seq<Payment>)
    ensures (payments + rows)[..|payments|] == payments
    ensures forall i :: 0 <= i < |rows| ==> (payments + rows)[|payments| + i] == rows[i]
  {
  }

  lemma PayOldestDecided(b: Book, client: nat, currency: Currency, amount: int, now: int)
    requires amount > 0
    ensures var ids, shares := OldestFirst(b, client, currency), Shares(OpenBalances(b, client, currency), amount);
            && Ready(b, ids, shares, currency)
            && PayOldestOf(b, client, currency, amount, now) ==
               if amount <= Sum(OpenBalances(b, client, currency), Cents()) && AllFit(b, ids, shares, currency)
               then Some(b.(nextBatch := b.nextBatch + 1,
                            payments := b.payments + Rows(b, ids, shares, currency, b.nextBatch, now)))
               else None
  {
    var ids, balances := OldestFirst(b, client, currency), OpenBalances(b, client, currency);
    OpenReady(b, client, currency, amount);
    WithinTotal(b, client, currency, amount);
    PayOldestIs(b, client, currency, amount, now, Shares(balances, amount), Left(balances, amount, |balances|));
    BatchDecided(b, ids, Shares(balances, amount), currency, now);
  }

  /** In any book: a repayment is taken exactly when it is within the open total and every share fits, and then it is
      recorded to the cent, one row a sale, in one batch. */
  lemma RepaymentExact(b: Book, client: nat, currency: Currency, amount: int, now: int)
    requires amount > 0
    ensures var ids, shares := OldestFirst(b, client, currency), Shares(OpenBalances(b, client, currency), amount);
            var result := PayOldestOf(b, client, currency, amount, now);
            && |shares| <= |ids|
            && (result.Some? <==> amount <= Sum(OpenBalances(b, client, currency), Cents()) && AllFit(b, ids, shares, currency))
            && (result.Some? ==> Sum(shares, Cents()) == amount && RowsAdded(b, result.value, ids, shares))
  {
    var ids, shares := OldestFirst(b, client, currency), Shares(OpenBalances(b, client, currency), amount);
    PayOldestDecided(b, client, currency, amount, now);
    WithinTotal(b, client, currency, amount);
    RowsAreAdded(b, ids, shares, currency, now);
  }

  function PaidOn(sales: seq<Sale>, s: nat, payments: seq<Payment>): int
    requires s < |sales|
  {
    PaidAmount(sales[s], s, payments)
  }

  /** Every sale reached is paid its share, all but the last are paid in full, and no other sale is touched. */
  ghost predicate PaidUp(b: Book, payments: seq<Payment>, ids: seq<nat>, shares: seq<int>)
  {
    && |shares| <= |ids| && (forall i :: 0 <= i < |ids| ==> ids[i] < |b.sales|)
    && (forall i :: 0 <= i < |shares| - 1 ==> PaidOn(b.sales, ids[i], payments) == b.sales[ids[i]].total)
    && (forall i :: 0 <= i < |shares| ==> PaidOn(b.sales, ids[i], payments) == PaidOn(b.sales, ids[i], b.payments) + shares[i])
    && (forall t: nat :: t < |b.sales| && t !in ids[..|shares|] ==>
          PaidOn(b.sales, t, payments) == PaidOn(b.sales, t, b.payments))
  }

  /** Today's rate is the frozen one and no figure is negative, as in every book the payment services reach. */
  predicate Unmoved(b: Book, s: nat)
  {
    s < |b.sales| && SnapshotRate(b.rates, b.sales[s].currency) == b.sales[s].rate && Sum(b.payments, ExactFor(s)) >= 0
  }

  lemma NotReached(b: Book, ids: seq<nat>, shares: seq<int>, currency: Currency, batch: nat, now: int, t: nat)
    requires Ready(b, ids, shares, currency) && t < |b.sales| && t !in ids[..|shares|]
    ensures PaidOn(b.sales, t, b.payments + Rows(b, ids, shares, currency, batch, now)) == PaidOn(b.sales, t, b.payments)
  {
    forall i | 0 <= i < |shares| ensures ids[i] != t {
      assert ids[..|shares|][i] == ids[i];
    }
    RowsOff(b, ids, shares, currency, batch, now, t);
    SumConcat(b.payments, Rows(b, ids, shares, currency, batch, now), ExactFor(t));
  }

  lemma RowsSettle(b: Book, ids: seq<nat>, shares: seq<int>, currency: Currency, batch: nat, now: int)
    requires Ready(b, ids, shares, currency) && forall i :: 0 <= i < |shares| ==> Unmoved(b, ids[i])
    requires forall i :: 0 <= i < |shares| - 1 ==> shares[i] == Balance(b.sales[ids[i]], ids[i], b.payments)
    ensures PaidUp(b, b.payments + Rows(b, ids, shares, currency, batch, now), ids, shares)
  {
    var rows := Rows(b, ids, shares, currency, batch, now);
    forall i | 0 <= i < |shares|
      ensures PaidOn(b.sales, ids[i], b.payments + rows) == PaidOn(b.sales, ids[i], b.payments) + shares[i]
    {
      assert Unmoved(b, ids[i]);
      PaidAfter(b, ids, shares, currency, batch, now, i);
    }
    forall t: nat | t < |b.sales| && t !in ids[..|shares|]
      ensures PaidOn(b.sales, t, b.payments + rows) == PaidOn(b.sales, t, b.payments)
    {
      NotReached(b, ids, shares, currency, batch, now, t);
    }
  }

  /** A repayment that is taken at an unmoved rate settles every sale it reaches but possibly the last and leaves all
      others as they were. */
  lemma RepaymentSettles(b: Book, client: nat, currency: Currency, amount: int, now: int)
    requires amount > 0 && PayOldestOf(b, client, currency, amount, now).Some?
    requires forall s: nat :: OpenSale(b, client, currency, s) ==> Unmoved(b, s)
    ensures PaidUp(b, PayOldestOf(b, client, currency, amount, now).value.payments, OldestFirst(b, client, currency),
                   Shares(OpenBalances(b, client, currency), amount))
  {
    var ids, shares := OldestFirst(b, client, currency), Shares(OpenBalances(b, client, currency), amount);
    PayOldestDecided(b, client, currency, amount, now);
    OpenReady(b, client, currency, amount);
    forall i | 0 <= i < |shares| ensures Unmoved(b, ids[i]) {
      assert OpenSale(b, client, currency, ids[i]);
    }
    RowsSettle(b, ids, shares, currency, b.nextBatch, now);
  }

  /** Enough for every part of the balance to fit: rows that convert without a remainder, few rows at an unmoved rate,
      or a som sale with at most 201 of them. */
  ghost predicate Easy(b: Book, s: nat)
  {
    || Straight(b, s)
    || FewRows(b, s)
    || (s < |b.sales| && BaseSale(b.sales[s]) && Sum(b.payments, ExactFor(s)) >= 0 && Sum(b.payments, RowsFor(s)) <= 201)
  }

  lemma EasyFits(b: Book, s: nat, share: int)
    requires Easy(b, s) && 0 < share <= b.sales[s].total - PaidAmount(b.sales[s], s, b.payments)
    ensures ShareFits(b, s, share, b.sales[s].currency)
  {
    if Straight(b, s) {
      StraightFits(b, s, share);
    } else if FewRows(b, s) {
      FewRowsFit(b, s, share);
    } else {
      SomRowsFit(b, s, share);
    }
  }

  lemma {:induction false} EasyAllFit(b: Book, client: nat, currency: Currency, amount: int)
    requires forall s: nat :: OpenSale(b, client, currency, s) ==> Easy(b, s)
    ensures var ids, shares := OldestFirst(b, client, currency), Shares(OpenBalances(b, client, currency), amount);
            |shares| <= |ids| && AllFit(b, ids, shares, currency)
  {
    var ids, shares := OldestFirst(b, client, currency), Shares(OpenBalances(b, client, currency), amount);
    OpenReady(b, client, currency, amount);
    forall i | 0 <= i < |shares| ensures ShareFits(b, ids[i], shares[i], currency) {
      assert OpenSale(b, client, currency, ids[i]);
      assert Easy(b, ids[i]);
      EasyFits(b, ids[i], shares[i]);
    }
  }

  /** Where every open sale is such, an amount up to the open total is never refused. */
  lemma RepaymentTheorem(b: Book, client: nat, currency: Currency, amount: int, now: int)
    requires forall s: nat :: OpenSale(b, client, currency, s) ==> Easy(b, s)
    requires amount > 0
    ensures PayOldestOf(b, client, currency, amount, now).Some? <==> amount <= Sum(OpenBalances(b, client, currency), Cents())
  {
    EasyAllFit(b, client, currency, amount);
    RepaymentExact(b, client, currency, amount, now);
  }

  /** Every payment so far on the sale was in som at its own rate of one. */
  predicate PaidInSom(payments: seq<Payment>, s: nat)
  {
    forall i :: 0 <= i < |payments| && payments[i].order == Some(s) ==> payments[i].rate == RATE_UNIT
  }

  lemma SomIsEasy(b: Book, s: nat)
    requires s < |b.sales| && BaseSale(b.sales[s]) && Sum(b.payments, ExactFor(s)) >= 0
    requires PaidInSom(b.payments, s) || Sum(b.payments, RowsFor(s)) <= 201
    ensures Easy(b, s) && Unmoved(b, s)
  {
    assert PaidInSom(b.payments, s) ==> Straight(b, s);
  }

  /** For som sales paid in som so far nothing else is needed. */
  lemma BaseRepayment(b: Book, client: nat, amount: int, now: int)
    requires forall s: nat :: OpenSale(b, client, KGS, s) ==>
               BaseSale(b.sales[s]) && PaidInSom(b.payments, s) && Sum(b.payments, ExactFor(s)) >= 0
    requires amount > 0
    ensures var ids, shares := OldestFirst(b, client, KGS), Shares(OpenBalances(b, client, KGS), amount);
            var result := PayOldestOf(b, client, KGS, amount, now);
            && (result.Some? <==> amount <= Sum(OpenBalances(b, client, KGS), Cents()))
            && (result.Some? ==> RowsAdded(b, result.value, ids, shares) && PaidUp(b, result.value.payments, ids, shares))
  {
    forall s: nat | OpenSale(b, client, KGS, s) ensures Easy(b, s) && Unmoved(b, s) {
      SomIsEasy(b, s);
    }
    RepaymentTheorem(b, client, KGS, amount, now);
    RepaymentExact(b, client, KGS, amount, now);
    if PayOldestOf(b, client, KGS, amount, now).Some? {
      RepaymentSettles(b, client, KGS, amount, now);
    }
  }

  function MovedRateBook(): Book
  {
    var sale := Sale(Some(1), USD, Confirmed, [Some(Line(0, 1, 10000, NoDiscount, 0))], false, 80_000_000, 10000, 800000, Some(0));
    Book([sale], [], map[USD := 90_000_000], 100, 0)
  }

  lemma MovedRateOpen()
    ensures Balance(MovedRateBook().sales[0], 0, MovedRateBook().payments) == 10000
    ensures OldestFirst(MovedRateBook(), 1, USD) == [0]
  {
    var b := MovedRateBook();
    assert OpenSale(b, 1, USD, 0);
    assert OpenIds(b, 1, USD, 0) == [];
    assert OpenIds(b, 1, USD, 1) == [0];
    var one: seq<nat> := [0];
    assert one[..0] == [];
    assert StableSort(one, OldestOf(b.sales)) == one;
  }

  lemma MovedRateShare(now: int)
    ensures BatchOf(MovedRateBook(), [0], [10000], USD, now).None?
  {
    var d := MovedRateBook().(nextBatch := 1);
    assert Refused(d, ShareRequest(0, 10000, USD, 0, now));
  }

  /** A foreign sale of 100.00 frozen at 80 som, today's rate 90: paying exactly what is owed is refused as an excess. */
  lemma MovedRateIsRefused(now: int)
    ensures Sum(OpenBalances(MovedRateBook(), 1, USD), Cents()) == 10000
    ensures PayOldestOf(MovedRateBook(), 1, USD, 10000, now).None?
  {
    MovedRateOpen();
    MovedRateShare(now);
    assert Balances(MovedRateBook(), [0]) == [10000];
    assert [10000][1..] == [] && [10000] + [] == [10000];
    assert Shares([10000], 10000) == [10000];
    SumCons(10000, []);
  }

  /** Settling the same sale in one go is refused too, with no payment row on it yet. */
  lemma MovedRateSettleIsRefused(now: int)
    ensures MovedRateBook().payments == [] && Balance(MovedRateBook().sales[0], 0, []) > 0
    ensures PayResultOf(MovedRateBook(), SettleRequest(MovedRateBook(), 0, now)).Rejected?
  {
    MovedRateOpen();
    UndisposedExact(MovedRateBook(), SettleRequest(MovedRateBook(), 0, now));
  }
}
