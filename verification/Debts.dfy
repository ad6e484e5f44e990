/** What a client's debt is worth: the sales' own figures, summed. */
module Debts {
  import opened Rounding
  import opened Sums
  import opened Models
  import opened Till
  import opened Money
  import opened Voids
  import opened Statement
  import opened Reconcile

  // ---- one payment, one sale ----

  /** A payment counts in a debt for its net som value at the rate frozen on its sale, to the nearest sixth decimal
      place, ties away from zero. */
  lemma ContributionNearest(r: Rows, p: Payment)
    requires SaleAt(r, p).Some?
    ensures var rate: int, exact := SaleAt(r, p).value.rate, (p.amount * p.rate - p.changeKgs * RATE_UNIT) * SCALE;
            && -rate <= 2 * (Contribution(r, p) * rate - exact) <= rate
            && (exact >= 0 ==> -rate < 2 * (Contribution(r, p) * rate - exact))
            && (exact <= 0 ==> 2 * (Contribution(r, p) * rate - exact) < rate)
  {
  }

  function OnSale(r: Rows, s: nat): Payment -> int
  {
    (p: Payment) => if p.order == Some(s) then Contribution(r, p) else 0
  }

  lemma {:induction false} RowsWorth(r: Rows, s: nat, payments: seq<Payment>)
    requires s < |r.sales|
    ensures var rate, n := r.sales[s].rate, Sum(payments, RowsFor(s));
            -(n * rate) <= 2 * (Sum(payments, OnSale(r, s)) * rate - SCALE * Sum(payments, ExactFor(s))) <= n * rate
  {
    if payments != [] {
      var k := |payments| - 1;
      var p, rate := payments[k], r.sales[s].rate;
      RowsWorth(r, s, payments[..k]);
      Distribute(Sum(payments[..k], OnSale(r, s)), OnSale(r, s)(p), rate);
      Distribute(Sum(payments[..k], RowsFor(s)), RowsFor(s)(p), rate);
      if p.order == Some(s) {
        ContributionNearest(r, p);
      }
    }
  }

  /** A sale's n payment rows count, together, for what the sale reports as paid: within n halves of a sixth decimal
      place and half a cent. */
  lemma {:induction false} SaleWorth(r: Rows, s: nat)
    requires s < |r.sales|
    ensures var n := Sum(r.payments, RowsFor(s));
            -(n + SCALE) <= 2 * (Sum(r.payments, OnSale(r, s)) - SCALE * PaidAmount(r.sales[s], s, r.payments)) <= n + SCALE
  {
    var rate, n := r.sales[s].rate, Sum(r.payments, RowsFor(s));
    var worth, paid := Sum(r.payments, OnSale(r, s)), PaidAmount(r.sales[s], s, r.payments);
    RowsWorth(r, s, r.payments);
    WorthBound(worth, paid, n, Sum(r.payments, ExactFor(s)), rate);
  }

  lemma WorthBound(worth: int, paid: int, n: int, exact: int, rate: int)
    requires rate > 0
    requires -(n * rate) <= 2 * (worth * rate - SCALE * exact) <= n * rate
    requires -rate <= 2 * (paid * rate - exact) <= rate
    ensures -(n + SCALE) <= 2 * (worth - SCALE * paid) <= n + SCALE
  {
    var x := 2 * (worth - SCALE * paid);
    WorthProducts(worth, paid, n, rate);
    WorthLinear(worth * rate, paid * rate, n * rate, exact, rate, x * rate);
    MultiplesOrdered(x, n + SCALE, rate);
    MultiplesOrdered(-n - SCALE, x, rate);
  }

  lemma WorthProducts(worth: int, paid: int, n: int, rate: int)
    ensures (2 * (worth - SCALE * paid)) * rate == 2 * (worth * rate) - 2 * SCALE * (paid * rate)
    ensures (n + SCALE) * rate == n * rate + SCALE * rate && (-n - SCALE) * rate == -(n * rate) - SCALE * rate
  {
    Distribute(n, SCALE, rate);
    Distribute(-n, SCALE, rate);
  }

  /** The bound with every product a plain number. */
  lemma WorthLinear(worth: int, paid: int, n: int, exact: int, rate: int, x: int)
    requires -n <= 2 * (worth - SCALE * exact) <= n && -rate <= 2 * (paid - exact) <= rate
    requires x == 2 * worth - 2 * SCALE * paid
    ensures -(n + SCALE * rate) <= x <= n + SCALE * rate
  {
  }

  // ---- a client's debt ----

  /** A sale with its key. */
  datatype Keyed = Keyed(pk: nat, sale: Sale)

  function KeyedSales(sales: seq<Sale>): (k: seq<Keyed>)
    ensures |k| == |sales| && forall i :: 0 <= i < |k| ==> k[i] == Keyed(i, sales[i])
  {
    seq(|sales|, i requires 0 <= i < |sales| => Keyed(i, sales[i]))
  }

  predicate Mine(k: Keyed, client: nat, c: Currency) { k.sale.client == Some(client) && k.sale.currency == c }

  /** Every payment on a sale is the sale's client's. */
  predicate OwnersMatch(r: Rows, payments: seq<Payment>)
  {
    forall i :: 0 <= i < |payments| && SaleAt(r, payments[i]).Some? ==>
      SaleAt(r, payments[i]).value.client == Some(payments[i].client)
  }

  function PaidOnOwn(r: Rows, payments: seq<Payment>, client: nat, c: Currency): Keyed -> int
  {
    (k: Keyed) => if Mine(k, client, c) then Sum(payments, OnSale(r, k.pk)) else 0
  }

  function OneOnOwn(r: Rows, p: Payment, client: nat, c: Currency): Keyed -> int
  {
    (k: Keyed) => if Mine(k, client, c) && p.order == Some(k.pk) then Contribution(r, p) else 0
  }

  lemma OneRow(r: Rows, p: Payment, client: nat, c: Currency)
    requires OwnersMatch(r, [p])
    ensures Sum(KeyedSales(r.sales), OneOnOwn(r, p, client, c)) == PaidIn(r, client, c)(p)
  {
    var keyed := KeyedSales(r.sales);
    assert [p][0] == p;
    if SaleAt(r, p).Some? {
      forall j | 0 <= j < |keyed| && j != p.order.value ensures OneOnOwn(r, p, client, c)(keyed[j]) == 0 {}
      SumOnly(keyed, p.order.value, OneOnOwn(r, p, client, c));
    } else {
      SumZero(keyed, OneOnOwn(r, p, client, c));
    }
  }

  /** A client's payments in a currency are the payments on the client's sales in it. */
  lemma {:induction false} PaidBySale(r: Rows, payments: seq<Payment>, client: nat, c: Currency)
    requires OwnersMatch(r, payments)
    ensures Sum(payments, PaidIn(r, client, c)) == Sum(KeyedSales(r.sales), PaidOnOwn(r, payments, client, c))
  {
    var keyed := KeyedSales(r.sales);
    if payments == [] {
      SumZero(keyed, PaidOnOwn(r, payments, client, c));
    } else {
      var n := |payments| - 1;
      var p := payments[n];
      assert OwnersMatch(r, payments[..n]) && OwnersMatch(r, [p]);
      PaidBySale(r, payments[..n], client, c);
      OneRow(r, p, client, c);
      forall i | 0 <= i < |keyed|
        ensures PaidOnOwn(r, payments, client, c)(keyed[i]) ==
                PaidOnOwn(r, payments[..n], client, c)(keyed[i]) + 1 * OneOnOwn(r, p, client, c)(keyed[i])
      {
      }
      SumLinear(keyed, PaidOnOwn(r, payments, client, c), PaidOnOwn(r, payments[..n], client, c), OneOnOwn(r, p, client, c), 1);
    }
  }

  /** What a sale leaves owed, in its own figures: total less paid once confirmed, less paid before and after. */
  function Rest(r: Rows, client: nat, c: Currency): Keyed -> int
  {
    (k: Keyed) =>
      if Mine(k, client, c)
      then (if k.sale.status == Confirmed then k.sale.total else 0) - PaidAmount(k.sale, k.pk, r.payments) else 0
  }

  function Slack(r: Rows, client: nat, c: Currency): Keyed -> int
  {
    (k: Keyed) => if Mine(k, client, c) then Sum(r.payments, RowsFor(k.pk)) + SCALE else 0
  }

  function SoldKeyed(client: nat, c: Currency): Keyed -> int { (k: Keyed) => SoldIn(client, c)(k.sale) }

  /** The debt in hundredths of a hundredth of a cent, less what the client's openings and sales say it should be. */
  function DebtGap(r: Rows, client: nat, c: Currency): int
  {
    Owed(r, client, c) - Sum(r.baselines, BaselineIn(client, c)) - SCALE * Sum(KeyedSales(r.sales), Rest(r, client, c))
  }

  /** Twice the difference between SCALE times what a sale leaves owed and what it adds to the debt. */
  function Miss(r: Rows, client: nat, c: Currency): Keyed -> int
  {
    (k: Keyed) => 2 * (SoldKeyed(client, c)(k) - PaidOnOwn(r, r.payments, client, c)(k) - SCALE * Rest(r, client, c)(k))
  }

  function MinusSlack(r: Rows, client: nat, c: Currency): Keyed -> int { (k: Keyed) => -Slack(r, client, c)(k) }

  lemma {:induction false} MissSum(r: Rows, keyed: seq<Keyed>, client: nat, c: Currency)
    ensures Sum(keyed, Miss(r, client, c)) ==
            2 * (Sum(keyed, SoldKeyed(client, c)) - Sum(keyed, PaidOnOwn(r, r.payments, client, c))
                 - SCALE * Sum(keyed, Rest(r, client, c)))
    ensures Sum(keyed, MinusSlack(r, client, c)) == -Sum(keyed, Slack(r, client, c))
  {
    if keyed != [] {
      MissSum(r, keyed[..|keyed| - 1], client, c);
    }
  }

  lemma KeyedMiss(r: Rows, s: nat, client: nat, c: Currency)
    requires s < |r.sales|
    ensures var k := Keyed(s, r.sales[s]);
            -Slack(r, client, c)(k) <= Miss(r, client, c)(k) <= Slack(r, client, c)(k)
  {
    var k := Keyed(s, r.sales[s]);
    SaleWorth(r, s);
    if Mine(k, client, c) {
      var paid, sold := PaidAmount(k.sale, k.pk, r.payments), if k.sale.status == Confirmed then k.sale.total else 0;
      assert Rest(r, client, c)(k) == sold - paid;
      assert SoldKeyed(client, c)(k) == sold * SCALE by {
        assert SoldIn(client, c)(k.sale) == if k.sale.status == Confirmed then k.sale.total * SCALE else 0;
      }
      MissOf(SoldKeyed(client, c)(k), PaidOnOwn(r, r.payments, client, c)(k), Rest(r, client, c)(k), sold, paid);
    } else {
      assert SoldIn(client, c)(k.sale) == 0;
      MissOf(SoldKeyed(client, c)(k), PaidOnOwn(r, r.payments, client, c)(k), Rest(r, client, c)(k), 0, 0);
    }
  }

  lemma MissOf(charged: int, counted: int, rest: int, sold: int, paid: int)
    requires charged == sold * SCALE && rest == sold - paid
    ensures 2 * (charged - counted - SCALE * rest) == 2 * (SCALE * paid - counted)
  {
  }

  /** A client's debt in a currency is the openings plus, over the client's sales in it, what each leaves owed in its own
      figures: to within half a cent a sale and half a sixth decimal place a payment row. */
  lemma DebtIsWhatSalesOwe(r: Rows, client: nat, c: Currency)
    requires OwnersMatch(r, r.payments)
    ensures var slack := Sum(KeyedSales(r.sales), Slack(r, client, c));
            -slack <= 2 * DebtGap(r, client, c) <= slack
  {
    var keyed := KeyedSales(r.sales);
    PaidBySale(r, r.payments, client, c);
    SumSame(r.sales, keyed, SoldIn(client, c), SoldKeyed(client, c));
    MissSum(r, keyed, client, c);
    forall i | 0 <= i < |keyed|
      ensures MinusSlack(r, client, c)(keyed[i]) <= Miss(r, client, c)(keyed[i]) <= Slack(r, client, c)(keyed[i])
    {
      KeyedMiss(r, i, client, c);
    }
    SumLe(keyed, keyed, MinusSlack(r, client, c), Miss(r, client, c));
    SumLe(keyed, keyed, Miss(r, client, c), Slack(r, client, c));
  }

  // ---- balance, status and debt say the same ----

  /** A confirmed client sale counts as unpaid exactly when nothing was paid; its balance and its status agree on whether
      it is settled, but for a sale within the tolerance on which nothing was paid: that one owes nothing, unpaid. */
  lemma BalanceAndStatus(sale: Sale, s: nat, payments: seq<Payment>)
    requires sale.status == Confirmed && sale.client.Some? && sale.total > 0
    ensures var paid, status := PaidAmount(sale, s, payments), StatusOf(sale, s, payments);
            && (status == Unpaid <==> paid <= 0)
            && (Balance(sale, s, payments) > 0 ==> status != Paid && Balance(sale, s, payments) == sale.total - paid)
            && ((Balance(sale, s, payments) > 0 <==> status != Paid) <==> !(paid <= 0 && sale.total - paid <= TOLERANCE))
  {
  }

  /** A walk-in owes nothing and is paid the moment it is confirmed; a draft or a cancelled sale owes nothing. */
  lemma OwesNothing(sale: Sale, s: nat, payments: seq<Payment>)
    requires sale.client.None? || sale.status != Confirmed
    ensures Balance(sale, s, payments) == 0
    ensures sale.client.None? ==> StatusOf(sale, s, payments) == if sale.status == Confirmed then Paid else Unpaid
  {
  }

  /** The debts view and the sale draw the line in the same place, and a credit of any size is shown. */
  lemma ReportedLikeBalance(sale: Sale, s: nat, payments: seq<Payment>)
    requires sale.status == Confirmed && sale.client.Some?
    ensures var paid := PaidAmount(sale, s, payments);
            Reported(sale.total - paid) <==> Balance(sale, s, payments) > 0 || paid > sale.total
  {
  }

  /** What is shown is the debt to the nearest cent. */
  lemma QuantizeNearest(x: int)
    ensures -SCALE <= 2 * (Quantize(x) * SCALE - x) <= SCALE
    ensures x >= 0 ==> -SCALE < 2 * (Quantize(x) * SCALE - x)
    ensures x <= 0 ==> 2 * (Quantize(x) * SCALE - x) < SCALE
  {
  }
}
