/** What each stored payment row says was taken in and handed back, and when a payment with something to say about an
    excess is taken. */
module Drawer {
  import opened Rounding
  import opened Sums
  import opened Models
  import opened Till
  import opened Money

  // ---- one row ----

  /** The row as it was before any mirroring of its figures. */
  function Upright(p: Payment): Payment
  {
    if p.reverses.None? then p
    else p.(amount := -p.amount, change := -p.change, changeKgs := -p.changeKgs, residueKgs := -p.residueKgs, reverses := None)
  }

  /** What one unit of the change currency is worth: som at one, the payment's own currency at the payment's rate. */
  function Worth(p: Payment): Rate { if p.changeCurrency == KGS then RATE_UNIT else p.rate }

  /** Something was paid; what is physically handed back is worth the som change, or less by under one unit of its
      smallest coin; nothing is handed back but as change, nor more than was paid. */
  predicate FiguresSound(p: Payment)
  {
    && p.amount > 0
    && 0 <= p.changeKgs * RATE_UNIT - p.change * Worth(p) < Worth(p)
    && 0 <= p.change && 0 <= p.changeKgs && p.changeKgs * RATE_UNIT <= p.amount * p.rate
    && 0 <= p.residueKgs <= 10000
    && (p.disposition != Change ==> p.change == 0 && p.changeKgs == 0 && p.residueKgs == 0)
  }

  predicate RowSound(p: Payment) { FiguresSound(Upright(p)) }

  /** In som that is to the cent. */
  lemma SomChange(p: Payment)
    requires FiguresSound(p) && p.changeCurrency == KGS
    ensures p.change == p.changeKgs
  {
    MultiplesApart(p.changeKgs, p.change, RATE_UNIT);
  }

  /** The row a payment leaves: what was asked, at the one rate of the payment, with the change the preview showed. */
  lemma RecordedSound(b: Book, r: Request)
    requires PayResultOf(b, r).Recorded?
    ensures var p, sale := PayResultOf(b, r).payment, b.sales[r.sale];
            var currency := Or(r.currency, sale.currency);
            && p.client == sale.client.value && p.order == Some(r.sale) && p.production.None? && p.reverses.None?
            && p.amount == r.amount && p.currency == currency && p.rate == ResolvedRate(b, r, currency)
            && p.batch == r.batch && p.createdAt == r.now && p.disposition == r.disposition && !p.reviewed
            && p.changeCurrency == Or(r.changeCurrency, sale.currency)
            && FiguresSound(p)
            && (r.disposition == Change ==>
                  && p.changeKgs + p.residueKgs == Excess(b, r)
                  && p.residueKgs < Max(b.step, 1)
                  && (b.step > 0 ==> exists k: nat :: p.changeKgs == k * b.step))
  {
    var sale := b.sales[r.sale];
    var currency := Or(r.currency, sale.currency);
    ChangeArithmetic(r.amount, currency, ResolvedRate(b, r, currency), BalanceKgs(sale, r.sale, b.payments),
                     Or(r.changeCurrency, sale.currency), b.step);
    MulNonNeg(r.amount, ResolvedRate(b, r, currency));
  }

  /** What the payment brings beyond what is owed in som. */
  function Excess(b: Book, r: Request): int
    requires r.sale < |b.sales|
  {
    var sale := b.sales[r.sale];
    var currency := Or(r.currency, sale.currency);
    Max(Counted(r.amount, currency, ResolvedRate(b, r, currency)) - Max(BalanceKgs(sale, r.sale, b.payments), 0), 0)
  }

  lemma MirrorSound(p: Payment, i: nat, now: int)
    requires RowSound(p) && p.reverses.None?
    ensures RowSound(Reversal(p, i, now))
  {
    var u := Upright(Reversal(p, i, now));
    assert u.amount == p.amount && u.change == p.change && u.changeKgs == p.changeKgs && u.residueKgs == p.residueKgs;
  }

  lemma DepositSound(b: Book, production: nat, client: nat, amount: int, currency: Currency, now: int)
    requires amount > 0
    ensures RowSound(DepositRow(b, production, client, amount, currency, now))
  {
    MulNonNeg(amount, SnapshotRate(b.rates, currency));
  }

  // ---- every row of every run ----

  ghost predicate AllSound(payments: seq<Payment>) { forall i :: 0 <= i < |payments| ==> RowSound(payments[i]) }

  lemma {:induction false} SharesSound(b: Book, ids: seq<nat>, shares: seq<int>, currency: Currency, batch: nat, now: int)
    requires |shares| <= |ids| && forall i :: 0 <= i < |ids| ==> ids[i] < |b.sales|
    requires AllSound(b.payments) && PayShares(b, ids, shares, currency, batch, now).Some?
    ensures AllSound(PayShares(b, ids, shares, currency, batch, now).value.payments)
    decreases |shares|
  {
    if shares != [] {
      var n := |shares| - 1;
      SharesSound(b, ids, shares[..n], currency, batch, now);
      ShareSound(PayShares(b, ids, shares[..n], currency, batch, now).value, ids[n], shares[n], currency, batch, now);
    }
  }

  lemma ShareSound(b: Book, s: nat, share: int, currency: Currency, batch: nat, now: int)
    requires s < |b.sales| && AllSound(b.payments) && PayShare(b, s, share, currency, batch, now).Some?
    ensures AllSound(PayShare(b, s, share, currency, batch, now).value.payments)
  {
    var applied := Min(share, Balance(b.sales[s], s, b.payments));
    if applied > 0 {
      PaySound(b, ShareRequest(s, applied, currency, batch, now));
    }
  }

  lemma PaySound(b: Book, r: Request)
    requires AllSound(b.payments)
    ensures AllSound(AfterPay(b, PayResultOf(b, r)).payments)
  {
    if PayResultOf(b, r).Recorded? {
      RecordedSound(b, r);
    }
  }

  lemma ReversalsSound(payments: seq<Payment>, ids: seq<nat>, now: int)
    requires AllSound(payments)
    requires forall k :: 0 <= k < |ids| ==> ids[k] < |payments| && payments[ids[k]].reverses.None?
    ensures AllSound(payments + Reversals(payments, ids, now))
  {
    forall k | 0 <= k < |ids| ensures RowSound(Reversals(payments, ids, now)[k]) {
      MirrorSound(payments[ids[k]], ids[k], now);
    }
  }

  lemma LinkedSound(payments: seq<Payment>, production: nat, s: nat)
    requires AllSound(payments)
    ensures AllSound(Linked(payments, production, s))
  {
    var linked := Linked(payments, production, s);
    forall i | 0 <= i < |linked| ensures RowSound(linked[i]) {
      assert RowSound(payments[i]);
    }
  }

  lemma PayOldestSound(b: Book, client: nat, currency: Currency, amount: int, now: int)
    requires AllSound(b.payments) && PayOldestOf(b, client, currency, amount, now).Some?
    ensures AllSound(PayOldestOf(b, client, currency, amount, now).value.payments)
  {
    var ids := OldestFirst(b, client, currency);
    var shares := Shares(Balances(b, ids), amount);
    BatchIs(b, ids, shares, currency, now);
    SharesSound(b.(nextBatch := b.nextBatch + 1), ids, shares, currency, b.nextBatch, now);
  }

  lemma OpSound(b: Book, op: Op)
    requires AllSound(b.payments)
    ensures AllSound(Apply(b, op).payments)
  {
    match op
    case Record(req) => PaySound(b, req);
    case Settle(s, now) => if s < |b.sales| { PaySound(b, SettleRequest(b, s, now)); }
    case PayOldest(client, currency, amount, now) =>
      if PayOldestOf(b, client, currency, amount, now).Some? {
        PayOldestSound(b, client, currency, amount, now);
      }
    case Void(i, superuser, now) =>
      if CanVoid(b.payments, i, superuser) {
        MirrorSound(b.payments[i], i, now);
      }
    case VoidBatch(batch, superuser, now) =>
      if CanVoidBatch(b.payments, batch, superuser) {
        ReversalsSound(b.payments, ToVoid(b.payments, batch.value, |b.payments|), now);
      }
    case Deposit(production, client, amount, currency, now) =>
      if amount > 0 {
        DepositSound(b, production, client, amount, currency, now);
      }
    case LinkDeposits(production, s) => LinkedSound(b.payments, production, s);
    case Trade(_) =>
    case SetRate(_, _) =>
  }

  /** Every payment row of every reachable book, mirrored or not. */
  lemma {:induction false} RunSound(step: int, ops: seq<Op>)
    ensures AllSound(Run(Opening(step), ops).payments)
  {
    if ops != [] {
      RunSound(step, ops[..|ops| - 1]);
      OpSound(Run(Opening(step), ops[..|ops| - 1]), ops[|ops| - 1]);
    }
  }

  // ---- the rate of the day ----

  lemma {:induction false} SharesRates(b: Book, ids: seq<nat>, shares: seq<int>, currency: Currency, batch: nat, now: int)
    requires |shares| <= |ids| && forall i :: 0 <= i < |ids| ==> ids[i] < |b.sales|
    requires PayShares(b, ids, shares, currency, batch, now).Some?
    ensures PayShares(b, ids, shares, currency, batch, now).value.rates == b.rates
    decreases |shares|
  {
    if shares != [] {
      SharesRates(b, ids, shares[..|shares| - 1], currency, batch, now);
    }
  }

  lemma OpRates(b: Book, op: Op)
    ensures Apply(b, op).rates == if op.SetRate? then b.rates[op.currency := op.rate] else b.rates
  {
    if op.PayOldest? && PayOldestOf(b, op.client, op.currency, op.amount, op.now).Some? {
      var ids := OldestFirst(b, op.client, op.currency);
      var shares := Shares(Balances(b, ids), op.amount);
      BatchIs(b, ids, shares, op.currency, op.now);
      SharesRates(b.(nextBatch := b.nextBatch + 1), ids, shares, op.currency, b.nextBatch, op.now);
    }
  }

  /** The rate last set for a currency, one som per unit if none ever was. */
  function LastRate(ops: seq<Op>, c: Currency): Rate
  {
    if ops == [] then RATE_UNIT
    else
      var op := ops[|ops| - 1];
      if op.SetRate? && op.currency == c then op.rate else LastRate(ops[..|ops| - 1], c)
  }

  lemma {:induction false} RunRates(step: int, ops: seq<Op>, c: Currency)
    ensures var rates := Run(Opening(step), ops).rates; LastRate(ops, c) == if c in rates then rates[c] else RATE_UNIT
  {
    if ops != [] {
      RunRates(step, ops[..|ops| - 1], c);
      OpRates(Run(Opening(step), ops[..|ops| - 1]), ops[|ops| - 1]);
    }
  }

  /** A deposit is taken at the rate of the day, on its order and its client, and on no sale yet; som at one. */
  lemma {:induction false} DepositRecorded(step: int, ops: seq<Op>, production: nat, client: nat, amount: int, currency: Currency, now: int)
    ensures var b := Run(Opening(step), ops);
            var after := Apply(b, Deposit(production, client, amount, currency, now)).payments;
            if amount <= 0 then after == b.payments
            else
              && |after| == |b.payments| + 1 && after[..|b.payments|] == b.payments
              && var p := after[|b.payments|];
                 && p.client == client && p.production == Some(production) && p.order.None? && p.reverses.None?
                 && p.amount == amount && p.currency == currency && p.createdAt == now
                 && p.rate == (if currency == KGS then RATE_UNIT else LastRate(ops, currency))
                 && p.changeKgs == 0 && p.batch.None?
  {
    RunRates(step, ops, currency);
  }

  /** Without a rate of its own, a payment in another currency than the sale's needs one to have been set; it and every
      other payment is kept at the rate last set, som at one. */
  lemma {:induction false} RecordedRate(step: int, ops: seq<Op>, r: Request)
    requires PayResultOf(Run(Opening(step), ops), r).Recorded? && r.rateOverride.None?
    ensures var b := Run(Opening(step), ops);
            var p := PayResultOf(b, r).payment;
            && p.rate == (if p.currency == KGS then RATE_UNIT else LastRate(ops, p.currency))
            && (p.currency != b.sales[r.sale].currency && p.currency != KGS ==>
                  exists k :: 0 <= k < |ops| && ops[k].SetRate? && ops[k].currency == p.currency)
  {
    var c := Or(r.currency, Run(Opening(step), ops).sales[r.sale].currency);
    RunRates(step, ops, c);
    if c in Run(Opening(step), ops).rates {
      RateWasSet(step, ops, c);
    }
  }

  lemma {:induction false} RateWasSet(step: int, ops: seq<Op>, c: Currency)
    requires c in Run(Opening(step), ops).rates
    ensures exists k :: 0 <= k < |ops| && ops[k].SetRate? && ops[k].currency == c
  {
    var n := |ops| - 1;
    OpRates(Run(Opening(step), ops[..n]), ops[n]);
    if !(ops[n].SetRate? && ops[n].currency == c) {
      RateWasSet(step, ops[..n], c);
      var k :| 0 <= k < n && ops[..n][k].SetRate? && ops[..n][k].currency == c;
      assert ops[k].SetRate?;
    }
  }

  // ---- when a payment that disposes of its excess is taken ----

  /** With change asked for: exactly when the rate is known, the change can be given at that one rate, its unrounded
      part is at most 100.00, and it is worth no more than what was paid. */
  lemma ChangeExact(b: Book, r: Request)
    requires r.sale < |b.sales| && b.sales[r.sale].client.Some? && r.amount > 0 && r.disposition == Change
    ensures var currency, cc := Or(r.currency, b.sales[r.sale].currency), Or(r.changeCurrency, b.sales[r.sale].currency);
            var rate, change := ResolvedRate(b, r, currency), FloorToStep(Excess(b, r), b.step);
            PayResultOf(b, r).Recorded? <==>
            && RateKnown(b, r) && (cc == KGS || cc == currency)
            && Excess(b, r) - change <= 10000
            && change * RATE_UNIT <= r.amount * rate
  {
    var sale := b.sales[r.sale];
    var currency := Or(r.currency, sale.currency);
    var rate := ResolvedRate(b, r, currency);
    ChangeArithmetic(r.amount, currency, rate, BalanceKgs(sale, r.sale, b.payments), Or(r.changeCurrency, sale.currency), b.step);
    MulNonNeg(r.amount, rate);
  }

  /** Passed over without a word: exactly a walk-in's sale and an amount of zero or less. */
  lemma IgnoredExact(b: Book, r: Request)
    ensures PayResultOf(b, r).Ignored? <==> r.sale < |b.sales| && (b.sales[r.sale].client.None? || r.amount <= 0)
    ensures !PayResultOf(b, r).Recorded? ==> AfterPay(b, PayResultOf(b, r)) == b
  {
  }

  /** With the excess left as debt or credit: exactly when the rate is known. */
  lemma DebtOrCreditExact(b: Book, r: Request)
    requires r.sale < |b.sales| && b.sales[r.sale].client.Some? && r.amount > 0 && (r.disposition == Debt || r.disposition == Credit)
    ensures PayResultOf(b, r).Recorded? <==> RateKnown(b, r)
  {
    var currency := Or(r.currency, b.sales[r.sale].currency);
    MulNonNeg(r.amount, ResolvedRate(b, r, currency));
  }
}
