/** Every run of the payment services: mirror rows, one reversal a payment, batches whole, nothing below zero. */
module Voids {
  import opened Rounding
  import opened Sums
  import opened Models
  import opened Till
  import opened Money

  // ---- the invariant ----

  /** A reversal names an earlier original and mirrors its money at the same frozen rate. */
  predicate Mirrors(p: Payment, r: Payment)
  {
    && r.amount == -p.amount && r.change == -p.change && r.changeKgs == -p.changeKgs && r.residueKgs == -p.residueKgs
    && r.rate == p.rate && r.currency == p.currency && r.client == p.client && r.batch == p.batch
    && (r.order.None? || r.order == p.order)
  }

  predicate ReversalOk(payments: seq<Payment>, j: nat)
    requires j < |payments|
  {
    payments[j].reverses.Some? ==>
      var i := payments[j].reverses.value;
      i < j && payments[i].reverses.None? && Mirrors(payments[i], payments[j])
  }

  ghost predicate OnceEach(payments: seq<Payment>)
  {
    forall j, k :: 0 <= j < k < |payments| && payments[j].reverses.Some? ==> payments[j].reverses != payments[k].reverses
  }

  datatype Mark = Mark(p: Payment, dead: bool)

  function MarkAt(payments: seq<Payment>, i: nat): Mark
    requires i < |payments|
  {
    Mark(payments[i], payments[i].reverses.Some? || Voided(payments, i))
  }

  function Marks(payments: seq<Payment>): (r: seq<Mark>)
    ensures |r| == |payments| && forall i :: 0 <= i < |r| ==> r[i] == MarkAt(payments, i)
  {
    seq(|payments|, i requires 0 <= i < |payments| => MarkAt(payments, i))
  }

  function StandingFor(s: nat): Mark -> int
  {
    (m: Mark) => if m.dead || m.p.order != Some(s) then 0 else m.p.NetExact()
  }

  /** What is counted towards a sale is at least what still stands for it. */
  predicate AtLeastStanding(payments: seq<Payment>, s: nat)
  {
    Sum(payments, ExactFor(s)) >= Sum(Marks(payments), StandingFor(s))
  }

  ghost predicate Core(b: Book)
  {
    && (forall i :: 0 <= i < |b.payments| ==> OriginalOk(b.payments[i]))
    && (forall i :: 0 <= i < |b.payments| && b.payments[i].order.Some? ==> b.payments[i].order.value < |b.sales|)
    && (forall j :: 0 <= j < |b.payments| ==> ReversalOk(b.payments, j))
    && OnceEach(b.payments)
    && (forall s: nat :: AtLeastStanding(b.payments, s))
  }

  function BatchCurrency(b: Book, i: nat): Currency
    requires i < |b.payments|
  {
    var o := b.payments[i].order;
    if o.Some? && o.value < |b.sales| then b.sales[o.value].currency else KGS
  }

  predicate BatchRowOk(b: Book, i: nat)
  {
    i < |b.payments| && b.payments[i].batch.Some? ==>
      b.payments[i].batch.value < b.nextBatch && b.payments[i].order.Some?
  }

  predicate SameBatch(payments: seq<Payment>, i: nat, j: nat)
  {
    i < |payments| && j < |payments| && payments[i].batch.Some? && payments[i].batch == payments[j].batch
  }

  /** Rows of one batch are on sales of one currency; its originals are voided together or not at all. */
  predicate PairOk(b: Book, i: nat, j: nat)
  {
    SameBatch(b.payments, i, j) ==>
      && BatchCurrency(b, i) == BatchCurrency(b, j)
      && (b.payments[i].reverses.None? && b.payments[j].reverses.None? ==>
            (Voided(b.payments, i) <==> Voided(b.payments, j)))
  }

  ghost predicate BatchesWhole(b: Book)
  {
    (forall i: nat :: BatchRowOk(b, i)) && (forall i: nat, j: nat :: PairOk(b, i, j))
  }

  ghost predicate Inv(b: Book) { Core(b) && BatchesWhole(b) }

  // ---- appending rows ----

  lemma VoidedAppend(payments: seq<Payment>, p: Payment, i: nat)
    ensures Voided(payments + [p], i) <==> Voided(payments, i) || p.reverses == Some(i)
  {
    var more := payments + [p];
    if Voided(payments, i) {
      var j :| 0 <= j < |payments| && payments[j].reverses == Some(i);
      assert more[j].reverses == Some(i);
    }
    if p.reverses == Some(i) {
      assert more[|payments|].reverses == Some(i);
    }
  }

  lemma NotYetVoided(b: Book, i: nat)
    requires Core(b) && i >= |b.payments|
    ensures !Voided(b.payments, i)
  {
    forall j | 0 <= j < |b.payments| ensures b.payments[j].reverses != Some(i) {
      assert ReversalOk(b.payments, j);
    }
  }

  lemma OriginalStanding(b: Book, p: Payment, s: nat)
    requires Core(b) && p.reverses.None?
    ensures AtLeastStanding(b.payments + [p], s)
  {
    var n := |b.payments|;
    forall i: nat ensures Voided(b.payments + [p], i) == Voided(b.payments, i) { VoidedAppend(b.payments, p, i); }
    NotYetVoided(b, n);
    assert Marks(b.payments + [p]) == Marks(b.payments) + [Mark(p, false)];
    SumAppend(b.payments, p, ExactFor(s));
    SumAppend(Marks(b.payments), Mark(p, false), StandingFor(s));
    assert AtLeastStanding(b.payments, s);
  }

  lemma CoreOriginal(b: Book, p: Payment)
    requires Core(b) && p.reverses.None? && OriginalOk(p) && (p.order.Some? ==> p.order.value < |b.sales|)
    ensures Core(b.(payments := b.payments + [p]))
  {
    var d := b.(payments := b.payments + [p]);
    forall s: nat ensures AtLeastStanding(d.payments, s) { OriginalStanding(b, p, s); }
    forall j | 0 <= j < |d.payments| ensures ReversalOk(d.payments, j) {
      assert j < |b.payments| ==> ReversalOk(b.payments, j);
    }
  }

  lemma ReversalStanding(b: Book, i: nat, now: int, s: nat)
    requires Core(b) && i < |b.payments| && b.payments[i].reverses.None? && !Voided(b.payments, i)
    ensures AtLeastStanding(b.payments + [Reversal(b.payments[i], i, now)], s)
  {
    var p, r, n := b.payments[i], Reversal(b.payments[i], i, now), |b.payments|;
    forall k: nat ensures Voided(b.payments + [r], k) <==> Voided(b.payments, k) || k == i { VoidedAppend(b.payments, r, k); }
    assert Marks(b.payments + [r]) == Marks(b.payments)[i := Mark(p, true)] + [Mark(r, true)];
    SumAppend(b.payments, r, ExactFor(s));
    SumAppend(Marks(b.payments)[i := Mark(p, true)], Mark(r, true), StandingFor(s));
    SumUpdate(Marks(b.payments), i, Mark(p, true), StandingFor(s));
    ReversalNet(p, i, now);
    assert AtLeastStanding(b.payments, s);
  }

  lemma CoreReversal(b: Book, i: nat, now: int)
    requires Core(b) && i < |b.payments| && b.payments[i].reverses.None? && !Voided(b.payments, i)
    ensures Core(b.(payments := b.payments + [Reversal(b.payments[i], i, now)]))
  {
    var d := b.(payments := b.payments + [Reversal(b.payments[i], i, now)]);
    forall s: nat ensures AtLeastStanding(d.payments, s) { ReversalStanding(b, i, now, s); }
    forall j | 0 <= j < |d.payments| ensures ReversalOk(d.payments, j) {
      assert j < |b.payments| ==> ReversalOk(b.payments, j);
    }
    forall j, k | 0 <= j < k < |d.payments| && d.payments[j].reverses.Some?
      ensures d.payments[j].reverses != d.payments[k].reverses
    {
      assert j < |b.payments| && b.payments[j].reverses == Some(i) ==> Voided(b.payments, i);
    }
  }

  predicate Voidable(payments: seq<Payment>, ids: seq<nat>)
  {
    && (forall k :: 0 <= k < |ids| ==> ids[k] < |payments| && payments[ids[k]].reverses.None? && !Voided(payments, ids[k]))
    && (forall j, k :: 0 <= j < k < |ids| ==> ids[j] != ids[k])
  }

  /** Several reversals one after the other; afterwards exactly these are newly voided. */
  lemma {:induction false} CoreReversals(b: Book, ids: seq<nat>, now: int)
    requires Core(b) && Voidable(b.payments, ids)
    ensures var d := b.(payments := b.payments + Reversals(b.payments, ids, now));
            Core(d) && forall i: nat :: Voided(d.payments, i) <==> Voided(b.payments, i) || i in ids
  {
    var rows := Reversals(b.payments, ids, now);
    if ids == [] {
      assert b.payments + rows == b.payments;
    } else {
      var n := |ids| - 1;
      CoreReversals(b, ids[..n], now);
      var mid := b.(payments := b.payments + Reversals(b.payments, ids[..n], now));
      assert ids[n] !in ids[..n];
      assert mid.payments[ids[n]] == b.payments[ids[n]];
      CoreReversal(mid, ids[n], now);
      assert b.payments + rows == mid.payments + [Reversal(mid.payments[ids[n]], ids[n], now)];
      forall i: nat
        ensures Voided(b.payments + rows, i) <==> Voided(b.payments, i) || i in ids
      {
        VoidedAppend(mid.payments, Reversal(mid.payments[ids[n]], ids[n], now), i);
        assert i in ids <==> i in ids[..n] || i == ids[n];
      }
    }
  }

  // ---- recording ----

  /** A batch being written: its rows so far are originals of sales in one currency and none is voided. */
  ghost predicate BatchOpen(b: Book, batch: nat, currency: Currency)
  {
    && batch < b.nextBatch
    && forall i :: 0 <= i < |b.payments| && b.payments[i].batch == Some(batch) ==>
         b.payments[i].reverses.None? && !Voided(b.payments, i) && BatchCurrency(b, i) == currency
  }

  lemma RowInv(b: Book, p: Payment, batch: nat, currency: Currency)
    requires Inv(b) && p.reverses.None? && OriginalOk(p) && (p.order.Some? ==> p.order.value < |b.sales|)
    requires p.batch.None? || (p.batch == Some(batch) && BatchOpen(b, batch, currency) && p.order.Some?
                               && b.sales[p.order.value].currency == currency)
    ensures Inv(b.(payments := b.payments + [p]))
    ensures BatchOpen(b, batch, currency) ==> BatchOpen(b.(payments := b.payments + [p]), batch, currency)
  {
    CoreOriginal(b, p);
    RowWhole(b, p, batch, currency);
  }

  lemma RowWhole(b: Book, p: Payment, batch: nat, currency: Currency)
    requires Core(b) && BatchesWhole(b) && p.reverses.None?
    requires p.batch.None? || (p.batch == Some(batch) && BatchOpen(b, batch, currency) && p.order.Some?
                               && p.order.value < |b.sales| && b.sales[p.order.value].currency == currency)
    ensures BatchesWhole(b.(payments := b.payments + [p]))
    ensures BatchOpen(b, batch, currency) ==> BatchOpen(b.(payments := b.payments + [p]), batch, currency)
  {
    var d, n := b.(payments := b.payments + [p]), |b.payments|;
    NotYetVoided(b, n);
    forall i: nat ensures Voided(d.payments, i) == Voided(b.payments, i) { VoidedAppend(b.payments, p, i); }
    forall i: nat ensures BatchRowOk(d, i) { assert BatchRowOk(b, i); }
    forall i: nat | i < n ensures BatchCurrency(d, i) == BatchCurrency(b, i) {}
    forall i: nat, j: nat ensures PairOk(d, i, j) { assert PairOk(b, i, j); }
  }

  lemma RecordedRow(b: Book, r: Request)
    requires PayResultOf(b, r).Recorded?
    ensures var p := PayResultOf(b, r).payment;
            p.reverses.None? && OriginalOk(p) && p.order == Some(r.sale) && r.sale < |b.sales| && p.batch == r.batch
  {
  }

  lemma RecordInv(b: Book, r: Request)
    requires Inv(b) && r.batch.None?
    ensures Inv(AfterPay(b, PayResultOf(b, r)))
  {
    if PayResultOf(b, r).Recorded? {
      RecordedRow(b, r);
      RowInv(b, PayResultOf(b, r).payment, 0, KGS);
    }
  }

  lemma {:induction false} SharesInv(b: Book, ids: seq<nat>, shares: seq<int>, currency: Currency, batch: nat, now: int)
    requires |shares| <= |ids| && forall i :: 0 <= i < |ids| ==> ids[i] < |b.sales| && b.sales[ids[i]].currency == currency
    requires Inv(b) && BatchOpen(b, batch, currency)
    requires PayShares(b, ids, shares, currency, batch, now).Some?
    ensures var d := PayShares(b, ids, shares, currency, batch, now).value; Inv(d) && BatchOpen(d, batch, currency)
    decreases |shares|
  {
    if shares != [] {
      var n := |shares| - 1;
      SharesInv(b, ids, shares[..n], currency, batch, now);
      ShareInv(PayShares(b, ids, shares[..n], currency, batch, now).value, ids[n], shares[n], currency, batch, now);
    }
  }

  lemma ShareInv(b: Book, s: nat, share: int, currency: Currency, batch: nat, now: int)
    requires s < |b.sales| && b.sales[s].currency == currency && Inv(b) && BatchOpen(b, batch, currency)
    requires PayShare(b, s, share, currency, batch, now).Some?
    ensures var d := PayShare(b, s, share, currency, batch, now).value; Inv(d) && BatchOpen(d, batch, currency)
  {
    var applied := Min(share, Balance(b.sales[s], s, b.payments));
    if applied > 0 {
      var r := ShareRequest(s, applied, currency, batch, now);
      RecordedRow(b, r);
      RowInv(b, PayResultOf(b, r).payment, batch, currency);
    }
  }

  lemma BatchInv(b: Book, ids: seq<nat>, shares: seq<int>, currency: Currency, now: int)
    requires |shares| <= |ids| && forall i :: 0 <= i < |ids| ==> ids[i] < |b.sales| && b.sales[ids[i]].currency == currency
    requires Inv(b) && BatchOf(b, ids, shares, currency, now).Some?
    ensures Inv(BatchOf(b, ids, shares, currency, now).value)
  {
    var d := b.(nextBatch := b.nextBatch + 1);
    forall i: nat ensures BatchRowOk(d, i) { assert BatchRowOk(b, i); }
    forall i: nat, j: nat ensures PairOk(d, i, j) { assert PairOk(b, i, j); }
    forall i | 0 <= i < |b.payments| ensures b.payments[i].batch != Some(b.nextBatch) { assert BatchRowOk(b, i); }
    SharesInv(d, ids, shares, currency, b.nextBatch, now);
  }

  lemma PayOldestInv(b: Book, client: nat, currency: Currency, amount: int, now: int)
    requires Inv(b) && PayOldestOf(b, client, currency, amount, now).Some?
    ensures Inv(PayOldestOf(b, client, currency, amount, now).value)
  {
    var ids := OldestFirst(b, client, currency);
    var shares := Shares(Balances(b, ids), amount);
    BatchInv(b, ids, shares, currency, now);
  }

  // ---- voiding ----

  lemma VoidInv(b: Book, i: nat, superuser: bool, now: int)
    requires Inv(b) && CanVoid(b.payments, i, superuser)
    ensures Inv(b.(payments := VoidOf(b.payments, i, superuser, now)))
  {
    CoreReversals(b, [i], now);
    assert Reversals(b.payments, [i], now) == [Reversal(b.payments[i], i, now)];
    ReversalsWhole(b, [i], now);
  }

  /** A set of reversals that takes in every standing original of each batch it touches. */
  lemma ReversalsWhole(b: Book, ids: seq<nat>, now: int)
    requires Inv(b) && Voidable(b.payments, ids)
    requires var d := b.(payments := b.payments + Reversals(b.payments, ids, now));
             forall k: nat :: Voided(d.payments, k) <==> Voided(b.payments, k) || k in ids
    requires forall i: nat, j: nat :: i in ids && SameBatch(b.payments, i, j) && b.payments[j].reverses.None? ==> j in ids
    ensures BatchesWhole(b.(payments := b.payments + Reversals(b.payments, ids, now)))
  {
    var d := b.(payments := b.payments + Reversals(b.payments, ids, now));
    forall k: nat | k < |d.payments|
      ensures BatchCurrency(d, k) == BatchCurrency(b, Origin(b.payments, ids, k))
      ensures d.payments[k].batch == b.payments[Origin(b.payments, ids, k)].batch
      ensures BatchRowOk(d, k)
    {
      assert BatchRowOk(b, Origin(b.payments, ids, k));
    }
    forall k: nat ensures BatchRowOk(d, k) {}
    forall i: nat, j: nat ensures PairOk(d, i, j) {
      if SameBatch(d.payments, i, j) {
        assert PairOk(b, Origin(b.payments, ids, i), Origin(b.payments, ids, j));
        if d.payments[i].reverses.None? && d.payments[j].reverses.None? {
          assert SameBatch(b.payments, i, j) && SameBatch(b.payments, j, i);
        }
      }
    }
  }

  lemma {:induction false} ToVoidVoidable(payments: seq<Payment>, batch: nat)
    ensures Voidable(payments, ToVoid(payments, batch, |payments|))
  {
  }

  lemma VoidBatchInv(b: Book, batch: Option<nat>, superuser: bool, now: int)
    requires Inv(b) && CanVoidBatch(b.payments, batch, superuser)
    ensures Inv(b.(payments := VoidBatchOf(b.payments, batch, superuser, now)))
  {
    var ids := ToVoid(b.payments, batch.value, |b.payments|);
    ToVoidVoidable(b.payments, batch.value);
    CoreReversals(b, ids, now);
    forall i: nat, j: nat | i in ids && SameBatch(b.payments, i, j) && b.payments[j].reverses.None?
      ensures j in ids
    {
      assert PairOk(b, i, j) && InBatch(b.payments, batch.value, j);
    }
    ReversalsWhole(b, ids, now);
  }

  /** The row of the old book whose batch and sale a row of the new one carries. */
  function Origin(payments: seq<Payment>, ids: seq<nat>, k: nat): (r: nat)
    requires k < |payments| + |ids| && forall j :: 0 <= j < |ids| ==> ids[j] < |payments|
    ensures r < |payments|
  {
    if k < |payments| then k else ids[k - |payments|]
  }

  // ---- deposits, other changes ----

  lemma LinkedVoided(payments: seq<Payment>, production: nat, t: nat, i: nat)
    ensures Voided(Linked(payments, production, t), i) == Voided(payments, i)
  {
    var l := Linked(payments, production, t);
    if Voided(payments, i) {
      var j :| 0 <= j < |payments| && payments[j].reverses == Some(i);
      assert l[j].reverses == Some(i);
    }
    if Voided(l, i) {
      var j :| 0 <= j < |l| && l[j].reverses == Some(i);
      assert payments[j].reverses == Some(i);
    }
  }

  /** Rows that are linked are originals of non-negative worth or reversals that carry no production order. */
  predicate NoReversalDeposit(payments: seq<Payment>)
  {
    forall i :: 0 <= i < |payments| && payments[i].reverses.Some? ==> payments[i].production.None?
  }

  lemma {:induction false} LinkedGap(payments: seq<Payment>, linked: seq<Payment>, marks: seq<Mark>, after: seq<Mark>, s: nat)
    requires |payments| == |linked| == |marks| == |after|
    requires forall i :: 0 <= i < |payments| ==>
               ExactFor(s)(payments[i]) - StandingFor(s)(marks[i]) <= ExactFor(s)(linked[i]) - StandingFor(s)(after[i])
    ensures Sum(payments, ExactFor(s)) - Sum(marks, StandingFor(s)) <= Sum(linked, ExactFor(s)) - Sum(after, StandingFor(s))
  {
    if payments != [] {
      var n := |payments| - 1;
      LinkedGap(payments[..n], linked[..n], marks[..n], after[..n], s);
    }
  }

  lemma LinkCore(b: Book, production: nat, t: nat)
    requires Core(b) && NoReversalDeposit(b.payments) && t < |b.sales|
    ensures Core(b.(payments := Linked(b.payments, production, t)))
  {
    var l := Linked(b.payments, production, t);
    forall i: nat ensures Voided(l, i) == Voided(b.payments, i) { LinkedVoided(b.payments, production, t, i); }
    forall j | 0 <= j < |l| ensures ReversalOk(l, j) { assert ReversalOk(b.payments, j); }
    forall s: nat ensures AtLeastStanding(l, s) {
      assert AtLeastStanding(b.payments, s);
      LinkedGap(b.payments, l, Marks(b.payments), Marks(l), s);
    }
  }

  lemma LinkInv(b: Book, production: nat, t: nat)
    requires Inv(b) && NoReversalDeposit(b.payments) && t < |b.sales|
    ensures Inv(b.(payments := Linked(b.payments, production, t)))
  {
    LinkCore(b, production, t);
    LinkWhole(b, production, t);
  }

  lemma LinkWhole(b: Book, production: nat, t: nat)
    requires BatchesWhole(b)
    ensures BatchesWhole(b.(payments := Linked(b.payments, production, t)))
  {
    var d := b.(payments := Linked(b.payments, production, t));
    forall i: nat ensures Voided(d.payments, i) == Voided(b.payments, i) { LinkedVoided(b.payments, production, t, i); }
    forall i: nat ensures BatchRowOk(d, i) { assert BatchRowOk(b, i); }
    forall i: nat | i < |b.payments| && b.payments[i].batch.Some? ensures BatchCurrency(d, i) == BatchCurrency(b, i) {
      assert BatchRowOk(b, i);
    }
    forall i: nat, j: nat ensures PairOk(d, i, j) { assert PairOk(b, i, j); }
  }

  lemma TradeInv(b: Book, sales: seq<Sale>)
    requires Inv(b) && Trades(b.sales, sales)
    ensures Inv(b.(sales := sales))
  {
    var d := b.(sales := sales);
    forall i: nat | i < |b.payments| ensures BatchCurrency(d, i) == BatchCurrency(b, i) {}
    forall i: nat ensures BatchRowOk(d, i) { assert BatchRowOk(b, i); }
    forall i: nat, j: nat ensures PairOk(d, i, j) { assert PairOk(b, i, j); }
  }

  // ---- runs ----

  lemma OpInv(b: Book, op: Op)
    requires Inv(b) && NoReversalDeposit(b.payments)
    ensures Inv(Apply(b, op))
  {
    match op
    case Record(req) => if req.batch.None? { RecordInv(b, req); }
    case Settle(s, now) => if s < |b.sales| { RecordInv(b, SettleRequest(b, s, now)); }
    case PayOldest(client, currency, amount, now) =>
      if PayOldestOf(b, client, currency, amount, now).Some? {
        PayOldestInv(b, client, currency, amount, now);
      }
    case Void(i, superuser, now) =>
      if CanVoid(b.payments, i, superuser) {
        VoidInv(b, i, superuser, now);
      }
    case VoidBatch(batch, superuser, now) =>
      if CanVoidBatch(b.payments, batch, superuser) {
        VoidBatchInv(b, batch, superuser, now);
      }
    case Deposit(production, client, amount, currency, now) =>
      if amount > 0 {
        var p := DepositRow(b, production, client, amount, currency, now);
        MulNonNeg(amount, p.rate);
        RowInv(b, p, 0, KGS);
      }
    case LinkDeposits(production, s) => if s < |b.sales| { LinkInv(b, production, s); }
    case Trade(sales) => if Trades(b.sales, sales) { TradeInv(b, sales); }
    case SetRate(_, _) => RatesInv(b, Apply(b, op));
  }

  lemma RatesInv(b: Book, d: Book)
    requires Inv(b) && d == b.(rates := d.rates)
    ensures Inv(d)
  {
    forall i: nat ensures BatchRowOk(d, i) { assert BatchRowOk(b, i); }
    forall i: nat, j: nat ensures PairOk(d, i, j) { assert PairOk(b, i, j); }
  }

  lemma {:induction false} SharesNoReversal(b: Book, ids: seq<nat>, shares: seq<int>, currency: Currency, batch: nat, now: int)
    requires |shares| <= |ids| && forall i :: 0 <= i < |ids| ==> ids[i] < |b.sales|
    requires NoReversalDeposit(b.payments) && PayShares(b, ids, shares, currency, batch, now).Some?
    ensures NoReversalDeposit(PayShares(b, ids, shares, currency, batch, now).value.payments)
    decreases |shares|
  {
    if shares != [] {
      SharesNoReversal(b, ids, shares[..|shares| - 1], currency, batch, now);
    }
  }

  lemma OpNoReversalDeposit(b: Book, op: Op)
    requires NoReversalDeposit(b.payments)
    ensures NoReversalDeposit(Apply(b, op).payments)
  {
    if op.PayOldest? && PayOldestOf(b, op.client, op.currency, op.amount, op.now).Some? {
      var ids := OldestFirst(b, op.client, op.currency);
      BatchNoReversal(b, ids, Shares(Balances(b, ids), op.amount), op.currency, op.now);
    }
  }

  lemma BatchNoReversal(b: Book, ids: seq<nat>, shares: seq<int>, currency: Currency, now: int)
    requires |shares| <= |ids| && forall i :: 0 <= i < |ids| ==> ids[i] < |b.sales|
    requires NoReversalDeposit(b.payments) && BatchOf(b, ids, shares, currency, now).Some?
    ensures NoReversalDeposit(BatchOf(b, ids, shares, currency, now).value.payments)
  {
    SharesNoReversal(b.(nextBatch := b.nextBatch + 1), ids, shares, currency, b.nextBatch, now);
  }

  /** In every reachable book: at most one reversal a payment, none of a reversal, batches void as a whole. */
  lemma {:induction false} RunInv(step: int, ops: seq<Op>)
    ensures Inv(Run(Opening(step), ops)) && NoReversalDeposit(Run(Opening(step), ops).payments)
  {
    if ops == [] {
      assert forall s: nat :: AtLeastStanding([], s);
    } else {
      var mid := Run(Opening(step), ops[..|ops| - 1]);
      RunInv(step, ops[..|ops| - 1]);
      OpInv(mid, ops[|ops| - 1]);
      OpNoReversalDeposit(mid, ops[|ops| - 1]);
    }
  }

  lemma {:induction false} PaidNonNegIn(b: Book, s: nat)
    requires Inv(b)
    ensures Sum(b.payments, ExactFor(s)) >= 0
  {
    assert AtLeastStanding(b.payments, s);
    forall i | 0 <= i < |b.payments| ensures StandingFor(s)(Marks(b.payments)[i]) >= 0 {}
    SumNonNeg(Marks(b.payments), StandingFor(s));
  }

  /** No run ever makes what has been paid towards a sale negative. */
  lemma {:induction false} PaidNeverNegative(step: int, ops: seq<Op>, s: nat)
    ensures var b := Run(Opening(step), ops);
            Sum(b.payments, ExactFor(s)) >= 0 && (s < |b.sales| ==> PaidAmount(b.sales[s], s, b.payments) >= 0)
  {
    var b := Run(Opening(step), ops);
    RunInv(step, ops);
    PaidNonNegIn(b, s);
    if s < |b.sales| {
      PaidNonNeg(Sum(b.payments, ExactFor(s)), b.sales[s].rate);
    }
  }

  // ---- what a void undoes ----

  /** Voiding a payment that is on a sale leaves every figure derived from the rows as if it had never been. */
  lemma VoidRestores(payments: seq<Payment>, i: nat, superuser: bool, now: int, sale: Sale, s: nat)
    requires CanVoid(payments, i, superuser) && payments[i].order.Some?
    ensures var after, without := VoidOf(payments, i, superuser, now), Without(payments, i);
            && BalanceKgs(sale, s, after) == BalanceKgs(sale, s, without)
            && PaidAmount(sale, s, after) == PaidAmount(sale, s, without)
            && Balance(sale, s, after) == Balance(sale, s, without)
            && StatusOf(sale, s, after) == StatusOf(sale, s, without)
  {
    var r := Reversal(payments[i], i, now);
    ReversalNet(payments[i], i, now);
    SumAppend(payments, r, NetFor(s));
    SumAppend(payments, r, ExactFor(s));
    SumWithout(payments, i, NetFor(s));
    SumWithout(payments, i, ExactFor(s));
  }

  /** The rows of a batch left out of a sum. */
  function Unless(f: Payment -> int, batch: nat): Payment -> int
  {
    (p: Payment) => if p.batch == Some(batch) && p.reverses.None? then 0 else f(p)
  }

  lemma ReversalsStep(payments: seq<Payment>, ids: seq<nat>, x: nat, now: int, f: Payment -> int)
    requires x < |payments| && forall k :: 0 <= k < |ids| ==> ids[k] < |payments|
    ensures Sum(Reversals(payments, ids + [x], now), f) ==
            Sum(Reversals(payments, ids, now), f) + f(Reversal(payments[x], x, now))
  {
    assert Reversals(payments, ids + [x], now) == Reversals(payments, ids, now) + [Reversal(payments[x], x, now)];
    SumAppend(Reversals(payments, ids, now), Reversal(payments[x], x, now), f);
  }

  lemma {:induction false} BatchCancels(payments: seq<Payment>, batch: nat, n: nat, now: int, f: Payment -> int)
    requires n <= |payments|
    requires forall i: nat :: InBatch(payments, batch, i) ==> !Voided(payments, i)
    requires forall i: nat :: InBatch(payments, batch, i) ==> f(Reversal(payments[i], i, now)) == -f(payments[i])
    ensures Sum(payments[..n], f) + Sum(Reversals(payments, ToVoid(payments, batch, n), now), f) ==
            Sum(payments[..n], Unless(f, batch))
  {
    if n > 0 {
      var i: nat := n - 1;
      BatchCancels(payments, batch, i, now, f);
      SumStep(payments, i, f);
      SumStep(payments, i, Unless(f, batch));
      if InBatch(payments, batch, i) {
        assert ToVoid(payments, batch, n) == ToVoid(payments, batch, i) + [i];
        ReversalsStep(payments, ToVoid(payments, batch, i), i, now, f);
      } else {
        assert ToVoid(payments, batch, n) == ToVoid(payments, batch, i);
      }
    }
  }

  /** Voiding a standing batch takes exactly its rows out of every sale's figures. */
  lemma BatchVoidRestores(b: Book, batch: nat, superuser: bool, now: int, s: nat)
    requires Inv(b) && CanVoidBatch(b.payments, Some(batch), superuser)
    ensures var after := VoidBatchOf(b.payments, Some(batch), superuser, now);
            && Sum(after, NetFor(s)) == Sum(b.payments, Unless(NetFor(s), batch))
            && Sum(after, ExactFor(s)) == Sum(b.payments, Unless(ExactFor(s), batch))
  {
    BatchStands(b, batch);
    forall i: nat | InBatch(b.payments, batch, i)
      ensures NetFor(s)(Reversal(b.payments[i], i, now)) == -NetFor(s)(b.payments[i])
      ensures ExactFor(s)(Reversal(b.payments[i], i, now)) == -ExactFor(s)(b.payments[i])
    {
      ReversalNet(b.payments[i], i, now);
    }
    BatchTakenOut(b.payments, batch, now, NetFor(s));
    BatchTakenOut(b.payments, batch, now, ExactFor(s));
  }

  /** A batch with a row left to void has none voided. */
  lemma {:induction false} BatchStands(b: Book, batch: nat)
    requires Inv(b) && ToVoid(b.payments, batch, |b.payments|) != []
    ensures forall i: nat :: InBatch(b.payments, batch, i) ==> !Voided(b.payments, i)
  {
    var first := ToVoid(b.payments, batch, |b.payments|)[0];
    forall i: nat | InBatch(b.payments, batch, i) ensures !Voided(b.payments, i) {
      assert PairOk(b, i, first) && InBatch(b.payments, batch, first) && !Voided(b.payments, first);
    }
  }

  lemma {:induction false} BatchTakenOut(payments: seq<Payment>, batch: nat, now: int, f: Payment -> int)
    requires forall i: nat :: InBatch(payments, batch, i) ==> !Voided(payments, i)
    requires forall i: nat :: InBatch(payments, batch, i) ==> f(Reversal(payments[i], i, now)) == -f(payments[i])
    ensures Sum(payments + Reversals(payments, ToVoid(payments, batch, |payments|), now), f) == Sum(payments, Unless(f, batch))
  {
    assert payments[..|payments|] == payments;
    BatchCancels(payments, batch, |payments|, now, f);
    SumConcat(payments, Reversals(payments, ToVoid(payments, batch, |payments|), now), f);
  }

  // ---- deposits voided before handover ----

  lemma LinkedSum(payments: seq<Payment>, more: seq<Payment>, production: nat, s: nat, f: Payment -> int)
    ensures Sum(Linked(payments + more, production, s), f) ==
            Sum(Linked(payments, production, s), f) + Sum(Linked(more, production, s), f)
  {
    assert Linked(payments + more, production, s) == Linked(payments, production, s) + Linked(more, production, s);
    SumConcat(Linked(payments, production, s), Linked(more, production, s), f);
  }

  function LinkedRow(p: Payment, production: nat, s: nat): Payment
  {
    if p.production == Some(production) && p.order.None? then p.(order := Some(s)) else p
  }

  /** A figure after voiding a payment and handing over, less the same figure had the payment never been. */
  lemma {:induction false} VoidThenLinkGap(payments: seq<Payment>, i: nat, superuser: bool, now: int, production: nat, s: nat, f: Payment -> int)
    requires CanVoid(payments, i, superuser)
    ensures Sum(Linked(VoidOf(payments, i, superuser, now), production, s), f) -
            Sum(Linked(Without(payments, i), production, s), f) ==
            f(LinkedRow(payments[i], production, s)) + f(Reversal(payments[i], i, now))
  {
    var r := Reversal(payments[i], i, now);
    LinkedSum(payments, [r], production, s, f);
    var l := Linked(payments, production, s);
    SumWithout(l, i, f);
    assert Linked(Without(payments, i), production, s) == Without(l, i);
    assert Linked([r], production, s) == [r] && [r][..0] == [];
    assert Sum([r], f) == f(r);
  }

  /** Voiding a payment and then handing over a production order: the new sale's figures are as if the payment had
      never been exactly when it was already on a sale, was no deposit of that order, or came to nothing. */
  lemma VoidThenLink(payments: seq<Payment>, i: nat, superuser: bool, now: int, production: nat, s: nat)
    requires CanVoid(payments, i, superuser)
    ensures var after, without, p := Linked(VoidOf(payments, i, superuser, now), production, s),
                                     Linked(Without(payments, i), production, s), payments[i];
            var stays := p.order.Some? || p.production != Some(production);
            && (Sum(after, ExactFor(s)) == Sum(without, ExactFor(s)) <==> stays || p.NetExact() == 0)
            && (Sum(after, NetFor(s)) == Sum(without, NetFor(s)) <==> stays || p.NetAppliedKgs() == 0)
  {
    ReversalNet(payments[i], i, now);
    VoidThenLinkGap(payments, i, superuser, now, production, s, ExactFor(s));
    VoidThenLinkGap(payments, i, superuser, now, production, s, NetFor(s));
  }

  // ---- the two payment guarantees, from any reachable book ----

  /** In a reachable book, settling an outstanding base-currency sale with at most 201 rows always goes through. */
  lemma {:induction false} ReachableSettles(step: int, ops: seq<Op>, s: nat, now: int)
    requires var b := Run(Opening(step), ops);
             s < |b.sales| && BaseSale(b.sales[s]) && Balance(b.sales[s], s, b.payments) > 0
             && Sum(b.payments, RowsFor(s)) <= 201
    ensures var b := Run(Opening(step), ops);
            var d := Apply(b, Settle(s, now));
            Balance(d.sales[s], s, d.payments) == 0 && StatusOf(d.sales[s], s, d.payments) == Paid
  {
    PaidNeverNegative(step, ops, s);
    SettleSucceeds(Run(Opening(step), ops), s, now);
  }

  /** From any reachable book on, deposits carried over and all, no tame run overpays a sale by more than the bound. */
  lemma {:induction false} ReachableOverpayment(step: int, before: seq<Op>, after: seq<Op>, s: nat)
    requires s < |Run(Opening(step), before).sales| && TameRun(Run(Opening(step), before), after, s)
    ensures var b := Run(Opening(step), before);
            var d := Run(b, after);
            && s < |d.sales|
            && Over(d, s) <= Max(Over(b, s), 0) + (Originals(d.payments, s) - Originals(b.payments, s)) * PerPayment(d.step)
  {
    RunInv(step, before);
    OverpaymentBound(Run(Opening(step), before), after, s);
  }
}
