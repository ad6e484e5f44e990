/** Payments against sales: what a payment would do, taking it, paying several sales oldest first, voiding. */
module Till {
  import opened Rounding
  import opened Sums
  import opened Sorting
  import opened Models

  /** `rates` holds today's rate per foreign currency, `step` is CHANGE_ROUNDING_STEP in cents. */
  datatype Book = Book(
    sales: seq<Sale>, payments: seq<Payment>, rates: map<Currency, Rate>, step: int, nextBatch: nat)

  // ---- rates and change ----

  function SnapshotRate(rates: map<Currency, Rate>, c: Currency): Rate
  {
    if c == KGS || c !in rates then RATE_UNIT else rates[c]
  }

  predicate HasRate(rates: map<Currency, Rate>, c: Currency) { c == KGS || c in rates }

  /** Down to a multiple of the step; a step of zero or less leaves the cents as they are. */
  function FloorToStep(value: int, step: int): int
  {
    if step <= 0 then value else RoundDown(value, step) * step
  }

  datatype Preview = Preview(
    amountKgs: int, idealKgs: int, hasExcess: bool, changeKgs: int, residueKgs: int, change: Option<int>)

  function PreviewFor(amount: int, currency: Currency, rate: Rate, balanceKgs: int, changeCurrency: Currency, step: int): Preview
  {
    var amountKgs := if currency == KGS then amount else RoundDown(amount * rate, RATE_UNIT);
    var ideal := Min(Max(amountKgs - Max(balanceKgs, 0), 0), amountKgs);
    var change := FloorToStep(ideal, step);
    Preview(amountKgs, ideal, ideal > TOLERANCE, change, ideal - change,
            if changeCurrency == KGS then Some(change)
            else if changeCurrency == currency then Some(RoundDown(change * RATE_UNIT, rate))
            else None)
  }

  // ---- one payment ----

  datatype Request = Request(
    sale: nat, amount: int, currency: Option<Currency>, rateOverride: Option<Rate>, disposition: Disposition,
    changeCurrency: Option<Currency>, batch: Option<nat>, now: int)

  datatype PayResult = Recorded(payment: Payment) | Ignored | Rejected

  function Or(c: Option<Currency>, d: Currency): Currency { if c.Some? then c.value else d }

  function ResolvedRate(b: Book, r: Request, currency: Currency): Rate
  {
    if r.rateOverride.Some? then r.rateOverride.value else SnapshotRate(b.rates, currency)
  }

  /** The check constraints on a payment row that is not a reversal. */
  predicate RowAllowed(p: Payment)
  {
    && p.amount > 0 && p.change >= 0
    && p.changeKgs * RATE_UNIT <= p.amount * p.rate
    && 0 <= p.residueKgs <= 10000
    && (p.order.Some? || p.production.Some?)
  }

  function PreviewOf(b: Book, r: Request): Preview
    requires r.sale < |b.sales|
  {
    var sale := b.sales[r.sale];
    var currency := Or(r.currency, sale.currency);
    PreviewFor(r.amount, currency, ResolvedRate(b, r, currency), BalanceKgs(sale, r.sale, b.payments),
               Or(r.changeCurrency, sale.currency), b.step)
  }

  function RowOf(b: Book, r: Request): Payment
    requires r.sale < |b.sales| && b.sales[r.sale].client.Some?
  {
    var sale, view := b.sales[r.sale], PreviewOf(b, r);
    var currency := Or(r.currency, sale.currency);
    var gives := r.disposition == Change && view.change.Some?;
    Payment(sale.client.value, Some(r.sale), None, r.amount, currency, ResolvedRate(b, r, currency), r.disposition,
            if gives then view.change.value else 0, Or(r.changeCurrency, sale.currency),
            if gives then view.changeKgs else 0, if gives then view.residueKgs else 0,
            r.batch, false, None, r.now)
  }

  predicate Refused(b: Book, r: Request)
    requires r.sale < |b.sales|
  {
    var sale, view := b.sales[r.sale], PreviewOf(b, r);
    || (r.rateOverride.None? && Or(r.currency, sale.currency) != sale.currency && !HasRate(b.rates, Or(r.currency, sale.currency)))
    || (r.disposition == NoDisposition && view.hasExcess)
    || (r.disposition == Change && view.change.None?)
    || (r.disposition == Change && view.changeKgs > 0 &&
        BalanceKgs(sale, r.sale, b.payments) - (view.amountKgs - view.changeKgs) > TOLERANCE)
  }

  function PayResultOf(b: Book, r: Request): PayResult
  {
    if r.sale >= |b.sales| then Rejected
    else if b.sales[r.sale].client.None? || r.amount <= 0 then Ignored
    else if Refused(b, r) || !RowAllowed(RowOf(b, r)) then Rejected
    else Recorded(RowOf(b, r))
  }

  function AfterPay(b: Book, r: PayResult): Book
  {
    if r.Recorded? then b.(payments := b.payments + [r.payment]) else b
  }

  /** mark_fully_paid: the remaining balance, in the sale's own currency, nothing said about an excess. */
  function SettleRequest(b: Book, s: nat, now: int): Request
    requires s < |b.sales|
  {
    Request(s, Balance(b.sales[s], s, b.payments), None, None, NoDisposition, None, None, now)
  }

  // ---- oldest first ----

  function ConfirmedAt(sales: seq<Sale>, i: nat): Option<int> { if i < |sales| then sales[i].confirmedAt else None }

  function OldestOf(sales: seq<Sale>): (nat, nat) -> bool
  {
    (i: nat, j: nat) => DueLe(ConfirmedAt(sales, i), ConfirmedAt(sales, j))
  }

  lemma OldestOrders(sales: seq<Sale>)
    ensures TotalPreorder(OldestOf(sales))
  {
    var le := OldestOf(sales);
    forall a: nat, b: nat, c: nat
      ensures le(a, b) || le(b, a)
      ensures le(a, b) && le(b, c) ==> le(a, c)
    {
      DueOrders(ConfirmedAt(sales, a), ConfirmedAt(sales, b), ConfirmedAt(sales, c));
    }
  }

  predicate OpenSale(b: Book, client: nat, currency: Currency, s: nat)
  {
    && s < |b.sales| && b.sales[s].client == Some(client) && b.sales[s].status == Confirmed
    && b.sales[s].currency == currency && Balance(b.sales[s], s, b.payments) > 0
  }

  function OpenIds(b: Book, client: nat, currency: Currency, n: nat): (r: seq<nat>)
    requires n <= |b.sales|
    ensures forall i :: 0 <= i < |r| ==> r[i] < n && OpenSale(b, client, currency, r[i])
    ensures forall s: nat :: s < n && OpenSale(b, client, currency, s) ==> s in r
    ensures forall i, j :: 0 <= i < j < |r| ==> r[i] < r[j]
  {
    if n == 0 then []
    else OpenIds(b, client, currency, n - 1) + if OpenSale(b, client, currency, n - 1) then [n - 1] else []
  }

  function OldestFirst(b: Book, client: nat, currency: Currency): (ids: seq<nat>)
    ensures forall i :: 0 <= i < |ids| ==> OpenSale(b, client, currency, ids[i])
    ensures forall i, j :: 0 <= i < j < |ids| ==> ids[i] != ids[j]
  {
    var open := OpenIds(b, client, currency, |b.sales|);
    DistinctPermuted(open, StableSort(open, OldestOf(b.sales)));
    StableSort(open, OldestOf(b.sales))
  }

  /** All of the client's open sales in the currency, by confirmation time. */
  lemma OldestFirstOrder(b: Book, client: nat, currency: Currency)
    ensures var ids := OldestFirst(b, client, currency);
            && (forall i, j :: 0 <= i < j < |ids| ==> DueLe(b.sales[ids[i]].confirmedAt, b.sales[ids[j]].confirmedAt))
            && (forall s: nat :: OpenSale(b, client, currency, s) ==> s in ids)
  {
    var open := OpenIds(b, client, currency, |b.sales|);
    var ids := OldestFirst(b, client, currency);
    OldestOrders(b.sales);
    SortSorted(open, OldestOf(b.sales));
    forall i, j | 0 <= i < j < |ids| ensures DueLe(b.sales[ids[i]].confirmedAt, b.sales[ids[j]].confirmedAt) {
      assert OldestOf(b.sales)(ids[i], ids[j]);
    }
    forall s: nat | OpenSale(b, client, currency, s) ensures s in ids {
      assert s in multiset(open);
      assert multiset(ids) == multiset(open);
    }
  }

  /** What is left of the amount after the first n balances: while anything is, each takes as much as fits. */
  function Left(balances: seq<int>, amount: int, n: nat): int
    requires n <= |balances|
  {
    if n == 0 then amount
    else
      var left := Left(balances, amount, n - 1);
      if left <= 0 then left else left - Min(left, balances[n - 1])
  }

  lemma {:induction false} SpentStays(balances: seq<int>, amount: int, k: nat, n: nat)
    requires k <= n <= |balances| && Left(balances, amount, k) <= 0
    ensures Left(balances, amount, n) == Left(balances, amount, k)
  {
    if k < n {
      SpentStays(balances, amount, k, n - 1);
    }
  }

  /** How many of the first n sales get a share. */
  function Reached(balances: seq<int>, amount: int, n: nat): (r: nat)
    requires n <= |balances|
    ensures r <= n && (r < n ==> Left(balances, amount, r) <= 0) && (r > 0 ==> Left(balances, amount, r - 1) > 0)
  {
    if n == 0 || Left(balances, amount, n - 1) > 0 then n else Reached(balances, amount, n - 1)
  }

  lemma ReachedIs(balances: seq<int>, amount: int, i: nat, n: nat)
    requires i <= n <= |balances| && (i > 0 ==> Left(balances, amount, i - 1) > 0)
    requires i == n || Left(balances, amount, i) <= 0
    ensures Reached(balances, amount, n) == i && Left(balances, amount, n) == Left(balances, amount, i)
  {
    var r := Reached(balances, amount, n);
    if r < i {
      SpentStays(balances, amount, r, i - 1);
    } else if i < r {
      SpentStays(balances, amount, i, r - 1);
    }
    if i < n {
      SpentStays(balances, amount, i, n);
    }
  }

  /** The oldest-first shares of an amount. */
  function Shares(balances: seq<int>, amount: int): (r: seq<int>)
    ensures |r| == Reached(balances, amount, |balances|)
    ensures forall k {:trigger r[k]} :: 0 <= k < |r| ==> r[k] == Min(Left(balances, amount, k), balances[k])
  {
    seq(Reached(balances, amount, |balances|), k requires 0 <= k < Reached(balances, amount, |balances|) =>
      Min(Left(balances, amount, k), balances[k]))
  }

  function Balances(b: Book, ids: seq<nat>): (r: seq<int>)
    requires forall i :: 0 <= i < |ids| ==> ids[i] < |b.sales|
    ensures |r| == |ids| && forall i :: 0 <= i < |ids| ==> r[i] == Balance(b.sales[ids[i]], ids[i], b.payments)
  {
    seq(|ids|, i requires 0 <= i < |ids| => Balance(b.sales[ids[i]], ids[i], b.payments))
  }

  function ShareRequest(s: nat, applied: int, currency: Currency, batch: nat, now: int): Request
  {
    Request(s, applied, Some(currency), None, NoDisposition, None, Some(batch), now)
  }

  /** One share through the one payment path, re-reading the balance; a sale settled meanwhile is passed over. */
  function PayShare(b: Book, s: nat, share: int, currency: Currency, batch: nat, now: int): (r: Option<Book>)
    requires s < |b.sales|
    ensures r.Some? ==> r.value.sales == b.sales
  {
    var applied := Min(share, Balance(b.sales[s], s, b.payments));
    if applied <= 0 then Some(b)
    else
      var result := PayResultOf(b, ShareRequest(s, applied, currency, batch, now));
      if result.Rejected? then None else Some(AfterPay(b, result))
  }

  /** Every share in turn; None when any of them is refused. */
  function PayShares(b: Book, ids: seq<nat>, shares: seq<int>, currency: Currency, batch: nat, now: int): (r: Option<Book>)
    requires |shares| <= |ids| && forall i :: 0 <= i < |ids| ==> ids[i] < |b.sales|
    ensures r.Some? ==> r.value.sales == b.sales
    decreases |shares|
  {
    if shares == [] then Some(b)
    else
      var n := |shares| - 1;
      var before := PayShares(b, ids, shares[..n], currency, batch, now);
      if before.None? then None else PayShare(before.value, ids[n], shares[n], currency, batch, now)
  }

  lemma {:induction false} PaySharesStep(b: Book, ids: seq<nat>, shares: seq<int>, i: nat, currency: Currency, batch: nat, now: int)
    requires i < |shares| <= |ids| && forall i :: 0 <= i < |ids| ==> ids[i] < |b.sales|
    ensures var before := PayShares(b, ids, shares[..i], currency, batch, now);
            PayShares(b, ids, shares[..i + 1], currency, batch, now) ==
            if before.None? then None else PayShare(before.value, ids[i], shares[i], currency, batch, now)
  {
    assert shares[..i + 1][..i] == shares[..i];
  }

  /** Once a share is refused nothing later changes that. */
  lemma {:induction false} RefusedStays(b: Book, ids: seq<nat>, shares: seq<int>, n: nat, currency: Currency, batch: nat, now: int)
    requires |shares| <= |ids| && forall i :: 0 <= i < |ids| ==> ids[i] < |b.sales|
    requires n <= |shares| && PayShares(b, ids, shares[..n], currency, batch, now).None?
    ensures PayShares(b, ids, shares, currency, batch, now).None?
    decreases |shares|
  {
    if n == |shares| {
      assert shares[..n] == shares;
    } else {
      assert shares[..|shares| - 1][..n] == shares[..n];
      RefusedStays(b, ids, shares[..|shares| - 1], n, currency, batch, now);
    }
  }

  /** The shares as one fresh batch. */
  function BatchOf(b: Book, ids: seq<nat>, shares: seq<int>, currency: Currency, now: int): Option<Book>
    requires |shares| <= |ids| && forall i :: 0 <= i < |ids| ==> ids[i] < |b.sales|
  {
    PayShares(b.(nextBatch := b.nextBatch + 1), ids, shares, currency, b.nextBatch, now)
  }

  function PayOldestOf(b: Book, client: nat, currency: Currency, amount: int, now: int): Option<Book>
  {
    var ids := OldestFirst(b, client, currency);
    var shares := Shares(Balances(b, ids), amount);
    if Left(Balances(b, ids), amount, |ids|) > 0 then None
    else BatchOf(b, ids, shares, currency, now)
  }

  lemma {:induction false} PayOldestIs(b: Book, client: nat, currency: Currency, amount: int, now: int, shares: seq<int>, remaining: int)
    requires var bs := Balances(b, OldestFirst(b, client, currency));
             shares == Shares(bs, amount) && remaining == Left(bs, amount, |bs|)
    ensures PayOldestOf(b, client, currency, amount, now) ==
            if remaining > 0 then None else BatchOf(b, OldestFirst(b, client, currency), shares, currency, now)
  {
  }

  function Cents(): int -> int { (x: int) => x }

  // ---- voids ----

  predicate Voided(payments: seq<Payment>, i: nat)
  {
    exists j :: 0 <= j < |payments| && payments[j].reverses == Some(i)
  }

  /** The mirror row: every money field negated at the same frozen rate; the production order is not copied. */
  function Reversal(p: Payment, i: nat, now: int): Payment
  {
    p.(amount := -p.amount, change := -p.change, changeKgs := -p.changeKgs, residueKgs := -p.residueKgs,
       production := None, reviewed := false, reverses := Some(i), createdAt := now)
  }

  predicate CanVoid(payments: seq<Payment>, i: nat, superuser: bool)
  {
    && i < |payments| && payments[i].batch.None? && payments[i].reverses.None? && !Voided(payments, i)
    && (payments[i].reviewed ==> superuser)
  }

  predicate InBatch(payments: seq<Payment>, batch: nat, i: nat)
  {
    i < |payments| && payments[i].batch == Some(batch) && payments[i].reverses.None?
  }

  /** Originals of the batch among the first n rows that no row reverses yet, in key order. */
  function ToVoid(payments: seq<Payment>, batch: nat, n: nat): (r: seq<nat>)
    requires n <= |payments|
    ensures forall k :: 0 <= k < |r| ==> r[k] < n && InBatch(payments, batch, r[k]) && !Voided(payments, r[k])
    ensures forall i: nat :: i < n && InBatch(payments, batch, i) && !Voided(payments, i) ==> i in r
    ensures forall i, j :: 0 <= i < j < |r| ==> r[i] < r[j]
  {
    if n == 0 then []
    else
      ToVoid(payments, batch, n - 1) +
      if InBatch(payments, batch, n - 1) && !Voided(payments, n - 1) then [n - 1] else []
  }

  predicate CanVoidBatch(payments: seq<Payment>, batch: Option<nat>, superuser: bool)
  {
    && batch.Some?
    && var ids := ToVoid(payments, batch.value, |payments|);
       ids != [] && forall k :: 0 <= k < |ids| ==> payments[ids[k]].reviewed ==> superuser
  }

  function Reversals(payments: seq<Payment>, ids: seq<nat>, now: int): (r: seq<Payment>)
    requires forall k :: 0 <= k < |ids| ==> ids[k] < |payments|
    ensures |r| == |ids| && forall k :: 0 <= k < |ids| ==> r[k] == Reversal(payments[ids[k]], ids[k], now)
  {
    seq(|ids|, k requires 0 <= k < |ids| => Reversal(payments[ids[k]], ids[k], now))
  }

  function VoidOf(payments: seq<Payment>, i: nat, superuser: bool, now: int): seq<Payment>
  {
    if CanVoid(payments, i, superuser) then payments + [Reversal(payments[i], i, now)] else payments
  }

  function VoidBatchOf(payments: seq<Payment>, batch: Option<nat>, superuser: bool, now: int): seq<Payment>
  {
    if CanVoidBatch(payments, batch, superuser)
    then payments + Reversals(payments, ToVoid(payments, batch.value, |payments|), now) else payments
  }

  // ---- deposits ----

  function DepositRow(b: Book, production: nat, client: nat, amount: int, currency: Currency, now: int): Payment
  {
    Payment(client, None, Some(production), amount, currency, SnapshotRate(b.rates, currency), NoDisposition,
            0, KGS, 0, 0, None, false, None, now)
  }

  function Deposited(b: Book, production: nat, client: nat, amount: int, currency: Currency, now: int): seq<Payment>
  {
    if amount > 0 then b.payments + [DepositRow(b, production, client, amount, currency, now)] else b.payments
  }

  /** At handover every deposit of the production order not yet on a sale moves to the new one. */
  function Linked(payments: seq<Payment>, production: nat, sale: nat): (r: seq<Payment>)
    ensures |r| == |payments|
    ensures forall i :: 0 <= i < |r| ==>
              r[i] == if payments[i].production == Some(production) && payments[i].order.None?
                      then payments[i].(order := Some(sale)) else payments[i]
  {
    seq(|payments|, i requires 0 <= i < |payments| =>
      if payments[i].production == Some(production) && payments[i].order.None?
      then payments[i].(order := Some(sale)) else payments[i])
  }

  // ---- one call ----

  datatype Op =
    | Record(req: Request)
    | Settle(s: nat, now: int)
    | PayOldest(client: nat, currency: Currency, amount: int, now: int)
    | Void(i: nat, superuser: bool, now: int)
    | VoidBatch(batch: Option<nat>, superuser: bool, now: int)
    | Deposit(production: nat, client: nat, amount: int, currency: Currency, now: int)
    | LinkDeposits(production: nat, s: nat)
    | Trade(sales: seq<Sale>)
    | SetRate(currency: Currency, rate: Rate)

  /** Sales come and change, but a sale that exists stays in its currency. */
  predicate Trades(before: seq<Sale>, after: seq<Sale>)
  {
    |before| <= |after| && forall s :: 0 <= s < |before| ==> after[s].currency == before[s].currency
  }

  function Apply(b: Book, op: Op): Book
  {
    match op
    case Record(req) => if req.batch.None? then AfterPay(b, PayResultOf(b, req)) else b
    case Settle(s, now) =>
      if s < |b.sales| && b.sales[s].status == Confirmed then AfterPay(b, PayResultOf(b, SettleRequest(b, s, now))) else b
    case PayOldest(client, currency, amount, now) =>
      var r := PayOldestOf(b, client, currency, amount, now);
      if r.Some? then r.value else b
    case Void(i, superuser, now) => b.(payments := VoidOf(b.payments, i, superuser, now))
    case VoidBatch(batch, superuser, now) => b.(payments := VoidBatchOf(b.payments, batch, superuser, now))
    case Deposit(production, client, amount, currency, now) =>
      b.(payments := Deposited(b, production, client, amount, currency, now))
    case LinkDeposits(production, s) =>
      if s < |b.sales| then b.(payments := Linked(b.payments, production, s)) else b
    case Trade(sales) => if Trades(b.sales, sales) then b.(sales := sales) else b
    case SetRate(currency, rate) => b.(rates := b.rates[currency := rate])
  }

  function Run(b: Book, ops: seq<Op>): Book
  {
    if ops == [] then b else Apply(Run(b, ops[..|ops| - 1]), ops[|ops| - 1])
  }

  function Opening(step: int): Book { Book([], [], map[], step, 0) }

  // ---- the services ----

  datatype Share = Share(sale: nat, applied: int, remainingBalance: int, closes: bool)

  class Services {
    var sales: seq<Sale>
    var payments: seq<Payment>
    var rates: map<Currency, Rate>
    var nextBatch: nat
    const step: int

    constructor (step: int)
      ensures State() == Opening(step)
    {
      sales, payments, rates, nextBatch := [], [], map[], 0;
      this.step := step;
    }

    function State(): Book
      reads this
    {
      Book(sales, payments, rates, step, nextBatch)
    }

    /** The property accumulates over the sale's rows and rounds once. */
    method ReadPaidAmount(s: nat) returns (paid: int)
      requires s < |sales|
      ensures paid == PaidAmount(sales[s], s, payments)
    {
      var exact := 0;
      for i := 0 to |payments|
        invariant exact == Sum(payments[..i], ExactFor(s))
      {
        SumStep(payments, i, ExactFor(s));
        if payments[i].order == Some(s) {
          exact := exact + payments[i].amount * payments[i].rate - payments[i].changeKgs * RATE_UNIT;
        }
      }
      assert payments[..|payments|] == payments;
      paid := HalfUp(exact, sales[s].rate);
    }

    method RecordPayment(r: Request) returns (result: PayResult)
      modifies this`payments
      ensures result == PayResultOf(old(State()), r)
      ensures State() == AfterPay(old(State()), result)
    {
      if r.sale >= |sales| {
        return Rejected;
      }
      var sale := sales[r.sale];
      if sale.client.None? || r.amount <= 0 {
        return Ignored;
      }
      var currency := Or(r.currency, sale.currency);
      if r.rateOverride.None? && currency != sale.currency && !HasRate(rates, currency) {
        return Rejected;
      }
      var rate := if r.rateOverride.Some? then r.rateOverride.value else SnapshotRate(rates, currency);
      var changeCurrency := Or(r.changeCurrency, sale.currency);
      var balance := BalanceKgs(sale, r.sale, payments);
      var view := PreviewFor(r.amount, currency, rate, balance, changeCurrency, step);
      var change, changeKgs, residueKgs := 0, 0, 0;
      if r.disposition == NoDisposition && view.hasExcess {
        return Rejected;
      }
      if r.disposition == Change {
        if view.change.None? {
          return Rejected;
        }
        change, changeKgs, residueKgs := view.change.value, view.changeKgs, view.residueKgs;
        var remaining := balance - (view.amountKgs - changeKgs);
        if changeKgs > 0 && remaining > TOLERANCE {
          return Rejected;
        }
      }
      var p := Payment(sale.client.value, Some(r.sale), None, r.amount, currency, rate, r.disposition, change,
                       changeCurrency, changeKgs, residueKgs, r.batch, false, None, r.now);
      if !RowAllowed(p) {
        return Rejected;
      }
      payments := payments + [p];
      return Recorded(p);
    }

    method MarkFullyPaid(s: nat, now: int) returns (result: PayResult)
      modifies this`payments
      ensures s < |sales| && sales[s].status == Confirmed ==>
                result == PayResultOf(old(State()), SettleRequest(old(State()), s, now))
      ensures !(s < |sales| && sales[s].status == Confirmed) ==> result == Rejected
      ensures State() == AfterPay(old(State()), result)
    {
      if s >= |sales| || sales[s].status != Confirmed {
        return Rejected;
      }
      result := RecordPayment(SettleRequest(State(), s, now));
    }

    /** Pure preview: how an amount would spread over the client's open sales. */
    method AllocateOldestFirst(client: nat, currency: Currency, amount: int) returns (rows: seq<Share>, remaining: int)
      ensures var ids := OldestFirst(State(), client, currency);
              var bs := Balances(State(), ids);
              RowsMatch(rows, ids, bs) && Applied(rows) == Shares(bs, amount) && remaining == Left(bs, amount, |bs|)
    {
      var ids := OldestFirst(State(), client, currency);
      rows, remaining := Spread(ids, Balances(State(), ids), amount);
    }

    method PayOldestFirst(client: nat, currency: Currency, amount: int, now: int) returns (ok: bool)
      modifies this
      ensures var target := PayOldestOf(old(State()), client, currency, amount, now);
              ok == target.Some? && State() == if ok then target.value else old(State())
    {
      ghost var ids := OldestFirst(State(), client, currency);
      var rows, remaining := AllocateOldestFirst(client, currency, amount);
      PayOldestIs(State(), client, currency, amount, now, Applied(rows), remaining);
      if remaining > 0 {
        return false;
      }
      ok := PayBatch(rows, currency, now, ids);
    }

    /** One fresh batch for all rows; if any of them is refused none is taken. */
    method PayBatch(rows: seq<Share>, currency: Currency, now: int, ghost ids: seq<nat>) returns (ok: bool)
      requires |rows| <= |ids| && forall k :: 0 <= k < |ids| ==> ids[k] < |sales|
      requires forall k :: 0 <= k < |rows| ==> rows[k].sale == ids[k]
      modifies this
      ensures var target := BatchOf(old(State()), ids, Applied(rows), currency, now);
              ok == target.Some? && State() == if ok then target.value else old(State())
    {
      var saved, batch := payments, nextBatch;
      nextBatch := nextBatch + 1;
      ok := PayRows(rows, currency, batch, now, ids);
      if !ok {
        payments, nextBatch := saved, batch;
      }
    }

    method PayRow(row: Share, currency: Currency, batch: nat, now: int) returns (ok: bool)
      requires row.sale < |sales|
      modifies this`payments
      ensures var target := PayShare(old(State()), row.sale, row.applied, currency, batch, now);
              ok == target.Some? && (ok ==> State() == target.value)
    {
      var applied := Min(row.applied, Balance(sales[row.sale], row.sale, payments));
      if applied > 0 {
        var r := RecordPayment(ShareRequest(row.sale, applied, currency, batch, now));
        return !r.Rejected?;
      }
      return true;
    }

    method PayRows(rows: seq<Share>, currency: Currency, batch: nat, now: int, ghost ids: seq<nat>) returns (ok: bool)
      requires |rows| <= |ids| && forall k :: 0 <= k < |ids| ==> ids[k] < |sales|
      requires forall k :: 0 <= k < |rows| ==> rows[k].sale == ids[k]
      modifies this`payments
      ensures var target := PayShares(old(State()), ids, Applied(rows), currency, batch, now);
              ok == target.Some? && (ok ==> State() == target.value)
    {
      ghost var shares := Applied(rows);
      for i := 0 to |rows|
        invariant PayShares(old(State()), ids, shares[..i], currency, batch, now) == Some(State())
      {
        PaySharesStep(old(State()), ids, shares, i, currency, batch, now);
        ok := PayRow(rows[i], currency, batch, now);
        if !ok {
          RefusedStays(old(State()), ids, shares, i + 1, currency, batch, now);
          return false;
        }
      }
      assert shares[..|rows|] == shares;
      return true;
    }

    method VoidPayment(i: nat, superuser: bool, now: int) returns (ok: bool)
      modifies this`payments
      ensures ok == CanVoid(old(payments), i, superuser)
      ensures payments == VoidOf(old(payments), i, superuser, now)
    {
      if i >= |payments| || payments[i].batch.Some? || payments[i].reverses.Some? {
        return false;
      }
      if Voided(payments, i) || (payments[i].reviewed && !superuser) {
        return false;
      }
      payments := payments + [Reversal(payments[i], i, now)];
      return true;
    }

    method VoidPaymentBatch(batch: Option<nat>, superuser: bool, now: int) returns (ok: bool)
      modifies this`payments
      ensures ok == CanVoidBatch(old(payments), batch, superuser)
      ensures payments == VoidBatchOf(old(payments), batch, superuser, now)
    {
      if batch.None? {
        return false;
      }
      var ids := ToVoid(payments, batch.value, |payments|);
      if ids == [] {
        return false;
      }
      for k := 0 to |ids|
        invariant forall j :: 0 <= j < k ==> payments[ids[j]].reviewed ==> superuser
      {
        if payments[ids[k]].reviewed && !superuser {
          return false;
        }
      }
      AppendReversals(ids, now);
      return true;
    }

    method AppendReversals(ids: seq<nat>, now: int)
      requires forall k :: 0 <= k < |ids| ==> ids[k] < |payments|
      modifies this`payments
      ensures payments == old(payments) + Reversals(old(payments), ids, now)
    {
      ghost var all := Reversals(payments, ids, now);
      for k := 0 to |ids|
        invariant payments == old(payments) + all[..k]
      {
        assert payments[ids[k]] == old(payments)[ids[k]];
        assert all[..k + 1] == all[..k] + [all[k]];
        payments := payments + [Reversal(payments[ids[k]], ids[k], now)];
      }
      assert all[..|ids|] == all;
    }

    method RecordDeposit(production: nat, client: nat, amount: int, currency: Currency, now: int) returns (ok: bool)
      modifies this`payments
      ensures ok == (amount > 0)
      ensures payments == Deposited(old(State()), production, client, amount, currency, now)
    {
      if amount <= 0 {
        return false;
      }
      payments := payments + [DepositRow(State(), production, client, amount, currency, now)];
      return true;
    }
  }

  function Applied(rows: seq<Share>): (r: seq<int>)
    ensures |r| == |rows| && forall i :: 0 <= i < |rows| ==> r[i] == rows[i].applied
  {
    seq(|rows|, i requires 0 <= i < |rows| => rows[i].applied)
  }

  /** The loop of the preview: `remaining` shrinks by what each open sale takes. */
  method Spread(ids: seq<nat>, balances: seq<int>, amount: int) returns (rows: seq<Share>, remaining: int)
    requires |ids| == |balances|
    ensures RowsMatch(rows, ids, balances)
    ensures Applied(rows) == Shares(balances, amount) && remaining == Left(balances, amount, |balances|)
  {
    rows, remaining := [], amount;
    var i := 0;
    while i < |ids| && remaining > 0
      invariant 0 <= i <= |ids| && |rows| == i && RowsMatch(rows, ids, balances)
      invariant remaining == Left(balances, amount, i) && (i > 0 ==> Left(balances, amount, i - 1) > 0)
      invariant forall k {:trigger rows[k]} :: 0 <= k < i ==> rows[k].applied == Min(Left(balances, amount, k), balances[k])
    {
      var applied := Min(remaining, balances[i]);
      rows := rows + [Share(ids[i], applied, balances[i] - applied, balances[i] - applied <= 0)];
      remaining := remaining - applied;
      i := i + 1;
    }
    ReachedIs(balances, amount, i, |balances|);
  }

  predicate RowsMatch(rows: seq<Share>, ids: seq<nat>, bs: seq<int>)
  {
    && |rows| <= |ids| == |bs|
    && forall k {:trigger rows[k]} :: 0 <= k < |rows| ==>
         && rows[k].sale == ids[k]
         && rows[k].remainingBalance == bs[k] - rows[k].applied
         && rows[k].closes == (rows[k].remainingBalance <= 0)
  }
}
