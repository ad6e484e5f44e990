/** Stock and money together: every run of both groups of services over the same sales. Confirmation freezes the rate
    the till knows, and handing an order over moves its deposits to the new sale. */
module Office {
  import opened Rounding
  import opened Sums
  import opened Models
  import Shop
  import Booking
  import Till
  import Money
  import Voids
  import Repay
  import Statement
  import Reconcile
  import Debts
  import Past
  import Drawer

  datatype State = State(db: Shop.Db, book: Till.Book)

  datatype Call = Stock(move: Shop.Op) | Cash(pay: Till.Op)

  /** A confirmation freezes today's rate for the sale's currency. */
  function Priced(s: State, op: Shop.Op): Shop.Op
  {
    match op
    case Confirm(i, historical, date, now, _) =>
      if i < |s.db.sales|
      then Shop.Confirm(i, historical, date, now, Till.SnapshotRate(s.book.rates, s.db.sales[i].currency)) else op
    case HandOver(o, now, _) =>
      if o < |s.db.orders|
      then Shop.HandOver(o, now, Till.SnapshotRate(s.book.rates, s.db.orders[o].currency)) else op
    case _ => op
  }

  function AfterStock(s: State, op: Shop.Op): State
  {
    var move := Priced(s, op);
    var db := Shop.Apply(s.db, move);
    var book := s.book.(sales := db.sales);
    State(db, if move.HandOver? && Shop.Succeeds(s.db, move)
              then book.(payments := Till.Linked(book.payments, move.o, |s.db.sales|)) else book)
  }

  /** Sales change only through the stock services, deposits move only at handover and are taken from the client of
      their order. */
  predicate OwnCall(db: Shop.Db, op: Till.Op)
  {
    && !op.Trade? && !op.LinkDeposits?
    && (op.Deposit? ==> op.production < |db.orders| && db.orders[op.production].client == op.client)
  }

  function Apply(s: State, c: Call): State
  {
    match c
    case Stock(op) => AfterStock(s, op)
    case Cash(op) => if OwnCall(s.db, op) then State(s.db, Till.Apply(s.book, op)) else s
  }

  function Run(step: int, calls: seq<Call>): State
  {
    if calls == [] then State(Shop.EMPTY, Till.Opening(step))
    else Apply(Run(step, calls[..|calls| - 1]), calls[|calls| - 1])
  }

  // ---- what every run keeps ----

  /** Som is worth one som on every confirmed sale. */
  predicate SomAtOne(sale: Sale) { sale.status == Confirmed && sale.currency == KGS ==> sale.rate == RATE_UNIT }

  ghost predicate Inv(s: State)
  {
    && s.book.sales == s.db.sales
    && Booking.Inv(s.db)
    && Voids.Inv(s.book) && Voids.NoReversalDeposit(s.book.payments)
    && (forall i :: 0 <= i < |s.db.sales| ==> SomAtOne(s.db.sales[i]))
  }

  lemma StockTrades(db: Shop.Db, op: Shop.Op)
    ensures Till.Trades(db.sales, Shop.Apply(db, op).sales)
  {
  }

  lemma CashKeepsSales(b: Till.Book, op: Till.Op)
    requires !op.Trade? && !op.LinkDeposits?
    ensures Till.Apply(b, op).sales == b.sales
  {
  }

  lemma ConfirmedAtOne(s: State, op: Shop.Op, i: nat)
    requires Inv(s) && i < |Shop.Apply(s.db, Priced(s, op)).sales|
    ensures SomAtOne(Shop.Apply(s.db, Priced(s, op)).sales[i])
  {
    assert i < |s.db.sales| ==> SomAtOne(s.db.sales[i]);
  }

  lemma StockInv(s: State, op: Shop.Op)
    requires Inv(s)
    ensures Inv(AfterStock(s, op))
  {
    var move := Priced(s, op);
    var db := Shop.Apply(s.db, move);
    Booking.InvKept(s.db, move);
    forall i | 0 <= i < |db.sales| ensures SomAtOne(db.sales[i]) { ConfirmedAtOne(s, op, i); }
    StockTrades(s.db, move);
    TradedInv(s.book, db.sales);
    if move.HandOver? && Shop.Succeeds(s.db, move) {
      LinkedInv(s.book.(sales := db.sales), move.o, |s.db.sales|);
    }
  }

  lemma TradedInv(b: Till.Book, sales: seq<Sale>)
    requires Voids.Inv(b) && Till.Trades(b.sales, sales)
    ensures Voids.Inv(b.(sales := sales))
  {
    Voids.TradeInv(b, sales);
  }

  lemma LinkedInv(b: Till.Book, production: nat, s: nat)
    requires Voids.Inv(b) && Voids.NoReversalDeposit(b.payments) && s < |b.sales|
    ensures var d := b.(payments := Till.Linked(b.payments, production, s));
            Voids.Inv(d) && Voids.NoReversalDeposit(d.payments)
  {
    Voids.LinkInv(b, production, s);
    Voids.OpNoReversalDeposit(b, Till.LinkDeposits(production, s));
  }

  lemma CashInv(s: State, op: Till.Op)
    requires Inv(s) && OwnCall(s.db, op)
    ensures Inv(State(s.db, Till.Apply(s.book, op)))
  {
    CashKeepsSales(s.book, op);
    Voids.OpInv(s.book, op);
    Voids.OpNoReversalDeposit(s.book, op);
  }

  /** Over every run of the stock and the payment services: both sets of books are in order, and they agree. */
  lemma {:induction false} RunInv(step: int, calls: seq<Call>)
    ensures Inv(Run(step, calls))
  {
    if calls == [] {
      Booking.RunInv([]);
      Voids.RunInv(step, []);
    } else {
      var mid, c := Run(step, calls[..|calls| - 1]), calls[|calls| - 1];
      RunInv(step, calls[..|calls| - 1]);
      match c
      case Stock(op) => StockInv(mid, op);
      case Cash(op) => if OwnCall(mid.db, op) { CashInv(mid, op); }
    }
  }

  // ---- the till's own guarantees ----

  lemma {:induction false} NextRun(b: Till.Book, ops: seq<Till.Op>, op: Till.Op)
    ensures Till.Run(b, ops + [op]) == Till.Apply(Till.Run(b, ops), op)
  {
    assert (ops + [op])[..|ops|] == ops;
  }

  /** Trading and, after a handover, linking its deposits are two calls of the till. */
  lemma TradeReached(step: int, ops: seq<Till.Op>, sales: seq<Sale>, handed: Option<nat>, next: nat) returns (more: seq<Till.Op>)
    requires Till.Trades(Till.Run(Till.Opening(step), ops).sales, sales) && (handed.Some? ==> next < |sales|)
    ensures var b := Till.Run(Till.Opening(step), ops).(sales := sales);
            Till.Run(Till.Opening(step), more) ==
            if handed.Some? then b.(payments := Till.Linked(b.payments, handed.value, next)) else b
  {
    NextRun(Till.Opening(step), ops, Till.Trade(sales));
    more := ops + [Till.Trade(sales)];
    if handed.Some? {
      NextRun(Till.Opening(step), more, Till.LinkDeposits(handed.value, next));
      more := more + [Till.LinkDeposits(handed.value, next)];
    }
  }

  lemma StockReached(step: int, s: State, op: Shop.Op, ops: seq<Till.Op>) returns (more: seq<Till.Op>)
    requires s.book.sales == s.db.sales && Till.Run(Till.Opening(step), ops) == s.book
    ensures Till.Run(Till.Opening(step), more) == AfterStock(s, op).book
  {
    var move := Priced(s, op);
    StockTrades(s.db, move);
    ClientsKept(s.db, move);
    more := TradeReached(step, ops, Shop.Apply(s.db, move).sales,
                         if move.HandOver? && Shop.Succeeds(s.db, move) then Some(move.o) else None, |s.db.sales|);
  }

  /** The payments of a joint run are those of a run of the till alone, so all that holds in its every book holds here. */
  lemma {:induction false} BookReached(step: int, calls: seq<Call>) returns (ops: seq<Till.Op>)
    ensures Till.Run(Till.Opening(step), ops) == Run(step, calls).book
  {
    if calls == [] {
      ops := [];
    } else {
      var mid, c := Run(step, calls[..|calls| - 1]), calls[|calls| - 1];
      ops := BookReached(step, calls[..|calls| - 1]);
      RunInv(step, calls[..|calls| - 1]);
      match c
      case Stock(op) => ops := StockReached(step, mid, op, ops);
      case Cash(op) =>
        if OwnCall(mid.db, op) {
          NextRun(Till.Opening(step), ops, op);
          ops := ops + [op];
        }
    }
  }

  /** Every payment row there ever is says truly what was taken in and handed back. */
  lemma {:induction false} DrawerSound(step: int, calls: seq<Call>)
    ensures Drawer.AllSound(Run(step, calls).book.payments)
  {
    var ops := BookReached(step, calls);
    Drawer.RunSound(step, ops);
  }

  // ---- every payment is its sale's client's ----

  predicate RowOwned(db: Shop.Db, p: Payment)
  {
    && (p.order.Some? ==> p.order.value < |db.sales| && db.sales[p.order.value].client == Some(p.client))
    && (p.order.None? && p.production.Some? ==>
          p.production.value < |db.orders| && db.orders[p.production.value].client == p.client)
  }

  predicate Owned(s: State)
  {
    forall i :: 0 <= i < |s.book.payments| ==> RowOwned(s.db, s.book.payments[i])
  }

  lemma ClientsKept(db: Shop.Db, op: Shop.Op)
    ensures var d := Shop.Apply(db, op);
            && |db.sales| <= |d.sales| && (forall i :: 0 <= i < |db.sales| ==> d.sales[i].client == db.sales[i].client)
            && |db.orders| <= |d.orders| && (forall o :: 0 <= o < |db.orders| ==> d.orders[o].client == db.orders[o].client)
            && (op.HandOver? && Shop.Succeeds(db, op) ==>
                  |db.sales| < |d.sales| && d.sales[|db.sales|].client == Some(db.orders[op.o].client))
  {
  }

  lemma StockOwned(s: State, op: Shop.Op)
    requires Owned(s)
    ensures Owned(AfterStock(s, op))
  {
    var d := AfterStock(s, op);
    ClientsKept(s.db, Priced(s, op));
    forall i | 0 <= i < |d.book.payments| ensures RowOwned(d.db, d.book.payments[i]) {
      assert RowOwned(s.db, s.book.payments[i]);
    }
  }

  lemma CashOwned(s: State, op: Till.Op)
    requires Owned(s) && s.book.sales == s.db.sales && OwnCall(s.db, op)
    ensures Owned(State(s.db, Till.Apply(s.book, op)))
  {
    if Past.Moment(op).Some? {
      Past.OpAdds(s.book, op);
      var after := Till.Apply(s.book, op).payments;
      forall i | 0 <= i < |after| ensures RowOwned(s.db, after[i]) {
        if i < |s.book.payments| {
          assert RowOwned(s.db, s.book.payments[i]) && after[i] == s.book.payments[i];
        } else {
          NewRowOwned(s, op, after[i]);
        }
      }
    }
  }

  lemma NewRowOwned(s: State, op: Till.Op, p: Payment)
    requires Owned(s) && s.book.sales == s.db.sales && OwnCall(s.db, op) && Past.NewRow(s.book, op, p)
    ensures RowOwned(s.db, p)
  {
    if p.reverses.Some? {
      assert RowOwned(s.db, s.book.payments[p.reverses.value]);
    }
  }

  /** Over every run: a payment on a sale is by the sale's client, a deposit not yet on one by its order's. */
  lemma {:induction false} RunOwned(step: int, calls: seq<Call>)
    ensures Owned(Run(step, calls))
  {
    if calls != [] {
      var mid, c := Run(step, calls[..|calls| - 1]), calls[|calls| - 1];
      RunOwned(step, calls[..|calls| - 1]);
      RunInv(step, calls[..|calls| - 1]);
      match c
      case Stock(op) => StockOwned(mid, op);
      case Cash(op) => if OwnCall(mid.db, op) { CashOwned(mid, op); }
    }
  }

  // ---- the guarantees with nothing assumed of the sales ----

  /** The statement's closing and the aggregate agree, whatever was traded, paid and voided. */
  lemma {:induction false} StatementAgrees(step: int, calls: seq<Call>, baselines: seq<Statement.Baseline>, client: nat, c: Currency, from: Option<int>)
    ensures var r := Reconcile.RowsOf(Run(step, calls).book, baselines);
            && Statement.ClosingOf(r, client, c, from, None) == Statement.Quantize(Statement.Owed(r, client, c))
            && (Statement.Served(r, client, c, from, None).Some? ==>
                  Statement.Served(r, client, c, from, None).value.closing == Statement.ClosingOf(r, client, c, from, None))
            && (Statement.Served(r, client, c, from, None).None? ==>
                  !Statement.Reported(Statement.Quantize(Statement.Owed(r, client, c))))
  {
    RunInv(step, calls);
    var s := Run(step, calls);
    forall i | 0 <= i < |s.book.sales| && s.book.sales[i].status == Confirmed ensures s.book.sales[i].confirmedAt.Some? {
      assert Booking.SaleOk(s.db.sales[i]);
    }
    Reconcile.StatementAgreesIn(s.book, baselines, client, c, from);
  }

  /** A client's debt is the openings plus what each of the client's sales leaves owed in its own figures, to within
      half a cent a sale and half a sixth decimal place a payment row, whatever was traded, paid and voided. */
  lemma {:induction false} DebtIsWhatSalesOwe(step: int, calls: seq<Call>, baselines: seq<Statement.Baseline>, client: nat, c: Currency)
    ensures var r := Reconcile.RowsOf(Run(step, calls).book, baselines);
            var slack := Sum(Debts.KeyedSales(r.sales), Debts.Slack(r, client, c));
            -slack <= 2 * Debts.DebtGap(r, client, c) <= slack
  {
    RunInv(step, calls);
    RunOwned(step, calls);
    var s := Run(step, calls);
    var r := Reconcile.RowsOf(s.book, baselines);
    forall i | 0 <= i < |r.payments| && Statement.SaleAt(r, r.payments[i]).Some?
      ensures Statement.SaleAt(r, r.payments[i]).value.client == Some(r.payments[i].client)
    {
      assert RowOwned(s.db, s.book.payments[i]);
    }
    Debts.DebtIsWhatSalesOwe(r, client, c);
  }

  /** No call of the payment services changes what any statement ending before its day opens or closes with. */
  lemma {:induction false} PastIsKept(step: int, calls: seq<Call>, op: Till.Op, baselines: seq<Statement.Baseline>, client: nat, c: Currency,
                                      from: Option<int>, d: int)
    requires Past.Moment(op).Some? && Statement.Day(Past.Moment(op).value) > d && (from.Some? ==> from.value <= d + 1)
    ensures var b := Run(step, calls).book;
            Past.SamePast(Reconcile.RowsOf(b, baselines), Reconcile.RowsOf(Till.Apply(b, op), baselines), client, c, from, d)
  {
    RunInv(step, calls);
    Past.PastIsKept(Run(step, calls).book, baselines, op, client, c, from, d);
  }

  /** Confirming and handing over freeze today's rate for the sale's currency, the total in som at it and the time; a
      historical sale keeps the date given and moves no stock. */
  lemma FreezesToday(s: State, op: Shop.Op)
    requires (op.Confirm? || op.HandOver?) && Shop.Succeeds(s.db, Priced(s, op))
    ensures var i, after := if op.Confirm? then op.s else |s.db.sales|, AfterStock(s, op).book.sales;
            && i < |after| && after[i].status == Confirmed
            && after[i].rate == Till.SnapshotRate(s.book.rates, after[i].currency)
            && after[i].totalKgs == ToKgs(after[i].total, after[i].rate)
            && after[i].confirmedAt == (if op.Confirm? && op.historical then op.date else Some(op.now))
            && (op.Confirm? && op.historical ==> AfterStock(s, op).db.ledger == s.db.ledger)
  {
  }

  /** What the sale services leave of a confirmed sale, and the payment services of its rows. */
  lemma {:induction false} ConfirmedSale(step: int, calls: seq<Call>, i: nat)
    requires i < |Run(step, calls).book.sales| && Run(step, calls).book.sales[i].status == Confirmed
    ensures var b := Run(step, calls).book;
            && b.sales[i].total >= 0 && b.sales[i].totalKgs == ToKgs(b.sales[i].total, b.sales[i].rate)
            && (b.sales[i].currency == KGS ==> b.sales[i].rate == RATE_UNIT)
            && Sum(b.payments, ExactFor(i)) >= 0
  {
    RunInv(step, calls);
    var s := Run(step, calls);
    assert SomAtOne(s.db.sales[i]) && Booking.SaleOk(s.db.sales[i]);
    forall k | 0 <= k < |s.db.sales[i].rows| ensures RowTotal(s.db.sales[i].rows[k]) >= 0 {}
    SumNonNeg(s.db.sales[i].rows, RowTotal);
    Voids.PaidNonNegIn(s.book, i);
  }

  /** mark_fully_paid on an outstanding sale whose rate has not moved, as a som sale's never does: taken exactly when
      the balance passes the som balance by no more than the tolerance, always with few enough rows, and once taken
      nothing is owed. */
  lemma {:induction false} SettlesExact(step: int, calls: seq<Call>, i: nat, now: int)
    requires var b := Run(step, calls).book;
             && i < |b.sales| && Balance(b.sales[i], i, b.payments) > 0
             && (b.sales[i].currency == KGS || Till.SnapshotRate(b.rates, b.sales[i].currency) == b.sales[i].rate)
    ensures var b := Run(step, calls).book;
            var sale, n := b.sales[i], Sum(b.payments, RowsFor(i));
            var balance, result := Balance(sale, i, b.payments), Till.PayResultOf(b, Till.SettleRequest(b, i, now));
            && (result.Recorded? <==> Money.Fits(b, i, balance, sale.currency, sale.rate))
            && (n * RATE_UNIT + sale.rate <= 200 * RATE_UNIT || (sale.currency == KGS && n <= 201) ==> result.Recorded?)
            && (result.Recorded? ==> Money.Settled(sale, i, b.payments, Till.AfterPay(b, result).payments))
  {
    var b := Run(step, calls).book;
    ConfirmedSale(step, calls, i);
    Money.SettleExact(b, i, now);
    if Money.FewRows(b, i) {
      Money.SettleFewRows(b, i, now);
    }
    if b.sales[i].currency == KGS && Sum(b.payments, RowsFor(i)) <= 201 {
      Money.SettleSucceeds(b, i, now);
    }
  }

  ghost predicate EasySom(b: Till.Book, client: nat)
  {
    forall s: nat :: Till.OpenSale(b, client, KGS, s) ==>
      Repay.PaidInSom(b.payments, s) || Sum(b.payments, RowsFor(s)) <= 201
  }

  /** Repaying som: taken exactly when within the open total and every share fits, and then every sale reached but
      possibly the last is settled and no other is touched; never refused where each open sale was paid in som only or
      has at most 201 rows. */
  lemma {:induction false} RepaysExact(step: int, calls: seq<Call>, client: nat, amount: int, now: int)
    requires amount > 0
    ensures var b := Run(step, calls).book;
            var ids, balances := Till.OldestFirst(b, client, KGS), Repay.OpenBalances(b, client, KGS);
            var shares, result := Till.Shares(balances, amount), Till.PayOldestOf(b, client, KGS, amount, now);
            && |shares| <= |ids|
            && (result.Some? <==> amount <= Sum(balances, Till.Cents()) && Repay.AllFit(b, ids, shares, KGS))
            && (result.Some? ==> Repay.RowsAdded(b, result.value, ids, shares)
                                 && Repay.PaidUp(b, result.value.payments, ids, shares))
            && (amount <= Sum(balances, Till.Cents()) && EasySom(b, client) ==> result.Some?)
  {
    var b := Run(step, calls).book;
    forall s: nat | Till.OpenSale(b, client, KGS, s)
      ensures Money.BaseSale(b.sales[s]) && Repay.Unmoved(b, s)
    {
      ConfirmedSale(step, calls, s);
    }
    Repay.RepaymentExact(b, client, KGS, amount, now);
    if Till.PayOldestOf(b, client, KGS, amount, now).Some? {
      Repay.RepaymentSettles(b, client, KGS, amount, now);
    }
    if EasySom(b, client) {
      forall s: nat | Till.OpenSale(b, client, KGS, s) ensures Repay.Easy(b, s) {
        Repay.SomIsEasy(b, s);
      }
      Repay.RepaymentTheorem(b, client, KGS, amount, now);
    }
  }

  // ---- deposits ----

  function DepositFor(o: nat): Payment -> int
  {
    (p: Payment) => if p.production == Some(o) && p.order.None? then p.NetExact() else 0
  }

  /** Handing an order over starts its sale with exactly the order's deposits paid. */
  lemma DepositsCarryOver(s: State, o: nat, now: int, rate: Rate)
    requires Inv(s) && Shop.CanHandOver(s.db, o)
    ensures var d, next := Apply(s, Stock(Shop.HandOver(o, now, rate))), |s.db.sales|;
            && next < |d.book.sales| && d.book.sales[next].status == Confirmed
            && d.db.orders[o].sale == Some(next)
            && Sum(d.book.payments, ExactFor(next)) == Sum(s.book.payments, DepositFor(o))
  {
    var next := |s.db.sales|;
    var linked := Till.Linked(s.book.payments, o, next);
    forall i | 0 <= i < |linked| ensures ExactFor(next)(linked[i]) == DepositFor(o)(s.book.payments[i]) {
      assert s.book.payments[i].order != Some(next);
    }
    SumSame(linked, s.book.payments, ExactFor(next), DepositFor(o));
  }

  // ---- the sales of the counterexamples are sales as confirmation leaves them ----

  lemma OnePieceOk(price: nat)
    ensures Booking.SaleOk(Money.OnePiece(price))
  {
    var sale := Money.OnePiece(price);
    var line := sale.rows[0].value;
    assert line.Subtotal() == price && line.LineTotal() == price;
    RowsTotalOne(sale.rows);
    Exact(price, RATE_UNIT);
    assert ToKgs(price, RATE_UNIT) == price;
  }

  lemma MovedRateSaleOk()
    ensures Booking.SaleOk(Repay.MovedRateBook().sales[0])
  {
    RowsTotalOne(Repay.MovedRateBook().sales[0].rows);
  }

  lemma RowsTotalOne(rows: seq<Option<Line>>)
    requires |rows| == 1
    ensures RowsTotal(rows) == RowTotal(rows[0])
    ensures rows[0].Some? ==> HasItems(rows)
  {
    SumStep(rows, 0, RowTotal);
    assert rows[..1] == rows && rows[..0] == [];
  }
}
