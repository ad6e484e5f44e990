/** Every run of the services keeps the ledger, the sales and the production orders in step. */
module Booking {
  import opened Sums
  import opened Models
  import opened Returns
  import opened Shop

  // ---- the invariant ----

  /** What a sale still has out of the warehouse. */
  function Outstanding(db: Db, s: nat, v: nat): int
  {
    if s < |db.sales| && db.sales[s].status == Confirmed && !db.sales[s].historical
    then Need(db.sales[s].rows, v) else 0
  }

  /** SALE_OUT minus RETURN_IN booked to a sale is what it still has out. */
  predicate SaleBooked(db: Db, s: nat, v: nat)
  {
    Sum(db.ledger, BookedFor(s, v)) == -Outstanding(db, s, v)
  }

  predicate SaleOk(sale: Sale)
  {
    && RowsValid(sale.rows)
    && (sale.status == Draft ==> !sale.historical)
    && (sale.status == Confirmed ==>
          HasItems(sale.rows) && sale.confirmedAt.Some? && sale.total == RowsTotal(sale.rows) && sale.totalKgs == ToKgs(sale.total, sale.rate))
  }

  predicate OrderOk(order: Order)
  {
    forall i :: 0 <= i < |order.lines| ==>
      0 <= order.lines[i].produced <= order.lines[i].quantity && order.lines[i].quantity > 0
  }

  ghost predicate Inv(db: Db)
  {
    && (forall s :: 0 <= s < |db.sales| ==> SaleOk(db.sales[s]))
    && (forall o :: 0 <= o < |db.orders| ==> OrderOk(db.orders[o]))
    && (forall s: nat, v: nat :: SaleBooked(db, s, v))
  }

  /** The units a line reports as produced are the units taken in through it. */
  predicate IntakeBooked(db: Db, o: nat, i: nat)
  {
    Sum(db.ledger, IntakeFor(o, i)) ==
    if o < |db.orders| && i < |db.orders[o].lines| then db.orders[o].lines[i].produced else 0
  }

  ghost predicate InStep(db: Db)
  {
    && (forall o: nat, i: nat :: IntakeBooked(db, o, i))
    && (forall o :: 0 <= o < |db.orders| ==> StatusRight(db.orders[o]))
  }

  /** While an order is open it is READY exactly when fully produced, and NEW only before anything was taken in. */
  predicate StatusRight(order: Order)
  {
    IsOpen(order.status) ==>
      && (order.status == Ready <==> order.FullyProduced())
      && (order.status == New ==> forall i :: 0 <= i < |order.lines| ==> order.lines[i].produced == 0)
  }

  // ---- what the movements of one call add up to ----

  lemma {:induction false} LineMovesSum(rows: seq<Option<Line>>, kind: MovementKind, s: nat, f: Movement -> int,
                                        g: Option<Line> -> int)
    requires forall i :: 0 <= i < |rows| ==>
               g(rows[i]) == if rows[i].None? then 0
                             else f(Movement(rows[i].value.variant, kind, Signed(kind, rows[i].value.quantity), ForSale(s)))
    ensures Sum(LineMoves(rows, kind, s), f) == Sum(rows, g)
  {
    if rows != [] {
      var n := |rows| - 1;
      LineMovesSum(rows[..n], kind, s, f, g);
      if rows[n].Some? {
        var m := Movement(rows[n].value.variant, kind, Signed(kind, rows[n].value.quantity), ForSale(s));
        SumAppend(LineMoves(rows[..n], kind, s), m, f);
      } else {
        assert LineMoves(rows, kind, s) == LineMoves(rows[..n], kind, s);
      }
    }
  }

  lemma {:induction false} ReturnMovesSum(rows: seq<Option<Line>>, after: seq<Option<Line>>, back: map<nat, int>, s: nat,
                                          f: Movement -> int, g: Option<Line> -> int)
    requires |after| == |rows|
    requires forall i :: 0 <= i < |rows| ==> after[i] == RowAfter(rows[i], i, back)
    requires forall i :: 0 <= i < |rows| ==>
               g(rows[i]) - g(after[i]) ==
               if Comes(rows[i], i, back) then f(Movement(rows[i].value.variant, ReturnIn, back[i], ForSale(s))) else 0
    ensures Sum(ReturnMoves(rows, back, s), f) == Sum(rows, g) - Sum(after, g)
  {
    if rows != [] {
      var n := |rows| - 1;
      ReturnMovesSum(rows[..n], after[..n], back, s, f, g);
      if Comes(rows[n], n, back) {
        var m := Movement(rows[n].value.variant, ReturnIn, back[n], ForSale(s));
        SumAppend(ReturnMoves(rows[..n], back, s), m, f);
      } else {
        assert ReturnMoves(rows, back, s) == ReturnMoves(rows[..n], back, s);
      }
    }
  }

  function Nothing(): Option<Line> -> int { (row: Option<Line>) => 0 }

  function Leaving(v: nat): Option<Line> -> int
  {
    (row: Option<Line>) => if row.Some? && row.value.variant == v then -row.value.quantity else 0
  }

  /** Stock leaving or returning with every live line of a sale. */
  lemma {:induction false} LineMovesEffect(rows: seq<Option<Line>>, kind: MovementKind, s: nat, t: nat, v: nat, o: nat, i: nat)
    requires RowsValid(rows) && kind in {SaleOut, ReturnIn}
    ensures var moved := if kind == SaleOut then -Need(rows, v) else Need(rows, v);
            && Sum(LineMoves(rows, kind, s), QuantityOf(v)) == moved
            && Sum(LineMoves(rows, kind, s), BookedFor(t, v)) == (if s == t then moved else 0)
            && Sum(LineMoves(rows, kind, s), IntakeFor(o, i)) == 0
  {
    assert forall j :: 0 <= j < |rows| && rows[j].Some? ==> rows[j].value.quantity > 0;
    if kind == SaleOut {
      LineMovesSum(rows, kind, s, QuantityOf(v), Leaving(v));
      LineMovesSum(rows, kind, s, BookedFor(t, v), if s == t then Leaving(v) else Nothing());
    } else {
      LineMovesSum(rows, kind, s, QuantityOf(v), LiveQuantity(v));
      LineMovesSum(rows, kind, s, BookedFor(t, v), if s == t then LiveQuantity(v) else Nothing());
    }
    LineMovesSum(rows, kind, s, IntakeFor(o, i), Nothing());
    SumLinear(rows, Leaving(v), Nothing(), LiveQuantity(v), -1);
    SumZero(rows, Nothing());
  }

  lemma {:induction false} ReturnMovesEffect(rows: seq<Option<Line>>, back: map<nat, int>, s: nat, t: nat, v: nat, o: nat, i: nat)
    ensures var moved := Need(rows, v) - Need(RowsAfter(rows, back), v);
            && Sum(ReturnMoves(rows, back, s), QuantityOf(v)) == moved
            && Sum(ReturnMoves(rows, back, s), BookedFor(t, v)) == (if s == t then moved else 0)
            && Sum(ReturnMoves(rows, back, s), IntakeFor(o, i)) == 0
  {
    var after := RowsAfter(rows, back);
    ReturnMovesSum(rows, after, back, s, QuantityOf(v), LiveQuantity(v));
    ReturnMovesSum(rows, after, back, s, BookedFor(t, v), if s == t then LiveQuantity(v) else Nothing());
    ReturnMovesSum(rows, after, back, s, IntakeFor(o, i), Nothing());
    SumZero(rows, Nothing());
    SumZero(after, Nothing());
  }

  /** The ledger only ever grows; this is what a successful call appends. */
  function Appended(db: Db, op: Op): seq<Movement>
    requires Succeeds(db, op)
  {
    match op
    case Book(v, kind, q, _) => [Movement(v, kind, Signed(kind, q), NoCause)]
    case Recount(v, counted, _) =>
      var diff := counted - OnHand(db.ledger, v);
      if diff == 0 then [] else [Movement(v, Adjustment, diff, NoCause)]
    case Confirm(s, historical, _, _, _) => if historical then [] else LineMoves(db.sales[s].rows, SaleOut, s)
    case Cancel(s) => if db.sales[s].historical then [] else LineMoves(db.sales[s].rows, ReturnIn, s)
    case Return(s, back) => if db.sales[s].historical then [] else ReturnMoves(db.sales[s].rows, back, s)
    case Produce(o, i, q, _, _) =>
      if q > 0 then [Movement(db.orders[o].lines[i].variant, ProductionIn, q, ForOrderLine(o, i))] else []
    case HandOver(o, _, _) => LineMoves(SaleOf(db.orders[o]).rows, SaleOut, |db.sales|)
    case _ => []
  }

  lemma LedgerAppended(db: Db, op: Op)
    ensures Apply(db, op).ledger == db.ledger + if Succeeds(db, op) then Appended(db, op) else []
  {
    assert db.ledger + [] == db.ledger;
  }

  lemma LedgerGrows(db: Db, op: Op, f: Movement -> int)
    ensures Apply(db, op).ledger == db.ledger + if Succeeds(db, op) then Appended(db, op) else []
    ensures Sum(Apply(db, op).ledger, f) == Sum(db.ledger, f) + if Succeeds(db, op) then Sum(Appended(db, op), f) else 0
  {
    LedgerAppended(db, op);
    SumConcat(db.ledger, if Succeeds(db, op) then Appended(db, op) else [], f);
  }

  // ---- sales ----

  lemma {:induction false} SumShort(t: seq<Movement>, f: Movement -> int)
    requires |t| <= 1
    ensures Sum(t, f) == if t == [] then 0 else f(t[0])
  {
    if t != [] {
      assert t[..0] == [];
    }
  }

  lemma NoLiveRows(rows: seq<Option<Line>>, v: nat)
    requires !HasItems(rows)
    ensures Need(rows, v) == 0 && RowsTotal(rows) == 0
  {
    SumZero(rows, LiveQuantity(v));
    SumZero(rows, RowTotal);
  }

  lemma {:induction false} ConfirmForSale(db: Db, u: nat, historical: bool, date: Option<int>, now: int, rate: Rate, s: nat, v: nat)
    requires u < |db.sales| && db.sales[u].status == Draft && !db.sales[u].historical && RowsValid(db.sales[u].rows)
    ensures Sum(if historical then [] else LineMoves(db.sales[u].rows, SaleOut, u), BookedFor(s, v)) ==
            Outstanding(db, s, v) - Outstanding(ConfirmEffect(db, u, historical, date, now, rate), s, v)
  {
    LineMovesEffect(db.sales[u].rows, SaleOut, u, s, v, 0, 0);
  }

  lemma {:induction false} CancelForSale(db: Db, u: nat, s: nat, v: nat)
    requires u < |db.sales| && db.sales[u].status == Confirmed && RowsValid(db.sales[u].rows)
    ensures Sum(if db.sales[u].historical then [] else LineMoves(db.sales[u].rows, ReturnIn, u), BookedFor(s, v)) ==
            Outstanding(db, s, v) - Outstanding(CancelEffect(db, u), s, v)
  {
    LineMovesEffect(db.sales[u].rows, ReturnIn, u, s, v, 0, 0);
  }

  lemma {:induction false} ReturnForSale(db: Db, u: nat, back: map<nat, int>, s: nat, v: nat)
    requires u < |db.sales| && db.sales[u].status == Confirmed
    ensures Sum(if db.sales[u].historical then [] else ReturnMoves(db.sales[u].rows, back, u), BookedFor(s, v)) ==
            Outstanding(db, s, v) - Outstanding(ReturnEffect(db, u, back), s, v)
  {
    var after := RowsAfter(db.sales[u].rows, back);
    ReturnMovesEffect(db.sales[u].rows, back, u, s, v, 0, 0);
    if !HasItems(after) {
      NoLiveRows(after, v);
    }
  }

  lemma HandOverForSale(db: Db, o: nat, now: int, rate: Rate, s: nat, v: nat)
    requires o < |db.orders| && OrderOk(db.orders[o])
    ensures Sum(LineMoves(SaleOf(db.orders[o]).rows, SaleOut, |db.sales|), BookedFor(s, v)) ==
            Outstanding(db, s, v) - Outstanding(HandOverEffect(db, o, now, rate), s, v)
  {
    LineMovesEffect(SaleOf(db.orders[o]).rows, SaleOut, |db.sales|, s, v, 0, 0);
  }

  /** What a call books to a sale is what the sale has out afterwards, less what it had before. */
  lemma AppendedForSale(db: Db, op: Op, s: nat, v: nat)
    requires Inv(db) && Succeeds(db, op)
    ensures Sum(Appended(db, op), BookedFor(s, v)) == Outstanding(db, s, v) - Outstanding(Apply(db, op), s, v)
  {
    match op
    case Confirm(u, historical, date, now, rate) => ConfirmForSale(db, u, historical, date, now, rate, s, v);
    case Cancel(u) => CancelForSale(db, u, s, v);
    case Return(u, back) => ReturnForSale(db, u, back, s, v);
    case HandOver(o, now, rate) => HandOverForSale(db, o, now, rate, s, v);
    case _ => SumShort(Appended(db, op), BookedFor(s, v));
  }

  lemma SaleBookedKept(db: Db, op: Op, s: nat, v: nat)
    requires Inv(db)
    ensures SaleBooked(Apply(db, op), s, v)
  {
    assert SaleBooked(db, s, v);
    LedgerGrows(db, op, BookedFor(s, v));
    if Succeeds(db, op) {
      AppendedForSale(db, op, s, v);
    }
  }

  lemma ReturnedRowsValid(rows: seq<Option<Line>>, back: map<nat, int>)
    requires RowsValid(rows)
    ensures RowsValid(RowsAfter(rows, back))
  {
    forall i | 0 <= i < |rows| && RowsAfter(rows, back)[i].Some?
      ensures RowsAfter(rows, back)[i].value.Valid()
    {
      if Comes(rows[i], i, back) {
        ShrinkKeepsValid(rows[i].value, back[i]);
      }
    }
  }

  lemma SalesOkKept(db: Db, op: Op, s: nat)
    requires Inv(db) && s < |Apply(db, op).sales|
    ensures SaleOk(Apply(db, op).sales[s])
  {
    if Succeeds(db, op) && op.Return? && op.s == s {
      ReturnedRowsValid(db.sales[s].rows, op.back);
    }
  }

  lemma OrdersOkKept(db: Db, op: Op, o: nat)
    requires Inv(db) && o < |Apply(db, op).orders|
    ensures OrderOk(Apply(db, op).orders[o])
  {
  }

  lemma InvKept(db: Db, op: Op)
    requires Inv(db)
    ensures Inv(Apply(db, op))
  {
    var d := Apply(db, op);
    forall s: nat, v: nat ensures SaleBooked(d, s, v) { SaleBookedKept(db, op, s, v); }
    forall s | 0 <= s < |d.sales| ensures SaleOk(d.sales[s]) { SalesOkKept(db, op, s); }
    forall o | 0 <= o < |d.orders| ensures OrderOk(d.orders[o]) { OrdersOkKept(db, op, o); }
  }

  /** Over every run of the services, from the empty shop. */
  lemma {:induction false} RunInv(ops: seq<Op>)
    ensures Inv(Run(EMPTY, ops))
  {
    if ops != [] {
      RunInv(ops[..|ops| - 1]);
      InvKept(Run(EMPTY, ops[..|ops| - 1]), ops[|ops| - 1]);
    }
  }

  // ---- production orders ----

  /** Callers pass counts; the services themselves would let a negative one through. */
  predicate NonNegative(op: Op) { op.Produce? ==> op.q >= 0 }

  lemma AppendedForLine(db: Db, op: Op, o: nat, i: nat)
    requires Inv(db) && Succeeds(db, op)
    ensures Sum(Appended(db, op), IntakeFor(o, i)) ==
            if op.Produce? && op.o == o && op.i == i && op.q > 0 then op.q else 0
  {
    if |Appended(db, op)| <= 1 {
      SumShort(Appended(db, op), IntakeFor(o, i));
    }
    match op
    case Confirm(u, _, _, _, _) => LineMovesEffect(db.sales[u].rows, SaleOut, u, 0, 0, o, i);
    case Cancel(u) => LineMovesEffect(db.sales[u].rows, ReturnIn, u, 0, 0, o, i);
    case Return(u, back) => ReturnMovesEffect(db.sales[u].rows, back, u, 0, 0, o, i);
    case HandOver(p, _, _) =>
      assert OrderOk(db.orders[p]);
      LineMovesEffect(SaleOf(db.orders[p]).rows, SaleOut, |db.sales|, 0, 0, o, i);
    case _ =>
  }

  /** A successful intake keeps its line's count and the ledger together exactly when the count is not negative. */
  lemma IntakeExact(db: Db, o: nat, i: nat, q: int, defects: int, contractor: bool)
    requires Inv(db) && InStep(db) && CanProduce(db, o, i, q, defects, contractor)
    ensures IntakeBooked(Apply(db, Produce(o, i, q, defects, contractor)), o, i) <==> q >= 0
  {
    var op := Produce(o, i, q, defects, contractor);
    assert IntakeBooked(db, o, i);
    LedgerGrows(db, op, IntakeFor(o, i));
    AppendedForLine(db, op, o, i);
  }

  lemma IntakeKept(db: Db, op: Op, o: nat, i: nat)
    requires Inv(db) && InStep(db) && NonNegative(op)
    ensures IntakeBooked(Apply(db, op), o, i)
  {
    assert IntakeBooked(db, o, i);
    LedgerGrows(db, op, IntakeFor(o, i));
    if Succeeds(db, op) {
      AppendedForLine(db, op, o, i);
    }
  }

  lemma ProducedStatus(order: Order, i: nat, q: int)
    requires OrderOk(order) && StatusRight(order) && i < |order.lines|
    requires 0 <= q <= order.lines[i].quantity - order.lines[i].produced
    ensures StatusRight(ProducedOrder(order, i, q))
  {
    var line := order.lines[i];
    var next := order.(lines := order.lines[i := line.(produced := line.produced + q)]);
    assert next.lines[i].produced == line.produced + q;
    if order.status == Ready {
      assert line.produced >= line.quantity;
      assert next.lines == order.lines;
    }
  }

  lemma StatusKept(db: Db, op: Op, o: nat)
    requires Inv(db) && InStep(db) && NonNegative(op) && o < |Apply(db, op).orders|
    ensures StatusRight(Apply(db, op).orders[o])
  {
    if o < |db.orders| {
      assert StatusRight(db.orders[o]);
      if op.Produce? && op.o == o && Succeeds(db, op) {
        ProducedStatus(db.orders[o], op.i, op.q);
      }
    } else {
      CreatedStatus(Apply(db, op).orders[o]);
    }
  }

  lemma CreatedStatus(order: Order)
    requires order.status == New && forall i :: 0 <= i < |order.lines| ==> order.lines[i].produced == 0 < order.lines[i].quantity
    ensures StatusRight(order)
  {
    if order.lines != [] {
      assert order.lines[0].produced < order.lines[0].quantity;
    }
  }

  lemma InStepKept(db: Db, op: Op)
    requires Inv(db) && InStep(db) && NonNegative(op)
    ensures InStep(Apply(db, op))
  {
    forall o: nat, i: nat ensures IntakeBooked(Apply(db, op), o, i) { IntakeKept(db, op, o, i); }
    forall o | 0 <= o < |Apply(db, op).orders| ensures StatusRight(Apply(db, op).orders[o]) { StatusKept(db, op, o); }
  }

  /** Status follows production, and produced means taken in, over every run with non-negative counts. */
  lemma {:induction false} RunInStep(ops: seq<Op>)
    requires forall k :: 0 <= k < |ops| ==> NonNegative(ops[k])
    ensures InStep(Run(EMPTY, ops))
  {
    if ops != [] {
      RunInStep(ops[..|ops| - 1]);
      RunInv(ops[..|ops| - 1]);
      InStepKept(Run(EMPTY, ops[..|ops| - 1]), ops[|ops| - 1]);
    }
  }

  function Stage(s: OrderStatus): nat
  {
    match s
    case New => 0
    case InProduction => 1
    case Ready => 2
    case Delivered => 3
    case Withdrawn => 3
  }

  /** An order only moves forward, and never leaves either end. */
  lemma {:induction false} OrderForward(db: Db, ops: seq<Op>, o: nat)
    requires o < |db.orders|
    ensures o < |Run(db, ops).orders|
    ensures var before, after := db.orders[o].status, Run(db, ops).orders[o].status;
            after == before || Stage(after) > Stage(before)
  {
    if ops != [] {
      OrderForward(db, ops[..|ops| - 1], o);
    }
  }

  // ---- money on a confirmed sale ----

  /** Confirmed once: the som total follows the total at the rate of that day. */
  predicate Frozen(sale: Sale)
  {
    sale.status != Draft && sale.totalKgs == ToKgs(sale.total, sale.rate)
  }

  lemma ReturnLowersTotal(sale: Sale, back: map<nat, int>)
    requires SaleOk(sale) && sale.status == Confirmed
    ensures var next := ReturnedSale(sale, back);
            0 <= next.total <= sale.total && next.total == RowsTotal(next.rows)
  {
    var rows, after := sale.rows, RowsAfter(sale.rows, back);
    forall i | 0 <= i < |rows|
      ensures 0 <= RowTotal(after[i]) <= RowTotal(rows[i])
    {
      if Comes(rows[i], i, back) {
        ShrinkNeverRaises(rows[i].value, back[i]);
      }
    }
    SumLe(after, rows, RowTotal, RowTotal);
    SumNonNeg(after, RowTotal);
    if !HasItems(after) {
      NoLiveRows(after, 0);
    }
  }

  /** From a confirmed sale on, no run changes its rate, raises its total, or lets the som total drift off it. */
  lemma {:induction false} FrozenForward(db: Db, ops: seq<Op>, s: nat)
    requires Inv(db) && s < |db.sales| && Frozen(db.sales[s])
    ensures Inv(Run(db, ops)) && s < |Run(db, ops).sales|
    ensures var before, after := db.sales[s], Run(db, ops).sales[s];
            && Frozen(after) && after.rate == before.rate && after.total <= before.total
            && (before.status == Cancelled ==> after == before)
  {
    if ops != [] {
      var mid, op := Run(db, ops[..|ops| - 1]), ops[|ops| - 1];
      FrozenForward(db, ops[..|ops| - 1], s);
      InvKept(mid, op);
      if op.Return? && op.s == s && Succeeds(mid, op) {
        ReturnLowersTotal(mid.sales[s], op.back);
      }
    }
  }

  // ---- what a new order and a new sale are ----

  /** A new order: as asked, nothing made, up to the first line that is refused. */
  lemma CreatedExact(db: Db, client: nat, currency: Currency, due: Option<int>, lines: seq<Wanted>)
    requires lines != []
    ensures var d, n := Apply(db, Create(client, currency, due, lines)), |db.orders|;
            && d.ledger == db.ledger && d.sales == db.sales && |d.orders| == n + 1 && d.orders[..n] == db.orders
            && var o := d.orders[n];
               && o.client == client && o.currency == currency && o.due == due && o.status == New && o.sale.None?
               && |o.lines| <= |lines|
               && (forall i :: 0 <= i < |o.lines| ==>
                     o.lines[i] == OrderLine(lines[i].variant, lines[i].quantity, lines[i].price, 0) && lines[i].quantity > 0)
               && (|o.lines| < |lines| ==> lines[|o.lines|].quantity <= 0)
  {
  }

  /** A new sale: a draft of the buyer with exactly the cart's lines, on no stock. */
  lemma DrawnExact(db: Db, buyer: Option<nat>, currency: Currency, cart: seq<Line>)
    requires CanSell(db, cart)
    ensures var d, n := Apply(db, Draw(buyer, currency, cart)), |db.sales|;
            && d.ledger == db.ledger && d.orders == db.orders && |d.sales| == n + 1 && d.sales[..n] == db.sales
            && var s := d.sales[n];
               && s.client == buyer && s.currency == currency && s.status == Draft && !s.historical && s.confirmedAt.None?
               && |s.rows| == |cart| && forall i :: 0 <= i < |cart| ==> s.rows[i] == Some(cart[i])
  {
  }

  // ---- delivered orders and their sales ----

  /** Delivered exactly with a sale of its client's that has been confirmed. */
  predicate DeliveryOk(db: Db, o: nat)
    requires o < |db.orders|
  {
    var order := db.orders[o];
    && (order.status == Delivered <==> order.sale.Some?)
    && (order.sale.Some? ==>
          && order.sale.value < |db.sales| && db.sales[order.sale.value].client == Some(order.client)
          && db.sales[order.sale.value].status != Draft)
  }

  ghost predicate Delivers(db: Db) { forall o: nat :: o < |db.orders| ==> DeliveryOk(db, o) }

  /** No call takes a sale away, changes whose it is or makes a draft of it again. */
  lemma SalesStand(db: Db, op: Op, s: nat)
    requires s < |db.sales|
    ensures var d := Apply(db, op);
            s < |d.sales| && d.sales[s].client == db.sales[s].client && (db.sales[s].status != Draft ==> d.sales[s].status != Draft)
  {
  }

  lemma OrderDelivers(db: Db, op: Op, o: nat)
    requires Delivers(db) && o < |Apply(db, op).orders|
    ensures DeliveryOk(Apply(db, op), o)
  {
    if o < |db.orders| {
      assert DeliveryOk(db, o);
      if db.orders[o].sale.Some? {
        SalesStand(db, op, db.orders[o].sale.value);
      }
    }
  }

  /** Over every run: an order is delivered exactly when it carries a sale, confirmed for the order's client; cancelling an
      order never gives it one. */
  lemma {:induction false} RunDelivers(ops: seq<Op>)
    ensures Delivers(Run(EMPTY, ops))
  {
    if ops != [] {
      var mid, op := Run(EMPTY, ops[..|ops| - 1]), ops[|ops| - 1];
      RunDelivers(ops[..|ops| - 1]);
      forall o: nat | o < |Apply(mid, op).orders| ensures DeliveryOk(Apply(mid, op), o) {
        OrderDelivers(mid, op, o);
      }
    }
  }
}
