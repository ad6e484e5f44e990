/** What every service does to on-hand and available stock, and when a production order can be handed over. */
module Availability {
  import opened Sums
  import opened Models
  import opened Shop
  import opened Booking

  ghost predicate AllAvailable(db: Db) { forall v: nat :: Available(db, v) >= 0 }

  ghost predicate AllOnHand(db: Db) { forall v: nat :: OnHand(db.ledger, v) >= 0 }

  lemma OrderedNonNeg(order: Order, v: nat)
    requires OrderOk(order)
    ensures Ordered(order.lines, v) >= 0
    ensures forall i :: 0 <= i < |order.lines| && order.lines[i].variant == v ==>
              Ordered(order.lines, v) >= order.lines[i].quantity > 0
  {
    forall i | 0 <= i < |order.lines| ensures OrderedOf(v)(order.lines[i]) >= 0 {}
    SumNonNeg(order.lines, OrderedOf(v));
    forall i | 0 <= i < |order.lines| && order.lines[i].variant == v
      ensures Ordered(order.lines, v) >= order.lines[i].quantity
    {
      assert OrderedOf(v)(order.lines[i]) == order.lines[i].quantity;
    }
  }

  lemma ReservedNonNeg(db: Db, v: nat)
    requires Inv(db)
    ensures Reserved(db.orders, v) >= 0
  {
    forall o | 0 <= o < |db.orders| ensures HeldBy(v)(db.orders[o]) >= 0 {
      OrderedNonNeg(db.orders[o], v);
    }
    SumNonNeg(db.orders, HeldBy(v));
  }

  lemma SaleOfNeeds(order: Order, v: nat)
    ensures Need(SaleOf(order).rows, v) == Ordered(order.lines, v)
  {
    SumSame(SaleOf(order).rows, order.lines, LiveQuantity(v), OrderedOf(v));
  }

  // ---- the change one successful call makes ----

  function OnHandChange(db: Db, op: Op, v: nat): int
    requires Succeeds(db, op)
  {
    match op
    case Book(w, kind, q, _) => if w == v then Signed(kind, q) else 0
    case Recount(w, counted, _) => if w == v then counted - OnHand(db.ledger, v) else 0
    case Confirm(s, historical, _, _, _) => if historical then 0 else -Need(db.sales[s].rows, v)
    case Cancel(s) => if db.sales[s].historical then 0 else Need(db.sales[s].rows, v)
    case Return(s, back) =>
      if db.sales[s].historical then 0 else Need(db.sales[s].rows, v) - Need(RowsAfter(db.sales[s].rows, back), v)
    case Produce(o, i, q, _, _) => if db.orders[o].lines[i].variant == v && q > 0 then q else 0
    case HandOver(o, _, _) => -Ordered(db.orders[o].lines, v)
    case _ => 0
  }

  lemma AppendedQuantity(db: Db, op: Op, v: nat)
    requires Inv(db) && Succeeds(db, op)
    ensures Sum(Appended(db, op), QuantityOf(v)) == OnHandChange(db, op, v)
  {
    if |Appended(db, op)| <= 1 {
      SumShort(Appended(db, op), QuantityOf(v));
    }
    match op
    case Confirm(u, _, _, _, _) => LineMovesEffect(db.sales[u].rows, SaleOut, u, 0, v, 0, 0);
    case Cancel(u) => LineMovesEffect(db.sales[u].rows, ReturnIn, u, 0, v, 0, 0);
    case Return(u, back) => ReturnMovesEffect(db.sales[u].rows, back, u, 0, v, 0, 0);
    case HandOver(o, _, _) =>
      assert OrderOk(db.orders[o]);
      LineMovesEffect(SaleOf(db.orders[o]).rows, SaleOut, |db.sales|, 0, v, 0, 0);
      SaleOfNeeds(db.orders[o], v);
    case _ =>
  }

  lemma OnHandAfter(db: Db, op: Op, v: nat)
    requires Inv(db) && Succeeds(db, op)
    ensures OnHand(Apply(db, op).ledger, v) == OnHand(db.ledger, v) + OnHandChange(db, op, v)
  {
    LedgerGrows(db, op, QuantityOf(v));
    AppendedQuantity(db, op, v);
  }

  function ReservedChange(db: Db, op: Op, v: nat): int
    requires Succeeds(db, op)
  {
    match op
    case Create(_, _, _, lines) => Ordered(Accepted(lines), v)
    case HandOver(o, _, _) => -Ordered(db.orders[o].lines, v)
    case Withdraw(o) => -Ordered(db.orders[o].lines, v)
    case _ => 0
  }

  lemma ReservedAfter(db: Db, op: Op, v: nat)
    requires Succeeds(db, op)
    ensures Reserved(Apply(db, op).orders, v) == Reserved(db.orders, v) + ReservedChange(db, op, v)
  {
    match op
    case Create(client, currency, due, lines) =>
      SumAppend(db.orders, Order(client, currency, New, due, Accepted(lines), None), HeldBy(v));
    case Produce(o, i, q, _, _) => ProducedHolds(db, o, i, q, v);
    case HandOver(o, now, rate) => HandedOverHolds(db, o, now, rate, v);
    case Withdraw(o) => SumUpdate(db.orders, o, Apply(db, op).orders[o], HeldBy(v));
    case _ =>
  }

  lemma ProducedHolds(db: Db, o: nat, i: nat, q: int, v: nat)
    requires o < |db.orders| && i < |db.orders[o].lines|
    ensures Reserved(ProduceEffect(db, o, i, q).orders, v) == Reserved(db.orders, v)
  {
    var order := db.orders[o];
    SumUpdate(order.lines, i, order.lines[i].(produced := order.lines[i].produced + q), OrderedOf(v));
    SumUpdate(db.orders, o, ProducedOrder(order, i, q), HeldBy(v));
  }

  lemma HandedOverHolds(db: Db, o: nat, now: int, rate: Rate, v: nat)
    requires o < |db.orders| && IsOpen(db.orders[o].status)
    ensures Reserved(HandOverEffect(db, o, now, rate).orders, v) == Reserved(db.orders, v) - Ordered(db.orders[o].lines, v)
  {
    var after := HandOverEffect(db, o, now, rate).orders;
    SumUpdate(db.orders, o, after[o], HeldBy(v));
    assert after == db.orders[o := after[o]];
  }

  lemma ReturnBringsBack(rows: seq<Option<Line>>, back: map<nat, int>, v: nat)
    ensures Need(RowsAfter(rows, back), v) <= Need(rows, v)
  {
    SumLe(RowsAfter(rows, back), rows, LiveQuantity(v), LiveQuantity(v));
  }

  lemma NeedNonNeg(rows: seq<Option<Line>>, v: nat)
    requires RowsValid(rows)
    ensures Need(rows, v) >= 0
    ensures Need(rows, v) > 0 ==> exists i :: 0 <= i < |rows| && rows[i].Some? && rows[i].value.variant == v
  {
    SumNonNeg(rows, LiveQuantity(v));
    if forall i :: 0 <= i < |rows| ==> !(rows[i].Some? && rows[i].value.variant == v) {
      SumZero(rows, LiveQuantity(v));
    }
  }

  // ---- available stock stays non-negative exactly under these conditions ----

  /** What a caller can check before the call. Only a booking by hand, a recount and a new order need it. */
  ghost predicate KeepsAvailable(db: Db, op: Op)
    requires Succeeds(db, op)
  {
    match op
    case Book(v, kind, q, _) => Available(db, v) + Signed(kind, q) >= 0
    case Recount(v, counted, _) => counted >= Reserved(db.orders, v)
    case Create(_, _, _, lines) => forall v: nat :: Ordered(Accepted(lines), v) <= Available(db, v)
    case _ => true
  }

  lemma AvailableAfter(db: Db, op: Op, v: nat)
    requires Inv(db) && Succeeds(db, op)
    ensures Available(Apply(db, op), v) == Available(db, v) + OnHandChange(db, op, v) - ReservedChange(db, op, v)
  {
    OnHandAfter(db, op, v);
    ReservedAfter(db, op, v);
  }

  lemma AvailableStays(db: Db, op: Op, v: nat)
    requires Inv(db) && Succeeds(db, op) && AllAvailable(db) && KeepsAvailable(db, op)
    ensures Available(Apply(db, op), v) >= 0
  {
    AvailableAfter(db, op, v);
    assert Available(db, v) >= 0;
    match op
    case Confirm(s, historical, _, _, _) => NeedNonNeg(db.sales[s].rows, v);
    case Cancel(s) => NeedNonNeg(db.sales[s].rows, v);
    case Return(s, back) => ReturnBringsBack(db.sales[s].rows, back, v);
    case Withdraw(o) => OrderedNonNeg(db.orders[o], v);
    case _ =>
  }

  /** Confirm, cancel, return, produce, hand over and withdraw never break it; the others exactly when unguarded. */
  lemma AvailableKeptIff(db: Db, op: Op)
    requires Inv(db) && Succeeds(db, op) && AllAvailable(db)
    ensures AllAvailable(Apply(db, op)) <==> KeepsAvailable(db, op)
  {
    if KeepsAvailable(db, op) {
      forall v: nat ensures Available(Apply(db, op), v) >= 0 { AvailableStays(db, op, v); }
    }
    if AllAvailable(Apply(db, op)) {
      forall v: nat ensures Available(db, v) + OnHandChange(db, op, v) - ReservedChange(db, op, v) >= 0 {
        AvailableAfter(db, op, v);
        assert Available(Apply(db, op), v) >= 0;
      }
      match op
      case Book(v, _, _, _) => assert Available(db, v) + OnHandChange(db, op, v) - ReservedChange(db, op, v) >= 0;
      case Recount(v, _, _) => assert Available(db, v) + OnHandChange(db, op, v) - ReservedChange(db, op, v) >= 0;
      case Create(_, _, _, lines) =>
        forall v: nat ensures Ordered(Accepted(lines), v) <= Available(db, v) {
          assert Available(db, v) + OnHandChange(db, op, v) - ReservedChange(db, op, v) >= 0;
        }
      case _ =>
    }
  }

  ghost predicate GuardedRun(db: Db, ops: seq<Op>)
  {
    ops == [] ||
    (GuardedRun(db, ops[..|ops| - 1]) &&
     var mid, op := Run(db, ops[..|ops| - 1]), ops[|ops| - 1];
     Succeeds(mid, op) && KeepsAvailable(mid, op))
  }

  /** Over every run of successful, guarded calls nothing is ever over-promised. */
  lemma {:induction false} RunAvailable(db: Db, ops: seq<Op>)
    requires Inv(db) && AllAvailable(db) && GuardedRun(db, ops)
    ensures Inv(Run(db, ops)) && AllAvailable(Run(db, ops))
  {
    if ops != [] {
      RunAvailable(db, ops[..|ops| - 1]);
      AvailableKeptIff(Run(db, ops[..|ops| - 1]), ops[|ops| - 1]);
      InvKept(Run(db, ops[..|ops| - 1]), ops[|ops| - 1]);
    }
  }

  // ---- on-hand stock never goes negative ----

  /** Bookings by hand that only add stock, and counts of what is really there. */
  predicate AddsOnly(op: Op)
  {
    && (op.Book? ==> Signed(op.kind, op.q) >= 0)
    && (op.Recount? ==> op.counted >= 0)
  }

  lemma OnHandStays(db: Db, op: Op, v: nat)
    requires Inv(db) && AllOnHand(db) && AddsOnly(op)
    ensures OnHand(Apply(db, op).ledger, v) >= 0
  {
    assert OnHand(db.ledger, v) >= 0;
    if Succeeds(db, op) {
      OnHandAfter(db, op, v);
      ReservedNonNeg(db, v);
      match op
      case Confirm(s, _, _, _, _) => NeedNonNeg(db.sales[s].rows, v);
      case Cancel(s) => NeedNonNeg(db.sales[s].rows, v);
      case Return(s, back) => ReturnBringsBack(db.sales[s].rows, back, v);
      case HandOver(o, _, _) => HandOverLeaves(db, o, v);
      case _ =>
    }
  }

  lemma {:induction false} RunOnHand(ops: seq<Op>)
    requires forall k :: 0 <= k < |ops| ==> AddsOnly(ops[k])
    ensures AllOnHand(Run(EMPTY, ops))
  {
    if ops != [] {
      var mid, op := Run(EMPTY, ops[..|ops| - 1]), ops[|ops| - 1];
      RunOnHand(ops[..|ops| - 1]);
      RunInv(ops[..|ops| - 1]);
      forall v: nat ensures OnHand(Apply(mid, op).ledger, v) >= 0 { OnHandStays(mid, op, v); }
    }
  }

  // ---- handing over ----

  lemma ReleasedStock(db: Db, o: nat, v: nat)
    requires o < |db.orders| && IsOpen(db.orders[o].status)
    ensures Available(Released(db, o), v) == Available(db, v) + Ordered(db.orders[o].lines, v)
    ensures Need(Released(db, o).sales[|db.sales|].rows, v) == Ordered(db.orders[o].lines, v)
  {
    SumUpdate(db.orders, o, db.orders[o].(status := Delivered), HeldBy(v));
    SaleOfNeeds(db.orders[o], v);
  }

  /** Handover goes through exactly when the order is open, has lines, and none of its variants is over-promised. */
  lemma HandOverIff(db: Db, o: nat)
    requires o < |db.orders|
    ensures CanHandOver(db, o) <==>
            && IsOpen(db.orders[o].status) && db.orders[o].lines != []
            && forall i :: 0 <= i < |db.orders[o].lines| ==> Available(db, db.orders[o].lines[i].variant) >= 0
  {
    var lines := db.orders[o].lines;
    if IsOpen(db.orders[o].status) && lines != [] {
      var d := Released(db, o);
      var rows := d.sales[|db.sales|].rows;
      assert rows[0].Some?;
      forall i | 0 <= i < |lines|
        ensures rows[i].Some? && rows[i].value.variant == lines[i].variant
        ensures Available(d, lines[i].variant) - Need(rows, lines[i].variant) == Available(db, lines[i].variant)
      {
        ReleasedStock(db, o, lines[i].variant);
      }
    }
  }

  lemma HandOverLeaves(db: Db, o: nat, v: nat)
    requires Inv(db) && CanHandOver(db, o)
    ensures Ordered(db.orders[o].lines, v) <= Max(OnHand(db.ledger, v), 0)
  {
    var lines := db.orders[o].lines;
    HandOverIff(db, o);
    if exists i :: 0 <= i < |lines| && lines[i].variant == v {
      var i :| 0 <= i < |lines| && lines[i].variant == v;
      assert Available(db, lines[i].variant) >= 0;
      forall p | 0 <= p < |db.orders| ensures HeldBy(v)(db.orders[p]) >= 0 {
        OrderedNonNeg(db.orders[p], v);
      }
      SumNonNeg(db.orders, HeldBy(v));
      assert HeldBy(v)(db.orders[o]) == Ordered(lines, v);
    } else {
      SumZero(lines, OrderedOf(v));
    }
  }

  /** Delivery takes from the shelf what the order had reserved: nobody else's availability moves. */
  lemma HandOverKeepsAvailable(db: Db, o: nat, now: int, rate: Rate, v: nat)
    requires Inv(db) && CanHandOver(db, o)
    ensures Available(Apply(db, HandOver(o, now, rate)), v) == Available(db, v)
  {
    AvailableAfter(db, HandOver(o, now, rate), v);
  }

  predicate AllSucceed(db: Db, ops: seq<Op>)
  {
    ops == [] || (AllSucceed(db, ops[..|ops| - 1]) && Succeeds(Run(db, ops[..|ops| - 1]), ops[|ops| - 1]))
  }

  lemma {:induction false} RunSnoc(db: Db, ops: seq<Op>, op: Op)
    ensures Run(db, ops + [op]) == Apply(Run(db, ops), op)
    ensures AllSucceed(db, ops + [op]) <==> AllSucceed(db, ops) && Succeeds(Run(db, ops), op)
  {
    assert (ops + [op])[..|ops|] == ops;
  }

  function Handed(ops: seq<Op>): (r: seq<nat>)
    requires forall i :: 0 <= i < |ops| ==> ops[i].HandOver?
    ensures |r| == |ops| && forall i :: 0 <= i < |r| ==> r[i] == ops[i].o
  {
    seq(|ops|, i requires 0 <= i < |ops| => ops[i].o)
  }

  /** Nothing is over-promised still, and only these orders have changed. */
  ghost predicate OnlyHanded(db: Db, d: Db, os: seq<nat>)
  {
    && Inv(d) && AllAvailable(d)
    && |d.orders| == |db.orders|
    && (forall o :: 0 <= o < |db.orders| && o !in os ==> d.orders[o] == db.orders[o])
  }

  predicate CanGo(db: Db, o: nat) { o < |db.orders| && IsOpen(db.orders[o].status) && db.orders[o].lines != [] }

  /** Nothing over-promised: any open orders with lines can be handed over, all of them, in any sequence, each at its
      own time and rate. */
  lemma {:induction false} HandOverAll(db: Db, ops: seq<Op>)
    requires Inv(db) && AllAvailable(db)
    requires forall i :: 0 <= i < |ops| ==> ops[i].HandOver? && CanGo(db, ops[i].o)
    requires forall i, j :: 0 <= i < j < |ops| ==> ops[i].o != ops[j].o
    ensures AllSucceed(db, ops) && OnlyHanded(db, Run(db, ops), Handed(ops))
  {
    if ops != [] {
      var n := |ops| - 1;
      HandOverAll(db, ops[..n]);
      LastNew(ops);
      HandOverNext(db, Run(db, ops[..n]), Handed(ops[..n]), ops[n]);
    }
  }

  lemma HandOverNext(db: Db, d: Db, os: seq<nat>, op: Op)
    requires OnlyHanded(db, d, os) && op.HandOver? && CanGo(db, op.o) && op.o !in os
    ensures Succeeds(d, op) && OnlyHanded(db, Apply(d, op), os + [op.o])
  {
    assert d.orders[op.o] == db.orders[op.o];
    HandOverIff(d, op.o);
    AvailableKeptIff(d, op);
    InvKept(d, op);
  }

  lemma LastNew(ops: seq<Op>)
    requires ops != [] && forall i :: 0 <= i < |ops| ==> ops[i].HandOver?
    requires forall i, j :: 0 <= i < j < |ops| ==> ops[i].o != ops[j].o
    ensures var n := |ops| - 1;
            ops[n].o !in Handed(ops[..n]) && Handed(ops) == Handed(ops[..n]) + [ops[n].o]
  {
  }

  // ---- create, produce in full, hand over ----

  function ProduceAll(o: nat, lines: seq<Wanted>, n: nat): seq<Op>
    requires n <= |lines|
  {
    seq(n, i requires 0 <= i < n => Produce(o, i, lines[i].quantity, 0, false))
  }

  lemma {:induction false} RunConcat(db: Db, a: seq<Op>, b: seq<Op>)
    ensures Run(db, a + b) == Run(Run(db, a), b)
    ensures AllSucceed(db, a + b) <==> AllSucceed(db, a) && AllSucceed(Run(db, a), b)
  {
    if b == [] {
      assert a + b == a;
    } else {
      RunConcat(db, a, b[..|b| - 1]);
      assert (a + b)[..|a + b| - 1] == a + b[..|b| - 1];
    }
  }

  lemma {:induction false} AcceptedAll(lines: seq<Wanted>)
    requires CanCreate(lines)
    ensures |Accepted(lines)| == |lines|
  {
  }

  /** The first n lines of order o are made in full, the rest not begun. */
  predicate MadeUpTo(db: Db, o: nat, lines: seq<Wanted>, n: nat)
  {
    && o < |db.orders| && IsOpen(db.orders[o].status) && |db.orders[o].lines| == |lines|
    && (forall i :: 0 <= i < |lines| ==>
          db.orders[o].lines[i] ==
          OrderLine(lines[i].variant, lines[i].quantity, lines[i].price, if i < n then lines[i].quantity else 0))
    && (n < |lines| ==> db.orders[o].status != Ready)
  }

  lemma MakeOne(db: Db, o: nat, lines: seq<Wanted>, n: nat, v: nat)
    requires Inv(db) && CanCreate(lines) && n < |lines| && MadeUpTo(db, o, lines, n)
    ensures var op := Produce(o, n, lines[n].quantity, 0, false);
            && Succeeds(db, op) && MadeUpTo(Apply(db, op), o, lines, n + 1)
            && var gain := if lines[n].variant == v then lines[n].quantity else 0;
               && OnHand(Apply(db, op).ledger, v) == OnHand(db.ledger, v) + gain
               && Available(Apply(db, op), v) == Available(db, v) + gain
  {
    var op := Produce(o, n, lines[n].quantity, 0, false);
    OnHandAfter(db, op, v);
    ReservedAfter(db, op, v);
    if n + 1 < |lines| {
      assert Apply(db, op).orders[o].lines[n + 1].produced < lines[n + 1].quantity;
    }
  }

  /** The first n lines of the order are made and in stock, and nothing else of the variant has moved. */
  ghost predicate MadeSoFar(db: Db, d: Db, o: nat, lines: seq<Wanted>, n: nat, v: nat)
    requires n <= |lines|
  {
    && Inv(d) && MadeUpTo(d, o, lines, n)
    && OnHand(d.ledger, v) == OnHand(db.ledger, v) + Sum(lines[..n], WantedOf(v))
    && Available(d, v) == Available(db, v) + Sum(lines[..n], WantedOf(v))
  }

  lemma MakeNext(db: Db, d: Db, o: nat, lines: seq<Wanted>, n: nat, v: nat)
    requires CanCreate(lines) && n < |lines| && MadeSoFar(db, d, o, lines, n, v)
    ensures var op := Produce(o, n, lines[n].quantity, 0, false);
            Succeeds(d, op) && MadeSoFar(db, Apply(d, op), o, lines, n + 1, v)
  {
    MakeOne(d, o, lines, n, v);
    InvKept(d, Produce(o, n, lines[n].quantity, 0, false));
    SumStep(lines, n, WantedOf(v));
  }

  lemma {:induction false} ProduceLast(db: Db, o: nat, lines: seq<Wanted>, n: nat)
    requires 0 < n <= |lines|
    ensures var ops, op := ProduceAll(o, lines, n - 1), Produce(o, n - 1, lines[n - 1].quantity, 0, false);
            && Run(db, ProduceAll(o, lines, n)) == Apply(Run(db, ops), op)
            && (AllSucceed(db, ProduceAll(o, lines, n)) <==> AllSucceed(db, ops) && Succeeds(Run(db, ops), op))
  {
    var ops, op := ProduceAll(o, lines, n - 1), Produce(o, n - 1, lines[n - 1].quantity, 0, false);
    assert ProduceAll(o, lines, n) == ops + [op];
    RunSnoc(db, ops, op);
  }

  lemma {:induction false} MakeAll(db: Db, o: nat, lines: seq<Wanted>, n: nat, v: nat)
    requires Inv(db) && CanCreate(lines) && n <= |lines| && MadeUpTo(db, o, lines, 0)
    ensures AllSucceed(db, ProduceAll(o, lines, n))
    ensures MadeSoFar(db, Run(db, ProduceAll(o, lines, n)), o, lines, n, v)
  {
    if n > 0 {
      MakeAll(db, o, lines, n - 1, v);
      MakeNext(db, Run(db, ProduceAll(o, lines, n - 1)), o, lines, n - 1, v);
      ProduceLast(db, o, lines, n);
    }
  }

  function WantedOf(v: nat): Wanted -> int
  {
    (w: Wanted) => if w.variant == v then w.quantity else 0
  }

  function Fulfil(o: nat, client: nat, currency: Currency, due: Option<int>, lines: seq<Wanted>, now: int, rate: Rate): seq<Op>
  {
    [Create(client, currency, due, lines)] + ProduceAll(o, lines, |lines|) + [HandOver(o, now, rate)]
  }

  lemma {:induction false} RunOne(db: Db, op: Op)
    ensures Run(db, [op]) == Apply(db, op)
    ensures AllSucceed(db, [op]) <==> Succeeds(db, op)
  {
    assert [op][..0] == [];
    assert Run(db, [op][..0]) == db;
  }

  /** Ordering goods, making all of them and delivering them leaves every shelf and every promise as it was;
      it goes through exactly when none of the ordered variants was over-promised to begin with. */
  lemma {:induction false} FulfilmentRoundTrip(db: Db, client: nat, currency: Currency, due: Option<int>, lines: seq<Wanted>, now: int, rate: Rate)
    requires Inv(db) && CanCreate(lines)
    ensures var ops := Fulfil(|db.orders|, client, currency, due, lines, now, rate);
            && (AllSucceed(db, ops) <==> forall i :: 0 <= i < |lines| ==> Available(db, lines[i].variant) >= 0)
            && (AllSucceed(db, ops) ==>
                  && Run(db, ops).orders[|db.orders|].status == Delivered
                  && forall v: nat :: OnHand(Run(db, ops).ledger, v) == OnHand(db.ledger, v)
                                      && Available(Run(db, ops), v) == Available(db, v))
  {
    var o := |db.orders|;
    var create, make, give := Create(client, currency, due, lines), ProduceAll(o, lines, |lines|), HandOver(o, now, rate);
    RunConcat(db, [create] + make, [give]);
    RunOne(Run(db, [create] + make), give);
    Made(db, create, o, lines);
    Given(db, Run(db, [create] + make), o, lines, give);
  }

  /** After creation and production: everything is on the shelf, nothing has moved in anyone's availability. */
  lemma {:induction false} Made(db: Db, create: Op, o: nat, lines: seq<Wanted>)
    requires Inv(db) && CanCreate(lines) && create.Create? && create.lines == lines && o == |db.orders|
    ensures AllSucceed(db, [create] + ProduceAll(o, lines, |lines|))
    ensures var d := Run(db, [create] + ProduceAll(o, lines, |lines|));
            && Inv(d) && MadeUpTo(d, o, lines, |lines|)
            && forall v: nat :: Available(d, v) == Available(db, v)
                                && OnHand(d.ledger, v) == OnHand(db.ledger, v) + Ordered(d.orders[o].lines, v)
  {
    RunConcat(db, [create], ProduceAll(o, lines, |lines|));
    RunOne(db, create);
    AcceptedAll(lines);
    InvKept(db, create);
    MakeAll(Apply(db, create), o, lines, |lines|, 0);
    forall v: nat
      ensures var d := Run(db, [create] + ProduceAll(o, lines, |lines|));
              Available(d, v) == Available(db, v)
              && OnHand(d.ledger, v) == OnHand(db.ledger, v) + Ordered(d.orders[o].lines, v)
    {
      MadeStock(db, create, o, lines, v);
    }
  }

  lemma Given(db: Db, d: Db, o: nat, lines: seq<Wanted>, give: Op)
    requires Inv(d) && MadeUpTo(d, o, lines, |lines|) && lines != [] && give.HandOver? && give.o == o
    requires forall v: nat :: Available(d, v) == Available(db, v)
                              && OnHand(d.ledger, v) == OnHand(db.ledger, v) + Ordered(d.orders[o].lines, v)
    ensures Succeeds(d, give) <==> forall i :: 0 <= i < |lines| ==> Available(db, lines[i].variant) >= 0
    ensures Succeeds(d, give) ==>
              && Apply(d, give).orders[o].status == Delivered
              && forall v: nat :: OnHand(Apply(d, give).ledger, v) == OnHand(db.ledger, v)
                                  && Available(Apply(d, give), v) == Available(db, v)
  {
    HandOverIff(d, o);
    assert forall i :: 0 <= i < |lines| ==> d.orders[o].lines[i].variant == lines[i].variant;
    if Succeeds(d, give) {
      forall v: nat
        ensures OnHand(Apply(d, give).ledger, v) == OnHand(db.ledger, v)
        ensures Available(Apply(d, give), v) == Available(db, v)
      {
        OnHandAfter(d, give, v);
        HandOverKeepsAvailable(d, o, give.now, give.rate, v);
      }
    }
  }

  lemma MadeStock(db: Db, create: Op, o: nat, lines: seq<Wanted>, v: nat)
    requires Inv(db) && CanCreate(lines) && create.Create? && create.lines == lines && o == |db.orders|
    requires MadeUpTo(Apply(db, create), o, lines, 0) && Inv(Apply(db, create))
    ensures var d := Run(Apply(db, create), ProduceAll(o, lines, |lines|));
            && Available(d, v) == Available(db, v)
            && o < |d.orders|
            && OnHand(d.ledger, v) == OnHand(db.ledger, v) + Ordered(d.orders[o].lines, v)
  {
    AvailableAfter(db, create, v);
    OnHandAfter(db, create, v);
    AcceptedAll(lines);
    MakeAll(Apply(db, create), o, lines, |lines|, v);
    assert lines[..|lines|] == lines;
    SumSame(Accepted(lines), lines, OrderedOf(v), WantedOf(v));
    SumSame(Run(Apply(db, create), ProduceAll(o, lines, |lines|)).orders[o].lines, lines, OrderedOf(v), WantedOf(v));
  }
}
