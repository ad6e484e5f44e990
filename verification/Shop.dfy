/** Stock, sales and production orders: the state the services share, what each service does to
    it as a function on values, and the services themselves as methods proved against those. */
module Shop {
  import opened Rounding
  import opened Sums
  import opened Models
  import opened Returns

  datatype Db = Db(ledger: seq<Movement>, sales: seq<Sale>, orders: seq<Order>)

  // ---- derived figures ----

  function QuantityOf(v: nat): Movement -> int
  {
    (m: Movement) => if m.variant == v then m.quantity else 0
  }

  function OnHand(ledger: seq<Movement>, v: nat): int { Sum(ledger, QuantityOf(v)) }

  function OrderedOf(v: nat): OrderLine -> int
  {
    (l: OrderLine) => if l.variant == v then l.quantity else 0
  }

  function Ordered(lines: seq<OrderLine>, v: nat): int { Sum(lines, OrderedOf(v)) }

  function HeldBy(v: nat): Order -> int
  {
    (o: Order) => if IsOpen(o.status) then Ordered(o.lines, v) else 0
  }

  /** Units promised to open orders, whether or not they have been made. */
  function Reserved(orders: seq<Order>, v: nat): int { Sum(orders, HeldBy(v)) }

  function Available(db: Db, v: nat): int { OnHand(db.ledger, v) - Reserved(db.orders, v) }

  function BookedFor(s: nat, v: nat): Movement -> int
  {
    (m: Movement) => if m.cause == ForSale(s) && m.variant == v then m.quantity else 0
  }

  function IntakeFor(o: nat, i: nat): Movement -> int
  {
    (m: Movement) => if m.cause == ForOrderLine(o, i) then m.quantity else 0
  }

  // ---- inventory services ----

  /** add_movement normalises the sign from the kind. */
  function Signed(kind: MovementKind, q: int): int
  {
    var a := if q < 0 then -q else q;
    if kind == SaleOut || kind == WriteoffOut then -a else a
  }

  predicate CanBook(kind: MovementKind, q: int, reasonGiven: bool)
  {
    q != 0 && (kind == Adjustment ==> reasonGiven)
  }

  /** A recount books the difference, if there is one. */
  function Counted(ledger: seq<Movement>, v: nat, counted: int): seq<Movement>
  {
    var diff := counted - OnHand(ledger, v);
    if diff == 0 then ledger else ledger + [Movement(v, Adjustment, diff, NoCause)]
  }

  // ---- sale services ----

  predicate CanSell(db: Db, lines: seq<Line>) { forall i :: 0 <= i < |lines| ==> lines[i].Valid() }

  function NewSale(client: Option<nat>, currency: Currency, lines: seq<Line>): Sale
  {
    Sale(client, currency, Draft, seq(|lines|, i requires 0 <= i < |lines| => Some(lines[i])),
         false, RATE_UNIT, 0, 0, None)
  }

  /** Availability is compared per variant, summed over every line. */
  predicate Stocked(db: Db, rows: seq<Option<Line>>)
  {
    forall i :: 0 <= i < |rows| && rows[i].Some? ==>
      Available(db, rows[i].value.variant) >= Need(rows, rows[i].value.variant)
  }

  predicate CanConfirm(db: Db, s: nat, historical: bool, date: Option<int>)
  {
    && (historical ==> date.Some?)
    && s < |db.sales|
    && db.sales[s].status == Draft
    && HasItems(db.sales[s].rows)
    && (historical || Stocked(db, db.sales[s].rows))
  }

  /** One movement per live line. */
  function LineMoves(rows: seq<Option<Line>>, kind: MovementKind, s: nat): seq<Movement>
  {
    if rows == [] then []
    else
      var n := |rows| - 1;
      LineMoves(rows[..n], kind, s) +
      if rows[n].None? then []
      else [Movement(rows[n].value.variant, kind, Signed(kind, rows[n].value.quantity), ForSale(s))]
  }

  function ConfirmedSale(sale: Sale, historical: bool, date: Option<int>, now: int, rate: Rate): Sale
  {
    var total := RowsTotal(sale.rows);
    sale.(status := Confirmed, historical := sale.historical || historical, rate := rate, total := total,
          totalKgs := ToKgs(total, rate), confirmedAt := if historical then date else Some(now))
  }

  function ConfirmEffect(db: Db, s: nat, historical: bool, date: Option<int>, now: int, rate: Rate): Db
    requires s < |db.sales|
  {
    var sale := db.sales[s];
    db.(ledger := db.ledger + if historical then [] else LineMoves(sale.rows, SaleOut, s),
        sales := db.sales[s := ConfirmedSale(sale, historical, date, now, rate)])
  }

  predicate CanCancel(db: Db, s: nat) { s < |db.sales| && db.sales[s].status == Confirmed }

  function CancelEffect(db: Db, s: nat): Db
    requires s < |db.sales|
  {
    var sale := db.sales[s];
    db.(ledger := db.ledger + if sale.historical then [] else LineMoves(sale.rows, ReturnIn, s),
        sales := db.sales[s := sale.(status := Cancelled)])
  }

  predicate ReturnFits(rows: seq<Option<Line>>, back: map<nat, int>)
  {
    forall i :: i in back && back[i] > 0 ==>
      i < |rows| && rows[i].Some? && back[i] <= rows[i].value.quantity
  }

  predicate CanReturn(db: Db, s: nat, back: map<nat, int>)
  {
    && s < |db.sales|
    && db.sales[s].status == Confirmed
    && (exists i :: i in back && back[i] > 0)
    && ReturnFits(db.sales[s].rows, back)
  }

  predicate Comes(row: Option<Line>, i: nat, back: map<nat, int>)
  {
    row.Some? && i in back && 0 < back[i] <= row.value.quantity
  }

  function RowAfter(row: Option<Line>, i: nat, back: map<nat, int>): Option<Line>
  {
    if Comes(row, i, back) then Shrink(row.value, back[i]) else row
  }

  function RowsAfter(rows: seq<Option<Line>>, back: map<nat, int>): (r: seq<Option<Line>>)
    ensures |r| == |rows|
    ensures forall i :: 0 <= i < |rows| ==> r[i] == RowAfter(rows[i], i, back)
  {
    seq(|rows|, i requires 0 <= i < |rows| => RowAfter(rows[i], i, back))
  }

  /** One RETURN_IN per returned line, in line order. */
  function ReturnMoves(rows: seq<Option<Line>>, back: map<nat, int>, s: nat): seq<Movement>
  {
    if rows == [] then []
    else
      var n := |rows| - 1;
      ReturnMoves(rows[..n], back, s) + MoveBack(rows[n], n, back, s)
  }

  function MoveBack(row: Option<Line>, i: nat, back: map<nat, int>, s: nat): seq<Movement>
  {
    if Comes(row, i, back) then [Movement(row.value.variant, ReturnIn, back[i], ForSale(s))] else []
  }

  lemma RowsAfterStep(rows: seq<Option<Line>>, i: nat, back: map<nat, int>)
    requires i < |rows|
    ensures RowsAfter(rows[..i + 1], back) == RowsAfter(rows[..i], back) + [RowAfter(rows[i], i, back)]
  {
  }

  lemma {:induction false} ReturnMovesStep(rows: seq<Option<Line>>, i: nat, back: map<nat, int>, s: nat)
    requires i < |rows|
    ensures ReturnMoves(rows[..i + 1], back, s) ==
            ReturnMoves(rows[..i], back, s) + MoveBack(rows[i], i, back, s)
  {
    assert rows[..i + 1][..i] == rows[..i];
  }

  predicate Agrees(row: Option<Line>, i: nat, back: map<nat, int>, cleaned: map<nat, int>)
  {
    && (i in cleaned <==> Comes(row, i, back))
    && (i in cleaned ==> cleaned[i] == back[i])
  }

  function ReturnedSale(sale: Sale, back: map<nat, int>): Sale
  {
    var rows := RowsAfter(sale.rows, back);
    var total := if HasItems(rows) then RowsTotal(rows) else 0;
    sale.(rows := rows, status := if HasItems(rows) then sale.status else Cancelled,
          total := total, totalKgs := ToKgs(total, sale.rate))
  }

  function ReturnEffect(db: Db, s: nat, back: map<nat, int>): Db
    requires s < |db.sales|
  {
    var sale := db.sales[s];
    db.(ledger := db.ledger + if sale.historical then [] else ReturnMoves(sale.rows, back, s),
        sales := db.sales[s := ReturnedSale(sale, back)])
  }

  // ---- order services ----

  datatype Wanted = Wanted(variant: nat, quantity: int, price: nat)

  /** The lines stored before the first one the quantity constraint refuses: creation is not atomic. */
  function Accepted(lines: seq<Wanted>): (r: seq<OrderLine>)
    ensures |r| <= |lines|
    ensures forall i :: 0 <= i < |r| ==>
              r[i] == OrderLine(lines[i].variant, lines[i].quantity, lines[i].price, 0) && r[i].quantity > 0
    ensures |r| < |lines| ==> lines[|r|].quantity <= 0
  {
    if lines == [] then []
    else
      var n := |lines| - 1;
      var before := Accepted(lines[..n]);
      if |before| < n || lines[n].quantity <= 0 then before
      else before + [OrderLine(lines[n].variant, lines[n].quantity, lines[n].price, 0)]
  }

  predicate CanCreate(lines: seq<Wanted>)
  {
    lines != [] && forall i :: 0 <= i < |lines| ==> lines[i].quantity > 0
  }

  function CreateEffect(db: Db, client: nat, currency: Currency, due: Option<int>, lines: seq<Wanted>): Db
  {
    if lines == [] then db
    else db.(orders := db.orders + [Order(client, currency, New, due, Accepted(lines), None)])
  }

  /** A run with a contractor refuses negative counts; the plain path only looks at their signs together. */
  predicate CanProduce(db: Db, o: nat, i: nat, q: int, defects: int, contractor: bool)
  {
    && (q > 0 || defects > 0)
    && o < |db.orders| && i < |db.orders[o].lines|
    && q <= db.orders[o].lines[i].quantity - db.orders[o].lines[i].produced
    && (contractor ==> q >= 0 && defects >= 0)
    && db.orders[o].lines[i].produced + q >= 0
  }

  function ProducedOrder(order: Order, i: nat, q: int): Order
    requires i < |order.lines|
  {
    var line := order.lines[i];
    var next := order.(lines := order.lines[i := line.(produced := line.produced + q)]);
    if order.status in {New, InProduction} && next.FullyProduced() then next.(status := Ready)
    else if order.status == New then next.(status := InProduction)
    else next
  }

  function ProduceEffect(db: Db, o: nat, i: nat, q: int): Db
    requires o < |db.orders| && i < |db.orders[o].lines|
  {
    var variant := db.orders[o].lines[i].variant;
    db.(ledger := db.ledger + if q > 0 then [Movement(variant, ProductionIn, q, ForOrderLine(o, i))] else [],
        orders := db.orders[o := ProducedOrder(db.orders[o], i, q)])
  }

  function SaleOf(order: Order): Sale
  {
    NewSale(Some(order.client), order.currency,
            seq(|order.lines|, i requires 0 <= i < |order.lines| =>
              Line(order.lines[i].variant, order.lines[i].quantity, order.lines[i].price, NoDiscount, 0)))
  }

  /** The order has left the open statuses and its draft sale stands, just before the confirmation. */
  function Released(db: Db, o: nat): Db
    requires o < |db.orders|
  {
    db.(orders := db.orders[o := db.orders[o].(status := Delivered)], sales := db.sales + [SaleOf(db.orders[o])])
  }

  predicate CanHandOver(db: Db, o: nat)
  {
    && o < |db.orders| && IsOpen(db.orders[o].status) && db.orders[o].lines != []
    && CanConfirm(Released(db, o), |db.sales|, false, None)
  }

  function HandOverEffect(db: Db, o: nat, now: int, rate: Rate): Db
    requires o < |db.orders|
  {
    var d := ConfirmEffect(Released(db, o), |db.sales|, false, None, now, rate);
    d.(orders := d.orders[o := d.orders[o].(sale := Some(|db.sales|))])
  }

  predicate CanWithdraw(db: Db, o: nat) { o < |db.orders| && IsOpen(db.orders[o].status) }

  function WithdrawEffect(db: Db, o: nat): Db
    requires o < |db.orders|
  {
    db.(orders := db.orders[o := db.orders[o].(status := Withdrawn)])
  }

  // ---- one service call ----

  datatype Op =
    | Book(v: nat, kind: MovementKind, q: int, reasonGiven: bool)
    | Recount(v: nat, counted: int, reasonGiven: bool)
    | Draw(buyer: Option<nat>, currency: Currency, cart: seq<Line>)
    | Confirm(s: nat, historical: bool, date: Option<int>, now: int, rate: Rate)
    | Cancel(s: nat)
    | Return(s: nat, back: map<nat, int>)
    | Create(client: nat, currency: Currency, due: Option<int>, lines: seq<Wanted>)
    | Produce(o: nat, i: nat, q: int, defects: int, contractor: bool)
    | HandOver(o: nat, now: int, rate: Rate)
    | Withdraw(o: nat)

  predicate Succeeds(db: Db, op: Op)
  {
    match op
    case Book(v, kind, q, r) => CanBook(kind, q, r)
    case Recount(v, counted, r) => r
    case Draw(_, _, lines) => CanSell(db, lines)
    case Confirm(s, historical, date, _, _) => CanConfirm(db, s, historical, date)
    case Cancel(s) => CanCancel(db, s)
    case Return(s, back) => CanReturn(db, s, back)
    case Create(_, _, _, lines) => CanCreate(lines)
    case Produce(o, i, q, defects, contractor) => CanProduce(db, o, i, q, defects, contractor)
    case HandOver(o, _, _) => CanHandOver(db, o)
    case Withdraw(o) => CanWithdraw(db, o)
  }

  function Apply(db: Db, op: Op): Db
  {
    if op.Create? then CreateEffect(db, op.client, op.currency, op.due, op.lines)
    else if !Succeeds(db, op) then db
    else
      match op
      case Book(v, kind, q, _) => db.(ledger := db.ledger + [Movement(v, kind, Signed(kind, q), NoCause)])
      case Recount(v, counted, _) => db.(ledger := Counted(db.ledger, v, counted))
      case Draw(client, currency, lines) => db.(sales := db.sales + [NewSale(client, currency, lines)])
      case Confirm(s, historical, date, now, rate) => ConfirmEffect(db, s, historical, date, now, rate)
      case Cancel(s) => CancelEffect(db, s)
      case Return(s, back) => ReturnEffect(db, s, back)
      case Produce(o, i, q, _, _) => ProduceEffect(db, o, i, q)
      case HandOver(o, now, rate) => HandOverEffect(db, o, now, rate)
      case Withdraw(o) => WithdrawEffect(db, o)
  }

  function Run(db: Db, ops: seq<Op>): Db
  {
    if ops == [] then db else Apply(Run(db, ops[..|ops| - 1]), ops[|ops| - 1])
  }

  const EMPTY := Db([], [], [])

  // ---- the services ----

  class Services {
    var ledger: seq<Movement>
    var sales: seq<Sale>
    var orders: seq<Order>

    constructor ()
      ensures State() == EMPTY
    {
      ledger, sales, orders := [], [], [];
    }

    function State(): Db
      reads this
    {
      Db(ledger, sales, orders)
    }

    method AddMovement(v: nat, kind: MovementKind, quantity: int, reasonGiven: bool, cause: Cause) returns (ok: bool)
      modifies this`ledger
      ensures ok == CanBook(kind, quantity, reasonGiven)
      ensures ledger == old(ledger) + if ok then [Movement(v, kind, Signed(kind, quantity), cause)] else []
      ensures ok ==> ledger[|ledger| - 1].Valid()
    {
      var qty := if quantity < 0 then -quantity else quantity;
      if kind in {SaleOut, WriteoffOut} {
        qty := -qty;
      }
      if qty == 0 || (kind == Adjustment && !reasonGiven) {
        return false;
      }
      ledger := ledger + [Movement(v, kind, qty, cause)];
      return true;
    }

    method AdjustToCount(v: nat, counted: int, reasonGiven: bool) returns (ok: bool)
      modifies this`ledger
      ensures ok == reasonGiven
      ensures ledger == if ok then Counted(old(ledger), v, counted) else old(ledger)
      ensures ok ==> OnHand(ledger, v) == counted
    {
      if !reasonGiven {
        return false;
      }
      var diff := counted - OnHand(ledger, v);
      if diff != 0 {
        SumAppend(ledger, Movement(v, Adjustment, diff, NoCause), QuantityOf(v));
        ledger := ledger + [Movement(v, Adjustment, diff, NoCause)];
      }
      return true;
    }

    /** The stock check of a confirmation: needed units per variant, then each against what is available. */
    method CheckStock(rows: seq<Option<Line>>) returns (ok: bool)
      ensures ok == Stocked(State(), rows)
    {
      var needed: map<nat, int> := map[];
      for i := 0 to |rows|
        invariant forall v :: v in needed <==> exists j :: 0 <= j < i && rows[j].Some? && rows[j].value.variant == v
        invariant forall v :: v in needed ==> needed[v] == Need(rows[..i], v)
        invariant forall v :: v !in needed ==> Need(rows[..i], v) == 0
      {
        forall v: nat
          ensures Need(rows[..i + 1], v) == Need(rows[..i], v) + LiveQuantity(v)(rows[i])
        {
          SumStep(rows, i, LiveQuantity(v));
        }
        if rows[i].Some? {
          var v := rows[i].value.variant;
          needed := needed[v := (if v in needed then needed[v] else 0) + rows[i].value.quantity];
        }
      }
      assert rows[..|rows|] == rows;
      var todo := needed.Keys;
      while todo != {}
        invariant todo <= needed.Keys
        invariant forall v :: v in needed.Keys - todo ==> Available(State(), v) >= needed[v]
      {
        var v :| v in todo;
        if OnHand(ledger, v) - Reserved(orders, v) < needed[v] {
          return false;
        }
        todo := todo - {v};
      }
      return true;
    }

    method WriteLineMoves(s: nat, rows: seq<Option<Line>>, kind: MovementKind)
      requires kind in {SaleOut, ReturnIn}
      requires RowsValid(rows)
      modifies this`ledger
      ensures ledger == old(ledger) + LineMoves(rows, kind, s)
    {
      for i := 0 to |rows|
        invariant ledger == old(ledger) + LineMoves(rows[..i], kind, s)
      {
        assert rows[..i + 1][..i] == rows[..i];
        if rows[i].Some? {
          var _ := AddMovement(rows[i].value.variant, kind, rows[i].value.quantity, false, ForSale(s));
        }
      }
      assert rows[..|rows|] == rows;
    }

    method ConfirmSale(s: nat, historical: bool, date: Option<int>, now: int, rate: Rate) returns (ok: bool)
      requires s < |sales| ==> RowsValid(sales[s].rows)
      modifies this
      ensures ok == CanConfirm(old(State()), s, historical, date)
      ensures State() == if ok then ConfirmEffect(old(State()), s, historical, date, now, rate) else old(State())
    {
      if historical && date.None? {
        return false;
      }
      if s >= |sales| || sales[s].status != Draft {
        return false;
      }
      var rows := sales[s].rows;
      if !HasItems(rows) {
        return false;
      }
      if !historical {
        var stocked := CheckStock(rows);
        if !stocked {
          return false;
        }
      }
      var total := 0;
      for i := 0 to |rows|
        invariant total == Sum(rows[..i], RowTotal)
        invariant State() == old(State())
      {
        SumStep(rows, i, RowTotal);
        total := total + RowTotal(rows[i]);
      }
      assert rows[..|rows|] == rows;
      if !historical {
        WriteLineMoves(s, rows, SaleOut);
      }
      var sale := sales[s];
      sale := sale.(total := total, rate := rate, totalKgs := RoundUp(total * rate, RATE_UNIT), status := Confirmed);
      if historical {
        sale := sale.(historical := true, confirmedAt := date);
      } else {
        sale := sale.(confirmedAt := Some(now));
      }
      sales := sales[s := sale];
      return true;
    }

    method CancelSale(s: nat) returns (ok: bool)
      requires s < |sales| ==> RowsValid(sales[s].rows)
      modifies this
      ensures ok == CanCancel(old(State()), s)
      ensures State() == if ok then CancelEffect(old(State()), s) else old(State())
    {
      if s >= |sales| || sales[s].status != Confirmed {
        return false;
      }
      if !sales[s].historical {
        WriteLineMoves(s, sales[s].rows, ReturnIn);
      }
      sales := sales[s := sales[s].(status := Cancelled)];
      return true;
    }

    method CheckReturns(rows: seq<Option<Line>>, cleaned: map<nat, int>) returns (ok: bool)
      ensures ok <==> forall i :: i in cleaned ==>
                i < |rows| && rows[i].Some? && cleaned[i] <= rows[i].value.quantity
    {
      var todo := cleaned.Keys;
      while todo != {}
        invariant todo <= cleaned.Keys
        invariant forall i :: i in cleaned.Keys - todo ==>
                    i < |rows| && rows[i].Some? && cleaned[i] <= rows[i].value.quantity
      {
        var i :| i in todo;
        if i >= |rows| || rows[i].None? || cleaned[i] > rows[i].value.quantity {
          return false;
        }
        todo := todo - {i};
      }
      return true;
    }

    /** Books the units of one row that come back, unless the sale never took any, and shrinks the line. */
    method TakeBack(s: nat, sale: Sale, i: nat, ghost back: map<nat, int>, cleaned: map<nat, int>) returns (row: Option<Line>)
      requires i < |sale.rows| && Agrees(sale.rows[i], i, back, cleaned)
      modifies this`ledger
      ensures row == RowAfter(sale.rows[i], i, back)
      ensures ledger == old(ledger) + if sale.historical then [] else MoveBack(sale.rows[i], i, back, s)
    {
      row := sale.rows[i];
      if i in cleaned {
        var line, qty := row.value, cleaned[i];
        if !sale.historical {
          var _ := AddMovement(line.variant, ReturnIn, qty, false, ForSale(s));
        }
        row := Shrink(line, qty);
      }
    }

    method ShrinkRows(s: nat, sale: Sale, ghost back: map<nat, int>, cleaned: map<nat, int>) returns (rows: seq<Option<Line>>)
      requires forall i :: 0 <= i < |sale.rows| ==> Agrees(sale.rows[i], i, back, cleaned)
      modifies this`ledger
      ensures rows == RowsAfter(sale.rows, back)
      ensures ledger == old(ledger) + if sale.historical then [] else ReturnMoves(sale.rows, back, s)
    {
      rows := [];
      ghost var before: seq<Movement>, moves: seq<Movement> := ledger, [];
      for i := 0 to |sale.rows|
        invariant rows == RowsAfter(sale.rows[..i], back)
        invariant ledger == before + moves
        invariant moves == if sale.historical then [] else ReturnMoves(sale.rows[..i], back, s)
      {
        ReturnMovesStep(sale.rows, i, back, s);
        ghost var more := if sale.historical then [] else MoveBack(sale.rows[i], i, back, s);
        assert (before + moves) + more == before + (moves + more);
        moves := moves + more;
        RowsAfterStep(sale.rows, i, back);
        var row := TakeBack(s, sale, i, back, cleaned);
        rows := rows + [row];
      }
      assert sale.rows[..|sale.rows|] == sale.rows;
    }

    method ReturnItems(s: nat, back: map<nat, int>) returns (ok: bool)
      modifies this
      ensures ok == CanReturn(old(State()), s, back)
      ensures State() == if ok then ReturnEffect(old(State()), s, back) else old(State())
    {
      if s >= |sales| || sales[s].status != Confirmed {
        return false;
      }
      var cleaned := map i | i in back && back[i] > 0 :: back[i];
      if cleaned.Keys == {} {
        assert forall i :: i in back && back[i] > 0 ==> i in cleaned.Keys;
        return false;
      }
      assert exists i :: i in cleaned;
      var sale := sales[s];
      var fits := CheckReturns(sale.rows, cleaned);
      assert forall i :: i in cleaned <==> i in back && back[i] > 0;
      assert fits <==> ReturnFits(sale.rows, back);
      if !fits {
        return false;
      }
      assert forall i :: 0 <= i < |sale.rows| ==> Agrees(sale.rows[i], i, back, cleaned);
      var rows := ShrinkRows(s, sale, back, cleaned);
      var total, status := 0, Cancelled;
      if HasItems(rows) {
        total, status := RowsTotal(rows), sale.status;
      }
      sales := sales[s := sale.(rows := rows, total := total, status := status,
                                totalKgs := RoundUp(total * sale.rate, RATE_UNIT))];
      return true;
    }

    method CreateOrder(client: nat, currency: Currency, due: Option<int>, lines: seq<Wanted>) returns (ok: bool)
      modifies this
      ensures ok == CanCreate(lines)
      ensures State() == CreateEffect(old(State()), client, currency, due, lines)
    {
      if lines == [] {
        return false;
      }
      var o := |orders|;
      orders := orders + [Order(client, currency, New, due, [], None)];
      for i := 0 to |lines|
        invariant ledger == old(ledger) && sales == old(sales)
        invariant i <= |Accepted(lines)|
        invariant orders == old(orders) + [Order(client, currency, New, due, Accepted(lines)[..i], None)]
      {
        if lines[i].quantity <= 0 {
          assert Accepted(lines)[..i] == Accepted(lines);
          return false;
        }
        var line := OrderLine(lines[i].variant, lines[i].quantity, lines[i].price, 0);
        assert Accepted(lines)[..i] + [line] == Accepted(lines)[..i + 1];
        orders := orders[o := orders[o].(lines := orders[o].lines + [line])];
      }
      assert Accepted(lines)[..|lines|] == Accepted(lines);
      return true;
    }

    method MarkProduced(o: nat, i: nat, quantity: int, defects: int, contractor: bool) returns (ok: bool)
      modifies this
      ensures ok == CanProduce(old(State()), o, i, quantity, defects, contractor)
      ensures State() == if ok then ProduceEffect(old(State()), o, i, quantity) else old(State())
    {
      if quantity <= 0 && defects <= 0 {
        return false;
      }
      if o >= |orders| || i >= |orders[o].lines| {
        return false;
      }
      var line := orders[o].lines[i];
      if quantity > line.quantity - line.produced {
        return false;
      }
      if contractor && (quantity < 0 || defects < 0) {
        return false;
      }
      if line.produced + quantity < 0 {
        return false;
      }
      if quantity > 0 {
        var _ := AddMovement(line.variant, ProductionIn, quantity, false, ForOrderLine(o, i));
      }
      orders := orders[o := orders[o].(lines := orders[o].lines[i := line.(produced := line.produced + quantity)])];
      if orders[o].status in {New, InProduction} && orders[o].FullyProduced() {
        orders := orders[o := orders[o].(status := Ready)];
      } else if orders[o].status == New {
        orders := orders[o := orders[o].(status := InProduction)];
      }
      return true;
    }

    method HandOverOrder(o: nat, now: int, rate: Rate) returns (ok: bool)
      requires o < |orders| ==> forall i :: 0 <= i < |orders[o].lines| ==> orders[o].lines[i].quantity > 0
      modifies this
      ensures ok == CanHandOver(old(State()), o)
      ensures State() == if ok then HandOverEffect(old(State()), o, now, rate) else old(State())
    {
      if o >= |orders| || !IsOpen(orders[o].status) {
        return false;
      }
      var lines := orders[o].lines;
      if lines == [] {
        return false;
      }
      var savedSales, savedOrders := sales, orders;
      orders := orders[o := orders[o].(status := Delivered)];
      var s, rows := |sales|, [];
      for i := 0 to |lines|
        invariant |rows| == i
        invariant forall j :: 0 <= j < i ==>
                    rows[j] == Some(Line(lines[j].variant, lines[j].quantity, lines[j].price, NoDiscount, 0))
      {
        rows := rows + [Some(Line(lines[i].variant, lines[i].quantity, lines[i].price, NoDiscount, 0))];
      }
      sales := sales + [Sale(Some(orders[o].client), orders[o].currency, Draft, rows, false, RATE_UNIT, 0, 0, None)];
      assert rows == SaleOf(old(orders)[o]).rows;
      assert State() == Released(old(State()), o);
      ok := ConfirmSale(s, false, None, now, rate);
      if !ok {
        sales, orders := savedSales, savedOrders;
        return false;
      }
      orders := orders[o := orders[o].(sale := Some(s))];
      return true;
    }

    method CancelOrder(o: nat) returns (ok: bool)
      modifies this
      ensures ok == CanWithdraw(old(State()), o)
      ensures State() == if ok then WithdrawEffect(old(State()), o) else old(State())
    {
      if o >= |orders| || orders[o].status in {Delivered, Withdrawn} {
        return false;
      }
      orders := orders[o := orders[o].(status := Withdrawn)];
      return true;
    }
  }
}
