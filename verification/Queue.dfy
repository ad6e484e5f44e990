/** The production queue and one order's progress, and what they promise about handing over. */
module Queue {
  import opened Sums
  import opened Sorting
  import opened Models
  import opened Shop
  import opened Booking
  import opened Availability

  datatype OpenItem = OpenItem(line: OrderLine, due: Option<int>)

  predicate InQueue(s: OrderStatus) { s == New || s == InProduction }

  function ItemsOf(order: Order): (r: seq<OpenItem>)
    ensures |r| == |order.lines| && forall i :: 0 <= i < |r| ==> r[i] == OpenItem(order.lines[i], order.due)
  {
    seq(|order.lines|, i requires 0 <= i < |order.lines| => OpenItem(order.lines[i], order.due))
  }

  /** The lines of every order not yet ready. */
  function OpenItems(orders: seq<Order>): seq<OpenItem>
  {
    if orders == [] then []
    else
      var n := |orders| - 1;
      OpenItems(orders[..n]) + if InQueue(orders[n].status) then ItemsOf(orders[n]) else []
  }

  function Asked(v: nat): OpenItem -> int
  {
    (it: OpenItem) => if it.line.variant == v then it.line.quantity else 0
  }

  function Made(v: nat): OpenItem -> int
  {
    (it: OpenItem) => if it.line.variant == v then Min(it.line.produced, it.line.quantity) else 0
  }

  function Left(v: nat): OpenItem -> int
  {
    (it: OpenItem) => if it.line.variant == v then Max(it.line.quantity - it.line.produced, 0) else 0
  }

  function DemandOf(v: nat): Order -> int
  {
    (o: Order) => if InQueue(o.status) then Ordered(o.lines, v) else 0
  }

  function ReadyOf(v: nat): Order -> int
  {
    (o: Order) => if o.status == Ready then Ordered(o.lines, v) else 0
  }

  /** Units the queue sees, and units held by orders already ready, which it does not. */
  function Demand(orders: seq<Order>, v: nat): int { Sum(orders, DemandOf(v)) }
  function ReadyHeld(orders: seq<Order>, v: nat): int { Sum(orders, ReadyOf(v)) }

  lemma {:induction false} DemandOfItems(orders: seq<Order>, v: nat)
    ensures Sum(OpenItems(orders), Asked(v)) == Demand(orders, v)
  {
    if orders != [] {
      var n := |orders| - 1;
      DemandOfItems(orders[..n], v);
      if InQueue(orders[n].status) {
        SumConcat(OpenItems(orders[..n]), ItemsOf(orders[n]), Asked(v));
        SumSame(ItemsOf(orders[n]), orders[n].lines, Asked(v), OrderedOf(v));
      } else {
        assert OpenItems(orders) == OpenItems(orders[..n]);
      }
    }
  }

  lemma ReservedSplits(orders: seq<Order>, v: nat)
    ensures Reserved(orders, v) == Demand(orders, v) + ReadyHeld(orders, v)
  {
    SumLinear(orders, HeldBy(v), DemandOf(v), ReadyOf(v), 1);
  }

  datatype Row = Row(
    variant: nat, ordered: int, produced: int, remaining: int, inStock: int, toProduce: int, covered: bool, due: Option<int>)

  predicate Asks(items: seq<OpenItem>, v: nat)
  {
    exists j :: 0 <= j < |items| && items[j].line.variant == v
  }

  predicate Dated(items: seq<OpenItem>, v: nat, j: nat)
  {
    j < |items| && items[j].line.variant == v && items[j].due.Some?
  }

  /** The nearest due date among the variant's lines; None when none of them has one. */
  ghost predicate Nearest(items: seq<OpenItem>, v: nat, due: Option<int>)
  {
    && (due.Some? ==> exists j: nat :: Dated(items, v, j) && items[j].due == due)
    && (forall j: nat :: Dated(items, v, j) ==> due.Some? && due.value <= items[j].due.value)
  }

  ghost predicate RowRight(row: Row, ledger: seq<Movement>, items: seq<OpenItem>)
  {
    var v := row.variant;
    && row.ordered == Sum(items, Asked(v)) && row.produced == Sum(items, Made(v)) && row.remaining == Sum(items, Left(v))
    && row.inStock == OnHand(ledger, v)
    && row.toProduce == Max(row.ordered - row.inStock, 0) && row.covered == (row.toProduce == 0)
    && Nearest(items, v, row.due)
  }

  /** One row per variant with open demand, nearest deadline first and undated rows last. */
  ghost predicate IsQueue(rows: seq<Row>, ledger: seq<Movement>, orders: seq<Order>)
  {
    && (forall i :: 0 <= i < |rows| ==> RowRight(rows[i], ledger, OpenItems(orders)))
    && (forall i, j :: 0 <= i < j < |rows| ==> rows[i].variant != rows[j].variant)
    && (forall i :: 0 <= i < |rows| ==> Asks(OpenItems(orders), rows[i].variant))
    && (forall v: nat :: Asks(OpenItems(orders), v) ==> exists i :: 0 <= i < |rows| && rows[i].variant == v)
    && Sorted(rows, ByDue())
  }

  function ByDue(): (Row, Row) -> bool { (a: Row, b: Row) => DueLe(a.due, b.due) }

  lemma ByDueOrders()
    ensures TotalPreorder(ByDue())
  {
    var le := ByDue();
    forall a: Row, b: Row, c: Row
      ensures le(a, b) || le(b, a)
      ensures le(a, b) && le(b, c) ==> le(a, c)
    {
      DueOrders(a.due, b.due, c.due);
    }
  }

  datatype Bucket = Bucket(ordered: int, produced: int, remaining: int, due: Option<int>)

  function BucketAt(buckets: map<nat, Bucket>, v: nat): Bucket
  {
    if v in buckets then buckets[v] else Bucket(0, 0, 0, None)
  }

  ghost predicate BucketRight(b: Bucket, items: seq<OpenItem>, v: nat)
  {
    && b.ordered == Sum(items, Asked(v)) && b.produced == Sum(items, Made(v)) && b.remaining == Sum(items, Left(v))
    && Nearest(items, v, b.due)
  }

  function Put(b: Bucket, it: OpenItem): Bucket
  {
    Bucket(b.ordered + it.line.quantity, b.produced + Min(it.line.produced, it.line.quantity),
           b.remaining + Max(it.line.quantity - it.line.produced, 0),
           if b.due.None? || (it.due.Some? && it.due.value < b.due.value) then it.due else b.due)
  }

  lemma PutRight(b: Bucket, items: seq<OpenItem>, i: nat, v: nat)
    requires i < |items| && BucketRight(b, items[..i], v)
    ensures BucketRight(if items[i].line.variant == v then Put(b, items[i]) else b, items[..i + 1], v)
  {
    SumStep(items, i, Asked(v));
    SumStep(items, i, Made(v));
    SumStep(items, i, Left(v));
    var next := if items[i].line.variant == v then Put(b, items[i]) else b;
    var seen := items[..i + 1];
    if next.due.Some? {
      if next.due == b.due {
        var j: nat :| Dated(items[..i], v, j) && items[..i][j].due == b.due;
        assert Dated(seen, v, j) && seen[j].due == next.due;
      } else {
        assert Dated(seen, v, i) && seen[i].due == next.due;
      }
    }
    forall j: nat | Dated(seen, v, j)
      ensures next.due.Some? && next.due.value <= seen[j].due.value
    {
      assert j < i ==> Dated(items[..i], v, j);
    }
  }

  /** Grouping the open lines by variant, first seen first. */
  method Group(items: seq<OpenItem>) returns (keys: seq<nat>, buckets: map<nat, Bucket>)
    ensures forall v: nat :: v in buckets <==> Asks(items, v)
    ensures forall v: nat :: v in buckets <==> v in keys
    ensures forall i, j :: 0 <= i < j < |keys| ==> keys[i] != keys[j]
    ensures forall v: nat :: v in buckets ==> BucketRight(buckets[v], items, v)
  {
    keys, buckets := [], map[];
    for i := 0 to |items|
      invariant forall v: nat :: v in buckets <==> Asks(items[..i], v)
      invariant forall v: nat :: v in buckets <==> v in keys
      invariant forall j, k :: 0 <= j < k < |keys| ==> keys[j] != keys[k]
      invariant forall v: nat :: BucketRight(BucketAt(buckets, v), items[..i], v)
    {
      var it := items[i];
      var v := it.line.variant;
      forall w: nat
        ensures Asks(items[..i + 1], w) <==> Asks(items[..i], w) || w == v
        ensures BucketRight(if w == v then Put(BucketAt(buckets, w), it) else BucketAt(buckets, w), items[..i + 1], w)
      {
        PutRight(BucketAt(buckets, w), items, i, w);
        assert items[..i + 1] == items[..i] + [it];
        if Asks(items[..i], w) {
          var j :| 0 <= j < i && items[..i][j].line.variant == w;
          assert items[..i + 1][j] == items[..i][j];
        }
        if w == v {
          assert items[..i + 1][i].line.variant == w;
        }
      }
      if v !in buckets {
        keys := keys + [v];
      }
      buckets := buckets[v := Put(BucketAt(buckets, v), it)];
    }
    assert items[..|items|] == items;
    forall v: nat | v in buckets ensures BucketRight(buckets[v], items, v) {
      assert BucketRight(BucketAt(buckets, v), items[..|items|], v);
    }
  }

  method ProductionQueue(ledger: seq<Movement>, orders: seq<Order>) returns (rows: seq<Row>)
    ensures IsQueue(rows, ledger, orders)
  {
    var items := OpenItems(orders);
    var keys, buckets := Group(items);
    var unsorted: seq<Row> := [];
    for i := 0 to |keys|
      invariant |unsorted| == i
      invariant forall j :: 0 <= j < i ==> unsorted[j].variant == keys[j] && RowRight(unsorted[j], ledger, items)
    {
      var v := keys[i];
      var b := buckets[v];
      var stock := OnHand(ledger, v);
      var need := Max(b.ordered - stock, 0);
      unsorted := unsorted + [Row(v, b.ordered, b.produced, b.remaining, stock, need, need <= 0, b.due)];
    }
    rows := StableSort(unsorted, ByDue());
    ByDueOrders();
    SortSorted(unsorted, ByDue());
    SortedIsQueue(unsorted, rows, keys, ledger, orders);
  }

  /** Every row of a reordering is one of the rows reordered. */
  lemma Origin(from: seq<Row>, to: seq<Row>, i: nat) returns (j: nat)
    requires multiset(to) == multiset(from) && i < |to|
    ensures j < |from| && from[j] == to[i]
  {
    assert to[i] in multiset(from);
    j :| j < |from| && from[j] == to[i];
  }

  lemma {:induction false} SortedIsQueue(unsorted: seq<Row>, rows: seq<Row>, keys: seq<nat>, ledger: seq<Movement>, orders: seq<Order>)
    requires multiset(rows) == multiset(unsorted) && Sorted(rows, ByDue())
    requires |unsorted| == |keys| && forall j :: 0 <= j < |keys| ==> unsorted[j].variant == keys[j]
    requires forall j :: 0 <= j < |unsorted| ==> RowRight(unsorted[j], ledger, OpenItems(orders))
    requires forall i, j :: 0 <= i < j < |keys| ==> keys[i] != keys[j]
    requires forall v: nat :: v in keys <==> Asks(OpenItems(orders), v)
    ensures IsQueue(rows, ledger, orders)
  {
    DistinctPermuted(unsorted, rows);
    forall i | 0 <= i < |rows|
      ensures RowRight(rows[i], ledger, OpenItems(orders)) && Asks(OpenItems(orders), rows[i].variant)
    {
      var j := Origin(unsorted, rows, i);
      assert keys[j] in keys;
    }
    forall i, j | 0 <= i < j < |rows|
      ensures rows[i].variant != rows[j].variant
    {
      var a := Origin(unsorted, rows, i);
      var b := Origin(unsorted, rows, j);
    }
    forall v: nat | Asks(OpenItems(orders), v)
      ensures exists i :: 0 <= i < |rows| && rows[i].variant == v
    {
      var j :| 0 <= j < |keys| && keys[j] == v;
      var i := Origin(rows, unsorted, j);
      assert rows[i].variant == v;
    }
  }

  // ---- taking in what the queue asks for ----

  function TakeIn(rows: seq<Row>): seq<Op>
  {
    if rows == [] then []
    else
      var n := |rows| - 1;
      TakeIn(rows[..n]) + [Book(rows[n].variant, ProductionIn, rows[n].toProduce, false)]
  }

  predicate ForVariant(rows: seq<Row>, v: nat, i: nat) { i < |rows| && rows[i].variant == v }

  lemma {:induction false} TakenIn(db: Db, rows: seq<Row>, v: nat)
    requires Inv(db)
    requires forall i :: 0 <= i < |rows| ==> rows[i].toProduce >= 0
    requires forall i, j :: 0 <= i < j < |rows| ==> rows[i].variant != rows[j].variant
    ensures var d := Run(db, TakeIn(rows));
            && Inv(d) && d.orders == db.orders
            && (forall i: nat :: ForVariant(rows, v, i) ==> OnHand(d.ledger, v) == OnHand(db.ledger, v) + rows[i].toProduce)
            && ((forall i: nat :: !ForVariant(rows, v, i)) ==> OnHand(d.ledger, v) == OnHand(db.ledger, v))
  {
    if rows != [] {
      var n := |rows| - 1;
      TakenIn(db, rows[..n], v);
      var d, op := Run(db, TakeIn(rows[..n])), Book(rows[n].variant, ProductionIn, rows[n].toProduce, false);
      RunSnoc(db, TakeIn(rows[..n]), op);
      InvKept(d, op);
      if rows[n].toProduce > 0 {
        OnHandAfter(d, op, v);
      }
      if exists i: nat :: ForVariant(rows, v, i) {
        var i: nat :| ForVariant(rows, v, i);
        if i < n {
          assert ForVariant(rows[..n], v, i);
        } else {
          assert forall k: nat :: !ForVariant(rows[..n], v, k);
        }
      } else {
        assert forall k: nat :: ForVariant(rows[..n], v, k) ==> ForVariant(rows, v, k);
        assert !ForVariant(rows, v, n);
      }
    }
  }

  /** What the queue leaves of a variant before the ready orders: a listed one is brought up to its demand. */
  function Brought(db: Db, v: nat): int
  {
    if Asks(OpenItems(db.orders), v) then Max(OnHand(db.ledger, v) - Demand(db.orders, v), 0) else OnHand(db.ledger, v)
  }

  lemma {:induction false} QueueCovers(db: Db, rows: seq<Row>, v: nat)
    requires Inv(db) && IsQueue(rows, db.ledger, db.orders)
    ensures Available(Run(db, TakeIn(rows)), v) == Brought(db, v) - ReadyHeld(db.orders, v)
  {
    TakenIn(db, rows, v);
    ReservedSplits(db.orders, v);
    DemandOfItems(db.orders, v);
    var items := OpenItems(db.orders);
    if Asks(items, v) {
      var i :| 0 <= i < |rows| && rows[i].variant == v;
      assert ForVariant(rows, v, i);
    } else {
      SumZero(items, Asked(v));
      assert forall i: nat :: !ForVariant(rows, v, i);
    }
  }

  /** Making what the queue asks for leaves nothing over-promised exactly when what it leaves of each variant covers
      the ready orders, which the queue does not list. */
  lemma {:induction false} QueueSettles(db: Db, rows: seq<Row>)
    requires Inv(db) && IsQueue(rows, db.ledger, db.orders)
    ensures AllAvailable(Run(db, TakeIn(rows))) <==> forall v: nat :: ReadyHeld(db.orders, v) <= Brought(db, v)
  {
    forall v: nat
      ensures Available(Run(db, TakeIn(rows)), v) >= 0 <==> ReadyHeld(db.orders, v) <= Brought(db, v)
    {
      QueueCovers(db, rows, v);
    }
  }

  /** With no ready orders: exactly when no variant the queue does not list is below zero on the shelf. */
  lemma {:induction false} QueueSettlesWithoutReady(db: Db, rows: seq<Row>)
    requires Inv(db) && IsQueue(rows, db.ledger, db.orders)
    requires forall o :: 0 <= o < |db.orders| ==> db.orders[o].status != Ready
    ensures AllAvailable(Run(db, TakeIn(rows))) <==>
            forall v: nat :: !Asks(OpenItems(db.orders), v) ==> OnHand(db.ledger, v) >= 0
  {
    QueueSettles(db, rows);
    forall v: nat ensures ReadyHeld(db.orders, v) == 0 {
      SumZero(db.orders, ReadyOf(v));
    }
    assert forall v: nat :: 0 <= Brought(db, v) <==> Asks(OpenItems(db.orders), v) || OnHand(db.ledger, v) >= 0;
  }

  function BelowZero(): Db { Db([Movement(7, WriteoffOut, -3, NoCause)], [], []) }

  lemma BelowZeroReached()
    ensures Run(EMPTY, [Book(7, WriteoffOut, 3, false)]) == BelowZero()
    ensures Inv(BelowZero())
  {
    RunOne(EMPTY, Book(7, WriteoffOut, 3, false));
    RunInv([Book(7, WriteoffOut, 3, false)]);
  }

  lemma BelowZeroOnHand()
    ensures OnHand(BelowZero().ledger, 7) == -3
  {
    SumAppend([], Movement(7, WriteoffOut, -3, NoCause), QuantityOf(7));
    assert [] + [Movement(7, WriteoffOut, -3, NoCause)] == BelowZero().ledger;
  }

  /** Three units written off an empty shelf: the queue has nothing to ask for, and the variant stays below zero. */
  lemma WriteOffStaysBelowZero()
    ensures Run(EMPTY, [Book(7, WriteoffOut, 3, false)]) == BelowZero()
    ensures IsQueue([], BelowZero().ledger, BelowZero().orders)
    ensures Available(Run(BelowZero(), TakeIn([])), 7) < 0
  {
    BelowZeroReached();
    BelowZeroOnHand();
    QueueCovers(BelowZero(), [], 7);
  }

  // ---- one order's own picture ----

  /** Stock not claimed by any other open order. */
  function FreeFor(db: Db, o: nat, v: nat): int
    requires o < |db.orders|
  {
    Max(OnHand(db.ledger, v) - Reserved(Without(db.orders, o), v), 0)
  }

  predicate Coverable(db: Db, o: nat, i: nat)
    requires o < |db.orders| && i < |db.orders[o].lines|
  {
    FreeFor(db, o, db.orders[o].lines[i].variant) >= db.orders[o].lines[i].quantity
  }

  datatype Progress = Progress(made: int, remaining: int, inStock: int, claimedByOthers: int, free: int, coverable: bool, shortBy: int)

  /** A row of the page: the line's own progress, the stock as it is and as others claim it, and what is missing. */
  predicate ProgressRight(row: Progress, db: Db, o: nat, i: nat)
    requires o < |db.orders| && i < |db.orders[o].lines|
  {
    var line := db.orders[o].lines[i];
    && row.made + row.remaining == line.quantity && row.made == Min(line.produced, line.quantity)
    && row.inStock == OnHand(db.ledger, line.variant)
    && row.claimedByOthers == Reserved(db.orders, line.variant) - HeldBy(line.variant)(db.orders[o])
    && row.free == FreeFor(db, o, line.variant)
    && row.coverable == Coverable(db, o, i)
    && row.shortBy >= 0 && row.free + row.shortBy >= line.quantity && (row.shortBy == 0 || row.free + row.shortBy == line.quantity)
  }

  method OrderLineProgress(db: Db, o: nat) returns (rows: seq<Progress>)
    requires o < |db.orders|
    ensures |rows| == |db.orders[o].lines|
    ensures forall i :: 0 <= i < |rows| ==> ProgressRight(rows[i], db, o, i)
  {
    rows := [];
    var lines := db.orders[o].lines;
    for i := 0 to |lines|
      invariant |rows| == i
      invariant forall j :: 0 <= j < i ==> ProgressRight(rows[j], db, o, j)
    {
      var stock := OnHand(db.ledger, lines[i].variant);
      var claimed := Reserved(Without(db.orders, o), lines[i].variant);
      SumWithout(db.orders, o, HeldBy(lines[i].variant));
      var free := Max(stock - claimed, 0);
      rows := rows + [Progress(Min(lines[i].produced, lines[i].quantity), Max(lines[i].quantity - lines[i].produced, 0),
                               stock, claimed, free, free >= lines[i].quantity, Max(lines[i].quantity - free, 0))];
    }
  }

  predicate Distinct(lines: seq<OrderLine>)
  {
    forall i, j :: 0 <= i < j < |lines| ==> lines[i].variant != lines[j].variant
  }

  lemma {:induction false} OwnQuantity(lines: seq<OrderLine>, i: nat)
    requires i < |lines| && Distinct(lines)
    ensures Ordered(lines, lines[i].variant) == lines[i].quantity
  {
    var v := lines[i].variant;
    SumWithout(lines, i, OrderedOf(v));
    SumZero(Without(lines, i), OrderedOf(v));
  }

  lemma FreeIsOwnPlusAvailable(db: Db, o: nat, v: nat)
    requires o < |db.orders| && IsOpen(db.orders[o].status)
    ensures OnHand(db.ledger, v) - Reserved(Without(db.orders, o), v) == Available(db, v) + Ordered(db.orders[o].lines, v)
  {
    SumWithout(db.orders, o, HeldBy(v));
  }

  /** An order that can be handed over shows every line as coverable. */
  lemma HandOverImpliesCoverable(db: Db, o: nat, i: nat)
    requires Inv(db) && CanHandOver(db, o) && i < |db.orders[o].lines|
    ensures Coverable(db, o, i)
  {
    var line := db.orders[o].lines[i];
    HandOverIff(db, o);
    assert Available(db, line.variant) >= 0;
    FreeIsOwnPlusAvailable(db, o, line.variant);
    OrderedNonNeg(db.orders[o], line.variant);
  }

  /** All the order asks for of the line's variant, on whichever of its lines, fits the stock free for it. */
  predicate VariantFits(db: Db, o: nat, i: nat)
    requires o < |db.orders| && i < |db.orders[o].lines|
  {
    FreeFor(db, o, db.orders[o].lines[i].variant) >= Ordered(db.orders[o].lines, db.orders[o].lines[i].variant)
  }

  lemma VariantFitsIff(db: Db, o: nat, i: nat)
    requires Inv(db) && o < |db.orders| && IsOpen(db.orders[o].status) && i < |db.orders[o].lines|
    ensures VariantFits(db, o, i) <==> Available(db, db.orders[o].lines[i].variant) >= 0
    ensures VariantFits(db, o, i) ==> Coverable(db, o, i)
  {
    var v := db.orders[o].lines[i].variant;
    FreeIsOwnPlusAvailable(db, o, v);
    OrderedNonNeg(db.orders[o], v);
  }

  /** In the page's own figures, an open order can be handed over exactly when each of its variants, summed over its
      lines, fits the stock free for it. */
  lemma HandOverFromPage(db: Db, o: nat)
    requires Inv(db) && o < |db.orders| && IsOpen(db.orders[o].status) && db.orders[o].lines != []
    ensures CanHandOver(db, o) <==> forall i :: 0 <= i < |db.orders[o].lines| ==> VariantFits(db, o, i)
  {
    HandOverIff(db, o);
    forall i | 0 <= i < |db.orders[o].lines|
      ensures VariantFits(db, o, i) <==> Available(db, db.orders[o].lines[i].variant) >= 0
    {
      VariantFitsIff(db, o, i);
    }
  }

  ghost predicate AllCoverable(db: Db, o: nat)
    requires o < |db.orders|
  {
    forall i :: 0 <= i < |db.orders[o].lines| ==> Coverable(db, o, i)
  }

  /** The page says "coverable" on every line of an order that cannot be handed over exactly when every line fits by
      itself and some variant's lines together do not; on every other order it mirrors the handover. */
  lemma PageMisleadsExact(db: Db, o: nat)
    requires Inv(db) && o < |db.orders| && IsOpen(db.orders[o].status) && db.orders[o].lines != []
    ensures (AllCoverable(db, o) <==> CanHandOver(db, o)) <==>
            !(AllCoverable(db, o) && exists i :: 0 <= i < |db.orders[o].lines| && !VariantFits(db, o, i))
  {
    HandOverFromPage(db, o);
    forall i | 0 <= i < |db.orders[o].lines| ensures VariantFits(db, o, i) ==> Coverable(db, o, i) {
      VariantFitsIff(db, o, i);
    }
  }

  /** So it always mirrors an order with no variant on two lines. */
  lemma CoverableMirrorsHandOver(db: Db, o: nat)
    requires Inv(db) && o < |db.orders| && IsOpen(db.orders[o].status) && db.orders[o].lines != []
    requires Distinct(db.orders[o].lines)
    ensures CanHandOver(db, o) <==> AllCoverable(db, o)
  {
    forall i | 0 <= i < |db.orders[o].lines| ensures VariantFits(db, o, i) <==> Coverable(db, o, i) {
      OwnQuantity(db.orders[o].lines, i);
    }
    HandOverFromPage(db, o);
  }

  /** Two lines of six units against ten on the shelf: each is shown as coverable, the order cannot be handed over. */
  lemma RepeatedVariantMisleads()
    ensures var line := OrderLine(7, 6, 100, 0);
            var db := Db([Movement(7, PurchaseIn, 10, NoCause)], [], [Order(1, KGS, New, None, [line, line], None)]);
            Coverable(db, 0, 0) && Coverable(db, 0, 1) && !CanHandOver(db, 0)
  {
    var line := OrderLine(7, 6, 100, 0);
    var order := Order(1, KGS, New, None, [line, line], None);
    var db := Db([Movement(7, PurchaseIn, 10, NoCause)], [], [order]);
    SumAppend([], Movement(7, PurchaseIn, 10, NoCause), QuantityOf(7));
    assert [] + [Movement(7, PurchaseIn, 10, NoCause)] == db.ledger;
    assert Without(db.orders, 0) == [];
    SumAppend([line], line, OrderedOf(7));
    SumAppend([], line, OrderedOf(7));
    assert [] + [line] == [line] && [line] + [line] == order.lines;
    SumAppend([], order, HeldBy(7));
    assert [] + [order] == db.orders;
    HandOverIff(db, 0);
    assert Available(db, order.lines[0].variant) == -2;
  }
}
