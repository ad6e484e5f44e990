/** Confirmations, cancellations and recounts as transactions that interleave step by step.
    A row lock is held until the transaction ends; a read sees only what others have committed;
    a transaction's own writes become visible together, when it commits. */
module Race {
  import opened Sums
  import opened Models
  import opened Shop
  import opened Booking
  import opened Availability

  /** `sold` remembers the lines whose SALE_OUT set was written for the sale. */
  datatype SaleRow = SaleRow(status: SaleStatus, historical: bool, rows: seq<Option<Line>>, sold: Option<seq<Option<Line>>>)

  datatype Step = Begin | OrderLocked | ItemsRead | StockRead | Passed | Done

  datatype Job =
    | Confirming(sale: nat, historical: bool, rows: seq<Option<Line>>, stock: map<nat, int>)
    | Cancelling(sale: nat, rows: seq<Option<Line>>)
    | Recounting(variant: nat, counted: int, read: int)

  datatype Tx = Tx(step: Step, job: Job)

  datatype World = World(
    ledger: seq<Movement>, sales: seq<SaleRow>, txs: seq<Tx>, orderLocks: map<nat, nat>, variantLocks: map<nat, nat>)

  datatype Event =
    | DraftSale(rows: seq<Option<Line>>)
    | EditDraft(s: nat, rows: seq<Option<Line>>)
    | AddStock(m: Movement)
    | Start(job: Job)
    | LockOrder(t: nat)
    | ReadItems(t: nat)
    | LockVariant(t: nat, v: nat)
    | ReadStock(t: nat)
    | Check(t: nat, reserved: map<nat, nat>)
    | Commit(t: nat)
    | Abort(t: nat)

  predicate Variant(rows: seq<Option<Line>>, v: nat)
  {
    exists i :: 0 <= i < |rows| && rows[i].Some? && rows[i].value.variant == v
  }

  function Variants(rows: seq<Option<Line>>): (r: set<nat>)
    ensures forall v: nat :: v in r <==> Variant(rows, v)
  {
    set i | 0 <= i < |rows| && rows[i].Some? :: rows[i].value.variant
  }

  predicate HoldsOrder(w: World, t: nat, s: nat) { s in w.orderLocks && w.orderLocks[s] == t }
  predicate HoldsVariant(w: World, t: nat, v: nat) { v in w.variantLocks && w.variantLocks[v] == t }

  function Promised(reserved: map<nat, nat>, v: nat): nat { if v in reserved then reserved[v] else 0 }

  predicate Enabled(w: World, e: Event)
  {
    match e
    case DraftSale(rows) => RowsValid(rows)
    case EditDraft(s, rows) => s < |w.sales| && w.sales[s].status == Draft && RowsValid(rows)
    case AddStock(m) => m.quantity > 0 && m.kind != SaleOut
    case Start(job) => job.Recounting? ==> job.counted >= 0
    case LockOrder(t) =>
      t < |w.txs| && w.txs[t].step == Begin && !w.txs[t].job.Recounting? && w.txs[t].job.sale < |w.sales| &&
      w.txs[t].job.sale !in w.orderLocks
    case ReadItems(t) =>
      t < |w.txs| && w.txs[t].step == OrderLocked && !w.txs[t].job.Recounting? && w.txs[t].job.sale < |w.sales|
    case LockVariant(t, v) =>
      t < |w.txs| && v !in w.variantLocks &&
      (match w.txs[t].job
       case Confirming(_, historical, rows, _) => !historical && w.txs[t].step == ItemsRead && Variant(rows, v)
       case Cancelling(_, _) => false
       case Recounting(u, _, _) => w.txs[t].step == Begin && u == v)
    case ReadStock(t) =>
      t < |w.txs| &&
      (match w.txs[t].job
       case Confirming(_, historical, rows, _) =>
         !historical && w.txs[t].step == ItemsRead && forall v :: v in Variants(rows) ==> HoldsVariant(w, t, v)
       case Cancelling(_, _) => false
       case Recounting(_, _, _) => w.txs[t].step == OrderLocked)
    case Check(t, _) => t < |w.txs| && w.txs[t].step == StockRead && w.txs[t].job.Confirming?
    case Commit(t) =>
      t < |w.txs| &&
      (match w.txs[t].job
       case Confirming(s, historical, _, _) => s < |w.sales| && w.txs[t].step == (if historical then ItemsRead else Passed)
       case Cancelling(s, _) => s < |w.sales| && w.txs[t].step == ItemsRead
       case Recounting(_, _, _) => w.txs[t].step == StockRead)
    case Abort(t) => t < |w.txs| && w.txs[t].step != Done
  }

  /** The end of a transaction gives every lock it holds back. */
  function Released(w: World, t: nat): World
    requires t < |w.txs|
  {
    w.(txs := w.txs[t := w.txs[t].(step := Done)],
       orderLocks := map s | s in w.orderLocks && w.orderLocks[s] != t :: w.orderLocks[s],
       variantLocks := map v | v in w.variantLocks && w.variantLocks[v] != t :: w.variantLocks[v])
  }

  function SetTx(w: World, t: nat, step: Step, job: Job): World
    requires t < |w.txs|
  {
    w.(txs := w.txs[t := Tx(step, job)])
  }

  function Committed(w: World, t: nat): World
    requires Enabled(w, Commit(t))
  {
    match w.txs[t].job
    case Confirming(s, historical, rows, _) =>
      w.(ledger := w.ledger + if historical then [] else LineMoves(rows, SaleOut, s),
         sales := w.sales[s := w.sales[s].(status := Confirmed, historical := historical,
                                           sold := if historical then w.sales[s].sold else Some(rows))])
    case Cancelling(s, rows) =>
      w.(ledger := w.ledger + if w.sales[s].historical then [] else LineMoves(rows, ReturnIn, s),
         sales := w.sales[s := w.sales[s].(status := Cancelled)])
    case Recounting(v, counted, read) =>
      if counted == read then w else w.(ledger := w.ledger + [Movement(v, Adjustment, counted - read, NoCause)])
  }

  function AfterLockOrder(w: World, t: nat): World
    requires Enabled(w, LockOrder(t))
  {
    var job := w.txs[t].job;
    if w.sales[job.sale].status == (if job.Confirming? then Draft else Confirmed)
    then SetTx(w, t, OrderLocked, job).(orderLocks := w.orderLocks[job.sale := t])
    else Released(w, t)
  }

  function AfterReadItems(w: World, t: nat): World
    requires Enabled(w, ReadItems(t))
  {
    match w.txs[t].job
    case Confirming(s, historical, _, stock) =>
      if HasItems(w.sales[s].rows) then SetTx(w, t, ItemsRead, Confirming(s, historical, w.sales[s].rows, stock))
      else Released(w, t)
    case Cancelling(s, _) => SetTx(w, t, ItemsRead, Cancelling(s, w.sales[s].rows))
  }

  function AfterLockVariant(w: World, t: nat, v: nat): World
    requires Enabled(w, LockVariant(t, v))
  {
    SetTx(w, t, if w.txs[t].job.Recounting? then OrderLocked else ItemsRead, w.txs[t].job).
      (variantLocks := w.variantLocks[v := t])
  }

  function AfterReadStock(w: World, t: nat): World
    requires Enabled(w, ReadStock(t))
  {
    match w.txs[t].job
    case Confirming(s, historical, rows, _) =>
      SetTx(w, t, StockRead, Confirming(s, historical, rows, map v | v in Variants(rows) :: OnHand(w.ledger, v)))
    case Recounting(v, counted, _) => SetTx(w, t, StockRead, Recounting(v, counted, OnHand(w.ledger, v)))
  }

  function AfterCheck(w: World, t: nat, reserved: map<nat, nat>): World
    requires Enabled(w, Check(t, reserved))
  {
    var job := w.txs[t].job;
    if forall v :: v in Variants(job.rows) ==> v in job.stock && job.stock[v] - Promised(reserved, v) >= Need(job.rows, v)
    then SetTx(w, t, Passed, job) else Released(w, t)
  }

  function Next(w: World, e: Event): World
    requires Enabled(w, e)
  {
    match e
    case DraftSale(rows) => w.(sales := w.sales + [SaleRow(Draft, false, rows, None)])
    case EditDraft(s, rows) => w.(sales := w.sales[s := w.sales[s].(rows := rows)])
    case AddStock(m) => w.(ledger := w.ledger + [m])
    case Start(job) => w.(txs := w.txs + [Tx(Begin, job)])
    case LockOrder(t) => AfterLockOrder(w, t)
    case ReadItems(t) => AfterReadItems(w, t)
    case LockVariant(t, v) => AfterLockVariant(w, t, v)
    case ReadStock(t) => AfterReadStock(w, t)
    case Check(t, reserved) => AfterCheck(w, t, reserved)
    case Commit(t) => Released(Committed(w, t), t)
    case Abort(t) => Released(w, t)
  }

  /** The world after a history of events; None when one of them was not possible where it stands. */
  function Play(w: World, es: seq<Event>): Option<World>
  {
    if es == [] then Some(w)
    else
      var n := |es| - 1;
      var before := Play(w, es[..n]);
      if before.Some? && Enabled(before.value, es[n]) then Some(Next(before.value, es[n])) else None
  }

  const START := World([], [], [], map[], map[])

  // ---- what every interleaving keeps ----

  ghost predicate TxOk(w: World, t: nat)
    requires t < |w.txs|
  {
    var step := w.txs[t].step;
    match w.txs[t].job
    case Confirming(s, historical, rows, stock) =>
      && (step != Begin && step != Done ==>
            s < |w.sales| && HoldsOrder(w, t, s) && w.sales[s].status == Draft)
      && (step == ItemsRead || step == StockRead || step == Passed ==> RowsValid(rows))
      && (step == StockRead || step == Passed ==>
            !historical && forall v: nat :: Variant(rows, v) ==>
              HoldsVariant(w, t, v) && v in stock && stock[v] <= OnHand(w.ledger, v))
      && (step == Passed ==> forall v: nat :: Variant(rows, v) ==> v in stock && Need(rows, v) <= stock[v])
    case Cancelling(s, rows) =>
      && (step != Begin && step != Done ==>
            s < |w.sales| && HoldsOrder(w, t, s) && w.sales[s].status == Confirmed)
      && (step == ItemsRead ==> RowsValid(rows))
    case Recounting(v, counted, read) =>
      && counted >= 0
      && (step != Begin && step != Done ==> HoldsVariant(w, t, v))
      && (step == StockRead ==> read <= OnHand(w.ledger, v))
  }

  function SoldFor(s: nat, v: nat): Movement -> int
  {
    (m: Movement) => if m.kind == SaleOut && m.cause == ForSale(s) && m.variant == v then m.quantity else 0
  }

  /** SALE_OUT units of a sale in the ledger: one set's worth if the set was written, none otherwise. */
  predicate SoldOnce(w: World, s: nat, v: nat)
  {
    Sum(w.ledger, SoldFor(s, v)) ==
    if s < |w.sales| && w.sales[s].sold.Some? then -Need(w.sales[s].sold.value, v) else 0
  }

  predicate SaleRowOk(sale: SaleRow)
  {
    && RowsValid(sale.rows)
    && (sale.sold.Some? ==> RowsValid(sale.sold.value) && sale.status != Draft)
    && (sale.status == Draft ==> !sale.historical)
    && (sale.status != Draft ==> (sale.sold.Some? <==> !sale.historical))
  }

  ghost predicate Good(w: World)
  {
    && (forall v: nat :: OnHand(w.ledger, v) >= 0)
    && (forall t :: 0 <= t < |w.txs| ==> TxOk(w, t))
    && (forall s :: 0 <= s < |w.sales| ==> SaleRowOk(w.sales[s]))
    && (forall s: nat, v: nat :: SoldOnce(w, s, v))
    && (forall s :: s in w.orderLocks ==> w.orderLocks[s] < |w.txs|)
    && (forall v :: v in w.variantLocks ==> w.variantLocks[v] < |w.txs|)
  }

  // ---- commits ----

  /** What a commit of t adds to a variant's on-hand. */
  function CommitEffect(w: World, t: nat, v: nat): int
    requires Enabled(w, Commit(t))
  {
    match w.txs[t].job
    case Confirming(_, historical, rows, _) => if historical then 0 else -Need(rows, v)
    case Cancelling(s, rows) => if w.sales[s].historical then 0 else Need(rows, v)
    case Recounting(u, counted, read) => if u == v then counted - read else 0
  }

  lemma {:induction false} MovesOnHand(ledger: seq<Movement>, rows: seq<Option<Line>>, kind: MovementKind, s: nat, v: nat)
    requires RowsValid(rows) && kind in {SaleOut, ReturnIn}
    ensures OnHand(ledger + LineMoves(rows, kind, s), v) ==
            OnHand(ledger, v) + if kind == SaleOut then -Need(rows, v) else Need(rows, v)
  {
    LineMovesEffect(rows, kind, s, s, v, 0, 0);
    SumConcat(ledger, LineMoves(rows, kind, s), QuantityOf(v));
  }

  lemma CommittedOnHand(w: World, t: nat, v: nat)
    requires Enabled(w, Commit(t)) && TxOk(w, t)
    ensures OnHand(Committed(w, t).ledger, v) == OnHand(w.ledger, v) + CommitEffect(w, t, v)
  {
    assert w.ledger + [] == w.ledger;
    match w.txs[t].job
    case Confirming(s, historical, rows, _) => MovesOnHand(w.ledger, rows, SaleOut, s, v);
    case Cancelling(s, rows) => MovesOnHand(w.ledger, rows, ReturnIn, s, v);
    case Recounting(u, counted, read) =>
      SumAppend(w.ledger, Movement(u, Adjustment, counted - read, NoCause), QuantityOf(v));
  }

  /** What a commit of t does to on-hand: it lowers only variants t has locked, and never below zero. */
  lemma CommitStock(w: World, t: nat, v: nat)
    requires Good(w) && Enabled(w, Commit(t))
    ensures OnHand(Committed(w, t).ledger, v) >= 0
    ensures !HoldsVariant(w, t, v) ==> OnHand(Committed(w, t).ledger, v) >= OnHand(w.ledger, v)
  {
    assert TxOk(w, t) && OnHand(w.ledger, v) >= 0;
    CommittedOnHand(w, t, v);
    match w.txs[t].job
    case Confirming(_, _, rows, _) => NeedNonNeg(rows, v); assert Need(rows, v) > 0 ==> Variant(rows, v);
    case Cancelling(_, rows) => NeedNonNeg(rows, v);
    case _ =>
  }

  lemma CommitSold(w: World, t: nat, s: nat, v: nat)
    requires Good(w) && Enabled(w, Commit(t))
    ensures SoldOnce(Committed(w, t), s, v)
  {
    assert TxOk(w, t) && SoldOnce(w, s, v);
    match w.txs[t].job
    case Confirming(u, historical, rows, _) =>
      var moves := if historical then [] else LineMoves(rows, SaleOut, u);
      SumConcat(w.ledger, moves, SoldFor(s, v));
      if !historical {
        LineMovesSum(rows, SaleOut, u, SoldFor(s, v), if s == u then Leaving(v) else Nothing());
        SumLinear(rows, Leaving(v), Nothing(), LiveQuantity(v), -1);
        SumZero(rows, Nothing());
        assert SaleRowOk(w.sales[u]);
      }
    case Cancelling(u, rows) =>
      var moves := if w.sales[u].historical then [] else LineMoves(rows, ReturnIn, u);
      SumConcat(w.ledger, moves, SoldFor(s, v));
      if !w.sales[u].historical {
        LineMovesSum(rows, ReturnIn, u, SoldFor(s, v), Nothing());
        SumZero(rows, Nothing());
      }
    case Recounting(u, counted, read) =>
      SumAppend(w.ledger, Movement(u, Adjustment, counted - read, NoCause), SoldFor(s, v));
  }

  /** A transaction stays in order when what it holds is still held and has not moved under it. */
  lemma StillOk(w: World, d: World, u: nat)
    requires u < |w.txs| && u < |d.txs| && d.txs[u] == w.txs[u] && TxOk(w, u) && |w.sales| <= |d.sales|
    requires forall s: nat :: s < |w.sales| && HoldsOrder(w, u, s) ==> HoldsOrder(d, u, s) && d.sales[s].status == w.sales[s].status
    requires forall v: nat :: HoldsVariant(w, u, v) ==> HoldsVariant(d, u, v) && OnHand(d.ledger, v) >= OnHand(w.ledger, v)
    ensures TxOk(d, u)
  {
  }

  lemma OthersKeepTheirs(w: World, t: nat, u: nat)
    requires Good(w) && Enabled(w, Commit(t)) && u < |w.txs| && u != t
    ensures TxOk(Next(w, Commit(t)), u)
  {
    assert TxOk(w, t) && TxOk(w, u);
    var d := Next(w, Commit(t));
    forall v: nat | HoldsVariant(w, u, v)
      ensures HoldsVariant(d, u, v) && OnHand(d.ledger, v) >= OnHand(w.ledger, v)
    {
      CommitStock(w, t, v);
    }
    StillOk(w, d, u);
  }

  lemma CommitGood(w: World, t: nat)
    requires Good(w) && Enabled(w, Commit(t))
    ensures Good(Next(w, Commit(t)))
  {
    assert TxOk(w, t);
    var d := Next(w, Commit(t));
    forall v: nat ensures OnHand(d.ledger, v) >= 0 { CommitStock(w, t, v); }
    forall s: nat, v: nat ensures SoldOnce(d, s, v) { CommitSold(w, t, s, v); }
    forall u | 0 <= u < |d.txs| ensures TxOk(d, u) {
      if u != t {
        OthersKeepTheirs(w, t, u);
      }
    }
    forall s | 0 <= s < |d.sales| ensures SaleRowOk(d.sales[s]) {
      assert SaleRowOk(w.sales[s]);
    }
  }

  lemma ReleaseGood(w: World, t: nat)
    requires Good(w) && t < |w.txs|
    ensures Good(Released(w, t))
  {
    var d := Released(w, t);
    forall u | 0 <= u < |d.txs| ensures TxOk(d, u) {
      assert TxOk(w, u);
    }
    forall s: nat, v: nat ensures SoldOnce(d, s, v) { assert SoldOnce(w, s, v); }
  }

  lemma AddGood(w: World, m: Movement)
    requires Good(w) && Enabled(w, AddStock(m))
    ensures Good(Next(w, AddStock(m)))
  {
    var d := Next(w, AddStock(m));
    forall v: nat ensures OnHand(d.ledger, v) >= OnHand(w.ledger, v) >= 0 { SumAppend(w.ledger, m, QuantityOf(v)); }
    forall u | 0 <= u < |d.txs| ensures TxOk(d, u) {
      assert TxOk(w, u);
    }
    forall s: nat, v: nat ensures SoldOnce(d, s, v) {
      assert SoldOnce(w, s, v);
      SumAppend(w.ledger, m, SoldFor(s, v));
    }
  }

  /** Everything but the acting transaction is as before, and the acting one is in order. */
  lemma SameOtherwise(w: World, d: World, t: nat)
    requires Good(w) && d.ledger == w.ledger && d.sales == w.sales && t < |w.txs|
    requires |d.txs| == |w.txs| && forall u :: 0 <= u < |w.txs| && u != t ==> d.txs[u] == w.txs[u]
    requires forall s :: s in w.orderLocks ==> s in d.orderLocks && d.orderLocks[s] == w.orderLocks[s]
    requires forall v :: v in w.variantLocks ==> v in d.variantLocks && d.variantLocks[v] == w.variantLocks[v]
    requires forall s :: s in d.orderLocks ==> d.orderLocks[s] < |d.txs|
    requires forall v :: v in d.variantLocks ==> d.variantLocks[v] < |d.txs|
    requires TxOk(d, t)
    ensures Good(d)
  {
    forall u | 0 <= u < |d.txs| ensures TxOk(d, u) {
      assert TxOk(w, u);
    }
    forall s: nat, v: nat ensures SoldOnce(d, s, v) { assert SoldOnce(w, s, v); }
  }

  lemma LockGood(w: World, e: Event)
    requires Good(w) && Enabled(w, e) && (e.LockOrder? || e.LockVariant?)
    ensures Good(Next(w, e))
  {
    assert TxOk(w, e.t);
    if Next(w, e) == Released(w, e.t) {
      ReleaseGood(w, e.t);
    } else {
      SameOtherwise(w, Next(w, e), e.t);
    }
  }

  lemma ReadGood(w: World, e: Event)
    requires Good(w) && Enabled(w, e) && (e.ReadItems? || e.ReadStock?)
    ensures Good(Next(w, e))
  {
    assert TxOk(w, e.t);
    if Next(w, e) == Released(w, e.t) {
      ReleaseGood(w, e.t);
    } else {
      SameOtherwise(w, Next(w, e), e.t);
    }
  }

  lemma CheckGood(w: World, e: Event)
    requires Good(w) && Enabled(w, e) && e.Check?
    ensures Good(Next(w, e))
  {
    assert TxOk(w, e.t);
    if Next(w, e) == Released(w, e.t) {
      ReleaseGood(w, e.t);
    } else {
      SameOtherwise(w, Next(w, e), e.t);
    }
  }

  lemma OutsideGood(w: World, e: Event)
    requires Good(w) && Enabled(w, e) && (e.DraftSale? || e.EditDraft? || e.Start?)
    ensures Good(Next(w, e))
  {
    var d := Next(w, e);
    forall u | 0 <= u < |d.txs| ensures TxOk(d, u) {
      assert u < |w.txs| ==> TxOk(w, u);
    }
    forall s: nat, v: nat ensures SoldOnce(d, s, v) { assert SoldOnce(w, s, v); }
  }

  lemma StepGood(w: World, e: Event)
    requires Good(w) && Enabled(w, e)
    ensures Good(Next(w, e))
  {
    match e
    case Commit(t) => CommitGood(w, t);
    case Abort(t) => ReleaseGood(w, t);
    case AddStock(m) => AddGood(w, m);
    case DraftSale(_) => OutsideGood(w, e);
    case EditDraft(_, _) => OutsideGood(w, e);
    case Start(_) => OutsideGood(w, e);
    case LockOrder(_) => LockGood(w, e);
    case LockVariant(_, _) => LockGood(w, e);
    case ReadItems(_) => ReadGood(w, e);
    case ReadStock(_) => ReadGood(w, e);
    case Check(_, _) => CheckGood(w, e);
  }

  lemma {:induction false} PlayGood(w: World, es: seq<Event>)
    requires Good(w) && Play(w, es).Some?
    ensures Good(Play(w, es).value)
  {
    if es != [] {
      var n := |es| - 1;
      PlayGood(w, es[..n]);
      StepGood(Play(w, es[..n]).value, es[n]);
    }
  }

  /** Under every interleaving no on-hand is ever negative, and whatever number of confirmations
      races on a sale, the ledger holds at most one SALE_OUT set for it. */
  lemma {:induction false} EveryInterleaving(es: seq<Event>)
    requires Play(START, es).Some?
    ensures forall v: nat :: OnHand(Play(START, es).value.ledger, v) >= 0
    ensures forall s: nat, v: nat :: SoldOnce(Play(START, es).value, s, v)
  {
    PlayGood(START, es);
  }

  // ---- what each transaction does ----

  /** A recount moves its own variant by what it found missing or extra, and nothing else. */
  lemma RecountCommit(w: World, t: nat, v: nat)
    requires Good(w) && Enabled(w, Commit(t)) && w.txs[t].job.Recounting?
    ensures var d, job := Next(w, Commit(t)), w.txs[t].job;
            && d.sales == w.sales
            && OnHand(d.ledger, v) == OnHand(w.ledger, v) + if v == job.variant then job.counted - job.read else 0
  {
    assert TxOk(w, t);
    CommittedOnHand(w, t, v);
  }

  /** A confirmation takes exactly its lines off the shelf and a cancellation puts exactly them back, unless the sale is
      historical; the sale changes status, no other sale changes. */
  lemma SaleCommit(w: World, t: nat, v: nat)
    requires Good(w) && Enabled(w, Commit(t)) && !w.txs[t].job.Recounting?
    ensures var d, job := Next(w, Commit(t)), w.txs[t].job;
            var s := job.sale;
            && |d.sales| == |w.sales| && (forall u :: 0 <= u < |w.sales| && u != s ==> d.sales[u] == w.sales[u])
            && d.sales[s].status == (if job.Confirming? then Confirmed else Cancelled)
            && (job.Confirming? ==> d.sales[s].historical == job.historical && (job.historical || d.sales[s].sold == Some(job.rows)))
            && OnHand(d.ledger, v) == OnHand(w.ledger, v) +
               if d.sales[s].historical then 0 else if job.Confirming? then -Need(job.rows, v) else Need(job.rows, v)
  {
    assert TxOk(w, t);
    CommittedOnHand(w, t, v);
  }

  /** What a transaction works with is what stood there when it read: the sale's lines, each variant's on-hand. */
  lemma ReadsExact(w: World, e: Event)
    requires Enabled(w, e) && (e.ReadItems? || e.ReadStock?)
    ensures var tx, job := Next(w, e).txs[e.t], w.txs[e.t].job;
            && (e.ReadItems? && tx.step == ItemsRead ==> tx.job.sale == job.sale && tx.job.rows == w.sales[job.sale].rows)
            && (e.ReadItems? && tx.step != ItemsRead ==> job.Confirming? && !HasItems(w.sales[job.sale].rows))
            && (e.ReadStock? && job.Confirming? ==> tx.job.rows == job.rows)
            && (e.ReadStock? && job.Confirming? ==>
                  forall v: nat :: Variant(job.rows, v) ==> v in tx.job.stock && tx.job.stock[v] == OnHand(w.ledger, v))
            && (e.ReadStock? && job.Recounting? ==> tx.job == job.(read := OnHand(w.ledger, job.variant)))
  {
  }

  /** Taking the order's lock, a confirmation goes on exactly when the sale is still a draft, a cancellation exactly when
      it is confirmed; whoever comes too late ends there. */
  lemma LockExact(w: World, t: nat)
    requires Enabled(w, LockOrder(t))
    ensures var d, job := Next(w, LockOrder(t)), w.txs[t].job;
            var status := w.sales[job.sale].status;
            && d.txs[t].step == (if status == (if job.Confirming? then Draft else Confirmed) then OrderLocked else Done)
            && (d.txs[t].step == OrderLocked ==> d.txs[t].job == job && HoldsOrder(d, t, job.sale))
  {
  }

  /** Nothing but a commit, an intake and work on drafts is ever to be seen outside a transaction. */
  lemma QuietSteps(w: World, e: Event)
    requires Enabled(w, e)
    ensures var d := Next(w, e);
            && (!e.Commit? && !e.AddStock? ==> d.ledger == w.ledger)
            && (!e.Commit? && !e.DraftSale? && !e.EditDraft? ==> d.sales == w.sales)
            && (forall u :: 0 <= u < |w.txs| && !e.Start? && !e.DraftSale? && !e.EditDraft? && !e.AddStock? && u != e.t ==>
                  d.txs[u] == w.txs[u])
  {
  }

  /** The end of a transaction gives back all its locks and nobody else's. */
  lemma LocksGivenBack(w: World, e: Event, u: nat)
    requires Enabled(w, e) && (e.Commit? || e.Abort?)
    ensures var d := Next(w, e);
            && d.txs[e.t].step == Done
            && (forall s: nat :: HoldsOrder(d, u, s) <==> u != e.t && HoldsOrder(w, u, s))
            && (forall v: nat :: HoldsVariant(d, u, v) <==> u != e.t && HoldsVariant(w, u, v))
  {
  }

  /** The check passes exactly when every variant, less what it reads as promised, covers all the sale's lines; stock it
      passes on stays enough until then, so a confirmation never takes what was promised when it checked. */
  lemma CheckExact(w: World, t: nat, reserved: map<nat, nat>)
    requires Good(w) && Enabled(w, Check(t, reserved))
    ensures var job, passed := w.txs[t].job, Next(w, Check(t, reserved)).txs[t].step == Passed;
            && (passed <==> forall v: nat :: Variant(job.rows, v) ==>
                  v in job.stock && job.stock[v] - Promised(reserved, v) >= Need(job.rows, v))
            && (passed ==> forall v: nat :: Variant(job.rows, v) ==>
                  OnHand(w.ledger, v) - Need(job.rows, v) >= Promised(reserved, v))
  {
    assert TxOk(w, t);
  }

  /** One step of anyone while a recount stands between its read and its commit. */
  lemma StepUntouched(w: World, e: Event, t: nat)
    requires Good(w) && Enabled(w, e) && t < |w.txs| && w.txs[t].job.Recounting? && w.txs[t].step in {StockRead, Done}
    ensures var d, v := Next(w, e), w.txs[t].job.variant;
            && t < |d.txs| && (d.txs[t] == w.txs[t] || d.txs[t].step == Done)
            && w.ledger <= d.ledger
            && (d.txs[t].step == StockRead ==> OnHand(d.ledger, v) >= OnHand(w.ledger, v))
  {
    assert TxOk(w, t);
    var v := w.txs[t].job.variant;
    match e
    case AddStock(m) => SumAppend(w.ledger, m, QuantityOf(v));
    case Commit(u) =>
      if u != t && w.txs[t].step == StockRead {
        assert !HoldsVariant(w, u, v);
        CommitStock(w, u, v);
      }
    case _ =>
  }

  lemma {:induction false} Untouched(w: World, es: seq<Event>, t: nat)
    requires Good(w) && t < |w.txs| && w.txs[t].job.Recounting? && w.txs[t].step == StockRead && Play(w, es).Some?
    ensures var d, v := Play(w, es).value, w.txs[t].job.variant;
            && Good(d) && t < |d.txs| && d.txs[t].job.Recounting?
            && (d.txs[t] == w.txs[t] || d.txs[t].step == Done)
            && w.ledger <= d.ledger
            && (d.txs[t].step == StockRead ==> OnHand(d.ledger, v) >= OnHand(w.ledger, v))
  {
    if es != [] {
      var n := |es| - 1;
      Untouched(w, es[..n], t);
      var mid := Play(w, es[..n]).value;
      StepGood(mid, es[n]);
      StepUntouched(mid, es[n], t);
    }
  }

  /** Whatever else runs meanwhile, a recount that commits leaves on the shelf what was counted and what was added since
      it read; and only additions can have come in between. */
  lemma {:induction false} RecountExact(before: seq<Event>, t: nat, between: seq<Event>)
    requires Play(START, before).Some? && Enabled(Play(START, before).value, ReadStock(t))
    requires Play(START, before).value.txs[t].job.Recounting?
    requires Play(Next(Play(START, before).value, ReadStock(t)), between).Some?
    requires Enabled(Play(Next(Play(START, before).value, ReadStock(t)), between).value, Commit(t))
    ensures var read := Next(Play(START, before).value, ReadStock(t));
            var last, job := Play(read, between).value, read.txs[t].job;
            var d := Next(last, Commit(t));
            && read.ledger <= last.ledger
            && var added := Sum(last.ledger[|read.ledger|..], QuantityOf(job.variant));
               added >= 0 && OnHand(d.ledger, job.variant) == job.counted + added
  {
    PlayGood(START, before);
    var w := Play(START, before).value;
    var read := Next(w, ReadStock(t));
    StepGood(w, ReadStock(t));
    Untouched(read, between, t);
    var last, v := Play(read, between).value, read.txs[t].job.variant;
    SumConcat(read.ledger, last.ledger[|read.ledger|..], QuantityOf(v));
    assert read.ledger + last.ledger[|read.ledger|..] == last.ledger;
    RecountCommit(last, t, v);
  }
}
