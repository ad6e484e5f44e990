/** The rows the services work on and the figures derived from them.
    Money is whole cents, a rate is millionths of a som per unit of currency. */
module Models {
  import opened Rounding
  import opened Sums

  datatype Option<+T> = None | Some(value: T)

  type Rate = r: int | r > 0 witness 1

  const RATE_UNIT: Rate := 1_000_000
  /** PAYMENT_ROUNDING_TOLERANCE: 1.00. */
  const TOLERANCE: int := 100

  datatype Currency = KGS | USD | RUB

  function Min(a: int, b: int): int { if a <= b then a else b }
  function Max(a: int, b: int): int { if a >= b then a else b }

  // ---- stock movements ----

  datatype MovementKind = ProductionIn | PurchaseIn | ReturnIn | SaleOut | WriteoffOut | Adjustment

  /** What a movement was booked for: nothing in particular, a sale, or a line of a production order. */
  datatype Cause = NoCause | ForSale(sale: nat) | ForOrderLine(order: nat, line: nat)

  datatype Movement = Movement(variant: nat, kind: MovementKind, quantity: int, cause: Cause) {
    predicate Valid() {
      && quantity != 0
      && (kind in {ProductionIn, PurchaseIn, ReturnIn} ==> quantity > 0)
      && (kind in {SaleOut, WriteoffOut} ==> quantity < 0)
    }
  }

  // ---- sales ----

  datatype DiscountKind = NoDiscount | Percent | Fixed

  /** `discount` is hundredths of a percentage point for Percent, cents off the whole line for Fixed. */
  datatype Line = Line(variant: nat, quantity: int, price: nat, kind: DiscountKind, discount: int) {

    predicate Valid() {
      && quantity > 0
      && discount >= 0
      && (kind == Percent ==> discount <= 10000)
      && (kind == Fixed ==> discount <= price * quantity)
    }

    function Subtotal(): int { price * quantity }

    function DiscountAmount(): (r: int)
      ensures Valid() ==> 0 <= r <= Subtotal()
    {
      var amount :=
        if kind == Percent && discount != 0 then HalfUp(Min(Subtotal() * discount, Subtotal() * 10000), 10000)
        else if kind == Fixed && discount != 0 then Min(discount, Subtotal())
        else Min(0, Subtotal());
      assert Valid() ==> 0 <= amount <= Subtotal() by {
        if Valid() {
          SubtotalNonNeg();
          PercentInRange(Subtotal(), if kind == Percent then discount else 0);
        }
      }
      amount
    }

    function LineTotal(): (r: int)
      ensures Valid() ==> 0 <= r <= Subtotal()
    {
      Subtotal() - DiscountAmount()
    }

    lemma SubtotalNonNeg()
      requires quantity >= 0
      ensures Subtotal() >= 0
    {
      MulAtLeast(quantity, 0, if price == 0 then 1 else price);
    }
  }

  lemma PercentInRange(s: int, v: int)
    requires s >= 0 && 0 <= v <= 10000
    ensures 0 <= s * v <= s * 10000
    ensures 0 <= HalfUp(s * v, 10000) <= s
  {
    assert s * v >= 0;
    assert s * (10000 - v) >= 0;
    HalfUpMonotone(s * v, s * 10000, 10000);
    Exact(s, 10000);
    HalfUpMonotone(0 * 10000, s * v, 10000);
    Exact(0, 10000);
  }

  datatype SaleStatus = Draft | Confirmed | Cancelled
  datatype PaymentStatus = Unpaid | Partial | Paid

  /** The position in `rows` stands for the item's primary key; None is a deleted item. */
  datatype Sale = Sale(
    client: Option<nat>, currency: Currency, status: SaleStatus, rows: seq<Option<Line>>,
    historical: bool, rate: Rate, total: int, totalKgs: int, confirmedAt: Option<int>)

  function RowTotal(row: Option<Line>): int
  {
    if row.Some? then row.value.LineTotal() else 0
  }

  predicate RowsValid(rows: seq<Option<Line>>)
  {
    forall i :: 0 <= i < |rows| && rows[i].Some? ==> rows[i].value.Valid()
  }

  predicate HasItems(rows: seq<Option<Line>>)
  {
    exists i :: 0 <= i < |rows| && rows[i].Some?
  }

  function LiveQuantity(v: nat): Option<Line> -> int
  {
    (row: Option<Line>) => if row.Some? && row.value.variant == v then row.value.quantity else 0
  }

  /** Units of variant v on the live lines. */
  function Need(rows: seq<Option<Line>>, v: nat): int { Sum(rows, LiveQuantity(v)) }

  function RowsTotal(rows: seq<Option<Line>>): int { Sum(rows, RowTotal) }

  function ToKgs(total: int, rate: Rate): int { RoundUp(total * rate, RATE_UNIT) }

  // ---- production orders ----

  datatype OrderStatus = New | InProduction | Ready | Delivered | Withdrawn

  predicate IsOpen(s: OrderStatus): (r: bool)
    ensures r <==> s != Delivered && s != Withdrawn
  {
    s.New? || s.InProduction? || s.Ready?
  }

  datatype OrderLine = OrderLine(variant: nat, quantity: int, price: nat, produced: int)

  datatype Order = Order(
    client: nat, currency: Currency, status: OrderStatus, due: Option<int>, lines: seq<OrderLine>, sale: Option<nat>) {

    predicate FullyProduced() {
      lines != [] && forall i :: 0 <= i < |lines| ==> lines[i].produced >= lines[i].quantity
    }
  }

  // ---- payments ----

  datatype Disposition = NoDisposition | Change | Debt | Credit

  datatype Payment = Payment(
    client: nat, order: Option<nat>, production: Option<nat>,
    amount: int, currency: Currency, rate: Rate, disposition: Disposition,
    change: int, changeCurrency: Currency, changeKgs: int, residueKgs: int,
    batch: Option<nat>, reviewed: bool, reverses: Option<nat>, createdAt: int) {

    /** The payment in som at its frozen rate, in the decimal context's default rounding. */
    function AmountKgs(): int { HalfEven(amount * rate, RATE_UNIT) }

    function NetAppliedKgs(): int { AmountKgs() - changeKgs }

    /** The same net figure before any rounding, in RATE_UNITths of a cent of som. */
    function NetExact(): int { amount * rate - changeKgs * RATE_UNIT }
  }

  function NetFor(sale: nat): Payment -> int
  {
    (p: Payment) => if p.order == Some(sale) then p.NetAppliedKgs() else 0
  }

  function ExactFor(sale: nat): Payment -> int
  {
    (p: Payment) => if p.order == Some(sale) then p.NetExact() else 0
  }

  function RowsFor(sale: nat): Payment -> int
  {
    (p: Payment) => if p.order == Some(sale) then 1 else 0
  }

  /** Total in som frozen at confirmation minus every stored row's net figure. */
  function BalanceKgs(sale: Sale, id: nat, payments: seq<Payment>): int
  {
    sale.totalKgs - Sum(payments, NetFor(id))
  }

  /** Paid so far in the sale's own currency: exact nets divided by the sale's rate, rounded once. */
  function PaidAmount(sale: Sale, id: nat, payments: seq<Payment>): int
  {
    HalfUp(Sum(payments, ExactFor(id)), sale.rate)
  }

  /** SaleOrder.balance: a remainder within the tolerance, a walk-in and an unconfirmed sale owe nothing. */
  function Balance(sale: Sale, id: nat, payments: seq<Payment>): int
  {
    if sale.status != Confirmed || sale.client.None? then 0
    else
      var remainder := sale.total - PaidAmount(sale, id, payments);
      if remainder <= TOLERANCE then 0 else remainder
  }

  function PaymentStatusFor(total: int, paid: int): PaymentStatus
  {
    if total <= 0 || paid <= 0 then Unpaid
    else if total - paid <= TOLERANCE then Paid
    else Partial
  }

  function StatusOf(sale: Sale, id: nat, payments: seq<Payment>): PaymentStatus
  {
    if sale.client.None? then (if sale.status == Confirmed then Paid else Unpaid)
    else PaymentStatusFor(sale.total, PaidAmount(sale, id, payments))
  }
}
