/** A client's debts as one grouped aggregate, the running statement as a walk over dated entries, and why they agree. */
module Statement {
  import opened Rounding
  import opened Sums
  import opened Sorting
  import opened Models

  /** Balances are carried to six decimal places: ten-thousandths of a cent. */
  const SCALE: int := 10_000

  /** Seconds to local midnight: the shop's zone is UTC+6 all year. */
  const OFFSET: int := 21_600

  function Day(t: int): int { (t + OFFSET) / 86_400 }

  /** Midnight, local time. */
  function Midnight(day: int): int { day * 86_400 - OFFSET }

  datatype Baseline = Baseline(client: nat, amount: int, currency: Currency, asOf: int)

  /** The rows a client's balance is derived from. */
  datatype Rows = Rows(baselines: seq<Baseline>, sales: seq<Sale>, payments: seq<Payment>)

  function Quantize(x: int): int { HalfUp(x, SCALE) }

  function SaleAt(r: Rows, p: Payment): Option<Sale>
  {
    if p.order.Some? && p.order.value < |r.sales| then Some(r.sales[p.order.value]) else None
  }

  /** The one conversion both views use: net som at the sale's frozen rate, to six places. */
  function Contribution(r: Rows, p: Payment): int
  {
    if SaleAt(r, p).Some? then HalfUp(p.NetExact() * SCALE, SaleAt(r, p).value.rate) else 0
  }

  // ---- the aggregate ----

  function BaselineIn(client: nat, c: Currency): Baseline -> int
  {
    (x: Baseline) => if x.client == client && x.currency == c then x.amount * SCALE else 0
  }

  function SoldIn(client: nat, c: Currency): Sale -> int
  {
    (s: Sale) => if s.status == Confirmed && s.client == Some(client) && s.currency == c then s.total * SCALE else 0
  }

  function PaidIn(r: Rows, client: nat, c: Currency): Payment -> int
  {
    (p: Payment) =>
      if p.client == client && SaleAt(r, p).Some? && SaleAt(r, p).value.currency == c then Contribution(r, p) else 0
  }

  function Owed(r: Rows, client: nat, c: Currency): int
  {
    Sum(r.baselines, BaselineIn(client, c)) + Sum(r.sales, SoldIn(client, c)) - Sum(r.payments, PaidIn(r, client, c))
  }

  /** Up to the tolerance counts as settled; a credit of any size stays visible. */
  predicate Reported(amount: int) { amount > TOLERANCE || amount < 0 }

  function At(m: map<Currency, int>, c: Currency): int { if c in m then m[c] else 0 }

  method ClientDebts(r: Rows, client: nat) returns (debts: map<Currency, int>)
    ensures forall c :: c in debts <==> Reported(Quantize(Owed(r, client, c)))
    ensures forall c :: c in debts ==> debts[c] == Quantize(Owed(r, client, c))
  {
    var totals: map<Currency, int> := map[];
    for i := 0 to |r.baselines|
      invariant forall c :: At(totals, c) == Sum(r.baselines[..i], BaselineIn(client, c))
    {
      forall c ensures Sum(r.baselines[..i + 1], BaselineIn(client, c)) ==
                       Sum(r.baselines[..i], BaselineIn(client, c)) + BaselineIn(client, c)(r.baselines[i]) {
        SumStep(r.baselines, i, BaselineIn(client, c));
      }
      var x := r.baselines[i];
      if x.client == client {
        totals := totals[x.currency := At(totals, x.currency) + x.amount * SCALE];
      }
    }
    assert r.baselines[..|r.baselines|] == r.baselines;
    for i := 0 to |r.sales|
      invariant forall c :: At(totals, c) == Sum(r.baselines, BaselineIn(client, c)) + Sum(r.sales[..i], SoldIn(client, c))
    {
      forall c ensures Sum(r.sales[..i + 1], SoldIn(client, c)) ==
                       Sum(r.sales[..i], SoldIn(client, c)) + SoldIn(client, c)(r.sales[i]) {
        SumStep(r.sales, i, SoldIn(client, c));
      }
      var s := r.sales[i];
      if s.status == Confirmed && s.client == Some(client) {
        totals := totals[s.currency := At(totals, s.currency) + s.total * SCALE];
      }
    }
    assert r.sales[..|r.sales|] == r.sales;
    for i := 0 to |r.payments|
      invariant forall c :: At(totals, c) == Sum(r.baselines, BaselineIn(client, c)) + Sum(r.sales, SoldIn(client, c))
                                             - Sum(r.payments[..i], PaidIn(r, client, c))
    {
      forall c ensures Sum(r.payments[..i + 1], PaidIn(r, client, c)) ==
                       Sum(r.payments[..i], PaidIn(r, client, c)) + PaidIn(r, client, c)(r.payments[i]) {
        SumStep(r.payments, i, PaidIn(r, client, c));
      }
      var p := r.payments[i];
      if p.client == client && SaleAt(r, p).Some? {
        var c := SaleAt(r, p).value.currency;
        totals := totals[c := At(totals, c) - Contribution(r, p)];
      }
    }
    assert r.payments[..|r.payments|] == r.payments;
    debts := map c | c in totals && Reported(Quantize(totals[c])) :: Quantize(totals[c]);
    forall c ensures c in debts <==> Reported(Quantize(Owed(r, client, c))) {
      assert At(totals, c) == Owed(r, client, c);
    }
  }

  // ---- the entries of the statement ----

  datatype Kind = OpeningBalance | Purchase | Received | Undone

  datatype Entry = Entry(at: int, currency: Currency, kind: Kind, up: Option<int>, down: Option<int>, delta: int)

  function BaselineEntry(x: Baseline): Entry
  {
    var a := x.amount * SCALE;
    Entry(Midnight(x.asOf), x.currency, OpeningBalance, if a > 0 then Some(a) else None, if a < 0 then Some(-a) else None, a)
  }

  function BaselineEntries(xs: seq<Baseline>, client: nat): seq<Entry>
  {
    if xs == [] then []
    else
      var n := |xs| - 1;
      BaselineEntries(xs[..n], client) + if xs[n].client == client then [BaselineEntry(xs[n])] else []
  }

  predicate OnStatement(s: Sale, client: nat)
  {
    s.status == Confirmed && s.client == Some(client) && s.confirmedAt.Some?
  }

  function SaleEntry(s: Sale): Entry
    requires s.confirmedAt.Some?
  {
    Entry(s.confirmedAt.value, s.currency, Purchase, Some(s.total * SCALE), None, s.total * SCALE)
  }

  function SaleEntries(sales: seq<Sale>, client: nat): seq<Entry>
  {
    if sales == [] then []
    else
      var n := |sales| - 1;
      SaleEntries(sales[..n], client) + if OnStatement(sales[n], client) then [SaleEntry(sales[n])] else []
  }

  /** A payment row with its key. */
  datatype Own = Own(pk: nat, p: Payment)

  function OwnRows(r: Rows, client: nat, n: nat): seq<Own>
    requires n <= |r.payments|
  {
    if n == 0 then []
    else
      OwnRows(r, client, n - 1) +
      if r.payments[n - 1].client == client && SaleAt(r, r.payments[n - 1]).Some? then [Own(n - 1, r.payments[n - 1])] else []
  }

  /** One repayment is one group, its later void another; every other payment stands alone. */
  datatype Key = Batch(batch: nat, reversal: bool) | Single(pk: nat)

  function KeyOf(o: Own): Key
  {
    if o.p.batch.Some? then Batch(o.p.batch.value, o.p.reverses.Some?) else Single(o.pk)
  }

  function Members(own: seq<Own>, k: Key): (r: seq<Own>)
    ensures forall i :: 0 <= i < |r| ==> r[i] in own && KeyOf(r[i]) == k
    ensures forall i :: 0 <= i < |own| && KeyOf(own[i]) == k ==> r != []
  {
    if own == [] then []
    else
      var n := |own| - 1;
      Members(own[..n], k) + if KeyOf(own[n]) == k then [own[n]] else []
  }

  /** Keys in the order their first row is met. */
  function Keys(own: seq<Own>): (r: seq<Key>)
    ensures forall i :: 0 <= i < |own| ==> KeyOf(own[i]) in r
    ensures forall i :: 0 <= i < |r| ==> exists j :: 0 <= j < |own| && KeyOf(own[j]) == r[i]
    ensures forall i, j :: 0 <= i < j < |r| ==> r[i] != r[j]
  {
    if own == [] then []
    else
      var n := |own| - 1;
      var before := Keys(own[..n]);
      assert forall i :: 0 <= i < n ==> own[..n][i] == own[i];
      if KeyOf(own[n]) in before then before else before + [KeyOf(own[n])]
  }

  function Worth(r: Rows): Own -> int { (o: Own) => Contribution(r, o.p) }

  function Earliest(group: seq<Own>): int
    requires group != []
  {
    if |group| == 1 then group[0].p.createdAt else Min(group[|group| - 1].p.createdAt, Earliest(group[..|group| - 1]))
  }

  function GroupEntry(r: Rows, group: seq<Own>): Entry
    requires group != []
  {
    var reversal := group[0].p.reverses.Some?;
    var total := Sum(group, Worth(r));
    var sale := SaleAt(r, group[0].p);
    Entry(Earliest(group), if sale.Some? then sale.value.currency else KGS, if reversal then Undone else Received,
          if reversal then Some(-total) else None, if reversal then None else Some(total), -total)
  }

  function GroupEntries(r: Rows, own: seq<Own>, keys: seq<Key>): (e: seq<Entry>)
    requires forall i :: 0 <= i < |keys| ==> exists j :: 0 <= j < |own| && KeyOf(own[j]) == keys[i]
    ensures |e| == |keys|
    ensures forall i :: 0 <= i < |e| ==> Members(own, keys[i]) != [] && e[i] == GroupEntry(r, Members(own, keys[i]))
  {
    seq(|keys|, i requires 0 <= i < |keys| => GroupEntry(r, Members(own, keys[i])))
  }

  function Entries(r: Rows, client: nat): seq<Entry>
  {
    var own := OwnRows(r, client, |r.payments|);
    BaselineEntries(r.baselines, client) + SaleEntries(r.sales, client) + GroupEntries(r, own, Keys(own))
  }

  // ---- the walk ----

  function ByTime(): (Entry, Entry) -> bool { (a: Entry, b: Entry) => a.at <= b.at }

  function OfCurrency(es: seq<Entry>, c: Currency): seq<Entry>
  {
    if es == [] then []
    else
      var n := |es| - 1;
      OfCurrency(es[..n], c) + if es[n].currency == c then [es[n]] else []
  }

  datatype Item = Item(day: int, kind: Kind, up: Option<int>, down: Option<int>, balance: int)

  datatype Walked = Walked(opening: int, running: int, lines: seq<Item>)

  function Rounded(x: Option<int>): Option<int> { if x.Some? then Some(Quantize(x.value)) else None }

  predicate Before(e: Entry, from: Option<int>) { from.Some? && Day(e.at) < from.value }
  predicate After(e: Entry, to: Option<int>) { to.Some? && Day(e.at) > to.value }

  function WalkOne(w: Walked, e: Entry, from: Option<int>, to: Option<int>): Walked
  {
    if Before(e, from) then Walked(w.running + e.delta, w.running + e.delta, w.lines)
    else if After(e, to) then w
    else
      var running := w.running + e.delta;
      Walked(w.opening, running, w.lines + [Item(Day(e.at), e.kind, Rounded(e.up), Rounded(e.down), Quantize(running))])
  }

  function Walk(es: seq<Entry>, from: Option<int>, to: Option<int>): Walked
  {
    if es == [] then Walked(0, 0, []) else WalkOne(Walk(es[..|es| - 1], from, to), es[|es| - 1], from, to)
  }

  datatype Sheet = Sheet(opening: int, lines: seq<Item>, closing: int)

  function WalkFor(r: Rows, client: nat, c: Currency, from: Option<int>, to: Option<int>): Walked
  {
    Walk(StableSort(OfCurrency(Entries(r, client), c), ByTime()), from, to)
  }

  /** What the walk itself comes to, before anything else is consulted. */
  function ClosingOf(r: Rows, client: nat, c: Currency, from: Option<int>, to: Option<int>): int
  {
    Quantize(WalkFor(r, client, c, from, to).running)
  }

  function OpeningOf(r: Rows, client: nat, c: Currency, from: Option<int>, to: Option<int>): int
  {
    Quantize(WalkFor(r, client, c, from, to).opening)
  }

  function Listed(m: map<Currency, seq<Entry>>, c: Currency): seq<Entry> { if c in m then m[c] else [] }

  lemma {:induction false} OfCurrencyAppend(es: seq<Entry>, e: Entry, c: Currency)
    ensures OfCurrency(es + [e], c) == OfCurrency(es, c) + if e.currency == c then [e] else []
  {
    assert (es + [e])[..|es|] == es;
  }

  /** Sorting the entries into one list per currency. */
  method ByCurrency(es: seq<Entry>) returns (m: map<Currency, seq<Entry>>)
    ensures forall c :: Listed(m, c) == OfCurrency(es, c)
    ensures forall c :: c in m ==> m[c] != []
  {
    m := map[];
    for i := 0 to |es|
      invariant forall c :: Listed(m, c) == OfCurrency(es[..i], c)
      invariant forall c :: c in m ==> m[c] != []
    {
      assert es[..i + 1] == es[..i] + [es[i]];
      forall c ensures OfCurrency(es[..i + 1], c) == OfCurrency(es[..i], c) + if es[i].currency == c then [es[i]] else [] {
        OfCurrencyAppend(es[..i], es[i], c);
      }
      m := m[es[i].currency := Listed(m, es[i].currency) + [es[i]]];
    }
    assert es[..|es|] == es;
  }

  method WalkEntries(es: seq<Entry>, from: Option<int>, to: Option<int>) returns (w: Walked)
    ensures w == Walk(es, from, to)
  {
    var running, opening, lines := 0, 0, [];
    for i := 0 to |es|
      invariant Walked(opening, running, lines) == Walk(es[..i], from, to)
    {
      assert es[..i + 1][..i] == es[..i];
      var e := es[i];
      if Before(e, from) {
        running := running + e.delta;
        opening := running;
      } else if !After(e, to) {
        running := running + e.delta;
        lines := lines + [Item(Day(e.at), e.kind, Rounded(e.up), Rounded(e.down), Quantize(running))];
      }
    }
    assert es[..|es|] == es;
    w := Walked(opening, running, lines);
  }

  function Found(m: map<Currency, Sheet>, c: Currency): Option<Sheet> { if c in m then Some(m[c]) else None }

  /** One currency as served: for an open-ended statement the closing is read from the aggregate where that
      reports the currency, and a currency with nothing to show is left out. */
  function Serve(es: seq<Entry>, debt: Option<int>, from: Option<int>, to: Option<int>): Option<Sheet>
  {
    var w := Walk(StableSort(es, ByTime()), from, to);
    var opening := Quantize(w.opening);
    var closing := if to.None? && debt.Some? then debt.value else Quantize(w.running);
    if es == [] || (w.lines == [] && opening == 0 && closing == 0) then None
    else Some(Sheet(opening, w.lines, closing))
  }

  function DebtShown(r: Rows, client: nat, c: Currency): Option<int>
  {
    var owed := Quantize(Owed(r, client, c));
    if Reported(owed) then Some(owed) else None
  }

  function Served(r: Rows, client: nat, c: Currency, from: Option<int>, to: Option<int>): Option<Sheet>
  {
    Serve(OfCurrency(Entries(r, client), c), DebtShown(r, client, c), from, to)
  }

  method ServeOne(es: seq<Entry>, debt: Option<int>, from: Option<int>, to: Option<int>) returns (sheet: Option<Sheet>)
    requires es != []
    ensures sheet == Serve(es, debt, from, to)
  {
    var w := WalkEntries(StableSort(es, ByTime()), from, to);
    var opening, closing := Quantize(w.opening), Quantize(w.running);
    if to.None? && debt.Some? {
      closing := debt.value;
    }
    if w.lines == [] && opening == 0 && closing == 0 {
      return None;
    }
    return Some(Sheet(opening, w.lines, closing));
  }

  function Debt(debts: map<Currency, int>, c: Currency): Option<int> { if c in debts then Some(debts[c]) else None }

  method ServeAll(lists: map<Currency, seq<Entry>>, debts: map<Currency, int>, from: Option<int>, to: Option<int>)
    returns (result: map<Currency, Sheet>)
    requires forall c :: c in lists ==> lists[c] != []
    ensures forall c :: Found(result, c) == Serve(Listed(lists, c), Debt(debts, c), from, to)
  {
    result := map[];
    var todo := lists.Keys;
    while todo != {}
      invariant todo <= lists.Keys
      invariant forall c :: c in todo ==> c !in result
      invariant forall c :: c !in todo ==> Shown(result, lists, debts, from, to, c)
    {
      var c :| c in todo;
      var sheet := ServeOne(lists[c], Debt(debts, c), from, to);
      var next := if sheet.Some? then result[c := sheet.value] else result;
      ShownNext(result, next, lists, debts, from, to, c, todo);
      result, todo := next, todo - {c};
    }
    forall c ensures Found(result, c) == Serve(Listed(lists, c), Debt(debts, c), from, to) {
      assert Shown(result, lists, debts, from, to, c);
    }
  }

  predicate Shown(result: map<Currency, Sheet>, lists: map<Currency, seq<Entry>>, debts: map<Currency, int>,
                  from: Option<int>, to: Option<int>, c: Currency)
  {
    Found(result, c) == Serve(Listed(lists, c), Debt(debts, c), from, to)
  }

  lemma ShownNext(result: map<Currency, Sheet>, next: map<Currency, Sheet>, lists: map<Currency, seq<Entry>>,
                  debts: map<Currency, int>, from: Option<int>, to: Option<int>, c: Currency, todo: set<Currency>)
    requires c in todo && c !in result && c in lists
    requires forall k :: k !in todo ==> Shown(result, lists, debts, from, to, k)
    requires Found(next, c) == Serve(lists[c], Debt(debts, c), from, to)
    requires forall k :: k != c ==> Found(next, k) == Found(result, k)
    ensures forall k :: k !in todo - {c} ==> Shown(next, lists, debts, from, to, k)
  {
    forall k | k !in todo - {c} ensures Shown(next, lists, debts, from, to, k) {
      if k != c {
        assert Shown(result, lists, debts, from, to, k);
      }
    }
  }

  method ClientStatement(r: Rows, client: nat, from: Option<int>, to: Option<int>) returns (result: map<Currency, Sheet>)
    ensures forall c :: Found(result, c) == Served(r, client, c, from, to)
  {
    var lists := ByCurrency(Entries(r, client));
    var debts := ClientDebts(r, client);
    result := ServeAll(lists, debts, from, to);
    forall c ensures Found(result, c) == Served(r, client, c, from, to) {
      assert Listed(lists, c) == OfCurrency(Entries(r, client), c);
      assert Debt(debts, c) == DebtShown(r, client, c);
    }
  }
}
