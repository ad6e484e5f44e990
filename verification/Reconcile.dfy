/** The statement walk and the grouped aggregate come to the same amount, and adjacent windows chain. */
module Reconcile {
  import opened Rounding
  import opened Sums
  import opened Sorting
  import opened Models
  import opened Till
  import opened Money
  import opened Voids
  import opened Statement

  // ---- sums of entries ----

  function Delta(): Entry -> int { (e: Entry) => e.delta }

  function DeltaIn(c: Currency): Entry -> int { (e: Entry) => if e.currency == c then e.delta else 0 }

  lemma {:induction false} CurrencySum(es: seq<Entry>, c: Currency)
    ensures Sum(OfCurrency(es, c), Delta()) == Sum(es, DeltaIn(c))
  {
    if es != [] {
      var n := |es| - 1;
      CurrencySum(es[..n], c);
      if es[n].currency == c {
        SumAppend(OfCurrency(es[..n], c), es[n], Delta());
      } else {
        assert OfCurrency(es, c) == OfCurrency(es[..n], c);
      }
    }
  }

  lemma {:induction false} BaselineSum(xs: seq<Baseline>, client: nat, c: Currency)
    ensures Sum(BaselineEntries(xs, client), DeltaIn(c)) == Sum(xs, BaselineIn(client, c))
  {
    if xs != [] {
      var n := |xs| - 1;
      BaselineSum(xs[..n], client, c);
      if xs[n].client == client {
        SumAppend(BaselineEntries(xs[..n], client), BaselineEntry(xs[n]), DeltaIn(c));
      } else {
        assert BaselineEntries(xs, client) == BaselineEntries(xs[..n], client);
      }
    }
  }

  /** Confirmed sales without a date: the aggregate counts them, the statement skips them. */
  function Undated(client: nat, c: Currency): Sale -> int
  {
    (s: Sale) => if s.confirmedAt.None? then SoldIn(client, c)(s) else 0
  }

  lemma {:induction false} SaleSum(sales: seq<Sale>, client: nat, c: Currency)
    ensures Sum(SaleEntries(sales, client), DeltaIn(c)) == Sum(sales, SoldIn(client, c)) - Sum(sales, Undated(client, c))
  {
    if sales != [] {
      var n := |sales| - 1;
      SaleSum(sales[..n], client, c);
      SaleTerm(sales[n], client, c);
      if OnStatement(sales[n], client) {
        SumAppend(SaleEntries(sales[..n], client), SaleEntry(sales[n]), DeltaIn(c));
        assert SaleEntries(sales, client) == SaleEntries(sales[..n], client) + [SaleEntry(sales[n])];
      } else {
        assert SaleEntries(sales, client) == SaleEntries(sales[..n], client);
      }
    }
  }

  lemma SaleTerm(s: Sale, client: nat, c: Currency)
    ensures SoldIn(client, c)(s) - Undated(client, c)(s) ==
            if OnStatement(s, client) then DeltaIn(c)(SaleEntry(s)) else 0
  {
  }

  // ---- sums over groups ----

  /** Two payments are one entry exactly when they are of one repayment and both its payments or both its voids, or are
      the same row. */
  lemma SameGroup(r: Rows, a: Own, b: Own)
    requires a.pk < |r.payments| && a.p == r.payments[a.pk] && b.pk < |r.payments| && b.p == r.payments[b.pk]
    ensures KeyOf(a) == KeyOf(b) <==>
            || a.pk == b.pk
            || (a.p.batch.Some? && b.p.batch == a.p.batch && (a.p.reverses.Some? <==> b.p.reverses.Some?))
  {
  }

  function Only(k: Key, f: Own -> int): Own -> int { (o: Own) => if KeyOf(o) == k then f(o) else 0 }

  lemma {:induction false} MembersSum(own: seq<Own>, k: Key, f: Own -> int)
    ensures Sum(Members(own, k), f) == Sum(own, Only(k, f))
  {
    if own != [] {
      var n := |own| - 1;
      MembersSum(own[..n], k, f);
      if KeyOf(own[n]) == k {
        SumAppend(Members(own[..n], k), own[n], f);
      } else {
        assert Members(own, k) == Members(own[..n], k);
      }
    }
  }

  function GroupTotal(own: seq<Own>, f: Own -> int): Key -> int { (k: Key) => Sum(own, Only(k, f)) }

  function Just(key: Key, x: int): Key -> int { (k: Key) => if k == key then x else 0 }

  lemma {:induction false} JustOnce(keys: seq<Key>, key: Key, x: int)
    requires key in keys && forall i, j :: 0 <= i < j < |keys| ==> keys[i] != keys[j]
    ensures Sum(keys, Just(key, x)) == x
  {
    var i :| 0 <= i < |keys| && keys[i] == key;
    SumOnly(keys, i, Just(key, x));
  }

  function NoKey(): Key -> int { (k: Key) => 0 }

  /** Grouping by key loses and repeats nothing. */
  lemma {:induction false} GroupedSum(own: seq<Own>, keys: seq<Key>, f: Own -> int)
    requires forall i :: 0 <= i < |own| ==> KeyOf(own[i]) in keys
    requires forall i, j :: 0 <= i < j < |keys| ==> keys[i] != keys[j]
    ensures Sum(keys, GroupTotal(own, f)) == Sum(own, f)
  {
    if own == [] {
      SumZero(keys, GroupTotal(own, f));
    } else {
      var n := |own| - 1;
      GroupedSum(own[..n], keys, f);
      forall i | 0 <= i < |keys|
        ensures GroupTotal(own, f)(keys[i]) == GroupTotal(own[..n], f)(keys[i]) + 1 * Just(KeyOf(own[n]), f(own[n]))(keys[i])
      {
      }
      SumLinear(keys, GroupTotal(own, f), GroupTotal(own[..n], f), Just(KeyOf(own[n]), f(own[n])), 1);
      JustOnce(keys, KeyOf(own[n]), f(own[n]));
    }
  }

  function CurrencyOf(r: Rows, o: Own): Option<Currency>
  {
    if SaleAt(r, o.p).Some? then Some(SaleAt(r, o.p).value.currency) else None
  }

  function WorthIn(r: Rows, c: Currency): Own -> int
  {
    (o: Own) => if CurrencyOf(r, o) == Some(c) then Contribution(r, o.p) else 0
  }

  /** Each group is on sales of a single currency. */
  predicate OneCurrency(r: Rows, own: seq<Own>)
  {
    && (forall i :: 0 <= i < |own| ==> CurrencyOf(r, own[i]).Some?)
    && (forall i, j :: 0 <= i < |own| && 0 <= j < |own| && KeyOf(own[i]) == KeyOf(own[j]) ==>
          CurrencyOf(r, own[i]) == CurrencyOf(r, own[j]))
  }

  lemma {:induction false} GroupDelta(r: Rows, own: seq<Own>, k: Key, c: Currency)
    requires OneCurrency(r, own) && Members(own, k) != []
    ensures DeltaIn(c)(GroupEntry(r, Members(own, k))) == -GroupTotal(own, WorthIn(r, c))(k)
  {
    var group := Members(own, k);
    MembersSum(own, k, WorthIn(r, c));
    var currency := CurrencyOf(r, group[0]).value;
    forall i | 0 <= i < |group| ensures CurrencyOf(r, group[i]) == Some(currency) {
      assert group[i] in own && group[0] in own;
    }
    if currency == c {
      SumSame(group, group, WorthIn(r, c), Worth(r));
    } else {
      SumZero(group, WorthIn(r, c));
    }
  }

  function MinusTotal(own: seq<Own>, f: Own -> int): Key -> int { (k: Key) => -Sum(own, Only(k, f)) }

  lemma {:induction false} GroupsSum(r: Rows, own: seq<Own>, c: Currency)
    requires OneCurrency(r, own)
    ensures Sum(GroupEntries(r, own, Keys(own)), DeltaIn(c)) == -Sum(own, WorthIn(r, c))
  {
    var keys := Keys(own);
    var es, f := GroupEntries(r, own, keys), WorthIn(r, c);
    forall i | 0 <= i < |keys| ensures DeltaIn(c)(es[i]) == MinusTotal(own, f)(keys[i]) {
      GroupDelta(r, own, keys[i], c);
    }
    SumSame(es, keys, DeltaIn(c), MinusTotal(own, f));
    NegatedGroups(own, f);
  }

  lemma {:induction false} NegatedGroups(own: seq<Own>, f: Own -> int)
    ensures Sum(Keys(own), MinusTotal(own, f)) == -Sum(own, f)
  {
    var keys := Keys(own);
    SumLinear(keys, MinusTotal(own, f), NoKey(), GroupTotal(own, f), -1);
    SumZero(keys, NoKey());
    GroupedSum(own, keys, f);
  }

  lemma {:induction false} OwnSum(r: Rows, client: nat, n: nat, c: Currency)
    requires n <= |r.payments|
    ensures Sum(OwnRows(r, client, n), WorthIn(r, c)) == Sum(r.payments[..n], PaidIn(r, client, c))
  {
    if n > 0 {
      OwnSum(r, client, n - 1, c);
      SumStep(r.payments, n - 1, PaidIn(r, client, c));
      var p := r.payments[n - 1];
      if p.client == client && SaleAt(r, p).Some? {
        SumAppend(OwnRows(r, client, n - 1), Own(n - 1, p), WorthIn(r, c));
        assert OwnRows(r, client, n) == OwnRows(r, client, n - 1) + [Own(n - 1, p)];
        assert WorthIn(r, c)(Own(n - 1, p)) == PaidIn(r, client, c)(p);
      } else {
        assert PaidIn(r, client, c)(p) == 0;
        assert OwnRows(r, client, n) == OwnRows(r, client, n - 1);
      }
    }
  }

  /** The deltas of the whole timeline add up to the aggregate, but for undated sales. */
  lemma {:induction false} EntriesSum(r: Rows, client: nat, c: Currency)
    requires OneCurrency(r, OwnRows(r, client, |r.payments|))
    ensures Sum(Entries(r, client), DeltaIn(c)) == Owed(r, client, c) - Sum(r.sales, Undated(client, c))
  {
    BaselineSum(r.baselines, client, c);
    SaleSum(r.sales, client, c);
    PaidSum(r, client, c);
    EntriesParts(r, client, c);
  }

  lemma {:induction false} PaidSum(r: Rows, client: nat, c: Currency)
    requires OneCurrency(r, OwnRows(r, client, |r.payments|))
    ensures var own := OwnRows(r, client, |r.payments|);
            Sum(GroupEntries(r, own, Keys(own)), DeltaIn(c)) == -Sum(r.payments, PaidIn(r, client, c))
  {
    GroupsSum(r, OwnRows(r, client, |r.payments|), c);
    OwnSum(r, client, |r.payments|, c);
    assert r.payments[..|r.payments|] == r.payments;
  }

  lemma {:induction false} EntriesParts(r: Rows, client: nat, c: Currency)
    ensures var own := OwnRows(r, client, |r.payments|);
            Sum(Entries(r, client), DeltaIn(c)) ==
            Sum(BaselineEntries(r.baselines, client), DeltaIn(c)) + Sum(SaleEntries(r.sales, client), DeltaIn(c))
            + Sum(GroupEntries(r, own, Keys(own)), DeltaIn(c))
  {
    var own := OwnRows(r, client, |r.payments|);
    SumThree(BaselineEntries(r.baselines, client), SaleEntries(r.sales, client), GroupEntries(r, own, Keys(own)), DeltaIn(c));
  }

  lemma {:induction false} SumThree<T>(a: seq<T>, b: seq<T>, g: seq<T>, f: T -> int)
    ensures Sum(a + b + g, f) == Sum(a, f) + Sum(b, f) + Sum(g, f)
  {
    SumConcat(a, b, f);
    SumConcat(a + b, g, f);
  }

  // ---- the walk over sorted entries ----

  lemma ByTimeOrders()
    ensures TotalPreorder(ByTime())
  {
    var le := ByTime();
    forall a: Entry, b: Entry, d: Entry
      ensures le(a, b) || le(b, a)
      ensures le(a, b) && le(b, d) ==> le(a, d)
    {
    }
  }

  predicate InOrder(es: seq<Entry>) { forall i, j :: 0 <= i < j < |es| ==> Day(es[i].at) <= Day(es[j].at) }

  /** Later in time is never an earlier local day. */
  lemma {:induction false} SortedInOrder(es: seq<Entry>)
    ensures InOrder(StableSort(es, ByTime()))
  {
    ByTimeOrders();
    SortSorted(es, ByTime());
    var s := StableSort(es, ByTime());
    forall i, j | 0 <= i < j < |s| ensures Day(s[i].at) <= Day(s[j].at) {
      assert ByTime()(s[i], s[j]);
    }
  }

  function BeforeDelta(from: Option<int>): Entry -> int { (e: Entry) => if Before(e, from) then e.delta else 0 }

  function ShownDelta(from: Option<int>, to: Option<int>): Entry -> int
  {
    (e: Entry) => if Before(e, from) || !After(e, to) then e.delta else 0
  }

  lemma {:induction false} WalkSums(es: seq<Entry>, from: Option<int>, to: Option<int>)
    requires InOrder(es)
    ensures Walk(es, from, to).running == Sum(es, ShownDelta(from, to))
    ensures Walk(es, from, to).opening == Sum(es, BeforeDelta(from))
  {
    if es != [] {
      var n := |es| - 1;
      WalkSums(es[..n], from, to);
      if Before(es[n], from) {
        forall i | 0 <= i < n ensures Before(es[..n][i], from) {
          assert Day(es[i].at) <= Day(es[n].at);
        }
        SumSame(es[..n], es[..n], ShownDelta(from, to), BeforeDelta(from));
      }
    }
  }

  /** The entries of a window. */
  function Within(es: seq<Entry>, from: Option<int>, to: Option<int>): seq<Entry>
  {
    if es == [] then []
    else
      var n := |es| - 1;
      Within(es[..n], from, to) + if Before(es[n], from) || After(es[n], to) then [] else [es[n]]
  }

  /** From the first day to the last, both included; open-ended where a day is not given. */
  lemma {:induction false} WithinExact(es: seq<Entry>, from: Option<int>, to: Option<int>, e: Entry)
    ensures e in Within(es, from, to) <==>
            e in es && (from.Some? ==> from.value <= Day(e.at)) && (to.Some? ==> Day(e.at) <= to.value)
  {
    if es != [] {
      var n := |es| - 1;
      WithinExact(es[..n], from, to, e);
      assert e in es <==> e in es[..n] || e == es[n];
    }
  }

  lemma {:induction false} NoneWithin(es: seq<Entry>, from: Option<int>, to: Option<int>)
    requires forall i :: 0 <= i < |es| ==> Before(es[i], from)
    ensures Within(es, from, to) == [] && Walk(es, from, to).lines == []
  {
    if es != [] {
      NoneWithin(es[..|es| - 1], from, to);
    }
  }

  /** One line an entry, in order, each with the opening and all entries up to it as its balance. */
  function Lines(shown: seq<Entry>, opening: int): (r: seq<Item>)
    ensures |r| == |shown|
  {
    if shown == [] then []
    else
      var e, owed := shown[|shown| - 1], opening + Sum(shown, Delta());
      Lines(shown[..|shown| - 1], opening) + [Item(Day(e.at), e.kind, Rounded(e.up), Rounded(e.down), Quantize(owed))]
  }

  lemma {:induction false} LinesAppend(shown: seq<Entry>, e: Entry, opening: int)
    ensures Sum(shown + [e], Delta()) == Sum(shown, Delta()) + e.delta
    ensures Lines(shown + [e], opening) == Lines(shown, opening) +
            [Item(Day(e.at), e.kind, Rounded(e.up), Rounded(e.down), Quantize(opening + Sum(shown, Delta()) + e.delta))]
  {
    SumAppend(shown, e, Delta());
    assert (shown + [e])[..|shown|] == shown;
  }

  lemma {:induction false} LinesStep(w: Walked, shown: seq<Entry>, e: Entry, from: Option<int>, to: Option<int>)
    requires !Before(e, from) && !After(e, to)
    requires w.lines == Lines(shown, w.opening) && w.running == w.opening + Sum(shown, Delta())
    ensures var after := WalkOne(w, e, from, to);
            && after.lines == Lines(shown + [e], after.opening) && after.opening == w.opening
            && after.running == after.opening + Sum(shown + [e], Delta())
  {
    LinesAppend(shown, e, w.opening);
  }

  lemma {:induction false} AllBefore(es: seq<Entry>, from: Option<int>, to: Option<int>)
    requires InOrder(es) && es != [] && Before(es[|es| - 1], from)
    ensures Within(es, from, to) == [] && Walk(es, from, to).lines == []
  {
    forall i | 0 <= i < |es| ensures Before(es[i], from) {
      assert i < |es| - 1 ==> Day(es[i].at) <= Day(es[|es| - 1].at);
    }
    NoneWithin(es, from, to);
  }

  /** The loop with its running balance and its two guards writes exactly the lines of the window's entries. */
  lemma {:induction false} LinesRun(es: seq<Entry>, from: Option<int>, to: Option<int>)
    requires InOrder(es)
    ensures Walk(es, from, to).lines == Lines(Within(es, from, to), Walk(es, from, to).opening)
    ensures Walk(es, from, to).running == Walk(es, from, to).opening + Sum(Within(es, from, to), Delta())
  {
    if es != [] {
      var n := |es| - 1;
      if Before(es[n], from) {
        AllBefore(es, from, to);
      } else {
        LinesRun(es[..n], from, to);
        if After(es[n], to) {
          assert Within(es, from, to) == Within(es[..n], from, to);
        } else {
          LinesStep(Walk(es[..n], from, to), Within(es[..n], from, to), es[n], from, to);
        }
      }
    }
  }

  /** The last line shown carries the closing balance. */
  lemma {:induction false} LastLineCloses(es: seq<Entry>, from: Option<int>, to: Option<int>)
    requires InOrder(es)
    ensures var w := Walk(es, from, to);
            w.lines != [] ==> w.lines[|w.lines| - 1].balance == Quantize(w.running)
  {
    LinesRun(es, from, to);
  }

  /** A statement's lines: the window's entries by time, each with the balance it leaves. */
  lemma {:induction false} WindowLines(r: Rows, client: nat, c: Currency, from: Option<int>, to: Option<int>)
    ensures var es := StableSort(OfCurrency(Entries(r, client), c), ByTime());
            WalkFor(r, client, c, from, to).lines == Lines(Within(es, from, to), WalkFor(r, client, c, from, to).opening)
  {
    SortedInOrder(OfCurrency(Entries(r, client), c));
    LinesRun(StableSort(OfCurrency(Entries(r, client), c), ByTime()), from, to);
  }

  /** Any window's closing and opening, as plain sums over the client's timeline. */
  lemma {:induction false} WindowSums(r: Rows, client: nat, c: Currency, from: Option<int>, to: Option<int>)
    ensures var es := OfCurrency(Entries(r, client), c);
            && WalkFor(r, client, c, from, to).running == Sum(es, ShownDelta(from, to))
            && WalkFor(r, client, c, from, to).opening == Sum(es, BeforeDelta(from))
  {
    var es := OfCurrency(Entries(r, client), c);
    var s := StableSort(es, ByTime());
    SortedInOrder(es);
    WalkSums(s, from, to);
    SumPermuted(s, es, ShownDelta(from, to));
    SumPermuted(s, es, BeforeDelta(from));
  }

  lemma {:induction false} CurrencyMember(es: seq<Entry>, c: Currency, e: Entry)
    ensures e in OfCurrency(es, c) <==> e in es && e.currency == c
  {
    if es != [] {
      var n := |es| - 1;
      CurrencyMember(es[..n], c, e);
      assert e in es <==> e in es[..n] || e == es[n];
    }
  }

  /** A sheet is the window as walked. A currency has none only when the client has no entry in it, or the window shows no
      line, opens at zero and closes at zero. */
  lemma {:induction false} ServedExact(r: Rows, client: nat, c: Currency, from: Option<int>, to: Option<int>)
    ensures var sheet, w := Served(r, client, c, from, to), WalkFor(r, client, c, from, to);
            && (sheet.Some? ==>
                  && (exists e :: e in Entries(r, client) && e.currency == c)
                  && sheet.value.opening == OpeningOf(r, client, c, from, to) && sheet.value.lines == w.lines
                  && (to.Some? ==> sheet.value.closing == ClosingOf(r, client, c, from, to)))
            && (sheet.None? ==>
                  || (forall e :: e in Entries(r, client) ==> e.currency != c)
                  || (w.lines == [] && OpeningOf(r, client, c, from, to) == 0 && (to.Some? ==> ClosingOf(r, client, c, from, to) == 0)))
  {
    var es := OfCurrency(Entries(r, client), c);
    if es != [] {
      CurrencyMember(Entries(r, client), c, es[0]);
      assert es[0] in es;
    } else {
      forall e | e in Entries(r, client) ensures e.currency != c {
        CurrencyMember(Entries(r, client), c, e);
      }
    }
  }

  /** Adjacent windows chain: what [.., d-1] closes with, [d, ..] opens with, for every d. */
  lemma WindowsChain(r: Rows, client: nat, c: Currency, first: Option<int>, d: int, last: Option<int>)
    requires first.Some? ==> first.value <= d
    ensures OpeningOf(r, client, c, Some(d), last) == ClosingOf(r, client, c, first, Some(d - 1))
  {
    WindowSums(r, client, c, Some(d), last);
    WindowSums(r, client, c, first, Some(d - 1));
    var es := OfCurrency(Entries(r, client), c);
    SumSame(es, es, BeforeDelta(Some(d)), ShownDelta(first, Some(d - 1)));
  }

  /** An open-ended statement walks to the aggregate less the undated sales, whatever day it starts. */
  lemma {:induction false} WalkReachesAggregate(r: Rows, client: nat, c: Currency, from: Option<int>)
    requires OneCurrency(r, OwnRows(r, client, |r.payments|))
    ensures WalkFor(r, client, c, from, None).running == Owed(r, client, c) - Sum(r.sales, Undated(client, c))
  {
    var es := OfCurrency(Entries(r, client), c);
    WindowSums(r, client, c, from, None);
    SumSame(es, es, ShownDelta(from, None), Delta());
    CurrencySum(Entries(r, client), c);
    EntriesSum(r, client, c);
  }

  // ---- reachable books ----

  function RowsOf(b: Book, baselines: seq<Baseline>): Rows { Rows(baselines, b.sales, b.payments) }

  lemma {:induction false} OwnRowsAre(r: Rows, client: nat, n: nat)
    requires n <= |r.payments|
    ensures forall i :: 0 <= i < |OwnRows(r, client, n)| ==>
              var o := OwnRows(r, client, n)[i];
              o.pk < n && o.p == r.payments[o.pk] && SaleAt(r, o.p).Some?
  {
    if n > 0 {
      OwnRowsAre(r, client, n - 1);
    }
  }

  /** The payment services keep every batch on sales of one currency, so every group has one. */
  lemma {:induction false} BatchesHaveOneCurrency(b: Book, baselines: seq<Baseline>, client: nat)
    requires Inv(b)
    ensures OneCurrency(RowsOf(b, baselines), OwnRows(RowsOf(b, baselines), client, |b.payments|))
  {
    var r := RowsOf(b, baselines);
    var own := OwnRows(r, client, |b.payments|);
    OwnRowsAre(r, client, |b.payments|);
    forall i, j | 0 <= i < |own| && 0 <= j < |own| && KeyOf(own[i]) == KeyOf(own[j])
      ensures CurrencyOf(r, own[i]) == CurrencyOf(r, own[j])
    {
      if own[i].p.batch.Some? {
        assert PairOk(b, own[i].pk, own[j].pk);
      }
    }
  }

  /** Once the walk reaches the aggregate, serving the aggregate instead changes nothing. */
  lemma {:induction false} OverrideIdle(es: seq<Entry>, owed: int, from: Option<int>)
    requires Walk(StableSort(es, ByTime()), from, None).running == owed
    ensures var sheet := Serve(es, if Reported(Quantize(owed)) then Some(Quantize(owed)) else None, from, None);
            && (sheet.Some? ==> sheet.value.closing == Quantize(owed))
            && (sheet.None? ==> !Reported(Quantize(owed)))
  {
    QuantizeZero();
  }

  lemma QuantizeZero()
    ensures Quantize(0) == 0
  {
    Exact(0, SCALE);
  }

  ghost predicate Dated(sales: seq<Sale>)
  {
    forall s :: 0 <= s < |sales| && sales[s].status == Confirmed ==> sales[s].confirmedAt.Some?
  }

  /** Whatever the payment services keep is enough: with dated sales, the override of the closing changes nothing. */
  lemma {:induction false} StatementAgreesIn(b: Book, baselines: seq<Baseline>, client: nat, c: Currency, from: Option<int>)
    requires Inv(b) && Dated(b.sales)
    ensures var r := RowsOf(b, baselines);
            && ClosingOf(r, client, c, from, None) == Quantize(Owed(r, client, c))
            && (Served(r, client, c, from, None).Some? ==>
                  Served(r, client, c, from, None).value.closing == ClosingOf(r, client, c, from, None))
            && (Served(r, client, c, from, None).None? ==> !Reported(Quantize(Owed(r, client, c))))
  {
    var r := RowsOf(b, baselines);
    BatchesHaveOneCurrency(b, baselines, client);
    WalkReachesAggregate(r, client, c, from);
    SumZero(r.sales, Undated(client, c));
    OverrideIdle(OfCurrency(Entries(r, client), c), Owed(r, client, c), from);
  }

  /** In every book the payment services reach. */
  lemma {:induction false} StatementAgrees(step: int, ops: seq<Op>, baselines: seq<Baseline>, client: nat, c: Currency, from: Option<int>)
    requires Dated(Run(Opening(step), ops).sales)
    ensures var r := RowsOf(Run(Opening(step), ops), baselines);
            && ClosingOf(r, client, c, from, None) == Quantize(Owed(r, client, c))
            && (Served(r, client, c, from, None).Some? ==>
                  Served(r, client, c, from, None).value.closing == ClosingOf(r, client, c, from, None))
            && (Served(r, client, c, from, None).None? ==> !Reported(Quantize(Owed(r, client, c))))
  {
    RunInv(step, ops);
    StatementAgreesIn(Run(Opening(step), ops), baselines, client, c, from);
  }

  // ---- voids and debts ----

  lemma ContributionOdd(r: Rows, p: Payment, i: nat, now: int)
    ensures Contribution(r, Reversal(p, i, now)) == -Contribution(r, p)
  {
    ReversalNet(p, i, now);
    if SaleAt(r, p).Some? {
      HalfUpOdd(p.NetExact() * SCALE, SaleAt(r, p).value.rate);
      assert (-p.NetExact()) * SCALE == -(p.NetExact() * SCALE);
    }
  }

  lemma HalfUpOdd(n: int, d: int)
    requires d > 0
    ensures HalfUp(-n, d) == -HalfUp(n, d)
  {
    if n == 0 {
      Exact(0, d);
    }
  }

  /** Voiding a payment that is on a sale puts every client's debt in every currency back where it was. */
  lemma DebtRestored(r: Rows, i: nat, superuser: bool, now: int, client: nat, c: Currency)
    requires CanVoid(r.payments, i, superuser) && r.payments[i].order.Some?
    ensures Owed(r.(payments := VoidOf(r.payments, i, superuser, now)), client, c) ==
            Owed(r.(payments := Without(r.payments, i)), client, c)
  {
    var after, without := r.(payments := VoidOf(r.payments, i, superuser, now)), r.(payments := Without(r.payments, i));
    ContributionOdd(r, r.payments[i], i, now);
    SumSame(after.payments, after.payments, PaidIn(after, client, c), PaidIn(r, client, c));
    SumSame(without.payments, without.payments, PaidIn(without, client, c), PaidIn(r, client, c));
    SumAppend(r.payments, Reversal(r.payments[i], i, now), PaidIn(r, client, c));
    SumWithout(r.payments, i, PaidIn(r, client, c));
  }

  /** The aggregate over other payment rows of the same sales. */
  lemma {:induction false} OwedWith(r: Rows, payments: seq<Payment>, client: nat, c: Currency)
    ensures Owed(r.(payments := payments), client, c) ==
            Sum(r.baselines, BaselineIn(client, c)) + Sum(r.sales, SoldIn(client, c)) - Sum(payments, PaidIn(r, client, c))
  {
    SumSame(payments, payments, PaidIn(r.(payments := payments), client, c), PaidIn(r, client, c));
  }

  lemma MirrorInDebt(r: Rows, p: Payment, i: nat, now: int, client: nat, c: Currency)
    ensures PaidIn(r, client, c)(Reversal(p, i, now)) == -PaidIn(r, client, c)(p)
  {
    ContributionOdd(r, p, i, now);
  }

  /** Voiding a standing batch takes exactly its rows out of every client's debt in every currency. */
  lemma {:induction false} BatchDebtRestored(b: Book, baselines: seq<Baseline>, batch: nat, superuser: bool, now: int, client: nat, c: Currency)
    requires Inv(b) && CanVoidBatch(b.payments, Some(batch), superuser)
    ensures var r := RowsOf(b, baselines);
            Owed(r.(payments := VoidBatchOf(b.payments, Some(batch), superuser, now)), client, c) ==
            Sum(r.baselines, BaselineIn(client, c)) + Sum(r.sales, SoldIn(client, c))
            - Sum(b.payments, Unless(PaidIn(r, client, c), batch))
  {
    var r := RowsOf(b, baselines);
    BatchStands(b, batch);
    forall i: nat | InBatch(b.payments, batch, i)
      ensures PaidIn(r, client, c)(Reversal(b.payments[i], i, now)) == -PaidIn(r, client, c)(b.payments[i])
    {
      MirrorInDebt(r, b.payments[i], i, now, client, c);
    }
    BatchTakenOut(b.payments, batch, now, PaidIn(r, client, c));
    OwedWith(r, VoidBatchOf(b.payments, Some(batch), superuser, now), client, c);
  }

  /** Voiding a deposit and then handing its order over: a client's debt is as if it had never been exactly when the
      payment was already on a sale, was no deposit of that order, or would have come to nothing in that debt. */
  lemma DebtAfterVoidThenLink(r: Rows, i: nat, superuser: bool, now: int, production: nat, s: nat, client: nat, c: Currency)
    requires CanVoid(r.payments, i, superuser)
    ensures var p := r.payments[i];
            Owed(r.(payments := Linked(VoidOf(r.payments, i, superuser, now), production, s)), client, c) ==
            Owed(r.(payments := Linked(Without(r.payments, i), production, s)), client, c) <==>
            p.order.Some? || p.production != Some(production) || PaidIn(r, client, c)(p.(order := Some(s))) == 0
  {
    MirrorInDebt(r, r.payments[i], i, now, client, c);
    OwedWith(r, Linked(VoidOf(r.payments, i, superuser, now), production, s), client, c);
    OwedWith(r, Linked(Without(r.payments, i), production, s), client, c);
    VoidThenLinkGap(r.payments, i, superuser, now, production, s, PaidIn(r, client, c));
  }
}
