/** The past stays: what a call of the payment services appends, which days of a statement it cannot reach, and which
    payments it cannot void. */
module Past {
  import opened Sums
  import opened Models
  import opened Till
  import opened Voids
  import opened Statement
  import opened Reconcile

  // ---- what a call appends ----

  function Moment(op: Op): Option<int>
  {
    match op
    case Record(req) => Some(req.now)
    case Settle(_, now) => Some(now)
    case PayOldest(_, _, _, now) => Some(now)
    case Void(_, _, now) => Some(now)
    case VoidBatch(_, _, now) => Some(now)
    case Deposit(_, _, _, _, now) => Some(now)
    case _ => None
  }

  predicate BySuperuser(op: Op) { (op.Void? || op.VoidBatch?) && op.superuser }

  /** A payment of a sale is its client's, any other is the deposit asked for; only a repayment opens a batch, and its
      rows are on the client's confirmed sales in the currency repaid. */
  predicate NewOriginal(b: Book, op: Op, p: Payment)
  {
    && !p.reviewed
    && (p.batch.Some? ==> op.PayOldest? && p.batch == Some(b.nextBatch))
    && (op.PayOldest? ==> p.batch.Some? && p.order.Some? && p.client == op.client && p.currency == op.currency)
    && (p.order.Some? ==> p.order.value < |b.sales| && b.sales[p.order.value].client == Some(p.client))
    && (op.PayOldest? && p.order.Some? ==>
          b.sales[p.order.value].currency == op.currency && b.sales[p.order.value].status == Confirmed)
    && (p.order.None? ==> op.Deposit? && p.production == Some(op.production) && p.client == op.client)
  }

  /** A mirror row undoes one standing original, a reviewed one only for a superuser, a batched one with its batch. */
  predicate NewMirror(b: Book, op: Op, p: Payment, i: nat)
  {
    && i < |b.payments| && b.payments[i].reverses.None? && !Voided(b.payments, i)
    && p == Reversal(b.payments[i], i, p.createdAt)
    && (b.payments[i].reviewed ==> BySuperuser(op))
    && (p.batch.Some? ==> op.VoidBatch? && op.batch == p.batch)
  }

  predicate NewRow(b: Book, op: Op, p: Payment)
  {
    && Moment(op) == Some(p.createdAt)
    && if p.reverses.None? then NewOriginal(b, op, p) else NewMirror(b, op, p, p.reverses.value)
  }

  predicate Added(b: Book, op: Op, payments: seq<Payment>)
  {
    b.payments <= payments && forall k :: |b.payments| <= k < |payments| ==> NewRow(b, op, payments[k])
  }

  /** A confirmed sale of the client in the currency. */
  predicate SaleOf(b: Book, s: nat, client: nat, currency: Currency)
  {
    s < |b.sales| && b.sales[s].client == Some(client) && b.sales[s].currency == currency && b.sales[s].status == Confirmed
  }

  predicate ShareRow(b: Book, client: nat, currency: Currency, batch: nat, now: int, p: Payment)
  {
    && !p.reviewed && p.reverses.None? && p.batch == Some(batch) && p.createdAt == now
    && p.client == client && p.currency == currency && p.order.Some? && SaleOf(b, p.order.value, client, currency)
  }

  lemma ShareAdds(b: Book, s: nat, share: int, client: nat, currency: Currency, batch: nat, now: int)
    requires SaleOf(b, s, client, currency) && PayShare(b, s, share, currency, batch, now).Some?
    ensures var d := PayShare(b, s, share, currency, batch, now).value;
            b.payments <= d.payments && |d.payments| <= |b.payments| + 1
            && forall k :: |b.payments| <= k < |d.payments| ==> ShareRow(b, client, currency, batch, now, d.payments[k])
  {
  }

  lemma {:induction false} SharesAdd(b: Book, ids: seq<nat>, shares: seq<int>, client: nat, currency: Currency, batch: nat, now: int)
    requires |shares| <= |ids| && forall i :: 0 <= i < |ids| ==> ids[i] < |b.sales| && SaleOf(b, ids[i], client, currency)
    requires PayShares(b, ids, shares, currency, batch, now).Some?
    ensures var d := PayShares(b, ids, shares, currency, batch, now).value;
            b.payments <= d.payments
            && forall k :: |b.payments| <= k < |d.payments| ==> ShareRow(b, client, currency, batch, now, d.payments[k])
    decreases |shares|
  {
    if shares != [] {
      var n := |shares| - 1;
      SharesAdd(b, ids, shares[..n], client, currency, batch, now);
      var mid, d := PayShares(b, ids, shares[..n], currency, batch, now).value, PayShares(b, ids, shares, currency, batch, now).value;
      ShareAdds(mid, ids[n], shares[n], client, currency, batch, now);
      forall k | |b.payments| <= k < |d.payments| ensures ShareRow(b, client, currency, batch, now, d.payments[k]) {
        assert k < |mid.payments| ==> d.payments[k] == mid.payments[k];
        assert k >= |mid.payments| ==> ShareRow(mid, client, currency, batch, now, d.payments[k]);
      }
    }
  }

  lemma PayOldestAdds(b: Book, client: nat, currency: Currency, amount: int, now: int)
    requires PayOldestOf(b, client, currency, amount, now).Some?
    ensures Added(b, PayOldest(client, currency, amount, now), PayOldestOf(b, client, currency, amount, now).value.payments)
  {
    var ids := OldestFirst(b, client, currency);
    BatchAdds(b, ids, Shares(Balances(b, ids), amount), client, currency, now);
    var d := PayOldestOf(b, client, currency, amount, now).value;
    forall k | |b.payments| <= k < |d.payments| ensures NewRow(b, PayOldest(client, currency, amount, now), d.payments[k]) {
      ShareIsNew(b, client, currency, amount, now, d.payments[k]);
    }
  }

  lemma ShareIsNew(b: Book, client: nat, currency: Currency, amount: int, now: int, p: Payment)
    requires ShareRow(b, client, currency, b.nextBatch, now, p)
    ensures NewRow(b, PayOldest(client, currency, amount, now), p)
  {
  }

  lemma BatchAdds(b: Book, ids: seq<nat>, shares: seq<int>, client: nat, currency: Currency, now: int)
    requires |shares| <= |ids| && forall i :: 0 <= i < |ids| ==> ids[i] < |b.sales| && SaleOf(b, ids[i], client, currency)
    requires BatchOf(b, ids, shares, currency, now).Some?
    ensures var d := BatchOf(b, ids, shares, currency, now).value;
            b.payments <= d.payments
            && forall k :: |b.payments| <= k < |d.payments| ==> ShareRow(b, client, currency, b.nextBatch, now, d.payments[k])
  {
    var mid := b.(nextBatch := b.nextBatch + 1);
    SharesAdd(mid, ids, shares, client, currency, b.nextBatch, now);
    var d := BatchOf(b, ids, shares, currency, now).value;
    forall k | |b.payments| <= k < |d.payments| ensures ShareRow(b, client, currency, b.nextBatch, now, d.payments[k]) {
      assert ShareRow(mid, client, currency, b.nextBatch, now, d.payments[k]);
    }
  }

  lemma VoidBatchAdds(b: Book, batch: nat, superuser: bool, now: int)
    requires CanVoidBatch(b.payments, Some(batch), superuser)
    ensures Added(b, VoidBatch(Some(batch), superuser, now), VoidBatchOf(b.payments, Some(batch), superuser, now))
  {
    var ids := ToVoid(b.payments, batch, |b.payments|);
    var op, after := VoidBatch(Some(batch), superuser, now), VoidBatchOf(b.payments, Some(batch), superuser, now);
    forall k | |b.payments| <= k < |after| ensures NewRow(b, op, after[k]) {
      var i := ids[k - |b.payments|];
      assert after[k] == Reversal(b.payments[i], i, now);
    }
  }

  lemma RowAdds(b: Book, op: Op, p: Payment)
    requires NewRow(b, op, p)
    ensures Added(b, op, b.payments + [p])
  {
  }

  lemma PaymentAdds(b: Book, op: Op, r: Request)
    requires (op.Record? || op.Settle?) && r.batch.None? && Moment(op) == Some(r.now)
    ensures Added(b, op, AfterPay(b, PayResultOf(b, r)).payments)
  {
    if PayResultOf(b, r).Recorded? {
      RowAdds(b, op, PayResultOf(b, r).payment);
    }
  }

  /** Every payment service only appends, and what it appends carries its time and its owner. */
  lemma OpAdds(b: Book, op: Op)
    requires Moment(op).Some?
    ensures Added(b, op, Apply(b, op).payments)
  {
    match op
    case Record(req) => if req.batch.None? { PaymentAdds(b, op, req); }
    case Settle(s, now) => if s < |b.sales| { PaymentAdds(b, op, SettleRequest(b, s, now)); }
    case PayOldest(client, currency, amount, now) =>
      if PayOldestOf(b, client, currency, amount, now).Some? {
        PayOldestAdds(b, client, currency, amount, now);
      }
    case Void(i, superuser, now) =>
      if CanVoid(b.payments, i, superuser) {
        RowAdds(b, op, Reversal(b.payments[i], i, now));
      }
    case VoidBatch(batch, superuser, now) =>
      if CanVoidBatch(b.payments, batch, superuser) {
        VoidBatchAdds(b, batch.value, superuser, now);
      }
    case Deposit(production, client, amount, currency, now) =>
      if amount > 0 {
        RowAdds(b, op, DepositRow(b, production, client, amount, currency, now));
      }
    case _ =>
  }

  lemma SalesKept(b: Book, op: Op)
    requires Moment(op).Some?
    ensures Apply(b, op).sales == b.sales
  {
  }

  // ---- the entries ----

  lemma DayHolds(t: int)
    ensures Midnight(Day(t)) <= t < Midnight(Day(t) + 1)
    ensures forall d: int :: Day(Midnight(d)) == d
    ensures Midnight(1) == 18 * 3600
  {
  }

  lemma {:induction false} EarliestIs(group: seq<Own>)
    requires group != []
    ensures forall i :: 0 <= i < |group| ==> Earliest(group) <= group[i].p.createdAt
    ensures exists i :: 0 <= i < |group| && group[i].p.createdAt == Earliest(group)
  {
    if |group| == 1 {
      assert group[0].p.createdAt == Earliest(group);
    } else {
      var n := |group| - 1;
      EarliestIs(group[..n]);
      assert group[n].p.createdAt == Earliest(group) || Earliest(group[..n]) == Earliest(group);
      var i :| 0 <= i < n && group[..n][i].p.createdAt == Earliest(group[..n]);
      assert group[i].p.createdAt == Earliest(group[..n]);
    }
  }

  function Column(x: Option<int>): int { if x.Some? then x.value else 0 }

  /** The two columns of an entry add up to what it does to the balance. */
  predicate ColumnsRight(e: Entry) { Column(e.up) - Column(e.down) == e.delta && (e.up.None? || e.down.None?) }

  predicate FromBaseline(x: Baseline, client: nat, e: Entry)
  {
    x.client == client && x.currency == e.currency && e.at == Midnight(x.asOf) && e.delta == x.amount * SCALE
  }

  predicate FromSale(s: Sale, client: nat, e: Entry)
  {
    && s.status == Confirmed && s.client == Some(client) && s.currency == e.currency && s.confirmedAt == Some(e.at)
    && e.up == Some(e.delta) && e.delta == s.total * SCALE
  }

  /** A payment of the client on a sale, or one undone. */
  predicate FromPayment(r: Rows, p: Payment, client: nat, e: Entry)
  {
    p.client == client && SaleAt(r, p).Some? && p.createdAt == e.at && (p.reverses.Some? <==> e.kind == Undone)
  }

  /** An entry is what its kind says, from a row of the client, at the row's time. */
  ghost predicate Booked(r: Rows, client: nat, e: Entry)
  {
    && ColumnsRight(e)
    && match e.kind
       case OpeningBalance => exists k :: 0 <= k < |r.baselines| && FromBaseline(r.baselines[k], client, e)
       case Purchase => exists k :: 0 <= k < |r.sales| && FromSale(r.sales[k], client, e)
       case _ => exists k :: 0 <= k < |r.payments| && FromPayment(r, r.payments[k], client, e)
  }

  lemma {:induction false} BaselinesBooked(r: Rows, client: nat, n: nat)
    requires n <= |r.baselines|
    ensures forall i :: 0 <= i < |BaselineEntries(r.baselines[..n], client)| ==>
              Booked(r, client, BaselineEntries(r.baselines[..n], client)[i])
  {
    if n > 0 {
      assert r.baselines[..n][..n - 1] == r.baselines[..n - 1];
      BaselinesBooked(r, client, n - 1);
      assert r.baselines[n - 1].client == client ==> FromBaseline(r.baselines[n - 1], client, BaselineEntry(r.baselines[n - 1]));
    }
  }

  lemma {:induction false} SalesBooked(r: Rows, client: nat, n: nat)
    requires n <= |r.sales|
    ensures forall i :: 0 <= i < |SaleEntries(r.sales[..n], client)| ==> Booked(r, client, SaleEntries(r.sales[..n], client)[i])
  {
    if n > 0 {
      assert r.sales[..n][..n - 1] == r.sales[..n - 1];
      SalesBooked(r, client, n - 1);
      assert OnStatement(r.sales[n - 1], client) ==> FromSale(r.sales[n - 1], client, SaleEntry(r.sales[n - 1]));
    }
  }

  /** Rows of the client, all on sales. */
  predicate Theirs(r: Rows, client: nat, own: seq<Own>)
  {
    forall i :: 0 <= i < |own| ==>
      own[i].pk < |r.payments| && own[i].p == r.payments[own[i].pk] && own[i].p.client == client && SaleAt(r, own[i].p).Some?
  }

  lemma {:induction false} GroupBooked(r: Rows, client: nat, own: seq<Own>, k: Key)
    requires Theirs(r, client, own) && Members(own, k) != []
    ensures Booked(r, client, GroupEntry(r, Members(own, k)))
  {
    var group := Members(own, k);
    EarliestIs(group);
    var i :| 0 <= i < |group| && group[i].p.createdAt == Earliest(group);
    assert group[i] in own && group[0] in own;
    assert KeyOf(group[i]) == KeyOf(group[0]);
    if group[i].p.batch.None? {
      assert group[i].p == r.payments[group[i].pk] && group[0].p == r.payments[group[0].pk];
    }
    assert FromPayment(r, r.payments[group[i].pk], client, GroupEntry(r, group));
  }

  lemma {:induction false} OwnRowsTheirs(r: Rows, client: nat, n: nat)
    requires n <= |r.payments|
    ensures Theirs(r, client, OwnRows(r, client, n))
  {
    if n > 0 {
      OwnRowsTheirs(r, client, n - 1);
    }
  }

  lemma {:induction false} GroupsBooked(r: Rows, client: nat, own: seq<Own>, keys: seq<Key>, e: Entry)
    requires Theirs(r, client, own) && keys == Keys(own) && e in GroupEntries(r, own, keys)
    ensures Booked(r, client, e)
  {
    var es := GroupEntries(r, own, keys);
    var i :| 0 <= i < |es| && es[i] == e;
    GroupBooked(r, client, own, keys[i]);
  }

  lemma InOneOf<T>(a: seq<T>, b: seq<T>, d: seq<T>, x: T)
    requires x in a + b + d
    ensures x in a || x in b || x in d
  {
  }

  /** Every entry of the statement. */
  lemma {:induction false} EntriesBooked(r: Rows, client: nat, e: Entry)
    requires e in Entries(r, client)
    ensures Booked(r, client, e)
  {
    var own := OwnRows(r, client, |r.payments|);
    InOneOf(BaselineEntries(r.baselines, client), SaleEntries(r.sales, client), GroupEntries(r, own, Keys(own)), e);
    if e in GroupEntries(r, own, Keys(own)) {
      OwnRowsTheirs(r, client, |r.payments|);
      GroupsBooked(r, client, own, Keys(own), e);
    } else {
      BaselinesBooked(r, client, |r.baselines|);
      SalesBooked(r, client, |r.sales|);
      assert r.baselines[..|r.baselines|] == r.baselines && r.sales[..|r.sales|] == r.sales;
    }
  }

  // ---- what a later row cannot reach ----

  lemma {:induction false} OwnRowsSame(r: Rows, q: Rows, client: nat, n: nat)
    requires q.sales == r.sales && n <= |r.payments| && n <= |q.payments| && q.payments[..n] == r.payments[..n]
    ensures OwnRows(q, client, n) == OwnRows(r, client, n)
  {
    if n > 0 {
      assert q.payments[..n][n - 1] == r.payments[..n][n - 1];
      assert q.payments[..n - 1] == q.payments[..n][..n - 1] && r.payments[..n - 1] == r.payments[..n][..n - 1];
      OwnRowsSame(r, q, client, n - 1);
    }
  }

  /** The client's rows among the payments from n to m. */
  function Tail(r: Rows, client: nat, n: nat, m: nat): seq<Own>
    requires n <= m <= |r.payments|
    decreases m
  {
    if m == n then []
    else
      Tail(r, client, n, m - 1) +
      if r.payments[m - 1].client == client && SaleAt(r, r.payments[m - 1]).Some? then [Own(m - 1, r.payments[m - 1])] else []
  }

  lemma {:induction false} OwnRowsTail(r: Rows, client: nat, n: nat, m: nat)
    requires n <= m <= |r.payments|
    ensures OwnRows(r, client, m) == OwnRows(r, client, n) + Tail(r, client, n, m)
    ensures forall i :: 0 <= i < |Tail(r, client, n, m)| ==>
              var o := Tail(r, client, n, m)[i]; n <= o.pk < m && o.p == r.payments[o.pk]
  {
    if n < m {
      OwnRowsTail(r, client, n, m - 1);
    }
  }

  lemma {:induction false} MembersConcat(own: seq<Own>, tail: seq<Own>, k: Key)
    ensures Members(own + tail, k) == Members(own, k) + Members(tail, k)
  {
    if tail == [] {
      assert own + tail == own;
    } else {
      var n := |tail| - 1;
      MembersConcat(own, tail[..n], k);
      assert (own + tail)[..|own + tail| - 1] == own + tail[..n];
    }
  }

  lemma {:induction false} KeysGrow(own: seq<Own>, n: nat)
    requires |own| == n + 1
    ensures Keys(own[..n]) <= Keys(own)
  {
  }

  lemma PrefixPrefix<T>(a: seq<T>, b: seq<T>, c: seq<T>)
    requires a <= b && b <= c
    ensures a <= c
  {
  }

  lemma {:induction false} KeysConcat(own: seq<Own>, tail: seq<Own>)
    ensures Keys(own) <= Keys(own + tail)
  {
    if tail == [] {
      assert own + tail == own;
    } else {
      var n := |tail| - 1;
      KeysConcat(own, tail[..n]);
      KeysGrow(own + tail, |own| + n);
      assert (own + tail)[..|own| + n] == own + tail[..n];
      PrefixPrefix(Keys(own), Keys(own + tail[..n]), Keys(own + tail));
    }
  }

  /** None of the later rows falls into a group that is already there. */
  predicate FreshKeys(own: seq<Own>, tail: seq<Own>)
  {
    forall i :: 0 <= i < |tail| ==> KeyOf(tail[i]) !in Keys(own)
  }

  /** Blind to everything after day d. */
  predicate SeesUpTo(f: Entry -> int, e: Entry, d: int) { Day(e.at) > d ==> f(e) == 0 }

  lemma {:induction false} NoMembers(own: seq<Own>, k: Key)
    requires forall i :: 0 <= i < |own| ==> KeyOf(own[i]) != k
    ensures Members(own, k) == []
  {
    if own != [] {
      NoMembers(own[..|own| - 1], k);
    }
  }

  lemma {:induction false} NoOldMembers(tail: seq<Own>, own: seq<Own>, k: Key)
    requires FreshKeys(own, tail) && k in Keys(own)
    ensures Members(tail, k) == []
  {
    NoMembers(tail, k);
  }

  lemma GroupSame(r: Rows, q: Rows, group: seq<Own>)
    requires q.sales == r.sales && group != []
    ensures GroupEntry(q, group) == GroupEntry(r, group)
  {
    SumSame(group, group, Worth(q), Worth(r));
  }

  lemma LateGroup(r: Rows, group: seq<Own>, d: int)
    requires group != [] && forall i :: 0 <= i < |group| ==> Day(group[i].p.createdAt) > d
    ensures Day(GroupEntry(r, group).at) > d
  {
    EarliestIs(group);
  }

  lemma {:induction false} NewGroup(own: seq<Own>, tail: seq<Own>, k: Key)
    requires k !in Keys(own) && k in Keys(own + tail)
    ensures Members(tail, k) != [] && Members(own + tail, k) == Members(tail, k)
  {
    MembersConcat(own, tail, k);
    NoMembers(own, k);
    var j :| 0 <= j < |own + tail| && KeyOf((own + tail)[j]) == k;
  }

  lemma {:induction false} OldGroup(own: seq<Own>, tail: seq<Own>, k: Key)
    requires FreshKeys(own, tail) && k in Keys(own)
    ensures Members(own + tail, k) == Members(own, k)
  {
    MembersConcat(own, tail, k);
    NoOldMembers(tail, own, k);
  }

  function WorthOfGroup(r: Rows, own: seq<Own>, f: Entry -> int): Key -> int
  {
    (k: Key) => if Members(own, k) != [] then f(GroupEntry(r, Members(own, k))) else 0
  }

  lemma {:induction false} GroupsAsKeys(r: Rows, own: seq<Own>, f: Entry -> int)
    ensures Sum(GroupEntries(r, own, Keys(own)), f) == Sum(Keys(own), WorthOfGroup(r, own, f))
  {
    SumSame(GroupEntries(r, own, Keys(own)), Keys(own), f, WorthOfGroup(r, own, f));
  }

  lemma {:induction false} OldKey(r: Rows, q: Rows, own: seq<Own>, tail: seq<Own>, f: Entry -> int, k: Key)
    requires q.sales == r.sales && FreshKeys(own, tail) && k in Keys(own)
    ensures WorthOfGroup(q, own + tail, f)(k) == WorthOfGroup(r, own, f)(k)
  {
    OldGroup(own, tail, k);
    if Members(own, k) != [] {
      GroupSame(r, q, Members(own, k));
    }
  }

  lemma {:induction false} NewKey(q: Rows, own: seq<Own>, tail: seq<Own>, f: Entry -> int, d: int, k: Key)
    requires forall i :: 0 <= i < |tail| ==> Day(tail[i].p.createdAt) > d
    requires forall e :: SeesUpTo(f, e, d)
    requires k !in Keys(own) && k in Keys(own + tail)
    ensures WorthOfGroup(q, own + tail, f)(k) == 0
  {
    NewGroup(own, tail, k);
    var group := Members(tail, k);
    forall i | 0 <= i < |group| ensures Day(group[i].p.createdAt) > d {
      assert group[i] in tail;
    }
    LateGroup(q, group, d);
    assert SeesUpTo(f, GroupEntry(q, group), d);
  }

  /** Groups made of later rows add nothing to what is seen of the groups there were. */
  lemma {:induction false} LaterGroups(r: Rows, q: Rows, own: seq<Own>, tail: seq<Own>, f: Entry -> int, d: int)
    requires q.sales == r.sales && FreshKeys(own, tail) && forall i :: 0 <= i < |tail| ==> Day(tail[i].p.createdAt) > d
    requires forall e :: SeesUpTo(f, e, d)
    ensures Sum(GroupEntries(q, own + tail, Keys(own + tail)), f) == Sum(GroupEntries(r, own, Keys(own)), f)
  {
    KeysConcat(own, tail);
    GroupsAsKeys(q, own + tail, f);
    GroupsAsKeys(r, own, f);
    forall k | k in Keys(own) ensures WorthOfGroup(q, own + tail, f)(k) == WorthOfGroup(r, own, f)(k) {
      OldKey(r, q, own, tail, f, k);
    }
    forall k | k in Keys(own + tail) && k !in Keys(own) ensures WorthOfGroup(q, own + tail, f)(k) == 0 {
      NewKey(q, own, tail, f, d, k);
    }
    MoreKeys(Keys(own), Keys(own + tail), WorthOfGroup(r, own, f), WorthOfGroup(q, own + tail, f));
  }

  /** Keys that come after and count for nothing leave a sum over keys as it was. */
  lemma {:induction false} MoreKeys(keys: seq<Key>, all: seq<Key>, f: Key -> int, g: Key -> int)
    requires keys <= all && forall i, j :: 0 <= i < j < |all| ==> all[i] != all[j]
    requires forall k :: k in keys ==> g(k) == f(k)
    requires forall k :: k in all && k !in keys ==> g(k) == 0
    ensures Sum(all, g) == Sum(keys, f)
  {
    if all == keys {
      SumSame(all, keys, g, f);
    } else {
      var n := |all| - 1;
      assert all[n] !in keys by {
        forall i | 0 <= i < |keys| ensures keys[i] != all[n] {
          assert keys[i] == all[..|keys|][i];
        }
      }
      assert all[..n][..|keys|] == keys;
      MoreKeys(keys, all[..n], f, g);
    }
  }

  // ---- the past stays ----

  function InCurrency(c: Currency, f: Entry -> int): Entry -> int { (e: Entry) => if e.currency == c then f(e) else 0 }

  lemma {:induction false} OfCurrencySum(es: seq<Entry>, c: Currency, f: Entry -> int)
    ensures Sum(OfCurrency(es, c), f) == Sum(es, InCurrency(c, f))
  {
    if es != [] {
      var n := |es| - 1;
      OfCurrencySum(es[..n], c, f);
      if es[n].currency == c {
        SumAppend(OfCurrency(es[..n], c), es[n], f);
      } else {
        assert OfCurrency(es, c) == OfCurrency(es[..n], c);
      }
    }
  }

  /** A row that a call writes never joins a group that is already there. */
  lemma NewKeyIsFresh(b: Book, op: Op, p: Payment, pk: nat, o: Own)
    requires Inv(b) && NewRow(b, op, p) && o.pk < |b.payments| <= pk && o.p == b.payments[o.pk]
    ensures KeyOf(Own(pk, p)) != KeyOf(o)
  {
    assert BatchRowOk(b, o.pk) && ReversalOk(b.payments, o.pk);
    if p.reverses.Some? && p.batch.Some? && o.p.batch == p.batch && o.p.reverses.Some? {
      var i, j := p.reverses.value, o.p.reverses.value;
      assert PairOk(b, i, j);
      assert Voided(b.payments, j);
    }
  }

  lemma {:induction false} NewKeysAreFresh(b: Book, op: Op, q: Rows, own: seq<Own>, tail: seq<Own>)
    requires Inv(b) && Added(b, op, q.payments)
    requires forall i :: 0 <= i < |own| ==> own[i].pk < |b.payments| && own[i].p == b.payments[own[i].pk]
    requires forall i :: 0 <= i < |tail| ==> |b.payments| <= tail[i].pk < |q.payments| && tail[i].p == q.payments[tail[i].pk]
    ensures FreshKeys(own, tail)
  {
    forall i | 0 <= i < |tail| ensures KeyOf(tail[i]) !in Keys(own) {
      forall j | 0 <= j < |own| ensures KeyOf(tail[i]) != KeyOf(own[j]) {
        NewKeyIsFresh(b, op, tail[i].p, tail[i].pk, own[j]);
      }
    }
  }

  lemma {:induction false} OwnGrows(b: Book, op: Op, r: Rows, q: Rows, client: nat, d: int) returns (tail: seq<Own>)
    requires Inv(b) && r.payments == b.payments && q.sales == r.sales && Added(b, op, q.payments)
    requires Moment(op).Some? && Day(Moment(op).value) > d
    ensures OwnRows(q, client, |q.payments|) == OwnRows(r, client, |r.payments|) + tail
    ensures FreshKeys(OwnRows(r, client, |r.payments|), tail)
    ensures forall i :: 0 <= i < |tail| ==> Day(tail[i].p.createdAt) > d
  {
    var n := |b.payments|;
    tail := Tail(q, client, n, |q.payments|);
    OwnRowsSame(r, q, client, n);
    OwnRowsTail(q, client, n, |q.payments|);
    OwnRowsAre(r, client, n);
    NewKeysAreFresh(b, op, q, OwnRows(r, client, n), tail);
    forall i | 0 <= i < |tail| ensures Day(tail[i].p.createdAt) > d {
      assert NewRow(b, op, q.payments[tail[i].pk]);
    }
  }

  lemma {:induction false} EntriesSplit(r: Rows, client: nat, f: Entry -> int)
    ensures var own := OwnRows(r, client, |r.payments|);
            Sum(Entries(r, client), f) ==
            Sum(BaselineEntries(r.baselines, client), f) + Sum(SaleEntries(r.sales, client), f)
            + Sum(GroupEntries(r, own, Keys(own)), f)
  {
    var own := OwnRows(r, client, |r.payments|);
    SumThree(BaselineEntries(r.baselines, client), SaleEntries(r.sales, client), GroupEntries(r, own, Keys(own)), f);
  }

  /** What was to be seen of a client's entries up to the day before the call is still to be seen, and nothing else. */
  lemma {:induction false} EntriesKept(b: Book, op: Op, r: Rows, q: Rows, client: nat, f: Entry -> int, d: int)
    requires Inv(b) && r.payments == b.payments && q == r.(payments := q.payments) && Added(b, op, q.payments)
    requires Moment(op).Some? && Day(Moment(op).value) > d && forall e :: SeesUpTo(f, e, d)
    ensures Sum(Entries(q, client), f) == Sum(Entries(r, client), f)
  {
    var tail := OwnGrows(b, op, r, q, client, d);
    LaterGroups(r, q, OwnRows(r, client, |r.payments|), tail, f, d);
    EntriesSplit(r, client, f);
    EntriesSplit(q, client, f);
  }

  lemma {:induction false} SeenKept(b: Book, op: Op, r: Rows, q: Rows, client: nat, c: Currency, f: Entry -> int, d: int)
    requires Inv(b) && r.payments == b.payments && q == r.(payments := q.payments) && Added(b, op, q.payments)
    requires Moment(op).Some? && Day(Moment(op).value) > d && forall e :: SeesUpTo(f, e, d)
    ensures Sum(OfCurrency(Entries(q, client), c), f) == Sum(OfCurrency(Entries(r, client), c), f)
  {
    OfCurrencySum(Entries(r, client), c, f);
    OfCurrencySum(Entries(q, client), c, f);
    forall e ensures SeesUpTo(InCurrency(c, f), e, d) {
      assert SeesUpTo(f, e, d);
    }
    EntriesKept(b, op, r, q, client, InCurrency(c, f), d);
  }

  /** A statement ending on day d opens and closes with the same. */
  predicate SamePast(r: Rows, q: Rows, client: nat, c: Currency, from: Option<int>, d: int)
  {
    && ClosingOf(q, client, c, from, Some(d)) == ClosingOf(r, client, c, from, Some(d))
    && OpeningOf(q, client, c, from, Some(d)) == OpeningOf(r, client, c, from, Some(d))
  }

  lemma WindowBlind(from: Option<int>, d: int)
    requires from.Some? ==> from.value <= d + 1
    ensures forall e :: SeesUpTo(ShownDelta(from, Some(d)), e, d)
    ensures forall e :: SeesUpTo(BeforeDelta(from), e, d)
  {
  }

  lemma {:induction false} WindowKept(b: Book, op: Op, r: Rows, q: Rows, client: nat, c: Currency, from: Option<int>, d: int)
    requires Inv(b) && r.payments == b.payments && q == r.(payments := q.payments) && Added(b, op, q.payments)
    requires Moment(op).Some? && Day(Moment(op).value) > d && (from.Some? ==> from.value <= d + 1)
    ensures SamePast(r, q, client, c, from, d)
  {
    WindowBlind(from, d);
    SeenKept(b, op, r, q, client, c, ShownDelta(from, Some(d)), d);
    SeenKept(b, op, r, q, client, c, BeforeDelta(from), d);
    WindowSums(r, client, c, from, Some(d));
    WindowSums(q, client, c, from, Some(d));
  }

  /** No payment, repayment, deposit or void changes what a statement ending before its day opens or closes with. */
  lemma {:induction false} PastIsKept(b: Book, baselines: seq<Baseline>, op: Op, client: nat, c: Currency, from: Option<int>, d: int)
    requires Inv(b) && Moment(op).Some? && Day(Moment(op).value) > d && (from.Some? ==> from.value <= d + 1)
    ensures SamePast(RowsOf(b, baselines), RowsOf(Apply(b, op), baselines), client, c, from, d)
  {
    OpAdds(b, op);
    SalesKept(b, op);
    WindowKept(b, op, RowsOf(b, baselines), RowsOf(Apply(b, op), baselines), client, c, from, d);
  }

  // ---- reviewed payments stand ----

  predicate StandsReviewed(payments: seq<Payment>, i: nat)
  {
    i < |payments| && payments[i].reviewed && !Voided(payments, i)
  }

  lemma ReviewedKept(b: Book, op: Op, i: nat)
    requires StandsReviewed(b.payments, i) && !BySuperuser(op)
    ensures StandsReviewed(Apply(b, op).payments, i)
  {
    if Moment(op).Some? {
      OpAdds(b, op);
      var after := Apply(b, op).payments;
      forall k | 0 <= k < |after| ensures after[k].reverses != Some(i) {
        assert k < |b.payments| ==> after[k] == b.payments[k];
        assert k >= |b.payments| ==> NewRow(b, op, after[k]);
      }
    } else if op.LinkDeposits? {
      LinkedVoided(b.payments, op.production, op.s, i);
    }
  }

  /** A reviewed payment that stands is there, unvoided, after every run in which no superuser voids anything. */
  lemma {:induction false} ReviewedStands(b: Book, ops: seq<Op>, i: nat)
    requires StandsReviewed(b.payments, i) && forall k :: 0 <= k < |ops| ==> !BySuperuser(ops[k])
    ensures StandsReviewed(Run(b, ops).payments, i)
  {
    if ops != [] {
      ReviewedStands(b, ops[..|ops| - 1], i);
      ReviewedKept(Run(b, ops[..|ops| - 1]), ops[|ops| - 1], i);
    }
  }

  /** A superuser's void, or anyone's of a payment not reviewed, does void a standing payment outside a batch. */
  lemma VoidTakesHold(b: Book, i: nat, superuser: bool, now: int)
    requires i < |b.payments| && b.payments[i].batch.None? && b.payments[i].reverses.None?
    ensures Voided(Apply(b, Void(i, superuser, now)).payments, i) <==>
            Voided(b.payments, i) || superuser || !b.payments[i].reviewed
  {
    VoidedAppend(b.payments, Reversal(b.payments[i], i, now), i);
  }
}
