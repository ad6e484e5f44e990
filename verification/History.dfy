/** Every cart that can be reached is sellable, and its two stacks are one linear history with a cursor. */
module History {
  import opened Rounding
  import opened Sums
  import opened Models
  import opened Cart
  import Shop

  // ---- carts that fit the shelf ----

  predicate LineOk(l: Line, e: Shelf) { l.Valid() && l.variant in e.catalog }

  /** Valid lines, and of each variant no more than is available across all of them. */
  ghost predicate Fits(lines: seq<Line>, e: Shelf)
  {
    && (forall i :: 0 <= i < |lines| ==> LineOk(lines[i], e))
    && (forall v: nat :: InCart(lines, v) <= Max(Avail(e, v), 0))
  }

  lemma InCartNonNeg(lines: seq<Line>, e: Shelf, v: nat)
    requires forall i :: 0 <= i < |lines| ==> LineOk(lines[i], e)
    ensures InCart(lines, v) >= 0
    ensures forall i :: 0 <= i < |lines| && lines[i].variant == v ==> InCart(lines, v) >= lines[i].quantity
  {
    SumNonNeg(lines, QuantityOf(v));
    forall i | 0 <= i < |lines| && lines[i].variant == v ensures InCart(lines, v) >= lines[i].quantity {
      assert QuantityOf(v)(lines[i]) == lines[i].quantity;
    }
  }

  lemma FitsPrefix(lines: seq<Line>, e: Shelf, n: nat)
    requires Fits(lines, e) && n <= |lines|
    ensures Fits(lines[..n], e)
  {
    forall v: nat ensures InCart(lines[..n], v) <= Max(Avail(e, v), 0) {
      SumConcat(lines[..n], lines[n..], QuantityOf(v));
      assert lines[..n] + lines[n..] == lines;
      InCartNonNeg(lines[n..], e, v);
    }
  }

  /** A snapshot that still fits comes back exactly: the clamp never fires. */
  lemma {:induction false} RestoreIdentity(lines: seq<Line>, e: Shelf)
    requires Fits(lines, e)
    ensures Restored(lines, e) == lines
  {
    if lines != [] {
      var n := |lines| - 1;
      FitsPrefix(lines, e, n);
      RestoreIdentity(lines[..n], e);
      var l := lines[n];
      assert LineOk(l, e);
      InCartNonNeg(lines[..n], e, l.variant);
      assert InCart(lines, l.variant) == InCart(lines[..n], l.variant) + l.quantity;
      assert InCart(lines, l.variant) <= Max(Avail(e, l.variant), 0);
      assert Clamped(l, l.quantity) == l;
      assert lines == lines[..n] + [l];
    }
  }

  /** Whatever the shelf has become since, what comes back fits it. */
  lemma {:induction false} RestoreFits(lines: seq<Line>, e: Shelf)
    requires forall i :: 0 <= i < |lines| ==> lines[i].Valid()
    ensures Fits(Restored(lines, e), e)
  {
    if lines != [] {
      var n := |lines| - 1;
      RestoreFits(lines[..n], e);
      BackInFits(Restored(lines[..n], e), lines[n], e);
    }
  }

  lemma BackInFits(before: seq<Line>, l: Line, e: Shelf)
    requires Fits(before, e) && l.Valid()
    ensures Fits(before + BackIn(before, l, e), e)
  {
    var qty := Min(l.quantity, Max(Avail(e, l.variant) - InCart(before, l.variant), 0));
    if l.variant in e.catalog && qty > 0 {
      var item := Clamped(l, qty);
      OneMore(before, item);
      item.SubtotalNonNeg();
      assert LineOk(item, e);
      forall v: nat ensures InCart(before + [item], v) <= Max(Avail(e, v), 0) {
        assert InCart(before, v) <= Max(Avail(e, v), 0);
      }
    } else {
      assert before + [] == before;
    }
  }

  lemma BackInCount(before: seq<Line>, l: Line, e: Shelf, v: nat)
    ensures InCart(before + BackIn(before, l, e), v) == InCart(before, v) +
            if l.variant == v && v in e.catalog then Max(Min(l.quantity, Max(Avail(e, v) - InCart(before, v), 0)), 0) else 0
  {
    var back := BackIn(before, l, e);
    if back == [] {
      assert before + back == before;
    } else {
      OneMore(before, back[0]);
    }
  }

  /** How many units come back: of each variant still in the catalogue as many as there were, up to what is available. */
  lemma {:induction false} RestoreExact(lines: seq<Line>, e: Shelf, v: nat)
    requires forall i :: 0 <= i < |lines| ==> lines[i].quantity > 0
    ensures InCart(lines, v) >= 0
    ensures InCart(Restored(lines, e), v) == if v in e.catalog then Min(InCart(lines, v), Max(Avail(e, v), 0)) else 0
  {
    if lines != [] {
      var n := |lines| - 1;
      RestoreExact(lines[..n], e, v);
      BackInCount(Restored(lines[..n], e), lines[n], e, v);
    }
  }

  /** A line brought back: same variant, price and kind of discount, no more units, and a fixed discount cut to what
      they cost. */
  predicate BroughtBack(was: Line, line: Line)
  {
    && line.variant == was.variant && line.price == was.price && line.kind == was.kind
    && 0 < line.quantity <= was.quantity
    && (was.kind != Fixed ==> line.discount == was.discount)
    && (was.kind == Fixed ==> line.discount == Min(was.discount, line.price * line.quantity))
  }

  lemma BackInTerms(before: seq<Line>, l: Line, e: Shelf)
    ensures var back := BackIn(before, l, e); back == [] || (|back| == 1 && BroughtBack(l, back[0]))
  {
  }

  predicate CameFrom(lines: seq<Line>, line: Line)
  {
    exists j :: 0 <= j < |lines| && BroughtBack(lines[j], line)
  }

  lemma CameFromMore(lines: seq<Line>, n: nat, line: Line)
    requires n <= |lines| && CameFrom(lines[..n], line)
    ensures CameFrom(lines, line)
  {
    var j :| 0 <= j < n && BroughtBack(lines[..n][j], line);
    assert BroughtBack(lines[j], line);
  }

  /** Every line that comes back is one of the snapshot. */
  lemma {:induction false} RestoredTerms(lines: seq<Line>, e: Shelf, line: Line)
    requires line in Restored(lines, e)
    ensures CameFrom(lines, line)
  {
    var n := |lines| - 1;
    var before := Restored(lines[..n], e);
    if line in before {
      RestoredTerms(lines[..n], e, line);
      CameFromMore(lines, n, line);
    } else {
      BackInTerms(before, lines[n], e);
      assert BroughtBack(lines[n], line);
    }
  }

  lemma GrownCount(lines: seq<Line>, v: nat, qty: int, price: nat, u: nat)
    ensures InCart(Grown(lines, v, qty, price), u) == InCart(lines, u) + if u == v then qty else 0
  {
    var i := FirstOf(lines, v);
    if i < |lines| {
      SumUpdate(lines, i, lines[i].(quantity := lines[i].quantity + qty), QuantityOf(u));
    } else {
      SumAppend(lines, Line(v, qty, price, NoDiscount, 0), QuantityOf(u));
    }
  }

  predicate Takes(d: Basket, e: Shelf, v: nat)
  {
    v in e.catalog && (d.lines == [] || d.currency == e.catalog[v].currency)
  }

  lemma AddedLines(d: Basket, e: Shelf, v: nat, quantity: int)
    ensures var x, qty := Mutated(d, e, Add(v, quantity)), Granted(d.lines, e, v, quantity);
            && x.lines == (if Takes(d, e, v) && qty > 0 then Grown(d.lines, v, qty, e.catalog[v].price) else d.lines)
            && x.client == d.client && x.currency == (if Takes(d, e, v) then e.catalog[v].currency else d.currency)
  {
  }

  lemma GrantedCount(lines: seq<Line>, e: Shelf, v: nat, quantity: int)
    ensures InCart(lines, v) + Max(Granted(lines, e, v, quantity), 0) ==
            Max(InCart(lines, v), Min(InCart(lines, v) + Max(quantity, 1), Avail(e, v)))
  {
  }

  /** Adding: of a variant of the cart's currency, or to an empty cart, at least one unit more but no more than is
      available across all lines; of anything else nothing. */
  lemma AddExact(d: Basket, e: Shelf, v: nat, quantity: int, u: nat)
    ensures var x, had := Mutated(d, e, Add(v, quantity)), InCart(d.lines, u);
            && InCart(x.lines, u) ==
               (if Takes(d, e, v) && u == v then Max(had, Min(had + Max(quantity, 1), Avail(e, v))) else had)
            && x.client == d.client && x.currency == (if Takes(d, e, v) then e.catalog[v].currency else d.currency)
  {
    AddedLines(d, e, v, quantity);
    GrantedCount(d.lines, e, v, quantity);
    var qty := Granted(d.lines, e, v, quantity);
    if Takes(d, e, v) && qty > 0 {
      GrownCount(d.lines, v, qty, e.catalog[v].price, u);
    }
  }

  /** The lines there were keep their terms and their places; a new one is the first of its variant, at the catalogue
      price and without a discount. */
  lemma AddTerms(d: Basket, e: Shelf, v: nat, quantity: int)
    ensures var before, after := d.lines, Mutated(d, e, Add(v, quantity)).lines;
            && |before| <= |after| <= |before| + 1
            && (forall i :: 0 <= i < |before| ==> after[i] == before[i].(quantity := after[i].quantity))
            && (|after| > |before| ==>
                  && (forall i :: 0 <= i < |before| ==> before[i].variant != v)
                  && v in e.catalog && after[|before|] == Line(v, after[|before|].quantity, e.catalog[v].price, NoDiscount, 0))
  {
  }

  /** A discount set on a line: a fixed one takes off what was typed but no more than the line costs, a percentage is
      at most the whole; every other line stays. */
  lemma DiscountSet(d: Basket, e: Shelf, i: nat, kind: DiscountKind, raw: nat)
    requires i < |d.lines| && d.lines[i].Valid()
    ensures var after, line := Mutated(d, e, SetDiscount(i, kind, raw)).lines, d.lines[i];
            && |after| == |d.lines| && (forall j :: 0 <= j < |after| && j != i ==> after[j] == d.lines[j])
            && after[i] == line.(kind := kind, discount := after[i].discount)
            && (kind == Fixed ==> after[i].LineTotal() == Max(line.Subtotal() - raw, 0))
            && (kind == NoDiscount ==> after[i].LineTotal() == line.Subtotal())
            && (kind == Percent ==> after[i].discount == Min(raw, 10000))
  {
    d.lines[i].SubtotalNonNeg();
  }

  /** Removing a line takes its units out, and nothing else. */
  lemma RemoveExact(d: Basket, e: Shelf, i: nat, u: nat)
    requires i < |d.lines|
    ensures var after := Mutated(d, e, Remove(i)).lines;
            && |after| == |d.lines| - 1 && (forall j :: 0 <= j < |after| ==> after[j] == d.lines[if j < i then j else j + 1])
            && InCart(after, u) == InCart(d.lines, u) - QuantityOf(u)(d.lines[i])
  {
    SumWithout(d.lines, i, QuantityOf(u));
  }

  // ---- every action keeps the cart and both stacks fitting ----

  ghost predicate SnapsFit(s: seq<Snap>, e: Shelf) { forall i :: 0 <= i < |s| ==> Fits(s[i].lines, e) }

  /** Steps of history are all different from the next one, except that the newest may repeat the one before it:
      that is an edit that changed nothing. */
  ghost predicate NoRepeats(states: seq<Snap>)
  {
    forall i :: 0 <= i < |states| - 2 ==> states[i] != states[i + 1]
  }

  function Reverse(s: seq<Snap>): (r: seq<Snap>)
    ensures |r| == |s| && forall i :: 0 <= i < |r| ==> r[i] == s[|s| - 1 - i]
  {
    seq(|s|, i requires 0 <= i < |s| => s[|s| - 1 - i])
  }

  /** The linear history: what was, what is, what was undone. */
  function States(d: Basket): (r: seq<Snap>)
    ensures |r| == |d.undo| + 1 + |d.redo|
  {
    d.undo + [Now(d)] + Reverse(d.redo)
  }

  ghost predicate Ok(d: Basket, e: Shelf)
  {
    && Fits(d.lines, e) && SnapsFit(d.undo, e) && SnapsFit(d.redo, e)
    && |d.undo| + |d.redo| <= STACK_LIMIT
    && NoRepeats(States(d))
  }

  lemma LongerLineOk(line: Line, e: Shelf, qty: int)
    requires LineOk(line, e) && qty > 0
    ensures LineOk(line.(quantity := line.quantity + qty), e)
  {
    Distribute(line.quantity, qty, line.price);
    MulNonNeg(qty, line.price);
  }

  lemma GrownFits(lines: seq<Line>, e: Shelf, v: nat, qty: int, price: nat)
    requires Fits(lines, e) && v in e.catalog && 0 < qty <= Max(Avail(e, v) - InCart(lines, v), 0)
    ensures Fits(Grown(lines, v, qty, price), e)
  {
    var i := FirstOf(lines, v);
    if i < |lines| {
      var l := lines[i].(quantity := lines[i].quantity + qty);
      LongerLineOk(lines[i], e, qty);
      forall w: nat ensures InCart(lines[i := l], w) <= Max(Avail(e, w), 0) {
        SumUpdate(lines, i, l, QuantityOf(w));
        assert InCart(lines, w) <= Max(Avail(e, w), 0);
      }
    } else {
      var l := Line(v, qty, price, NoDiscount, 0);
      OneMore(lines, l);
      assert LineOk(l, e);
      forall w: nat ensures InCart(lines + [l], w) <= Max(Avail(e, w), 0) {
        assert InCart(lines, w) <= Max(Avail(e, w), 0);
      }
    }
  }

  lemma RemovedFits(lines: seq<Line>, e: Shelf, i: nat)
    requires Fits(lines, e) && i < |lines|
    ensures Fits(lines[..i] + lines[i + 1..], e)
  {
    var rest := Without(lines, i);
    assert LineOk(lines[i], e);
    forall v: nat ensures InCart(rest, v) <= Max(Avail(e, v), 0) {
      SumWithout(lines, i, QuantityOf(v));
      assert InCart(lines, v) <= Max(Avail(e, v), 0);
    }
  }

  lemma DiscountedFits(lines: seq<Line>, e: Shelf, i: nat, kind: DiscountKind, raw: nat)
    requires Fits(lines, e) && i < |lines|
    ensures Fits(lines[i := Discounted(lines[i], kind, raw)], e)
  {
    var l := Discounted(lines[i], kind, raw);
    assert LineOk(lines[i], e);
    lines[i].SubtotalNonNeg();
    assert LineOk(l, e);
    forall v: nat ensures InCart(lines[i := l], v) <= Max(Avail(e, v), 0) {
      SumUpdate(lines, i, l, QuantityOf(v));
      assert InCart(lines, v) <= Max(Avail(e, v), 0);
    }
  }

  lemma MutatedFits(d: Basket, e: Shelf, a: Action)
    requires Fits(d.lines, e)
    ensures Fits(Mutated(d, e, a).lines, e)
  {
    match a
    case Add(v, quantity) =>
      if v in e.catalog && Granted(d.lines, e, v, quantity) > 0 {
        GrownFits(d.lines, e, v, Granted(d.lines, e, v, quantity), e.catalog[v].price);
      }
    case Remove(i) => if i < |d.lines| { RemovedFits(d.lines, e, i); }
    case SetDiscount(i, kind, raw) => if i < |d.lines| { DiscountedFits(d.lines, e, i, kind, raw); }
    case _ =>
  }

  /** A reachable cart whose redo branch is not empty never has the current state on top of the undo stack,
      so an edit there always records a step and drops the branch. */
  lemma TopDiffers(d: Basket)
    requires NoRepeats(States(d)) && d.redo != [] && d.undo != []
    ensures d.undo[|d.undo| - 1] != Now(d)
  {
    var i := |d.undo| - 1;
    assert States(d)[i] == d.undo[i] && States(d)[i + 1] == Now(d);
  }

  lemma PushOk(d: Basket, e: Shelf)
    requires Ok(d, e)
    ensures var p := Push(d);
            && p.redo == [] && |p.undo| <= STACK_LIMIT && SnapsFit(p.undo, e)
            && forall i :: 0 <= i < |p.undo| - 1 ==> p.undo[i] != p.undo[i + 1]
  {
    if d.redo != [] && d.undo != [] {
      TopDiffers(d);
    }
    forall i | 0 <= i < |d.undo| - 1 ensures d.undo[i] != d.undo[i + 1] {
      assert States(d)[i] == d.undo[i] && States(d)[i + 1] == d.undo[i + 1];
    }
  }

  lemma EditOk(d: Basket, e: Shelf, a: Action)
    requires Ok(d, e) && !a.Undo? && !a.Redo?
    ensures Ok(Apply(d, e, a), e)
    ensures Apply(d, e, a).redo == []
  {
    PushOk(d, e);
    MutatedFits(Push(d), e, a);
    PushElsewhere(d, e, a);
    var x := Apply(d, e, a);
    forall i | 0 <= i < |States(x)| - 2 ensures States(x)[i] != States(x)[i + 1] {
      assert States(x)[i] == x.undo[i] && States(x)[i + 1] == x.undo[i + 1];
    }
  }

  /** With the shelf unchanged, an undo is one step back along the same history; nothing is trimmed or clamped. */
  lemma UndoMovesBack(d: Basket, e: Shelf)
    requires Ok(d, e) && d.undo != []
    ensures var x := Apply(d, e, Undo);
            Ok(x, e) && States(x) == States(d) && |x.undo| == |d.undo| - 1
  {
    var s := d.undo[|d.undo| - 1];
    RestoreIdentity(s.lines, e);
    var x := Apply(d, e, Undo);
    assert Reverse(d.redo + [Now(d)]) == [Now(d)] + Reverse(d.redo);
    assert d.undo == d.undo[..|d.undo| - 1] + [s];
    assert States(x) == States(d);
  }

  lemma RedoMovesForward(d: Basket, e: Shelf)
    requires Ok(d, e) && d.redo != []
    ensures var x := Apply(d, e, Redo);
            Ok(x, e) && States(x) == States(d) && |x.undo| == |d.undo| + 1
  {
    var s := d.redo[|d.redo| - 1];
    RestoreIdentity(s.lines, e);
    var x := Apply(d, e, Redo);
    assert Reverse(d.redo) == [s] + Reverse(d.redo[..|d.redo| - 1]);
    assert States(x) == States(d);
  }

  /** The latest steps that fit the limit. */
  function Latest(s: seq<Snap>): seq<Snap> { if |s| > STACK_LIMIT then s[|s| - STACK_LIMIT..] else s }

  /** An edit cuts the history at the cursor and appends the new state, whatever was undone; when the step before
      the cursor is the same state it is the one replaced, so an edit that changed nothing leaves no step behind. */
  lemma EditCutsHistory(d: Basket, e: Shelf, a: Action)
    requires Ok(d, e) && !a.Undo? && !a.Redo?
    ensures var x, n := Apply(d, e, a), |d.undo|;
            && |x.undo| == |States(x)| - 1
            && States(x)[|x.undo|] == Now(Mutated(d, e, a))
            && States(x)[..|x.undo|] ==
               (if n > 0 && States(d)[n - 1] == States(d)[n] then States(d)[..n] else Latest(States(d)[..n + 1]))
  {
    var x, n := Apply(d, e, a), |d.undo|;
    EditOk(d, e, a);
    assert Reverse([]) == [];
    assert States(x)[..|x.undo|] == x.undo;
    assert States(d)[..n] == d.undo;
    assert States(d)[..n + 1] == d.undo + [Now(d)];
    PushElsewhere(d, e, a);
  }

  /** What a mutation makes of the cart does not depend on the stacks. */
  lemma PushElsewhere(d: Basket, e: Shelf, a: Action)
    ensures Now(Mutated(Push(d), e, a)) == Now(Mutated(d, e, a))
    ensures Mutated(Push(d), e, a).undo == Push(d).undo && Mutated(Push(d), e, a).redo == Push(d).redo
  {
  }

  lemma ActionOk(d: Basket, e: Shelf, a: Action)
    requires Ok(d, e)
    ensures Ok(Apply(d, e, a), e)
  {
    match a
    case Undo => if d.undo != [] { UndoMovesBack(d, e); }
    case Redo => if d.redo != [] { RedoMovesForward(d, e); }
    case _ => EditOk(d, e, a);
  }

  lemma {:induction false} RunOk(e: Shelf, actions: seq<Action>)
    ensures Ok(Run(EMPTY, e, actions), e)
  {
    if actions != [] {
      RunOk(e, actions[..|actions| - 1]);
      ActionOk(Run(EMPTY, e, actions[..|actions| - 1]), e, actions[|actions| - 1]);
    } else {
      assert forall v: nat :: InCart([], v) == 0;
    }
  }

  /** Room for one more, and a last one that comes back as it is. */
  predicate Movable(s: seq<Snap>, t: seq<Snap>, e: Shelf)
  {
    s != [] && |s| + |t| <= STACK_LIMIT && Restored(s[|s| - 1].lines, e) == s[|s| - 1].lines
  }

  lemma {:induction false} BackAndForth(d: Basket, e: Shelf)
    requires Restored(d.lines, e) == d.lines
    ensures Movable(d.undo, d.redo, e) ==> Redone(Undone(d, e), e) == d
    ensures Movable(d.redo, d.undo, e) ==> Undone(Redone(d, e), e) == d
  {
    if Movable(d.undo, d.redo, e) {
      assert (d.redo + [Now(d)])[..|d.redo|] == d.redo;
      assert d.undo == d.undo[..|d.undo| - 1] + [d.undo[|d.undo| - 1]];
    }
    if Movable(d.redo, d.undo, e) {
      assert (d.undo + [Now(d)])[..|d.undo|] == d.undo;
      assert d.redo == d.redo[..|d.redo| - 1] + [d.redo[|d.redo| - 1]];
    }
  }

  /** Undo then redo is the identity on lines, client and both stacks. */
  lemma UndoRedoIdentity(d: Basket, e: Shelf)
    requires Ok(d, e) && d.undo != []
    ensures Apply(Apply(d, e, Undo), e, Redo) == d
  {
    RestoreIdentity(d.lines, e);
    RestoreIdentity(d.undo[|d.undo| - 1].lines, e);
    BackAndForth(d, e);
  }

  lemma RedoUndoIdentity(d: Basket, e: Shelf)
    requires Ok(d, e) && d.redo != []
    ensures Apply(Apply(d, e, Redo), e, Undo) == d
  {
    RestoreIdentity(d.lines, e);
    RestoreIdentity(d.redo[|d.redo| - 1].lines, e);
    BackAndForth(d, e);
  }

  /** The snapshot leaves the currency out: an edit taken back puts lines and client where they were, and the
      currency too unless the edit was a first item in another one. */
  lemma EditThenUndo(d: Basket, e: Shelf, a: Action)
    requires Ok(d, e) && !a.Undo? && !a.Redo?
    ensures var x := Apply(Apply(d, e, a), e, Undo);
            && Now(x) == Now(d)
            && (x.currency == d.currency <==>
                !(a.Add? && a.v in e.catalog && d.lines == [] && e.catalog[a.v].currency != d.currency))
  {
    PushElsewhere(d, e, a);
    PushTop(d);
    RestoreIdentity(d.lines, e);
    CurrencyAfter(Push(d), e, a);
  }

  lemma PushTop(d: Basket)
    ensures var p := Push(d);
            p.undo != [] && p.undo[|p.undo| - 1] == Now(d) && Now(p) == Now(d) && p.currency == d.currency
  {
  }

  lemma CurrencyAfter(d: Basket, e: Shelf, a: Action)
    ensures Mutated(d, e, a).currency == d.currency <==>
            !(a.Add? && a.v in e.catalog && d.lines == [] && e.catalog[a.v].currency != d.currency)
  {
  }

  // ---- selling the cart ----

  lemma RowsNeed(client: Option<nat>, currency: Currency, lines: seq<Line>, v: nat)
    ensures Need(Shop.NewSale(client, currency, lines).rows, v) == InCart(lines, v)
  {
    SumSame(Shop.NewSale(client, currency, lines).rows, lines, LiveQuantity(v), QuantityOf(v));
  }

  /** A non-empty cart reached with the shop's own availability passes the stock check and can be confirmed,
      and every line of it costs something between nothing and its full price. */
  lemma {:induction false} ReachableCartConfirms(db: Shop.Db, e: Shelf, actions: seq<Action>)
    requires forall v: nat :: Avail(e, v) == Shop.Available(db, v)
    requires Run(EMPTY, e, actions).lines != []
    ensures var d := Run(EMPTY, e, actions);
            var drawn := Shop.Apply(db, Shop.Draw(d.client, d.currency, d.lines));
            && Shop.CanSell(db, d.lines)
            && Shop.CanConfirm(drawn, |db.sales|, false, None)
            && forall i :: 0 <= i < |d.lines| ==> 0 <= d.lines[i].LineTotal() <= d.lines[i].Subtotal()
  {
    var d := Run(EMPTY, e, actions);
    RunOk(e, actions);
    assert forall i :: 0 <= i < |d.lines| ==> LineOk(d.lines[i], e);
    var drawn := Shop.Apply(db, Shop.Draw(d.client, d.currency, d.lines));
    var rows := drawn.sales[|db.sales|].rows;
    assert rows[0].Some?;
    forall i | 0 <= i < |rows| && rows[i].Some?
      ensures Shop.Available(drawn, rows[i].value.variant) >= Need(rows, rows[i].value.variant)
    {
      var v := rows[i].value.variant;
      RowsNeed(d.client, d.currency, d.lines, v);
      InCartNonNeg(d.lines, e, v);
      assert InCart(d.lines, v) <= Max(Avail(e, v), 0);
      assert d.lines[i].variant == v && LineOk(d.lines[i], e);
      assert Avail(e, v) == Shop.Available(db, v);
    }
  }
}
