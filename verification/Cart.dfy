/** The draft cart: its mutators, the snapshot stacks behind undo and redo, and the restore that re-clamps. */
module Cart {
  import opened Sums
  import opened Models

  const STACK_LIMIT: nat := 25

  datatype Product = Product(price: nat, currency: Currency)

  /** The catalogue and what is available of each variant while the cart is being edited. */
  datatype Shelf = Shelf(catalog: map<nat, Product>, available: map<nat, int>)

  function Avail(e: Shelf, v: nat): int { if v in e.available then e.available[v] else 0 }

  datatype Snap = Snap(client: Option<nat>, lines: seq<Line>)

  datatype Basket = Basket(client: Option<nat>, currency: Currency, lines: seq<Line>, undo: seq<Snap>, redo: seq<Snap>)

  function Now(d: Basket): Snap { Snap(d.client, d.lines) }

  function QuantityOf(v: nat): Line -> int { (l: Line) => if l.variant == v then l.quantity else 0 }

  function InCart(lines: seq<Line>, v: nat): int { Sum(lines, QuantityOf(v)) }

  // ---- stacks ----

  function Trim(s: seq<Snap>): seq<Snap> { if |s| > STACK_LIMIT then s[|s| - STACK_LIMIT..] else s }

  /** The state before a mutation goes on the undo stack and the redo branch is dropped;
      a state already on top adds no step. */
  function Push(d: Basket): Basket
  {
    if d.undo != [] && d.undo[|d.undo| - 1] == Now(d) then d
    else d.(undo := Trim(d.undo + [Now(d)]), redo := [])
  }

  // ---- mutators ----

  datatype Action =
    | Add(v: nat, quantity: int)
    | Remove(i: nat)
    | SetDiscount(i: nat, kind: DiscountKind, raw: nat)
    | SetClient(client: Option<nat>)
    | Undo
    | Redo

  function FirstOf(lines: seq<Line>, v: nat): (i: nat)
    ensures i <= |lines| && forall j :: 0 <= j < i ==> lines[j].variant != v
    ensures i < |lines| ==> lines[i].variant == v
  {
    if lines == [] then 0
    else
      var n := |lines| - 1;
      var i := FirstOf(lines[..n], v);
      if i < n || lines[n].variant == v then i else n + 1
  }

  /** An empty draft takes the first item's currency; after that an item in another currency is refused. */
  function Adopted(d: Basket, e: Shelf, v: nat): Basket
  {
    if v in e.catalog && d.lines == [] then d.(currency := e.catalog[v].currency) else d
  }

  /** What is really added: at least one unit is asked for, at most what is left of the variant across all lines. */
  function Granted(lines: seq<Line>, e: Shelf, v: nat, quantity: int): int
  {
    Min(Max(quantity, 1), Max(Avail(e, v) - InCart(lines, v), 0))
  }

  function Grown(lines: seq<Line>, v: nat, qty: int, price: nat): seq<Line>
  {
    var i := FirstOf(lines, v);
    if i < |lines| then lines[i := lines[i].(quantity := lines[i].quantity + qty)]
    else lines + [Line(v, qty, price, NoDiscount, 0)]
  }

  function Added(d: Basket, e: Shelf, v: nat, quantity: int): Basket
  {
    var x := Adopted(d, e, v);
    if v !in e.catalog || x.currency != e.catalog[v].currency || Granted(d.lines, e, v, quantity) <= 0 then x
    else x.(lines := Grown(d.lines, v, Granted(d.lines, e, v, quantity), e.catalog[v].price))
  }

  function Discounted(l: Line, kind: DiscountKind, raw: nat): Line
  {
    l.(kind := kind,
       discount := if kind == Percent then Min(raw, 10000) else if kind == Fixed then Min(raw, l.Subtotal()) else 0)
  }

  function Removed(d: Basket, i: nat): Basket
  {
    if i < |d.lines| then d.(lines := d.lines[..i] + d.lines[i + 1..]) else d
  }

  function WithDiscount(d: Basket, i: nat, kind: DiscountKind, raw: nat): Basket
  {
    if i < |d.lines| then d.(lines := d.lines[i := Discounted(d.lines[i], kind, raw)]) else d
  }

  function Mutated(d: Basket, e: Shelf, a: Action): Basket
  {
    match a
    case Add(v, quantity) => Added(d, e, v, quantity)
    case Remove(i) => Removed(d, i)
    case SetDiscount(i, kind, raw) => WithDiscount(d, i, kind, raw)
    case SetClient(client) => d.(client := client)
    case Undo => d
    case Redo => d
  }

  // ---- restore ----

  /** Lines come back in order, each down to what the ones before it leave; a vanished variant or an empty line is dropped. */
  function Restored(lines: seq<Line>, e: Shelf): seq<Line>
  {
    if lines == [] then []
    else
      var n := |lines| - 1;
      Restored(lines[..n], e) + BackIn(Restored(lines[..n], e), lines[n], e)
  }

  function BackIn(before: seq<Line>, l: Line, e: Shelf): seq<Line>
  {
    var qty := Min(l.quantity, Max(Avail(e, l.variant) - InCart(before, l.variant), 0));
    if l.variant !in e.catalog || qty <= 0 then [] else [Clamped(l, qty)]
  }

  lemma {:induction false} RestoredStep(lines: seq<Line>, i: nat, e: Shelf)
    requires i < |lines|
    ensures Restored(lines[..i + 1], e) == Restored(lines[..i], e) + BackIn(Restored(lines[..i], e), lines[i], e)
  {
    assert lines[..i + 1][..i] == lines[..i];
  }

  function Clamped(l: Line, qty: int): Line
  {
    var x := l.(quantity := qty);
    if l.kind == Fixed then x.(discount := Min(l.discount, x.Subtotal())) else x
  }

  function Undone(d: Basket, e: Shelf): Basket
  {
    if d.undo == [] then d
    else
      var s := d.undo[|d.undo| - 1];
      d.(client := s.client, lines := Restored(s.lines, e), undo := d.undo[..|d.undo| - 1], redo := Trim(d.redo + [Now(d)]))
  }

  function Redone(d: Basket, e: Shelf): Basket
  {
    if d.redo == [] then d
    else
      var s := d.redo[|d.redo| - 1];
      d.(client := s.client, lines := Restored(s.lines, e), undo := Trim(d.undo + [Now(d)]), redo := d.redo[..|d.redo| - 1])
  }

  function Apply(d: Basket, e: Shelf, a: Action): Basket
  {
    if a.Undo? then Undone(d, e) else if a.Redo? then Redone(d, e) else Mutated(Push(d), e, a)
  }

  function Run(d: Basket, e: Shelf, actions: seq<Action>): Basket
  {
    if actions == [] then d else Apply(Run(d, e, actions[..|actions| - 1]), e, actions[|actions| - 1])
  }

  const EMPTY := Basket(None, KGS, [], [], [])

  // ---- the draft as the server holds it ----

  class Session {
    var client: Option<nat>
    var currency: Currency
    var lines: seq<Line>
    var undo: seq<Snap>
    var redo: seq<Snap>

    constructor ()
      ensures State() == EMPTY
    {
      client, currency, lines, undo, redo := None, KGS, [], [], [];
    }

    function State(): Basket
      reads this
    {
      Basket(client, currency, lines, undo, redo)
    }

    method PushState()
      modifies this`undo, this`redo
      ensures State() == Push(old(State()))
    {
      var snap := Snap(client, lines);
      if undo != [] && undo[|undo| - 1] == snap {
        return;
      }
      undo := undo + [snap];
      if |undo| > STACK_LIMIT {
        undo := undo[|undo| - STACK_LIMIT..];
      }
      redo := [];
    }

    method ItemAdd(e: Shelf, v: nat, quantity: int)
      modifies this
      ensures State() == Added(Push(old(State())), e, v, quantity)
    {
      PushState();
      if v !in e.catalog {
        return;
      }
      var qty := if quantity < 1 then 1 else quantity;
      if lines == [] {
        currency := e.catalog[v].currency;
      } else if currency != e.catalog[v].currency {
        return;
      }
      var already, first := CountAndFind(lines, v);
      var room := Max(Avail(e, v) - already, 0);
      if room <= 0 {
        qty := 0;
      } else if qty > room {
        qty := room;
      }
      if qty > 0 {
        PutIn(v, qty, e.catalog[v].price, first);
      }
    }

    method PutIn(v: nat, qty: int, price: nat, first: nat)
      requires first == FirstOf(lines, v)
      modifies this`lines
      ensures lines == Grown(old(lines), v, qty, price)
    {
      if first < |lines| {
        lines := lines[first := lines[first].(quantity := lines[first].quantity + qty)];
      } else {
        lines := lines + [Line(v, qty, price, NoDiscount, 0)];
      }
    }

    method ItemRemove(e: Shelf, i: nat)
      modifies this
      ensures State() == Removed(Push(old(State())), i)
    {
      PushState();
      if i < |lines| {
        lines := lines[..i] + lines[i + 1..];
      }
    }

    method ItemDiscount(e: Shelf, i: nat, kind: DiscountKind, raw: nat)
      modifies this
      ensures State() == WithDiscount(Push(old(State())), i, kind, raw)
    {
      PushState();
      if i >= |lines| {
        return;
      }
      var value := 0;
      if kind == Percent {
        value := Min(raw, 10000);
      } else if kind == Fixed {
        value := Min(raw, lines[i].Subtotal());
      }
      lines := lines[i := lines[i].(kind := kind, discount := value)];
    }

    /** Deletes the lines and rebuilds them, counting in `used` what the rebuilt ones take. */
    method Restore(e: Shelf, snap: Snap)
      modifies this`client, this`lines
      ensures client == snap.client && lines == Restored(snap.lines, e)
    {
      lines := [];
      var used: map<nat, int> := map[];
      for i := 0 to |snap.lines|
        invariant lines == Restored(snap.lines[..i], e)
        invariant Tallied(used, lines)
      {
        RestoredStep(snap.lines, i, e);
        used := RestoreLine(e, snap.lines[i], used);
      }
      assert snap.lines[..|snap.lines|] == snap.lines;
      client := snap.client;
    }

    method RestoreLine(e: Shelf, row: Line, used: map<nat, int>) returns (next: map<nat, int>)
      requires Tallied(used, lines)
      modifies this`lines
      ensures lines == old(lines) + BackIn(old(lines), row, e)
      ensures Tallied(next, lines)
    {
      next := used;
      if row.variant in e.catalog {
        var room := Avail(e, row.variant) - UsedOf(used, row.variant);
        var qty := Min(row.quantity, Max(room, 0));
        if qty > 0 {
          var item := Clamped(row, qty);
          UsedMore(used, lines, item);
          next := used[row.variant := UsedOf(used, row.variant) + qty];
          lines := lines + [item];
        }
      }
    }

    method SaleUndo(e: Shelf) returns (ok: bool)
      modifies this
      ensures ok == (old(undo) != [])
      ensures State() == Undone(old(State()), e)
    {
      if undo == [] {
        return false;
      }
      redo := redo + [Snap(client, lines)];
      if |redo| > STACK_LIMIT {
        redo := redo[|redo| - STACK_LIMIT..];
      }
      var snap := undo[|undo| - 1];
      undo := undo[..|undo| - 1];
      Restore(e, snap);
      return true;
    }

    method SaleRedo(e: Shelf) returns (ok: bool)
      modifies this
      ensures ok == (old(redo) != [])
      ensures State() == Redone(old(State()), e)
    {
      if redo == [] {
        return false;
      }
      undo := undo + [Snap(client, lines)];
      if |undo| > STACK_LIMIT {
        undo := undo[|undo| - STACK_LIMIT..];
      }
      var snap := redo[|redo| - 1];
      redo := redo[..|redo| - 1];
      Restore(e, snap);
      return true;
    }
  }

  function UsedOf(used: map<nat, int>, v: nat): int { if v in used then used[v] else 0 }

  ghost predicate Tallied(used: map<nat, int>, lines: seq<Line>) { forall v: nat :: UsedOf(used, v) == InCart(lines, v) }

  lemma OneMore(lines: seq<Line>, l: Line)
    ensures forall v: nat :: InCart(lines + [l], v) == InCart(lines, v) + QuantityOf(v)(l)
  {
    forall v: nat ensures InCart(lines + [l], v) == InCart(lines, v) + QuantityOf(v)(l) {
      SumAppend(lines, l, QuantityOf(v));
    }
  }

  lemma UsedMore(used: map<nat, int>, lines: seq<Line>, l: Line)
    requires Tallied(used, lines)
    ensures Tallied(used[l.variant := UsedOf(used, l.variant) + l.quantity], lines + [l])
  {
    OneMore(lines, l);
  }

  /** Units of the variant across all lines, and its first line (or one past the end). */
  method CountAndFind(lines: seq<Line>, v: nat) returns (already: int, first: nat)
    ensures already == InCart(lines, v) && first == FirstOf(lines, v)
  {
    already, first := 0, |lines|;
    for i := 0 to |lines|
      invariant already == InCart(lines[..i], v)
      invariant first == if FirstOf(lines, v) < i then FirstOf(lines, v) else |lines|
    {
      SumStep(lines, i, QuantityOf(v));
      if lines[i].variant == v {
        already := already + lines[i].quantity;
        if first == |lines| {
          first := i;
        }
      }
    }
    assert lines[..|lines|] == lines;
  }
}
