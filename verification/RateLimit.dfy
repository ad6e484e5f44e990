/** The fixed-window counter: one caller at a time over many key lifetimes, and many callers within one. */
module RateLimit {
  import opened Sums
  import opened Models

  // ---- one request at a time ----

  /** The cached counter and when its key was created; a key lives for `window` from then. */
  datatype Cell = Empty | Live(start: int, count: int)

  function Current(c: Cell, now: int, window: int): Cell
  {
    if c.Live? && now < c.start + window then c else Empty
  }

  predicate Limited(c: Cell, now: int, limit: int, window: int)
  {
    Current(c, now, window).Live? && Current(c, now, window).count >= limit
  }

  function Counted(c: Cell, now: int, window: int): Cell
  {
    match Current(c, now, window)
    case Empty => Live(now, 1)
    case Live(start, count) => Live(start, count + 1)
  }

  class Limiter {
    var cell: Cell

    constructor ()
      ensures cell == Empty
    {
      cell := Empty;
    }

    method IsRateLimited(now: int, limit: int, window: int) returns (limited: bool)
      modifies this
      ensures limited == Limited(old(cell), now, limit, window)
      ensures cell == if limited then old(cell) else Counted(old(cell), now, window)
    {
      var got := Current(cell, now, window);
      if got.Live? && got.count >= limit {
        return true;
      }
      if got.Empty? {
        cell := Live(now, 1);
      } else {
        cell := Live(got.start, got.count + 1);
      }
      return false;
    }
  }

  /** An admitted request: when, and in which lifetime of the key. */
  datatype Pass = Pass(at: int, start: int)

  datatype Trace = Trace(cell: Cell, passes: seq<Pass>)

  function Serve(times: seq<int>, limit: int, window: int): Trace
  {
    if times == [] then Trace(Empty, [])
    else
      var n := |times| - 1;
      var t, now := Serve(times[..n], limit, window), times[n];
      if Limited(t.cell, now, limit, window) then t
      else
        var c := Counted(t.cell, now, window);
        Trace(c, t.passes + [Pass(now, c.start)])
  }

  /** A limit below one still lets the request through that creates the key. */
  function Cap(limit: int): nat { if limit < 1 then 1 else limit }

  predicate Inside(passes: seq<Pass>, window: int)
  {
    forall i :: 0 <= i < |passes| ==> passes[i].start <= passes[i].at < passes[i].start + window
  }

  predicate InOrder(passes: seq<Pass>)
  {
    forall i, j :: 0 <= i < j < |passes| ==> passes[i].at <= passes[j].at && passes[i].start <= passes[j].start
  }

  /** Requests that many places apart are in lifetimes a window apart. */
  ghost predicate Spaced(passes: seq<Pass>, places: nat, window: int)
  {
    forall i, j :: 0 <= i && j == i + places && j < |passes| ==> passes[j].start >= passes[i].start + window
  }

  predicate CellOk(cell: Cell, passes: seq<Pass>, limit: int, window: int)
  {
    && (cell.Empty? ==> passes == [])
    && (cell.Live? ==>
          && 1 <= cell.count <= Cap(limit) && cell.count <= |passes|
          && (forall i :: |passes| - cell.count <= i < |passes| ==> passes[i].start == cell.start)
          && (forall i :: 0 <= i < |passes| - cell.count ==> passes[i].start + window <= cell.start))
  }

  ghost predicate Ok(t: Trace, limit: int, window: int)
  {
    Inside(t.passes, window) && InOrder(t.passes) && Spaced(t.passes, Cap(limit), window) && CellOk(t.cell, t.passes, limit, window)
  }

  predicate Ordered(times: seq<int>) { forall i, j :: 0 <= i < j < |times| ==> times[i] <= times[j] }

  lemma {:induction false} ServeOk(times: seq<int>, limit: int, window: int)
    requires Ordered(times) && window > 0
    ensures Ok(Serve(times, limit, window), limit, window)
    ensures forall i :: 0 <= i < |Serve(times, limit, window).passes| ==>
              times != [] && Serve(times, limit, window).passes[i].at <= times[|times| - 1]
  {
    if times != [] {
      var n := |times| - 1;
      ServeOk(times[..n], limit, window);
      assert n > 0 ==> times[..n][n - 1] <= times[n];
      if !Limited(Serve(times[..n], limit, window).cell, times[n], limit, window) {
        ServeStep(Serve(times[..n], limit, window), times[n], limit, window);
      }
    }
  }

  predicate Extends(passes: seq<Pass>, p: Pass, longer: seq<Pass>)
  {
    |longer| == |passes| + 1 && longer[|passes|] == p && forall i :: 0 <= i < |passes| ==> longer[i] == passes[i]
  }

  lemma LongerInOrder(passes: seq<Pass>, p: Pass, longer: seq<Pass>, window: int)
    requires Inside(passes, window) && InOrder(passes) && Extends(passes, p, longer)
    requires p.start <= p.at < p.start + window
    requires forall i :: 0 <= i < |passes| ==> passes[i].at <= p.at && passes[i].start <= p.start
    ensures Inside(longer, window) && InOrder(longer)
  {
  }

  lemma LongerSpaced(passes: seq<Pass>, p: Pass, longer: seq<Pass>, places: nat, window: int)
    requires places > 0 && Spaced(passes, places, window) && Extends(passes, p, longer)
    requires |passes| >= places ==> passes[|passes| - places].start + window <= p.start
    ensures Spaced(longer, places, window)
  {
  }

  /** Everything passed before a new key is a whole window older than it. */
  lemma NewKey(t: Trace, now: int, limit: int, window: int, longer: seq<Pass>)
    requires Ok(t, limit, window) && window > 0
    requires forall i :: 0 <= i < |t.passes| ==> t.passes[i].at <= now
    requires Current(t.cell, now, window).Empty? && Extends(t.passes, Pass(now, now), longer)
    ensures forall i :: 0 <= i < |t.passes| ==> t.passes[i].start + window <= now
    ensures Ok(Trace(Live(now, 1), longer), limit, window)
  {
    Lapsed(t, now, limit, window);
    LongerInOrder(t.passes, Pass(now, now), longer, window);
    LongerSpaced(t.passes, Pass(now, now), longer, Cap(limit), window);
  }

  lemma Lapsed(t: Trace, now: int, limit: int, window: int)
    requires CellOk(t.cell, t.passes, limit, window) && window > 0 && Current(t.cell, now, window).Empty?
    ensures forall i :: 0 <= i < |t.passes| ==> t.passes[i].start + window <= now
  {
    forall i | 0 <= i < |t.passes| ensures t.passes[i].start + window <= now {
      if i >= |t.passes| - t.cell.count {
        assert t.passes[i].start == t.cell.start;
      }
    }
  }

  lemma SameKey(t: Trace, now: int, limit: int, window: int, longer: seq<Pass>)
    requires Ok(t, limit, window) && window > 0
    requires forall i :: 0 <= i < |t.passes| ==> t.passes[i].at <= now
    requires t.cell.Live? && now < t.cell.start + window && t.cell.count < limit
    requires Extends(t.passes, Pass(now, t.cell.start), longer)
    ensures Ok(Trace(Live(t.cell.start, t.cell.count + 1), longer), limit, window)
  {
    StillLive(t, now, limit, window);
    LongerInOrder(t.passes, Pass(now, t.cell.start), longer, window);
    LongerSpaced(t.passes, Pass(now, t.cell.start), longer, Cap(limit), window);
  }

  lemma StillLive(t: Trace, now: int, limit: int, window: int)
    requires CellOk(t.cell, t.passes, limit, window) && window > 0 && Inside(t.passes, window)
    requires forall i :: 0 <= i < |t.passes| ==> t.passes[i].at <= now
    requires t.cell.Live? && t.cell.count < limit
    ensures t.cell.start <= now && forall i :: 0 <= i < |t.passes| ==> t.passes[i].start <= t.cell.start
    ensures |t.passes| >= limit ==> t.passes[|t.passes| - limit].start + window <= t.cell.start
  {
    var n, start := |t.passes|, t.cell.start;
    assert t.passes[n - 1].start == start && t.passes[n - 1].at <= now;
    forall i | 0 <= i < n ensures t.passes[i].start <= start {
      assert i < n - t.cell.count ==> t.passes[i].start + window <= start;
    }
  }

  lemma ServeStep(t: Trace, now: int, limit: int, window: int)
    requires Ok(t, limit, window) && window > 0
    requires forall i :: 0 <= i < |t.passes| ==> t.passes[i].at <= now
    requires !Limited(t.cell, now, limit, window)
    ensures var c := Counted(t.cell, now, window);
            Ok(Trace(c, t.passes + [Pass(now, c.start)]), limit, window)
  {
    var longer := t.passes + [Pass(now, Counted(t.cell, now, window).start)];
    if Current(t.cell, now, window).Empty? {
      NewKey(t, now, limit, window, longer);
    } else {
      SameKey(t, now, limit, window, longer);
    }
  }

  function In(from: int, to: int): Pass -> int { (p: Pass) => if from <= p.at <= to then 1 else 0 }
  function Of(start: int): Pass -> int { (p: Pass) => if p.start == start then 1 else 0 }

  lemma {:induction false} AtMostLength(s: seq<Pass>, f: Pass -> int)
    requires forall i :: 0 <= i < |s| ==> f(s[i]) <= 1
    ensures Sum(s, f) <= |s|
  {
    if s != [] {
      AtMostLength(s[..|s| - 1], f);
    }
  }

  /** If any two counted elements are less than k apart, at most k are counted. */
  lemma {:induction false} CountedClose(s: seq<Pass>, f: Pass -> int, k: nat)
    requires forall i :: 0 <= i < |s| ==> 0 <= f(s[i]) <= 1
    requires forall i, j :: 0 <= i < |s| && i + k <= j < |s| ==> f(s[i]) == 0 || f(s[j]) == 0
    ensures Sum(s, f) <= k
  {
    if |s| <= k {
      AtMostLength(s, f);
    } else {
      var n := |s| - 1;
      if f(s[n]) == 0 {
        CountedClose(s[..n], f, k);
      } else {
        var m := |s| - k;
        SumConcat(s[..m], s[m..], f);
        assert s[..m] + s[m..] == s;
        AtMostLength(s[m..], f);
        forall i | 0 <= i < m ensures f(s[..m][i]) == 0 {
          assert i + k <= n;
        }
        SumZero(s[..m], f);
      }
    }
  }

  lemma LifetimesApart(t: Trace, limit: int, window: int, i: nat, j: nat)
    requires Ok(t, limit, window) && window > 0 && i + Cap(limit) <= j < |t.passes|
    ensures t.passes[j].start >= t.passes[i].start + window
    ensures j >= i + 2 * Cap(limit) ==> t.passes[j].at > t.passes[i].at + window
  {
    var k := i + Cap(limit);
    assert t.passes[k].start >= t.passes[i].start + window;
    assert k < j ==> t.passes[k].start <= t.passes[j].start;
    if j >= i + 2 * Cap(limit) {
      var l := k + Cap(limit);
      assert t.passes[l].start >= t.passes[k].start + window;
      assert l < j ==> t.passes[l].start <= t.passes[j].start;
    }
  }

  /** Run sequentially: at most the limit per lifetime of the key, and at most twice the limit in any
      interval as long as the window. */
  lemma {:induction false} SequentialBounds(times: seq<int>, limit: int, window: int, from: int, start: int)
    requires Ordered(times) && window > 0
    ensures Sum(Serve(times, limit, window).passes, Of(start)) <= Cap(limit)
    ensures Sum(Serve(times, limit, window).passes, In(from, from + window)) <= 2 * Cap(limit)
  {
    ServeOk(times, limit, window);
    LifetimeBound(Serve(times, limit, window), limit, window, start);
    WindowBound(Serve(times, limit, window), limit, window, from);
  }

  lemma {:induction false} CellCounts(t: Trace, limit: int, window: int)
    requires CellOk(t.cell, t.passes, limit, window) && t.cell.Live? && window > 0
    ensures Sum(t.passes, Of(t.cell.start)) == t.cell.count
  {
    var m := |t.passes| - t.cell.count;
    SumConcat(t.passes[..m], t.passes[m..], Of(t.cell.start));
    assert t.passes[..m] + t.passes[m..] == t.passes;
    SumZero(t.passes[..m], Of(t.cell.start));
    AllCount(t.passes[m..], t.cell.start);
  }

  lemma {:induction false} AllCount(passes: seq<Pass>, start: int)
    requires forall i :: 0 <= i < |passes| ==> passes[i].start == start
    ensures Sum(passes, Of(start)) == |passes|
  {
    if passes != [] {
      AllCount(passes[..|passes| - 1], start);
    }
  }

  /** When the last request admitted started its lifetime, if that lifetime still runs. */
  function Running(passes: seq<Pass>, now: int, window: int): Option<int>
  {
    if passes != [] && now < passes[|passes| - 1].start + window then Some(passes[|passes| - 1].start) else None
  }

  lemma RunningIs(t: Trace, now: int, limit: int, window: int)
    requires CellOk(t.cell, t.passes, limit, window) && window > 0
    ensures var current, running := Current(t.cell, now, window), Running(t.passes, now, window);
            (current.Live? <==> running.Some?) && (current.Live? ==> current == t.cell && running == Some(t.cell.start))
  {
    if t.cell.Live? {
      assert t.passes[|t.passes| - 1].start == t.cell.start;
    }
  }

  /** A request is refused exactly when the lifetime of the last one admitted still runs and already has the limit of
      admissions; otherwise it is admitted, into that lifetime if it still runs and into a new one if not. */
  lemma {:induction false} RefusedExact(times: seq<int>, now: int, limit: int, window: int)
    requires Ordered(times) && window > 0
    ensures var passes := Serve(times, limit, window).passes;
            var running := Running(passes, now, window);
            Serve(times + [now], limit, window).passes ==
            if running.Some? && Sum(passes, Of(running.value)) >= limit then passes
            else passes + [Pass(now, if running.Some? then running.value else now)]
  {
    var t := Serve(times, limit, window);
    ServeOk(times, limit, window);
    RunningIs(t, now, limit, window);
    if t.cell.Live? {
      CellCounts(t, limit, window);
    }
    ServeNext(times, now, limit, window);
  }

  lemma {:induction false} ServeNext(times: seq<int>, now: int, limit: int, window: int)
    ensures var t := Serve(times, limit, window);
            Serve(times + [now], limit, window).passes ==
            if Limited(t.cell, now, limit, window) then t.passes
            else t.passes + [Pass(now, Counted(t.cell, now, window).start)]
  {
    assert (times + [now])[..|times|] == times;
  }

  lemma LifetimeBound(t: Trace, limit: int, window: int, start: int)
    requires Ok(t, limit, window) && window > 0
    ensures Sum(t.passes, Of(start)) <= Cap(limit)
  {
    forall i, j | 0 <= i < |t.passes| && i + Cap(limit) <= j < |t.passes|
      ensures Of(start)(t.passes[i]) == 0 || Of(start)(t.passes[j]) == 0
    {
      LifetimesApart(t, limit, window, i, j);
    }
    CountedClose(t.passes, Of(start), Cap(limit));
  }

  lemma WindowBound(t: Trace, limit: int, window: int, from: int)
    requires Ok(t, limit, window) && window > 0
    ensures Sum(t.passes, In(from, from + window)) <= 2 * Cap(limit)
  {
    forall i, j | 0 <= i < |t.passes| && i + 2 * Cap(limit) <= j < |t.passes|
      ensures In(from, from + window)(t.passes[i]) == 0 || In(from, from + window)(t.passes[j]) == 0
    {
      LifetimesApart(t, limit, window, i, j);
    }
    CountedClose(t.passes, In(from, from + window), 2 * Cap(limit));
  }

  // ---- many callers within one lifetime of the key ----

  /** Where a caller is: before its get, past it, or past a failed add. */
  datatype Caller = Idle | Admitted | AddFailed

  datatype Shared = Shared(count: Option<int>, callers: seq<Caller>, admitted: int)

  datatype Event = Get(w: nat) | AddKey(w: nat) | Incr(w: nat)

  predicate Enabled(s: Shared, e: Event)
  {
    && e.w < |s.callers|
    && match e
       case Get(w) => s.callers[w] == Idle
       case AddKey(w) => s.callers[w] == Admitted
       case Incr(w) => s.callers[w] == AddFailed && s.count.Some?
  }

  function Next(s: Shared, e: Event, limit: int): Shared
    requires Enabled(s, e)
  {
    match e
    case Get(w) =>
      if s.count.Some? && s.count.value >= limit then s
      else Shared(s.count, s.callers[w := Admitted], s.admitted + 1)
    case AddKey(w) =>
      if s.count.None? then Shared(Some(1), s.callers[w := Idle], s.admitted)
      else Shared(s.count, s.callers[w := AddFailed], s.admitted)
    case Incr(w) => Shared(Some(s.count.value + 1), s.callers[w := Idle], s.admitted)
  }

  /** None when one of the events was not possible where it stands. */
  function Play(s: Shared, es: seq<Event>, limit: int): Option<Shared>
  {
    if es == [] then Some(s)
    else
      var n := |es| - 1;
      var before := Play(s, es[..n], limit);
      if before.Some? && Enabled(before.value, es[n]) then Some(Next(before.value, es[n], limit)) else None
  }

  function Pending(): Caller -> int { (c: Caller) => if c == Idle then 0 else 1 }

  function CountOf(s: Shared): int { if s.count.Some? then s.count.value else 0 }

  predicate Bounded(s: Shared, limit: int)
  {
    && (s.count.Some? ==> s.count.value >= 1)
    && s.admitted == CountOf(s) + Sum(s.callers, Pending())
    && s.admitted <= Cap(limit) + |s.callers| - 1
  }

  lemma {:induction false} PendingAtMost(callers: seq<Caller>)
    ensures 0 <= Sum(callers, Pending()) <= |callers|
  {
    if callers != [] {
      PendingAtMost(callers[..|callers| - 1]);
    }
  }

  lemma StepBounded(s: Shared, e: Event, limit: int)
    requires Bounded(s, limit) && Enabled(s, e)
    ensures Bounded(Next(s, e, limit), limit)
  {
    var d := Next(s, e, limit);
    SumUpdate(s.callers, e.w, d.callers[e.w], Pending());
    assert d.callers == s.callers[e.w := d.callers[e.w]];
    PendingAtMost(d.callers);
  }

  lemma {:induction false} PlayBounded(s: Shared, es: seq<Event>, limit: int)
    requires Bounded(s, limit) && Play(s, es, limit).Some?
    ensures var d := Play(s, es, limit).value; Bounded(d, limit) && |d.callers| == |s.callers|
  {
    if es != [] {
      var n := |es| - 1;
      PlayBounded(s, es[..n], limit);
      StepBounded(Play(s, es[..n], limit).value, es[n], limit);
    }
  }

  function Start(workers: nat): Shared { Shared(None, seq(workers, _ => Idle), 0) }

  /** However the callers' gets, adds and increments interleave, at most limit + W - 1 requests are admitted. */
  lemma {:induction false} InterleavedBound(workers: nat, es: seq<Event>, limit: int)
    requires workers >= 1 && Play(Start(workers), es, limit).Some?
    ensures Play(Start(workers), es, limit).value.admitted <= Cap(limit) + workers - 1
  {
    SumZero(Start(workers).callers, Pending());
    PlayBounded(Start(workers), es, limit);
  }

  lemma {:induction false} PlayConcat(s: Shared, a: seq<Event>, b: seq<Event>, limit: int)
    requires Play(s, a, limit).Some?
    ensures Play(s, a + b, limit) == Play(Play(s, a, limit).value, b, limit)
  {
    if b == [] {
      assert a + b == a;
    } else {
      PlayConcat(s, a, b[..|b| - 1], limit);
      assert (a + b)[..|a + b| - 1] == a + b[..|b| - 1];
    }
  }

  lemma {:induction false} PlaySnoc(s: Shared, es: seq<Event>, e: Event, limit: int)
    requires Play(s, es, limit).Some? && Enabled(Play(s, es, limit).value, e)
    ensures Play(s, es + [e], limit) == Some(Next(Play(s, es, limit).value, e, limit))
  {
    assert (es + [e])[..|es|] == es;
  }

  function CountAfter(m: nat): Option<int> { if m == 0 then None else Some(m) }

  /** m requests of one caller, each finished before the next: the first seeds the counter, the others raise it. */
  function Warm(m: nat): seq<Event>
  {
    if m == 0 then [] else Warm(m - 1) + [Get(0)] + [AddKey(0)] + if m == 1 then [] else [Incr(0)]
  }

  lemma {:induction false} WarmUp(workers: nat, m: nat, limit: int)
    requires workers >= 1 && m < limit
    ensures Play(Start(workers), Warm(m), limit) == Some(Shared(CountAfter(m), Start(workers).callers, m))
  {
    if m > 0 {
      WarmUp(workers, m - 1, limit);
      OneRequest(workers, Warm(m - 1), m, limit);
    }
  }

  lemma {:induction false} OneRequest(workers: nat, es: seq<Event>, m: nat, limit: int)
    requires workers >= 1 && 0 < m < limit
    requires Play(Start(workers), es, limit) == Some(Shared(CountAfter(m - 1), Start(workers).callers, m - 1))
    ensures Play(Start(workers), es + [Get(0)] + [AddKey(0)] + if m == 1 then [] else [Incr(0)], limit) ==
            Some(Shared(CountAfter(m), Start(workers).callers, m))
  {
    var idle := Start(workers).callers;
    PlaySnoc(Start(workers), es, Get(0), limit);
    PlaySnoc(Start(workers), es + [Get(0)], AddKey(0), limit);
    if m == 1 {
      assert es + [Get(0)] + [AddKey(0)] + [] == es + [Get(0)] + [AddKey(0)];
    } else {
      PlaySnoc(Start(workers), es + [Get(0)] + [AddKey(0)], Incr(0), limit);
    }
    assert idle[0 := Admitted][0 := Idle] == idle;
    assert idle[0 := Admitted][0 := AddFailed][0 := Idle] == idle;
  }

  function Gets(k: nat): seq<Event> { seq(k, i requires 0 <= i < k => Get(i)) }

  function ReadBy(workers: nat, k: nat): (r: seq<Caller>)
    ensures |r| == workers && forall i :: 0 <= i < workers ==> r[i] == if i < k then Admitted else Idle
  {
    seq(workers, i => if i < k then Admitted else Idle)
  }

  lemma OneMoreRead(workers: nat, k: nat)
    requires 0 < k <= workers
    ensures ReadBy(workers, k - 1)[k - 1 := Admitted] == ReadBy(workers, k)
    ensures Gets(k) == Gets(k - 1) + [Get(k - 1)]
  {
  }

  lemma {:induction false} AllRead(workers: nat, count: Option<int>, admitted: nat, k: nat, limit: int)
    requires k <= workers && (count.Some? ==> count.value < limit)
    ensures Play(Shared(count, ReadBy(workers, 0), admitted), Gets(k), limit) ==
            Some(Shared(count, ReadBy(workers, k), admitted + k))
  {
    if k > 0 {
      AllRead(workers, count, admitted, k - 1, limit);
      PlaySnoc(Shared(count, ReadBy(workers, 0), admitted), Gets(k - 1), Get(k - 1), limit);
      OneMoreRead(workers, k);
    }
  }

  /** The bound is met for every limit and every number of callers: all but one of the limit used up, then everyone
      reads before anyone writes. */
  lemma {:induction false} AllReadFirst(workers: nat, limit: int)
    requires workers >= 1 && limit >= 1
    ensures var d := Play(Start(workers), Warm(limit - 1) + Gets(workers), limit);
            d.Some? && d.value.admitted == Cap(limit) + workers - 1
  {
    WarmUp(workers, limit - 1, limit);
    assert Start(workers).callers == ReadBy(workers, 0);
    PlayConcat(Start(workers), Warm(limit - 1), Gets(workers), limit);
    AllRead(workers, CountAfter(limit - 1), limit - 1, workers, limit);
  }
}
