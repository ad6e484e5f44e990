/** Python's stable list.sort, as the function the services rely on. */
module Sorting {
  import opened Models

  ghost predicate TotalPreorder<T(!new)>(le: (T, T) -> bool)
  {
    && (forall a, b :: le(a, b) || le(b, a))
    && (forall a, b, c :: le(a, b) && le(b, c) ==> le(a, c))
  }

  ghost predicate Sorted<T>(s: seq<T>, le: (T, T) -> bool)
  {
    forall i, j :: 0 <= i < j < |s| ==> le(s[i], s[j])
  }

  /** x goes after every element it does not come strictly before. */
  function Insert<T>(s: seq<T>, x: T, le: (T, T) -> bool): (r: seq<T>)
    ensures |r| == |s| + 1 && multiset(r) == multiset(s) + multiset{x}
  {
    if s == [] || le(s[|s| - 1], x) then s + [x]
    else
      assert s == s[..|s| - 1] + [s[|s| - 1]];
      Insert(s[..|s| - 1], x, le) + [s[|s| - 1]]
  }

  function StableSort<T>(s: seq<T>, le: (T, T) -> bool): (r: seq<T>)
    ensures |r| == |s| && multiset(r) == multiset(s)
  {
    if s == [] then []
    else
      assert s == s[..|s| - 1] + [s[|s| - 1]];
      Insert(StableSort(s[..|s| - 1], le), s[|s| - 1], le)
  }

  lemma {:induction false} InsertSorted<T(!new)>(s: seq<T>, x: T, le: (T, T) -> bool)
    requires TotalPreorder(le) && Sorted(s, le)
    ensures Sorted(Insert(s, x, le), le)
  {
    if s == [] || le(s[|s| - 1], x) {
      forall i | 0 <= i < |s| ensures le(s[i], x) {
        assert i < |s| - 1 ==> le(s[i], s[|s| - 1]);
      }
    } else {
      var n := |s| - 1;
      InsertSorted(s[..n], x, le);
      var t := Insert(s[..n], x, le);
      forall i | 0 <= i < |t| ensures le(t[i], s[n]) {
        assert t[i] in multiset(t);
        if t[i] != x {
          assert t[i] in multiset(s[..n]);
          var j :| 0 <= j < n && s[j] == t[i];
        }
      }
    }
  }

  lemma {:induction false} SortSorted<T(!new)>(s: seq<T>, le: (T, T) -> bool)
    requires TotalPreorder(le)
    ensures Sorted(StableSort(s, le), le)
  {
    if s != [] {
      SortSorted(s[..|s| - 1], le);
      InsertSorted(StableSort(s[..|s| - 1], le), s[|s| - 1], le);
    }
  }

  /** The elements that x neither strictly precedes nor strictly follows, in the order they stand. */
  function Peers<T>(s: seq<T>, x: T, le: (T, T) -> bool): seq<T>
  {
    if s == [] then []
    else
      var n := |s| - 1;
      Peers(s[..n], x, le) + if le(s[n], x) && le(x, s[n]) then [s[n]] else []
  }

  lemma {:induction false} PeersAppend<T>(s: seq<T>, y: T, x: T, le: (T, T) -> bool)
    ensures Peers(s + [y], x, le) == Peers(s, x, le) + if le(y, x) && le(x, y) then [y] else []
  {
    assert (s + [y])[..|s|] == s;
  }

  lemma {:induction false} InsertStable<T(!new)>(s: seq<T>, y: T, x: T, le: (T, T) -> bool)
    requires TotalPreorder(le)
    ensures Peers(Insert(s, y, le), x, le) == Peers(s, x, le) + if le(y, x) && le(x, y) then [y] else []
  {
    PeersAppend(s, y, x, le);
    if s != [] && !le(s[|s| - 1], y) {
      var n := |s| - 1;
      InsertStable(s[..n], y, x, le);
      PeersAppend(Insert(s[..n], y, le), s[n], x, le);
    }
  }

  /** Elements that tie keep the order they came in. */
  lemma {:induction false} SortStable<T(!new)>(s: seq<T>, x: T, le: (T, T) -> bool)
    requires TotalPreorder(le)
    ensures Peers(StableSort(s, le), x, le) == Peers(s, x, le)
  {
    if s != [] {
      SortStable(s[..|s| - 1], x, le);
      InsertStable(StableSort(s[..|s| - 1], le), s[|s| - 1], x, le);
    }
  }

  lemma OnceIn<T>(s: seq<T>, k: nat)
    requires k < |s| && forall i, j :: 0 <= i < j < |s| ==> s[i] != s[j]
    ensures multiset(s)[s[k]] == 1
  {
    assert s == s[..k] + [s[k]] + s[k + 1..];
    assert s[k] !in s[..k] && s[k] !in s[k + 1..];
  }

  lemma TwiceIn<T>(s: seq<T>, i: nat, j: nat)
    requires i < j < |s| && s[i] == s[j]
    ensures multiset(s)[s[i]] >= 2
  {
    assert s == s[..i] + [s[i]] + s[i + 1..j] + [s[j]] + s[j + 1..];
  }

  /** Reordering elements that are all different loses none and repeats none. */
  lemma DistinctPermuted<T>(s: seq<T>, t: seq<T>)
    requires multiset(s) == multiset(t) && forall i, j :: 0 <= i < j < |s| ==> s[i] != s[j]
    ensures forall i :: 0 <= i < |t| ==> t[i] in s
    ensures forall i :: 0 <= i < |s| ==> s[i] in t
    ensures forall i, j :: 0 <= i < j < |t| ==> t[i] != t[j]
  {
    forall i | 0 <= i < |t| ensures t[i] in s {
      assert t[i] in multiset(s);
    }
    forall i | 0 <= i < |s| ensures s[i] in t {
      assert s[i] in multiset(t);
    }
    forall i, j | 0 <= i < j < |t| ensures t[i] != t[j] {
      if t[i] == t[j] {
        var k :| 0 <= k < |s| && s[k] == t[i];
        TwiceIn(t, i, j);
        OnceIn(s, k);
      }
    }
  }

  /** Dates in order, no date last. */
  predicate DueLe(a: Option<int>, b: Option<int>)
  {
    match b
    case None => true
    case Some(y) => (match a case None => false case Some(x) => x <= y)
  }

  lemma DueOrders(a: Option<int>, b: Option<int>, c: Option<int>)
    ensures DueLe(a, b) || DueLe(b, a)
    ensures DueLe(a, b) && DueLe(b, c) ==> DueLe(a, c)
  {
    match (a, b, c)
    case (None, _, None) =>
    case (None, None, Some(_)) =>
    case (None, Some(_), Some(_)) =>
    case (Some(_), _, None) =>
    case (Some(_), None, Some(_)) =>
    case (Some(_), Some(_), Some(_)) =>
  }
}
