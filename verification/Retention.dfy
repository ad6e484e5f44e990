/** Tiered backup retention: which units stay, and that pruning settles. */
module Retention {
  import opened Sorting
  import opened Models

  /** Times in microseconds; stamps name local wall-clock moments. */
  const DAY: int := 86_400_000_000

  function DayOf(t: int): int { t / DAY }

  datatype Tier = Recent | Daily | Weekly | Expired

  function TierOf(now: int, t: int): Tier
  {
    var age := now - t;
    if age <= 7 * DAY then Recent
    else if age <= 30 * DAY then Daily
    else if age <= 183 * DAY then Weekly
    else Expired
  }

  /** The bucket a unit competes in: its calendar day, or its week; `week` is ISO 8601's week of a day. */
  function BucketOf(now: int, t: int, week: int -> int): int
  {
    if TierOf(now, t) == Weekly then week(DayOf(t)) else DayOf(t)
  }

  predicate SameBucket(now: int, t: int, u: int, week: int -> int)
  {
    TierOf(now, t) == TierOf(now, u) && BucketOf(now, t, week) == BucketOf(now, u, week)
  }

  /** Everything recent, the newest of each day, the newest of each week, nothing older. */
  predicate Stays(units: set<int>, now: int, t: int, week: int -> int)
  {
    && t in units
    && match TierOf(now, t)
       case Recent => true
       case Expired => false
       case _ => forall u :: u in units && SameBucket(now, t, u, week) ==> u <= t
  }

  function Kept(units: set<int>, now: int, week: int -> int): set<int>
  {
    set t | t in units && Stays(units, now, t, week)
  }

  // ---- the pass over the stamps, newest first ----

  function NewestFirst(): (int, int) -> bool { (a: int, b: int) => a >= b }

  lemma NewestFirstOrders()
    ensures TotalPreorder(NewestFirst())
  {
    var le := NewestFirst();
    forall a: int, b: int, c: int
      ensures le(a, b) || le(b, a)
      ensures le(a, b) && le(b, c) ==> le(a, c)
    {
    }
  }

  function SetOf(stamps: seq<int>): set<int> { set i | 0 <= i < |stamps| :: stamps[i] }

  /** What the loop has seen and kept after the first i stamps. */
  ghost predicate SoFar(stamps: seq<int>, i: nat, now: int, week: int -> int, keep: set<int>, days: set<int>, weeks: set<int>)
    requires i <= |stamps|
  {
    && (forall t :: t in keep <==> t in SetOf(stamps[..i]) && Stays(SetOf(stamps), now, t, week))
    && (forall d :: d in days <==> exists j :: 0 <= j < i && TierOf(now, stamps[j]) == Daily && DayOf(stamps[j]) == d)
    && (forall w :: w in weeks <==> exists j :: 0 <= j < i && TierOf(now, stamps[j]) == Weekly && week(DayOf(stamps[j])) == w)
  }

  predicate Chosen(now: int, t: int, week: int -> int, days: set<int>, weeks: set<int>)
  {
    match TierOf(now, t)
    case Recent => true
    case Daily => DayOf(t) !in days
    case Weekly => week(DayOf(t)) !in weeks
    case Expired => false
  }

  lemma ChosenStays(stamps: seq<int>, i: nat, now: int, week: int -> int, keep: set<int>, days: set<int>, weeks: set<int>)
    requires i < |stamps| && forall j, k :: 0 <= j < k < |stamps| ==> stamps[j] > stamps[k]
    requires SoFar(stamps, i, now, week, keep, days, weeks)
    ensures Chosen(now, stamps[i], week, days, weeks) <==> Stays(SetOf(stamps), now, stamps[i], week)
    ensures forall t :: t in SetOf(stamps[..i + 1]) <==> t in SetOf(stamps[..i]) || t == stamps[i]
  {
    NewestSoFar(stamps, i, now, week);
    var x := stamps[i];
    assert x in SetOf(stamps);
    forall j | 0 <= j < i
      ensures TierOf(now, x) == Daily && SameBucket(now, x, stamps[j], week) ==> DayOf(x) in days
      ensures TierOf(now, x) == Weekly && SameBucket(now, x, stamps[j], week) ==> week(DayOf(x)) in weeks
    {
    }
    if TierOf(now, x) == Daily && DayOf(x) in days {
      var j :| 0 <= j < i && TierOf(now, stamps[j]) == Daily && DayOf(stamps[j]) == DayOf(x);
      assert SameBucket(now, x, stamps[j], week);
    }
    if TierOf(now, x) == Weekly && week(DayOf(x)) in weeks {
      var j :| 0 <= j < i && TierOf(now, stamps[j]) == Weekly && week(DayOf(stamps[j])) == week(DayOf(x));
      assert SameBucket(now, x, stamps[j], week);
    }
    assert stamps[..i + 1] == stamps[..i] + [stamps[i]];
    forall t | t in SetOf(stamps[..i]) ensures t in SetOf(stamps[..i + 1]) {
      var j :| 0 <= j < i && stamps[..i][j] == t;
      assert stamps[..i + 1][j] == t;
    }
    assert stamps[..i + 1][i] == stamps[i];
  }

  /** One turn of the loop. */
  lemma SoFarStep(stamps: seq<int>, i: nat, now: int, week: int -> int, keep: set<int>, days: set<int>, weeks: set<int>)
    requires i < |stamps| && forall j, k :: 0 <= j < k < |stamps| ==> stamps[j] > stamps[k]
    requires SoFar(stamps, i, now, week, keep, days, weeks)
    ensures var t := stamps[i];
            SoFar(stamps, i + 1, now, week,
                  if Chosen(now, t, week, days, weeks) then keep + {t} else keep,
                  if TierOf(now, t) == Daily && DayOf(t) !in days then days + {DayOf(t)} else days,
                  if TierOf(now, t) == Weekly && week(DayOf(t)) !in weeks then weeks + {week(DayOf(t))} else weeks)
  {
    ChosenStays(stamps, i, now, week, keep, days, weeks);
    var t := stamps[i];
    var days', weeks' :=
      if TierOf(now, t) == Daily && DayOf(t) !in days then days + {DayOf(t)} else days,
      if TierOf(now, t) == Weekly && week(DayOf(t)) !in weeks then weeks + {week(DayOf(t))} else weeks;
    forall d ensures d in days' <==> exists j :: 0 <= j < i + 1 && TierOf(now, stamps[j]) == Daily && DayOf(stamps[j]) == d {}
    forall w ensures w in weeks' <==> exists j :: 0 <= j < i + 1 && TierOf(now, stamps[j]) == Weekly && week(DayOf(stamps[j])) == w {}
  }

  method Choose(stamps: seq<int>, now: int, week: int -> int) returns (keep: set<int>)
    requires forall i, j :: 0 <= i < j < |stamps| ==> stamps[i] > stamps[j]
    ensures keep == Kept(SetOf(stamps), now, week)
  {
    keep := {};
    var seenDay: set<int> := {};
    var seenWeek: set<int> := {};
    for i := 0 to |stamps|
      invariant SoFar(stamps, i, now, week, keep, seenDay, seenWeek)
    {
      var t := stamps[i];
      SoFarStep(stamps, i, now, week, keep, seenDay, seenWeek);
      if now - t <= 7 * DAY {
        keep := keep + {t};
      } else if now - t <= 30 * DAY {
        if DayOf(t) !in seenDay {
          seenDay := seenDay + {DayOf(t)};
          keep := keep + {t};
        }
      } else if now - t <= 183 * DAY {
        if week(DayOf(t)) !in seenWeek {
          seenWeek := seenWeek + {week(DayOf(t))};
          keep := keep + {t};
        }
      }
    }
    assert stamps[..|stamps|] == stamps;
    forall t ensures t in keep <==> t in Kept(SetOf(stamps), now, week) {}
  }

  /** In a bucketed tier a stamp stays exactly when none of the newer ones shares its bucket. */
  lemma NewestSoFar(stamps: seq<int>, i: nat, now: int, week: int -> int)
    requires i < |stamps| && forall j, k :: 0 <= j < k < |stamps| ==> stamps[j] > stamps[k]
    ensures var units := SetOf(stamps);
            var tier := TierOf(now, stamps[i]);
            tier == Daily || tier == Weekly ==>
              (Stays(units, now, stamps[i], week) <==> forall j :: 0 <= j < i ==> !SameBucket(now, stamps[i], stamps[j], week))
  {
    var units := SetOf(stamps);
    assert stamps[i] in units;
    if Stays(units, now, stamps[i], week) {
      forall j | 0 <= j < i ensures !Stays(units, now, stamps[i], week) || TierOf(now, stamps[i]) == Recent || !SameBucket(now, stamps[i], stamps[j], week) {
        assert stamps[j] in units && stamps[j] > stamps[i];
      }
    }
    if forall j :: 0 <= j < i ==> !SameBucket(now, stamps[i], stamps[j], week) {
      forall u | u in units && SameBucket(now, stamps[i], u, week) ensures u <= stamps[i] {
        var j :| 0 <= j < |stamps| && stamps[j] == u;
        assert j >= i;
      }
    }
  }

  // ---- the files ----

  /** A file of the backup directory; one whose name carries no stamp is not touched. */
  datatype File = File(name: nat, stamp: Option<int>)

  function Stamps(files: seq<File>): set<int> { set i | 0 <= i < |files| && files[i].stamp.Some? :: files[i].stamp.value }

  function Remaining(files: seq<File>, keep: set<int>): seq<File>
  {
    if files == [] then []
    else
      var n := |files| - 1;
      Remaining(files[..n], keep) + if files[n].stamp.None? || files[n].stamp.value in keep then [files[n]] else []
  }

  /** The distinct stamps of the directory, newest first. */
  method Units(files: seq<File>) returns (stamps: seq<int>)
    ensures SetOf(stamps) == Stamps(files)
    ensures forall i, j :: 0 <= i < j < |stamps| ==> stamps[i] > stamps[j]
  {
    var found: seq<int> := [];
    for i := 0 to |files|
      invariant forall t :: t in found <==> exists j :: 0 <= j < i && files[j].stamp == Some(t)
      invariant forall j, k :: 0 <= j < k < |found| ==> found[j] != found[k]
    {
      if files[i].stamp.Some? && files[i].stamp.value !in found {
        found := found + [files[i].stamp.value];
      }
    }
    stamps := StableSort(found, NewestFirst());
    NewestFirstOrders();
    SortSorted(found, NewestFirst());
    DistinctPermuted(found, stamps);
    forall i, j | 0 <= i < j < |stamps| ensures stamps[i] > stamps[j] {
      assert NewestFirst()(stamps[i], stamps[j]) && stamps[i] != stamps[j];
    }
    SameStamps(files, found, stamps);
  }

  lemma SameStamps(files: seq<File>, found: seq<int>, stamps: seq<int>)
    requires forall t :: t in found <==> exists j :: 0 <= j < |files| && files[j].stamp == Some(t)
    requires (forall i :: 0 <= i < |stamps| ==> stamps[i] in found) && (forall i :: 0 <= i < |found| ==> found[i] in stamps)
    ensures SetOf(stamps) == Stamps(files)
  {
    var a := SetOf(stamps);
    forall t ensures t in a <==> t in Stamps(files) {
      if t in Stamps(files) {
        var j :| 0 <= j < |files| && files[j].stamp == Some(t);
        assert t in found;
      }
    }
  }

  /** Deletes every file of a dropped unit and leaves all others, in place. */
  method Prune(files: seq<File>, now: int, week: int -> int) returns (left: seq<File>, removed: nat)
    ensures left == Remaining(files, Kept(Stamps(files), now, week))
    ensures |left| + removed == |files|
  {
    var stamps := Units(files);
    var keep := Choose(stamps, now, week);
    left, removed := [], 0;
    for i := 0 to |files|
      invariant left == Remaining(files[..i], keep) && |left| + removed == i
    {
      assert files[..i + 1][..i] == files[..i];
      if files[i].stamp.None? || files[i].stamp.value in keep {
        left := left + [files[i]];
      } else {
        removed := removed + 1;
      }
    }
    assert files[..|files|] == files;
  }

  // ---- what retention promises ----

  lemma NewestInBucket(units: set<int>, now: int, t: int, week: int -> int) returns (u: int)
    requires t in units
    ensures u in units && SameBucket(now, t, u, week) && u >= t
    ensures forall x :: x in units && SameBucket(now, t, x, week) ==> x <= u
    decreases |units|
  {
    if exists x :: x in units && SameBucket(now, t, x, week) && x > t {
      var x :| x in units && SameBucket(now, t, x, week) && x > t;
      u := NewestInBucket(units - {t}, now, x, week);
      forall y | y in units && SameBucket(now, t, y, week) ensures y <= u {
        assert y == t || (y in units - {t} && SameBucket(now, x, y, week));
      }
    } else {
      u := t;
    }
  }

  /** On the same calendar day. */
  ghost predicate OneDay(t: int, u: int) { exists d: int {:trigger Daybreak(d)} :: Daybreak(d) <= t < Daybreak(d + 1) && Daybreak(d) <= u < Daybreak(d + 1) }

  function Daybreak(d: int): int { d * DAY }

  lemma SameDay(t: int, u: int)
    ensures OneDay(t, u) <==> DayOf(t) == DayOf(u)
  {
    DayHolds(t);
    DayHolds(u);
    if OneDay(t, u) {
      var d: int :| Daybreak(d) <= t < Daybreak(d + 1) && Daybreak(d) <= u < Daybreak(d + 1);
      OnlyDay(t, d, DayOf(t));
      OnlyDay(u, d, DayOf(u));
    }
  }

  lemma DayHolds(t: int)
    ensures Daybreak(DayOf(t)) <= t < Daybreak(DayOf(t) + 1)
  {
  }

  lemma OnlyDay(t: int, d: int, e: int)
    requires Daybreak(d) <= t < Daybreak(d + 1) && Daybreak(e) <= t < Daybreak(e + 1)
    ensures d == e
  {
  }

  /** What is kept, by age: everything up to 7 days; up to 30 the newest of each calendar day, up to 183 the newest of
      each week, both among units of that age; nothing older. */
  lemma KeptExact(units: set<int>, now: int, t: int, week: int -> int)
    ensures t in Kept(units, now, week) <==>
            && t in units
            && (|| now - t <= 7 * DAY
                || (now - t <= 30 * DAY &&
                    forall u :: u in units && 7 * DAY < now - u <= 30 * DAY && OneDay(t, u) ==> u <= t)
                || (30 * DAY < now - t <= 183 * DAY &&
                    forall u :: u in units && 30 * DAY < now - u <= 183 * DAY && week(DayOf(u)) == week(DayOf(t)) ==> u <= t))
  {
    forall u ensures OneDay(t, u) <==> DayOf(t) == DayOf(u) { SameDay(t, u); }
  }

  /** A unit dropped within 183 days leaves a newer kept one in its bucket. */
  lemma DroppedHasNewerKept(units: set<int>, now: int, t: int, week: int -> int) returns (u: int)
    requires t in units && now - t <= 183 * DAY && t !in Kept(units, now, week)
    ensures u in Kept(units, now, week) && u > t && SameBucket(now, t, u, week)
  {
    u := NewestInBucket(units, now, t, week);
    forall x | x in units && SameBucket(now, u, x, week) ensures x <= u {
      assert SameBucket(now, t, x, week);
    }
    assert Stays(units, now, u, week);
  }

  /** Pruning again at the same instant changes nothing. */
  lemma PruneTwice(units: set<int>, now: int, week: int -> int)
    ensures Kept(Kept(units, now, week), now, week) == Kept(units, now, week)
  {
    var once := Kept(units, now, week);
    forall t | t in once ensures t in Kept(once, now, week) {
      assert Stays(units, now, t, week);
    }
  }

  lemma {:induction false} RemainingStamps(files: seq<File>, keep: set<int>)
    ensures Stamps(Remaining(files, keep)) == Stamps(files) * keep
  {
    if files != [] {
      var n := |files| - 1;
      RemainingStamps(files[..n], keep);
      var before, after := Remaining(files[..n], keep), Remaining(files, keep);
      StampsStep(files, n);
      if files[n].stamp.None? || files[n].stamp.value in keep {
        assert after == before + [files[n]];
        assert after[..|before|] == before;
        StampsStep(after, |before|);
      } else {
        assert after == before;
      }
      var step := if files[n].stamp.Some? then {files[n].stamp.value} else {};
      assert (Stamps(files[..n]) + step) * keep == Stamps(files[..n]) * keep + step * keep;
    }
  }

  lemma StampsStep(files: seq<File>, n: nat)
    requires |files| == n + 1
    ensures Stamps(files) == Stamps(files[..n]) + if files[n].stamp.Some? then {files[n].stamp.value} else {}
  {
    var step := if files[n].stamp.Some? then {files[n].stamp.value} else {};
    forall t | t in Stamps(files) ensures t in Stamps(files[..n]) + step {
      var i :| 0 <= i < |files| && files[i].stamp == Some(t);
      if i < n {
        assert files[..n][i] == files[i];
      }
    }
    forall t | t in Stamps(files[..n]) ensures t in Stamps(files) {
      var i :| 0 <= i < n && files[..n][i].stamp == Some(t);
      assert files[i].stamp == Some(t);
    }
  }

  lemma {:induction false} AllStay(files: seq<File>, keep: set<int>)
    requires forall i :: 0 <= i < |files| && files[i].stamp.Some? ==> files[i].stamp.value in keep
    ensures Remaining(files, keep) == files
  {
    if files != [] {
      var n := |files| - 1;
      AllStay(files[..n], keep);
      assert files == files[..n] + [files[n]];
    }
  }

  /** A second run over the directory the first one left deletes no file. */
  lemma {:induction false} SecondRunDeletesNothing(files: seq<File>, now: int, week: int -> int)
    ensures var left := Remaining(files, Kept(Stamps(files), now, week));
            Remaining(left, Kept(Stamps(left), now, week)) == left
  {
    var keep := Kept(Stamps(files), now, week);
    RemainingStamps(files, keep);
    assert Stamps(files) * keep == keep;
    PruneTwice(Stamps(files), now, week);
    AllStay(Remaining(files, keep), keep);
  }
}
