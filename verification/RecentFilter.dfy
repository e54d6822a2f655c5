/** The as-of filter on recent results: what was known before a date, newest first. */
module RecentFilter {
  /** `date` is in seconds since the epoch; `details` stands for the other columns. */
  datatype RecentResult = RecentResult(date: int, details: string)

  /** The calendar day in UTC. */
  function Day(t: int): int {
    t / 86400
  }

  function Before(rows: seq<RecentResult>, asOf: int): seq<RecentResult> {
    if rows == [] then []
    else
      var last := rows[|rows| - 1];
      Before(rows[..|rows| - 1], asOf) + if Day(last.date) < Day(asOf) then [last] else []
  }

  /** The position after every row at least as new. */
  function Place(sorted: seq<RecentResult>, r: RecentResult): (k: nat)
    ensures k <= |sorted|
  {
    if sorted == [] || sorted[|sorted| - 1].date >= r.date then |sorted|
    else Place(sorted[..|sorted| - 1], r)
  }

  /** Newest first, equal times in their original order. */
  function StableSort(rows: seq<RecentResult>): seq<RecentResult> {
    if rows == [] then []
    else
      var sorted, r := StableSort(rows[..|rows| - 1]), rows[|rows| - 1];
      var k := Place(sorted, r);
      sorted[..k] + [r] + sorted[k..]
  }

  function Take(rows: seq<RecentResult>, limit: int): seq<RecentResult> {
    if limit <= 0 then [] else if |rows| > limit then rows[..limit] else rows
  }

  function RecentBefore(rows: seq<RecentResult>, asOf: int, limit: int): seq<RecentResult> {
    Take(StableSort(Before(rows, asOf)), limit)
  }

  method RecentResultsBefore(results: seq<RecentResult>, asOf: int, limit: int) returns (r: seq<RecentResult>)
    ensures r == RecentBefore(results, asOf, limit)
  {
    if limit <= 0 || |results| == 0 {
      return [];
    }
    var cutoff := Day(asOf);
    var filtered: seq<RecentResult> := [];
    for i := 0 to |results|
      invariant filtered == Before(results[..i], asOf)
    {
      assert results[..i + 1][..i] == results[..i];
      if !(Day(results[i].date) < cutoff) {
        continue;
      }
      filtered := filtered + [results[i]];
    }
    assert results[..|results|] == results;
    if |filtered| == 0 {
      return [];
    }
    filtered := StableSort(filtered);
    if |filtered| > limit {
      filtered := filtered[..limit];
    }
    return filtered;
  }

  // The sort is the stable sort.

  predicate NewestFirst(rows: seq<RecentResult>) {
    forall i, j :: 0 <= i < j < |rows| ==> rows[i].date >= rows[j].date
  }

  /** The rows of one time, in order. */
  function AtTime(rows: seq<RecentResult>, t: int): seq<RecentResult> {
    if rows == [] then []
    else AtTime(rows[..|rows| - 1], t) + if rows[|rows| - 1].date == t then [rows[|rows| - 1]] else []
  }

  lemma {:induction false} AtTimeJoin(a: seq<RecentResult>, b: seq<RecentResult>, t: int)
    ensures AtTime(a + b, t) == AtTime(a, t) + AtTime(b, t)
    decreases |b|
  {
    if b == [] {
      assert a + b == a;
    } else {
      assert (a + b)[..|a + b| - 1] == a + b[..|b| - 1];
      AtTimeJoin(a, b[..|b| - 1], t);
    }
  }

  lemma {:induction false} AtTimeEmpty(rows: seq<RecentResult>, t: int)
    requires forall i :: 0 <= i < |rows| ==> rows[i].date != t
    ensures AtTime(rows, t) == []
  {
    if rows != [] {
      AtTimeEmpty(rows[..|rows| - 1], t);
    }
  }

  lemma {:induction false} PlaceSplits(sorted: seq<RecentResult>, r: RecentResult)
    requires NewestFirst(sorted)
    ensures var k := Place(sorted, r);
            && (forall i :: 0 <= i < k ==> sorted[i].date >= r.date)
            && (forall i :: k <= i < |sorted| ==> sorted[i].date < r.date)
  {
    if sorted != [] && sorted[|sorted| - 1].date < r.date {
      PlaceSplits(sorted[..|sorted| - 1], r);
    }
  }

  lemma InsertionIsOrdered(a: seq<RecentResult>, r: RecentResult, b: seq<RecentResult>)
    requires NewestFirst(a + b)
    requires forall i :: 0 <= i < |a| ==> a[i].date >= r.date
    requires forall i :: 0 <= i < |b| ==> b[i].date < r.date
    ensures NewestFirst(a + [r] + b)
  {
    var after := a + [r] + b;
    forall i, j | 0 <= i < j < |after|
      ensures after[i].date >= after[j].date
    {
      var i', j' := if i < |a| then i else i - 1, if j < |a| then j else j - 1;
      if i != |a| && j != |a| {
        assert (a + b)[i'] == after[i] && (a + b)[j'] == after[j];
      }
    }
  }

  lemma {:induction false} InsertionIsStable(a: seq<RecentResult>, r: RecentResult, b: seq<RecentResult>, t: int)
    requires forall i :: 0 <= i < |b| ==> b[i].date < r.date
    ensures AtTime(a + [r] + b, t) == AtTime(a + b, t) + AtTime([r], t)
  {
    AtTimeJoin(a + [r], b, t);
    AtTimeJoin(a, [r], t);
    AtTimeJoin(a, b, t);
    if r.date == t {
      AtTimeEmpty(b, t);
    } else {
      AtTimeEmpty([r], t);
    }
    hide AtTime;
    MoveEmpty(AtTime(a, t), AtTime([r], t), AtTime(b, t));
  }

  lemma MoveEmpty<T>(p: seq<T>, q: seq<T>, r: seq<T>)
    requires q == [] || r == []
    ensures p + q + r == p + r + q
  {
  }

  lemma Insertion(sorted: seq<RecentResult>, r: RecentResult, t: int)
    requires NewestFirst(sorted)
    ensures var k := Place(sorted, r);
            var after := sorted[..k] + [r] + sorted[k..];
            NewestFirst(after) && AtTime(after, t) == AtTime(sorted, t) + AtTime([r], t)
  {
    var k := Place(sorted, r);
    PlaceSplits(sorted, r);
    assert sorted[..k] + sorted[k..] == sorted;
    hide NewestFirst, AtTime, Place;
    InsertionIsOrdered(sorted[..k], r, sorted[k..]);
    InsertionIsStable(sorted[..k], r, sorted[k..], t);
  }

  lemma {:induction false} StableSortIsStable(rows: seq<RecentResult>, t: int)
    ensures NewestFirst(StableSort(rows))
    ensures AtTime(StableSort(rows), t) == AtTime(rows, t)
  {
    if rows != [] {
      var n := |rows| - 1;
      StableSortIsStable(rows[..n], t);
      Insertion(StableSort(rows[..n]), rows[n], t);
      AtTimeJoin(rows[..n], [rows[n]], t);
      assert rows == rows[..n] + [rows[n]];
    }
  }

  lemma {:induction false} AtTimeFinds(rows: seq<RecentResult>, i: nat)
    requires i < |rows|
    ensures AtTime(rows, rows[i].date) != []
  {
    if i < |rows| - 1 {
      AtTimeFinds(rows[..|rows| - 1], i);
    }
  }

  lemma FirstAtTime(rows: seq<RecentResult>, t: int)
    requires rows != []
    ensures AtTime(rows, t) == AtTime([rows[0]], t) + AtTime(rows[1..], t)
  {
    assert rows == [rows[0]] + rows[1..];
    AtTimeJoin([rows[0]], rows[1..], t);
  }

  lemma SameRest(a: seq<RecentResult>, b: seq<RecentResult>, t: int)
    requires a != [] && b != [] && a[0] == b[0] && AtTime(a, t) == AtTime(b, t)
    ensures AtTime(a[1..], t) == AtTime(b[1..], t)
  {
    FirstAtTime(a, t);
    FirstAtTime(b, t);
    var n := |AtTime([a[0]], t)|;
    assert AtTime(a[1..], t) == AtTime(a, t)[n..];
    assert AtTime(b[1..], t) == AtTime(b, t)[n..];
  }

  /** There is only one stable newest-first arrangement of given rows. */
  lemma {:induction false} StableSortIsUnique(a: seq<RecentResult>, b: seq<RecentResult>)
    requires NewestFirst(a) && NewestFirst(b)
    requires forall t :: AtTime(a, t) == AtTime(b, t)
    ensures a == b
    decreases |a|
  {
    if a == [] {
      if b != [] {
        AtTimeFinds(b, 0);
      }
    } else if b == [] {
      AtTimeFinds(a, 0);
    } else {
      hide AtTime;
      SameHead(a, b);
      forall t
        ensures AtTime(a[1..], t) == AtTime(b[1..], t)
      {
        SameRest(a, b, t);
      }
      StableSortIsUnique(a[1..], b[1..]);
      assert a == [a[0]] + a[1..] && b == [b[0]] + b[1..];
    }
  }

  lemma {:induction false} InAtTime(rows: seq<RecentResult>, t: int)
    requires AtTime(rows, t) != []
    ensures exists i :: 0 <= i < |rows| && rows[i].date == t
  {
    if rows[|rows| - 1].date != t {
      InAtTime(rows[..|rows| - 1], t);
      var i :| 0 <= i < |rows[..|rows| - 1]| && rows[..|rows| - 1][i].date == t;
      assert rows[i].date == t;
    }
  }

  lemma {:induction false} SameHead(a: seq<RecentResult>, b: seq<RecentResult>)
    requires a != [] && b != [] && NewestFirst(a) && NewestFirst(b)
    requires forall t :: AtTime(a, t) == AtTime(b, t)
    ensures a[0] == b[0]
  {
    AtTimeFinds(a, 0);
    AtTimeFinds(b, 0);
    InAtTime(b, a[0].date);
    InAtTime(a, b[0].date);
    var t := a[0].date;
    assert t == b[0].date;
    FirstAtTime(a, t);
    FirstAtTime(b, t);
    AtTimeOfOne(a[0]);
    AtTimeOfOne(b[0]);
    hide AtTime, NewestFirst;
    assert AtTime(a, t)[0] == a[0];
    assert AtTime(b, t)[0] == b[0];
  }

  lemma AtTimeOfOne(r: RecentResult)
    ensures AtTime([r], r.date) == [r]
  {
    assert [r][..0] == [];
  }

  // The laws of the filter.

  /** Midnight UTC at the start of the day of t. */
  function Midnight(t: int): int {
    t - t % 86400
  }

  /** To be on an earlier day is to be before midnight. */
  lemma EarlierDay(t: int, asOf: int)
    ensures Day(t) < Day(asOf) <==> t < Midnight(asOf)
    ensures Midnight(asOf) <= asOf < Midnight(asOf) + 86400 && Midnight(asOf) % 86400 == 0
  {
  }

  /** The rows dated before midnight are kept, each as often as it was there, and no others. */
  lemma {:induction false} BeforeMeaning(rows: seq<RecentResult>, asOf: int, r: RecentResult)
    ensures multiset(Before(rows, asOf))[r] == if r.date < Midnight(asOf) then multiset(rows)[r] else 0
  {
    if rows != [] {
      var n := |rows| - 1;
      BeforeMeaning(rows[..n], asOf, r);
      EarlierDay(rows[n].date, asOf);
      hide Day, Midnight;
      var early := Before(rows[..n], asOf);
      assert rows == rows[..n] + [rows[n]];
      assert Before(rows, asOf) == if rows[n].date < Midnight(asOf) then early + [rows[n]] else early;
      hide Before;
      OneMore(rows[..n], rows[n], r);
      OneMore(early, rows[n], r);
    }
  }

  lemma OneMore<T>(rows: seq<T>, last: T, r: T)
    ensures multiset(rows + [last])[r] == multiset(rows)[r] + if last == r then 1 else 0
  {
  }

  lemma {:induction false} BeforeKeeps(rows: seq<RecentResult>, asOf: int)
    ensures forall i :: 0 <= i < |Before(rows, asOf)| ==> Day(Before(rows, asOf)[i].date) < Day(asOf)
  {
    if rows != [] {
      BeforeKeeps(rows[..|rows| - 1], asOf);
    }
  }

  lemma {:induction false} BeforeOfEarly(rows: seq<RecentResult>, asOf: int)
    requires forall i :: 0 <= i < |rows| ==> Day(rows[i].date) < Day(asOf)
    ensures Before(rows, asOf) == rows
  {
    if rows != [] {
      BeforeOfEarly(rows[..|rows| - 1], asOf);
    }
  }

  lemma {:induction false} SortKeepsRows(rows: seq<RecentResult>)
    ensures multiset(StableSort(rows)) == multiset(rows)
  {
    if rows != [] {
      var n := |rows| - 1;
      var sorted := StableSort(rows[..n]);
      SortKeepsRows(rows[..n]);
      var k := Place(sorted, rows[n]);
      assert sorted == sorted[..k] + sorted[k..];
      assert rows == rows[..n] + [rows[n]];
    }
  }

  lemma SortOfSorted(rows: seq<RecentResult>)
    requires NewestFirst(rows)
    ensures StableSort(rows) == rows
  {
    forall t
      ensures AtTime(StableSort(rows), t) == AtTime(rows, t)
    {
      StableSortIsStable(rows, t);
    }
    StableSortIsStable(rows, 0);
    StableSortIsUnique(StableSort(rows), rows);
  }

  lemma {:induction false} SortedEarly(rows: seq<RecentResult>, asOf: int)
    ensures var sorted := StableSort(Before(rows, asOf));
            NewestFirst(sorted) && forall i :: 0 <= i < |sorted| ==> Day(sorted[i].date) < Day(asOf)
  {
    var early := Before(rows, asOf);
    var sorted := StableSort(early);
    BeforeKeeps(rows, asOf);
    StableSortIsStable(early, 0);
    SortKeepsRows(early);
    forall i | 0 <= i < |sorted|
      ensures Day(sorted[i].date) < Day(asOf)
    {
      assert sorted[i] in multiset(sorted);
      assert sorted[i] in early;
    }
  }

  /** Filtering twice by the same date is filtering once, by the smaller limit. */
  lemma FilterTwice(rows: seq<RecentResult>, asOf: int, limit1: int, limit2: int)
    ensures RecentBefore(RecentBefore(rows, asOf, limit1), asOf, limit2) ==
            RecentBefore(rows, asOf, if limit1 <= limit2 then limit1 else limit2)
  {
    var sorted := StableSort(Before(rows, asOf));
    var once := Take(sorted, limit1);
    SortedEarly(rows, asOf);
    hide Before, StableSort;
    BeforeOfEarly(once, asOf);
    SortOfSorted(once);
  }

  lemma {:induction false} BeforeJoin(a: seq<RecentResult>, b: seq<RecentResult>, asOf: int)
    ensures Before(a + b, asOf) == Before(a, asOf) + Before(b, asOf)
    decreases |b|
  {
    if b == [] {
      assert a + b == a;
    } else {
      assert (a + b)[..|a + b| - 1] == a + b[..|b| - 1];
      BeforeJoin(a, b[..|b| - 1], asOf);
    }
  }

  /** A row dated on the day of the cut-off or later has no influence, wherever it stands. */
  lemma NoLookAhead(a: seq<RecentResult>, late: RecentResult, b: seq<RecentResult>, asOf: int, limit: int)
    requires late.date >= Midnight(asOf)
    ensures RecentBefore(a + [late] + b, asOf, limit) == RecentBefore(a + b, asOf, limit)
  {
    EarlierDay(late.date, asOf);
    BeforeJoin(a + [late], b, asOf);
    BeforeJoin(a, [late], asOf);
    BeforeJoin(a, b, asOf);
    assert [late][..0] == [] && Before([late], asOf) == [];
    assert Before(a, asOf) + [] == Before(a, asOf);
  }

  /** The result is the newest of the early rows: whatever is left out is no newer. */
  lemma {:induction false} KeepsTheNewest(rows: seq<RecentResult>, asOf: int, limit: int)
    ensures var early, r := Before(rows, asOf), RecentBefore(rows, asOf, limit);
            && |r| == (if limit <= 0 then 0 else if |early| < limit then |early| else limit)
            && NewestFirst(r) && multiset(r) <= multiset(early)
            && forall x: RecentResult, y :: x in multiset(early) - multiset(r) && y in r ==> y.date >= x.date
  {
    var early, r := Before(rows, asOf), RecentBefore(rows, asOf, limit);
    var sorted := StableSort(early);
    SortedEarly(rows, asOf);
    SortKeepsRows(early);
    assert |multiset(sorted)| == |sorted| && |multiset(early)| == |early|;
    hide Before, StableSort;
    PrefixIsNewest(sorted, |r|);
  }

  lemma PrefixIsNewest(sorted: seq<RecentResult>, n: nat)
    requires NewestFirst(sorted) && n <= |sorted|
    ensures NewestFirst(sorted[..n]) && multiset(sorted[..n]) <= multiset(sorted)
    ensures forall x: RecentResult, y ::
              x in multiset(sorted) - multiset(sorted[..n]) && y in sorted[..n] ==> y.date >= x.date
  {
    var head, rest := sorted[..n], sorted[n..];
    assert sorted == head + rest;
    assert multiset(sorted) == multiset(head) + multiset(rest);
    forall x: RecentResult, y | x in multiset(rest) && y in head
      ensures y.date >= x.date
    {
      assert x in rest;
      var i :| 0 <= i < n && sorted[i] == y;
      var j :| 0 <= j < |rest| && rest[j] == x;
      assert sorted[n + j] == x;
    }
  }
}
