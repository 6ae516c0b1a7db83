/**
  The leaderboard query (`getLeaderboardWithUsers` in lib/supabase/realtime.ts): rows
  of `leaderboard_view` are sorted on the client by a two-key descending comparator,
  cut to the top 10 and given defaults for missing fields. The query result is a
  parameter; `Array.prototype.sort` is stable, so it is modelled by a stable insertion sort.
 */
module Leaderboard {
  import opened Wrappers

  const TopCount: nat := 10
  const UnknownName: string := "Unknown"

  /** A row of the view; a missing value is SQL `null`. */
  datatype ViewRow = ViewRow(userId: string, name: Option<string>, score: Option<int>, streak: Option<int>, maxStreak: Option<int>)

  /** An entry as the function returns it. */
  datatype Entry = Entry(userId: string, score: int, streak: int, maxStreak: int, name: string)

  /** What the query gives back: an error, no data, the rows, or an exception. */
  datatype Query = QueryError | NoData | Rows(rows: seq<ViewRow>) | Threw

  /** The key compared first and the key that breaks ties, as `|| 0` values. */
  function PrimaryKey(sortBy: string, r: ViewRow): int {
    if sortBy == "score" then OrZero(r.score) else OrZero(r.maxStreak)
  }

  function SecondaryKey(sortBy: string, r: ViewRow): int {
    if sortBy == "score" then OrZero(r.maxStreak) else OrZero(r.score)
  }

  /**
    The comparator as written: the first test compares the raw values with `!==`, so a
    `null` key against a `0` key counts as different and returns `0 - 0` without
    looking at the second key.
   */
  function CompareAsWritten(sortBy: string, a: ViewRow, b: ViewRow): int {
    var (ra, rb) := if sortBy == "score" then (a.score, b.score) else (a.maxStreak, b.maxStreak);
    if rb != ra then PrimaryKey(sortBy, b) - PrimaryKey(sortBy, a)
    else SecondaryKey(sortBy, b) - SecondaryKey(sortBy, a)
  }

  /** The comparator as intended: both keys compared as `|| 0` values, descending. */
  function Compare(sortBy: string, a: ViewRow, b: ViewRow): (c: int)
    ensures c < 0 <==> PrimaryKey(sortBy, a) > PrimaryKey(sortBy, b)
                       || (PrimaryKey(sortBy, a) == PrimaryKey(sortBy, b) && SecondaryKey(sortBy, a) > SecondaryKey(sortBy, b))
    ensures c == 0 <==> PrimaryKey(sortBy, a) == PrimaryKey(sortBy, b) && SecondaryKey(sortBy, a) == SecondaryKey(sortBy, b)
  {
    if PrimaryKey(sortBy, b) != PrimaryKey(sortBy, a) then PrimaryKey(sortBy, b) - PrimaryKey(sortBy, a)
    else SecondaryKey(sortBy, b) - SecondaryKey(sortBy, a)
  }

  /** Three rows on which the written comparator is not a consistent comparison. */
  const NullScore := ViewRow("x", None, None, Some(0), Some(5))
  const LowStreak := ViewRow("y", None, Some(0), Some(0), Some(1))
  const HighStreak := ViewRow("z", None, Some(0), Some(0), Some(9))

  /**
    The written comparator calls the null-score row equal to both others, yet orders
    those two strictly, so no ordering is consistent with it; the intended comparator
    ranks the three by max streak, as their scores all read as 0.
   */
  lemma AsWrittenIsInconsistent()
    ensures CompareAsWritten("score", NullScore, LowStreak) == 0
    ensures CompareAsWritten("score", NullScore, HighStreak) == 0
    ensures CompareAsWritten("score", LowStreak, HighStreak) > 0
    ensures Compare("score", HighStreak, NullScore) < 0 && Compare("score", NullScore, LowStreak) < 0
  {
  }

  /** The two comparators differ only when one row's first key is `null` and the other's is `0`. */
  lemma AsWrittenDiffersOnlyOnNullVersusZero(sortBy: string, a: ViewRow, b: ViewRow)
    ensures var (ra, rb) := if sortBy == "score" then (a.score, b.score) else (a.maxStreak, b.maxStreak);
      CompareAsWritten(sortBy, a, b) != Compare(sortBy, a, b) ==>
        (ra == None && rb == Some(0)) || (ra == Some(0) && rb == None)
  {
  }

  /** `a` may come before `b`: a larger first key, or an equal first key and a second key at least as large. */
  predicate NotAfter(sortBy: string, a: ViewRow, b: ViewRow) {
    PrimaryKey(sortBy, a) > PrimaryKey(sortBy, b)
    || (PrimaryKey(sortBy, a) == PrimaryKey(sortBy, b) && SecondaryKey(sortBy, a) >= SecondaryKey(sortBy, b))
  }

  /**
    The intended comparator is consistent: it says "not after" exactly for the
    lexicographic key order, which is total and transitive, and swapping the
    arguments flips its sign.
   */
  lemma CompareIsConsistent(sortBy: string, a: ViewRow, b: ViewRow, c: ViewRow)
    ensures Compare(sortBy, a, b) <= 0 <==> NotAfter(sortBy, a, b)
    ensures Compare(sortBy, a, b) == -Compare(sortBy, b, a)
    ensures NotAfter(sortBy, a, b) || NotAfter(sortBy, b, a)
    ensures NotAfter(sortBy, a, b) && NotAfter(sortBy, b, c) ==> NotAfter(sortBy, a, c)
  {
  }

  /** Insert `e` after every element not ranked strictly after it, scanning from the end. */
  function Insert(sortBy: string, sorted: seq<ViewRow>, e: ViewRow): (r: seq<ViewRow>)
    ensures multiset(r) == multiset(sorted) + multiset{e}
    ensures |r| == |sorted| + 1
    ensures forall i :: 0 <= i < |r| ==> r[i] == e || r[i] in sorted
    decreases |sorted|
  {
    if sorted == [] then [e]
    else if Compare(sortBy, sorted[|sorted| - 1], e) <= 0 then sorted + [e]
    else
      var butLast := sorted[..|sorted| - 1];
      assert sorted == butLast + [sorted[|sorted| - 1]];
      Insert(sortBy, butLast, e) + [sorted[|sorted| - 1]]
  }

  /** `[...data].sort(comparator)` with the intended comparator. */
  function Sort(sortBy: string, rows: seq<ViewRow>): (r: seq<ViewRow>)
    ensures multiset(r) == multiset(rows)
    ensures |r| == |rows|
    decreases |rows|
  {
    if rows == [] then []
    else
      assert rows == rows[..|rows| - 1] + [rows[|rows| - 1]];
      Insert(sortBy, Sort(sortBy, rows[..|rows| - 1]), rows[|rows| - 1])
  }

  /** The primary key as stored, before `|| 0`. */
  function RawKey(sortBy: string, r: ViewRow): Option<int> {
    if sortBy == "score" then r.score else r.maxStreak
  }

  /** No row with a `null` primary key shares the list with a row whose primary key is `0`. */
  predicate NoNullZeroClash(sortBy: string, rows: seq<ViewRow>) {
    forall a, b :: a in rows && b in rows ==> !(RawKey(sortBy, a).None? && RawKey(sortBy, b) == Some(0))
  }

  /** The insertion step of the sort with the comparator as written. */
  function InsertAsWritten(sortBy: string, sorted: seq<ViewRow>, e: ViewRow): seq<ViewRow>
    decreases |sorted|
  {
    if sorted == [] then [e]
    else if CompareAsWritten(sortBy, sorted[|sorted| - 1], e) <= 0 then sorted + [e]
    else InsertAsWritten(sortBy, sorted[..|sorted| - 1], e) + [sorted[|sorted| - 1]]
  }

  /** `[...data].sort(comparator)` with the comparator as written. */
  function SortAsWritten(sortBy: string, rows: seq<ViewRow>): seq<ViewRow>
    decreases |rows|
  {
    if rows == [] then []
    else InsertAsWritten(sortBy, SortAsWritten(sortBy, rows[..|rows| - 1]), rows[|rows| - 1])
  }

  /** Without a null-versus-0 pair, the written insertion step is the intended one. */
  lemma {:induction false} InsertAsWrittenAgrees(sortBy: string, sorted: seq<ViewRow>, e: ViewRow)
    requires NoNullZeroClash(sortBy, sorted + [e])
    ensures InsertAsWritten(sortBy, sorted, e) == Insert(sortBy, sorted, e)
    decreases |sorted|
  {
    if sorted != [] {
      var last := sorted[|sorted| - 1];
      var butLast := sorted[..|sorted| - 1];
      assert last in sorted + [e] && e in sorted + [e];
      AsWrittenDiffersOnlyOnNullVersusZero(sortBy, last, e);
      assert CompareAsWritten(sortBy, last, e) == Compare(sortBy, last, e);
      if Compare(sortBy, last, e) > 0 {
        forall x | x in butLast + [e] ensures x in sorted + [e] {
          if x != e {
            assert x in butLast;
            assert sorted == butLast + [last];
          }
        }
        InsertAsWrittenAgrees(sortBy, butLast, e);
      }
    }
  }

  /**
    Without a null-versus-0 pair among the rows, sorting with the written comparator
    gives exactly the list the intended comparator gives.
   */
  lemma {:induction false} SortAsWrittenAgrees(sortBy: string, rows: seq<ViewRow>)
    requires NoNullZeroClash(sortBy, rows)
    ensures SortAsWritten(sortBy, rows) == Sort(sortBy, rows)
    decreases |rows|
  {
    if rows != [] {
      var butLast := rows[..|rows| - 1];
      var last := rows[|rows| - 1];
      assert rows == butLast + [last];
      forall x | x in butLast ensures x in rows {
      }
      SortAsWrittenAgrees(sortBy, butLast);
      var sorted := Sort(sortBy, butLast);
      forall x | x in sorted + [last] ensures x in rows {
        if x != last {
          assert x in multiset(sorted);
        }
      }
      InsertAsWrittenAgrees(sortBy, sorted, last);
    }
  }

  /** Ranked: every element may come before every later one. */
  predicate Ranked(sortBy: string, s: seq<ViewRow>) {
    forall i, j :: 0 <= i < j < |s| ==> NotAfter(sortBy, s[i], s[j])
  }

  lemma RankedAppend(sortBy: string, s: seq<ViewRow>, x: ViewRow)
    requires Ranked(sortBy, s)
    requires forall i :: 0 <= i < |s| ==> NotAfter(sortBy, s[i], x)
    ensures Ranked(sortBy, s + [x])
  {
    var r := s + [x];
    forall i, j | 0 <= i < j < |r|
      ensures NotAfter(sortBy, r[i], r[j])
    {
      if j < |s| {
        assert r[i] == s[i] && r[j] == s[j];
      }
    }
  }

  lemma {:induction false} InsertRanked(sortBy: string, sorted: seq<ViewRow>, e: ViewRow)
    requires Ranked(sortBy, sorted)
    ensures Ranked(sortBy, Insert(sortBy, sorted, e))
    decreases |sorted|
  {
    if sorted == [] {
    } else {
      var last := sorted[|sorted| - 1];
      var butLast := sorted[..|sorted| - 1];
      CompareIsConsistent(sortBy, last, e, e);
      if Compare(sortBy, last, e) <= 0 {
        forall i | 0 <= i < |sorted|
          ensures NotAfter(sortBy, sorted[i], e)
        {
          if i < |sorted| - 1 {
            CompareIsConsistent(sortBy, sorted[i], last, e);
          }
        }
        RankedAppend(sortBy, sorted, e);
      } else {
        assert Ranked(sortBy, butLast);
        InsertRanked(sortBy, butLast, e);
        var inner := Insert(sortBy, butLast, e);
        forall i | 0 <= i < |inner|
          ensures NotAfter(sortBy, inner[i], last)
        {
          if inner[i] != e {
            var k :| 0 <= k < |butLast| && butLast[k] == inner[i];
            assert sorted[k] == inner[i];
          }
        }
        RankedAppend(sortBy, inner, last);
      }
    }
  }

  /** The sort ranks the rows: by the first key descending, ties by the second key descending. */
  lemma {:induction false} SortRanked(sortBy: string, rows: seq<ViewRow>)
    ensures Ranked(sortBy, Sort(sortBy, rows))
    decreases |rows|
  {
    if rows != [] {
      SortRanked(sortBy, rows[..|rows| - 1]);
      InsertRanked(sortBy, Sort(sortBy, rows[..|rows| - 1]), rows[|rows| - 1]);
    }
  }

  /** The rows whose two keys are `k1` and `k2`, in their order. */
  function WithKeys(sortBy: string, s: seq<ViewRow>, k1: int, k2: int): seq<ViewRow> {
    if s == [] then []
    else WithKeys(sortBy, s[..|s| - 1], k1, k2)
         + (if PrimaryKey(sortBy, s[|s| - 1]) == k1 && SecondaryKey(sortBy, s[|s| - 1]) == k2 then [s[|s| - 1]] else [])
  }

  /** The row itself when its keys are `k1` and `k2`, else nothing. */
  function KeyedOnly(sortBy: string, x: ViewRow, k1: int, k2: int): seq<ViewRow> {
    if PrimaryKey(sortBy, x) == k1 && SecondaryKey(sortBy, x) == k2 then [x] else []
  }

  lemma WithKeysSnoc(sortBy: string, s: seq<ViewRow>, x: ViewRow, k1: int, k2: int)
    ensures WithKeys(sortBy, s + [x], k1, k2) == WithKeys(sortBy, s, k1, k2) + KeyedOnly(sortBy, x, k1, k2)
  {
    assert (s + [x])[..|s|] == s;
  }

  /** Rows with different keys: at most one of them has the keys `k1` and `k2`. */
  lemma KeyedOnlyCommutes(sortBy: string, x: ViewRow, y: ViewRow, k1: int, k2: int)
    requires Compare(sortBy, x, y) != 0
    ensures KeyedOnly(sortBy, x, k1, k2) + KeyedOnly(sortBy, y, k1, k2)
         == KeyedOnly(sortBy, y, k1, k2) + KeyedOnly(sortBy, x, k1, k2)
  {
  }

  /** The step of `Insert` that moves `e` in front of the last row. */
  lemma InsertPastLast(sortBy: string, sorted: seq<ViewRow>, e: ViewRow)
    requires sorted != [] && Compare(sortBy, sorted[|sorted| - 1], e) > 0
    ensures Insert(sortBy, sorted, e) == Insert(sortBy, sorted[..|sorted| - 1], e) + [sorted[|sorted| - 1]]
  {
  }

  /** One insertion moves `e` only past rows with other keys, so rows with equal keys keep their order. */
  lemma {:induction false} InsertStable(sortBy: string, sorted: seq<ViewRow>, e: ViewRow, k1: int, k2: int)
    ensures WithKeys(sortBy, Insert(sortBy, sorted, e), k1, k2) == WithKeys(sortBy, sorted + [e], k1, k2)
    decreases |sorted|
  {
    if sorted != [] && Compare(sortBy, sorted[|sorted| - 1], e) > 0 {
      var last := sorted[|sorted| - 1];
      var butLast := sorted[..|sorted| - 1];
      assert butLast + [last] == sorted;
      var inner := Insert(sortBy, butLast, e);
      var wb := WithKeys(sortBy, butLast, k1, k2);
      var wl, we := KeyedOnly(sortBy, last, k1, k2), KeyedOnly(sortBy, e, k1, k2);
      calc {
        WithKeys(sortBy, Insert(sortBy, sorted, e), k1, k2);
        { InsertPastLast(sortBy, sorted, e); }
        WithKeys(sortBy, inner + [last], k1, k2);
        { WithKeysSnoc(sortBy, inner, last, k1, k2); }
        WithKeys(sortBy, inner, k1, k2) + wl;
        { InsertStable(sortBy, butLast, e, k1, k2); WithKeysSnoc(sortBy, butLast, e, k1, k2); }
        (wb + we) + wl;
        { KeyedOnlyCommutes(sortBy, last, e, k1, k2); }
        (wb + wl) + we;
        { WithKeysSnoc(sortBy, butLast, last, k1, k2); }
        WithKeys(sortBy, sorted, k1, k2) + we;
        { WithKeysSnoc(sortBy, sorted, e, k1, k2); }
        WithKeys(sortBy, sorted + [e], k1, k2);
      }
    }
  }

  /** The sort is stable: rows with equal keys keep their relative order. */
  lemma {:induction false} SortStable(sortBy: string, rows: seq<ViewRow>, k1: int, k2: int)
    ensures WithKeys(sortBy, Sort(sortBy, rows), k1, k2) == WithKeys(sortBy, rows, k1, k2)
    decreases |rows|
  {
    if rows != [] {
      var butLast := rows[..|rows| - 1];
      var last := rows[|rows| - 1];
      assert butLast + [last] == rows;
      var sortedBefore := Sort(sortBy, butLast);
      calc {
        WithKeys(sortBy, Sort(sortBy, rows), k1, k2);
        WithKeys(sortBy, Insert(sortBy, sortedBefore, last), k1, k2);
        { InsertStable(sortBy, sortedBefore, last, k1, k2); }
        WithKeys(sortBy, sortedBefore + [last], k1, k2);
        { WithKeysSnoc(sortBy, sortedBefore, last, k1, k2); SortStable(sortBy, butLast, k1, k2); }
        WithKeys(sortBy, butLast, k1, k2) + KeyedOnly(sortBy, last, k1, k2);
        { WithKeysSnoc(sortBy, butLast, last, k1, k2); }
        WithKeys(sortBy, rows, k1, k2);
      }
    }
  }

  /** One returned entry: `|| 0` for the numbers and `|| 'Unknown'` for the name. */
  function Filled(r: ViewRow): (e: Entry)
    ensures e.userId == r.userId && e.score == OrZero(r.score) && e.streak == OrZero(r.streak)
    ensures e.maxStreak == OrZero(r.maxStreak)
    ensures e.name == if TruthyString(r.name) then r.name.value else UnknownName
  {
    Entry(r.userId, OrZero(r.score), OrZero(r.streak), OrZero(r.maxStreak),
          if TruthyString(r.name) then r.name.value else UnknownName)
  }

  /** `.slice(0, 10)`. */
  function Top(rows: seq<ViewRow>): (r: seq<ViewRow>)
    ensures |r| == (if |rows| <= TopCount then |rows| else TopCount)
    ensures r == rows[..|r|]
  {
    if |rows| <= TopCount then rows else rows[..TopCount]
  }

  /** `.map(...)` with the defaults of `Filled`. */
  function FillAll(rows: seq<ViewRow>): (r: seq<Entry>)
    ensures |r| == |rows|
    ensures forall i :: 0 <= i < |rows| ==> r[i] == Filled(rows[i])
  {
    seq(|rows|, i requires 0 <= i < |rows| => Filled(rows[i]))
  }

  /** `getLeaderboardWithUsers(sortBy)`, with `sortBy` defaulting to `'score'`. */
  function GetLeaderboardWithUsers(query: Query, sortBy: Option<string>): seq<Entry> {
    match query
    case Rows(rows) => FillAll(Top(Sort(sortBy.GetOr("score"), rows)))
    case _ => []
  }

  /**
    The function as written, with its own comparator, agrees with the model on every
    query whose rows have no null-versus-0 pair of primary keys.
   */
  lemma LeaderboardAsWrittenAgrees(rows: seq<ViewRow>, sortBy: Option<string>)
    requires NoNullZeroClash(sortBy.GetOr("score"), rows)
    ensures FillAll(Top(SortAsWritten(sortBy.GetOr("score"), rows))) == GetLeaderboardWithUsers(Rows(rows), sortBy)
  {
    SortAsWrittenAgrees(sortBy.GetOr("score"), rows);
  }

  /** A query error, no data or an exception gives the empty list. */
  lemma FailuresGiveEmpty(query: Query, sortBy: Option<string>)
    requires !query.Rows?
    ensures GetLeaderboardWithUsers(query, sortBy) == []
  {
  }

  /**
    The result has the first 10 (or all) rows of the ranked input, filled in; each one
    comes from an input row.
   */
  lemma TopTenOfRanked(rows: seq<ViewRow>, sortBy: Option<string>)
    ensures var out := GetLeaderboardWithUsers(Rows(rows), sortBy);
      && |out| == (if |rows| <= TopCount then |rows| else TopCount)
      && (forall i :: 0 <= i < |out| ==> out[i] == Filled(Sort(sortBy.GetOr("score"), rows)[i]))
      && (forall i :: 0 <= i < |out| ==> exists j :: 0 <= j < |rows| && out[i] == Filled(rows[j]))
  {
    var sorted := Sort(sortBy.GetOr("score"), rows);
    TopTenShape(rows, sortBy);
    SortKeepsRows(sortBy.GetOr("score"), rows);
    var out := GetLeaderboardWithUsers(Rows(rows), sortBy);
    forall i | 0 <= i < |out|
      ensures exists j :: 0 <= j < |rows| && out[i] == Filled(rows[j])
    {
      assert out[i] == Filled(sorted[i]);
      var j :| 0 <= j < |rows| && rows[j] == sorted[i];
    }
  }

  lemma TopTenShape(rows: seq<ViewRow>, sortBy: Option<string>)
    ensures var out := GetLeaderboardWithUsers(Rows(rows), sortBy);
      && |out| == (if |rows| <= TopCount then |rows| else TopCount)
      && (forall i :: 0 <= i < |out| ==> out[i] == Filled(Sort(sortBy.GetOr("score"), rows)[i]))
  {
    var sorted := Sort(sortBy.GetOr("score"), rows);
    assert GetLeaderboardWithUsers(Rows(rows), sortBy) == FillAll(Top(sorted));
  }

  /** Every sorted row is one of the input rows. */
  lemma SortKeepsRows(sortBy: string, rows: seq<ViewRow>)
    ensures forall i :: 0 <= i < |Sort(sortBy, rows)| ==> exists j :: 0 <= j < |rows| && rows[j] == Sort(sortBy, rows)[i]
  {
    var sorted := Sort(sortBy, rows);
    forall i | 0 <= i < |sorted|
      ensures exists j :: 0 <= j < |rows| && rows[j] == sorted[i]
    {
      assert sorted[i] in multiset(sorted);
      assert sorted[i] in multiset(rows);
      assert sorted[i] in rows;
    }
  }

  /** The filled entries keep the order of a ranked list. */
  lemma FilledRanked(sortBy: string, rows: seq<ViewRow>, sortArg: Option<string>)
    requires sortArg.GetOr("score") == sortBy
    ensures var out := GetLeaderboardWithUsers(Rows(rows), sortArg);
      forall i, j :: 0 <= i < j < |out| ==>
        var (pi, si, pj, sj) := if sortBy == "score" then (out[i].score, out[i].maxStreak, out[j].score, out[j].maxStreak)
                                else (out[i].maxStreak, out[i].score, out[j].maxStreak, out[j].score);
        pi > pj || (pi == pj && si >= sj)
  {
    var sorted := Sort(sortBy, rows);
    SortRanked(sortBy, rows);
    TopTenOfRanked(rows, sortArg);
  }

  /** By score (the default): scores descend, and equal scores have descending max streaks. */
  lemma ScoreOrder(rows: seq<ViewRow>)
    ensures var out := GetLeaderboardWithUsers(Rows(rows), None);
      forall i, j :: 0 <= i < j < |out| ==>
        out[i].score > out[j].score || (out[i].score == out[j].score && out[i].maxStreak >= out[j].maxStreak)
  {
    FilledRanked("score", rows, None);
  }

  /** By streak: max streaks descend, and equal max streaks have descending scores. */
  lemma StreakOrder(rows: seq<ViewRow>)
    ensures var out := GetLeaderboardWithUsers(Rows(rows), Some("streak"));
      forall i, j :: 0 <= i < j < |out| ==>
        out[i].maxStreak > out[j].maxStreak || (out[i].maxStreak == out[j].maxStreak && out[i].score >= out[j].score)
  {
    FilledRanked("streak", rows, Some("streak"));
  }
}
