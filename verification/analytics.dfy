/** `write_user_analytics`: the callLogs table grouped by user id, with the number
    of calls and the average duration (end time minus start time) of each group.
    The average is kept exact as a total and a count; the mean is their quotient. */
module Analytics {
  import opened Wrappers
  import opened Decimal
  import opened Rows
  import opened CallLogs

  /** One result row of the GROUP BY query. `avgDuration` is
      `totalDuration / numCalls`. */
  datatype UserStats = UserStats(userId: int, totalDuration: int, numCalls: nat)

  function Duration(c: CallLog): int {
    c.endTime - c.startTime
  }

  /** `COUNT(*)` over the calls of user `u`. */
  function Count(calls: seq<CallLog>, u: int): nat {
    if |calls| == 0 then 0
    else Count(calls[..|calls| - 1], u) + (if calls[|calls| - 1].userId == u then 1 else 0)
  }

  /** `SUM(endTime - startTime)` over the calls of user `u`. */
  function Total(calls: seq<CallLog>, u: int): int {
    if |calls| == 0 then 0
    else Total(calls[..|calls| - 1], u) + (if calls[|calls| - 1].userId == u then Duration(calls[|calls| - 1]) else 0)
  }

  /** The sum of all durations in the table. */
  function SumDurations(calls: seq<CallLog>): int {
    if |calls| == 0 then 0 else SumDurations(calls[..|calls| - 1]) + Duration(calls[|calls| - 1])
  }

  /** User `u` has at least one call in the table. */
  predicate HasCalls(calls: seq<CallLog>, u: int) {
    exists i :: 0 <= i < |calls| && calls[i].userId == u
  }

  /** A user's count is positive exactly when the user has a call. */
  lemma {:induction false} CountPositive(calls: seq<CallLog>, u: int)
    ensures Count(calls, u) > 0 <==> HasCalls(calls, u)
  {
    if |calls| > 0 {
      var init := calls[..|calls| - 1];
      CountPositive(init, u);
      if HasCalls(init, u) {
        var i :| 0 <= i < |init| && init[i].userId == u;
        assert calls[i] == init[i];
      }
      if HasCalls(calls, u) && calls[|calls| - 1].userId != u {
        var i :| 0 <= i < |calls| && calls[i].userId == u;
        assert init[i] == calls[i];
      }
    }
  }

  /** Adds `u` to an ascending list of ids, keeping it ascending and free of
      repeats. */
  function InsertId(ids: seq<int>, u: int): (r: seq<int>)
    requires StrictlyIncreasing(ids)
    ensures StrictlyIncreasing(r)
    ensures forall x :: x in r <==> x in ids || x == u
  {
    if |ids| == 0 then [u]
    else if u < ids[0] then [u] + ids
    else if u == ids[0] then ids
    else
      var rest := InsertId(ids[1..], u);
      assert forall x :: x in ids[1..] ==> ids[0] < x;
      assert forall j :: 0 <= j < |rest| ==> rest[j] in rest;
      [ids[0]] + rest
  }

  /** The distinct user ids of the table in ascending order: the groups of the
      GROUP BY. */
  function GroupIds(calls: seq<CallLog>): (ids: seq<int>)
    ensures StrictlyIncreasing(ids)
    ensures forall u :: u in ids <==> Count(calls, u) > 0
  {
    if |calls| == 0 then []
    else InsertId(GroupIds(calls[..|calls| - 1]), calls[|calls| - 1].userId)
  }

  /** The result rows for the given groups, in the order of `ids`. */
  function StatsFor(calls: seq<CallLog>, ids: seq<int>): (rows: seq<UserStats>)
    ensures |rows| == |ids|
    ensures forall k :: 0 <= k < |rows| ==>
      rows[k] == UserStats(ids[k], Total(calls, ids[k]), Count(calls, ids[k]))
  {
    if |ids| == 0 then [] else [UserStats(ids[0], Total(calls, ids[0]), Count(calls, ids[0]))] + StatsFor(calls, ids[1..])
  }

  /** The analytics result: one row per user id that occurs in the table, in
      ascending id order, each with that user's call count (at least one) and
      total duration. */
  function UserAnalytics(calls: seq<CallLog>): (rows: seq<UserStats>)
    ensures forall k, l :: 0 <= k < l < |rows| ==> rows[k].userId < rows[l].userId
    ensures forall k :: 0 <= k < |rows| ==>
      && HasCalls(calls, rows[k].userId)
      && rows[k].numCalls == Count(calls, rows[k].userId) >= 1
      && rows[k].totalDuration == Total(calls, rows[k].userId)
  {
    var ids := GroupIds(calls);
    var rows := StatsFor(calls, ids);
    assert forall k :: 0 <= k < |rows| ==> ids[k] in ids;
    forall k | 0 <= k < |rows| ensures HasCalls(calls, ids[k]) {
      CountPositive(calls, ids[k]);
    }
    rows
  }

  /** A user id gets a row exactly when it has at least one call: users without
      calls never appear, and no id appears twice. */
  lemma RowForEveryCaller(calls: seq<CallLog>, u: int)
    ensures var rows := UserAnalytics(calls);
      (exists k :: 0 <= k < |rows| && rows[k].userId == u) <==> HasCalls(calls, u)
    ensures var rows := UserAnalytics(calls);
      forall k, l :: 0 <= k < l < |rows| ==> rows[k].userId != rows[l].userId
  {
    var rows := UserAnalytics(calls);
    var ids := GroupIds(calls);
    CountPositive(calls, u);
    if HasCalls(calls, u) {
      var k :| 0 <= k < |ids| && ids[k] == u;
      assert rows[k].userId == u;
    }
  }

  /** `AVG(endTime - startTime)` of a row, as an exact quotient. */
  function AvgDuration(s: UserStats): real
    requires s.numCalls > 0
  {
    s.totalDuration as real / s.numCalls as real
  }

  /** The average lies within any bounds on the durations of the user's calls:
      it is at least the shortest and at most the longest. */
  lemma MeanWithinBounds(calls: seq<CallLog>, k: nat, lo: int, hi: int)
    requires k < |UserAnalytics(calls)|
    requires forall i :: 0 <= i < |calls| && calls[i].userId == UserAnalytics(calls)[k].userId ==>
      lo <= Duration(calls[i]) <= hi
    ensures lo as real <= AvgDuration(UserAnalytics(calls)[k]) <= hi as real
  {
    var s := UserAnalytics(calls)[k];
    TotalBounds(calls, s.userId, lo, hi);
    QuotientBounds(lo, hi, s.totalDuration, s.numCalls);
  }

  lemma QuotientBounds(lo: int, hi: int, total: int, n: nat)
    requires n > 0 && n * lo <= total <= n * hi
    ensures lo as real <= total as real / n as real <= hi as real
  {
  }

  /** A user's total is between count times any lower bound and count times any
      upper bound of that user's durations. */
  lemma {:induction false} TotalBounds(calls: seq<CallLog>, u: int, lo: int, hi: int)
    requires forall i :: 0 <= i < |calls| && calls[i].userId == u ==> lo <= Duration(calls[i]) <= hi
    ensures Count(calls, u) * lo <= Total(calls, u) <= Count(calls, u) * hi
  {
    if |calls| > 0 {
      var init := calls[..|calls| - 1];
      assert forall i :: 0 <= i < |init| ==> init[i] == calls[i];
      TotalBounds(init, u, lo, hi);
      var n := Count(init, u);
      if calls[|calls| - 1].userId == u {
        assert Count(calls, u) == n + 1;
        assert (n + 1) * lo == n * lo + lo && (n + 1) * hi == n * hi + hi;
      }
    }
  }

  /** `d` once for each position of `ids` that holds `u`: what one call of user
      `u` lasting `d` adds to the totals of the groups `ids`. */
  function Hits(ids: seq<int>, u: int, d: int): int {
    if |ids| == 0 then 0 else (if ids[0] == u then d else 0) + Hits(ids[1..], u, d)
  }

  lemma {:induction false} HitsOnce(ids: seq<int>, u: int, d: int)
    requires StrictlyIncreasing(ids) && u in ids
    ensures Hits(ids, u, d) == d
  {
    if ids[0] != u {
      HitsOnce(ids[1..], u, d);
    } else {
      HitsNone(ids[1..], u, d);
    }
  }

  lemma {:induction false} HitsNone(ids: seq<int>, u: int, d: int)
    requires u !in ids
    ensures Hits(ids, u, d) == 0
  {
    if |ids| > 0 {
      HitsNone(ids[1..], u, d);
    }
  }

  function SumCalls(rows: seq<UserStats>): int {
    if |rows| == 0 then 0 else rows[0].numCalls + SumCalls(rows[1..])
  }

  function SumTotals(rows: seq<UserStats>): int {
    if |rows| == 0 then 0 else rows[0].totalDuration + SumTotals(rows[1..])
  }

  /** Appending one call to the table adds one to the count of each group that
      matches it and its duration to that group's total. */
  lemma {:induction false} StatsSnoc(calls: seq<CallLog>, ids: seq<int>)
    requires |calls| > 0
    ensures var init := calls[..|calls| - 1];
      var c := calls[|calls| - 1];
      && SumCalls(StatsFor(calls, ids)) == SumCalls(StatsFor(init, ids)) + Hits(ids, c.userId, 1)
      && SumTotals(StatsFor(calls, ids)) == SumTotals(StatsFor(init, ids)) + Hits(ids, c.userId, Duration(c))
  {
    if |ids| > 0 {
      StatsSnoc(calls, ids[1..]);
    }
  }

  /** Over groups that cover every call's user once each, the counts add up to the
      number of calls and the totals to the sum of all durations. */
  lemma {:induction false} Conservation(calls: seq<CallLog>, ids: seq<int>)
    requires StrictlyIncreasing(ids)
    requires forall i :: 0 <= i < |calls| ==> calls[i].userId in ids
    ensures SumCalls(StatsFor(calls, ids)) == |calls|
    ensures SumTotals(StatsFor(calls, ids)) == SumDurations(calls)
  {
    if |calls| == 0 {
      EmptyStats(ids);
    } else {
      var init := calls[..|calls| - 1];
      assert forall i :: 0 <= i < |init| ==> init[i] == calls[i];
      Conservation(init, ids);
      StatsSnoc(calls, ids);
      HitsOnce(ids, calls[|calls| - 1].userId, 1);
      HitsOnce(ids, calls[|calls| - 1].userId, Duration(calls[|calls| - 1]));
    }
  }

  lemma {:induction false} EmptyStats(ids: seq<int>)
    ensures SumCalls(StatsFor([], ids)) == 0 && SumTotals(StatsFor([], ids)) == 0
  {
    if |ids| > 0 {
      EmptyStats(ids[1..]);
    }
  }

  /** No call is lost or counted twice: the `numCalls` of all rows add up to the
      number of stored calls, and their totals to the sum of all durations. */
  lemma CountConservation(calls: seq<CallLog>)
    ensures SumCalls(UserAnalytics(calls)) == |calls|
    ensures SumTotals(UserAnalytics(calls)) == SumDurations(calls)
  {
    var ids := GroupIds(calls);
    forall i | 0 <= i < |calls| ensures calls[i].userId in ids {
      CountPositive(calls, calls[i].userId);
    }
    Conservation(calls, ids);
  }

  /** The least element of a non-empty set. */
  method Least(s: set<int>) returns (m: int)
    requires s != {}
    ensures m in s && forall x :: x in s ==> m <= x
    decreases |s|
  {
    var y := PickId(s);
    if s == {y} {
      m := y;
    } else {
      var m' := Least(s - {y});
      m := if y < m' then y else m';
      forall x | x in s
        ensures m <= x
      {
        if x != y {
          assert x in s - {y};
        }
      }
    }
  }

  /** Some element of a non-empty set. */
  method PickId(s: set<int>) returns (y: int)
    requires s != {}
    ensures y in s
  {
    if forall x :: x !in s {
      assert false;
    }
    y :| y in s;
  }

  /** An ascending list is determined by its elements. */
  lemma {:induction false} AscendingUnique(a: seq<int>, b: seq<int>)
    requires StrictlyIncreasing(a) && StrictlyIncreasing(b)
    requires forall x :: x in a <==> x in b
    ensures a == b
  {
    if |a| > 0 {
      assert a[0] in a;
      assert a[0] in b;
    }
    if |b| > 0 {
      assert b[0] in b;
      assert b[0] in a;
    }
    if |a| > 0 && |b| > 0 {
      var i :| 0 <= i < |a| && a[i] == b[0];
      var j :| 0 <= j < |b| && b[j] == a[0];
      assert a[0] <= a[i] && b[0] <= b[j];
      forall x
        ensures x in a[1..] <==> x in b[1..]
      {
        if x in a[1..] {
          var p :| 0 <= p < |a| - 1 && a[1..][p] == x;
          assert a[p + 1] == x && a[0] < x;
          assert x in b;
          var q :| 0 <= q < |b| && b[q] == x;
          assert q != 0;
          assert b[1..][q - 1] == x;
        }
        if x in b[1..] {
          var p :| 0 <= p < |b| - 1 && b[1..][p] == x;
          assert b[p + 1] == x && b[0] < x;
          assert x in a;
          var q :| 0 <= q < |a| && a[q] == x;
          assert q != 0;
          assert a[1..][q - 1] == x;
        }
      }
      AscendingUnique(a[1..], b[1..]);
      assert a == [a[0]] + a[1..] && b == [b[0]] + b[1..];
    }
  }

  /** Extending a prefix of the table by one call changes only the count and total
      of that call's user. */
  lemma PrefixStep(calls: seq<CallLog>, i: nat)
    requires i < |calls|
    ensures forall u ::
      && Count(calls[..i + 1], u) == Count(calls[..i], u) + (if calls[i].userId == u then 1 else 0)
      && Total(calls[..i + 1], u) == Total(calls[..i], u) + (if calls[i].userId == u then Duration(calls[i]) else 0)
  {
    assert calls[..i + 1][..i] == calls[..i];
  }

  /** A user without calls has a zero total. */
  lemma {:induction false} NoCallsNoTotal(calls: seq<CallLog>, u: int)
    requires Count(calls, u) == 0
    ensures Total(calls, u) == 0
  {
    if |calls| > 0 {
      NoCallsNoTotal(calls[..|calls| - 1], u);
    }
  }

  /** The first phase of a hash aggregate: one pass over the table that keeps a
      (total, count) pair per user id in a map. */
  method Accumulate(calls: seq<CallLog>) returns (groups: map<int, UserStats>)
    ensures forall u :: u in groups <==> Count(calls, u) > 0
    ensures forall u :: u in groups ==> groups[u] == UserStats(u, Total(calls, u), Count(calls, u))
  {
    groups := map[];
    for i := 0 to |calls|
      invariant forall u :: u in groups <==> Count(calls[..i], u) > 0
      invariant forall u :: u in groups ==>
        groups[u] == UserStats(u, Total(calls[..i], u), Count(calls[..i], u))
    {
      var c := calls[i];
      PrefixStep(calls, i);
      if c.userId !in groups {
        NoCallsNoTotal(calls[..i], c.userId);
      }
      var before := if c.userId in groups then groups[c.userId] else UserStats(c.userId, 0, 0);
      groups := groups[c.userId := UserStats(c.userId, before.totalDuration + Duration(c), before.numCalls + 1)];
    }
    assert calls[..|calls|] == calls;
  }

  /** What the second phase has done so far: `ids` lists, in ascending order,
      the groups taken out of `rest`, every one below those still in `rest`, and
      `rows` holds their records in the same order. */
  predicate Emitted(groups: map<int, UserStats>, rest: set<int>, ids: seq<int>, rows: seq<UserStats>) {
    && rest <= groups.Keys
    && StrictlyIncreasing(ids)
    && (forall u :: u in ids ==> u in groups && u !in rest)
    && (forall u :: u in groups ==> u in ids || u in rest)
    && (forall k, x :: 0 <= k < |ids| && x in rest ==> ids[k] < x)
    && |rows| == |ids|
    && (forall k :: 0 <= k < |rows| ==> ids[k] in groups && rows[k] == groups[ids[k]])
  }

  /** Taking the least remaining group out keeps `Emitted`. */
  lemma EmitLeast(groups: map<int, UserStats>, rest: set<int>, ids: seq<int>, rows: seq<UserStats>, m: int)
    requires Emitted(groups, rest, ids, rows)
    requires m in rest && forall x :: x in rest ==> m <= x
    ensures Emitted(groups, rest - {m}, ids + [m], rows + [groups[m]])
  {
    var ids' := ids + [m];
    assert forall k :: 0 <= k < |ids| ==> ids'[k] == ids[k];
    assert forall u :: u in ids' <==> u in ids || u == m;
  }

  /** The second phase: the groups in ascending id order. */
  method EmitAscending(groups: map<int, UserStats>) returns (ids: seq<int>, rows: seq<UserStats>)
    ensures StrictlyIncreasing(ids)
    ensures forall u :: u in ids <==> u in groups
    ensures |rows| == |ids|
    ensures forall k :: 0 <= k < |rows| ==> ids[k] in groups && rows[k] == groups[ids[k]]
  {
    rows := [];
    ids := [];
    var rest := groups.Keys;
    while rest != {}
      invariant Emitted(groups, rest, ids, rows)
      decreases rest
    {
      var m := Least(rest);
      EmitLeast(groups, rest, ids, rows, m);
      rows := rows + [groups[m]];
      ids := ids + [m];
      rest := rest - {m};
    }
  }

  /** The GROUP BY evaluated as a hash aggregate yields exactly `UserAnalytics`. */
  method GroupByUser(calls: seq<CallLog>) returns (rows: seq<UserStats>)
    ensures rows == UserAnalytics(calls)
  {
    var groups := Accumulate(calls);
    var ids;
    ids, rows := EmitAscending(groups);
    var groupIds := GroupIds(calls);
    AscendingUnique(ids, groupIds);
    assert rows == StatsFor(calls, groupIds);
  }

  const AnalyticsHeader: seq<string> := ["userId", "avgDuration", "numCalls"]

  /** One written analytics record: the user id and the count as `str()` renders
      them, and the average duration as an exact number (its one-decimal
      rendering is not modelled). */
  datatype AnalyticsLine = AnalyticsLine(userId: string, avgDuration: real, numCalls: string)

  /** The record written for one result row: it gives back the row's user id
      and count, and its average times the count is the row's total. */
  function Line(s: UserStats): (l: AnalyticsLine)
    requires s.numCalls > 0
    ensures Renders(l.userId, s.userId) && Renders(l.numCalls, s.numCalls as int)
    ensures IsMean(l.avgDuration, s.totalDuration, s.numCalls)
  {
    MeanTimesCount(s.totalDuration, s.numCalls);
    AnalyticsLine(Show(s.userId), AvgDuration(s), Show(s.numCalls))
  }

  /** `avg` is the mean of `n` values summing to `total`. */
  predicate IsMean(avg: real, total: int, n: nat) {
    avg * n as real == total as real
  }

  /** Multiplying a quotient by its divisor gives back the dividend. */
  lemma MeanTimesCount(total: int, n: nat)
    requires n > 0
    ensures (total as real / n as real) * n as real == total as real
  {
  }

  /** The records for a list of result rows, one per row and in the same order. */
  function Lines(rows: seq<UserStats>): (out: seq<AnalyticsLine>)
    requires forall k :: 0 <= k < |rows| ==> rows[k].numCalls > 0
    ensures |out| == |rows|
    ensures forall k :: 0 <= k < |out| ==>
      && Renders(out[k].userId, rows[k].userId)
      && Renders(out[k].numCalls, rows[k].numCalls as int)
      && IsMean(out[k].avgDuration, rows[k].totalDuration, rows[k].numCalls)
  {
    var out := seq(|rows|, k requires 0 <= k < |rows| => Line(rows[k]));
    LinesReadBack(rows, out);
    out
  }

  /** Records built one per row by `Line` read back as their rows. */
  lemma LinesReadBack(rows: seq<UserStats>, out: seq<AnalyticsLine>)
    requires forall k :: 0 <= k < |rows| ==> rows[k].numCalls > 0
    requires |out| == |rows|
    requires forall k :: 0 <= k < |rows| ==> out[k] == Line(rows[k])
    ensures forall k :: 0 <= k < |out| ==>
      && Renders(out[k].userId, rows[k].userId)
      && Renders(out[k].numCalls, rows[k].numCalls as int)
      && IsMean(out[k].avgDuration, rows[k].totalDuration, rows[k].numCalls)
  {
    forall k | 0 <= k < |out|
      ensures && Renders(out[k].userId, rows[k].userId)
        && Renders(out[k].numCalls, rows[k].numCalls as int)
        && IsMean(out[k].avgDuration, rows[k].totalDuration, rows[k].numCalls)
    {
      var l := Line(rows[k]);
      assert out[k] == l;
    }
  }

  /** The analytics file: the header row, then the records. */
  datatype AnalyticsFile = AnalyticsFile(header: seq<string>, records: seq<AnalyticsLine>)

  /** The analytics file: the header, then one record per user with calls, in
      the order of `UserAnalytics`, each giving back the user id and the number
      of calls, with an average that times the count is the user's total
      duration. */
  function WriteUserAnalytics(calls: seq<CallLog>): (out: AnalyticsFile)
    ensures out.header == AnalyticsHeader
    ensures var rows := UserAnalytics(calls);
      && |out.records| == |rows|
      && forall k :: 0 <= k < |rows| ==>
        && Renders(out.records[k].userId, rows[k].userId)
        && Renders(out.records[k].numCalls, Count(calls, rows[k].userId) as int)
        && IsMean(out.records[k].avgDuration, Total(calls, rows[k].userId), rows[k].numCalls)
  {
    AnalyticsFile(AnalyticsHeader, Lines(UserAnalytics(calls)))
  }
}
