/** `write_ordered_calls`: every stored call, sorted by user id and then by start
    time, written below a header with the integers in decimal. The order of calls
    with the same user id and start time is not fixed by the query, so nothing is
    promised about it. */
module OrderedExport {
  import opened Wrappers
  import opened Decimal
  import opened CallLogs

  /** `ORDER BY userId, startTime`: `a` may come before `b`. */
  predicate Precedes(a: CallLog, b: CallLog) {
    a.userId < b.userId || (a.userId == b.userId && a.startTime <= b.startTime)
  }

  /** Every call may come before every later one. */
  predicate Ordered(s: seq<CallLog>) {
    forall i, j :: 0 <= i < j < |s| ==> Precedes(s[i], s[j])
  }

  /** Places `c` into an ordered list, before the first call it may precede. */
  function InsertCall(c: CallLog, s: seq<CallLog>): (r: seq<CallLog>)
    requires Ordered(s)
    ensures Ordered(r)
    ensures multiset(r) == multiset(s) + multiset{c}
  {
    if |s| == 0 then [c]
    else if Precedes(c, s[0]) then
      PrependOrdered(c, s);
      [c] + s
    else
      var rest := InsertCall(c, s[1..]);
      HeadPrecedesInserted(c, s, rest);
      PrependOrdered(s[0], rest);
      assert s == [s[0]] + s[1..];
      [s[0]] + rest
  }

  /** A call that may precede the head of an ordered list may head the list. */
  lemma PrependOrdered(x: CallLog, s: seq<CallLog>)
    requires Ordered(s)
    requires |s| == 0 || Precedes(x, s[0])
    ensures Ordered([x] + s)
  {
  }

  /** The head of an ordered list may precede everything that inserting a later
      call into its tail produces. */
  lemma HeadPrecedesInserted(c: CallLog, s: seq<CallLog>, rest: seq<CallLog>)
    requires |s| > 0 && Ordered(s) && !Precedes(c, s[0])
    requires multiset(rest) == multiset(s[1..]) + multiset{c}
    ensures |rest| == 0 || Precedes(s[0], rest[0])
  {
    if |rest| > 0 {
      assert rest[0] in multiset(rest);
      if rest[0] != c {
        assert rest[0] in multiset(s[1..]);
        var j :| 0 <= j < |s[1..]| && s[1..][j] == rest[0];
        assert s[j + 1] == rest[0];
      }
    }
  }

  /** The result of the ORDER BY query: the stored calls rearranged (nothing lost,
      nothing added, nothing repeated) so that user ids never decrease and, within
      one user, start times never decrease. */
  function OrderCalls(calls: seq<CallLog>): (r: seq<CallLog>)
    ensures Ordered(r)
    ensures multiset(r) == multiset(calls)
    ensures |r| == |calls|
  {
    if |calls| == 0 then []
    else
      assert calls == [calls[0]] + calls[1..];
      InsertCall(calls[0], OrderCalls(calls[1..]))
  }

  /** `a` and `b` have the same sort key. */
  predicate SameKey(a: CallLog, b: CallLog) {
    a.userId == b.userId && a.startTime == b.startTime
  }

  /** `ORDER BY` fixes the output up to ties: any two orderings of the same calls
      agree, position by position, on user id and start time. */
  lemma {:induction false} OrderDeterminedUpToTies(a: seq<CallLog>, b: seq<CallLog>)
    requires Ordered(a) && Ordered(b) && multiset(a) == multiset(b)
    ensures |a| == |b|
    ensures forall i :: 0 <= i < |a| ==> SameKey(a[i], b[i])
    decreases |a|
  {
    assert |multiset(a)| == |a| && |multiset(b)| == |b|;
    if |a| > 0 {
      var j, b' := MatchHead(a, b);
      OrderDeterminedUpToTies(a[1..], b');
      RejoinKeys(a, b, b', j);
    }
  }

  /** Takes the head of `a` out of `b`: the tails that remain are again two
      orderings of the same calls, and every call of `b` before the one removed
      has the head's key. */
  lemma MatchHead(a: seq<CallLog>, b: seq<CallLog>) returns (j: nat, b': seq<CallLog>)
    requires Ordered(a) && Ordered(b) && multiset(a) == multiset(b) && |a| > 0
    ensures j < |b| && |b'| == |b| - 1
    ensures Ordered(a[1..]) && Ordered(b') && multiset(a[1..]) == multiset(b')
    ensures forall q :: 0 <= q < j ==> b'[q] == b[q]
    ensures forall q :: j <= q < |b'| ==> b'[q] == b[q + 1]
    ensures forall p :: 0 <= p <= j ==> SameKey(b[p], a[0])
  {
    j := HeadKeyRun(a, b);
    b' := RemoveAt(b, j);
    assert a == [a[0]] + a[1..];
  }

  /** No two calls share a user id and a start time. */
  predicate DistinctKeys(s: seq<CallLog>) {
    forall i, j :: 0 <= i < |s| && 0 <= j < |s| && i != j ==> !SameKey(s[i], s[j])
  }

  /** Without ties the order is fixed completely: two orderings of the same calls
      are the same list. */
  lemma OrderUnique(a: seq<CallLog>, b: seq<CallLog>)
    requires Ordered(a) && Ordered(b) && multiset(a) == multiset(b) && DistinctKeys(a)
    ensures a == b
  {
    OrderDeterminedUpToTies(a, b);
    forall i | 0 <= i < |a|
      ensures a[i] == b[i]
    {
      assert b[i] in multiset(a);
      var m :| 0 <= m < |a| && a[m] == b[i];
      assert SameKey(a[m], a[i]);
    }
  }

  /** The head of one ordering occurs in the other at some position `j`, and every
      call of the other up to `j` has the head's key. */
  lemma HeadKeyRun(a: seq<CallLog>, b: seq<CallLog>) returns (j: nat)
    requires Ordered(a) && Ordered(b) && multiset(a) == multiset(b) && |a| > 0
    ensures j < |b| && b[j] == a[0]
    ensures forall p :: 0 <= p <= j ==> SameKey(b[p], a[0])
  {
    assert a[0] in multiset(b) && b[0] in multiset(a);
    j :| 0 <= j < |b| && b[j] == a[0];
    var i :| 0 <= i < |a| && a[i] == b[0];
    assert Precedes(a[0], a[i]) && Precedes(b[0], b[j]);
    forall p | 0 <= p <= j
      ensures SameKey(b[p], a[0])
    {
      assert Precedes(b[0], b[p]) && Precedes(b[p], b[j]);
    }
  }

  /** Matching keys of the tails, with the run of equal keys at the front of `b`,
      give matching keys of the whole lists. */
  lemma RejoinKeys(a: seq<CallLog>, b: seq<CallLog>, b': seq<CallLog>, j: nat)
    requires |a| == |b| && j < |b| && |b'| == |b| - 1
    requires forall q :: 0 <= q < j ==> b'[q] == b[q]
    requires forall q :: j <= q < |b'| ==> b'[q] == b[q + 1]
    requires forall p :: 0 <= p <= j ==> SameKey(b[p], a[0])
    requires forall q :: 0 <= q < |b'| ==> SameKey(a[1..][q], b'[q])
    ensures forall p :: 0 <= p < |a| ==> SameKey(a[p], b[p])
  {
    forall p | 0 < p < |a|
      ensures SameKey(a[p], b[p])
    {
      var q := p - 1;
      assert a[p] == a[1..][q] && SameKey(a[1..][q], b'[q]);
      if q < j {
        assert b'[q] == b[q] && SameKey(b[q], a[0]) && SameKey(b[p], a[0]);
      } else {
        assert b'[q] == b[p];
      }
    }
  }

  /** `s` without its element at position `j`: still ordered, and the same calls
      less that one. */
  lemma RemoveAt(s: seq<CallLog>, j: nat) returns (t: seq<CallLog>)
    requires Ordered(s) && j < |s|
    ensures |t| == |s| - 1
    ensures forall q :: 0 <= q < j ==> t[q] == s[q]
    ensures forall q :: j <= q < |t| ==> t[q] == s[q + 1]
    ensures Ordered(t)
    ensures multiset(t) == multiset(s) - multiset{s[j]}
  {
    t := s[..j] + s[j + 1..];
    assert s == s[..j] + [s[j]] + s[j + 1..];
  }

  const Header: seq<string> := ["callId", "phoneNumber", "startTime", "endTime", "direction", "userId"]

  /** `row` reads back as `c`: six fields in table order, the text fields verbatim
      and the integers parsing back to the call's values. */
  predicate ReadsBackAs(row: seq<string>, c: CallLog) {
    && |row| == 6
    && Renders(row[0], c.callId) && row[1] == c.phoneNumber
    && Renders(row[2], c.startTime) && Renders(row[3], c.endTime)
    && row[4] == c.direction && Renders(row[5], c.userId)
  }

  /** A call as the CSV writer renders it: its six fields in table order, the
      integers as `str()` renders them. */
  function ExportRow(c: CallLog): (row: seq<string>)
    ensures ReadsBackAs(row, c)
  {
    var row := [Show(c.callId), c.phoneNumber, Show(c.startTime), Show(c.endTime), c.direction, Show(c.userId)];
    assert Renders(row[0], c.callId) && Renders(row[2], c.startTime);
    assert Renders(row[3], c.endTime) && Renders(row[5], c.userId);
    row
  }

  /** The rows the writer produces for a list of calls, one per call and in the
      same order, each reading back as its call. */
  function ExportRows(cs: seq<CallLog>): (rows: seq<seq<string>>)
    ensures |rows| == |cs|
    ensures forall k :: 0 <= k < |cs| ==> ReadsBackAs(rows[k], cs[k])
  {
    if |cs| == 0 then [] else [ExportRow(cs[0])] + ExportRows(cs[1..])
  }

  /** The rows written to the ordered-calls file: the header, then one row per
      stored call in the order of `OrderCalls`. Each written row gives back, field
      by field, the call it came from. */
  function WriteOrderedCalls(calls: seq<CallLog>): (out: seq<seq<string>>)
    ensures |out| == |calls| + 1 && out[0] == Header
    ensures var sorted := OrderCalls(calls);
      forall k :: 0 <= k < |calls| ==> ReadsBackAs(out[k + 1], sorted[k])
  {
    var rows := ExportRows(OrderCalls(calls));
    assert ([Header] + rows)[1..] == rows;
    [Header] + rows
  }
}
