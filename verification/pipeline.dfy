/** The four steps run on a small pair of files, from the loaded tables to the
    two written reports. */
module Pipeline {
  import opened Wrappers
  import opened Text
  import opened Rows
  import opened Users
  import opened CallLogs
  import opened Decimal
  import opened Analytics
  import opened OrderedExport

  // Each example takes its file as a parameter pinned by `requires rows == ...`
  // instead of naming the literal with `var`: the verifier then reasons about
  // the name and unfolds the literal only where a step needs it, which keeps
  // these proofs small.

  /** The header is not a user; the row with a blank first name is skipped, and
      the other two are numbered from 1 in file order. */
  lemma UsersExample(rows: seq<seq<string>>)
    requires rows == [["firstName", "lastName"], ["Ann", "Lee"], ["", "Bad"], ["Sam", "Oh"]]
    ensures LoadAndCleanUsers(rows) == [User(1, "Ann", "Lee"), User(2, "Sam", "Oh")]
  {
    UsersExampleKept(rows);
    PlainNames();
    var users := LoadAndCleanUsers(rows);
    assert users[0] == User(1, Trim(rows[1][0]), Trim(rows[1][1]));
    assert users[1] == User(2, Trim(rows[3][0]), Trim(rows[3][1]));
  }

  /** Of the three body rows, the first and the third are kept. */
  lemma UsersExampleKept(rows: seq<seq<string>>)
    requires rows == [["firstName", "lastName"], ["Ann", "Lee"], ["", "Bad"], ["Sam", "Oh"]]
    ensures OkPositions(UserVerdicts(rows[1..])) == [0, 2]
  {
    var ps := OkPositions(UserVerdicts(rows[1..]));
    Users.AcceptedRows(rows);
    PlainNames();
    assert 0 in ps && 2 in ps && 1 !in ps;
    OnlyPositions(ps);
  }

  /** Names made of letters are not blank and are their own stripped form. */
  lemma PlainNames()
    ensures !IsBlank("Ann") && !IsBlank("Lee") && !IsBlank("Sam") && !IsBlank("Oh")
    ensures Trim("Ann") == "Ann" && Trim("Lee") == "Lee" && Trim("Sam") == "Sam" && Trim("Oh") == "Oh"
  {
    NoSpace("Ann");
    NoSpace("Lee");
    NoSpace("Sam");
    NoSpace("Oh");
  }

  /** A strictly increasing list of positions below 3 that holds 0 and 2 but not
      1 is `[0, 2]`. */
  lemma OnlyPositions(ps: seq<nat>)
    requires StrictlyIncreasing(ps) && forall k :: 0 <= k < |ps| ==> ps[k] < 3
    requires 0 in ps && 2 in ps && 1 !in ps
    ensures ps == [0, 2]
  {
    var i :| 0 <= i < |ps| && ps[i] == 0;
    var j :| 0 <= j < |ps| && ps[j] == 2;
    Extremes(ps, i, j);
    assert |ps| > 1 ==> ps[1] in ps;
  }

  /** In a strictly increasing list the first element is the least, the last the
      greatest, and the second lies strictly between the first and the last. */
  lemma Extremes(ps: seq<nat>, i: nat, j: nat)
    requires StrictlyIncreasing(ps) && i < |ps| && j < |ps|
    ensures ps[0] <= ps[i] && ps[j] <= ps[|ps| - 1]
    ensures |ps| > 1 ==> ps[0] < ps[1]
    ensures |ps| > 2 ==> ps[1] < ps[|ps| - 1]
  {
  }

  /** Two calls of user 1 lasting 100 and 110 seconds give one analytics row:
      user 1, two calls, an average of 105. */
  lemma AnalyticsExample(calls: seq<CallLog>)
    requires calls == [
      CallLog(1, "555-0100", 1000, 1100, "inbound", 1),
      CallLog(2, "555-0101", 2000, 2110, "outbound", 1)]
    ensures UserAnalytics(calls) == [UserStats(1, 210, 2)]
    ensures AvgDuration(UserAnalytics(calls)[0]) == 105.0
  {
    ExampleTotals(calls);
    SingleCaller(calls, 1);
  }

  /** A table whose calls all belong to one user yields exactly one row, that
      user's. */
  lemma SingleCaller(calls: seq<CallLog>, u: int)
    requires |calls| > 0 && forall i :: 0 <= i < |calls| ==> calls[i].userId == u
    ensures UserAnalytics(calls) == [UserStats(u, Total(calls, u), Count(calls, u))]
  {
  }

  /** The count and the total of user 1 in the two-call example. */
  lemma ExampleTotals(calls: seq<CallLog>)
    requires calls == [
      CallLog(1, "555-0100", 1000, 1100, "inbound", 1),
      CallLog(2, "555-0101", 2000, 2110, "outbound", 1)]
    ensures Count(calls, 1) == 2 && Total(calls, 1) == 210
  {
    var first := calls[..1];
    assert first[..0] == [];
    assert Count(first, 1) == 1 && Total(first, 1) == 100;
    assert calls[..|calls| - 1] == first;
  }

  /** Calls stored out of order come out grouped by user and, within a user, by
      start time. */
  lemma OrderedExample(calls: seq<CallLog>)
    requires calls == [
      CallLog(1, "555-0100", 500, 560, "inbound", 2),
      CallLog(2, "555-0101", 900, 960, "outbound", 1),
      CallLog(3, "555-0102", 300, 330, "inbound", 1)]
    ensures OrderCalls(calls) == [calls[2], calls[1], calls[0]]
  {
    var expected := [calls[2], calls[1], calls[0]];
    ThreeInOrder(calls[2], calls[1], calls[0]);
    assert calls == [calls[0]] + [calls[1]] + [calls[2]];
    assert multiset(expected) == multiset(calls);
    OrderUnique(expected, OrderCalls(calls));
  }

  /** Three calls with increasing, distinct keys form an ordering without ties. */
  lemma ThreeInOrder(a: CallLog, b: CallLog, c: CallLog)
    requires Precedes(a, b) && Precedes(b, c) && !SameKey(a, b) && !SameKey(b, c)
    ensures Ordered([a, b, c]) && DistinctKeys([a, b, c])
  {
  }

  /** A well-formed row is stored with its integers parsed; a row whose start
      time is not a number is skipped. */
  lemma CallLogsExample(rows: seq<seq<string>>)
    requires rows == [
      ["phoneNumber", "startTime", "endTime", "direction", "userId"],
      ["555-0100", "7", "9", "inbound", "1"],
      ["555-0101", "x", "9", "inbound", "1"]]
    ensures LoadAndCleanCallLogs(rows) == [CallLog(1, "555-0100", 7, 9, "inbound", 1)]
  {
    ExampleVerdicts(rows[1], rows[2]);
    KeepFirstOfTwo(rows, CallFields("555-0100", 7, 9, "inbound", 1));
  }

  /** A file with two body rows of which only the first is accepted stores that
      row alone, as call 1. */
  lemma KeepFirstOfTwo(rows: seq<seq<string>>, fields: CallFields)
    requires |rows| == 3 && CleanCallRow(rows[1]) == Ok(fields) && CleanCallRow(rows[2]).Err?
    ensures LoadAndCleanCallLogs(rows) == [WithId(1, fields)]
  {
    var vs := CallVerdicts(rows[1..]);
    assert |vs| == 2 && vs[0] == Ok(fields) && vs[1].Err?;
    var first := vs[..1];
    assert |first| == 1 && first[0] == Ok(fields) && |first[..0]| == 0;
    assert Insert(first, WithId) == [WithId(1, fields)];
  }

  /** The loader's verdicts on the two example rows: the first is accepted with
      its fields parsed, the second is skipped because its start time is not an
      integer. */
  lemma ExampleVerdicts(good: seq<string>, bad: seq<string>)
    requires good == ["555-0100", "7", "9", "inbound", "1"]
    requires bad == ["555-0101", "x", "9", "inbound", "1"]
    ensures CleanCallRow(good) == Ok(CallFields("555-0100", 7, 9, "inbound", 1))
    ensures CleanCallRow(bad) == Err(NotAnInteger)
  {
    CallFieldsExample();
    assert !HasBlankField(good) && !HasBlankField(bad);
  }

  /** The fields of the example rows: which are blank, how they strip and what
      they parse to. */
  lemma CallFieldsExample()
    ensures Trim("555-0100") == "555-0100" && Trim("inbound") == "inbound"
    ensures Trim("555-0101") == "555-0101"
    ensures !IsBlank("555-0100") && !IsBlank("555-0101") && !IsBlank("inbound") && !IsBlank("x")
    ensures !IsBlank("7") && !IsBlank("9") && !IsBlank("1")
    ensures Trim("7") == "7" && Trim("9") == "9" && Trim("1") == "1" && Trim("x") == "x"
    ensures ParseInt("7") == Some(7) && ParseInt("9") == Some(9) && ParseInt("1") == Some(1)
    ensures !IsIntLiteral("x")
  {
    NoSpace("555-0100");
    NoSpace("555-0101");
    NoSpace("inbound");
    NoSpace("7");
    NoSpace("9");
    NoSpace("1");
    NoSpace("x");
    assert "7"[..0] == [] && "9"[..0] == [] && "1"[..0] == [];
  }

  /** A non-empty string of printable ASCII is not blank and is its own stripped
      form, since it holds no whitespace (`Text.TrimNoSpace`). */
  lemma NoSpace(s: string)
    requires |s| > 0 && forall k :: 0 <= k < |s| ==> '!' <= s[k] <= '~'
    ensures !IsBlank(s) && Trim(s) == s
  {
    TrimNoSpace(s);
  }
}
