/** `load_and_clean_call_logs`: the call-log file is a header and rows of phone
    number, start time, end time, direction and user id. A row is stored when it
    has exactly five fields, none blank, and the two times and the user id parse
    as integers; any other row is skipped and the load goes on. The table numbers
    the calls 1, 2, ... in insertion order. Integers are unbounded here. In the
    program, a user id beyond SQLite's 64-bit range makes the insert raise, which
    ends the load. */
module CallLogs {
  import opened Wrappers
  import opened Text
  import opened Decimal
  import opened Rows

  /** A row of the callLogs table. `callId` is the INTEGER PRIMARY KEY, assigned
      like the users' ids; `userId` refers to a user only by convention, the store
      does not check it. */
  datatype CallLog = CallLog(
    callId: int,
    phoneNumber: string,
    startTime: int,
    endTime: int,
    direction: string,
    userId: int)

  /** The cleaned fields of an accepted row, before the table gives it an id. */
  datatype CallFields = CallFields(
    phoneNumber: string,
    startTime: int,
    endTime: int,
    direction: string,
    userId: int)

  /** The loader's verdict on one body row: the cleaned fields, or why the row is
      skipped. The checks run in the loader's order (field count, blank fields,
      integer parses), so the reason is the first check the row fails. */
  function CleanCallRow(row: seq<string>): (r: Result<CallFields, Skip>)
    ensures r.Ok? <==>
      && |row| == 5
      && (forall j :: 0 <= j < 5 ==> !IsBlank(row[j]))
      && IsIntLiteral(Trim(row[1])) && IsIntLiteral(Trim(row[2])) && IsIntLiteral(Trim(row[4]))
    ensures r.Ok? ==>
      && r.value.phoneNumber == Trim(row[0])
      && ParseInt(Trim(row[1])) == Some(r.value.startTime)
      && ParseInt(Trim(row[2])) == Some(r.value.endTime)
      && r.value.direction == Trim(row[3])
      && ParseInt(Trim(row[4])) == Some(r.value.userId)
    ensures r.Err? ==> (r.error == WrongFieldCount <==> |row| != 5)
    ensures r.Err? ==> (r.error == BlankField <==> |row| == 5 && exists j :: 0 <= j < 5 && IsBlank(row[j]))
  {
    if |row| != 5 then Err(WrongFieldCount)
    else if HasBlankField(row) then Err(BlankField)
    else
      match (ParseInt(Trim(row[1])), ParseInt(Trim(row[2])), ParseInt(Trim(row[4])))
      case (Some(start), Some(end), Some(user)) =>
        Ok(CallFields(Trim(row[0]), start, end, Trim(row[3]), user))
      case _ => Err(NotAnInteger)
  }

  /** `not all(field.strip() for field in row)`, for a row of five fields. */
  predicate HasBlankField(row: seq<string>)
    requires |row| == 5
    ensures HasBlankField(row) <==> exists j :: 0 <= j < 5 && IsBlank(row[j])
  {
    Trim(row[0]) == [] || Trim(row[1]) == [] || Trim(row[2]) == []
    || Trim(row[3]) == [] || Trim(row[4]) == []
  }

  /** The verdicts on the body rows, one per row. */
  function CallVerdicts(body: seq<seq<string>>): seq<Result<CallFields, Skip>> {
    seq(|body|, i requires 0 <= i < |body| => CleanCallRow(body[i]))
  }

  /** The call log an accepted row becomes under the id the table gives it. */
  function WithId(id: int, f: CallFields): CallLog {
    CallLog(id, f.phoneNumber, f.startTime, f.endTime, f.direction, f.userId)
  }

  /** What a stored call says about the row it came from: the phone number and
      direction are the stripped, non-blank fields, and the times and the user id
      are the integers those fields parse to. */
  predicate CameFrom(c: CallLog, row: seq<string>) {
    && |row| == 5
    && c.phoneNumber == Trim(row[0]) && !IsBlank(c.phoneNumber) && Trim(c.phoneNumber) == c.phoneNumber
    && ParseInt(Trim(row[1])) == Some(c.startTime)
    && ParseInt(Trim(row[2])) == Some(c.endTime)
    && c.direction == Trim(row[3]) && !IsBlank(c.direction) && Trim(c.direction) == c.direction
    && ParseInt(Trim(row[4])) == Some(c.userId)
  }

  /** The whole load: the header (row 0) is dropped, and the table is the in-order
      subsequence of the accepted body rows, numbered from 1. The body row at file
      position i is stored exactly when it has five fields, none blank, whose start
      time, end time and user id parse as integers; a row failing any check is
      skipped without affecting the others; no row is stored twice. The times
      stored are the parsed integers, which is what SQLite's INTEGER affinity
      makes of the raw fields when their surrounding whitespace is ASCII and
      they fit in 64 bits. */
  function LoadAndCleanCallLogs(rows: seq<seq<string>>): (calls: seq<CallLog>)
    requires |rows| >= 1
    ensures |calls| <= |rows| - 1
    ensures forall k :: 0 <= k < |calls| ==> calls[k].callId == k + 1
    ensures var ps := OkPositions(CallVerdicts(rows[1..]));
      && |ps| == |calls|
      && StrictlyIncreasing(ps)
      && (forall k :: 0 <= k < |calls| ==> 1 + ps[k] < |rows| && CameFrom(calls[k], rows[1 + ps[k]]))
      && (forall i :: 1 <= i < |rows| ==>
            (i - 1 in ps <==>
              && |rows[i]| == 5
              && (forall j :: 0 <= j < 5 ==> !IsBlank(rows[i][j]))
              && IsIntLiteral(Trim(rows[i][1]))
              && IsIntLiteral(Trim(rows[i][2]))
              && IsIntLiteral(Trim(rows[i][4]))))
  {
    var vs := CallVerdicts(rows[1..]);
    InsertKeepsAccepted(vs, WithId);
    AcceptedRows(rows);
    Insert(vs, WithId)
  }

  /** How the verdicts on the body relate to the rows of the file. */
  lemma AcceptedRows(rows: seq<seq<string>>)
    requires |rows| >= 1
    ensures var vs := CallVerdicts(rows[1..]);
      var ps := OkPositions(vs);
      && (forall k :: 0 <= k < |ps| ==>
            1 + ps[k] < |rows| && CameFrom(WithId(k + 1, vs[ps[k]].value), rows[1 + ps[k]]))
      && (forall i :: 1 <= i < |rows| ==>
            (i - 1 in ps <==>
              && |rows[i]| == 5
              && (forall j :: 0 <= j < 5 ==> !IsBlank(rows[i][j]))
              && IsIntLiteral(Trim(rows[i][1]))
              && IsIntLiteral(Trim(rows[i][2]))
              && IsIntLiteral(Trim(rows[i][4]))))
  {
    var body := rows[1..];
    var vs := CallVerdicts(body);
    var ps := OkPositions(vs);
    forall k | 0 <= k < |ps|
      ensures 1 + ps[k] < |rows| && CameFrom(WithId(k + 1, vs[ps[k]].value), rows[1 + ps[k]])
    {
      var row := rows[1 + ps[k]];
      assert body[ps[k]] == row;
      TrimIdempotent(row[0]);
      TrimIdempotent(row[3]);
    }
    forall i | 1 <= i < |rows|
      ensures i - 1 in ps <==>
        && |rows[i]| == 5
        && (forall j :: 0 <= j < 5 ==> !IsBlank(rows[i][j]))
        && IsIntLiteral(Trim(rows[i][1]))
        && IsIntLiteral(Trim(rows[i][2]))
        && IsIntLiteral(Trim(rows[i][4]))
    {
      assert body[i - 1] == rows[i];
      assert vs[i - 1] == CleanCallRow(rows[i]);
    }
  }
}
