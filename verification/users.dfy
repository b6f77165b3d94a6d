/** `load_and_clean_users`: the users file is a header and rows of first name and
    last name. A row is stored when it has exactly two fields and neither is blank;
    the stored names are stripped and the table numbers the users 1, 2, ... in
    insertion order. */
module Users {
  import opened Wrappers
  import opened Text
  import opened Rows

  /** A row of the users table. `userId` is the INTEGER PRIMARY KEY, which an empty
      table assigns as one more than the number of rows already inserted. */
  datatype User = User(userId: int, firstName: string, lastName: string)

  datatype Name = Name(first: string, last: string)

  /** The loader's verdict on one body row: the stripped names, or why the row is
      skipped. */
  function CleanUserRow(row: seq<string>): (r: Result<Name, Skip>)
    ensures r.Ok? <==> |row| == 2 && !IsBlank(row[0]) && !IsBlank(row[1])
    ensures r.Ok? ==> r.value == Name(Trim(row[0]), Trim(row[1]))
    ensures r.Err? ==> (r.error == WrongFieldCount <==> |row| != 2)
    ensures r.Err? ==> r.error != NotAnInteger
  {
    if |row| != 2 then Err(WrongFieldCount)
    else if Trim(row[0]) == [] || Trim(row[1]) == [] then Err(BlankField)
    else Ok(Name(Trim(row[0]), Trim(row[1])))
  }

  /** The verdicts on the body rows, one per row. */
  function UserVerdicts(body: seq<seq<string>>): seq<Result<Name, Skip>> {
    seq(|body|, i requires 0 <= i < |body| => CleanUserRow(body[i]))
  }

  /** The record the table stores for accepted names under the id it assigns. */
  function NewUser(id: int, n: Name): User {
    User(id, n.first, n.last)
  }

  /** The whole load: the header (row 0) is dropped, and the table is the in-order
      subsequence of the accepted body rows, numbered from 1. The body row at file
      position i is stored exactly when it has two fields, neither blank; every
      stored name is stripped and non-blank; no row is stored twice. */
  function LoadAndCleanUsers(rows: seq<seq<string>>): (users: seq<User>)
    requires |rows| >= 1
    ensures |users| <= |rows| - 1
    ensures forall k :: 0 <= k < |users| ==> users[k].userId == k + 1
    ensures forall k :: 0 <= k < |users| ==>
      && !IsBlank(users[k].firstName) && Trim(users[k].firstName) == users[k].firstName
      && !IsBlank(users[k].lastName) && Trim(users[k].lastName) == users[k].lastName
    ensures var ps := OkPositions(UserVerdicts(rows[1..]));
      && |ps| == |users|
      && StrictlyIncreasing(ps)
      && (forall k :: 0 <= k < |users| ==>
            && 1 + ps[k] < |rows| && |rows[1 + ps[k]]| == 2
            && users[k] == User(k + 1, Trim(rows[1 + ps[k]][0]), Trim(rows[1 + ps[k]][1])))
      && (forall i :: 1 <= i < |rows| ==>
            (i - 1 in ps <==> |rows[i]| == 2 && !IsBlank(rows[i][0]) && !IsBlank(rows[i][1])))
  {
    var body := rows[1..];
    var vs := UserVerdicts(body);
    InsertKeepsAccepted(vs, NewUser);
    AcceptedRows(rows);
    Insert(vs, NewUser)
  }

  /** How the verdicts on the body relate to the rows of the file. */
  lemma AcceptedRows(rows: seq<seq<string>>)
    requires |rows| >= 1
    ensures var vs := UserVerdicts(rows[1..]);
      var ps := OkPositions(vs);
      && (forall k :: 0 <= k < |ps| ==>
            && 1 + ps[k] < |rows| && |rows[1 + ps[k]]| == 2
            && vs[ps[k]].value == Name(Trim(rows[1 + ps[k]][0]), Trim(rows[1 + ps[k]][1]))
            && !IsBlank(vs[ps[k]].value.first) && Trim(vs[ps[k]].value.first) == vs[ps[k]].value.first
            && !IsBlank(vs[ps[k]].value.last) && Trim(vs[ps[k]].value.last) == vs[ps[k]].value.last)
      && (forall i :: 1 <= i < |rows| ==>
            (i - 1 in ps <==> |rows[i]| == 2 && !IsBlank(rows[i][0]) && !IsBlank(rows[i][1])))
  {
    var body := rows[1..];
    var vs := UserVerdicts(body);
    var ps := OkPositions(vs);
    forall k | 0 <= k < |ps|
      ensures 1 + ps[k] < |rows| && |rows[1 + ps[k]]| == 2
      ensures vs[ps[k]].value == Name(Trim(rows[1 + ps[k]][0]), Trim(rows[1 + ps[k]][1]))
      ensures !IsBlank(vs[ps[k]].value.first) && Trim(vs[ps[k]].value.first) == vs[ps[k]].value.first
      ensures !IsBlank(vs[ps[k]].value.last) && Trim(vs[ps[k]].value.last) == vs[ps[k]].value.last
    {
      assert body[ps[k]] == rows[1 + ps[k]];
      TrimIdempotent(rows[1 + ps[k]][0]);
      TrimIdempotent(rows[1 + ps[k]][1]);
    }
    forall i | 1 <= i < |rows|
      ensures i - 1 in ps <==> |rows[i]| == 2 && !IsBlank(rows[i][0]) && !IsBlank(rows[i][1])
    {
      assert body[i - 1] == rows[i];
      assert vs[i - 1] == CleanUserRow(rows[i]);
    }
  }
}
