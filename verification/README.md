# Call-log ETL, modelled in Dafny

The program loads two CSV files into an in-memory SQLite database and writes two
reports from it. Each step is one function in `src/main/main.py`:

- `load_and_clean_users` reads `firstName,lastName` rows into the `users` table.
  It keeps a row only when the row has exactly two fields and both are non-blank
  once stripped. The stripped names are stored.
- `load_and_clean_call_logs` reads `phoneNumber,startTime,endTime,direction,userId`
  rows into the `callLogs` table. It keeps a row only when all of these hold:
  - the row has exactly five fields;
  - no field is blank once stripped;
  - the start time, end time and user id parse as integers.

  Every other row is skipped and the load carries on. The exception is a row
  whose user id parses to an integer beyond SQLite's 64-bit range: its insert
  raises, and that ends the load (see "Left out").
- `write_user_analytics` groups the calls by user id. It writes a header row,
  then, per user, the average call duration (`endTime - startTime`) and the
  number of calls.
- `write_ordered_calls` writes every stored call, sorted by user id and then by
  start time.

The model is a set of pure functions:
- A CSV file is a sequence of rows of string fields. The header is row 0.
- A table is the sequence of its records in insertion order.
- Each integer primary key is the record's position plus one, because both
  tables start empty.
- Strings are sequences of characters.
- Stripping whitespace is `Text.Trim`, over exactly the characters Python's
  `str.isspace` accepts.
- `int()` on a stripped field is `Decimal.ParseInt`, which returns `None` where
  Python raises `ValueError`.
- `str()` of an integer is `Decimal.Show`.

Modules:
- `wrappers.dfy`: `Option` and `Result`.
- `text.dfy`: whitespace and `Trim`.
- `decimal.dfy`: parsing and rendering of integers.
- `rows.dfy`: the skip reasons, the positions of the accepted rows, and the
  insertion of accepted records under the ids an empty table assigns.
- `users.dfy`, `call_logs.dfy`: the two loaders.
- `analytics.dfy`: the `GROUP BY` query and its records. It holds a reference
  definition (`UserAnalytics`) and a single-pass hash aggregation
  (`GroupByUser`) proved equal to it.
- `ordered_export.dfy`: the `ORDER BY` query and the CSV rows it produces.
- `pipeline.dfy`: worked examples over small files.

About the store step of the call-log loader (`main.py:93-96`):
- The loader parses start time, end time and user id with `int()` before
  inserting.
- It inserts the parsed user id, but it inserts the start and end times as the
  original unstripped strings.
- Those columns are declared `INTEGER` (`main.py:25-26`). SQLite's integer
  affinity turns a text value into an integer when the text is a well-formed
  integer literal within the signed 64-bit range. The literal may be
  surrounded by ASCII whitespace: space, tab, line feed, vertical tab, form
  feed and carriage return.
- The model stores the parsed integers directly. This is an assumption, not an
  equivalence. It holds when the whitespace around each time is ASCII and the
  value fits in 64 bits. The rows where the program stores something else are
  listed under `CallLogs.LoadAndCleanCallLogs` in "Left out".

## Model

| member | source | states |
|---|---|---|
| `Text.Trim` | src/main/main.py:58-61 | No whitespace is left at either end of a stripped field. A stripped field is empty exactly when the field is blank, which is the truth test the loaders apply. |
| `Text.TrimIsInfix` | src/main/main.py:58-61 | Stripping removes only leading and trailing whitespace. The result is a contiguous part of the field, and everything cut off around it is whitespace. |
| `Decimal.ParseInt` | src/main/main.py:85-89 | `int()` of a stripped field succeeds exactly on an optional sign followed by ASCII digits. Anything that parses is non-empty and free of whitespace. |
| `Decimal.LeadingZero` | src/main/main.py:86-88 | `int()` ignores leading zeros: `0` followed by digits reads as the digits alone. |
| `Decimal.PlusSign` | src/main/main.py:86-88 | A `+` before digits reads as the digits alone. |
| `Decimal.MinusSign` | src/main/main.py:86-88 | A `-` before digits reads as the negated value of the digits. With the two lemmas above and the value of a plain digit run, this fixes the value of every literal that parses. |
| `Decimal.Show` | src/main/main.py:163-167 | Rendering an integer as the CSV writer does and parsing it back gives the same integer. The rendering is canonical: no `+`, no leading zero, and zero is never `-0`. It carries no whitespace. |
| `Decimal.CanonicalIsShow` | src/main/main.py:163-167 | A string is `str(n)` exactly when it is canonical and reads back as `n`. So every writer contract stated as "canonical and reads back" fixes the written text. |
| `Users.CleanUserRow` | src/main/main.py:56-61 | A user row is accepted exactly when it has two fields, neither blank. An accepted row becomes the two stripped names. A rejected row's reason is a wrong field count exactly when it does not have two fields. |
| `Rows.InsertKeepsAccepted` | src/main/main.py:54-63 | Offering the verdicts one by one to an empty table stores one record per accepted row, in order. The k-th record has id k+1, the INTEGER PRIMARY KEY of line 15 on an empty table, and the fields of the k-th accepted row. The call-log loader inserts the same way (lines 76-96, key of line 23). |
| `Users.AcceptedRows` | src/main/main.py:54-63 | The position of file row i is among the accepted positions exactly when row i has two non-blank fields. Every accepted name is stripped and non-blank. |
| `Users.LoadAndCleanUsers` | src/main/main.py:50-64 | The header is never stored. The table is the in-order, repeat-free subsequence of valid body rows: row i is stored exactly when it has two fields, neither blank. Stored names are the stripped fields, and ids run 1..n. |
| `CallLogs.CleanCallRow` | src/main/main.py:79-96 | A call row is accepted exactly when it has five fields, none blank, and the stripped start time, end time and user id are integer literals. Accepted fields are the stripped phone number and direction plus the parsed integers. A rejection reports the first check that failed. |
| `CallLogs.HasBlankField` | src/main/main.py:83 | The `all(field.strip() ...)` test fails exactly when one of the five fields is blank. |
| `CallLogs.AcceptedRows` | src/main/main.py:76-96 | File row i is accepted exactly when it passes all three checks. Each accepted row yields a call whose fields are derived from that row. |
| `CallLogs.LoadAndCleanCallLogs` | src/main/main.py:71-96 | The header is never stored. The table is the in-order, repeat-free subsequence of valid body rows, numbered 1..n. Each call's times and user id are the integers its row's fields parse to, under the store-step assumption above. |
| `Analytics.CountPositive` | src/main/main.py:110-114 | A user's `COUNT(*)` is positive exactly when the table holds a call of that user. |
| `Analytics.GroupIds` | src/main/main.py:113-114 | The groups of `GROUP BY userId` are the user ids that occur in the table, each exactly once. |
| `Analytics.UserAnalytics` | src/main/main.py:106-118 | Every result row belongs to a user with calls, with no id repeated. `numCalls` is that user's call count (at least 1), and the total duration is the sum of that user's `endTime - startTime`. |
| `Analytics.RowForEveryCaller` | src/main/main.py:113-114 | A user id has a result row exactly when it has at least one call, and no id has two rows. |
| `Analytics.CountConservation` | src/main/main.py:109-114 | Summing `numCalls` over the result rows gives the number of stored calls. Summing the per-user totals gives the sum of all durations. |
| `Analytics.MeanWithinBounds` | src/main/main.py:109 | A user's average duration lies between any lower and upper bound on the durations of that user's calls. |
| `Analytics.Accumulate` | src/main/main.py:106-117 | One pass over the table builds a map from each user id that occurs to that user's id, total duration and count, and holds no other keys. |
| `Analytics.EmitAscending` | src/main/main.py:117-118 | Reading the groups out smallest id first gives each group exactly once, in ascending id order. |
| `Analytics.GroupByUser` | src/main/main.py:106-118 | The single-pass aggregation returns exactly the reference result `UserAnalytics`. |
| `Analytics.Line` | src/main/main.py:128-130 | A written analytics record renders its row's user id and count as `str()` does: canonical, and reading back as those integers. Its average times the count is the row's total duration. |
| `Analytics.Lines` | src/main/main.py:127-130 | One record per result row, in order. Each record renders its row's user id and count as `str()` does, and its average times the count is the row's total. |
| `Analytics.WriteUserAnalytics` | src/main/main.py:104-130 | The file starts with the header row `userId,avgDuration,numCalls`, followed by one record per user with calls. Each record renders the user id and that user's call count as `str()` does, and its average times the count is the user's total duration. |
| `OrderedExport.OrderCalls` | src/main/main.py:139-153 | The query result is a permutation of the table: same calls, same multiplicities, same length. It is sorted by user id, then by start time. |
| `OrderedExport.OrderDeterminedUpToTies` | src/main/main.py:151-153 | Any two sorted permutations of the same calls agree, position by position, on user id and start time. Only the order among ties is left open. |
| `OrderedExport.OrderUnique` | src/main/main.py:151-153 | When no two calls share a user id and start time, the sorted order is unique. |
| `OrderedExport.ExportRow` | src/main/main.py:163-167 | A written call row has six fields in table order and reads back as the call. The text fields are verbatim. Each integer is written as `str()` writes it: canonical, and parsing back to the call's value. |
| `OrderedExport.ExportRows` | src/main/main.py:166-167 | The writer's loop produces one row per query result, in the same order, each reading back as its call. |
| `OrderedExport.WriteOrderedCalls` | src/main/main.py:137-167 | The file is the header followed by one row per stored call. Row k+1 reads back as the k-th call of the sorted query result. |
| `Pipeline.UsersExample` | src/main/main.py:50-64 | Body rows (Ann, Lee), ("", Bad), (Sam, Oh) give users 1 Ann Lee and 2 Sam Oh. |
| `Pipeline.UsersExampleKept` | src/main/main.py:54-61 | In that file, only body rows 0 and 2 are accepted. |
| `Pipeline.ExampleVerdicts` | src/main/main.py:79-91 | A well-formed call row is accepted with its integers parsed. A row whose start time is `x` is skipped as not an integer. |
| `Pipeline.KeepFirstOfTwo` | src/main/main.py:76-96 | Of two body rows, if only the first is accepted, the table is that row alone, as call 1. |
| `Pipeline.CallLogsExample` | src/main/main.py:71-96 | A file with one good row and one row whose start time is not a number stores one call, with id 1. |
| `Pipeline.SingleCaller` | src/main/main.py:106-114 | A table whose calls all belong to one user yields exactly one result row, that user's. |
| `Pipeline.AnalyticsExample` | src/main/main.py:101-110 | Two calls of user 1 lasting 100 and 110 give one row: user 1, total 210, two calls, average 105. |
| `Pipeline.OrderedExample` | src/main/main.py:137-153 | Calls stored as (user 2, t=500), (user 1, t=900), (user 1, t=300) come out as t=300, t=900 for user 1, then user 2. |

## Left out

- Opening files and CSV tokenisation (`csv.reader`, `csv.writer`, quoting, line endings): files are given and produced as sequences of rows of fields.
- The SQLite connection, cursor and `CREATE TABLE` statements (`main.py:5-8`, `14-30`): a table is a sequence of records. The foreign key of line 29 is not enforced by SQLite by default, so the model does not check it either.
- `Users.LoadAndCleanUsers` and `CallLogs.LoadAndCleanCallLogs` require at least one row. On an empty file, `next(reader)` raises `StopIteration` and the load aborts; that exception is not modelled.
- The loaders assume the table is empty and each loader runs once, so ids start at 1 (SQLite assigns max(rowid)+1).
- `Decimal.ParseInt`: accepts only an optional sign and ASCII digits. Python's `int()` also accepts `_` digit separators and non-ASCII decimal digits. The model skips such rows. The program stores them: the user id as the parsed integer, the two times as their raw text.
- `Decimal.ParseInt`: has no length limit. Since Python 3.11, `int()` raises `ValueError` on a string of more than 4300 digits, so the program skips such a row. The model accepts it.
- `CallLogs.LoadAndCleanCallLogs`: stores the parsed times. The program stores something else in two cases, described in the next two entries.
- `CallLogs.LoadAndCleanCallLogs`: a time surrounded by whitespace that `strip()` removes but SQLite does not skip. That whitespace is U+001C-U+001F, U+0085, U+00A0, U+1680, U+2000-U+200A, U+2028, U+2029, U+202F, U+205F and U+3000. An example is the start time `"\u00a0100"`. The program stores that time as TEXT. `AVG(endTime - startTime)` then reads it as 0, `ORDER BY` puts it after every integer start time, and the ordered file carries the raw text.
- `CallLogs.LoadAndCleanCallLogs`: a time outside the signed 64-bit range. SQLite stores it as REAL.
- `CallLogs.LoadAndCleanCallLogs`: a user id outside the signed 64-bit range, such as `9223372036854775808`. `int()` accepts it at `main.py:88`. The sqlite3 binding then raises `OverflowError` at the insert (`main.py:93-96`), which is outside the `try` of `main.py:85-90`. That aborts the whole load, so no later row is stored. The model stores the row and carries on.
- The other 64-bit limits of SQLite `INTEGER` columns and of `SUM`/`AVG` are not modelled: integers are unbounded.
- `Analytics.WriteUserAnalytics`: the average is kept as an exact rational. The floating-point `AVG` and its `f"{avgDuration:.1f}"` rendering (one decimal digit) are not modelled.
- `Analytics.Line`: the same exact average stands in for the float `AVG` and its one-decimal rendering.
- `Analytics.Lines`: the same exact average stands in for the float `AVG` and its one-decimal rendering.
- `Analytics.UserAnalytics`: lists the groups in ascending user id. The query has no `ORDER BY`, so SQL does not promise an order; ascending is what SQLite's grouping produces. Every other stated property is independent of that order.
- `OrderedExport.OrderCalls` is one sorted permutation. The order among calls with equal user id and start time is not fixed by the query; `OrderDeterminedUpToTies` states what is fixed.
- `main()`, the debug dump `select_from_users_and_call_logs`, `return_cursor`, and the `print` calls: I/O with no effect on the tables or reports.
