# JdbcUtils, modelled in Dafny

This project models the static helpers of liquibase's `liquibase.util.JdbcUtils`. These helpers sit between Liquibase and a JDBC driver and do four things:

- **Value normalisation** (`getResultSetValue`). A cell value read with `getObject` goes through an ordered quirk table, and the first matching row wins:
  - the SQL Server "char to SMALLINT" coercion failure is answered with a `getString` re-read;
  - BLOB and CLOB handles are materialised as bytes and as text;
  - Oracle `TIMESTAMP` wrappers are always re-read as timestamps;
  - Oracle `DATE` wrappers and `java.sql.Date` values are re-read as timestamps or dates, depending on the column's metadata class.
- **Column lookup** (`getValueForColumn`). The database corrects the requested name, then the column labels are searched for it, ignoring case. The string of the first match is returned; the result is null when no label matches.
- **Small checks**: `requiredSingleResult` (exactly one element) and `isNumeric` (the numeric `java.sql.Types` codes).
- **The result walker** (`processResults`, `printRows`, `printWarnings`). It executes a statement, then visits every outcome the driver produces, in order:
  - a result set is rendered as one tab-separated table, followed by a row count;
  - an update count is logged as "n row(s) affected";
  - the warning chain is reported and cleared after `execute` and after every `getMoreResults`.

The driver is foreign code, so it is modelled as data (module `Jdbc`):

- `CellReads`: what each read of one cell answers. A read that throws becomes `Err(message)`.
- `Cursor`: a result set positioned on a row. Its `GetStringByLabel` is the driver's `getString(columnLabel)`, taken to follow the rule JDBC documents: labels are compared ignoring case and the first matching column is read.
- `ResultSet`: column metadata and rows of `getString` reads.
- `Script`: the outcomes of one execution, each with the warnings the driver attaches when it moves to that outcome.

The statement's mutable state lives in the class `Jdbc.Statement`: the current position, the warning chain and the result sets closed so far. The logger (`Logging.Log`) is a sequence of lines that `Info` appends to. `System.lineSeparator()` is a parameter `sep`.

The walker is specified by four functions of the position where the loop is entered: `JdbcUtils.Logged` (the lines logged), `JdbcUtils.ClosedBy` (the result sets closed), `JdbcUtils.Stop` (the position where the loop stops) and `JdbcUtils.Failure` (the failure that stopped it, if any). One turn of the loop is the method `ReportOutcome`, and `ProcessResults` is the loop around it; it is proved to produce exactly what the four functions describe. The lemmas about them then establish the following:

- where the loop stops;
- that every result set before the stop is closed once, in driver order;
- that update counts (0 included) each log one line, followed by the warnings raised by the move past them.

Some details of the code are easy to miss; the model follows the code:

- `printRows` renders cells with `getString`, not with the normalised value.
- The table header uses `getColumnName`, not the column label.
- Every column name and every cell is followed by a tab, the last one included. For `select 1 as a, 'x' as b` the table is `sep + "a\tb\t" + sep + "1\tx\t"`.
- `rs.close()` is not in a `finally` block. When rendering a result set fails, `ProcessResults` returns the failure and that result set is not closed (`ClosesResultSets`, `FailedReadExample`).

## Model

| member | source | states |
|---|---|---|
| JdbcUtils.GetResultSetValue | liquibase-core/src/main/java/liquibase/util/JdbcUtils.java:88-120 | a successful result is never a LOB handle and never an Oracle TIMESTAMP/DATE wrapper; a failure carries the message of one of the driver's reads, and never that of the tolerated SMALLINT coercion failure |
| JdbcUtils.CoercionFailureReadsText | liquibase-core/src/main/java/liquibase/util/JdbcUtils.java:90-95 | when getObject fails with exactly "The conversion from char to SMALLINT is unsupported.", the result is the getString read of the column |
| JdbcUtils.OtherGetObjectFailureRethrown | liquibase-core/src/main/java/liquibase/util/JdbcUtils.java:90-98 | any other getObject failure is rethrown with its message unchanged |
| JdbcUtils.LobsMaterialised | liquibase-core/src/main/java/liquibase/util/JdbcUtils.java:100-103 | a Blob is replaced by its getBytes read and a Clob by its getString read |
| JdbcUtils.OracleTimestampReread | liquibase-core/src/main/java/liquibase/util/JdbcUtils.java:104-105 | a value whose class name starts with oracle.sql.TIMESTAMP is re-read with getTimestamp |
| JdbcUtils.OraclePrefixesDisjoint | liquibase-core/src/main/java/liquibase/util/JdbcUtils.java:104-106 | no class name starts with both oracle.sql.DATE and oracle.sql.TIMESTAMP, so the DATE row of the table is reached by every oracle.sql.DATE value |
| JdbcUtils.OracleDateReread | liquibase-core/src/main/java/liquibase/util/JdbcUtils.java:106-113 | an oracle.sql.DATE value is re-read with getTimestamp exactly when the metadata class is java.sql.Timestamp or oracle.sql.TIMESTAMP, and with getDate for any other class; a failed getColumnClassName read fails with its message |
| JdbcUtils.SqlDateReread | liquibase-core/src/main/java/liquibase/util/JdbcUtils.java:114-118 | a java.sql.Date is re-read with getTimestamp exactly when the metadata class is java.sql.Timestamp, and is returned unchanged for any other class; a failed getColumnClassName read fails with its message |
| JdbcUtils.PlainValueUnchanged | liquibase-core/src/main/java/liquibase/util/JdbcUtils.java:100-119 | null, byte arrays, strings, timestamps and every object of none of the tagged kinds whose class name has no Oracle prefix are returned as getObject read them |
| JdbcUtils.NormalisedValueIsFixedPoint | liquibase-core/src/main/java/liquibase/util/JdbcUtils.java:88-120 | normalisation is idempotent: a normalised value, if read again, would be returned unchanged |
| JdbcUtils.IsNumeric | liquibase-core/src/main/java/liquibase/util/JdbcUtils.java:128-133 | true exactly for the ten numeric type codes BIT, BIGINT, DECIMAL, DOUBLE, FLOAT, INTEGER, NUMERIC, REAL, SMALLINT, TINYINT |
| JdbcUtils.NonNumericTypes | liquibase-core/src/main/java/liquibase/util/JdbcUtils.java:128-133 | character, boolean, date/time, LOB and unknown type codes are not numeric |
| JdbcUtils.RequiredSingleResult | liquibase-core/src/main/java/liquibase/util/JdbcUtils.java:141-150 | succeeds exactly for a collection of one element and returns it; a null or empty collection fails with "Empty result set, expected one row", a larger one with "Result set larger than one row" |
| JdbcUtils.FindLabel | liquibase-core/src/main/java/liquibase/util/JdbcUtils.java:167-174 | the search finds the lowest position whose label equals the name ignoring case, or reports that no label matches |
| Jdbc.Cursor.GetStringByLabel | liquibase-core/src/main/java/liquibase/util/JdbcUtils.java:171 | the driver's getString(columnLabel): the read of the first column whose label matches ignoring case, or an invalid-label error when none matches |
| JdbcUtils.LabelLookupFindsFirst | liquibase-core/src/main/java/liquibase/util/JdbcUtils.java:168-171 | the driver's getString by the matched label reads the matched column itself, since no earlier label equals it ignoring case |
| JdbcUtils.GetValueForColumn | liquibase-core/src/main/java/liquibase/util/JdbcUtils.java:162-175 | returns the string of the first column whose label equals the corrected name ignoring case, and null (not an error) when no label matches |
| JdbcUtils.FindLabelIgnoresCase | liquibase-core/src/main/java/liquibase/util/JdbcUtils.java:170 | the search gives the same answer for two names that are equal ignoring case |
| JdbcUtils.ColumnLookupIgnoresCase | liquibase-core/src/main/java/liquibase/util/JdbcUtils.java:165-172 | names that the database corrects to the same name up to case find the same value |
| JdbcUtils.LookupExample | liquibase-core/src/main/java/liquibase/util/JdbcUtils.java:162-175 | the name "username" finds the column labelled "UserName"; a missing label gives null |
| JavaText.EqualsIgnoreCaseIsEquivalence | liquibase-core/src/main/java/liquibase/util/JdbcUtils.java:170 | equalsIgnoreCase is reflexive, symmetric and transitive |
| JdbcUtils.WarningClassification | liquibase-core/src/main/java/liquibase/util/JdbcUtils.java:252-258 | for a line separator without the letter S, a message starts with the separator and "SQLOUT: " exactly when its warning has error code 0 and no SQLState; otherwise it is the "***** Database Message *****" block |
| JdbcUtils.WarningMessagesPerLink | liquibase-core/src/main/java/liquibase/util/JdbcUtils.java:251-260 | the messages of a chain are one per link: as many as there are links, the i-th being the message of the i-th link |
| JdbcUtils.PrintWarnings | liquibase-core/src/main/java/liquibase/util/JdbcUtils.java:250-262 | logs exactly one message per link of the chain, in chain order, and nothing else |
| JdbcUtils.RowTextOk | liquibase-core/src/main/java/liquibase/util/JdbcUtils.java:235-237 | a row renders exactly when each of its cells can be read |
| JdbcUtils.RowTextFails | liquibase-core/src/main/java/liquibase/util/JdbcUtils.java:236 | a row that fails to render fails with the message of one of its cell reads |
| JdbcUtils.RowTextFailureSticks | liquibase-core/src/main/java/liquibase/util/JdbcUtils.java:235-237 | once a cell read fails, the rest of the row does not change the failure |
| JdbcUtils.BodyFailureSticks | liquibase-core/src/main/java/liquibase/util/JdbcUtils.java:233-239 | once a row fails, the rest of the rows do not change the failure |
| JdbcUtils.BodyOk | liquibase-core/src/main/java/liquibase/util/JdbcUtils.java:233-239 | the rows render exactly when every cell of every row can be read; otherwise the failure is the failed read of some cell |
| JdbcUtils.PrintRows | liquibase-core/src/main/java/liquibase/util/JdbcUtils.java:223-242 | when every read succeeds, logs the table (separator, each column name plus tab, then per row a separator and each cell plus tab) followed by "k row(s) affected" with k the number of rows; when a read fails, logs nothing and fails with that read's message |
| JdbcUtils.ProcessResults | liquibase-core/src/main/java/liquibase/util/JdbcUtils.java:185-215 | records the execute call chosen by statement kind; a failed execute logs nothing; otherwise logs the warnings of execute followed by the walk's lines, closes exactly the walk's result sets, stops where the walk stops, leaves the warning chain empty, and fails exactly when the walk fails |
| JdbcUtils.ReportOutcome | liquibase-core/src/main/java/liquibase/util/JdbcUtils.java:200-213 | one turn of the loop: the loop goes on exactly when the outcome is consumed; then the driver has moved one step, the table and row count or the update-count line are logged followed by the warnings of the move, the chain is empty and only a printed result set is closed; otherwise nothing is logged or closed and the turn yields success at an update count of -1 and the printing failure otherwise |
| JdbcUtils.WalkAdvances | liquibase-core/src/main/java/liquibase/util/JdbcUtils.java:199-214 | one turn of the loop for an outcome that is neither the end nor a failure: what the turn logs and closes, followed by the rest of the walk, is the walk from that outcome |
| JdbcUtils.ResultSetStep | liquibase-core/src/main/java/liquibase/util/JdbcUtils.java:200-203 | a result set that prints does not end the loop, and its lines are its table followed by its row count |
| JdbcUtils.UpdateCountStep | liquibase-core/src/main/java/liquibase/util/JdbcUtils.java:204-209 | an update count other than -1 does not end the loop, and its one line is "n row(s) affected" |
| JdbcUtils.WalkEnds | liquibase-core/src/main/java/liquibase/util/JdbcUtils.java:202-208 | where the loop is left, nothing more is logged or closed; the failure is none at an update count of -1 and the printing failure otherwise |
| JdbcUtils.StopBounds | liquibase-core/src/main/java/liquibase/util/JdbcUtils.java:199-214 | the loop stops at or after the position where it is entered, and never past the last outcome |
| JdbcUtils.NoneSkipped | liquibase-core/src/main/java/liquibase/util/JdbcUtils.java:199-214 | every outcome between the entry and the stop is reported in full without ending the loop, so no outcome is skipped |
| JdbcUtils.StopReason | liquibase-core/src/main/java/liquibase/util/JdbcUtils.java:199-214 | without a failure, the loop ends exactly where the outcome is not a result set and the update count is -1; a failure happens at a result set whose printing failed, and carries that failure |
| JdbcUtils.ClosesResultSets | liquibase-core/src/main/java/liquibase/util/JdbcUtils.java:200-203 | the result sets closed are exactly those before the stop, each once and in driver order, so a result set whose printing failed stays open |
| JdbcUtils.ClosedPrefix | liquibase-core/src/main/java/liquibase/util/JdbcUtils.java:200-203 | closing the result set at a position before the later ones keeps the closed positions ascending and complete |
| JdbcUtils.UpdateStep | liquibase-core/src/main/java/liquibase/util/JdbcUtils.java:204-213 | an update count other than -1 logs one "n row(s) affected" line, then the warnings raised by the move to the next outcome, and the walk goes on from there, closing nothing |
| JdbcUtils.UpdateCountsLogged | liquibase-core/src/main/java/liquibase/util/JdbcUtils.java:204-211 | a run of update counts, 0 included, logs one "n row(s) affected" line per count in driver order, each followed by the warnings of the next move |
| JdbcUtils.UpdateCountsRunToEnd | liquibase-core/src/main/java/liquibase/util/JdbcUtils.java:199-211 | a run of update counts other than -1 closes nothing and the loop runs to the last outcome without failure |
| JdbcUtils.SelectExample | liquibase-core/src/main/java/liquibase/util/JdbcUtils.java:199-242 | the result set of `select 1 as a, 'x' as b` logs the table "a\tb\t" / "1\tx\t" and "1 row(s) affected", and closes its result set |
| JdbcUtils.FailedReadExample | liquibase-core/src/main/java/liquibase/util/JdbcUtils.java:200-203 | a result set whose only cell cannot be read logs nothing, stops the walk with the driver's message and is not closed |
| JdbcUtils.NoticeExample | liquibase-core/src/main/java/liquibase/util/JdbcUtils.java:204-213 | an update of 0 rows logs "0 row(s) affected", then the server notice raised by getMoreResults as an SQLOUT line |
| JavaText.NatToStringCanonical | liquibase-core/src/main/java/liquibase/util/JdbcUtils.java:209 | the decimal rendering of a count is a non-empty string of digits whose value is the count, with no leading zero except for 0 itself |
| JavaText.IntToStringCanonical | liquibase-core/src/main/java/liquibase/util/JdbcUtils.java:209 | Integer.toString: a leading minus sign exactly for negative values; otherwise the digits of the value, and after the sign the digits of its magnitude, with no leading zero except for 0 itself |
| Logging.Log.Info | liquibase-core/src/main/java/liquibase/util/JdbcUtils.java:209 | log.info appends exactly one message |
| Jdbc.Statement.ExecutePrepared | liquibase-core/src/main/java/liquibase/util/JdbcUtils.java:188-190 | PreparedStatement.execute: either fails leaving the statement's position and warnings alone, or moves to the first outcome with the warnings of execute, returning whether it is a result set |
| Jdbc.Statement.ExecuteSql | liquibase-core/src/main/java/liquibase/util/JdbcUtils.java:191-192 | Statement.execute(sql), with the same outcome as the prepared call |
| Jdbc.Statement.GetResultSet | liquibase-core/src/main/java/liquibase/util/JdbcUtils.java:201 | returns the result set of the current outcome |
| Jdbc.Statement.CloseResultSet | liquibase-core/src/main/java/liquibase/util/JdbcUtils.java:203 | records the current outcome's result set as closed and changes nothing else |
| Jdbc.Statement.GetUpdateCount | liquibase-core/src/main/java/liquibase/util/JdbcUtils.java:205 | the current update count, -1 for a result set or past the last outcome |
| Jdbc.Statement.GetMoreResults | liquibase-core/src/main/java/liquibase/util/JdbcUtils.java:211 | moves to the next outcome, adds that outcome's warnings to the chain, and returns whether it is a result set |
| Jdbc.Statement.GetWarnings | liquibase-core/src/main/java/liquibase/util/JdbcUtils.java:195 | returns the statement's current warning chain |
| Jdbc.Statement.ClearWarnings | liquibase-core/src/main/java/liquibase/util/JdbcUtils.java:196 | empties the warning chain and changes nothing else |

## Left out

- `closeStatement`, `closeResultSet` and `close`: they only call `close` and swallow whatever it throws. Driver-side resource state is not observable in this model, so they are not modelled.
- Failures of the driver calls made by the walker other than `execute` and the cell reads (`getMoreResults`, `getUpdateCount`, `getWarnings`, `clearWarnings`, `rs.next()`, `getMetaData`, `rs.close()`) are not modelled. These calls always succeed here.
- The metadata reads of `getValueForColumn` (`getColumnCount`, `getColumnLabel`) always succeed. Only its final `getString` read may fail.
- The implicit close of the current result set that JDBC performs in `getMoreResults` is not modelled. Only the explicit `rs.close()` is recorded.
- Java's `equalsIgnoreCase` is modelled for ASCII letters only. Unicode case folding is out of scope.
- Timestamp precision and date arithmetic: timestamps and dates are opaque numbers.
- Null column metadata: `Jdbc.ColumnMeta` holds `getColumnName` and `getColumnLabel` as plain strings. A driver that returns null for either is not modelled. With a null label, `getValueForColumn` would skip that column. With a null name, `printRows` would print `null` followed by a tab in the header.
- Result sets whose rows hold fewer reads than there are columns are outside the model. A driver never produces them, because `printRows` reads each row by the same result set's column count. In the model, such a row's missing cells read as the "Invalid column index" error (`Jdbc.CellAt`).
- `Jdbc.Value.Other` stands only for objects that are none of the tagged kinds: not a `Blob`, `Clob`, `byte[]`, `String`, `Timestamp` or `java.sql.Date`. The datatype does not enforce this. `Other("java.sql.Date")` or an `Other` whose class implements `Blob` (such as `oracle.sql.BLOB`) is not an object the model describes; such objects are written with their tag. Only `Other` values are tested against the `oracle.sql` prefixes, because the tagged kinds' class names never carry them.
- `JdbcUtils.GetResultSetValue`: an exception is represented by its message, a `string`, so a null message cannot be written. The code compares the message of a `getObject` exception with the SQL Server text and throws a `NullPointerException` when that message is null. The model does not cover that case: every failed `getObject` read has a message and is rethrown as `Err(m)`.
- `JdbcUtils.GetValueForColumn`: `correctObjectName` is a total `string -> string` function. So the model does not cover the `NullPointerException` the code throws when the database corrects the name to null and the result set has at least one column.
- Logger configuration and `System.lineSeparator()`: the separator is a parameter, and logging is an append to a sequence.
- The `Database` object of `getValueForColumn` is reduced to its `correctObjectName` function, which is a parameter.
