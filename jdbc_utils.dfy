/** The static helpers of liquibase.util.JdbcUtils: normalising the value the
    driver returns for a cell, looking a column up by name, the single-result
    and numeric-type checks, and walking every outcome of a statement while
    logging tables, update counts and warnings. */
module JdbcUtils {
  import opened Wrappers
  import opened JavaText
  import opened Jdbc
  import opened Logging

  // ---------------------------------------------------------------------
  // getResultSetValue
  // ---------------------------------------------------------------------

  /** The message of the SQL Server driver's char to SMALLINT coercion failure. */
  const SmallintCoercionMessage := "The conversion from char to SMALLINT is unsupported."
  const OracleTimestampClass := "oracle.sql.TIMESTAMP"
  const OracleDateClass := "oracle.sql.DATE"
  const TimestampClass := "java.sql.Timestamp"

  // The class names of the tagged kinds of Value (java.lang.String, [B,
  // java.sql.Timestamp, java.sql.Date and the driver's LOB classes) never start
  // with oracle.sql, so only an Other value can pass the two prefix tests.

  /** A value whose class name starts with oracle.sql.TIMESTAMP. */
  predicate IsOracleTimestamp(v: Value) {
    v.Other? && OracleTimestampClass <= v.className
  }

  /** A value whose class name starts with oracle.sql.DATE. */
  predicate IsOracleDate(v: Value) {
    v.Other? && OracleDateClass <= v.className
  }

  /** A value with no tie to the result set it came from: not a LOB handle. */
  predicate Detached(v: Value) {
    !v.BlobHandle? && !v.ClobHandle?
  }

  function ReadText(read: Result<Option<string>>): Result<Value> {
    match read
    case Err(m) => Err(m)
    case Ok(None) => Ok(Null)
    case Ok(Some(s)) => Ok(Text(s))
  }

  function ReadBytes(read: Result<Option<seq<bv8>>>): Result<Value> {
    match read
    case Err(m) => Err(m)
    case Ok(None) => Ok(Null)
    case Ok(Some(b)) => Ok(Bytes(b))
  }

  function ReadTimestamp(read: Result<Option<int>>): Result<Value> {
    match read
    case Err(m) => Err(m)
    case Ok(None) => Ok(Null)
    case Ok(Some(t)) => Ok(Timestamp(t))
  }

  function ReadDate(read: Result<Option<int>>): Result<Value> {
    match read
    case Err(m) => Err(m)
    case Ok(None) => Ok(Null)
    case Ok(Some(d)) => Ok(SqlDate(d))
  }

  /** The message m is that of a failed read other than the tolerated
      coercion failure of getObject. */
  predicate ReadFailure(c: CellReads, m: string) {
    (c.getObject == Err(m) && m != SmallintCoercionMessage)
    || c.getString == Err(m) || c.getBytes == Err(m) || c.getTimestamp == Err(m)
    || c.getDate == Err(m) || c.columnClassName == Err(m)
  }

  /** The quirk table applied to the object read from the column, first match wins. */
  function Reread(c: CellReads, obj: Value): Result<Value> {
    if obj.BlobHandle? then ReadBytes(c.getBytes)
    else if obj.ClobHandle? then ReadText(c.getString)
    else if IsOracleTimestamp(obj) then ReadTimestamp(c.getTimestamp)
    else if IsOracleDate(obj) then
      match c.columnClassName
      case Err(m) => Err(m)
      case Ok(meta) =>
        if meta == Some(TimestampClass) || meta == Some(OracleTimestampClass)
        then ReadTimestamp(c.getTimestamp)
        else ReadDate(c.getDate)
    else if obj.SqlDate? then
      match c.columnClassName
      case Err(m) => Err(m)
      case Ok(meta) => if meta == Some(TimestampClass) then ReadTimestamp(c.getTimestamp) else Ok(obj)
    else Ok(obj)
  }

  /** getResultSetValue: a detached value with no vendor wrapper class, or the
      failure of one of the driver reads it made. */
  function GetResultSetValue(c: CellReads): (r: Result<Value>)
    ensures r.Ok? ==> Detached(r.value) && !IsOracleTimestamp(r.value) && !IsOracleDate(r.value)
    ensures r.Err? ==> ReadFailure(c, r.message)
  {
    var obj :=
      match c.getObject
      case Ok(v) => Ok(v)
      case Err(m) => if m == SmallintCoercionMessage then ReadText(c.getString) else Err(m);
    match obj
    case Err(m) => Err(m)
    case Ok(v) => Reread(c, v)
  }

  /** A value the quirk table leaves alone. */
  predicate Plain(v: Value) {
    v.Null? || v.Bytes? || v.Text? || v.Timestamp? || (v.Other? && !IsOracleTimestamp(v) && !IsOracleDate(v))
  }

  lemma CoercionFailureReadsText(c: CellReads)
    requires c.getObject == Err(SmallintCoercionMessage)
    ensures GetResultSetValue(c) == ReadText(c.getString)
  {
  }

  lemma OtherGetObjectFailureRethrown(c: CellReads, m: string)
    requires c.getObject == Err(m) && m != SmallintCoercionMessage
    ensures GetResultSetValue(c) == Err(m)
  {
  }

  lemma LobsMaterialised(c: CellReads)
    ensures c.getObject == Ok(BlobHandle) ==> GetResultSetValue(c) == ReadBytes(c.getBytes)
    ensures c.getObject == Ok(ClobHandle) ==> GetResultSetValue(c) == ReadText(c.getString)
  {
  }

  lemma OracleTimestampReread(c: CellReads, v: Value)
    requires c.getObject == Ok(v) && IsOracleTimestamp(v)
    ensures GetResultSetValue(c) == ReadTimestamp(c.getTimestamp)
  {
  }

  /** No class name starts with both oracle.sql.TIMESTAMP and oracle.sql.DATE. */
  lemma OraclePrefixesDisjoint(v: Value)
    requires IsOracleDate(v)
    ensures !IsOracleTimestamp(v)
  {
    assert v.className[11] == 'D';
    assert OracleTimestampClass[11] == 'T';
  }

  /** An oracle.sql.DATE value is re-read as a timestamp exactly when the
      column's metadata class is java.sql.Timestamp or oracle.sql.TIMESTAMP;
      a failed metadata read fails the whole read. */
  lemma OracleDateReread(c: CellReads, v: Value)
    requires c.getObject == Ok(v) && IsOracleDate(v)
    ensures c.columnClassName.Err? ==> GetResultSetValue(c) == Err(c.columnClassName.message)
    ensures c.columnClassName == Ok(Some(TimestampClass)) || c.columnClassName == Ok(Some(OracleTimestampClass)) ==>
      GetResultSetValue(c) == ReadTimestamp(c.getTimestamp)
    ensures c.columnClassName.Ok? && c.columnClassName != Ok(Some(TimestampClass))
            && c.columnClassName != Ok(Some(OracleTimestampClass)) ==>
      GetResultSetValue(c) == ReadDate(c.getDate)
  {
    OraclePrefixesDisjoint(v);
  }

  /** A java.sql.Date is re-read as a timestamp exactly when the column's
      metadata class is java.sql.Timestamp; a failed metadata read fails the
      whole read. */
  lemma SqlDateReread(c: CellReads, day: int)
    requires c.getObject == Ok(SqlDate(day))
    ensures c.columnClassName.Err? ==> GetResultSetValue(c) == Err(c.columnClassName.message)
    ensures c.columnClassName == Ok(Some(TimestampClass)) ==> GetResultSetValue(c) == ReadTimestamp(c.getTimestamp)
    ensures c.columnClassName.Ok? && c.columnClassName != Ok(Some(TimestampClass)) ==>
      GetResultSetValue(c) == Ok(SqlDate(day))
  {
  }

  lemma PlainValueUnchanged(c: CellReads, v: Value)
    requires c.getObject == Ok(v) && Plain(v)
    ensures GetResultSetValue(c) == Ok(v)
  {
  }

  /** Normalising is idempotent: had the driver returned the normalised value
      in the first place, it would be returned unchanged. */
  lemma NormalisedValueIsFixedPoint(c: CellReads)
    requires GetResultSetValue(c).Ok?
    ensures GetResultSetValue(c.(getObject := Ok(GetResultSetValue(c).value))) == GetResultSetValue(c)
  {
  }

  // ---------------------------------------------------------------------
  // isNumeric
  // ---------------------------------------------------------------------

  /** Integer.MIN_VALUE, the code for an unknown SQL type. */
  const TYPE_UNKNOWN: int := -0x8000_0000

  const NumericTypes: set<int> := {BIT, BIGINT, DECIMAL, DOUBLE, FLOAT, INTEGER, NUMERIC, REAL, SMALLINT, TINYINT}

  function IsNumeric(sqlType: int): (b: bool)
    ensures b <==> sqlType in NumericTypes
  {
    BIT == sqlType || BIGINT == sqlType || DECIMAL == sqlType ||
    DOUBLE == sqlType || FLOAT == sqlType || INTEGER == sqlType ||
    NUMERIC == sqlType || REAL == sqlType || SMALLINT == sqlType ||
    TINYINT == sqlType
  }

  lemma NonNumericTypes()
    ensures !IsNumeric(TYPE_UNKNOWN) && !IsNumeric(CHAR) && !IsNumeric(VARCHAR) && !IsNumeric(BOOLEAN)
    ensures !IsNumeric(DATE) && !IsNumeric(TIMESTAMP) && !IsNumeric(BLOB) && !IsNumeric(CLOB)
  {
  }

  // ---------------------------------------------------------------------
  // requiredSingleResult
  // ---------------------------------------------------------------------

  const EmptyResultMessage := "Empty result set, expected one row"
  const TooManyResultsMessage := "Result set larger than one row"

  /** The sole element of a (possibly null) collection. */
  function RequiredSingleResult<T>(results: Option<seq<T>>): (r: Result<T>)
    ensures r.Ok? <==> results.Some? && |results.value| == 1
    ensures r.Ok? ==> r.value == results.value[0]
    ensures results.None? || results.value == [] ==> r == Err(EmptyResultMessage)
    ensures results.Some? && |results.value| > 1 ==> r == Err(TooManyResultsMessage)
  {
    var size := if results.Some? then |results.value| else 0;
    if size == 0 then Err(EmptyResultMessage)
    else if |results.value| > 1 then Err(TooManyResultsMessage)
    else Ok(results.value[0])
  }

  // ---------------------------------------------------------------------
  // getValueForColumn
  // ---------------------------------------------------------------------

  /** Column i (0-based) is the first whose label equals name ignoring case. */
  predicate FirstMatch(columns: seq<ColumnMeta>, name: string, i: nat) {
    i < |columns| && EqualsIgnoreCase(name, columns[i].columnLabel)
    && forall j :: 0 <= j < i ==> !EqualsIgnoreCase(name, columns[j].columnLabel)
  }

  /** The search loop over column labels, starting at position from. */
  function FindLabel(columns: seq<ColumnMeta>, name: string, from: nat): (r: Option<nat>)
    requires from <= |columns|
    ensures r.Some? ==> from <= r.value < |columns| && EqualsIgnoreCase(name, columns[r.value].columnLabel)
    ensures r.Some? ==> forall j :: from <= j < r.value ==> !EqualsIgnoreCase(name, columns[j].columnLabel)
    ensures r.None? ==> forall j :: from <= j < |columns| ==> !EqualsIgnoreCase(name, columns[j].columnLabel)
    decreases |columns| - from
  {
    if from == |columns| then None
    else if EqualsIgnoreCase(name, columns[from].columnLabel) then Some(from)
    else FindLabel(columns, name, from + 1)
  }

  /** The driver's lookup by the label found at position i finds position i
      again: no earlier label matches it, since none matches the name. */
  lemma {:induction false} LabelLookupFindsFirst(cursor: Cursor, name: string, i: nat, from: nat)
    requires FirstMatch(cursor.columns, name, i) && from <= i
    ensures cursor.GetStringByLabel(cursor.columns[i].columnLabel, from) == CellAt(cursor.current, i)
    decreases i - from
  {
    var l := cursor.columns[i].columnLabel;
    EqualsIgnoreCaseIsEquivalence(l, l, l);
    if from < i {
      EqualsIgnoreCaseIsEquivalence(name, l, cursor.columns[from].columnLabel);
      assert !EqualsIgnoreCase(l, cursor.columns[from].columnLabel);
      LabelLookupFindsFirst(cursor, name, i, from + 1);
    }
  }

  /** getValueForColumn: the string of the first column whose label matches
      the database-corrected name ignoring case; null when no label matches. */
  function GetValueForColumn(cursor: Cursor, columnNameToCheck: string, correctObjectName: string -> string): (r: StringRead)
    ensures (forall i :: 0 <= i < |cursor.columns| ==>
               !EqualsIgnoreCase(correctObjectName(columnNameToCheck), cursor.columns[i].columnLabel))
            ==> r == Ok(None)
    ensures forall i :: FirstMatch(cursor.columns, correctObjectName(columnNameToCheck), i) ==>
              r == CellAt(cursor.current, i)
  {
    var corrected := correctObjectName(columnNameToCheck);
    match FindLabel(cursor.columns, corrected, 0)
    case None => Ok(None)
    case Some(i) =>
      LabelLookupFindsFirst(cursor, corrected, i, 0);
      cursor.GetStringByLabel(cursor.columns[i].columnLabel, 0)
  }

  /** The search depends on the name only up to case. */
  lemma {:induction false} FindLabelIgnoresCase(columns: seq<ColumnMeta>, a: string, b: string, from: nat)
    requires from <= |columns| && EqualsIgnoreCase(a, b)
    ensures FindLabel(columns, a, from) == FindLabel(columns, b, from)
    decreases |columns| - from
  {
    if from < |columns| {
      var l := columns[from].columnLabel;
      EqualsIgnoreCaseIsEquivalence(a, b, l);
      EqualsIgnoreCaseIsEquivalence(b, a, l);
      FindLabelIgnoresCase(columns, a, b, from + 1);
    }
  }

  /** Names that the database corrects to the same name up to case find the same value. */
  lemma ColumnLookupIgnoresCase(cursor: Cursor, a: string, b: string, correctObjectName: string -> string)
    requires EqualsIgnoreCase(correctObjectName(a), correctObjectName(b))
    ensures GetValueForColumn(cursor, a, correctObjectName) == GetValueForColumn(cursor, b, correctObjectName)
  {
    FindLabelIgnoresCase(cursor.columns, correctObjectName(a), correctObjectName(b), 0);
  }

  /** A label UserName is found by the name username. */
  lemma LookupExample(v: StringRead)
    ensures GetValueForColumn(Cursor([ColumnMeta("ID", "ID"), ColumnMeta("USER_NAME", "UserName")], [Ok(Some("1")), v]),
                              "username", s => s) == v
    ensures GetValueForColumn(Cursor([ColumnMeta("ID", "ID")], [Ok(Some("1"))]), "username", s => s) == Ok(None)
  {
    var cols := [ColumnMeta("ID", "ID"), ColumnMeta("USER_NAME", "UserName")];
    assert EqualsIgnoreCase("username", cols[1].columnLabel);
    assert !EqualsIgnoreCase("username", cols[0].columnLabel);
    assert FirstMatch(cols, "username", 1);
  }

  // ---------------------------------------------------------------------
  // printWarnings
  // ---------------------------------------------------------------------

  const DatabaseMessageHeader := "\n***** Database Message *****"
  const SqlOutPrefix := "SQLOUT: "

  /** An informational notice: error code 0 and no SQLState. */
  predicate IsInformational(w: Warning) {
    w.errorCode == 0 && w.sqlState.None?
  }

  /** The message logged for one link of the chain. */
  function WarningMessage(w: Warning, sep: string): string {
    if IsInformational(w) then sep + SqlOutPrefix + ValueOf(w.message)
    else DatabaseMessageHeader + sep
         + "Code:   " + IntToString(w.errorCode) + sep
         + "Message:  " + ValueOf(w.message) + sep
         + "SQLState: " + ValueOf(w.sqlState)
  }

  /** The messages logged for a whole chain, built link by link. */
  function WarningMessages(chain: seq<Warning>, sep: string): seq<string> {
    if chain == [] then [] else WarningMessages(chain[..|chain| - 1], sep) + [WarningMessage(chain[|chain| - 1], sep)]
  }

  /** One message per link of the chain, in chain order. */
  lemma {:induction false} WarningMessagesPerLink(chain: seq<Warning>, sep: string)
    ensures |WarningMessages(chain, sep)| == |chain|
    ensures forall i :: 0 <= i < |chain| ==> WarningMessages(chain, sep)[i] == WarningMessage(chain[i], sep)
  {
    if chain != [] {
      var front := chain[..|chain| - 1];
      WarningMessagesPerLink(front, sep);
      var messages := WarningMessages(chain, sep);
      assert messages == WarningMessages(front, sep) + [WarningMessage(chain[|chain| - 1], sep)];
      forall i | 0 <= i < |chain|
        ensures messages[i] == WarningMessage(chain[i], sep)
      {
        if i < |front| {
          assert chain[i] == front[i];
        }
      }
    }
  }

  /** With a line separator that has no 'S' in it, a message is an SQLOUT line
      exactly when its warning is informational. */
  lemma WarningClassification(w: Warning, sep: string)
    requires 'S' !in sep
    ensures (sep + SqlOutPrefix <= WarningMessage(w, sep)) <==> IsInformational(w)
  {
    var m := WarningMessage(w, sep);
    if !IsInformational(w) {
      var k := |sep|;
      assert (sep + SqlOutPrefix)[k] == 'S';
      if k < |DatabaseMessageHeader| {
        assert m[k] == DatabaseMessageHeader[k];
        assert forall i :: 0 <= i < |DatabaseMessageHeader| ==> DatabaseMessageHeader[i] != 'S';
      } else {
        assert m[k] == sep[k - |DatabaseMessageHeader|];
      }
    }
  }

  method PrintWarnings(log: Log, warn: seq<Warning>, sep: string)
    modifies log
    ensures log.lines == old(log.lines) + WarningMessages(warn, sep)
  {
    var i := 0;
    while i < |warn|
      invariant 0 <= i <= |warn|
      invariant log.lines == old(log.lines) + WarningMessages(warn[..i], sep)
    {
      log.Info(WarningMessage(warn[i], sep));
      assert warn[..i + 1][..i] == warn[..i];
      i := i + 1;
    }
    assert warn[..|warn|] == warn;
  }

  // ---------------------------------------------------------------------
  // printRows
  // ---------------------------------------------------------------------

  /** `n + " row(s) affected"`. */
  function RowsAffected(n: int): string {
    IntToString(n) + " row(s) affected"
  }

  /** The first n column names, each followed by a tab. */
  function Header(columns: seq<ColumnMeta>, n: nat): string
    requires n <= |columns|
  {
    if n == 0 then "" else Header(columns, n - 1) + (columns[n - 1].columnName + "\t")
  }

  /** The first n cells of a row, each followed by a tab; the first failed read stops it. */
  function RowText(cells: seq<StringRead>, n: nat): Result<string> {
    if n == 0 then Ok("")
    else
      match RowText(cells, n - 1)
      case Err(m) => Err(m)
      case Ok(s) =>
        match CellAt(cells, n - 1)
        case Err(m) => Err(m)
        case Ok(v) => Ok(s + (ValueOf(v) + "\t"))
  }

  /** The first n rows, each preceded by the line separator. */
  function Body(rs: ResultSet, n: nat, sep: string): Result<string>
    requires n <= |rs.rows|
  {
    if n == 0 then Ok("")
    else
      match Body(rs, n - 1, sep)
      case Err(m) => Err(m)
      case Ok(b) =>
        match RowText(rs.rows[n - 1], |rs.columns|)
        case Err(m) => Err(m)
        case Ok(t) => Ok(b + sep + t)
  }

  /** The one string printRows logs for a result set. */
  function Table(rs: ResultSet, sep: string): Result<string> {
    match Body(rs, |rs.rows|, sep)
    case Err(m) => Err(m)
    case Ok(b) => Ok(sep + Header(rs.columns, |rs.columns|) + b)
  }

  lemma {:induction false} RowTextFailureSticks(cells: seq<StringRead>, a: nat, b: nat)
    requires a <= b && RowText(cells, a).Err?
    ensures RowText(cells, b) == RowText(cells, a)
    decreases b - a
  {
    if a < b {
      RowTextFailureSticks(cells, a, b - 1);
    }
  }

  lemma {:induction false} BodyFailureSticks(rs: ResultSet, a: nat, b: nat, sep: string)
    requires a <= b <= |rs.rows| && Body(rs, a, sep).Err?
    ensures Body(rs, b, sep) == Body(rs, a, sep)
    decreases b - a
  {
    if a < b {
      BodyFailureSticks(rs, a, b - 1, sep);
    }
  }

  /** A row renders exactly when each of its first n cells can be read. */
  lemma {:induction false} RowTextOk(cells: seq<StringRead>, n: nat)
    ensures RowText(cells, n).Ok? <==> forall j :: 0 <= j < n ==> CellAt(cells, j).Ok?
  {
    if n > 0 {
      RowTextOk(cells, n - 1);
    }
  }

  /** The table renders exactly when every cell of every row can be read;
      otherwise its failure is a failed read of some cell. */
  lemma {:induction false} BodyOk(rs: ResultSet, sep: string, n: nat)
    requires n <= |rs.rows|
    ensures Body(rs, n, sep).Ok? <==>
      forall r, j :: 0 <= r < n && 0 <= j < |rs.columns| ==> CellAt(rs.rows[r], j).Ok?
    ensures Body(rs, n, sep).Err? ==>
      exists r, j :: 0 <= r < n && 0 <= j < |rs.columns| && CellAt(rs.rows[r], j) == Err(Body(rs, n, sep).message)
  {
    if n > 0 {
      BodyOk(rs, sep, n - 1);
      RowTextOk(rs.rows[n - 1], |rs.columns|);
      if Body(rs, n - 1, sep).Ok? && RowText(rs.rows[n - 1], |rs.columns|).Err? {
        RowTextFails(rs.rows[n - 1], |rs.columns|);
      }
    }
  }

  /** A row that fails to render fails with the message of one of its cells. */
  lemma {:induction false} RowTextFails(cells: seq<StringRead>, n: nat)
    requires RowText(cells, n).Err?
    ensures exists j :: 0 <= j < n && CellAt(cells, j) == Err(RowText(cells, n).message)
  {
    if RowText(cells, n - 1).Err? {
      RowTextFails(cells, n - 1);
    } else {
      assert CellAt(cells, n - 1) == Err(RowText(cells, n).message);
    }
  }

  method PrintRows(log: Log, rs: ResultSet, sep: string) returns (r: Status)
    modifies log
    ensures Table(rs, sep).Ok? ==>
      r == Pass && log.lines == old(log.lines) + [Table(rs, sep).value, RowsAffected(|rs.rows|)]
    ensures Table(rs, sep).Err? ==>
      r == Fail(Table(rs, sep).message) && log.lines == old(log.lines)
  {
    var columnCount := |rs.columns|;
    var row := sep;
    var numRows := 0;
    var i := 0;
    while i < columnCount
      invariant 0 <= i <= columnCount
      invariant row == sep + Header(rs.columns, i)
      invariant log.lines == old(log.lines)
    {
      Associative(sep, Header(rs.columns, i), rs.columns[i].columnName + "\t");
      row := row + (rs.columns[i].columnName + "\t");
      i := i + 1;
    }
    ghost var head := row;
    ghost var body := "";
    // numRows also serves as the cursor that rs.next() advances
    while numRows < |rs.rows|
      invariant 0 <= numRows <= |rs.rows|
      invariant Body(rs, numRows, sep) == Ok(body) && row == head + body
      invariant log.lines == old(log.lines)
    {
      var cells := rs.rows[numRows];
      row := row + sep;
      ghost var rowStart := row;
      ghost var text := "";
      var j := 0;
      while j < columnCount
        invariant 0 <= j <= columnCount
        invariant RowText(cells, j) == Ok(text)
        invariant row == rowStart + text
        invariant log.lines == old(log.lines)
      {
        var cell := CellAt(cells, j);
        if cell.Err? {
          RowTextFailureSticks(cells, j + 1, columnCount);
          assert Body(rs, numRows + 1, sep) == Err(cell.message);
          BodyFailureSticks(rs, numRows + 1, |rs.rows|, sep);
          return Fail(cell.message);
        }
        Associative(rowStart, text, ValueOf(cell.value) + "\t");
        row := row + (ValueOf(cell.value) + "\t");
        text := text + (ValueOf(cell.value) + "\t");
        j := j + 1;
      }
      assert Body(rs, numRows + 1, sep) == Ok(body + sep + text);
      Associative(head, body, sep);
      Associative(head, body + sep, text);
      body := body + sep + text;
      numRows := numRows + 1;
    }
    log.Info(row);
    log.Info(RowsAffected(numRows));
    r := Pass;
  }


  // ---------------------------------------------------------------------
  // processResults
  // ---------------------------------------------------------------------

  /** The loop of processResults leaves at position k: the outcome there is
      not a result set and the update count is -1. */
  predicate Terminal(s: Script, k: nat) {
    !s.IsResultSetAt(k) && s.UpdateCountAt(k) == -1
  }

  /** The failure of printRows on the result set at position k, if any. */
  function StepFailure(s: Script, k: nat, sep: string): Option<string>
    requires k < |s.outcomes|
  {
    if s.IsResultSetAt(k) && Table(s.outcomes[k].rs, sep).Err? then Some(Table(s.outcomes[k].rs, sep).message)
    else None
  }

  /** The outcome at position k is reported in full and the loop goes on. */
  predicate Consumed(s: Script, k: nat, sep: string) {
    !Terminal(s, k) && StepFailure(s, k, sep).None?
  }

  /** The lines logged for the outcome at position k: its table and row count,
      or its update count. */
  function StepLines(s: Script, k: nat, sep: string): seq<string>
    requires k < |s.outcomes|
  {
    match s.outcomes[k]
    case ResultSetOutcome(rs, _) => if Table(rs, sep).Ok? then [Table(rs, sep).value, RowsAffected(|rs.rows|)] else []
    case UpdateCount(n, _) => [RowsAffected(n)]
  }

  // The loop of processResults entered at position k, with the warnings of
  // step k already reported and cleared, is described by four functions: the
  // position where it stops, the failure that stops it, the result sets it
  // closes and the lines it logs.

  function Stop(s: Script, k: nat, sep: string): nat
    requires k <= |s.outcomes|
    decreases |s.outcomes| - k
  {
    if Consumed(s, k, sep) then Stop(s, k + 1, sep) else k
  }

  function Failure(s: Script, k: nat, sep: string): Option<string>
    requires k <= |s.outcomes|
    decreases |s.outcomes| - k
  {
    if Consumed(s, k, sep) then Failure(s, k + 1, sep)
    else if Terminal(s, k) then None
    else StepFailure(s, k, sep)
  }

  function ClosedBy(s: Script, k: nat, sep: string): seq<nat>
    requires k <= |s.outcomes|
    decreases |s.outcomes| - k
  {
    if Consumed(s, k, sep) then (if s.IsResultSetAt(k) then [k] else []) + ClosedBy(s, k + 1, sep)
    else []
  }

  function Logged(s: Script, k: nat, sep: string): seq<string>
    requires k <= |s.outcomes|
    decreases |s.outcomes| - k
  {
    if Consumed(s, k, sep) then StepLines(s, k, sep) + WarningMessages(s.StepWarnings(k + 1), sep) + Logged(s, k + 1, sep)
    else []
  }

  /** One turn of the loop, for an outcome that neither ends the walk nor
      fails: what was logged and closed during the turn, followed by the rest
      of the walk, is the walk from the outcome's position. */
  lemma WalkAdvances(s: Script, k: nat, sep: string, before: seq<string>, after: seq<string>,
                     closedBefore: seq<nat>, closedAfter: seq<nat>, chain: seq<Warning>)
    requires k < |s.outcomes| && Consumed(s, k, sep)
    requires chain == s.StepWarnings(k + 1)
    requires after == before + StepLines(s, k, sep) + WarningMessages(chain, sep)
    requires closedAfter == closedBefore + (if s.IsResultSetAt(k) then [k] else [])
    ensures after + Logged(s, k + 1, sep) == before + Logged(s, k, sep)
    ensures closedAfter + ClosedBy(s, k + 1, sep) == closedBefore + ClosedBy(s, k, sep)
    ensures Stop(s, k + 1, sep) == Stop(s, k, sep)
    ensures Failure(s, k + 1, sep) == Failure(s, k, sep)
  {
    var lines, warned := StepLines(s, k, sep), WarningMessages(chain, sep);
    var newlyClosed := if s.IsResultSetAt(k) then [k] else [];
    assert Logged(s, k, sep) == lines + warned + Logged(s, k + 1, sep);
    assert ClosedBy(s, k, sep) == newlyClosed + ClosedBy(s, k + 1, sep);
    Associative(before, lines, warned);
    Associative(before, lines + warned, Logged(s, k + 1, sep));
    Associative(closedBefore, newlyClosed, ClosedBy(s, k + 1, sep));
  }

  /** A result set that prints is consumed, with its table and row count as its lines. */
  lemma ResultSetStep(s: Script, k: nat, sep: string)
    requires s.IsResultSetAt(k) && Table(s.outcomes[k].rs, sep).Ok?
    ensures Consumed(s, k, sep)
    ensures StepLines(s, k, sep) == [Table(s.outcomes[k].rs, sep).value, RowsAffected(|s.outcomes[k].rs.rows|)]
  {
  }

  /** An update count other than -1 is consumed, with one row-count line. */
  lemma UpdateCountStep(s: Script, k: nat, sep: string)
    requires k <= |s.outcomes| && !s.IsResultSetAt(k) && s.UpdateCountAt(k) != -1
    ensures k < |s.outcomes| && Consumed(s, k, sep)
    ensures StepLines(s, k, sep) == [RowsAffected(s.UpdateCountAt(k))]
  {
  }

  /** Where the loop leaves: nothing more is logged or closed. */
  lemma WalkEnds(s: Script, k: nat, sep: string)
    requires k <= |s.outcomes| && !Consumed(s, k, sep)
    ensures Logged(s, k, sep) == [] && ClosedBy(s, k, sep) == [] && Stop(s, k, sep) == k
    ensures Failure(s, k, sep) == if Terminal(s, k) then None else StepFailure(s, k, sep)
  {
  }

  lemma Associative<T>(a: seq<T>, b: seq<T>, c: seq<T>)
    ensures a + b + c == a + (b + c)
  {
  }

  /** One turn of the loop of processResults at the driver's current
      position: the outcome there is reported, and unless it ends the loop the
      driver moves on and the warnings raised by the move are reported and
      cleared. `more` says whether the loop goes on; when it does not, `r` is
      what processResults returns. */
  method ReportOutcome(stmt: Statement, log: Log, sep: string, isResultset: bool)
    returns (more: bool, r: Status, nextIsResultset: bool)
    requires stmt.position <= |stmt.script.outcomes| && stmt.warnings == []
    requires isResultset == stmt.script.IsResultSetAt(stmt.position)
    modifies stmt, log
    ensures stmt.executions == old(stmt.executions) && stmt.warnings == []
    ensures more == Consumed(stmt.script, old(stmt.position), sep)
    ensures more ==>
      var s, k := stmt.script, old(stmt.position);
      && k < |s.outcomes| && stmt.position == k + 1
      && log.lines == old(log.lines) + StepLines(s, k, sep) + WarningMessages(s.StepWarnings(k + 1), sep)
      && stmt.closed == old(stmt.closed) + (if s.IsResultSetAt(k) then [k] else [])
      && nextIsResultset == s.IsResultSetAt(k + 1)
    ensures !more ==>
      var s, k := stmt.script, old(stmt.position);
      && stmt.position == k && log.lines == old(log.lines) && stmt.closed == old(stmt.closed)
      && r == (if Terminal(s, k) then Pass else Fail(StepFailure(s, k, sep).value))
  {
    ghost var s, k := stmt.script, stmt.position;
    r := Pass;
    if isResultset {
      var rs := stmt.GetResultSet();
      var printed := PrintRows(log, rs, sep);
      if printed.Fail? {
        // rs.close() is not reached: the result set stays open
        return false, printed, isResultset;
      }
      ResultSetStep(s, k, sep);
      stmt.CloseResultSet();
    } else {
      var i := stmt.GetUpdateCount();
      if i == -1 {
        return false, Pass, isResultset;
      }
      UpdateCountStep(s, k, sep);
      log.Info(RowsAffected(i));
    }
    nextIsResultset := stmt.GetMoreResults();
    var chain := stmt.GetWarnings();
    PrintWarnings(log, chain, sep);
    stmt.ClearWarnings();
    assert chain == s.StepWarnings(k + 1);
    Associative(old(log.lines), StepLines(s, k, sep), WarningMessages(chain, sep));
    more := true;
  }

  /** processResults: executes the statement, then reports every outcome in
      driver order, reporting and clearing the warnings after each step. */
  method ProcessResults(stmt: Statement, sql: string, log: Log, sep: string) returns (r: Status)
    modifies stmt, log
    ensures stmt.executions == old(stmt.executions) + [if stmt.prepared then PreparedExecute else SqlExecute(sql)]
    ensures stmt.script.executeFailure.Some? ==>
      && r == Fail(stmt.script.executeFailure.value)
      && log.lines == old(log.lines)
      && stmt.position == old(stmt.position) && stmt.warnings == old(stmt.warnings)
      && stmt.closed == old(stmt.closed)
    ensures stmt.script.executeFailure.None? ==>
      var s := stmt.script;
      && log.lines == old(log.lines) + WarningMessages(s.StepWarnings(0), sep) + Logged(s, 0, sep)
      && stmt.closed == old(stmt.closed) + ClosedBy(s, 0, sep)
      && stmt.position == Stop(s, 0, sep)
      && stmt.warnings == []
      && r == (if Failure(s, 0, sep).Some? then Fail(Failure(s, 0, sep).value) else Pass)
  {
    var executed: Result<bool>;
    if stmt.prepared {
      executed := stmt.ExecutePrepared();
    } else {
      executed := stmt.ExecuteSql(sql);
    }
    if executed.Err? {
      return Fail(executed.message);
    }
    var isResultset := executed.value;

    var chain := stmt.GetWarnings();
    PrintWarnings(log, chain, sep);
    stmt.ClearWarnings();

    ghost var s := stmt.script;
    ghost var logged, closed, executions := log.lines, stmt.closed, stmt.executions;
    ghost var allLines, allClosed := Logged(s, 0, sep), ClosedBy(s, 0, sep);
    ghost var stop, failure := Stop(s, 0, sep), Failure(s, 0, sep);
    ghost var restLines, restClosed := allLines, allClosed;
    ghost var k: nat := 0;
    var more := true;
    r := Pass;
    while more
      invariant stmt.script == s && stmt.executions == executions
      invariant stmt.position == k && k <= |s.outcomes|
      invariant more ==> restLines == Logged(s, k, sep) && restClosed == ClosedBy(s, k, sep)
      invariant more ==> stop == Stop(s, k, sep) && failure == Failure(s, k, sep)
      invariant more ==> isResultset == s.IsResultSetAt(k)
      invariant !more ==> restLines == [] && restClosed == [] && stop == k
      invariant !more ==> r == (if failure.Some? then Fail(failure.value) else Pass)
      invariant stmt.warnings == []
      invariant log.lines + restLines == logged + allLines
      invariant stmt.closed + restClosed == closed + allClosed
      decreases |s.outcomes| - k, more
    {
      ghost var before, closedBefore := log.lines, stmt.closed;
      more, r, isResultset := ReportOutcome(stmt, log, sep, isResultset);
      if more {
        WalkAdvances(s, k, sep, before, log.lines, closedBefore, stmt.closed, s.StepWarnings(k + 1));
        k := k + 1;
        restLines, restClosed := Logged(s, k, sep), ClosedBy(s, k, sep);
      } else {
        WalkEnds(s, k, sep);
        restLines, restClosed := [], [];
      }
    }
  }

  /** The walk stops at or after where it starts, and never past the last outcome. */
  lemma {:induction false} StopBounds(s: Script, k: nat, sep: string)
    requires k <= |s.outcomes|
    ensures k <= Stop(s, k, sep) <= |s.outcomes|
    decreases |s.outcomes| - k
  {
    if Consumed(s, k, sep) {
      StopBounds(s, k + 1, sep);
    }
  }

  /** Every outcome between the start and the stop is reported in full
      without ending the loop: none is skipped. */
  lemma {:induction false} NoneSkipped(s: Script, k: nat, sep: string)
    requires k <= |s.outcomes|
    ensures forall j :: k <= j < Stop(s, k, sep) ==> Consumed(s, j, sep)
    decreases |s.outcomes| - k
  {
    if Consumed(s, k, sep) {
      NoneSkipped(s, k + 1, sep);
    }
  }

  /** Without a failure, the loop ends exactly where the outcome is not a
      result set and the update count is -1; a failure happens at a result
      set whose printing failed. */
  lemma {:induction false} StopReason(s: Script, k: nat, sep: string)
    requires k <= |s.outcomes|
    ensures Failure(s, k, sep).None? <==> Terminal(s, Stop(s, k, sep))
    ensures Failure(s, k, sep).Some? ==>
      && Stop(s, k, sep) < |s.outcomes| && s.IsResultSetAt(Stop(s, k, sep))
      && StepFailure(s, Stop(s, k, sep), sep) == Failure(s, k, sep)
    decreases |s.outcomes| - k
  {
    if Consumed(s, k, sep) {
      StopReason(s, k + 1, sep);
    }
  }

  /** The result sets closed by the walk: exactly those before the stop, each
      once and in driver order. The result set whose printing failed is not
      among them. */
  lemma {:induction false} ClosesResultSets(s: Script, k: nat, sep: string)
    requires k <= |s.outcomes|
    ensures forall j :: j in ClosedBy(s, k, sep) <==> k <= j < Stop(s, k, sep) && s.IsResultSetAt(j)
    ensures forall a, b :: 0 <= a < b < |ClosedBy(s, k, sep)| ==> ClosedBy(s, k, sep)[a] < ClosedBy(s, k, sep)[b]
    decreases |s.outcomes| - k
  {
    if Consumed(s, k, sep) {
      ClosesResultSets(s, k + 1, sep);
      StopBounds(s, k + 1, sep);
      ClosedPrefix(s, k, Stop(s, k + 1, sep), ClosedBy(s, k + 1, sep));
    }
  }

  lemma ClosedPrefix(s: Script, k: nat, last: nat, rest: seq<nat>)
    requires k < last
    requires forall j :: j in rest <==> k + 1 <= j < last && s.IsResultSetAt(j)
    requires forall a, b :: 0 <= a < b < |rest| ==> rest[a] < rest[b]
    ensures var closed := (if s.IsResultSetAt(k) then [k] else []) + rest;
      && (forall j :: j in closed <==> k <= j < last && s.IsResultSetAt(j))
      && (forall a, b :: 0 <= a < b < |closed| ==> closed[a] < closed[b])
  {
    var closed := (if s.IsResultSetAt(k) then [k] else []) + rest;
    forall a, b | 0 <= a < b < |closed|
      ensures closed[a] < closed[b]
    {
      if s.IsResultSetAt(k) && a == 0 {
        assert closed[b] in rest;
      }
    }
  }

  /** The "<n> row(s) affected" lines of a run of update counts. */
  /** What a run of update counts from position k logs: one "<n> row(s)
      affected" line per count, each followed by the warnings raised by the
      move past it. */
  function CountLines(s: Script, k: nat, sep: string): seq<string>
    requires k <= |s.outcomes|
    requires forall j :: k <= j < |s.outcomes| ==> s.outcomes[j].UpdateCount?
    decreases |s.outcomes| - k
  {
    if k == |s.outcomes| then []
    else [RowsAffected(s.outcomes[k].count)] + WarningMessages(s.StepWarnings(k + 1), sep) + CountLines(s, k + 1, sep)
  }

  /** A script of update counts only, none of them -1: the walk logs one
      "<n> row(s) affected" line per count, zero included, in driver order,
      each followed by the warnings of the next move. */
  lemma {:induction false} UpdateCountsLogged(s: Script, k: nat, sep: string)
    requires k <= |s.outcomes|
    requires forall j :: k <= j < |s.outcomes| ==> s.outcomes[j].UpdateCount? && s.outcomes[j].count != -1
    ensures Logged(s, k, sep) == CountLines(s, k, sep)
    decreases |s.outcomes| - k
  {
    if k < |s.outcomes| {
      UpdateCountsLogged(s, k + 1, sep);
      assert !s.IsResultSetAt(k) && StepFailure(s, k, sep) == None;
      assert StepLines(s, k, sep) == [RowsAffected(s.outcomes[k].count)];
    } else {
      assert Terminal(s, k);
      WalkEnds(s, k, sep);
    }
  }

  /** The same script closes nothing and runs to the end without failure. */
  lemma {:induction false} UpdateCountsRunToEnd(s: Script, k: nat, sep: string)
    requires k <= |s.outcomes|
    requires forall j :: k <= j < |s.outcomes| ==> s.outcomes[j].UpdateCount? && s.outcomes[j].count != -1
    ensures ClosedBy(s, k, sep) == [] && Stop(s, k, sep) == |s.outcomes| && Failure(s, k, sep) == None
    decreases |s.outcomes| - k
  {
    if k < |s.outcomes| {
      UpdateCountsRunToEnd(s, k + 1, sep);
      assert !s.IsResultSetAt(k) && StepFailure(s, k, sep) == None;
      assert Consumed(s, k, sep);
    } else {
      assert Terminal(s, k);
      WalkEnds(s, k, sep);
    }
  }

  /** One update count other than -1: its line, then the warnings raised by
      the move to the next outcome, then the rest of the walk; nothing is
      closed and the walk goes on. */
  lemma UpdateStep(s: Script, k: nat, sep: string)
    requires k < |s.outcomes| && s.outcomes[k].UpdateCount? && s.outcomes[k].count != -1
    ensures Logged(s, k, sep) ==
      [RowsAffected(s.outcomes[k].count)] + WarningMessages(s.StepWarnings(k + 1), sep) + Logged(s, k + 1, sep)
    ensures ClosedBy(s, k, sep) == ClosedBy(s, k + 1, sep)
    ensures Stop(s, k, sep) == Stop(s, k + 1, sep)
    ensures Failure(s, k, sep) == Failure(s, k + 1, sep)
  {
    assert !s.IsResultSetAt(k) && StepFailure(s, k, sep) == None;
    assert Consumed(s, k, sep);
    assert StepLines(s, k, sep) == [RowsAffected(s.outcomes[k].count)];
  }

  /** A query with columns a and b and one row ("1", "x"), as `select 1 as a, 'x' as b` returns. */
  lemma SelectExample(sep: string)
    ensures var rs := ResultSet([ColumnMeta("a", "a"), ColumnMeta("b", "b")], [[Ok(Some("1")), Ok(Some("x"))]]);
      var s := Script([ResultSetOutcome(rs, [])], [], None);
      && Logged(s, 0, sep) == [sep + "a\tb\t" + sep + "1\tx\t", "1 row(s) affected"]
      && ClosedBy(s, 0, sep) == [0] && Stop(s, 0, sep) == 1 && Failure(s, 0, sep) == None
  {
    var rs := ResultSet([ColumnMeta("a", "a"), ColumnMeta("b", "b")], [[Ok(Some("1")), Ok(Some("x"))]]);
    var s := Script([ResultSetOutcome(rs, [])], [], None);
    var cells: seq<StringRead> := [Ok(Some("1")), Ok(Some("x"))];
    assert rs.rows[0] == cells;
    assert RowText(cells, 0) == Ok("");
    assert CellAt(cells, 0) == Ok(Some("1"));
    assert "" + (ValueOf(Some("1")) + "\t") == "1\t";
    assert RowText(cells, 1) == Ok("1\t");
    assert "1\t" + (ValueOf(Some("x")) + "\t") == "1\tx\t";
    assert RowText(cells, 2) == Ok("1\tx\t");
    assert "" + sep + "1\tx\t" == sep + "1\tx\t";
    assert Body(rs, 1, sep) == Ok(sep + "1\tx\t");
    assert "" + ("a" + "\t") + ("b" + "\t") == "a\tb\t";
    assert Header(rs.columns, 2) == "a\tb\t";
    Associative(sep + "a\tb\t", sep, "1\tx\t");
    assert Table(rs, sep) == Ok(sep + "a\tb\t" + sep + "1\tx\t");
    assert IntToString(1) + " row(s) affected" == "1 row(s) affected";
    assert StepLines(s, 0, sep) == [sep + "a\tb\t" + sep + "1\tx\t", "1 row(s) affected"];
    assert Consumed(s, 0, sep) && !Consumed(s, 1, sep);
    assert WarningMessages(s.StepWarnings(1), sep) == [];
  }

  /** A query whose only cell cannot be read: nothing is logged, the walk
      stops there with the driver's message and the result set is not closed. */
  lemma FailedReadExample(sep: string)
    ensures var rs := ResultSet([ColumnMeta("a", "a")], [[Err("read failed")]]);
      var s := Script([ResultSetOutcome(rs, [])], [], None);
      && Logged(s, 0, sep) == [] && ClosedBy(s, 0, sep) == []
      && Stop(s, 0, sep) == 0 && Failure(s, 0, sep) == Some("read failed")
  {
    var rs := ResultSet([ColumnMeta("a", "a")], [[Err("read failed")]]);
    assert RowText(rs.rows[0], 1) == Err("read failed");
    assert Body(rs, 1, sep) == Err("read failed");
  }

  /** An update of zero rows followed by an informational notice from the server. */
  lemma NoticeExample(sep: string)
    ensures var s := Script([UpdateCount(0, [])], [Warning(0, None, Some("done"))], None);
      && Logged(s, 0, sep) == ["0 row(s) affected", sep + "SQLOUT: done"]
      && ClosedBy(s, 0, sep) == [] && Stop(s, 0, sep) == 1 && Failure(s, 0, sep) == None
  {
    var s := Script([UpdateCount(0, [])], [Warning(0, None, Some("done"))], None);
    assert IntToString(0) + " row(s) affected" == "0 row(s) affected";
    assert StepLines(s, 0, sep) == ["0 row(s) affected"];
    Associative(sep, SqlOutPrefix, "done");
    assert WarningMessage(Warning(0, None, Some("done")), sep) == sep + "SQLOUT: done";
    var warned := WarningMessages(s.StepWarnings(1), sep);
    assert warned == WarningMessages([], sep) + [WarningMessage(Warning(0, None, Some("done")), sep)];
    assert warned == [sep + "SQLOUT: done"];
    assert Consumed(s, 0, sep) && !Consumed(s, 1, sep);
  }
}
