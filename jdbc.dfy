/** An abstract model of the JDBC driver that JdbcUtils talks to. The driver
    itself is foreign code: what it answers is given as data (the reads of one
    cell, the rows of a result set, the outcomes a statement produces), and the
    statement's mutable state (its current outcome, its warning chain, the
    result sets closed so far) lives in the Statement class. */
module Jdbc {
  import opened Wrappers
  import opened JavaText

  // Codes of java.sql.Types.
  const BIT: int := -7
  const TINYINT: int := -6
  const BIGINT: int := -5
  const CHAR: int := 1
  const NUMERIC: int := 2
  const DECIMAL: int := 3
  const INTEGER: int := 4
  const SMALLINT: int := 5
  const FLOAT: int := 6
  const REAL: int := 7
  const DOUBLE: int := 8
  const VARCHAR: int := 12
  const BOOLEAN: int := 16
  const DATE: int := 91
  const TIMESTAMP: int := 93
  const BLOB: int := 2004
  const CLOB: int := 2005

  /** A Java object read from a result set. Instants and days are opaque
      numbers: precision and calendar arithmetic are not modelled. */
  datatype Value =
    | Null                       // SQL NULL, read as a null reference
    | BlobHandle                 // a java.sql.Blob, valid only while the cursor stays on its row
    | ClobHandle                 // a java.sql.Clob, same restriction
    | Bytes(bytes: seq<bv8>)     // byte[]
    | Text(text: string)         // java.lang.String
    | Timestamp(instant: int)    // java.sql.Timestamp
    | SqlDate(day: int)          // java.sql.Date
    | Other(className: string)   // an object of none of the kinds above, known by its runtime class name

  /** What the driver answers, for one column of the current row, to each read
      getResultSetValue may make; a read that throws gives its message. */
  datatype CellReads = CellReads(
    getObject: Result<Value>,
    getString: Result<Option<string>>,
    getBytes: Result<Option<seq<bv8>>>,
    getTimestamp: Result<Option<int>>,
    getDate: Result<Option<int>>,
    columnClassName: Result<Option<string>>)   // getMetaData().getColumnClassName(index)

  /** A getString read: the text, null, or the driver's exception. */
  type StringRead = Result<Option<string>>

  const InvalidColumnIndex := "Invalid column index"
  const InvalidColumnLabel := "Invalid column name"

  /** getString(index) on a row, with a 0-based index. */
  function CellAt(cells: seq<StringRead>, j: nat): StringRead {
    if j < |cells| then cells[j] else Err(InvalidColumnIndex)
  }

  /** Metadata of one column: getColumnName and getColumnLabel. */
  datatype ColumnMeta = ColumnMeta(columnName: string, columnLabel: string)

  /** A result set positioned on a row: its metadata and the getString reads
      of the current row. */
  datatype Cursor = Cursor(columns: seq<ColumnMeta>, current: seq<StringRead>) {

    /** getString(columnLabel): JDBC matches labels ignoring case and takes the
        first matching column; a label no column has is an error. The search
        starts at column `from` (0 for the driver's own call). */
    function GetStringByLabel(name: string, from: nat): (r: StringRead)
      requires from <= |columns|
      ensures (forall j :: from <= j < |columns| ==> !EqualsIgnoreCase(name, columns[j].columnLabel))
              ==> r == Err(InvalidColumnLabel)
      ensures forall j :: from <= j < |columns| && EqualsIgnoreCase(name, columns[j].columnLabel)
                          && (forall i :: from <= i < j ==> !EqualsIgnoreCase(name, columns[i].columnLabel))
                          ==> r == CellAt(current, j)
      decreases |columns| - from
    {
      if from == |columns| then Err(InvalidColumnLabel)
      else if EqualsIgnoreCase(name, columns[from].columnLabel) then CellAt(current, from)
      else GetStringByLabel(name, from + 1)
    }
  }

  /** A whole result set: metadata and every row's getString reads. */
  datatype ResultSet = ResultSet(columns: seq<ColumnMeta>, rows: seq<seq<StringRead>>)

  /** One link of an SQLWarning chain. */
  datatype Warning = Warning(errorCode: int, sqlState: Option<string>, message: Option<string>)

  /** One outcome of an execution, with the warnings the driver adds to the
      statement when it moves to that outcome. */
  datatype Outcome =
    | ResultSetOutcome(rs: ResultSet, warnings: seq<Warning>)
    | UpdateCount(count: int, warnings: seq<Warning>)

  /** Everything the driver produces for one execution: the outcomes in order,
      the warnings added when it moves past the last one, and whether the
      execute call itself throws. Past the last outcome the driver reports no
      result set and an update count of -1. */
  datatype Script = Script(outcomes: seq<Outcome>, endWarnings: seq<Warning>, executeFailure: Option<string>) {

    /** The warnings added when the driver moves to position k. */
    function StepWarnings(k: nat): seq<Warning> {
      if k < |outcomes| then outcomes[k].warnings else endWarnings
    }

    /** What execute / getMoreResults return at position k. */
    predicate IsResultSetAt(k: nat) {
      k < |outcomes| && outcomes[k].ResultSetOutcome?
    }

    /** getUpdateCount at position k: -1 for a result set or past the end. */
    function UpdateCountAt(k: nat): int {
      if k < |outcomes| && outcomes[k].UpdateCount? then outcomes[k].count else -1
    }
  }

  /** Which execute call was made: PreparedStatement.execute() or Statement.execute(sql). */
  datatype Execution = PreparedExecute | SqlExecute(sql: string)

  /** A java.sql.Statement (or PreparedStatement) driven by a script. */
  class Statement {
    const prepared: bool
    const script: Script
    var executions: seq<Execution>
    var position: nat
    var warnings: seq<Warning>
    var closed: seq<nat>      // positions of the result sets closed so far, in order

    constructor (prepared: bool, script: Script)
      ensures this.prepared == prepared && this.script == script
      ensures executions == [] && position == 0 && warnings == [] && closed == []
    {
      this.prepared := prepared;
      this.script := script;
      executions, position, warnings, closed := [], 0, [], [];
    }

    /** The shared part of both execute calls. Executing clears the warning
        chain and moves to the first outcome. */
    method Run(e: Execution) returns (r: Result<bool>)
      modifies this
      ensures executions == old(executions) + [e] && closed == old(closed)
      ensures script.executeFailure.Some? ==>
        r == Err(script.executeFailure.value) && position == old(position) && warnings == old(warnings)
      ensures script.executeFailure.None? ==>
        r == Ok(script.IsResultSetAt(0)) && position == 0 && warnings == script.StepWarnings(0)
    {
      executions := executions + [e];
      if script.executeFailure.Some? {
        return Err(script.executeFailure.value);
      }
      position := 0;
      warnings := script.StepWarnings(0);
      r := Ok(script.IsResultSetAt(0));
    }

    /** PreparedStatement.execute(). */
    method ExecutePrepared() returns (r: Result<bool>)
      modifies this
      ensures executions == old(executions) + [PreparedExecute] && closed == old(closed)
      ensures script.executeFailure.Some? ==>
        r == Err(script.executeFailure.value) && position == old(position) && warnings == old(warnings)
      ensures script.executeFailure.None? ==>
        r == Ok(script.IsResultSetAt(0)) && position == 0 && warnings == script.StepWarnings(0)
    {
      r := Run(PreparedExecute);
    }

    /** Statement.execute(sql). */
    method ExecuteSql(sql: string) returns (r: Result<bool>)
      modifies this
      ensures executions == old(executions) + [SqlExecute(sql)] && closed == old(closed)
      ensures script.executeFailure.Some? ==>
        r == Err(script.executeFailure.value) && position == old(position) && warnings == old(warnings)
      ensures script.executeFailure.None? ==>
        r == Ok(script.IsResultSetAt(0)) && position == 0 && warnings == script.StepWarnings(0)
    {
      r := Run(SqlExecute(sql));
    }

    /** getResultSet, called when the current outcome is a result set. */
    method GetResultSet() returns (rs: ResultSet)
      requires script.IsResultSetAt(position)
      ensures rs == script.outcomes[position].rs
    {
      rs := script.outcomes[position].rs;
    }

    /** ResultSet.close on the result set of the current outcome. */
    method CloseResultSet()
      modifies this
      ensures closed == old(closed) + [position]
      ensures executions == old(executions) && position == old(position) && warnings == old(warnings)
    {
      closed := closed + [position];
    }

    method GetUpdateCount() returns (n: int)
      ensures n == script.UpdateCountAt(position)
    {
      n := script.UpdateCountAt(position);
    }

    /** getMoreResults: moves to the next outcome; the driver adds that step's
        warnings to the chain. */
    method GetMoreResults() returns (isResultSet: bool)
      requires position < |script.outcomes|
      modifies this
      ensures position == old(position) + 1
      ensures warnings == old(warnings) + script.StepWarnings(position)
      ensures isResultSet == script.IsResultSetAt(position)
      ensures executions == old(executions) && closed == old(closed)
    {
      position := position + 1;
      warnings := warnings + script.StepWarnings(position);
      isResultSet := script.IsResultSetAt(position);
    }

    method GetWarnings() returns (chain: seq<Warning>)
      ensures chain == warnings
    {
      chain := warnings;
    }

    method ClearWarnings()
      modifies this
      ensures warnings == []
      ensures executions == old(executions) && position == old(position) && closed == old(closed)
    {
      warnings := [];
    }
  }
}
