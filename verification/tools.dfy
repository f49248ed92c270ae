/** The four database tools of the server, as pure functions from what the
    cursor fetched to the dict each tool returns (main.py:127-291). The database
    is an oracle: a fetch is handed in as the rows it yields or the text of the
    exception the driver raises, and a raised exception leaves the tool unchanged. */
module Tools {
  import opened Results
  import opened Values
  import Validator

  /** Why a tool call fails: the driver raised, or a subscript of a fetched row raised `KeyError`. */
  datatype Fault = DriverError(message: string) | MissingKey(key: string)

  const RejectionMessage := "Only SELECT, WITH, and SHOW queries are allowed"
  const Unknown := "Unknown"

  function NotFoundMessage(tableName: string): string {
    "Table '" + tableName + "' not found"
  }

  /** The dict's keys, in order, are exactly `ks`. */
  predicate HasKeys(v: Value, ks: seq<string>) {
    v.Object? && Keys(v.fields) == ks
  }

  /** The value stored under `key` in a dict result. */
  function Get(v: Value, key: string): Option<Value>
    requires v.Object?
  {
    Lookup(v.fields, key)
  }

  /** A dict holds a list under `listKey` and that list's length under `countKey`. */
  predicate CountMatches(v: Value, listKey: string, countKey: string) {
    && v.Object?
    && Get(v, listKey).Some? && Get(v, listKey).value.List?
    && Get(v, countKey) == Some(Int(|Get(v, listKey).value.items|))
  }

  /** `list_tables` (main.py:143-148): the catalog rows as fetched, and their number.
      An empty catalog is a success with no tables, never a not-found. */
  function ListTables(fetched: Result<seq<Row>, string>): (r: Result<Value, Fault>)
    ensures fetched.Failure? ==> r == Failure(DriverError(fetched.error))
    ensures fetched.Success? ==> r.Success? && HasKeys(r.value, ["tables", "count"])
    ensures fetched.Success? ==> Get(r.value, "tables") == Some(RowsValue(fetched.value))
    ensures fetched.Success? ==> CountMatches(r.value, "tables", "count")
  {
    match fetched
    case Failure(e) => Failure(DriverError(e))
    case Success(tables) =>
      Success(Object([Field("tables", RowsValue(tables)), Field("count", Int(|tables|))]))
  }

  /** The shape of a schema result for a table with no columns: an error text, the
      name, an empty column list, and no `column_count`. */
  predicate SchemaNotFound(v: Value, tableName: string) {
    && HasKeys(v, ["error", "table_name", "columns"])
    && Get(v, "error") == Some(Text(NotFoundMessage(tableName)))
    && Get(v, "table_name") == Some(Text(tableName))
    && Get(v, "columns") == Some(List([]))
  }

  /** `get_table_schema` (main.py:181-197): an empty column list means the table does
      not exist; otherwise the columns in the order fetched, and their number. */
  function GetTableSchema(tableName: string, fetched: Result<seq<Row>, string>): (r: Result<Value, Fault>)
    ensures fetched.Failure? ==> r == Failure(DriverError(fetched.error))
    ensures fetched.Success? ==> r.Success? && r.value.Object?
    ensures fetched.Success? ==> ("error" in Keys(r.value.fields) <==> fetched.value == [])
    ensures fetched == Success([]) ==> SchemaNotFound(r.value, tableName)
    ensures fetched.Success? && fetched.value != [] ==>
      && HasKeys(r.value, ["table_name", "columns", "column_count"])
      && Get(r.value, "table_name") == Some(Text(tableName))
      && Get(r.value, "columns") == Some(RowsValue(fetched.value))
      && CountMatches(r.value, "columns", "column_count")
  {
    match fetched
    case Failure(e) => Failure(DriverError(e))
    case Success(columns) =>
      if columns == [] then
        var fields := [
          Field("error", Text(NotFoundMessage(tableName))),
          Field("table_name", Text(tableName)),
          Field("columns", List([]))];
        assert Keys(fields) == ["error", "table_name", "columns"];
        Success(Object(fields))
      else
        var fields := [
          Field("table_name", Text(tableName)),
          Field("columns", RowsValue(columns)),
          Field("column_count", Int(|columns|))];
        assert Keys(fields) == ["table_name", "columns", "column_count"];
        Success(Object(fields))
  }

  /** A not-found result carries no column count. */
  lemma NotFoundHasNoColumnCount(tableName: string)
    ensures "column_count" !in Keys(GetTableSchema(tableName, Success([])).value.fields)
  {
  }

  /** What `execute_query` did: the statements it sent to the database, in order,
      and the dict it returned or the fault it raised. */
  datatype Execution = Execution(issued: seq<string>, outcome: Result<Value, Fault>)

  /** `list(rows[0].keys()) if rows else []`: the contract relates the names to
      `Keys`, the model of `dict.keys()`, and adds that no name repeats, which
      holds because a row is a dict. */
  function ColumnNames(rows: seq<Row>): (names: seq<Value>)
    ensures rows == [] ==> names == []
    ensures rows != [] ==> |names| == |Keys(rows[0])| && forall i :: 0 <= i < |names| ==> names[i] == Text(Keys(rows[0])[i])
    ensures forall i, j :: 0 <= i < j < |names| ==> names[i] != names[j]
  {
    if rows == [] then [] else seq(|rows[0]|, i requires 0 <= i < |rows[0]| => Text(rows[0][i].key))
  }

  /** The shape of a successful query result: the rows, their number, and the
      first row's column names (none when there are no rows). */
  predicate QueryResult(v: Value, rows: seq<Row>) {
    && HasKeys(v, ["rows", "row_count", "columns"])
    && Get(v, "rows") == Some(RowsValue(rows))
    && CountMatches(v, "rows", "row_count")
    && Get(v, "columns").Some? && Get(v, "columns").value.List?
    && var cols := Get(v, "columns").value.items;
      if rows == [] then cols == []
      else |cols| == |rows[0]| && forall i :: 0 <= i < |cols| ==> cols[i] == Text(rows[0][i].key)
  }

  /** The shape of a refused query: the fixed error text, no rows, a zero count. */
  predicate QueryRejected(v: Value) {
    && HasKeys(v, ["error", "rows", "row_count"])
    && Get(v, "error") == Some(Text(RejectionMessage))
    && Get(v, "rows") == Some(List([]))
    && Get(v, "row_count") == Some(Int(0))
  }

  /** The dict `execute_query` returns for the rows an accepted query fetched
      (main.py:232-236). */
  function QueryOutcome(rows: seq<Row>): (v: Value)
    ensures QueryResult(v, rows)
  {
    var v := Object([
      Field("rows", RowsValue(rows)),
      Field("row_count", Int(|rows|)),
      Field("columns", List(ColumnNames(rows)))]);
    assert Keys(v.fields) == ["rows", "row_count", "columns"];
    assert Get(v, "columns") == Some(List(ColumnNames(rows)));
    v
  }

  /** The dict `execute_query` returns for a refused query (main.py:221-225). */
  function Refusal(): (v: Value)
    ensures QueryRejected(v)
  {
    var v := Object([
      Field("error", Text(RejectionMessage)),
      Field("rows", List([])),
      Field("row_count", Int(0))]);
    assert Keys(v.fields) == ["error", "rows", "row_count"];
    v
  }

  /** `execute_query` (main.py:216-236) against the database `db`, which maps the text
      of a statement to the rows it yields or the driver's exception text. A refused
      query never reaches the database; an accepted one is sent as written, neither
      stripped nor upper-cased. */
  function ExecuteQuery(query: string, db: string -> Result<seq<Row>, string>): (e: Execution)
    ensures !Validator.IsReadOnly(query) ==> e.issued == [] && e.outcome.Success? && QueryRejected(e.outcome.value)
    ensures Validator.IsReadOnly(query) ==> e.issued == [query]
    ensures Validator.IsReadOnly(query) && db(query).Failure? ==> e.outcome == Failure(DriverError(db(query).error))
    ensures Validator.IsReadOnly(query) && db(query).Success? ==>
      e.outcome.Success? && QueryResult(e.outcome.value, db(query).value)
  {
    if !Validator.IsReadOnly(query) then
      Execution([], Success(Refusal()))
    else
      match db(query)
      case Failure(err) => Execution([query], Failure(DriverError(err)))
      case Success(rows) => Execution([query], Success(QueryOutcome(rows)))
  }

  /** A refused query's outcome does not depend on the database at all. */
  lemma RejectedIgnoresDatabase(query: string, db1: string -> Result<seq<Row>, string>, db2: string -> Result<seq<Row>, string>)
    requires !Validator.IsReadOnly(query)
    ensures ExecuteQuery(query, db1) == ExecuteQuery(query, db2)
  {
  }

  /** An accepted query's outcome depends on the database only through the answer to
      the query's own text: two databases that agree there give the same result. */
  lemma AcceptedDependsOnlyOnOwnText(query: string, db1: string -> Result<seq<Row>, string>, db2: string -> Result<seq<Row>, string>)
    requires db1(query) == db2(query)
    ensures ExecuteQuery(query, db1) == ExecuteQuery(query, db2)
  {
  }

  /** The column list is empty exactly when no row came back, as long as the first
      row has at least one column. */
  lemma ColumnsEmptyIffNoRows(rows: seq<Row>)
    requires rows != [] ==> rows[0] != []
    ensures var v := QueryOutcome(rows);
      Get(v, "columns") == Some(List([])) <==> Get(v, "rows") == Some(List([]))
  {
    var v := QueryOutcome(rows);
    if rows != [] {
      assert |Get(v, "columns").value.items| == |rows[0]| > 0;
      assert |Get(v, "rows").value.items| == |rows| > 0;
    }
  }

  /** A `SELECT` with an empty target list yields one row with no columns, and then
      `columns` is empty although `rows` is not. */
  lemma ZeroColumnRowGivesNoColumns()
    ensures var v := QueryOutcome([[]]);
      Get(v, "columns") == Some(List([])) && Get(v, "row_count") == Some(Int(1))
  {
  }

  /** `row[key] if row else fallback`: the fallback for a missing or empty row, the
      stored value when the key is present, `KeyError` otherwise. */
  function FieldOr(row: Option<Row>, key: string, fallback: Value): (r: Result<Value, Fault>)
    ensures !Truthy(row) ==> r == Success(fallback)
    ensures Truthy(row) && key in Keys(row.value) ==> r == Success(Lookup(row.value, key).value)
    ensures Truthy(row) && key !in Keys(row.value) ==> r == Failure(MissingKey(key))
  {
    if !Truthy(row) then Success(fallback)
    else match Lookup(row.value, key)
      case None => Failure(MissingKey(key))
      case Some(v) => Success(v)
  }

  /** A driver exception, raised through the tool unchanged. */
  function Raised<T>(fetched: Result<T, string>): Result<T, Fault> {
    match fetched
    case Success(v) => Success(v)
    case Failure(e) => Failure(DriverError(e))
  }

  /** The stats dict's fields, keys in the order the source writes them. */
  function StatsFields(tableName: string, rowCount: Value, totalSize: Value, tableSize: Value, indexesSize: Value): seq<Field> {
    [ Field("table_name", Text(tableName)),
      Field("row_count", rowCount),
      Field("total_size", totalSize),
      Field("table_size", tableSize),
      Field("indexes_size", indexesSize)]
  }

  /** Each of the five stats keys is found at its own field. */
  lemma StatsFieldFound(tableName: string, rowCount: Value, totalSize: Value, tableSize: Value, indexesSize: Value, i: int)
    requires 0 <= i < 5
    ensures var fields := StatsFields(tableName, rowCount, totalSize, tableSize, indexesSize);
      Lookup(fields, fields[i].key) == Some(fields[i].value)
  {
    var fields := StatsFields(tableName, rowCount, totalSize, tableSize, indexesSize);
    if i == 0 {
      LookupFinds(fields, 0);
    } else if i == 1 {
      LookupFinds(fields, 1);
    } else if i == 2 {
      LookupFinds(fields, 2);
    } else if i == 3 {
      LookupFinds(fields, 3);
    } else {
      LookupFinds(fields, 4);
    }
  }

  lemma StatsKeys(tableName: string, rowCount: Value, totalSize: Value, tableSize: Value, indexesSize: Value)
    ensures Keys(StatsFields(tableName, rowCount, totalSize, tableSize, indexesSize))
      == ["table_name", "row_count", "total_size", "table_size", "indexes_size"]
  {
  }

  /** The stats dict. */
  function StatsObject(tableName: string, rowCount: Value, totalSize: Value, tableSize: Value, indexesSize: Value): (v: Value)
    ensures HasKeys(v, ["table_name", "row_count", "total_size", "table_size", "indexes_size"])
    ensures Get(v, "table_name") == Some(Text(tableName))
    ensures Get(v, "row_count") == Some(rowCount)
    ensures Get(v, "total_size") == Some(totalSize)
    ensures Get(v, "table_size") == Some(tableSize)
    ensures Get(v, "indexes_size") == Some(indexesSize)
  {
    StatsFieldFound(tableName, rowCount, totalSize, tableSize, indexesSize, 0);
    StatsFieldFound(tableName, rowCount, totalSize, tableSize, indexesSize, 1);
    StatsFieldFound(tableName, rowCount, totalSize, tableSize, indexesSize, 2);
    StatsFieldFound(tableName, rowCount, totalSize, tableSize, indexesSize, 3);
    StatsFieldFound(tableName, rowCount, totalSize, tableSize, indexesSize, 4);
    StatsKeys(tableName, rowCount, totalSize, tableSize, indexesSize);
    Object(StatsFields(tableName, rowCount, totalSize, tableSize, indexesSize))
  }

  /** The size query's row has all three size columns (or is no row at all). */
  predicate SizesPresent(sizeRow: Option<Row>) {
    Truthy(sizeRow) ==>
      "total_size" in Keys(sizeRow.value) && "table_size" in Keys(sizeRow.value) && "indexes_size" in Keys(sizeRow.value)
  }

  /** The count query neither raised nor gave a row without a `count` column. */
  predicate CountReadable(countFetch: Result<Option<Row>, string>) {
    countFetch.Success? && (Truthy(countFetch.value) ==> "count" in Keys(countFetch.value.value))
  }

  /** `get_table_stats` (main.py:257-288): the row count from the count query (`0`
      when it yields no row) and the three sizes from the size query (`"Unknown"`
      when it yields no row). A fault in the count query stops the call before the
      size query runs. */
  function GetTableStats(tableName: string, countFetch: Result<Option<Row>, string>, sizeFetch: Result<Option<Row>, string>): (r: Result<Value, Fault>)
    ensures countFetch.Failure? ==> r == Failure(DriverError(countFetch.error))
    ensures countFetch.Success? && Truthy(countFetch.value) && "count" !in Keys(countFetch.value.value) ==>
      r == Failure(MissingKey("count"))
    ensures CountReadable(countFetch) && sizeFetch.Failure? ==> r == Failure(DriverError(sizeFetch.error))
    ensures CountReadable(countFetch) && sizeFetch.Success? && Truthy(sizeFetch.value) ==>
      var ks := Keys(sizeFetch.value.value);
      && ("total_size" !in ks ==> r == Failure(MissingKey("total_size")))
      && ("total_size" in ks && "table_size" !in ks ==> r == Failure(MissingKey("table_size")))
      && ("total_size" in ks && "table_size" in ks && "indexes_size" !in ks ==> r == Failure(MissingKey("indexes_size")))
    ensures r.Success? <==> CountReadable(countFetch) && sizeFetch.Success? && SizesPresent(sizeFetch.value)
    ensures r.Success? ==> HasKeys(r.value, ["table_name", "row_count", "total_size", "table_size", "indexes_size"])
    ensures r.Success? ==> Get(r.value, "table_name") == Some(Text(tableName))
    ensures r.Success? && !Truthy(countFetch.value) ==> Get(r.value, "row_count") == Some(Int(0))
    ensures r.Success? && Truthy(countFetch.value) ==> Get(r.value, "row_count") == Lookup(countFetch.value.value, "count")
    ensures r.Success? && !Truthy(sizeFetch.value) ==>
      && Get(r.value, "total_size") == Some(Text(Unknown))
      && Get(r.value, "table_size") == Some(Text(Unknown))
      && Get(r.value, "indexes_size") == Some(Text(Unknown))
    ensures r.Success? && Truthy(sizeFetch.value) ==>
      && Get(r.value, "total_size") == Lookup(sizeFetch.value.value, "total_size")
      && Get(r.value, "table_size") == Lookup(sizeFetch.value.value, "table_size")
      && Get(r.value, "indexes_size") == Lookup(sizeFetch.value.value, "indexes_size")
  {
    var countRow :- Raised(countFetch);
    var rowCount :- FieldOr(countRow, "count", Int(0));
    var sizeRow :- Raised(sizeFetch);
    var totalSize :- FieldOr(sizeRow, "total_size", Text(Unknown));
    var tableSize :- FieldOr(sizeRow, "table_size", Text(Unknown));
    var indexesSize :- FieldOr(sizeRow, "indexes_size", Text(Unknown));
    Success(StatsObject(tableName, rowCount, totalSize, tableSize, indexesSize))
  }

  /** With no row from either query, the count falls back to `0` and every size to `"Unknown"`. */
  lemma StatsFallBack(tableName: string)
    ensures var r := GetTableStats(tableName, Success(None), Success(None));
      && r.Success?
      && Get(r.value, "row_count") == Some(Int(0))
      && Get(r.value, "total_size") == Some(Text(Unknown))
      && Get(r.value, "table_size") == Some(Text(Unknown))
      && Get(r.value, "indexes_size") == Some(Text(Unknown))
  {
  }
}
