/**
 * dw_util.py: the Hive implementation of the data-warehouse interface.
 *
 * execute_sql is the only place the script talks to HiveServer2. Here it
 * appends the statement to a log, so create_table, update_table and
 * delete_table become planners whose whole effect is the statements they
 * log. What the server answers (the `show tables` listing, the rows of
 * `desc <table>` and the rows of a query) is fixed when the Hive object is
 * made; statements are logged, not applied to it. The one exception is the
 * listing delete_table reads right after its own drop, which no longer
 * holds the dropped table.
 */
module Warehouse {
  import opened Text
  import opened Json

  // ---------------------------------------------------------------------------
  // Statements
  // ---------------------------------------------------------------------------

  /** The statements the Hive class sends, by the format strings that build them. */
  datatype Statement =
    | ShowTables                                                // "show tables"
    | Describe(table: string)                                   // "desc %s"
    | Create(table: string, columns: seq<string>)               // "create table `%s` (%s) ROW FORMAT SERDE ..."
    | AddColumn(table: string, column: string, sqlType: string) // "alter table `%s` add columns (`%s` %s)"
    | ChangeColumn(table: string, column: string, sqlType: string) // "alter table `%s` change `%s` `%s` %s"
    | DropTable(table: string)                                  // "drop table if exists `%s`"
    | LoadData(path: string, table: string)                     // "load data inpath '%s*' into table `%s`"
    | Fetch(text: string)                                       // a query, passed through as it is

  /** One execute_sql call: a connection to the database (None: Hive's default) running one statement. */
  datatype Executed = Executed(database: Option<string>, statement: Statement)

  /** The HiveQL text of a statement. */
  function Sql(s: Statement): string
  {
    match s
    case ShowTables => "show tables"
    case Describe(t) => "desc " + t
    case Create(t, cols) =>
      "create table `" + t + "` (" + Join(cols, ',') + ") ROW FORMAT SERDE 'com.cloudera.hive.serde.JSONSerDe' "
    case AddColumn(t, c, ty) => "alter table `" + t + "` add columns (`" + c + "` " + ty + ")"
    case ChangeColumn(t, c, ty) => "alter table `" + t + "` change `" + c + "` `" + c + "` " + ty
    case DropTable(t) => "drop table if exists `" + t + "`"
    case LoadData(p, t) => "load data inpath '" + p + "*' into table `" + t + "`"
    case Fetch(q) => q
  }

  /** The statements of a sequence, each on its own connection to db. */
  function OnDatabase(db: Option<string>, stmts: seq<Statement>): (r: seq<Executed>)
    ensures |r| == |stmts|
    ensures forall i :: 0 <= i < |stmts| ==> r[i] == Executed(db, stmts[i])
  {
    seq(|stmts|, i requires 0 <= i < |stmts| => Executed(db, stmts[i]))
  }

  // ---------------------------------------------------------------------------
  // Schema fields and their columns
  // ---------------------------------------------------------------------------

  /**
   * A schema field as the loader hands it over: a record of the schema
   * collection, whose "type" entry is "field", or the hash_code field the
   * loader appends, which has no "type" entry (recordType None).
   */
  datatype SchemaField = SchemaField(key: string, dataType: string, mode: string, recordType: Option<string>)

  /** The column type of a schema field: a Hive type, no column, or an exception. */
  datatype ColumnType = Typed(sqlType: string) | Untyped | Raises(message: string)

  /**
   * The type chain of create_table and update_table. timestamp and boolean
   * take the record's "type" entry; `in ('record')` is a substring test on
   * "record", since ('record') is a string and not a tuple.
   */
  function TypeOf(f: SchemaField): ColumnType
  {
    if f.dataType == "string" then Typed("string")
    else if f.dataType == "timestamp" || f.dataType == "boolean" then
      (if f.recordType.Some? then Typed(f.recordType.value) else Raises("KeyError: 'type'"))
    else if f.dataType == "float" then Typed("double")
    else if f.dataType == "integer" then Typed("int")
    else if Contains("record", f.dataType) then Untyped
    else Raises("Unsupported data type " + f.dataType + " for column " + f.key)
  }

  /** Where a field's column goes: table, column name and type; or no column; or an exception. */
  datatype Placement = Place(table: string, column: string, sqlType: string) | Skip | Raise(message: string)

  const ChildTableMode := "child_table"

  /** table + "_" + re.sub("[^0-9a-zA-Z_]", '_', key).lower() */
  function ChildTableName(table: string, key: string): string
  {
    table + "_" + Sanitise(key)
  }

  /**
   * The placement rules of create_table. update_table repeats them without
   * a process_array parameter, which is this function in child_table mode.
   */
  function PlaceField(table: string, f: SchemaField, processArray: string): Placement
  {
    match TypeOf(f)
    case Raises(m) => Raise(m)
    case Untyped => Skip
    case Typed(t) =>
      if f.mode == "repeated" then
        (if processArray == ChildTableMode then Place(ChildTableName(table, f.key), "value", t) else Skip)
      else if '.' in f.key then
        if processArray == ChildTableMode then
          var parts := RSplitOnce(f.key, '.');
          Place(ChildTableName(table, parts[0]), parts[1], t)
        else
          Place(table, SplitOnce(f.key, '.')[0], "string")
      else
        Place(table, f.key, t)
  }

  /** "`%s` %s" */
  function ColumnDef(column: string, sqlType: string): string
  {
    "`" + column + "` " + sqlType
  }

  const ParentHashColumn := "parent_hash_code string"
  const HashColumn := "hash_code string"

  // ---------------------------------------------------------------------------
  // Tables under construction: table_columns and new_table_columns
  // ---------------------------------------------------------------------------

  /**
   * A dict from table name to its column definitions, in insertion order
   * (Python 2 dicts and sets iterate in an unspecified order; the model
   * takes first insertion).
   */
  datatype Tables = Tables(order: seq<string>, columns: map<string, seq<string>>)

  predicate Distinct<T(==)>(s: seq<T>)
  {
    forall i, j :: 0 <= i < j < |s| ==> s[i] != s[j]
  }

  /** The order lists each table of the dict once, and nothing else. */
  ghost predicate TablesValid(ts: Tables)
  {
    Distinct(ts.order) && (forall t :: t in ts.columns <==> t in ts.order)
  }

  /** set.add */
  function AddUnique(cols: seq<string>, c: string): seq<string>
  {
    if c in cols then cols else cols + [c]
  }

  /** One pass of create_table's column loop (lines 164-170): a set of columns per table. */
  function AddToSet(ts: Tables, main: string, table: string, column: string): Tables
  {
    if table in ts.columns then
      Tables(ts.order, ts.columns[table := AddUnique(ts.columns[table], column)])
    else
      var start := if table != main then [ParentHashColumn, HashColumn] else [];
      Tables(ts.order + [table], ts.columns[table := AddUnique(start, column)])
  }

  /** One new-table column of update_table (lines 247-251): a list per table, hash columns first. */
  function AppendTo(ts: Tables, table: string, column: string): Tables
  {
    if table in ts.columns then
      Tables(ts.order, ts.columns[table := ts.columns[table] + [column]])
    else
      Tables(ts.order + [table], ts.columns[table := [ParentHashColumn, HashColumn] + [column]])
  }

  /** One create statement per table, in the dict's order. */
  function Creates(ts: Tables): (r: seq<Statement>)
    requires TablesValid(ts)
    ensures |r| == |ts.order|
  {
    seq(|ts.order|, i requires 0 <= i < |ts.order| && TablesValid(ts) =>
      Create(ts.order[i], ts.columns[ts.order[i]]))
  }

  // ---------------------------------------------------------------------------
  // create_table
  // ---------------------------------------------------------------------------

  /** The placement of every schema field, in order. */
  function Placements(main: string, fields: seq<SchemaField>, processArray: string): (r: seq<Placement>)
    ensures |r| == |fields|
  {
    seq(|fields|, i requires 0 <= i < |fields| => PlaceField(main, fields[i], processArray))
  }

  /** table_columns after the first n placed fields, or the exception one of them raised. */
  function CreatePlan(main: string, places: seq<Placement>, n: nat): Result<Tables>
    requires n <= |places|
  {
    if n == 0 then Ok(Tables([], map[]))
    else
      match CreatePlan(main, places, n - 1)
      case Err(e) => Err(e)
      case Ok(ts) =>
        match places[n - 1]
        case Raise(m) => Err(m)
        case Skip => Ok(ts)
        case Place(t, c, ty) => Ok(AddToSet(ts, main, t, ColumnDef(c, ty)))
  }

  // ---------------------------------------------------------------------------
  // get_table_schema and the current columns of update_table
  // ---------------------------------------------------------------------------

  /** A field of get_table_schema: key, the 'type' entry when one of the tests matched, and mode. */
  datatype DescField = DescField(key: string, recordType: Option<string>, mode: string)

  /** The substring tests of get_table_schema on the type column of a `desc` row, in order. */
  const TypeTests: seq<(string, string)> :=
    [("string", "STRING"), ("float", "FLOAT"), ("double", "FLOAT"), ("int", "INTEGER"),
     ("bigint", "INTEGER"), ("timestamp", "TIMESTAMP"), ("boolean", "BOOLEAN")]

  /** The type of the first test whose substring occurs in the Hive type; None if none does. */
  function ClassifyBy(hiveType: string, tests: seq<(string, string)>): Option<string>
  {
    if tests == [] then None
    else if Contains(hiveType, tests[0].0) then Some(tests[0].1)
    else ClassifyBy(hiveType, tests[1..])
  }

  function Classify(hiveType: string): Option<string>
  {
    ClassifyBy(hiveType, TypeTests)
  }

  /** get_table_schema's field for one `desc` row (column name, type). */
  function DescFieldOf(row: (string, string)): DescField
  {
    DescField(row.0, Classify(row.1), "NULLABLE")
  }

  function TableSchema(rows: seq<(string, string)>): (r: seq<DescField>)
    ensures |r| == |rows|
  {
    seq(|rows|, i requires 0 <= i < |rows| => DescFieldOf(rows[i]))
  }

  /**
   * current_columns as written (lines 186-187): it reads field['data_type'],
   * which get_table_schema never sets, so the first field raises.
   */
  function ColumnsAsWritten(schema: seq<DescField>): Result<map<string, string>>
  {
    if schema == [] then Ok(map[]) else Err("KeyError: 'data_type'")
  }

  /**
   * current_columns as evidently intended: key -> the 'type' entry, which
   * raises for a field whose type matched none of the tests.
   */
  function Columns(schema: seq<DescField>, n: nat): Result<map<string, string>>
    requires n <= |schema|
  {
    if n == 0 then Ok(map[])
    else
      match Columns(schema, n - 1)
      case Err(e) => Err(e)
      case Ok(m) =>
        var f := schema[n - 1];
        if f.recordType.None? then Err("KeyError: 'type'") else Ok(m[f.key := f.recordType.value])
  }

  /** The columns of one table, from the rows of `desc`. */
  function TableColumns(rows: seq<(string, string)>): Result<map<string, string>>
  {
    var schema := TableSchema(rows);
    Columns(schema, |schema|)
  }

  /** current_table_columns after the first n listed tables (lines 183-188). */
  function Current(listed: seq<string>, describe: string -> seq<(string, string)>, n: nat)
    : Result<map<string, map<string, string>>>
    requires n <= |listed|
  {
    if n == 0 then Ok(map[])
    else
      match Current(listed, describe, n - 1)
      case Err(e) => Err(e)
      case Ok(m) =>
        match TableColumns(describe(listed[n - 1]))
        case Err(e) => Err(e)
        case Ok(cols) => Ok(m[listed[n - 1] := cols])
  }

  /** The `desc` statements issued while building current_table_columns, up to a failure. */
  function DescribeLog(listed: seq<string>, describe: string -> seq<(string, string)>, n: nat): seq<Statement>
    requires n <= |listed|
  {
    if n == 0 then []
    else if Current(listed, describe, n - 1).Err? then DescribeLog(listed, describe, n - 1)
    else DescribeLog(listed, describe, n - 1) + [Describe(listed[n - 1])]
  }

  /** The loop rebinds table_name (line 183): afterwards it names the last listed table. */
  function ShadowedName(table: string, listed: seq<string>): string
  {
    if listed == [] then table else listed[|listed| - 1]
  }

  // ---------------------------------------------------------------------------
  // update_table's diff
  // ---------------------------------------------------------------------------

  /**
   * modify_instructions (flattened to (table, column) keys in first-insertion
   * order), alter_sqls and new_table_columns.
   */
  datatype Diff = Diff(changed: seq<(string, string)>, changes: map<(string, string), string>,
                       adds: seq<Statement>, created: Tables)

  ghost predicate DiffValid(d: Diff)
  {
    Distinct(d.changed) && (forall k :: k in d.changes <==> k in d.changed) && TablesValid(d.created)
  }

  /** Types are compared case-insensitively. */
  predicate SameType(a: string, b: string)
  {
    Lower(a) == Lower(b)
  }

  /** One schema field of update_table (lines 229-251), placed at (t, c) with Hive type ty. */
  function DiffStep(current: map<string, map<string, string>>, d: Diff, dataType: string,
                    t: string, c: string, ty: string): Diff
  {
    if t in current then
      var cols := current[t];
      if c in cols then
        if !SameType(dataType, cols[c]) then
          Diff(if (t, c) in d.changes then d.changed else d.changed + [(t, c)],
               d.changes[(t, c) := ty], d.adds, d.created)
        else d
      else Diff(d.changed, d.changes, d.adds + [AddColumn(t, c, ty)], d.created)
    else Diff(d.changed, d.changes, d.adds, AppendTo(d.created, t, ColumnDef(c, ty)))
  }

  /** The data type of every schema field, in order. */
  function DataTypes(fields: seq<SchemaField>): (r: seq<string>)
    ensures |r| == |fields|
  {
    seq(|fields|, i requires 0 <= i < |fields| => fields[i].dataType)
  }

  /** The diff after the first n placed fields (with their data types), or the exception one of them raised. */
  function UpdatePlan(current: map<string, map<string, string>>, places: seq<Placement>, types: seq<string>,
                      n: nat): Result<Diff>
    requires n <= |places| == |types|
  {
    if n == 0 then Ok(Diff([], map[], [], Tables([], map[])))
    else
      match UpdatePlan(current, places, types, n - 1)
      case Err(e) => Err(e)
      case Ok(d) =>
        match places[n - 1]
        case Raise(m) => Err(m)
        case Skip => Ok(d)
        case Place(t, c, ty) => Ok(DiffStep(current, d, types[n - 1], t, c, ty))
  }

  /** modify_sqls, in the order of the flattened instructions. */
  function Changes(d: Diff): (r: seq<Statement>)
    requires DiffValid(d)
    ensures |r| == |d.changed|
  {
    seq(|d.changed|, i requires 0 <= i < |d.changed| && DiffValid(d) =>
      ChangeColumn(d.changed[i].0, d.changed[i].1, d.changes[d.changed[i]]))
  }

  /** Everything update_table runs after its reads: changes, then adds, then creates. */
  function DiffStatements(d: Diff): seq<Statement>
    requires DiffValid(d)
  {
    Changes(d) + d.adds + Creates(d.created)
  }

  // ---------------------------------------------------------------------------
  // list_tables and query
  // ---------------------------------------------------------------------------

  /** list_tables: the listed names that start with the prefix, in listing order. */
  function WithPrefix(names: seq<string>, prefix: string): seq<string>
  {
    if names == [] then []
    else
      var rest := WithPrefix(names[..|names| - 1], prefix);
      if StartsWith(names[|names| - 1], prefix) then rest + [names[|names| - 1]] else rest
  }

  /** {"f": [{"v": cell}, ...]} */
  function RowJson(row: seq<Json>): Json
  {
    JObject([("f", JArray(seq(|row|, j requires 0 <= j < |row| => JObject([("v", row[j])]))))])
  }

  /** query's output: {"rows": [{"f": [{"v": cell}, ...]}, ...]} */
  function QueryOutput(rows: seq<seq<Json>>): Json
  {
    JObject([("rows", JArray(seq(|rows|, i requires 0 <= i < |rows| => RowJson(rows[i]))))])
  }

  /** The list under a key of a dict, [] when absent or not a list. */
  function ListAt(v: Json, key: string): seq<Json>
  {
    if v.JObject? then
      match Get(v.fields, key)
      case Some(JArray(items)) => items
      case _ => []
    else []
  }

  /** What a consumer reads back from query's output: the "v" of each cell of each row. */
  function Cells(out: Json): seq<seq<Json>>
  {
    var rows := ListAt(out, "rows");
    seq(|rows|, i requires 0 <= i < |rows| =>
      var cells := ListAt(rows[i], "f");
      seq(|cells|, j requires 0 <= j < |cells| =>
        if cells[j].JObject? then (match Get(cells[j].fields, "v") case Some(x) => x case None => JNull)
        else JNull))
  }

  // ---------------------------------------------------------------------------
  // Properties of create_table's plan
  // ---------------------------------------------------------------------------

  /**
   * What create_table's table_columns always satisfies: each table once in
   * the order, each column once in its table (a set), and every table other
   * than the main one starting with the two hash columns.
   */
  ghost predicate CreatedShape(main: string, ts: Tables)
  {
    TablesValid(ts) &&
    forall t :: t in ts.columns ==>
      Distinct(ts.columns[t]) &&
      (t != main ==> |ts.columns[t]| >= 2 && ts.columns[t][0] == ParentHashColumn && ts.columns[t][1] == HashColumn)
  }

  lemma AddUniqueKeeps(cols: seq<string>, c: string)
    requires Distinct(cols)
    ensures Distinct(AddUnique(cols, c))
    ensures AddUnique(cols, c)[..|cols|] == cols
    ensures c in AddUnique(cols, c)
    ensures forall x :: x in AddUnique(cols, c) <==> x in cols || x == c
  {
  }

  lemma AddToSetShape(ts: Tables, main: string, table: string, column: string)
    requires CreatedShape(main, ts)
    requires column != ParentHashColumn && column != HashColumn
    ensures CreatedShape(main, AddToSet(ts, main, table, column))
  {
    var r := AddToSet(ts, main, table, column);
    if table in ts.columns {
      AddUniqueKeeps(ts.columns[table], column);
    } else {
      var start := if table != main then [ParentHashColumn, HashColumn] else [];
      AddUniqueKeeps(start, column);
      assert table !in ts.order;
    }
  }

  lemma ColumnDefIsNoHashColumn(c: string, ty: string)
    ensures ColumnDef(c, ty) != ParentHashColumn && ColumnDef(c, ty) != HashColumn
  {
    assert ColumnDef(c, ty)[0] == '`';
  }

  /** create_table's dict keeps its shape through every field. */
  lemma {:induction false} CreatePlanShape(main: string, places: seq<Placement>, n: nat)
    requires n <= |places|
    ensures CreatePlan(main, places, n).Ok? ==> CreatedShape(main, CreatePlan(main, places, n).value)
  {
    if n > 0 {
      CreatePlanShape(main, places, n - 1);
      var p := places[n - 1];
      if CreatePlan(main, places, n - 1).Ok? && p.Place? {
        ColumnDefIsNoHashColumn(p.column, p.sqlType);
        AddToSetShape(CreatePlan(main, places, n - 1).value, main, p.table, ColumnDef(p.column, p.sqlType));
      }
    }
  }

  /** create_table raises exactly when one of the fields has an unsupported type (or lacks 'type'). */
  lemma {:induction false} CreatePlanRaises(main: string, places: seq<Placement>, n: nat)
    requires n <= |places|
    ensures CreatePlan(main, places, n).Err? <==>
            exists i :: 0 <= i < n && places[i].Raise?
  {
    if n > 0 {
      CreatePlanRaises(main, places, n - 1);
    }
  }

  /** Adding a column to table_columns keeps every column already there and adds the new one. */
  lemma AddToSetGrows(ts: Tables, main: string, table: string, column: string)
    ensures var r := AddToSet(ts, main, table, column);
            table in r.columns && column in r.columns[table] &&
            forall t, x :: t in ts.columns && x in ts.columns[t] ==> t in r.columns && x in r.columns[t]
  {
  }

  /** Every field that has a column is in its table, under its own definition. */
  lemma {:induction false} CreatePlanHasColumns(main: string, places: seq<Placement>, n: nat)
    requires n <= |places|
    requires CreatePlan(main, places, n).Ok?
    ensures var ts := CreatePlan(main, places, n).value;
            forall i :: 0 <= i < n && places[i].Place? ==>
              var p := places[i];
              p.table in ts.columns && ColumnDef(p.column, p.sqlType) in ts.columns[p.table]
  {
    if n > 0 {
      CreatePlanHasColumns(main, places, n - 1);
      var ts0 := CreatePlan(main, places, n - 1).value;
      var p := places[n - 1];
      if p.Place? {
        AddToSetGrows(ts0, main, p.table, ColumnDef(p.column, p.sqlType));
      }
    }
  }

  /** Some field among the first n is placed in table t with column definition col. */
  ghost predicate FromField(places: seq<Placement>, n: nat, t: string, col: string)
    requires n <= |places|
  {
    exists i :: 0 <= i < n && places[i].Place? &&
      places[i].table == t &&
      ColumnDef(places[i].column, places[i].sqlType) == col
  }

  /** Conversely, a column of a table is a hash column of a child table or comes from a field. */
  lemma {:induction false} CreatePlanColumnsFromFields(main: string, places: seq<Placement>, n: nat)
    requires n <= |places|
    requires CreatePlan(main, places, n).Ok?
    ensures var ts := CreatePlan(main, places, n).value;
            forall t, col :: t in ts.columns && col in ts.columns[t] ==>
              (t != main && (col == ParentHashColumn || col == HashColumn)) ||
              FromField(places, n, t, col)
  {
    if n > 0 {
      CreatePlanColumnsFromFields(main, places, n - 1);
      var ts0 := CreatePlan(main, places, n - 1).value;
      forall t, col | t in ts0.columns && FromField(places, n - 1, t, col)
        ensures FromField(places, n, t, col)
      {
        var i :| 0 <= i < n - 1 && places[i].Place? &&
          places[i].table == t &&
          ColumnDef(places[i].column, places[i].sqlType) == col;
      }
      var p := places[n - 1];
      if p.Place? {
        assert FromField(places, n, p.table, ColumnDef(p.column, p.sqlType));
      }
    }
  }

  // ---------------------------------------------------------------------------
  // Properties of the placement rules
  // ---------------------------------------------------------------------------

  /** A column goes to the main table or, in child_table mode only, to a table named main + "_" + [0-9a-z_]*. */
  lemma PlacedTableNames(main: string, f: SchemaField, processArray: string)
    requires PlaceField(main, f, processArray).Place?
    ensures var t := PlaceField(main, f, processArray).table;
            t == main ||
            (processArray == ChildTableMode && StartsWith(t, main + "_") &&
             forall i :: |main| + 1 <= i < |t| ==> IsLowerWordChar(t[i]))
  {
  }

  /**
   * In child_table mode a dotted key is split at its last dot: the column is
   * the dot-free last segment and the table is named from the rest, so the
   * key is the prefix, a dot and the column.
   */
  lemma DottedKeyInChildTable(main: string, f: SchemaField)
    requires TypeOf(f).Typed? && f.mode != "repeated" && '.' in f.key
    ensures var p := PlaceField(main, f, ChildTableMode);
            p.Place? && '.' !in p.column && p.sqlType == TypeOf(f).sqlType &&
            exists prefix :: f.key == prefix + "." + p.column && p.table == ChildTableName(main, prefix)
  {
    var parts := RSplitOnce(f.key, '.');
    assert f.key == parts[0] + "." + parts[1];
  }

  /** In any other mode a dotted key becomes a string column of the main table named by its first segment. */
  lemma DottedKeyInline(main: string, f: SchemaField, processArray: string)
    requires TypeOf(f).Typed? && f.mode != "repeated" && '.' in f.key && processArray != ChildTableMode
    ensures var p := PlaceField(main, f, processArray);
            p.Place? && p.table == main && p.sqlType == "string" && '.' !in p.column &&
            exists rest :: f.key == p.column + "." + rest
  {
    var parts := SplitOnce(f.key, '.');
    assert f.key == parts[0] + "." + parts[1];
  }

  /** A repeated field is a `value` column of its own child table, or nothing outside child_table mode. */
  lemma RepeatedField(main: string, f: SchemaField, processArray: string)
    requires TypeOf(f).Typed? && f.mode == "repeated"
    ensures processArray == ChildTableMode ==>
              PlaceField(main, f, processArray) == Place(main + "_" + Sanitise(f.key), "value", TypeOf(f).sqlType)
    ensures processArray != ChildTableMode ==> PlaceField(main, f, processArray) == Skip
  {
  }

  /**
   * get_table_schema's classification is a first match: no type when no test's
   * substring occurs, otherwise the type of the earliest test that occurs.
   */
  lemma {:induction false} ClassifyFirstMatch(hiveType: string, tests: seq<(string, string)>)
    ensures ClassifyBy(hiveType, tests).None? <==> forall i :: 0 <= i < |tests| ==> !Contains(hiveType, tests[i].0)
    ensures ClassifyBy(hiveType, tests).Some? ==>
      exists i :: 0 <= i < |tests| && Contains(hiveType, tests[i].0) && ClassifyBy(hiveType, tests).value == tests[i].1 &&
        forall j :: 0 <= j < i ==> !Contains(hiveType, tests[j].0)
    decreases |tests|
  {
    if tests != [] && !Contains(hiveType, tests[0].0) {
      var rest := tests[1..];
      ClassifyFirstMatch(hiveType, rest);
      assert forall i :: 1 <= i < |tests| ==> tests[i] == rest[i - 1];
      if ClassifyBy(hiveType, rest).Some? {
        var k :| 0 <= k < |rest| && Contains(hiveType, rest[k].0) && ClassifyBy(hiveType, rest).value == rest[k].1 &&
          forall j :: 0 <= j < k ==> !Contains(hiveType, rest[j].0);
        assert Contains(hiveType, tests[k + 1].0) && forall j :: 0 <= j < k + 1 ==> !Contains(hiveType, tests[j].0);
      }
    }
  }

  /**
   * The column types of the three scalar types the schema can hold are read
   * back by get_table_schema as the same type, up to case.
   */
  lemma TypeReadsBack(f: SchemaField)
    requires f.dataType == "string" || f.dataType == "float" || f.dataType == "integer"
    ensures TypeOf(f).Typed?
    ensures var back := Classify(TypeOf(f).sqlType); back.Some? && SameType(f.dataType, back.value)
  {
    assert OccursAt("string", "string", 0);
    assert OccursAt("double", "double", 0);
    assert OccursAt("int", "int", 0);
    assert !Contains("double", "string") by { assert "double"[0..6] != "string"; }
    assert !Contains("double", "float") by {
      assert "double"[0..5] != "float";
      assert "double"[1..6] != "float";
    }
    assert ClassifyBy("double", TypeTests[2..]) == Some("FLOAT");
    assert ClassifyBy("int", TypeTests[3..]) == Some("INTEGER");
    assert Lower("STRING") == "string";
    assert Lower("FLOAT") == "float";
    assert Lower("INTEGER") == "integer";
  }

  /** A boolean record of the schema collection (whose "type" is "field") gets the Hive type "field". */
  lemma BooleanTakesRecordType(main: string, key: string, mode: string)
    requires mode != "repeated" && '.' !in key
    ensures PlaceField(main, SchemaField(key, "boolean", mode, Some("field")), ChildTableMode) == Place(main, key, "field")
  {
  }

  // ---------------------------------------------------------------------------
  // Properties of the current columns
  // ---------------------------------------------------------------------------

  /**
   * As written, reading the columns of a table that has any column raises;
   * reading the 'type' entry instead gives the classified type of each.
   */
  lemma ExistingColumnRaises(row: (string, string))
    requires Classify(row.1).Some?
    ensures ColumnsAsWritten(TableSchema([row])).Err?
    ensures Columns(TableSchema([row]), 1) == Ok(map[row.0 := Classify(row.1).value])
  {
    assert TableSchema([row])[0] == DescField(row.0, Classify(row.1), "NULLABLE");
  }

  /** The intended read succeeds iff every column's type was classified, and then holds every column. */
  lemma {:induction false} ColumnsOfTable(schema: seq<DescField>, n: nat)
    requires n <= |schema|
    ensures Columns(schema, n).Ok? <==> forall i :: 0 <= i < n ==> schema[i].recordType.Some?
    ensures Columns(schema, n).Ok? ==>
              forall k :: k in Columns(schema, n).value <==> exists i :: 0 <= i < n && schema[i].key == k
  {
    if n > 0 {
      ColumnsOfTable(schema, n - 1);
      if Columns(schema, n).Ok? {
        var m := Columns(schema, n).value;
        forall k | k in m ensures exists i :: 0 <= i < n && schema[i].key == k {
          if k != schema[n - 1].key {
            var i :| 0 <= i < n - 1 && schema[i].key == k;
          }
        }
      }
    }
  }

  /** One more listed table read, with the columns it gave; after an exception nothing more is read. */
  lemma ReadStep(listed: seq<string>, describe: string -> seq<(string, string)>, k: nat,
                 current: map<string, map<string, string>>, cols: Result<map<string, string>>)
    requires k < |listed| && Current(listed, describe, k) == Ok(current)
    requires cols == TableColumns(describe(listed[k]))
    ensures cols.Ok? ==> Current(listed, describe, k + 1) == Ok(current[listed[k] := cols.value])
    ensures cols.Err? ==> Current(listed, describe, |listed|) == Err(cols.error)
    ensures cols.Ok? ==> DescribeLog(listed, describe, k + 1) == DescribeLog(listed, describe, k) + [Describe(listed[k])]
    ensures cols.Err? ==> DescribeLog(listed, describe, |listed|) == DescribeLog(listed, describe, k) + [Describe(listed[k])]
  {
    if cols.Err? {
      CurrentStays(listed, describe, k + 1, |listed|);
    }
  }

  /** Once reading the current columns has raised, later tables change neither the result nor the log. */
  lemma {:induction false} CurrentStays(listed: seq<string>, describe: string -> seq<(string, string)>, n: nat, m: nat)
    requires n <= m <= |listed|
    requires Current(listed, describe, n).Err?
    ensures Current(listed, describe, m) == Current(listed, describe, n)
    ensures DescribeLog(listed, describe, m) == DescribeLog(listed, describe, n)
    decreases m
  {
    if m > n {
      CurrentStays(listed, describe, n, m - 1);
    }
  }

  /** One more placed field of create_table. */
  lemma CreatePlanNext(main: string, places: seq<Placement>, i: nat, ts: Tables)
    requires i < |places| && CreatePlan(main, places, i) == Ok(ts) && places[i].Place?
    ensures CreatePlan(main, places, i + 1) ==
            Ok(AddToSet(ts, main, places[i].table, ColumnDef(places[i].column, places[i].sqlType)))
  {
  }

  /** One more placed field of update_table. */
  lemma UpdatePlanNext(current: map<string, map<string, string>>, places: seq<Placement>, types: seq<string>,
                       i: nat, d: Diff)
    requires i < |places| == |types| && UpdatePlan(current, places, types, i) == Ok(d) && places[i].Place?
    ensures UpdatePlan(current, places, types, i + 1) ==
            Ok(DiffStep(current, d, types[i], places[i].table, places[i].column, places[i].sqlType))
  {
  }

  lemma {:induction false} ColumnsStays(schema: seq<DescField>, n: nat, m: nat)
    requires n <= m <= |schema|
    requires Columns(schema, n).Err?
    ensures Columns(schema, m) == Columns(schema, n)
    decreases m
  {
    if m > n {
      ColumnsStays(schema, n, m - 1);
    }
  }

  lemma {:induction false} CreatePlanStays(main: string, places: seq<Placement>, n: nat, m: nat)
    requires n <= m <= |places|
    requires CreatePlan(main, places, n).Err?
    ensures CreatePlan(main, places, m) == CreatePlan(main, places, n)
    decreases m
  {
    if m > n {
      CreatePlanStays(main, places, n, m - 1);
    }
  }

  lemma {:induction false} UpdatePlanStays(current: map<string, map<string, string>>,
                                           places: seq<Placement>, types: seq<string>, n: nat, m: nat)
    requires n <= m <= |places| == |types|
    requires UpdatePlan(current, places, types, n).Err?
    ensures UpdatePlan(current, places, types, m) == UpdatePlan(current, places, types, n)
    decreases m
  {
    if m > n {
      UpdatePlanStays(current, places, types, n, m - 1);
    }
  }

  // ---------------------------------------------------------------------------
  // Properties of update_table's diff
  // ---------------------------------------------------------------------------

  /** Each change once, each new table once, and every new table starting with the two hash columns. */
  ghost predicate DiffShape(d: Diff)
  {
    DiffValid(d) &&
    forall t :: t in d.created.columns ==>
      |d.created.columns[t]| >= 3 && d.created.columns[t][0] == ParentHashColumn &&
      d.created.columns[t][1] == HashColumn
  }

  lemma DiffStepShape(current: map<string, map<string, string>>, d: Diff, dataType: string,
                      t: string, c: string, ty: string)
    requires DiffShape(d)
    ensures DiffShape(DiffStep(current, d, dataType, t, c, ty))
  {
    if t !in current && t !in d.created.columns {
      assert t !in d.created.order;
    }
    if t in current && c in current[t] && !SameType(dataType, current[t][c]) && (t, c) !in d.changes {
      assert (t, c) !in d.changed;
    }
  }

  /** update_table's diff keeps its shape through every field. */
  lemma {:induction false} UpdatePlanShape(current: map<string, map<string, string>>,
                                           places: seq<Placement>, types: seq<string>, n: nat)
    requires n <= |places| == |types|
    ensures UpdatePlan(current, places, types, n).Ok? ==> DiffShape(UpdatePlan(current, places, types, n).value)
  {
    if n > 0 {
      UpdatePlanShape(current, places, types, n - 1);
      var p := places[n - 1];
      if UpdatePlan(current, places, types, n - 1).Ok? && p.Place? {
        DiffStepShape(current, UpdatePlan(current, places, types, n - 1).value, types[n - 1],
                      p.table, p.column, p.sqlType);
      }
    }
  }

  /** update_table raises exactly when one of the fields has an unsupported type (or lacks 'type'). */
  lemma {:induction false} UpdatePlanRaises(current: map<string, map<string, string>>,
                                            places: seq<Placement>, types: seq<string>, n: nat)
    requires n <= |places| == |types|
    ensures UpdatePlan(current, places, types, n).Err? <==>
            exists i :: 0 <= i < n && places[i].Raise?
  {
    if n > 0 {
      UpdatePlanRaises(current, places, types, n - 1);
    }
  }

  /**
   * The diff rule for one placed field: a column of another type (ignoring
   * case) is changed, a missing column is added, and a column of an unknown
   * table goes into that table's create statement.
   */
  ghost predicate Covered(current: map<string, map<string, string>>, d: Diff, dataType: string, p: Placement)
    requires p.Place?
  {
    if p.table in current then
      if p.column in current[p.table] then
        !SameType(dataType, current[p.table][p.column]) ==> (p.table, p.column) in d.changes
      else AddColumn(p.table, p.column, p.sqlType) in d.adds
    else p.table in d.created.columns && ColumnDef(p.column, p.sqlType) in d.created.columns[p.table]
  }

  /** A step keeps everything already planned. */
  ghost predicate Grows(d: Diff, r: Diff)
  {
    (forall k :: k in d.changes ==> k in r.changes) &&
    (forall s :: s in d.adds ==> s in r.adds) &&
    (forall t, x :: t in d.created.columns && x in d.created.columns[t] ==>
       t in r.created.columns && x in r.created.columns[t])
  }

  lemma DiffStepGrows(current: map<string, map<string, string>>, d: Diff, dataType: string,
                      t: string, c: string, ty: string)
    ensures Grows(d, DiffStep(current, d, dataType, t, c, ty))
    ensures Covered(current, DiffStep(current, d, dataType, t, c, ty), dataType, Place(t, c, ty))
  {
  }

  lemma CoveredGrows(current: map<string, map<string, string>>, d: Diff, r: Diff, dataType: string, p: Placement)
    requires p.Place? && Covered(current, d, dataType, p) && Grows(d, r)
    ensures Covered(current, r, dataType, p)
  {
  }

  /** Every placed field gets the statement its diff rule asks for. */
  lemma {:induction false} UpdateCoversFields(current: map<string, map<string, string>>,
                                              places: seq<Placement>, types: seq<string>, n: nat)
    requires n <= |places| == |types|
    requires UpdatePlan(current, places, types, n).Ok?
    ensures forall i :: 0 <= i < n && places[i].Place? ==>
              Covered(current, UpdatePlan(current, places, types, n).value, types[i],
                      places[i])
  {
    if n > 0 {
      UpdateCoversFields(current, places, types, n - 1);
      var d0 := UpdatePlan(current, places, types, n - 1).value;
      var d := UpdatePlan(current, places, types, n).value;
      var p := places[n - 1];
      if p.Place? {
        DiffStepGrows(current, d0, types[n - 1], p.table, p.column, p.sqlType);
        forall i | 0 <= i < n - 1 && places[i].Place?
          ensures Covered(current, d, types[i], places[i])
        {
          CoveredGrows(current, d0, d, types[i], places[i]);
        }
      }
    }
  }

  /** Some field among the first n is placed at (t, c, ty) on a table and column that exist, with another type. */
  ghost predicate ChangeReason(current: map<string, map<string, string>>, places: seq<Placement>, types: seq<string>,
                               n: nat, t: string, c: string, ty: string)
    requires n <= |places| == |types|
  {
    exists i :: 0 <= i < n && places[i] == Place(t, c, ty) &&
      t in current && c in current[t] && !SameType(types[i], current[t][c])
  }

  /** Some field among the first n is placed at (t, c, ty) on a table that exists, in a column it lacks. */
  ghost predicate AddReason(current: map<string, map<string, string>>, places: seq<Placement>, types: seq<string>,
                            n: nat, t: string, c: string, ty: string)
    requires n <= |places| == |types|
  {
    exists i :: 0 <= i < n && places[i] == Place(t, c, ty) &&
      t in current && c !in current[t]
  }

  /** What the diff after n fields holds is there because of one of those fields. */
  ghost predicate Explained(current: map<string, map<string, string>>, places: seq<Placement>, types: seq<string>,
                            n: nat, d: Diff)
    requires n <= |places| == |types|
  {
    (forall k :: k in d.changes ==> ChangeReason(current, places, types, n, k.0, k.1, d.changes[k])) &&
    (forall s :: s in d.adds ==> s.AddColumn? && AddReason(current, places, types, n, s.table, s.column, s.sqlType)) &&
    (forall t :: t in d.created.columns ==>
       t !in current && |d.created.columns[t]| >= 2 &&
       forall j :: 2 <= j < |d.created.columns[t]| ==>
         FromField(places, n, t, d.created.columns[t][j]))
  }

  lemma ExplainedLater(current: map<string, map<string, string>>, places: seq<Placement>, types: seq<string>,
                       n: nat, d: Diff)
    requires n < |places| == |types| && Explained(current, places, types, n, d)
    ensures Explained(current, places, types, n + 1, d)
  {
    forall k | k in d.changes ensures ChangeReason(current, places, types, n + 1, k.0, k.1, d.changes[k]) {
      var i :| 0 <= i < n && places[i] == Place(k.0, k.1, d.changes[k]) &&
        k.0 in current && k.1 in current[k.0] && !SameType(types[i], current[k.0][k.1]);
    }
    forall s | s in d.adds ensures AddReason(current, places, types, n + 1, s.table, s.column, s.sqlType) {
      var i :| 0 <= i < n && places[i] == Place(s.table, s.column, s.sqlType) &&
        s.table in current && s.column !in current[s.table];
    }
    forall t, j | t in d.created.columns && 2 <= j < |d.created.columns[t]|
      ensures FromField(places, n + 1, t, d.created.columns[t][j])
    {
      var col := d.created.columns[t][j];
      var i :| 0 <= i < n && places[i].Place? &&
        places[i].table == t &&
        ColumnDef(places[i].column, places[i].sqlType) == col;
    }
  }

  lemma ExplainedStep(current: map<string, map<string, string>>, places: seq<Placement>, types: seq<string>,
                      n: nat, d: Diff)
    requires n < |places| == |types| && Explained(current, places, types, n + 1, d)
    requires places[n].Place?
    ensures var p := places[n];
            Explained(current, places, types, n + 1, DiffStep(current, d, types[n], p.table, p.column, p.sqlType))
  {
    var p := places[n];
    var r := DiffStep(current, d, types[n], p.table, p.column, p.sqlType);
    if p.table in current {
      if p.column in current[p.table] && !SameType(types[n], current[p.table][p.column]) {
        assert ChangeReason(current, places, types, n + 1, p.table, p.column, p.sqlType);
      } else if p.column !in current[p.table] {
        assert AddReason(current, places, types, n + 1, p.table, p.column, p.sqlType);
      }
    } else {
      assert FromField(places, n + 1, p.table, ColumnDef(p.column, p.sqlType));
    }
  }

  /** Conversely, every change, add and new-table column is asked for by some field. */
  lemma {:induction false} UpdateHasReasons(current: map<string, map<string, string>>,
                                            places: seq<Placement>, types: seq<string>, n: nat)
    requires n <= |places| == |types|
    requires UpdatePlan(current, places, types, n).Ok?
    ensures Explained(current, places, types, n, UpdatePlan(current, places, types, n).value)
  {
    if n > 0 {
      UpdateHasReasons(current, places, types, n - 1);
      var d0 := UpdatePlan(current, places, types, n - 1).value;
      ExplainedLater(current, places, types, n - 1, d0);
      if places[n - 1].Place? {
        ExplainedStep(current, places, types, n - 1, d0);
      }
    }
  }

  /**
   * A field whose table was made by create_table from the same type and read
   * back by get_table_schema plans nothing.
   */
  lemma ReadBackPlansNothing(current: map<string, map<string, string>>, d: Diff, f: SchemaField, t: string, c: string)
    requires f.dataType == "string" || f.dataType == "float" || f.dataType == "integer"
    requires t in current && c in current[t] && Some(current[t][c]) == Classify(TypeOf(f).sqlType)
    ensures TypeOf(f).Typed? && DiffStep(current, d, f.dataType, t, c, TypeOf(f).sqlType) == d
  {
    TypeReadsBack(f);
  }

  // ---------------------------------------------------------------------------
  // Properties of list_tables and query
  // ---------------------------------------------------------------------------

  /** list_tables keeps exactly the names that start with the prefix. */
  lemma {:induction false} WithPrefixMembers(names: seq<string>, prefix: string)
    ensures forall x :: x in WithPrefix(names, prefix) <==> x in names && StartsWith(x, prefix)
    decreases |names|
  {
    if names != [] {
      WithPrefixMembers(names[..|names| - 1], prefix);
      assert names == names[..|names| - 1] + [names[|names| - 1]];
    }
  }

  /** ... and keeps their order: filtering a concatenation filters each part. */
  lemma {:induction false} WithPrefixConcat(a: seq<string>, b: seq<string>, prefix: string)
    ensures WithPrefix(a + b, prefix) == WithPrefix(a, prefix) + WithPrefix(b, prefix)
    decreases |b|
  {
    if b != [] {
      var b0 := b[..|b| - 1];
      assert (a + b)[..|a + b| - 1] == a + b0;
      assert (a + b)[|a + b| - 1] == b[|b| - 1];
      WithPrefixConcat(a, b0, prefix);
    } else {
      assert a + b == a;
    }
  }

  /** Reading query's output back gives the fetched rows, cell for cell and in order. */
  lemma QueryRoundTrip(rows: seq<seq<Json>>)
    ensures Cells(QueryOutput(rows)) == rows
  {
    var out := QueryOutput(rows);
    var rs := seq(|rows|, i requires 0 <= i < |rows| => RowJson(rows[i]));
    assert out.fields[0] == ("rows", JArray(rs));
    assert Get(out.fields, "rows") == Some(JArray(rs));
    assert ListAt(out, "rows") == rs;
    var c := Cells(out);
    assert |c| == |rows|;
    forall i | 0 <= i < |rows| ensures c[i] == rows[i] {
      var cells := seq(|rows[i]|, j requires 0 <= j < |rows[i]| => JObject([("v", rows[i][j])]));
      assert rs[i].fields[0] == ("f", JArray(cells));
      assert Get(rs[i].fields, "f") == Some(JArray(cells));
      assert ListAt(rs[i], "f") == cells;
      forall j | 0 <= j < |rows[i]| ensures c[i][j] == rows[i][j] {
        assert cells[j].fields[0] == ("v", rows[i][j]);
        assert Get(cells[j].fields, "v") == Some(rows[i][j]);
      }
    }
  }

  /**
   * The table name rebound by update_table's first loop decides where new
   * columns go: listing "users" and "users_tags" for table users puts a
   * plain field "name" into users_tags.
   */
  lemma ShadowedTableName()
    ensures var main := ShadowedName("users", ["users", "users_tags"]);
            PlaceField(main, SchemaField("name", "string", "nullable", Some("field")), ChildTableMode)
              == Place("users_tags", "name", "string")
  {
  }

  // ---------------------------------------------------------------------------
  // Whole runs of create_table, update_table and delete_table
  // ---------------------------------------------------------------------------

  /** What create_table returns, and the statements it runs. */
  function CreateRun(main: string, fields: seq<SchemaField>, processArray: string): (Result<seq<string>>, seq<Statement>)
  {
    var places := Placements(main, fields, processArray);
    match CreatePlan(main, places, |places|)
    case Err(e) => (Err(e), [])
    case Ok(ts) =>
      CreatePlanShape(main, places, |places|);
      (Ok(ts.order), Creates(ts))
  }

  /**
   * What update_table returns, and the statements it runs after its reads,
   * given the listing of the tables that start with the table's name.
   */
  function UpdateRun(table: string, fields: seq<SchemaField>, listed: seq<string>,
                     describe: string -> seq<(string, string)>): (Result<seq<string>>, seq<Statement>)
  {
    match Current(listed, describe, |listed|)
    case Err(e) => (Err(e), [])
    case Ok(current) =>
      var places := Placements(ShadowedName(table, listed), fields, ChildTableMode);
      var types := DataTypes(fields);
      match UpdatePlan(current, places, types, |fields|)
      case Err(e) => (Err(e), [])
      case Ok(d) =>
        UpdatePlanShape(current, places, types, |fields|);
        (Ok(listed + d.created.order), DiffStatements(d))
  }

  /** list_tables' loop over the rows of `show tables`. */
  method KeepPrefixed(rows: seq<string>, prefix: string) returns (names: seq<string>)
    ensures names == WithPrefix(rows, prefix)
  {
    names := [];
    var i := 0;
    while i < |rows|
      invariant 0 <= i <= |rows|
      invariant names == WithPrefix(rows[..i], prefix)
    {
      assert rows[..i + 1][..i] == rows[..i];
      if StartsWith(rows[i], prefix) {
        names := names + [rows[i]];
      }
      i := i + 1;
    }
    assert rows[..i] == rows;
  }

  /** The rows of `show tables` once `drop table` has removed the table: every other row, in order. */
  function AfterDrop(tables: seq<string>, table: string): (r: seq<string>)
    ensures forall x :: x in r <==> x in tables && x != table
  {
    if tables == [] then []
    else (if tables[0] == table then [] else [tables[0]]) + AfterDrop(tables[1..], table)
  }

  /**
   * delete_table drops the table once, then exactly the other tables that
   * start with its name.
   */
  lemma DeleteDropsChildren(tables: seq<string>, table: string)
    ensures var children := Drops(WithPrefix(AfterDrop(tables, table), table));
      DropTable(table) !in children
      && forall x :: DropTable(x) in children <==> x in tables && x != table && StartsWith(x, table)
  {
    DropsPrefixed(AfterDrop(tables, table), table);
  }

  /** One drop statement per name. */
  function Drops(names: seq<string>): (r: seq<Statement>)
    ensures |r| == |names|
  {
    seq(|names|, i requires 0 <= i < |names| => DropTable(names[i]))
  }

  /** delete_table drops exactly the listed tables that start with the table's name. */
  lemma DropsPrefixed(tables: seq<string>, table: string)
    ensures forall x :: DropTable(x) in Drops(WithPrefix(tables, table)) <==> x in tables && StartsWith(x, table)
  {
    WithPrefixMembers(tables, table);
    var ds := Drops(WithPrefix(tables, table));
    forall x | DropTable(x) in ds ensures x in WithPrefix(tables, table) {
      var i :| 0 <= i < |ds| && ds[i] == DropTable(x);
    }
    forall x | x in WithPrefix(tables, table) ensures DropTable(x) in ds {
      var i :| 0 <= i < |WithPrefix(tables, table)| && WithPrefix(tables, table)[i] == x;
      assert ds[i] == DropTable(x);
    }
  }

  /** One more statement executed on db. */
  lemma LogStep(before: seq<Executed>, db: Option<string>, stmts: seq<Statement>, s: Statement)
    ensures before + OnDatabase(db, stmts) + [Executed(db, s)] == before + OnDatabase(db, stmts + [s])
  {
    OnDatabaseConcat(db, stmts, [s]);
  }

  lemma OnDatabaseConcat(db: Option<string>, a: seq<Statement>, b: seq<Statement>)
    ensures OnDatabase(db, a + b) == OnDatabase(db, a) + OnDatabase(db, b)
  {
  }

  /** A listing followed by two runs on the same database logs as the listing followed by one run. */
  lemma ListedLog(log0: seq<Executed>, db: Option<string>, a: seq<Statement>, b: seq<Statement>)
    ensures log0 + [Executed(db, ShowTables)] + OnDatabase(db, a) + OnDatabase(db, b) ==
            log0 + [Executed(db, ShowTables)] + OnDatabase(db, a + b)
  {
    OnDatabaseConcat(db, a, b);
    var check := log0 + [Executed(db, ShowTables)];
    assert check + OnDatabase(db, a) + OnDatabase(db, b) == check + (OnDatabase(db, a) + OnDatabase(db, b));
  }

  // ---------------------------------------------------------------------------
  // The Hive class
  // ---------------------------------------------------------------------------

  /**
   * class Hive. The three constructor arguments are kept; the server's
   * answers are fixed inputs, and `log` records every execute_sql call.
   */
  class Hive {
    const host: Option<string>
    const port: Option<string>
    const serdesPath: string
    const tables: seq<string>                          // the rows of `show tables`
    const describe: string -> seq<(string, string)>    // the (name, type) rows of `desc <table>`
    const answer: string -> seq<seq<Json>>             // the rows a query fetches
    var log: seq<Executed>

    constructor(host: Option<string>, port: Option<string>, serdesPath: string, tables: seq<string>,
                describe: string -> seq<(string, string)>, answer: string -> seq<seq<Json>>)
      ensures this.host == host && this.port == port && this.serdesPath == serdesPath
      ensures this.tables == tables && this.describe == describe && this.answer == answer
      ensures log == []
    {
      this.host := host;
      this.port := port;
      this.serdesPath := serdesPath;
      this.tables := tables;
      this.describe := describe;
      this.answer := answer;
      log := [];
    }

    /** execute_sql: one connection to db running one statement. */
    method ExecuteSql(db: Option<string>, s: Statement)
      modifies this
      ensures log == old(log) + [Executed(db, s)]
    {
      log := log + [Executed(db, s)];
    }

    /** One execute_sql per statement, in order. */
    method ExecuteAll(db: Option<string>, stmts: seq<Statement>)
      modifies this
      ensures log == old(log) + OnDatabase(db, stmts)
    {
      var i := 0;
      while i < |stmts|
        invariant 0 <= i <= |stmts|
        invariant log == old(log) + OnDatabase(db, stmts[..i])
      {
        ExecuteSql(db, stmts[i]);
        assert stmts[..i + 1] == stmts[..i] + [stmts[i]];
        OnDatabaseConcat(db, stmts[..i], [stmts[i]]);
        i := i + 1;
      }
      assert stmts[..i] == stmts;
    }

    /** list_tables: `show tables`, keeping the names that start with the prefix. */
    method ListTables(db: Option<string>, prefix: string) returns (names: seq<string>)
      modifies this
      ensures log == old(log) + [Executed(db, ShowTables)]
      ensures names == WithPrefix(tables, prefix)
    {
      ExecuteSql(db, ShowTables);
      names := KeepPrefixed(tables, prefix);
    }

    /** table_exists: `show tables`, then whether some row names the table. */
    method TableExists(db: Option<string>, table: string) returns (b: bool)
      modifies this
      ensures log == old(log) + [Executed(db, ShowTables)]
      ensures b <==> table in tables
    {
      ExecuteSql(db, ShowTables);
      var i := 0;
      while i < |tables|
        invariant 0 <= i <= |tables|
        invariant table !in tables[..i]
      {
        if tables[i] == table {
          return true;
        }
        assert tables[..i + 1] == tables[..i] + [tables[i]];
        i := i + 1;
      }
      assert tables[..i] == tables;
      b := false;
    }

    /** get_table_schema: `desc <table>`, one field per row. */
    method GetTableSchema(db: Option<string>, table: string) returns (fields: seq<DescField>)
      modifies this
      ensures log == old(log) + [Executed(db, Describe(table))]
      ensures fields == TableSchema(describe(table))
    {
      ExecuteSql(db, Describe(table));
      var rows := describe(table);
      fields := [];
      var i := 0;
      while i < |rows|
        invariant 0 <= i <= |rows|
        invariant |fields| == i && forall k :: 0 <= k < i ==> fields[k] == DescFieldOf(rows[k])
      {
        var t := Classify(rows[i].1);
        fields := fields + [DescField(rows[i].0, t, "NULLABLE")];
        i := i + 1;
      }
    }

    /** query: the fetched rows as {"rows": [{"f": [{"v": cell}, ...]}, ...]}. */
    method Query(db: Option<string>, q: string) returns (out: Json)
      modifies this
      ensures log == old(log) + [Executed(db, Fetch(q))]
      ensures out == QueryOutput(answer(q))
    {
      ExecuteSql(db, Fetch(q));
      var result := answer(q);
      var rows: seq<Json> := [];
      var i := 0;
      while i < |result|
        invariant 0 <= i <= |result|
        invariant |rows| == i && forall k :: 0 <= k < i ==> rows[k] == RowJson(result[k])
      {
        var f: seq<Json> := [];
        var j := 0;
        while j < |result[i]|
          invariant 0 <= j <= |result[i]|
          invariant |f| == j && forall k :: 0 <= k < j ==> f[k] == JObject([("v", result[i][k])])
        {
          f := f + [JObject([("v", result[i][j])])];
          j := j + 1;
        }
        assert f == seq(|result[i]|, j requires 0 <= j < |result[i]| => JObject([("v", result[i][j])]));
        assert JObject([("f", JArray(f))]) == RowJson(result[i]);
        rows := rows + [JObject([("f", JArray(f))])];
        i := i + 1;
      }
      assert rows == seq(|result|, i requires 0 <= i < |result| => RowJson(result[i]));
      out := JObject([("rows", JArray(rows))]);
    }

    /**
     * create_table's loop over the schema fields, given each field's
     * placement: table_columns, or the exception.
     */
    method PlanCreate(table: string, places: seq<Placement>) returns (r: Result<Tables>)
      ensures r == CreatePlan(table, places, |places|)
    {
      var order: seq<string> := [];
      var columns: map<string, seq<string>> := map[];
      var i := 0;
      while i < |places|
        invariant 0 <= i <= |places|
        invariant CreatePlan(table, places, i) == Ok(Tables(order, columns))
      {
        var p := places[i];
        match p {
          case Raise(m) =>
            CreatePlanStays(table, places, i + 1, |places|);
            return Err(m);
          case Skip =>
          case Place(t, c, ty) =>
            ghost var before := Tables(order, columns);
            var cols := if t in columns then columns[t] else if t != table then [ParentHashColumn, HashColumn] else [];
            if t !in columns {
              order := order + [t];
            }
            columns := columns[t := AddUnique(cols, ColumnDef(c, ty))];
            assert Tables(order, columns) == AddToSet(before, table, t, ColumnDef(c, ty));
            CreatePlanNext(table, places, i, before);
        }
        i := i + 1;
      }
      r := Ok(Tables(order, columns));
    }

    /** create_table: plan every table, then create each; returns the table names. */
    method CreateTable(db: Option<string>, table: string, fields: seq<SchemaField>, processArray: string)
      returns (r: Result<seq<string>>)
      modifies this
      ensures r == CreateRun(table, fields, processArray).0
      ensures log == old(log) + OnDatabase(db, CreateRun(table, fields, processArray).1)
    {
      var plan := PlanCreate(table, Placements(table, fields, processArray));
      if plan.Err? {
        return Err(plan.error);
      }
      var ts := plan.value;
      CreatePlanShape(table, Placements(table, fields, processArray), |fields|);
      ExecuteAll(db, Creates(ts));
      r := Ok(ts.order);
    }

    /** The loop of lines 186-187 over one table's fields, reading each field's 'type'. */
    method ReadColumns(schema: seq<DescField>) returns (r: Result<map<string, string>>)
      ensures r == Columns(schema, |schema|)
    {
      var cols: map<string, string> := map[];
      var j := 0;
      while j < |schema|
        invariant 0 <= j <= |schema|
        invariant Columns(schema, j) == Ok(cols)
      {
        if schema[j].recordType.None? {
          ColumnsStays(schema, j + 1, |schema|);
          return Err("KeyError: 'type'");
        }
        cols := cols[schema[j].key := schema[j].recordType.value];
        j := j + 1;
      }
      r := Ok(cols);
    }

    /** get_table_schema on one listed table, then the loop of lines 186-187 over its fields. */
    method ReadTable(db: Option<string>, table: string) returns (r: Result<map<string, string>>)
      modifies this
      ensures log == old(log) + [Executed(db, Describe(table))]
      ensures r == TableColumns(describe(table))
    {
      var schema := GetTableSchema(db, table);
      r := ReadColumns(schema);
    }

    /** update_table's first loop: the columns of every listed table; on success also the last name. */
    method ReadCurrent(db: Option<string>, table: string, listed: seq<string>)
      returns (r: Result<map<string, map<string, string>>>, main: string)
      modifies this
      ensures r == Current(listed, describe, |listed|)
      ensures log == old(log) + OnDatabase(db, DescribeLog(listed, describe, |listed|))
      ensures r.Ok? ==> main == ShadowedName(table, listed)
    {
      var current: map<string, map<string, string>> := map[];
      main := table;
      ghost var log0 := log;
      ghost var issued: seq<Statement> := [];
      var k := 0;
      while k < |listed|
        invariant 0 <= k <= |listed|
        invariant Current(listed, describe, k) == Ok(current)
        invariant issued == DescribeLog(listed, describe, k)
        invariant log == log0 + OnDatabase(db, issued)
        invariant main == if k == 0 then table else listed[k - 1]
      {
        main := listed[k];
        var cols := ReadTable(db, main);
        ReadStep(listed, describe, k, current, cols);
        LogStep(log0, db, issued, Describe(main));
        issued := issued + [Describe(main)];
        if cols.Err? {
          return Err(cols.error), main;
        }
        current := current[main := cols.value];
        k := k + 1;
      }
      r := Ok(current);
    }

    /** The body of update_table's field loop for a field placed at (t, c) with Hive type ty. */
    method DiffField(current: map<string, map<string, string>>, d: Diff, dataType: string,
                     t: string, c: string, ty: string) returns (r: Diff)
      ensures r == DiffStep(current, d, dataType, t, c, ty)
    {
      var changed, changes, adds, newOrder, newColumns := d.changed, d.changes, d.adds, d.created.order, d.created.columns;
      if t in current {
        if c in current[t] {
          if !SameType(dataType, current[t][c]) {
            if (t, c) !in changes {
              changed := changed + [(t, c)];
            }
            changes := changes[(t, c) := ty];
          }
        } else {
          adds := adds + [AddColumn(t, c, ty)];
        }
      } else {
        var cols := if t in newColumns then newColumns[t] else [ParentHashColumn, HashColumn];
        if t !in newColumns {
          newOrder := newOrder + [t];
        }
        newColumns := newColumns[t := cols + [ColumnDef(c, ty)]];
      }
      r := Diff(changed, changes, adds, Tables(newOrder, newColumns));
    }

    /**
     * update_table's loop over the schema fields, given each field's
     * placement and data type: the diff, or the exception.
     */
    method PlanUpdate(current: map<string, map<string, string>>, places: seq<Placement>, types: seq<string>)
      returns (r: Result<Diff>)
      requires |places| == |types|
      ensures r == UpdatePlan(current, places, types, |places|)
    {
      var d := Diff([], map[], [], Tables([], map[]));
      var i := 0;
      while i < |places|
        invariant 0 <= i <= |places|
        invariant UpdatePlan(current, places, types, i) == Ok(d)
      {
        match places[i] {
          case Raise(m) =>
            UpdatePlanStays(current, places, types, i + 1, |places|);
            return Err(m);
          case Skip =>
          case Place(t, c, ty) =>
            UpdatePlanNext(current, places, types, i, d);
            d := DiffField(current, d, types[i], t, c, ty);
        }
        i := i + 1;
      }
      r := Ok(d);
    }

    /** The statements of a diff, run in order: the changes, the adds, then the creates. */
    method ApplyDiff(db: Option<string>, d: Diff)
      requires DiffValid(d)
      modifies this
      ensures log == old(log) + OnDatabase(db, DiffStatements(d))
    {
      ExecuteAll(db, Changes(d));
      ExecuteAll(db, d.adds);
      ExecuteAll(db, Creates(d.created));
      OnDatabaseConcat(db, Changes(d), d.adds);
      OnDatabaseConcat(db, Changes(d) + d.adds, Creates(d.created));
    }

    /** update_table after its listing: read the listed tables, diff the fields, run the diff. */
    method UpdateListed(db: Option<string>, table: string, fields: seq<SchemaField>, listed: seq<string>)
      returns (r: Result<seq<string>>)
      modifies this
      ensures r == UpdateRun(table, fields, listed, describe).0
      ensures log == old(log) + OnDatabase(db, DescribeLog(listed, describe, |listed|)) +
                     OnDatabase(db, UpdateRun(table, fields, listed, describe).1)
    {
      var current, main := ReadCurrent(db, table, listed);
      if current.Err? {
        assert UpdateRun(table, fields, listed, describe).1 == [];
        return Err(current.error);
      }
      var places := Placements(main, fields, ChildTableMode);
      var plan := PlanUpdate(current.value, places, DataTypes(fields));
      if plan.Err? {
        assert UpdateRun(table, fields, listed, describe).1 == [];
        return Err(plan.error);
      }
      var d := plan.value;
      UpdatePlanShape(current.value, places, DataTypes(fields), |fields|);
      ApplyDiff(db, d);
      r := Ok(listed + d.created.order);
    }

    /**
     * update_table: list the tables, read their columns, diff the schema
     * fields against them, then run the changes, the adds and the creates;
     * returns the listed names followed by the new tables.
     */
    method UpdateTable(db: Option<string>, table: string, fields: seq<SchemaField>) returns (r: Result<seq<string>>)
      modifies this
      ensures var listed := WithPrefix(tables, table);
              r == UpdateRun(table, fields, listed, describe).0 &&
              log == old(log) + [Executed(db, ShowTables)] +
                     OnDatabase(db, DescribeLog(listed, describe, |listed|) + UpdateRun(table, fields, listed, describe).1)
    {
      ghost var log0 := log;
      var listed := ListTables(db, table);
      r := UpdateListed(db, table, fields, listed);
      ListedLog(log0, db, DescribeLog(listed, describe, |listed|), UpdateRun(table, fields, listed, describe).1);
    }

    /**
     * delete_table: drop the table, then every table that the following
     * `show tables` lists with its name as prefix. The server answers that
     * listing after the drop, so the table itself is no longer among them.
     */
    method DeleteTable(db: Option<string>, table: string)
      modifies this
      ensures log == old(log) + OnDatabase(db, [DropTable(table), ShowTables] + Drops(WithPrefix(AfterDrop(tables, table), table)))
    {
      ExecuteSql(db, DropTable(table));
      ExecuteSql(db, ShowTables);
      var children := KeepPrefixed(AfterDrop(tables, table), table);
      ExecuteAll(db, Drops(children));
      OnDatabaseConcat(db, [DropTable(table), ShowTables], Drops(children));
    }

    /** load_table: load every file under the path into the table. */
    method LoadTable(db: Option<string>, table: string, path: string)
      modifies this
      ensures log == old(log) + [Executed(db, LoadData(path, table))]
    {
      ExecuteSql(db, LoadData(path, table));
    }
  }
}
