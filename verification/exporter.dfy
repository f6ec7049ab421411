/**
 * The exporter (class OMOPExporter): SQL type mapping, `CREATE TABLE` generation and
 * batched `INSERT` generation with SQL string quoting.
 */
module Exporter {
  import opened Wrappers
  import opened Text
  import opened Frame

  /** `OMOP_DATA_TYPES`: declared Bio-Croissant data types and their SQL types. */
  const DataTypes: map<string, string> := map[
    "sc:Integer" := "INTEGER",
    "sc:Float" := "FLOAT",
    "sc:Text" := "VARCHAR(255)",
    "sc:Date" := "DATE",
    "sc:DateTime" := "TIMESTAMP",
    "sc:Boolean" := "BOOLEAN"
  ]

  /** Every SQL type the exporter emits. */
  const SqlTypes: set<string> := {"INTEGER", "FLOAT", "VARCHAR(255)", "DATE", "TIMESTAMP", "BOOLEAN"}

  /** `map_datatype`: the registered SQL type, `VARCHAR(255)` for anything else (including None). */
  function MapDatatype(dataType: Option<string>): (r: string)
    ensures dataType.Some? && dataType.value in DataTypes ==> r == DataTypes[dataType.value]
    ensures !(dataType.Some? && dataType.value in DataTypes) ==> r == "VARCHAR(255)"
    ensures r in SqlTypes
  {
    if dataType.Some? && dataType.value in DataTypes then DataTypes[dataType.value] else "VARCHAR(255)"
  }

  /** A missing data type is exported exactly like declared text. */
  lemma MissingDatatypeIsText(unknown: string)
    requires unknown !in DataTypes
    ensures MapDatatype(None) == MapDatatype(Some("sc:Text")) == MapDatatype(Some(unknown))
  {
  }

  /** Python's f-string rendering of an optional string: `None` prints as "None". */
  function Show(s: Option<string>): string {
    match s
    case Some(t) => t
    case None => "None"
  }

  /** One entry of a table schema's `fields`; absent `primary_key`/`nullable` keys are None. */
  datatype SchemaField = SchemaField(
    name: Option<string>,         // 'name'
    sqlType: string,              // 'type'
    primaryKey: Option<bool>,     // 'primary_key', default False
    nullable: Option<bool>        // 'nullable', default True
  )

  /** The table schema `generate_ddl` consumes. */
  datatype TableSchema = TableSchema(tableName: Option<string>, fields: seq<SchemaField>)

  predicate IsNullable(f: SchemaField) {
    f.nullable.GetOr(true)
  }

  predicate IsPrimaryKey(f: SchemaField) {
    f.primaryKey.GetOr(false)
  }

  /** One column definition of the `CREATE TABLE` statement. */
  function ColumnDefinition(f: SchemaField): (r: string)
  {
    var head := "  " + Show(f.name) + " " + f.sqlType;
    var r := head + (if IsNullable(f) then "" else " NOT NULL");
    assert r[..|head|] == head;
    r
  }

  /** A column definition starts with the two-space indent, the column name and its type. */
  lemma ColumnDefinitionStartsWithNameAndType(f: SchemaField)
    ensures StartsWith(ColumnDefinition(f), "  " + Show(f.name) + " " + f.sqlType)
  {
    var head := "  " + Show(f.name) + " " + f.sqlType;
    assert ColumnDefinition(f)[..|head|] == head;
  }

  /** No SQL type ends in `L`, the last letter of `NOT NULL`. */
  lemma SqlTypesDoNotEndInL(t: string)
    requires t in SqlTypes
    ensures |t| > 0 && t[|t| - 1] != 'L'
  {
  }

  /** `NOT NULL` ends a column definition exactly when the field is not nullable. */
  lemma NotNullExactlyWhenNotNullable(f: SchemaField)
    requires f.sqlType in SqlTypes
    ensures EndsWith(ColumnDefinition(f), " NOT NULL") <==> !IsNullable(f)
  {
    var d := ColumnDefinition(f);
    var prefix := "  " + Show(f.name) + " " + f.sqlType;
    if IsNullable(f) {
      SqlTypesDoNotEndInL(f.sqlType);
      assert d == prefix;
      assert d[|d| - 1] == f.sqlType[|f.sqlType| - 1];
    } else {
      assert d == prefix + " NOT NULL";
      assert d[|d| - 9..] == " NOT NULL";
    }
  }

  /** The names of the primary-key fields, in field order. */
  function PrimaryKeyNames(fs: seq<SchemaField>): (r: seq<Option<string>>)
    ensures |r| <= |fs|
    decreases |fs|
  {
    if |fs| == 0 then []
    else
      var last := fs[|fs| - 1];
      PrimaryKeyNames(fs[..|fs| - 1]) + (if IsPrimaryKey(last) then [last.name] else [])
  }

  /** Exactly the primary-key fields contribute their names; none at all when no field is a key. */
  lemma {:induction false} PrimaryKeyNamesMembers(fs: seq<SchemaField>)
    ensures PrimaryKeyNames(fs) == [] <==> forall i :: 0 <= i < |fs| ==> !IsPrimaryKey(fs[i])
    ensures forall i :: 0 <= i < |fs| && IsPrimaryKey(fs[i]) ==> fs[i].name in PrimaryKeyNames(fs)
    ensures forall x :: x in PrimaryKeyNames(fs) ==>
              exists i :: 0 <= i < |fs| && IsPrimaryKey(fs[i]) && fs[i].name == x
    decreases |fs|
  {
    if |fs| > 0 {
      var init := fs[..|fs| - 1];
      var last := fs[|fs| - 1];
      PrimaryKeyNamesMembers(init);
      assert forall i :: 0 <= i < |init| ==> init[i] == fs[i];
      forall x | x in PrimaryKeyNames(fs)
        ensures exists i :: 0 <= i < |fs| && IsPrimaryKey(fs[i]) && fs[i].name == x
      {
        if x in PrimaryKeyNames(init) {
          var i :| 0 <= i < |init| && IsPrimaryKey(init[i]) && init[i].name == x;
          assert fs[i] == init[i];
        } else {
          assert IsPrimaryKey(last) && last.name == x;
        }
      }
    }
  }

  /** The primary-key names of a concatenation are those of each part, in order. */
  lemma {:induction false} PrimaryKeyNamesAppend(a: seq<SchemaField>, b: seq<SchemaField>)
    ensures PrimaryKeyNames(a + b) == PrimaryKeyNames(a) + PrimaryKeyNames(b)
    decreases |b|
  {
    if |b| == 0 {
      assert a + b == a;
    } else {
      assert (a + b)[..|a + b| - 1] == a + b[..|b| - 1];
      PrimaryKeyNamesAppend(a, b[..|b| - 1]);
    }
  }

  /** With exactly one primary-key field, its name is the only primary-key name. */
  lemma {:induction false} PrimaryKeyNamesSingle(fs: seq<SchemaField>, k: nat)
    requires k < |fs| && IsPrimaryKey(fs[k])
    requires forall j :: 0 <= j < |fs| && j != k ==> !IsPrimaryKey(fs[j])
    ensures PrimaryKeyNames(fs) == [fs[k].name]
    decreases |fs|
  {
    var init := fs[..|fs| - 1];
    if k == |fs| - 1 {
      PrimaryKeyNamesMembers(init);
      assert forall j :: 0 <= j < |init| ==> init[j] == fs[j];
    } else {
      PrimaryKeyNamesSingle(init, k);
    }
  }

  /** The text of a list of names known to be present. */
  function Texts(names: seq<Option<string>>): (r: seq<string>)
    requires None !in names
    ensures |r| == |names| && forall i :: 0 <= i < |names| ==> names[i] == Some(r[i])
  {
    assert forall i :: 0 <= i < |names| ==> names[i] in names && names[i].Some?;
    seq(|names|, i requires 0 <= i < |names| => names[i].value)
  }

  /** The trailing `PRIMARY KEY (...)` clause: present exactly when some field is a primary key. */
  function PrimaryKeyClause(names: seq<string>): (r: string)
    ensures r == "" <==> names == []
  {
    if names == [] then "" else ",\n  PRIMARY KEY (" + Join(names, ", ") + ")"
  }

  /** One column definition per field, in field order. */
  function ColumnDefinitions(fields: seq<SchemaField>): (r: seq<string>)
    ensures |r| == |fields| && forall i :: 0 <= i < |fields| ==> r[i] == ColumnDefinition(fields[i])
  {
    seq(|fields|, i requires 0 <= i < |fields| => ColumnDefinition(fields[i]))
  }

  /**
   * The statement `generate_ddl` returns, or None when it raises: `", ".join`
   * rejects a primary-key field whose name is None.
   */
  function DdlOf(schema: TableSchema): (r: Option<string>)
    ensures r.None? <==> None in PrimaryKeyNames(schema.fields)
  {
    var pks := PrimaryKeyNames(schema.fields);
    if None in pks then None
    else
      Some("CREATE TABLE " + Show(schema.tableName) + " (\n" + Join(ColumnDefinitions(schema.fields), ",\n") + PrimaryKeyClause(Texts(pks)) + "\n);")
  }

  /**
   * With exactly one primary-key field, and that field named, the statement is
   * produced and ends with the clause `PRIMARY KEY (<name>)`.
   */
  lemma DdlNamesSinglePrimaryKey(schema: TableSchema, k: nat, name: string)
    requires k < |schema.fields| && IsPrimaryKey(schema.fields[k]) && schema.fields[k].name == Some(name)
    requires forall j :: 0 <= j < |schema.fields| && j != k ==> !IsPrimaryKey(schema.fields[j])
    ensures DdlOf(schema).Some?
    ensures Contains(DdlOf(schema).value, "PRIMARY KEY (" + name + ")")
  {
    PrimaryKeyNamesSingle(schema.fields, k);
    var pks := PrimaryKeyNames(schema.fields);
    assert Texts(pks) == [name];
    var target := "PRIMARY KEY (" + name + ")";
    var clause := PrimaryKeyClause([name]);
    assert clause == ",\n  " + target;
    assert OccursAt(target, target, 0);
    ContainsInSuffix(",\n  ", target, target);
    var head := "CREATE TABLE " + Show(schema.tableName) + " (\n" + Join(ColumnDefinitions(schema.fields), ",\n");
    ContainsInSuffix(head, clause, target);
    ContainsInPrefix(head + clause, "\n);", target);
  }

  /** One column definition: name and type, then `NOT NULL` unless the field is nullable. */
  method DefineColumn(field: SchemaField) returns (definition: string)
    ensures definition == ColumnDefinition(field)
  {
    definition := "  " + Show(field.name) + " " + field.sqlType;
    if !IsNullable(field) {
      definition := definition + " NOT NULL";
    }
  }

  /**
   * `generate_ddl`: one column definition per field, the primary-key names
   * collected in field order. The dialect has no effect.
   */
  method GenerateDdl(schema: TableSchema, dialect: string) returns (ddl: Option<string>)
    ensures ddl == DdlOf(schema)
  {
    var fields := schema.fields;
    var header := "CREATE TABLE " + Show(schema.tableName) + " (\n";
    var definitions: seq<string> := [];
    var primaryKeys: seq<Option<string>> := [];
    for i := 0 to |fields|
      invariant |definitions| == i
      invariant forall k :: 0 <= k < i ==> definitions[k] == ColumnDefinition(fields[k])
      invariant primaryKeys == PrimaryKeyNames(fields[..i])
    {
      assert fields[..i + 1][..i] == fields[..i];
      var field := fields[i];
      var definition := DefineColumn(field);
      definitions := definitions + [definition];
      if IsPrimaryKey(field) {
        primaryKeys := primaryKeys + [field.name];
      }
    }
    assert fields[..|fields|] == fields;
    assert definitions == ColumnDefinitions(fields);
    var body := header + Join(definitions, ",\n");
    var clause := "";
    if primaryKeys != [] {
      if None in primaryKeys {
        return None;
      }
      clause := ",\n  PRIMARY KEY (" + Join(Texts(primaryKeys), ", ") + ")";
    }
    assert clause == PrimaryKeyClause(Texts(primaryKeys));
    return Some(body + clause + "\n);");
  }

  /** SQL string escaping: every single quote doubled. */
  function Escape(s: string): (r: string)
    ensures |r| >= |s|
    decreases |s|
  {
    if |s| == 0 then "" else (if s[0] == '\'' then "''" else [s[0]]) + Escape(s[1..])
  }

  /** Reads an escaped string back: a doubled quote stands for one quote. */
  function Unescape(s: string): string
    decreases |s|
  {
    if |s| == 0 then ""
    else if |s| >= 2 && s[0] == '\'' && s[1] == '\'' then "'" + Unescape(s[2..])
    else [s[0]] + Unescape(s[1..])
  }

  /** Quoting loses nothing: unescaping the escaped text gives it back. */
  lemma {:induction false} UnescapeEscape(s: string)
    ensures Unescape(Escape(s)) == s
    decreases |s|
  {
    if |s| > 0 {
      UnescapeEscape(s[1..]);
      var e := Escape(s);
      if s[0] == '\'' {
        assert e == "''" + Escape(s[1..]);
        assert e[2..] == Escape(s[1..]);
      } else {
        assert e == [s[0]] + Escape(s[1..]);
        assert e[1..] == Escape(s[1..]);
      }
    }
  }

  /** The SQL literal for one cell. */
  function Literal(v: Value): (r: string)
    ensures v.Null? ==> r == "NULL"
    ensures v.Str? ==> |r| >= 2 && r[0] == '\'' && r[|r| - 1] == '\'' && Unescape(r[1..|r| - 1]) == v.s
  {
    match v
    case Null => "NULL"
    case Str(s) =>
      var r := "'" + Escape(s) + "'";
      assert r[1..|r| - 1] == Escape(s);
      UnescapeEscape(s);
      r
    case Int(i) => IntToString(i)
    case Bool(b) => if b then "True" else "False"
    case Other(repr) => repr
  }

  /** `(v1, v2, ...)` for one row. */
  function RowTuple(row: seq<Value>): (r: string)
    ensures StartsWith(r, "(") && EndsWith(r, ")")
  {
    "(" + Join(seq(|row|, c requires 0 <= c < |row| => Literal(row[c])), ", ") + ")"
  }

  /** The rows cut into consecutive batches of `size` (the last one possibly shorter). */
  function Chunks<T>(s: seq<T>, size: nat): (r: seq<seq<T>>)
    requires size > 0
    decreases |s|
  {
    if |s| == 0 then []
    else if |s| <= size then [s]
    else [s[..size]] + Chunks(s[size..], size)
  }

  /** Concatenation of a list of batches. */
  function Flatten<T>(cs: seq<seq<T>>): seq<T>
    decreases |cs|
  {
    if |cs| == 0 then [] else cs[0] + Flatten(cs[1..])
  }

  /** The batches cover every row once, in order. */
  lemma {:induction false} ChunksFlatten<T>(s: seq<T>, size: nat)
    requires size > 0
    ensures Flatten(Chunks(s, size)) == s
    decreases |s|
  {
    if |s| > size {
      var cs := Chunks(s, size);
      assert cs[1..] == Chunks(s[size..], size);
      ChunksFlatten(s[size..], size);
      assert s == s[..size] + s[size..];
    }
  }

  /**
   * There are ceil(n / size) batches: none for no rows, otherwise k of them with
   * (k - 1) * size < n <= k * size. Each is non-empty and at most `size` long, and
   * all but the last are full.
   */
  lemma {:induction false} ChunksShape<T>(s: seq<T>, size: nat)
    requires size > 0
    ensures |s| == 0 <==> |Chunks(s, size)| == 0
    ensures |s| > 0 ==> (|Chunks(s, size)| - 1) * size < |s| <= |Chunks(s, size)| * size
    ensures forall i :: 0 <= i < |Chunks(s, size)| ==> 0 < |Chunks(s, size)[i]| <= size
    ensures forall i :: 0 <= i < |Chunks(s, size)| - 1 ==> |Chunks(s, size)[i]| == size
    decreases |s|
  {
    var cs := Chunks(s, size);
    if |s| > size {
      var rest := Chunks(s[size..], size);
      ChunksShape(s[size..], size);
      assert cs == [s[..size]] + rest;
      assert forall i :: 1 <= i < |cs| ==> cs[i] == rest[i - 1];
      var k := |rest|;
      assert (k + 1 - 1) * size == (k - 1) * size + size;
      assert (k + 1) * size == k * size + size;
    }
  }

  /** One `INSERT` statement for one batch of rows. */
  function InsertStatement(table: string, columns: seq<string>, batch: seq<seq<Value>>): (r: string)
    ensures StartsWith(r, "INSERT INTO " + table + " (" + Join(columns, ", ") + ") VALUES\n  ")
    ensures EndsWith(r, ";")
  {
    var values := seq(|batch|, r requires 0 <= r < |batch| => RowTuple(batch[r]));
    var head := "INSERT INTO " + table + " (" + Join(columns, ", ") + ") VALUES\n  ";
    var r := head + Join(values, ",\n  ") + ";";
    assert r[..|head|] == head;
    r
  }

  /** One statement per batch, in batch order. */
  function Statements(table: string, columns: seq<string>, batches: seq<seq<seq<Value>>>): (r: seq<string>)
    ensures |r| == |batches|
    decreases |batches|
  {
    if |batches| == 0 then [] else [InsertStatement(table, columns, batches[0])] + Statements(table, columns, batches[1..])
  }

  /** The statement at position `i` is that of batch `i`. */
  lemma {:induction false} StatementsAt(table: string, columns: seq<string>, batches: seq<seq<seq<Value>>>, i: nat)
    requires i < |batches|
    ensures Statements(table, columns, batches)[i] == InsertStatement(table, columns, batches[i])
    decreases i
  {
    if i > 0 {
      StatementsAt(table, columns, batches[1..], i - 1);
    }
  }

  /** The batches from row `i` on: the batch starting at `i`, then those after it. */
  lemma ChunksFrom<T>(s: seq<T>, i: nat, size: nat)
    requires size > 0 && i < |s|
    ensures var end := if i + size < |s| then i + size else |s|;
            Chunks(s[i..], size) == [s[i..end]] + (if end < |s| then Chunks(s[end..], size) else [])
  {
    if i + size < |s| {
      assert s[i..][..size] == s[i..i + size];
      assert s[i..][size..] == s[i + size..];
    } else {
      assert s[i..|s|] == s[i..];
    }
  }

  /** Statements of a batch list that starts with `b`. */
  lemma StatementsCons(table: string, columns: seq<string>, b: seq<seq<Value>>, rest: seq<seq<seq<Value>>>)
    ensures Statements(table, columns, [b] + rest) == [InsertStatement(table, columns, b)] + Statements(table, columns, rest)
  {
    assert ([b] + rest)[1..] == rest;
  }

  /** What `generate_insert_statements` returns. */
  function InsertsOf(table: string, df: Frame, batchSize: nat): (r: seq<string>)
    requires batchSize > 0
    ensures |r| == |Chunks(df.rows, batchSize)|
    ensures forall i :: 0 <= i < |r| ==> r[i] == InsertStatement(table, df.columns, Chunks(df.rows, batchSize)[i])
  {
    forall i | 0 <= i < |Chunks(df.rows, batchSize)|
      ensures Statements(table, df.columns, Chunks(df.rows, batchSize))[i]
              == InsertStatement(table, df.columns, Chunks(df.rows, batchSize)[i])
    {
      StatementsAt(table, df.columns, Chunks(df.rows, batchSize), i);
    }
    Statements(table, df.columns, Chunks(df.rows, batchSize))
  }

  /** An empty table yields no statements; otherwise ceil(rows / batch size) of them. */
  lemma InsertsCount(table: string, df: Frame, batchSize: nat)
    requires batchSize > 0
    ensures df.rows == [] <==> InsertsOf(table, df, batchSize) == []
    ensures var k := |InsertsOf(table, df, batchSize)|;
            df.rows != [] ==> (k - 1) * batchSize < |df.rows| <= k * batchSize
  {
    ChunksShape(df.rows, batchSize);
  }

  /** The row tuples of one batch, built literal by literal. */
  method BatchValues(batch: seq<seq<Value>>) returns (values: seq<string>)
    ensures values == seq(|batch|, r requires 0 <= r < |batch| => RowTuple(batch[r]))
  {
    values := [];
    for r := 0 to |batch|
      invariant |values| == r
      invariant forall t :: 0 <= t < r ==> values[t] == RowTuple(batch[t])
    {
      var row := batch[r];
      var rowValues: seq<string> := [];
      for c := 0 to |row|
        invariant |rowValues| == c
        invariant forall t :: 0 <= t < c ==> rowValues[t] == Literal(row[t])
      {
        rowValues := rowValues + [Literal(row[c])];
      }
      assert rowValues == seq(|row|, c requires 0 <= c < |row| => Literal(row[c]));
      values := values + ["(" + Join(rowValues, ", ") + ")"];
    }
  }

  /** The multi-row `INSERT` of one batch. */
  method BatchStatement(table: string, columns: seq<string>, batch: seq<seq<Value>>) returns (insert: string)
    ensures insert == InsertStatement(table, columns, batch)
  {
    var values := BatchValues(batch);
    insert := "INSERT INTO " + table + " (" + Join(columns, ", ") + ") VALUES\n  ";
    insert := insert + Join(values, ",\n  ");
    insert := insert + ";";
  }

  /**
   * One step of the batch loop: emitting the statement of the batch at row `i`
   * leaves the statements of the batches after it to be emitted.
   */
  lemma InsertStep(table: string, columns: seq<string>, rows: seq<seq<Value>>, size: nat, i: nat,
                   done: seq<string>, all: seq<string>)
    requires size > 0 && i < |rows|
    requires done + Statements(table, columns, Chunks(rows[i..], size)) == all
    ensures var end := if i + size < |rows| then i + size else |rows|;
            var next := done + [InsertStatement(table, columns, rows[i..end])];
            && (end < |rows| ==> next + Statements(table, columns, Chunks(rows[end..], size)) == all)
            && (end == |rows| ==> next == all)
  {
    var end := if i + size < |rows| then i + size else |rows|;
    var rest := if end < |rows| then Chunks(rows[end..], size) else [];
    ChunksFrom(rows, i, size);
    StatementsCons(table, columns, rows[i..end], rest);
    assert done + [InsertStatement(table, columns, rows[i..end])] + Statements(table, columns, rest) == all;
  }

  /**
   * `generate_insert_statements`: batches of `batchSize` rows, each batch one
   * multi-row `INSERT`, each row a tuple of literals.
   */
  method GenerateInsertStatements(table: string, df: Frame, batchSize: nat) returns (statements: seq<string>)
    requires batchSize > 0
    ensures statements == InsertsOf(table, df, batchSize)
  {
    statements := [];
    var rows := df.rows;
    ghost var all := Statements(table, df.columns, Chunks(rows, batchSize));
    var n := |rows|;
    var i := 0;
    assert rows[0..] == rows;
    while i < n
      invariant 0 <= i
      invariant i < n ==> statements + Statements(table, df.columns, Chunks(rows[i..], batchSize)) == all
      invariant i >= n ==> statements == all
      decreases n - i
    {
      var end := if i + batchSize < n then i + batchSize else n;
      var insert := BatchStatement(table, df.columns, rows[i..end]);
      InsertStep(table, df.columns, rows, batchSize, i, statements, all);
      statements := statements + [insert];
      i := end;
    }
    if n == 0 {
      assert Chunks(rows, batchSize) == [];
    }
  }

}
