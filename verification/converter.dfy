/**
 * The converter (class BioCroissantToOMOPConverter): for every recordSet, map it to
 * an OMOP table, extract its data, validate it, export it, and summarise the run.
 * Reading and writing files are the external calls `read` and `write`.
 */
module Converter {
  import opened Wrappers
  import opened Text
  import opened Descriptor
  import opened Frame
  import opened TableMapper
  import opened Extractor
  import opened Validator
  import opened Exporter

  // ---------------------------------------------------------------------------
  // _create_table_schema
  // ---------------------------------------------------------------------------

  /** The dtype of the mapped column, when the OMOP field names a column of the data. */
  function ObservedKind(fm: FieldMapping, df: Frame): (k: Option<Kind>)
    requires WellFormed(df)
    ensures k.Some? <==> fm.omopField.Some? && fm.omopField.value in df.columns
  {
    if fm.omopField.Some? && fm.omopField.value in df.columns then Some(KindOf(df, fm.omopField.value)) else None
  }

  /**
   * The SQL type of one column: an integer, float or boolean dtype observed in the
   * data wins over the declared data type; otherwise the declared type is mapped.
   */
  function SqlTypeFor(fm: FieldMapping, df: Frame): (t: string)
    requires WellFormed(df)
    ensures t in SqlTypes
    ensures ObservedKind(fm, df) == Some(Int64) ==> t == "INTEGER"
    ensures ObservedKind(fm, df) == Some(Float64) ==> t == "FLOAT"
    ensures ObservedKind(fm, df) == Some(BoolKind) ==> t == "BOOLEAN"
    ensures (ObservedKind(fm, df).None? || ObservedKind(fm, df).value.ObjectKind?
             || ObservedKind(fm, df).value.OtherKind?) ==> t == MapDatatype(fm.dataType)
  {
    match ObservedKind(fm, df)
    case Some(Int64) => "INTEGER"
    case Some(Float64) => "FLOAT"
    case Some(BoolKind) => "BOOLEAN"
    case _ => MapDatatype(fm.dataType)
  }

  /** The schema entry of one field mapping: a primary key is never nullable. */
  function SchemaFieldOf(fm: FieldMapping, df: Frame): SchemaField
    requires WellFormed(df)
  {
    SchemaField(fm.omopField, SqlTypeFor(fm, df), Some(fm.isPrimaryKey), Some(!fm.isPrimaryKey))
  }

  /** The table schema built from a table mapping and the extracted data. */
  function SchemaOf(mapping: TableMapping, df: Frame): (schema: TableSchema)
    requires WellFormed(df)
    ensures schema.tableName == mapping.omopTable
    ensures |schema.fields| == |mapping.fieldMappings|
    ensures forall i :: 0 <= i < |schema.fields| ==>
              var fm := mapping.fieldMappings[i];
              && schema.fields[i].name == fm.omopField
              && schema.fields[i].sqlType in SqlTypes
              && (IsPrimaryKey(schema.fields[i]) <==> fm.isPrimaryKey)
              && (IsNullable(schema.fields[i]) <==> !fm.isPrimaryKey)
  {
    var fms := mapping.fieldMappings;
    TableSchema(mapping.omopTable, seq(|fms|, i requires 0 <= i < |fms| => SchemaFieldOf(fms[i], df)))
  }

  /** `_create_table_schema`: one schema field per field mapping, in order. */
  method CreateTableSchema(mapping: TableMapping, df: Frame) returns (schema: TableSchema)
    requires WellFormed(df)
    ensures schema == SchemaOf(mapping, df)
  {
    var fields: seq<SchemaField> := [];
    for i := 0 to |mapping.fieldMappings|
      invariant |fields| == i
      invariant forall k :: 0 <= k < i ==> fields[k] == SchemaFieldOf(mapping.fieldMappings[k], df)
    {
      var fieldMap := mapping.fieldMappings[i];
      var sqlType: string;
      if fieldMap.omopField.Some? && fieldMap.omopField.value in df.columns {
        var kind := KindOf(df, fieldMap.omopField.value);
        if kind == Int64 {
          sqlType := "INTEGER";
        } else if kind == Float64 {
          sqlType := "FLOAT";
        } else if kind == BoolKind {
          sqlType := "BOOLEAN";
        } else {
          sqlType := MapDatatype(fieldMap.dataType);
        }
      } else {
        sqlType := MapDatatype(fieldMap.dataType);
      }
      fields := fields + [SchemaField(fieldMap.omopField, sqlType, Some(fieldMap.isPrimaryKey), Some(!fieldMap.isPrimaryKey))];
    }
    schema := TableSchema(mapping.omopTable, fields);
  }

  /** In the generated `CREATE TABLE`, a column is `NOT NULL` exactly when it is mapped as a primary key. */
  lemma NotNullExactlyOnKeys(mapping: TableMapping, df: Frame, i: nat)
    requires WellFormed(df) && i < |mapping.fieldMappings|
    ensures EndsWith(ColumnDefinition(SchemaOf(mapping, df).fields[i]), " NOT NULL")
            <==> mapping.fieldMappings[i].isPrimaryKey
  {
    NotNullExactlyWhenNotNullable(SchemaOf(mapping, df).fields[i]);
  }

  /**
   * A table with exactly one primary-key field, mapped to OMOP field `name`, gets
   * a `CREATE TABLE` ending in `PRIMARY KEY (name)` whose column `name` is `NOT NULL`.
   */
  lemma SinglePrimaryKeyTable(mapping: TableMapping, df: Frame, k: nat, name: string)
    requires WellFormed(df) && k < |mapping.fieldMappings|
    requires mapping.fieldMappings[k].isPrimaryKey && mapping.fieldMappings[k].omopField == Some(name)
    requires forall j :: 0 <= j < |mapping.fieldMappings| && j != k ==> !mapping.fieldMappings[j].isPrimaryKey
    ensures DdlOf(SchemaOf(mapping, df)).Some?
    ensures Contains(DdlOf(SchemaOf(mapping, df)).value, "PRIMARY KEY (" + name + ")")
    ensures EndsWith(ColumnDefinition(SchemaOf(mapping, df).fields[k]), " NOT NULL")
  {
    var schema := SchemaOf(mapping, df);
    DdlNamesSinglePrimaryKey(schema, k, name);
    NotNullExactlyOnKeys(mapping, df, k);
  }

  // ---------------------------------------------------------------------------
  // _extract_table_data
  // ---------------------------------------------------------------------------

  /** Why one recordSet could not be converted. */
  datatype ProcessError =
    | NoFields(recordSet: Option<string>)                 // the recordSet has no fields
    | NoDistributionReference(recordSet: Option<string>)  // the first field names no distribution
    | DistributionNotFound(distributionId: string)        // no distribution carries that `@id`
    | ExtractionFailed(cause: ExtractError)               // `extract_from_distribution` raised
    | UnnamedPrimaryKey                                   // `generate_ddl` raised on a primary key named None
    | WriteFailed(path: Path, message: string)            // writing an output file raised

  /** `field.source.fileObject.@id`, an absent level reading as an empty dictionary. */
  function SourceReference(f: Field): (r: Option<string>)
    ensures f.source.None? ==> r.None?
    ensures f.source.Some? && f.source.value.fileObject.None? ==> r.None?
    ensures f.source.Some? && f.source.value.fileObject.Some? ==> r == f.source.value.fileObject.value.id.Get()
  {
    match f.source
    case None => None
    case Some(src) =>
      match src.fileObject
      case None => None
      case Some(fileObject) => fileObject.id.Get()
  }

  /** A reference is usable when it is truthy: present and not empty. */
  predicate Names(ref: Option<string>) {
    ref.Some? && ref.value != ""
  }

  /** The distribution reference of a recordSet: that of its first field. */
  function TableReference(rs: RecordSet): Option<string> {
    var fields := ExtractFields(rs);
    if fields == [] then None else SourceReference(fields[0])
  }

  /**
   * `_extract_table_data`: the first field's source names the distribution, which
   * is looked up in the metadata and then extracted relative to `base`.
   */
  function ExtractTableData(m: Metadata, rs: RecordSet, base: Path, read: Path -> Result<Frame, string>)
    : (r: Result<Frame, ProcessError>)
    ensures ExtractFields(rs) == [] ==> r == Err(NoFields(rs.name.Get()))
    ensures ExtractFields(rs) != [] && !Names(TableReference(rs)) ==> r == Err(NoDistributionReference(rs.name.Get()))
    ensures ExtractFields(rs) != [] && Names(TableReference(rs)) ==>
              var id := TableReference(rs).value;
              match FindDistribution(ExtractDistributions(m), id)
              case None => r == Err(DistributionNotFound(id))
              case Some(d) =>
                match ExtractFromDistribution(d, Some(base), read)
                case Ok(df) => r == Ok(df)
                case Err(e) => r == Err(ExtractionFailed(e))
  {
    var fields := ExtractFields(rs);
    if fields == [] then Err(NoFields(rs.name.Get()))
    else
      var distId := SourceReference(fields[0]);
      if !Names(distId) then Err(NoDistributionReference(rs.name.Get()))
      else
        match FindDistribution(ExtractDistributions(m), distId.value)
        case None => Err(DistributionNotFound(distId.value))
        case Some(d) =>
          match ExtractFromDistribution(d, Some(base), read)
          case Ok(df) => Ok(df)
          case Err(e) => Err(ExtractionFailed(e))
  }

  /** Only the first field's source matters: the fields after it may reference anything. */
  lemma OnlyFirstFieldReferenceCounts(m: Metadata, rs: RecordSet, rest: seq<Field>, base: Path,
                                      read: Path -> Result<Frame, string>)
    requires ExtractFields(rs) != []
    ensures ExtractTableData(m, rs.(fields := Some([ExtractFields(rs)[0]] + rest)), base, read)
            == ExtractTableData(m, rs, base, read)
  {
    var other := rs.(fields := Some([ExtractFields(rs)[0]] + rest));
    assert ExtractFields(other)[0] == ExtractFields(rs)[0];
  }

  // ---------------------------------------------------------------------------
  // Export of one table
  // ---------------------------------------------------------------------------

  /** A file the converter writes: a table as CSV, or SQL text. */
  datatype OutputFile = CsvFile(path: Path, frame: Frame) | SqlFile(path: Path, text: string) {
    function PathOf(): Path {
      match this
      case CsvFile(p, _) => p
      case SqlFile(p, _) => p
    }
  }

  /** `output_dir / name`: an absolute name replaces the directory. */
  function OutputPath(dir: Path, name: string): (p: Path)
    ensures EndsWith(p.text, name)
    ensures IsAbsolute(Path(name)) ==> p == Path(name)
    ensures !IsAbsolute(Path(name)) ==> p == JoinPath(dir, Path(name)) && StartsWith(p.text, dir.text)
  {
    var rel := Path(name);
    if IsAbsolute(rel) then rel else JoinPath(dir, rel)
  }

  /** `output_format in ['csv', 'both']`. */
  predicate WritesCsv(format: string) {
    format == "csv" || format == "both"
  }

  /** `output_format in ['sql', 'both']`. */
  predicate WritesSql(format: string) {
    format == "sql" || format == "both"
  }

  /** The default batch size of `generate_insert_statements`, which the converter uses. */
  const InsertBatchSize: nat := 100

  /** The files the export step writes in order, and the error that stops it after them. */
  datatype ExportPlan = ExportPlan(files: seq<OutputFile>, failure: Option<ProcessError>)

  /**
   * The export of one table: `<table>.csv` for csv/both; for sql/both the DDL in
   * `<table>_ddl.sql` and the `INSERT` statements, blank-line separated, in
   * `<table>_data.sql`. A primary key named None stops the export after the CSV.
   */
  function PlanExport(mapping: TableMapping, df: Frame, dir: Path, format: string): (plan: ExportPlan)
    requires WellFormed(df)
    ensures var table := Show(mapping.omopTable);
            var csv := if WritesCsv(format) then [CsvFile(OutputPath(dir, table + ".csv"), df)] else [];
            && (!WritesSql(format) ==> plan == ExportPlan(csv, None))
            && (WritesSql(format) && DdlOf(SchemaOf(mapping, df)).None? ==> plan == ExportPlan(csv, Some(UnnamedPrimaryKey)))
            && (WritesSql(format) && DdlOf(SchemaOf(mapping, df)).Some? ==>
                  plan.failure.None? && |plan.files| == |csv| + 2 && plan.files[..|csv|] == csv
                  && plan.files[|csv|] == SqlFile(OutputPath(dir, table + "_ddl.sql"), DdlOf(SchemaOf(mapping, df)).value)
                  && plan.files[|csv| + 1] == SqlFile(OutputPath(dir, table + "_data.sql"),
                                                      Join(InsertsOf(table, df, InsertBatchSize), "\n\n")))
  {
    var table := Show(mapping.omopTable);
    var csv := if WritesCsv(format) then [CsvFile(OutputPath(dir, table + ".csv"), df)] else [];
    if !WritesSql(format) then ExportPlan(csv, None)
    else
      match DdlOf(SchemaOf(mapping, df))
      case None => ExportPlan(csv, Some(UnnamedPrimaryKey))
      case Some(ddl) =>
        var inserts := InsertsOf(table, df, InsertBatchSize);
        ExportPlan(csv + [SqlFile(OutputPath(dir, table + "_ddl.sql"), ddl),
                          SqlFile(OutputPath(dir, table + "_data.sql"), Join(inserts, "\n\n"))], None)
  }

  /** What a run of writes achieved: the files written, and the failure that stopped it. */
  datatype WriteReport = WriteReport(written: seq<OutputFile>, failure: Option<ProcessError>)

  /**
   * Writes the files in order until one fails; `write` gives the error message of a
   * failed write and None for a successful one.
   */
  function WriteAll(files: seq<OutputFile>, write: OutputFile -> Option<string>): (r: WriteReport)
    ensures |r.written| <= |files| && r.written == files[..|r.written|]
    ensures forall i :: 0 <= i < |r.written| ==> write(r.written[i]).None?
    ensures r.failure.None? <==> r.written == files
    ensures r.failure.Some? ==>
              var failed := files[|r.written|];
              write(failed).Some? && r.failure == Some(WriteFailed(failed.PathOf(), write(failed).value))
    decreases |files|
  {
    if |files| == 0 then WriteReport([], None)
    else
      match write(files[0])
      case Some(message) => WriteReport([], Some(WriteFailed(files[0].PathOf(), message)))
      case None =>
        var rest := WriteAll(files[1..], write);
        assert files == [files[0]] + files[1..];
        WriteReport([files[0]] + rest.written, rest.failure)
  }

  // ---------------------------------------------------------------------------
  // One recordSet
  // ---------------------------------------------------------------------------

  /** The `tables` entry of a converted table. */
  datatype TableStats = TableStats(rows: nat, columns: nat)

  /**
   * What processing one recordSet produced: its table name, the verdict recorded
   * for it, the files written, and its statistics or the error that ended it.
   */
  datatype TableOutcome = TableOutcome(
    table: Option<string>,
    verdict: Option<Verdict>,
    written: seq<OutputFile>,
    result: Result<TableStats, ProcessError>
  )

  /** `validate_table` on the mapped table name; a table named None has no rules and passes. */
  function TableVerdict(table: Option<string>, df: Frame): (v: Verdict)
    requires WellFormed(df)
    ensures table.None? ==> v == Verdict(true, [])
    ensures table.Some? ==> v == ValidateTable(table.value, df)
  {
    match table
    case None => Verdict(true, [])
    case Some(t) => ValidateTable(t, df)
  }

  /** The reader only ever produces well-formed tables (as `read_csv` does). */
  ghost predicate ReadsTables(read: Path -> Result<Frame, string>) {
    forall p :: read(p).Ok? ==> WellFormed(read(p).value)
  }

  /**
   * The body of the converter's loop for one recordSet: extract, validate when
   * asked (recorded even if the export then fails), export, and count the table
   * only when every step succeeded.
   */
  function ProcessRecordSet(m: Metadata, rs: RecordSet, dir: Path, format: string, validate: bool, base: Path,
                            read: Path -> Result<Frame, string>, write: OutputFile -> Option<string>)
    : (o: TableOutcome)
    requires ReadsTables(read)
    ensures o.table == MappingOf(rs).omopTable
  {
    var mapping := MappingOf(rs);
    var table := mapping.omopTable;
    match ExtractTableData(m, rs, base, read)
    case Err(e) => TableOutcome(table, None, [], Err(e))
    case Ok(df) =>
      var verdict := if validate then Some(TableVerdict(table, df)) else None;
      var plan := PlanExport(mapping, df, dir, format);
      var report := WriteAll(plan.files, write);
      var result :=
        if report.failure.Some? then Err(report.failure.value)
        else if plan.failure.Some? then Err(plan.failure.value)
        else Ok(TableStats(|df.rows|, |df.columns|));
      TableOutcome(table, verdict, report.written, result)
  }

  /**
   * What one recordSet's outcome records: the extraction error, or the verdict
   * (when asked for), the files written before any failure, and the statistics
   * exactly when the export plan and every write succeeded.
   */
  lemma ProcessRecordSetOutcome(m: Metadata, rs: RecordSet, dir: Path, format: string, validate: bool, base: Path,
                                read: Path -> Result<Frame, string>, write: OutputFile -> Option<string>)
    requires ReadsTables(read)
    ensures var o := ProcessRecordSet(m, rs, dir, format, validate, base, read, write);
            && o.table == MappingOf(rs).omopTable
            && (ExtractTableData(m, rs, base, read).Err? ==>
                  o == TableOutcome(o.table, None, [], Err(ExtractTableData(m, rs, base, read).error)))
    ensures var o := ProcessRecordSet(m, rs, dir, format, validate, base, read, write);
            ExtractTableData(m, rs, base, read).Ok? ==>
              var df := ExtractTableData(m, rs, base, read).value;
              var plan := PlanExport(MappingOf(rs), df, dir, format);
              var report := WriteAll(plan.files, write);
              && WellFormed(df)
              && o.verdict == (if validate then Some(TableVerdict(o.table, df)) else None)
              && o.written == report.written
              && (o.result.Ok? <==> report.failure.None? && plan.failure.None?)
              && (o.result.Ok? ==> o.result.value == TableStats(|df.rows|, |df.columns|))
              && (report.failure.Some? ==> o.result == Err(report.failure.value))
              && (report.failure.None? && plan.failure.Some? ==> o.result == Err(plan.failure.value))
  {
  }

  /** Validation never fails a table: whether it is converted does not depend on the verdict. */
  lemma ValidationDoesNotDecideConversion(m: Metadata, rs: RecordSet, dir: Path, format: string, base: Path,
                                          read: Path -> Result<Frame, string>, write: OutputFile -> Option<string>)
    requires ReadsTables(read)
    ensures ProcessRecordSet(m, rs, dir, format, true, base, read, write).result
            == ProcessRecordSet(m, rs, dir, format, false, base, read, write).result
    ensures ProcessRecordSet(m, rs, dir, format, true, base, read, write).written
            == ProcessRecordSet(m, rs, dir, format, false, base, read, write).written
  {
  }

  // ---------------------------------------------------------------------------
  // The whole conversion
  // ---------------------------------------------------------------------------

  /** One entry of the result's `errors` list. */
  datatype ConversionError =
    | ValidationFailed(table: Option<string>, messages: seq<string>)  // "Validation failed for <table>: <errors>"
    | ProcessingFailed(table: Option<string>, error: ProcessError)    // "Error processing <table>: <error>"

  /** The dictionary `convert` returns. */
  datatype ConversionResult = ConversionResult(
    success: bool,
    tablesConverted: nat,
    tables: map<Option<string>, TableStats>,
    validationResults: map<Option<string>, Verdict>,
    errors: seq<ConversionError>
  )

  /** The rendered messages of a verdict. */
  function Messages(v: Verdict): (r: seq<string>)
    ensures |r| == |v.errors| && forall i :: 0 <= i < |v.errors| ==> r[i] == Message(v.errors[i])
  {
    seq(|v.errors|, i requires 0 <= i < |v.errors| => Message(v.errors[i]))
  }

  /** The result before any recordSet is processed. */
  const Initial := ConversionResult(true, 0, map[], map[], [])

  /** The update of the result by one recordSet's outcome. */
  function Record(r: ConversionResult, o: TableOutcome): (next: ConversionResult)
    ensures next.success == (r.success && o.result.Ok?)
    ensures next.tablesConverted == r.tablesConverted + (if o.result.Ok? then 1 else 0)
    ensures next.tables == (if o.result.Ok? then r.tables[o.table := o.result.value] else r.tables)
    ensures next.validationResults
            == (if o.verdict.Some? then r.validationResults[o.table := o.verdict.value] else r.validationResults)
    ensures r.errors <= next.errors
    ensures o.result.Err? ==> |next.errors| > |r.errors| && next.errors[|next.errors| - 1] == ProcessingFailed(o.table, o.result.error)
  {
    var validationResults := if o.verdict.Some? then r.validationResults[o.table := o.verdict.value] else r.validationResults;
    var validationErrors :=
      if o.verdict.Some? && !o.verdict.value.valid then [ValidationFailed(o.table, Messages(o.verdict.value))] else [];
    match o.result
    case Ok(stats) =>
      ConversionResult(r.success, r.tablesConverted + 1, r.tables[o.table := stats], validationResults,
                       r.errors + validationErrors)
    case Err(e) =>
      ConversionResult(false, r.tablesConverted, r.tables, validationResults,
                       r.errors + validationErrors + [ProcessingFailed(o.table, e)])
  }

  /** The result after the outcomes of the recordSets, in order. */
  function Summarize(os: seq<TableOutcome>): (r: ConversionResult)
    ensures r.tablesConverted <= |os|
    ensures |os| - r.tablesConverted <= |r.errors|
    decreases |os|
  {
    if |os| == 0 then Initial else Record(Summarize(os[..|os| - 1]), os[|os| - 1])
  }

  /** The outcomes of all recordSets of the metadata, in document order. */
  function Outcomes(m: Metadata, dir: Path, format: string, validate: bool, base: Path,
                    read: Path -> Result<Frame, string>, write: OutputFile -> Option<string>)
    : (os: seq<TableOutcome>)
    requires ReadsTables(read)
    ensures |os| == |ExtractRecordSets(m)|
    ensures forall i :: 0 <= i < |os| ==> os[i].table == MappingOf(ExtractRecordSets(m)[i]).omopTable
  {
    var rss := ExtractRecordSets(m);
    seq(|rss|, i requires 0 <= i < |rss| => ProcessRecordSet(m, rss[i], dir, format, validate, base, read, write))
  }

  /**
   * The body of the `try` block's bookkeeping: record the verdict, then count the
   * table or record its error.
   */
  method AddOutcome(results: ConversionResult, outcome: TableOutcome) returns (next: ConversionResult)
    ensures next == Record(results, outcome)
  {
    next := results;
    if outcome.verdict.Some? {
      next := next.(validationResults := next.validationResults[outcome.table := outcome.verdict.value]);
      if !outcome.verdict.value.valid {
        next := next.(errors := next.errors + [ValidationFailed(outcome.table, Messages(outcome.verdict.value))]);
      }
    }
    match outcome.result {
      case Ok(stats) =>
        next := next.(tablesConverted := next.tablesConverted + 1, tables := next.tables[outcome.table := stats]);
      case Err(e) =>
        next := next.(success := false, errors := next.errors + [ProcessingFailed(outcome.table, e)]);
    }
  }

  /** Summarising one more outcome records it on top of the summary so far. */
  lemma SummarizeStep(os: seq<TableOutcome>, i: nat)
    requires i < |os|
    ensures Summarize(os[..i + 1]) == Record(Summarize(os[..i]), os[i])
  {
    assert os[..i + 1][..i] == os[..i];
  }

  /**
   * `convert`: the metadata is given already loaded; a missing base path means the
   * working directory `cwd`. The dialect has no effect.
   */
  method Convert(m: Metadata, outputDir: Path, outputFormat: string, validate: bool, sqlDialect: string,
                 basePath: Option<Path>, cwd: Path,
                 read: Path -> Result<Frame, string>, write: OutputFile -> Option<string>)
    returns (results: ConversionResult)
    requires ReadsTables(read)
    ensures results == Summarize(Outcomes(m, outputDir, outputFormat, validate, basePath.GetOr(cwd), read, write))
  {
    var base := if basePath.None? then cwd else basePath.value;
    var recordSets := ExtractRecordSets(m);
    ghost var os := Outcomes(m, outputDir, outputFormat, validate, base, read, write);
    results := Initial;
    for i := 0 to |recordSets|
      invariant results == Summarize(os[..i])
    {
      var outcome := ProcessRecordSet(m, recordSets[i], outputDir, outputFormat, validate, base, read, write);
      SummarizeStep(os, i);
      results := AddOutcome(results, outcome);
    }
    assert os[..|recordSets|] == os;
  }

  // ---------------------------------------------------------------------------
  // Properties of the summary
  // ---------------------------------------------------------------------------

  /** The number of processing failures among the errors. */
  function ProcessingFailures(es: seq<ConversionError>): nat
    decreases |es|
  {
    if |es| == 0 then 0
    else ProcessingFailures(es[..|es| - 1]) + (if es[|es| - 1].ProcessingFailed? then 1 else 0)
  }

  lemma {:induction false} ProcessingFailuresAppend(a: seq<ConversionError>, b: seq<ConversionError>)
    ensures ProcessingFailures(a + b) == ProcessingFailures(a) + ProcessingFailures(b)
    decreases |b|
  {
    if |b| == 0 {
      assert a + b == a;
    } else {
      assert (a + b)[..|a + b| - 1] == a + b[..|b| - 1];
      ProcessingFailuresAppend(a, b[..|b| - 1]);
    }
  }

  /** One outcome clears `success` exactly when it failed, and adds one to exactly one of the two counts. */
  lemma RecordCounts(r: ConversionResult, o: TableOutcome)
    ensures Record(r, o).success == (r.success && o.result.Ok?)
    ensures Record(r, o).tablesConverted == r.tablesConverted + (if o.result.Ok? then 1 else 0)
    ensures ProcessingFailures(Record(r, o).errors) == ProcessingFailures(r.errors) + (if o.result.Ok? then 0 else 1)
  {
    var validationErrors :=
      if o.verdict.Some? && !o.verdict.value.valid then [ValidationFailed(o.table, Messages(o.verdict.value))] else [];
    assert ProcessingFailures(validationErrors) == 0 by {
      if validationErrors != [] {
        assert validationErrors[..0] == [];
      }
    }
    ProcessingFailuresAppend(r.errors, validationErrors);
    if o.result.Err? {
      var last := [ProcessingFailed(o.table, o.result.error)];
      assert last[..0] == [];
      ProcessingFailuresAppend(r.errors + validationErrors, last);
    }
  }

  /** The run succeeds exactly when no recordSet failed. */
  lemma {:induction false} SummarizeSuccess(os: seq<TableOutcome>)
    ensures Summarize(os).success <==> forall i :: 0 <= i < |os| ==> os[i].result.Ok?
    decreases |os|
  {
    if |os| > 0 {
      var init := os[..|os| - 1];
      var last := os[|os| - 1];
      SummarizeSuccess(init);
      assert Summarize(os) == Record(Summarize(init), last);
      if !last.result.Ok? {
        assert !os[|os| - 1].result.Ok?;
      } else if !Summarize(init).success {
        var i :| 0 <= i < |init| && !init[i].result.Ok?;
        assert !os[i].result.Ok?;
      } else {
        forall i | 0 <= i < |os|
          ensures os[i].result.Ok?
        {
          if i < |init| {
            assert os[i] == init[i];
          }
        }
      }
    }
  }

  /** Every recordSet is either counted as converted or reported once as a processing failure. */
  lemma {:induction false} SummarizeTally(os: seq<TableOutcome>)
    ensures Summarize(os).tablesConverted + ProcessingFailures(Summarize(os).errors) == |os|
    ensures Summarize(os).success <==> ProcessingFailures(Summarize(os).errors) == 0
    decreases |os|
  {
    if |os| > 0 {
      var init := os[..|os| - 1];
      SummarizeTally(init);
      RecordCounts(Summarize(init), os[|os| - 1]);
    }
  }

  /** The number of recordSets whose processing ended without an error. */
  function CountOk(os: seq<TableOutcome>): (n: nat)
    ensures n <= |os|
    decreases |os|
  {
    if |os| == 0 then 0 else CountOk(os[..|os| - 1]) + (if os[|os| - 1].result.Ok? then 1 else 0)
  }

  /** `tables_converted` counts exactly the recordSets processed without an error. */
  lemma {:induction false} SummarizeConverted(os: seq<TableOutcome>)
    ensures Summarize(os).tablesConverted == CountOk(os)
    decreases |os|
  {
    if |os| > 0 {
      SummarizeConverted(os[..|os| - 1]);
      RecordCounts(Summarize(os[..|os| - 1]), os[|os| - 1]);
    }
  }

  /** The run succeeds exactly when every recordSet was converted. */
  lemma SummarizeCounts(os: seq<TableOutcome>)
    ensures Summarize(os).success <==> Summarize(os).tablesConverted == |os|
    ensures Summarize(os).tablesConverted <= |os|
  {
    SummarizeTally(os);
  }

  /** A table is listed in `tables` exactly when some recordSet mapped to it was converted. */
  lemma {:induction false} SummarizeTables(os: seq<TableOutcome>)
    ensures forall t :: t in Summarize(os).tables <==> exists i :: 0 <= i < |os| && os[i].result.Ok? && os[i].table == t
    decreases |os|
  {
    if |os| > 0 {
      var init := os[..|os| - 1];
      SummarizeTables(init);
      assert forall i :: 0 <= i < |init| ==> init[i] == os[i];
      forall t | exists i :: 0 <= i < |os| && os[i].result.Ok? && os[i].table == t
        ensures t in Summarize(os).tables
      {
        var i :| 0 <= i < |os| && os[i].result.Ok? && os[i].table == t;
        if i < |init| {
          assert init[i].result.Ok? && init[i].table == t;
        }
      }
    }
  }

  /**
   * The statistics kept for a table are those of the last recordSet converted into
   * it: a later recordSet with the same table name overwrites the entry.
   */
  lemma {:induction false} SummarizeLastWins(os: seq<TableOutcome>, i: nat)
    requires i < |os| && os[i].result.Ok?
    requires forall j :: i < j < |os| && os[j].result.Ok? ==> os[j].table != os[i].table
    ensures os[i].table in Summarize(os).tables
    ensures Summarize(os).tables[os[i].table] == os[i].result.value
    decreases |os|
  {
    if i < |os| - 1 {
      var init := os[..|os| - 1];
      SummarizeLastWins(init, i);
    }
  }

  /** Every failed verdict is reported in `errors` with its rendered messages. */
  lemma {:induction false} SummarizeReportsValidation(os: seq<TableOutcome>, i: nat)
    requires i < |os| && os[i].verdict.Some? && !os[i].verdict.value.valid
    ensures ValidationFailed(os[i].table, Messages(os[i].verdict.value)) in Summarize(os).errors
    decreases |os|
  {
    var init := os[..|os| - 1];
    if i < |os| - 1 {
      SummarizeReportsValidation(init, i);
      assert Summarize(init).errors <= Summarize(os).errors;
    }
  }

  /**
   * Validation failures alone do not end in failure: when no recordSet fails, the
   * run succeeds even if every verdict is negative.
   */
  lemma ValidationFailureStillSucceeds(os: seq<TableOutcome>)
    requires forall i :: 0 <= i < |os| ==> os[i].result.Ok?
    ensures Summarize(os).success
    ensures Summarize(os).tablesConverted == |os|
  {
    SummarizeSuccess(os);
    SummarizeCounts(os);
  }
}
