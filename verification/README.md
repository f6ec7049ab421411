# Bio-Croissant to OMOP CDM converter — a Dafny model

This project models the core of a converter. The converter reads a Bio-Croissant
dataset descriptor (a JSON-LD document with `recordSet`s, their `field`s and file
`distribution`s) and turns every recordSet into a table of the OMOP Common Data
Model. For each recordSet it:

1. maps the recordSet to an OMOP table name and field mappings;
2. finds the CSV file that the first field's `source.fileObject.@id` points at;
3. optionally validates the table (required fields, primary-key nulls and
   duplicates);
4. exports it as CSV and/or SQL (`CREATE TABLE` plus batched `INSERT`s);
5. summarises the run in a result dictionary.

The project also models the two ISO/IEC 11179 checks of the descriptor validator.

The modules follow the program's classes:

- `Descriptor` is the parser and the JSON shapes it reads.
- `TableMapper` is `OMOPTableMapper`.
- `Extractor` is the path resolution and format dispatch of `DataExtractor`.
- `Frame` is the pandas DataFrame, reduced to columns, dtype tags and rows.
- `Validator` is `OMOPValidator`.
- `Exporter` is `OMOPExporter`.
- `Converter` is `BioCroissantToOMOPConverter`.
- `Iso11179` covers the two checks in `validate_v0.3.py`.
- `Text` and `Wrappers` are shared helpers: string functions, `Option` and `Result`.

JSON keys are modelled in two ways:

- A scalar key is `Prop<T>`, which is `Absent`, `Null` or `Val(v)`. This keeps
  `d.get(k)` apart from `d.get(k, default)`: the first turns both absent and null
  into None; the second falls back to the default only when the key is absent.
- A list- or object-valued key is an `Option`, where None means absent.

Some source behaviour becomes error values:

- Exceptions the source raises and catches become `Result` errors: `ExtractError`
  and `ProcessError`.
- The validators return a `Verdict`, which holds typed violations. `Message`
  renders each violation as the source's text.

External effects are parameters:

- Reading a CSV is `read: Path -> Result<Frame, string>`.
- Writing a file is `write: OutputFile -> Option<string>`, which returns an error
  message or None.
- `Path.cwd()` is the `cwd` parameter of `Converter.Convert`.

Where the source loops, the model is a method. Most of them are proved against a
specification function:

- `Descriptor.GetDistributionById` against `FindDistribution`.
- `TableMapper.MapTable` against `MappingOf`, and `TableMapper.IdentifyForeignKeys`
  against `ForeignKeysOf`.
- `Exporter.GenerateDdl` against `DdlOf`, and `Exporter.GenerateInsertStatements`
  against `InsertsOf`.
- `Converter.CreateTableSchema` against `SchemaOf`, and `Converter.Convert`
  against `Summarize(Outcomes(...))`.
- `Iso11179.CheckFieldIso11179` against `SummaryOf`.

Lemmas then state what those functions promise. `TableMapper.IdentifyPrimaryKey`
has no specification function: its `ensures` state the first-flagged-field rule
directly.

Two behaviours of the code are easy to miss:

- `generate_ddl` itself defaults a field without `nullable` to nullable, even when
  it is a primary key (`Exporter.ColumnDefinition`). Only the schema that
  `_create_table_schema` builds makes keys non-nullable, and `Converter.NotNullExactlyOnKeys`
  proves that for the converter's path.
- A failed validation is reported in `errors` but does not set `success` to false
  (`Converter.ValidationFailureStillSucceeds`).

## Model

| member | source | states |
|---|---|---|
| Descriptor.ExtractRecordSets | biocroissant_to_omop.py:28-37 | the recordSets, or the empty list when `recordSet` is absent |
| Descriptor.ExtractFields | biocroissant_to_omop.py:39-48 | the fields of a recordSet, or the empty list when `field` is absent |
| Descriptor.ExtractDistributions | biocroissant_to_omop.py:50-59 | the distributions, or the empty list when `distribution` is absent |
| Descriptor.FindDistribution | biocroissant_to_omop.py:61-75 | None exactly when no distribution has that `@id`; otherwise the first distribution whose `@id` matches (no earlier one matches) |
| Descriptor.GetDistributionById | biocroissant_to_omop.py:61-75 | the linear search returns what `FindDistribution` specifies: the first match or None |
| TableMapper.TargetTable | biocroissant_to_omop.py:100 | `omop:cdmTable` when it is truthy, otherwise `name` (None when absent or null) |
| TableMapper.MapField | biocroissant_to_omop.py:105-111 | `omop_field` is `omop:cdmField` when present (None when it is JSON null) and falls back to `name` only when the key is absent; the primary-key flag is the truthiness of `omop:isPrimaryKey` |
| TableMapper.FieldMappings | biocroissant_to_omop.py:103-111 | one mapping per field, in field order |
| TableMapper.MappingOf | biocroissant_to_omop.py:91-118 | the table is `TargetTable`, the field mappings are those of the recordSet's fields, and `recordset_id` and `description` are the recordSet's `@id` and `description` (None when absent or null) |
| TableMapper.MapTable | biocroissant_to_omop.py:91-118 | the loop builds exactly `MappingOf(rs)`, including `@id` and `description` |
| TableMapper.IdentifyPrimaryKey | biocroissant_to_omop.py:120-132 | None when no field is flagged; otherwise the name of the first flagged field, so later flagged fields are ignored |
| TableMapper.ReferencedField | biocroissant_to_omop.py:150 | the text after the last `/` of `references.@id`: a suffix without `/` that is preceded by `/` unless it is the whole id; empty when `references` or its `@id` is absent |
| TableMapper.IdentifyForeignKeys | biocroissant_to_omop.py:134-152 | the loop returns `ForeignKeysOf(fields)`, the in-order filter of fields with a truthy `omop:foreignKeyTable` |
| TableMapper.ForeignKeysOf | biocroissant_to_omop.py:143-152 | the in-order filter of the fields with a truthy `omop:foreignKeyTable`; every entry's referenced table is non-empty |
| TableMapper.ForeignKeysOfAppend | biocroissant_to_omop.py:144-151 | the filter distributes over concatenation, so it keeps field order |
| TableMapper.ForeignKeysOfComplete | biocroissant_to_omop.py:144-151 | every field with a truthy foreign-key table contributes its entry; the list is empty exactly when no field has one |
| TableMapper.ForeignKeysOfSound | biocroissant_to_omop.py:144-151 | every entry comes from a field whose foreign-key table is truthy |
| TableMapper.GetRequiredFields | biocroissant_to_omop.py:154-163 | the registered list for the six tables, the empty list for any other name |
| TableMapper.RegisteredKeyIsRequiredFirst | biocroissant_to_omop.py:82-89 | for each of the six registered tables, the key column `lower(table) + "_id"` that validate_table derives (:232) is the first field the registry requires |
| TableMapper.RegisteredTablesRequirePersonId | biocroissant_to_omop.py:82-89 | every registered table requires `person_id` |
| Extractor.JoinPath | biocroissant_to_omop.py:196 | `base / rel`: `rel` itself for an empty base, `base + rel` when the base ends in `/`, otherwise `base + "/" + rel`; so the result starts with the base and ends with `rel` |
| Extractor.ResolveDistribution | biocroissant_to_omop.py:190-202 | checks in the source's order: a missing or empty `contentUrl` fails first; a null `encodingFormat` fails; success exactly when the lower-cased format (default `text/csv`) contains `csv`; a relative URL is joined to the base path, an absolute URL or a missing base leaves it as is |
| Extractor.ExtractFromDistribution | biocroissant_to_omop.py:180-202 | a resolution error is returned unchanged; otherwise the reader's table, or its failure as `ReadFailed` |
| Extractor.CsvDispatchIgnoresCase | biocroissant_to_omop.py:199 | the format test gives the same answer for a format and its lower-cased form |
| Extractor.DefaultEncodingIsCsv | biocroissant_to_omop.py:198-199 | a distribution without `encodingFormat` counts as `text/csv` and is accepted |
| Validator.Message | biocroissant_to_omop.py:253-313 | the text of each violation: the missing-fields message starts with `Missing required fields: `; every other message names its column, and the duplicate and orphan messages contain their count |
| Validator.MissingFields | biocroissant_to_omop.py:278 | a name is missing exactly when it is required and not a column; there are at most as many as required |
| Validator.MissingFieldsAppend | biocroissant_to_omop.py:278 | the comprehension distributes over concatenation, so it keeps the required order |
| Validator.ValidateRequiredFields | biocroissant_to_omop.py:267-283 | valid exactly when every required field is a column; otherwise one violation listing the missing fields |
| Validator.MissingMessageNamesEach | biocroissant_to_omop.py:281 | the rendered message contains every missing field's name |
| Validator.DuplicatedCount | biocroissant_to_omop.py:261-262 | the number of duplicated rows is the row count minus the number of distinct values |
| Validator.DuplicatedMeansRepeat | biocroissant_to_omop.py:261 | a positive duplicated-row count means two rows hold the same value |
| Validator.RepeatMeansDuplicated | biocroissant_to_omop.py:261 | two rows holding the same value give a positive duplicated-row count |
| Validator.DuplicatedIffRepeat | biocroissant_to_omop.py:261 | some row is marked duplicated exactly when two rows hold the same value |
| Validator.ValidatePrimaryKey | biocroissant_to_omop.py:240-265 | a missing key column is the only violation; otherwise a null violation exactly when some cell is null, then a duplicate violation carrying the duplicated-row count exactly when a value repeats; valid exactly when there are no violations |
| Validator.DropNull | biocroissant_to_omop.py:308 | keeps exactly the non-null values |
| Validator.ValidateForeignKeys | biocroissant_to_omop.py:285-315 | a missing referencing column is reported before a missing referenced column; otherwise valid exactly when every non-null referencing value occurs in the referenced column, and one violation counts the distinct orphaned values |
| Validator.ValidateTable | biocroissant_to_omop.py:211-238 | an unregistered table is valid; for a registered table, the missing-fields violation (if any) comes first, then the primary-key violations on `lower(table)_id` when that column exists; valid exactly when there are no errors |
| Validator.MissingRequiredFieldIsNamed | biocroissant_to_omop.py:224-228 | any missing required field of a registered table makes it invalid and is named in the first violation |
| Validator.KeylessRegisteredTableIsInvalid | biocroissant_to_omop.py:224-236 | a registered table without its key column `lower(table)_id` is invalid, and its first violation is the missing-fields one, which names that column |
| Validator.DuplicatePersonIdReported | biocroissant_to_omop.py:257-263 | a `person_id` column holding 1, 1, 3 gives exactly one violation: one duplicated row |
| Exporter.MapDatatype | biocroissant_to_omop.py:418-427 | the registered SQL type, or `VARCHAR(255)` for an unregistered type or None; always one of the six SQL types |
| Exporter.MissingDatatypeIsText | biocroissant_to_omop.py:427 | None, `sc:Text` and any unregistered type all map to the same SQL type |
| Exporter.ColumnDefinitionStartsWithNameAndType | biocroissant_to_omop.py:364 | a column definition starts with two spaces, the column name (None rendered as `None`) and its SQL type |
| Exporter.DefineColumn | biocroissant_to_omop.py:359-366 | the statements building one column definition produce `ColumnDefinition` |
| Exporter.ColumnDefinitions | biocroissant_to_omop.py:355-368 | one column definition per field, in field order |
| Exporter.NotNullExactlyWhenNotNullable | biocroissant_to_omop.py:361-366 | a column definition ends in ` NOT NULL` exactly when its field is not nullable |
| Exporter.PrimaryKeyNames | biocroissant_to_omop.py:356-371 | the primary-key names, collected in field order; never more names than fields |
| Exporter.PrimaryKeyNamesMembers | biocroissant_to_omop.py:370-371 | the collected names are exactly those of the primary-key fields; none when no field is a key |
| Exporter.PrimaryKeyNamesAppend | biocroissant_to_omop.py:358-371 | the names are collected in field order |
| Exporter.PrimaryKeyNamesSingle | biocroissant_to_omop.py:370-371 | with exactly one primary-key field, its name is the only one collected |
| Exporter.PrimaryKeyClause | biocroissant_to_omop.py:375-376 | the clause is present exactly when there is a primary key |
| Exporter.DdlOf | biocroissant_to_omop.py:340-380 | the statement fails exactly when some primary-key field has no name (`", ".join` raises) |
| Exporter.DdlNamesSinglePrimaryKey | biocroissant_to_omop.py:373-378 | a schema with one named primary-key field yields a statement containing `PRIMARY KEY (<name>)` |
| Exporter.GenerateDdl | biocroissant_to_omop.py:340-380 | the loop produces exactly `DdlOf(schema)`; the dialect has no effect |
| Exporter.UnescapeEscape | biocroissant_to_omop.py:406 | doubling single quotes loses nothing: unescaping gives the original string back |
| Exporter.Literal | biocroissant_to_omop.py:402-408 | null becomes `NULL`; a string becomes a quoted literal whose inside reads back as the string |
| Exporter.RowTuple | biocroissant_to_omop.py:401-409 | a row's tuple of literals is enclosed in parentheses |
| Exporter.ChunksFlatten | biocroissant_to_omop.py:396-397 | the batches cover every row once, in order |
| Exporter.ChunksShape | biocroissant_to_omop.py:396-397 | no batches for no rows; otherwise k batches with (k-1)·size < rows <= k·size; every batch is non-empty and at most `size` long, and all but the last are full |
| Exporter.InsertStatement | biocroissant_to_omop.py:411-414 | one batch's statement starts with `INSERT INTO <table> (<columns>) VALUES` and ends with `;` |
| Exporter.StatementsAt | biocroissant_to_omop.py:396-414 | the statement at position i is the statement of batch i |
| Exporter.InsertsOf | biocroissant_to_omop.py:393-416 | one statement per batch of `batchSize` rows, and statement i is that of batch i |
| Exporter.InsertsCount | biocroissant_to_omop.py:382-416 | an empty table gives no statements; otherwise one statement per batch, ceil(rows / batch size) of them |
| Exporter.BatchValues | biocroissant_to_omop.py:400-409 | one `(v1, v2, ...)` tuple of literals per row of the batch, in order |
| Exporter.BatchStatement | biocroissant_to_omop.py:397-414 | the statements building one batch's `INSERT` produce `InsertStatement` |
| Exporter.GenerateInsertStatements | biocroissant_to_omop.py:382-416 | the loop produces exactly `InsertsOf`: one multi-row `INSERT` per batch, in batch order |
| Converter.SqlTypeFor | biocroissant_to_omop.py:579-593 | an observed int64, float64 or bool dtype gives INTEGER, FLOAT or BOOLEAN; any other dtype, or a field that is not a column, gives the mapped declared type; always a known SQL type |
| Converter.SchemaOf | biocroissant_to_omop.py:566-605 | one field per mapping, in order, named by the OMOP field; a primary key exactly when mapped as one, and nullable exactly when not |
| Converter.CreateTableSchema | biocroissant_to_omop.py:566-605 | the loop builds exactly `SchemaOf(mapping, df)` |
| Converter.NotNullExactlyOnKeys | biocroissant_to_omop.py:598-599 | in the converter's DDL a column is `NOT NULL` exactly when it is mapped as a primary key |
| Converter.SinglePrimaryKeyTable | biocroissant_to_omop.py:508-509 | a table with one primary-key field gets a `CREATE TABLE` with `PRIMARY KEY (<name>)`, and that column is `NOT NULL` |
| Converter.SourceReference | biocroissant_to_omop.py:551-553 | `source.fileObject.@id`, None when any level is absent |
| Converter.ExtractTableData | biocroissant_to_omop.py:533-564 | no fields, no truthy reference, and an unknown distribution are each reported with their own error, in that order; otherwise the extraction of that distribution relative to the base path |
| Converter.OnlyFirstFieldReferenceCounts | biocroissant_to_omop.py:550-553 | the fields after the first do not affect which data is extracted |
| Converter.OutputPath | biocroissant_to_omop.py:503-517 | `output_dir / name`: an absolute name is used as it is; otherwise the name is joined to the directory, so the path starts with the directory and ends with the name |
| Converter.PlanExport | biocroissant_to_omop.py:502-519 | csv/both writes `<table>.csv`; sql/both then writes `<table>_ddl.sql` and the blank-line-joined `INSERT`s in `<table>_data.sql`; a DDL failure stops after the CSV |
| Converter.WriteAll | biocroissant_to_omop.py:502-519 | files are written in order up to the first failing write; none fails exactly when all are written; a failure names the failed path and message |
| Converter.TableVerdict | biocroissant_to_omop.py:493 | a table named None passes; otherwise `ValidateTable` |
| Converter.ProcessRecordSet | biocroissant_to_omop.py:484-529 | one pass of the loop body; the outcome carries the table name `map_table` gives |
| Converter.ProcessRecordSetOutcome | biocroissant_to_omop.py:484-529 | an extraction error ends the recordSet with nothing validated or written; otherwise the verdict is recorded when asked for, the files written before a failure are kept, and the statistics are reported exactly when the plan and all writes succeed |
| Converter.ValidationDoesNotDecideConversion | biocroissant_to_omop.py:492-499 | turning validation on or off changes neither the result of a recordSet nor the files written |
| Converter.Record | biocroissant_to_omop.py:494-529 | one outcome clears `success` exactly when it failed, counts the table and stores its statistics exactly when it succeeded, stores the verdict when there is one, only appends to `errors`, and ends them with the processing failure when it failed |
| Converter.Summarize | biocroissant_to_omop.py:474-531 | the result after the outcomes in order: at most one converted table per recordSet, and at least one error for each recordSet not converted |
| Converter.Outcomes | biocroissant_to_omop.py:483-485 | one outcome per recordSet, in document order, each carrying its mapped table name |
| Converter.AddOutcome | biocroissant_to_omop.py:494-529 | the bookkeeping of one recordSet equals `Record` |
| Converter.Convert | biocroissant_to_omop.py:440-531 | the loop returns the summary of the recordSets' outcomes, in document order, with the working directory as the default base path |
| Converter.RecordCounts | biocroissant_to_omop.py:521-529 | one outcome clears `success` exactly when it failed, and adds one to exactly one of the converted count and the failure count |
| Converter.SummarizeSuccess | biocroissant_to_omop.py:474-529 | the run succeeds exactly when no recordSet failed |
| Converter.SummarizeTally | biocroissant_to_omop.py:521-529 | converted tables plus processing failures equal the number of recordSets |
| Converter.SummarizeCounts | biocroissant_to_omop.py:474-529 | the run succeeds exactly when every recordSet was converted |
| Converter.SummarizeConverted | biocroissant_to_omop.py:521 | `tables_converted` is exactly the number of recordSets processed without an error |
| Converter.SummarizeTables | biocroissant_to_omop.py:522-525 | a table appears in `tables` exactly when some recordSet mapped to it was converted |
| Converter.SummarizeLastWins | biocroissant_to_omop.py:522-525 | a table's statistics are those of the last recordSet converted into it |
| Converter.SummarizeReportsValidation | biocroissant_to_omop.py:498-499 | every failed verdict is reported in `errors` with its messages |
| Converter.ValidationFailureStillSucceeds | biocroissant_to_omop.py:474-529 | when no recordSet fails, the run succeeds and converts every recordSet, whatever the verdicts |
| Iso11179.CheckIso11179Metadata | validate_v0.3.py:78-86 | the level flag holds exactly for the strings `Level 2` and `Level 3`; each registry flag holds exactly when its key is present, even with a null value |
| Iso11179.AllFields | validate_v0.3.py:97-98 | the fields of every recordSet: each recordSet's fields are included, and nothing else |
| Iso11179.CountWith | validate_v0.3.py:99-108 | the number of fields carrying a key, at most the number of fields |
| Iso11179.SummaryOf | validate_v0.3.py:90-110 | `total_fields` is the number of fields, and each of the three counters is at most it |
| Iso11179.CheckFieldIso11179 | validate_v0.3.py:88-110 | the nested loop returns the total field count and the counts of fields carrying each of the three keys, over every recordSet |
| Iso11179.CountWithBounded | validate_v0.3.py:101-108 | a count is at most the number of fields; it equals it exactly when every field has the key, and is 0 exactly when none has |
| Iso11179.CountWithAppend | validate_v0.3.py:97-108 | the counts add up over recordSets |
| Text.JoinContainsPart | biocroissant_to_omop.py:281 | a joined string contains each part |
| Text.ParseNatToString | biocroissant_to_omop.py:263 | the decimal rendering of a count reads back as that count |

## Left out

- JSON `null` where the source expects a list or an object (`recordSet`, `field`,
  `distribution`, `source`, `fileObject`, `references`) makes the source raise a
  `TypeError` or `AttributeError`. These keys are modelled as present or absent only.
- Lower-casing (`str.lower`) is modelled for ASCII letters only; other characters
  are left unchanged.
- Paths are text. The model does not normalise them (`..`, repeated `/`), and an
  absolute path is one that starts with `/` (POSIX).
- Exporter.GenerateInsertStatements: requires `batchSize > 0`. With a step of 0,
  `range` raises, and a negative size yields no statements; the converter always
  passes 100.
- The dtype upcasting of `iterrows` (an int cell in a row that also holds floats
  prints as a float) and the `str()` text of non-string cells are not modelled: a
  cell that is not null, an int, a string or a bool carries its printed text as
  `Other(repr)`. Floats are among them, so there is no floating-point arithmetic
  and NaN is modelled as `Null`.
- Cell equality is structural equality of `Value`. pandas' cross-type equality
  (`1 == 1.0 == True`) in `duplicated` and `unique` is not modelled.
- The exact text of exception messages, and `str(list)` in the "Validation failed
  for ..." entry, are not rendered. Errors are typed values that carry their data
  (`ProcessError`, `ConversionError`).
- I/O is outside the model: `json.load` of the descriptor (the model takes the
  parsed `Metadata`), `pd.read_csv` (the `read` parameter), `to_csv` and the file
  writes (the `write` parameter, with `export_csv` as the write of a `CsvFile`),
  and `Path.cwd()` (the `cwd` parameter).
- `main` and the command line of both scripts are not modelled. Neither are
  `validate_file` and `validate_value_domains` of the descriptor validator, which
  are not part of the modelled core.
- JSON values are narrowed to one type per key: `omop:isPrimaryKey` is a boolean,
  and `name`, `omop:cdmTable`, `omop:cdmField`, `omop:foreignKeyTable`,
  `dataType`, `contentUrl`, `encodingFormat` and `@id` (including
  `references.@id`, which may be absent but not null) are strings. The truthiness
  of other JSON value types (a flag of `1` or `"yes"`, a numeric table name) is not
  modelled. Neither is the exception that a null `references.@id` raises in `.split`.
- `BioCroissantParser.parse` is the identity and has no member of its own.
