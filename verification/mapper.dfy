/**
 * The table mapper (class OMOPTableMapper): resolves a recordSet to an OMOP table,
 * maps its fields, finds its keys, and owns the registry of required fields.
 */
module TableMapper {
  import opened Wrappers
  import opened Text
  import opened Descriptor

  /** One entry of `field_mappings`. */
  datatype FieldMapping = FieldMapping(
    bioField: Option<string>,         // 'bio_field'
    omopField: Option<string>,        // 'omop_field'
    dataType: Option<string>,         // 'data_type'
    isPrimaryKey: bool,               // 'is_primary_key' (its truthiness)
    foreignKeyTable: Option<string>   // 'foreign_key_table'
  )

  /** The dictionary `map_table` returns. */
  datatype TableMapping = TableMapping(
    omopTable: Option<string>,        // 'omop_table'
    fieldMappings: seq<FieldMapping>, // 'field_mappings'
    recordSetId: Option<string>,      // 'recordset_id'
    description: Option<string>       // 'description'
  )

  /** One entry of the list `identify_foreign_keys` returns. */
  datatype ForeignKey = ForeignKey(
    field: Option<string>,            // 'field'
    referencesTable: string,          // 'references_table'
    referencesField: string           // 'references_field'
  )

  /**
   * The target table: `omop:cdmTable` when it is truthy, otherwise `name`
   * (Python `or`, so an empty or null cdmTable falls back too).
   */
  function TargetTable(rs: RecordSet): (t: Option<string>)
    ensures Truthy(rs.cdmTable) ==> t == Some(rs.cdmTable.v)
    ensures !Truthy(rs.cdmTable) ==> t == rs.name.Get()
  {
    if Truthy(rs.cdmTable) then Some(rs.cdmTable.v) else rs.name.Get()
  }

  /** The truthiness of `omop:isPrimaryKey`; an absent flag reads as `False`. */
  predicate PrimaryKeyFlag(f: Field) {
    f.isPrimaryKey == Val(true)
  }

  /**
   * One field's mapping. The OMOP field name falls back to `name` only when
   * `omop:cdmField` is absent (`dict.get` with a default): an empty cdmField is
   * kept, a null one gives None.
   */
  function MapField(f: Field): (fm: FieldMapping)
    ensures fm.bioField == f.name.Get()
    ensures f.cdmField.Absent? ==> fm.omopField == f.name.Get()
    ensures f.cdmField.Val? ==> fm.omopField == Some(f.cdmField.v)
    ensures f.cdmField.Null? ==> fm.omopField == None
    ensures fm.dataType == f.dataType.Get()
    ensures fm.isPrimaryKey <==> PrimaryKeyFlag(f)
    ensures fm.foreignKeyTable == f.foreignKeyTable.Get()
  {
    FieldMapping(
      f.name.Get(),
      f.cdmField.GetOr(f.name.Get()),
      f.dataType.Get(),
      PrimaryKeyFlag(f),
      f.foreignKeyTable.Get())
  }

  /** The mappings of a list of fields: one per field, in field order. */
  function FieldMappings(fs: seq<Field>): (r: seq<FieldMapping>)
    ensures |r| == |fs|
    ensures forall i :: 0 <= i < |fs| ==> r[i] == MapField(fs[i])
    decreases |fs|
  {
    if |fs| == 0 then [] else [MapField(fs[0])] + FieldMappings(fs[1..])
  }

  /** What `map_table` computes for a recordSet. */
  function MappingOf(rs: RecordSet): (m: TableMapping)
    ensures m.omopTable == TargetTable(rs)
    ensures m.fieldMappings == FieldMappings(ExtractFields(rs))
    ensures m.recordSetId == rs.id.Get()
    ensures m.description == rs.description.Get()
  {
    TableMapping(TargetTable(rs), FieldMappings(ExtractFields(rs)), rs.id.Get(), rs.description.Get())
  }

  /** `map_table`: builds `field_mappings` by appending one mapping per field. */
  method MapTable(rs: RecordSet) returns (m: TableMapping)
    ensures m == MappingOf(rs)
  {
    var omopTable := TargetTable(rs);
    var fields := ExtractFields(rs);
    var fieldMappings: seq<FieldMapping> := [];
    for i := 0 to |fields|
      invariant |fieldMappings| == i
      invariant forall k :: 0 <= k < i ==> fieldMappings[k] == MapField(fields[k])
    {
      fieldMappings := fieldMappings + [MapField(fields[i])];
    }
    m := TableMapping(omopTable, fieldMappings, rs.id.Get(), rs.description.Get());
  }

  /**
   * `identify_primary_key`: the name of the first flagged field, or None when no
   * field is flagged. Later flagged fields are ignored.
   */
  method IdentifyPrimaryKey(fields: seq<Field>) returns (pk: Option<string>)
    ensures (forall i :: 0 <= i < |fields| ==> !PrimaryKeyFlag(fields[i])) ==> pk == None
    ensures forall i :: 0 <= i < |fields| && PrimaryKeyFlag(fields[i])
                        && (forall j :: 0 <= j < i ==> !PrimaryKeyFlag(fields[j]))
                        ==> pk == fields[i].name.Get()
  {
    for i := 0 to |fields|
      invariant forall j :: 0 <= j < i ==> !PrimaryKeyFlag(fields[j])
    {
      if PrimaryKeyFlag(fields[i]) {
        return fields[i].name.Get();
      }
    }
    return None;
  }

  /** A field declares a foreign key when its `omop:foreignKeyTable` is truthy. */
  predicate IsForeignKey(f: Field) {
    Truthy(f.foreignKeyTable)
  }

  /** The last `/` segment of `references.@id`; empty when either key is absent. */
  function ReferencedField(f: Field): (r: string)
    ensures f.references.None? ==> r == ""
    ensures f.references.Some? && f.references.value.id.None? ==> r == ""
    ensures f.references.Some? && f.references.value.id.Some? ==>
              var id := f.references.value.id.value;
              EndsWith(id, r) && '/' !in r && (|r| < |id| ==> id[|id| - |r| - 1] == '/')
  {
    match f.references
    case None => LastSegment("")
    case Some(ref) => LastSegment(ref.id.GetOr(""))
  }

  /** The entry `identify_foreign_keys` produces for one foreign-key field. */
  function ForeignKeyOf(f: Field): ForeignKey
    requires IsForeignKey(f)
  {
    ForeignKey(f.name.Get(), f.foreignKeyTable.v, ReferencedField(f))
  }

  /** The foreign-key entries of `fs`, in field order. */
  function ForeignKeysOf(fs: seq<Field>): (r: seq<ForeignKey>)
    ensures forall k :: 0 <= k < |r| ==> r[k].referencesTable != ""
    decreases |fs|
  {
    if |fs| == 0 then []
    else
      var last := fs[|fs| - 1];
      ForeignKeysOf(fs[..|fs| - 1]) + (if IsForeignKey(last) then [ForeignKeyOf(last)] else [])
  }

  /** `identify_foreign_keys`: an in-order filter over the fields. */
  method IdentifyForeignKeys(fields: seq<Field>) returns (foreignKeys: seq<ForeignKey>)
    ensures foreignKeys == ForeignKeysOf(fields)
  {
    foreignKeys := [];
    for i := 0 to |fields|
      invariant foreignKeys == ForeignKeysOf(fields[..i])
    {
      assert fields[..i + 1][..i] == fields[..i];
      var field := fields[i];
      if IsForeignKey(field) {
        foreignKeys := foreignKeys + [ForeignKeyOf(field)];
      }
    }
    assert fields[..|fields|] == fields;
  }

  /** The foreign keys of a concatenation are those of each part, in order. */
  lemma {:induction false} ForeignKeysOfAppend(a: seq<Field>, b: seq<Field>)
    ensures ForeignKeysOf(a + b) == ForeignKeysOf(a) + ForeignKeysOf(b)
    decreases |b|
  {
    if |b| == 0 {
      assert a + b == a;
    } else {
      var last := b[|b| - 1];
      assert (a + b)[..|a + b| - 1] == a + b[..|b| - 1];
      ForeignKeysOfAppend(a, b[..|b| - 1]);
    }
  }

  /** Every field with a truthy foreign-key table contributes its entry; none do when no field has one. */
  lemma {:induction false} ForeignKeysOfComplete(fs: seq<Field>)
    ensures forall i :: 0 <= i < |fs| && IsForeignKey(fs[i]) ==> ForeignKeyOf(fs[i]) in ForeignKeysOf(fs)
    ensures ForeignKeysOf(fs) == [] <==> forall i :: 0 <= i < |fs| ==> !IsForeignKey(fs[i])
    decreases |fs|
  {
    if |fs| > 0 {
      var init := fs[..|fs| - 1];
      var last := fs[|fs| - 1];
      ForeignKeysOfComplete(init);
      assert forall i :: 0 <= i < |init| ==> init[i] == fs[i];
      assert ForeignKeysOf(fs) == ForeignKeysOf(init) + (if IsForeignKey(last) then [ForeignKeyOf(last)] else []);
    }
  }

  /** Every entry is the entry of some field with a truthy foreign-key table. */
  lemma {:induction false} ForeignKeysOfSound(fs: seq<Field>)
    ensures forall fk :: fk in ForeignKeysOf(fs) ==>
              exists i :: 0 <= i < |fs| && IsForeignKey(fs[i]) && fk == ForeignKeyOf(fs[i])
    decreases |fs|
  {
    if |fs| > 0 {
      var init := fs[..|fs| - 1];
      var last := fs[|fs| - 1];
      ForeignKeysOfSound(init);
      forall fk | fk in ForeignKeysOf(fs)
        ensures exists i :: 0 <= i < |fs| && IsForeignKey(fs[i]) && fk == ForeignKeyOf(fs[i])
      {
        if fk in ForeignKeysOf(init) {
          var i :| 0 <= i < |init| && IsForeignKey(init[i]) && fk == ForeignKeyOf(init[i]);
          assert fs[i] == init[i];
        } else {
          assert IsForeignKey(last) && fk == ForeignKeyOf(last);
        }
      }
    }
  }

  /** `REQUIRED_FIELDS`: the fixed registry of OMOP tables and their mandatory fields. */
  const RequiredFields: map<string, seq<string>> := map[
    "PERSON" := ["person_id", "gender_concept_id", "year_of_birth", "race_concept_id", "ethnicity_concept_id"],
    "CONDITION_OCCURRENCE" := ["condition_occurrence_id", "person_id", "condition_concept_id", "condition_start_date", "condition_type_concept_id"],
    "PROCEDURE_OCCURRENCE" := ["procedure_occurrence_id", "person_id", "procedure_concept_id", "procedure_date", "procedure_type_concept_id"],
    "DRUG_EXPOSURE" := ["drug_exposure_id", "person_id", "drug_concept_id", "drug_exposure_start_date", "drug_type_concept_id"],
    "VISIT_OCCURRENCE" := ["visit_occurrence_id", "person_id", "visit_concept_id", "visit_start_date", "visit_type_concept_id"],
    "OBSERVATION" := ["observation_id", "person_id", "observation_concept_id", "observation_date", "observation_type_concept_id"]
  ]

  /** `get_required_fields`: the registered list, or none for an unknown table. */
  function GetRequiredFields(table: string): (r: seq<string>)
    ensures table in RequiredFields ==> r == RequiredFields[table]
    ensures table !in RequiredFields ==> r == []
  {
    if table in RequiredFields then RequiredFields[table] else []
  }

  /** The primary-key column the validator derives for a table: `lower(table) + "_id"`. */
  function PrimaryKeyColumn(table: string): string {
    Lower(table) + "_id"
  }

  /** The key column of a table whose lower-cased name is `lower`. */
  lemma KeyColumnIs(table: string, lower: string)
    requires |table| == |lower|
    requires forall i :: 0 <= i < |table| ==> LowerChar(table[i]) == lower[i]
    ensures PrimaryKeyColumn(table) == lower + "_id"
  {
    assert Lower(table) == lower;
  }

  // The key column of each registered table, one table per lemma to keep each
  // character-by-character check small.
  lemma PersonKeyColumn()
    ensures PrimaryKeyColumn("PERSON") == "person_id"
  {
    KeyColumnIs("PERSON", "person");
  }

  lemma ConditionKeyColumn()
    ensures PrimaryKeyColumn("CONDITION_OCCURRENCE") == "condition_occurrence_id"
  {
    KeyColumnIs("CONDITION_OCCURRENCE", "condition_occurrence");
  }

  lemma ProcedureKeyColumn()
    ensures PrimaryKeyColumn("PROCEDURE_OCCURRENCE") == "procedure_occurrence_id"
  {
    KeyColumnIs("PROCEDURE_OCCURRENCE", "procedure_occurrence");
  }

  lemma DrugKeyColumn()
    ensures PrimaryKeyColumn("DRUG_EXPOSURE") == "drug_exposure_id"
  {
    KeyColumnIs("DRUG_EXPOSURE", "drug_exposure");
  }

  lemma VisitKeyColumn()
    ensures PrimaryKeyColumn("VISIT_OCCURRENCE") == "visit_occurrence_id"
  {
    KeyColumnIs("VISIT_OCCURRENCE", "visit_occurrence");
  }

  lemma ObservationKeyColumn()
    ensures PrimaryKeyColumn("OBSERVATION") == "observation_id"
  {
    KeyColumnIs("OBSERVATION", "observation");
  }

  /**
   * For every registered table, the key column the validator derives,
   * `lower(table) + "_id"`, is the first field the registry requires of it.
   */
  lemma RegisteredKeyIsRequiredFirst(table: string)
    requires table in RequiredFields
    ensures PrimaryKeyColumn(table) == RequiredFields[table][0]
  {
    PersonKeyColumn();
    ConditionKeyColumn();
    ProcedureKeyColumn();
    DrugKeyColumn();
    VisitKeyColumn();
    ObservationKeyColumn();
  }

  /** Every registered clinical table is tied to a person: it requires `person_id`. */
  lemma RegisteredTablesRequirePersonId(table: string)
    requires table in RequiredFields
    ensures "person_id" in RequiredFields[table]
  {
    if table == "PERSON" {
      assert RequiredFields[table][0] == "person_id";
    } else {
      assert RequiredFields[table][1] == "person_id";
    }
  }
}
