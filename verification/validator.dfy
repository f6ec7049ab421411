/**
 * The validator (class OMOPValidator): required fields, primary-key uniqueness and
 * non-nullness, foreign-key orphans, and the per-table aggregate.
 */
module Validator {
  import opened Text
  import opened Frame
  import opened TableMapper

  /** One violation; `Message` gives the text the source reports for it. */
  datatype Violation =
    | MissingRequiredFields(fields: seq<string>)
    | PrimaryKeyNotFound(field: string)
    | PrimaryKeyHasNulls(field: string)
    | PrimaryKeyDuplicates(field: string, count: nat)
    | ForeignKeyNotFound(field: string)
    | ReferencedFieldNotFound(field: string)
    | OrphanedReferences(field: string, count: nat)

  /**
   * The message the source appends for a violation. It names the column the
   * violation is about, and the count where there is one.
   */
  function Message(v: Violation): (r: string)
    ensures v.MissingRequiredFields? ==> StartsWith(r, "Missing required fields: ")
    ensures !v.MissingRequiredFields? ==> Contains(r, v.field)
    ensures v.PrimaryKeyDuplicates? || v.OrphanedReferences? ==> Contains(r, NatToString(v.count))
  {
    match v
    case MissingRequiredFields(fields) =>
      var r := "Missing required fields: " + Join(fields, ", ");
      assert r[..|"Missing required fields: "|] == "Missing required fields: ";
      r
    case PrimaryKeyNotFound(f) =>
      ContainsMiddle("Primary key field '", f, "' not found");
      "Primary key field '" + f + "' not found"
    case PrimaryKeyHasNulls(f) =>
      ContainsMiddle("Primary key '", f, "' contains null values");
      "Primary key '" + f + "' contains null values"
    case PrimaryKeyDuplicates(f, n) =>
      var head := "Primary key '" + f + "' contains ";
      ContainsMiddle("Primary key '", f, "' contains ");
      ContainsInPrefix(head, NatToString(n), f);
      ContainsInPrefix(head + NatToString(n), " duplicate values", f);
      ContainsMiddle(head, NatToString(n), " duplicate values");
      head + NatToString(n) + " duplicate values"
    case ForeignKeyNotFound(f) =>
      ContainsMiddle("Foreign key field '", f, "' not found");
      "Foreign key field '" + f + "' not found"
    case ReferencedFieldNotFound(f) =>
      ContainsMiddle("Referenced field '", f, "' not found in referenced table");
      "Referenced field '" + f + "' not found in referenced table"
    case OrphanedReferences(f, n) =>
      var head := "Foreign key '" + f + "' has ";
      ContainsMiddle("Foreign key '", f, "' has ");
      ContainsInPrefix(head, NatToString(n), f);
      ContainsInPrefix(head + NatToString(n), " orphaned references", f);
      ContainsMiddle(head, NatToString(n), " orphaned references");
      head + NatToString(n) + " orphaned references"
  }

  /** The `(is_valid, errors)` pair every validation returns. */
  datatype Verdict = Verdict(valid: bool, errors: seq<Violation>)

  /** `[f for f in required if f not in columns]`. */
  function MissingFields(columns: seq<string>, required: seq<string>): (r: seq<string>)
    ensures forall x :: x in r <==> x in required && x !in columns
    ensures |r| <= |required|
    decreases |required|
  {
    if |required| == 0 then []
    else (if required[0] in columns then [] else [required[0]]) + MissingFields(columns, required[1..])
  }

  /** The comprehension keeps the order of `required`: it distributes over concatenation. */
  lemma {:induction false} MissingFieldsAppend(columns: seq<string>, a: seq<string>, b: seq<string>)
    ensures MissingFields(columns, a + b) == MissingFields(columns, a) + MissingFields(columns, b)
    decreases |a|
  {
    if |a| == 0 {
      assert a + b == b;
    } else {
      assert (a + b)[1..] == a[1..] + b;
      MissingFieldsAppend(columns, a[1..], b);
    }
  }

  /** `validate_required_fields`: at most one violation, naming every missing field. */
  function ValidateRequiredFields(df: Frame, required: seq<string>): (r: Verdict)
    ensures r.valid <==> r.errors == []
    ensures r.valid <==> forall f :: f in required ==> f in df.columns
    ensures !r.valid ==> r.errors == [MissingRequiredFields(MissingFields(df.columns, required))]
  {
    var missing := MissingFields(df.columns, required);
    if missing != [] then
      assert missing[0] in missing;
      Verdict(false, [MissingRequiredFields(missing)]) else Verdict(true, [])
  }

  /** The message for missing fields names each of them. */
  lemma MissingMessageNamesEach(missing: seq<string>, k: nat)
    requires k < |missing|
    ensures Contains(Message(MissingRequiredFields(missing)), missing[k])
  {
    JoinContainsPart(missing, ", ", k);
    ContainsInSuffix("Missing required fields: ", Join(missing, ", "), missing[k]);
  }

  /** The set of values in a column. */
  function Distinct(col: seq<Value>): set<Value> {
    set v | v in col
  }

  /** Some cell of the column is missing. */
  predicate HasNull(col: seq<Value>) {
    exists i :: 0 <= i < |col| && col[i] == Null
  }

  /** Some value occurs in two different rows (nulls equal each other). */
  predicate HasRepeat(col: seq<Value>) {
    exists i, j :: 0 <= i < j < |col| && col[i] == col[j]
  }

  /**
   * `col.duplicated().sum()`: the rows whose value already occurred in an earlier
   * row, which is the number of rows minus the number of distinct values.
   */
  function DuplicatedCount(col: seq<Value>): (n: nat)
    ensures |Distinct(col)| <= |col|
    ensures n == |col| - |Distinct(col)|
    decreases |col|
  {
    if |col| == 0 then
      assert Distinct(col) == {};
      0
    else
      var init := col[..|col| - 1];
      var last := col[|col| - 1];
      assert col == init + [last];
      assert Distinct(col) == Distinct(init) + {last};
      assert last in init ==> Distinct(col) == Distinct(init);
      DuplicatedCount(init) + (if last in init then 1 else 0)
  }

  /** A row marked duplicated means some value repeats. */
  lemma {:induction false} DuplicatedMeansRepeat(col: seq<Value>)
    ensures DuplicatedCount(col) > 0 ==> HasRepeat(col)
    decreases |col|
  {
    if |col| > 0 {
      var init := col[..|col| - 1];
      var last := col[|col| - 1];
      DuplicatedMeansRepeat(init);
      if last in init {
        var i :| 0 <= i < |init| && init[i] == last;
        assert col[i] == col[|col| - 1];
      } else if HasRepeat(init) {
        var i, j :| 0 <= i < j < |init| && init[i] == init[j];
        assert col[i] == col[j];
      }
    }
  }

  /** A repeated value means some row is marked duplicated. */
  lemma {:induction false} RepeatMeansDuplicated(col: seq<Value>)
    ensures HasRepeat(col) ==> DuplicatedCount(col) > 0
    decreases |col|
  {
    if HasRepeat(col) {
      var init := col[..|col| - 1];
      var last := col[|col| - 1];
      var i, j :| 0 <= i < j < |col| && col[i] == col[j];
      if j == |col| - 1 {
        assert init[i] == last;
      } else {
        assert init[i] == init[j];
        RepeatMeansDuplicated(init);
      }
    }
  }

  /** Some row is marked duplicated exactly when some value repeats. */
  lemma DuplicatedIffRepeat(col: seq<Value>)
    ensures DuplicatedCount(col) > 0 <==> HasRepeat(col)
  {
    DuplicatedMeansRepeat(col);
    RepeatMeansDuplicated(col);
  }

  /**
   * `validate_primary_key`: a missing column is the only violation; otherwise one
   * violation for nulls and one for duplicates, which counts duplicated rows.
   */
  function ValidatePrimaryKey(df: Frame, pk: string): (r: Verdict)
    requires WellFormed(df)
    ensures r.valid <==> r.errors == []
    ensures pk !in df.columns ==> r == Verdict(false, [PrimaryKeyNotFound(pk)])
    ensures pk in df.columns ==>
              var col := Column(df, pk);
              r.errors == (if HasNull(col) then [PrimaryKeyHasNulls(pk)] else [])
                          + (if HasRepeat(col) then [PrimaryKeyDuplicates(pk, DuplicatedCount(col))] else [])
  {
    if pk !in df.columns then Verdict(false, [PrimaryKeyNotFound(pk)])
    else
      var col := Column(df, pk);
      var nullErrors := if Null in col then [PrimaryKeyHasNulls(pk)] else [];
      var count := DuplicatedCount(col);
      DuplicatedIffRepeat(col);
      var duplicateErrors := if count > 0 then [PrimaryKeyDuplicates(pk, count)] else [];
      var errors := nullErrors + duplicateErrors;
      Verdict(|errors| == 0, errors)
  }

  /** `values.dropna()`: the non-null cells, in order. */
  function DropNull(col: seq<Value>): (r: seq<Value>)
    ensures forall v :: v in r <==> v in col && v != Null
    decreases |col|
  {
    if |col| == 0 then []
    else (if col[0] == Null then [] else [col[0]]) + DropNull(col[1..])
  }

  /** The distinct non-null referencing values that the referenced column never holds. */
  function OrphanedValues(fkCol: seq<Value>, refCol: seq<Value>): set<Value> {
    set v | v in fkCol && v != Null && v !in refCol
  }

  /**
   * `validate_foreign_keys`: a missing referencing column is reported before a
   * missing referenced column; otherwise one violation counting orphaned values.
   */
  function ValidateForeignKeys(df: Frame, fk: string, ref: Frame, refField: string): (r: Verdict)
    requires WellFormed(df) && WellFormed(ref)
    ensures r.valid <==> r.errors == []
    ensures fk !in df.columns ==> r == Verdict(false, [ForeignKeyNotFound(fk)])
    ensures fk in df.columns && refField !in ref.columns ==>
              r == Verdict(false, [ReferencedFieldNotFound(refField)])
    ensures fk in df.columns && refField in ref.columns ==>
              var orphans := OrphanedValues(Column(df, fk), Column(ref, refField));
              && (r.valid <==> forall i :: 0 <= i < |df.rows| && Column(df, fk)[i] != Null ==>
                                           Column(df, fk)[i] in Column(ref, refField))
              && (!r.valid ==> r.errors == [OrphanedReferences(fk, |orphans|)])
  {
    if fk !in df.columns then Verdict(false, [ForeignKeyNotFound(fk)])
    else if refField !in ref.columns then Verdict(false, [ReferencedFieldNotFound(refField)])
    else
      var fkCol := Column(df, fk);
      var refCol := Column(ref, refField);
      var orphaned := Distinct(DropNull(fkCol)) - Distinct(refCol);
      assert orphaned == OrphanedValues(fkCol, refCol);
      if |orphaned| > 0 then
        var v :| v in orphaned;
        Verdict(false, [OrphanedReferences(fk, |orphaned|)])
      else
        assert forall i :: 0 <= i < |fkCol| && fkCol[i] != Null ==> fkCol[i] !in orphaned;
        Verdict(true, [])
  }

  /**
   * `validate_table`: the required-field check for registered tables, then the
   * primary-key check on `lower(table)_id` when that column exists.
   */
  function ValidateTable(table: string, df: Frame): (r: Verdict)
    requires WellFormed(df)
    ensures r.valid <==> r.errors == []
    ensures table !in RequiredFields ==> r == Verdict(true, [])
    ensures table in RequiredFields ==>
              var missing := MissingFields(df.columns, RequiredFields[table]);
              var pk := PrimaryKeyColumn(table);
              r.errors == (if missing == [] then [] else [MissingRequiredFields(missing)])
                          + (if pk in df.columns then ValidatePrimaryKey(df, pk).errors else [])
  {
    var required := GetRequiredFields(table);
    var fieldErrors :=
      if required != [] then
        var v := ValidateRequiredFields(df, required);
        if !v.valid then v.errors else []
      else [];
    var pkErrors :=
      if table in RequiredFields then
        var pk := PrimaryKeyColumn(table);
        if pk in df.columns then
          var v := ValidatePrimaryKey(df, pk);
          if !v.valid then v.errors else []
        else []
      else [];
    var errors := fieldErrors + pkErrors;
    Verdict(|errors| == 0, errors)
  }

  /** For a registered table, every missing required field makes it invalid and is named in the first error. */
  lemma MissingRequiredFieldIsNamed(table: string, df: Frame, field: string)
    requires WellFormed(df) && table in RequiredFields
    requires field in RequiredFields[table] && field !in df.columns
    ensures !ValidateTable(table, df).valid
    ensures ValidateTable(table, df).errors[0].MissingRequiredFields?
    ensures field in ValidateTable(table, df).errors[0].fields
  {
    assert field in MissingFields(df.columns, RequiredFields[table]);
  }

  /**
   * A registered table without its key column `lower(table)_id` is invalid, and
   * the first violation names that column: the registry requires it.
   */
  lemma KeylessRegisteredTableIsInvalid(table: string, df: Frame)
    requires WellFormed(df) && table in RequiredFields && PrimaryKeyColumn(table) !in df.columns
    ensures !ValidateTable(table, df).valid
    ensures ValidateTable(table, df).errors[0].MissingRequiredFields?
    ensures PrimaryKeyColumn(table) in ValidateTable(table, df).errors[0].fields
  {
    RegisteredKeyIsRequiredFirst(table);
    MissingRequiredFieldIsNamed(table, df, PrimaryKeyColumn(table));
  }

  /** A PERSON table whose `person_id` column holds 1, 1, 3 fails with one duplicated row. */
  lemma DuplicatePersonIdReported()
    ensures var df := Frame(["person_id", "gender_concept_id"], [Int64, Int64],
                            [[Int(1), Int(8507)], [Int(1), Int(8532)], [Int(3), Int(8507)]]);
            && WellFormed(df)
            && ValidatePrimaryKey(df, "person_id") == Verdict(false, [PrimaryKeyDuplicates("person_id", 1)])
  {
    var df := Frame(["person_id", "gender_concept_id"], [Int64, Int64],
                    [[Int(1), Int(8507)], [Int(1), Int(8532)], [Int(3), Int(8507)]]);
    var col := Column(df, "person_id");
    assert col == [Int(1), Int(1), Int(3)];
    assert !HasNull(col);
    assert Distinct(col) == {Int(1), Int(3)};
    assert |Distinct(col)| == 2;
    assert col[0] == col[1];
  }
}
