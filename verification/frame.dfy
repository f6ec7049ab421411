/**
 * The in-memory table the extractor produces (a pandas DataFrame): named columns,
 * an abstract dtype tag per column, and rows of cell values.
 */
module Frame {

  /** A cell: missing (None/NaN), an integer, a string, a boolean, or anything else with its `str()` text. */
  datatype Value = Null | Int(i: int) | Str(s: string) | Bool(b: bool) | Other(repr: string)

  /** The dtype pandas inferred for a column, as far as the converter distinguishes them. */
  datatype Kind = Int64 | Float64 | BoolKind | ObjectKind | OtherKind

  datatype Frame = Frame(columns: seq<string>, kinds: seq<Kind>, rows: seq<seq<Value>>)

  /** A DataFrame is rectangular, has one dtype per column, and (as `read_csv` makes it) distinct column names. */
  ghost predicate WellFormed(df: Frame) {
    && |df.kinds| == |df.columns|
    && (forall r :: 0 <= r < |df.rows| ==> |df.rows[r]| == |df.columns|)
    && (forall i, j :: 0 <= i < j < |df.columns| ==> df.columns[i] != df.columns[j])
  }

  /** The position of column `name`. */
  function ColumnIndex(columns: seq<string>, name: string): (k: nat)
    requires name in columns
    ensures k < |columns| && columns[k] == name
    ensures forall j :: 0 <= j < k ==> columns[j] != name
    decreases |columns|
  {
    if columns[0] == name then 0 else 1 + ColumnIndex(columns[1..], name)
  }

  /** `df[name]`: the values of one column, top to bottom. */
  function Column(df: Frame, name: string): (col: seq<Value>)
    requires WellFormed(df) && name in df.columns
    ensures |col| == |df.rows|
    ensures forall r :: 0 <= r < |col| ==> col[r] == df.rows[r][ColumnIndex(df.columns, name)]
  {
    var k := ColumnIndex(df.columns, name);
    seq(|df.rows|, r requires 0 <= r < |df.rows| => df.rows[r][k])
  }

  /** `df[name].dtype`, as a kind tag. */
  function KindOf(df: Frame, name: string): Kind
    requires WellFormed(df) && name in df.columns
  {
    df.kinds[ColumnIndex(df.columns, name)]
  }
}
