/**
 * The data extractor (class DataExtractor): resolves a distribution to a file path
 * and dispatches on its declared encoding. Reading the file is the external
 * `read_csv` call, passed in as `read`.
 */
module Extractor {
  import opened Wrappers
  import opened Text
  import opened Descriptor
  import opened Frame

  /** A POSIX path, kept as its text. */
  datatype Path = Path(text: string)

  /** `Path.is_absolute()` on POSIX: the path starts at the root. */
  predicate IsAbsolute(p: Path) {
    |p.text| > 0 && p.text[0] == '/'
  }

  /** `base / rel` for a relative `rel`: one separator between the two parts. */
  function JoinPath(base: Path, rel: Path): (r: Path)
    ensures EndsWith(r.text, rel.text)
    ensures base.text == "" ==> r == rel
    ensures base.text != "" && base.text[|base.text| - 1] == '/' ==> r.text == base.text + rel.text
    ensures base.text != "" && base.text[|base.text| - 1] != '/' ==> r.text == base.text + "/" + rel.text
    ensures StartsWith(r.text, base.text)
  {
    if base.text == "" then rel
    else if base.text[|base.text| - 1] == '/' then Path(base.text + rel.text)
    else Path(base.text + "/" + rel.text)
  }

  /** Why a distribution could not be turned into a table. */
  datatype ExtractError =
    | MissingContentUrl(distributionId: Option<string>)  // contentUrl absent, null or empty
    | EncodingNotText                                    // encodingFormat is JSON null: `None.lower()` raises
    | UnsupportedEncoding(format: string)                // no "csv" in the lower-cased format
    | ReadFailed(message: string)                        // the external reader raised

  /** The declared encoding, `text/csv` when the key is absent. */
  function EncodingOf(d: Distribution): Option<string> {
    d.encodingFormat.GetOr(Some("text/csv"))
  }

  /** The encodings the extractor accepts: "csv" occurs in the lower-cased format. */
  predicate IsCsvFormat(format: string) {
    Contains(Lower(format), "csv")
  }

  /** Where the file of a distribution is read from. */
  function SourcePath(d: Distribution, base: Option<Path>): Path
    requires Truthy(d.contentUrl)
  {
    var p := Path(d.contentUrl.v);
    if base.Some? && !IsAbsolute(p) then JoinPath(base.value, p) else p
  }

  /**
   * The resolution and dispatch of `extract_from_distribution`: the path to read,
   * or the error the source raises, checked in the source's order.
   */
  function ResolveDistribution(d: Distribution, base: Option<Path>): (r: Result<Path, ExtractError>)
    ensures !Truthy(d.contentUrl) ==> r == Err(MissingContentUrl(d.id.Get()))
    ensures Truthy(d.contentUrl) && d.encodingFormat.Null? ==> r == Err(EncodingNotText)
    ensures r.Ok? <==> Truthy(d.contentUrl) && EncodingOf(d).Some? && IsCsvFormat(EncodingOf(d).value)
    ensures r.Err? && r.error.UnsupportedEncoding? ==> EncodingOf(d) == Some(r.error.format)
    ensures r.Ok? && base.Some? && !IsAbsolute(Path(d.contentUrl.v)) ==>
              r.value == JoinPath(base.value, Path(d.contentUrl.v))
    ensures r.Ok? && (base.None? || IsAbsolute(Path(d.contentUrl.v))) ==>
              r.value == Path(d.contentUrl.v)
  {
    if !Truthy(d.contentUrl) then Err(MissingContentUrl(d.id.Get()))
    else
      var path := SourcePath(d, base);
      match EncodingOf(d)
      case None => Err(EncodingNotText)
      case Some(format) =>
        if IsCsvFormat(format) then Ok(path) else Err(UnsupportedEncoding(format))
  }

  /** `extract_from_distribution`: resolve, then hand the path to the reader. */
  function ExtractFromDistribution(d: Distribution, base: Option<Path>, read: Path -> Result<Frame, string>)
    : (r: Result<Frame, ExtractError>)
    ensures ResolveDistribution(d, base).Err? ==> r == Err(ResolveDistribution(d, base).error)
    ensures ResolveDistribution(d, base).Ok? ==>
              var p := ResolveDistribution(d, base).value;
              r == (match read(p) case Ok(df) => Ok(df) case Err(msg) => Err(ReadFailed(msg)))
  {
    match ResolveDistribution(d, base)
    case Err(e) => Err(e)
    case Ok(path) =>
      match read(path)
      case Ok(df) => Ok(df)
      case Err(msg) => Err(ReadFailed(msg))
  }

  /** The dispatch ignores case: an upper-case CSV media type is accepted too. */
  lemma {:induction false} CsvDispatchIgnoresCase(format: string)
    ensures IsCsvFormat(format) <==> IsCsvFormat(Lower(format))
  {
    var l := Lower(format);
    assert Lower(l) == l by {
      forall i | 0 <= i < |l| ensures Lower(l)[i] == l[i] {
        assert LowerChar(LowerChar(format[i])) == LowerChar(format[i]);
      }
    }
  }

  /** A distribution without an encoding is read as CSV. */
  lemma DefaultEncodingIsCsv(d: Distribution)
    requires d.encodingFormat.Absent?
    ensures EncodingOf(d) == Some("text/csv") && IsCsvFormat("text/csv")
  {
    assert Lower("text/csv") == "text/csv";
    assert OccursAt("text/csv", "csv", 5);
  }
}
