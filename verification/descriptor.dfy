/**
 * The Bio-Croissant descriptor (the metadata JSON document) and the parser's
 * accessors over it (class BioCroissantParser).
 */
module Descriptor {
  import opened Wrappers

  /**
   * One key of a JSON object: not there, there with JSON `null`, or there with a value.
   * The source reads keys both with `d.get(k)` and with `d.get(k, default)`, which
   * differ exactly on the `Null` case.
   */
  datatype Prop<+T> = Absent | Null | Val(v: T) {
    /** `d.get(k)`: Python `None` for an absent key and for JSON `null`. */
    function Get(): (r: Option<T>)
      ensures r.Some? <==> Val?
    {
      if Val? then Some(v) else None
    }

    /** `d.get(k, default)`: the default only when the key is absent. */
    function GetOr(default: Option<T>): (r: Option<T>)
      ensures Absent? ==> r == default
      ensures !Absent? ==> r == Get()
    {
      match this
      case Absent => default
      case Null => None
      case Val(x) => Some(x)
    }

    /** `k in d`, whatever the value. */
    predicate Present() {
      !Absent?
    }
  }

  /** Python truthiness of an optional string key: present, not null, not empty. */
  predicate Truthy(p: Prop<string>) {
    p.Val? && p.v != ""
  }

  /** A JSON value whose structure nothing in the core inspects beyond its kind. */
  datatype Json = JBool(b: bool) | JNum(n: int) | JStr(s: string) | JCompound

  /** `source.fileObject`: the distribution a field's data comes from. */
  datatype FileObject = FileObject(id: Prop<string>)          // "@id"
  datatype Source = Source(fileObject: Option<FileObject>)    // "fileObject"
  /** `references`: a back-reference to the referenced field. */
  datatype Reference = Reference(id: Option<string>)          // "@id"

  /** One field of a recordSet; each member is the JSON key in the trailing comment. */
  datatype Field = Field(
    name: Prop<string>,                // "name"
    cdmField: Prop<string>,            // "omop:cdmField"
    dataType: Prop<string>,            // "dataType"
    isPrimaryKey: Prop<bool>,          // "omop:isPrimaryKey"
    foreignKeyTable: Prop<string>,     // "omop:foreignKeyTable"
    references: Option<Reference>,     // "references"
    source: Option<Source>,            // "source"
    dataElementConcept: Prop<Json>,    // "iso11179:dataElementConcept"
    valueDomain: Prop<Json>,           // "iso11179:valueDomain"
    classifiedBy: Prop<Json>           // "iso11179:classifiedBy"
  )

  /** A recordSet: a named list of fields describing one table. */
  datatype RecordSet = RecordSet(
    id: Prop<string>,                  // "@id"
    name: Prop<string>,                // "name"
    cdmTable: Prop<string>,            // "omop:cdmTable"
    description: Prop<string>,         // "description"
    fields: Option<seq<Field>>         // "field"
  )

  /** A file distribution: one physical source file. */
  datatype Distribution = Distribution(
    id: Prop<string>,                  // "@id"
    contentUrl: Prop<string>,          // "contentUrl"
    encodingFormat: Prop<string>       // "encodingFormat"
  )

  /** The whole descriptor document. */
  datatype Metadata = Metadata(
    recordSets: Option<seq<RecordSet>>,      // "recordSet"
    distributions: Option<seq<Distribution>>, // "distribution"
    conformanceLevel: Prop<Json>,             // "bio:conformanceLevel"
    steward: Prop<Json>,                      // "iso11179:steward"
    registrationStatus: Prop<Json>,           // "iso11179:registrationStatus"
    registrationAuthority: Prop<Json>,        // "iso11179:registrationAuthority"
    submitter: Prop<Json>                     // "iso11179:submitter"
  )

  /** `extract_recordsets`: the recordSets, or none when the key is absent. */
  function ExtractRecordSets(m: Metadata): (r: seq<RecordSet>)
    ensures m.recordSets.None? ==> r == []
    ensures m.recordSets.Some? ==> r == m.recordSets.value
  {
    m.recordSets.GetOr([])
  }

  /** `extract_fields`: the fields of a recordSet, or none when the key is absent. */
  function ExtractFields(rs: RecordSet): (r: seq<Field>)
    ensures rs.fields.None? ==> r == []
    ensures rs.fields.Some? ==> r == rs.fields.value
  {
    rs.fields.GetOr([])
  }

  /** `extract_distributions`: the distributions, or none when the key is absent. */
  function ExtractDistributions(m: Metadata): (r: seq<Distribution>)
    ensures m.distributions.None? ==> r == []
    ensures m.distributions.Some? ==> r == m.distributions.value
  {
    m.distributions.GetOr([])
  }

  /** `dist.get('@id') == dist_id`: null and absent identifiers never match. */
  predicate HasId(d: Distribution, id: string) {
    d.id == Val(id)
  }

  /** The first distribution of `ds` whose `@id` is `id`, if any. */
  function FindDistribution(ds: seq<Distribution>, id: string): (r: Option<Distribution>)
    ensures r.None? <==> forall k :: 0 <= k < |ds| ==> !HasId(ds[k], id)
    ensures r.Some? ==> exists k :: 0 <= k < |ds| && ds[k] == r.value && HasId(ds[k], id)
                                     && forall j :: 0 <= j < k ==> !HasId(ds[j], id)
    decreases |ds|
  {
    if |ds| == 0 then None
    else if HasId(ds[0], id) then Some(ds[0])
    else
      var r := FindDistribution(ds[1..], id);
      assert forall k :: 1 <= k < |ds| ==> ds[k] == ds[1..][k - 1];
      if r.Some? then
        var k :| 0 <= k < |ds[1..]| && ds[1..][k] == r.value && HasId(ds[1..][k], id)
                 && forall j :: 0 <= j < k ==> !HasId(ds[1..][j], id);
        assert forall j :: 0 <= j < k + 1 ==> !HasId(ds[j], id) by {
          forall j | 0 <= j < k + 1 ensures !HasId(ds[j], id) {
            if j > 0 { assert ds[j] == ds[1..][j - 1]; }
          }
        }
        r
      else
        r
  }

  /**
   * `get_distribution_by_id`: a linear search over the distributions that returns
   * at the first `@id` match.
   */
  method GetDistributionById(m: Metadata, distId: string) returns (d: Option<Distribution>)
    ensures d == FindDistribution(ExtractDistributions(m), distId)
  {
    var distributions := ExtractDistributions(m);
    var i := 0;
    while i < |distributions|
      invariant 0 <= i <= |distributions|
      invariant FindDistribution(distributions[i..], distId) == FindDistribution(distributions, distId)
    {
      if HasId(distributions[i], distId) {
        return Some(distributions[i]);
      }
      assert distributions[i..][1..] == distributions[i + 1..];
      i := i + 1;
    }
    return None;
  }
}
