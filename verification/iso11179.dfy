/**
 * The ISO/IEC 11179 metadata checks of the descriptor validator: which registry
 * keys the document carries, and how many fields carry each field-level key.
 */
module Iso11179 {
  import opened Wrappers
  import opened Descriptor

  /** The dictionary `check_iso11179_metadata` returns. */
  datatype MetadataReport = MetadataReport(
    isLevel2Or3: bool,                // 'is_level_2_or_3'
    hasSteward: bool,                 // 'has_steward'
    hasRegistrationStatus: bool,      // 'has_registration_status'
    hasRegistrationAuthority: bool,   // 'has_registration_authority'
    hasSubmitter: bool                // 'has_submitter'
  )

  /**
   * `check_iso11179_metadata`: the conformance level must be one of the two strings;
   * the registry keys only need to be present, whatever their value (null included).
   */
  function CheckIso11179Metadata(m: Metadata): (r: MetadataReport)
    ensures r.isLevel2Or3 <==> m.conformanceLevel in {Val(JStr("Level 2")), Val(JStr("Level 3"))}
    ensures r.hasSteward <==> !m.steward.Absent?
    ensures r.hasRegistrationStatus <==> !m.registrationStatus.Absent?
    ensures r.hasRegistrationAuthority <==> !m.registrationAuthority.Absent?
    ensures r.hasSubmitter <==> !m.submitter.Absent?
  {
    MetadataReport(
      m.conformanceLevel.Get() in [Some(JStr("Level 2")), Some(JStr("Level 3"))],
      m.steward.Present(),
      m.registrationStatus.Present(),
      m.registrationAuthority.Present(),
      m.submitter.Present())
  }

  /** The three field-level ISO/IEC 11179 keys the validator counts. */
  datatype FieldKey = DataElementConcept | ValueDomain | ClassifiedBy

  /** Whether a field carries the key (with any value, null included). */
  predicate HasKey(f: Field, key: FieldKey) {
    match key
    case DataElementConcept => f.dataElementConcept.Present()
    case ValueDomain => f.valueDomain.Present()
    case ClassifiedBy => f.classifiedBy.Present()
  }

  /** The fields of all recordSets, recordSet by recordSet, in document order. */
  function AllFields(rss: seq<RecordSet>): (r: seq<Field>)
    ensures forall i, f :: 0 <= i < |rss| && f in ExtractFields(rss[i]) ==> f in r
    ensures forall f :: f in r ==> exists i :: 0 <= i < |rss| && f in ExtractFields(rss[i])
    decreases |rss|
  {
    if |rss| == 0 then []
    else
      var init := rss[..|rss| - 1];
      assert forall i :: 0 <= i < |init| ==> init[i] == rss[i];
      AllFields(init) + ExtractFields(rss[|rss| - 1])
  }

  /** How many of the fields carry the key. */
  function CountWith(fs: seq<Field>, key: FieldKey): (n: nat)
    ensures n <= |fs|
    decreases |fs|
  {
    if |fs| == 0 then 0
    else CountWith(fs[..|fs| - 1], key) + (if HasKey(fs[|fs| - 1], key) then 1 else 0)
  }

  /** The dictionary `check_field_iso11179` returns. */
  datatype FieldSummary = FieldSummary(
    totalFields: nat,           // 'total_fields'
    withDec: nat,               // 'with_dec'
    withVd: nat,                // 'with_vd'
    withClassification: nat     // 'with_classification'
  )

  /** The counts over a list of fields. */
  function SummaryOf(fs: seq<Field>): (s: FieldSummary)
    ensures s.totalFields == |fs|
    ensures s.withDec <= s.totalFields && s.withVd <= s.totalFields && s.withClassification <= s.totalFields
  {
    FieldSummary(|fs|, CountWith(fs, DataElementConcept), CountWith(fs, ValueDomain), CountWith(fs, ClassifiedBy))
  }

  /** `check_field_iso11179`: one pass over every field of every recordSet. */
  method CheckFieldIso11179(m: Metadata) returns (summary: FieldSummary)
    ensures summary == SummaryOf(AllFields(ExtractRecordSets(m)))
  {
    var recordSets := ExtractRecordSets(m);
    summary := FieldSummary(0, 0, 0, 0);
    for i := 0 to |recordSets|
      invariant summary == SummaryOf(AllFields(recordSets[..i]))
    {
      ghost var seen := AllFields(recordSets[..i]);
      var fields := ExtractFields(recordSets[i]);
      assert seen + fields[..0] == seen;
      for j := 0 to |fields|
        invariant summary == SummaryOf(seen + fields[..j])
      {
        assert (seen + fields[..j + 1])[..|seen + fields[..j]|] == seen + fields[..j];
        var field := fields[j];
        summary := summary.(totalFields := summary.totalFields + 1);
        if field.dataElementConcept.Present() {
          summary := summary.(withDec := summary.withDec + 1);
        }
        if field.valueDomain.Present() {
          summary := summary.(withVd := summary.withVd + 1);
        }
        if field.classifiedBy.Present() {
          summary := summary.(withClassification := summary.withClassification + 1);
        }
      }
      assert recordSets[..i + 1][..i] == recordSets[..i];
      assert fields[..|fields|] == fields;
    }
    assert recordSets[..|recordSets|] == recordSets;
  }

  /** A count never exceeds the number of fields, and reaches it exactly when every field has the key. */
  lemma {:induction false} CountWithBounded(fs: seq<Field>, key: FieldKey)
    ensures CountWith(fs, key) == |fs| <==> forall i :: 0 <= i < |fs| ==> HasKey(fs[i], key)
    ensures CountWith(fs, key) == 0 <==> forall i :: 0 <= i < |fs| ==> !HasKey(fs[i], key)
    decreases |fs|
  {
    if |fs| > 0 {
      var init := fs[..|fs| - 1];
      CountWithBounded(init, key);
      assert forall i :: 0 <= i < |init| ==> init[i] == fs[i];
    }
  }

  /** Counting is additive over a concatenation. */
  lemma {:induction false} CountWithAppend(a: seq<Field>, b: seq<Field>, key: FieldKey)
    ensures CountWith(a + b, key) == CountWith(a, key) + CountWith(b, key)
    decreases |b|
  {
    if |b| == 0 {
      assert a + b == a;
    } else {
      assert (a + b)[..|a + b| - 1] == a + b[..|b| - 1];
      CountWithAppend(a, b[..|b| - 1], key);
    }
  }
}
