/**
 * The sellable-record checks of `schemaValidator.js`: the dotted field-path walk, the list of
 * missing required fields, and the wrappers around the compiled JSON-schema validator, which
 * is taken as an abstract function.
 */
module SchemaValidator {
  import opened Wrappers
  import opened Json
  import Text
  import Seqs

  /** What `checkField` reports about one dotted path. */
  datatype FieldCheck = FieldCheck(fieldExists: bool, value: Option<Json>, typeName: string)

  /** `checkField(data, fieldPath)`: split the path at `.` and follow it with optional chaining. */
  function CheckField(data: Option<Json>, fieldPath: string): (r: FieldCheck)
    ensures r.fieldExists <==> r.value.Some?
    ensures !r.fieldExists ==> r.typeName == "undefined"
    ensures r.typeName == "array" <==> (r.value.Some? && r.value.value.Arr?)
    ensures r.value == Get(data, Text.Split(fieldPath, '.'))
  {
    var v := Get(data, Text.Split(fieldPath, '.'));
    FieldCheck(v.Some?, v, TypeName(v))
  }

  /** Dot-free segments, at least one. */
  predicate Segments(segs: seq<string>)
  {
    |segs| >= 1 && forall i :: 0 <= i < |segs| ==> '.' !in segs[i]
  }

  /** The dotted path written from `segs`: `segs.join('.')`. */
  function Dotted(segs: seq<string>): string
  {
    Text.Join(segs, ".")
  }

  /** Checking the dotted path of some segments reads optional chaining along exactly those segments. */
  lemma CheckFieldOfSegments(data: Option<Json>, segs: seq<string>)
    requires Segments(segs)
    ensures CheckField(data, Dotted(segs)).value == Get(data, segs)
    ensures CheckField(data, Dotted(segs)).fieldExists <==> Get(data, segs).Some?
  {
    Text.SplitJoin(segs, '.');
  }

  /**
   * Once the walk meets `null` or `undefined` with segments still to consume, the field does
   * not exist, whatever the remaining segments are.
   */
  lemma StopsAtNullish(data: Option<Json>, consumed: seq<string>, rest: seq<string>)
    requires IsNullish(Get(data, consumed))
    requires |rest| > 0 && Segments(consumed + rest)
    ensures CheckField(data, Dotted(consumed + rest)) == FieldCheck(false, None, "undefined")
  {
    GetAppend(data, consumed, rest);
    CheckFieldOfSegments(data, consumed + rest);
  }

  /** A leaf that is present but `null` counts as existing, and its type reads `object`. */
  lemma NullLeafExists(data: Option<Json>, parent: seq<string>, leaf: string)
    requires Get(data, parent).Some? && !Get(data, parent).value.Null?
    requires Member(Get(data, parent).value, leaf) == Some(Null)
    requires Segments(parent + [leaf])
    ensures CheckField(data, Dotted(parent + [leaf])) == FieldCheck(true, Some(Null), "object")
  {
    GetAppend(data, parent, [leaf]);
    CheckFieldOfSegments(data, parent + [leaf]);
  }

  /** The fifteen paths a sellable record must carry, in declaration order. */
  const RequiredPaths: seq<string> := [
    "schema_version",
    "dataset_id",
    "record_type",
    "generated_at",
    "audience_segment.segment_id",
    "audience_segment.iab_categories",
    "audience_segment.dmp_attributes",
    "transaction_data.summary.total_orders",
    "transaction_data.summary.currency",
    "transaction_data.frequency_metrics.frequency_tier",
    "transaction_data.recency.rfm_recency_score",
    "metadata.source",
    "metadata.verification.status",
    "metadata.privacy_compliance.pii_stripped",
    "metadata.data_quality.score"
  ]

  /** The paths among `paths` whose field does not exist in `data`, in order. */
  function MissingFields(data: Option<Json>, paths: seq<string>): (r: seq<string>)
    ensures |r| <= |paths|
    ensures forall p :: p in r <==> p in paths && !CheckField(data, p).fieldExists
  {
    Seqs.FilterMembership(paths, Absent(data));
    Seqs.Filter(paths, Absent(data))
  }

  /** Whether a dotted path names no existing field of `data`. */
  function Absent(data: Option<Json>): string -> bool
  {
    p => !CheckField(data, p).fieldExists
  }

  /** `getMissingRequiredFields`: the required paths whose field does not exist, in order. */
  function MissingRequiredFields(data: Option<Json>): (r: seq<string>)
    ensures |r| <= |RequiredPaths|
    ensures forall p :: p in r <==> p in RequiredPaths && !CheckField(data, p).fieldExists
  {
    MissingFields(data, RequiredPaths)
  }

  /** For `null` or `undefined` data every required path is missing, in declaration order. */
  lemma NullishDataMissesEverything(data: Option<Json>)
    requires IsNullish(data)
    ensures MissingRequiredFields(data) == RequiredPaths
  {
    NullishMissesAll(data, RequiredPaths);
  }

  /** For `null` or `undefined` data no path names an existing field, so every path is missing. */
  lemma NullishMissesAll(data: Option<Json>, paths: seq<string>)
    requires IsNullish(data)
    ensures MissingFields(data, paths) == paths
  {
    forall i | 0 <= i < |paths|
      ensures Absent(data)(paths[i])
    {
      assert |Text.Split(paths[i], '.')| > 0;
    }
    Seqs.FilterAll(paths, Absent(data));
  }

  /** The missing paths of a concatenation are those of the first part, then those of the second. */
  lemma MissingFieldsAppend(data: Option<Json>, a: seq<string>, b: seq<string>)
    ensures MissingFields(data, a + b) == MissingFields(data, a) + MissingFields(data, b)
  {
    Seqs.FilterAppend(a, b, Absent(data));
  }

  /** A single path is reported once when its field does not exist, and not at all otherwise. */
  lemma MissingFieldsOne(data: Option<Json>, path: string)
    ensures MissingFields(data, [path]) == if CheckField(data, path).fieldExists then [] else [path]
  {
    var absent := Absent(data);
    var kept: seq<string> := if absent(path) then [path] else [];
    Seqs.AppendEmpty([path]);
    Seqs.FilterCons(path, [], absent);
    assert Seqs.Filter([], absent) == [];
    Seqs.AppendEmpty(kept);
    assert absent(path) <==> !CheckField(data, path).fieldExists;
  }

  /** One error as the compiled validator reports it. */
  datatype AjvError = AjvError(instancePath: string, message: string, keyword: string, params: Json)

  /** One call of the compiled validator: its verdict and the errors it recorded. */
  datatype AjvOutcome = AjvOutcome(valid: bool, errors: seq<AjvError>)

  /** One error in the form `validateSellableData` reports it. */
  datatype ReportedError = ReportedError(path: string, message: string, keyword: string, params: Json)

  datatype ValidationResult = ValidationResult(valid: bool, errors: seq<ReportedError>, errorSummary: Option<string>)

  /** The error path reported for an Ajv error: its instance path, or `/` for the root. */
  function ReportedPath(e: AjvError): (p: string)
    ensures p != ""
    ensures e.instancePath != "" ==> p == e.instancePath
  {
    if e.instancePath != "" then e.instancePath else "/"
  }

  function Report(e: AjvError): ReportedError
  {
    ReportedError(ReportedPath(e), e.message, e.keyword, e.params)
  }

  function ReportAll(es: seq<AjvError>): (r: seq<ReportedError>)
    ensures |r| == |es|
    ensures forall i :: 0 <= i < |es| ==> r[i] == Report(es[i])
  {
    if |es| == 0 then [] else [Report(es[0])] + ReportAll(es[1..])
  }

  /** The `path: message` line of one reported error. */
  function SummaryLine(e: ReportedError): string
  {
    e.path + ": " + e.message
  }

  function SummaryLines(es: seq<ReportedError>): (r: seq<string>)
    ensures |r| == |es|
    ensures forall i :: 0 <= i < |es| ==> r[i] == SummaryLine(es[i])
  {
    if |es| == 0 then [] else [SummaryLine(es[0])] + SummaryLines(es[1..])
  }

  const SkippedSummary: string := "Schema validation skipped"

  /**
   * `validateSellableData(data)`; `validator` is the compiled schema, `None` when the schema
   * file could not be loaded or compiled.
   */
  function ValidateSellableData(validator: Option<Json -> AjvOutcome>, data: Json): (r: ValidationResult)
    ensures validator.None? ==> r == ValidationResult(true, [], Some(SkippedSummary))
    ensures validator.Some? ==> r.valid == validator.value(data).valid
    ensures r.valid ==> r.errors == []
    ensures validator.Some? && r.valid ==> r.errorSummary.None?
    ensures !r.valid ==> |r.errors| == |validator.value(data).errors|
    ensures !r.valid ==> forall i :: 0 <= i < |r.errors| ==>
              r.errors[i].path != "" && r.errors[i].message == validator.value(data).errors[i].message
    ensures !r.valid ==> r.errorSummary == Some(Text.Join(SummaryLines(r.errors), "; "))
  {
    match validator
    case None => ValidationResult(true, [], Some(SkippedSummary))
    case Some(validate) =>
      var outcome := validate(data);
      if outcome.valid then ValidationResult(true, [], None)
      else
        var errors := ReportAll(outcome.errors);
        ValidationResult(false, errors, Some(Text.Join(SummaryLines(errors), "; ")))
  }

  /** The error `validateOrThrow` raises. */
  datatype SchemaError = SchemaError(message: string, validationErrors: seq<ReportedError>)

  /** `validateOrThrow(data)`: `true`, or the thrown error. */
  function ValidateOrThrow(validator: Option<Json -> AjvOutcome>, data: Json): (r: Result<bool, SchemaError>)
    ensures r.Success? <==> ValidateSellableData(validator, data).valid
    ensures r.Success? ==> r.value
    ensures r.Failure? ==> r.error.validationErrors == ValidateSellableData(validator, data).errors
    ensures r.Failure? ==> Text.StartsWith(r.error.message, "Schema validation failed: ")
  {
    var result := ValidateSellableData(validator, data);
    if !result.valid then
      Failure(SchemaError("Schema validation failed: " + result.errorSummary.GetOr(""), result.errors))
    else Success(true)
  }

  datatype ValidationStatus = ValidationStatus(
    isValid: bool, errorCount: nat, errors: seq<ReportedError>, schemaVersion: Json, validatedAt: int)

  /** `getValidationStatus(data)`; `schemaId` is the loaded schema's `$id`, `now` the current time. */
  function GetValidationStatus(validator: Option<Json -> AjvOutcome>, schemaId: Option<Json>, data: Json, now: int)
    : (r: ValidationStatus)
    ensures r.isValid == ValidateSellableData(validator, data).valid
    ensures r.errorCount == |r.errors|
    ensures r.isValid ==> r.errorCount == 0
    ensures Truthy(schemaId) ==> r.schemaVersion == schemaId.value
    ensures !Truthy(schemaId) ==> r.schemaVersion == Str("unknown")
  {
    var result := ValidateSellableData(validator, data);
    var version := Or(schemaId, Some(Str("unknown"))).value;
    ValidationStatus(result.valid, |result.errors|, result.errors, version, now)
  }
}
