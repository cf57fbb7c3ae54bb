/**
 * The request validators of the Pydantic schemas in components/features/schemas.py, the ones
 * the API routes actually bind. They differ from components/features/models.py in the field
 * names (`identifier`, `identifier_value`), the second entity type (`account_id`), and the
 * looser read-selector check.
 */
module FeatureSchemas {
  import opened Wrappers
  import opened Text
  import opened PyValue
  import FeatureModels

  // `WriteMetadataSchema.validate_source` and the `FeatureItemSchema` validators repeat the
  // validators of components/features/models.py word for word: they are
  // `FeatureModels.ValidateWriteSource`, `FeatureModels.ValidateItemCategory` and
  // `FeatureModels.ValidateItemFeatures`.

  /** Table names a request may address. */
  predicate KnownIdentifier(v: Value)
  {
    v == VStr("bright_uid") || v == VStr("account_id")
  }

  const RequiredFields: seq<string> := ["identifier", "identifier_value", "feature_list"]

  /** The checks shared by both request schemas, up to the feature list. */
  function CheckCommon(data: map<string, Value>): (r: Outcome<Exc>)
    ensures r.Pass? <==>
      && data != map[]
      && (forall f :: f in RequiredFields ==> f in data)
      && KnownIdentifier(data["identifier"])
      && FeatureModels.NonEmptyString(data["identifier_value"])
      && data["feature_list"].VList? && data["feature_list"].items != []
    ensures data != map[] && FirstMissing(data, RequiredFields).Some? ==>
      r == Fail(ValueError("Missing required field: " + FirstMissing(data, RequiredFields).value))
  {
    if data == map[] then Fail(ValueError("Data cannot be empty"))
    else match FirstMissing(data, RequiredFields)
      case Some(f) => Fail(ValueError("Missing required field: " + f))
      case None =>
        assert RequiredFields[0] in data && RequiredFields[1] in data && RequiredFields[2] in data;
        if !KnownIdentifier(data["identifier"]) then
          Fail(ValueError("Identifier must be either \"bright_uid\" or \"account_id\""))
        else if !Truthy(data["identifier_value"]) || !data["identifier_value"].VStr? then
          Fail(ValueError("Identifier value must be a non-empty string"))
        else if !Truthy(data["feature_list"]) || !data["feature_list"].VList? then
          Fail(ValueError("Feature list must be a non-empty list"))
        else Pass
  }

  /** `WriteRequestSchema.validate_data`: the common checks only; the items inside the
      feature list are left to the controller. */
  function ValidateWriteData(data: map<string, Value>): (r: Result<map<string, Value>, Exc>)
    ensures r.Success? <==> CheckCommon(data).Pass?
    ensures r.Success? ==> r.value == data
  {
    match CheckCommon(data)
    case Fail(e) => Failure(e)
    case Pass => Success(data)
  }

  /** One read selector: any string containing `:`. */
  function CheckReadSelector(v: Value): Outcome<Exc>
  {
    if !v.VStr? then Fail(ValueError("Feature must be a string in format \"category:feature\""))
    else if ':' !in v.s then Fail(ValueError("Feature must be in format \"category:feature\""))
    else Pass
  }

  /** `ReadRequestSchema.validate_data`: the common checks, then every selector a string
      with a `:`. */
  function ValidateReadData(data: map<string, Value>): (r: Result<map<string, Value>, Exc>)
    ensures r.Success? <==>
      && CheckCommon(data).Pass?
      && forall i :: 0 <= i < |data["feature_list"].items| ==>
           data["feature_list"].items[i].VStr? && ':' in data["feature_list"].items[i].s
    ensures r.Success? ==> r.value == data
  {
    match CheckCommon(data)
    case Fail(e) => Failure(e)
    case Pass =>
      match FirstError(data["feature_list"].items, CheckReadSelector)
      case Fail(e) => Failure(e)
      case Pass => Success(data)
  }

  /** Every selector the model-level check accepts, the schema accepts too; the converse
      fails exactly for selectors ending in `:`, such as `"c:"`. */
  lemma SchemaSelectorsAreLooser(s: string)
    ensures FeatureModels.CheckReadSelector(VStr(s)).Pass? ==> CheckReadSelector(VStr(s)).Pass?
    ensures CheckReadSelector(VStr(s)).Pass? && FeatureModels.CheckReadSelector(VStr(s)).Fail? <==>
      ':' in s && s[|s| - 1] == ':'
  {
    FeatureModels.ReadSelectorAccepted(s);
  }
}
