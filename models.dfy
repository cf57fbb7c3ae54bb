/**
 * The request validators of the Pydantic models in components/features/models.py. Pydantic
 * has already coerced each field to its declared type when a validator runs, so `source` and
 * `category` arrive as strings and `features` and `data` as dicts.
 */
module FeatureModels {
  import opened Wrappers
  import opened Text
  import opened PyValue

  /** `WriteRequestMeta.validate_source`: only the prediction service may write. */
  function ValidateWriteSource(source: string): (r: Result<string, Exc>)
    ensures r.Success? <==> source == "prediction_service"
    ensures r.Success? ==> r.value == source
  {
    if source != "prediction_service" then Failure(ValueError("Only prediction_service is allowed for write operations"))
    else Success(source)
  }

  /** `FeatureItem.validate_category`: a non-empty name of at most 100 characters, measured
      before stripping, returned stripped. */
  function ValidateItemCategory(category: string): (r: Result<string, Exc>)
    ensures r.Success? <==> category != "" && |category| <= 100
    ensures r.Success? ==> r.value == Strip(category) && |r.value| <= 100
    ensures category == "" ==> r == Failure(ValueError("Category must be a non-empty string"))
  {
    if category == "" then Failure(ValueError("Category must be a non-empty string"))
    else if |category| > 100 then Failure(ValueError("Category name too long (max 100 characters)"))
    else Success(Strip(category))
  }

  /** The limit applies to the raw name: padding alone can push a short name over it. */
  lemma PaddingCountsTowardsLimit(name: string, padding: string)
    requires |name| <= 100 && |padding| > 100 - |name| && forall i :: 0 <= i < |padding| ==> padding[i] == ' '
    ensures ValidateItemCategory(name + padding).Failure?
  {
  }

  /** `FeatureItem.validate_features`: a non-empty dict, returned unchanged. The source's
      second check (`len(v) == 0`) can never fire after the first. */
  function ValidateItemFeatures(features: map<string, Value>): (r: Result<map<string, Value>, Exc>)
    ensures r.Success? <==> features != map[]
    ensures r.Success? ==> r.value == features
  {
    if features == map[] then Failure(ValueError("Features must be a non-empty dictionary"))
    else Success(features)
  }

  /** `entity_type` values both request models accept. */
  predicate KnownEntityType(v: Value)
  {
    v == VStr("bright_uid") || v == VStr("account_pid")
  }

  /** A non-empty string. */
  predicate NonEmptyString(v: Value)
  {
    v.VStr? && v.s != ""
  }

  const WriteFields: seq<string> := ["entity_type", "entity_value", "category", "features"]

  /** `WriteRequest.validate_data`: the fields present in order, then a known entity type,
      a non-empty entity value and category, and a non-empty features dict; accepted data is
      returned unchanged. */
  function ValidateWriteData(data: map<string, Value>): (r: Result<map<string, Value>, Exc>)
    ensures r.Success? <==>
      && data != map[]
      && "entity_type" in data && "entity_value" in data && "category" in data && "features" in data
      && KnownEntityType(data["entity_type"])
      && NonEmptyString(data["entity_value"])
      && NonEmptyString(data["category"])
      && data["features"].VDict? && data["features"].m != map[]
    ensures r.Success? ==> r.value == data
    ensures data != map[] && FirstMissing(data, WriteFields).Some? ==>
      r == Failure(ValueError("Missing required field: " + FirstMissing(data, WriteFields).value))
  {
    if data == map[] then Failure(ValueError("Data cannot be empty"))
    else match FirstMissing(data, WriteFields)
      case Some(f) =>
        assert f !in data && (f == WriteFields[0] || f == WriteFields[1] || f == WriteFields[2] || f == WriteFields[3]);
        Failure(ValueError("Missing required field: " + f))
      case None =>
        assert WriteFields[0] in data && WriteFields[1] in data && WriteFields[2] in data && WriteFields[3] in data;
        assert NonEmptyString(data["entity_value"]) <==> Truthy(data["entity_value"]) && data["entity_value"].VStr?;
        assert NonEmptyString(data["category"]) <==> Truthy(data["category"]) && data["category"].VStr?;
        if !KnownEntityType(data["entity_type"]) then
          Failure(ValueError("entity_type must be either \"bright_uid\" or \"account_pid\""))
        else if !Truthy(data["entity_value"]) || !data["entity_value"].VStr? then
          Failure(ValueError("entity_value must be a non-empty string"))
        else if !Truthy(data["category"]) || !data["category"].VStr? then
          Failure(ValueError("category must be a non-empty string"))
        else if !Truthy(data["features"]) || !data["features"].VDict? then
          Failure(ValueError("features must be a non-empty dictionary"))
        else Success(data)
  }

  /** One read selector: a string containing `:` that does not end in a bare `:`. */
  function CheckReadSelector(v: Value): Outcome<Exc>
  {
    if !v.VStr? then Fail(ValueError("Feature must be a string in format \"category:feature\" or \"category:*\""))
    else if ':' !in v.s then Fail(ValueError("Feature must be in format \"category:feature\" or \"category:*\""))
    else if EndsWith(v.s, ":") && !EndsWith(v.s, ":*") then
      Fail(ValueError("Invalid feature format. Use \"category:*\" for wildcard or \"category:feature\" for specific feature"))
    else Pass
  }

  /** A selector passes exactly when it is a string with a `:` that is not its last character;
      the `:*` exemption adds nothing, since such a selector does not end in `:`. */
  lemma ReadSelectorAccepted(s: string)
    ensures CheckReadSelector(VStr(s)).Pass? <==> ':' in s && s[|s| - 1] != ':'
  {
    if ':' in s {
      assert s != [];
      assert EndsWith(s, ":") <==> s[|s| - 1] == ':';
      if EndsWith(s, ":*") {
        assert s[|s| - 1] == '*';
      }
    }
  }

  const ReadFields: seq<string> := ["entity_type", "entity_value", "feature_list"]

  /** `ReadRequest.validate_data`: the fields present in order, then a known entity type, a
      non-empty entity value, a non-empty list of selectors each accepted by
      `CheckReadSelector`; accepted data is returned unchanged. */
  function ValidateReadData(data: map<string, Value>): (r: Result<map<string, Value>, Exc>)
    ensures r.Success? <==>
      && data != map[]
      && "entity_type" in data && "entity_value" in data && "feature_list" in data
      && KnownEntityType(data["entity_type"])
      && NonEmptyString(data["entity_value"])
      && data["feature_list"].VList? && data["feature_list"].items != []
      && forall i :: 0 <= i < |data["feature_list"].items| ==> CheckReadSelector(data["feature_list"].items[i]).Pass?
    ensures r.Success? ==> r.value == data
    ensures data != map[] && FirstMissing(data, ReadFields).Some? ==>
      r == Failure(ValueError("Missing required field: " + FirstMissing(data, ReadFields).value))
  {
    if data == map[] then Failure(ValueError("Data cannot be empty"))
    else match FirstMissing(data, ReadFields)
      case Some(f) =>
        assert f !in data && (f == ReadFields[0] || f == ReadFields[1] || f == ReadFields[2]);
        Failure(ValueError("Missing required field: " + f))
      case None =>
        assert ReadFields[0] in data && ReadFields[1] in data && ReadFields[2] in data;
        var value := data["entity_value"];
        assert NonEmptyString(value) <==> Truthy(value) && value.VStr?;
        if !KnownEntityType(data["entity_type"]) then
          Failure(ValueError("Identifier must be either \"bright_uid\" or \"account_pid\""))
        else if !Truthy(value) || !value.VStr? then
          Failure(ValueError("Identifier value must be a non-empty string"))
        else if !Truthy(data["feature_list"]) || !data["feature_list"].VList? then
          Failure(ValueError("Feature list must be a non-empty list"))
        else match FirstError(data["feature_list"].items, CheckReadSelector)
          case Fail(e) => Failure(e)
          case Pass => Success(data)
  }
}
