/**
 * `FeatureController.upsert_features` of components/features/controller.py: read the three
 * request fields, convert the feature list into per-category items, validate them, and hand
 * them to the write flow.
 */
module FeatureController {
  import opened Wrappers
  import opened PyValue
  import opened Dynamo
  import opened DynamoCodec
  import opened FeatureServices
  import opened FeatureFlows
  import FeatureSchemas

  /** `v[key]`: a missing key raises `KeyError`, a value that is not a dict `TypeError`. */
  function Subscript(v: Value, key: string): (r: Result<Value, Exc>)
    ensures r.Success? <==> v.VDict? && key in v.m
    ensures r.Success? ==> r.value == v.m[key]
    ensures v.VDict? && key !in v.m ==> r == Failure(KeyError(key))
  {
    if !v.VDict? then Failure(TypeError("subscript"))
    else if key !in v.m then Failure(KeyError(key))
    else Success(v.m[key])
  }

  /** `request_data["data"]` and its `entity_type`, `entity_value` and `feature_list`, read in
      that order. */
  function RequestFields(request: Value): (r: Result<(Value, Value, Value), Exc>)
    ensures r.Success? <==>
      && request.VDict? && "data" in request.m
      && var data := request.m["data"];
         data.VDict? && "entity_type" in data.m && "entity_value" in data.m && "feature_list" in data.m
    ensures request.VDict? && "data" !in request.m ==> r == Failure(KeyError("data"))
  {
    match Subscript(request, "data")
    case Failure(e) => Failure(e)
    case Success(data) =>
      match Subscript(data, "entity_type")
      case Failure(e) => Failure(e)
      case Success(entityType) =>
        match Subscript(data, "entity_value")
        case Failure(e) => Failure(e)
        case Success(entityValue) =>
          match Subscript(data, "feature_list")
          case Failure(e) => Failure(e)
          case Success(featureList) => Success((entityType, entityValue, featureList))
  }

  /** What `convert_feature_list_to_items` returns for a feature list. */
  function ItemsFrom(featureList: Value): (r: Result<seq<(string, map<string, Value>)>, Exc>)
    ensures !Truthy(featureList) ==> r == Failure(ValueError("Feature list cannot be empty"))
    ensures Truthy(featureList) && !featureList.VList? ==> r == Failure(ValueError("Feature list must be a list"))
    ensures r.Success? ==>
      && featureList.VList?
      && (forall i :: 0 <= i < |featureList.items| ==> ParseItem(featureList.items[i]).Success?)
      && (forall category :: Get(r.value, category) == LastValue(ParseEach(featureList.items, ParseItem).value, category))
  {
    if !Truthy(featureList) then Failure(ValueError("Feature list cannot be empty"))
    else if !featureList.VList? then Failure(ValueError("Feature list must be a list"))
    else
      match ParseEach(featureList.items, ParseItem)
      case Failure(e) => Failure(e)
      case Success(pairs) =>
        FromPairsSpec(pairs);
        Success(FromPairs(pairs))
  }

  /** `upsert_features`. The store changes only through the write flow, which runs only after
      the fields were found and the feature list was converted and validated; its outcome is
      returned unchanged. */
  method UpsertFeatures(db: Database, c: Codec, request: Value, now: string) returns (r: Result<WriteSummary, Exc>)
    modifies db
    ensures var fields := RequestFields(request);
      && (fields.Failure? ==> r == Failure(fields.error) && db.tables == old(db.tables))
      && (fields.Success? ==>
            var (entityType, entityValue, featureList) := fields.value;
            var items := ItemsFrom(featureList);
            && (items.Failure? ==> r == Failure(items.error) && db.tables == old(db.tables))
            && (items.Success? ==>
                  var check := ValidateItems(AsValues(items.value));
                  && (check.Fail? ==> r == Failure(check.error) && db.tables == old(db.tables))
                  && (check.Pass? && !(entityType.VStr? && entityValue.VStr?) ==>
                        r == Failure(TypeError("str")) && db.tables == old(db.tables))
                  && (check.Pass? && entityType.VStr? && entityValue.VStr? ==>
                        var run := WriteRun(c, old(db.tables), entityType.s, entityValue.s, AsValues(items.value), now);
                        && db.tables == run.tables
                        && (run.error.Some? ==> r == Failure(run.error.value))
                        && (run.error.None? ==>
                              r == Success(WriteSummary(WrittenMessage, entityValue.s, entityType.s, run.results, run.total))))))
  {
    var fields := RequestFields(request);
    if fields.Failure? {
      return Failure(fields.error);
    }
    var entityType := fields.value.0;
    var entityValue := fields.value.1;
    var featureList := fields.value.2;
    var items := ConvertFeatureListToItems(featureList);
    if items.Failure? {
      return Failure(items.error);
    }
    var check := ValidateItems(AsValues(items.value));
    if check.Fail? {
      return Failure(check.error);
    }
    if !(entityType.VStr? && entityValue.VStr?) {
      return Failure(TypeError("str"));
    }
    r := UpsertFeaturesFlow(db, c, entityValue.s, AsValues(items.value), entityType.s, now);
  }

  /** After a successful conversion the validation step never rejects: conversion already
      refuses empty lists and non-dict features. */
  lemma ValidationAfterConversionPasses(featureList: Value)
    requires ItemsFrom(featureList).Success?
    ensures ValidateItems(AsValues(ItemsFrom(featureList).value)) == Pass
  {
    var pairs := ParseEach(featureList.items, ParseItem).value;
    FromPairsSpec(pairs);
    ConvertedItemsValidate(featureList, FromPairs(pairs));
  }

  /** The write schema requires `identifier` and `identifier_value` but the controller reads
      `entity_type`: a request carrying only the fields the schema requires passes the schema
      and then fails in the controller with `KeyError('entity_type')`, before any write. */
  lemma SchemaValidRequestLacksEntityType(metadata: Value, data: map<string, Value>)
    requires FeatureSchemas.ValidateWriteData(data).Success?
    requires "entity_type" !in data
    ensures RequestFields(VDict(map["metadata" := metadata, "data" := VDict(data)])) == Failure(KeyError("entity_type"))
  {
  }
}
