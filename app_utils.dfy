/**
 * `filter_features` of app/utils.py, the older flat-schema filter: the item's `features` map
 * itself (not a nested `data`) is restricted to the requested names. The module's two
 * converters are the ones of `DynamoCodec`.
 */
module AppUtils {
  import opened PyValue

  /** The features `filter_features` works on: `item.get("features") or {}`. */
  function FeaturesOrEmpty(item: map<string, Value>): Value
  {
    if "features" in item && Truthy(item["features"]) then item["features"] else VDict(map[])
  }

  /** `filter_features`: a copy of the item whose `features` map keeps only the requested
      names; an empty key set returns the item itself. */
  function FilterFeatures(item: map<string, Value>, keys: set<string>): (r: map<string, Value>)
    ensures keys == {} ==> r == item
  {
    if keys == {} then item
    else
      var features := FeaturesOrEmpty(item);
      if features.VDict? then item["features" := VDict(map k | k in features.m && k in keys :: features.m[k])]
      else item
  }

  /** What filtering keeps: every other attribute as it was; `features` restricted to the
      requested names, or `{}` when it was missing or falsy; a truthy non-dict `features` is
      left alone. */
  lemma FilterFeaturesSpec(item: map<string, Value>, keys: set<string>)
    requires keys != {}
    ensures var r := FilterFeatures(item, keys);
      && (forall k :: k in item && k != "features" ==> k in r && r[k] == item[k])
      && (forall k :: k in r && k != "features" ==> k in item)
      && (("features" !in item || !Truthy(item["features"])) ==> r["features"] == VDict(map[]))
      && ("features" in item && item["features"].VDict? ==>
            && r["features"].VDict?
            && r["features"].m.Keys == item["features"].m.Keys * keys
            && forall k :: k in r["features"].m ==> r["features"].m[k] == item["features"].m[k])
      && ("features" in item && Truthy(item["features"]) && !item["features"].VDict? ==> r == item)
  {
  }

  /** Filtering twice with the same names changes nothing more. */
  lemma FilterFeaturesIdempotent(item: map<string, Value>, keys: set<string>)
    ensures FilterFeatures(FilterFeatures(item, keys), keys) == FilterFeatures(item, keys)
  {
    if keys != {} {
      var once := FilterFeatures(item, keys);
      FilterFeaturesSpec(item, keys);
      var f := FeaturesOrEmpty(item);
      if f.VDict? {
        var kept := map k | k in f.m && k in keys :: f.m[k];
        if kept == map[] {
          assert !Truthy(once["features"]);
        } else {
          assert FeaturesOrEmpty(once) == VDict(kept);
        }
        assert (map k | k in kept && k in keys :: kept[k]) == kept;
      }
    }
  }
}
