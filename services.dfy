/**
 * The service layer of components/features/services.py: turning request feature lists into
 * the category-keyed shapes the flows consume, sanitising identifiers, and the structural
 * checks on requests. Ordered dicts are lists of (key, value) pairs (see `PyValue.Put`).
 */
module FeatureServices {
  import opened Wrappers
  import opened Text
  import opened PyValue

  // ---------------------------------------------------------------------------------------
  // validate_table_type
  // ---------------------------------------------------------------------------------------

  /** `validate_table_type`: only the two known tables are accepted. */
  function ValidateTableType(tableType: string): (r: Outcome<Exc>)
    ensures r.Pass? <==> tableType == "bright_uid" || tableType == "account_id"
    ensures r.Fail? ==> r.error.ValueError?
  {
    if tableType == "bright_uid" || tableType == "account_id" then Pass
    else Fail(ValueError("Invalid table_type '" + tableType + "'. Must be 'bright_uid' or 'account_id'"))
  }

  // ---------------------------------------------------------------------------------------
  // validate_mapping / validate_items
  // ---------------------------------------------------------------------------------------

  function CheckFeatureName(v: Value): Outcome<Exc>
  {
    if v.VStr? then Pass else Fail(ValueError("Feature names must be strings, got " + TypeRepr(v)))
  }

  function CheckMappingEntry(entry: (string, Value)): Outcome<Exc>
  {
    if !entry.1.VList? then Fail(ValueError("Features for category '" + entry.0 + "' must be a list"))
    else FirstError(entry.1.items, CheckFeatureName)
  }

  /** `validate_mapping`: a non-empty mapping whose every value is a list of strings. */
  function ValidateMapping(mapping: seq<(string, Value)>): (r: Outcome<Exc>)
    ensures r.Pass? <==>
      && mapping != []
      && forall i :: 0 <= i < |mapping| ==>
           mapping[i].1.VList? && forall x :: x in mapping[i].1.items ==> x.VStr?
    ensures mapping == [] ==> r == Fail(ValueError("Mapping body cannot be empty"))
  {
    if mapping == [] then Fail(ValueError("Mapping body cannot be empty"))
    else
      var r := FirstError(mapping, CheckMappingEntry);
      assert forall i :: 0 <= i < |mapping| && mapping[i].1.VList? ==>
        (CheckMappingEntry(mapping[i]).Pass? <==> forall x :: x in mapping[i].1.items ==> x.VStr?) by {
        forall i | 0 <= i < |mapping| && mapping[i].1.VList?
          ensures CheckMappingEntry(mapping[i]).Pass? <==> forall x :: x in mapping[i].1.items ==> x.VStr?
        {
          var items := mapping[i].1.items;
          assert FirstError(items, CheckFeatureName).Pass? <==> forall j :: 0 <= j < |items| ==> items[j].VStr?;
        }
      }
      r
  }

  function CheckItemEntry(entry: (string, Value)): Outcome<Exc>
  {
    if entry.1.VDict? then Pass
    else Fail(ValueError("Features for category '" + entry.0 + "' must be a valid object/dictionary"))
  }

  /** `validate_items`: a non-empty map of category to feature dict. Feature names are always
      strings here, and null or unusual feature values are only logged, never rejected. */
  function ValidateItems(items: seq<(string, Value)>): (r: Outcome<Exc>)
    ensures r.Pass? <==> items != [] && forall i :: 0 <= i < |items| ==> items[i].1.VDict?
    ensures items == [] ==> r == Fail(ValueError("Request body cannot be empty"))
  {
    if items == [] then Fail(ValueError("Request body cannot be empty"))
    else FirstError(items, CheckItemEntry)
  }

  // ---------------------------------------------------------------------------------------
  // sanitize_entity_value / sanitize_category
  // ---------------------------------------------------------------------------------------

  /** Shared body of the two sanitizers: reject falsy and non-string values, strip, truncate. */
  function Sanitize(v: Value, limit: nat, emptyMessage: string, typeMessage: string): (r: Result<string, Exc>)
    ensures !Truthy(v) ==> r == Failure(ValueError(emptyMessage))
    ensures Truthy(v) && !v.VStr? ==> r == Failure(ValueError(typeMessage + TypeRepr(v)))
    ensures r.Success? <==> Truthy(v) && v.VStr?
    ensures r.Success? ==>
      && |r.value| == (if |Strip(v.s)| <= limit then |Strip(v.s)| else limit)
      && r.value == Strip(v.s)[..|r.value|]
  {
    if !Truthy(v) then Failure(ValueError(emptyMessage))
    else if !v.VStr? then Failure(ValueError(typeMessage + TypeRepr(v)))
    else Success(Take(Strip(v.s), limit))
  }

  /** `sanitize_entity_value`: the stripped value, cut to at most 255 characters. */
  function SanitizeEntityValue(v: Value): (r: Result<string, Exc>)
    ensures !Truthy(v) ==> r == Failure(ValueError("Entity value cannot be empty"))
    ensures r.Success? <==> Truthy(v) && v.VStr?
    ensures r.Success? ==> |r.value| <= 255 && |r.value| <= |Strip(v.s)| && r.value == Strip(v.s)[..|r.value|]
    ensures r.Success? && |Strip(v.s)| <= 255 ==> r.value == Strip(v.s)
  {
    Sanitize(v, 255, "Entity value cannot be empty", "Entity value must be a string, got ")
  }

  /** `sanitize_category`: the stripped name, cut to at most 100 characters. */
  function SanitizeCategory(v: Value): (r: Result<string, Exc>)
    ensures !Truthy(v) ==> r == Failure(ValueError("Category cannot be empty"))
    ensures r.Success? <==> Truthy(v) && v.VStr?
    ensures r.Success? ==> |r.value| <= 100 && |r.value| <= |Strip(v.s)| && r.value == Strip(v.s)[..|r.value|]
    ensures r.Success? && |Strip(v.s)| <= 100 ==> r.value == Strip(v.s)
  {
    Sanitize(v, 100, "Category cannot be empty", "Category must be a string, got ")
  }

  // ---------------------------------------------------------------------------------------
  // validate_request_structure
  // ---------------------------------------------------------------------------------------

  /** `validate_request_structure`: checks the envelope in a fixed order and hands back
      `(metadata, data)` unchanged. */
  function ValidateRequestStructure(request: map<string, Value>): (r: Result<(Value, Value), Exc>)
    ensures r.Success? <==>
      && request != map[] && "metadata" in request && "data" in request
      && request["metadata"].VDict? && request["data"].VDict?
      && "entity_type" in request["data"].m && "entity_value" in request["data"].m
      && "feature_list" in request["data"].m
    ensures r.Success? ==> r.value == (request["metadata"], request["data"])
    ensures request == map[] ==> r == Failure(ValueError("Request body cannot be empty"))
    ensures request != map[] && "metadata" !in request ==> r == Failure(ValueError("Request must contain 'metadata' field"))
    ensures request != map[] && "metadata" in request && "data" !in request ==>
      r == Failure(ValueError("Request must contain 'data' field"))
  {
    if request == map[] then Failure(ValueError("Request body cannot be empty"))
    else if "metadata" !in request then Failure(ValueError("Request must contain 'metadata' field"))
    else if "data" !in request then Failure(ValueError("Request must contain 'data' field"))
    else
      var metadata := request["metadata"];
      var data := request["data"];
      if !metadata.VDict? then Failure(ValueError("Metadata must be a dictionary"))
      else if !data.VDict? then Failure(ValueError("Data must be a dictionary"))
      else if "entity_type" !in data.m then Failure(ValueError("Data must contain 'entity_type' field"))
      else if "entity_value" !in data.m then Failure(ValueError("Data must contain 'entity_value' field"))
      else if "feature_list" !in data.m then Failure(ValueError("Data must contain 'feature_list' field"))
      else Success((metadata, data))
  }

  // ---------------------------------------------------------------------------------------
  // convert_feature_list_to_mapping
  // ---------------------------------------------------------------------------------------

  /** One read selector, `"category:feature"` or `"category:*"`, split at its first colon. */
  function ParseSelector(v: Value): (r: Result<(string, string), Exc>)
    ensures r.Success? <==> v.VStr? && ':' in v.s
    ensures r.Success? ==> v.s == r.value.0 + ":" + r.value.1 && ':' !in r.value.0
  {
    if !v.VStr? then Failure(ValueError("Feature must be a string, got " + TypeRepr(v)))
    else if ':' !in v.s then
      Failure(ValueError("Feature must be in format 'category:feature' or 'category:*', got: " + v.s))
    else Success(SplitOnce(v.s, ':'))
  }

  /** A selector is split at its first colon only: the feature name may contain colons. */
  lemma SelectorSplitsAtFirstColon(category: string, name: string)
    requires ':' !in category
    ensures ParseSelector(VStr(category + ":" + name)) == Success((category, name))
  {
    SplitOnceAt(category, ':', name);
  }

  /** The plain (non-wildcard) feature names selected for `category`, in input order. */
  function NamesFor(pairs: seq<(string, string)>, category: string): (r: seq<string>)
    ensures "*" !in r
  {
    if pairs == [] then []
    else
      var last := pairs[|pairs| - 1];
      NamesFor(pairs[..|pairs| - 1], category) + (if last.0 == category && last.1 != "*" then [last.1] else [])
  }

  /** What a category's list ends up as: `["*"]` once any wildcard names it, else its names. */
  function Wanted(pairs: seq<(string, string)>, category: string): seq<string>
  {
    if (category, "*") in pairs then ["*"] else NamesFor(pairs, category)
  }

  /** `mapping` is the category->names dict the selectors `pairs` describe: one key per
      category, in order of first appearance, each holding `Wanted`. */
  predicate IsSelection(mapping: seq<(string, seq<string>)>, pairs: seq<(string, string)>)
  {
    && Keys(mapping) == Dedup(Keys(pairs))
    && forall c :: c in Keys(pairs) ==> Get(mapping, c) == Some(Wanted(pairs, c))
  }

  lemma {:induction false} NamesForAbsent(pairs: seq<(string, string)>, category: string)
    requires category !in Keys(pairs)
    ensures NamesFor(pairs, category) == []
  {
    if pairs != [] {
      var init := pairs[..|pairs| - 1];
      assert Keys(init) == Keys(pairs)[..|pairs| - 1];
      NamesForAbsent(init, category);
    }
  }

  lemma DedupSnoc<T>(s: seq<T>, x: T)
    ensures Dedup(s + [x]) == if x in s then Dedup(s) else Dedup(s) + [x]
  {
    assert (s + [x])[..|s|] == s;
    DedupMembers(s);
  }

  lemma PairKey(pairs: seq<(string, string)>, p: (string, string))
    requires p in pairs
    ensures p.0 in Keys(pairs)
  {
    var i :| 0 <= i < |pairs| && pairs[i] == p;
    assert Keys(pairs)[i] == p.0;
  }

  /** What one more selector `p` does to the wanted lists: it changes only `p.0`'s. */
  lemma WantedSnoc(pairs: seq<(string, string)>, p: (string, string), c: string)
    ensures c != p.0 ==> Wanted(pairs + [p], c) == Wanted(pairs, c)
    ensures c == p.0 ==>
      Wanted(pairs + [p], c) == if p.1 == "*" || (c, "*") in pairs then ["*"] else NamesFor(pairs, c) + [p.1]
  {
    assert (pairs + [p])[..|pairs|] == pairs;
  }

  /** The list held for a category, `[]` when absent, is what the selectors so far want. */
  lemma CurrentIsWanted(mapping: seq<(string, seq<string>)>, pairs: seq<(string, string)>, c: string)
    requires IsSelection(mapping, pairs)
    ensures (if Get(mapping, c).Some? then Get(mapping, c).value else []) == Wanted(pairs, c)
    ensures c !in Keys(pairs) ==> Wanted(pairs, c) == []
  {
    DedupMembers(Keys(pairs));
    if c !in Keys(pairs) {
      NamesForAbsent(pairs, c);
      if (c, "*") in pairs { PairKey(pairs, (c, "*")); }
    }
  }

  /** Setting `c`'s list to what the selectors `pairs + [p]` want keeps `IsSelection`. */
  lemma SelectionPut(mapping: seq<(string, seq<string>)>, pairs: seq<(string, string)>, p: (string, string))
    requires IsSelection(mapping, pairs)
    ensures IsSelection(Put(mapping, p.0, Wanted(pairs + [p], p.0)), pairs + [p])
  {
    var next := Put(mapping, p.0, Wanted(pairs + [p], p.0));
    KeysSnoc(pairs, p);
    DedupSnoc(Keys(pairs), p.0);
    DedupMembers(Keys(pairs));
    PutSpec(mapping, p.0, Wanted(pairs + [p], p.0));
    forall c' | c' in Keys(pairs + [p])
      ensures Get(next, c') == Some(Wanted(pairs + [p], c'))
    {
      WantedSnoc(pairs, p, c');
    }
  }

  /** A plain name for a category that already holds the wildcard changes nothing. */
  lemma SelectionAbsorb(mapping: seq<(string, seq<string>)>, pairs: seq<(string, string)>, p: (string, string))
    requires IsSelection(mapping, pairs)
    requires p.1 != "*" && (p.0, "*") in pairs
    ensures IsSelection(mapping, pairs + [p])
  {
    PairKey(pairs, (p.0, "*"));
    KeysSnoc(pairs, p);
    DedupSnoc(Keys(pairs), p.0);
    forall c' | c' in Keys(pairs + [p])
      ensures Get(mapping, c') == Some(Wanted(pairs + [p], c'))
    {
      WantedSnoc(pairs, p, c');
    }
  }

  /** `convert_feature_list_to_mapping`: parses every selector and groups the feature names
      by category. A wildcard replaces a category's names and absorbs any later ones. */
  method ConvertFeatureListToMapping(featureList: Value) returns (r: Result<seq<(string, seq<string>)>, Exc>)
    ensures !Truthy(featureList) ==> r == Failure(ValueError("Feature list cannot be empty"))
    ensures Truthy(featureList) && !featureList.VList? ==> r == Failure(ValueError("Feature list must be a list"))
    ensures Truthy(featureList) && featureList.VList? ==>
      var parsed := ParseEach(featureList.items, ParseSelector);
      && (parsed.Failure? ==> r == Failure(parsed.error))
      && (parsed.Success? ==> r.Success? && IsSelection(r.value, parsed.value))
  {
    if !Truthy(featureList) {
      return Failure(ValueError("Feature list cannot be empty"));
    }
    if !featureList.VList? {
      return Failure(ValueError("Feature list must be a list"));
    }
    var xs := featureList.items;
    var mapping: seq<(string, seq<string>)> := [];
    ghost var pairs: seq<(string, string)> := [];
    var i := 0;
    while i < |xs|
      invariant 0 <= i <= |xs|
      invariant ParseEach(xs[..i], ParseSelector) == Success(pairs)
      invariant IsSelection(mapping, pairs)
    {
      ParseEachStep(xs, i, ParseSelector);
      var parsed := ParseSelector(xs[i]);
      if parsed.Failure? {
        return Failure(parsed.error);
      }
      var p := parsed.value;
      var category := p.0;
      var name := p.1;
      var next;
      CurrentIsWanted(mapping, pairs, category);
      WantedSnoc(pairs, p, category);
      if name == "*" {
        next := Put(mapping, category, ["*"]);
        SelectionPut(mapping, pairs, p);
        assert IsSelection(next, pairs + [p]);
      } else {
        var current := Get(mapping, category);
        var names := if current.Some? then current.value else [];
        if "*" !in names {
          next := Put(mapping, category, names + [name]);
          SelectionPut(mapping, pairs, p);
          assert IsSelection(next, pairs + [p]);
        } else {
          next := mapping;
          SelectionAbsorb(mapping, pairs, p);
          assert IsSelection(next, pairs + [p]);
        }
      }
      mapping := next;
      pairs := pairs + [parsed.value];
      i := i + 1;
    }
    assert xs[..i] == xs;
    return Success(mapping);
  }

  /** Consequences of `IsSelection`: a category holds `["*"]` exactly when a wildcard named it,
      and otherwise every plain name given for it, in order, repeats included. */
  lemma WildcardAbsorbs(mapping: seq<(string, seq<string>)>, pairs: seq<(string, string)>, c: string)
    requires IsSelection(mapping, pairs) && c in Keys(pairs)
    ensures (c, "*") in pairs ==> Get(mapping, c) == Some(["*"])
    ensures (c, "*") !in pairs ==> Get(mapping, c) == Some(NamesFor(pairs, c)) && "*" !in NamesFor(pairs, c)
  {
  }

  // ---------------------------------------------------------------------------------------
  // convert_feature_list_to_items
  // ---------------------------------------------------------------------------------------

  /** One write item, `{"category": str, "features": dict, ...}`. */
  function ParseItem(v: Value): (r: Result<(string, map<string, Value>), Exc>)
    ensures r.Success? <==>
      && v.VDict? && "category" in v.m && "features" in v.m
      && v.m["category"].VStr? && v.m["features"].VDict?
    ensures r.Success? ==> r.value == (v.m["category"].s, v.m["features"].m)
  {
    if !v.VDict? then Failure(ValueError("Feature item must be a dictionary, got " + TypeRepr(v)))
    else if "category" !in v.m then Failure(ValueError("Feature item must contain 'category' field"))
    else if "features" !in v.m then Failure(ValueError("Feature item must contain 'features' field"))
    else
      var category := v.m["category"];
      var features := v.m["features"];
      if !category.VStr? then Failure(ValueError("Category must be a string, got " + TypeRepr(category)))
      else if !features.VDict? then Failure(ValueError("Features must be a dictionary, got " + TypeRepr(features)))
      else Success((category.s, features.m))
  }

  /** `convert_feature_list_to_items`: one entry per category, in order of first appearance;
      when a category appears twice the last item's features win. */
  method ConvertFeatureListToItems(featureList: Value) returns (r: Result<seq<(string, map<string, Value>)>, Exc>)
    ensures !Truthy(featureList) ==> r == Failure(ValueError("Feature list cannot be empty"))
    ensures Truthy(featureList) && !featureList.VList? ==> r == Failure(ValueError("Feature list must be a list"))
    ensures Truthy(featureList) && featureList.VList? ==>
      var parsed := ParseEach(featureList.items, ParseItem);
      && (parsed.Failure? ==> r == Failure(parsed.error))
      && (parsed.Success? ==>
            && r == Success(FromPairs(parsed.value))
            && Keys(r.value) == Dedup(Keys(parsed.value))
            && forall c :: Get(r.value, c) == LastValue(parsed.value, c))
  {
    if !Truthy(featureList) {
      return Failure(ValueError("Feature list cannot be empty"));
    }
    if !featureList.VList? {
      return Failure(ValueError("Feature list must be a list"));
    }
    var xs := featureList.items;
    var items: seq<(string, map<string, Value>)> := [];
    ghost var pairs: seq<(string, map<string, Value>)> := [];
    var i := 0;
    while i < |xs|
      invariant 0 <= i <= |xs|
      invariant ParseEach(xs[..i], ParseItem) == Success(pairs)
      invariant items == FromPairs(pairs)
    {
      ParseEachStep(xs, i, ParseItem);
      var parsed := ParseItem(xs[i]);
      if parsed.Failure? {
        return Failure(parsed.error);
      }
      items := Put(items, parsed.value.0, parsed.value.1);
      pairs := pairs + [parsed.value];
      assert pairs[..|pairs| - 1] == pairs[..|pairs| - 1];
      i := i + 1;
    }
    assert xs[..i] == xs;
    FromPairsSpec(pairs);
    return Success(items);
  }

  /** The items as the dict of dicts `validate_items` receives. */
  function AsValues(items: seq<(string, map<string, Value>)>): (r: seq<(string, Value)>)
    ensures |r| == |items|
    ensures forall i :: 0 <= i < |items| ==> r[i] == (items[i].0, VDict(items[i].1))
  {
    seq(|items|, i requires 0 <= i < |items| => (items[i].0, VDict(items[i].1)))
  }

  /** Items produced by a successful conversion always pass `validate_items`: conversion
      already rejects empty lists and non-dict features. */
  lemma ConvertedItemsValidate(featureList: Value, items: seq<(string, map<string, Value>)>)
    requires Truthy(featureList) && featureList.VList?
    requires ParseEach(featureList.items, ParseItem).Success?
    requires Keys(items) == Dedup(Keys(ParseEach(featureList.items, ParseItem).value))
    ensures ValidateItems(AsValues(items)) == Pass
  {
    var parsed := ParseEach(featureList.items, ParseItem).value;
    DedupMembers(Keys(parsed));
    assert Keys(parsed)[0] in Dedup(Keys(parsed));
  }
}
