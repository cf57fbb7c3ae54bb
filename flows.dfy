/**
 * The business flows of components/features/flows.py, over the store of `FeatureCrud`:
 * a single-category read, a multi-category read with per-category projection, and the
 * per-category upsert loop.
 */
module FeatureFlows {
  import opened Wrappers
  import opened PyValue
  import opened DynamoCodec
  import opened Dynamo
  import opened FeatureCrud

  // ---------------------------------------------------------------------------------------
  // _filter_features
  // ---------------------------------------------------------------------------------------

  /** `_filter_features`: keeps only the requested names in `features.data`. Everything else
      in the item, including `features.metadata`, is left as it was. */
  function FilterFeatures(item: map<string, Value>, keys: set<string>): (r: Result<map<string, Value>, Exc>)
    ensures keys == {} || "features" !in item ==> r == Success(item)
  {
    if keys == {} || "features" !in item then Success(item)
    else
      var features := item["features"];
      if features.VDict? && "data" in features.m then
        var data := features.m["data"];
        if !data.VDict? then Failure(AttributeError("items"))
        else
          var kept := map k | k in data.m && k in keys :: data.m[k];
          Success(item["features" := VDict(features.m["data" := VDict(kept)])])
      else Success(item)
  }

  /** What filtering keeps: `features.data` restricted to the requested names (absent names
      are simply not there); every other attribute of the item and of `features` unchanged.
      It fails only when `data` is there but is not a dict. */
  lemma FilterFeaturesSpec(item: map<string, Value>, keys: set<string>)
    ensures var r := FilterFeatures(item, keys);
      && (r.Failure? <==>
            && keys != {} && "features" in item && item["features"].VDict?
            && "data" in item["features"].m && !item["features"].m["data"].VDict?)
      && (r.Success? ==> r.value.Keys == item.Keys && forall k :: k in item && k != "features" ==> r.value[k] == item[k])
      && (r.Success? && "features" in item && (!item["features"].VDict? || "data" !in item["features"].m) ==>
            r.value == item)
      && (r.Success? && keys != {} && "features" in item && item["features"].VDict? && "data" in item["features"].m ==>
            var features := item["features"].m;
            var data := features["data"].m;
            && r.value["features"].VDict?
            && r.value["features"].m.Keys == features.Keys
            && (forall k :: k in features && k != "data" ==> r.value["features"].m[k] == features[k])
            && r.value["features"].m["data"].VDict?
            && r.value["features"].m["data"].m.Keys == data.Keys * keys
            && (forall k :: k in data && k in keys ==> r.value["features"].m["data"].m[k] == data[k]))
  {
  }

  // ---------------------------------------------------------------------------------------
  // get_single_category_flow
  // ---------------------------------------------------------------------------------------

  /** `get_single_category_flow`: the stored item, or "Item not found" when there is none. */
  method GetSingleCategoryFlow(db: Database, c: Codec, identifier: string, category: string, tableType: string)
    returns (r: Result<map<string, Value>, Exc>)
    modifies db`lookups
    ensures db.tables == old(db.tables)
    ensures tableType !in db.tables ==> r == Failure(NoTable(tableType))
    ensures tableType in db.tables ==>
      var found := Lookup(c, db.tables[tableType], Key(identifier, category));
      && (found.None? ==> r == Failure(ValueError("Item not found: " + identifier + "/" + category)))
      && (found.Some? ==> r == Success(found.value))
  {
    var item := GetItem(db, c, identifier, category, tableType);
    if item.Failure? {
      return Failure(item.error);
    }
    if item.value.None? {
      return Failure(ValueError("Item not found: " + identifier + "/" + category));
    }
    return Success(item.value.value);
  }

  // ---------------------------------------------------------------------------------------
  // get_multiple_categories_flow
  // ---------------------------------------------------------------------------------------

  /** The flow's answer: the found items by category and the categories with no record. */
  datatype BatchRead = BatchRead(identifier: string, tableType: string,
                                 items: seq<(string, map<string, Value>)>, missing: seq<string>)

  /** The error raised when not one requested category has a record. */
  function NoItems(identifier: string): Exc
  {
    ValueError("No items found for identifier '" + identifier + "' with provided mapping")
  }

  /** Is a record stored for this category? (`get_item` returns one exactly then.) */
  predicate Present(t: Table, identifier: string, category: string)
  {
    StoredItem(t, Key(identifier, category)) != map[]
  }

  /** The requested categories that have a record, in request order. */
  function FoundIn(t: Table, identifier: string, cats: seq<string>): seq<string>
  {
    if cats == [] then []
    else FoundIn(t, identifier, cats[..|cats| - 1])
         + (if Present(t, identifier, cats[|cats| - 1]) then [cats[|cats| - 1]] else [])
  }

  /** The requested categories that have no record, in request order. */
  function MissingIn(t: Table, identifier: string, cats: seq<string>): seq<string>
  {
    if cats == [] then []
    else MissingIn(t, identifier, cats[..|cats| - 1])
         + (if Present(t, identifier, cats[|cats| - 1]) then [] else [cats[|cats| - 1]])
  }

  /** The lookups a read of these categories makes, one per category, in order. */
  function LookupsOf(tableType: string, identifier: string, cats: seq<string>): (r: seq<(string, Key)>)
    ensures |r| == |cats|
    ensures forall i :: 0 <= i < |cats| ==> r[i] == (tableType, Key(identifier, cats[i]))
  {
    seq(|cats|, i requires 0 <= i < |cats| => (tableType, Key(identifier, cats[i])))
  }

  /** How a category's list of names selects from its record. The components flow treats
      `"*"` as "everything"; the older app routes have no wildcard and filter on any
      non-empty list literally. */
  datatype ListRule = HonoursWildcard | Literal

  /** What a found item becomes: filtered to the requested names, unless the list is empty
      or (where the wildcard is honoured) holds `"*"`. */
  function Projected(rule: ListRule, item: map<string, Value>, wanted: seq<string>): (r: Result<map<string, Value>, Exc>)
    ensures wanted == [] || (rule == HonoursWildcard && "*" in wanted) ==> r == Success(item)
    ensures r.Failure? ==> r.error == AttributeError("items")
  {
    if wanted == [] || (rule == HonoursWildcard && "*" in wanted) then Success(item)
    else FilterFeatures(item, set x | x in wanted)
  }

  /** Otherwise the item keeps every attribute but `features`, and `features.data` keeps
      only requested names; a failure is the `AttributeError` of a `data` that is not a dict. */
  lemma ProjectedSpec(rule: ListRule, item: map<string, Value>, wanted: seq<string>)
    requires wanted != [] && !(rule == HonoursWildcard && "*" in wanted)
    ensures var r := Projected(rule, item, wanted);
      && (r.Failure? <==> "features" in item && item["features"].VDict? && "data" in item["features"].m
                          && !item["features"].m["data"].VDict?)
      && (r.Success? ==> r.value.Keys == item.Keys && forall k :: k in item && k != "features" ==> r.value[k] == item[k])
      && (r.Success? && "features" in item && item["features"].VDict? && "data" in item["features"].m ==>
            && r.value["features"].VDict? && "data" in r.value["features"].m && r.value["features"].m["data"].VDict?
            && (forall k :: k in r.value["features"].m["data"].m ==> k in wanted))
  {
    var keys := set x | x in wanted;
    assert wanted[0] in keys;
    FilterFeaturesSpec(item, keys);
  }

  /** Every found category can be projected (filtering fails only on a non-dict `data`). */
  predicate ProjectionsSucceed(rule: ListRule, c: Codec, t: Table, identifier: string, mapping: seq<(string, seq<string>)>)
  {
    forall i :: 0 <= i < |mapping| && Present(t, identifier, mapping[i].0) ==>
      Projected(rule, Lookup(c, t, Key(identifier, mapping[i].0)).value, mapping[i].1).Success?
  }

  /** Each found category holds its record, projected to what was asked for it. */
  predicate ItemsAsRequested(rule: ListRule, c: Codec, t: Table, identifier: string, mapping: seq<(string, seq<string>)>,
                             items: seq<(string, map<string, Value>)>)
  {
    forall j :: 0 <= j < |items| ==>
      && Present(t, identifier, items[j].0)
      && Get(mapping, items[j].0).Some?
      && Projected(rule, Lookup(c, t, Key(identifier, items[j].0)).value, Get(mapping, items[j].0).value)
         == Success(items[j].1)
  }

  lemma PutNewKey<K, V>(d: seq<(K, V)>, k: K, v: V)
    requires k !in Keys(d)
    ensures Put(d, k, v) == d + [(k, v)]
  {
    if d != [] {
      PutNewKey(d[1..], k, v);
    }
  }

  lemma GetDistinct<K, V>(d: seq<(K, V)>, i: nat)
    requires DistinctKeys(d) && i < |d|
    ensures Get(d, d[i].0) == Some(d[i].1)
  {
    if i > 0 {
      GetDistinct(d[1..], i - 1);
    }
  }

  /** One more category extends exactly one of the two lists. */
  lemma FoundMissingSnoc(t: Table, identifier: string, cats: seq<string>, x: string)
    ensures FoundIn(t, identifier, cats + [x]) == FoundIn(t, identifier, cats) + (if Present(t, identifier, x) then [x] else [])
    ensures MissingIn(t, identifier, cats + [x]) == MissingIn(t, identifier, cats) + (if Present(t, identifier, x) then [] else [x])
  {
    assert (cats + [x])[..|cats|] == cats;
  }

  /** Dropping the last entry of a dict leaves a dict without that entry's key. */
  lemma DistinctInit<K, V>(d: seq<(K, V)>)
    requires DistinctKeys(d) && d != []
    ensures DistinctKeys(d[..|d| - 1]) && d[|d| - 1].0 !in Keys(d[..|d| - 1])
  {
    var init := d[..|d| - 1];
    assert forall i :: 0 <= i < |init| ==> init[i] == d[i];
  }

  /** A read's lookups grow by one per category. */
  lemma LookupsOfSnoc(tableType: string, identifier: string, cats: seq<string>, x: string)
    ensures LookupsOf(tableType, identifier, cats + [x]) == LookupsOf(tableType, identifier, cats) + [(tableType, Key(identifier, x))]
  {
    var a := LookupsOf(tableType, identifier, cats + [x]);
    var b := LookupsOf(tableType, identifier, cats) + [(tableType, Key(identifier, x))];
    assert |a| == |b|;
    forall j | 0 <= j < |a|
      ensures a[j] == b[j]
    {
      if j < |cats| {
        assert (cats + [x])[j] == cats[j];
      }
    }
  }

  /** The categories of the first `i + 1` entries of a mapping. */
  lemma KeysOfPrefix<K, V>(mapping: seq<(K, V)>, i: nat)
    requires i < |mapping|
    ensures Keys(mapping[..i + 1]) == Keys(mapping[..i]) + [mapping[i].0]
  {
    assert mapping[..i + 1] == mapping[..i] + [mapping[i]];
    KeysSnoc(mapping[..i], mapping[i]);
  }

  /** In a dict, the last key does not occur before. */
  lemma LastKeyIsNew<K, V>(d: seq<(K, V)>)
    requires DistinctKeys(d) && d != []
    ensures d[|d| - 1].0 !in Keys(d)[..|d| - 1]
  {
    assert forall j :: 0 <= j < |d| - 1 ==> Keys(d)[..|d| - 1][j] == d[j].0;
  }

  lemma FoundInSubset(t: Table, identifier: string, cats: seq<string>)
    ensures forall x :: x in FoundIn(t, identifier, cats) ==> x in cats
  {
    if cats != [] {
      FoundInSubset(t, identifier, cats[..|cats| - 1]);
    }
  }

  /** Every requested category is either found or missing, never both, and the two lists
      together are as long as the request. */
  lemma {:induction false} FoundMissingPartition(t: Table, identifier: string, cats: seq<string>)
    ensures |FoundIn(t, identifier, cats)| + |MissingIn(t, identifier, cats)| == |cats|
    ensures forall x :: x in cats ==>
      (x in FoundIn(t, identifier, cats) <==> Present(t, identifier, x))
      && (x in MissingIn(t, identifier, cats) <==> !Present(t, identifier, x))
    ensures forall x :: x in FoundIn(t, identifier, cats) || x in MissingIn(t, identifier, cats) ==> x in cats
  {
    if cats != [] {
      var init := cats[..|cats| - 1];
      FoundMissingPartition(t, identifier, init);
      assert cats == init + [cats[|cats| - 1]];
    }
  }

  /** The loop of `get_multiple_categories_flow` over the first categories of the mapping:
      the found items (projected) and the missing categories so far, or the first error. */
  function Gathered(rule: ListRule, c: Codec, t: Table, identifier: string, mapping: seq<(string, seq<string>)>)
    : (r: Result<(seq<(string, map<string, Value>)>, seq<string>), Exc>)
    ensures r.Failure? ==> r.error == AttributeError("items")
    ensures r.Success? ==> |r.value.1| <= |mapping|
  {
    if mapping == [] then Success(([], []))
    else
      match Gathered(rule, c, t, identifier, mapping[..|mapping| - 1])
      case Failure(e) => Failure(e)
      case Success(sofar) =>
        var (category, wanted) := mapping[|mapping| - 1];
        match Lookup(c, t, Key(identifier, category))
        case None => Success((sofar.0, sofar.1 + [category]))
        case Some(item) =>
          match Projected(rule, item, wanted)
          case Failure(e) => Failure(e)
          case Success(kept) => Success((Put(sofar.0, category, kept), sofar.1))
  }

  /** One more category: the gathered results grow as the loop body says. */
  lemma GatheredSnoc(rule: ListRule, c: Codec, t: Table, identifier: string, mapping: seq<(string, seq<string>)>, i: nat)
    requires i < |mapping|
    ensures Gathered(rule, c, t, identifier, mapping[..i + 1]) ==
      match Gathered(rule, c, t, identifier, mapping[..i])
      case Failure(e) => Failure(e)
      case Success(sofar) =>
        match Lookup(c, t, Key(identifier, mapping[i].0))
        case None => Success((sofar.0, sofar.1 + [mapping[i].0]))
        case Some(item) =>
          match Projected(rule, item, mapping[i].1)
          case Failure(e) => Failure(e)
          case Success(kept) => Success((Put(sofar.0, mapping[i].0, kept), sofar.1))
  {
    assert mapping[..i + 1][..i] == mapping[..i];
  }

  lemma LookupPresent(c: Codec, t: Table, identifier: string, category: string)
    ensures Lookup(c, t, Key(identifier, category)).Some? <==> Present(t, identifier, category)
  {
  }

  /** Projection fails only with an `AttributeError`. */
  lemma ProjectedFailure(rule: ListRule, item: map<string, Value>, wanted: seq<string>)
    ensures Projected(rule, item, wanted).Failure? ==> Projected(rule, item, wanted).error.AttributeError?
  {
  }

  /** The gathering loop fails exactly when some found category cannot be projected, and
      then with an `AttributeError`. */
  lemma {:induction false} GatheredFailsIff(rule: ListRule, c: Codec, t: Table, identifier: string, mapping: seq<(string, seq<string>)>)
    ensures var g := Gathered(rule, c, t, identifier, mapping);
      && (g.Success? <==> ProjectionsSucceed(rule, c, t, identifier, mapping))
      && (g.Failure? ==> g.error.AttributeError?)
  {
    if mapping != [] {
      var n := |mapping| - 1;
      var init := mapping[..n];
      GatheredFailsIff(rule, c, t, identifier, init);
      assert mapping[..n + 1] == mapping;
      GatheredSnoc(rule, c, t, identifier, mapping, n);
      LookupPresent(c, t, identifier, mapping[n].0);
      var g0 := Gathered(rule, c, t, identifier, init);
      if g0.Success? && Present(t, identifier, mapping[n].0) {
        ProjectedFailure(rule, Lookup(c, t, Key(identifier, mapping[n].0)).value, mapping[n].1);
      }
      ProjectionsSucceedSnoc(rule, c, t, identifier, mapping);
    }
  }

  /** Every found category projects when every earlier one does and the last one does. */
  lemma ProjectionsSucceedSnoc(rule: ListRule, c: Codec, t: Table, identifier: string, mapping: seq<(string, seq<string>)>)
    requires mapping != []
    ensures var n := |mapping| - 1;
      ProjectionsSucceed(rule, c, t, identifier, mapping) <==>
        && ProjectionsSucceed(rule, c, t, identifier, mapping[..n])
        && (Present(t, identifier, mapping[n].0) ==>
              Projected(rule, Lookup(c, t, Key(identifier, mapping[n].0)).value, mapping[n].1).Success?)
  {
    var init := mapping[..|mapping| - 1];
    assert forall i :: 0 <= i < |init| ==> init[i] == mapping[i];
  }

  /** When it succeeds, the gathering loop has the found categories in order as keys and the
      missing ones in order as its second list. */
  lemma {:induction false} GatheredLists(rule: ListRule, c: Codec, t: Table, identifier: string, mapping: seq<(string, seq<string>)>)
    requires DistinctKeys(mapping)
    requires Gathered(rule, c, t, identifier, mapping).Success?
    ensures var g := Gathered(rule, c, t, identifier, mapping).value;
      && Keys(g.0) == FoundIn(t, identifier, Keys(mapping))
      && g.1 == MissingIn(t, identifier, Keys(mapping))
  {
    if mapping != [] {
      var n := |mapping| - 1;
      var init := mapping[..n];
      var category := mapping[n].0;
      var g0 := Gathered(rule, c, t, identifier, init);
      var g := Gathered(rule, c, t, identifier, mapping).value;
      var present := Present(t, identifier, category);
      var kept := if present then Projected(rule, Lookup(c, t, Key(identifier, category)).value, mapping[n].1) else Success(map[]);
      assert g0.Success? && kept.Success?
             && (present ==> g == (Put(g0.value.0, category, kept.value), g0.value.1))
             && (!present ==> g == (g0.value.0, g0.value.1 + [category])) by {
        assert mapping[..n + 1] == mapping;
        GatheredSnoc(rule, c, t, identifier, mapping, n);
        LookupPresent(c, t, identifier, category);
      }
      DistinctInit(mapping);
      GatheredLists(rule, c, t, identifier, init);
      KeysInit(mapping);
      ListsStep(t, identifier, Keys(init), category, g0.value, g, kept.value);
    }
  }

  /** The found and missing lists, one more category at a time. */
  lemma ListsStep(t: Table, identifier: string, cats: seq<string>, category: string,
                  g0: (seq<(string, map<string, Value>)>, seq<string>), g: (seq<(string, map<string, Value>)>, seq<string>),
                  kept: map<string, Value>)
    requires category !in cats
    requires Keys(g0.0) == FoundIn(t, identifier, cats) && g0.1 == MissingIn(t, identifier, cats)
    requires Present(t, identifier, category) ==> g == (Put(g0.0, category, kept), g0.1)
    requires !Present(t, identifier, category) ==> g == (g0.0, g0.1 + [category])
    ensures Keys(g.0) == FoundIn(t, identifier, cats + [category]) && g.1 == MissingIn(t, identifier, cats + [category])
  {
    FoundMissingSnoc(t, identifier, cats, category);
    if Present(t, identifier, category) {
      FoundInSubset(t, identifier, cats);
      assert category !in Keys(g0.0);
      PutNewKey(g0.0, category, kept);
      KeysSnoc(g0.0, (category, kept));
    }
  }

  /** When it succeeds, every item the gathering loop holds is its category's record projected
      to what the mapping asks for that category. */
  lemma {:induction false} GatheredItems(rule: ListRule, c: Codec, t: Table, identifier: string, mapping: seq<(string, seq<string>)>)
    requires DistinctKeys(mapping)
    requires Gathered(rule, c, t, identifier, mapping).Success?
    ensures ItemsAsRequested(rule, c, t, identifier, mapping, Gathered(rule, c, t, identifier, mapping).value.0)
  {
    if mapping != [] {
      var n := |mapping| - 1;
      var init := mapping[..n];
      var category := mapping[n].0;
      assert mapping[..n + 1] == mapping;
      GatheredSnoc(rule, c, t, identifier, mapping, n);
      GatheredItems(rule, c, t, identifier, init);
      GatheredLists(rule, c, t, identifier, init);
      var g0 := Gathered(rule, c, t, identifier, init).value;
      ItemsStillAsRequested(rule, c, t, identifier, init, mapping, g0.0);
      LookupPresent(c, t, identifier, category);
      if Present(t, identifier, category) {
        var kept := Projected(rule, Lookup(c, t, Key(identifier, category)).value, mapping[n].1).value;
        var cats := Keys(mapping);
        assert Keys(init) == cats[..n];
        FoundInSubset(t, identifier, cats[..n]);
        LastKeyIsNew(mapping);
        PutNewKey(g0.0, category, kept);
        GetDistinct(mapping, n);
        ItemsAsRequestedSnoc(rule, c, t, identifier, mapping, g0.0, category, kept);
        assert Gathered(rule, c, t, identifier, mapping).value.0 == g0.0 + [(category, kept)];
      } else {
        assert Gathered(rule, c, t, identifier, mapping).value.0 == g0.0;
      }
    }
  }

  /** One more item, projected as requested, keeps the items as requested. */
  lemma ItemsAsRequestedSnoc(rule: ListRule, c: Codec, t: Table, identifier: string, mapping: seq<(string, seq<string>)>,
                             items: seq<(string, map<string, Value>)>, category: string, kept: map<string, Value>)
    requires ItemsAsRequested(rule, c, t, identifier, mapping, items)
    requires Present(t, identifier, category) && Get(mapping, category).Some?
    requires Projected(rule, Lookup(c, t, Key(identifier, category)).value, Get(mapping, category).value) == Success(kept)
    ensures ItemsAsRequested(rule, c, t, identifier, mapping, items + [(category, kept)])
  {
    var all := items + [(category, kept)];
    forall j | 0 <= j < |all|
      ensures && Present(t, identifier, all[j].0)
              && Get(mapping, all[j].0).Some?
              && Projected(rule, Lookup(c, t, Key(identifier, all[j].0)).value, Get(mapping, all[j].0).value)
                 == Success(all[j].1)
    {
      if j < |items| {
        assert all[j] == items[j];
      }
    }
  }

  /** Items requested under a prefix of the mapping are still as requested under the whole. */
  lemma ItemsStillAsRequested(rule: ListRule, c: Codec, t: Table, identifier: string, init: seq<(string, seq<string>)>,
                              mapping: seq<(string, seq<string>)>, items: seq<(string, map<string, Value>)>)
    requires DistinctKeys(mapping) && |init| <= |mapping| && init == mapping[..|init|]
    requires ItemsAsRequested(rule, c, t, identifier, init, items)
    ensures ItemsAsRequested(rule, c, t, identifier, mapping, items)
  {
    forall j | 0 <= j < |items|
      ensures Get(mapping, items[j].0) == Get(init, items[j].0)
    {
      var k :| 0 <= k < |init| && Keys(init)[k] == items[j].0;
      assert init[k] == mapping[k];
      GetDistinct(init, k);
      GetDistinct(mapping, k);
    }
  }

  /** `get_multiple_categories_flow`: one lookup per category in mapping order; found items
      are projected, missing categories collected; if nothing was found the flow raises. */
  method GetMultipleCategoriesFlow(db: Database, c: Codec, identifier: string,
                                   mapping: seq<(string, seq<string>)>, tableType: string)
    returns (r: Result<BatchRead, Exc>)
    modifies db`lookups
    ensures db.tables == old(db.tables)
    ensures mapping == [] ==> r == Failure(ValueError("Mapping body cannot be empty")) && db.lookups == old(db.lookups)
    ensures mapping != [] && tableType !in db.tables ==> r == Failure(NoTable(tableType)) && db.lookups == old(db.lookups)
    ensures mapping != [] && tableType in db.tables ==>
      var g := Gathered(HonoursWildcard, c, db.tables[tableType], identifier, mapping);
      && (g.Failure? ==> r == Failure(g.error))
      && (g.Success? ==> db.lookups == old(db.lookups) + LookupsOf(tableType, identifier, Keys(mapping)))
      && (g.Success? && g.value.0 == [] ==> r == Failure(NoItems(identifier)))
      && (g.Success? && g.value.0 != [] ==> r == Success(BatchRead(identifier, tableType, g.value.0, g.value.1)))
  {
    if mapping == [] {
      return Failure(ValueError("Mapping body cannot be empty"));
    }
    if tableType !in db.tables {
      var first := GetItem(db, c, identifier, mapping[0].0, tableType);
      return Failure(first.error);
    }
    var g := GatherItems(db, c, identifier, mapping, tableType);
    if g.Failure? {
      return Failure(g.error);
    }
    var (results, missing) := g.value;
    if results == [] {
      return Failure(NoItems(identifier));
    }
    return Success(BatchRead(identifier, tableType, results, missing));
  }

  /** The loop of `get_multiple_categories_flow`: one lookup per category in order, stopping
      at the first projection that fails. */
  method GatherItems(db: Database, c: Codec, identifier: string, mapping: seq<(string, seq<string>)>, tableType: string)
    returns (g: Result<(seq<(string, map<string, Value>)>, seq<string>), Exc>)
    requires tableType in db.tables
    modifies db`lookups
    ensures db.tables == old(db.tables)
    ensures g == Gathered(HonoursWildcard, c, db.tables[tableType], identifier, mapping)
    ensures g.Success? ==> db.lookups == old(db.lookups) + LookupsOf(tableType, identifier, Keys(mapping))
  {
    ghost var t := db.tables[tableType];
    var results: seq<(string, map<string, Value>)> := [];
    var missing: seq<string> := [];
    var i := 0;
    while i < |mapping|
      invariant 0 <= i <= |mapping|
      invariant db.tables == old(db.tables)
      invariant db.lookups == old(db.lookups) + LookupsOf(tableType, identifier, Keys(mapping[..i]))
      invariant Gathered(HonoursWildcard, c, t, identifier, mapping[..i]) == Success((results, missing))
    {
      var category := mapping[i].0;
      var features := mapping[i].1;
      GatheredSnoc(HonoursWildcard, c, t, identifier, mapping, i);
      KeysOfPrefix(mapping, i);
      LookupsOfSnoc(tableType, identifier, Keys(mapping[..i]), category);
      var item := GetItem(db, c, identifier, category, tableType);
      if item.value.None? {
        missing := missing + [category];
      } else {
        var projected := Projected(HonoursWildcard, item.value.value, features);
        if projected.Failure? {
          GatheredFails(HonoursWildcard, c, t, identifier, mapping, i + 1);
          return Failure(projected.error);
        }
        results := Put(results, category, projected.value);
      }
      i := i + 1;
    }
    assert mapping[..i] == mapping;
    g := Success((results, missing));
  }

  /** The batch read, in terms of the store: when every found category can be projected and
      at least one is found, the answer lists exactly the found categories in mapping order,
      each with its projected record, and exactly the missing ones in mapping order. */
  lemma BatchReadSpec(rule: ListRule, c: Codec, t: Table, identifier: string, mapping: seq<(string, seq<string>)>)
    requires DistinctKeys(mapping)
    requires ProjectionsSucceed(rule, c, t, identifier, mapping)
    ensures var g := Gathered(rule, c, t, identifier, mapping);
      && g.Success?
      && (g.value.0 == [] <==> FoundIn(t, identifier, Keys(mapping)) == [])
      && Keys(g.value.0) == FoundIn(t, identifier, Keys(mapping))
      && g.value.1 == MissingIn(t, identifier, Keys(mapping))
      && ItemsAsRequested(rule, c, t, identifier, mapping, g.value.0)
  {
    GatheredFailsIff(rule, c, t, identifier, mapping);
    GatheredLists(rule, c, t, identifier, mapping);
    GatheredItems(rule, c, t, identifier, mapping);
  }

  /** Once gathering a prefix fails, gathering the whole mapping fails the same way. */
  lemma {:induction false} GatheredFails(rule: ListRule, c: Codec, t: Table, identifier: string, mapping: seq<(string, seq<string>)>, n: nat)
    requires n <= |mapping| && Gathered(rule, c, t, identifier, mapping[..n]).Failure?
    ensures Gathered(rule, c, t, identifier, mapping) == Gathered(rule, c, t, identifier, mapping[..n])
    decreases |mapping| - n
  {
    if n < |mapping| {
      GatheredSnoc(rule, c, t, identifier, mapping, n);
      GatheredFails(rule, c, t, identifier, mapping, n + 1);
    } else {
      assert mapping[..n] == mapping;
    }
  }

  // ---------------------------------------------------------------------------------------
  // upsert_features_flow
  // ---------------------------------------------------------------------------------------

  /** The answer of a write; each category's entry stands for
      `{"status": "replaced", "feature_count": n}`. */
  datatype WriteSummary = WriteSummary(message: string, identifier: string, tableType: string,
                                       results: seq<(string, nat)>, totalFeatures: nat)

  const WrittenMessage := "Items written successfully (full replace per category)"

  /** Values Python's `len` accepts. The loop logs `len(features)` before checking the type,
      so any other value raises `TypeError` there. */
  predicate Sized(v: Value)
  {
    v.VStr? || v.VList? || v.VDict?
  }

  /** The state of the write loop: the tables, the per-category results and the running
      total so far, and the error that stopped it, if any. */
  datatype Run = Run(tables: map<string, Table>, results: seq<(string, nat)>, total: nat, error: Option<Exc>)

  /** The write loop of `upsert_features_flow` over the first items, starting from `tables`. */
  function WriteRun(c: Codec, tables: map<string, Table>, tableType: string, identifier: string,
                    items: seq<(string, Value)>, now: string): (r: Run)
    ensures r.tables.Keys == tables.Keys
    ensures r.error.Some? ==>
      || r.error.value in {TypeError("len()"), NoTable(tableType), AttributeError("get"), StoreError("ValidationException")}
      || r.error.value.ValueError?
  {
    if items == [] then Run(tables, [], 0, None)
    else
      var prev := WriteRun(c, tables, tableType, identifier, items[..|items| - 1], now);
      if prev.error.Some? then prev
      else
        var (category, features) := items[|items| - 1];
        if !Sized(features) then prev.(error := Some(TypeError("len()")))
        else if !features.VDict? then
          prev.(error := Some(ValueError("Features for category '" + category + "' must be a valid object/dictionary")))
        else
          match Upserted(c, prev.tables, tableType, identifier, category, features.m, now)
          case Failure(e) => prev.(error := Some(e))
          case Success(u) => Run(u.tables, Put<string, nat>(prev.results, category, |features.m|), prev.total + |features.m|, None)
  }

  lemma WriteRunSnoc(c: Codec, tables: map<string, Table>, tableType: string, identifier: string,
                     items: seq<(string, Value)>, now: string, i: nat)
    requires i < |items|
    ensures WriteRun(c, tables, tableType, identifier, items[..i + 1], now) ==
      var prev := WriteRun(c, tables, tableType, identifier, items[..i], now);
      if prev.error.Some? then prev
      else
        var (category, features) := items[i];
        if !Sized(features) then prev.(error := Some(TypeError("len()")))
        else if !features.VDict? then
          prev.(error := Some(ValueError("Features for category '" + category + "' must be a valid object/dictionary")))
        else
          match Upserted(c, prev.tables, tableType, identifier, category, features.m, now)
          case Failure(e) => prev.(error := Some(e))
          case Success(u) => Run(u.tables, Put<string, nat>(prev.results, category, |features.m|), prev.total + |features.m|, None)
  {
    assert items[..i + 1][..i] == items[..i];
  }

  /** Once the loop has stopped on an error, later items change nothing: the writes made
      before the error stay, with no rollback. */
  lemma {:induction false} WriteRunStops(c: Codec, tables: map<string, Table>, tableType: string, identifier: string,
                                         items: seq<(string, Value)>, now: string, n: nat)
    requires n <= |items| && WriteRun(c, tables, tableType, identifier, items[..n], now).error.Some?
    ensures WriteRun(c, tables, tableType, identifier, items, now) == WriteRun(c, tables, tableType, identifier, items[..n], now)
    decreases |items| - n
  {
    if n < |items| {
      WriteRunSnoc(c, tables, tableType, identifier, items, now, n);
      WriteRunStops(c, tables, tableType, identifier, items, now, n + 1);
    } else {
      assert items[..n] == items;
    }
  }

  /** `upsert_features_flow`: one upsert per category, in order; stops at the first bad
      category or failed write, leaving the earlier writes in place. */
  method UpsertFeaturesFlow(db: Database, c: Codec, identifier: string, items: seq<(string, Value)>,
                            tableType: string, now: string)
    returns (r: Result<WriteSummary, Exc>)
    modifies db
    ensures items == [] ==> r == Failure(ValueError("Request body cannot be empty")) && db.tables == old(db.tables)
    ensures items != [] ==>
      var run := WriteRun(c, old(db.tables), tableType, identifier, items, now);
      && db.tables == run.tables
      && (run.error.Some? ==> r == Failure(run.error.value))
      && (run.error.None? ==> r == Success(WriteSummary(WrittenMessage, identifier, tableType, run.results, run.total)))
  {
    if items == [] {
      return Failure(ValueError("Request body cannot be empty"));
    }
    ghost var tables0 := db.tables;
    var results: seq<(string, nat)> := [];
    var total: nat := 0;
    var i := 0;
    while i < |items|
      invariant 0 <= i <= |items|
      invariant WriteRun(c, tables0, tableType, identifier, items[..i], now) == Run(db.tables, results, total, None)
    {
      var (category, features) := items[i];
      WriteRunSnoc(c, tables0, tableType, identifier, items, now, i);
      if !Sized(features) {
        WriteRunStops(c, tables0, tableType, identifier, items, now, i + 1);
        return Failure(TypeError("len()"));
      }
      if !features.VDict? {
        WriteRunStops(c, tables0, tableType, identifier, items, now, i + 1);
        return Failure(ValueError("Features for category '" + category + "' must be a valid object/dictionary"));
      }
      var written := UpsertItemWithMetadata(db, c, identifier, category, features.m, tableType, now);
      if written.Failure? {
        WriteRunStops(c, tables0, tableType, identifier, items, now, i + 1);
        return Failure(written.error);
      }
      total := total + |features.m|;
      results := Put<string, nat>(results, category, |features.m|);
      i := i + 1;
    }
    assert items[..i] == items;
    return Success(WriteSummary(WrittenMessage, identifier, tableType, results, total));
  }

  /** The number of features a category's value holds when it is a dict. */
  function Count(v: Value): nat
  {
    if v.VDict? then |v.m| else 0
  }

  /** Each category with its feature count, in request order. */
  function Counts(items: seq<(string, Value)>): (r: seq<(string, nat)>)
    ensures Keys(r) == Keys(items)
  {
    if items == [] then []
    else
      var init := items[..|items| - 1];
      var r := Counts(init) + [(items[|items| - 1].0, Count(items[|items| - 1].1))];
      assert Keys(init) == Keys(items)[..|items| - 1];
      KeysSnoc(Counts(init), (items[|items| - 1].0, Count(items[|items| - 1].1)));
      r
  }

  /** The counts summed. */
  function SumCounts(items: seq<(string, Value)>): nat
  {
    if items == [] then 0 else SumCounts(items[..|items| - 1]) + Count(items[|items| - 1].1)
  }

  /** A write that completes found a dict under every category, reports one `replaced`
      entry per category, in request order, with that category's feature count, and a total
      that is the sum of the counts. */
  lemma {:induction false} WriteRunCounts(c: Codec, tables: map<string, Table>, tableType: string, identifier: string,
                                          items: seq<(string, Value)>, now: string)
    requires DistinctKeys(items)
    requires WriteRun(c, tables, tableType, identifier, items, now).error.None?
    ensures var run := WriteRun(c, tables, tableType, identifier, items, now);
      run.results == Counts(items) && run.total == SumCounts(items)
    ensures forall i :: 0 <= i < |items| ==> items[i].1.VDict?
  {
    if items != [] {
      var n := |items| - 1;
      var init := items[..n];
      var (category, features) := items[n];
      var run := WriteRun(c, tables, tableType, identifier, items, now);
      var prev := WriteRun(c, tables, tableType, identifier, init, now);
      assert prev.error.None? && features.VDict?
             && run.results == Put<string, nat>(prev.results, category, |features.m|)
             && run.total == prev.total + |features.m| by {
        assert items[..n + 1] == items;
        WriteRunSnoc(c, tables, tableType, identifier, items, now, n);
      }
      DistinctInit(items);
      WriteRunCounts(c, tables, tableType, identifier, init, now);
      CountsSnoc(items, prev.results, prev.total, run.results, run.total);
    }
  }

  /** One more category on a completed write: the counts so far, extended by the new
      category's, and the dicts so far, extended by the new one. */
  lemma CountsSnoc(items: seq<(string, Value)>, prevResults: seq<(string, nat)>, prevTotal: nat,
                   results: seq<(string, nat)>, total: nat)
    requires items != [] && items[|items| - 1].1.VDict?
    requires var n := |items| - 1;
      && items[n].0 !in Keys(items[..n])
      && prevResults == Counts(items[..n]) && prevTotal == SumCounts(items[..n])
      && results == Put<string, nat>(prevResults, items[n].0, |items[n].1.m|)
      && total == prevTotal + |items[n].1.m|
    requires var init := items[..|items| - 1]; forall i :: 0 <= i < |init| ==> init[i].1.VDict?
    ensures results == Counts(items) && total == SumCounts(items)
    ensures forall i :: 0 <= i < |items| ==> items[i].1.VDict?
  {
    var n := |items| - 1;
    var init := items[..n];
    var last := items[n];
    var entry: (string, nat) := (last.0, |last.1.m|);
    assert Count(last.1) == entry.1;
    assert Keys(prevResults) == Keys(init);
    PutNewKey<string, nat>(prevResults, entry.0, entry.1);
    assert results == prevResults + [entry];
    CountsStep(items);
    DictsStep(items, init);
  }

  /** The counts of a request, one more item at a time. */
  lemma CountsStep(items: seq<(string, Value)>)
    requires items != []
    ensures var n := |items| - 1;
      && Counts(items) == Counts(items[..n]) + [(items[n].0, Count(items[n].1))]
      && SumCounts(items) == SumCounts(items[..n]) + Count(items[n].1)
  {
  }

  /** Every category's value is a dict when it is so before the last and at the last. */
  lemma DictsStep(items: seq<(string, Value)>, init: seq<(string, Value)>)
    requires items != [] && init == items[..|items| - 1] && items[|items| - 1].1.VDict?
    requires forall i :: 0 <= i < |init| ==> init[i].1.VDict?
    ensures forall i :: 0 <= i < |items| ==> items[i].1.VDict?
  {
    forall i | 0 <= i < |items| - 1
      ensures items[i].1.VDict?
    {
      assert init[i] == items[i];
    }
  }

  /** A write touches only the records of the request's categories under the request's
      identifier, in the request's table; every other record and table is left alone. */
  lemma {:induction false} WriteRunFrame(c: Codec, tables: map<string, Table>, tableType: string, identifier: string,
                                         items: seq<(string, Value)>, now: string)
    requires OrdinaryTableType(tableType)
    ensures var run := WriteRun(c, tables, tableType, identifier, items, now);
      && run.tables.Keys == tables.Keys
      && (forall t :: t in tables && t != tableType ==> run.tables[t] == tables[t])
      && (tableType in tables ==> forall k: Key :: k.id != identifier || k.category !in Keys(items) ==>
            (k in run.tables[tableType] <==> k in tables[tableType])
            && (k in tables[tableType] ==> run.tables[tableType][k] == tables[tableType][k]))
  {
    if items != [] {
      var n := |items| - 1;
      var init := items[..n];
      assert items[..n + 1] == items;
      WriteRunSnoc(c, tables, tableType, identifier, items, now, n);
      WriteRunFrame(c, tables, tableType, identifier, init, now);
      var prev := WriteRun(c, tables, tableType, identifier, init, now);
      assert Keys(init) == Keys(items)[..n];
      if prev.error.None? && items[n].1.VDict? && tableType in prev.tables {
        UpsertOnlyThisKey(c, prev.tables, tableType, identifier, items[n].0, items[n].1.m, now);
      }
    }
  }

  /** A write that completes leaves a record under every category of the request. */
  lemma {:induction false} WriteRunStoresEach(c: Codec, tables: map<string, Table>, tableType: string, identifier: string,
                                              items: seq<(string, Value)>, now: string)
    requires OrdinaryTableType(tableType)
    requires WriteRun(c, tables, tableType, identifier, items, now).error.None?
    requires items != []
    ensures var run := WriteRun(c, tables, tableType, identifier, items, now);
      && tableType in run.tables
      && forall cat :: cat in Keys(items) ==> Key(identifier, cat) in run.tables[tableType]
  {
    var n := |items| - 1;
    var init := items[..n];
    var category := items[n].0;
    var run := WriteRun(c, tables, tableType, identifier, items, now);
    var prev := WriteRun(c, tables, tableType, identifier, init, now);
    assert tableType in prev.tables && tableType in run.tables
           && run.tables[tableType].Keys == prev.tables[tableType].Keys + {Key(identifier, category)} by {
      assert items[..n + 1] == items;
      WriteRunSnoc(c, tables, tableType, identifier, items, now, n);
      var features := items[n].1;
      assert prev.error.None? && features.VDict?;
      var u := Upserted(c, prev.tables, tableType, identifier, category, features.m, now);
      assert u.Success? && run.tables == u.value.tables;
      UpsertOnlyThisKey(c, prev.tables, tableType, identifier, category, features.m, now);
    }
    if init != [] {
      WriteRunStoresEach(c, tables, tableType, identifier, init, now);
    }
    KeysInit(items);
  }
}
