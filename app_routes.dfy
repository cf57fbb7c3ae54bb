/**
 * The handlers of app/routes.py, the older API: single read, batch read by a category → names
 * mapping, and a write that keeps each record's `created_at`. Errors the handlers raise
 * themselves are `HttpException`s; errors from the store functions pass through.
 */
module AppRoutes {
  import opened Wrappers
  import opened Text
  import opened PyValue
  import opened DynamoCodec
  import opened Dynamo
  import opened FeatureFlows
  import FeatureCrud
  import AppCrud

  // ---------------------------------------------------------------------------------------
  // Metadata builders
  // ---------------------------------------------------------------------------------------

  /** The `metadata` object written with the `api` source. */
  function Metadata(createdAt: Value, now: string, source: Value, computeId: Value, ttl: Value): Value
  {
    VDict(map["created_at" := createdAt, "updated_at" := VStr(now), "source" := source,
              "compute_id" := computeId, "ttl" := ttl])
  }

  /** `create_features_with_metadata`: a new record is created and updated at the same
      moment, and carries the call's source, compute id and ttl. */
  function CreateFeaturesWithMetadata(data: Value, source: Value, computeId: Value, ttl: Value, now: string): (r: Value)
    ensures r.VDict? && r.m.Keys == {"data", "metadata"} && r.m["data"] == data
    ensures var meta := r.m["metadata"];
      && meta.VDict? && meta.m.Keys == {"created_at", "updated_at", "source", "compute_id", "ttl"}
      && meta.m["created_at"] == meta.m["updated_at"] == VStr(now)
      && meta.m["source"] == source && meta.m["compute_id"] == computeId && meta.m["ttl"] == ttl
  {
    VDict(map["data" := data, "metadata" := Metadata(VStr(now), now, source, computeId, ttl)])
  }

  /** `update_features_with_metadata`: keeps the existing `created_at` (now when there is
      none), refreshes `updated_at`, and takes source, compute id and ttl from the call.
      Existing metadata that is not a dict has no `.get`. */
  function UpdateFeaturesWithMetadata(data: Value, existing: Value, source: Value, computeId: Value, ttl: Value,
                                      now: string): (r: Result<Value, Exc>)
    ensures r.Success? <==> existing.VDict?
    ensures r.Failure? ==> r.error == AttributeError("get")
    ensures r.Success? ==>
      && r.value.VDict? && r.value.m.Keys == {"data", "metadata"} && r.value.m["data"] == data
      && var meta := r.value.m["metadata"];
         && meta.VDict? && meta.m.Keys == {"created_at", "updated_at", "source", "compute_id", "ttl"}
         && meta.m["created_at"] == (if "created_at" in existing.m then existing.m["created_at"] else VStr(now))
         && meta.m["updated_at"] == VStr(now)
         && meta.m["source"] == source && meta.m["compute_id"] == computeId && meta.m["ttl"] == ttl
  {
    if !existing.VDict? then Failure(AttributeError("get"))
    else Success(VDict(map["data" := data, "metadata" := Metadata(GetOr(existing.m, "created_at", VStr(now)), now, source, computeId, ttl)]))
  }

  /** Creating and updating agree on everything but `created_at`: an update of metadata
      without one is exactly a creation. */
  lemma UpdateWithoutCreatedAtIsCreate(data: Value, existing: map<string, Value>, source: Value, computeId: Value,
                                       ttl: Value, now: string)
    requires "created_at" !in existing
    ensures UpdateFeaturesWithMetadata(data, VDict(existing), source, computeId, ttl, now)
            == Success(CreateFeaturesWithMetadata(data, source, computeId, ttl, now))
  {
  }

  // ---------------------------------------------------------------------------------------
  // get_category_features
  // ---------------------------------------------------------------------------------------

  /** The table types the handlers accept. */
  predicate KnownTableType(tableType: string)
  {
    tableType == "bright_uid" || tableType == "account_id"
  }

  function BadTableType(): Exc
  {
    HttpException(400, "table_type must be 'bright_uid' or 'account_id'")
  }

  /** `get_category_features`: 400 for an unknown table type before any lookup, otherwise
      the stored item or 404. */
  method GetCategoryFeatures(db: Database, c: Codec, identifier: string, category: string, tableType: string)
    returns (r: Result<map<string, Value>, Exc>)
    modifies db`lookups
    ensures db.tables == old(db.tables)
    ensures !KnownTableType(tableType) ==> r == Failure(BadTableType()) && db.lookups == old(db.lookups)
    ensures KnownTableType(tableType) && tableType !in db.tables ==> r == Failure(AppCrud.InvalidTable(tableType))
    ensures KnownTableType(tableType) && tableType in db.tables ==>
      var found := FeatureCrud.Lookup(c, db.tables[tableType], Key(identifier, category));
      && (found.None? ==> r == Failure(HttpException(404, "Item not found")))
      && (found.Some? ==> r == Success(found.value))
  {
    if !KnownTableType(tableType) {
      return Failure(BadTableType());
    }
    var item := AppCrud.GetItem(db, c, identifier, category, tableType);
    if item.Failure? {
      return Failure(item.error);
    }
    if item.value.None? {
      return Failure(HttpException(404, "Item not found"));
    }
    return Success(item.value.value);
  }

  // ---------------------------------------------------------------------------------------
  // get_items_by_feature_mapping
  // ---------------------------------------------------------------------------------------

  /** `get_items_by_feature_mapping`: like the components' batch read, but a non-empty list
      always filters literally (there is no wildcard), and the errors are HTTP ones. */
  method GetItemsByFeatureMapping(db: Database, c: Codec, identifier: string,
                                  mapping: seq<(string, seq<string>)>, tableType: string)
    returns (r: Result<BatchRead, Exc>)
    modifies db`lookups
    ensures db.tables == old(db.tables)
    ensures !KnownTableType(tableType) ==> r == Failure(BadTableType()) && db.lookups == old(db.lookups)
    ensures KnownTableType(tableType) && mapping == [] ==>
      r == Failure(HttpException(400, "Mapping body cannot be empty")) && db.lookups == old(db.lookups)
    ensures KnownTableType(tableType) && mapping != [] && tableType !in db.tables ==>
      r == Failure(AppCrud.InvalidTable(tableType))
    ensures KnownTableType(tableType) && mapping != [] && tableType in db.tables ==>
      var g := Gathered(Literal, c, db.tables[tableType], identifier, mapping);
      && (g.Failure? ==> r == Failure(g.error))
      && (g.Success? ==> db.lookups == old(db.lookups) + LookupsOf(tableType, identifier, Keys(mapping)))
      && (g.Success? && g.value.0 == [] ==> r == Failure(HttpException(404, "No items found for provided mapping")))
      && (g.Success? && g.value.0 != [] ==> r == Success(BatchRead(identifier, tableType, g.value.0, g.value.1)))
  {
    if !KnownTableType(tableType) {
      return Failure(BadTableType());
    }
    if mapping == [] {
      return Failure(HttpException(400, "Mapping body cannot be empty"));
    }
    if tableType !in db.tables {
      var first := AppCrud.GetItem(db, c, identifier, mapping[0].0, tableType);
      return Failure(first.error);
    }
    var g := GatherMappedItems(db, c, identifier, mapping, tableType);
    if g.Failure? {
      return Failure(g.error);
    }
    var (results, missing) := g.value;
    if results == [] {
      return Failure(HttpException(404, "No items found for provided mapping"));
    }
    return Success(BatchRead(identifier, tableType, results, missing));
  }

  /** The loop of `get_items_by_feature_mapping`: one lookup per category in order, stopping
      at the first projection that fails. */
  method GatherMappedItems(db: Database, c: Codec, identifier: string, mapping: seq<(string, seq<string>)>, tableType: string)
    returns (g: Result<(seq<(string, map<string, Value>)>, seq<string>), Exc>)
    requires tableType in db.tables
    modifies db`lookups
    ensures db.tables == old(db.tables)
    ensures g == Gathered(Literal, c, db.tables[tableType], identifier, mapping)
    ensures g.Success? ==> db.lookups == old(db.lookups) + LookupsOf(tableType, identifier, Keys(mapping))
  {
    ghost var t := db.tables[tableType];
    var results: seq<(string, map<string, Value>)> := [];
    var missing: seq<string> := [];
    var i := 0;
    while i < |mapping|
      invariant 0 <= i <= |mapping|
      invariant db.tables == old(db.tables)
      invariant db.lookups == old(db.lookups) + LookupsOf(tableType, identifier, Keys(mapping[..i]))
      invariant Gathered(Literal, c, t, identifier, mapping[..i]) == Success((results, missing))
    {
      var category := mapping[i].0;
      var features := mapping[i].1;
      GatheredSnoc(Literal, c, t, identifier, mapping, i);
      KeysOfPrefix(mapping, i);
      LookupsOfSnoc(tableType, identifier, Keys(mapping[..i]), category);
      var item := AppCrud.GetItem(db, c, identifier, category, tableType);
      if item.value.None? {
        missing := missing + [category];
      } else {
        var projected := Projected(Literal, item.value.value, features);
        if projected.Failure? {
          GatheredFails(Literal, c, t, identifier, mapping, i + 1);
          return Failure(projected.error);
        }
        results := Put(results, category, projected.value);
      }
      i := i + 1;
    }
    assert mapping[..i] == mapping;
    g := Success((results, missing));
  }

  /** Without a wildcard rule, `["*"]` asks for a feature literally named `*`. */
  lemma StarIsLiteral(item: map<string, Value>)
    ensures Projected(Literal, item, ["*"]) == FilterFeatures(item, {"*"})
    ensures Projected(HonoursWildcard, item, ["*"]) == Success(item)
  {
    assert (set x | x in ["*"]) == {"*"};
  }

  // ---------------------------------------------------------------------------------------
  // upsert_items
  // ---------------------------------------------------------------------------------------

  /** `existing_item["features"]["metadata"]` when the route's test
      `existing_item and "features" in existing_item and "metadata" in existing_item["features"]`
      holds. The `in` test and the subscript follow Python for whatever `features` holds. */
  function ExistingMetadata(existing: Option<map<string, Value>>): (r: Result<Option<Value>, Exc>)
    ensures existing.None? || "features" !in existing.value ==> r == Success(None)
    ensures existing.Some? && "features" in existing.value && existing.value["features"].VDict? ==>
      var f := existing.value["features"].m;
      r == Success(if "metadata" in f then Some(f["metadata"]) else None)
  {
    if existing.None? || "features" !in existing.value then Success(None)
    else
      match existing.value["features"]
      case VDict(f) => if "metadata" in f then Success(Some(f["metadata"])) else Success(None)
      case VStr(s) => if Contains(s, "metadata") then Failure(TypeError("string indices must be integers")) else Success(None)
      case VList(xs) =>
        if VStr("metadata") in xs then Failure(TypeError("list indices must be integers or slices, not str"))
        else Success(None)
      case _ => Failure(TypeError("argument of type is not iterable"))
  }

  /** The features object the route builds for a category, given its existing metadata. */
  function FeaturesObjectFor(data: map<string, Value>, existing: Option<Value>, now: string): Result<Value, Exc>
  {
    match existing
    case None => Success(CreateFeaturesWithMetadata(VDict(data), VStr("api"), VNone, VNone, now))
    case Some(meta) => UpdateFeaturesWithMetadata(VDict(data), meta, VStr("api"), VNone, VNone, now)
  }

  /** The item the route hands to `put_item`. */
  function ItemFor(tableType: string, identifier: string, category: string, featuresObject: Value): map<string, Value>
  {
    map[tableType := VStr(identifier), "category" := VStr(category), "features" := featuresObject]
  }

  /** The record the route writes for a category whose features are a dict, and the key it
      lands under; or the error that stops the loop there. */
  function RecordToWrite(c: Codec, tables: map<string, Table>, tableType: string, identifier: string,
                         category: string, features: map<string, Value>, now: string): (r: Result<(Key, map<string, Value>), Exc>)
    ensures tableType !in tables ==> r == Failure(AppCrud.InvalidTable(tableType))
    ensures r.Success? ==> tableType in tables && ItemKey(tableType, r.value.1) == Some(r.value.0)
    ensures r.Success? && FeatureCrud.OrdinaryTableType(tableType) ==> r.value.0 == Key(identifier, category)
  {
    if tableType !in tables then Failure(AppCrud.InvalidTable(tableType))
    else
      match ExistingMetadata(FeatureCrud.Lookup(c, tables[tableType], Key(identifier, category)))
      case Failure(e) => Failure(e)
      case Success(meta) =>
        match FeaturesObjectFor(features, meta, now)
        case Failure(e) => Failure(e)
        case Success(obj) =>
          var written := FeatureCrud.Encoded(c, ItemFor(tableType, identifier, category, obj));
          match ItemKey(tableType, written)
          case None => Failure(StoreError("ValidationException"))
          case Some(k) => Success((k, written))
  }

  /** One step of the write loop, for a category whose features are a dict. */
  function AppWriteStep(c: Codec, prev: Run, tableType: string, identifier: string, category: string,
                        features: map<string, Value>, now: string): (next: Run)
    requires prev.error.None?
    ensures next.tables.Keys == prev.tables.Keys
  {
    match RecordToWrite(c, prev.tables, tableType, identifier, category, features, now)
    case Failure(e) => prev.(error := Some(e))
    case Success(w) =>
      Run(prev.tables[tableType := prev.tables[tableType][w.0 := w.1]],
          Put<string, nat>(prev.results, category, |features|), prev.total + |features|, None)
  }

  /** A step that succeeds records the category's feature count and adds it to the total. */
  lemma AppWriteStepCounts(c: Codec, prev: Run, tableType: string, identifier: string, category: string,
                           features: map<string, Value>, now: string)
    requires prev.error.None?
    requires AppWriteStep(c, prev, tableType, identifier, category, features, now).error.None?
    ensures var next := AppWriteStep(c, prev, tableType, identifier, category, features, now);
      next.results == Put<string, nat>(prev.results, category, |features|) && next.total == prev.total + |features|
  {
  }

  /** The write loop of `upsert_items` over the first items, starting from `tables`. */
  function AppWriteRun(c: Codec, tables: map<string, Table>, tableType: string, identifier: string,
                       items: seq<(string, Value)>, now: string): (r: Run)
    ensures r.tables.Keys == tables.Keys
  {
    if items == [] then Run(tables, [], 0, None)
    else
      var prev := AppWriteRun(c, tables, tableType, identifier, items[..|items| - 1], now);
      if prev.error.Some? then prev
      else
        var (category, features) := items[|items| - 1];
        if !features.VDict? then prev.(error := Some(HttpException(400, "Features for category '" + category + "' must be an object")))
        else AppWriteStep(c, prev, tableType, identifier, category, features.m, now)
  }

  lemma AppWriteRunSnoc(c: Codec, tables: map<string, Table>, tableType: string, identifier: string,
                        items: seq<(string, Value)>, now: string, i: nat)
    requires i < |items|
    ensures AppWriteRun(c, tables, tableType, identifier, items[..i + 1], now) ==
      var prev := AppWriteRun(c, tables, tableType, identifier, items[..i], now);
      if prev.error.Some? then prev
      else if !items[i].1.VDict? then
        prev.(error := Some(HttpException(400, "Features for category '" + items[i].0 + "' must be an object")))
      else AppWriteStep(c, prev, tableType, identifier, items[i].0, items[i].1.m, now)
  {
    assert items[..i + 1][..i] == items[..i];
  }

  /** Once the loop has stopped on an error, later items change nothing. */
  lemma {:induction false} AppWriteRunStops(c: Codec, tables: map<string, Table>, tableType: string, identifier: string,
                                            items: seq<(string, Value)>, now: string, n: nat)
    requires n <= |items| && AppWriteRun(c, tables, tableType, identifier, items[..n], now).error.Some?
    ensures AppWriteRun(c, tables, tableType, identifier, items, now) == AppWriteRun(c, tables, tableType, identifier, items[..n], now)
    decreases |items| - n
  {
    if n < |items| {
      AppWriteRunSnoc(c, tables, tableType, identifier, items, now, n);
      AppWriteRunStops(c, tables, tableType, identifier, items, now, n + 1);
    } else {
      assert items[..n] == items;
    }
  }

  /** `upsert_items`: per category, read the existing record, build the features object
      (keeping `created_at` when the record has metadata) and put the record; a non-dict
      category stops the loop with 400 after the earlier categories were written. */
  method UpsertItems(db: Database, c: Codec, identifier: string, items: seq<(string, Value)>, tableType: string,
                     now: string)
    returns (r: Result<WriteSummary, Exc>)
    modifies db
    ensures !KnownTableType(tableType) ==> r == Failure(BadTableType()) && db.tables == old(db.tables)
    ensures KnownTableType(tableType) && items == [] ==>
      r == Failure(HttpException(400, "Body cannot be empty")) && db.tables == old(db.tables)
    ensures KnownTableType(tableType) && items != [] ==>
      var run := AppWriteRun(c, old(db.tables), tableType, identifier, items, now);
      && db.tables == run.tables
      && (run.error.Some? ==> r == Failure(run.error.value))
      && (run.error.None? ==> r == Success(WriteSummary(WrittenMessage, identifier, tableType, run.results, run.total)))
  {
    if !KnownTableType(tableType) {
      return Failure(BadTableType());
    }
    if items == [] {
      return Failure(HttpException(400, "Body cannot be empty"));
    }
    ghost var tables0 := db.tables;
    var results: seq<(string, nat)> := [];
    var total: nat := 0;
    var i := 0;
    while i < |items|
      invariant 0 <= i <= |items|
      invariant AppWriteRun(c, tables0, tableType, identifier, items[..i], now) == Run(db.tables, results, total, None)
    {
      var category := items[i].0;
      var features := items[i].1;
      AppWriteRunSnoc(c, tables0, tableType, identifier, items, now, i);
      if !features.VDict? {
        AppWriteRunStops(c, tables0, tableType, identifier, items, now, i + 1);
        return Failure(HttpException(400, "Features for category '" + category + "' must be an object"));
      }
      var existing := AppCrud.GetItem(db, c, identifier, category, tableType);
      if existing.Failure? {
        AppWriteRunStops(c, tables0, tableType, identifier, items, now, i + 1);
        return Failure(existing.error);
      }
      var meta := ExistingMetadata(existing.value);
      if meta.Failure? {
        AppWriteRunStops(c, tables0, tableType, identifier, items, now, i + 1);
        return Failure(meta.error);
      }
      var featuresObject := FeaturesObjectFor(features.m, meta.value, now);
      if featuresObject.Failure? {
        AppWriteRunStops(c, tables0, tableType, identifier, items, now, i + 1);
        return Failure(featuresObject.error);
      }
      total := total + |features.m|;
      var written, put := AppCrud.PutItem(db, c, ItemFor(tableType, identifier, category, featuresObject.value), tableType);
      if put.Fail? {
        AppWriteRunStops(c, tables0, tableType, identifier, items, now, i + 1);
        return Failure(put.error);
      }
      results := Put<string, nat>(results, category, |features.m|);
      i := i + 1;
    }
    assert items[..i] == items;
    return Success(WriteSummary(WrittenMessage, identifier, tableType, results, total));
  }

  /** The record the route writes sits under `{table_type: identifier, "category": category}`. */
  lemma ItemForKey(c: Codec, tableType: string, identifier: string, category: string, obj: Value)
    requires FeatureCrud.OrdinaryTableType(tableType)
    ensures ItemKey(tableType, FeatureCrud.Encoded(c, ItemFor(tableType, identifier, category, obj)))
            == Some(Key(identifier, category))
  {
  }

  /** A completed write reports each category's feature count, in request order, and their
      sum as the total. */
  lemma {:induction false} AppWriteRunCounts(c: Codec, tables: map<string, Table>, tableType: string, identifier: string,
                                             items: seq<(string, Value)>, now: string)
    requires DistinctKeys(items)
    requires AppWriteRun(c, tables, tableType, identifier, items, now).error.None?
    ensures var run := AppWriteRun(c, tables, tableType, identifier, items, now);
      run.results == Counts(items) && run.total == SumCounts(items)
    ensures forall i :: 0 <= i < |items| ==> items[i].1.VDict?
  {
    if items != [] {
      var n := |items| - 1;
      var init := items[..n];
      var (category, features) := items[n];
      var run := AppWriteRun(c, tables, tableType, identifier, items, now);
      var prev := AppWriteRun(c, tables, tableType, identifier, init, now);
      assert prev.error.None? && features.VDict?
             && run.results == Put<string, nat>(prev.results, category, |features.m|)
             && run.total == prev.total + |features.m| by {
        assert items[..n + 1] == items;
        AppWriteRunSnoc(c, tables, tableType, identifier, items, now, n);
        AppWriteStepCounts(c, prev, tableType, identifier, category, features.m, now);
      }
      DistinctInit(items);
      AppWriteRunCounts(c, tables, tableType, identifier, init, now);
      CountsSnoc(items, prev.results, prev.total, run.results, run.total);
    }
  }

  /** A write changes only the records of the request's categories under the request's
      identifier in the request's table. */
  lemma {:induction false} AppWriteRunFrame(c: Codec, tables: map<string, Table>, tableType: string, identifier: string,
                                            items: seq<(string, Value)>, now: string)
    requires FeatureCrud.OrdinaryTableType(tableType)
    ensures var run := AppWriteRun(c, tables, tableType, identifier, items, now);
      && run.tables.Keys == tables.Keys
      && (forall t :: t in tables && t != tableType ==> run.tables[t] == tables[t])
      && (tableType in tables ==> forall k: Key :: k.id != identifier || k.category !in Keys(items) ==>
            (k in run.tables[tableType] <==> k in tables[tableType])
            && (k in tables[tableType] ==> run.tables[tableType][k] == tables[tableType][k]))
  {
    if items != [] {
      var n := |items| - 1;
      var init := items[..n];
      assert items[..n + 1] == items;
      AppWriteRunSnoc(c, tables, tableType, identifier, items, now, n);
      AppWriteRunFrame(c, tables, tableType, identifier, init, now);
      assert Keys(init) == Keys(items)[..n];
      var prev := AppWriteRun(c, tables, tableType, identifier, init, now);
      if prev.error.None? && items[n].1.VDict? && tableType in prev.tables {
        var meta := ExistingMetadata(FeatureCrud.Lookup(c, prev.tables[tableType], Key(identifier, items[n].0)));
        if meta.Success? {
          var obj := FeaturesObjectFor(items[n].1.m, meta.value, now);
          if obj.Success? {
            ItemForKey(c, tableType, identifier, items[n].0, obj.value);
          }
        }
      }
    }
  }

  /** A write over a category whose stored record has metadata keeps that record's
      `created_at` in the features object it writes, and stamps `updated_at` with now; a
      category with no record gets both stamped with now. */
  lemma CreatedAtKept(data: map<string, Value>, existing: map<string, Value>, now: string)
    requires "created_at" in existing
    ensures var obj := FeaturesObjectFor(data, Some(VDict(existing)), now);
      && obj.Success?
      && obj.value.m["metadata"].m["created_at"] == existing["created_at"]
      && obj.value.m["metadata"].m["updated_at"] == VStr(now)
    ensures var obj := FeaturesObjectFor(data, None, now);
      && obj.Success?
      && obj.value.m["metadata"].m["created_at"] == obj.value.m["metadata"].m["updated_at"] == VStr(now)
  {
  }

  /** What the route stores for a category is the encoding of its features object, and
      reading it back gives the metadata the route built: `created_at`, `updated_at` and
      the source unchanged, while the compute id and ttl, written as `None`, come back as
      their `str()` text, which is how the encoder stores them. */
  lemma StoredMetadataReadsBack(c: Codec, data: map<string, Value>, createdAt: string, now: string)
    requires DecodesStringTrees(c)
    ensures var obj := VDict(map["data" := VDict(data), "metadata" := Metadata(VStr(createdAt), now, VStr("api"), VNone, VNone)]);
      var decoded := DynamoToDict(c, DictToDynamo(c, obj));
      && decoded.VDict? && "metadata" in decoded.m
      && decoded.m["metadata"] == Metadata(VStr(createdAt), now, VStr("api"), VStr(c.render(VNone)), VStr(c.render(VNone)))
  {
    var meta := Metadata(VStr(createdAt), now, VStr("api"), VNone, VNone);
    var tree := Metadata(VStr(createdAt), now, VStr("api"), VStr(c.render(VNone)), VStr(c.render(VNone)));
    var obj := VDict(map["data" := VDict(data), "metadata" := meta]);
    MetadataEncodedAsText(c, VStr(createdAt), now);
    MetadataIsStringTree(c, createdAt, now);
    ReadsBackAt(c, obj, "metadata", tree);
  }

  /** A key whose value is stored like a tree the deserializer gives back reads back as that tree. */
  lemma ReadsBackAt(c: Codec, obj: Value, k: string, tree: Value)
    requires obj.VDict? && k in obj.m
    requires EncodeValue(c, obj.m[k]) == EncodeValue(c, tree)
    requires c.deserialize(EncodeValue(c, tree)) == tree
    ensures var decoded := DynamoToDict(c, DictToDynamo(c, obj));
      decoded.VDict? && k in decoded.m && decoded.m[k] == tree
  {
    var enc := DictToDynamo(c, obj);
    EncodedAt(c, obj, k);
    DecodeTyped(c, enc.m[k]);
    DecodedAt(c, enc, k);
  }

  /** `None` is stored as its `str()` text. */
  lemma NoneEncodedAsText(c: Codec)
    ensures EncodeValue(c, VNone) == EncodeValue(c, VStr(c.render(VNone)))
  {
  }

  /** The metadata the route writes is stored exactly as the same metadata with `None`
      replaced by its text. */
  lemma MetadataEncodedAsText(c: Codec, createdAt: Value, now: string)
    ensures EncodeValue(c, Metadata(createdAt, now, VStr("api"), VNone, VNone))
         == EncodeValue(c, Metadata(createdAt, now, VStr("api"), VStr(c.render(VNone)), VStr(c.render(VNone))))
  {
    NoneEncodedAsText(c);
    MetadataEncodedAlike(c, createdAt, now, VStr("api"), VNone, VStr(c.render(VNone)), VNone, VStr(c.render(VNone)));
  }

  /** Metadata whose compute ids and ttls are stored alike are stored alike. */
  lemma MetadataEncodedAlike(c: Codec, createdAt: Value, now: string, source: Value,
                             computeId: Value, computeId': Value, ttl: Value, ttl': Value)
    requires EncodeValue(c, computeId) == EncodeValue(c, computeId')
    requires EncodeValue(c, ttl) == EncodeValue(c, ttl')
    ensures EncodeValue(c, Metadata(createdAt, now, source, computeId, ttl))
         == EncodeValue(c, Metadata(createdAt, now, source, computeId', ttl'))
  {
    var meta := Metadata(createdAt, now, source, computeId, ttl).m;
    var meta' := Metadata(createdAt, now, source, computeId', ttl').m;
    MetadataSlots(createdAt, now, source, computeId, computeId', ttl, ttl');
    forall k | k in meta
      ensures EncodeValue(c, meta[k]) == EncodeValue(c, meta'[k])
    {
      if k != "compute_id" && k != "ttl" {
        assert meta[k] == meta'[k];
      }
    }
    DictsEncodedAlike(c, meta, meta');
  }

  /** Two metadata dicts differ at most in their compute id and ttl. */
  lemma MetadataSlots(createdAt: Value, now: string, source: Value,
                      computeId: Value, computeId': Value, ttl: Value, ttl': Value)
    ensures var meta := Metadata(createdAt, now, source, computeId, ttl).m;
      var meta' := Metadata(createdAt, now, source, computeId', ttl').m;
      && meta.Keys == meta'.Keys
      && "compute_id" in meta && meta["compute_id"] == computeId && meta'["compute_id"] == computeId'
      && "ttl" in meta && meta["ttl"] == ttl && meta'["ttl"] == ttl'
      && forall k :: k in meta && k != "compute_id" && k != "ttl" ==> meta[k] == meta'[k]
  {
  }

  /** Dicts with the same keys whose values are stored alike are stored alike. */
  lemma DictsEncodedAlike(c: Codec, a: map<string, Value>, b: map<string, Value>)
    requires a.Keys == b.Keys
    requires forall k :: k in a ==> EncodeValue(c, a[k]) == EncodeValue(c, b[k])
    ensures EncodeValue(c, VDict(a)) == EncodeValue(c, VDict(b))
  {
    assert DictToDynamo(c, VDict(a)).m == DictToDynamo(c, VDict(b)).m;
  }

  /** With `None` replaced by its text, the metadata is made of strings only, so it
      deserializes back to itself. */
  lemma MetadataIsStringTree(c: Codec, createdAt: string, now: string)
    requires DecodesStringTrees(c)
    ensures var tree := Metadata(VStr(createdAt), now, VStr("api"), VStr(c.render(VNone)), VStr(c.render(VNone)));
      c.deserialize(EncodeValue(c, tree)) == tree
  {
    var tree := Metadata(VStr(createdAt), now, VStr("api"), VStr(c.render(VNone)), VStr(c.render(VNone)));
    assert StringTree(tree) by {
      assert forall k :: k in tree.m ==> tree.m[k].VStr?;
    }
  }

  /** A write over a stored record whose metadata has a string `created_at` stores features
      that read back with that same `created_at`, and with `updated_at` now. */
  lemma StoredCreatedAtKept(c: Codec, data: map<string, Value>, existing: map<string, Value>, now: string)
    requires DecodesStringTrees(c)
    requires "created_at" in existing && existing["created_at"].VStr?
    ensures var obj := FeaturesObjectFor(data, Some(VDict(existing)), now);
      && obj.Success?
      && var decoded := DynamoToDict(c, DictToDynamo(c, obj.value));
         && decoded.VDict? && "metadata" in decoded.m && decoded.m["metadata"].VDict?
         && "created_at" in decoded.m["metadata"].m && "updated_at" in decoded.m["metadata"].m
         && decoded.m["metadata"].m["created_at"] == existing["created_at"]
         && decoded.m["metadata"].m["updated_at"] == VStr(now)
  {
    var createdAt := existing["created_at"];
    UpdateWritesMetadata(data, existing, now);
    StoredMetadataReadsBack(c, data, createdAt.s, now);
    MetadataTimes(createdAt, now, VStr("api"), VStr(c.render(VNone)), VStr(c.render(VNone)));
  }

  /** The two timestamps of a metadata dict. */
  lemma MetadataTimes(createdAt: Value, now: string, source: Value, computeId: Value, ttl: Value)
    ensures var meta := Metadata(createdAt, now, source, computeId, ttl);
      && meta.VDict? && "created_at" in meta.m && "updated_at" in meta.m
      && meta.m["created_at"] == createdAt && meta.m["updated_at"] == VStr(now)
  {
  }

  /** Over a stored record with a `created_at`, the route's features object carries it. */
  lemma UpdateWritesMetadata(data: map<string, Value>, existing: map<string, Value>, now: string)
    requires "created_at" in existing
    ensures FeaturesObjectFor(data, Some(VDict(existing)), now)
         == Success(VDict(map["data" := VDict(data), "metadata" := Metadata(existing["created_at"], now, VStr("api"), VNone, VNone)]))
  {
  }
}
