/**
 * The feature records of components/features/crud.py: reading one record, writing one, and
 * the upsert that keeps a record's creation time while replacing its data.
 *
 * A stored record is `{<table type>: identifier, "category": category, "features": F}` where F
 * is the DynamoDB encoding of `{"data": {...}, "metadata": {created_at, updated_at, compute_id}}`.
 */
module FeatureCrud {
  import opened Wrappers
  import opened PyValue
  import opened DynamoCodec
  import opened Dynamo

  /** `get_table` for a table type the store does not know: the `TABLES[...]` lookup fails. */
  function NoTable(tableType: string): Exc
  {
    KeyError(tableType)
  }

  /** An item as it is handed back to callers: `features` decoded, everything else as stored. */
  function Decoded(c: Codec, item: map<string, Value>): map<string, Value>
  {
    if "features" in item then item["features" := DynamoToDict(c, item["features"])] else item
  }

  /** What `get_item` returns for a table: nothing when no item is stored under the key. */
  function Lookup(c: Codec, t: Table, key: Key): (r: Option<map<string, Value>>)
    ensures r.None? <==> StoredItem(t, key) == map[]
    ensures r.Some? ==> r.value.Keys == StoredItem(t, key).Keys
  {
    var item := StoredItem(t, key);
    if item == map[] then None else Some(Decoded(c, item))
  }

  /** `get_item`: one lookup under `{table_type: identifier, "category": category}`. */
  method GetItem(db: Database, c: Codec, identifier: string, category: string, tableType: string)
    returns (r: Result<Option<map<string, Value>>, Exc>)
    modifies db`lookups
    ensures db.tables == old(db.tables)
    ensures tableType !in db.tables ==> r == Failure(NoTable(tableType)) && db.lookups == old(db.lookups)
    ensures tableType in db.tables ==>
      && db.lookups == old(db.lookups) + [(tableType, Key(identifier, category))]
      && r == Success(Lookup(c, db.tables[tableType], Key(identifier, category)))
  {
    if tableType !in db.tables {
      return Failure(NoTable(tableType));
    }
    var item := db.GetItem(tableType, Key(identifier, category));
    if item == map[] {
      return Success(None);
    }
    return Success(Some(Decoded(c, item)));
  }

  /** `get_item` finds exactly the non-empty stored items, and hands back every attribute as
      stored except `features`, which comes back decoded. */
  lemma LookupSpec(c: Codec, t: Table, key: Key)
    ensures Lookup(c, t, key).None? <==> key !in t || t[key] == map[]
    ensures Lookup(c, t, key).Some? ==>
      var item := Lookup(c, t, key).value;
      && item.Keys == t[key].Keys
      && (forall k :: k in item && k != "features" ==> item[k] == t[key][k])
      && ("features" in item ==> item["features"] == DynamoToDict(c, t[key]["features"]))
  {
  }

  /** The item `put_item` writes: the caller's dict with `features` replaced by its encoding.
      The source overwrites `item_data["features"]` in the caller's own dict, once the table
      was found. */
  function Encoded(c: Codec, item: map<string, Value>): (r: map<string, Value>)
    ensures r.Keys == item.Keys
    ensures forall k :: k in item && k != "features" ==> r[k] == item[k]
    ensures "features" in item ==> r["features"] == DictToDynamo(c, item["features"])
  {
    if "features" in item then item["features" := DictToDynamo(c, item["features"])] else item
  }

  /** `put_item`: encodes `features` and writes the item under the key its own attributes name. */
  method PutItem(db: Database, c: Codec, itemData: map<string, Value>, tableType: string)
    returns (written: map<string, Value>, r: Outcome<Exc>)
    modifies db`tables
    ensures tableType !in old(db.tables) ==> written == itemData && r == Fail(NoTable(tableType)) && db.tables == old(db.tables)
    ensures tableType in old(db.tables) ==> written == Encoded(c, itemData)
    ensures tableType in old(db.tables) && ItemKey(tableType, written).None? ==>
      r == Fail(StoreError("ValidationException")) && db.tables == old(db.tables)
    ensures tableType in old(db.tables) && ItemKey(tableType, written).Some? ==>
      && r == Pass
      && db.tables == old(db.tables)[tableType := old(db.tables)[tableType][ItemKey(tableType, written).value := written]]
  {
    if tableType !in db.tables {
      return itemData, Fail(NoTable(tableType));
    }
    written := Encoded(c, itemData);
    r := db.PutItem(tableType, written);
  }

  /** The `{created_at, updated_at, compute_id}` record written with every upsert. */
  function MetadataRecord(createdAt: Value, now: string): Value
  {
    VDict(map["created_at" := createdAt, "updated_at" := VStr(now), "compute_id" := VStr("None")])
  }

  /** The `{"data": ..., "metadata": ...}` object whose encoding is stored as `features`. */
  function FeaturesObject(data: map<string, Value>, createdAt: Value, now: string): Value
  {
    VDict(map["data" := VDict(data), "metadata" := MetadataRecord(createdAt, now)])
  }

  /** The whole record `upsert_item_with_metadata` writes. */
  function RecordFor(c: Codec, tableType: string, identifier: string, category: string,
                     data: map<string, Value>, createdAt: Value, now: string): map<string, Value>
  {
    map[tableType := VStr(identifier), "category" := VStr(category),
        "features" := DictToDynamo(c, FeaturesObject(data, createdAt, now))]
  }

  /** The `created_at` an upsert writes, given what is stored under the key: the stored
      `features.metadata.created_at` when there is one, otherwise now. Calling `.get` on a
      decoded `features` or `metadata` that is not a dict raises. */
  function CreatedAtFor(c: Codec, existing: map<string, Value>, now: string): (r: Result<Value, Exc>)
    ensures existing == map[] || "features" !in existing ==> r == Success(VStr(now))
    ensures r.Failure? ==> r.error == AttributeError("get")
  {
    if existing != map[] && "features" in existing then
      var features := DynamoToDict(c, existing["features"]);
      if !features.VDict? then Failure(AttributeError("get"))
      else
        var metadata := GetOr(features.m, "metadata", VDict(map[]));
        if !metadata.VDict? then Failure(AttributeError("get"))
        else Success(GetOr(metadata.m, "created_at", VStr(now)))
    else Success(VStr(now))
  }

  /** What a successful upsert produces: the record it returns and the tables after it. */
  datatype Upsert = Upsert(returned: map<string, Value>, record: map<string, Value>, tables: map<string, Table>)

  /** `upsert_item_with_metadata` as a function of the tables before it. */
  function Upserted(c: Codec, tables: map<string, Table>, tableType: string, identifier: string,
                    category: string, data: map<string, Value>, now: string): (r: Result<Upsert, Exc>)
    ensures tableType !in tables ==> r == Failure(NoTable(tableType))
    ensures r.Failure? ==> r.error in {NoTable(tableType), AttributeError("get"), StoreError("ValidationException")}
    ensures r.Success? ==>
      && r.value.tables.Keys == tables.Keys
      && (forall t :: t in tables && t != tableType ==> r.value.tables[t] == tables[t])
      && ItemKey(tableType, r.value.record).Some?
      && r.value.tables[tableType] == tables[tableType][ItemKey(tableType, r.value.record).value := r.value.record]
  {
    if tableType !in tables then Failure(NoTable(tableType))
    else
      match CreatedAtFor(c, StoredItem(tables[tableType], Key(identifier, category)), now)
      case Failure(e) => Failure(e)
      case Success(createdAt) =>
        var record := RecordFor(c, tableType, identifier, category, data, createdAt, now);
        match ItemKey(tableType, record)
        case None => Failure(StoreError("ValidationException"))
        case Some(k) => Success(Upsert(Decoded(c, record), record, tables[tableType := tables[tableType][k := record]]))
  }

  /** `upsert_item_with_metadata`: reads the record under the key, then puts the new one. */
  method UpsertItemWithMetadata(db: Database, c: Codec, identifier: string, category: string,
                                data: map<string, Value>, tableType: string, now: string)
    returns (r: Result<map<string, Value>, Exc>)
    modifies db
    ensures var u := Upserted(c, old(db.tables), tableType, identifier, category, data, now);
      && (u.Success? ==> r == Success(u.value.returned) && db.tables == u.value.tables)
      && (u.Failure? ==> r == Failure(u.error) && db.tables == old(db.tables))
    ensures db.lookups == old(db.lookups) + (if tableType in old(db.tables) then [(tableType, Key(identifier, category))] else [])
  {
    if tableType !in db.tables {
      return Failure(NoTable(tableType));
    }
    var existing := db.GetItem(tableType, Key(identifier, category));
    var createdAt := CreatedAtFor(c, existing, now);
    if createdAt.Failure? {
      return Failure(createdAt.error);
    }
    var record := RecordFor(c, tableType, identifier, category, data, createdAt.value, now);
    var put := db.PutItem(tableType, record);
    if put.Fail? {
      return Failure(put.error);
    }
    return Success(Decoded(c, record));
  }

  /** The partition-key attribute is an ordinary one: not `category`, not `features`. */
  predicate OrdinaryTableType(tableType: string)
  {
    tableType != "category" && tableType != "features"
  }

  /** The written record is keyed `{table_type: identifier, "category": category}`. */
  lemma RecordKey(c: Codec, tableType: string, identifier: string, category: string,
                  data: map<string, Value>, createdAt: Value, now: string)
    requires OrdinaryTableType(tableType)
    ensures ItemKey(tableType, RecordFor(c, tableType, identifier, category, data, createdAt, now))
         == Some(Key(identifier, category))
  {
  }

  /** An upsert into a known table either fails reading the old `created_at` or changes exactly
      one item, the one under the request's key, to a record holding exactly the new data. */
  lemma UpsertOnlyThisKey(c: Codec, tables: map<string, Table>, tableType: string, identifier: string,
                          category: string, data: map<string, Value>, now: string)
    requires tableType in tables && OrdinaryTableType(tableType)
    ensures var u := Upserted(c, tables, tableType, identifier, category, data, now);
      var created := CreatedAtFor(c, StoredItem(tables[tableType], Key(identifier, category)), now);
      && (u.Success? <==> created.Success?)
      && (u.Success? ==>
            && u.value.record == RecordFor(c, tableType, identifier, category, data, created.value, now)
            && u.value.tables.Keys == tables.Keys
            && (forall t :: t in tables && t != tableType ==> u.value.tables[t] == tables[t])
            && u.value.tables[tableType] == tables[tableType][Key(identifier, category) := u.value.record])
  {
    var created := CreatedAtFor(c, StoredItem(tables[tableType], Key(identifier, category)), now);
    if created.Success? {
      RecordKey(c, tableType, identifier, category, data, created.value, now);
    }
  }

  /** A first write stamps the record with `created_at == updated_at == now`. */
  lemma FirstUpsertStampsNow(c: Codec, tables: map<string, Table>, tableType: string, identifier: string,
                             category: string, data: map<string, Value>, now: string)
    requires tableType in tables && OrdinaryTableType(tableType)
    requires Key(identifier, category) !in tables[tableType]
    ensures var u := Upserted(c, tables, tableType, identifier, category, data, now);
      u.Success? && u.value.record == RecordFor(c, tableType, identifier, category, data, VStr(now), now)
  {
    RecordKey(c, tableType, identifier, category, data, VStr(now), now);
  }

  /** The `metadata` entry of the encoded features object is the metadata record's encoding. */
  lemma MetadataEncodedAt(c: Codec, data: map<string, Value>, createdAt: Value, updatedAt: string)
    ensures var enc := DictToDynamo(c, FeaturesObject(data, createdAt, updatedAt));
      enc.VDict? && "metadata" in enc.m && enc.m["metadata"] == EncodeValue(c, MetadataRecord(createdAt, updatedAt))
  {
    EncodedAt(c, FeaturesObject(data, createdAt, updatedAt), "metadata");
  }

  /** The metadata record is made of strings only, so a deserializer that gives back encoded
      string trees gives it back. */
  lemma MetadataDeserialized(c: Codec, createdAt: string, updatedAt: string)
    requires DecodesStringTrees(c)
    ensures c.deserialize(EncodeValue(c, MetadataRecord(VStr(createdAt), updatedAt)))
         == MetadataRecord(VStr(createdAt), updatedAt)
  {
    var meta := MetadataRecord(VStr(createdAt), updatedAt);
    assert StringTree(meta) by {
      assert forall k :: k in meta.m ==> meta.m[k].VStr?;
    }
  }

  /** Decoding a stored features object gives back its metadata record whenever the
      deserializer gives back the record from its encoding. */
  lemma MetadataDecoded(c: Codec, data: map<string, Value>, createdAt: Value, updatedAt: string)
    requires c.deserialize(EncodeValue(c, MetadataRecord(createdAt, updatedAt))) == MetadataRecord(createdAt, updatedAt)
    ensures var decoded := DynamoToDict(c, DictToDynamo(c, FeaturesObject(data, createdAt, updatedAt)));
      decoded.VDict? && "metadata" in decoded.m
      && decoded.m["metadata"] == MetadataRecord(createdAt, updatedAt)
  {
    var enc := DictToDynamo(c, FeaturesObject(data, createdAt, updatedAt));
    MetadataEncodedAt(c, data, createdAt, updatedAt);
    DecodeTyped(c, enc.m["metadata"]);
    DecodedAt(c, enc, "metadata");
  }

  /** Reading back the `created_at` of a record the upsert wrote gives the value written. */
  lemma StoredCreatedAt(c: Codec, tableType: string, identifier: string, category: string,
                        data: map<string, Value>, createdAt: string, earlier: string, now: string)
    requires DecodesStringTrees(c)
    ensures CreatedAtFor(c, RecordFor(c, tableType, identifier, category, data, VStr(createdAt), earlier), now)
         == Success(VStr(createdAt))
  {
    var record := RecordFor(c, tableType, identifier, category, data, VStr(createdAt), earlier);
    var enc := DictToDynamo(c, FeaturesObject(data, VStr(createdAt), earlier));
    assert "features" in record && record["features"] == enc;
    MetadataDeserialized(c, createdAt, earlier);
    MetadataDecoded(c, data, VStr(createdAt), earlier);
    var meta := MetadataRecord(VStr(createdAt), earlier);
    assert GetOr(DynamoToDict(c, enc).m, "metadata", VDict(map[])) == meta;
    assert GetOr(meta.m, "created_at", VStr(now)) == VStr(createdAt);
    CreatedAtFromMetadata(c, record, meta, now);
  }

  /** A stored record whose decoded `features` hold a metadata dict gives that dict's
      `created_at`, or now when it has none. */
  lemma CreatedAtFromMetadata(c: Codec, existing: map<string, Value>, meta: Value, now: string)
    requires "features" in existing && DynamoToDict(c, existing["features"]).VDict?
    requires GetOr(DynamoToDict(c, existing["features"]).m, "metadata", VDict(map[])) == meta && meta.VDict?
    ensures CreatedAtFor(c, existing, now) == Success(GetOr(meta.m, "created_at", VStr(now)))
  {
  }

  /** A second upsert keeps the first one's `created_at`, refreshes `updated_at` and replaces
      the data wholesale: after upserting `data1` at `t1` and then `data2` at `t2` into a key
      with no record, the stored record is exactly the one for `data2`, created `t1`, updated `t2`.
      It holds for any deserializer that gives back encoded string trees, which boto3's rules
      for strings and maps guarantee (`BotoLikeDecodesStringTrees`). */
  lemma UpsertTwice(c: Codec, tables: map<string, Table>, tableType: string, identifier: string,
                    category: string, data1: map<string, Value>, data2: map<string, Value>,
                    t1: string, t2: string)
    requires DecodesStringTrees(c)
    requires tableType in tables && OrdinaryTableType(tableType)
    requires Key(identifier, category) !in tables[tableType]
    ensures var first := Upserted(c, tables, tableType, identifier, category, data1, t1);
      && first.Success?
      && var second := Upserted(c, first.value.tables, tableType, identifier, category, data2, t2);
      && second.Success?
      && second.value.tables[tableType][Key(identifier, category)]
         == RecordFor(c, tableType, identifier, category, data2, VStr(t1), t2)
  {
    var key := Key(identifier, category);
    FirstUpsertStampsNow(c, tables, tableType, identifier, category, data1, t1);
    var first := Upserted(c, tables, tableType, identifier, category, data1, t1);
    UpsertOnlyThisKey(c, tables, tableType, identifier, category, data1, t1);
    var record1 := RecordFor(c, tableType, identifier, category, data1, VStr(t1), t1);
    assert StoredItem(first.value.tables[tableType], key) == record1;
    StoredCreatedAt(c, tableType, identifier, category, data1, t1, t1, t2);
    assert record1 != map[] by { assert "category" in record1; }
    UpsertOnlyThisKey(c, first.value.tables, tableType, identifier, category, data2, t2);
  }
}
