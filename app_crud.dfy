/**
 * The store functions of app/crud.py. They work like those of components/features/crud.py
 * but look the table up in `TABLES` and raise `ValueError` for an unknown table type, and
 * they add `update_item_features`.
 */
module AppCrud {
  import opened Wrappers
  import opened PyValue
  import opened DynamoCodec
  import opened Dynamo
  import FeatureCrud

  /** The error for a table type `TABLES` does not hold. */
  function InvalidTable(tableType: string): Exc
  {
    ValueError("Invalid table_type: " + tableType + ". Must be 'bright_uid' or 'account_id'")
  }

  /** `get_item`: an unknown table type is rejected before the store is touched; otherwise
      one lookup, answered as `FeatureCrud.Lookup` describes. */
  method GetItem(db: Database, c: Codec, identifier: string, category: string, tableType: string)
    returns (r: Result<Option<map<string, Value>>, Exc>)
    modifies db`lookups
    ensures db.tables == old(db.tables)
    ensures tableType !in db.tables ==> r == Failure(InvalidTable(tableType)) && db.lookups == old(db.lookups)
    ensures tableType in db.tables ==>
      && db.lookups == old(db.lookups) + [(tableType, Key(identifier, category))]
      && r == Success(FeatureCrud.Lookup(c, db.tables[tableType], Key(identifier, category)))
  {
    if tableType !in db.tables {
      return Failure(InvalidTable(tableType));
    }
    r := FeatureCrud.GetItem(db, c, identifier, category, tableType);
  }

  /** `put_item`: an unknown table type is rejected and the caller's dict left alone;
      otherwise `features` is encoded in the caller's dict and the item written under the
      key its own attributes name. */
  method PutItem(db: Database, c: Codec, itemData: map<string, Value>, tableType: string)
    returns (written: map<string, Value>, r: Outcome<Exc>)
    modifies db`tables
    ensures tableType !in old(db.tables) ==>
      written == itemData && r == Fail(InvalidTable(tableType)) && db.tables == old(db.tables)
    ensures tableType in old(db.tables) ==> written == FeatureCrud.Encoded(c, itemData)
    ensures tableType in old(db.tables) && ItemKey(tableType, written).None? ==>
      r == Fail(StoreError("ValidationException")) && db.tables == old(db.tables)
    ensures tableType in old(db.tables) && ItemKey(tableType, written).Some? ==>
      && r == Pass
      && db.tables == old(db.tables)[tableType := old(db.tables)[tableType][ItemKey(tableType, written).value := written]]
  {
    if tableType !in db.tables {
      return itemData, Fail(InvalidTable(tableType));
    }
    written, r := FeatureCrud.PutItem(db, c, itemData, tableType);
  }

  /** `update_item_features`: `SET features = :features` on the key, so the whole `features`
      attribute is replaced (the doc comment's "merge" does not happen) and every other
      attribute kept; the item comes back with `features` decoded. */
  method UpdateItemFeatures(db: Database, c: Codec, identifier: string, category: string,
                            features: map<string, Value>, tableType: string)
    returns (r: Result<map<string, Value>, Exc>)
    modifies db`tables
    ensures tableType !in old(db.tables) ==> r == Failure(InvalidTable(tableType)) && db.tables == old(db.tables)
    ensures tableType in old(db.tables) ==>
      var key := Key(identifier, category);
      var updated := UpdatedItem(old(db.tables)[tableType], tableType, key, DictToDynamo(c, VDict(features)));
      && db.tables == old(db.tables)[tableType := old(db.tables)[tableType][key := updated]]
      && r == Success(FeatureCrud.Decoded(c, updated))
  {
    if tableType !in db.tables {
      return Failure(InvalidTable(tableType));
    }
    var dynamoFeatures := DictToDynamo(c, VDict(features));
    var item := db.UpdateFeatures(tableType, Key(identifier, category), dynamoFeatures);
    return Success(FeatureCrud.Decoded(c, item));
  }

  /** An update replaces `features` wholesale with the new encoding and keeps every other
      attribute of an existing item; a new item gets just its key attributes. */
  lemma UpdateReplacesFeatures(t: Table, tableType: string, key: Key, features: Value)
    ensures var u := UpdatedItem(t, tableType, key, features);
      && "features" in u && u["features"] == features
      && (key in t ==> u.Keys == t[key].Keys + {"features"}
                       && forall a :: a in t[key] && a != "features" ==> u[a] == t[key][a])
      && (key !in t && FeatureCrud.OrdinaryTableType(tableType) ==>
            u.Keys == {tableType, "category", "features"} && u[tableType] == VStr(key.id))
  {
  }

  /** With a deserializer that reverses the encoding of strings and maps, the item an update
      returns holds exactly the features sent. */
  lemma UpdateReturnsFeaturesSent(c: Codec, t: Table, tableType: string, key: Key, features: map<string, Value>)
    requires DecodesStringTrees(c)
    requires StringTree(VDict(features))
    ensures FeatureCrud.Decoded(c, UpdatedItem(t, tableType, key, DictToDynamo(c, VDict(features))))["features"]
            == VDict(features)
  {
    var enc := DictToDynamo(c, VDict(features));
    UpdateReplacesFeatures(t, tableType, key, enc);
    EncodedFeaturesDecode(c, features);
  }

  /** Features made of strings and maps come back from their encoding unchanged. */
  lemma EncodedFeaturesDecode(c: Codec, features: map<string, Value>)
    requires DecodesStringTrees(c)
    requires StringTree(VDict(features))
    ensures DynamoToDict(c, DictToDynamo(c, VDict(features))) == VDict(features)
  {
    var enc := DictToDynamo(c, VDict(features));
    forall k | k in features
      ensures DecodeEntry(c, enc.m[k]) == features[k]
    {
      EncodedEntryDecodes(c, features, k);
    }
    DecodesTo(c, enc, features);
  }

  /** A dict whose every entry decodes to the matching value decodes to the dict of them. */
  lemma DecodesTo(c: Codec, enc: Value, m: map<string, Value>)
    requires enc.VDict? && enc.m.Keys == m.Keys
    requires forall k :: k in m ==> DecodeEntry(c, enc.m[k]) == m[k]
    ensures DynamoToDict(c, enc) == VDict(m)
  {
    assert DynamoToDict(c, enc).m == m;
  }

  /** One feature comes back from the encoding unchanged. */
  lemma EncodedEntryDecodes(c: Codec, features: map<string, Value>, k: string)
    requires DecodesStringTrees(c)
    requires StringTree(VDict(features)) && k in features
    ensures DecodeEntry(c, DictToDynamo(c, VDict(features)).m[k]) == features[k]
  {
    var enc := DictToDynamo(c, VDict(features));
    EncodedAt(c, VDict(features), k);
    DecodeTyped(c, enc.m[k]);
    assert StringTree(features[k]);
    assert c.deserialize(EncodeValue(c, features[k])) == features[k];
  }
}
