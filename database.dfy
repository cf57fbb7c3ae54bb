/**
 * The DynamoDB tables behind the feature store, as the boto3 `Table` resources the
 * repository calls present them: items are plain Python dicts, read and written whole.
 */
module Dynamo {
  import opened PyValue
  import opened Wrappers

  /** The primary key of a feature record: the partition-key value and the `category` sort key. */
  datatype Key = Key(id: string, category: string)

  type Table = map<Key, map<string, Value>>

  /** `table.get_item(Key=key).get("Item")`, with an absent item read as the empty dict. */
  function StoredItem(t: Table, key: Key): map<string, Value>
  {
    if key in t then t[key] else map[]
  }

  /** The key DynamoDB reads from an item's own attributes: the partition-key attribute (named
      after the table type) and `category`, both strings; otherwise the write is rejected. */
  function ItemKey(tableType: string, item: map<string, Value>): Option<Key>
  {
    if tableType in item && item[tableType].VStr? && "category" in item && item["category"].VStr?
    then Some(Key(item[tableType].s, item["category"].s))
    else None
  }

  /** The tables, by table type (`bright_uid`, `account_id`); the table type is also the name
      of each table's partition-key attribute. */
  class Database {
    var tables: map<string, Table>
    /** Every item lookup, in order: which table, which key. */
    ghost var lookups: seq<(string, Key)>

    constructor(initial: map<string, Table>)
      ensures tables == initial && lookups == []
    {
      tables := initial;
      lookups := [];
    }

    /** `table.get_item(Key=...)`. */
    method GetItem(tableType: string, key: Key) returns (item: map<string, Value>)
      requires tableType in tables
      modifies this`lookups
      ensures tables == old(tables)
      ensures lookups == old(lookups) + [(tableType, key)]
      ensures item == StoredItem(tables[tableType], key)
    {
      item := StoredItem(tables[tableType], key);
      lookups := lookups + [(tableType, key)];
    }

    /** `table.put_item(Item=item)`: replaces whatever was stored under the item's key. */
    method PutItem(tableType: string, item: map<string, Value>) returns (r: Outcome<Exc>)
      requires tableType in tables
      modifies this`tables
      ensures r.Pass? <==> ItemKey(tableType, item).Some?
      ensures r.Fail? ==> r.error == StoreError("ValidationException") && tables == old(tables)
      ensures r.Pass? ==>
        tables == old(tables)[tableType := old(tables)[tableType][ItemKey(tableType, item).value := item]]
    {
      match ItemKey(tableType, item)
      case None =>
        r := Fail(StoreError("ValidationException"));
      case Some(k) =>
        tables := tables[tableType := tables[tableType][k := item]];
        r := Pass;
    }

    /** `table.update_item(Key=key, UpdateExpression="SET features = :features",
        ReturnValues="ALL_NEW")`: sets the whole `features` attribute, creating the item
        (with its key attributes) when absent, and returns all attributes after the update. */
    method UpdateFeatures(tableType: string, key: Key, features: Value) returns (attributes: map<string, Value>)
      requires tableType in tables
      modifies this`tables
      ensures attributes == UpdatedItem(old(tables)[tableType], tableType, key, features)
      ensures tables == old(tables)[tableType := old(tables)[tableType][key := attributes]]
    {
      attributes := UpdatedItem(tables[tableType], tableType, key, features);
      tables := tables[tableType := tables[tableType][key := attributes]];
    }
  }

  /** The item `UpdateFeatures` leaves behind. */
  function UpdatedItem(t: Table, tableType: string, key: Key, features: Value): map<string, Value>
  {
    var base := if key in t then t[key] else map[tableType := VStr(key.id), "category" := VStr(key.category)];
    base["features" := features]
  }
}
