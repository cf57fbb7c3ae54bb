/**
 * Conversion between plain Python dicts and DynamoDB's typed attribute-value form
 * (`{"S": ...}`, `{"N": ...}`, `{"BOOL": ...}`, `{"M": ...}`, `{"L": ...}`), as
 * `dict_to_dynamodb` and `dynamodb_to_dict` do it. The same two functions appear twice in
 * the repository (components/features/crud.py and app/utils.py); they are defined once here.
 */
module DynamoCodec {
  import opened PyValue

  /**
   * The two collaborators the converters call but do not define: Python's `str()` of a
   * non-string value (numbers, None, lists, dicts, other objects) and boto3's
   * `TypeDeserializer().deserialize`.
   */
  datatype Codec = Codec(render: Value -> string, deserialize: Value -> Value)

  /** The type descriptors `dynamodb_to_dict` hands to the deserializer. */
  const TypeTags: set<string> := {"S", "N", "BOOL", "M", "L"}

  /** A one-entry dict tagged `M`, `S`, `N` or `L`: what every encoded entry looks like. */
  predicate IsEncodedEntry(x: Value)
  {
    x.VDict? && |x.m| == 1 && x.m.Keys <= {"M", "S", "N", "L"}
  }

  /** The encoding of one element of a list: lists are encoded flat, one level deep. */
  function EncodeListItem(c: Codec, item: Value): (r: Value)
    ensures r.VDict? && |r.m| == 1 && r.m.Keys <= {"S", "N"}
    ensures "N" in r.m <==> IsIntOrFloat(item)
  {
    if item.VStr? then Tagged("S", item)
    else if IsIntOrFloat(item) then Tagged("N", VStr(c.render(item)))
    else if item.VBool? then Tagged("BOOL", item)
    else Tagged("S", VStr(c.render(item)))
  }

  /** The encoding of one dict entry's value. The `int`/`float` test comes before the `bool`
      test, and `bool` is a subclass of `int`, so the `BOOL` branch is never taken. */
  function EncodeValue(c: Codec, v: Value): (r: Value)
    ensures IsEncodedEntry(r)
    ensures "M" in r.m <==> v.VDict?
    ensures "N" in r.m <==> IsIntOrFloat(v)
    decreases v, 1
  {
    if v.VDict? then Tagged("M", DictToDynamo(c, v))
    else if v.VStr? then Tagged("S", v)
    else if IsIntOrFloat(v) then Tagged("N", VStr(c.render(v)))
    else if v.VBool? then Tagged("BOOL", v)
    else if v.VList? then Tagged("L", VList(seq(|v.items|, i requires 0 <= i < |v.items| => EncodeListItem(c, v.items[i]))))
    else Tagged("S", VStr(c.render(v)))
  }

  /** `dict_to_dynamodb`: every value of a dict becomes a tagged entry; a non-dict is returned as is. */
  function DictToDynamo(c: Codec, v: Value): (r: Value)
    ensures !v.VDict? ==> r == v
    ensures v.VDict? ==> r.VDict? && r.m.Keys == v.m.Keys
    ensures v.VDict? ==> forall k :: k in r.m ==> IsEncodedEntry(r.m[k])
    decreases v, 0
  {
    if !v.VDict? then v else VDict(map k | k in v.m :: EncodeValue(c, v.m[k]))
  }

  /** Unfolds `dict_to_dynamodb` at one key. */
  lemma EncodedAt(c: Codec, v: Value, k: string)
    requires v.VDict? && k in v.m
    ensures DictToDynamo(c, v).m[k] == EncodeValue(c, v.m[k])
  {
  }

  /** A dict that looks like a typed attribute value: exactly one key, and it is a type descriptor. */
  predicate IsTypedAttr(x: Value)
  {
    x.VDict? && |x.m| == 1 && x.m.Keys * TypeTags != {}
  }

  /** The decoding of one dict entry's value. */
  function DecodeEntry(c: Codec, x: Value): (r: Value)
    ensures !IsTypedAttr(x) && !x.VDecimal? && !x.VDict? ==> r == x
    ensures x.VDecimal? ==> r == VFloat(x.d)
    ensures !IsTypedAttr(x) && x.VDict? ==> r.VDict? && r.m.Keys == x.m.Keys
    decreases x, 1
  {
    if IsTypedAttr(x) then c.deserialize(x)
    else if x.VDecimal? then VFloat(x.d)
    else if x.VDict? then DynamoToDict(c, x)
    else x
  }

  /** `dynamodb_to_dict`: typed entries go to the deserializer, Decimals become floats, other
      dicts are converted recursively; a non-dict is returned as is. */
  function DynamoToDict(c: Codec, v: Value): (r: Value)
    ensures !v.VDict? ==> r == v
    ensures v.VDict? ==> r.VDict? && r.m.Keys == v.m.Keys
    decreases v, 0
  {
    if !v.VDict? then v else VDict(map k | k in v.m :: DecodeEntry(c, v.m[k]))
  }

  /** Unfolds `dynamodb_to_dict` at one key. */
  lemma DecodedAt(c: Codec, v: Value, k: string)
    requires v.VDict? && k in v.m
    ensures DynamoToDict(c, v).m[k] == DecodeEntry(c, v.m[k])
  {
  }

  /** An encoded entry is always handed to the deserializer when decoded. */
  lemma DecodeTyped(c: Codec, x: Value)
    requires IsEncodedEntry(x)
    ensures DecodeEntry(c, x) == c.deserialize(x)
  {
    var k :| k in x.m;
    assert k in x.m.Keys * TypeTags;
  }

  /** The two rules of boto3's deserializer the model relies on: `{"S": s}` gives `s`, and
      `{"M": m}` gives `m` with every value deserialized. */
  ghost predicate BotoLike(c: Codec)
  {
    && (forall s: string :: c.deserialize(Tagged("S", VStr(s))) == VStr(s))
    && (forall m: map<string, Value> ::
          c.deserialize(Tagged("M", VDict(m))) == VDict(map k | k in m :: c.deserialize(m[k])))
  }

  /** A string, or a dict whose values are all such trees: what the metadata record is made of. */
  predicate StringTree(v: Value)
  {
    match v
    case VStr(_) => true
    case VDict(m) => forall k :: k in m ==> StringTree(m[k])
    case _ => false
  }

  /** An encoded string tree is deserialized back to itself. */
  lemma {:induction false} DeserializeEncoded(c: Codec, v: Value)
    requires BotoLike(c) && StringTree(v)
    ensures c.deserialize(EncodeValue(c, v)) == v
  {
    if v.VDict? {
      var enc := DictToDynamo(c, v).m;
      forall k | k in v.m
        ensures c.deserialize(enc[k]) == v.m[k]
      {
        EncodedAt(c, v, k);
        DeserializeEncoded(c, v.m[k]);
      }
      var dec := map k | k in enc :: c.deserialize(enc[k]);
      assert dec == v.m;
      assert c.deserialize(Tagged("M", VDict(enc))) == VDict(dec);
    }
  }

  /** A deserializer that gives back every encoded string tree. */
  ghost predicate DecodesStringTrees(c: Codec)
  {
    forall v :: StringTree(v) ==> c.deserialize(EncodeValue(c, v)) == v
  }

  /** boto3's rules for strings and maps are enough for that. */
  lemma BotoLikeDecodesStringTrees(c: Codec)
    requires BotoLike(c)
    ensures DecodesStringTrees(c)
  {
    forall v | StringTree(v)
      ensures c.deserialize(EncodeValue(c, v)) == v
    {
      DeserializeEncoded(c, v);
    }
  }

  /** Round trip: decoding the encoding of a dict of string trees gives the dict back. */
  lemma RoundTrip(c: Codec, v: Value)
    requires BotoLike(c) && StringTree(v) && v.VDict?
    ensures DynamoToDict(c, DictToDynamo(c, v)) == v
  {
    var enc := DictToDynamo(c, v);
    forall k | k in v.m
      ensures DecodeEntry(c, enc.m[k]) == v.m[k]
    {
      EncodedAt(c, v, k);
      DeserializeEncoded(c, v.m[k]);
      assert IsTypedAttr(enc.m[k]);
    }
    assert DynamoToDict(c, enc).m == v.m;
  }

  /** A Python bool is stored as a number, at the top level and inside lists. */
  lemma BoolsAreNumbers(c: Codec, b: bool)
    ensures EncodeValue(c, VBool(b)) == Tagged("N", VStr(c.render(VBool(b))))
    ensures EncodeListItem(c, VBool(b)) == Tagged("N", VStr(c.render(VBool(b))))
  {
  }

  /** A dict or list inside a list is not encoded recursively: it becomes its `str()`. */
  lemma NestedInListIsString(c: Codec, item: Value)
    requires item.VDict? || item.VList?
    ensures EncodeListItem(c, item) == Tagged("S", VStr(c.render(item)))
  {
  }
}
