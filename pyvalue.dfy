/**
 * The Python values the core passes around: JSON-like data plus the number kinds
 * (`int`, `float`, `Decimal`) and opaque objects, and the exceptions it raises.
 */
module PyValue {
  import opened Text
  import opened Wrappers

  /** A Python value. Dictionary keys are strings: every dict in the core comes from JSON. */
  datatype Value =
    | VNone
    | VBool(b: bool)
    | VInt(i: int)
    | VFloat(f: real)
    | VDecimal(d: real)
    | VStr(s: string)
    | VList(items: seq<Value>)
    | VDict(m: map<string, Value>)
    | VObject(cls: string)        // any other object, known only by its class name

  /** The exceptions the core raises or lets through. */
  datatype Exc =
    | ValueError(msg: string)
    | KeyError(key: string)
    | TypeError(what: string)
    | AttributeError(what: string)
    | ZeroDivisionError
    | StoreError(code: string)   // a boto3/botocore failure re-raised unchanged (the store model raises only ValidationException)
    | HttpException(status: int, detail: string)   // FastAPI's `HTTPException`

  /** Python truthiness (`bool(v)`). */
  predicate Truthy(v: Value)
  {
    match v
    case VNone => false
    case VBool(b) => b
    case VInt(i) => i != 0
    case VFloat(f) => f != 0.0
    case VDecimal(d) => d != 0.0
    case VStr(s) => s != []
    case VList(xs) => xs != []
    case VDict(m) => m != map[]
    case VObject(_) => true
  }

  /** `isinstance(v, (int, float))`: `bool` is a subclass of `int`, `Decimal` is neither. */
  predicate IsIntOrFloat(v: Value)
  {
    v.VInt? || v.VFloat? || v.VBool?
  }

  /** `str(type(v))`, as interpolated into the source's error messages. */
  function TypeRepr(v: Value): string
  {
    var name := match v
      case VNone => "NoneType"
      case VBool(_) => "bool"
      case VInt(_) => "int"
      case VFloat(_) => "float"
      case VDecimal(_) => "decimal.Decimal"
      case VStr(_) => "str"
      case VList(_) => "list"
      case VDict(_) => "dict"
      case VObject(c) => c;
    "<class '" + name + "'>"
  }

  /** A one-entry dict `{tag: payload}`, the shape of a DynamoDB attribute value. */
  function Tagged(tag: string, payload: Value): Value
  {
    VDict(map[tag := payload])
  }

  /** `d.get(k, default)` on a dict. */
  function GetOr(m: map<string, Value>, k: string, default: Value): Value
  {
    if k in m then m[k] else default
  }

  // ---------------------------------------------------------------------------------------
  // Insertion-ordered dictionaries: a Python dict whose iteration order matters, as a list of
  // (key, value) pairs. `Put` keeps a present key at its position, as `d[k] = v` does.
  // ---------------------------------------------------------------------------------------

  function Keys<K, V>(d: seq<(K, V)>): (r: seq<K>)
    ensures |r| == |d|
    ensures forall i :: 0 <= i < |d| ==> r[i] == d[i].0
  {
    if d == [] then [] else [d[0].0] + Keys(d[1..])
  }

  /** `d.get(k)`: the value paired with the first occurrence of `k`. */
  function Get<K(==), V>(d: seq<(K, V)>, k: K): (r: Option<V>)
    ensures r.Some? <==> k in Keys(d)
  {
    if d == [] then None else if d[0].0 == k then Some(d[0].1) else Get(d[1..], k)
  }

  /** `d[k] = v`. */
  function Put<K(==), V>(d: seq<(K, V)>, k: K, v: V): (r: seq<(K, V)>)
  {
    if d == [] then [(k, v)]
    else if d[0].0 == k then [(k, v)] + d[1..]
    else [d[0]] + Put(d[1..], k, v)
  }

  /** No key occurs twice, as in any Python dict. */
  predicate DistinctKeys<K(==), V>(d: seq<(K, V)>)
  {
    forall i, j :: 0 <= i < j < |d| ==> d[i].0 != d[j].0
  }

  /** `d[k] = v` keeps the key order, appending `k` only when it is new, and changes only `k`. */
  lemma PutSpec<K, V>(d: seq<(K, V)>, k: K, v: V)
    ensures Keys(Put(d, k, v)) == if k in Keys(d) then Keys(d) else Keys(d) + [k]
    ensures Get(Put(d, k, v), k) == Some(v)
    ensures forall k' :: k' != k ==> Get(Put(d, k, v), k') == Get(d, k')
  {
    PutKeys(d, k, v);
    forall k' {
      PutGet(d, k, v, k');
    }
  }

  lemma {:induction false} PutKeys<K, V>(d: seq<(K, V)>, k: K, v: V)
    ensures Keys(Put(d, k, v)) == if k in Keys(d) then Keys(d) else Keys(d) + [k]
  {
    if d == [] {
      assert Keys(Put(d, k, v)) == [k];
    } else {
      var rest := Keys(d[1..]);
      assert Keys(d) == [d[0].0] + rest;
      if d[0].0 == k {
        assert Put(d, k, v) == [(k, v)] + d[1..];
        assert Keys(Put(d, k, v)) == [k] + rest;
      } else {
        PutKeys(d[1..], k, v);
        assert Put(d, k, v) == [d[0]] + Put(d[1..], k, v);
        assert Keys(Put(d, k, v)) == [d[0].0] + Keys(Put(d[1..], k, v));
        assert k in Keys(d) <==> k in rest;
      }
    }
  }

  lemma {:induction false} PutGet<K, V>(d: seq<(K, V)>, k: K, v: V, k': K)
    ensures Get(Put(d, k, v), k') == if k' == k then Some(v) else Get(d, k')
  {
    if d != [] && d[0].0 != k {
      PutGet(d[1..], k, v, k');
      assert Put(d, k, v) == [d[0]] + Put(d[1..], k, v);
      assert (Put(d, k, v))[1..] == Put(d[1..], k, v);
    } else if d != [] {
      assert Put(d, k, v) == [(k, v)] + d[1..];
      assert (Put(d, k, v))[1..] == d[1..];
    }
  }

  /** The distinct elements of `s` in order of first occurrence. */
  function Dedup<T(==)>(s: seq<T>): seq<T>
  {
    if s == [] then [] else var d := Dedup(s[..|s| - 1]); if s[|s| - 1] in d then d else d + [s[|s| - 1]]
  }

  lemma {:induction false} DedupMembers<T>(s: seq<T>)
    ensures forall x :: x in Dedup(s) <==> x in s
  {
    if s != [] {
      DedupMembers(s[..|s| - 1]);
      assert s == s[..|s| - 1] + [s[|s| - 1]];
    }
  }

  /** The dict built by assigning the pairs of `ps` in order: `{k: v for k, v in ps}`. */
  function FromPairs<K(==), V>(ps: seq<(K, V)>): seq<(K, V)>
  {
    if ps == [] then [] else Put(FromPairs(ps[..|ps| - 1]), ps[|ps| - 1].0, ps[|ps| - 1].1)
  }

  /** The value of the last pair of `ps` with key `k`, if any. */
  function LastValue<K(==), V>(ps: seq<(K, V)>, k: K): Option<V>
  {
    if ps == [] then None
    else if ps[|ps| - 1].0 == k then Some(ps[|ps| - 1].1)
    else LastValue(ps[..|ps| - 1], k)
  }

  /** Building a dict from pairs: its keys are the distinct keys in first-occurrence order,
      and the last assignment to a key wins. */
  lemma {:induction false} FromPairsSpec<K, V>(ps: seq<(K, V)>)
    ensures Keys(FromPairs(ps)) == Dedup(Keys(ps))
    ensures forall k :: Get(FromPairs(ps), k) == LastValue(ps, k)
  {
    if ps != [] {
      var init := ps[..|ps| - 1];
      FromPairsSpec(init);
      PutSpec(FromPairs(init), ps[|ps| - 1].0, ps[|ps| - 1].1);
      assert Keys(ps)[..|ps| - 1] == Keys(init);
    }
  }

  lemma KeysSnoc<K, V>(d: seq<(K, V)>, p: (K, V))
    ensures Keys(d + [p]) == Keys(d) + [p.0]
  {
  }

  lemma KeysInit<K, V>(d: seq<(K, V)>)
    requires d != []
    ensures Keys(d) == Keys(d[..|d| - 1]) + [d[|d| - 1].0]
  {
    var init := d[..|d| - 1];
    var ks := Keys(d);
    var r := Keys(init) + [d[|d| - 1].0];
    assert |ks| == |r|;
    forall i | 0 <= i < |d|
      ensures ks[i] == r[i]
    {
      if i < |init| {
        assert init[i] == d[i];
      }
    }
    assert ks == r;
  }

  /** The field a `for field in required: if field not in v: raise` loop stops at: the
      first of `fields` that `m` lacks. */
  function FirstMissing(m: map<string, Value>, fields: seq<string>): (r: Option<string>)
    ensures r.None? <==> forall i :: 0 <= i < |fields| ==> fields[i] in m
    ensures r.Some? ==> exists i :: 0 <= i < |fields| && fields[i] == r.value && r.value !in m
                                    && forall j :: 0 <= j < i ==> fields[j] in m
  {
    if fields == [] then None
    else if fields[0] !in m then Some(fields[0])
    else
      var r := FirstMissing(m, fields[1..]);
      assert forall i :: 0 < i < |fields| ==> fields[i] == fields[1..][i - 1];
      r
  }
}
