/**
  PHP array values as the API hands them out: strings, integers, null,
  string-keyed arrays (records, keys in insertion order) and lists.
 */
module Values {
  import opened Wrappers

  datatype Value =
    | Null
    | Str(s: string)
    | Int(i: int)
    | Obj(fields: seq<(string, Value)>)
    | Arr(elems: seq<Value>)

  /** A string-keyed PHP array, keys in insertion order. */
  type Record = seq<(string, Value)>

  /** The keys of a record, in order. */
  function Keys(r: Record): (ks: seq<string>)
    ensures |ks| == |r| && forall i :: 0 <= i < |r| ==> ks[i] == r[i].0
  {
    seq(|r|, i requires 0 <= i < |r| => r[i].0)
  }

  /** The record with the given keys and values, position by position. */
  function FromPairs(keys: seq<string>, vals: seq<Value>): (r: Record)
    requires |keys| == |vals|
    ensures Keys(r) == keys
    ensures |r| == |vals| && forall k :: 0 <= k < |r| ==> r[k].1 == vals[k]
  {
    var r := seq(|keys|, k requires 0 <= k < |keys| => (keys[k], vals[k]));
    assert Keys(r) == keys;
    r
  }

  /** `$r[$key] ?? null`: the value under the first occurrence of `key`. */
  function Get(r: Record, key: string): (v: Option<Value>)
    ensures v.None? <==> forall i :: 0 <= i < |r| ==> r[i].0 != key
    ensures v.Some? ==> exists i :: 0 <= i < |r| && r[i] == (key, v.value)
    decreases |r|
  {
    if r == [] then None
    else if r[0].0 == key then Some(r[0].1)
    else
      var v := Get(r[1..], key);
      if v.Some? then
        ghost var i :| 0 <= i < |r[1..]| && r[1..][i] == (key, v.value);
        assert r[i + 1] == (key, v.value);
        v
      else v
  }

  /** `$r[$key] = $v`: overwrite the first entry under `key`, or append one. */
  function Set(r: Record, key: string, v: Value): (r': Record)
    ensures Get(r', key) == Some(v)
    ensures forall k :: k != key ==> Get(r', k) == Get(r, k)
    decreases |r|
  {
    if r == [] then [(key, v)]
    else if r[0].0 == key then [(key, v)] + r[1..]
    else
      var rest := Set(r[1..], key, v);
      assert forall k :: k != r[0].0 ==> Get([r[0]] + rest, k) == Get(rest, k);
      [r[0]] + rest
  }

  /** The value under a key is the one at its first position. */
  lemma {:induction false} GetFirst(r: Record, i: int)
    requires 0 <= i < |r|
    requires forall j :: 0 <= j < i ==> r[j].0 != r[i].0
    ensures Get(r, r[i].0) == Some(r[i].1)
    decreases i
  {
    if i > 0 {
      GetFirst(r[1..], i - 1);
    }
  }
}
