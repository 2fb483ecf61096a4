/** Decoded JSON values as the source sees them after `json.loads`, and the
    `json.dumps`/`json.loads` pair as an abstract codec. */
module Json {
  import opened Wrappers

  /** A decoded JSON value. `JNull` is Python's `None`; an object keeps its
      members in insertion order, as a Python dict does. Numbers are integers. */
  datatype Json =
    | JNull
    | JBool(b: bool)
    | JNumber(n: int)
    | JString(s: string)
    | JArray(items: seq<Json>)
    | JObject(fields: seq<(string, Json)>)

  predicate HasKey(fields: seq<(string, Json)>, key: string) {
    exists i :: 0 <= i < |fields| && fields[i].0 == key
  }

  /** `key in d` / `d[key]` on a dict: the member stored under `key`. Keys of a
      decoded dict are distinct (`json.loads` keeps the last of repeated keys,
      see `DistinctKeys`), so the first match is the only one. */
  function Lookup(fields: seq<(string, Json)>, key: string): (r: Option<Json>)
    ensures r.Some? <==> HasKey(fields, key)
    ensures r.Some? ==> exists i :: 0 <= i < |fields| && fields[i] == (key, r.value) &&
                                    forall j :: 0 <= j < i ==> fields[j].0 != key
  {
    if fields == [] then None
    else if fields[0].0 == key then Some(fields[0].1)
    else
      var r := Lookup(fields[1..], key);
      assert HasKey(fields[1..], key) ==> HasKey(fields, key);
      assert HasKey(fields, key) ==> HasKey(fields[1..], key) by {
        if HasKey(fields, key) {
          var i :| 0 <= i < |fields| && fields[i].0 == key;
          assert fields[1..][i - 1].0 == key;
        }
      }
      if r.Some? then
        assert exists i :: 0 <= i < |fields| && fields[i] == (key, r.value) &&
                           forall j :: 0 <= j < i ==> fields[j].0 != key by {
          var i :| 0 <= i < |fields[1..]| && fields[1..][i] == (key, r.value) &&
                   forall j :: 0 <= j < i ==> fields[1..][j].0 != key;
          assert fields[i + 1] == (key, r.value);
          forall j | 0 <= j < i + 1 ensures fields[j].0 != key {
            if j > 0 { assert fields[j] == fields[1..][j - 1]; }
          }
        }
        r
      else r
  }

  /** `d.get(key)` on a dict: the member under `key`, or `None` when absent. */
  function Get(fields: seq<(string, Json)>, key: string): (r: Json)
    ensures !HasKey(fields, key) ==> r == JNull
    ensures HasKey(fields, key) ==> Lookup(fields, key) == Some(r)
  {
    Lookup(fields, key).GetOr(JNull)
  }

  /** `json.dumps` and `json.loads` (the latter yields `None` where it raises
      `JSONDecodeError`). Serialisation itself is not part of this model. */
  datatype Codec = Codec(dumps: Json -> string, loads: string -> Option<Json>)

  /** No object inside `v` repeats a key: the only values `json.loads` yields,
      since it keeps the last of repeated keys. */
  predicate DistinctKeys(v: Json)
    decreases v
  {
    match v
    case JArray(items) => forall i :: 0 <= i < |items| ==> DistinctKeys(items[i])
    case JObject(fields) =>
      && (forall i, j :: 0 <= i < j < |fields| ==> fields[i].0 != fields[j].0)
      && (forall i :: 0 <= i < |fields| ==> DistinctKeys(fields[i].1))
    case _ => true
  }

  /** What the model relies on of the codec: decoding undoes encoding for
      every value with distinct keys, decoded values have distinct keys, and an
      encoding is never the empty string. */
  ghost predicate Lawful(codec: Codec) {
    && (forall v :: DistinctKeys(v) ==> codec.loads(codec.dumps(v)) == Some(v))
    && (forall s :: codec.loads(s).Some? ==> DistinctKeys(codec.loads(s).value))
    && (forall v :: codec.dumps(v) != "")
  }
}
