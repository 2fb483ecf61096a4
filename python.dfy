/** The Python operations the core applies to decoded JSON values, with the
    exceptions they raise: subscript, `.get`, `+`, `str()`, iteration and
    truthiness. */
module Python {
  import opened Wrappers
  import opened Json

  /** The exceptions the core raises or lets escape. */
  datatype Error =
    | HttpException(status: int, detail: string)  // fastapi.HTTPException
    | RuntimeError(detail: string)
    | StoreError                                  // the store client's own exception, not wrapped
    | JsonDecodeError
    | TypeError
    | AttributeError
    | KeyError(key: string)
    | ValueError(detail: string)
    | UnboundLocalError

  /** `not v` holds of a decoded value. */
  predicate Falsy(v: Json) {
    match v
    case JNull => true
    case JBool(b) => !b
    case JNumber(n) => n == 0
    case JString(s) => s == ""
    case JArray(items) => items == []
    case JObject(fields) => fields == []
  }

  /** An optional string (a query parameter, a store read) is truthy: present and non-empty. */
  predicate Truthy(o: Option<string>) {
    o.Some? && o.value != ""
  }

  /** `json.loads(s)` on a string. */
  function Loads(codec: Codec, s: string): (r: Result<Json, Error>)
    ensures r.Err? <==> codec.loads(s).None?
    ensures r.Err? ==> r.error == JsonDecodeError
    ensures r.Ok? ==> codec.loads(s) == Some(r.value)
  {
    match codec.loads(s)
    case Some(v) => Ok(v)
    case None => Err(JsonDecodeError)
  }

  /** `v[key]` with a string key: only a dict holding `key` yields a value. */
  function Index(v: Json, key: string): (r: Result<Json, Error>)
    ensures r.Ok? <==> v.JObject? && HasKey(v.fields, key)
    ensures r.Ok? ==> Lookup(v.fields, key) == Some(r.value)
    ensures r.Err? ==> r.error == if v.JObject? then KeyError(key) else TypeError
  {
    match v
    case JObject(fields) =>
      (match Lookup(fields, key)
       case Some(x) => Ok(x)
       case None => Err(KeyError(key)))
    case _ => Err(TypeError)
  }

  /** `d[key]` on a dict with a key that is itself a decoded value: lists and
      dicts are unhashable, and a non-string key is never among a JSON
      object's keys. */
  function Subscript(d: Json, key: Json): (r: Result<Json, Error>)
    requires d.JObject?
    ensures r.Ok? <==> key.JString? && HasKey(d.fields, key.s)
    ensures r.Ok? ==> Lookup(d.fields, key.s) == Some(r.value)
  {
    match key
    case JString(s) => Index(d, s)
    case JArray(_) => Err(TypeError)
    case JObject(_) => Err(TypeError)
    case _ => Err(KeyError(Str(key)))
  }

  /** `v.get(key, default)`: only a dict has `.get`. */
  function GetOr(v: Json, key: string, default: Json): (r: Result<Json, Error>)
    ensures r.Ok? <==> v.JObject?
    ensures r.Err? ==> r.error == AttributeError
    ensures r.Ok? && HasKey(v.fields, key) ==> Lookup(v.fields, key) == Some(r.value)
    ensures r.Ok? && !HasKey(v.fields, key) ==> r.value == default
  {
    match v
    case JObject(fields) => Ok(Lookup(fields, key).GetOr(default))
    case _ => Err(AttributeError)
  }

  predicate IsNumeric(v: Json) {
    v.JNumber? || v.JBool?
  }

  /** The integer value of a number or a bool (`True` is 1). */
  function NumericValue(v: Json): int
    requires IsNumeric(v)
  {
    if v.JNumber? then v.n else if v.b then 1 else 0
  }

  /** `a + b`: strings and lists concatenate, numbers (bools included) add,
      every other pairing raises `TypeError`. */
  function Add(a: Json, b: Json): (r: Result<Json, Error>)
    ensures a.JString? && b.JString? ==> r == Ok(JString(a.s + b.s))
    ensures r.Ok? ==> (a.JString? && b.JString?) || (a.JArray? && b.JArray?) ||
                      (IsNumeric(a) && IsNumeric(b))
  {
    if a.JString? && b.JString? then Ok(JString(a.s + b.s))
    else if a.JArray? && b.JArray? then Ok(JArray(a.items + b.items))
    else if IsNumeric(a) && IsNumeric(b) then Ok(JNumber(NumericValue(a) + NumericValue(b)))
    else Err(TypeError)
  }

  /** `for x in v`: a list yields its elements, a dict its keys, a string its
      characters; other values are not iterable. */
  function Iterate(v: Json): (r: Result<seq<Json>, Error>)
    ensures r.Ok? <==> v.JArray? || v.JObject? || v.JString?
    ensures v.JArray? ==> r == Ok(v.items)
    ensures v.JObject? ==> r.Ok? && |r.value| == |v.fields| &&
                           forall i :: 0 <= i < |v.fields| ==> r.value[i] == JString(v.fields[i].0)
    ensures v.JString? ==> r.Ok? && |r.value| == |v.s| &&
                           forall i :: 0 <= i < |v.s| ==> r.value[i] == JString([v.s[i]])
  {
    match v
    case JArray(items) => Ok(items)
    case JObject(fields) => Ok(seq(|fields|, i requires 0 <= i < |fields| => JString(fields[i].0)))
    case JString(s) => Ok(seq(|s|, i requires 0 <= i < |s| => JString([s[i]])))
    case _ => Err(TypeError)
  }

  /** `str(v)`, as an f-string renders a decoded value. */
  function Str(v: Json): (r: string)
    ensures v.JString? ==> r == v.s
    ensures v == JNull ==> r == "None"
  {
    if v.JString? then v.s else Repr(v)
  }

  /** `repr(v)`. Strings are quoted as Python quotes them; the escaping of
      backslashes and control characters is not modelled. */
  function Repr(v: Json): string
    decreases v, 1
  {
    match v
    case JNull => "None"
    case JBool(b) => if b then "True" else "False"
    case JNumber(n) => Decimal(n)
    case JString(s) => Quote(s)
    case JArray(_) => "[" + ReprItems(v, 0) + "]"
    case JObject(_) => "{" + ReprFields(v, 0) + "}"
  }

  function ReprItems(v: Json, i: nat): string
    requires v.JArray? && i <= |v.items|
    decreases v, 0, |v.items| - i
  {
    if i == |v.items| then ""
    else (if i == 0 then "" else ", ") + Repr(v.items[i]) + ReprItems(v, i + 1)
  }

  function ReprFields(v: Json, i: nat): string
    requires v.JObject? && i <= |v.fields|
    decreases v, 0, |v.fields| - i
  {
    if i == |v.fields| then ""
    else
      (if i == 0 then "" else ", ") + Quote(v.fields[i].0) + ": " + Repr(v.fields[i].1) +
      ReprFields(v, i + 1)
  }

  function Quote(s: string): string {
    if '\'' in s && '"' !in s then "\"" + s + "\"" else "'" + s + "'"
  }

  function Decimal(n: int): string {
    if n < 0 then "-" + Digits(-n) else Digits(n)
  }

  function Digits(n: nat): string {
    if n < 10 then ["0123456789"[n]] else Digits(n / 10) + ["0123456789"[n % 10]]
  }
}
