/**
 * Decoded JSON documents as Python's `json` module hands them over, with the
 * dictionary idioms the fetch script uses on them: `d.get(k)`, `d.get(k, {})`,
 * `(d.get(k, {}) or {})` and Python truthiness.
 */
module JsonValues {
  import opened Wrappers

  /** Numbers are kept as exact reals: the script only passes them through. */
  datatype Json =
    | JNull
    | JBool(b: bool)
    | JNum(n: real)
    | JStr(s: string)
    | JArr(items: seq<Json>)
    | JObj(fields: map<string, Json>)

  /** The exception Python raises when a nested value has the wrong type (`AttributeError`, `TypeError`, `KeyError`). */
  datatype PayloadError = Malformed

  /** Python truthiness: `None`, `False`, zero, `""`, `[]` and `{}` are false. */
  predicate Truthy(j: Json) {
    match j
    case JNull => false
    case JBool(b) => b
    case JNum(n) => n != 0.0
    case JStr(s) => s != ""
    case JArr(xs) => xs != []
    case JObj(m) => m != map[]
  }

  /** `d.get(k)`: the value under `k`, or `None` when `k` is missing. */
  function Get(d: map<string, Json>, k: string): Json {
    if k in d then d[k] else JNull
  }

  /** `d.get(k, {})` with no `or {}` after it: a missing key gives `{}`, a present value must be a dict. */
  function DictAt(d: map<string, Json>, k: string): Result<map<string, Json>, PayloadError> {
    if k !in d then Ok(map[])
    else if d[k].JObj? then Ok(d[k].fields)
    else Err(Malformed)
  }

  /** `(d.get(k, {}) or {})`: a missing or falsy value gives `{}`, a truthy value must be a dict. */
  function DictOrEmpty(d: map<string, Json>, k: string): Result<map<string, Json>, PayloadError> {
    var v := Get(d, k);
    if !Truthy(v) then Ok(map[])
    else if v.JObj? then Ok(v.fields)
    else Err(Malformed)
  }

  /**
   * `(d.get("weather", [{}]) or [{}])[0]` used as a dict: a missing or falsy list
   * stands for `[{}]`; otherwise it must be a list whose first entry is a dict.
   */
  function FirstWeather(d: map<string, Json>): Result<map<string, Json>, PayloadError> {
    var v := Get(d, "weather");
    if !Truthy(v) then Ok(map[])
    else if v.JArr? && v.items[0].JObj? then Ok(v.items[0].fields)
    else Err(Malformed)
  }

  /**
   * The defaulting idioms never fail on a missing key, and every one of them fails
   * only when the value found is present and not of the expected shape.
   */
  lemma DefaultsOnMissingKey(d: map<string, Json>, k: string)
    requires k !in d
    ensures DictAt(d, k) == Ok(map[]) && DictOrEmpty(d, k) == Ok(map[])
    ensures Get(d, k) == JNull
    ensures "weather" !in d ==> FirstWeather(d) == Ok(map[])
  {
  }
}
