/**
 * JSON-shaped values as the Python code sees them after `response.json()`,
 * the exceptions the core can raise, and the Result/Option wrappers used to
 * carry them.
 */
module Json {

  /** A decoded JSON value: Python's None, bool, int, str, list and dict. */
  datatype Value =
    | Null
    | Bool(b: bool)
    | Int(i: int)
    | Str(s: string)
    | List(items: seq<Value>)
    | Dict(fields: map<string, Value>)

  /** A record is a Python dict with string keys. */
  type Record = map<string, Value>

  /** Python truthiness (`if not x`) of a JSON value. */
  predicate Truthy(v: Value)
    ensures !Truthy(v) <==> v in {Null, Bool(false), Int(0), Str(""), List([]), Dict(map[])}
  {
    match v
    case Null => false
    case Bool(b) => b
    case Int(i) => i != 0
    case Str(s) => s != ""
    case List(items) => items != []
    case Dict(fields) => fields != map[]
  }

  /** `d.get(key, default)` on a dict. */
  function Get(m: Record, key: string, default: Value): (v: Value)
    ensures key in m ==> v == m[key]
    ensures key !in m ==> v == default
  {
    if key in m then m[key] else default
  }

  /** The first of `keys` a dict lacks, if any: where `d[key]` for each key in turn raises. */
  function FirstMissing(keys: seq<string>, item: Record): (m: Option<string>)
    ensures m.None? <==> forall i :: 0 <= i < |keys| ==> keys[i] in item
    ensures m.Some? ==>
      exists i :: 0 <= i < |keys| && keys[i] == m.value && m.value !in item && forall j :: 0 <= j < i ==> keys[j] in item
  {
    if keys == [] then None
    else if keys[0] !in item then Some(keys[0])
    else
      var m := FirstMissing(keys[1..], item);
      if m.Some? then
        var i :| 0 <= i < |keys[1..]| && keys[1..][i] == m.value && m.value !in item
          && forall j :: 0 <= j < i ==> keys[1..][j] in item;
        assert keys[i + 1] == m.value;
        m
      else m
  }

  /** Why a ValueError was raised. */
  datatype ValueErrorCause =
    | BadDate            // strptime / Timestamp could not parse the text
    | DateOutOfRange     // date.replace(year=...) produced an invalid date
    | UnknownApi(name: string)

  /** The Python exceptions the core raises or lets through. */
  datatype Error =
    | TypeError
    | ValueError(cause: ValueErrorCause)
    | KeyError(key: string)
    | AttributeError
    | OverflowError

  datatype Result<T> = Ok(value: T) | Err(error: Error)

  datatype Option<T> = None | Some(value: T)
}
