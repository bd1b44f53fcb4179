/**
 * `TransformSelicData`, `TransformDolarData` and `TransformTesouroData`:
 * fetch the payload for the requested date and hand it, as it came, to the
 * execution-date stamper. An empty payload only logs a warning.
 */
module PassThrough {
  import opened Json
  import opened ColDtReferencia

  predicate AllDicts(items: seq<Value>)
  {
    forall i :: 0 <= i < |items| ==> items[i].Dict?
  }

  /** The dicts of a list of JSON dicts, as records. */
  function RecordsOf(items: seq<Value>): (rows: seq<Record>)
    requires AllDicts(items)
    ensures |rows| == |items| && forall i :: 0 <= i < |items| ==> items[i] == Dict(rows[i])
  {
    seq(|items|, i requires 0 <= i < |items| => items[i].fields)
  }

  /** Records back as JSON dicts. */
  function DictsOf(rows: seq<Record>): (items: seq<Value>)
    ensures AllDicts(items) && |items| == |rows| && forall i :: 0 <= i < |rows| ==> items[i] == Dict(rows[i])
  {
    seq(|rows|, i requires 0 <= i < |rows| => Dict(rows[i]))
  }

  /**
   * `add_dt_referencia(payload, date)` on whatever the API returned.
   * Iterating it visits the elements of a list, the keys of a dict and the
   * characters of a string; None, a bool or a number cannot be iterated
   * (TypeError). The date is parsed before each assignment, so its error
   * comes first; assigning into anything but a dict is a TypeError.
   */
  function StampPayload(payload: Value, date: Value): (r: Result<Value>)
    ensures payload.List? && AllDicts(payload.items) ==>
      r == match StampRows(RecordsOf(payload.items), date)
           case Ok(rows) => Ok(List(DictsOf(rows)))
           case Err(e) => Err(e)
    ensures payload.List? && !AllDicts(payload.items) ==>
      r.Err? && (ExecutionDate(date).Err? ==> r.error == ExecutionDate(date).error)
        && (ExecutionDate(date).Ok? ==> r.error == TypeError)
    ensures (payload.Null? || payload.Bool? || payload.Int?) ==> r == Err(TypeError)
    ensures payload in {List([]), Str(""), Dict(map[])} ==> r == Ok(payload)
    ensures (payload.Str? || payload.Dict?) && Truthy(payload) ==>
      r == Err(if ExecutionDate(date).Err? then ExecutionDate(date).error else TypeError)
  {
    match payload
    case List(items) =>
      if AllDicts(items) then
        (match StampRows(RecordsOf(items), date)
         case Ok(rows) => Ok(List(DictsOf(rows)))
         case Err(e) => Err(e))
      else if ExecutionDate(date).Err? then Err(ExecutionDate(date).error) else Err(TypeError)
    case Str(s) =>
      if s == "" then Ok(payload)
      else if ExecutionDate(date).Err? then Err(ExecutionDate(date).error)
      else Err(TypeError)
    case Dict(m) =>
      if m == map[] then Ok(payload)
      else if ExecutionDate(date).Err? then Err(ExecutionDate(date).error)
      else Err(TypeError)
    case _ => Err(TypeError)
  }

  /**
   * `Transform{Selic,Dolar,Tesouro}Data(date).transform()`: the payload
   * fetched for the date, stamped with it.
   */
  function Transform(date: Value, fetch: Value -> Value): (r: Result<Value>)
    ensures fetch(date) in {List([]), Str(""), Dict(map[])} ==> r == Ok(fetch(date))
    ensures fetch(date).Null? || fetch(date).Bool? || fetch(date).Int? ==> r == Err(TypeError)
    ensures r.Ok? && fetch(date).List? ==> r.value.List? && |r.value.items| == |fetch(date).items|
    ensures r.Ok? && Truthy(fetch(date)) ==> fetch(date).List? && ExecutionDate(date).Ok?
  {
    StampPayload(fetch(date), date)
  }

  /**
   * A list of records comes back as the same list: same length, every
   * record stamped with the requested date and otherwise as fetched.
   */
  lemma TransformKeepsRecords(date: Value, fetch: Value -> Value, i: int)
    requires fetch(date).List? && Transform(date, fetch).Ok? && 0 <= i < |fetch(date).items|
    ensures AllDicts(fetch(date).items)
    ensures var out := Transform(date, fetch).value;
      && out.List? && |out.items| == |fetch(date).items| && out.items[i].Dict?
      && out.items[i].fields == Stamp(fetch(date).items[i].fields, ExecutionDate(date).value)
  {
    var items := fetch(date).items;
    assert items != [];
    var rows := StampRows(RecordsOf(items), date).value;
    assert rows[i] == Stamp(RecordsOf(items)[i], ExecutionDate(date).value);
  }

  /** An empty list from the API is returned as it is, whatever the date. */
  lemma EmptyPayloadPassesThrough(date: Value, fetch: Value -> Value)
    requires fetch(date) == List([])
    ensures Transform(date, fetch) == Ok(List([]))
  {
  }
}
