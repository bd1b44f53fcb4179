/**
 * `FactoryAPIs.execute_api(api_name, params)`: picks the transform for one
 * of the five APIs by name, builds it from the entries of `params` it needs
 * and runs it. An unknown name is a ValueError; any error is logged and
 * raised again as it is.
 */
module FactoryApis {
  import opened Json
  import PassThrough
  import TransformFocusData
  import TransformIbgeData

  /** The external fetchers each transform calls, one per API. */
  datatype Fetchers = Fetchers(
    selic: Value -> Value,
    focus: TransformFocusData.Fetch,
    dolar: Value -> Value,
    ibge: Value -> Value,
    tesouro: Value -> Value)

  /** The API names the factory knows. */
  const APIS: set<string> := {"selic", "focus", "dolar", "ibge", "tesouro"}

  /** The entries of `params` an API's transform is built from, in the order they are read. */
  function Required(name: string): (keys: seq<string>)
    ensures "date" in keys
  {
    if name == "focus" then ["indicator", "date", "temporal_series"] else ["date"]
  }

  /** The records of the Focus and IBGE transforms as the JSON list they are. */
  function AsList(r: Result<seq<Record>>): (v: Result<Value>)
    ensures r.Err? ==> v == Err(r.error)
    ensures r.Ok? ==>
      v.Ok? && v.value.List? && |v.value.items| == |r.value| && forall i :: 0 <= i < |r.value| ==> v.value.items[i] == Dict(r.value[i])
  {
    match r
    case Err(e) => Err(e)
    case Ok(rows) => Ok(List(PassThrough.DictsOf(rows)))
  }

  /** `FactoryAPIs.execute_api(api_name, params)`. */
  function ExecuteApi(name: string, params: map<string, Value>, f: Fetchers): (r: Result<Value>)
    ensures name !in APIS ==> r == Err(ValueError(UnknownApi(name)))
    ensures name in APIS && FirstMissing(Required(name), params).Some? ==>
      r == Err(KeyError(FirstMissing(Required(name), params).value))
    ensures name == "selic" && "date" in params ==> r == PassThrough.Transform(params["date"], f.selic)
    ensures name == "dolar" && "date" in params ==> r == PassThrough.Transform(params["date"], f.dolar)
    ensures name == "tesouro" && "date" in params ==> r == PassThrough.Transform(params["date"], f.tesouro)
    ensures name == "ibge" && "date" in params ==> r == AsList(TransformIbgeData.Transform(params["date"], f.ibge))
    ensures name == "focus" && "indicator" in params && "date" in params && "temporal_series" in params ==>
      r == AsList(TransformFocusData.Transform(params["indicator"], params["date"], params["temporal_series"], f.focus))
  {
    if name == "selic" then
      if "date" !in params then Err(KeyError("date")) else PassThrough.Transform(params["date"], f.selic)
    else if name == "focus" then
      if "indicator" !in params then Err(KeyError("indicator"))
      else if "date" !in params then Err(KeyError("date"))
      else if "temporal_series" !in params then Err(KeyError("temporal_series"))
      else AsList(TransformFocusData.Transform(params["indicator"], params["date"], params["temporal_series"], f.focus))
    else if name == "dolar" then
      if "date" !in params then Err(KeyError("date")) else PassThrough.Transform(params["date"], f.dolar)
    else if name == "ibge" then
      if "date" !in params then Err(KeyError("date")) else AsList(TransformIbgeData.Transform(params["date"], f.ibge))
    else if name == "tesouro" then
      if "date" !in params then Err(KeyError("date")) else PassThrough.Transform(params["date"], f.tesouro)
    else Err(ValueError(UnknownApi(name)))
  }

  /**
   * Only the entries an API needs matter: two parameter maps that agree on
   * them give the same result, whatever else they hold.
   */
  lemma OnlyRequiredParamsMatter(name: string, p1: map<string, Value>, p2: map<string, Value>, f: Fetchers)
    requires forall k :: k in Required(name) ==> (k in p1 <==> k in p2) && (k in p1 ==> p1[k] == p2[k])
    ensures ExecuteApi(name, p1, f) == ExecuteApi(name, p2, f)
  {
    assert FirstMissing(Required(name), p1) == FirstMissing(Required(name), p2) by {
      SameMissing(Required(name), p1, p2);
    }
  }

  lemma {:induction false} SameMissing(keys: seq<string>, p1: map<string, Value>, p2: map<string, Value>)
    requires forall k :: k in keys ==> (k in p1 <==> k in p2)
    ensures FirstMissing(keys, p1) == FirstMissing(keys, p2)
  {
    if keys != [] {
      assert keys[0] in keys;
      assert forall k :: k in keys[1..] ==> k in keys;
      SameMissing(keys[1..], p1, p2);
    }
  }

  /**
   * The factory adds no error of its own besides the unknown name and a
   * missing parameter: every other error is the one the chosen transform
   * raised, passed on unchanged, and the ValueError of an unknown name
   * is raised before any fetch.
   */
  lemma ErrorsReRaised(name: string, params: map<string, Value>, f: Fetchers)
    requires ExecuteApi(name, params, f).Err?
    ensures var e := ExecuteApi(name, params, f).error;
      || (name !in APIS && e == ValueError(UnknownApi(name)))
      || (name in APIS && e.KeyError? && e.key in Required(name) && e.key !in params)
      || (name in {"selic", "dolar", "tesouro"} && "date" in params && e == PassThrough.Transform(params["date"], TransformerOf(name, f)).error)
      || (name == "ibge" && "date" in params && e == TransformIbgeData.Transform(params["date"], f.ibge).error)
      || (name == "focus" && "indicator" in params && "date" in params && "temporal_series" in params &&
          e == TransformFocusData.Transform(params["indicator"], params["date"], params["temporal_series"], f.focus).error)
  {
    var m := FirstMissing(Required(name), params);
    if name in APIS && m.Some? {
      var i :| 0 <= i < |Required(name)| && Required(name)[i] == m.value && m.value !in params
        && forall j :: 0 <= j < i ==> Required(name)[j] in params;
    }
  }

  /** The fetcher of a pass-through API. */
  function TransformerOf(name: string, f: Fetchers): (fetch: Value -> Value)
    requires name in {"selic", "dolar", "tesouro"}
    ensures name == "selic" ==> fetch == f.selic
    ensures name == "dolar" ==> fetch == f.dolar
    ensures name == "tesouro" ==> fetch == f.tesouro
  {
    if name == "selic" then f.selic else if name == "dolar" then f.dolar else f.tesouro
  }
}
