/**
 * `TransformIbgeData`: the IPCA table from the IBGE API. Every row of the
 * payload has its columns `V`, `D2C`, `D3C`, `D3N` renamed to
 * `valor_ipca`, `ano_mes`, `variavel_codigo`, `variavel_nome` (the others
 * dropped); the first row, the table header, is discarded; of the rest only
 * the rows of variables "63" and "2265" are kept, each with exactly the four
 * new columns; the result is stamped with the requested date.
 */
module TransformIbgeData {
  import opened Json
  import opened ColDtReferencia

  const OLD_KEYS: seq<string> := ["V", "D2C", "D3C", "D3N"]
  const NEW_KEYS: seq<string> := ["valor_ipca", "ano_mes", "variavel_codigo", "variavel_nome"]
  const CODE_KEY := "variavel_codigo"

  /** The variable codes whose rows are kept. */
  const VARIABLES: set<Value> := {Str("63"), Str("2265")}

  /** The new column names, as a set. */
  function NewKeySet(): (ks: set<string>)
    ensures forall i :: 0 <= i < |NEW_KEYS| ==> NEW_KEYS[i] in ks
    ensures forall k :: k in ks ==> exists i :: 0 <= i < |NEW_KEYS| && NEW_KEYS[i] == k
  {
    set k | k in NEW_KEYS
  }

  /**
   * `{new_keys[keys.index(k)]: v for k, v in item.items() if k in keys}`:
   * the i-th new column holds the i-th old column, when the row has it.
   */
  function Rename(item: Record): (r: Record)
    ensures r.Keys <= NewKeySet()
    ensures forall i :: 0 <= i < |NEW_KEYS| ==>
      (NEW_KEYS[i] in r <==> OLD_KEYS[i] in item) && (NEW_KEYS[i] in r ==> r[NEW_KEYS[i]] == item[OLD_KEYS[i]])
  {
    var r0: Record := map[];
    var r1 := if OLD_KEYS[0] in item then r0[NEW_KEYS[0] := item[OLD_KEYS[0]]] else r0;
    var r2 := if OLD_KEYS[1] in item then r1[NEW_KEYS[1] := item[OLD_KEYS[1]]] else r1;
    var r3 := if OLD_KEYS[2] in item then r2[NEW_KEYS[2] := item[OLD_KEYS[2]]] else r2;
    if OLD_KEYS[3] in item then r3[NEW_KEYS[3] := item[OLD_KEYS[3]]] else r3
  }

  /**
   * The renaming comprehension over the whole payload: `.items()` on
   * anything but a dict is an AttributeError.
   */
  function RenameAll(items: seq<Value>): (r: Result<seq<Record>>)
    ensures r.Ok? <==> forall i :: 0 <= i < |items| ==> items[i].Dict?
    ensures r.Err? ==> r.error == AttributeError
    ensures r.Ok? ==> |r.value| == |items| && forall i :: 0 <= i < |items| ==> r.value[i] == Rename(items[i].fields)
  {
    if forall i :: 0 <= i < |items| ==> items[i].Dict? then
      Ok(seq(|items|, i requires 0 <= i < |items| => Rename(items[i].fields)))
    else Err(AttributeError)
  }

  /** `item.get("variavel_codigo") in variaveis`. */
  predicate Selected(item: Record)
  {
    Get(item, CODE_KEY, Null) in VARIABLES
  }

  /**
   * `{key: item[key] for key in new_keys}`: exactly the four new columns,
   * or a KeyError for the first one the row lacks.
   */
  function Select(item: Record): (r: Result<Record>)
    ensures r.Ok? <==> FirstMissing(NEW_KEYS, item).None?
    ensures r.Err? ==> r.error == KeyError(FirstMissing(NEW_KEYS, item).value)
    ensures r.Ok? ==> r.value.Keys == NewKeySet() && forall k :: k in r.value ==> r.value[k] == item[k]
  {
    match FirstMissing(NEW_KEYS, item)
    case Some(k) => Err(KeyError(k))
    case None => Ok(map k | k in NEW_KEYS :: item[k])
  }

  /**
   * The selecting comprehension over the rows after the first, evaluated
   * row by row: the first selected row that lacks a column raises.
   */
  function Filter(rows: seq<Record>): (r: Result<seq<Record>>)
    ensures r.Ok? ==> |r.value| <= |rows| && forall i :: 0 <= i < |r.value| ==> r.value[i].Keys == NewKeySet()
    ensures r.Err? ==> r.error.KeyError? && r.error.key in NEW_KEYS
  {
    if rows == [] then Ok([])
    else if !Selected(rows[0]) then Filter(rows[1..])
    else
      match Select(rows[0])
      case Err(e) => Err(e)
      case Ok(row) =>
        match Filter(rows[1..])
        case Err(e) => Err(e)
        case Ok(rest) => Ok([row] + rest)
  }

  /** The rows of the selected variables, in order: the reference filter. */
  function Kept(rows: seq<Record>): (ks: seq<Record>)
    ensures |ks| <= |rows|
    ensures forall i :: 0 <= i < |ks| ==> ks[i] in rows && Selected(ks[i])
  {
    if rows == [] then []
    else if Selected(rows[0]) then [rows[0]] + Kept(rows[1..])
    else Kept(rows[1..])
  }

  /** A row lacking none of the new columns. */
  predicate Complete(item: Record)
  {
    FirstMissing(NEW_KEYS, item).None?
  }

  /** The rows of a sequence cut down to the new columns, one by one, stopping at the first error. */
  function SelectAll(ks: seq<Record>): Result<seq<Record>>
  {
    if ks == [] then Ok([])
    else
      match Select(ks[0])
      case Err(e) => Err(e)
      case Ok(row) =>
        match SelectAll(ks[1..])
        case Err(e) => Err(e)
        case Ok(rest) => Ok([row] + rest)
  }

  /** The selecting comprehension is the selection applied to the kept rows. */
  lemma {:induction false} FilterIsKept(rows: seq<Record>)
    ensures Filter(rows) == SelectAll(Kept(rows))
  {
    if rows != [] {
      FilterIsKept(rows[1..]);
      if Selected(rows[0]) {
        var ks := Kept(rows);
        assert ks[0] == rows[0] && ks[1..] == Kept(rows[1..]);
      }
    }
  }

  /**
   * The selection succeeds exactly when every row has the four new
   * columns, and then gives each row cut down to them, in order.
   */
  lemma {:induction false} SelectAllOk(ks: seq<Record>)
    ensures SelectAll(ks).Ok? <==> forall i :: 0 <= i < |ks| ==> Complete(ks[i])
    ensures SelectAll(ks).Ok? ==>
      |SelectAll(ks).value| == |ks| && forall i :: 0 <= i < |ks| ==> Select(ks[i]) == Ok(SelectAll(ks).value[i])
  {
    if ks != [] {
      SelectAllOk(ks[1..]);
      assert forall i :: 0 < i < |ks| ==> ks[i] == ks[1..][i - 1];
      if SelectAll(ks).Ok? {
        var out := SelectAll(ks).value;
        assert forall i :: 0 < i < |out| ==> out[i] == SelectAll(ks[1..]).value[i - 1];
      }
    }
  }

  /** Otherwise it fails with the KeyError of the first row lacking a column. */
  lemma {:induction false} SelectAllErr(ks: seq<Record>)
    requires SelectAll(ks).Err?
    ensures exists i :: 0 <= i < |ks| && !Complete(ks[i]) && (forall j :: 0 <= j < i ==> Complete(ks[j])) &&
                        SelectAll(ks).error == Select(ks[i]).error
  {
    if Complete(ks[0]) {
      SelectAllErr(ks[1..]);
      var i :| 0 <= i < |ks[1..]| && !Complete(ks[1..][i]) && (forall j :: 0 <= j < i ==> Complete(ks[1..][j]))
        && SelectAll(ks[1..]).error == Select(ks[1..][i]).error;
      assert ks[i + 1] == ks[1..][i];
      assert forall j :: 0 < j <= i ==> ks[j] == ks[1..][j - 1];
    } else {
      assert SelectAll(ks).error == Select(ks[0]).error;
    }
  }

  /**
   * A row with no column but the new ones, as renaming leaves it, and with
   * all four of them is left as it is by the selection.
   */
  lemma SelectRenamed(r: Record)
    requires r.Keys <= NewKeySet() && Complete(r)
    ensures Select(r) == Ok(r) && r.Keys == NewKeySet()
  {
    forall k | k in NewKeySet()
      ensures k in r
    {
      var i :| 0 <= i < |NEW_KEYS| && NEW_KEYS[i] == k;
    }
    assert Select(r).value.Keys == r.Keys;
    assert Select(r).value == r;
  }

  /** `rows[1:]`, which is empty for an empty list. */
  function Rest(rows: seq<Record>): (rest: seq<Record>)
    ensures rows != [] ==> rest == rows[1..]
    ensures rows == [] ==> rest == []
  {
    if rows == [] then [] else rows[1..]
  }

  /** `TransformIbgeData(date).transform()` on the payload the IBGE API returned for `date`. */
  function Transform(date: Value, fetch: Value -> Value): (r: Result<seq<Record>>)
    ensures !fetch(date).List? ==> r == Err(TypeError)
    ensures fetch(date).List? && (exists i :: 0 <= i < |fetch(date).items| && !fetch(date).items[i].Dict?) ==>
      r == Err(AttributeError)
  {
    match fetch(date)
    case List(items) =>
      (match RenameAll(items)
       case Err(e) => Err(e)
       case Ok(rows) =>
         match Filter(Rest(rows))
         case Err(e) => Err(e)
         case Ok(kept) => StampRows(kept, date))
    case _ => Err(TypeError)
  }

  /**
   * The first payload row never reaches the output: two payloads that
   * differ only in their first (dict) row give the same result.
   */
  lemma FirstRowIgnored(date: Value, first1: Record, first2: Record, rest: seq<Value>,
                        fetch1: Value -> Value, fetch2: Value -> Value)
    requires fetch1(date) == List([Dict(first1)] + rest)
    requires fetch2(date) == List([Dict(first2)] + rest)
    ensures Transform(date, fetch1) == Transform(date, fetch2)
  {
    var items1, items2 := [Dict(first1)] + rest, [Dict(first2)] + rest;
    assert forall i :: 0 < i < |items1| ==> items1[i] == items2[i];
    if RenameAll(items1).Ok? {
      var rows1, rows2 := RenameAll(items1).value, RenameAll(items2).value;
      assert Rest(rows1) == Rest(rows2);
    }
  }

  /**
   * A successful IBGE transform: the payload was a list of dicts, and the
   * output is, in order, the renamed rows after the first whose variable is
   * "63" or "2265", each with exactly the four new columns and the execution
   * date, which reads back as the requested day.
   */
  lemma {:induction false} TransformOutput(date: Value, fetch: Value -> Value)
    requires Transform(date, fetch).Ok?
    ensures fetch(date).List? && RenameAll(fetch(date).items).Ok?
    ensures var kept := Kept(Rest(RenameAll(fetch(date).items).value));
      var out := Transform(date, fetch).value;
      && |out| == |kept|
      && (out != [] ==> ExecutionDate(date).Ok?)
      && forall i :: 0 <= i < |out| ==>
           && Selected(kept[i]) && kept[i].Keys == NewKeySet()
           && out[i] == Stamp(kept[i], ExecutionDate(date).value)
  {
    var items := fetch(date).items;
    var rows := RenameAll(items).value;
    var kept := Kept(Rest(rows));
    assert Filter(Rest(rows)).Ok? && Transform(date, fetch) == StampRows(Filter(Rest(rows)).value, date);
    RenamedKeys(items);
    KeptSelected(Rest(rows));
    var out := Transform(date, fetch).value;
    assert out == StampRows(kept, date).value;
    if kept != [] {
      var iso := ExecutionDate(date).value;
      assert out == seq(|kept|, i requires 0 <= i < |kept| => Stamp(kept[i], iso));
    }
  }

  /**
   * On rows with no column but the new ones, a successful selection gives
   * back exactly the kept rows, each with all four columns.
   */
  lemma KeptSelected(rows: seq<Record>)
    requires forall r :: r in rows ==> r.Keys <= NewKeySet()
    requires Filter(rows).Ok?
    ensures Filter(rows).value == Kept(rows)
    ensures forall i :: 0 <= i < |Kept(rows)| ==> Kept(rows)[i].Keys == NewKeySet()
  {
    FilterIsKept(rows);
    var kept := Kept(rows);
    SelectAllOk(kept);
    forall i | 0 <= i < |kept|
      ensures Select(kept[i]) == Ok(kept[i]) && kept[i].Keys == NewKeySet()
    {
      SelectRenamed(kept[i]);
    }
  }

  /** The rows after the first, renamed, have no column but the new ones. */
  lemma RenamedKeys(items: seq<Value>)
    requires RenameAll(items).Ok?
    ensures forall r :: r in Rest(RenameAll(items).value) ==> r.Keys <= NewKeySet()
  {
    var rows := RenameAll(items).value;
    forall r | r in Rest(rows)
      ensures r.Keys <= NewKeySet()
    {
      var j :| 0 <= j < |Rest(rows)| && Rest(rows)[j] == r;
      assert r == Rename(items[j + 1].fields);
    }
  }
}
