/**
 * `ColDtReferencia.add_dt_referencia`: every record of a transform's output
 * gets an execution-date column, `dt_execucao`, holding the requested
 * `dd/mm/YYYY` date rewritten as `YYYY-MM-DD`. The date is parsed once per
 * record, so an empty list is returned untouched even when the date is bad.
 */
module ColDtReferencia {
  import opened Json
  import opened Calendar

  const EXECUTION_KEY := "dt_execucao"

  /**
   * `datetime.strptime(date, "%d/%m/%Y").strftime("%Y-%m-%d")`: a TypeError
   * for a non-string, a ValueError for text strptime rejects, and otherwise
   * the same day written the ISO way.
   */
  function ExecutionDate(date: Value): (r: Result<string>)
    ensures !date.Str? ==> r == Err(TypeError)
    ensures date.Str? ==> (r.Ok? <==> ParseDMY(date.s).Ok?)
    ensures date.Str? && r.Err? ==> r.error == ValueError(BadDate)
    ensures r.Ok? ==> ParseISO(r.value) == ParseDMY(date.s)
  {
    if !date.Str? then Err(TypeError)
    else
      match ParseDMY(date.s)
      case Err(e) => Err(e)
      case Ok(d) => ParseFormatISO(d); Ok(FormatISO(d))
  }

  /** One record with its execution date set; every other column as it was. */
  function Stamp(row: Record, iso: string): (s: Record)
    ensures EXECUTION_KEY in s && s[EXECUTION_KEY] == Str(iso)
    ensures s.Keys == row.Keys + {EXECUTION_KEY}
    ensures forall k :: k in row && k != EXECUTION_KEY ==> s[k] == row[k]
  {
    row[EXECUTION_KEY := Str(iso)]
  }

  /** Stamping a stamped record again with the same date changes nothing. */
  lemma StampTwice(row: Record, iso: string)
    ensures Stamp(Stamp(row, iso), iso) == Stamp(row, iso)
  {
    var once := Stamp(row, iso);
    assert Stamp(once, iso).Keys == once.Keys;
  }

  /**
   * What `add_dt_referencia(data, date)` leaves in `data`: every record
   * stamped, or the error of the first parse (none for an empty list).
   */
  function StampRows(rows: seq<Record>, date: Value): (r: Result<seq<Record>>)
    ensures rows == [] ==> r == Ok([])
    ensures rows != [] ==> (r.Ok? <==> ExecutionDate(date).Ok?)
    ensures rows != [] && r.Err? ==> r.error == ExecutionDate(date).error
    ensures r.Ok? ==> |r.value| == |rows|
  {
    if rows == [] then Ok([])
    else
      match ExecutionDate(date)
      case Err(e) => Err(e)
      case Ok(iso) => Ok(seq(|rows|, i requires 0 <= i < |rows| => Stamp(rows[i], iso)))
  }

  /**
   * Each stamped record carries the ISO form of the requested date, which
   * reads back as the day the `dd/mm/YYYY` text names, and keeps every
   * other column with its value.
   */
  lemma StampRowsContents(rows: seq<Record>, date: Value, i: int)
    requires StampRows(rows, date).Ok? && 0 <= i < |rows|
    ensures date.Str? && ParseDMY(date.s).Ok?
    ensures var out := StampRows(rows, date).value[i];
      && EXECUTION_KEY in out && out[EXECUTION_KEY].Str?
      && ParseISO(out[EXECUTION_KEY].s) == ParseDMY(date.s)
      && out.Keys == rows[i].Keys + {EXECUTION_KEY}
      && forall k :: k in rows[i] && k != EXECUTION_KEY ==> out[k] == rows[i][k]
  {
  }

  /** `add_dt_referencia` applied twice with the same date gives the same records. */
  lemma StampRowsIdempotent(rows: seq<Record>, date: Value)
    requires StampRows(rows, date).Ok?
    ensures StampRows(StampRows(rows, date).value, date) == StampRows(rows, date)
  {
    var once := StampRows(rows, date).value;
    if rows != [] {
      var iso := ExecutionDate(date).value;
      var twice := StampRows(once, date).value;
      forall i | 0 <= i < |rows|
        ensures twice[i] == once[i]
      {
        StampTwice(rows[i], iso);
      }
      assert twice == once;
    }
  }

  // ---------------------------------------------------------------------
  // The records as Python dicts, updated in place

  /** A Python dict the stamper updates in place. */
  class Row {
    var fields: Record

    constructor (fields: Record)
      ensures this.fields == fields
    {
      this.fields := fields;
    }
  }

  /** The current contents of a list of dicts. */
  ghost function FieldsOf(rows: seq<Row>): (fs: seq<Record>)
    reads set r | r in rows
    ensures |fs| == |rows|
  {
    seq(|rows|, i requires 0 <= i < |rows| reads rows => rows[i].fields)
  }

  /**
   * `ColDtReferencia.add_dt_referencia(data, date)`: sets `dt_execucao` on
   * each dict of the list, in place, and returns the same list. The same
   * dict may occur in the list more than once; stamping it again is
   * harmless. On a parse error nothing has been changed.
   */
  method AddDtReferencia(data: seq<Row>, date: Value) returns (r: Result<seq<Row>>)
    modifies set x | x in data
    ensures StampRows(old(FieldsOf(data)), date).Err? ==>
      r == Err(StampRows(old(FieldsOf(data)), date).error) && FieldsOf(data) == old(FieldsOf(data))
    ensures StampRows(old(FieldsOf(data)), date).Ok? ==>
      r == Ok(data) && FieldsOf(data) == StampRows(old(FieldsOf(data)), date).value
  {
    var i := 0;
    while i < |data|
      invariant 0 <= i <= |data|
      invariant i > 0 ==> ExecutionDate(date).Ok?
      invariant forall j :: 0 <= j < |data| ==>
        data[j].fields == if i > 0 && data[j] in data[..i]
                          then Stamp(old(data[j].fields), ExecutionDate(date).value)
                          else old(data[j].fields)
    {
      var iso := ExecutionDate(date);
      if iso.Err? {
        return Err(iso.error);
      }
      StampTwice(old(data[i].fields), iso.value);
      data[i].fields := Stamp(data[i].fields, iso.value);
      i := i + 1;
    }
    r := Ok(data);
  }
}
