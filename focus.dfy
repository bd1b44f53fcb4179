/**
 * `TransformFocusData`: the market-expectations (Focus) series. The query
 * is built from a list of indicators, a requested `dd/mm/YYYY` date and a
 * series name; the requested date and the same day one year later are the
 * two query dates. For each indicator and each query date the series is
 * fetched, and the last entry of a non-empty series, cut down to four
 * columns, becomes one record. All records are stamped with the requested
 * date.
 */
module TransformFocusData {
  import opened Json
  import opened Calendar
  import opened ColDtReferencia

  /** What the constructor stores: indicators, query dates and series name. */
  datatype FocusQuery = FocusQuery(indicators: seq<Value>, dates: seq<string>, temporalSeries: Value)

  /** The Focus API, as a function of indicator, query date and series name. */
  type Fetch = (Value, string, Value) -> Value

  const FOCUS_KEYS: seq<string> := ["Indicador", "Data", "DataReferencia", "Mediana"]

  /**
   * `TransformFocusData(indicators, date, temporal_series)`: a TypeError
   * unless indicators is a list (checked first); then the date must parse
   * as `dd/mm/YYYY` and the same day must exist one year later.
   */
  function New(indicators: Value, date: Value, temporalSeries: Value): (r: Result<FocusQuery>)
    ensures !indicators.List? ==> r == Err(TypeError)
    ensures indicators.List? && !date.Str? ==> r == Err(TypeError)
    ensures indicators.List? && date.Str? && ParseDMY(date.s).Err? ==> r == Err(ValueError(BadDate))
    ensures indicators.List? && date.Str? && ParseDMY(date.s).Ok? ==>
      var d := ParseDMY(date.s).value;
      r.Ok? <==> !(d.month == 2 && d.day == 29) && d.year < 9999
    ensures r.Err? ==> r.error in {TypeError, ValueError(BadDate), ValueError(DateOutOfRange)}
    ensures r.Ok? ==>
      && indicators.List? && date.Str? && ParseDMY(date.s).Ok?
      && r.value.indicators == indicators.items && r.value.temporalSeries == temporalSeries
      && |r.value.dates| == 2 && r.value.dates[0] == date.s
      && var d := ParseDMY(date.s).value;
         && ParseDMY(r.value.dates[1]) == Ok(Date(d.year + 1, d.month, d.day))
         && r.value.dates[1] == FormatDMY(Date(d.year + 1, d.month, d.day))
  {
    if !indicators.List? then Err(TypeError)
    else if !date.Str? then Err(TypeError)
    else
      match ParseDMY(date.s)
      case Err(e) => Err(e)
      case Ok(d) =>
        match NextYear(d)
        case Err(e) => Err(e)
        case Ok(n) =>
          ParseFormatDMY(n);
          Ok(FocusQuery(indicators.items, [date.s, FormatDMY(n)], temporalSeries))
  }

  /** `{key: entry.get(key) for key in keys}`: exactly the four columns, None where missing. */
  function Project(entry: Record): (p: Record)
    ensures p.Keys == set k | k in FOCUS_KEYS
    ensures forall k :: k in p ==> p[k] == Get(entry, k, Null)
  {
    map k | k in FOCUS_KEYS :: Get(entry, k, Null)
  }

  /**
   * The record one fetched series contributes. An empty (falsy) answer is
   * skipped. `fetch_data[-1]` fails, and the answer is skipped, on a dict
   * (no key -1) and on a number or bool; on a string it gives the last
   * character, and `.get` on anything but a dict is an AttributeError,
   * which is not caught.
   */
  function LastRecord(fetched: Value): (r: Result<Option<Record>>)
    ensures !Truthy(fetched) ==> r == Ok(None)
    ensures r.Err? ==> r.error == AttributeError
    ensures r.Ok? && r.value.Some? ==>
      && fetched.List? && |fetched.items| > 0
      && fetched.items[|fetched.items| - 1].Dict?
      && r.value.value == Project(fetched.items[|fetched.items| - 1].fields)
    ensures fetched.List? && |fetched.items| > 0 ==>
      (r.Ok? <==> fetched.items[|fetched.items| - 1].Dict?) && (r.Ok? ==> r.value.Some?)
  {
    if !Truthy(fetched) then Ok(None)
    else
      match fetched
      case List(items) =>
        var last := items[|items| - 1];
        if last.Dict? then Ok(Some(Project(last.fields))) else Err(AttributeError)
      case Str(_) => Err(AttributeError)
      case _ => Ok(None)
  }

  /** The (indicator, date) pairs one indicator is queried with, in date order. */
  function RowPairs(indicator: Value, dates: seq<string>): (ps: seq<(Value, string)>)
    ensures |ps| == |dates| && forall j :: 0 <= j < |dates| ==> ps[j] == (indicator, dates[j])
  {
    seq(|dates|, j requires 0 <= j < |dates| => (indicator, dates[j]))
  }

  /** All queries of the nested loops: indicator-major, then date order. */
  function Pairs(indicators: seq<Value>, dates: seq<string>): seq<(Value, string)>
  {
    if indicators == [] then []
    else Pairs(indicators[..|indicators| - 1], dates) + RowPairs(indicators[|indicators| - 1], dates)
  }

  /** One query per indicator and date. */
  lemma {:induction false} PairsLength(indicators: seq<Value>, dates: seq<string>)
    ensures |Pairs(indicators, dates)| == |indicators| * |dates|
  {
    if indicators != [] {
      var n := |indicators| - 1;
      PairsLength(indicators[..n], dates);
      assert |indicators| * |dates| == n * |dates| + |dates|;
    }
  }

  /**
   * Indicator-major order: the query for the i-th indicator and the j-th
   * date is number i * |dates| + j.
   */
  lemma {:induction false} PairsAt(indicators: seq<Value>, dates: seq<string>, i: nat, j: nat)
    requires i < |indicators| && j < |dates|
    ensures i * |dates| + j < |Pairs(indicators, dates)|
    ensures Pairs(indicators, dates)[i * |dates| + j] == (indicators[i], dates[j])
  {
    var n := |indicators| - 1;
    var front := indicators[..n];
    var m := |dates|;
    PairsLength(front, dates);
    assert |Pairs(indicators, dates)| == n * m + m;
    if i < n {
      PairsAt(front, dates, i, j);
      assert front[i] == indicators[i];
    } else {
      assert i * m + j == n * m + j;
    }
  }

  /**
   * The records the loops collect over a sequence of queries, in order:
   * a fetch that yields nothing is skipped; an error stops everything.
   */
  function Records(pairs: seq<(Value, string)>, temporalSeries: Value, fetch: Fetch): (r: Result<seq<Record>>)
    ensures r.Err? ==> r.error == AttributeError
  {
    if pairs == [] then Ok([])
    else
      match Records(pairs[..|pairs| - 1], temporalSeries, fetch)
      case Err(e) => Err(e)
      case Ok(rows) =>
        var (indicator, date) := pairs[|pairs| - 1];
        match LastRecord(fetch(indicator, date, temporalSeries))
        case Err(e) => Err(e)
        case Ok(None) => Ok(rows)
        case Ok(Some(row)) => Ok(rows + [row])
  }

  /** Queries done one after another contribute their records one after another. */
  lemma {:induction false} RecordsAppend(a: seq<(Value, string)>, b: seq<(Value, string)>, temporalSeries: Value, fetch: Fetch)
    requires Records(a, temporalSeries, fetch).Ok?
    ensures Records(a + b, temporalSeries, fetch) ==
      match Records(b, temporalSeries, fetch)
      case Err(e) => Err(e)
      case Ok(rows) => Ok(Records(a, temporalSeries, fetch).value + rows)
    decreases |b|
  {
    if b != [] {
      var n := |b| - 1;
      assert (a + b)[..|a + b| - 1] == a + b[..n];
      assert (a + b)[|a + b| - 1] == b[n];
      RecordsAppend(a, b[..n], temporalSeries, fetch);
      var before := Records(a, temporalSeries, fetch).value;
      match Records(b[..n], temporalSeries, fetch)
      case Err(e) =>
      case Ok(rows) =>
        match LastRecord(fetch(b[n].0, b[n].1, temporalSeries))
        case Err(e) =>
        case Ok(None) =>
        case Ok(Some(row)) =>
          assert before + rows + [row] == before + (rows + [row]);
    } else {
      assert a + b == a;
      assert Records(a, temporalSeries, fetch).value + [] == Records(a, temporalSeries, fetch).value;
    }
  }

  /**
   * At most one record per query, and each record is the projected last
   * entry of the series fetched by one of the queries.
   */
  lemma {:induction false} RecordsFromQueries(pairs: seq<(Value, string)>, temporalSeries: Value, fetch: Fetch)
    requires Records(pairs, temporalSeries, fetch).Ok?
    ensures |Records(pairs, temporalSeries, fetch).value| <= |pairs|
    ensures forall k :: 0 <= k < |Records(pairs, temporalSeries, fetch).value| ==>
      exists p :: p in pairs &&
        LastRecord(fetch(p.0, p.1, temporalSeries)) == Ok(Some(Records(pairs, temporalSeries, fetch).value[k]))
  {
    if pairs != [] {
      var front := pairs[..|pairs| - 1];
      RecordsFromQueries(front, temporalSeries, fetch);
      var rows := Records(pairs, temporalSeries, fetch).value;
      var before := Records(front, temporalSeries, fetch).value;
      forall k | 0 <= k < |rows|
        ensures exists p :: p in pairs && LastRecord(fetch(p.0, p.1, temporalSeries)) == Ok(Some(rows[k]))
      {
        if k < |before| {
          var p :| p in front && LastRecord(fetch(p.0, p.1, temporalSeries)) == Ok(Some(before[k]));
          assert p in pairs;
        } else {
          assert pairs[|pairs| - 1] in pairs;
        }
      }
    }
  }

  /** When every fetch comes back empty, no record is collected and nothing fails. */
  lemma {:induction false} EmptyFetchesAreSkipped(pairs: seq<(Value, string)>, temporalSeries: Value, fetch: Fetch)
    requires forall p :: p in pairs ==> !Truthy(fetch(p.0, p.1, temporalSeries))
    ensures Records(pairs, temporalSeries, fetch) == Ok([])
  {
    if pairs != [] {
      var front := pairs[..|pairs| - 1];
      assert forall p :: p in front ==> p in pairs;
      EmptyFetchesAreSkipped(front, temporalSeries, fetch);
      assert pairs[|pairs| - 1] in pairs;
    }
  }

  /**
   * `transform()`: the records of all queries, stamped with the first
   * query date, which is the requested one.
   */
  function Output(q: FocusQuery, fetch: Fetch): (r: Result<seq<Record>>)
    requires |q.dates| >= 1
    ensures r.Ok? ==> |r.value| <= |q.indicators| * |q.dates|
    ensures r.Err? ==> r.error in {AttributeError, ValueError(BadDate)}
  {
    match Records(Pairs(q.indicators, q.dates), q.temporalSeries, fetch)
    case Err(e) => Err(e)
    case Ok(rows) =>
      RecordsFromQueries(Pairs(q.indicators, q.dates), q.temporalSeries, fetch);
      PairsLength(q.indicators, q.dates);
      StampRows(rows, Str(q.dates[0]))
  }

  /** `TransformFocusData(indicators, date, temporal_series).transform()`. */
  function Transform(indicators: Value, date: Value, temporalSeries: Value, fetch: Fetch): (r: Result<seq<Record>>)
    ensures !indicators.List? ==> r == Err(TypeError)
    ensures r.Err? ==> r.error in {TypeError, ValueError(BadDate), ValueError(DateOutOfRange), AttributeError}
  {
    match New(indicators, date, temporalSeries)
    case Err(e) => Err(e)
    case Ok(q) => Output(q, fetch)
  }

  /**
   * A successful Focus transform gives at most two records per indicator
   * (one per query date); each has the four Focus columns plus the
   * execution date, which is the requested date, not the one a year later.
   */
  lemma {:induction false} TransformOutput(indicators: Value, date: Value, temporalSeries: Value, fetch: Fetch)
    requires Transform(indicators, date, temporalSeries, fetch).Ok?
    ensures indicators.List? && date.Str? && ExecutionDate(date).Ok?
    ensures var out := Transform(indicators, date, temporalSeries, fetch).value;
      && |out| <= 2 * |indicators.items|
      && forall k :: 0 <= k < |out| ==>
           && out[k].Keys == (set key | key in FOCUS_KEYS) + {EXECUTION_KEY}
           && out[k][EXECUTION_KEY] == Str(ExecutionDate(date).value)
  {
    var q := New(indicators, date, temporalSeries).value;
    var pairs := Pairs(q.indicators, q.dates);
    var rows := Records(pairs, q.temporalSeries, fetch).value;
    RecordsFromQueries(pairs, q.temporalSeries, fetch);
    PairsLength(q.indicators, q.dates);
    var out := Transform(indicators, date, temporalSeries, fetch).value;
    assert out == StampRows(rows, date).value;
    if rows != [] {
      forall k | 0 <= k < |out|
        ensures out[k].Keys == (set key | key in FOCUS_KEYS) + {EXECUTION_KEY}
      {
        var p :| p in pairs && LastRecord(fetch(p.0, p.1, temporalSeries)) == Ok(Some(rows[k]));
        assert out[k] == Stamp(rows[k], ExecutionDate(date).value);
      }
    }
  }

  /**
   * The loops of `transform()`: for each indicator, for each query date,
   * fetch; skip an empty answer; keep the projected last entry; finally
   * stamp the collected records.
   */
  method RunTransform(q: FocusQuery, fetch: Fetch) returns (r: Result<seq<Record>>)
    requires |q.dates| >= 1
    ensures r == Output(q, fetch)
  {
    var result: seq<Record> := [];
    var i := 0;
    while i < |q.indicators|
      invariant 0 <= i <= |q.indicators|
      invariant Records(Pairs(q.indicators[..i], q.dates), q.temporalSeries, fetch) == Ok(result)
    {
      var indicator := q.indicators[i];
      var j := 0;
      assert Pairs(q.indicators[..i], q.dates) + RowPairs(indicator, q.dates[..0]) == Pairs(q.indicators[..i], q.dates);
      while j < |q.dates|
        invariant 0 <= j <= |q.dates|
        invariant Records(Pairs(q.indicators[..i], q.dates) + RowPairs(indicator, q.dates[..j]), q.temporalSeries, fetch)
               == Ok(result)
      {
        var date := q.dates[j];
        var fetched := fetch(indicator, date, q.temporalSeries);
        ghost var done := Pairs(q.indicators[..i], q.dates) + RowPairs(indicator, q.dates[..j]);
        assert (done + [(indicator, date)])[..|done|] == done;
        assert Pairs(q.indicators[..i], q.dates) + RowPairs(indicator, q.dates[..j + 1]) == done + [(indicator, date)];
        if Truthy(fetched) {
          var last := LastRecord(fetched);
          if last.Err? {
            PrefixFails(done + [(indicator, date)], Pairs(q.indicators, q.dates), q.temporalSeries, fetch,
                        q.indicators, i, q.dates, j);
            return Err(last.error);
          }
          if last.value.Some? {
            result := result + [last.value.value];
          }
        }
        j := j + 1;
      }
      assert q.indicators[..i + 1][..i] == q.indicators[..i];
      assert q.dates[..j] == q.dates;
      i := i + 1;
    }
    assert q.indicators[..i] == q.indicators;
    r := StampRows(result, Str(q.dates[0]));
  }

  /** The queries of two runs of indicators, one after the other. */
  lemma {:induction false} PairsAppend(a: seq<Value>, b: seq<Value>, dates: seq<string>)
    ensures Pairs(a + b, dates) == Pairs(a, dates) + Pairs(b, dates)
    decreases |b|
  {
    if b == [] {
      assert a + b == a;
    } else {
      var n := |b| - 1;
      assert (a + b)[..|a + b| - 1] == a + b[..n];
      assert (a + b)[|a + b| - 1] == b[n];
      PairsAppend(a, b[..n], dates);
    }
  }

  /** Once a query fails, later queries are never made: the error stands. */
  lemma {:induction false} RecordsErrorStands(a: seq<(Value, string)>, b: seq<(Value, string)>, temporalSeries: Value, fetch: Fetch)
    requires Records(a, temporalSeries, fetch).Err?
    ensures Records(a + b, temporalSeries, fetch) == Records(a, temporalSeries, fetch)
    decreases |b|
  {
    if b == [] {
      assert a + b == a;
    } else {
      var n := |b| - 1;
      assert (a + b)[..|a + b| - 1] == a + b[..n];
      RecordsErrorStands(a, b[..n], temporalSeries, fetch);
    }
  }

  /** A row of queries cut after its (j+1)-th date. */
  lemma RowPairsSplit(indicator: Value, dates: seq<string>, j: nat)
    requires j < |dates|
    ensures RowPairs(indicator, dates) == RowPairs(indicator, dates[..j + 1]) + RowPairs(indicator, dates[j + 1..])
  {
  }

  /** All queries: those of the indicators before the i-th, its row, and those after it. */
  lemma PairsCut(indicators: seq<Value>, i: nat, dates: seq<string>)
    requires i < |indicators|
    ensures Pairs(indicators, dates) ==
      (Pairs(indicators[..i], dates) + RowPairs(indicators[i], dates)) + Pairs(indicators[i + 1..], dates)
  {
    var upto := indicators[..i + 1];
    var rest := indicators[i + 1..];
    assert indicators == upto + rest;
    PairsAppend(upto, rest, dates);
    assert upto[..|upto| - 1] == indicators[..i];
    assert upto[|upto| - 1] == indicators[i];
  }

  /**
   * All queries, cut right after the one for the i-th indicator and the
   * j-th date.
   */
  lemma PairsSplit(indicators: seq<Value>, i: nat, dates: seq<string>, j: nat)
    requires i < |indicators| && j < |dates|
    ensures Pairs(indicators, dates) ==
      (Pairs(indicators[..i], dates) + RowPairs(indicators[i], dates[..j + 1]))
      + (RowPairs(indicators[i], dates[j + 1..]) + Pairs(indicators[i + 1..], dates))
  {
    PairsCut(indicators, i, dates);
    RowPairsSplit(indicators[i], dates, j);
    var p, r1, r2, t := Pairs(indicators[..i], dates), RowPairs(indicators[i], dates[..j + 1]),
      RowPairs(indicators[i], dates[j + 1..]), Pairs(indicators[i + 1..], dates);
    Regroup(p, r1, r2, t);
  }

  lemma Regroup<T>(p: seq<T>, r1: seq<T>, r2: seq<T>, t: seq<T>)
    ensures (p + (r1 + r2)) + t == (p + r1) + (r2 + t)
  {
  }

  /** A query that fails makes the whole Focus transform fail with its error. */
  lemma PrefixFails(done: seq<(Value, string)>, all: seq<(Value, string)>, temporalSeries: Value, fetch: Fetch,
                    indicators: seq<Value>, i: nat, dates: seq<string>, j: nat)
    requires i < |indicators| && j < |dates|
    requires done == Pairs(indicators[..i], dates) + RowPairs(indicators[i], dates[..j + 1])
    requires all == Pairs(indicators, dates)
    requires Records(done, temporalSeries, fetch).Err?
    ensures Records(all, temporalSeries, fetch) == Records(done, temporalSeries, fetch)
  {
    PairsSplit(indicators, i, dates, j);
    RecordsErrorStands(done, RowPairs(indicators[i], dates[j + 1..]) + Pairs(indicators[i + 1..], dates), temporalSeries, fetch);
  }
}
