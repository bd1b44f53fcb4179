# Economic-data ETL core, modelled in Dafny

The repository fetches Brazilian economic series (Selic rate, Focus market
expectations, dollar rate, IBGE inflation table, Treasury bonds) and reshapes
them into records. This project models its two pieces of logic:

- **`DateUtil`** (`src/domain/date.py`). It builds the holiday-calendar URL for
  the reference year and filters the calendar payload down to national
  public or bank holidays (`feriados`). It then walks back from a reference
  date one day at a time, skipping Saturdays, Sundays and holidays, until
  `dias` business days have been counted, and formats the day reached as
  `dd/mm/YYYY` (`date_util`).
- **The record transforms and their dispatch** (`src/domain/transform_data.py`):
  - `ColDtReferencia.add_dt_referencia` stamps every record, in place, with
    `dt_execucao`, the requested `dd/mm/YYYY` date rewritten as `YYYY-MM-DD`.
  - `TransformFocusData` queries each indicator for the requested date and
    for the same day one year later. It keeps the last entry of every
    non-empty series, cut down to four columns.
  - `TransformIbgeData` renames the IBGE columns, drops the header row and
    keeps the rows of variables 63 and 2265.
  - `TransformSelicData`, `TransformDolarData` and `TransformTesouroData`
    stamp the fetched payload as it came.
  - `FactoryAPIs.execute_api` picks the transform by name.

Files (one module each):

- `json.dfy` (`Json`): JSON values as Python sees them after `response.json()`, the exceptions, and the `Result`/`Option` wrappers.
- `digits.dfy` (`Digits`): decimal digit strings.
- `calendar.dfy` (`Calendar`): Python's proleptic Gregorian `date`, covering day numbers, weekdays, the previous day, `strptime`/`strftime` for `%d/%m/%Y`, and `YYYY-MM-DD`.
- `date_util.dfy` (`DateUtil`): the `DateUtil` class.
- `col_dt_referencia.dfy` (`ColDtReferencia`): the stamper. It is a spec function on records plus a `Row` class whose fields a method updates in place.
- `focus.dfy` (`TransformFocusData`): the Focus transform. The nested loops are a method proved equal to a spec function.
- `ibge.dfy` (`TransformIbgeData`), `pass_through.dfy` (`PassThrough`) and `factory.dfy` (`FactoryApis`): the remaining transforms and the factory.

External calls are parameters of the model:

- the holiday service is a function from URL to JSON value;
- each market-data API is a function from its query to a JSON value;
- `FERIADOS_URL` is a string parameter.

Exceptions are values of `Json.Error`. Every operation returns a `Result`, so error paths are modelled rather than excluded by a precondition; the few inputs whose Python behaviour the model does not reproduce are listed under "## Left out".

## Model

| member | source | states |
|---|---|---|
| DateUtil.BuildUrl | src/domain/date.py:21-25 | the URL is the base, `/`, the decimal year and `/BR`, each at its own position |
| DateUtil.BuildUrlInjective | src/domain/date.py:21-25 | different years give different URLs |
| DateUtil.Contains | src/domain/date.py:47 | `"Public" in h.get("types", [])`: list membership, dict-key membership, substring test on a string, TypeError on None/bool/number |
| DateUtil.Keep | src/domain/date.py:46-49 | an entry is kept iff its types hold "Public" or "Bank" and `global` is present and truthy; a missing `types` counts as empty, a missing `global` as false; a non-dict entry is an AttributeError |
| DateUtil.Entry | src/domain/date.py:44 | a kept entry maps the day its `date` text names to its `localName`; a missing key is a KeyError; a bool, list or dict `date` is a TypeError; every error is one the calendar can raise |
| DateUtil.Feriados | src/domain/date.py:43-50 | iterating None/bool/number is a TypeError; an empty string or dict gives no holidays, a non-empty one an AttributeError |
| DateUtil.Collect | src/domain/date.py:43-50 | the dict comprehension over the entries never loses a key already collected, adds only days of years 1..9999, and raises only the calendar's errors (AttributeError, TypeError, KeyError for `date`/`localName`, ValueError) |
| DateUtil.CollectUnfold | src/domain/date.py:43-50 | one entry of the comprehension adds its day when kept, and changes nothing else |
| DateUtil.CollectKeys | src/domain/date.py:43-50 | a day is a key of the holiday map iff some payload entry is a kept holiday on that day |
| DateUtil.CollectLastWins | src/domain/date.py:43-50 | the name stored for a day is that of the last kept entry for that day |
| DateUtil.CollectKeepsAbsent | src/domain/date.py:43-50 | a key no later entry touches keeps its value |
| DateUtil.FeriadosKeys | src/domain/date.py:43-50 | the holiday days of a payload list are exactly the days of its kept entries |
| DateUtil.PrevWeekday | src/domain/date.py:64-66 | the day before has the previous weekday |
| DateUtil.IsBusinessDay | src/domain/date.py:66-70 | a day is skipped exactly when it is a Saturday (5), a Sunday (6) or a holiday |
| DateUtil.StepBackShrinks | src/domain/date.py:63-70 | a skipped day lowers either the holidays still ahead or the weekend rank, so the loop terminates |
| DateUtil.Walk | src/domain/date.py:63-72 | the walk back over k business days always reaches a valid date |
| DateUtil.WalkEarlier | src/domain/date.py:63-64 | zero days returns the reference; k >= 1 days gives a strictly earlier day |
| DateUtil.WalkEndsOnBusinessDay | src/domain/date.py:66-70 | for k >= 1 the day reached is Monday to Friday and not a holiday |
| DateUtil.BusinessDaysSplit | src/domain/date.py:61-72 | business days in [lo, hi) add up over a split point |
| DateUtil.BusinessDaysCountsLow | src/domain/date.py:66-72 | a business day at the low end of a non-empty interval is counted |
| DateUtil.WalkCounts | src/domain/date.py:61-72 | exactly k days of [result, reference) are business days |
| DateUtil.WalkIsKthBusinessDay | src/domain/date.py:61-72 | the walk's result is the unique business day r before the reference with exactly k business days in [r, reference); the reference itself for k = 0 |
| DateUtil.WalkCompose | src/domain/date.py:63-72 | walking a days and then b days is walking a + b days |
| DateUtil.WalkStep | src/domain/date.py:63-72 | walking k days and then one more is walking k + 1 days |
| DateUtil.BusinessDay | src/domain/date.py:54-74 | the text returned is ten characters `dd/mm/YYYY` with zero-padded digit fields and reads back as the walk's day; stepping before 0001-01-01 is an OverflowError |
| DateUtil.BusinessDayStop | src/domain/date.py:63-74 | when the loop stops, its day formatted (or the overflow) is the specified result |
| DateUtil.WalkSkips | src/domain/date.py:66-70 | a weekend day or holiday is skipped without counting |
| DateUtil.WalkTakes | src/domain/date.py:72 | a business day counts one |
| DateUtil.LoopStep | src/domain/date.py:63-72 | one loop iteration keeps the remaining walk equal to the target |
| DateUtil.WalkBack | src/domain/date.py:59-74 | the loop returns exactly the specified business day, or the overflow |
| DateUtil.BusinessDayBefore | src/domain/date.py:54-74 | `date_util(dias)` with holidays compared by day (the corrected lookup; see "## Findings"): a failing holiday calendar raises its error; otherwise the business day over the holidays of the reference year only |
| DateUtil.HolidaysOf | src/domain/date.py:25-50 | the holiday days read for a reference are valid dates; failures are the calendar's errors |
| DateUtil.HolidaysOfYearOnly | src/domain/date.py:25-41 | two references in the same year read the same holiday calendar: only the year enters the URL |
| DateUtil.WalkAsWritten | src/domain/date.py:63-72 | the loop as written on a full timestamp keeps the time of day |
| DateUtil.TimestampIsHoliday | src/domain/date.py:69 | a timestamp is found among the midnight holiday keys only at midnight, and then exactly when its day is a holiday |
| DateUtil.WalkAsWrittenIgnoresHolidays | src/domain/date.py:69 | with a time of day, the loop as written walks as if there were no holidays |
| DateUtil.TimeOfDayMissesHoliday | src/domain/date.py:69 | Friday 2025-11-21 10:00 with holiday 2025-11-20 yields the holiday itself; the day-level walk yields 2025-11-19 |
| DateUtil.MidNovember2025Weekdays | src/domain/date.py:66 | 13-16 Nov 2025 are Thursday to Sunday |
| DateUtil.FridayGivesThursday | src/domain/date.py:61-74 | Friday 14/11/2025 with one day and no holiday on the 13th gives "13/11/2025" |
| DateUtil.MondayGivesFriday | src/domain/date.py:61-74 | Monday 17/11/2025 gives the preceding Friday |
| DateUtil.ZeroDaysIsReference | src/domain/date.py:63-74 | with zero days the reference date itself is returned, formatted |
| DateUtil.TurnOfYearWeekdays | src/domain/date.py:66 | weekdays of 25-31 Dec 2024 |
| DateUtil.LastWeekOf2024 | src/domain/date.py:63-72 | 4 business days back from 31/12/2024, holidays all in 2025, gives 25/12/2024 |
| DateUtil.PreviousYearHolidaysUnseen | src/domain/date.py:25 | from 02/01/2025 with 2025's holidays, 5 days back is 25/12/2024: Christmas 2024 is not a holiday to the walk |
| Calendar.Prev | src/domain/date.py:64 | `date - timedelta(days=1)` is the day whose day number is one less |
| Calendar.Weekday | src/domain/date.py:66 | `weekday()` is in 0..6 |
| Calendar.WeekdayInMonth | src/domain/date.py:66 | the weekday advances by one per day of the month |
| Calendar.OrdinalInjective | src/domain/date.py:64 | different valid dates have different day numbers |
| Calendar.OrdinalPositive | src/domain/date.py:64 | day numbers are positive exactly from year 1 on |
| Calendar.OrdinalOrdersYears | src/domain/date.py:64 | an earlier day number is never in a later year |
| Calendar.ParseDMY | src/domain/transform_data.py:19 | `strptime(date, "%d/%m/%Y")`: a date of years 1..9999, or ValueError |
| Calendar.ParseISO | src/domain/date.py:44 | `YYYY-MM-DD` text parsed to a date of years 1..9999, or ValueError |
| Calendar.ParseFormatDMY | src/domain/date.py:74 | `strftime("%d/%m/%Y")` reads back as the same date |
| Calendar.ParseFormatISO | src/domain/transform_data.py:19-21 | `strftime("%Y-%m-%d")` reads back as the same date |
| Calendar.FormatDMY | src/domain/date.py:74 | `strftime("%d/%m/%Y")` is ten characters with `/` at positions 2 and 5 (its round trip is `Calendar.ParseFormatDMY`) |
| Calendar.FormatDMYDigits | src/domain/date.py:74 | `%d`, `%m` and `%Y` are zero-padded: the day, month and year fields are all digits |
| Calendar.FormatISO | src/domain/transform_data.py:19-21 | `strftime("%Y-%m-%d")` is ten characters with `-` at positions 4 and 7 (its round trip is `Calendar.ParseFormatISO`) |
| Calendar.NextYear | src/domain/transform_data.py:36 | `replace(year=year + 1)`: same day and month a year later; a ValueError for 29 February and for year 9999 |
| Calendar.FormatDMYExample | src/domain/date.py:74 | 2025-11-13 is written "13/11/2025" |
| Digits.ParseDecimal | src/domain/date.py:25 | the decimal year text reads back as the year |
| Digits.ParsePadded | src/domain/date.py:74 | a zero-padded field reads back as its number |
| Digits.DecimalInjective | src/domain/date.py:25 | different numbers have different decimal texts |
| Json.FirstMissing | src/domain/transform_data.py:99 | the first key of a list a dict lacks, and that all earlier keys are present |
| Json.Truthy | src/domain/transform_data.py:48 | `not x` (here and in the three pass-through transforms) holds exactly for None, False, 0, "", [] and {} |
| ColDtReferencia.ExecutionDate | src/domain/transform_data.py:19-21 | a TypeError for a non-string; a ValueError iff strptime rejects the text; otherwise ISO text that reads back as the same day |
| ColDtReferencia.Stamp | src/domain/transform_data.py:19 | `dt_execucao` is set; every other column is kept with its value |
| ColDtReferencia.StampTwice | src/domain/transform_data.py:17-22 | stamping twice with the same date equals stamping once |
| ColDtReferencia.StampRows | src/domain/transform_data.py:17-22 | an empty list is returned whatever the date; otherwise every record is stamped, the same length, or the parse error |
| ColDtReferencia.StampRowsContents | src/domain/transform_data.py:17-22 | each stamped record carries the requested day in ISO form and all its other columns |
| ColDtReferencia.StampRowsIdempotent | src/domain/transform_data.py:17-22 | `add_dt_referencia` applied twice with the same date gives the same records |
| ColDtReferencia.AddDtReferencia | src/domain/transform_data.py:17-22 | the loop updates the dicts in place to the stamped records and returns the same list; on a parse error no dict has changed |
| TransformFocusData.New | src/domain/transform_data.py:26-37 | TypeError when indicators is not a list, checked first; otherwise the query dates are exactly the requested text and `strftime("%d/%m/%Y")` of the same day a year later, or the parse/replace ValueError |
| TransformFocusData.Project | src/domain/transform_data.py:58-59 | exactly the four Focus columns, None where the entry lacks one |
| TransformFocusData.LastRecord | src/domain/transform_data.py:48-59 | an empty answer is skipped; a non-empty list gives its last entry projected, or an AttributeError when that entry is not a dict |
| TransformFocusData.PairsLength | src/domain/transform_data.py:42-43 | one query per indicator and date |
| TransformFocusData.PairsAt | src/domain/transform_data.py:42-43 | query number i * dates + j is the i-th indicator with the j-th date: indicator-major order |
| TransformFocusData.RecordsAppend | src/domain/transform_data.py:42-61 | queries run one after another contribute their records in that order |
| TransformFocusData.RecordsFromQueries | src/domain/transform_data.py:42-61 | at most one record per query, each the projected last entry of some query's series |
| TransformFocusData.EmptyFetchesAreSkipped | src/domain/transform_data.py:48-50 | queries whose answers are all empty give no records and no error |
| TransformFocusData.TransformOutput | src/domain/transform_data.py:39-63 | at most 2 × indicators records, each with the four columns plus `dt_execucao` holding the requested date, not the one a year later |
| TransformFocusData.RunTransform | src/domain/transform_data.py:39-66 | the nested loops return exactly the specified stamped records, or the first error |
| TransformFocusData.Records | src/domain/transform_data.py:42-61 | the loops' only uncaught error is the AttributeError of `.get` on a last entry that is not a dict |
| TransformFocusData.Output | src/domain/transform_data.py:39-63 | `transform()`: at most one record per indicator and query date; fails only with that AttributeError or the date's ValueError |
| TransformFocusData.Transform | src/domain/transform_data.py:26-63 | constructor then `transform()`: TypeError when indicators is not a list; otherwise only the date's ValueErrors or the loops' AttributeError |
| TransformFocusData.PairsAppend | src/domain/transform_data.py:42-43 | the queries of two runs of indicators are concatenated |
| TransformFocusData.RecordsErrorStands | src/domain/transform_data.py:52-59 | after an uncaught error no later query matters |
| TransformFocusData.RowPairsSplit | src/domain/transform_data.py:43 | one indicator's queries split after the (j+1)-th date |
| TransformFocusData.PairsCut | src/domain/transform_data.py:42-43 | all queries are those before the i-th indicator, its row, then those after it |
| TransformFocusData.PairsSplit | src/domain/transform_data.py:42-43 | all queries split around the current one |
| TransformFocusData.PrefixFails | src/domain/transform_data.py:42-59 | a query that fails makes the whole transform fail with its error |
| TransformIbgeData.Rename | src/domain/transform_data.py:84-93 | the i-th new column holds the i-th old column when the row has it; no other column survives |
| TransformIbgeData.RenameAll | src/domain/transform_data.py:90-93 | every row renamed, or AttributeError if any row is not a dict |
| TransformIbgeData.Select | src/domain/transform_data.py:99 | exactly the four new columns, or the KeyError of the first one missing |
| TransformIbgeData.Filter | src/domain/transform_data.py:98-102 | the selecting comprehension yields at most one row per input row, each with exactly the four new columns, or a KeyError naming one of them |
| TransformIbgeData.Kept | src/domain/transform_data.py:97-102 | the kept rows are payload rows of variable "63" or "2265" |
| TransformIbgeData.FilterIsKept | src/domain/transform_data.py:97-102 | the selecting comprehension is the selection applied to exactly the rows of the two variables, in order |
| TransformIbgeData.SelectAllOk | src/domain/transform_data.py:98-102 | the selection succeeds iff each kept row has the four columns, and then cuts each down to them, in order |
| TransformIbgeData.SelectAllErr | src/domain/transform_data.py:98-102 | otherwise it raises the KeyError of the first kept row lacking a column |
| TransformIbgeData.SelectRenamed | src/domain/transform_data.py:91-99 | a row with only new columns and all four of them is unchanged by the selection |
| TransformIbgeData.RenamedKeys | src/domain/transform_data.py:90-100 | the renamed rows after the first have no column but the new ones |
| TransformIbgeData.KeptSelected | src/domain/transform_data.py:97-102 | on renamed rows a successful selection returns exactly the kept rows, each with all four columns |
| TransformIbgeData.Transform | src/domain/transform_data.py:74-106 | a non-list payload is a TypeError; a non-dict row, the first included, an AttributeError |
| TransformIbgeData.FirstRowIgnored | src/domain/transform_data.py:100 | payloads that differ only in their first row give the same result |
| TransformIbgeData.TransformOutput | src/domain/transform_data.py:74-106 | the output is, in order, the renamed rows after the first whose variable is 63 or 2265, each with exactly the four new columns, stamped with the requested date |
| PassThrough.RecordsOf | src/domain/transform_data.py:120 | the dicts of a list of dicts, position by position |
| PassThrough.DictsOf | src/domain/transform_data.py:120 | records back as dicts, position by position |
| PassThrough.StampPayload | src/domain/transform_data.py:114-154 | a list of dicts is stamped; an empty list, string or dict comes back as it is; None/bool/number is a TypeError; other payloads raise the date's error or a TypeError |
| PassThrough.Transform | src/domain/transform_data.py:114-154 | `transform()` of Selic, Dolar and Tesouro: an empty list, string or dict fetched is returned as it is; None/bool/number is a TypeError; a successful non-empty result was a list, returned at the same length, and the date parsed |
| PassThrough.TransformKeepsRecords | src/domain/transform_data.py:114-154 | the fetched list comes back the same length, each record stamped and otherwise as fetched |
| PassThrough.EmptyPayloadPassesThrough | src/domain/transform_data.py:117-122 | an empty payload yields an empty result, whatever the date |
| FactoryApis.AsList | src/domain/transform_data.py:163-170 | transform records as the JSON list of their dicts, errors unchanged |
| FactoryApis.ExecuteApi | src/domain/transform_data.py:157-178 | the five names are routed to their transforms with the parameters they read, in order; a missing parameter is a KeyError; any other name is a ValueError |
| FactoryApis.OnlyRequiredParamsMatter | src/domain/transform_data.py:161-172 | parameter maps that agree on the entries an API reads give the same result |
| FactoryApis.SameMissing | src/domain/transform_data.py:161-172 | maps with the same required keys miss the same first one |
| FactoryApis.ErrorsReRaised | src/domain/transform_data.py:173-178 | every error is the unknown-name ValueError, a KeyError for a missing required parameter, or the chosen transform's own error unchanged |

## Left out

- Calendar.FormatDMY: years are written as four zero-padded digits. CPython's `strftime("%Y")` leaves years below 1000 unpadded on some platforms (glibc), and `strptime` then rejects the text; for such years the round trips `Calendar.ParseFormatDMY` and `Calendar.ParseFormatISO` are the model's, not the program's.
- Network access: `DateUtil.fetch_data`, `requests.get` and every `*FetchData` class. `src/infra/fetch_data.py` is not part of this model. Their answers are function parameters, so HTTP errors and timeouts are not modelled.
- Logging: the `logger` calls, including the `len(...)` inside the Selic log line. They are treated as no-ops.
- Lambda and environment glue: `main.py`, S3 writes, `load_dotenv` and reading `FERIADOS_URL`. The URL base is a parameter.
- pandas `Timestamp` range: only years 1..9999 (Python `date`) are modelled, not the narrower nanosecond range pandas allows.
- DateUtil.Entry: a `null` or integer `date` in a holiday entry is modelled as a ValueError. pandas turns `null` into `NaT` (no error; the entry is kept under a key that matches no day) and an integer into the timestamp that many nanoseconds after 1970-01-01; neither is a calendar day of the model's holiday map.
- Holiday dates other than `YYYY-MM-DD`: `Calendar.ParseISO` accepts only that form. Other text is a ValueError in the model, where pandas would accept more forms.
- `strptime` on non-ASCII digits: only ASCII digits are accepted.
- JSON numbers that are not integers: floats are not modelled.
- Dict key order: records are Dafny maps, so key order in the output is not modelled.
- PassThrough.Transform: models the Selic, Dolar and Tesouro payloads as values. It does not capture that the returned list is the very object fetched and updated in place; the in-place update itself is modelled by `ColDtReferencia.AddDtReferencia`.
- TransformFocusData.Transform: the Focus transform returns records as values, so the in-place identity of the result list is not modelled.

## Findings

| source | as written | input that shows it | evidently intended | confidence | as-written member | corrected member |
|---|---|---|---|---|---|---|
| src/domain/date.py:69 | `pd.Timestamp(date) in feriados` compares the full timestamp, time of day included, with midnight holiday keys | reference `datetime.now()` on Friday 2025-11-21 at 10:00, holiday Thursday 2025-11-20, one day: the holiday is returned | holidays are skipped whatever the time of day of the reference | not executed | DateUtil.TimeOfDayMissesHoliday | DateUtil.BusinessDayBefore |
