/**
 * `DateUtil` (src/domain/date.py): the national holiday calendar of the
 * reference year and the walk back from a reference date over a number of
 * business days.
 *
 * The holiday service is reached through a URL; fetching it is a parameter
 * (`fetch`) of the model.
 */
module DateUtil {
  import opened Json
  import opened Digits
  import opened Calendar

  // ---------------------------------------------------------------------
  // build_url

  /** `f"{FERIADOS_URL}/{year}/BR"`. */
  function BuildUrl(base: string, year: nat): (url: string)
    ensures |url| == |base| + |Decimal(year)| + 4
    ensures url[..|base|] == base && url[|base|] == '/'
    ensures url[|base| + 1..|url| - 3] == Decimal(year)
    ensures url[|url| - 3..] == "/BR"
  {
    base + "/" + Decimal(year) + "/BR"
  }

  /** Different years are fetched from different URLs. */
  lemma BuildUrlInjective(base: string, y1: nat, y2: nat)
    requires BuildUrl(base, y1) == BuildUrl(base, y2)
    ensures y1 == y2
  {
    var u1, u2 := BuildUrl(base, y1), BuildUrl(base, y2);
    assert |Decimal(y1)| == |Decimal(y2)|;
    assert Decimal(y1) == u1[|base| + 1..|u1| - 3] == u2[|base| + 1..|u2| - 3] == Decimal(y2);
    DecimalInjective(y1, y2);
  }

  // ---------------------------------------------------------------------
  // feriados

  predicate OccursAt(s: string, t: string, i: int)
    requires 0 <= i <= |t| - |s|
  {
    t[i..i + |s|] == s
  }

  predicate IsSubstring(s: string, t: string)
  {
    exists i | 0 <= i <= |t| - |s| :: OccursAt(s, t, i)
  }

  /** Python's `s in container` for a JSON value. */
  function Contains(container: Value, s: string): (r: Result<bool>)
    ensures container.List? ==> r == Ok(Str(s) in container.items)
    ensures container.Str? ==> r == Ok(IsSubstring(s, container.s))
    ensures container.Dict? ==> r == Ok(s in container.fields)
    ensures container.Null? || container.Bool? || container.Int? ==> r == Err(TypeError)
  {
    match container
    case List(items) => Ok(Str(s) in items)
    case Str(t) => Ok(IsSubstring(s, t))
    case Dict(fields) => Ok(s in fields)
    case _ => Err(TypeError)
  }

  /**
   * The filter of the holiday comprehension:
   * `("Public" in h.get("types", []) or "Bank" in h.get("types", [])) and h.get("global", False)`.
   */
  function Keep(h: Value): (r: Result<bool>)
    ensures !h.Dict? ==> r == Err(AttributeError)
    ensures r.Err? ==> r.error in {AttributeError, TypeError}
    ensures h.Dict? && "types" !in h.fields ==> r == Ok(false)
    ensures h.Dict? && "global" !in h.fields ==> r != Ok(true)
    ensures h.Dict? && "types" in h.fields && h.fields["types"].List? ==>
      r == Ok((Str("Public") in h.fields["types"].items || Str("Bank") in h.fields["types"].items)
              && "global" in h.fields && Truthy(h.fields["global"]))
  {
    match h
    case Dict(m) =>
      var types := Get(m, "types", List([]));
      var global := Truthy(Get(m, "global", Bool(false)));
      (match Contains(types, "Public")
       case Err(e) => Err(e)
       case Ok(isPublic) =>
         if isPublic then Ok(global)
         else
           match Contains(types, "Bank")
           case Err(e) => Err(e)
           case Ok(isBank) => Ok(isBank && global))
    case _ => Err(AttributeError)
  }

  /** What reading the holiday calendar can raise. */
  const CALENDAR_ERRORS: set<Error> :=
    {TypeError, AttributeError, KeyError("date"), KeyError("localName"), ValueError(BadDate)}

  /** The key and value of a kept entry: `pd.Timestamp(h["date"]): h["localName"]`. */
  function Entry(m: Record): (r: Result<(Date, Value)>)
    ensures "date" !in m ==> r == Err(KeyError("date"))
    ensures "date" in m && (m["date"].Bool? || m["date"].List? || m["date"].Dict?) ==> r == Err(TypeError)
    ensures r.Err? ==> r.error in CALENDAR_ERRORS
    ensures r.Ok? ==> "date" in m && m["date"].Str? && ParseISO(m["date"].s) == Ok(r.value.0)
    ensures r.Ok? ==> "localName" in m && r.value.1 == m["localName"]
  {
    if "date" !in m then Err(KeyError("date"))
    else
      var date := m["date"];
      var parsed :=
        if date.Str? then ParseISO(date.s)
        else if date.Bool? || date.List? || date.Dict? then Err(TypeError)
        else Err(ValueError(BadDate));
      if parsed.Err? then Err(parsed.error)
      else if "localName" !in m then Err(KeyError("localName"))
      else Ok((parsed.value, m["localName"]))
  }

  /** Entry h is kept and names day d. */
  predicate KeptOn(h: Value, d: Date)
  {
    Keep(h) == Ok(true) && h.Dict? && Entry(h.fields).Ok? && Entry(h.fields).value.0 == d
  }

  /** The dict comprehension over the entries, in order; a later entry for the same day wins. */
  function Collect(items: seq<Value>, acc: map<Date, Value>): (r: Result<map<Date, Value>>)
    ensures r.Ok? ==> acc.Keys <= r.value.Keys
    ensures r.Ok? ==> forall d :: d in r.value && d !in acc ==> InRange(d)
    ensures r.Err? ==> r.error in CALENDAR_ERRORS
    decreases |items|
  {
    if items == [] then Ok(acc)
    else
      match Keep(items[0])
      case Err(e) => Err(e)
      case Ok(keep) =>
        if !keep then Collect(items[1..], acc)
        else
          match Entry(items[0].fields)
          case Err(e) => Err(e)
          case Ok(entry) => Collect(items[1..], acc[entry.0 := entry.1])
  }

  /**
   * `DateUtil.feriados` on the decoded payload of the holiday service:
   * `for h in data` visits a list's elements, a str's characters and a
   * dict's keys (all str, which have no `get`); None, bool and int are not
   * iterable.
   */
  function Feriados(data: Value): (r: Result<map<Date, Value>>)
    ensures data.Null? || data.Bool? || data.Int? ==> r == Err(TypeError)
    ensures data.Str? ==> r == if data.s == "" then Ok(map[]) else Err(AttributeError)
    ensures data.Dict? ==> r == if data.fields == map[] then Ok(map[]) else Err(AttributeError)
    ensures r.Ok? ==> forall d :: d in r.value ==> InRange(d)
    ensures r.Err? ==> r.error in CALENDAR_ERRORS
  {
    match data
    case List(items) => Collect(items, map[])
    case Str(s) => if s == "" then Ok(map[]) else Err(AttributeError)
    case Dict(fields) => if fields == map[] then Ok(map[]) else Err(AttributeError)
    case _ => Err(TypeError)
  }

  /** The entry items[0] adds to the map, if any. */
  function Step(items: seq<Value>, acc: map<Date, Value>): map<Date, Value>
    requires items != [] && Collect(items, acc).Ok?
  {
    if Keep(items[0]) == Ok(true) then acc[Entry(items[0].fields).value.0 := Entry(items[0].fields).value.1]
    else acc
  }

  lemma CollectUnfold(items: seq<Value>, acc: map<Date, Value>)
    requires items != [] && Collect(items, acc).Ok?
    ensures Collect(items, acc) == Collect(items[1..], Step(items, acc))
    ensures forall x :: x in Step(items, acc) <==> x in acc || KeptOn(items[0], x)
    ensures forall x :: x in acc && !KeptOn(items[0], x) ==> Step(items, acc)[x] == acc[x]
    ensures forall x :: KeptOn(items[0], x) ==> Step(items, acc)[x] == items[0].fields["localName"]
  {
  }

  /** A day is a key of the holiday map exactly when some entry is kept for it. */
  lemma {:induction false} CollectKeys(items: seq<Value>, acc: map<Date, Value>, d: Date)
    requires Collect(items, acc).Ok?
    ensures d in Collect(items, acc).value <==>
      d in acc || exists i :: 0 <= i < |items| && KeptOn(items[i], d)
    decreases |items|
  {
    if items != [] {
      var rest := items[1..];
      CollectUnfold(items, acc);
      CollectKeys(rest, Step(items, acc), d);
      if exists i :: 0 <= i < |rest| && KeptOn(rest[i], d) {
        var i :| 0 <= i < |rest| && KeptOn(rest[i], d);
        assert KeptOn(items[i + 1], d);
      }
      if exists i :: 0 <= i < |items| && KeptOn(items[i], d) {
        var i :| 0 <= i < |items| && KeptOn(items[i], d);
        if i > 0 {
          assert KeptOn(rest[i - 1], d);
        }
      }
    }
  }

  /** The name kept for a day is that of the last entry kept for it. */
  lemma {:induction false} CollectLastWins(items: seq<Value>, acc: map<Date, Value>, d: Date, i: int)
    requires Collect(items, acc).Ok?
    requires 0 <= i < |items| && KeptOn(items[i], d)
    requires forall j :: i < j < |items| ==> !KeptOn(items[j], d)
    ensures d in Collect(items, acc).value
    ensures Collect(items, acc).value[d] == items[i].fields["localName"]
    decreases |items|
  {
    var rest := items[1..];
    CollectUnfold(items, acc);
    if i == 0 {
      CollectKeepsAbsent(rest, Step(items, acc), d);
    } else {
      forall j | i - 1 < j < |rest| ensures !KeptOn(rest[j], d) {
        assert rest[j] == items[j + 1];
      }
      CollectLastWins(rest, Step(items, acc), d, i - 1);
    }
  }

  /** A day no remaining entry is kept for keeps its current name. */
  lemma {:induction false} CollectKeepsAbsent(items: seq<Value>, acc: map<Date, Value>, d: Date)
    requires Collect(items, acc).Ok? && d in acc
    requires forall j :: 0 <= j < |items| ==> !KeptOn(items[j], d)
    ensures d in Collect(items, acc).value && Collect(items, acc).value[d] == acc[d]
    decreases |items|
  {
    if items != [] {
      CollectUnfold(items, acc);
      assert !KeptOn(items[0], d);
      forall j | 0 <= j < |items[1..]| ensures !KeptOn(items[1..][j], d) {
        assert items[1..][j] == items[j + 1];
      }
      CollectKeepsAbsent(items[1..], Step(items, acc), d);
    }
  }

  /** The holiday map of a list payload holds exactly the days of its kept entries. */
  lemma FeriadosKeys(items: seq<Value>, d: Date)
    requires Feriados(List(items)).Ok?
    ensures d in Feriados(List(items)).value <==> exists i :: 0 <= i < |items| && KeptOn(items[i], d)
  {
    CollectKeys(items, map[], d);
  }

  // ---------------------------------------------------------------------
  // date_util: the walk back over business days

  /** Not a Saturday or Sunday, and not a holiday (compared as days). */
  predicate IsBusinessDay(d: Date, holidays: set<Date>)
    ensures !IsBusinessDay(d, holidays) <==> Weekday(d) == 5 || Weekday(d) == 6 || d in holidays
  {
    Weekday(d) < 5 && d !in holidays
  }

  /** The holidays strictly before d: it shrinks, or stays, with every step back. */
  function HolidaysBefore(d: Date, holidays: set<Date>): set<Date>
  {
    set h | h in holidays && Ordinal(h) < Ordinal(d)
  }

  /** 2 on Monday, 1 on Sunday, 0 on Saturday: it falls while a step back stays in a weekend. */
  function WeekendRank(d: Date): nat
  {
    (Weekday(d) + 2) % 7
  }

  /** A step back lowers the weekday by one, modulo 7. */
  lemma PrevWeekday(d: Date)
    requires ValidDate(d)
    ensures Weekday(Prev(d)) == (Weekday(d) + 6) % 7
  {
    WeekdayStep(Ordinal(d));
  }

  /** Day numbers one apart are one weekday apart, modulo 7. */
  lemma WeekdayStep(o: int)
    ensures (o - 1 + 6) % 7 == ((o + 6) % 7 + 6) % 7
  {
  }

  /** The termination measure of the walk falls with every skipped day. */
  lemma StepBackShrinks(d: Date, holidays: set<Date>)
    requires ValidDate(d)
    ensures HolidaysBefore(Prev(d), holidays) <= HolidaysBefore(d, holidays)
    ensures Prev(d) in holidays ==> HolidaysBefore(Prev(d), holidays) < HolidaysBefore(d, holidays)
    ensures Weekday(Prev(d)) >= 5 ==> WeekendRank(Prev(d)) < WeekendRank(d)
  {
    PrevWeekday(d);
    assert Prev(d) in holidays ==> Prev(d) in HolidaysBefore(d, holidays) - HolidaysBefore(Prev(d), holidays);
  }

  /**
   * The loop of `date_util`: step back one day at a time; a Saturday, a
   * Sunday or a holiday is skipped, any other day counts; stop when k days
   * have counted. It ends because the holidays before the current day form
   * a finite set that never grows, and a run of skipped days with no
   * holiday in it is at most a weekend.
   */
  function Walk(d: Date, holidays: set<Date>, k: nat): (r: Date)
    requires ValidDate(d)
    ensures ValidDate(r)
    decreases k, HolidaysBefore(d, holidays), WeekendRank(d)
  {
    if k == 0 then d
    else
      var p := Prev(d);
      if IsBusinessDay(p, holidays) then Walk(p, holidays, k - 1)
      else
        StepBackShrinks(d, holidays);
        Walk(p, holidays, k)
  }

  /** Walking zero days stays put; walking one or more ends strictly earlier. */
  lemma {:induction false} WalkEarlier(d: Date, holidays: set<Date>, k: nat)
    requires ValidDate(d)
    ensures k == 0 ==> Walk(d, holidays, k) == d
    ensures k > 0 ==> Ordinal(Walk(d, holidays, k)) < Ordinal(d)
    decreases k, HolidaysBefore(d, holidays), WeekendRank(d)
  {
    if k > 0 {
      var p := Prev(d);
      if IsBusinessDay(p, holidays) {
        WalkEarlier(p, holidays, k - 1);
      } else {
        StepBackShrinks(d, holidays);
        WalkEarlier(p, holidays, k);
      }
    }
  }

  /** After one or more steps the walk stops on a weekday that is not a holiday. */
  lemma {:induction false} WalkEndsOnBusinessDay(d: Date, holidays: set<Date>, k: nat)
    requires ValidDate(d) && k > 0
    ensures Weekday(Walk(d, holidays, k)) < 5
    ensures Walk(d, holidays, k) !in holidays
    decreases k, HolidaysBefore(d, holidays), WeekendRank(d)
  {
    var p := Prev(d);
    if IsBusinessDay(p, holidays) {
      if k > 1 {
        WalkEndsOnBusinessDay(p, holidays, k - 1);
      }
    } else {
      StepBackShrinks(d, holidays);
      WalkEndsOnBusinessDay(p, holidays, k);
    }
  }

  /** The number of business days in [lo, hi). */
  function BusinessDaysBetween(lo: Date, hi: Date, holidays: set<Date>): nat
    requires ValidDate(hi)
    decreases Ordinal(hi) - Ordinal(lo)
  {
    if Ordinal(hi) <= Ordinal(lo) then 0
    else
      var p := Prev(hi);
      BusinessDaysBetween(lo, p, holidays) + (if IsBusinessDay(p, holidays) then 1 else 0)
  }

  /** Counting over [lo, hi) splits at any day mid in between. */
  lemma {:induction false} BusinessDaysSplit(lo: Date, mid: Date, hi: Date, holidays: set<Date>)
    requires ValidDate(mid) && ValidDate(hi)
    requires Ordinal(lo) <= Ordinal(mid) <= Ordinal(hi)
    ensures BusinessDaysBetween(lo, hi, holidays)
         == BusinessDaysBetween(lo, mid, holidays) + BusinessDaysBetween(mid, hi, holidays)
    decreases Ordinal(hi) - Ordinal(mid)
  {
    if Ordinal(mid) == Ordinal(hi) {
      OrdinalInjective(mid, hi);
    } else {
      BusinessDaysSplit(lo, mid, Prev(hi), holidays);
    }
  }

  /** A business day lo is itself counted in [lo, hi) when lo < hi. */
  lemma {:induction false} BusinessDaysCountsLow(lo: Date, hi: Date, holidays: set<Date>)
    requires ValidDate(lo) && ValidDate(hi) && Ordinal(lo) < Ordinal(hi)
    requires IsBusinessDay(lo, holidays)
    ensures BusinessDaysBetween(lo, hi, holidays) >= 1
    decreases Ordinal(hi) - Ordinal(lo)
  {
    var p := Prev(hi);
    if Ordinal(p) == Ordinal(lo) {
      OrdinalInjective(p, lo);
    } else {
      BusinessDaysCountsLow(lo, p, holidays);
    }
  }

  /** Exactly k business days lie between the end of a k-day walk and its start. */
  lemma {:induction false} WalkCounts(d: Date, holidays: set<Date>, k: nat)
    requires ValidDate(d)
    ensures BusinessDaysBetween(Walk(d, holidays, k), d, holidays) == k
    decreases k, HolidaysBefore(d, holidays), WeekendRank(d)
  {
    if k > 0 {
      var p := Prev(d);
      if IsBusinessDay(p, holidays) {
        WalkCounts(p, holidays, k - 1);
        WalkEarlier(p, holidays, k - 1);
      } else {
        StepBackShrinks(d, holidays);
        WalkCounts(p, holidays, k);
        WalkEarlier(p, holidays, k);
      }
    }
  }

  /**
   * The k-th business day before d, stated without the walk: d itself when
   * k = 0, otherwise a business day r before d with exactly k business
   * days in [r, d).
   */
  predicate IsKthBusinessDayBefore(r: Date, d: Date, holidays: set<Date>, k: nat)
    requires ValidDate(d)
  {
    if k == 0 then r == d
    else
      ValidDate(r) && Ordinal(r) <= Ordinal(d) && IsBusinessDay(r, holidays)
      && BusinessDaysBetween(r, d, holidays) == k
  }

  /** The walk computes the k-th business day before d, and nothing else does. */
  lemma WalkIsKthBusinessDay(d: Date, holidays: set<Date>, k: nat, r: Date)
    requires ValidDate(d)
    ensures IsKthBusinessDayBefore(r, d, holidays, k) <==> r == Walk(d, holidays, k)
  {
    var w := Walk(d, holidays, k);
    WalkEarlier(d, holidays, k);
    WalkCounts(d, holidays, k);
    if k > 0 {
      WalkEndsOnBusinessDay(d, holidays, k);
      assert IsKthBusinessDayBefore(w, d, holidays, k);
      if IsKthBusinessDayBefore(r, d, holidays, k) {
        if Ordinal(r) < Ordinal(w) {
          BusinessDaysSplit(r, w, d, holidays);
          BusinessDaysCountsLow(r, w, holidays);
          assert false;
        } else if Ordinal(w) < Ordinal(r) {
          BusinessDaysSplit(w, r, d, holidays);
          BusinessDaysCountsLow(w, r, holidays);
          assert false;
        }
        OrdinalInjective(r, w);
      }
    }
  }

  /** Walking a days and then b more is walking a + b days. */
  lemma {:induction false} WalkCompose(d: Date, holidays: set<Date>, a: nat, b: nat)
    requires ValidDate(d)
    ensures Walk(Walk(d, holidays, a), holidays, b) == Walk(d, holidays, a + b)
    decreases a, HolidaysBefore(d, holidays), WeekendRank(d)
  {
    if a > 0 {
      var p := Prev(d);
      if IsBusinessDay(p, holidays) {
        WalkCompose(p, holidays, a - 1, b);
      } else {
        StepBackShrinks(d, holidays);
        WalkCompose(p, holidays, a, b);
      }
    }
  }

  /** One more business day back from a k-day walk is the (k+1)-day walk. */
  lemma WalkStep(d: Date, holidays: set<Date>, k: nat)
    requires ValidDate(d)
    ensures Walk(Walk(d, holidays, k), holidays, 1) == Walk(d, holidays, k + 1)
  {
    WalkCompose(d, holidays, k, 1);
  }

  /** The number of days `date_util(dias)` counts: its loop does not run for dias <= 0. */
  function Steps(dias: int): nat
  {
    if dias < 0 then 0 else dias
  }

  /**
   * What `date_util(dias)` returns for a reference day and holiday set:
   * the walk's end as `dd/mm/YYYY`, or OverflowError when the walk would
   * step back from 0001-01-01.
   */
  function BusinessDay(ref: Date, holidays: set<Date>, dias: int): (r: Result<string>)
    requires InRange(ref)
    ensures r.Err? <==> Walk(ref, holidays, Steps(dias)).year < 1
    ensures r.Err? ==> r.error == OverflowError
    ensures r.Ok? ==> ParseDMY(r.value) == Ok(Walk(ref, holidays, Steps(dias)))
    ensures r.Ok? ==> |r.value| == 10 && r.value[2] == '/' && r.value[5] == '/'
    ensures r.Ok? ==> AllDigits(r.value[..2]) && AllDigits(r.value[3..5]) && AllDigits(r.value[6..])
  {
    var w := Walk(ref, holidays, Steps(dias));
    WalkEarlier(ref, holidays, Steps(dias));
    OrdinalOrdersYears(w, ref);
    if w.year >= 1 then ParseFormatDMY(w); FormatDMYDigits(w); Ok(FormatDMY(w)) else Err(OverflowError)
  }

  /**
   * Where the loop of `date_util` stops: with no steps left it returns the
   * current day; with steps left at 0001-01-01 the next step overflows.
   */
  lemma BusinessDayStop(ref: Date, holidays: set<Date>, dias: int, d: Date, rem: nat)
    requires InRange(ref) && InRange(d) && (rem == 0 || d == MIN_DATE)
    requires Walk(d, holidays, rem) == Walk(ref, holidays, Steps(dias))
    ensures BusinessDay(ref, holidays, dias) == if rem == 0 then Ok(FormatDMY(d)) else Err(OverflowError)
  {
    if rem > 0 {
      WalkEarlier(d, holidays, rem);
      OrdinalPositive(Walk(d, holidays, rem));
    }
  }

  /** A skipped day: the walk goes on past it with the same count. */
  lemma WalkSkips(d: Date, p: Date, holidays: set<Date>, k: nat)
    requires ValidDate(d) && k > 0 && Prev(d) == p && !IsBusinessDay(p, holidays)
    ensures Walk(d, holidays, k) == Walk(p, holidays, k)
  {
  }

  /** A business day: the walk counts it. */
  lemma WalkTakes(d: Date, p: Date, holidays: set<Date>, k: nat)
    requires ValidDate(d) && k > 0 && Prev(d) == p && IsBusinessDay(p, holidays)
    ensures Walk(d, holidays, k) == Walk(p, holidays, k - 1)
  {
  }

  /**
   * One iteration of the loop of `date_util`: from a day in range other
   * than 0001-01-01 with steps left, the day before is in range, and the
   * remaining walk continues from it with one step fewer if it counts.
   */
  lemma LoopStep(d: Date, holidays: set<Date>, k: nat, w: Date)
    requires InRange(d) && d != MIN_DATE && k > 0
    requires Walk(d, holidays, k) == w
    ensures InRange(Prev(d)) && Ordinal(d) >= 1
    ensures IsBusinessDay(Prev(d), holidays) ==> Walk(Prev(d), holidays, k - 1) == w
    ensures !IsBusinessDay(Prev(d), holidays) ==> Walk(Prev(d), holidays, k) == w
  {
    OrdinalPositive(d);
    OrdinalPositive(Prev(d));
    if Prev(d).year < 1 {
      OrdinalOrdersYears(d, MIN_DATE);
      assert false;
    }
  }

  /** The holiday map `date_util` uses: the payload fetched for the reference year only. */
  function HolidaysOf(ref: Date, base: string, fetch: string -> Value): (r: Result<map<Date, Value>>)
    requires InRange(ref)
    ensures r.Ok? ==> forall d :: d in r.value ==> InRange(d)
    ensures r.Err? ==> r.error in CALENDAR_ERRORS
  {
    Feriados(fetch(BuildUrl(base, ref.year)))
  }
  /** References in the same year read the same holiday calendar, whatever the day. */
  lemma HolidaysOfYearOnly(ref1: Date, ref2: Date, base: string, fetch: string -> Value)
    requires InRange(ref1) && InRange(ref2) && ref1.year == ref2.year
    ensures HolidaysOf(ref1, base, fetch) == HolidaysOf(ref2, base, fetch)
  {
  }


  // ---------------------------------------------------------------------
  // The reference timestamp

  /** A `datetime`: a day and a time of day in microseconds since midnight. */
  datatype DateTime = DateTime(date: Date, micros: int)

  predicate ValidDateTime(t: DateTime)
  {
    InRange(t.date) && 0 <= t.micros < 86_400_000_000
  }

  /**
   * The loop of `date_util` from a reference day over a holiday set: step
   * back a day at a time and count the business days until `dias` have
   * counted, then format the day reached.
   */
  method WalkBack(ref: Date, holidays: set<Date>, dias: int) returns (r: Result<string>)
    requires InRange(ref)
    ensures r == BusinessDay(ref, holidays, dias)
  {
    ghost var target := Walk(ref, holidays, Steps(dias));
    ghost var rem: nat := Steps(dias);
    var date := ref;
    var count := 0;
    // Stepping back from 0001-01-01 raises OverflowError: the loop stops there.
    while count < dias && date != MIN_DATE
      invariant 0 <= count && rem == Steps(dias) - count
      invariant InRange(date)
      invariant Walk(date, holidays, rem) == target
      decreases Ordinal(date)
    {
      LoopStep(date, holidays, rem, target);
      date := Prev(date);
      if IsBusinessDay(date, holidays) {
        count := count + 1;
        rem := rem - 1;
      }
    }
    BusinessDayStop(ref, holidays, dias, date, rem);
    if count < dias {
      r := Err(OverflowError);
    } else {
      r := Ok(FormatDMY(date));
    }
  }

  /**
   * `DateUtil(ref).date_util(dias)`: fetch the holidays of the reference
   * year (an error there propagates), then walk back. Holidays are compared
   * as days.
   */
  method BusinessDayBefore(ref: DateTime, dias: int, base: string, fetch: string -> Value)
    returns (r: Result<string>)
    requires ValidDateTime(ref)
    ensures HolidaysOf(ref.date, base, fetch).Err? ==> r == Err(HolidaysOf(ref.date, base, fetch).error)
    ensures HolidaysOf(ref.date, base, fetch).Ok? ==>
      r == BusinessDay(ref.date, HolidaysOf(ref.date, base, fetch).value.Keys, dias)
  {
    var feriados := Feriados(fetch(BuildUrl(base, ref.date.year)));
    if feriados.Err? {
      return Err(feriados.error);
    }
    r := WalkBack(ref.date, feriados.value.Keys, dias);
  }

  // ---------------------------------------------------------------------
  // The walk as written: holiday lookup by full timestamp

  /**
   * `pd.Timestamp(date) in feriados`: the keys are midnight timestamps, so
   * a timestamp with a time of day is never found.
   */
  predicate TimestampIsHoliday(t: DateTime, holidays: set<Date>)
    ensures TimestampIsHoliday(t, holidays) ==> t.micros == 0
    ensures t.micros == 0 ==> (TimestampIsHoliday(t, holidays) <==> t.date in holidays)
  {
    t.micros == 0 && t.date in holidays
  }

  /** The loop of `date_util` as written, on the full reference timestamp. */
  function WalkAsWritten(t: DateTime, holidays: set<Date>, k: nat): (r: DateTime)
    requires ValidDate(t.date)
    ensures ValidDate(r.date) && r.micros == t.micros
    decreases k, HolidaysBefore(t.date, holidays), WeekendRank(t.date)
  {
    if k == 0 then t
    else
      var p := DateTime(Prev(t.date), t.micros);
      StepBackShrinks(t.date, holidays);
      if Weekday(p.date) >= 5 then WalkAsWritten(p, holidays, k)
      else if TimestampIsHoliday(p, holidays) then WalkAsWritten(p, holidays, k)
      else WalkAsWritten(p, holidays, k - 1)
  }

  /**
   * The walk as written honours the holidays only for a midnight
   * reference; with any time of day it walks as if there were none.
   */
  lemma {:induction false} WalkAsWrittenIgnoresHolidays(t: DateTime, holidays: set<Date>, k: nat)
    requires ValidDate(t.date)
    ensures WalkAsWritten(t, holidays, k).date == Walk(t.date, if t.micros == 0 then holidays else {}, k)
    decreases k, HolidaysBefore(t.date, holidays), WeekendRank(t.date)
  {
    if k > 0 {
      var p := DateTime(Prev(t.date), t.micros);
      StepBackShrinks(t.date, holidays);
      if Weekday(p.date) >= 5 || TimestampIsHoliday(p, holidays) {
        WalkAsWrittenIgnoresHolidays(p, holidays, k);
      } else {
        WalkAsWrittenIgnoresHolidays(p, holidays, k - 1);
      }
    }
  }

  /**
   * On Friday 2025-11-21 at 10:00 with the national holiday of Thursday
   * 2025-11-20, the walk as written stops on the holiday; the day-level
   * walk stops on Wednesday 2025-11-19.
   */
  lemma TimeOfDayMissesHoliday()
    ensures WalkAsWritten(DateTime(Date(2025, 11, 21), 36_000_000_000), {Date(2025, 11, 20)}, 1).date
         == Date(2025, 11, 20)
    ensures Walk(Date(2025, 11, 21), {Date(2025, 11, 20)}, 1) == Date(2025, 11, 19)
  {
    var h := {Date(2025, 11, 20)};
    assert Weekday(Date(2025, 11, 20)) == 3;
    assert Weekday(Date(2025, 11, 19)) == 2;
    assert Prev(Date(2025, 11, 21)) == Date(2025, 11, 20);
    assert Prev(Date(2025, 11, 20)) == Date(2025, 11, 19);
  }

  // ---------------------------------------------------------------------
  // Worked examples

  /** The weekdays of 13 to 17 November 2025. */
  lemma MidNovember2025Weekdays()
    ensures Weekday(Date(2025, 11, 13)) == 3 && Weekday(Date(2025, 11, 14)) == 4
    ensures Weekday(Date(2025, 11, 15)) == 5 && Weekday(Date(2025, 11, 16)) == 6
  {
    // 2025-11-01 is a Saturday
    assert Weekday(Date(2025, 11, 1)) == 5;
    WeekdayInMonth(Date(2025, 11, 13));
    WeekdayInMonth(Date(2025, 11, 14));
    WeekdayInMonth(Date(2025, 11, 15));
    WeekdayInMonth(Date(2025, 11, 16));
  }

  /** Friday 14/11/2025, when Thursday is no holiday, gives Thursday 13/11/2025. */
  lemma FridayGivesThursday(h: set<Date>)
    requires Date(2025, 11, 13) !in h
    ensures BusinessDay(Date(2025, 11, 14), h, 1) == Ok("13/11/2025")
  {
    MidNovember2025Weekdays();
    WalkTakes(Date(2025, 11, 14), Date(2025, 11, 13), h, 1);
    BusinessDayStop(Date(2025, 11, 14), h, 1, Date(2025, 11, 13), 0);
    FormatDMYExample();
  }

  /** Monday 17/11/2025, when Friday is no holiday, gives Friday 14/11/2025. */
  lemma MondayGivesFriday(h: set<Date>)
    requires Date(2025, 11, 14) !in h
    ensures BusinessDay(Date(2025, 11, 17), h, 1) == Ok(FormatDMY(Date(2025, 11, 14)))
  {
    MidNovember2025Weekdays();
    WalkSkips(Date(2025, 11, 17), Date(2025, 11, 16), h, 1);
    WalkSkips(Date(2025, 11, 16), Date(2025, 11, 15), h, 1);
    WalkTakes(Date(2025, 11, 15), Date(2025, 11, 14), h, 1);
    BusinessDayStop(Date(2025, 11, 17), h, 1, Date(2025, 11, 14), 0);
  }

  /** With dias = 0 the reference day itself comes back. */
  lemma ZeroDaysIsReference(ref: Date, holidays: set<Date>)
    requires InRange(ref)
    ensures BusinessDay(ref, holidays, 0) == Ok(FormatDMY(ref))
  {
  }

  /** The weekdays from Christmas 2024 to 2 January 2025. */
  lemma TurnOfYearWeekdays()
    ensures Weekday(Date(2024, 12, 25)) == 2 && Weekday(Date(2024, 12, 26)) == 3
    ensures Weekday(Date(2024, 12, 27)) == 4 && Weekday(Date(2024, 12, 28)) == 5
    ensures Weekday(Date(2024, 12, 29)) == 6 && Weekday(Date(2024, 12, 30)) == 0
    ensures Weekday(Date(2024, 12, 31)) == 1
  {
    // 2024-12-01 is a Sunday
    assert Weekday(Date(2024, 12, 1)) == 6;
    WeekdayInMonth(Date(2024, 12, 25));
    WeekdayInMonth(Date(2024, 12, 26));
    WeekdayInMonth(Date(2024, 12, 27));
    WeekdayInMonth(Date(2024, 12, 28));
    WeekdayInMonth(Date(2024, 12, 29));
    WeekdayInMonth(Date(2024, 12, 30));
    WeekdayInMonth(Date(2024, 12, 31));
  }

  /**
   * Four business days back from Tuesday 2024-12-31, under any holiday
   * set of 2025: Monday 30 (after the weekend of 28 and 29), Friday 27,
   * Thursday 26 and Christmas Day.
   */
  lemma LastWeekOf2024(h: set<Date>)
    requires forall d :: d in h ==> d.year == 2025
    ensures Walk(Date(2024, 12, 31), h, 4) == Date(2024, 12, 25)
  {
    TurnOfYearWeekdays();
    assert Walk(Date(2024, 12, 25), h, 0) == Date(2024, 12, 25);
    WalkTakes(Date(2024, 12, 26), Date(2024, 12, 25), h, 1);
    WalkTakes(Date(2024, 12, 27), Date(2024, 12, 26), h, 2);
    WalkTakes(Date(2024, 12, 28), Date(2024, 12, 27), h, 3);
    WalkSkips(Date(2024, 12, 29), Date(2024, 12, 28), h, 3);
    WalkSkips(Date(2024, 12, 30), Date(2024, 12, 29), h, 3);
    WalkTakes(Date(2024, 12, 31), Date(2024, 12, 30), h, 4);
  }

  /**
   * The holidays come from the reference year only: five business days
   * back from Thursday 2025-01-02, with 2025's New Year holiday, end on
   * Christmas 2024, which 2025's calendar does not list.
   */
  lemma PreviousYearHolidaysUnseen(h: set<Date>)
    requires Date(2025, 1, 1) in h && forall d :: d in h ==> d.year == 2025
    ensures BusinessDay(Date(2025, 1, 2), h, 5) == Ok(FormatDMY(Date(2024, 12, 25)))
  {
    var xmas := Date(2024, 12, 25);
    LastWeekOf2024(h);
    TurnOfYearWeekdays();
    WalkTakes(Date(2025, 1, 1), Date(2024, 12, 31), h, 5);
    WalkSkips(Date(2025, 1, 2), Date(2025, 1, 1), h, 5);
    BusinessDayStop(Date(2025, 1, 2), h, 5, xmas, 0);
  }
}
