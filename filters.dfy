/**
 * From query parameters to a `where` object, as the analytics, records and export routes
 * each build it: a `year` that overrides the date range, inclusive date bounds with the end
 * date stretched to 23:59:59, the `'all'` sentinel, and the free-text `q` search.
 */
module Filters {
  import opened Wrappers
  import opened Numerals
  import opened Calendar
  import opened Text
  import opened Incidents
  import opened UrlQuery

  /** The filter parameters of a request, each as `searchParams.get` returns it. */
  datatype FilterParams = FilterParams(
    startDate: Option<string>,
    endDate: Option<string>,
    year: Option<string>,
    municipality: Option<string>,
    classification: Option<string>,
    q: Option<string>)

  /**
   * A parameter that makes the store query fail, so that the route answers with an error:
   * an Invalid Date reaches Prisma, or `skip` is `NaN` or negative, or `take` is `NaN`.
   */
  datatype RequestError = InvalidStartDate | InvalidEndDate | InvalidYear | InvalidPage | InvalidPageSize

  function ParamsOf(query: Query): FilterParams {
    FilterParams(Get(query, "startDate"), Get(query, "endDate"), Get(query, "year"),
                 Get(query, "municipality"), Get(query, "classification"), Get(query, "q"))
  }

  /** JavaScript truthiness of a parameter: present and not the empty string. */
  predicate Truthy(p: Option<string>) {
    p.Some? && p.value != ""
  }

  /** `p && p !== 'all'`: the parameter picks a value to filter on. */
  predicate Selects(p: Option<string>) {
    Truthy(p) && p.value != "all"
  }

  /** `new Date(endDate + 'T23:59:59')`. */
  function EndBound(endDate: string): Option<Instant> {
    ParseDate(endDate + "T23:59:59")
  }

  /**
   * `Number(s)` on a parameter: surrounding whitespace is ignored, the empty text is 0 and a
   * plain decimal numeral is its value; anything else is `NaN`, which here is `None`.
   */
  function NumberValue(s: string): (r: Option<nat>)
    ensures Trim(s) == [] ==> r == Some(0)
    ensures Trim(s) != [] ==> (r.Some? <==> AllDigits(Trim(s)))
  {
    var t := Trim(s);
    if t == [] then Some(0) else ParseNat(t)
  }

  /** `Number(String(n)) === n`. */
  lemma NumberValueOfNumeral(n: nat)
    ensures NumberValue(NatToString(n)) == Some(n)
  {
    var s := NatToString(n);
    assert !IsSpace(s[0]) && !IsSpace(s[|s| - 1]);
    TrimOfTrimmed(s);
    NatToStringRoundTrip(n);
  }

  /** The text `${y}` for the year parameter, after `Number(year)`. */
  function YearDigits(year: string): Option<string> {
    match NumberValue(year)
    case None => None
    case Some(y) => Some(NatToString(y))
  }

  /** The date range the supplied `startDate`/`endDate` give, or the bound that fails to parse. */
  function SuppliedDates(p: FilterParams): Result<Option<DateRange>, RequestError> {
    if !(Truthy(p.startDate) || Truthy(p.endDate)) then Ok(None)
    else if Truthy(p.startDate) && ParseDate(p.startDate.value).None? then Err(InvalidStartDate)
    else if Truthy(p.endDate) && EndBound(p.endDate.value).None? then Err(InvalidEndDate)
    else Ok(Some(DateRange(
      if Truthy(p.startDate) then ParseDate(p.startDate.value) else None,
      if Truthy(p.endDate) then EndBound(p.endDate.value) else None)))
  }

  /** `{ gte: new Date(`${y}-01-01`), lte: new Date(`${y}-12-31T23:59:59`) }`. */
  function YearRange(year: string): Result<DateRange, RequestError> {
    match YearDigits(year)
    case None => Err(InvalidYear)
    case Some(t) =>
      var gte, lte := ParseDate(t + "-01-01"), ParseDate(t + "-12-31T23:59:59");
      if gte.None? || lte.None? then Err(InvalidYear) else Ok(DateRange(gte, lte))
  }

  /** The analytics route's `where`. */
  function AnalyticsWhere(p: FilterParams): Result<Where, RequestError> {
    var date :=
      if Selects(p.year) then
        match YearRange(p.year.value)
        case Err(e) => Err(e)
        case Ok(range) => Ok(Some(range))
      else SuppliedDates(p);
    match date
    case Err(e) => Err(e)
    case Ok(d) => Ok(Where(d,
      if Selects(p.municipality) then Some(Equals(p.municipality.value)) else None,
      if Selects(p.classification) then Some(Equals(p.classification.value)) else None,
      None, None))
  }

  /** The records route's `where`: no year, case-insensitive equality, and the `q` search. */
  function RecordsWhere(p: FilterParams): Result<Where, RequestError> {
    match SuppliedDates(p)
    case Err(e) => Err(e)
    case Ok(d) => Ok(Where(d,
      if Selects(p.municipality) then Some(EqualsInsensitive(p.municipality.value)) else None,
      if Selects(p.classification) then Some(EqualsInsensitive(p.classification.value)) else None,
      None,
      if Truthy(p.q) then p.q else None))
  }

  /** The export route's `where`: the records route's without `q`. */
  function ExportWhere(p: FilterParams): Result<Where, RequestError> {
    match SuppliedDates(p)
    case Err(e) => Err(e)
    case Ok(d) => Ok(Where(d,
      if Selects(p.municipality) then Some(EqualsInsensitive(p.municipality.value)) else None,
      if Selects(p.classification) then Some(EqualsInsensitive(p.classification.value)) else None,
      None, None))
  }

  /**
   * Sets `where.date` from the supplied bounds, one bound at a time. `failure` names the first
   * bound that is an Invalid Date, which the store query then rejects.
   */
  method ApplySuppliedDates(p: FilterParams, w0: Where) returns (w: Where, failure: Option<RequestError>)
    ensures failure.None? <==> SuppliedDates(p).Ok?
    ensures failure.Some? ==> SuppliedDates(p) == Err(failure.value)
    ensures failure.None? ==> w == w0.(date := if SuppliedDates(p).value.Some? then SuppliedDates(p).value else w0.date)
  {
    w, failure := w0, None;
    if Truthy(p.startDate) || Truthy(p.endDate) {
      w := w.(date := Some(DateRange(None, None)));
      if Truthy(p.startDate) {
        var gte := ParseDate(p.startDate.value);
        if gte.None? { failure := Some(InvalidStartDate); }
        w := w.(date := Some(w.date.value.(gte := gte)));
      }
      if Truthy(p.endDate) {
        var lte := EndBound(p.endDate.value);
        if lte.None? && failure.None? { failure := Some(InvalidEndDate); }
        w := w.(date := Some(w.date.value.(lte := lte)));
      }
    }
  }

  /** Builds the analytics `where` field by field, as the route does. */
  method BuildAnalyticsWhere(p: FilterParams) returns (r: Result<Where, RequestError>)
    ensures r == AnalyticsWhere(p)
  {
    var w := NoConditions;
    var failure: Option<RequestError> := None;
    if Selects(p.year) {
      var range := YearRange(p.year.value);
      if range.Err? { failure := Some(range.error); } else { w := w.(date := Some(range.value)); }
    } else {
      w, failure := ApplySuppliedDates(p, w);
    }
    if Selects(p.municipality) { w := w.(municipality := Some(Equals(p.municipality.value))); }
    if Selects(p.classification) { w := w.(classification := Some(Equals(p.classification.value))); }
    r := if failure.Some? then Err(failure.value) else Ok(w);
  }

  /** Builds the records `where` step by step, ending with the `OR` search clause. */
  method BuildRecordsWhere(p: FilterParams) returns (r: Result<Where, RequestError>)
    ensures r == RecordsWhere(p)
  {
    var w, failure := ApplySuppliedDates(p, NoConditions);
    if Selects(p.municipality) { w := w.(municipality := Some(EqualsInsensitive(p.municipality.value))); }
    if Selects(p.classification) { w := w.(classification := Some(EqualsInsensitive(p.classification.value))); }
    if Truthy(p.q) { w := w.(search := p.q); }
    r := if failure.Some? then Err(failure.value) else Ok(w);
  }

  /** Builds the export `where` step by step. */
  method BuildExportWhere(p: FilterParams) returns (r: Result<Where, RequestError>)
    ensures r == ExportWhere(p)
  {
    var w, failure := ApplySuppliedDates(p, NoConditions);
    if Selects(p.municipality) { w := w.(municipality := Some(EqualsInsensitive(p.municipality.value))); }
    if Selects(p.classification) { w := w.(classification := Some(EqualsInsensitive(p.classification.value))); }
    r := if failure.Some? then Err(failure.value) else Ok(w);
  }

  /** A year of four digits is written by `String(y)` exactly as its zero-padded form. */
  lemma {:induction false} NatToStringPadded(n: nat, width: nat)
    requires width >= 1 && Pow10(width - 1) <= n < Pow10(width)
    ensures NatToString(n) == PadDigits(n, width)
  {
    if n >= 10 {
      assert width >= 2;
      assert Pow10(width - 1) == 10 * Pow10(width - 2);
      NatToStringPadded(n / 10, width - 1);
    }
  }

  /**
   * A four-digit `year` other than `'all'` fixes the range to the whole of that year,
   * from Jan 1 00:00:00 to Dec 31 23:59:59, whatever `startDate` and `endDate` say.
   */
  lemma YearOverridesDates(p: FilterParams, y: nat)
    requires Selects(p.year) && NumberValue(p.year.value) == Some(y) && 1000 <= y <= 9999
    ensures AnalyticsWhere(p).Ok?
    ensures AnalyticsWhere(p).value.date ==
      Some(DateRange(Some(StartOfDay(Day(y, 1, 1))), Some(Instant(Day(y, 12, 31), EndOfDayMs))))
  {
    YearBounds(y);
  }

  /** `${y}-01-01` and `${y}-12-31T23:59:59` for a four-digit year. */
  lemma YearBounds(y: nat)
    requires 1000 <= y <= 9999
    ensures ParseDate(NatToString(y) + "-01-01") == Some(StartOfDay(Day(y, 1, 1)))
    ensures ParseDate(NatToString(y) + "-12-31T23:59:59") == Some(Instant(Day(y, 12, 31), EndOfDayMs))
  {
    var t := NatToString(y);
    YearText4(y);
    assert DayText(Day(y, 1, 1)) == t + "-01-01";
    assert DayText(Day(y, 12, 31)) == t + "-12-31";
    DayTextRoundTrip(Day(y, 1, 1));
    DayTextRoundTrip(Day(y, 12, 31));
    EndOfDayBound(t + "-12-31");
    assert t + "-12-31" + "T23:59:59" == t + "-12-31T23:59:59";
  }

  lemma YearText4(y: nat)
    requires 1000 <= y <= 9999
    ensures YearText(y) == NatToString(y)
  {
    assert Pow10(3) == 1000 && Pow10(4) == 10000;
    NatToStringPadded(y, 4);
  }

  /**
   * Without a year, only the supplied bounds apply: on or after `startDate`, and on or before
   * 23:59:59 of the day `endDate` names.
   */
  lemma SuppliedDatesMeaning(p: FilterParams, r: Incident)
    requires SuppliedDates(p).Ok?
    ensures Truthy(p.endDate) ==> ParseDate(p.endDate.value).Some? && |p.endDate.value| == 10
    ensures var d := SuppliedDates(p).value;
      (d.None? || InRange(r.date, d.value)) <==>
        (Truthy(p.startDate) ==> r.date.Some? && NotAfter(ParseDate(p.startDate.value).value, r.date.value))
        && (Truthy(p.endDate) ==>
              r.date.Some? && NotAfter(r.date.value, Instant(ParseDate(p.endDate.value).value.date, EndOfDayMs)))
  {
    if Truthy(p.endDate) { EndOfDayBound(p.endDate.value); }
  }

  /** A year filter and explicit start and end dates covering that year select the same rows. */
  lemma YearEqualsExplicitRange(p: FilterParams, y: nat)
    ensures var t := NatToString(y);
      var byYear := AnalyticsWhere(p.(year := Some(t)));
      var byDates := AnalyticsWhere(p.(year := None, startDate := Some(t + "-01-01"), endDate := Some(t + "-12-31")));
      (byYear.Ok? <==> byDates.Ok?) && (byYear.Ok? ==> byYear == byDates)
  {
    var t := NatToString(y);
    var byYear := p.(year := Some(t));
    var byDates := p.(year := None, startDate := Some(t + "-01-01"), endDate := Some(t + "-12-31"));
    NumberValueOfNumeral(y);
    assert t != "all" by { assert t[0] != 'a'; }
    assert YearDigits(t) == Some(t);
    assert t + "-12-31" + "T23:59:59" == t + "-12-31T23:59:59";
    var gte, lte := ParseDate(t + "-01-01"), ParseDate(t + "-12-31T23:59:59");
    assert EndBound(t + "-12-31") == lte;
    assert Selects(byYear.year) && !Selects(byDates.year);
    assert Truthy(byDates.startDate) && Truthy(byDates.endDate);
    if gte.Some? && lte.Some? {
      assert YearRange(t) == Ok(DateRange(gte, lte));
      assert SuppliedDates(byDates) == Ok(Some(DateRange(gte, lte)));
    } else {
      assert YearRange(t) == Err(InvalidYear);
      assert SuppliedDates(byDates).Err?;
    }
  }

  /**
   * `startDate=2024-02-31` is read as 2 March 2024, as `new Date` rolls a day past the end of
   * its month into the next one: a row of 1 March 2024 falls before that bound.
   */
  lemma OutOfMonthStartDate(p: FilterParams)
    requires p.startDate == Some("2024-02-31") && !Truthy(p.endDate)
    ensures SuppliedDates(p) == Ok(Some(DateRange(Some(StartOfDay(Day(2024, 3, 2))), None)))
    ensures !NotAfter(StartOfDay(Day(2024, 3, 2)), StartOfDay(Day(2024, 3, 1)))
  {
    OutOfMonthDay();
    StartDateOnly(p);
  }

  lemma StartDateOnly(p: FilterParams)
    requires Truthy(p.startDate) && !Truthy(p.endDate) && ParseDate(p.startDate.value).Some?
    ensures SuppliedDates(p) == Ok(Some(DateRange(ParseDate(p.startDate.value), None)))
  {
  }

  /** An absent, empty or `'all'` municipality or classification adds no condition; any other value is matched exactly. */
  lemma AnalyticsSentinel(p: FilterParams, r: Incident)
    requires AnalyticsWhere(p).Ok?
    ensures var w := AnalyticsWhere(p).value;
      (TextHolds(w.municipality, r.municipality) <==>
        (!Selects(p.municipality) || r.municipality == Some(p.municipality.value)))
      && (TextHolds(w.classification, r.classification) <==>
        (!Selects(p.classification) || r.classification == Some(p.classification.value)))
  {
  }

  /**
   * The records route matches municipality and classification ignoring case, and a non-empty
   * `q` keeps exactly the rows whose location, vehicles or type contain it, ignoring case.
   */
  lemma RecordsConditions(p: FilterParams, r: Incident)
    requires RecordsWhere(p).Ok?
    ensures var w := RecordsWhere(p).value;
      (TextHolds(w.municipality, r.municipality) <==>
        (!Selects(p.municipality) || EqualsIgnoreCase(r.municipality, p.municipality.value)))
      && (TextHolds(w.classification, r.classification) <==>
        (!Selects(p.classification) || EqualsIgnoreCase(r.classification, p.classification.value)))
      && (SearchHolds(w.search, r) <==>
        (!Truthy(p.q) || ContainsIgnoreCase(r.location, p.q.value)
         || ContainsIgnoreCase(r.vehiclesInvolved, p.q.value) || ContainsIgnoreCase(r.kind, p.q.value)))
      && w.date == SuppliedDates(p).value
  {
  }

  /** The export filters exactly as the records route does, minus the `q` search. */
  lemma ExportIsRecordsWithoutSearch(p: FilterParams)
    ensures ExportWhere(p) == RecordsWhere(p.(q := None))
  {
  }
}
