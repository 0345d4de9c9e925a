# MBDA traffic-incident dashboard, modelled in Dafny

The MBDA dashboard shows traffic incidents from one table, `traffic_incidents`. A PIN gate protects it.

This project models the server and browser logic that decides what the dashboard shows:

- **`GET /api/analytics`.** Builds the `where` filter from the year, the dates, the municipality and the classification. It returns the filtered total and today's total, the classification and municipality breakdowns, seven vehicle counts, the monthly trend, up to 500 map points, the facet lists and the year list.
- **`GET /api/records`.** Serves one page of filtered rows, newest first, with the total and the facets.
- **`GET /api/records/export`.** Produces a CSV of up to 5000 filtered rows in 30 fixed columns.
- **The `middleware`.** Sends a request under `/dashboard` without the `mbda_pin_ok=1` cookie to `/pin?redirect=<path>`.
- **The PIN page.** The shared PIN sets that cookie for eight hours and returns to the page asked for.
- **The records table.** Holds the page, filter and editor state, and builds the query strings for the records and export routes.
- **The map.** Draws markers for located points and one density circle per municipality.
- **The dashboard shell.** Builds the analytics query and holds the tile colour scale, the top-12 heat rows and the pie palette.

How the model represents these:

- The database is a sequence of `Incident` rows.
- The Prisma queries (`count`, `findMany` with `orderBy`/`skip`/`take`, `groupBy`, `distinct`, `aggregate`) are specification functions over that sequence.
- The routes are methods from a query string to a `Result`. A request whose date does not parse is an error, where the server's store query would throw.
- The React components are classes whose fields are the component's state, with one method per handler.
- Clocks (`today`, the current year, the cookie time) are parameters.

Modules:

- **Shared building blocks**
  - `Wrappers`: `Option` and `Result`.
  - `Text`: JavaScript `trim`, ASCII upper-casing, and the `normalize` both routes use.
  - `Numerals`: decimal text.
  - `Calendar`: the accepted date strings, `toISOString`, and the `YYYY-MM` month labels.
  - `Collation`: the code-point order of `sort()` and of PostgreSQL's `ORDER BY` on month labels.
  - `UrlQuery`: the part of `URLSearchParams` the code uses.
  - `Csv`: the export's field quoting, with a reader that inverts it.
- **Data and filters**
  - `Incidents`: rows, `where`, and the store queries.
  - `Filters`: how each route turns parameters into a `where`.
- **Routes**
  - `Analytics`, `Records` and `Export`: the three routes.
- **Pages and components**
  - `Gate`: middleware and PIN page.
  - `Table`: `RecordsTable.tsx`.
  - `IncidentMap`: `Map.tsx`.
  - `Shell`: `DashboardShell.tsx`.

Where the code and its description disagree, the model follows the code. In particular:

- **The export ignores `q`.** The export route never reads `q`, although the table's export link sends it. So the export holds every row matching the other filters, not just the rows shown (`Filters.ExportIsRecordsWithoutSearch`, `Table.ExportMatchesTable`).
- **The heatmap never renders.** The analytics response has no `heatmap` field, so the dashboard's heatmap block never appears. Its colour scale and top-12 selection are modelled on their own inputs.
- **The trend ignores `year`.** The monthly trend query takes `startDate` and `endDate` even when `year` is given. A year filter therefore does not narrow the trend, and a malformed `startDate` still fails the request.

## Model

| member | source | states |
|---|---|---|
| Text.Trim | app/api/records/route.ts:4 | the result has no leading or trailing JavaScript whitespace; it is empty exactly when the input is all whitespace |
| Text.TrimIsSlice | app/api/records/route.ts:4 | `trim()` keeps one contiguous slice of the input and cuts off only whitespace before and after it |
| Text.Upper | app/api/records/route.ts:4 | same length; each ASCII lower-case letter becomes its capital (code 32 lower) and every other character stays as it is |
| Text.Normalize | app/api/analytics/route.ts:64 | `(s ?? '').trim().toUpperCase()` is normalised, and empty exactly for null or an all-whitespace text |
| Text.NormalizeIdempotent | app/api/analytics/route.ts:64 | normalising a normalised value changes nothing |
| Text.TrimUpperCommute | app/api/records/route.ts:37 | trimming then upper-casing equals upper-casing then trimming |
| Text.NormalizeIgnoresCase | app/api/records/route.ts:37 | texts equal up to case normalise to the same key |
| Numerals.NatToString | components/dashboard/RecordsTable.tsx:15 | the decimal text of a number is non-empty digits without a leading zero |
| Numerals.ParseNat | app/api/records/route.ts:8 | a text parses exactly when it is non-empty digits |
| Numerals.NatToStringRoundTrip | app/api/records/route.ts:8 | parsing the decimal text of `n` gives `n` back |
| Numerals.PadDigitsRoundTrip | app/api/records/export/route.ts:40 | a zero-padded field reads back as its number when it fits the width |
| Calendar.ParseDate | app/api/analytics/route.ts:18-19 | accepts exactly `YYYY-MM-DD` and `YYYY-MM-DDTHH:MM:SS` with month 1 to 12, day 1 to 31 and a time before 24:00:00 or exactly 24:00:00, and yields a valid instant |
| Calendar.NextDay | app/api/analytics/route.ts:18 | the day after a valid day is a valid, later day |
| Calendar.NextDayIsNext | app/api/analytics/route.ts:18 | no valid day lies strictly between a day and the next one |
| Calendar.RollOver | app/api/analytics/route.ts:18 | a day within its month is kept; a day past the month's end (February has 29 days in leap years) becomes the matching day of the next month; the result is a real calendar day |
| Calendar.ParseDayText | app/api/analytics/route.ts:18 | a `YYYY-MM-DD` text parses to the start of the day its fields name, rolled over past the month's end |
| Calendar.ParseStampReads | app/api/records/route.ts:19 | a stamp whose fields read a date and a clock parses to that time of the rolled-over day; at 24:00:00 to the start of the next day |
| Calendar.ParseStampText | app/api/records/route.ts:19 | a `YYYY-MM-DDTHH:MM:SS` text with a time before 24:00 parses to that many milliseconds into the rolled-over day |
| Calendar.ParseEndOfDayText | app/api/records/route.ts:19 | a `YYYY-MM-DDT24:00:00` text parses to the start of the day after the rolled-over day |
| Calendar.EndOfYearMidnight | app/api/records/route.ts:19 | `new Date('2024-12-31T24:00:00')` is the start of 1 January 2025 |
| Calendar.OutOfMonthDay | app/api/analytics/route.ts:18 | `new Date('2024-02-31')` is 2 March 2024 |
| Calendar.EndOfDayBound | app/api/records/route.ts:20 | `endDate + 'T23:59:59'` parses exactly when `endDate` is a valid day, and gives the last second of that day |
| Calendar.IsoString | app/api/records/export/route.ts:40 | `toISOString()` is 24 characters starting with the day's `YYYY-MM-DD` |
| Calendar.IsoTimeReadsBack | app/api/records/export/route.ts:40 | the `THH:MM:SS.sssZ` columns of `toISOString()` have their separators in place and recombine into the instant's time of day |
| Calendar.MonthLabel | app/api/analytics/route.ts:33 | `to_char(date_trunc('month', date), 'YYYY-MM')` is seven characters with `-` at index 4 |
| Calendar.DayTextRoundTrip | components/dashboard/RecordsTable.tsx:34 | the `YYYY-MM-DD` text of a day parses back to the start of that day |
| Calendar.PadDigitsOrder | app/api/analytics/route.ts:38 | zero-padded numbers compare as text exactly as they compare as numbers |
| Calendar.MonthLabelOrder | app/api/analytics/route.ts:38 | month labels sort as text in calendar order, and are equal exactly for the same year and month |
| Collation.LessTransitive | app/api/analytics/route.ts:99 | the `sort()` order is transitive |
| Collation.LessTotal | app/api/analytics/route.ts:99 | any two different texts are ordered one way or the other |
| Collation.LessIrreflexive | app/api/analytics/route.ts:99 | no text sorts before itself |
| Collation.SortedDistinct | app/api/records/route.ts:39 | `Array.from(new Set(xs)).sort()` is strictly ascending and holds exactly the elements of `xs` |
| Collation.AscendingUnique | app/api/records/route.ts:39 | two strictly ascending sequences with the same elements are equal |
| Incidents.Select | app/api/records/route.ts:31-32 | the filtered rows are exactly the matching rows of the store, each as often as it is stored |
| Incidents.CountMonotone | app/api/analytics/route.ts:53-59 | a stricter `where` never counts more rows |
| Incidents.SortNewestFirst | app/api/records/route.ts:32 | `orderBy: { date: 'desc' }` is a permutation of its input |
| Incidents.SortNewestFirstSorted | app/api/records/route.ts:32 | the sorted rows have undated rows first, then later dates before earlier ones |
| Incidents.Window | app/api/records/route.ts:32 | `skip`/`take` returns the rows from `skip` on, at most `take` of them, and exactly as many as remain |
| Incidents.WindowsTile | app/api/records/route.ts:32 | two adjacent windows together form the window of their combined length |
| Incidents.FindNewest | app/api/records/route.ts:32 | a page of `findMany` holds only matching stored rows, newest first, and no more than `take` or the filtered total |
| Incidents.FindNewestWindow | app/api/records/route.ts:32 | `findMany` is the window of the sorted filtered rows |
| Incidents.FindNewestTile | app/api/records/route.ts:32 | when no two matching rows share a date, adjacent windows of two `findMany` queries, each free to order ties its own way, join into the double-size window without gap or overlap |
| Incidents.NewestFirstUnique | app/api/records/route.ts:32 | two newest-first orders of the same rows with distinct dates are the same sequence |
| Incidents.AnyOrderIsSorted | app/api/records/route.ts:32 | with distinct dates, every order the store may return for `orderBy: { date: 'desc' }` is the model's sort |
| Incidents.TiedPagesMayRepeat | app/api/records/route.ts:32 | with two rows of the same date, both orders are legal, and page 1 of one with page 2 of the other shows the same row twice |
| Incidents.GroupByKeys | app/api/analytics/route.ts:30-31 | `groupBy` gives each distinct key, null included, once |
| Incidents.GroupByCount | app/api/analytics/route.ts:30-31 | each group's `_count._all` is the number of rows with that key |
| Filters.NumberValue | app/api/analytics/route.ts:14 | `Number(s)` is 0 for blank text, and is a number exactly when the trimmed text is digits |
| Filters.NumberValueOfNumeral | app/api/analytics/route.ts:14 | `Number` reads the decimal text of `n` as `n` |
| Filters.ApplySuppliedDates | app/api/analytics/route.ts:16-20 | sets the range from `startDate`/`endDate` when either is given, and fails exactly when a given date does not parse |
| Filters.BuildAnalyticsWhere | app/api/analytics/route.ts:12-22 | the analytics `where`, with its error cases, is the one `AnalyticsWhere` specifies |
| Filters.BuildRecordsWhere | app/api/records/route.ts:16-28 | the records `where`, with its error cases, is the one `RecordsWhere` specifies |
| Filters.BuildExportWhere | app/api/records/export/route.ts:11-18 | the export `where`, with its error cases, is the one `ExportWhere` specifies |
| Filters.YearOverridesDates | app/api/analytics/route.ts:13-15 | a four-digit `year` sets the range to Jan 1 00:00:00 to Dec 31 23:59:59 of that year, whatever the dates say |
| Filters.OutOfMonthStartDate | app/api/analytics/route.ts:18 | `startDate=2024-02-31` sets the lower bound to 2 March 2024, so a row of 1 March 2024 is excluded |
| Filters.YearBounds | app/api/analytics/route.ts:15 | the two bound texts of a year parse to the first and the last second of that year |
| Filters.SuppliedDatesMeaning | app/api/analytics/route.ts:16-20 | a row passes the supplied dates exactly when it is on or after `startDate` and on or before 23:59:59 of the day `endDate` names |
| Filters.YearEqualsExplicitRange | app/api/analytics/route.ts:13-20 | `year=y` and explicit dates spanning year `y` fail together and otherwise give the same `where` |
| Filters.AnalyticsSentinel | app/api/analytics/route.ts:21-22 | an absent, empty or `all` municipality or classification adds no condition; any other value must match exactly, case included |
| Filters.RecordsConditions | app/api/records/route.ts:17-28 | records match municipality and classification ignoring case; a non-empty `q` keeps exactly the rows whose location, vehicles or type contain it, ignoring case |
| Filters.ExportIsRecordsWithoutSearch | app/api/records/export/route.ts:11-18 | the export filters exactly as the records route does with `q` removed |
| Analytics.Breakdown | app/api/analytics/route.ts:66-74 | the `reduce` into `Object.values` yields one entry per non-blank normalised key, with the summed counts |
| Analytics.FoldGroups | app/api/analytics/route.ts:67-73 | the accumulator holds, for each non-blank key, the sum of its groups' counts |
| Analytics.GroupByFolds | app/api/analytics/route.ts:76-84 | folding the `groupBy` rows gives per name the number of values normalising to it, and in total the number of non-blank values |
| Analytics.BreakdownOfStore | app/api/analytics/route.ts:30-31 | each breakdown entry counts the filtered rows whose value normalises to its name; the names are exactly the non-blank normalised values; the total never exceeds the filtered count |
| Analytics.NamesMeaning | app/api/analytics/route.ts:69 | a name is listed exactly when it is non-empty and some group carries it |
| Analytics.TodayWhere | app/api/analytics/route.ts:29 | the today filter keeps every non-date condition of the request |
| Analytics.TodayMeaning | app/api/analytics/route.ts:24-29 | a row counts towards today exactly when it is dated today and meets the request's other conditions |
| Analytics.TodayIgnoresDates | app/api/analytics/route.ts:29 | today's total does not depend on the request's year, start or end date |
| Analytics.Vehicles | app/api/analytics/route.ts:86-94 | seven entries, in response order, with the labels as id and name |
| Analytics.VehiclesBounded | app/api/analytics/route.ts:52-60 | no vehicle count exceeds the filtered total |
| Analytics.VehicleLabelCounted | app/api/analytics/route.ts:53-59 | a filtered row whose vehicles text is a label is counted under that label |
| Analytics.FacetNames | app/api/analytics/route.ts:96-102 | the facet names are strictly ascending, non-blank and normalised, and are exactly the normalised values of the column |
| Analytics.Facet | app/api/analytics/route.ts:99 | each facet entry is `{ id: name, name }` for the facet names in order |
| Analytics.NonBlankValuesElements | app/api/analytics/route.ts:97-99 | the values kept by `.filter(Boolean)` are exactly the non-blank normalised values |
| Analytics.Earliest | app/api/analytics/route.ts:61 | `_min.date` is a stored date no later than any other, and null exactly when no row is dated |
| Analytics.Latest | app/api/analytics/route.ts:61 | `_max.date` is a stored date no earlier than any other, and null exactly when no row is dated |
| Analytics.YearList | app/api/analytics/route.ts:103-109 | the loop yields `max - min + 1` years counting down from `max`, or none when `max < min` |
| Analytics.YearsCoverStore | app/api/analytics/route.ts:104-105 | every dated row's year lies between the earliest and the latest year listed |
| Analytics.PointsOf | app/api/analytics/route.ts:119 | each point is the reshaping of the row at its position |
| Analytics.PointsOfRows | app/api/analytics/route.ts:119 | reshaping filtered, newest-first rows gives points from filtered rows, still newest first |
| Analytics.Points | app/api/analytics/route.ts:44-49 | at most 500 points, as many as the filtered rows up to that cap, each from a filtered row, newest first |
| Analytics.TrendsOrdered | app/api/analytics/route.ts:38 | month labels ascend and the undated group comes last |
| Analytics.TrendsListed | app/api/analytics/route.ts:32-38 | a month, or the null month, is listed exactly when some row falls in it |
| Analytics.TrendsCounted | app/api/analytics/route.ts:33 | each group's count is the number of rows in its month, and is positive |
| Analytics.TrendsTotal | app/api/analytics/route.ts:32-38 | the trend counts add up to the number of filtered rows |
| Analytics.TrendsChronological | app/api/analytics/route.ts:38 | a row in an earlier trend group is dated in an earlier calendar month than a row in a later group |
| Analytics.HandleAnalytics | app/api/analytics/route.ts:4-121 | the response fails exactly when the `where` or the trend's dates fail; otherwise each field holds its specified value |
| Records.PagingOf | app/api/records/route.ts:8-9 | an accepted page size is at most 200 |
| Records.PagingDefaults | app/api/records/route.ts:8-9 | without `page` and `pageSize`, page 1 of 20 rows is served |
| Records.PageSizeClamped | app/api/records/route.ts:9 | a requested size is served as asked up to 200, and as 200 beyond |
| Records.PageRowsMeaning | app/api/records/route.ts:31-32 | a page holds `pageSize` rows while rows last, fewer on the last page and none past it; all match, newest first |
| Records.PagesFollowEachOther | app/api/records/route.ts:32 | when no two matching rows share a date, page `n` and page `n + 1`, each from its own query, make up the double-size window starting at page `n` |
| Records.NextSkip | app/api/records/route.ts:32 | the next page's `skip` is this page's plus `pageSize` |
| Records.HandleRecords | app/api/records/route.ts:6-44 | fails exactly when the filters or the paging fail; otherwise returns the total, page, size, page rows and facets |
| Csv.Escape | app/api/records/export/route.ts:41 | doubling quotes never shortens a text and never changes whether it needs quoting |
| Csv.ReadFieldOf | app/api/records/export/route.ts:41-43 | a field encoded by `formatCsv` reads back as the original text |
| Csv.ReadRecordOf | app/api/records/export/route.ts:27 | a comma-joined encoded row reads back as its fields |
| Csv.ReadDocumentOf | app/api/records/export/route.ts:26-28 | a newline-joined encoded document reads back as its rows |
| Csv.NeedsQuoteConcat | app/api/records/export/route.ts:42 | a concatenation needs quoting exactly when one of its parts does |
| Csv.EncodePlain | app/api/records/export/route.ts:43 | a text without `"`, `,` or newline is written as it is |
| Export.HandleExport | app/api/records/export/route.ts:4-36 | fails exactly when the filters fail; otherwise the body is the CSV of the newest 5000 filtered rows, with the CSV content type and attachment name |
| Export.CellTexts | app/api/records/export/route.ts:27 | each row has one cell per header |
| Export.HeadersPlain | app/api/records/export/route.ts:23-25 | no header name needs quoting |
| Export.HeaderLineEncodes | app/api/records/export/route.ts:26 | `headers.join(',')` is the encoded header row |
| Export.FormatCsvEncodes | app/api/records/export/route.ts:38-44 | `formatCsv` is the encoding of the cell's text; dates (their ISO text) and null (the empty text) are never quoted |
| Export.DataLineEncodes | app/api/records/export/route.ts:27 | each data line is the encoded row of its cell texts |
| Export.CsvBodyEncodes | app/api/records/export/route.ts:26-28 | the body is the encoded document of the header row followed by the row records |
| Export.ExportReadsBack | app/api/records/export/route.ts:26-28 | reading the body back gives the header names, then each row's cells |
| Export.ExportDocument | app/api/records/export/route.ts:20-28 | the file reads back as the header names and then one record per filtered row, newest first, capped at 5000 |
| UrlQuery.Get | middleware.ts:12 | `get` returns the value of the first pair with that key, and null exactly when there is none |
| UrlQuery.RemoveKey | middleware.ts:12 | after removal, the key is gone and every other key reads as before |
| UrlQuery.Set | middleware.ts:12 | after `set`, the key reads as the new value and every other key reads as before |
| UrlQuery.SetAppends | components/dashboard/RecordsTable.tsx:15 | setting a new key appends exactly one pair |
| UrlQuery.GetAppend | components/dashboard/RecordsTable.tsx:15 | appending a pair changes only the reading of a key not there before |
| UrlQuery.GetKept | components/dashboard/RecordsTable.tsx:73 | every parameter of the built query reads back as its entry's written value |
| UrlQuery.FromEntries | components/dashboard/RecordsTable.tsx:13-15 | the `forEach` of `set` calls builds exactly the pairs of the written entries, in order |
| UrlQuery.ReadBack | components/dashboard/DashboardShell.tsx:19-21 | the entry at a position reads back as its value when written, and as null when dropped |
| UrlQuery.ReadAbsent | components/dashboard/DashboardShell.tsx:19-21 | a key that no entry has reads as null |
| IncidentMap.ValidPoints | components/dashboard/Map.tsx:19-20 | keeps exactly the points that have both coordinates |
| IncidentMap.ValidPointsOne | components/dashboard/Map.tsx:19-20 | a single point is kept exactly when both its coordinates are present |
| IncidentMap.ValidPointsAppend | components/dashboard/Map.tsx:20 | filtering a concatenation is the concatenation of the filtered parts, so order and repeats are kept |
| IncidentMap.Markers | components/dashboard/Map.tsx:26-36 | one marker per located point, in order |
| IncidentMap.ClusterName | components/dashboard/Map.tsx:66 | a cluster name is never empty, and is the municipality name whenever that name is present and non-empty |
| IncidentMap.FirstSeen | components/dashboard/Map.tsx:70 | the cluster names are the distinct names, each once |
| IncidentMap.ClusterByMunicipality | components/dashboard/Map.tsx:63-71 | the loop and `Object.entries` yield exactly `Clusters(points)` |
| IncidentMap.RecordedClusters | components/dashboard/Map.tsx:70 | after every point is read, the accumulator's entries are the clusters |
| IncidentMap.ClustersMeaning | components/dashboard/Map.tsx:63-71 | one cluster per distinct name; each counts the points with its name (at least one) and sits at the first of them |
| IncidentMap.ClustersTotal | components/dashboard/Map.tsx:68 | the cluster counts add up to the number of located points |
| IncidentMap.Radius | components/dashboard/Map.tsx:39 | the radius is the count clamped to 6..24 |
| IncidentMap.RadiusMonotone | components/dashboard/Map.tsx:39 | a larger cluster never gets a smaller circle |
| IncidentMap.Render | components/dashboard/Map.tsx:17-44 | markers for the located points, then one circle per cluster of them |
| Gate.Sent | app/pin/page.tsx:16 | the browser sends exactly the cookies that have not expired, with their values |
| Gate.Middleware | middleware.ts:6-17 | passes exactly paths not under `/dashboard` and requests carrying `mbda_pin_ok=1`; otherwise redirects to `/pin` with `redirect` set to the path and other parameters kept |
| Gate.Guard | middleware.ts:19-21 | paths outside the matcher pass untouched; matched paths go through the middleware |
| Gate.MatchedIsGuarded | middleware.ts:7-9 | a matched request passes exactly when it carries the cookie |
| Gate.RedirectTarget | app/pin/page.tsx:17 | the target is the `redirect` parameter when present and non-empty, `/dashboard` otherwise |
| Gate.Unlock | app/pin/page.tsx:16 | writing the cookie makes `mbda_pin_ok=1` sent at once and leaves other cookies alone |
| Gate.PinForm.constructor | app/pin/page.tsx:10-11 | the form starts empty, with no error |
| Gate.PinForm.Change | app/pin/page.tsx:34 | the field holds what was typed |
| Gate.PinForm.Submit | app/pin/page.tsx:13-22 | the right PIN unlocks and navigates to the redirect target; anything else shows the error and stays |
| Gate.GateRoundTrip | middleware.ts:6-17 | a locked-out request is redirected, the PIN page returns to the same path, and the gate then passes it for the next eight hours |
| Gate.CookieExpires | app/pin/page.tsx:16 | eight hours after unlocking, a matched request is redirected again |
| Table.FetchPagingRead | components/dashboard/RecordsTable.tsx:24 | the records route reads back the table's page and its page size of 20 |
| Table.FetchParamsRead | components/dashboard/RecordsTable.tsx:13-15 | the records route reads back the table's filters as they are, empty strings included |
| Table.ExportParamsRead | components/dashboard/RecordsTable.tsx:71-75 | the export route reads back the link's filters, each left out when empty |
| Table.ExportMatchesTable | components/dashboard/RecordsTable.tsx:81 | the export link selects what the table shows, minus the search |
| Table.PageCount | components/dashboard/RecordsTable.tsx:131 | `max(1, ceil(total / size))` is the least number of pages, at least one, that holds the total |
| Table.NextDisabledOnLastPage | components/dashboard/RecordsTable.tsx:134 | Next is disabled exactly on and past the last page the footer counts |
| Table.EditValuesOf | components/dashboard/RecordsTable.tsx:33-41 | the editor holds exactly the seven fields: each text column's value with null as empty, and the date as `YYYY-MM-DD` or empty |
| Table.EditDateReadsBack | components/dashboard/RecordsTable.tsx:34 | the date the editor shows parses back to the start of the row's day |
| Table.RecordsTable.constructor | components/dashboard/RecordsTable.tsx:22-29 | page 1, the initial filters, and a closed, empty editor |
| Table.RecordsTable.Request | components/dashboard/RecordsTable.tsx:24 | the query sent is `FetchQuery(page, filters)` |
| Table.RecordsTable.ExportLink | components/dashboard/RecordsTable.tsx:71-75 | the export link's query is `ExportQuery(filters)` |
| Table.RecordsTable.SetSearch | components/dashboard/RecordsTable.tsx:85 | the new search, back to page 1, nothing else changed |
| Table.RecordsTable.SetMunicipality | components/dashboard/RecordsTable.tsx:86 | the new municipality, back to page 1, nothing else changed |
| Table.RecordsTable.SetClassification | components/dashboard/RecordsTable.tsx:90 | the new classification, back to page 1, nothing else changed |
| Table.RecordsTable.ClickPrev | components/dashboard/RecordsTable.tsx:133 | nothing while disabled, otherwise one page back but never below 1 |
| Table.RecordsTable.ClickNext | components/dashboard/RecordsTable.tsx:134 | nothing while disabled, otherwise one page on |
| Table.RecordsTable.OpenEdit | components/dashboard/RecordsTable.tsx:31-43 | the row's id and fields are loaded and the editor opens |
| Table.RecordsTable.SetField | components/dashboard/RecordsTable.tsx:45-47 | one field takes the value and the others keep theirs |
| Table.RecordsTable.HandleSave | components/dashboard/RecordsTable.tsx:66-69 | no request without a row being edited; otherwise the PATCH of that row's edited values |
| Table.RecordsTable.OnSuccess | components/dashboard/RecordsTable.tsx:59-63 | the editor closes and forgets the row |
| Table.RecordsTable.CloseEditor | components/dashboard/RecordsTable.tsx:143 | the editor closes, nothing else changes |
| Table.SetFieldOnly | components/dashboard/RecordsTable.tsx:46 | the set field reads back and every other field is as before |
| Shell.SummaryQuery | components/dashboard/DashboardShell.tsx:17-21 | the analytics query holds every filter that is neither undefined nor null, in key order |
| Shell.SummaryParamsRead | components/dashboard/DashboardShell.tsx:17-22 | the analytics route reads back each filter as the page holds it, with no search |
| Shell.OpeningSummary | components/dashboard/DashboardShell.tsx:35 | the opening filters select on the two dates alone |
| Shell.Shade | components/dashboard/DashboardShell.tsx:232-240 | the scale step is 0 exactly below 1 and the darkest exactly from 12 |
| Shell.ColorForCount | components/dashboard/DashboardShell.tsx:232-240 | each count band gets its own red |
| Shell.ColorIsShade | components/dashboard/DashboardShell.tsx:232-240 | the colour is the scale's step for the count, and a larger count is never lighter |
| Shell.LegendShowsScale | components/dashboard/DashboardShell.tsx:198 | the legend's samples show each step but the lightest, in order |
| Shell.TextColour | components/dashboard/DashboardShell.tsx:211 | white text exactly above 6, dark otherwise |
| Shell.WhiteOnDark | components/dashboard/DashboardShell.tsx:211 | white text only on the three darkest steps, and always on the two darkest |
| Shell.InsertDescPerm | components/dashboard/DashboardShell.tsx:204 | inserting adds the row and keeps every other |
| Shell.InsertDescSorted | components/dashboard/DashboardShell.tsx:204 | inserting into a descending list keeps it descending |
| Shell.SortDescMeaning | components/dashboard/DashboardShell.tsx:204 | the sorted copy is descending by count and a permutation of the rows |
| Shell.CutDescending | components/dashboard/DashboardShell.tsx:204 | in a descending list, nothing after a cut counts more than anything before it |
| Shell.TopRowsMeaning | components/dashboard/DashboardShell.tsx:204 | at most twelve rows, largest first, taken from the month's rows; no row left out counts more than a row shown |
| Shell.VehicleColoursDistinct | components/dashboard/DashboardShell.tsx:142-144 | the seven vehicle slices get seven different colours |

## Left out

- Prisma, PostgreSQL and the network are not modelled: the store is an in-memory sequence, and `Promise.all`, JSON serialisation and the response objects are left out.
- The JavaScript `Number` conversion is modelled only for trimmed plain digits and blank text. Signs, fractions, exponents and hexadecimal are treated as invalid.
- Dates are limited to the `YYYY-MM-DD` and `YYYY-MM-DDTHH:MM:SS` forms (including `T24:00:00`) in one fixed time zone. Other strings the JavaScript date parser accepts, such as `YYYY-MM`, a time without seconds, a zone suffix or a year written with fewer than four digits (the year filter's text for a year below 1000), are treated as invalid.
- Calendar.ParseDate: `9999-12-31T24:00:00` is treated as invalid, because its midnight falls in year 10000 and the model's days stop at year 9999.
- `toISOString` and the edited date are only described for years below 10000.
- The server clock is a parameter, and so is the browser clock used for `today`, `monthAgo` (`setMonth`) and the cookie's time. `toLocaleString` in the map popup is left out.
- The key order of `Object.values` and `Object.entries` is modelled as insertion order. Integer-like keys, which JavaScript lists first, are not modelled.
- Municipality names that collide with `Object.prototype` members (`constructor`, `toString`, `__proto__`) are not modelled.
- Coordinates are opaque values. Floating point, the Leaflet icon, the tiles, and the `fitBounds` and resize geometry of `ResizeHandler` are left out.
- Upper-casing covers ASCII letters only.
- Collation.Less: compares Unicode code points, while `sort()` compares UTF-16 code units. A character above U+FFFF is stored as a surrogate pair (0xD800 to 0xDBFF first), so it sorts after U+E000 to U+FFFF here but before them in JavaScript. Texts without such characters sort the same.
- Incidents.FindNewest: PostgreSQL fixes no order among rows with equal dates, and each page query may break ties its own way. `FindNewest` picks one such order. The tiling lemmas (Incidents.FindNewestTile, Records.PagesFollowEachOther) therefore require that no two matching rows share a date; Incidents.TiedPagesMayRepeat shows a row repeated across pages otherwise.
- Middleware redirect: the redirect URL carries only the path. The original query string stays on the `/pin` URL and is not part of the round trip.
- Table.PageCount: requires a positive page size, because with 0 the footer would show `Infinity` or `NaN`. The route never returns a size of 0 for a table request.
- Shell.SortDescMeaning: proves the order and the permutation, not the stability of `Array.prototype.sort` for equal counts.
- The filter setters of the dashboard shell (spread updates of one field) and the loading and `Suspense` display are not modelled separately.
- The `PATCH /api/records/:id` server handler (app/api/records/[id]/route.ts) and the react-query caching and invalidation are not part of this model. `HandleSave` returns the request it would send.
- The heatmap data never arrives from the analytics route, so the heatmap block's rendering is not modelled. Its colour scale and top-12 selection are.
- Csv.ReadDocumentOf: the reader that inverts the encoding is stated for rows of at least two fields, which every exported row has (30 columns).
