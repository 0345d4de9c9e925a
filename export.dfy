/**
 * `GET /api/records/export`: up to 5000 filtered rows, newest first, as a CSV document with a
 * fixed header line of 30 column names.
 */
module Export {
  import opened Wrappers
  import opened Numerals
  import opened Calendar
  import opened Incidents
  import opened Filters
  import opened UrlQuery
  import opened Csv

  /** The header line's column names, in order. */
  const Headers: seq<string> := [
    "id", "date", "time", "type", "classification", "location", "municipality", "district", "barangay",
    "vehicles_involved", "vehicle_counts", "narratives", "sector", "status_update", "lanes_update",
    "lanes_affected", "team", "toc_patrol", "delta_1", "tl", "atl", "roadwork_update",
    "stranded_vehicle_report", "accident_report", "created_at", "updated_at", "images", "response_time",
    "latitude", "longitude"]

  const ExportLimit: nat := 5000
  const ContentType: string := "text/csv; charset=utf-8"
  const ContentDisposition: string := "attachment; filename=\"traffic_incidents_export.csv\""

  /** `r[h]`: the value of column `h` of the row; a column the row lacks is `undefined`, here null. */
  function Column(r: Incident, h: string): Value {
    match h
    case "id" => Str(NatToString(r.id))
    case "date" => if r.date.Some? then Stamp(r.date.value) else Null
    case "time" => TextValue(r.time)
    case "type" => TextValue(r.kind)
    case "classification" => TextValue(r.classification)
    case "location" => TextValue(r.location)
    case "municipality" => TextValue(r.municipality)
    case "vehicles_involved" => TextValue(r.vehiclesInvolved)
    case "latitude" => if r.latitude.Some? then Str(r.latitude.value.text) else Null
    case "longitude" => if r.longitude.Some? then Str(r.longitude.value.text) else Null
    case _ => if h in r.others then r.others[h] else Null
  }

  function TextValue(s: Option<string>): Value {
    if s.Some? then Str(s.value) else Null
  }

  /** `formatCsv(v)`: null is empty, a date is its ISO text, anything else its quoted-if-needed text. */
  function FormatCsv(v: Value): string {
    match v
    case Null => ""
    case Stamp(t) => IsoString(t)
    case Str(s) => Encode(s)
  }

  /** The text a cell stands for: what a reader of the document gets back. */
  function CellText(v: Value): string {
    match v
    case Null => ""
    case Stamp(t) => IsoString(t)
    case Str(s) => s
  }

  /** One data line: `headers.map(h => formatCsv(r[h])).join(',')`. */
  function DataLine(r: Incident): string {
    JoinFields(seq(|Headers|, i requires 0 <= i < |Headers| => FormatCsv(Column(r, Headers[i]))))
  }

  /** `[headers.join(',')].concat(rows.map(...)).join('\n')`. */
  function CsvBody(rows: seq<Incident>): string {
    JoinLines([JoinFields(Headers)] + seq(|rows|, i requires 0 <= i < |rows| => DataLine(rows[i])))
  }

  /** The rows exported: `findMany({ where, orderBy: { date: 'desc' }, take: 5000 })`. */
  function ExportRows(store: seq<Incident>, w: Where): seq<Incident> {
    FindNewest(store, w, 0, ExportLimit)
  }

  datatype CsvResponse = CsvResponse(body: string, contentType: string, contentDisposition: string)

  /** `GET /api/records/export?...`. */
  method HandleExport(store: seq<Incident>, query: Query) returns (r: Result<CsvResponse, RequestError>)
    ensures r.Ok? <==> ExportWhere(ParamsOf(query)).Ok?
    ensures r.Ok? ==>
      r.value == CsvResponse(CsvBody(ExportRows(store, ExportWhere(ParamsOf(query)).value)), ContentType, ContentDisposition)
  {
    var where := BuildExportWhere(ParamsOf(query));
    if where.Err? {
      return Err(where.error);
    }
    r := Ok(CsvResponse(CsvBody(ExportRows(store, where.value)), ContentType, ContentDisposition));
  }

  // ---------------------------------------------------------------------------------------
  // Properties
  // ---------------------------------------------------------------------------------------

  /** The cells of one row, as a reader gets them back. */
  function CellTexts(r: Incident): (cs: seq<string>)
    ensures |cs| == |Headers|
  {
    seq(|Headers|, i requires 0 <= i < |Headers| => CellText(Column(r, Headers[i])))
  }

  /** No column name needs quoting: each is lower-case letters, digits and underscores. */
  lemma HeadersPlain()
    ensures forall h :: h in Headers ==> !NeedsQuote(h)
  {
    FirstHeadersPlain();
    MiddleHeadersPlain();
    LastHeadersPlain();
  }

  lemma FirstHeadersPlain()
    ensures forall k :: 0 <= k < 10 ==> !NeedsQuote(Headers[k])
  {
    assert !NeedsQuote("id") && !NeedsQuote("date") && !NeedsQuote("time");
    assert !NeedsQuote("type") && !NeedsQuote("classification") && !NeedsQuote("location");
    assert !NeedsQuote("municipality") && !NeedsQuote("district") && !NeedsQuote("barangay");
    assert !NeedsQuote("vehicles_involved");
  }

  lemma MiddleHeadersPlain()
    ensures forall k :: 10 <= k < 20 ==> !NeedsQuote(Headers[k])
  {
    assert !NeedsQuote("vehicle_counts") && !NeedsQuote("narratives");
    assert !NeedsQuote("sector") && !NeedsQuote("status_update") && !NeedsQuote("lanes_update");
    assert !NeedsQuote("lanes_affected") && !NeedsQuote("team") && !NeedsQuote("toc_patrol");
    assert !NeedsQuote("delta_1") && !NeedsQuote("tl");
  }

  lemma LastHeadersPlain()
    ensures forall k :: 20 <= k < 30 ==> !NeedsQuote(Headers[k])
  {
    assert !NeedsQuote("atl");
    assert !NeedsQuote("roadwork_update") && !NeedsQuote("stranded_vehicle_report") && !NeedsQuote("accident_report");
    assert !NeedsQuote("created_at") && !NeedsQuote("updated_at") && !NeedsQuote("images");
    assert !NeedsQuote("response_time") && !NeedsQuote("latitude") && !NeedsQuote("longitude");
  }

  /** The header line is the CSV encoding of the column names. */
  lemma HeaderLineEncodes()
    ensures JoinFields(Headers) == EncodeRow(Headers)
  {
    HeadersPlain();
    forall k | 0 <= k < |Headers| ensures Encode(Headers[k]) == Headers[k] {
      EncodePlain(Headers[k]);
    }
    assert seq(|Headers|, k requires 0 <= k < |Headers| => Encode(Headers[k])) == Headers;
  }

  lemma DigitsPlain(s: string)
    requires AllDigits(s)
    ensures !NeedsQuote(s)
  {
    forall i | 0 <= i < |s| ensures !IsSpecial(s[i]) {
      assert IsDigit(s[i]);
    }
  }

  /** Joining two unquoted texts with a separator that is not special keeps them unquoted. */
  lemma AppendPlain(a: string, sep: string, b: string)
    requires !NeedsQuote(a) && !NeedsQuote(b) && |sep| == 1 && !IsSpecial(sep[0])
    ensures !NeedsQuote(a + sep + b)
  {
    assert !NeedsQuote(sep);
    NeedsQuoteConcat(a, sep);
    NeedsQuoteConcat(a + sep, b);
  }

  /** An ISO timestamp holds only digits, `-`, `T`, `:`, `.` and `Z`, so it is never quoted. */
  lemma IsoPlain(t: Instant)
    ensures !NeedsQuote(IsoString(t))
  {
    DayPlain(t.date);
    ClockPlain(t.ms);
    NeedsQuoteConcat(DayText(t.date), ClockText(t.ms));
  }

  lemma DayPlain(d: Day)
    ensures !NeedsQuote(DayText(d))
  {
    DigitsPlain(YearText(d.year));
    DigitsPlain(PadDigits(d.month, 2));
    DigitsPlain(PadDigits(d.day, 2));
    var s1 := YearText(d.year) + "-" + PadDigits(d.month, 2);
    AppendPlain(YearText(d.year), "-", PadDigits(d.month, 2));
    AppendPlain(s1, "-", PadDigits(d.day, 2));
  }

  lemma ClockPlain(ms: nat)
    ensures !NeedsQuote(ClockText(ms))
  {
    var secs := ms / 1000;
    var hh, mm, ss, sss := PadDigits(secs / 3600, 2), PadDigits(secs / 60 % 60, 2),
      PadDigits(secs % 60, 2), PadDigits(ms % 1000, 3);
    DigitsPlain(hh);
    DigitsPlain(mm);
    DigitsPlain(ss);
    DigitsPlain(sss);
    assert !NeedsQuote("T");
    AppendPlain("", "T", hh);
    AppendPlain("T" + hh, ":", mm);
    AppendPlain("T" + hh + ":" + mm, ":", ss);
    AppendPlain("T" + hh + ":" + mm + ":" + ss, ".", sss);
    assert !NeedsQuote("Z");
    NeedsQuoteConcat("T" + hh + ":" + mm + ":" + ss + "." + sss, "Z");
    assert "" + "T" + hh == "T" + hh;
  }

  /** `formatCsv` writes every cell as the CSV encoding of the text it stands for. */
  lemma FormatCsvEncodes(v: Value)
    ensures FormatCsv(v) == Encode(CellText(v))
  {
    match v {
      case Null =>
        assert !NeedsQuote("");
        EncodePlain("");
      case Stamp(t) =>
        IsoPlain(t);
        EncodePlain(IsoString(t));
      case Str(s) =>
    }
  }

  /** A data line is the CSV encoding of the row's cell texts. */
  lemma DataLineEncodes(r: Incident)
    ensures DataLine(r) == EncodeRow(CellTexts(r))
  {
    var cs := CellTexts(r);
    forall k | 0 <= k < |Headers| ensures FormatCsv(Column(r, Headers[k])) == Encode(cs[k]) {
      FormatCsvEncodes(Column(r, Headers[k]));
    }
    assert seq(|Headers|, k requires 0 <= k < |Headers| => FormatCsv(Column(r, Headers[k])))
      == seq(|cs|, k requires 0 <= k < |cs| => Encode(cs[k]));
  }

  /** The cell texts of the exported rows, one record per row. */
  function Records(rows: seq<Incident>): (rs: seq<seq<string>>)
    ensures |rs| == |rows| && forall i :: 0 <= i < |rs| ==> |rs[i]| == |Headers|
  {
    seq(|rows|, i requires 0 <= i < |rows| => CellTexts(rows[i]))
  }

  /** Lines that encode a header and records, joined, are the encoding of the document. */
  lemma JoinEncodedLines(first: string, header: seq<string>, lines: seq<string>, recs: seq<seq<string>>)
    requires first == EncodeRow(header)
    requires |lines| == |recs| && forall i :: 0 <= i < |lines| ==> lines[i] == EncodeRow(recs[i])
    ensures JoinLines([first] + lines) == EncodeDocument([header] + recs)
  {
    var doc := [header] + recs;
    var encoded := seq(|doc|, i requires 0 <= i < |doc| => EncodeRow(doc[i]));
    forall i | 0 <= i < |doc| ensures ([first] + lines)[i] == encoded[i] {
      if i > 0 { assert doc[i] == recs[i - 1]; }
    }
    assert [first] + lines == encoded;
  }

  /** The body is the CSV encoding of the header names followed by the rows' cell texts. */
  lemma CsvBodyEncodes(rows: seq<Incident>)
    ensures CsvBody(rows) == EncodeDocument([Headers] + Records(rows))
  {
    var lines := seq(|rows|, i requires 0 <= i < |rows| => DataLine(rows[i]));
    var recs := Records(rows);
    forall i | 0 <= i < |lines| ensures lines[i] == EncodeRow(recs[i]) {
      DataLineEncodes(rows[i]);
    }
    HeaderLineEncodes();
    JoinEncodedLines(JoinFields(Headers), Headers, lines, recs);
  }

  /**
   * Reading the exported document back gives the header names, then one record per exported
   * row holding the text of each of its 30 cells, in header order.
   */
  lemma ExportReadsBack(rows: seq<Incident>)
    ensures ReadDocument(CsvBody(rows)) == [Headers] + Records(rows)
  {
    var doc := [Headers] + Records(rows);
    CsvBodyEncodes(rows);
    assert |Headers| == 30;
    forall i | 0 <= i < |doc| ensures |doc[i]| >= 2 {
      if i > 0 { assert doc[i] == Records(rows)[i - 1]; }
    }
    ReadDocumentOf(doc);
  }

  lemma Prepended<T>(h: T, xs: seq<T>)
    ensures |[h] + xs| == 1 + |xs| && ([h] + xs)[0] == h
    ensures forall i :: 1 <= i < 1 + |xs| ==> ([h] + xs)[i] == xs[i - 1]
  {
  }

  /**
   * The exported document reads back as the header names, then one record per filtered row,
   * newest first, capped at 5000.
   */
  lemma ExportDocument(store: seq<Incident>, w: Where)
    ensures var rows := ExportRows(store, w);
      var doc := ReadDocument(CsvBody(rows));
      |doc| == 1 + (if Count(store, w) <= ExportLimit then Count(store, w) else ExportLimit)
      && doc[0] == Headers && doc[1..] == Records(rows)
      && NewestFirst(rows) && (forall x :: x in rows ==> x in store && Matches(w, x))
  {
    var rows := ExportRows(store, w);
    ExportReadsBack(rows);
    Prepended(Headers, Records(rows));
    assert ([Headers] + Records(rows))[1..] == Records(rows);
  }
}
