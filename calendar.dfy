/**
 * Instants as the routes see them: a civil day and the millisecond within it, all in one
 * fixed time zone. `new Date(s)` on the two ISO forms the dashboard sends, `toISOString`,
 * and the `YYYY-MM` month label of the trend query.
 */
module Calendar {
  import opened Wrappers
  import opened Numerals
  import opened Collation

  datatype Day = Day(year: nat, month: nat, day: nat)

  /** A point in time: a day and the milliseconds elapsed since its midnight. */
  datatype Instant = Instant(date: Day, ms: nat)

  const MsPerDay: nat := 86_400_000
  /** 23:59:59.000, the time `endDate + 'T23:59:59'` denotes. */
  const EndOfDayMs: nat := 86_399_000
  /** 23:59:59.999, the time `setHours(23, 59, 59, 999)` sets. */
  const LastMs: nat := 86_399_999

  /** Gregorian leap years: every fourth year, except centuries not divisible by 400. */
  predicate IsLeapYear(y: nat) {
    y % 4 == 0 && (y % 100 != 0 || y % 400 == 0)
  }

  function DaysInMonth(y: nat, m: nat): (n: nat)
    requires 1 <= m <= 12
    ensures 28 <= n <= 31
  {
    if m == 2 then (if IsLeapYear(y) then 29 else 28)
    else if m == 4 || m == 6 || m == 9 || m == 11 then 30
    else 31
  }

  /** A calendar day that exists: month 1..12 and a day within that month's length. */
  predicate ValidDay(d: Day) {
    d.year <= 9999 && 1 <= d.month <= 12 && 1 <= d.day <= DaysInMonth(d.year, d.month)
  }

  /**
   * The day V8 builds from the fields of an ISO date whose day is 1..31: a day past the end of
   * its month runs on into the next month (`2024-02-31` is 2 March 2024). December has 31 days,
   * so the year never changes.
   */
  function RollOver(y: nat, m: nat, d: nat): (r: Day)
    requires y <= 9999 && 1 <= m <= 12 && 1 <= d <= 31
    ensures ValidDay(r)
    ensures d <= DaysInMonth(y, m) ==> r == Day(y, m, d)
    ensures d > DaysInMonth(y, m) ==>
      r.year == y && r.month == m + 1 && DaysInMonth(y, m) + r.day == d
  {
    var n := DaysInMonth(y, m);
    if d <= n then Day(y, m, d) else Day(y, m + 1, d - n)
  }

  predicate ValidInstant(t: Instant) {
    ValidDay(t.date) && t.ms < MsPerDay
  }

  predicate DayBefore(a: Day, b: Day) {
    a.year < b.year || (a.year == b.year && (a.month < b.month || (a.month == b.month && a.day < b.day)))
  }

  /** `a <= b` on timestamps. */
  predicate NotAfter(a: Instant, b: Instant) {
    DayBefore(a.date, b.date) || (a.date == b.date && a.ms <= b.ms)
  }

  function StartOfDay(d: Day): Instant { Instant(d, 0) }

  predicate DigitsAt(s: string, i: nat, w: nat) {
    i + w <= |s| && AllDigits(s[i..i + w])
  }

  function FieldAt(s: string, i: nat, w: nat): nat
    requires DigitsAt(s, i, w)
  {
    DigitsValue(s[i..i + w])
  }

  /** `YYYY-MM-DD` at the start of `s`, with month and day in range. */
  predicate DatePart(s: string) {
    |s| >= 10 && DigitsAt(s, 0, 4) && s[4] == '-' && DigitsAt(s, 5, 2) && s[7] == '-' && DigitsAt(s, 8, 2)
    && 1 <= FieldAt(s, 5, 2) <= 12 && 1 <= FieldAt(s, 8, 2) <= 31
  }

  /** A time of day ECMAScript's date format allows: up to 23:59:59, or 24:00:00 for the next midnight. */
  predicate ClockFields(h: nat, m: nat, sec: nat) {
    (h < 24 && m < 60 && sec < 60) || (h == 24 && m == 0 && sec == 0)
  }

  /** `THH:MM:SS` at index 10 of `s`, the fields a time of day. */
  predicate TimePart(s: string) {
    |s| >= 19 && s[10] == 'T' && DigitsAt(s, 11, 2) && s[13] == ':' && DigitsAt(s, 14, 2) && s[16] == ':' && DigitsAt(s, 17, 2)
    && ClockFields(FieldAt(s, 11, 2), FieldAt(s, 14, 2), FieldAt(s, 17, 2))
  }

  /**
   * `YYYY-MM-DDT24:00:00` on 31 December 9999: its next midnight lies in year 10000, beyond the
   * days this model represents.
   */
  predicate PastLastDay(s: string)
    requires DatePart(s) && TimePart(s)
  {
    FieldAt(s, 11, 2) == 24 && FieldAt(s, 0, 4) == 9999 && FieldAt(s, 5, 2) == 12 && FieldAt(s, 8, 2) == 31
  }

  /** The day after `d`. */
  function NextDay(d: Day): (r: Day)
    requires ValidDay(d) && d != Day(9999, 12, 31)
    ensures ValidDay(r) && DayBefore(d, r)
  {
    if d.day < DaysInMonth(d.year, d.month) then Day(d.year, d.month, d.day + 1)
    else if d.month < 12 then Day(d.year, d.month + 1, 1)
    else Day(d.year + 1, 1, 1)
  }

  /** No valid day lies strictly between a day and the day after it. */
  lemma NextDayIsNext(d: Day, e: Day)
    requires ValidDay(d) && d != Day(9999, 12, 31) && ValidDay(e) && DayBefore(d, e)
    ensures NextDay(d) == e || DayBefore(NextDay(d), e)
  {
  }

  /**
   * `new Date(s)` for the two forms the dashboard sends, `YYYY-MM-DD` (midnight) and
   * `YYYY-MM-DDTHH:MM:SS`. A day past the end of its month is rolled into the next month, and
   * `T24:00:00` is midnight at the end of the day. Any other text is `None` here, the Invalid
   * Date that makes the store query receiving it fail; JavaScript accepts some of those texts
   * (a `YYYY-MM`, a time without seconds, a zone suffix), which this model does not cover.
   */
  function ParseDate(s: string): (r: Option<Instant>)
    ensures r.Some? ==> ValidInstant(r.value)
    ensures r.Some? <==> DatePart(s) && (|s| == 10 || (|s| == 19 && TimePart(s) && !PastLastDay(s)))
  {
    if !(DatePart(s) && (|s| == 10 || (|s| == 19 && TimePart(s) && !PastLastDay(s)))) then None
    else
      assert DigitsValue(s[0..4]) < 10000 by { PadBound(s[0..4]); }
      var day := RollOver(FieldAt(s, 0, 4), FieldAt(s, 5, 2), FieldAt(s, 8, 2));
      if |s| == 10 then Some(StartOfDay(day))
      else if FieldAt(s, 11, 2) == 24 then Some(StartOfDay(NextDay(day)))
      else Some(Instant(day, ((FieldAt(s, 11, 2) * 60 + FieldAt(s, 14, 2)) * 60 + FieldAt(s, 17, 2)) * 1000))
  }

  /** `new Date('2024-02-31')` is 2 March 2024: the day runs past February into March. */
  lemma OutOfMonthDay()
    ensures ParseDate("2024-02-31") == Some(StartOfDay(Day(2024, 3, 2)))
  {
    Text20240231();
    ParseDayText("2024-02-31", 2024, 2, 31);
    LeapFebruaryRollOver();
  }

  /** 2024 is a leap year, so its February has 29 days and the 31st is 2 March. */
  lemma LeapFebruaryRollOver()
    ensures RollOver(2024, 2, 31) == Day(2024, 3, 2)
  {
    assert IsLeapYear(2024);
  }

  lemma Text20240231()
    ensures "2024-02-31" == PadDigits(2024, 4) + "-" + PadDigits(2, 2) + "-" + PadDigits(31, 2)
  {
    Text2024();
    assert PadDigits(0, 1) == "0" && PadDigits(2, 2) == "02";
    assert PadDigits(3, 1) == "3" && PadDigits(31, 2) == "31";
  }

  lemma Text2024()
    ensures PadDigits(2024, 4) == "2024"
  {
    assert PadDigits(2, 1) == "2";
    assert PadDigits(20, 2) == "20";
    assert PadDigits(202, 3) == "202";
  }

  /** A `YYYY-MM-DD` text made of padded fields parses to the (rolled-over) day they name. */
  lemma ParseDayText(s: string, y: nat, m: nat, d: nat)
    requires y < 10000 && 1 <= m <= 12 && 1 <= d <= 31
    requires s == PadDigits(y, 4) + "-" + PadDigits(m, 2) + "-" + PadDigits(d, 2)
    ensures ParseDate(s) == Some(StartOfDay(RollOver(y, m, d)))
  {
    assert |s| == 10;
    assert s[0..4] == PadDigits(y, 4) && s[5..7] == PadDigits(m, 2) && s[8..10] == PadDigits(d, 2);
    assert s[4] == '-' && s[7] == '-';
    PadDigitsRoundTrip(y, 4);
    PadDigitsRoundTrip(m, 2);
    PadDigitsRoundTrip(d, 2);
    assert FieldAt(s, 0, 4) == y && FieldAt(s, 5, 2) == m && FieldAt(s, 8, 2) == d;
    assert DatePart(s);
  }

  /** The fields of `YYYY-MM-DDTHH:MM:SS` sit in their columns. */
  lemma StampSlices(yy: string, mo: string, dd: string, hh: string, mi: string, ss: string)
    requires |yy| == 4 && |mo| == 2 && |dd| == 2 && |hh| == 2 && |mi| == 2 && |ss| == 2
    ensures var s := yy + "-" + mo + "-" + dd + "T" + hh + ":" + mi + ":" + ss;
      |s| == 19 && s[4] == '-' && s[7] == '-' && s[10] == 'T' && s[13] == ':' && s[16] == ':'
      && s[0..4] == yy && s[5..7] == mo && s[8..10] == dd && s[11..13] == hh && s[14..16] == mi && s[17..19] == ss
  {
    var a, c := yy + "-" + mo + "-" + dd, "T" + hh + ":" + mi + ":" + ss;
    DaySlices(yy, mo, dd);
    TimeSlices(hh, mi, ss);
    var s := yy + "-" + mo + "-" + dd + "T" + hh + ":" + mi + ":" + ss;
    assert s == a + c;
    assert s[..10] == a && s[10..] == c;
    assert s[0..4] == a[0..4] && s[5..7] == a[5..7] && s[8..10] == a[8..10];
    assert s[11..13] == c[1..3] && s[14..16] == c[4..6] && s[17..19] == c[7..9];
  }

  lemma DaySlices(yy: string, mo: string, dd: string)
    requires |yy| == 4 && |mo| == 2 && |dd| == 2
    ensures var a := yy + "-" + mo + "-" + dd;
      |a| == 10 && a[4] == '-' && a[7] == '-' && a[0..4] == yy && a[5..7] == mo && a[8..10] == dd
  {
  }

  lemma TimeSlices(hh: string, mi: string, ss: string)
    requires |hh| == 2 && |mi| == 2 && |ss| == 2
    ensures var c := "T" + hh + ":" + mi + ":" + ss;
      |c| == 9 && c[0] == 'T' && c[3] == ':' && c[6] == ':' && c[1..3] == hh && c[4..6] == mi && c[7..9] == ss
  {
  }

  /** The padded fields of a `YYYY-MM-DDTHH:MM:SS` text read back as the numbers they were made from. */
  lemma StampFields(s: string, y: nat, m: nat, d: nat, hh: nat, mm: nat, ss: nat)
    requires y < 10000 && m < 100 && d < 100 && hh < 100 && mm < 100 && ss < 100
    requires s == PadDigits(y, 4) + "-" + PadDigits(m, 2) + "-" + PadDigits(d, 2) + "T"
      + PadDigits(hh, 2) + ":" + PadDigits(mm, 2) + ":" + PadDigits(ss, 2)
    ensures StampReads(s, y, m, d, hh, mm, ss)
  {
    StampSlices(PadDigits(y, 4), PadDigits(m, 2), PadDigits(d, 2), PadDigits(hh, 2), PadDigits(mm, 2), PadDigits(ss, 2));
    assert Pow10(2) == 100 && Pow10(4) == 10000;
    PadDigitsRoundTrip(y, 4);
    PadDigitsRoundTrip(m, 2);
    PadDigitsRoundTrip(d, 2);
    PadDigitsRoundTrip(hh, 2);
    PadDigitsRoundTrip(mm, 2);
    PadDigitsRoundTrip(ss, 2);
  }

  /** `s` is a 19-character stamp whose six fields read `y`, `m`, `d`, `hh`, `mm`, `ss`. */
  predicate StampReads(s: string, y: nat, m: nat, d: nat, hh: nat, mm: nat, ss: nat)
  {
    |s| == 19 && s[4] == '-' && s[7] == '-' && s[10] == 'T' && s[13] == ':' && s[16] == ':'
    && DigitsAt(s, 0, 4) && DigitsAt(s, 5, 2) && DigitsAt(s, 8, 2)
    && DigitsAt(s, 11, 2) && DigitsAt(s, 14, 2) && DigitsAt(s, 17, 2)
    && FieldAt(s, 0, 4) == y && FieldAt(s, 5, 2) == m && FieldAt(s, 8, 2) == d
    && FieldAt(s, 11, 2) == hh && FieldAt(s, 14, 2) == mm && FieldAt(s, 17, 2) == ss
  }

  lemma ParseStampReads(s: string, y: nat, m: nat, d: nat, hh: nat, mm: nat, ss: nat)
    requires StampReads(s, y, m, d, hh, mm, ss)
    requires y < 10000 && 1 <= m <= 12 && 1 <= d <= 31 && ClockFields(hh, mm, ss)
    ensures hh < 24 ==> ParseDate(s) == Some(Instant(RollOver(y, m, d), ((hh * 60 + mm) * 60 + ss) * 1000))
    ensures hh == 24 && Day(y, m, d) == Day(9999, 12, 31) ==> ParseDate(s) == None
    ensures hh == 24 && Day(y, m, d) != Day(9999, 12, 31) ==>
      RollOver(y, m, d) != Day(9999, 12, 31) && ParseDate(s) == Some(StartOfDay(NextDay(RollOver(y, m, d))))
  {
    assert DatePart(s) && TimePart(s);
  }

  /** A `YYYY-MM-DDTHH:MM:SS` text with a time before 24:00 parses to that time of the (rolled-over) day. */
  lemma ParseStampText(s: string, y: nat, m: nat, d: nat, hh: nat, mm: nat, ss: nat)
    requires y < 10000 && 1 <= m <= 12 && 1 <= d <= 31 && hh < 24 && mm < 60 && ss < 60
    requires s == PadDigits(y, 4) + "-" + PadDigits(m, 2) + "-" + PadDigits(d, 2) + "T"
      + PadDigits(hh, 2) + ":" + PadDigits(mm, 2) + ":" + PadDigits(ss, 2)
    ensures ParseDate(s) == Some(Instant(RollOver(y, m, d), ((hh * 60 + mm) * 60 + ss) * 1000))
  {
    StampFields(s, y, m, d, hh, mm, ss);
    ParseStampReads(s, y, m, d, hh, mm, ss);
  }

  /** `T24:00:00` is midnight at the end of the (rolled-over) day, i.e. the start of the next one. */
  lemma ParseEndOfDayText(s: string, y: nat, m: nat, d: nat)
    requires y < 10000 && 1 <= m <= 12 && 1 <= d <= 31
    requires s == PadDigits(y, 4) + "-" + PadDigits(m, 2) + "-" + PadDigits(d, 2) + "T"
      + PadDigits(24, 2) + ":" + PadDigits(0, 2) + ":" + PadDigits(0, 2)
    ensures Day(y, m, d) == Day(9999, 12, 31) ==> ParseDate(s) == None
    ensures Day(y, m, d) != Day(9999, 12, 31) ==>
      RollOver(y, m, d) != Day(9999, 12, 31) && ParseDate(s) == Some(StartOfDay(NextDay(RollOver(y, m, d))))
  {
    StampFields(s, y, m, d, 24, 0, 0);
    ParseStampReads(s, y, m, d, 24, 0, 0);
  }

  /** `new Date('2024-12-31T24:00:00')` is midnight starting 1 January 2025. */
  lemma EndOfYearMidnight()
    ensures ParseDate("2024-12-31T24:00:00") == Some(StartOfDay(Day(2025, 1, 1)))
  {
    Text20241231T24();
    ParseEndOfDayText("2024-12-31T24:00:00", 2024, 12, 31);
  }

  lemma Text20241231T24()
    ensures "2024-12-31T24:00:00" == PadDigits(2024, 4) + "-" + PadDigits(12, 2) + "-" + PadDigits(31, 2) + "T"
      + PadDigits(24, 2) + ":" + PadDigits(0, 2) + ":" + PadDigits(0, 2)
  {
    Text2024();
    Text12And31();
    Text24And00();
  }

  lemma Text12And31()
    ensures PadDigits(12, 2) == "12" && PadDigits(31, 2) == "31"
  {
    assert PadDigits(1, 1) == "1";
    assert PadDigits(3, 1) == "3";
  }

  lemma Text24And00()
    ensures PadDigits(24, 2) == "24" && PadDigits(0, 2) == "00"
  {
    assert PadDigits(2, 1) == "2";
    assert PadDigits(0, 1) == "0";
  }

  lemma {:induction false} PadBound(s: string)
    requires AllDigits(s)
    ensures DigitsValue(s) < Pow10(|s|)
  {
    if s != [] { PadBound(s[..|s| - 1]); }
  }

  /** `endDate + 'T23:59:59'` is the last second of the day `endDate` names, when `endDate` is a bare date. */
  lemma {:induction false} EndOfDayBound(s: string)
    ensures ParseDate(s + "T23:59:59").Some? <==> (|s| == 10 && ParseDate(s).Some?)
    ensures ParseDate(s + "T23:59:59").Some? ==>
      ParseDate(s + "T23:59:59").value == Instant(ParseDate(s).value.date, EndOfDayMs)
  {
    var e := s + "T23:59:59";
    if |s| == 10 {
      EndOfDayDate(s);
      EndOfDayClock(s);
      if DatePart(s) {
        assert TimePart(e) && !PastLastDay(e);
      }
    }
  }

  /** Appending the clock leaves the date columns as they were. */
  lemma EndOfDayDate(s: string)
    requires |s| == 10
    ensures var e := s + "T23:59:59";
      |e| == 19 && (DatePart(e) <==> DatePart(s))
      && (DatePart(s) ==> FieldAt(e, 0, 4) == FieldAt(s, 0, 4) && FieldAt(e, 5, 2) == FieldAt(s, 5, 2)
                          && FieldAt(e, 8, 2) == FieldAt(s, 8, 2))
  {
    PrefixSlice(s, "T23:59:59", 0, 4);
    PrefixSlice(s, "T23:59:59", 5, 7);
    PrefixSlice(s, "T23:59:59", 8, 10);
  }

  /** The appended clock reads 23:59:59. */
  lemma EndOfDayClock(s: string)
    requires |s| == 10
    ensures var e := s + "T23:59:59";
      e[10] == 'T' && e[13] == ':' && e[16] == ':'
      && DigitsAt(e, 11, 2) && DigitsAt(e, 14, 2) && DigitsAt(e, 17, 2)
      && FieldAt(e, 11, 2) == 23 && FieldAt(e, 14, 2) == 59 && FieldAt(e, 17, 2) == 59
  {
    var e := s + "T23:59:59";
    assert e[10..] == "T23:59:59";
    assert e[11..13] == e[10..][1..3] && e[14..16] == e[10..][4..6] && e[17..19] == e[10..][7..9];
    assert e[11..13] == "23" && e[14..16] == "59" && e[17..19] == "59";
    assert DigitsValue("23") == 23 && DigitsValue("59") == 59 by {
      assert "23"[..1] == "2" && "59"[..1] == "5";
    }
  }

  lemma PrefixSlice(s: string, t: string, i: nat, j: nat)
    requires i <= j <= |s|
    ensures (s + t)[i..j] == s[i..j]
  {
  }

  /** The year as `YYYY` (four digits below 10000, all digits above). */
  function YearText(y: nat): string {
    if y < 10000 then PadDigits(y, 4) else NatToString(y)
  }

  /** `YYYY-MM-DD`. */
  function DayText(d: Day): string {
    YearText(d.year) + "-" + PadDigits(d.month, 2) + "-" + PadDigits(d.day, 2)
  }

  /** `Date.prototype.toISOString`: `YYYY-MM-DDTHH:MM:SS.sssZ`. */
  function IsoString(t: Instant): (r: string)
    ensures t.date.year < 10000 ==> |r| == 24 && r[..10] == DayText(t.date)
  {
    DayText(t.date) + ClockText(t.ms)
  }

  /** The time-of-day part of `toISOString`: `THH:MM:SS.sssZ`. */
  function ClockText(ms: nat): (r: string)
    ensures |r| == 14
  {
    var secs := ms / 1000;
    "T" + PadDigits(secs / 3600, 2) + ":" + PadDigits(secs / 60 % 60, 2) + ":"
      + PadDigits(secs % 60, 2) + "." + PadDigits(ms % 1000, 3) + "Z"
  }

  /**
   * The time of day `toISOString` writes reads back as the instant's milliseconds:
   * hours, minutes, seconds and milliseconds in their fixed columns.
   */
  lemma IsoTimeReadsBack(t: Instant)
    requires ValidInstant(t)
    ensures var r := IsoString(t);
      r[10] == 'T' && r[13] == ':' && r[16] == ':' && r[19] == '.' && r[23] == 'Z'
      && ((DigitsValue(r[11..13]) * 60 + DigitsValue(r[14..16])) * 60 + DigitsValue(r[17..19])) * 1000
         + DigitsValue(r[20..23]) == t.ms
  {
    var c := ClockText(t.ms);
    ClockReadsBack(t.ms);
    var r := IsoString(t);
    assert r[10..] == c;
    assert r[11..13] == c[1..3] && r[14..16] == c[4..6] && r[17..19] == c[7..9] && r[20..23] == c[10..13];
  }

  /** Hours, minutes, seconds and milliseconds read back from their columns of the clock text. */
  lemma ClockReadsBack(ms: nat)
    requires ms < MsPerDay
    ensures var c := ClockText(ms);
      c[0] == 'T' && c[3] == ':' && c[6] == ':' && c[9] == '.' && c[13] == 'Z'
      && ((DigitsValue(c[1..3]) * 60 + DigitsValue(c[4..6])) * 60 + DigitsValue(c[7..9])) * 1000
         + DigitsValue(c[10..13]) == ms
  {
    var secs := ms / 1000;
    var h, m, sec, milli := secs / 3600, secs / 60 % 60, secs % 60, ms % 1000;
    ClockColumns(h, m, sec, milli);
    ClockSplit(ms);
  }

  lemma ClockColumns(h: nat, m: nat, sec: nat, milli: nat)
    requires h < 100 && m < 100 && sec < 100 && milli < 1000
    ensures var c := "T" + PadDigits(h, 2) + ":" + PadDigits(m, 2) + ":" + PadDigits(sec, 2) + "."
        + PadDigits(milli, 3) + "Z";
      c[0] == 'T' && c[3] == ':' && c[6] == ':' && c[9] == '.' && c[13] == 'Z'
      && DigitsValue(c[1..3]) == h && DigitsValue(c[4..6]) == m && DigitsValue(c[7..9]) == sec
      && DigitsValue(c[10..13]) == milli
  {
    ClockSlices(PadDigits(h, 2), PadDigits(m, 2), PadDigits(sec, 2), PadDigits(milli, 3));
    assert Pow10(2) == 100 && Pow10(3) == 1000;
    PadDigitsRoundTrip(h, 2);
    PadDigitsRoundTrip(m, 2);
    PadDigitsRoundTrip(sec, 2);
    PadDigitsRoundTrip(milli, 3);
  }

  lemma ClockSlices(hh: string, mm: string, ss: string, sss: string)
    requires |hh| == 2 && |mm| == 2 && |ss| == 2 && |sss| == 3
    ensures var c := "T" + hh + ":" + mm + ":" + ss + "." + sss + "Z";
      c[0] == 'T' && c[3] == ':' && c[6] == ':' && c[9] == '.' && c[13] == 'Z'
      && c[1..3] == hh && c[4..6] == mm && c[7..9] == ss && c[10..13] == sss
  {
  }

  /** Hours, minutes, seconds and milliseconds of a time of day recombine into it. */
  lemma ClockSplit(ms: nat)
    ensures var secs := ms / 1000;
      ((secs / 3600 * 60 + secs / 60 % 60) * 60 + secs % 60) * 1000 + ms % 1000 == ms
  {
    var secs := ms / 1000;
    var mins := secs / 60;
    assert secs * 1000 + ms % 1000 == ms;
    assert mins * 60 + secs % 60 == secs;
    assert mins / 60 == secs / 3600;
    assert mins / 60 * 60 + mins % 60 == mins;
  }

  /** `to_char(date_trunc('month', date), 'YYYY-MM')`. */
  function MonthLabel(t: Instant): (r: string)
    ensures t.date.year < 10000 ==> |r| == 7 && r[4] == '-'
  {
    YearText(t.date.year) + "-" + PadDigits(t.date.month, 2)
  }

  /** What `toISOString().slice(0, 10)` wrote reads back as the same day. */
  lemma {:induction false} DayTextRoundTrip(d: Day)
    requires ValidDay(d)
    ensures ParseDate(DayText(d)) == Some(StartOfDay(d))
  {
    var y, m, dd := PadDigits(d.year, 4), PadDigits(d.month, 2), PadDigits(d.day, 2);
    var s := DayText(d);
    assert s == y + "-" + m + "-" + dd;
    assert |s| == 10;
    assert s[0..4] == y && s[5..7] == m && s[8..10] == dd;
    assert s[4] == '-' && s[7] == '-';
    PadDigitsRoundTrip(d.year, 4);
    PadDigitsRoundTrip(d.month, 2);
    PadDigitsRoundTrip(d.day, 2);
    assert FieldAt(s, 0, 4) == d.year && FieldAt(s, 5, 2) == d.month && FieldAt(s, 8, 2) == d.day;
    assert DatePart(s);
  }

  /** Zero-padded fields of one width sort as text exactly as their numbers sort. */
  lemma {:induction false} PadDigitsOrder(x: nat, y: nat, width: nat)
    requires x < Pow10(width) && y < Pow10(width)
    ensures Less(PadDigits(x, width), PadDigits(y, width)) <==> x < y
    ensures PadDigits(x, width) == PadDigits(y, width) <==> x == y
  {
    if width > 0 {
      var x', y' := x / 10, y / 10;
      DivBound(x, width);
      DivBound(y, width);
      PadDigitsOrder(x', y', width - 1);
      var dx, dy := [DigitChar(x % 10)], [DigitChar(y % 10)];
      assert PadDigits(x, width) == PadDigits(x', width - 1) + dx;
      assert PadDigits(y, width) == PadDigits(y', width - 1) + dy;
      LessConcat(PadDigits(x', width - 1), dx, PadDigits(y', width - 1), dy);
      assert Less(dx, dy) <==> x % 10 < y % 10;
      assert PadDigits(x, width) == PadDigits(y, width) <==> x' == y' && x % 10 == y % 10 by {
        if PadDigits(x, width) == PadDigits(y, width) {
          assert PadDigits(x, width)[..width - 1] == PadDigits(x', width - 1);
          assert PadDigits(y, width)[..width - 1] == PadDigits(y', width - 1);
          assert PadDigits(x, width)[width - 1] == dx[0];
        }
      }
      assert x == 10 * x' + x % 10 && y == 10 * y' + y % 10;
    }
  }

  lemma DivBound(x: nat, width: nat)
    requires width > 0 && x < Pow10(width)
    ensures x / 10 < Pow10(width - 1)
  {
  }

  /**
   * `ORDER BY 1` on the `YYYY-MM` labels is calendar order: one label sorts before another
   * exactly when its month is earlier, and two labels are equal exactly when the months are.
   */
  lemma MonthLabelOrder(a: Instant, b: Instant)
    requires ValidInstant(a) && ValidInstant(b)
    ensures Less(MonthLabel(a), MonthLabel(b)) <==>
      a.date.year < b.date.year || (a.date.year == b.date.year && a.date.month < b.date.month)
    ensures MonthLabel(a) == MonthLabel(b) <==> a.date.year == b.date.year && a.date.month == b.date.month
  {
    var ya, yb := PadDigits(a.date.year, 4), PadDigits(b.date.year, 4);
    var ma, mb := PadDigits(a.date.month, 2), PadDigits(b.date.month, 2);
    assert Pow10(2) == 100 && Pow10(4) == 10000;
    PadDigitsOrder(a.date.year, b.date.year, 4);
    PadDigitsOrder(a.date.month, b.date.month, 2);
    assert MonthLabel(a) == ya + ("-" + ma) && MonthLabel(b) == yb + ("-" + mb);
    LessConcat(ya, "-" + ma, yb, "-" + mb);
    LessConcat("-", ma, "-", mb);
    assert MonthLabel(a) == MonthLabel(b) <==> ya == yb && ma == mb by {
      if MonthLabel(a) == MonthLabel(b) {
        assert MonthLabel(a)[..4] == ya && MonthLabel(b)[..4] == yb;
        assert MonthLabel(a)[5..] == ma && MonthLabel(b)[5..] == mb;
      }
    }
  }
}
