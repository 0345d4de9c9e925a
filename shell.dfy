/**
 * The dashboard page's own logic: the analytics request it sends for its filters, the red
 * scale of the density tiles and their text colour, the twelve largest rows of a month, and
 * the colours of the vehicle pie.
 */
module Shell {
  import opened Wrappers
  import opened Incidents
  import opened UrlQuery
  import opened Filters
  import opened Analytics

  // ---------------------------------------------------------------------------------------
  // fetchSummary
  // ---------------------------------------------------------------------------------------

  /** `{ startDate, endDate, municipality, classification, year }`; every key always holds a string. */
  datatype ShellFilters = ShellFilters(
    startDate: string, endDate: string, municipality: string, classification: string, year: string)

  function SummaryEntries(f: ShellFilters): seq<Param> {
    [("startDate", Some(f.startDate)), ("endDate", Some(f.endDate)), ("municipality", Some(f.municipality)),
     ("classification", Some(f.classification)), ("year", Some(f.year))]
  }

  /** `fetchSummary(filters)`: every entry that is neither undefined nor null becomes a parameter. */
  method SummaryQuery(f: ShellFilters) returns (sp: Query)
    ensures sp == Kept(SummaryEntries(f), false)
  {
    sp := FromEntries(SummaryEntries(f), false);
  }

  /** The two dates read back from the query as the page holds them. */
  lemma SummaryDatesRead(f: ShellFilters)
    ensures var sp := Kept(SummaryEntries(f), false);
      Get(sp, "startDate") == Some(f.startDate) && Get(sp, "endDate") == Some(f.endDate)
  {
    var es := SummaryEntries(f);
    assert DistinctNames(es);
    ReadBack(es, 0, false);
    ReadBack(es, 1, false);
  }

  /** The municipality and classification read back as the page holds them. */
  lemma SummaryNamesRead(f: ShellFilters)
    ensures var sp := Kept(SummaryEntries(f), false);
      Get(sp, "municipality") == Some(f.municipality) && Get(sp, "classification") == Some(f.classification)
  {
    var es := SummaryEntries(f);
    assert DistinctNames(es);
    ReadBack(es, 2, false);
    ReadBack(es, 3, false);
  }

  /** The year reads back as the page holds it, and there is no search. */
  lemma SummaryYearRead(f: ShellFilters)
    ensures var sp := Kept(SummaryEntries(f), false);
      Get(sp, "year") == Some(f.year) && Get(sp, "q") == None
  {
    var es := SummaryEntries(f);
    assert DistinctNames(es);
    ReadBack(es, 4, false);
    ReadAbsent(es, "q", false);
  }

  /** The analytics route reads each filter back as the page holds it, with no search. */
  lemma SummaryParamsRead(f: ShellFilters)
    ensures ParamsOf(Kept(SummaryEntries(f), false)) ==
      FilterParams(Some(f.startDate), Some(f.endDate), Some(f.year), Some(f.municipality), Some(f.classification), None)
  {
    SummaryDatesRead(f);
    SummaryNamesRead(f);
    SummaryYearRead(f);
  }

  /**
   * The page opens on `{ startDate: monthAgo, endDate: today, 'all', 'all', 'all' }`: the
   * analytics then filter on those two dates alone.
   */
  lemma OpeningSummary(monthAgo: string, today: string)
    requires monthAgo != "" && today != ""
    ensures var p := ParamsOf(Kept(SummaryEntries(ShellFilters(monthAgo, today, "all", "all", "all")), false));
      AnalyticsWhere(p) == match SuppliedDates(p)
        case Err(e) => Err(e)
        case Ok(d) => Ok(Where(d, None, None, None, None))
  {
    SummaryParamsRead(ShellFilters(monthAgo, today, "all", "all", "all"));
  }

  // ---------------------------------------------------------------------------------------
  // The density tiles
  // ---------------------------------------------------------------------------------------

  /** The red scale, lightest first. */
  const Scale: seq<string> := ["#fee2e2", "#f87171", "#ef4444", "#dc2626", "#b91c1c", "#991b1b"]

  /** Which step of the scale a count falls on: 0 below 1, then one step at each of 1, 3, 6, 9 and 12. */
  function Shade(c: int): (s: nat)
    ensures s < |Scale|
    ensures s == 0 <==> c < 1
    ensures s == 5 <==> c >= 12
  {
    if c >= 12 then 5 else if c >= 9 then 4 else if c >= 6 then 3 else if c >= 3 then 2 else if c >= 1 then 1 else 0
  }

  /** `colorForCount(c)`. */
  function ColorForCount(c: int): (colour: string)
    ensures c >= 12 ==> colour == "#991b1b"
    ensures 9 <= c < 12 ==> colour == "#b91c1c"
    ensures 6 <= c < 9 ==> colour == "#dc2626"
    ensures 3 <= c < 6 ==> colour == "#ef4444"
    ensures 1 <= c < 3 ==> colour == "#f87171"
    ensures c < 1 ==> colour == "#fee2e2"
  {
    if c >= 12 then "#991b1b"
    else if c >= 9 then "#b91c1c"
    else if c >= 6 then "#dc2626"
    else if c >= 3 then "#ef4444"
    else if c >= 1 then "#f87171"
    else "#fee2e2"
  }

  /** The colour is the scale's step for the count, and a larger count is never lighter. */
  lemma ColorIsShade(a: int, b: int)
    ensures ColorForCount(a) == Scale[Shade(a)]
    ensures a <= b ==> Shade(a) <= Shade(b)
  {
  }

  /** The legend's samples 1, 3, 6, 9 and 12 show every step but the lightest, once each, in order. */
  lemma LegendShowsScale()
    ensures var legend := [1, 3, 6, 9, 12];
      forall i :: 0 <= i < |legend| ==> ColorForCount(legend[i]) == Scale[i + 1]
  {
  }

  /** `r.count > 6 ? 'white' : '#0b1020'`. */
  function TextColour(c: int): (colour: string)
    ensures colour == "white" <==> c > 6
    ensures colour != "white" ==> colour == "#0b1020"
  {
    if c > 6 then "white" else "#0b1020"
  }

  /** White text sits only on the three darkest steps, and always on the two darkest. */
  lemma WhiteOnDark(c: int)
    ensures TextColour(c) == "white" ==> Shade(c) >= 3
    ensures Shade(c) >= 4 ==> TextColour(c) == "white"
  {
  }

  // ---------------------------------------------------------------------------------------
  // The twelve largest rows of a month
  // ---------------------------------------------------------------------------------------

  /** A heatmap row: `{ municipality, count }`. */
  datatype HeatRow = HeatRow(municipality: string, count: int)

  const TopLimit: nat := 12

  predicate Descending(rs: seq<HeatRow>) {
    forall i, j :: 0 <= i < j < |rs| ==> rs[i].count >= rs[j].count
  }

  /**
   * Puts `x` after every row whose count is at least its own: inserting the rows one by one
   * this way keeps rows of equal count in their original order, as the stable `sort` does.
   */
  function InsertDesc(x: HeatRow, rs: seq<HeatRow>): seq<HeatRow> {
    if rs == [] then [x]
    else if rs[0].count >= x.count then [rs[0]] + InsertDesc(x, rs[1..])
    else [x] + rs
  }

  /** `[...rows].sort((a, b) => b.count - a.count)`. */
  function SortDesc(rs: seq<HeatRow>): seq<HeatRow> {
    if rs == [] then [] else InsertDesc(rs[|rs| - 1], SortDesc(rs[..|rs| - 1]))
  }

  /** Inserting adds `x` and keeps every row. */
  lemma {:induction false} InsertDescPerm(x: HeatRow, rs: seq<HeatRow>)
    ensures multiset(InsertDesc(x, rs)) == multiset(rs) + multiset{x}
  {
    if rs != [] && rs[0].count >= x.count {
      InsertDescPerm(x, rs[1..]);
      assert rs == [rs[0]] + rs[1..];
    }
  }

  /** Inserting into a descending sequence keeps it descending. */
  lemma {:induction false} InsertDescSorted(x: HeatRow, rs: seq<HeatRow>)
    requires Descending(rs)
    ensures Descending(InsertDesc(x, rs))
  {
    if rs != [] && rs[0].count >= x.count {
      var tail := InsertDesc(x, rs[1..]);
      InsertDescSorted(x, rs[1..]);
      InsertDescPerm(x, rs[1..]);
      forall e | e in tail ensures e.count <= rs[0].count {
        assert e in multiset(tail);
        if e != x {
          assert e in multiset(rs[1..]);
        }
      }
      assert forall i :: 0 < i < |[rs[0]] + tail| ==> ([rs[0]] + tail)[i] in tail;
    }
  }

  /** The sorted copy is descending and holds exactly the month's rows. */
  lemma {:induction false} SortDescMeaning(rs: seq<HeatRow>)
    ensures Descending(SortDesc(rs))
    ensures multiset(SortDesc(rs)) == multiset(rs)
  {
    if rs != [] {
      var init := rs[..|rs| - 1];
      SortDescMeaning(init);
      InsertDescSorted(rs[|rs| - 1], SortDesc(init));
      InsertDescPerm(rs[|rs| - 1], SortDesc(init));
      assert rs == init + [rs[|rs| - 1]];
    }
  }

  /** `.slice(0, 12)` of the sorted copy. */
  function TopRows(rs: seq<HeatRow>): seq<HeatRow> {
    var sorted := SortDesc(rs);
    if |sorted| <= TopLimit then sorted else sorted[..TopLimit]
  }

  /** In a descending sequence, nothing after a cut counts more than anything before it. */
  lemma CutDescending(s: seq<HeatRow>, n: nat)
    requires Descending(s) && n <= |s|
    ensures Descending(s[..n])
    ensures forall r, t :: r in s[n..] && t in s[..n] ==> r.count <= t.count
  {
    forall r, t | r in s[n..] && t in s[..n] ensures r.count <= t.count {
      var j :| 0 <= j < |s[n..]| && s[n..][j] == r;
      var i :| 0 <= i < n && s[..n][i] == t;
      assert s[n + j] == r && s[i] == t;
    }
  }

  /**
   * At most twelve rows, largest first, all taken from the month's rows; every row left out
   * counts no more than any row shown.
   */
  lemma TopRowsMeaning(rs: seq<HeatRow>)
    ensures var top := TopRows(rs);
      && |top| == (if |rs| <= TopLimit then |rs| else TopLimit)
      && Descending(top)
      && multiset(top) <= multiset(rs)
      && forall r, t :: r in multiset(rs) - multiset(top) && t in top ==> r.count <= t.count
  {
    var sorted := SortDesc(rs);
    SortDescMeaning(rs);
    var top := TopRows(rs);
    var n := |top|;
    assert |sorted| == |rs| by {
      assert |multiset(sorted)| == |multiset(rs)|;
    }
    assert sorted == top + sorted[n..];
    assert top == sorted[..n];
    CutDescending(sorted, n);
    assert multiset(rs) == multiset(top) + multiset(sorted[n..]);
    forall r, t | r in multiset(rs) - multiset(top) && t in top ensures r.count <= t.count {
      assert r in sorted[n..];
    }
  }

  // ---------------------------------------------------------------------------------------
  // The vehicle pie
  // ---------------------------------------------------------------------------------------

  const Palette: seq<string> := ["#ef4444", "#0ea5e9", "#22c55e", "#a855f7", "#f59e0b", "#14b8a6", "#3b82f6"]

  /** `palette[i % 7]` for the pie's `i`-th slice. */
  function PieColour(i: nat): string {
    Palette[i % |Palette|]
  }

  /** The seven vehicle slices get seven different colours. */
  lemma VehicleColoursDistinct(store: seq<Incident>, w: Where)
    ensures var vs := Vehicles(store, w);
      forall i, j :: 0 <= i < j < |vs| ==> PieColour(i) != PieColour(j)
  {
    assert |VehicleKinds| == 7;
  }
}
