/**
 * The records table on the dashboard: its page, filter and editor state, the handlers that
 * change them, the pager's arithmetic, and the query strings it sends to the records and
 * export routes.
 */
module Table {
  import opened Wrappers
  import opened Numerals
  import opened Calendar
  import opened Incidents
  import opened UrlQuery
  import opened Filters
  import opened Records

  /** `{ startDate, endDate, municipality?, classification?, q? }`; an absent key is `None`. */
  datatype TableFilters = TableFilters(
    startDate: string, endDate: string,
    municipality: Option<string>, classification: Option<string>, q: Option<string>)

  /** The page size the table asks for. */
  const TablePageSize: nat := 20

  // ---------------------------------------------------------------------------------------
  // Query strings
  // ---------------------------------------------------------------------------------------

  /** `Object.entries(filters)`, in the order the filters' keys were first set. */
  function FilterEntries(f: TableFilters): seq<Param> {
    [("startDate", Some(f.startDate)), ("endDate", Some(f.endDate)), ("municipality", f.municipality),
     ("classification", f.classification), ("q", f.q)]
  }

  /** `{ page, pageSize: 20, ...filters }`. */
  function FetchEntries(page: nat, f: TableFilters): seq<Param> {
    [("page", Some(NatToString(page))), ("pageSize", Some(NatToString(TablePageSize)))] + FilterEntries(f)
  }

  /** The records request: `fetchRecords` drops only null and undefined. */
  function FetchQuery(page: nat, f: TableFilters): Query {
    Kept(FetchEntries(page, f), false)
  }

  /** The export link: `paramsForExport` drops every falsy value, the empty string too. */
  function ExportQuery(f: TableFilters): Query {
    Kept(FilterEntries(f), true)
  }

  function NonEmpty(v: Option<string>): Option<string> {
    if v.Some? && v.value != "" then v else None
  }

  /** The records route reads the table's page and its page size of 20 back. */
  lemma FetchPagingRead(page: nat, f: TableFilters)
    requires page >= 1
    ensures PagingOf(FetchQuery(page, f)) == Ok(Paging(page, TablePageSize))
  {
    var es := FetchEntries(page, f);
    assert DistinctNames(es);
    ReadBack(es, 0, false);
    ReadBack(es, 1, false);
    NumberValueOfNumeral(page);
    NumberValueOfNumeral(TablePageSize);
  }

  /** The records route reads the table's filters back as they are, empty strings included. */
  lemma FetchParamsRead(page: nat, f: TableFilters)
    ensures ParamsOf(FetchQuery(page, f)) ==
      FilterParams(Some(f.startDate), Some(f.endDate), None, f.municipality, f.classification, f.q)
  {
    var es := FetchEntries(page, f);
    assert DistinctNames(es);
    ReadBack(es, 2, false);
    ReadBack(es, 3, false);
    ReadAbsent(es, "year", false);
    ReadBack(es, 4, false);
    ReadBack(es, 5, false);
    ReadBack(es, 6, false);
  }

  /** The export route reads the export link's filters back, each left out when empty. */
  lemma ExportParamsRead(f: TableFilters)
    ensures ParamsOf(ExportQuery(f)) ==
      FilterParams(NonEmpty(Some(f.startDate)), NonEmpty(Some(f.endDate)), None,
                   NonEmpty(f.municipality), NonEmpty(f.classification), NonEmpty(f.q))
  {
    var es := FilterEntries(f);
    assert DistinctNames(es);
    ReadBack(es, 0, true);
    ReadBack(es, 1, true);
    ReadAbsent(es, "year", true);
    ReadBack(es, 2, true);
    ReadBack(es, 3, true);
    ReadBack(es, 4, true);
  }

  /**
   * The two ways of building parameters differ, yet the export link selects what the table
   * shows except for the search: the routes treat an empty parameter as an absent one.
   */
  lemma ExportMatchesTable(page: nat, f: TableFilters)
    ensures ExportWhere(ParamsOf(ExportQuery(f))) == RecordsWhere(ParamsOf(FetchQuery(page, f)).(q := None))
  {
    FetchParamsRead(page, f);
    ExportParamsRead(f);
    var exported := ParamsOf(ExportQuery(f));
    var shown := ParamsOf(FetchQuery(page, f)).(q := None);
    ExportIsRecordsWithoutSearch(shown);
    assert shown.(q := None) == shown;
    ExportWhereOfNonEmpty(shown, exported);
  }

  /** Dropping empty parameters does not change the export's `where`. */
  lemma ExportWhereOfNonEmpty(p: FilterParams, e: FilterParams)
    requires e.startDate == NonEmpty(p.startDate) && e.endDate == NonEmpty(p.endDate)
    requires e.municipality == NonEmpty(p.municipality) && e.classification == NonEmpty(p.classification)
    ensures ExportWhere(e) == ExportWhere(p)
  {
    assert SuppliedDates(e) == SuppliedDates(p);
  }

  // ---------------------------------------------------------------------------------------
  // The pager
  // ---------------------------------------------------------------------------------------

  /** `{ page, pageSize, total }` from the last response, `None` while it loads. */
  datatype PageInfo = PageInfo(page: nat, pageSize: nat, total: nat)

  function ShownPage(data: Option<PageInfo>, page: nat): nat {
    if data.Some? then data.value.page else page
  }

  function ShownSize(data: Option<PageInfo>): nat {
    if data.Some? then data.value.pageSize else TablePageSize
  }

  function ShownTotal(data: Option<PageInfo>): nat {
    if data.Some? then data.value.total else 0
  }

  /** `Math.max(1, Math.ceil(total / pageSize))`. */
  function PageCount(total: nat, pageSize: nat): (n: nat)
    requires pageSize > 0
    ensures n >= 1
    ensures total <= n * pageSize
    ensures n == 1 || (n - 1) * pageSize < total
  {
    if total == 0 then 1 else (total + pageSize - 1) / pageSize
  }

  /** `(data?.page ?? page) <= 1`. */
  predicate PrevDisabled(data: Option<PageInfo>, page: nat) {
    ShownPage(data, page) <= 1
  }

  /** `(data?.page ?? page) * (data?.pageSize ?? 20) >= (data?.total ?? 0)`. */
  predicate NextDisabled(data: Option<PageInfo>, page: nat) {
    ShownPage(data, page) * ShownSize(data) >= ShownTotal(data)
  }

  /** Next is disabled exactly on the last page the footer counts, and on any page past it. */
  lemma NextDisabledOnLastPage(data: Option<PageInfo>, page: nat)
    requires ShownSize(data) > 0 && ShownPage(data, page) >= 1
    ensures NextDisabled(data, page) <==> ShownPage(data, page) >= PageCount(ShownTotal(data), ShownSize(data))
  {
    var p, size, total := ShownPage(data, page), ShownSize(data), ShownTotal(data);
    var n := PageCount(total, size);
    if p >= n {
      MulMonotone(n, p, size);
    } else {
      MulMonotone(p, n - 1, size);
    }
  }

  lemma MulMonotone(a: nat, b: nat, c: nat)
    requires a <= b
    ensures a * c <= b * c
  {
  }

  // ---------------------------------------------------------------------------------------
  // The editor
  // ---------------------------------------------------------------------------------------

  /** The `PATCH /api/records/:id` request a save sends. */
  datatype PatchRequest = PatchRequest(id: nat, values: map<string, string>)

  /** The seven fields the editor shows. */
  const EditKeys: set<string> :=
    {"date", "time", "municipality", "classification", "type", "location", "vehicles_involved"}

  /** `openEdit`'s initial values: each field, with null shown as `''` and the date as `YYYY-MM-DD`. */
  function EditValuesOf(r: Incident): (vs: map<string, string>)
    ensures vs.Keys == EditKeys
    ensures vs["date"] == if r.date.Some? then DayText(r.date.value.date) else ""
    ensures vs["municipality"] == r.municipality.GetOr("") && vs["classification"] == r.classification.GetOr("")
    ensures vs["time"] == r.time.GetOr("") && vs["type"] == r.kind.GetOr("")
    ensures vs["location"] == r.location.GetOr("") && vs["vehicles_involved"] == r.vehiclesInvolved.GetOr("")
  {
    map["date" := if r.date.Some? then DayText(r.date.value.date) else "",
        "time" := r.time.GetOr(""),
        "municipality" := r.municipality.GetOr(""),
        "classification" := r.classification.GetOr(""),
        "type" := r.kind.GetOr(""),
        "location" := r.location.GetOr(""),
        "vehicles_involved" := r.vehiclesInvolved.GetOr("")]
  }

  /** The date an editor opened on a row shows reads back as the start of that row's day. */
  lemma EditDateReadsBack(r: Incident)
    requires r.date.Some? && ValidDay(r.date.value.date)
    ensures ParseDate(EditValuesOf(r)["date"]) == Some(StartOfDay(r.date.value.date))
  {
    DayTextRoundTrip(r.date.value.date);
  }

  /** `RecordsTable`'s state. */
  class RecordsTable {
    var page: nat
    var filters: TableFilters
    var isEditOpen: bool
    var editId: Option<nat>
    var editValues: map<string, string>

    /** The page is never below 1. */
    predicate Valid()
      reads this
    {
      page >= 1
    }

    constructor(initialFilters: TableFilters)
      ensures Valid()
      ensures page == 1 && filters == initialFilters
      ensures !isEditOpen && editId == None && editValues == map[]
    {
      page := 1;
      filters := initialFilters;
      isEditOpen := false;
      editId := None;
      editValues := map[];
    }

    /** `fetchRecords({ page, pageSize: 20, ...filters })`: the query the table sends. */
    method Request() returns (sp: Query)
      ensures sp == FetchQuery(page, filters)
    {
      sp := FromEntries(FetchEntries(page, filters), false);
    }

    /** `paramsForExport`: the query of the export link. */
    method ExportLink() returns (sp: Query)
      ensures sp == ExportQuery(filters)
    {
      sp := FromEntries(FilterEntries(filters), true);
    }

    /** Typing in the search box: back to page 1 with the new `q`. */
    method SetSearch(v: string)
      modifies this
      ensures Valid()
      ensures page == 1 && filters == old(filters).(q := Some(v))
      ensures isEditOpen == old(isEditOpen) && editId == old(editId) && editValues == old(editValues)
    {
      page := 1;
      filters := filters.(q := Some(v));
    }

    /** Picking a municipality (`'all'` included): back to page 1. */
    method SetMunicipality(v: string)
      modifies this
      ensures Valid()
      ensures page == 1 && filters == old(filters).(municipality := Some(v))
      ensures isEditOpen == old(isEditOpen) && editId == old(editId) && editValues == old(editValues)
    {
      page := 1;
      filters := filters.(municipality := Some(v));
    }

    /** Picking a classification (`'all'` included): back to page 1. */
    method SetClassification(v: string)
      modifies this
      ensures Valid()
      ensures page == 1 && filters == old(filters).(classification := Some(v))
      ensures isEditOpen == old(isEditOpen) && editId == old(editId) && editValues == old(editValues)
    {
      page := 1;
      filters := filters.(classification := Some(v));
    }

    /** Prev: nothing while disabled, otherwise `setPage(p => Math.max(1, p - 1))`. */
    method ClickPrev(data: Option<PageInfo>)
      requires Valid()
      modifies this
      ensures Valid()
      ensures PrevDisabled(data, old(page)) ==> page == old(page)
      ensures !PrevDisabled(data, old(page)) ==> page == if old(page) > 1 then old(page) - 1 else 1
      ensures filters == old(filters) && isEditOpen == old(isEditOpen) && editId == old(editId)
      ensures editValues == old(editValues)
    {
      if !PrevDisabled(data, page) {
        page := if page - 1 > 1 then page - 1 else 1;
      }
    }

    /** Next: nothing while disabled, otherwise `setPage(p => p + 1)`. */
    method ClickNext(data: Option<PageInfo>)
      requires Valid()
      modifies this
      ensures Valid()
      ensures NextDisabled(data, old(page)) ==> page == old(page)
      ensures !NextDisabled(data, old(page)) ==> page == old(page) + 1
      ensures filters == old(filters) && isEditOpen == old(isEditOpen) && editId == old(editId)
      ensures editValues == old(editValues)
    {
      if !NextDisabled(data, page) {
        page := page + 1;
      }
    }

    /** `openEdit(r)`: remember the row's id, fill the seven fields, open the editor. */
    method OpenEdit(r: Incident)
      requires Valid()
      modifies this
      ensures Valid()
      ensures editId == Some(r.id) && editValues == EditValuesOf(r) && isEditOpen
      ensures page == old(page) && filters == old(filters)
    {
      editId := Some(r.id);
      editValues := EditValuesOf(r);
      isEditOpen := true;
    }

    /** `setField(key, value)`: that key takes the value, every other key keeps its own. */
    method SetField(key: string, value: string)
      requires Valid()
      modifies this
      ensures Valid()
      ensures editValues == old(editValues)[key := value]
      ensures page == old(page) && filters == old(filters) && isEditOpen == old(isEditOpen) && editId == old(editId)
    {
      editValues := editValues[key := value];
    }

    /** `handleSave`: nothing without a row being edited; otherwise the PATCH of the edited values. */
    method HandleSave() returns (req: Option<PatchRequest>)
      ensures editId.None? <==> req.None?
      ensures req.Some? ==> req.value == PatchRequest(editId.value, editValues)
    {
      if editId.None? {
        return None;
      }
      req := Some(PatchRequest(editId.value, editValues));
    }

    /** A save that succeeded: the editor closes and forgets the row. */
    method OnSuccess()
      requires Valid()
      modifies this
      ensures Valid()
      ensures !isEditOpen && editId == None
      ensures page == old(page) && filters == old(filters) && editValues == old(editValues)
    {
      isEditOpen := false;
      editId := None;
    }

    /** Cancel or the close button: the editor closes, the row it was on is kept. */
    method CloseEditor()
      requires Valid()
      modifies this
      ensures Valid()
      ensures !isEditOpen
      ensures page == old(page) && filters == old(filters) && editId == old(editId) && editValues == old(editValues)
    {
      isEditOpen := false;
    }
  }

  /** Setting a field leaves every other field's value as it was, and the field reads back. */
  lemma SetFieldOnly(vs: map<string, string>, key: string, value: string)
    ensures key in vs[key := value] && vs[key := value][key] == value
    ensures forall k :: k != key ==> ((k in vs[key := value] <==> k in vs) && (k in vs ==> vs[key := value][k] == vs[k]))
  {
  }
}
