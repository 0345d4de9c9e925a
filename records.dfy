/**
 * `GET /api/records`: one page of the filtered rows, newest first, with the filtered total
 * and the municipality and classification facets of the whole table.
 */
module Records {
  import opened Wrappers
  import opened Numerals
  import opened Incidents
  import opened Filters
  import opened UrlQuery
  import opened Analytics

  /** `page` and the clamped `pageSize` of a request. */
  datatype Paging = Paging(page: nat, pageSize: nat)

  const DefaultPageSize: nat := 20
  const MaxPageSize: nat := 200

  /**
   * `Number(searchParams.get('page') ?? '1')` and
   * `Math.min(Number(searchParams.get('pageSize') ?? '20'), 200)`; a `page` of 0 with a
   * positive size gives a negative `skip`, which the store query rejects.
   */
  function PagingOf(query: Query): (r: Result<Paging, RequestError>)
    ensures r.Ok? ==> r.value.pageSize <= MaxPageSize
  {
    var page := NumberValue(Get(query, "page").GetOr("1"));
    var requested := NumberValue(Get(query, "pageSize").GetOr("20"));
    if page.None? then Err(InvalidPage)
    else if requested.None? then Err(InvalidPageSize)
    else
      var size := if requested.value < MaxPageSize then requested.value else MaxPageSize;
      if page.value == 0 && size > 0 then Err(InvalidPage) else Ok(Paging(page.value, size))
  }

  /** `(page - 1) * pageSize`, never negative once the paging is accepted. */
  function Skip(pg: Paging): nat {
    if pg.page == 0 then 0 else (pg.page - 1) * pg.pageSize
  }

  /** `{ municipalities, classifications }`: sorted, distinct, non-blank normalised values. */
  datatype Facets = Facets(municipalities: seq<string>, classifications: seq<string>)

  /** The JSON body of a successful response. */
  datatype RecordsPage = RecordsPage(total: nat, page: nat, pageSize: nat, rows: seq<Incident>, facets: Facets)

  function FacetsOf(store: seq<Incident>): Facets {
    Facets(FacetNames(ColumnValues(store, MunicipalityColumn)), FacetNames(ColumnValues(store, ClassificationColumn)))
  }

  /** One page of the filtered rows in `ORDER BY date DESC` order. */
  function PageRows(store: seq<Incident>, w: Where, pg: Paging): seq<Incident> {
    FindNewest(store, w, Skip(pg), pg.pageSize)
  }

  /** `GET /api/records?...`. */
  method HandleRecords(store: seq<Incident>, query: Query) returns (r: Result<RecordsPage, RequestError>)
    ensures r.Ok? <==> RecordsWhere(ParamsOf(query)).Ok? && PagingOf(query).Ok?
    ensures r.Ok? ==>
      var w, pg := RecordsWhere(ParamsOf(query)).value, PagingOf(query).value;
      r.value == RecordsPage(Count(store, w), pg.page, pg.pageSize, PageRows(store, w, pg), FacetsOf(store))
  {
    var where := BuildRecordsWhere(ParamsOf(query));
    var paging := PagingOf(query);
    if where.Err? {
      return Err(where.error);
    }
    if paging.Err? {
      return Err(paging.error);
    }
    var w, pg := where.value, paging.value;
    r := Ok(RecordsPage(Count(store, w), pg.page, pg.pageSize, PageRows(store, w, pg), FacetsOf(store)));
  }

  /** Without `page` and `pageSize` the first page of 20 rows is served. */
  lemma PagingDefaults(query: Query)
    requires !HasKey(query, "page") && !HasKey(query, "pageSize")
    ensures PagingOf(query) == Ok(Paging(1, DefaultPageSize))
  {
    assert NumberValue("1") == Some(1) by { NumberValueOfNumeral(1); }
    assert NumberValue("20") == Some(20) by { NumberValueOfNumeral(20); }
  }

  /** A requested size is served as asked up to 200, and as 200 beyond. */
  lemma PageSizeClamped(query: Query, page: nat, requested: nat)
    requires Get(query, "page") == Some(NatToString(page)) && page >= 1
    requires Get(query, "pageSize") == Some(NatToString(requested))
    ensures PagingOf(query) == Ok(Paging(page, if requested <= MaxPageSize then requested else MaxPageSize))
  {
    assert Get(query, "page").GetOr("1") == NatToString(page);
    assert Get(query, "pageSize").GetOr("20") == NatToString(requested);
    NumberValueOfNumeral(page);
    NumberValueOfNumeral(requested);
  }

  /**
   * A page holds `pageSize` rows while the filtered rows last, fewer on the last page and
   * none past it; every row matches the filters, and the rows run newest first.
   */
  lemma PageRowsMeaning(store: seq<Incident>, w: Where, pg: Paging)
    ensures var rows, total := PageRows(store, w, pg), Count(store, w);
      |rows| == (if Skip(pg) >= total then 0 else if Skip(pg) + pg.pageSize <= total then pg.pageSize else total - Skip(pg))
      && NewestFirst(rows)
      && forall x :: x in rows ==> x in store && Matches(w, x)
  {
    var sorted := SortNewestFirst(Select(store, w));
    assert |sorted| == |multiset(sorted)| == Count(store, w);
  }

  /**
   * Consecutive pages of one size follow each other without gap or overlap, whatever order each
   * page's query gives rows of equal date, as long as no two matching rows share a date.
   */
  lemma PagesFollowEachOther(store: seq<Incident>, w: Where, pg: Paging, first: seq<Incident>, second: seq<Incident>)
    requires pg.page >= 1
    requires IsNewestFirstOrder(store, w, first) && IsNewestFirstOrder(store, w, second)
    requires DistinctDates(Select(store, w))
    ensures Window(first, Skip(pg), pg.pageSize) + Window(second, Skip(pg.(page := pg.page + 1)), pg.pageSize)
      == FindNewest(store, w, Skip(pg), pg.pageSize + pg.pageSize)
  {
    NextSkip(pg);
    FindNewestTile(store, w, first, second, Skip(pg), pg.pageSize);
  }

  lemma NextSkip(pg: Paging)
    requires pg.page >= 1
    ensures Skip(pg.(page := pg.page + 1)) == Skip(pg) + pg.pageSize
  {
    MulStep(pg.page + 1, pg.pageSize);
  }

  lemma MulStep(page: nat, size: nat)
    requires page >= 1
    ensures (page - 1) * size + size == page * size
  {
  }
}
