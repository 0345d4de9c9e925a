/**
 * The `traffic_incidents` store, held in memory, and the Prisma queries the routes issue on it:
 * `count`, `findMany` with `orderBy: { date: 'desc' }`, `skip` and `take`, `groupBy` on one column.
 */
module Incidents {
  import opened Wrappers
  import opened Text
  import opened Calendar
  import opened Numerals

  /** A latitude or longitude, held as the decimal text `String(x)` gives it; it is only ever copied. */
  datatype Coordinate = Coordinate(text: string)

  /** A column value as a query returns it. */
  datatype Value = Null | Str(s: string) | Stamp(t: Instant)

  /**
   * One row. `kind` is the `type` column. The columns only the CSV export reads
   * (district, barangay, narratives, team, created_at, ...) are in `others`.
   */
  datatype Incident = Incident(
    id: nat,
    date: Option<Instant>,
    time: Option<string>,
    kind: Option<string>,
    classification: Option<string>,
    location: Option<string>,
    municipality: Option<string>,
    vehiclesInvolved: Option<string>,
    latitude: Option<Coordinate>,
    longitude: Option<Coordinate>,
    others: map<string, Value>)

  /** `{ gte, lte }` on the `date` column; a bound that is absent is not applied. */
  datatype DateRange = DateRange(gte: Option<Instant>, lte: Option<Instant>)

  /** `column = v` or `{ equals: v, mode: 'insensitive' }`. */
  datatype TextCondition = Equals(value: string) | EqualsInsensitive(value: string)

  /**
   * A Prisma `where` object: one optional condition per column the routes filter on, and
   * `search`, the `OR` of case-insensitive `contains` on location, vehicles_involved and type.
   */
  datatype Where = Where(
    date: Option<DateRange>,
    municipality: Option<TextCondition>,
    classification: Option<TextCondition>,
    vehiclesContains: Option<string>,
    search: Option<string>)

  const NoConditions: Where := Where(None, None, None, None, None)

  /** SQL comparison semantics: a null date fails every bound that is present. */
  predicate InRange(d: Option<Instant>, range: DateRange) {
    (range.gte.Some? ==> d.Some? && NotAfter(range.gte.value, d.value))
    && (range.lte.Some? ==> d.Some? && NotAfter(d.value, range.lte.value))
  }

  predicate TextHolds(c: Option<TextCondition>, field: Option<string>) {
    match c
    case None => true
    case Some(Equals(v)) => field == Some(v)
    case Some(EqualsInsensitive(v)) => EqualsIgnoreCase(field, v)
  }

  predicate SearchHolds(q: Option<string>, r: Incident) {
    q.None? || ContainsIgnoreCase(r.location, q.value) || ContainsIgnoreCase(r.vehiclesInvolved, q.value)
    || ContainsIgnoreCase(r.kind, q.value)
  }

  /** The row satisfies every condition of `w`. */
  predicate Matches(w: Where, r: Incident) {
    (w.date.Some? ==> InRange(r.date, w.date.value))
    && TextHolds(w.municipality, r.municipality)
    && TextHolds(w.classification, r.classification)
    && (w.vehiclesContains.Some? ==> ContainsIgnoreCase(r.vehiclesInvolved, w.vehiclesContains.value))
    && SearchHolds(w.search, r)
  }

  /** The rows that satisfy `w`, in store order. */
  function Select(store: seq<Incident>, w: Where): (rs: seq<Incident>)
    ensures |rs| <= |store|
    ensures forall r :: r in rs <==> r in store && Matches(w, r)
    ensures forall r :: multiset(rs)[r] == if Matches(w, r) then multiset(store)[r] else 0
  {
    if store == [] then []
    else
      assert store == [store[0]] + store[1..];
      (if Matches(w, store[0]) then [store[0]] else []) + Select(store[1..], w)
  }

  /** An empty `where` selects the whole store. */
  lemma {:induction false} SelectNoConditions(store: seq<Incident>)
    ensures Select(store, NoConditions) == store
  {
    if store != [] {
      SelectNoConditions(store[1..]);
      assert [store[0]] + store[1..] == store;
    }
  }

  /** `prisma.traffic_incidents.count({ where })`. */
  function Count(store: seq<Incident>, w: Where): nat {
    |Select(store, w)|
  }

  /** A stronger `where` never counts more rows. */
  lemma {:induction false} CountMonotone(store: seq<Incident>, w1: Where, w2: Where)
    requires forall r :: Matches(w1, r) ==> Matches(w2, r)
    ensures Count(store, w1) <= Count(store, w2)
  {
    if store != [] {
      CountMonotone(store[1..], w1, w2);
    }
  }

  /** `a` may precede `b` under `ORDER BY date DESC`, where PostgreSQL puts null dates first. */
  predicate NoOlder(a: Incident, b: Incident) {
    a.date.None? || (b.date.Some? && NotAfter(b.date.value, a.date.value))
  }

  lemma NoOlderTotal(a: Incident, b: Incident)
    ensures NoOlder(a, b) || NoOlder(b, a)
  {
  }

  lemma NoOlderTransitive(a: Incident, b: Incident, c: Incident)
    requires NoOlder(a, b) && NoOlder(b, c)
    ensures NoOlder(a, c)
  {
  }

  predicate NewestFirst(rs: seq<Incident>) {
    forall i, j :: 0 <= i < j < |rs| ==> NoOlder(rs[i], rs[j])
  }

  /** Inserts `x` before the first row it may precede. */
  function InsertByDate(x: Incident, rs: seq<Incident>): (r: seq<Incident>)
    ensures multiset(r) == multiset(rs) + multiset{x}
  {
    if rs == [] || NoOlder(x, rs[0]) then [x] + rs
    else
      assert rs == [rs[0]] + rs[1..];
      [rs[0]] + InsertByDate(x, rs[1..])
  }

  lemma {:induction false} InsertByDateSorted(x: Incident, rs: seq<Incident>)
    requires NewestFirst(rs)
    ensures NewestFirst(InsertByDate(x, rs))
  {
    if rs == [] {
    } else if NoOlder(x, rs[0]) {
      forall j | 0 <= j < |rs| ensures NoOlder(x, rs[j]) {
        if j > 0 { NoOlderTransitive(x, rs[0], rs[j]); }
      }
    } else {
      var tail := InsertByDate(x, rs[1..]);
      InsertByDateSorted(x, rs[1..]);
      NoOlderTotal(x, rs[0]);
      HeadPrecedesInsert(x, rs);
      var r := [rs[0]] + tail;
      forall i, j | 0 <= i < j < |r| ensures NoOlder(r[i], r[j]) {
        if i > 0 { assert r[i] == tail[i - 1] && r[j] == tail[j - 1]; }
      }
    }
  }

  /** The head of a newest-first list precedes every row of its tail with an older row inserted. */
  lemma HeadPrecedesInsert(x: Incident, rs: seq<Incident>)
    requires rs != [] && NewestFirst(rs) && NoOlder(rs[0], x)
    ensures forall j :: 0 <= j < |InsertByDate(x, rs[1..])| ==> NoOlder(rs[0], InsertByDate(x, rs[1..])[j])
  {
    var tail := InsertByDate(x, rs[1..]);
    forall j | 0 <= j < |tail| ensures NoOlder(rs[0], tail[j]) {
      assert tail[j] in multiset(tail);
      if tail[j] != x {
        assert tail[j] in multiset(rs[1..]);
        var m :| 0 <= m < |rs[1..]| && rs[1..][m] == tail[j];
        assert rs[m + 1] == tail[j];
      }
    }
  }

  /** The rows in `ORDER BY date DESC` order (rows with equal dates may come in any order). */
  function SortNewestFirst(rs: seq<Incident>): (r: seq<Incident>)
    ensures multiset(r) == multiset(rs)
  {
    if rs == [] then []
    else
      assert rs == [rs[0]] + rs[1..];
      InsertByDate(rs[0], SortNewestFirst(rs[1..]))
  }

  /** Sorting yields newest-first order. */
  lemma {:induction false} SortNewestFirstSorted(rs: seq<Incident>)
    ensures NewestFirst(SortNewestFirst(rs))
  {
    if rs != [] {
      SortNewestFirstSorted(rs[1..]);
      InsertByDateSorted(rs[0], SortNewestFirst(rs[1..]));
    }
  }

  /** `skip`/`take` on an ordered result. */
  function Window<T>(s: seq<T>, skip: nat, take: nat): (r: seq<T>)
    ensures |r| <= take
    ensures skip <= |s| ==> |r| == if skip + take <= |s| then take else |s| - skip
    ensures forall i :: 0 <= i < |r| ==> skip + i < |s| && r[i] == s[skip + i]
  {
    if skip >= |s| then [] else if skip + take <= |s| then s[skip..skip + take] else s[skip..]
  }

  /** Two adjacent windows make up the window that spans both. */
  lemma WindowsTile<T>(s: seq<T>, skip: nat, n: nat, m: nat)
    ensures Window(s, skip, n) + Window(s, skip + n, m) == Window(s, skip, n + m)
  {
    if skip + n >= |s| {
      assert Window(s, skip + n, m) == [];
    }
  }

  /** `findMany({ where, orderBy: { date: 'desc' }, skip, take })`. */
  function FindNewest(store: seq<Incident>, w: Where, skip: nat, take: nat): (r: seq<Incident>)
    ensures |r| <= take && |r| <= Count(store, w)
    ensures skip <= Count(store, w) ==>
      |r| == if skip + take <= Count(store, w) then take else Count(store, w) - skip
    ensures NewestFirst(r)
    ensures forall x :: x in r ==> x in store && Matches(w, x)
  {
    var sorted := SortNewestFirst(Select(store, w));
    SortNewestFirstSorted(Select(store, w));
    var r := Window(sorted, skip, take);
    assert |sorted| == |multiset(sorted)|;
    forall x | x in r ensures x in store && Matches(w, x) {
      var i :| 0 <= i < |r| && r[i] == x;
      assert x in multiset(sorted);
    }
    r
  }

  /** `findMany` with `skip` and `take` is a window on the whole ordered result. */
  lemma FindNewestWindow(store: seq<Incident>, w: Where, skip: nat, take: nat)
    ensures FindNewest(store, w, skip, take) == Window(SortNewestFirst(Select(store, w)), skip, take)
  {
  }

  /**
   * No two different rows share a date (null included). Only then is `ORDER BY date DESC` a
   * single order: PostgreSQL may order rows with equal dates differently in every query.
   */
  predicate DistinctDates(rs: seq<Incident>) {
    forall x, y :: x in rs && y in rs && x.date == y.date ==> x == y
  }

  /** An order the store may return for `orderBy: { date: 'desc' }` on the rows matching `w`. */
  predicate IsNewestFirstOrder(store: seq<Incident>, w: Where, o: seq<Incident>) {
    multiset(o) == multiset(Select(store, w)) && NewestFirst(o)
  }

  /** Two rows that may each precede the other have the same date. */
  lemma NoOlderBothWays(a: Incident, b: Incident)
    requires NoOlder(a, b) && NoOlder(b, a)
    ensures a.date == b.date
  {
  }

  /** With distinct dates there is only one newest-first order of a set of rows. */
  lemma {:induction false} NewestFirstUnique(a: seq<Incident>, b: seq<Incident>)
    requires multiset(a) == multiset(b) && NewestFirst(a) && NewestFirst(b) && DistinctDates(a)
    ensures a == b
  {
    assert |a| == |multiset(a)| == |multiset(b)| == |b|;
    if a != [] {
      SameHead(a, b);
      TailOf(a);
      TailOf(b);
      assert multiset(a[1..]) == multiset(b[1..]);
      NewestFirstUnique(a[1..], b[1..]);
    }
  }

  /** Two newest-first orders of the same rows with distinct dates start with the same row. */
  lemma SameHead(a: seq<Incident>, b: seq<Incident>)
    requires a != [] && b != []
    requires multiset(a) == multiset(b) && NewestFirst(a) && NewestFirst(b) && DistinctDates(a)
    ensures a[0] == b[0]
  {
    assert a[0] in multiset(b) && b[0] in multiset(a);
    var i :| 0 <= i < |a| && a[i] == b[0];
    var j :| 0 <= j < |b| && b[j] == a[0];
    assert NoOlder(a[0], b[0]) by { if i > 0 { assert NoOlder(a[0], a[i]); } }
    assert NoOlder(b[0], a[0]) by { if j > 0 { assert NoOlder(b[0], b[j]); } }
    NoOlderBothWays(a[0], b[0]);
  }

  /** The tail of a newest-first list with distinct dates is one too, with the head's count removed. */
  lemma TailOf(a: seq<Incident>)
    requires a != [] && NewestFirst(a)
    ensures NewestFirst(a[1..])
    ensures multiset(a[1..]) == multiset(a) - multiset{a[0]}
    ensures DistinctDates(a) ==> DistinctDates(a[1..])
  {
    assert a == [a[0]] + a[1..];
    forall i, j | 0 <= i < j < |a[1..]| ensures NoOlder(a[1..][i], a[1..][j]) {
      assert a[1..][i] == a[i + 1] && a[1..][j] == a[j + 1];
    }
  }

  /** With distinct dates, whatever order the store picks is the model's `SortNewestFirst`. */
  lemma AnyOrderIsSorted(store: seq<Incident>, w: Where, o: seq<Incident>)
    requires IsNewestFirstOrder(store, w, o) && DistinctDates(Select(store, w))
    ensures o == SortNewestFirst(Select(store, w))
  {
    var sorted := SortNewestFirst(Select(store, w));
    SortNewestFirstSorted(Select(store, w));
    forall x | x in o ensures x in Select(store, w) {
      assert x in multiset(o);
    }
    NewestFirstUnique(o, sorted);
  }

  /**
   * Two `findMany` queries for adjacent windows, each free to order equal dates its own way,
   * make up the window that spans both, provided no two matching rows share a date.
   */
  lemma FindNewestTile(store: seq<Incident>, w: Where, first: seq<Incident>, second: seq<Incident>, skip: nat, size: nat)
    requires IsNewestFirstOrder(store, w, first) && IsNewestFirstOrder(store, w, second)
    requires DistinctDates(Select(store, w))
    ensures Window(first, skip, size) + Window(second, skip + size, size) == FindNewest(store, w, skip, size + size)
  {
    AnyOrderIsSorted(store, w, first);
    AnyOrderIsSorted(store, w, second);
    FindNewestWindow(store, w, skip, size + size);
    WindowsTile(SortNewestFirst(Select(store, w)), skip, size, size);
  }

  /**
   * Without distinct dates separate page queries need not join: two rows of the same day, which
   * one query returns in one order and the next query in the other, give the same row on page 1
   * and on page 2 (and the other row on neither).
   */
  lemma TiedPagesMayRepeat(a: Incident, b: Incident)
    requires a != b && a.date == b.date
    ensures var store := [a, b];
      IsNewestFirstOrder(store, NoConditions, [a, b]) && IsNewestFirstOrder(store, NoConditions, [b, a])
      && Window([a, b], 0, 1) + Window([b, a], 1, 1) == [a, a]
  {
    SelectNoConditions([a, b]);
    assert multiset([b, a]) == multiset([a, b]);
    assert NoOlder(a, b) && NoOlder(b, a) by {
      if a.date.Some? { assert NotAfter(a.date.value, a.date.value); }
    }
  }

  /** One row of a `groupBy`: a raw column value and how many rows carry it. */
  datatype Group = Group(key: Option<string>, count: nat)

  function GroupKeys(gs: seq<Group>): set<Option<string>> {
    set g | g in gs :: g.key
  }

  predicate DistinctKeys(gs: seq<Group>) {
    forall i, j :: 0 <= i < j < |gs| ==> gs[i].key != gs[j].key
  }

  /** The count of the group with key `k`, 0 when there is none. */
  function CountOf(gs: seq<Group>, k: Option<string>): nat {
    if gs == [] then 0 else if gs[0].key == k then gs[0].count else CountOf(gs[1..], k)
  }

  /** Counts one more row with value `k`. */
  function Tally(gs: seq<Group>, k: Option<string>): seq<Group> {
    if gs == [] then [Group(k, 1)]
    else if gs[0].key == k then [Group(k, gs[0].count + 1)] + gs[1..]
    else [gs[0]] + Tally(gs[1..], k)
  }

  /** `groupBy({ by: [column], _count: { _all: true } })` over the values of that column. */
  function GroupBy(keys: seq<Option<string>>): seq<Group> {
    if keys == [] then [] else Tally(GroupBy(keys[..|keys| - 1]), keys[|keys| - 1])
  }

  lemma {:induction false} TallyKeys(gs: seq<Group>, k: Option<string>)
    requires DistinctKeys(gs)
    ensures DistinctKeys(Tally(gs, k))
    ensures GroupKeys(Tally(gs, k)) == GroupKeys(gs) + {k}
  {
    TallyKeySet(gs, k);
    if gs != [] && gs[0].key != k {
      TallyKeys(gs[1..], k);
      var tail := Tally(gs[1..], k);
      HeadKeyNotInTail(gs);
      TallyKeySet(gs[1..], k);
      assert gs[0].key !in GroupKeys(tail);
      ConsDistinct(gs[0], tail);
    } else if gs != [] {
      HeadKeyNotInTail(gs);
      ConsDistinct(Group(k, gs[0].count + 1), gs[1..]);
    }
  }

  /** The keys after a `Tally` are the keys before it and the tallied key. */
  lemma {:induction false} TallyKeySet(gs: seq<Group>, k: Option<string>)
    ensures GroupKeys(Tally(gs, k)) == GroupKeys(gs) + {k}
  {
    if gs != [] {
      assert GroupKeys(gs) == {gs[0].key} + GroupKeys(gs[1..]);
      if gs[0].key == k {
        assert GroupKeys(Tally(gs, k)) == {k} + GroupKeys(gs[1..]);
      } else {
        TallyKeySet(gs[1..], k);
        assert GroupKeys([gs[0]] + Tally(gs[1..], k)) == {gs[0].key} + GroupKeys(Tally(gs[1..], k));
      }
    }
  }

  lemma HeadKeyNotInTail(gs: seq<Group>)
    requires gs != [] && DistinctKeys(gs)
    ensures gs[0].key !in GroupKeys(gs[1..]) && DistinctKeys(gs[1..])
  {
    forall h | h in gs[1..] ensures h.key != gs[0].key {
      var i :| 0 <= i < |gs[1..]| && gs[1..][i] == h;
      assert gs[i + 1] == h;
    }
  }

  lemma ConsDistinct(g: Group, gs: seq<Group>)
    requires DistinctKeys(gs) && g.key !in GroupKeys(gs)
    ensures DistinctKeys([g] + gs)
  {
    var a := [g] + gs;
    forall i, j | 0 <= i < j < |a| ensures a[i].key != a[j].key {
      if i == 0 {
        assert a[j] == gs[j - 1];
        assert a[j].key in GroupKeys(gs);
      }
    }
  }

  lemma {:induction false} TallyCount(gs: seq<Group>, k: Option<string>, k': Option<string>)
    requires DistinctKeys(gs)
    ensures CountOf(Tally(gs, k), k') == CountOf(gs, k') + (if k' == k then 1 else 0)
  {
    if gs != [] {
      if gs[0].key == k {
        if k' != k {
        } else {
          assert Tally(gs, k)[0].key == k;
        }
      } else {
        TallyCount(gs[1..], k, k');
      }
    }
  }

  lemma {:induction false} GroupByKeys(keys: seq<Option<string>>)
    ensures DistinctKeys(GroupBy(keys))
    ensures GroupKeys(GroupBy(keys)) == set k | k in keys
  {
    if keys != [] {
      var init := keys[..|keys| - 1];
      assert keys == init + [keys[|keys| - 1]];
      GroupByKeys(init);
      TallyKeys(GroupBy(init), keys[|keys| - 1]);
    }
  }

  /** Each group counts exactly the rows that carry its key. */
  lemma {:induction false} GroupByCount(keys: seq<Option<string>>, k: Option<string>)
    ensures CountOf(GroupBy(keys), k) == multiset(keys)[k]
  {
    if keys != [] {
      var init := keys[..|keys| - 1];
      assert keys == init + [keys[|keys| - 1]];
      GroupByKeys(init);
      GroupByCount(init, k);
      TallyCount(GroupBy(init), keys[|keys| - 1], k);
    }
  }
}
