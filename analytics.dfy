/**
 * `GET /api/analytics`: the filtered totals, the classification and municipality
 * breakdowns, the vehicle counts, the filter facets, the year list, the monthly trend
 * and the newest map points, all computed over one request's `where`.
 */
module Analytics {
  import opened Wrappers
  import opened Text
  import opened Collation
  import opened Calendar
  import opened Numerals
  import opened Incidents
  import opened Filters
  import opened UrlQuery

  /** `{ id, name, count }`, the shape of every breakdown entry; `id` and `name` are the same text. */
  datatype Entry = Entry(id: string, name: string, count: nat)

  // ---------------------------------------------------------------------------------------
  // Breakdowns: `groupBy` rows folded by their normalised key
  // ---------------------------------------------------------------------------------------

  /** The raw column a breakdown groups by. */
  datatype Column = ClassificationColumn | MunicipalityColumn

  function ColumnOf(r: Incident, c: Column): Option<string> {
    match c
    case ClassificationColumn => r.classification
    case MunicipalityColumn => r.municipality
  }

  /** The column's values over some rows, in row order. */
  function ColumnValues(rs: seq<Incident>, c: Column): (vs: seq<Option<string>>)
    ensures |vs| == |rs|
    ensures forall i :: 0 <= i < |rs| ==> vs[i] == ColumnOf(rs[i], c)
  {
    seq(|rs|, i requires 0 <= i < |rs| => ColumnOf(rs[i], c))
  }

  /** Each `groupBy` row as its normalised key and its count. */
  function Keyed(gs: seq<Group>): (ps: seq<(string, nat)>)
    ensures |ps| == |gs|
    ensures forall i :: 0 <= i < |gs| ==> ps[i] == (Normalize(gs[i].key), gs[i].count)
  {
    seq(|gs|, i requires 0 <= i < |gs| => (Normalize(gs[i].key), gs[i].count))
  }

  /** The sum of the counts paired with `name`. */
  function SumFor(ps: seq<(string, nat)>, name: string): nat {
    if ps == [] then 0
    else (if ps[0].0 == name then ps[0].1 else 0) + SumFor(ps[1..], name)
  }

  /** The sum of the counts paired with a non-empty name. */
  function NamedTotal(ps: seq<(string, nat)>): nat {
    if ps == [] then 0
    else (if ps[0].0 != [] then ps[0].1 else 0) + NamedTotal(ps[1..])
  }

  /** The non-empty names. */
  function Names(ps: seq<(string, nat)>): set<string> {
    if ps == [] then {}
    else (if ps[0].0 != [] then {ps[0].0} else {}) + Names(ps[1..])
  }

  lemma {:induction false} NamesAppend(ps: seq<(string, nat)>, p: (string, nat))
    ensures Names(ps + [p]) == Names(ps) + if p.0 != [] then {p.0} else {}
  {
    if ps != [] {
      assert (ps + [p])[1..] == ps[1..] + [p];
      NamesAppend(ps[1..], p);
    }
  }

  /** A name is listed exactly when it is non-empty and some pair carries it. */
  lemma {:induction false} NamesMeaning(ps: seq<(string, nat)>, name: string)
    ensures name in Names(ps) <==> name != [] && exists i :: 0 <= i < |ps| && ps[i].0 == name
  {
    if ps != [] {
      NamesMeaning(ps[1..], name);
      if name != [] && ps[0].0 != name {
        forall i | 0 <= i < |ps| && ps[i].0 == name ensures 0 <= i - 1 < |ps[1..]| && ps[1..][i - 1].0 == name {
        }
      }
      if name != [] && ps[0].0 == name {
        assert ps[0].0 == name;
      }
    }
  }

  lemma {:induction false} SumForAppend(ps: seq<(string, nat)>, p: (string, nat), name: string)
    ensures SumFor(ps + [p], name) == SumFor(ps, name) + if p.0 == name then p.1 else 0
  {
    if ps != [] {
      assert (ps + [p])[1..] == ps[1..] + [p];
      SumForAppend(ps[1..], p, name);
    }
  }

  lemma {:induction false} NamedTotalAppend(ps: seq<(string, nat)>, p: (string, nat))
    ensures NamedTotal(ps + [p]) == NamedTotal(ps) + if p.0 != [] then p.1 else 0
  {
    if ps != [] {
      assert (ps + [p])[1..] == ps[1..] + [p];
      NamedTotalAppend(ps[1..], p);
    }
  }

  /** A non-empty name that no pair carries sums to nothing. */
  lemma {:induction false} SumForAbsent(ps: seq<(string, nat)>, name: string)
    requires name != [] && name !in Names(ps)
    ensures SumFor(ps, name) == 0
  {
    if ps != [] {
      SumForAbsent(ps[1..], name);
    }
  }

  predicate Distinct(s: seq<string>) {
    forall i, j :: 0 <= i < j < |s| ==> s[i] != s[j]
  }

  /** The sum of `m[k]` over the keys `ks`. */
  function SumAt(ks: seq<string>, m: map<string, nat>): nat
    requires forall k :: k in ks ==> k in m
  {
    if ks == [] then 0 else m[ks[0]] + SumAt(ks[1..], m)
  }

  lemma {:induction false} SumAtAppend(ks: seq<string>, m: map<string, nat>, k: string)
    requires forall x :: x in ks ==> x in m
    requires k in m
    ensures SumAt(ks + [k], m) == SumAt(ks, m) + m[k]
  {
    if ks != [] {
      assert (ks + [k])[1..] == ks[1..] + [k];
      SumAtAppend(ks[1..], m, k);
    }
  }

  /** Changing one key's value, held once in `ks`, changes the sum by the same amount. */
  lemma {:induction false} SumAtUpdate(ks: seq<string>, m: map<string, nat>, k: string, v: nat)
    requires forall x :: x in ks ==> x in m
    requires Distinct(ks) && k in ks
    ensures SumAt(ks, m[k := v]) + m[k] == SumAt(ks, m) + v
  {
    if ks[0] == k {
      SumAtUnchanged(ks[1..], m, k, v);
    } else {
      SumAtUpdate(ks[1..], m, k, v);
    }
  }

  lemma {:induction false} SumAtUnchanged(ks: seq<string>, m: map<string, nat>, k: string, v: nat)
    requires forall x :: x in ks ==> x in m
    requires k !in ks
    ensures SumAt(ks, m[k := v]) == SumAt(ks, m)
  {
    if ks != [] {
      SumAtUnchanged(ks[1..], m, k, v);
    }
  }

  /** What the fold has built after the pairs `ps`: a running count per name, names in first-seen order. */
  ghost predicate Folded(ps: seq<(string, nat)>, acc: map<string, nat>, order: seq<string>) {
    (forall k :: k in acc <==> k in order)
    && Distinct(order)
    && (forall k :: k in acc ==> acc[k] == SumFor(ps, k))
    && (forall k :: k in order <==> k in Names(ps))
    && SumAt(order, acc) == NamedTotal(ps)
  }

  lemma FoldStart()
    ensures Folded([], map[], [])
  {
  }

  lemma {:induction false} FoldSkip(ps: seq<(string, nat)>, p: (string, nat), acc: map<string, nat>, order: seq<string>)
    requires Folded(ps, acc, order) && p.0 == []
    ensures Folded(ps + [p], acc, order)
  {
    NamedTotalAppend(ps, p);
    NamesAppend(ps, p);
    forall k | k in acc ensures acc[k] == SumFor(ps + [p], k) {
      SumForAppend(ps, p, k);
      assert k in Names(ps);
      NamesMeaning(ps, k);
    }
  }

  lemma {:induction false} FoldMerge(ps: seq<(string, nat)>, p: (string, nat), acc: map<string, nat>, order: seq<string>)
    requires Folded(ps, acc, order) && p.0 in acc
    ensures Folded(ps + [p], acc[p.0 := acc[p.0] + p.1], order)
  {
    NamedTotalAppend(ps, p);
    NamesAppend(ps, p);
    assert p.0 in Names(ps);
    NamesMeaning(ps, p.0);
    forall k ensures SumFor(ps + [p], k) == SumFor(ps, k) + if p.0 == k then p.1 else 0 {
      SumForAppend(ps, p, k);
    }
    SumAtUpdate(order, acc, p.0, acc[p.0] + p.1);
  }

  lemma {:induction false} FoldAdd(ps: seq<(string, nat)>, p: (string, nat), acc: map<string, nat>, order: seq<string>)
    requires Folded(ps, acc, order) && p.0 != [] && p.0 !in acc
    ensures Folded(ps + [p], acc[p.0 := p.1], order + [p.0])
  {
    NamedTotalAppend(ps, p);
    NamesAppend(ps, p);
    forall k ensures SumFor(ps + [p], k) == SumFor(ps, k) + if p.0 == k then p.1 else 0 {
      SumForAppend(ps, p, k);
    }
    SumForAbsent(ps, p.0);
    SumAtUnchanged(order, acc, p.0, p.1);
    SumAtAppend(order, acc[p.0 := p.1], p.0);
  }

  /**
   * The `reduce` over the `groupBy` rows: each row's key is normalised, rows whose key
   * normalises to the empty text are dropped, and rows with the same normalised key are
   * merged by adding their counts. Entries come out in the order their key was first seen.
   */
  method Breakdown(gs: seq<Group>) returns (entries: seq<Entry>)
    ensures IsBreakdown(Keyed(gs), entries)
  {
    var acc, order := FoldGroups(gs);
    entries := seq(|order|, i requires 0 <= i < |order| => Entry(order[i], order[i], acc[order[i]]));
    EntryTotalOf(order, acc, entries);
    forall name ensures (exists i :: 0 <= i < |entries| && entries[i].name == name) <==> name in Names(Keyed(gs)) {
      if name in Names(Keyed(gs)) {
        var i :| 0 <= i < |order| && order[i] == name;
        assert entries[i].name == name;
      }
    }
  }

  /**
   * `entries` merges the pairs `ps` by name: one entry per non-empty name, each with `id` equal
   * to `name` and the sum of that name's counts, so that the entries add up to the named pairs.
   */
  ghost predicate IsBreakdown(ps: seq<(string, nat)>, entries: seq<Entry>) {
    (forall i :: 0 <= i < |entries| ==> entries[i].id == entries[i].name)
    && (forall i, j :: 0 <= i < j < |entries| ==> entries[i].name != entries[j].name)
    && (forall name :: (exists i :: 0 <= i < |entries| && entries[i].name == name) <==> name in Names(ps))
    && (forall i :: 0 <= i < |entries| ==> entries[i].count == SumFor(ps, entries[i].name))
    && EntryTotal(entries) == NamedTotal(ps)
  }

  /** The `reduce` itself: the accumulator object and the order its keys were added in. */
  method FoldGroups(gs: seq<Group>) returns (acc: map<string, nat>, order: seq<string>)
    ensures Folded(Keyed(gs), acc, order)
  {
    ghost var ps := Keyed(gs);
    acc, order := map[], [];
    FoldStart();
    for n := 0 to |gs|
      invariant Folded(ps[..n], acc, order)
    {
      var key := Normalize(gs[n].key);
      ghost var p := (key, gs[n].count);
      assert ps[..n + 1] == ps[..n] + [p];
      if key == [] {
        FoldSkip(ps[..n], p, acc, order);
      } else if key in acc {
        FoldMerge(ps[..n], p, acc, order);
        acc := acc[key := acc[key] + gs[n].count];
      } else {
        FoldAdd(ps[..n], p, acc, order);
        acc := acc[key := gs[n].count];
        order := order + [key];
      }
    }
    assert ps[..|gs|] == ps;
  }

  function EntryTotal(es: seq<Entry>): nat {
    if es == [] then 0 else es[0].count + EntryTotal(es[1..])
  }

  lemma {:induction false} EntryTotalOf(ks: seq<string>, m: map<string, nat>, es: seq<Entry>)
    requires forall k :: k in ks ==> k in m
    requires |es| == |ks| && forall i :: 0 <= i < |ks| ==> es[i].count == m[ks[i]]
    ensures EntryTotal(es) == SumAt(ks, m)
  {
    if ks != [] {
      EntryTotalOf(ks[1..], m, es[1..]);
    }
  }

  /** How many of the raw values normalise to `name`. */
  function NormCount(keys: seq<Option<string>>, name: string): nat {
    if keys == [] then 0
    else NormCount(keys[..|keys| - 1], name) + if Normalize(keys[|keys| - 1]) == name then 1 else 0
  }

  /** How many of the raw values normalise to a non-empty text. */
  function NonBlank(keys: seq<Option<string>>): (n: nat)
    ensures n <= |keys|
  {
    if keys == [] then 0
    else NonBlank(keys[..|keys| - 1]) + if Normalize(keys[|keys| - 1]) != [] then 1 else 0
  }

  /** The non-empty normalised forms of the raw values. */
  function NormNames(keys: seq<Option<string>>): set<string> {
    if keys == [] then {}
    else NormNames(keys[..|keys| - 1]) + if Normalize(keys[|keys| - 1]) != [] then {Normalize(keys[|keys| - 1])} else {}
  }

  lemma KeyedSplit(gs: seq<Group>)
    requires gs != []
    ensures Keyed(gs) == [(Normalize(gs[0].key), gs[0].count)] + Keyed(gs[1..])
  {
  }

  /** Counting one more raw value `k` adds one to the sum of its normal form. */
  lemma {:induction false} TallySumFor(gs: seq<Group>, k: Option<string>, name: string)
    ensures SumFor(Keyed(Tally(gs, k)), name) == SumFor(Keyed(gs), name) + if Normalize(k) == name then 1 else 0
  {
    var t := Tally(gs, k);
    if gs == [] {
      assert Keyed(t) == [(Normalize(k), 1)];
      assert Keyed(t)[1..] == [];
    } else {
      KeyedSplit(gs);
      KeyedSplit(t);
      if gs[0].key == k {
        assert t[1..] == gs[1..];
      } else {
        assert t[1..] == Tally(gs[1..], k);
        TallySumFor(gs[1..], k, name);
      }
    }
  }

  /** Counting one more raw value `k` adds one to the total when its normal form is not blank. */
  lemma {:induction false} TallyNamedTotal(gs: seq<Group>, k: Option<string>)
    ensures NamedTotal(Keyed(Tally(gs, k))) == NamedTotal(Keyed(gs)) + if Normalize(k) != [] then 1 else 0
  {
    var t := Tally(gs, k);
    if gs == [] {
      assert Keyed(t) == [(Normalize(k), 1)];
      assert Keyed(t)[1..] == [];
    } else {
      KeyedSplit(gs);
      KeyedSplit(t);
      if gs[0].key == k {
        assert t[1..] == gs[1..];
      } else {
        assert t[1..] == Tally(gs[1..], k);
        TallyNamedTotal(gs[1..], k);
      }
    }
  }

  /** Counting one more raw value `k` adds its normal form to the names when it is not blank. */
  lemma {:induction false} TallyNames(gs: seq<Group>, k: Option<string>)
    ensures Names(Keyed(Tally(gs, k))) == Names(Keyed(gs)) + if Normalize(k) != [] then {Normalize(k)} else {}
  {
    var t := Tally(gs, k);
    if gs == [] {
      assert Keyed(t) == [(Normalize(k), 1)];
      assert Keyed(t)[1..] == [];
    } else {
      KeyedSplit(gs);
      KeyedSplit(t);
      if gs[0].key == k {
        assert t[1..] == gs[1..];
      } else {
        assert t[1..] == Tally(gs[1..], k);
        TallyNames(gs[1..], k);
      }
    }
  }

  /**
   * Folding the `groupBy` of a column gives, for each name, the number of rows whose value
   * normalises to it; the total over all entries is the number of rows with a non-blank value,
   * and the names are exactly the non-blank normalised values.
   */
  lemma {:induction false} GroupByFolds(keys: seq<Option<string>>, name: string)
    ensures SumFor(Keyed(GroupBy(keys)), name) == NormCount(keys, name)
    ensures NamedTotal(Keyed(GroupBy(keys))) == NonBlank(keys)
    ensures Names(Keyed(GroupBy(keys))) == NormNames(keys)
  {
    if keys != [] {
      GroupByFolds(keys[..|keys| - 1], name);
      TallySumFor(GroupBy(keys[..|keys| - 1]), keys[|keys| - 1], name);
      TallyNamedTotal(GroupBy(keys[..|keys| - 1]), keys[|keys| - 1]);
      TallyNames(GroupBy(keys[..|keys| - 1]), keys[|keys| - 1]);
    }
  }

  /** A non-empty `name` is a normalised value exactly when some value normalises to it. */
  lemma {:induction false} NormNamesMeaning(keys: seq<Option<string>>, name: string)
    ensures name in NormNames(keys) <==> name != [] && NormCount(keys, name) > 0
  {
    if keys != [] {
      NormNamesMeaning(keys[..|keys| - 1], name);
    }
  }

  // ---------------------------------------------------------------------------------------
  // Totals
  // ---------------------------------------------------------------------------------------

  /** `{ ...where, date: { gte: startOfToday, lte: endOfToday } }`: today replaces any date range. */
  function TodayWhere(w: Where, today: Day): (tw: Where)
    ensures tw.municipality == w.municipality && tw.classification == w.classification
    ensures tw.vehiclesContains == w.vehiclesContains && tw.search == w.search
  {
    w.(date := Some(DateRange(Some(StartOfDay(today)), Some(Instant(today, LastMs)))))
  }

  /** A row counts towards `today` exactly when it is dated today and meets the non-date conditions. */
  lemma TodayMeaning(w: Where, today: Day, r: Incident)
    requires r.date.Some? ==> r.date.value.ms < MsPerDay
    ensures Matches(TodayWhere(w, today), r) <==>
      r.date.Some? && r.date.value.date == today && Matches(w.(date := None), r)
  {
  }

  /** The `today` total ignores the year and the start and end dates of the request. */
  lemma TodayIgnoresDates(p1: FilterParams, p2: FilterParams, today: Day)
    requires AnalyticsWhere(p1).Ok? && AnalyticsWhere(p2).Ok?
    requires p1.municipality == p2.municipality && p1.classification == p2.classification
    ensures TodayWhere(AnalyticsWhere(p1).value, today) == TodayWhere(AnalyticsWhere(p2).value, today)
  {
  }

  // ---------------------------------------------------------------------------------------
  // Vehicles
  // ---------------------------------------------------------------------------------------

  /** The seven `(contains token, label)` pairs, in response order. */
  const VehicleKinds: seq<(string, string)> := [
    ("SINGLE MOTORCYCLE", "SINGLE MOTORCYCLE"), ("TRICYCLE", "TRICYCLE"), ("PUV", "PUV"),
    ("PRIVATE", "PRIVATE VEHICLE"), ("TRUCK", "TRUCK"), ("JEEP", "JEEPNEY"), ("BICYCLE", "BICYCLE")]

  /** Each kind counts the filtered rows whose `vehicles_involved` contains its token, ignoring case. */
  function Vehicles(store: seq<Incident>, w: Where): (es: seq<Entry>)
    ensures |es| == |VehicleKinds|
    ensures forall i :: 0 <= i < |es| ==> es[i].id == VehicleKinds[i].1 && es[i].name == VehicleKinds[i].1
  {
    seq(|VehicleKinds|, i requires 0 <= i < |VehicleKinds| =>
      var kind := VehicleKinds[i].1;
      Entry(kind, kind, Count(store, w.(vehiclesContains := Some(VehicleKinds[i].0)))))
  }

  /** No vehicle count exceeds the filtered total. */
  lemma VehiclesBounded(store: seq<Incident>, w: Where)
    requires w.vehiclesContains.None?
    ensures forall e :: e in Vehicles(store, w) ==> e.count <= Count(store, w)
  {
    var es := Vehicles(store, w);
    forall e | e in es ensures e.count <= Count(store, w) {
      var i :| 0 <= i < |es| && es[i] == e;
      CountMonotone(store, w.(vehiclesContains := Some(VehicleKinds[i].0)), w);
    }
  }

  /** Every label contains its own token, so a row naming the label is counted under it. */
  lemma VehicleLabelCounted(i: nat, w: Where, r: Incident)
    requires i < |VehicleKinds| && w.vehiclesContains.None? && Matches(w, r)
    requires r.vehiclesInvolved == Some(VehicleKinds[i].1)
    ensures Matches(w.(vehiclesContains := Some(VehicleKinds[i].0)), r)
  {
    var tok, name := VehicleKinds[i].0, VehicleKinds[i].1;
    TokenStartsLabel(i);
    UpperSlice(name, 0, |tok|);
    assert Upper(name)[0..|tok|] == Upper(tok);
    assert OccursAt(Upper(name), Upper(tok), 0);
  }

  lemma TokenStartsLabel(i: nat)
    requires i < |VehicleKinds|
    ensures StartsWith(VehicleKinds[i].1, VehicleKinds[i].0)
  {
  }

  // ---------------------------------------------------------------------------------------
  // Filter facets
  // ---------------------------------------------------------------------------------------

  /** `{ id: name, name }`. */
  datatype Choice = Choice(id: string, name: string)

  /** The normalised values, blanks dropped. */
  function NonBlankValues(vs: seq<Option<string>>): (ns: seq<string>)
    ensures forall n :: n in ns ==> n != [] && IsNormalized(n)
  {
    if vs == [] then []
    else NonBlankValues(vs[..|vs| - 1]) + if Normalize(vs[|vs| - 1]) != [] then [Normalize(vs[|vs| - 1])] else []
  }

  lemma {:induction false} NonBlankValuesElements(vs: seq<Option<string>>)
    ensures Elements(NonBlankValues(vs)) == NormNames(vs)
  {
    if vs != [] {
      NonBlankValuesElements(vs[..|vs| - 1]);
    }
  }

  /**
   * `Array.from(new Set(values.map(normalize))).filter(Boolean).sort()`: every non-blank
   * normalised value once, in ascending order, and nothing else. Any other way of removing
   * duplicates before sorting gives the same list.
   */
  function FacetNames(vs: seq<Option<string>>): (names: seq<string>)
    ensures StrictlyAscending(names)
    ensures forall name :: name in names <==> name in NormNames(vs)
    ensures forall name :: name in names ==> name != [] && IsNormalized(name)
  {
    NonBlankValuesElements(vs);
    SortedDistinct(NonBlankValues(vs))
  }

  /** The facet as `{ id: name, name }` entries. */
  function Facet(vs: seq<Option<string>>): (cs: seq<Choice>)
    ensures |cs| == |FacetNames(vs)|
    ensures forall i :: 0 <= i < |cs| ==> cs[i].id == FacetNames(vs)[i] && cs[i].name == FacetNames(vs)[i]
  {
    var names := FacetNames(vs);
    seq(|names|, i requires 0 <= i < |names| => Choice(names[i], names[i]))
  }

  // ---------------------------------------------------------------------------------------
  // Years
  // ---------------------------------------------------------------------------------------

  /** `_min: { date: true }` over the whole table: the earliest date, none when no row is dated. */
  function Earliest(rs: seq<Incident>): (m: Option<Instant>)
    ensures m.None? <==> forall r :: r in rs ==> r.date.None?
    ensures m.Some? ==> exists r :: r in rs && r.date == m
    ensures m.Some? ==> forall r :: r in rs && r.date.Some? ==> NotAfter(m.value, r.date.value)
  {
    if rs == [] then None
    else
      var rest := Earliest(rs[1..]);
      assert forall r :: r in rs ==> r == rs[0] || r in rs[1..];
      if rs[0].date.None? then rest
      else if rest.None? || NotAfter(rs[0].date.value, rest.value) then rs[0].date
      else rest
  }

  /** `_max: { date: true }` over the whole table. */
  function Latest(rs: seq<Incident>): (m: Option<Instant>)
    ensures m.None? <==> forall r :: r in rs ==> r.date.None?
    ensures m.Some? ==> exists r :: r in rs && r.date == m
    ensures m.Some? ==> forall r :: r in rs && r.date.Some? ==> NotAfter(r.date.value, m.value)
  {
    if rs == [] then None
    else
      var rest := Latest(rs[1..]);
      assert forall r :: r in rs ==> r == rs[0] || r in rs[1..];
      if rs[0].date.None? then rest
      else if rest.None? || NotAfter(rest.value, rs[0].date.value) then rs[0].date
      else rest
  }

  /** `getFullYear()` of a bound, or of the current date when the table has no dated row. */
  function YearOf(bound: Option<Instant>, currentYear: nat): nat {
    if bound.Some? then bound.value.date.year else currentYear
  }

  /** `for (let y = max; y >= min; y--) arr.push(y)`. */
  method YearList(min: int, max: int) returns (years: seq<int>)
    ensures |years| == if max >= min then max - min + 1 else 0
    ensures forall i :: 0 <= i < |years| ==> years[i] == max - i
  {
    years := [];
    var y := max;
    while y >= min
      invariant y <= max && (max >= min ==> y >= min - 1) && (max < min ==> y == max)
      invariant |years| == max - y
      invariant forall i :: 0 <= i < |years| ==> years[i] == max - i
    {
      years := years + [y];
      y := y - 1;
    }
  }

  /** The year list runs from the latest year down to the earliest, so every dated row's year is in it. */
  lemma YearsCoverStore(store: seq<Incident>, currentYear: nat, r: Incident)
    requires r in store && r.date.Some?
    ensures var min, max := YearOf(Earliest(store), currentYear), YearOf(Latest(store), currentYear);
      min <= r.date.value.date.year <= max
  {
  }

  // ---------------------------------------------------------------------------------------
  // Map points
  // ---------------------------------------------------------------------------------------

  /** `{ name }`. */
  datatype NameRef = NameRef(name: Option<string>)

  /** `{ id, latitude, longitude, municipality: { name }, classification: { name }, occurredAt }`. */
  datatype Point = Point(
    id: nat, latitude: Option<Coordinate>, longitude: Option<Coordinate>,
    municipality: NameRef, classification: NameRef, occurredAt: Option<Instant>)

  function PointOf(r: Incident): Point {
    Point(r.id, r.latitude, r.longitude, NameRef(r.municipality), NameRef(r.classification), r.date)
  }

  const PointLimit: nat := 500

  /** Reshapes each row as a point. */
  function PointsOf(rows: seq<Incident>): (ps: seq<Point>)
    ensures |ps| == |rows|
    ensures forall i :: 0 <= i < |rows| ==> ps[i] == PointOf(rows[i])
  {
    seq(|rows|, i requires 0 <= i < |rows| => PointOf(rows[i]))
  }

  /** `ORDER BY date DESC` on the points: null dates first, then later before earlier. */
  predicate PointsNewestFirst(ps: seq<Point>) {
    forall i, j :: 0 <= i < j < |ps| ==>
      ps[i].occurredAt.None? || (ps[j].occurredAt.Some? && NotAfter(ps[j].occurredAt.value, ps[i].occurredAt.value))
  }

  /** `p` is the reshaping of some filtered row. */
  ghost predicate FromFiltered(store: seq<Incident>, w: Where, p: Point) {
    exists r :: r in store && Matches(w, r) && p == PointOf(r)
  }

  lemma {:induction false} PointsOfRows(store: seq<Incident>, w: Where, rows: seq<Incident>)
    requires forall r :: r in rows ==> r in store && Matches(w, r)
    requires NewestFirst(rows)
    ensures forall i :: 0 <= i < |rows| ==> FromFiltered(store, w, PointsOf(rows)[i])
    ensures PointsNewestFirst(PointsOf(rows))
  {
    var ps := PointsOf(rows);
    forall i | 0 <= i < |rows| ensures FromFiltered(store, w, ps[i]) {
      assert rows[i] in rows;
      assert rows[i] in store && Matches(w, rows[i]) && ps[i] == PointOf(rows[i]);
    }
    forall i, j | 0 <= i < j < |rows| ensures
      ps[i].occurredAt.None? || (ps[j].occurredAt.Some? && NotAfter(ps[j].occurredAt.value, ps[i].occurredAt.value))
    {
      assert NoOlder(rows[i], rows[j]);
    }
  }

  /** The newest 500 filtered rows (null dates first), each reshaped as a point. */
  function Points(store: seq<Incident>, w: Where): (ps: seq<Point>)
    ensures |ps| == if Count(store, w) <= PointLimit then Count(store, w) else PointLimit
    ensures forall i :: 0 <= i < |ps| ==> FromFiltered(store, w, ps[i])
    ensures PointsNewestFirst(ps)
  {
    var rows := FindNewest(store, w, 0, PointLimit);
    PointsOfRows(store, w, rows);
    PointsOf(rows)
  }

  // ---------------------------------------------------------------------------------------
  // Monthly trend
  // ---------------------------------------------------------------------------------------

  /**
   * The raw SQL's `WHERE`: the start and end dates as given, never the year, and exact
   * municipality and classification.
   */
  function TrendWhere(p: FilterParams): Result<Where, RequestError> {
    AnalyticsWhere(p.(year := None))
  }

  /** `{ month, count }`; `month` is null for the group of undated rows. */
  datatype Trend = Trend(month: Option<string>, count: nat)

  /** `to_char(date_trunc('month', "date"), 'YYYY-MM')`, null for a null date. */
  function MonthOf(r: Incident): Option<string> {
    if r.date.Some? then Some(MonthLabel(r.date.value)) else None
  }

  /** The month labels of the dated rows. */
  function MonthLabels(rs: seq<Incident>): seq<string> {
    if rs == [] then []
    else MonthLabels(rs[..|rs| - 1]) + if rs[|rs| - 1].date.Some? then [MonthLabel(rs[|rs| - 1].date.value)] else []
  }

  /** `count(*)` of the rows in month `m`. */
  function MonthCount(rs: seq<Incident>, m: Option<string>): nat {
    if rs == [] then 0
    else MonthCount(rs[..|rs| - 1], m) + if MonthOf(rs[|rs| - 1]) == m then 1 else 0
  }

  /** `GROUP BY 1 ORDER BY 1`: ascending labels, then the null group, which PostgreSQL sorts last. */
  function Trends(rs: seq<Incident>): seq<Trend> {
    var months := SortedDistinct(MonthLabels(rs));
    var undated := MonthCount(rs, None);
    seq(|months|, i requires 0 <= i < |months| => Trend(Some(months[i]), MonthCount(rs, Some(months[i]))))
      + if undated > 0 then [Trend(None, undated)] else []
  }

  function TrendTotal(ts: seq<Trend>): nat {
    if ts == [] then 0 else ts[0].count + TrendTotal(ts[1..])
  }

  lemma {:induction false} MonthLabelsMeaning(rs: seq<Incident>, m: string)
    ensures m in MonthLabels(rs) <==> MonthCount(rs, Some(m)) > 0
  {
    if rs != [] {
      MonthLabelsMeaning(rs[..|rs| - 1], m);
    }
  }

  /** The sum, over distinct labels, of the rows in each labelled month. */
  function LabelledCount(ls: seq<string>, rs: seq<Incident>): nat {
    if ls == [] then 0 else MonthCount(rs, Some(ls[0])) + LabelledCount(ls[1..], rs)
  }

  /** How many of the labels `m` names. */
  function Hits(ls: seq<string>, m: Option<string>): nat {
    if ls == [] then 0 else (if m == Some(ls[0]) then 1 else 0) + Hits(ls[1..], m)
  }

  lemma {:induction false} HitsOnce(ls: seq<string>, m: Option<string>)
    requires Distinct(ls)
    ensures Hits(ls, m) == if m.Some? && m.value in ls then 1 else 0
  {
    if ls != [] {
      HitsOnce(ls[1..], m);
      if m == Some(ls[0]) {
        assert m.value !in ls[1..] by {
          forall i | 0 <= i < |ls[1..]| ensures ls[1..][i] != ls[0] { assert ls[1..][i] == ls[i + 1]; }
        }
      }
    }
  }

  lemma {:induction false} LabelledCountAppend(ls: seq<string>, rs: seq<Incident>, r: Incident)
    ensures LabelledCount(ls, rs + [r]) == LabelledCount(ls, rs) + Hits(ls, MonthOf(r))
  {
    if ls != [] {
      assert (rs + [r])[..|rs + [r]| - 1] == rs;
      LabelledCountAppend(ls[1..], rs, r);
    }
  }

  /** Counting over labels that cover every dated row, plus the undated rows, counts every row once. */
  lemma {:induction false} LabelledCountTotal(ls: seq<string>, rs: seq<Incident>)
    requires Distinct(ls)
    requires forall m :: m in MonthLabels(rs) ==> m in ls
    ensures LabelledCount(ls, rs) + MonthCount(rs, None) == |rs|
  {
    if rs == [] {
      LabelledCountEmpty(ls);
    } else {
      var front, r := rs[..|rs| - 1], rs[|rs| - 1];
      assert rs == front + [r];
      LabelledCountTotal(ls, front);
      LabelledCountAppend(ls, front, r);
      HitsOnce(ls, MonthOf(r));
    }
  }

  lemma {:induction false} LabelledCountEmpty(ls: seq<string>)
    ensures LabelledCount(ls, []) == 0
  {
    if ls != [] { LabelledCountEmpty(ls[1..]); }
  }

  lemma AscendingDistinct(s: seq<string>)
    requires StrictlyAscending(s)
    ensures Distinct(s)
  {
    forall i, j | 0 <= i < j < |s| ensures s[i] != s[j] {
      if s[i] == s[j] { LessIrreflexive(s[i]); }
    }
  }

  lemma {:induction false} TrendTotalOf(ts: seq<Trend>, ls: seq<string>, rs: seq<Incident>)
    requires |ts| == |ls| && forall i :: 0 <= i < |ls| ==> ts[i].count == MonthCount(rs, Some(ls[i]))
    ensures TrendTotal(ts) == LabelledCount(ls, rs)
  {
    if ls != [] { TrendTotalOf(ts[1..], ls[1..], rs); }
  }

  lemma {:induction false} TrendTotalAppend(a: seq<Trend>, b: seq<Trend>)
    ensures TrendTotal(a + b) == TrendTotal(a) + TrendTotal(b)
  {
    if a != [] {
      assert (a + b)[1..] == a[1..] + b;
      TrendTotalAppend(a[1..], b);
    } else {
      assert a + b == b;
    }
  }

  /** The dated groups of the trend, in ascending label order. */
  function DatedTrends(rs: seq<Incident>): (ts: seq<Trend>)
    ensures Trends(rs) == ts + if MonthCount(rs, None) > 0 then [Trend(None, MonthCount(rs, None))] else []
  {
    var months := SortedDistinct(MonthLabels(rs));
    seq(|months|, i requires 0 <= i < |months| => Trend(Some(months[i]), MonthCount(rs, Some(months[i]))))
  }

  /** Labels ascend, and the undated group, when there is one, comes last. */
  lemma TrendsOrdered(rs: seq<Incident>)
    ensures var ts := Trends(rs);
      forall i, j :: 0 <= i < j < |ts| && ts[j].month.Some? ==> ts[i].month.Some? && Less(ts[i].month.value, ts[j].month.value)
  {
  }

  /** Each month that has rows is listed, undated rows included, and no other. */
  lemma TrendsListed(rs: seq<Incident>, m: Option<string>)
    ensures var ts := Trends(rs);
      (exists i :: 0 <= i < |ts| && ts[i].month == m) <==> MonthCount(rs, m) > 0
  {
    var months := SortedDistinct(MonthLabels(rs));
    var ts := Trends(rs);
    if m.Some? {
      MonthLabelsMeaning(rs, m.value);
      if MonthCount(rs, m) > 0 {
        assert m.value in Elements(months);
        var i :| 0 <= i < |months| && months[i] == m.value;
        assert ts[i].month == m;
      } else {
        forall i | 0 <= i < |ts| ensures ts[i].month != m {
          if i < |months| { assert months[i] in Elements(MonthLabels(rs)); }
        }
      }
    } else if MonthCount(rs, m) > 0 {
      assert ts[|ts| - 1].month == m;
    }
  }

  /** Each group holds the number of rows in its month, never none. */
  lemma TrendsCounted(rs: seq<Incident>)
    ensures var ts := Trends(rs);
      forall i :: 0 <= i < |ts| ==> ts[i].count == MonthCount(rs, ts[i].month) && ts[i].count > 0
  {
    var months := SortedDistinct(MonthLabels(rs));
    forall i | 0 <= i < |months| ensures MonthCount(rs, Some(months[i])) > 0 {
      assert months[i] in Elements(MonthLabels(rs));
      MonthLabelsMeaning(rs, months[i]);
    }
  }

  /** The group counts add up to the number of rows. */
  lemma TrendsTotal(rs: seq<Incident>)
    ensures TrendTotal(Trends(rs)) == |rs|
  {
    var months := SortedDistinct(MonthLabels(rs));
    var undated := MonthCount(rs, None);
    var dated := DatedTrends(rs);
    AscendingDistinct(months);
    forall m | m in MonthLabels(rs) ensures m in months {
      assert m in Elements(months);
    }
    LabelledCountTotal(months, rs);
    TrendTotalOf(dated, months, rs);
    TrendTotalAppend(dated, if undated > 0 then [Trend(None, undated)] else []);
    assert TrendTotal([Trend(None, undated)]) == undated;
  }

  /**
   * With valid dates, the trend runs in calendar order: a group listed before another holds
   * rows from an earlier month.
   */
  lemma TrendsChronological(rs: seq<Incident>, i: nat, j: nat, a: Incident, b: Incident)
    requires i < j < |Trends(rs)|
    requires a in rs && b in rs && a.date.Some? && b.date.Some? && ValidInstant(a.date.value) && ValidInstant(b.date.value)
    requires MonthOf(a) == Trends(rs)[i].month && MonthOf(b) == Trends(rs)[j].month
    ensures a.date.value.date.year < b.date.value.date.year
      || (a.date.value.date.year == b.date.value.date.year && a.date.value.date.month < b.date.value.date.month)
  {
    TrendsOrdered(rs);
    MonthLabelOrder(a.date.value, b.date.value);
  }

  /**
   * A breakdown of the filtered rows gives, for each name, the number of filtered rows whose
   * value normalises to it, lists exactly the non-blank normalised values, and never adds up
   * to more than the filtered total.
   */
  lemma BreakdownOfStore(store: seq<Incident>, w: Where, c: Column, entries: seq<Entry>)
    requires IsBreakdown(Keyed(GroupBy(ColumnValues(Select(store, w), c))), entries)
    ensures var vs := ColumnValues(Select(store, w), c);
      (forall i :: 0 <= i < |entries| ==> entries[i].count == NormCount(vs, entries[i].name))
      && (forall name :: (exists i :: 0 <= i < |entries| && entries[i].name == name) <==> name != [] && NormCount(vs, name) > 0)
      && EntryTotal(entries) == NonBlank(vs) <= Count(store, w)
  {
    var vs := ColumnValues(Select(store, w), c);
    GroupByFolds(vs, []);
    forall i | 0 <= i < |entries| ensures entries[i].count == NormCount(vs, entries[i].name) {
      GroupByFolds(vs, entries[i].name);
    }
    forall name ensures (exists i :: 0 <= i < |entries| && entries[i].name == name) <==> name != [] && NormCount(vs, name) > 0 {
      GroupByFolds(vs, name);
      NormNamesMeaning(vs, name);
    }
  }

  // ---------------------------------------------------------------------------------------
  // The route
  // ---------------------------------------------------------------------------------------

  datatype Totals = Totals(incidents: nat, today: nat)

  datatype FilterLists = FilterLists(municipalities: seq<Choice>, classifications: seq<Choice>, years: seq<int>)

  /** The JSON body of a successful response. */
  datatype Summary = Summary(
    totals: Totals, filters: FilterLists, classification: seq<Entry>, municipality: seq<Entry>,
    vehicles: seq<Entry>, trends: seq<Trend>, points: seq<Point>)

  /** What each field of the response holds, for the request's `where` `w` and the trend's `tw`. */
  ghost predicate IsSummary(store: seq<Incident>, w: Where, tw: Where, today: Day, currentYear: nat, s: Summary) {
    var min, max := YearOf(Earliest(store), currentYear), YearOf(Latest(store), currentYear);
    s.totals == Totals(Count(store, w), Count(store, TodayWhere(w, today)))
    && s.filters.municipalities == Facet(ColumnValues(store, MunicipalityColumn))
    && s.filters.classifications == Facet(ColumnValues(store, ClassificationColumn))
    && |s.filters.years| == (if max >= min then max - min + 1 else 0)
    && (forall i :: 0 <= i < |s.filters.years| ==> s.filters.years[i] == max - i)
    && IsBreakdown(Keyed(GroupBy(ColumnValues(Select(store, w), ClassificationColumn))), s.classification)
    && IsBreakdown(Keyed(GroupBy(ColumnValues(Select(store, w), MunicipalityColumn))), s.municipality)
    && s.vehicles == Vehicles(store, w)
    && s.trends == Trends(Select(store, tw))
    && s.points == Points(store, w)
  }

  /**
   * `GET /api/analytics?...`. `today` and `currentYear` stand for the server clock. A date or
   * year that does not parse fails the request, as does an unparsable start or end date even
   * when a year overrides them, since the trend query still receives them.
   */
  method HandleAnalytics(store: seq<Incident>, query: Query, today: Day, currentYear: nat)
    returns (r: Result<Summary, RequestError>)
    ensures r.Ok? <==> AnalyticsWhere(ParamsOf(query)).Ok? && TrendWhere(ParamsOf(query)).Ok?
    ensures r.Ok? ==>
      IsSummary(store, AnalyticsWhere(ParamsOf(query)).value, TrendWhere(ParamsOf(query)).value, today, currentYear, r.value)
  {
    var p := ParamsOf(query);
    var where := BuildAnalyticsWhere(p);
    var trendWhere := BuildAnalyticsWhere(p.(year := None));
    if where.Err? {
      return Err(where.error);
    }
    if trendWhere.Err? {
      return Err(trendWhere.error);
    }
    var w, tw := where.value, trendWhere.value;
    var matched := Select(store, w);
    var classification := Breakdown(GroupBy(ColumnValues(matched, ClassificationColumn)));
    var municipality := Breakdown(GroupBy(ColumnValues(matched, MunicipalityColumn)));
    var years := YearList(YearOf(Earliest(store), currentYear), YearOf(Latest(store), currentYear));
    var filters := FilterLists(
      Facet(ColumnValues(store, MunicipalityColumn)), Facet(ColumnValues(store, ClassificationColumn)), years);
    r := Ok(Summary(
      Totals(Count(store, w), Count(store, TodayWhere(w, today))), filters, classification, municipality,
      Vehicles(store, w), Trends(Select(store, tw)), Points(store, w)));
  }
}
