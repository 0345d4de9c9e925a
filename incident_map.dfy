/**
 * The dashboard map: one marker per point that has both coordinates, and one density circle per
 * municipality, centred on the first point seen there, its radius growing with the number of
 * points and clamped to 6..24.
 */
module IncidentMap {
  import opened Wrappers
  import opened Incidents
  import opened Analytics

  /** `isValid`: both coordinates are present. */
  predicate IsValid(p: Point) {
    p.latitude.Some? && p.longitude.Some?
  }

  /** `points.filter(isValid)`. */
  function ValidPoints(ps: seq<Point>): (r: seq<Point>)
    ensures forall p :: p in r <==> p in ps && IsValid(p)
    ensures |r| <= |ps|
    ensures forall i :: 0 <= i < |r| ==> IsValid(r[i])
  {
    if ps == [] then []
    else if IsValid(ps[0]) then [ps[0]] + ValidPoints(ps[1..])
    else ValidPoints(ps[1..])
  }

  /** One point is kept exactly when it is located. */
  lemma ValidPointsOne(p: Point)
    ensures ValidPoints([p]) == if IsValid(p) then [p] else []
  {
    assert [p][1..] == [];
  }

  /**
   * Filtering distributes over concatenation, so together with `ValidPointsOne` the kept points are
   * the located ones in their original order and with their multiplicity.
   */
  lemma {:induction false} ValidPointsAppend(a: seq<Point>, b: seq<Point>)
    ensures ValidPoints(a + b) == ValidPoints(a) + ValidPoints(b)
  {
    if a == [] {
      assert a + b == b;
    } else {
      assert (a + b)[0] == a[0] && (a + b)[1..] == a[1..] + b;
      ValidPointsAppend(a[1..], b);
    }
  }

  /** A marker's popup: the classification (`'Incident'` when it is null) over the municipality. */
  datatype Marker = Marker(key: nat, latitude: Coordinate, longitude: Coordinate, title: string, place: Option<string>)

  function MarkerOf(p: Point): Marker
    requires IsValid(p)
  {
    Marker(p.id, p.latitude.value, p.longitude.value, p.classification.name.GetOr("Incident"), p.municipality.name)
  }

  /** `valid.map(p => <Marker .../>)`. */
  function Markers(valid: seq<Point>): (ms: seq<Marker>)
    requires forall i :: 0 <= i < |valid| ==> IsValid(valid[i])
    ensures |ms| == |valid|
    ensures forall i :: 0 <= i < |ms| ==> ms[i] == MarkerOf(valid[i])
  {
    seq(|valid|, i requires 0 <= i < |valid| => MarkerOf(valid[i]))
  }

  // ---------------------------------------------------------------------------------------
  // Clustering by municipality
  // ---------------------------------------------------------------------------------------

  /** `p.municipality?.name || 'Unknown'`: a null or empty name falls back to `Unknown`. */
  function ClusterName(p: Point): (n: string)
    ensures n != ""
    ensures p.municipality.name.Some? && p.municipality.name.value != "" ==> n == p.municipality.name.value
  {
    if p.municipality.name.Some? && p.municipality.name.value != "" then p.municipality.name.value else "Unknown"
  }

  function Names(ps: seq<Point>): (ns: seq<string>)
    ensures |ns| == |ps| && forall i :: 0 <= i < |ps| ==> ns[i] == ClusterName(ps[i])
  {
    seq(|ps|, i requires 0 <= i < |ps| => ClusterName(ps[i]))
  }

  /** The distinct names, in the order each is first seen. */
  function FirstSeen(ns: seq<string>): (r: seq<string>)
    ensures forall n :: n in r <==> n in ns
    ensures forall i, j :: 0 <= i < j < |r| ==> r[i] != r[j]
  {
    if ns == [] then []
    else
      var f := FirstSeen(ns[..|ns| - 1]);
      if ns[|ns| - 1] in f then f else f + [ns[|ns| - 1]]
  }

  /** How many times `n` occurs in `ns`. */
  function Occurrences(ns: seq<string>, n: string): (c: nat)
    ensures c == 0 <==> n !in ns
  {
    if ns == [] then 0
    else Occurrences(ns[..|ns| - 1], n) + (if ns[|ns| - 1] == n then 1 else 0)
  }

  /** Where `n` first occurs in `ns`. */
  function FirstIndex(ns: seq<string>, n: string): (j: nat)
    requires n in ns
    ensures j < |ns| && ns[j] == n && forall k :: 0 <= k < j ==> ns[k] != n
  {
    if n in ns[..|ns| - 1] then FirstIndex(ns[..|ns| - 1], n) else |ns| - 1
  }

  /** `{ lat, lng, count }`. */
  datatype Center = Center(lat: Coordinate, lng: Coordinate, count: nat)

  /** What the loop has recorded for `n` after reading the points whose names are `ns`. */
  function CenterOf(ps: seq<Point>, ns: seq<string>, n: string): Center
    requires n in ns && |ns| <= |ps|
    requires forall i :: 0 <= i < |ps| ==> IsValid(ps[i])
  {
    var j := FirstIndex(ns, n);
    assert IsValid(ps[j]);
    Center(ps[j].latitude.value, ps[j].longitude.value, Occurrences(ns, n))
  }

  /** `{ name, lat, lng, count }`. */
  datatype Cluster = Cluster(name: string, lat: Coordinate, lng: Coordinate, count: nat)

  /**
   * The clusters of a set of located points: one per distinct name, in first-seen order, placed
   * at the first point with that name and counting every point with it.
   */
  function Clusters(ps: seq<Point>): (cs: seq<Cluster>)
    requires forall i :: 0 <= i < |ps| ==> IsValid(ps[i])
  {
    var order := FirstSeen(Names(ps));
    seq(|order|, k requires 0 <= k < |order| =>
      var c := CenterOf(ps, Names(ps), order[k]); Cluster(order[k], c.lat, c.lng, c.count))
  }

  /** `Object.entries(centerByName).map(([name, v]) => ({ name, ...v }))`, keys in insertion order. */
  function Entries(centers: map<string, Center>, order: seq<string>): (cs: seq<Cluster>)
    requires forall n :: n in order ==> n in centers
  {
    seq(|order|, k requires 0 <= k < |order| =>
      Cluster(order[k], centers[order[k]].lat, centers[order[k]].lng, centers[order[k]].count))
  }

  /** The loop's record after reading the points whose names are `ns`. */
  ghost predicate Recorded(ps: seq<Point>, ns: seq<string>, centers: map<string, Center>, order: seq<string>)
    requires |ns| <= |ps| && forall i :: 0 <= i < |ps| ==> IsValid(ps[i])
  {
    && order == FirstSeen(ns)
    && (forall n :: n in centers <==> n in order)
    && (forall n :: n in centers ==> centers[n] == CenterOf(ps, ns, n))
  }

  /** Reading one more name keeps every earlier name's first point and adds to its count when it matches. */
  lemma {:induction false} CenterOfStep(ps: seq<Point>, ns: seq<string>, x: string, n: string)
    requires |ns| < |ps| && forall i :: 0 <= i < |ps| ==> IsValid(ps[i])
    requires n in ns
    ensures CenterOf(ps, ns + [x], n) == CenterOf(ps, ns, n).(count := Occurrences(ns + [x], n))
  {
    var ns' := ns + [x];
    assert ns'[..|ns'| - 1] == ns;
    assert n in ns'[..|ns'| - 1];
  }

  /** A name read for the first time sits at the point just read, seen once. */
  lemma {:induction false} CenterOfNew(ps: seq<Point>, ns: seq<string>, x: string)
    requires |ns| < |ps| && forall i :: 0 <= i < |ps| ==> IsValid(ps[i])
    requires x !in ns
    ensures CenterOf(ps, ns + [x], x) == Center(ps[|ns|].latitude.value, ps[|ns|].longitude.value, 1)
  {
    var ns' := ns + [x];
    assert ns'[..|ns'| - 1] == ns;
    assert FirstIndex(ns', x) == |ns|;
    assert Occurrences(ns', x) == Occurrences(ns, x) + 1;
  }

  /** Reading one more point: a new name starts at that point with count 0, then its count goes up. */
  lemma {:induction false} RecordStep(
    ps: seq<Point>, ns: seq<string>, x: string, centers: map<string, Center>, order: seq<string>,
    started: map<string, Center>, order': seq<string>)
    requires |ns| < |ps| && forall i :: 0 <= i < |ps| ==> IsValid(ps[i])
    requires Recorded(ps, ns, centers, order)
    requires x !in centers ==>
      started == centers[x := Center(ps[|ns|].latitude.value, ps[|ns|].longitude.value, 0)] && order' == order + [x]
    requires x in centers ==> started == centers && order' == order
    ensures x in started
    ensures Recorded(ps, ns + [x], started[x := started[x].(count := started[x].count + 1)], order')
  {
    var ns' := ns + [x];
    var after := started[x := started[x].(count := started[x].count + 1)];
    assert ns'[..|ns'| - 1] == ns;
    assert order' == FirstSeen(ns');
    assert forall n :: n in after <==> n in order';
    forall n | n in after
      ensures after[n] == CenterOf(ps, ns', n)
    {
      if n in ns {
        CenterOfStep(ps, ns, x, n);
        if n != x {
          assert Occurrences(ns', n) == Occurrences(ns, n);
        }
      } else {
        assert n == x;
        CenterOfNew(ps, ns, x);
      }
    }
  }

  /** The record after every point lists the clusters. */
  lemma RecordedClusters(ps: seq<Point>, centers: map<string, Center>, order: seq<string>)
    requires forall i :: 0 <= i < |ps| ==> IsValid(ps[i])
    requires Recorded(ps, Names(ps), centers, order)
    ensures forall n :: n in order ==> n in centers
    ensures Entries(centers, order) == Clusters(ps)
  {
  }

  /** `clusterByMunicipality(points)`: a running record per name, then its entries. */
  method ClusterByMunicipality(ps: seq<Point>) returns (cs: seq<Cluster>)
    requires forall i :: 0 <= i < |ps| ==> IsValid(ps[i])
    ensures cs == Clusters(ps)
  {
    ghost var ns := Names(ps);
    var centers: map<string, Center> := map[];
    var order: seq<string> := [];
    for i := 0 to |ps|
      invariant Recorded(ps, ns[..i], centers, order)
    {
      assert ns[..i + 1] == ns[..i] + [ns[i]];
      var name := ClusterName(ps[i]);
      ghost var centers0, order0 := centers, order;
      if name !in centers {
        centers := centers[name := Center(ps[i].latitude.value, ps[i].longitude.value, 0)];
        order := order + [name];
      }
      RecordStep(ps, ns[..i], name, centers0, order0, centers, order);
      centers := centers[name := centers[name].(count := centers[name].count + 1)];
    }
    assert ns[..|ps|] == ns;
    RecordedClusters(ps, centers, order);
    cs := Entries(centers, order);
  }

  // ---------------------------------------------------------------------------------------
  // What the clusters mean
  // ---------------------------------------------------------------------------------------

  /**
   * One cluster per distinct name, no name twice; each counts exactly the points with its name
   * (so at least one) and sits at the first of them.
   */
  lemma ClustersMeaning(ps: seq<Point>)
    requires forall i :: 0 <= i < |ps| ==> IsValid(ps[i])
    ensures var cs := Clusters(ps);
      && (forall i, j :: 0 <= i < j < |cs| ==> cs[i].name != cs[j].name)
      && (forall p :: p in ps ==> exists k :: 0 <= k < |cs| && cs[k].name == ClusterName(p))
      && forall k :: 0 <= k < |cs| ==>
           && cs[k].count == Occurrences(Names(ps), cs[k].name) >= 1
           && var j := FirstIndex(Names(ps), cs[k].name);
              ClusterName(ps[j]) == cs[k].name && cs[k].lat == ps[j].latitude.value
              && cs[k].lng == ps[j].longitude.value
              && forall i :: 0 <= i < j ==> ClusterName(ps[i]) != cs[k].name
  {
    ClustersCover(ps);
  }

  /** Every located point has its cluster. */
  lemma ClustersCover(ps: seq<Point>)
    requires forall i :: 0 <= i < |ps| ==> IsValid(ps[i])
    ensures var cs := Clusters(ps);
      forall p :: p in ps ==> exists k :: 0 <= k < |cs| && cs[k].name == ClusterName(p)
  {
    var ns := Names(ps);
    var order := FirstSeen(ns);
    var cs := Clusters(ps);
    forall p | p in ps ensures exists k :: 0 <= k < |cs| && cs[k].name == ClusterName(p) {
      var i :| 0 <= i < |ps| && ps[i] == p;
      assert ns[i] in order;
      var k :| 0 <= k < |order| && order[k] == ns[i];
      assert cs[k].name == ClusterName(p);
    }
  }

  function SumCounts(cs: seq<Cluster>): nat {
    if cs == [] then 0 else SumCounts(cs[..|cs| - 1]) + cs[|cs| - 1].count
  }

  /** The occurrences in `ns` of each of the names `f`, added up. */
  function OccurrenceSum(ns: seq<string>, f: seq<string>): nat {
    if f == [] then 0 else OccurrenceSum(ns, f[..|f| - 1]) + Occurrences(ns, f[|f| - 1])
  }

  /** One more name read adds one to the sum over distinct names exactly when it is among them. */
  lemma {:induction false} OccurrenceSumStep(ns: seq<string>, x: string, f: seq<string>)
    requires forall i, j :: 0 <= i < j < |f| ==> f[i] != f[j]
    ensures OccurrenceSum(ns + [x], f) == OccurrenceSum(ns, f) + (if x in f then 1 else 0)
  {
    var ns' := ns + [x];
    assert ns'[..|ns'| - 1] == ns;
    if f != [] {
      var g := f[..|f| - 1];
      OccurrenceSumStep(ns, x, g);
      assert x in f <==> x in g || x == f[|f| - 1];
      assert x == f[|f| - 1] ==> x !in g;
    }
  }

  /** Counting every distinct name's occurrences counts every name once. */
  lemma {:induction false} OccurrenceSumFirstSeen(ns: seq<string>)
    ensures OccurrenceSum(ns, FirstSeen(ns)) == |ns|
  {
    if ns != [] {
      var init := ns[..|ns| - 1];
      var x := ns[|ns| - 1];
      var f := FirstSeen(init);
      assert init + [x] == ns;
      OccurrenceSumFirstSeen(init);
      OccurrenceSumStep(init, x, f);
      if x !in f {
        assert (f + [x])[..|f|] == f;
        assert Occurrences(init, x) == 0;
        assert Occurrences(ns, x) == 1;
      }
    }
  }

  lemma {:induction false} SumCountsOf(cs: seq<Cluster>, ns: seq<string>, f: seq<string>)
    requires |cs| == |f| && forall k :: 0 <= k < |cs| ==> cs[k].count == Occurrences(ns, f[k])
    ensures SumCounts(cs) == OccurrenceSum(ns, f)
  {
    if cs != [] {
      SumCountsOf(cs[..|cs| - 1], ns, f[..|f| - 1]);
    }
  }

  /** Every located point is counted in exactly one circle: the counts add up to the points. */
  lemma ClustersTotal(ps: seq<Point>)
    requires forall i :: 0 <= i < |ps| ==> IsValid(ps[i])
    ensures SumCounts(Clusters(ps)) == |ps|
  {
    SumCountsOf(Clusters(ps), Names(ps), FirstSeen(Names(ps)));
    OccurrenceSumFirstSeen(Names(ps));
  }

  // ---------------------------------------------------------------------------------------
  // Rendering
  // ---------------------------------------------------------------------------------------

  /** `Math.max(6, Math.min(24, count))`. */
  function Radius(count: nat): (r: nat)
    ensures 6 <= r <= 24
    ensures 6 <= count <= 24 ==> r == count
    ensures count < 6 ==> r == 6
    ensures count > 24 ==> r == 24
  {
    if count < 6 then 6 else if count > 24 then 24 else count
  }

  /** A larger cluster never gets a smaller circle. */
  lemma RadiusMonotone(a: nat, b: nat)
    requires a <= b
    ensures Radius(a) <= Radius(b)
  {
  }

  /** `<CircleMarker key={name} center={[lat, lng]} radius={...} />`. */
  datatype Circle = Circle(key: string, lat: Coordinate, lng: Coordinate, radius: nat)

  function CircleOf(c: Cluster): Circle {
    Circle(c.name, c.lat, c.lng, Radius(c.count))
  }

  /** What the map draws for a set of points. */
  datatype View = View(markers: seq<Marker>, circles: seq<Circle>)

  /** `Map({ points })`: markers for the located points, then a circle per municipality. */
  method Render(points: seq<Point>) returns (v: View)
    ensures var valid := ValidPoints(points);
      v.markers == Markers(valid)
      && |v.circles| == |Clusters(valid)|
      && forall k :: 0 <= k < |v.circles| ==> v.circles[k] == CircleOf(Clusters(valid)[k])
  {
    var valid := ValidPoints(points);
    var clusters := ClusterByMunicipality(valid);
    v := View(Markers(valid), seq(|clusters|, k requires 0 <= k < |clusters| => CircleOf(clusters[k])));
  }
}
