/** Picking the neighbourhood street file for a position: ray casting on each
    polygon's exterior ring, the first polygon that contains the point, and
    the first index feature whose multipolygon contains it.  An exception
    raised while searching (a division by zero in the edge test, a null where
    an object is expected) ends the search with no file. */
module Neighborhood {
  import opened JsonValues
  import opened Geometry

  /** The term added to an edge's latitude difference before dividing by it. */
  const EPSILON: real := 0.000000000001

  /** What one ring edge does to the `inside` flag. */
  datatype EdgeOutcome = Toggle | Keep | ZeroDivision

  /** The edge test: the edge straddles the point's latitude (one end strictly
      above it, the other not) and the point lies strictly west of where the
      edge meets that latitude.  The second half is evaluated only when the
      first holds; its division raises when the shifted difference is zero. */
  function EdgeCrossing(lat: real, lon: real, a: Position, b: Position): (e: EdgeOutcome)
    ensures e.ZeroDivision? <==> (a.lat > lat) != (b.lat > lat) && b.lat - a.lat + EPSILON == 0.0
    ensures e.Toggle? <==> (a.lat > lat) != (b.lat > lat) && b.lat - a.lat + EPSILON != 0.0
                           && lon < XIntercept(lat, a, b)
  {
    if (a.lat > lat) != (b.lat > lat) then
      if b.lat - a.lat + EPSILON == 0.0 then ZeroDivision
      else if lon < XIntercept(lat, a, b) then Toggle
      else Keep
    else Keep
  }

  /** The longitude at which the line through a and b meets latitude `lat`,
      with the latitude difference shifted by EPSILON. */
  function XIntercept(lat: real, a: Position, b: Position): real
    requires b.lat - a.lat + EPSILON != 0.0
  {
    (b.lon - a.lon) * (lat - a.lat) / (b.lat - a.lat + EPSILON) + a.lon
  }

  /** Edge i of a ring runs from vertex i to the next one, the last vertex
      wrapping round to the first. */
  function EdgeAt(lat: real, lon: real, ring: seq<Position>, i: nat): EdgeOutcome
    requires i < |ring|
  {
    EdgeCrossing(lat, lon, ring[i], ring[(i + 1) % |ring|])
  }

  /** The edges among the first k that toggle the flag. */
  ghost function ToggleEdges(lat: real, lon: real, ring: seq<Position>, k: nat): set<nat>
    requires k <= |ring|
  {
    set i: nat | i < k && EdgeAt(lat, lon, ring, i).Toggle?
  }

  /** The number of toggles over the first k edges; None once an edge among
      them raises. */
  function Crossings(lat: real, lon: real, ring: seq<Position>, k: nat): (c: Option<nat>)
    requires k <= |ring|
    ensures c.None? <==> exists i :: 0 <= i < k && EdgeAt(lat, lon, ring, i).ZeroDivision?
  {
    if k == 0 then Some(0)
    else
      match Crossings(lat, lon, ring, k - 1)
      case None => None
      case Some(c) =>
        match EdgeAt(lat, lon, ring, k - 1)
        case ZeroDivision => None
        case Toggle => Some(c + 1)
        case Keep => Some(c)
  }

  /** The count is the number of toggling edges. */
  lemma {:induction false} CrossingsCountsToggles(lat: real, lon: real, ring: seq<Position>, k: nat)
    requires k <= |ring|
    ensures Crossings(lat, lon, ring, k).Some? ==> Crossings(lat, lon, ring, k).value == |ToggleEdges(lat, lon, ring, k)|
  {
    if k > 0 {
      CrossingsCountsToggles(lat, lon, ring, k - 1);
      var before := ToggleEdges(lat, lon, ring, k - 1);
      if EdgeAt(lat, lon, ring, k - 1).Toggle? {
        assert ToggleEdges(lat, lon, ring, k) == before + {k - 1};
        assert k - 1 !in before;
      } else {
        assert ToggleEdges(lat, lon, ring, k) == before;
      }
    }
  }

  /** `_point_in_polygon` as a value: the parity of the toggles over every
      edge, or None when the edge test raises.  An empty ring is outside. */
  function PointInRing(lat: real, lon: real, ring: seq<Position>): Option<bool> {
    match Crossings(lat, lon, ring, |ring|)
    case None => None
    case Some(c) => Some(c % 2 == 1)
  }

  /** The point is inside exactly when an odd number of edges toggle, and
      the test raises exactly when some edge divides by zero. */
  lemma RingParity(lat: real, lon: real, ring: seq<Position>)
    ensures PointInRing(lat, lon, ring).None? <==>
              exists i :: 0 <= i < |ring| && EdgeAt(lat, lon, ring, i).ZeroDivision?
    ensures PointInRing(lat, lon, ring).Some? ==>
              (PointInRing(lat, lon, ring).value <==> |ToggleEdges(lat, lon, ring, |ring|)| % 2 == 1)
  {
    CrossingsCountsToggles(lat, lon, ring, |ring|);
  }

  /** _point_in_polygon: one pass over the edges, flipping `inside`. */
  method PointInPolygon(lat: real, lon: real, ring: seq<Position>) returns (r: Option<bool>)
    ensures r == PointInRing(lat, lon, ring)
  {
    var inside := false;
    ghost var count := 0;
    var n := |ring|;
    for i := 0 to n
      invariant Crossings(lat, lon, ring, i) == Some(count)
      invariant inside <==> count % 2 == 1
    {
      var a := ring[i];
      var b := ring[(i + 1) % n];
      if (a.lat > lat) != (b.lat > lat) {
        if b.lat - a.lat + EPSILON == 0.0 {
          assert EdgeAt(lat, lon, ring, i).ZeroDivision?;
          return None;
        }
        if lon < XIntercept(lat, a, b) {
          inside := !inside;
          count := count + 1;
        }
      }
    }
    return Some(inside);
  }

  /** A polygon of a multipolygon is a list of rings; only the first, the
      exterior, is tested, and an empty polygon never contains the point. */
  function ExteriorTest(lat: real, lon: real, poly: seq<seq<Position>>): Option<bool> {
    if poly == [] then Some(false) else PointInRing(lat, lon, poly[0])
  }

  /** `_point_in_multipolygon` as a value: true at the first polygon whose
      exterior contains the point, None if a test raises before that. */
  function InMultipolygon(lat: real, lon: real, polys: seq<seq<seq<Position>>>): (r: Option<bool>)
    ensures r == Some(true) <==>
              exists i :: 0 <= i < |polys| && ExteriorTest(lat, lon, polys[i]) == Some(true)
                          && forall j :: 0 <= j < i ==> ExteriorTest(lat, lon, polys[j]) == Some(false)
    ensures r == Some(false) <==> forall i :: 0 <= i < |polys| ==> ExteriorTest(lat, lon, polys[i]) == Some(false)
  {
    if polys == [] then Some(false)
    else
      match ExteriorTest(lat, lon, polys[0])
      case None => None
      case Some(true) => Some(true)
      case Some(false) =>
        var rest := InMultipolygon(lat, lon, polys[1..]);
        assert forall i :: 1 <= i < |polys| ==> polys[i] == polys[1..][i - 1];
        rest
  }

  /** _point_in_multipolygon: the polygons in order, returning at the first hit. */
  method PointInMultipolygon(lat: real, lon: real, polys: seq<seq<seq<Position>>>) returns (r: Option<bool>)
    ensures r == InMultipolygon(lat, lon, polys)
  {
    var i := 0;
    while i < |polys|
      invariant 0 <= i <= |polys|
      invariant InMultipolygon(lat, lon, polys[i..]) == InMultipolygon(lat, lon, polys)
    {
      var poly := polys[i];
      assert polys[i..][1..] == polys[i + 1..];
      if poly != [] {
        var hit := PointInPolygon(lat, lon, poly[0]);
        if hit.None? {
          return None;
        }
        if hit.value {
          return Some(true);
        }
      }
      i := i + 1;
    }
    return Some(false);
  }

  /** A member of an object that may be missing, explicitly null, or present. */
  datatype Field<T> = Absent | Null | Present(value: T)

  /** The geometry object of an index feature: its `type` value (null when
      missing) and its `coordinates` (empty when missing). */
  datatype IndexGeometry = IndexGeometry(kind: Json, coordinates: seq<seq<seq<Position>>>)

  /** A feature of the neighbourhood index: its properties object and its
      geometry object. */
  datatype IndexFeature = IndexFeature(properties: Field<seq<(string, Json)>>, geometry: Field<IndexGeometry>)

  /** The outcome of examining features: the file name found, none yet, or
      an exception that ends the search. */
  datatype Search = Hit(name: Json) | Miss | Raised

  /** One iteration of the lookup loop.  A null properties object raises on
      `.get`; a null geometry raises only when the file name is truthy,
      because the `or` stops at `not fname` otherwise. */
  function FeatureOutcome(lat: real, lon: real, f: IndexFeature): (s: Search)
    ensures s.Hit? ==> Truthy(s.name) && f.properties.Present?
                       && Get(f.properties.value, "FileName") == Some(s.name)
                       && f.geometry.Present? && f.geometry.value.kind == JStr("MultiPolygon")
                       && InMultipolygon(lat, lon, f.geometry.value.coordinates) == Some(true)
    // the skip and failure rules, in the order the loop body applies them
    ensures f.properties.Null? ==> s == Raised
    ensures f.properties.Absent? ==> s == Miss
    ensures f.properties.Present? && !Truthy(GetOr(f.properties.value, "FileName", JNull)) ==> s == Miss
    ensures f.properties.Present? && Truthy(GetOr(f.properties.value, "FileName", JNull)) ==>
              (f.geometry.Null? ==> s == Raised) &&
              (f.geometry.Absent? ==> s == Miss) &&
              (f.geometry.Present? && f.geometry.value.kind != JStr("MultiPolygon") ==> s == Miss)
    // a named multipolygon decides by containment
    ensures f.properties.Present? && Truthy(GetOr(f.properties.value, "FileName", JNull))
            && f.geometry.Present? && f.geometry.value.kind == JStr("MultiPolygon") ==>
              (InMultipolygon(lat, lon, f.geometry.value.coordinates) == Some(true) ==>
                 s == Hit(GetOr(f.properties.value, "FileName", JNull))) &&
              (InMultipolygon(lat, lon, f.geometry.value.coordinates) == Some(false) ==> s == Miss) &&
              (InMultipolygon(lat, lon, f.geometry.value.coordinates) == None ==> s == Raised)
  {
    if f.properties.Null? then Raised
    else
      var fname := if f.properties.Present? then GetOr(f.properties.value, "FileName", JNull) else JNull;
      if !Truthy(fname) then Miss
      else if f.geometry.Null? then Raised
      else if f.geometry.Absent? || f.geometry.value.kind != JStr("MultiPolygon") then Miss
      else
        match InMultipolygon(lat, lon, f.geometry.value.coordinates)
        case None => Raised
        case Some(true) => Hit(fname)
        case Some(false) => Miss
  }

  /** The features in order: the first one that is not a miss decides. */
  function SearchIndex(lat: real, lon: real, features: seq<IndexFeature>): (s: Search)
    ensures s.Miss? <==> forall i :: 0 <= i < |features| ==> FeatureOutcome(lat, lon, features[i]).Miss?
    ensures !s.Miss? ==>
              exists i :: 0 <= i < |features| && FeatureOutcome(lat, lon, features[i]) == s
                          && forall j :: 0 <= j < i ==> FeatureOutcome(lat, lon, features[j]).Miss?
  {
    if features == [] then Miss
    else
      var first := FeatureOutcome(lat, lon, features[0]);
      if first.Miss? then
        var rest := SearchIndex(lat, lon, features[1..]);
        assert forall i :: 1 <= i < |features| ==> features[i] == features[1..][i - 1];
        rest
      else first
  }

  /** `_find_neighborhood_file` as a value: the file name of the first
      feature containing the point, None when there is none or the search
      raised. */
  function NeighborhoodFile(lat: real, lon: real, features: seq<IndexFeature>): Option<Json> {
    match SearchIndex(lat, lon, features)
    case Hit(name) => Some(name)
    case _ => None
  }

  /** The lookup answers a file exactly when some feature is a hit and every
      feature before it is a miss. */
  lemma FileIsFirstHit(lat: real, lon: real, features: seq<IndexFeature>, name: Json)
    ensures NeighborhoodFile(lat, lon, features) == Some(name) <==>
              exists i :: 0 <= i < |features| && FeatureOutcome(lat, lon, features[i]) == Hit(name)
                          && forall j :: 0 <= j < i ==> FeatureOutcome(lat, lon, features[j]).Miss?
  {
    if exists i :: 0 <= i < |features| && FeatureOutcome(lat, lon, features[i]) == Hit(name)
                   && forall j :: 0 <= j < i ==> FeatureOutcome(lat, lon, features[j]).Miss? {
      var i :| 0 <= i < |features| && FeatureOutcome(lat, lon, features[i]) == Hit(name)
               && forall j :: 0 <= j < i ==> FeatureOutcome(lat, lon, features[j]).Miss?;
      var s := SearchIndex(lat, lon, features);
      assert !s.Miss?;
      var k :| 0 <= k < |features| && FeatureOutcome(lat, lon, features[k]) == s
               && forall j :: 0 <= j < k ==> FeatureOutcome(lat, lon, features[j]).Miss?;
      assert k == i;
    }
  }

  /** A feature with a file name whose multipolygon contains the point is
      the answer, provided every feature before it is passed over. */
  lemma ContainingFeatureIsFound(lat: real, lon: real, features: seq<IndexFeature>, i: nat)
    requires i < |features|
    requires features[i].properties.Present?
    requires Truthy(GetOr(features[i].properties.value, "FileName", JNull))
    requires features[i].geometry.Present? && features[i].geometry.value.kind == JStr("MultiPolygon")
    requires InMultipolygon(lat, lon, features[i].geometry.value.coordinates) == Some(true)
    requires forall j :: 0 <= j < i ==> FeatureOutcome(lat, lon, features[j]).Miss?
    ensures NeighborhoodFile(lat, lon, features) == Some(GetOr(features[i].properties.value, "FileName", JNull))
  {
    FileIsFirstHit(lat, lon, features, GetOr(features[i].properties.value, "FileName", JNull));
  }

  /** _find_neighborhood_file: the features in order, returning the first
      file name whose multipolygon contains the point. */
  method FindNeighborhoodFile(lat: real, lon: real, features: seq<IndexFeature>) returns (r: Option<Json>)
    ensures r == NeighborhoodFile(lat, lon, features)
  {
    var i := 0;
    while i < |features|
      invariant 0 <= i <= |features|
      invariant SearchIndex(lat, lon, features[i..]) == SearchIndex(lat, lon, features)
    {
      var feat := features[i];
      assert features[i..][1..] == features[i + 1..];
      if feat.properties.Null? {
        return None;
      }
      var fname := if feat.properties.Present? then GetOr(feat.properties.value, "FileName", JNull) else JNull;
      if Truthy(fname) {
        if feat.geometry.Null? {
          return None;
        }
        if feat.geometry.Present? && feat.geometry.value.kind == JStr("MultiPolygon") {
          var hit := PointInMultipolygon(lat, lon, feat.geometry.value.coordinates);
          if hit.None? {
            return None;
          }
          if hit.value {
            return Some(fname);
          }
        }
      }
      i := i + 1;
    }
    return None;
  }
  /** The unit square as a closed ring, with the single index feature
      "Square" whose multipolygon is that square. */
  const UNIT_SQUARE: seq<Position> :=
    [Position(0.0, 0.0), Position(1.0, 0.0), Position(1.0, 1.0), Position(0.0, 1.0), Position(0.0, 0.0)]
  const SQUARE_INDEX: seq<IndexFeature> :=
    [IndexFeature(Present([("FileName", JStr("Square"))]),
                  Present(IndexGeometry(JStr("MultiPolygon"), [[UNIT_SQUARE]])))]

  /** The centre of the square is found in "Square". */
  lemma SquareContainsCentre()
    ensures NeighborhoodFile(0.5, 0.5, SQUARE_INDEX) == Some(JStr("Square"))
  {
    var ring := UNIT_SQUARE;
    assert EdgeAt(0.5, 0.5, ring, 0) == Keep;
    assert XIntercept(0.5, ring[1], ring[2]) == 1.0;
    assert EdgeAt(0.5, 0.5, ring, 1) == Toggle;
    assert EdgeAt(0.5, 0.5, ring, 2) == Keep;
    assert XIntercept(0.5, ring[3], ring[4]) == 0.0;
    assert EdgeAt(0.5, 0.5, ring, 3) == Keep;
    assert EdgeAt(0.5, 0.5, ring, 4) == Keep;
    assert Crossings(0.5, 0.5, ring, 5) == Some(1);
  }

  /** A point outside the square is in no neighbourhood. */
  lemma SquareExcludesFarPoint()
    ensures NeighborhoodFile(2.0, 2.0, SQUARE_INDEX) == None
  {
    var ring := UNIT_SQUARE;
    assert forall i :: 0 <= i < 5 ==> EdgeAt(2.0, 2.0, ring, i) == Keep;
    assert Crossings(2.0, 2.0, ring, 5) == Some(0);
  }

  /** The EPSILON term does not only guard horizontal edges (those never
      reach the division): it makes an edge whose latitude falls by exactly
      EPSILON divide by zero.  The square below, with an extra vertex EPSILON
      above a corner, then raises for a point inside it, and the lookup
      answers no file. */
  lemma EpsilonEdgeRaises()
    ensures PointInRing(0.0000000000005, 0.5,
              [Position(0.0, 0.0), Position(1.0, 0.0), Position(1.0, 1.0), Position(0.0, 1.0),
               Position(0.0, EPSILON), Position(0.0, 0.0)]) == None
  {
    var ring := [Position(0.0, 0.0), Position(1.0, 0.0), Position(1.0, 1.0), Position(0.0, 1.0),
                 Position(0.0, EPSILON), Position(0.0, 0.0)];
    assert EdgeAt(0.0000000000005, 0.5, ring, 4) == ZeroDivision;
  }
}
