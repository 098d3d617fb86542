/** The street-segment matcher: planar point-to-segment distance, segment
    bearing, the scan for the nearest segment of a street dataset and the
    rules that pick the curb side the vehicle is parked on. */
module Geometry {
  import opened JsonValues

  /** `math.pi` as the double the source computes with. */
  const PI: real := 3.141592653589793
  /** Meters per degree of latitude, and per degree of longitude at the equator. */
  const METERS_PER_DEG_LAT: real := 111139.0
  /** A vehicle closer than this to the centre line of a street with a median is on the median. */
  const MEDIAN_DISTANCE: real := 6.0

  /** The transcendental functions of Python's `math` module, as parameters.
      `atan2` answers in radians. */
  datatype MathLib = MathLib(
    sin: real -> real,
    cos: real -> real,
    sqrt: real -> real,
    atan2: (real, real) -> real)

  /** What the model relies on: `sqrt` is the non-negative square root and
      `atan2` lies in [-PI, PI]. */
  ghost predicate Sound(m: MathLib) {
    && (forall x :: 0.0 <= x ==> 0.0 <= m.sqrt(x) && m.sqrt(x) * m.sqrt(x) == x)
    && (forall y, x :: -PI <= m.atan2(y, x) <= PI)
  }

  function Radians(deg: real): real { deg * PI / 180.0 }

  function Degrees(rad: real): real { rad * 180.0 / PI }

  /** A GeoJSON position `[lon, lat]` in degrees. */
  datatype Position = Position(lon: real, lat: real)

  /** A point of the local plane, in meters. */
  datatype Vec = Vec(x: real, y: real)

  /** A segment in the local plane. */
  datatype Planar = Planar(p1: Vec, p2: Vec)

  function Dot(u: Vec, v: Vec): real { u.x * v.x + u.y * v.y }

  function SqNorm(v: Vec): (r: real)
    ensures r >= 0.0
  {
    v.x * v.x + v.y * v.y
  }

  /** The vector from the first end of a segment to the second. */
  function Dir(seg: Planar): Vec { Vec(seg.p2.x - seg.p1.x, seg.p2.y - seg.p1.y) }

  /** The point `p1 + s * (p2 - p1)`; the segment is the set of these for s in [0, 1]. */
  function PointAt(seg: Planar, s: real): Vec {
    Vec(seg.p1.x + s * (seg.p2.x - seg.p1.x), seg.p1.y + s * (seg.p2.y - seg.p1.y))
  }

  /** The segment a-b in meters, in a plane whose origin is the query point p.
      Longitude is scaled by the cosine of the mean latitude of the segment's
      two ends (not of the query point). */
  function ToPlane(m: MathLib, p: Position, a: Position, b: Position): Planar {
    var metersPerDegLon := 111139.0 * m.cos(Radians((a.lat + b.lat) / 2.0));
    Planar(Vec((a.lon - p.lon) * metersPerDegLon, (a.lat - p.lat) * METERS_PER_DEG_LAT),
           Vec((b.lon - p.lon) * metersPerDegLon, (b.lat - p.lat) * METERS_PER_DEG_LAT))
  }

  /** `max(0, min(1, t))` */
  function Clamp01(t: real): real {
    if t < 0.0 then 0.0 else if t > 1.0 then 1.0 else t
  }

  lemma SquarePositive(x: real)
    requires x != 0.0
    ensures x * x > 0.0
  {
    if x > 0.0 {
      assert x * x > 0.0;
    } else {
      assert (-x) * (-x) > 0.0;
    }
  }

  lemma SquareZero(r: real)
    requires r * r <= 0.0
    ensures r == 0.0
  {
    if r != 0.0 {
      calc {
        0.0;
        < { SquarePositive(r); }
        r * r;
        <= 0.0;
      }
    }
  }

  lemma NormPositive(v: Vec)
    requires v != Vec(0.0, 0.0)
    ensures SqNorm(v) > 0.0
  {
    if v.x != 0.0 {
      SquarePositive(v.x);
      calc { SqNorm(v); == v.x * v.x + v.y * v.y; >= v.x * v.x; > 0.0; }
    } else {
      SquarePositive(v.y);
      calc { SqNorm(v); == v.x * v.x + v.y * v.y; >= v.y * v.y; > 0.0; }
    }
  }

  lemma NormZero(v: Vec)
    requires SqNorm(v) == 0.0
    ensures v == Vec(0.0, 0.0)
  {
    if v != Vec(0.0, 0.0) {
      NormPositive(v);
    }
  }

  /** Distance in meters from the point p to the segment a-b: the origin of
      the local plane is projected on the line through the segment, the
      projection parameter is clamped to the segment, and a zero-length
      segment yields the distance to its first end. */
  function DistancePointToSegment(m: MathLib, p: Position, a: Position, b: Position): (r: real)
    ensures Sound(m) ==> r >= 0.0
  {
    var seg := ToPlane(m, p, a, b);
    var d := Dir(seg);
    if d.x == 0.0 && d.y == 0.0 then
      m.sqrt(SqNorm(seg.p1))
    else
      m.sqrt(SqNorm(PointAt(seg, Clamp01(ProjectionParameter(seg)))))
  }

  /** The parameter t of the foot of the perpendicular from the origin on the
      line through a segment of non-zero length (the point `PointAt(seg, t)`
      is orthogonal to the segment's direction, `ProjectionIsOrthogonal`). */
  function ProjectionParameter(seg: Planar): (t: real)
    requires Dir(seg) != Vec(0.0, 0.0)
    ensures t * SqNorm(Dir(seg)) == -Dot(seg.p1, Dir(seg))
  {
    NormPositive(Dir(seg));
    -Dot(seg.p1, Dir(seg)) / SqNorm(Dir(seg))
  }

  /** The point at the projection parameter is orthogonal to the segment's
      direction: `(P - P(t)) . V == 0` with P the origin. */
  lemma ProjectionIsOrthogonal(seg: Planar)
    requires Dir(seg) != Vec(0.0, 0.0)
    ensures Dot(PointAt(seg, ProjectionParameter(seg)), Dir(seg)) == 0.0
  {
    var t := ProjectionParameter(seg);
    var d := Dir(seg);
    assert PointAt(seg, t) == Vec(seg.p1.x + t * d.x, seg.p1.y + t * d.y);
    Distribute(t, d.x * d.x, d.y * d.y);
    assert (seg.p1.x + t * d.x) * d.x == seg.p1.x * d.x + t * (d.x * d.x);
    assert (seg.p1.y + t * d.y) * d.y == seg.p1.y * d.y + t * (d.y * d.y);
    assert Dot(PointAt(seg, t), d) == Dot(seg.p1, d) + t * SqNorm(d);
  }

  lemma ExpandSquare(x: real, d: real, s: real)
    ensures (x + s * d) * (x + s * d) == x * x + 2.0 * s * (x * d) + s * s * (d * d)
  {
  }

  lemma Distribute(k: real, u: real, v: real)
    ensures k * (u + v) == k * u + k * v
  {
  }

  /** |p1 + s*d|^2 as a polynomial in s. */
  lemma Expand(seg: Planar, s: real)
    ensures SqNorm(PointAt(seg, s))
            == SqNorm(seg.p1) + 2.0 * s * Dot(seg.p1, Dir(seg)) + s * s * SqNorm(Dir(seg))
  {
    var x, y := seg.p1.x, seg.p1.y;
    var dx, dy := Dir(seg).x, Dir(seg).y;
    calc {
      SqNorm(PointAt(seg, s));
      == (x + s * dx) * (x + s * dx) + (y + s * dy) * (y + s * dy);
      == { ExpandSquare(x, dx, s); ExpandSquare(y, dy, s); }
      (x * x + 2.0 * s * (x * dx) + s * s * (dx * dx)) + (y * y + 2.0 * s * (y * dy) + s * s * (dy * dy));
      == { Distribute(2.0 * s, x * dx, y * dy); Distribute(s * s, dx * dx, dy * dy); }
      (x * x + y * y) + 2.0 * s * (x * dx + y * dy) + s * s * (dx * dx + dy * dy);
    }
  }

  /** The difference of two values of that polynomial, factored through the root t0 of its derivative. */
  lemma Gap(a: real, c: real, l: real, s: real, t: real, t0: real)
    requires t0 * l == -c
    ensures (a + 2.0 * s * c + s * s * l) - (a + 2.0 * t * c + t * t * l) == l * ((s - t) * (s + t - 2.0 * t0))
  {
    calc {
      (a + 2.0 * s * c + s * s * l) - (a + 2.0 * t * c + t * t * l);
      == 2.0 * c * (s - t) + l * (s * s - t * t);
      == 2.0 * (-(t0 * l)) * (s - t) + l * (s * s - t * t);
      == l * ((s - t) * (s + t - 2.0 * t0));
    }
  }

  lemma ProductNonNegative(x: real, y: real)
    requires (x >= 0.0 && y >= 0.0) || (x <= 0.0 && y <= 0.0)
    ensures x * y >= 0.0
  {
    if x >= 0.0 && y >= 0.0 {
      assert x * y >= 0.0;
    } else {
      assert (-x) * (-y) >= 0.0;
    }
  }

  /** Clamping the root of the derivative to [0, 1] leaves every s of [0, 1]
      on the side of the clamped value where the polynomial does not decrease. */
  lemma ClampedGapNonNegative(s: real, t0: real)
    requires 0.0 <= s <= 1.0
    ensures (s - Clamp01(t0)) * (s + Clamp01(t0) - 2.0 * t0) >= 0.0
  {
    var t := Clamp01(t0);
    if t0 < 0.0 || t0 > 1.0 {
      ProductNonNegative(s - t, s + t - 2.0 * t0);
    } else {
      calc {
        (s - t) * (s + t - 2.0 * t0);
        == (s - t0) * (s - t0);
        >= { ProductNonNegative(s - t0, s - t0); } 0.0;
      }
    }
  }

  lemma GapNonNegative(a: real, c: real, l: real, s: real, t: real, t0: real)
    requires t0 * l == -c
    requires l >= 0.0
    requires (s - t) * (s + t - 2.0 * t0) >= 0.0
    ensures a + 2.0 * t * c + t * t * l <= a + 2.0 * s * c + s * s * l
  {
    Gap(a, c, l, s, t, t0);
    ProductNonNegative(l, (s - t) * (s + t - 2.0 * t0));
  }

  /** The clamped projection parameter picks the point of the segment nearest to the origin. */
  lemma ClampedProjectionIsNearest(seg: Planar, s: real)
    requires Dir(seg) != Vec(0.0, 0.0)
    requires 0.0 <= s <= 1.0
    ensures SqNorm(PointAt(seg, Clamp01(ProjectionParameter(seg)))) <= SqNorm(PointAt(seg, s))
  {
    var t0 := ProjectionParameter(seg);
    var t := Clamp01(t0);
    calc {
      SqNorm(PointAt(seg, t));
      == { Expand(seg, t); }
      SqNorm(seg.p1) + 2.0 * t * Dot(seg.p1, Dir(seg)) + t * t * SqNorm(Dir(seg));
      <= { ClampedGapNonNegative(s, t0);
           GapNonNegative(SqNorm(seg.p1), Dot(seg.p1, Dir(seg)), SqNorm(Dir(seg)), s, t, t0); }
      SqNorm(seg.p1) + 2.0 * s * Dot(seg.p1, Dir(seg)) + s * s * SqNorm(Dir(seg));
      == { Expand(seg, s); }
      SqNorm(PointAt(seg, s));
    }
  }

  /** A zero-length segment is the single point p1. */
  lemma DegeneratePointAt(seg: Planar, s: real)
    requires Dir(seg) == Vec(0.0, 0.0)
    ensures PointAt(seg, s) == seg.p1
  {
    calc {
      PointAt(seg, s);
      == Vec(seg.p1.x + s * Dir(seg).x, seg.p1.y + s * Dir(seg).y);
      == Vec(seg.p1.x + s * 0.0, seg.p1.y + s * 0.0);
      == seg.p1;
    }
  }

  lemma SqrtSquared(m: MathLib, v: real)
    requires Sound(m)
    requires 0.0 <= v
    ensures m.sqrt(v) * m.sqrt(v) == v
  {
  }

  /** For a zero-length segment every point of it is p1, at the distance found. */
  lemma DegenerateDistance(m: MathLib, p: Position, a: Position, b: Position)
    requires Sound(m)
    requires Dir(ToPlane(m, p, a, b)) == Vec(0.0, 0.0)
    ensures DistancePointToSegment(m, p, a, b) == m.sqrt(SqNorm(ToPlane(m, p, a, b).p1))
    ensures forall s :: DistancePointToSegment(m, p, a, b) * DistancePointToSegment(m, p, a, b)
                        == SqNorm(PointAt(ToPlane(m, p, a, b), s))
  {
    var seg := ToPlane(m, p, a, b);
    SqrtSquared(m, SqNorm(seg.p1));
    forall s
      ensures DistancePointToSegment(m, p, a, b) * DistancePointToSegment(m, p, a, b) == SqNorm(PointAt(seg, s))
    {
      DegeneratePointAt(seg, s);
    }
  }

  /** For a segment of non-zero length the distance is that of the point at
      the clamped projection parameter, and no point of the segment is nearer. */
  lemma ProperDistance(m: MathLib, p: Position, a: Position, b: Position)
    requires Sound(m)
    requires Dir(ToPlane(m, p, a, b)) != Vec(0.0, 0.0)
    ensures DistancePointToSegment(m, p, a, b) * DistancePointToSegment(m, p, a, b)
            == SqNorm(PointAt(ToPlane(m, p, a, b), Clamp01(ProjectionParameter(ToPlane(m, p, a, b)))))
    ensures forall s :: 0.0 <= s <= 1.0 ==>
              DistancePointToSegment(m, p, a, b) * DistancePointToSegment(m, p, a, b)
              <= SqNorm(PointAt(ToPlane(m, p, a, b), s))
  {
    var seg := ToPlane(m, p, a, b);
    SqrtSquared(m, SqNorm(PointAt(seg, Clamp01(ProjectionParameter(seg)))));
    forall s | 0.0 <= s <= 1.0
      ensures SqNorm(PointAt(seg, Clamp01(ProjectionParameter(seg)))) <= SqNorm(PointAt(seg, s))
    {
      ClampedProjectionIsNearest(seg, s);
    }
  }

  /** The distance is that of the nearest point of the segment: it is attained
      at some point of the segment and no point of the segment is closer.  A
      zero-length segment gives the distance to its first end. */
  lemma DistanceIsNearestPointOfSegment(m: MathLib, p: Position, a: Position, b: Position)
    requires Sound(m)
    ensures var seg := ToPlane(m, p, a, b);
            var r := DistancePointToSegment(m, p, a, b);
            && (exists s :: 0.0 <= s <= 1.0 && r * r == SqNorm(PointAt(seg, s)))
            && (forall s :: 0.0 <= s <= 1.0 ==> r * r <= SqNorm(PointAt(seg, s)))
            && (seg.p1 == seg.p2 ==> r == m.sqrt(SqNorm(seg.p1)))
  {
    var seg := ToPlane(m, p, a, b);
    if Dir(seg) == Vec(0.0, 0.0) {
      DegenerateDistance(m, p, a, b);
      assert PointAt(seg, 0.0) == PointAt(seg, 0.0);
    } else {
      ProperDistance(m, p, a, b);
      var t := Clamp01(ProjectionParameter(seg));
      assert 0.0 <= t <= 1.0;
    }
  }

  lemma ZeroDistanceIsOnSegment(m: MathLib, p: Position, a: Position, b: Position)
    requires Sound(m)
    requires DistancePointToSegment(m, p, a, b) == 0.0
    ensures exists s :: 0.0 <= s <= 1.0 && PointAt(ToPlane(m, p, a, b), s) == Vec(0.0, 0.0)
  {
    var seg := ToPlane(m, p, a, b);
    var r := DistancePointToSegment(m, p, a, b);
    DistanceIsNearestPointOfSegment(m, p, a, b);
    var s :| 0.0 <= s <= 1.0 && r * r == SqNorm(PointAt(seg, s));
    calc {
      SqNorm(PointAt(seg, s));
      == r * r;
      == 0.0 * 0.0;
      == 0.0;
    }
    NormZero(PointAt(seg, s));
  }

  lemma OnSegmentIsZeroDistance(m: MathLib, p: Position, a: Position, b: Position, s: real)
    requires Sound(m)
    requires 0.0 <= s <= 1.0 && PointAt(ToPlane(m, p, a, b), s) == Vec(0.0, 0.0)
    ensures DistancePointToSegment(m, p, a, b) == 0.0
  {
    DistanceIsNearestPointOfSegment(m, p, a, b);
    calc {
      DistancePointToSegment(m, p, a, b) * DistancePointToSegment(m, p, a, b);
      <= SqNorm(PointAt(ToPlane(m, p, a, b), s));
      == SqNorm(Vec(0.0, 0.0));
      == 0.0;
    }
    SquareZero(DistancePointToSegment(m, p, a, b));
  }

  /** The distance is zero exactly when the query point lies on the segment. */
  lemma DistanceZeroIffOnSegment(m: MathLib, p: Position, a: Position, b: Position)
    requires Sound(m)
    ensures (DistancePointToSegment(m, p, a, b) == 0.0)
              <==> (exists s :: 0.0 <= s <= 1.0 && PointAt(ToPlane(m, p, a, b), s) == Vec(0.0, 0.0))
  {
    if DistancePointToSegment(m, p, a, b) == 0.0 {
      ZeroDistanceIsOnSegment(m, p, a, b);
    }
    if exists s :: 0.0 <= s <= 1.0 && PointAt(ToPlane(m, p, a, b), s) == Vec(0.0, 0.0) {
      var s :| 0.0 <= s <= 1.0 && PointAt(ToPlane(m, p, a, b), s) == Vec(0.0, 0.0);
      OnSegmentIsZeroDistance(m, p, a, b, s);
    }
  }

  /** `(bearing + 360) % 360` with Python's float modulo, whose result has the
      sign of the divisor. */
  function NormalizeBearing(bearing: real): (r: real)
    ensures 0.0 <= r < 360.0
    ensures -360.0 <= bearing < 0.0 ==> r == bearing + 360.0
    ensures 0.0 <= bearing < 360.0 ==> r == bearing
  {
    var x := bearing + 360.0;
    x - 360.0 * ((x / 360.0).Floor as real)
  }

  /** The great-circle initial bearing from point 1 to point 2, in degrees, before normalisation. */
  function RawBearing(m: MathLib, lat1: real, lon1: real, lat2: real, lon2: real): (r: real)
    ensures Sound(m) ==> -180.0 <= r <= 180.0
  {
    var y := m.sin(Radians(lon2 - lon1)) * m.cos(Radians(lat2));
    var x := m.cos(Radians(lat1)) * m.sin(Radians(lat2))
             - m.sin(Radians(lat1)) * m.cos(Radians(lat2)) * m.cos(Radians(lon2 - lon1));
    Degrees(m.atan2(y, x))
  }

  /** The bearing from point 1 to point 2 in [0, 360), 0 being north. */
  function Bearing(m: MathLib, lat1: real, lon1: real, lat2: real, lon2: real): (r: real)
    ensures 0.0 <= r < 360.0
    ensures Sound(m) ==> var raw := RawBearing(m, lat1, lon1, lat2, lon2);
                         r == if raw < 0.0 then raw + 360.0 else raw
  {
    NormalizeBearing(RawBearing(m, lat1, lon1, lat2, lon2))
  }

  // ---------------------------------------------------------------------
  // Street dataset

  datatype FeatureGeometry =
    | LineString(coords: seq<Position>)
    | MultiPolygon(polygons: seq<seq<seq<Position>>>)
    | OtherGeometry(kind: string)

  /** A street feature's properties: the plain fields (street names and the
      like) and the `Sides` object, side label to schedule entry, in the
      order of the source data (empty when `Sides` is absent). */
  datatype StreetProperties = StreetProperties(fields: seq<(string, Json)>, sides: seq<(string, Json)>)

  datatype StreetFeature = StreetFeature(geometry: Option<FeatureGeometry>, properties: Option<StreetProperties>)

  /** A decoded street dataset; `features` is None when the document is empty or has no `features`. */
  datatype Dataset = Dataset(features: Option<seq<StreetFeature>>)

  /** One segment of a polyline, with the feature it belongs to. */
  datatype Segment = Segment(feature: StreetFeature, p1: Position, p2: Position)

  /** The segments between consecutive vertices of a LineString feature; none for other features. */
  function FeatureSegments(f: StreetFeature): (segs: seq<Segment>)
    ensures f.geometry.Some? && f.geometry.value.LineString? && |f.geometry.value.coords| >= 2
            ==> var coords := f.geometry.value.coords;
                && |segs| == |coords| - 1
                && forall j :: 0 <= j < |segs| ==> segs[j] == Segment(f, coords[j], coords[j + 1])
    ensures !(f.geometry.Some? && f.geometry.value.LineString? && |f.geometry.value.coords| >= 2)
            ==> segs == []
  {
    match f.geometry
    case Some(LineString(coords)) =>
      if |coords| < 2 then []
      else seq(|coords| - 1, j requires 0 <= j < |coords| - 1 => Segment(f, coords[j], coords[j + 1]))
    case _ => []
  }

  /** All segments of a dataset's features, feature by feature, in order. */
  function Segments(features: seq<StreetFeature>): (segs: seq<Segment>)
    ensures forall j :: 0 <= j < |segs| ==> segs[j].feature in features
  {
    if features == [] then []
    else Segments(features[..|features| - 1]) + FeatureSegments(features[|features| - 1])
  }

  function SegmentDistance(m: MathLib, s: Segment, p: Position): real {
    DistancePointToSegment(m, p, s.p1, s.p2)
  }

  /** The bearing of a segment from its first vertex to its second. */
  function SegmentBearing(m: MathLib, s: Segment): real {
    Bearing(m, s.p1.lat, s.p1.lon, s.p2.lat, s.p2.lon)
  }

  /** The distance from p to each segment, in order. */
  function Distances(m: MathLib, segs: seq<Segment>, p: Position): (ds: seq<real>)
    ensures |ds| == |segs|
    ensures forall j :: 0 <= j < |segs| ==> ds[j] == SegmentDistance(m, segs[j], p)
  {
    seq(|segs|, j requires 0 <= j < |segs| => SegmentDistance(m, segs[j], p))
  }

  /** The index of the first minimum of ds: no entry is smaller and every earlier entry is larger. */
  function FirstMinimum(ds: seq<real>): (k: nat)
    requires ds != []
    ensures k < |ds|
    ensures forall j :: 0 <= j < |ds| ==> ds[k] <= ds[j]
    ensures forall j :: 0 <= j < k ==> ds[k] < ds[j]
  {
    if |ds| == 1 then 0
    else
      var k := FirstMinimum(ds[..|ds| - 1]);
      if ds[|ds| - 1] < ds[k] then |ds| - 1 else k
  }

  /** Whether a street of this bearing runs roughly north-south:
      bearings in [315, 360), [0, 45) or [135, 225). */
  predicate IsNorthSouth(bearing: real) {
    315.0 <= bearing || bearing < 45.0 || (135.0 <= bearing < 225.0)
  }

  /** The side key the heading selects: the curb on the right of the direction
      of travel.  On a north-south street a heading of exactly 90 or 270
      selects nothing. */
  function DetectedSideKey(bearing: real, rotation: int): (k: Option<string>)
    ensures k == Some("East") <==> IsNorthSouth(bearing) && (rotation < 90 || rotation > 270)
    ensures k == Some("West") <==> IsNorthSouth(bearing) && 90 < rotation < 270
    ensures k == Some("South") <==> !IsNorthSouth(bearing) && rotation < 180
    ensures k == Some("North") <==> !IsNorthSouth(bearing) && rotation >= 180
    ensures k == None <==> IsNorthSouth(bearing) && (rotation == 90 || rotation == 270)
  {
    if IsNorthSouth(bearing) then
      if rotation < 90 || rotation > 270 then Some("East")
      else if 90 < rotation < 270 then Some("West")
      else None
    else if rotation < 180 then Some("South")
    else Some("North")
  }

  /** The compass side on the right of a vehicle travelling with heading h
      (degrees in [0, 360)) along a street of the given orientation, when it
      is determined: the direction h + 90 must point strictly into one half
      plane of the street. */
  function RightHandSide(northSouth: bool, h: int): Option<string> {
    var right := (h + 90) % 360;
    if northSouth then
      if 0 < right < 180 then Some("East") else if 180 < right < 360 then Some("West") else None
    else
      if 90 < right < 270 then Some("South") else if right < 90 || right > 270 then Some("North") else None
  }

  /** The side rule agrees with the right-hand rule wherever the latter
      decides; it settles a heading along an east-west street (0 or 180) as
      South and North respectively. */
  lemma DetectedSideIsRightHandSide(bearing: real, rotation: int)
    requires 0 <= rotation < 360
    ensures RightHandSide(IsNorthSouth(bearing), rotation).Some?
            ==> DetectedSideKey(bearing, rotation) == RightHandSide(IsNorthSouth(bearing), rotation)
    ensures RightHandSide(IsNorthSouth(bearing), rotation).None?
            ==> if IsNorthSouth(bearing) then DetectedSideKey(bearing, rotation).None?
                else DetectedSideKey(bearing, rotation) == Some(if rotation == 0 then "South" else "North")
  {
  }

  /** The side a vehicle is parked on, the schedule entry for it (JNull when
      there is none) and whether it is on the median. */
  datatype SideChoice = SideChoice(side: string, entry: Json, median: bool)

  /** Median check first; else the heading rule; a key absent from `Sides`
      falls back to the first declared side, labelled "(Defaulted)". */
  function ChooseSide(sides: seq<(string, Json)>, distance: real, bearing: real, rotation: int): (c: SideChoice)
    ensures c.median <==> distance < MEDIAN_DISTANCE && HasKey(sides, "Median")
    ensures c.median ==> c.side == "Median" && Get(sides, "Median") == Some(c.entry)
    ensures !c.median && DetectedSideKey(bearing, rotation).Some?
            && HasKey(sides, DetectedSideKey(bearing, rotation).value)
            ==> c.side == DetectedSideKey(bearing, rotation).value && Get(sides, c.side) == Some(c.entry)
    ensures !c.median && !(DetectedSideKey(bearing, rotation).Some? && HasKey(sides, DetectedSideKey(bearing, rotation).value))
            && sides != []
            ==> c.side == sides[0].0 + " (Defaulted)" && c.entry == sides[0].1
    ensures sides == [] <==> c.side == "Unknown"
    ensures sides == [] ==> c.entry == JNull
    // the side is always a declared key, a defaulted declared key, or "Unknown" when nothing is declared
    ensures || HasKey(sides, c.side)
            || (sides != [] && c.side == sides[0].0 + " (Defaulted)")
            || (sides == [] && c.side == "Unknown")
  {
    var median := distance < MEDIAN_DISTANCE && HasKey(sides, "Median");
    var detected := if median then Some("Median") else DetectedSideKey(bearing, rotation);
    if detected.Some? && HasKey(sides, detected.value) then
      SideChoice(detected.value, Get(sides, detected.value).value, median)
    else if sides != [] then
      SideChoice(sides[0].0 + " (Defaulted)", sides[0].1, median)
    else
      SideChoice("Unknown", JNull, median)
  }

  /** The street's display name: the first present of `streetname`,
      `Corridor` and `StreetIdentifier`, else "Unknown". */
  function StreetName(fields: seq<(string, Json)>): (r: Json)
    ensures HasKey(fields, "streetname") ==> Get(fields, "streetname") == Some(r)
    ensures !HasKey(fields, "streetname") && HasKey(fields, "Corridor") ==> Get(fields, "Corridor") == Some(r)
    ensures !HasKey(fields, "streetname") && !HasKey(fields, "Corridor") && HasKey(fields, "StreetIdentifier")
            ==> Get(fields, "StreetIdentifier") == Some(r)
    ensures !HasKey(fields, "streetname") && !HasKey(fields, "Corridor") && !HasKey(fields, "StreetIdentifier")
            ==> r == JStr("Unknown")
  {
    GetOr(fields, "streetname", GetOr(fields, "Corridor", GetOr(fields, "StreetIdentifier", JStr("Unknown"))))
  }

  /** What the matcher reports for the nearest street. */
  datatype MatchResult = MatchResult(street: Json, nextCleaning: Json, parkedOnSide: string, distance: real, median: bool)

  /** No segment at all; the nearest feature has no `properties` (a KeyError); or a match. */
  datatype Lookup = NoMatch | PropertiesMissing | Found(result: MatchResult)

  /** What the matcher answers once the nearest segment is known: the feature
      owning it (None when there was no segment), its distance and its bearing. */
  function Report(closest: Option<StreetFeature>, minDist: real, bearing: real, rotation: int): (r: Lookup)
    ensures r.NoMatch? <==> closest.None?
    ensures r.PropertiesMissing? <==> closest.Some? && closest.value.properties.None?
    ensures r.Found? ==>
              var props := closest.value.properties.value;
              && r.result.distance == minDist
              && r.result.street == StreetName(props.fields)
              && (r.result.median <==> minDist < MEDIAN_DISTANCE && HasKey(props.sides, "Median"))
              && (props.sides == [] <==> r.result.parkedOnSide == "Unknown")
  {
    if closest.None? then NoMatch
    else if closest.value.properties.None? then PropertiesMissing
    else
      var props := closest.value.properties.value;
      var c := ChooseSide(props.sides, minDist, bearing, rotation);
      Found(MatchResult(StreetName(props.fields), c.entry, c.side, minDist, c.median))
  }

  /** The matcher's answer for a vehicle at (lat, lon) with the given heading:
      the report for the first nearest segment of the dataset. */
  function CleaningData(m: MathLib, geojson: Dataset, lat: real, lon: real, rotation: int): (r: Lookup)
    ensures r.NoMatch? <==> geojson.features.None? || Segments(geojson.features.value) == []
    ensures r.Found? ==> forall s :: s in Segments(geojson.features.value)
                           ==> r.result.distance <= SegmentDistance(m, s, Position(lon, lat))
    ensures r.Found? ==> exists s :: s in Segments(geojson.features.value)
                           && r.result.distance == SegmentDistance(m, s, Position(lon, lat))
    ensures r.Found? && Sound(m) ==> r.result.distance >= 0.0
  {
    if geojson.features.None? then NoMatch
    else
      var features := geojson.features.value;
      var segs := Segments(features);
      if segs == [] then NoMatch
      else
        var p := Position(lon, lat);
        var k := FirstMinimum(Distances(m, segs, p));
        Report(Some(segs[k].feature), SegmentDistance(m, segs[k], p), SegmentBearing(m, segs[k]), rotation)
  }

  /** The matcher's running state: the feature owning the nearest segment
      so far (None while `min_dist` is still infinite), that distance and that
      segment's bearing. */
  datatype ScanState = ScanState(closest: Option<StreetFeature>, minDist: real, bearing: real)

  /** One iteration of the scan: the segment replaces the running minimum only
      when strictly nearer. */
  function Visit(m: MathLib, p: Position, st: ScanState, s: Segment): ScanState {
    var d := SegmentDistance(m, s, p);
    if st.closest.None? || d < st.minDist then ScanState(Some(s.feature), d, SegmentBearing(m, s)) else st
  }

  /** The state after visiting the segments `seen` in order. */
  function Scan(m: MathLib, p: Position, seen: seq<Segment>): ScanState {
    if seen == [] then ScanState(None, 0.0, 0.0)
    else Visit(m, p, Scan(m, p, seen[..|seen| - 1]), seen[|seen| - 1])
  }

  /** The scan ends on the first nearest segment: the state it keeps is that
      segment's feature, distance and bearing. */
  lemma {:induction false} ScanFindsNearest(m: MathLib, p: Position, seen: seq<Segment>)
    ensures seen == [] ==> Scan(m, p, seen).closest.None?
    ensures seen != [] ==>
              var k := FirstMinimum(Distances(m, seen, p));
              Scan(m, p, seen) == ScanState(Some(seen[k].feature), SegmentDistance(m, seen[k], p), SegmentBearing(m, seen[k]))
  {
    if |seen| > 1 {
      var init := seen[..|seen| - 1];
      ScanFindsNearest(m, p, init);
      assert Distances(m, seen, p)[..|seen| - 1] == Distances(m, init, p);
      var k := FirstMinimum(Distances(m, init, p));
      assert seen[k] == init[k];
    }
  }

  /** Visiting one more segment extends the scan. */
  lemma ScanNext(m: MathLib, p: Position, seen: seq<Segment>, s: Segment)
    ensures Scan(m, p, seen + [s]) == Visit(m, p, Scan(m, p, seen), s)
  {
    assert (seen + [s])[..|seen|] == seen;
  }

  /** Having scanned all of feature fi is having scanned the first fi + 1 features. */
  lemma ScanFeature(features: seq<StreetFeature>, fi: nat)
    requires fi < |features|
    ensures Segments(features[..fi + 1]) == Segments(features[..fi]) + FeatureSegments(features[fi])
  {
    assert features[..fi + 1][..fi] == features[..fi];
  }

  /** Once every segment is scanned, the state gives the specified answer. */
  lemma ScanComplete(m: MathLib, features: seq<StreetFeature>, lat: real, lon: real, rotation: int)
    ensures var st := Scan(m, Position(lon, lat), Segments(features));
            Report(st.closest, st.minDist, st.bearing, rotation) == CleaningData(m, Dataset(Some(features)), lat, lon, rotation)
  {
    ScanFindsNearest(m, Position(lon, lat), Segments(features));
  }

  /** The inner loop of find_cleaning_data: the segments of one feature in
      order (none unless it is a LineString), continuing the scan of the
      segments `before` it. */
  method ScanFeatureSegments(m: MathLib, p: Position, feature: StreetFeature, ghost before: seq<Segment>,
                             closest0: Option<StreetFeature>, minDist0: real, bearing0: real)
      returns (closest: Option<StreetFeature>, minDist: real, closestBearing: real)
    requires ScanState(closest0, minDist0, bearing0) == Scan(m, p, before)
    ensures ScanState(closest, minDist, closestBearing) == Scan(m, p, before + FeatureSegments(feature))
  {
    closest, minDist, closestBearing := closest0, minDist0, bearing0;
    ghost var own := FeatureSegments(feature);
    ghost var seen := before;
    if feature.geometry.Some? && feature.geometry.value.LineString? {
      var coords := feature.geometry.value.coords;
      var i := 0;
      assert before + own[..i] == before;
      while i < |coords| - 1
        invariant 0 <= i <= |own|
        invariant seen == before + own[..i]
        invariant ScanState(closest, minDist, closestBearing) == Scan(m, p, seen)
      {
        var p1 := coords[i];
        var p2 := coords[i + 1];
        assert own[i] == Segment(feature, p1, p2);
        ScanNext(m, p, seen, own[i]);
        ghost var st := ScanState(closest, minDist, closestBearing);
        var dist := DistancePointToSegment(m, p, p1, p2);
        if closest.None? || dist < minDist {
          minDist := dist;
          closest := Some(feature);
          closestBearing := Bearing(m, p1.lat, p1.lon, p2.lat, p2.lon);
        }
        assert ScanState(closest, minDist, closestBearing) == Visit(m, p, st, own[i]);
        assert own[..i + 1] == own[..i] + [own[i]];
        seen := seen + [own[i]];
        i := i + 1;
      }
      assert own[..i] == own;
    } else {
      assert before + own == before;
    }
  }

  /** The loops of find_cleaning_data: every segment of every LineString
      feature, in order, keeping the strictly nearest. */
  method ScanDataset(m: MathLib, features: seq<StreetFeature>, p: Position)
      returns (closest: Option<StreetFeature>, minDist: real, closestBearing: real)
    ensures ScanState(closest, minDist, closestBearing) == Scan(m, p, Segments(features))
  {
    closest := None;  // stands for min_dist = inf
    minDist := 0.0;
    closestBearing := 0.0;
    var fi := 0;
    while fi < |features|
      invariant 0 <= fi <= |features|
      invariant ScanState(closest, minDist, closestBearing) == Scan(m, p, Segments(features[..fi]))
    {
      ScanFeature(features, fi);
      closest, minDist, closestBearing :=
        ScanFeatureSegments(m, p, features[fi], Segments(features[..fi]), closest, minDist, closestBearing);
      fi := fi + 1;
    }
    assert features[..fi] == features;
  }

  /** find_cleaning_data: the nearest segment of the dataset, then the side. */
  method FindCleaningData(m: MathLib, geojson: Dataset, lat: real, lon: real, rotation: int) returns (r: Lookup)
    ensures r == CleaningData(m, geojson, lat, lon, rotation)
  {
    if geojson.features.None? {
      return NoMatch;
    }
    var closest, minDist, closestBearing := ScanDataset(m, geojson.features.value, Position(lon, lat));
    ScanComplete(m, geojson.features.value, lat, lon, rotation);
    if closest.None? {
      return NoMatch;
    }
    if closest.value.properties.None? {
      return PropertiesMissing;
    }
    var props := closest.value.properties.value;
    var choice := ChooseSide(props.sides, minDist, closestBearing, rotation);
    r := Found(MatchResult(StreetName(props.fields), choice.entry, choice.side, minDist, choice.median));
  }
}
